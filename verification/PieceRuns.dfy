/** Every run of a piece sender, its microtasks and its peer's acknowledgements as steps of their own. */
module PieceRuns {
  import opened Bytes
  import opened Tags
  import opened Frames
  import opened Pieces
  import opened PieceSteps
  import S = PieceSafety
  import C = PieceCounters

  /** `carried`: the acknowledgements taken along. `EndTask` and `Close` are the microtasks. */
  datatype Op =
    | Send(frame: Frame, headroom: real, carried: seq<Frame>, floorPerS: nat)
    | SendWaiting(headroom: real, carried: seq<Frame>)
    | EndTask
    | Close
    | Flush
    | Acknowledged(bits: nat)
    | Heartbeat(bits: nat)
    | Rates(sizes: Sizes)

  /** A frame fits a u32 with a header to spare, and a floor is a u32; an announcement closes that is open. */
  predicate Allowed(s: Sender, op: Op) {
    match op
    case Send(frame, _, carried, floorPerS) => S.MaySend(frame) && S.AllAcks(carried) && floorPerS < SEQ_SPAN
    case SendWaiting(_, carried) => S.AllAcks(carried) && (s.rest.Some? ==> s.rest.value.offset <= |s.rest.value.frame|)
    case Close => s.open.Some?
    case _ => true
  }

  /** An acknowledgement beside a rest some of which went is not cut, and an announcement that closes had less than 2^32
      bytes. */
  predicate Fits(s: Sender, op: Op)
    requires Allowed(s, op)
  {
    match op
    case Send(frame, _, _, _) => frame[0] == PIECES_ACK ==> S.AckFits(s)
    case Close => s.open.value.bytes < SEQ_SPAN
    case _ => true
  }

  function Step(s: Sender, op: Op): Sender
    requires Allowed(s, op)
  {
    match op
    case Send(frame, headroom, carried, floorPerS) => s.Send(frame, headroom, carried, floorPerS)
    case SendWaiting(headroom, carried) => s.SendWaiting(headroom, carried)
    case EndTask => s.EndTask()
    case Close => s.CloseAnnouncement()
    case Flush => s.Flush()
    case Acknowledged(bits) => if s.Acknowledge(bits).Some? then s.Acknowledge(bits).value else s
    case Heartbeat(bits) => if s.Heartbeat(bits).Some? then s.Heartbeat(bits).value else s
    case Rates(sizes) => s.(sizes := sizes)
  }

  /** The frames a step gives the sender. */
  function Given(s: Sender, op: Op): seq<seq<byte>> {
    match op
    case Send(frame, _, carried, _) => carried + [frame]
    case SendWaiting(_, carried) => if s.rest.Some? then carried else []
    case _ => []
  }

  predicate CanRun(s: Sender, ops: seq<Op>)
    decreases |ops|
  {
    ops == [] || (Allowed(s, ops[0]) && CanRun(Step(s, ops[0]), ops[1..]))
  }

  function Run(s: Sender, ops: seq<Op>): Sender
    requires CanRun(s, ops)
    decreases |ops|
  {
    if ops == [] then s else Run(Step(s, ops[0]), ops[1..])
  }

  predicate AllFit(s: Sender, ops: seq<Op>)
    requires CanRun(s, ops)
    decreases |ops|
  {
    ops == [] || (Fits(s, ops[0]) && AllFit(Step(s, ops[0]), ops[1..]))
  }

  function AllGiven(s: Sender, ops: seq<Op>): seq<seq<byte>>
    requires CanRun(s, ops)
    decreases |ops|
  {
    if ops == [] then [] else Given(s, ops[0]) + AllGiven(Step(s, ops[0]), ops[1..])
  }

  /** The invariant: with the frames given so far. */
  ghost predicate Kept(s: Sender, p: Receiver, given: seq<seq<byte>>) {
    S.Kept(s, p, given) && Counts(s)
  }

  lemma FlushKept(s: Sender, p: Receiver, given: seq<seq<byte>>) returns (q: Receiver)
    requires S.Kept(s, p, given)
    ensures S.Kept(s.Flush(), q, given)
  {
    q := S.FlushTaken(s, p);
    S.NoMore(q.delivered);
    S.NoMore(p.delivered + s.messages.frames);
  }

  /** Nothing the frames depend on changed. */
  predicate SameFrames(s: Sender, t: Sender) {
    && t.out == s.out && t.messages == s.messages && t.transmitted == s.transmitted && t.open == s.open
    && t.rest == s.rest && t.waiting == s.waiting && t.cutsData == s.cutsData
    && t.lastAnnounced == s.lastAnnounced && t.namedFloor == s.namedFloor
    && (S.EndsQueued(s) ==> S.EndsQueued(t))
  }

  lemma SameFramesKept(s: Sender, t: Sender, p: Receiver, given: seq<seq<byte>>)
    requires S.Kept(s, p, given) && SameFrames(s, t)
    ensures S.Kept(t, p, given)
  {
    assert S.Line(t, p) == S.Line(s, p);
  }

  lemma EndTaskKept(s: Sender, p: Receiver, given: seq<seq<byte>>) returns (q: Receiver)
    requires S.Kept(s, p, given)
    ensures S.Kept(s.EndTask(), q, given)
  {
    q := p;
    if s.messages.gathered {
      q := FlushKept(s, p, given);
    }
    SameFramesKept(s.FlushGathered(), s.EndTask(), q, given);
  }

  lemma CloseKept(s: Sender, p: Receiver, given: seq<seq<byte>>) returns (q: Receiver)
    requires S.Kept(s, p, given) && s.open.Some? && s.open.value.bytes < SEQ_SPAN
    ensures S.Kept(s.CloseAnnouncement(), q, given)
  {
    q := S.CloseTaken(s, p);
    S.NoMore(p.delivered);
  }

  lemma SendKept(s: Sender, p: Receiver, given: seq<seq<byte>>, op: Op) returns (q: Receiver)
    requires Kept(s, p, given) && Allowed(s, op) && Fits(s, op) && (op.Send? || op.SendWaiting?)
    ensures Kept(Step(s, op), q, given + Given(s, op))
  {
    match op {
      case Send(frame, headroom, carried, floorPerS) =>
        q := S.SendTaken(s, p, frame, headroom, carried, floorPerS, given);
        S.Assoc(given, carried, [frame]);
        C.SendCounted(s, frame, headroom, carried, floorPerS);
        C.SendGrows(s, frame, headroom, carried, floorPerS);
      case SendWaiting(headroom, carried) =>
        q := p;
        S.NoMore(given);
        if s.rest.Some? {
          q := S.SendWaitingTaken(s, p, headroom, carried, given);
          C.SendWaitingCounted(s, headroom, carried);
          C.SendWaitingGrows(s, headroom, carried);
        }
    }
  }

  lemma AcknowledgedKept(s: Sender, p: Receiver, given: seq<seq<byte>>, bits: nat)
    requires Kept(s, p, given) && s.Acknowledge(bits).Some?
    ensures Kept(s.Acknowledge(bits).value, p, given)
  {
    SameFramesKept(s, s.Acknowledge(bits).value, p, given);
    C.AcknowledgeOrdered(s, bits);
  }

  predicate Counts(s: Sender) {
    C.WaitingCounted(s) && C.Ordered(s)
  }

  lemma RatesCount(s: Sender, op: Op)
    requires Counts(s) && (op.Heartbeat? || op.Rates?)
    ensures Counts(Step(s, op)) && SameFrames(s, Step(s, op))
  {
  }

  lemma RatesKept(s: Sender, p: Receiver, given: seq<seq<byte>>, op: Op)
    requires Kept(s, p, given) && (op.Heartbeat? || op.Rates?)
    ensures Kept(Step(s, op), p, given)
  {
    RatesCount(s, op);
    SameFramesKept(s, Step(s, op), p, given);
  }

  lemma TaskCounts(s: Sender)
    requires Counts(s)
    ensures Counts(s.EndTask()) && Counts(s.Flush())
  {
  }

  lemma CloseCounts(s: Sender)
    requires Counts(s) && s.open.Some?
    ensures Counts(s.CloseAnnouncement())
  {
    C.CloseGrows(s);
  }

  lemma TaskKept(s: Sender, p: Receiver, given: seq<seq<byte>>, op: Op) returns (q: Receiver)
    requires Kept(s, p, given) && Allowed(s, op) && Fits(s, op) && (op.EndTask? || op.Close? || op.Flush?)
    ensures Kept(Step(s, op), q, given)
  {
    TaskCounts(s);
    match op {
      case EndTask => q := EndTaskKept(s, p, given);
      case Close =>
        CloseCounts(s);
        q := CloseKept(s, p, given);
      case Flush => q := FlushKept(s, p, given);
    }
  }

  lemma StepKept(s: Sender, p: Receiver, given: seq<seq<byte>>, op: Op) returns (q: Receiver)
    requires Kept(s, p, given) && Allowed(s, op) && Fits(s, op)
    ensures Kept(Step(s, op), q, given + Given(s, op))
  {
    q := p;
    S.NoMore(given);
    if op.Send? || op.SendWaiting? {
      q := SendKept(s, p, given, op);
    } else if op.EndTask? || op.Close? || op.Flush? {
      q := TaskKept(s, p, given, op);
    } else if op.Acknowledged? {
      if s.Acknowledge(op.bits).Some? {
        AcknowledgedKept(s, p, given, op.bits);
      }
    } else {
      RatesKept(s, p, given, op);
    }
  }

  lemma {:induction false} RunKept(s: Sender, p: Receiver, given: seq<seq<byte>>, ops: seq<Op>) returns (q: Receiver)
    requires Kept(s, p, given) && CanRun(s, ops) && AllFit(s, ops)
    ensures Kept(Run(s, ops), q, given + AllGiven(s, ops))
    decreases |ops|
  {
    if ops == [] {
      q := p;
      S.NoMore(given);
    } else {
      var r := StepKept(s, p, given, ops[0]);
      q := RunKept(Step(s, ops[0]), r, given + Given(s, ops[0]), ops[1..]);
      S.Assoc(given, Given(s, ops[0]), AllGiven(Step(s, ops[0]), ops[1..]));
    }
  }

  lemma NewKept(cutsData: bool, sizes: Sizes)
    ensures Kept(NewSender(cutsData, sizes), NewReceiver(), [])
  {
  }

  lemma RunFromStart(cutsData: bool, sizes: Sizes, ops: seq<Op>) returns (p: Receiver)
    requires CanRun(NewSender(cutsData, sizes), ops)
    requires AllFit(NewSender(cutsData, sizes), ops)
    ensures Kept(Run(NewSender(cutsData, sizes), ops), p, AllGiven(NewSender(cutsData, sizes), ops))
  {
    NewKept(cutsData, sizes);
    p := RunKept(NewSender(cutsData, sizes), NewReceiver(), [], ops);
    S.NoMore(AllGiven(NewSender(cutsData, sizes), ops));
  }

  /** In every run whose steps fit, feeding the receiver the bytes handed raises no violation; it took just what the
      sender counts as handed, and no announced message was past what might follow the one before. With what is still
      gathered or waits, every frame given was delivered whole, byte for byte, as often as it was given, and data in the
      order given. */
  lemma EveryRunIsTaken(cutsData: bool, sizes: Sizes, ops: seq<Op>) returns (p: Receiver)
    requires CanRun(NewSender(cutsData, sizes), ops)
    requires AllFit(NewSender(cutsData, sizes), ops)
    ensures var s, given := Run(NewSender(cutsData, sizes), ops), AllGiven(NewSender(cutsData, sizes), ops);
            && (forall i | 0 <= i < |s.out| :: s.out[i] != [])
            && NewReceiver().TakeMessages(S.Encoded(s.out)) == Ok(p)
            && p.took == s.transmitted - s.messages.bytes && p.onPace
            && S.Same(S.Line(s, p), given)
  {
    var s0 := NewSender(cutsData, sizes);
    p := RunFromStart(cutsData, sizes, ops);
    KeptAgrees(Run(s0, ops), p, AllGiven(s0, ops));
    S.PeerTakesBytes(Run(s0, ops).out);
  }

  /** In every run whose steps fit, between calls the counters agree: what waits is counted, no rest means nothing waits,
      an open announcement means nothing waits and nothing is gathered, and the queues are in order past what is
      acknowledged. */
  lemma EveryRunCounts(cutsData: bool, sizes: Sizes, ops: seq<Op>)
    requires CanRun(NewSender(cutsData, sizes), ops)
    requires AllFit(NewSender(cutsData, sizes), ops)
    ensures var s := Run(NewSender(cutsData, sizes), ops);
            C.WaitingCounted(s) && C.Ordered(s) && S.Settled(s) && S.MessagesKept(s.messages)
  {
    var p := RunFromStart(cutsData, sizes, ops);
    KeptAgrees(Run(NewSender(cutsData, sizes), ops), p, AllGiven(NewSender(cutsData, sizes), ops));
  }

  lemma KeptAgrees(s: Sender, p: Receiver, given: seq<seq<byte>>)
    requires Kept(s, p, given)
    ensures C.WaitingCounted(s) && C.Ordered(s) && S.Settled(s) && S.MessagesKept(s.messages)
    ensures Peer(s, p) && S.Same(S.Line(s, p), given)
  {
  }

  predicate Peer(s: Sender, p: Receiver) {
    S.Peer(s.out) == Ok(p) && p.took == s.transmitted - s.messages.bytes && p.onPace
  }

  lemma KeptDelivers(s: Sender, p: Receiver, given: seq<seq<byte>>)
    requires Kept(s, p, given) && s.rest.None? && s.messages.frames == []
    ensures S.Same(p.delivered, given) && p.took == s.transmitted && p.part == []
  {
    S.NoMore(p.delivered);
  }

  /** Once nothing waits and nothing is gathered or carried, the receiver has every frame given, its data in order, and
      holds nothing of another. */
  lemma AllArrived(cutsData: bool, sizes: Sizes, ops: seq<Op>) returns (p: Receiver)
    requires CanRun(NewSender(cutsData, sizes), ops)
    requires AllFit(NewSender(cutsData, sizes), ops)
    requires var s := Run(NewSender(cutsData, sizes), ops); s.rest.None? && s.messages.frames == []
    ensures var s, given := Run(NewSender(cutsData, sizes), ops), AllGiven(NewSender(cutsData, sizes), ops);
            && (forall i | 0 <= i < |s.out| :: s.out[i] != [])
            && NewReceiver().TakeMessages(S.Encoded(s.out)) == Ok(p)
            && multiset(p.delivered) == multiset(given) && S.Ordered(p.delivered) == S.Ordered(given)
            && p.took == s.transmitted && p.part == []
  {
    var s0 := NewSender(cutsData, sizes);
    p := RunFromStart(cutsData, sizes, ops);
    KeptAgrees(Run(s0, ops), p, AllGiven(s0, ops));
    KeptDelivers(Run(s0, ops), p, AllGiven(s0, ops));
    S.PeerTakesBytes(Run(s0, ops).out);
  }

  // ── Just these are taken ──

  /** The peer takes the bytes handed without a violation. */
  predicate Taken(out: seq<seq<Frame>>) {
    (forall i | 0 <= i < |out| :: out[i] != []) && NewReceiver().TakeMessages(S.Encoded(out)).Ok?
  }

  /** The peer takes what was handed so far, before a run and after each of its steps. */
  predicate StaysTaken(s: Sender, ops: seq<Op>)
    requires CanRun(s, ops)
    decreases |ops|
  {
    Taken(s.out) && (ops != [] ==> StaysTaken(Step(s, ops[0]), ops[1..]))
  }

  lemma KeptIsTaken(s: Sender, p: Receiver, given: seq<seq<byte>>)
    requires Kept(s, p, given)
    ensures Taken(s.out)
  {
    S.PeerTakesBytes(s.out);
  }

  lemma CloseMisfits(s: Sender, p: Receiver, given: seq<seq<byte>>)
    requires Kept(s, p, given) && s.open.Some? && s.open.value.bytes >= SEQ_SPAN
    ensures var out := s.CloseAnnouncement().out;
            (forall i | 0 <= i < |out| :: out[i] != []) && NewReceiver().TakeMessages(S.Encoded(out)).Violation?
  {
    S.PeerTakesBytes(s.out);
    S.CloseBreaks(s, p);
    S.BrokenBytes(s.CloseAnnouncement().out);
  }

  lemma SendMisfits(s: Sender, p: Receiver, given: seq<seq<byte>>, op: Op)
    requires Kept(s, p, given) && Allowed(s, op) && op.Send? && !Fits(s, op)
    ensures var out := Step(s, op).out;
            (forall i | 0 <= i < |out| :: out[i] != []) && NewReceiver().TakeMessages(S.Encoded(out)).Violation?
  {
    S.PeerTakesBytes(s.out);
    S.SendBreaks(s, p, op.frame, op.headroom, op.carried, op.floorPerS, given);
    S.BrokenBytes(Step(s, op).out);
  }

  /** A step is taken if and only if it fits: the bytes of one that doesn't are a violation. */
  lemma StepTakenExactly(s: Sender, p: Receiver, given: seq<seq<byte>>, op: Op)
    requires Kept(s, p, given) && Allowed(s, op)
    ensures Taken(Step(s, op).out) <==> Fits(s, op)
  {
    if Fits(s, op) {
      var q := StepKept(s, p, given, op);
      KeptIsTaken(Step(s, op), q, given + Given(s, op));
    } else if op.Close? {
      CloseMisfits(s, p, given);
    } else {
      SendMisfits(s, p, given, op);
    }
  }

  lemma {:induction false} RunTakenExactly(s: Sender, p: Receiver, given: seq<seq<byte>>, ops: seq<Op>)
    requires Kept(s, p, given) && CanRun(s, ops)
    ensures StaysTaken(s, ops) <==> AllFit(s, ops)
    decreases |ops|
  {
    KeptIsTaken(s, p, given);
    if ops != [] {
      StepTakenExactly(s, p, given, ops[0]);
      if Fits(s, ops[0]) {
        var q := StepKept(s, p, given, ops[0]);
        RunTakenExactly(Step(s, ops[0]), q, given + Given(s, ops[0]), ops[1..]);
      }
    }
  }

  /** The receiver takes all that a run hands, step after step, if and only if each of its steps fits. */
  lemma EveryRunIsTakenExactly(cutsData: bool, sizes: Sizes, ops: seq<Op>)
    requires CanRun(NewSender(cutsData, sizes), ops)
    ensures StaysTaken(NewSender(cutsData, sizes), ops) <==> AllFit(NewSender(cutsData, sizes), ops)
  {
    NewKept(cutsData, sizes);
    RunTakenExactly(NewSender(cutsData, sizes), NewReceiver(), [], ops);
  }
}
