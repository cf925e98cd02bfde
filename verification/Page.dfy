/** A page's runs: what its channels send, in any interleaving of sends, drains, wire losses, attaches and
    acknowledgements. Each channel's frames go out once, in seq order, and its replay tracks what went. */
module Pages {
  import opened Bytes
  import opened Tags
  import opened Replays
  import opened Gates
  import SendGates

  /** `ended`: channels the page gave up as LOST. `used`: every index given out. `issued`: the sequenced frames sends
      handed over so far, and `out`: what the gate let go so far. */
  datatype Page = Page(gate: Gate, records: Records, sendsOpen: bool, ended: set<nat>, used: set<nat>,
                       issued: seq<Buffered>, out: seq<Buffered>)

  const FRESH_PAGE := Page(Gate([], [], {}), map[], false, {}, {}, [], [])

  datatype Op =
    | Add(ix: nat, maxBytes: nat, binaryMaxBytes: nat)
    | SendFrame(ix: nat, frame: Frame, headroom: int, after: int)
    | SendPlain(ix: nat, frame: Frame)
    | Headroom(headroom: int)
    | DrainSome(releasable: set<nat>, headroom: int)
    | DropSubs(subscribing: set<nat>)
    | HoldSends
    | Reopen(releasable: set<nat>, first: bool, headroom: int)
    | Await(ix: nat)
    | Attached(ix: nat, headroom: int)
    | LoseWire
    | HasThrough(ix: nat, lastSeq: nat)
    | Limits(ix: nat, maxBytes: nat, binaryMaxBytes: nat)
    | CloseChannel(ix: nat)
    | Lose(ix: nat)
    | ReleaseChannel(ix: nat)

  /** What the connection owes the gate: an index is given out once; only while sends are held does it await a channel;
      sends reopen as every held frame of a channel not awaited is released; the peer acknowledges what it was sent. */
  predicate Allowed(p: Page, op: Op) {
    match op
    case Add(ix, _, _) => ix !in p.used
    case SendFrame(_, frame, _, _) => Sequenced(frame)
    case SendPlain(_, frame) => !Sequenced(frame)
    case Reopen(releasable, _, _) => Unawaited(p.records) <= releasable
    case Await(ix) => ix in p.records && !p.sendsOpen
    case Attached(ix, _) => ix in p.records
    case HasThrough(ix, lastSeq) => ix in p.records ==> lastSeq <= p.records[ix].replay.pushed
    case CloseChannel(ix) => ix in p.records
    case Lose(ix) => ix in p.records
    case ReleaseChannel(ix) => ix in p.records
    case _ => true
  }

  function Took(p: Page, o: Outcome): Page {
    p.(gate := o.gate, records := o.records, out := p.out + o.out)
  }

  function SetRecord(p: Page, ix: nat, record: Record): Page {
    p.(records := p.records[ix := record])
  }

  function Closing(record: Record): Record {
    if record.state.Closed? then record
    else record.(state := Closed(record.state.Pending? && record.state.initial, false, false))
  }

  /** A closed channel sends nothing; a refused frame takes no seq. */
  predicate Sends(p: Page, ix: nat) {
    ix in p.records && !p.records[ix].state.Closed?
  }

  /** The frame's seq taken. */
  function Issue(p: Page, ix: nat, frame: Frame): Page
    requires ix in p.records
  {
    var replay := p.records[ix].replay.NextSeq();
    SetRecord(p, ix, p.records[ix].(replay := replay))
    .(issued := p.issued + [Buffered(frame, ix, Some(replay.issued))])
  }

  function SendNext(p: Page, ix: nat, frame: Frame, headroom: int, after: int): Page
    requires ix in p.records
  {
    Took(Issue(p, ix, frame), IssueAndSend(p.gate, p.records, ix, frame, Sending(p.sendsOpen, headroom, after)))
  }

  function StopAwaiting(records: Records): Records {
    map ix | ix in records :: records[ix].(awaited := false)
  }

  function Step(p: Page, op: Op): Page
    requires Allowed(p, op)
  {
    match op
    case Add(ix, maxBytes, binaryMaxBytes) =>
      SetRecord(p, ix, Record(Pending(true), Fresh(maxBytes, binaryMaxBytes), 0, false))
      .(sendsOpen := false, used := p.used + {ix})
    case SendFrame(ix, frame, headroom, after) => if Sends(p, ix) then SendNext(p, ix, frame, headroom, after) else p
    case SendPlain(ix, frame) =>
      if Sends(p, ix)
      then Took(p, SendUnsequenced(p.gate, p.records, Buffered(frame, ix, None), p.sendsOpen))
      else p
    case Headroom(headroom) => if p.sendsOpen then Took(p, SendWaiting(p.gate, p.records, headroom)) else p
    case DrainSome(releasable, headroom) => Took(p, Drain(p.gate, p.records, releasable, p.sendsOpen, headroom))
    case DropSubs(subscribing) => p.(gate := DropSubscriptions(p.gate, subscribing, p.sendsOpen))
    case HoldSends => p.(sendsOpen := false)
    case Reopen(releasable, first, headroom) =>
      Took(p, Drain(p.gate, p.records, releasable, first, headroom)).(sendsOpen := true)
    case Await(ix) => SetRecord(p, ix, p.records[ix].(awaited := true))
    case Attached(ix, headroom) =>
      var q := SetRecord(p, ix, p.records[ix].(awaited := false));
      Took(q, Drain(q.gate, q.records, {ix}, p.sendsOpen, headroom))
    case LoseWire => p.(records := StopAwaiting(p.records), sendsOpen := false)
    case HasThrough(ix, lastSeq) =>
      if ix in p.records
      then SetRecord(p, ix, p.records[ix].(replay := p.records[ix].replay.Acknowledge(lastSeq)))
      else p
    case Limits(ix, maxBytes, binaryMaxBytes) =>
      if ix in p.records
      then SetRecord(p, ix, p.records[ix].(replay := p.records[ix].replay.SetLimits(maxBytes, binaryMaxBytes)))
      else p
    case CloseChannel(ix) => SetRecord(p, ix, Closing(p.records[ix]))
    case Lose(ix) =>
      SetRecord(p, ix, Closing(p.records[ix]).(replay := p.records[ix].replay.NextSeq()))
      .(gate := DropQueue(p.gate, ix), ended := p.ended + {ix})
    case ReleaseChannel(ix) => p.(records := p.records - {ix}, gate := DropQueue(p.gate, ix))
  }

  // ── What every step keeps ──

  predicate NumberedFrom1(q: seq<Entry>) {
    forall i | 0 <= i < |q| :: q[i].seqNo == i + 1 && Sequenced(q[i].frame)
  }

  /** What went out, then what is queued, is what was issued, seq after seq, and the replay tracks what went out. */
  predicate InOrder(r: Replay, gone: seq<Entry>, queue: seq<Entry>, issued: seq<Entry>) {
    && gone + queue == issued && NumberedFrom1(issued)
    && r.pushed == |gone| && r.issued == |issued| && r.acked <= r.pushed
    && r.Tracks(FramesOf(gone))
  }

  predicate LaneKept(p: Page, ix: nat)
    requires ix in p.records
  {
    var lane := LaneOf(p.gate, p.records, ix);
    && ix in p.used && ix !in p.gate.dropped
    && InOrder(lane.replay, Of(p.out, ix), lane.Queue(), Of(p.issued, ix))
    && (CanSend(p.records, ix, p.sendsOpen) ==> lane.held == [])
  }

  predicate Live(p: Page, ix: nat) {
    ix in p.records && ix !in p.ended
  }

  // ── Order ──

  lemma FramesOfAppend(a: seq<Entry>, b: seq<Entry>)
    ensures FramesOf(a + b) == FramesOf(a) + FramesOf(b)
  {
  }

  lemma OrderIssued(r: Replay, gone: seq<Entry>, queue: seq<Entry>, issued: seq<Entry>, frame: Frame)
    requires InOrder(r, gone, queue, issued) && Sequenced(frame)
    ensures var e := Entry(r.issued + 1, frame);
            InOrder(r.NextSeq(), gone, queue + [e], issued + [e])
  {
    StepTracks(r, FramesOf(gone), Replays.Op.Issue);
    assert FramesOf(gone) + [] == FramesOf(gone);
    Assoc(gone, queue, [Entry(r.issued + 1, frame)]);
  }

  lemma {:induction false} OrderGoes(r: Replay, gone: seq<Entry>, out: seq<Entry>, queue: seq<Entry>, issued: seq<Entry>)
    requires InOrder(r, gone, out + queue, issued) && AllSequenced(out)
    ensures InOrder(PushAll(r, out), gone + out, queue, issued)
    decreases |out|
  {
    Assoc(gone, out, queue);
    if out == [] {
      assert gone + out == gone && out + queue == queue;
    } else {
      var e, rest := out[0], out[1..];
      assert out == [e] + rest;
      Assoc(gone, [e], rest + queue);
      assert issued[|gone|] == e;
      PushTracks(r, FramesOf(gone), e.frame);
      FramesOfAppend(gone, [e]);
      assert FramesOf([e]) == [e.frame];
      OrderGoes(r.Push(e.seqNo, e.frame), gone + [e], rest, queue, issued);
      Assoc(gone, [e], rest);
    }
  }

  /** A move of the lane keeps the order of the whole. */
  lemma OrderMoves(lane: Lane, out: seq<Entry>, to: Lane, gone: seq<Entry>, issued: seq<Entry>)
    requires InOrder(lane.replay, gone, lane.Queue(), issued) && Moves(lane, out, to)
    ensures InOrder(to.replay, gone + out, to.Queue(), issued)
  {
    OrderGoes(lane.replay, gone, out, to.Queue(), issued);
  }

  lemma TookOrder(p: Page, lane: Lane, o: Outcome, ix: nat)
    requires ix in o.records
    requires InOrder(lane.replay, Of(p.out, ix), lane.Queue(), Of(p.issued, ix))
    requires Moves(lane, Of(o.out, ix), LaneOf(o.gate, o.records, ix))
    ensures var to := LaneOf(o.gate, o.records, ix);
            InOrder(to.replay, Of(p.out + o.out, ix), to.Queue(), Of(p.issued, ix))
  {
    OrderMoves(lane, Of(o.out, ix), LaneOf(o.gate, o.records, ix), Of(p.out, ix), Of(p.issued, ix));
    OfAppend(p.out, o.out, ix);
  }

  lemma IssueJoinsOwn(p: Page, ix: nat, frame: Frame)
    requires ix in p.records && Sequenced(frame)
    requires var lane := LaneOf(p.gate, p.records, ix);
             InOrder(lane.replay, Of(p.out, ix), lane.Queue(), Of(p.issued, ix))
    ensures var q := Issue(p, ix, frame);
            var lane := Joined(LaneOf(q.gate, q.records, ix), q.issued[|p.issued|], ix);
            InOrder(lane.replay, Of(q.out, ix), lane.Queue(), Of(q.issued, ix))
  {
    var q, lane := Issue(p, ix, frame), LaneOf(p.gate, p.records, ix);
    var e := Buffered(frame, ix, Some(lane.replay.issued + 1));
    IssuedLane(p, ix, frame);
    OfAppend(p.issued, [e], ix);
    OfOne(e, ix);
    OrderIssued(lane.replay, Of(p.out, ix), lane.Queue(), Of(p.issued, ix), frame);
    JoinedQueue(lane.(replay := lane.replay.NextSeq()), e, ix);
  }

  lemma IssuedLane(p: Page, ix: nat, frame: Frame)
    requires ix in p.records
    ensures var q, lane := Issue(p, ix, frame), LaneOf(p.gate, p.records, ix);
            && ix in q.records && LaneOf(q.gate, q.records, ix) == lane.(replay := lane.replay.NextSeq())
            && q.issued == p.issued + [Buffered(frame, ix, Some(lane.replay.issued + 1))] && q.out == p.out
  {
  }

  /** A frame joins its channel's queue at the end. */
  lemma JoinedQueue(lane: Lane, e: Buffered, ix: nat)
    requires e.Numbered() && e.ix == ix
    ensures Joined(lane, e, ix).Queue() == lane.Queue() + [Entry(e.seqNo.value, e.frame)]
    ensures Joined(lane, e, ix).replay == lane.replay
  {
    OfOne(e, ix);
    Assoc(lane.waiting, lane.held, [Entry(e.seqNo.value, e.frame)]);
  }

  lemma IssueLeavesOther(p: Page, ix: nat, frame: Frame, other: nat)
    requires ix in p.records && other in p.records && other != ix
    ensures var q := Issue(p, ix, frame);
            && LaneOf(q.gate, q.records, other) == LaneOf(p.gate, p.records, other)
            && Joined(LaneOf(q.gate, q.records, other), q.issued[|p.issued|], other) == LaneOf(p.gate, p.records, other)
            && Of(q.issued, other) == Of(p.issued, other)
  {
    var e := Issue(p, ix, frame).issued[|p.issued|];
    OfAppend(p.issued, [e], other);
    OfOne(e, other);
    assert Of(p.issued, other) + [] == Of(p.issued, other);
  }

  /** A frame issued joins its channel's lane, and no other's. */
  lemma IssueJoins(p: Page, ix: nat, frame: Frame, other: nat)
    requires ix in p.records && other in p.records && Sequenced(frame)
    requires var lane := LaneOf(p.gate, p.records, other);
             InOrder(lane.replay, Of(p.out, other), lane.Queue(), Of(p.issued, other))
    ensures var q := Issue(p, ix, frame);
            var lane := Joined(LaneOf(q.gate, q.records, other), q.issued[|p.issued|], other);
            InOrder(lane.replay, Of(q.out, other), lane.Queue(), Of(q.issued, other))
  {
    if other == ix {
      IssueJoinsOwn(p, ix, frame);
    } else {
      IssueLeavesOther(p, ix, frame, other);
    }
  }

  lemma SendNextKept(p: Page, ix: nat, frame: Frame, headroom: int, after: int, other: nat)
    requires ix in p.records && other in p.records && Sequenced(frame)
    requires LaneKept(p, ix) && LaneKept(p, other)
    ensures var s := SendNext(p, ix, frame, headroom, after);
            other in s.records && LaneKept(s, other)
  {
    var q := Issue(p, ix, frame);
    var e := q.issued[|p.issued|];
    assert e.Numbered() && e.ix == ix;
    IssueJoins(p, ix, frame, other);
    SendOf(q.gate, q.records, e, p.sendsOpen, headroom, after, other);
    TookKept(q, Joined(LaneOf(q.gate, q.records, other), e, other),
             Send(q.gate, q.records, e, p.sendsOpen, headroom, after), other);
  }

  lemma TookKept(q: Page, lane: Lane, o: Outcome, ix: nat)
    requires ix in q.records && ix in o.records && ix in q.used && ix !in o.gate.dropped
    requires InOrder(lane.replay, Of(q.out, ix), lane.Queue(), Of(q.issued, ix))
    requires Moves(lane, Of(o.out, ix), LaneOf(o.gate, o.records, ix))
    requires CanSend(o.records, ix, q.sendsOpen) ==> LaneOf(o.gate, o.records, ix).held == []
    ensures ix in Took(q, o).records && LaneKept(Took(q, o), ix)
  {
    TookOrder(q, lane, o, ix);
  }

  lemma PlainKept(p: Page, e: Buffered, other: nat)
    requires e.ix in p.records && other in p.records && !e.Numbered() && LaneKept(p, other) && LaneKept(p, e.ix)
    ensures LaneKept(Took(p, SendUnsequenced(p.gate, p.records, e, p.sendsOpen)), other)
  {
    var o, lane := SendUnsequenced(p.gate, p.records, e, p.sendsOpen), LaneOf(p.gate, p.records, other);
    if CanSend(p.records, e.ix, p.sendsOpen) {
      OfOne(e, other);
      MovesStill(lane, lane);
    } else {
      HoldOf(p.gate, p.records, e, p.sendsOpen, other);
      var s := Settle(p.gate, p.sendsOpen);
      SettleOf(p.gate, p.records, p.sendsOpen, other);
      OfAppend(s.buffer, [e], other);
      OfOne(e, other);
      assert Of(s.buffer, other) + [] == Of(s.buffer, other);
    }
    TookOrder(p, lane, o, other);
  }

  lemma HeadroomKept(p: Page, headroom: int, ix: nat)
    requires ix in p.records && LaneKept(p, ix)
    ensures var s := Took(p, SendWaiting(p.gate, p.records, headroom));
            ix in s.records && LaneKept(s, ix)
  {
    SendWaitingOf(p.gate, p.records, headroom, ix);
    TookOrder(p, LaneOf(p.gate, p.records, ix), SendWaiting(p.gate, p.records, headroom), ix);
  }

  /** `first`: sends were open while it drained. */
  lemma DrainKept(p: Page, releasable: set<nat>, first: bool, headroom: int, ix: nat)
    requires ix in p.records && ix in p.used
    requires InOrder(p.records[ix].replay, Of(p.out, ix), LaneOf(p.gate, p.records, ix).Queue(), Of(p.issued, ix))
    ensures var s := Took(p, Drain(p.gate, p.records, releasable, first, headroom));
            && ix in s.records && s.gate.dropped == {} && s.records[ix].awaited == p.records[ix].awaited
            && InOrder(s.records[ix].replay, Of(s.out, ix), LaneOf(s.gate, s.records, ix).Queue(), Of(s.issued, ix))
            && (ix in releasable || (first && LaneOf(p.gate, p.records, ix).held == []) ==>
                  LaneOf(s.gate, s.records, ix).held == [])
  {
    DrainOf(p.gate, p.records, releasable, first, headroom, ix);
    TookOrder(p, LaneOf(p.gate, p.records, ix), Drain(p.gate, p.records, releasable, first, headroom), ix);
  }

  lemma SettledKept(p: Page, subscribing: set<nat>, ix: nat)
    requires ix in p.records && LaneKept(p, ix)
    ensures LaneKept(p.(gate := DropSubscriptions(p.gate, subscribing, p.sendsOpen)), ix)
  {
    SettleOf(p.gate, p.records, p.sendsOpen, ix);
    OfWithoutSubscriptions(Settle(p.gate, p.sendsOpen).buffer, subscribing, ix);
    var lane := LaneOf(p.gate, p.records, ix);
    assert [] + lane.Queue() == lane.Queue();
  }

  /** Its replay's own steps. */
  lemma ReplayKept(r: Replay, gone: seq<Entry>, queue: seq<Entry>, issued: seq<Entry>, op: Replays.Op)
    requires InOrder(r, gone, queue, issued) && (op.Ack? || op.Limit?) && Replays.Allowed(r, op)
    ensures InOrder(Apply(r, op), gone, queue, issued)
  {
    StepTracks(r, FramesOf(gone), op);
    assert FramesOf(gone) + [] == FramesOf(gone);
  }

  lemma DropQueueOf(g: Gate, records: Records, dropped: nat, ix: nat)
    requires ix in records && ix != dropped
    ensures LaneOf(DropQueue(g, dropped), records, ix) == LaneOf(g, records, ix)
    ensures ix !in g.dropped ==> ix !in DropQueue(g, dropped).dropped
  {
  }

  lemma {:induction false} OfUnused(q: seq<Buffered>, used: set<nat>, ix: nat)
    requires AllUsed(q, used) && ix !in used
    ensures Of(q, ix) == []
  {
    if q != [] {
      assert q[0].ix in used;
      assert forall i | 0 <= i < |q[1..]| :: q[1..][i] == q[i + 1];
      OfUnused(q[1..], used, ix);
    }
  }

  lemma AddKept(p: Page, ix: nat, maxBytes: nat, binaryMaxBytes: nat)
    requires GateUsed(p.gate, p.used) && AllUsed(p.issued, p.used) && AllUsed(p.out, p.used) && ix !in p.used
    ensures LaneKept(Step(p, Add(ix, maxBytes, binaryMaxBytes)), ix)
  {
    OfUnused(p.gate.buffer, p.used, ix);
    OfUnused(p.gate.waiting, p.used, ix);
    OfUnused(p.issued, p.used, ix);
    OfUnused(p.out, p.used, ix);
    FreshLane(maxBytes, binaryMaxBytes);
    assert ix !in p.gate.dropped;
  }

  /** A channel that sent nothing yet. */
  lemma FreshLane(maxBytes: nat, binaryMaxBytes: nat)
    ensures InOrder(Fresh(maxBytes, binaryMaxBytes), [], [], [])
  {
    assert FramesOf([]) == [];
  }

  // ── Every run ──

  /** Whatever is queued is a listed channel's, or dropped; a lost channel is closed, and only its frames are dropped
      while it is listed. */
  ghost predicate Bookkept(p: Page) {
    && GateUsed(p.gate, Queued(p.gate, p.records))
    && p.gate.dropped <= p.used && p.records.Keys <= p.used && p.ended <= p.used
    && (forall ix | ix in p.records && ix in p.ended :: p.records[ix].state.Closed?)
    && (forall ix | ix in p.records && ix in p.gate.dropped :: ix in p.ended)
    && AllUsed(p.issued, p.used) && AllUsed(p.out, p.used)
  }

  function Queued(g: Gate, records: Records): set<nat> {
    records.Keys + g.dropped
  }

  lemma TookBookkept(p: Page, o: Outcome)
    requires Bookkept(p) && OutcomeUsed(p.gate, p.records, o, Queued(p.gate, p.records))
    ensures Bookkept(Took(p, o)) && Took(p, o).records.Keys == p.records.Keys
  {
  }

  lemma SendBookkept(p: Page, ix: nat, frame: Frame, headroom: int, after: int)
    requires Bookkept(p) && Sends(p, ix)
    ensures var s := SendNext(p, ix, frame, headroom, after);
            Bookkept(s) && s.records.Keys == p.records.Keys
  {
    var q := Issue(p, ix, frame);
    SendUsed(q.gate, q.records, q.issued[|p.issued|], p.sendsOpen, headroom, after, Queued(q.gate, q.records));
    TookBookkept(q, Send(q.gate, q.records, q.issued[|p.issued|], p.sendsOpen, headroom, after));
  }

  /** What a step may do to which channels it lists. */
  predicate Lists(p: Page, op: Op, s: Page) {
    && p.ended <= s.ended
    && s.records.Keys <= p.records.Keys + if op.Add? then {op.ix} else {}
  }

  lemma DrainBookkept(p: Page, releasable: set<nat>, sendsOpen: bool, headroom: int)
    requires Bookkept(p)
    ensures var s := Took(p, Drain(p.gate, p.records, releasable, sendsOpen, headroom));
            Bookkept(s) && s.records.Keys == p.records.Keys
  {
    DrainUsed(p.gate, p.records, releasable, sendsOpen, headroom, Queued(p.gate, p.records));
    TookBookkept(p, Drain(p.gate, p.records, releasable, sendsOpen, headroom));
  }

  predicate QueuesOrDrains(op: Op) {
    op.SendFrame? || op.SendPlain? || op.Headroom? || op.DrainSome? || op.DropSubs? || op.Reopen? || op.Attached?
  }

  lemma GateStepBookkept(p: Page, op: Op)
    requires Bookkept(p) && Allowed(p, op) && QueuesOrDrains(op)
    ensures Bookkept(Step(p, op)) && Lists(p, op, Step(p, op))
  {
    match op {
      case SendFrame(ix, frame, headroom, after) =>
        if Sends(p, ix) {
          SendBookkept(p, ix, frame, headroom, after);
        }
      case SendPlain(ix, frame) =>
        if Sends(p, ix) {
          SendPlainUsed(p.gate, p.records, Buffered(frame, ix, None), p.sendsOpen, Queued(p.gate, p.records));
          TookBookkept(p, SendUnsequenced(p.gate, p.records, Buffered(frame, ix, None), p.sendsOpen));
        }
      case Headroom(headroom) =>
        SendWaitingUsed(p.gate, p.records, headroom, Queued(p.gate, p.records));
        TookBookkept(p, SendWaiting(p.gate, p.records, headroom));
      case DrainSome(releasable, headroom) => DrainBookkept(p, releasable, p.sendsOpen, headroom);
      case DropSubs(subscribing) =>
        SettleUsed(p.gate, p.sendsOpen, Queued(p.gate, p.records));
        WithoutSubscriptionsUsed(Settle(p.gate, p.sendsOpen).buffer, subscribing, p.records.Keys);
      case Reopen(releasable, first, headroom) => DrainBookkept(p, releasable, first, headroom);
      case Attached(ix, headroom) =>
        DrainBookkept(SetRecord(p, ix, p.records[ix].(awaited := false)), {ix}, p.sendsOpen, headroom);
    }
  }

  lemma StepBookkept(p: Page, op: Op)
    requires Bookkept(p) && Allowed(p, op)
    ensures Bookkept(Step(p, op)) && Lists(p, op, Step(p, op))
  {
    if QueuesOrDrains(op) {
      GateStepBookkept(p, op);
    }
  }

  /** Each step keeps the lane of every channel it neither adds nor ends. */
  lemma LiveStep(p: Page, op: Op, ix: nat)
    requires Bookkept(p) && Allowed(p, op) && ix in p.records && LaneKept(p, ix) && ix in Step(p, op).records
    requires ix !in Step(p, op).ended
    requires op.SendFrame? && op.ix in p.records && op.ix !in p.ended ==> LaneKept(p, op.ix)
    requires op.SendPlain? && op.ix in p.records && op.ix !in p.ended ==> LaneKept(p, op.ix)
    ensures LaneKept(Step(p, op), ix)
  {
    var lane := LaneOf(p.gate, p.records, ix);
    match op {
      case SendFrame(at, frame, headroom, after) =>
        if Sends(p, at) {
          SendNextKept(p, at, frame, headroom, after, ix);
        }
      case SendPlain(at, frame) =>
        if Sends(p, at) {
          PlainKept(p, Buffered(frame, at, None), ix);
        }
      case Headroom(headroom) => HeadroomKept(p, headroom, ix);
      case DrainSome(releasable, headroom) => DrainKept(p, releasable, p.sendsOpen, headroom, ix);
      case DropSubs(subscribing) => SettledKept(p, subscribing, ix);
      case Reopen(releasable, first, headroom) => DrainKept(p, releasable, first, headroom, ix);
      case Attached(at, headroom) =>
        DrainKept(SetRecord(p, at, p.records[at].(awaited := false)), {at}, p.sendsOpen, headroom, ix);
      case HasThrough(at, lastSeq) =>
        ReplayKept(p.records[ix].replay, Of(p.out, ix), lane.Queue(), Of(p.issued, ix),
                   if at == ix then Ack(lastSeq) else Ack(0));
      case Limits(at, maxBytes, binaryMaxBytes) =>
        ReplayKept(p.records[ix].replay, Of(p.out, ix), lane.Queue(), Of(p.issued, ix), Limit(maxBytes, binaryMaxBytes));
      case Lose(at) => DropQueueOf(p.gate, p.records, at, ix);
      case ReleaseChannel(at) => DropQueueOf(p.gate, p.records, at, ix);
      case _ =>
    }
  }

  /** Every channel the page still serves is in order. */
  ghost predicate Kept(p: Page) {
    Bookkept(p) && forall ix | ix in p.records && ix !in p.ended :: LaneKept(p, ix)
  }

  lemma StepKept(p: Page, op: Op)
    requires Kept(p) && Allowed(p, op)
    ensures Kept(Step(p, op))
  {
    StepBookkept(p, op);
    var s := Step(p, op);
    forall ix | ix in s.records && ix !in s.ended
      ensures LaneKept(s, ix)
    {
      if ix in p.records {
        LiveStep(p, op, ix);
      } else {
        AddKept(p, ix, op.maxBytes, op.binaryMaxBytes);
      }
    }
  }

  predicate AllowedRun(p: Page, ops: seq<Op>)
    decreases |ops|
  {
    ops == [] || (Allowed(p, ops[0]) && AllowedRun(Step(p, ops[0]), ops[1..]))
  }

  function Run(p: Page, ops: seq<Op>): Page
    requires AllowedRun(p, ops)
    decreases |ops|
  {
    if ops == [] then p else Run(Step(p, ops[0]), ops[1..])
  }

  lemma {:induction false} RunKept(p: Page, ops: seq<Op>)
    requires Kept(p) && AllowedRun(p, ops)
    ensures Kept(Run(p, ops))
    decreases |ops|
  {
    if ops != [] {
      StepKept(p, ops[0]);
      RunKept(Step(p, ops[0]), ops[1..]);
    }
  }

  /** In every run, a channel not lost has each frame issued exactly once, in seq order: first those that went out, which
      its replay was pushed, then those waiting for headroom, then those held. */
  lemma EveryRunIsInOrder(ops: seq<Op>, ix: nat)
    requires AllowedRun(FRESH_PAGE, ops)
    requires var p := Run(FRESH_PAGE, ops); ix in p.records && ix !in p.ended
    ensures var p := Run(FRESH_PAGE, ops);
            var lane := LaneOf(p.gate, p.records, ix);
            && Of(p.out, ix) + (lane.waiting + lane.held) == Of(p.issued, ix)
            && NumberedFrom1(Of(p.issued, ix))
            && lane.replay.pushed == |Of(p.out, ix)| && lane.replay.issued == |Of(p.issued, ix)|
            && (p.sendsOpen && !p.records[ix].awaited ==> lane.held == [])
  {
    assert Kept(FRESH_PAGE);
    RunKept(FRESH_PAGE, ops);
    assert LaneKept(Run(FRESH_PAGE, ops), ix);
  }

  lemma ReplayIsWhatWent(r: Replay, gone: seq<Entry>, lastSeq: nat)
    requires r.Tracks(FramesOf(gone)) && lastSeq <= |gone|
    ensures r.GetAfter(lastSeq, None).Some? ==> r.GetAfter(lastSeq, None).value == FramesOf(gone)[lastSeq..]
    ensures r.GetAfter(lastSeq, None).Some? <==> forall s | lastSeq < s <= |gone| :: r.Held(s)
  {
    GetAfterExact(r, FramesOf(gone), lastSeq, None);
  }

  /** In every run, what a replay after `lastSeq` gives is exactly the frames that went out after it, or nothing. */
  lemma EveryReplayIsWhatWent(ops: seq<Op>, ix: nat, lastSeq: nat)
    requires AllowedRun(FRESH_PAGE, ops)
    requires var p := Run(FRESH_PAGE, ops); ix in p.records && ix !in p.ended && lastSeq <= |Of(p.out, ix)|
    ensures var p := Run(FRESH_PAGE, ops);
            var r, gone := p.records[ix].replay, Of(p.out, ix);
            && (r.GetAfter(lastSeq, None).Some? ==> r.GetAfter(lastSeq, None).value == FramesOf(gone)[lastSeq..])
            && (r.GetAfter(lastSeq, None).Some? <==> forall s | lastSeq < s <= |gone| :: r.Held(s))
  {
    assert Kept(FRESH_PAGE);
    RunKept(FRESH_PAGE, ops);
    var p := Run(FRESH_PAGE, ops);
    assert LaneKept(p, ix);
    ReplayIsWhatWent(p.records[ix].replay, Of(p.out, ix), lastSeq);
  }

  // ── With headroom ──

  lemma {:induction false} NoneWait(q: seq<Buffered>, headroom: int)
    requires headroom > SendGates.BytesOf(q)
    ensures Going(q, headroom) == |q|
  {
    if q != [] {
      NoneWait(q[1..], headroom - |q[0].frame|);
    }
  }

  lemma {:induction false} WithoutBytes(q: seq<Buffered>, dropped: set<nat>)
    ensures SendGates.BytesOf(Without(q, dropped)) <= SendGates.BytesOf(q)
  {
    if q != [] {
      WithoutBytes(q[1..], dropped);
      SendGates.BytesOfAppend(if q[0].ix in dropped then [] else [q[0]], Without(q[1..], dropped));
      assert [q[0]][1..] == [];
    }
  }

  /** With headroom for all that waits, nothing waits any more. */
  lemma NothingWaits(g: Gate, records: Records, headroom: int)
    requires headroom > SendGates.BytesOf(g.waiting)
    ensures SendWaiting(g, records, headroom).gate.waiting == []
  {
    WithoutBytes(g.waiting, g.dropped);
    var d := DropQueues(g);
    if g.waiting != [] {
      NoneWait(d.waiting, headroom);
      assert d.waiting[|d.waiting|..] == [];
    }
  }

  /** After every run, reopening sends and then headroom for what waits let out every frame issued, of every channel
      neither lost nor awaited. */
  lemma EveryFrameGoes(ops: seq<Op>, headroom: int, more: int, ix: nat)
    requires AllowedRun(FRESH_PAGE, ops)
    requires var p := Run(FRESH_PAGE, ops);
             && ix in p.records && ix !in p.ended && !p.records[ix].awaited
             && more > SendGates.BytesOf(Step(p, Reopen(Unawaited(p.records), p.sendsOpen, headroom)).gate.waiting)
    ensures var p := Run(FRESH_PAGE, ops);
            Of(Step(Step(p, Reopen(Unawaited(p.records), p.sendsOpen, headroom)), Headroom(more)).out, ix)
            == Of(p.issued, ix)
  {
    assert Kept(FRESH_PAGE);
    RunKept(FRESH_PAGE, ops);
    var p := Run(FRESH_PAGE, ops);
    var r := Step(p, Reopen(Unawaited(p.records), p.sendsOpen, headroom));
    StepKept(p, Reopen(Unawaited(p.records), p.sendsOpen, headroom));
    DrainKept(p, Unawaited(p.records), p.sendsOpen, headroom, ix);
    assert ix in r.records && CanSend(r.records, ix, r.sendsOpen) && LaneKept(r, ix);
    AllGone(r, more, ix);
  }

  lemma AllGone(p: Page, headroom: int, ix: nat)
    requires Kept(p) && ix in p.records && ix !in p.ended && p.sendsOpen && !p.records[ix].awaited
    requires headroom > SendGates.BytesOf(p.gate.waiting)
    ensures Of(Step(p, Headroom(headroom)).out, ix) == Of(p.issued, ix)
  {
    var q := Step(p, Headroom(headroom));
    NothingWaits(p.gate, p.records, headroom);
    StepKept(p, Headroom(headroom));
    SendWaitingOf(p.gate, p.records, headroom, ix);
    assert LaneKept(q, ix) && LaneOf(q.gate, q.records, ix).Queue() == [];
    assert Of(q.out, ix) + [] == Of(q.out, ix);
  }

  // ── Once a channel ended ──

  /** Nothing of channel `ix` is queued but what goes at the next read, and it sends no more. */
  ghost predicate Over(p: Page, ix: nat) {
    && ix in p.used && (ix in p.records ==> p.records[ix].state.Closed?) && Free(p.gate, ix)
  }

  ghost predicate Free(g: Gate, ix: nat) {
    ix in g.dropped || NoneIn(g.buffer + g.waiting, ix)
  }

  ghost predicate NoneIn(q: seq<Buffered>, ix: nat) {
    forall i | 0 <= i < |q| :: q[i].ix != ix
  }

  lemma {:induction false} WithoutFree(q: seq<Buffered>, dropped: set<nat>, ix: nat)
    requires ix in dropped || NoneIn(q, ix)
    ensures NoneIn(Without(q, dropped), ix)
  {
    if q != [] {
      assert forall i | 0 <= i < |q[1..]| :: q[1..][i] == q[i + 1];
      WithoutFree(q[1..], dropped, ix);
    }
  }

  lemma SettleFree(g: Gate, sendsOpen: bool, ix: nat)
    requires Free(g, ix)
    ensures var s, d := Settle(g, sendsOpen), DropQueues(g);
            NoneIn(s.buffer, ix) && NoneIn(s.waiting, ix) && NoneIn(d.buffer, ix) && NoneIn(d.waiting, ix)
  {
    var all := g.buffer + g.waiting;
    assert forall i | 0 <= i < |g.buffer| :: all[i] == g.buffer[i];
    assert forall i | 0 <= i < |g.waiting| :: all[|g.buffer| + i] == g.waiting[i];
    WithoutFree(g.buffer, g.dropped, ix);
    WithoutFree(g.waiting, g.dropped, ix);
  }

  /** A step of the gate lets none of its frames out, and takes none in. */
  ghost predicate StaysFree(o: Outcome, ix: nat) {
    Free(o.gate, ix) && NoneIn(o.out, ix)
  }

  lemma {:induction false} DrainFirstFree(buffer: seq<Buffered>, n: nat, releasable: set<nat>, from: Draining, ix: nat)
    requires n <= |buffer| && NoneIn(buffer, ix) && NoneIn(from.kept, ix) && NoneIn(from.waiting, ix) && NoneIn(from.out, ix)
    ensures var d := DrainFirst(buffer, n, releasable, from);
            NoneIn(d.kept, ix) && NoneIn(d.waiting, ix) && NoneIn(d.out, ix)
  {
    if n > 0 {
      DrainFirstFree(buffer, n - 1, releasable, from, ix);
    }
  }

  lemma DrainFree(g: Gate, records: Records, releasable: set<nat>, sendsOpen: bool, headroom: int, ix: nat)
    requires Free(g, ix)
    ensures StaysFree(Drain(g, records, releasable, sendsOpen, headroom), ix)
  {
    SettleFree(g, sendsOpen, ix);
    var s := Settle(g, sendsOpen);
    DrainFirstFree(s.buffer, |s.buffer|, releasable, Draining([], s.waiting, headroom, records, []), ix);
  }

  lemma SendWaitingFree(g: Gate, records: Records, headroom: int, ix: nat)
    requires Free(g, ix)
    ensures StaysFree(SendWaiting(g, records, headroom), ix)
  {
    SettleFree(g, true, ix);
  }

  lemma HoldFree(g: Gate, records: Records, e: Buffered, sendsOpen: bool, ix: nat)
    requires Free(g, ix) && e.ix != ix
    ensures StaysFree(Hold(g, records, e, sendsOpen), ix)
  {
    SettleFree(g, sendsOpen, ix);
  }

  lemma SendAfterFree(w: Outcome, e: Buffered, headroom: int, ix: nat)
    requires StaysFree(w, ix) && e.ix != ix
    ensures StaysFree(SendAfter(w, e, headroom), ix)
  {
    var all := w.gate.buffer + w.gate.waiting;
    assert w.gate.buffer + (w.gate.waiting + [e]) == all + [e];
  }

  lemma SendFree(g: Gate, records: Records, e: Buffered, sendsOpen: bool, headroom: int, after: int, ix: nat)
    requires Free(g, ix) && e.ix in records && e.ix != ix
    ensures StaysFree(Send(g, records, e, sendsOpen, headroom, after), ix)
    ensures StaysFree(SendUnsequenced(g, records, e, sendsOpen), ix)
  {
    HoldFree(g, records, e, sendsOpen, ix);
    SendWaitingFree(g, records, headroom, ix);
    SendAfterFree(SendWaiting(g, records, headroom), e, after, ix);
  }

  lemma {:induction false} WithoutSubscriptionsFree(q: seq<Buffered>, subscribing: set<nat>, ix: nat)
    requires NoneIn(q, ix)
    ensures NoneIn(WithoutSubscriptions(q, subscribing), ix)
  {
    if q != [] {
      assert forall i | 0 <= i < |q[1..]| :: q[1..][i] == q[i + 1];
      WithoutSubscriptionsFree(q[1..], subscribing, ix);
    }
  }

  /** The frames `op` lets out, after those out before. */
  function Let(p: Page, op: Op): seq<Buffered>
    requires Allowed(p, op) && |p.out| <= |Step(p, op).out|
  {
    Step(p, op).out[|p.out|..]
  }

  lemma GateStepOver(p: Page, op: Op, ix: nat)
    requires Over(p, ix) && Allowed(p, op) && QueuesOrDrains(op)
    ensures p.out <= Step(p, op).out && Free(Step(p, op).gate, ix) && NoneIn(Let(p, op), ix)
  {
    match op {
      case SendFrame(at, frame, headroom, after) =>
        if Sends(p, at) {
          var q := Issue(p, at, frame);
          SendFree(q.gate, q.records, q.issued[|p.issued|], p.sendsOpen, headroom, after, ix);
        }
      case SendPlain(at, frame) =>
        if Sends(p, at) {
          SendFree(p.gate, p.records, Buffered(frame, at, None), p.sendsOpen, 0, 0, ix);
        }
      case Headroom(headroom) => SendWaitingFree(p.gate, p.records, headroom, ix);
      case DrainSome(releasable, headroom) => DrainFree(p.gate, p.records, releasable, p.sendsOpen, headroom, ix);
      case DropSubs(subscribing) =>
        SettleFree(p.gate, p.sendsOpen, ix);
        WithoutSubscriptionsFree(Settle(p.gate, p.sendsOpen).buffer, subscribing, ix);
      case Reopen(releasable, first, headroom) => DrainFree(p.gate, p.records, releasable, first, headroom, ix);
      case Attached(at, headroom) =>
        DrainFree(p.gate, p.records[at := p.records[at].(awaited := false)], {at}, p.sendsOpen, headroom, ix);
    }
  }

  /** The gate changes no channel's state. */
  lemma GateKeepsStates(p: Page, op: Op, ix: nat)
    requires Allowed(p, op) && QueuesOrDrains(op) && ix in Step(p, op).records
    ensures ix in p.records && Step(p, op).records[ix].state == p.records[ix].state
  {
    match op {
      case SendFrame(at, frame, headroom, after) =>
        if Sends(p, at) {
          PushEachOnly(Issue(p, at, frame).records, DropQueues(p.gate).waiting[..Going(DropQueues(p.gate).waiting, headroom)]);
        }
      case SendPlain(_, _) =>
      case Headroom(headroom) =>
        PushEachOnly(p.records, DropQueues(p.gate).waiting[..Going(DropQueues(p.gate).waiting, headroom)]);
      case DrainSome(releasable, headroom) => DrainKeepsStates(p.gate, p.records, releasable, p.sendsOpen, headroom);
      case DropSubs(_) =>
      case Reopen(releasable, first, headroom) => DrainKeepsStates(p.gate, p.records, releasable, first, headroom);
      case Attached(at, headroom) =>
        DrainKeepsStates(p.gate, p.records[at := p.records[at].(awaited := false)], {at}, p.sendsOpen, headroom);
    }
  }

  lemma DrainKeepsStates(g: Gate, records: Records, releasable: set<nat>, sendsOpen: bool, headroom: int)
    ensures OnlyReplays(records, Drain(g, records, releasable, sendsOpen, headroom).records)
  {
    var s := Settle(g, sendsOpen);
    DrainFirstOnly(s.buffer, |s.buffer|, releasable, Draining([], s.waiting, headroom, records, []));
  }

  lemma OtherStepOver(p: Page, op: Op, ix: nat)
    requires Bookkept(p) && Over(p, ix) && Allowed(p, op) && !QueuesOrDrains(op)
    ensures Step(p, op).out == p.out && Over(Step(p, op), ix)
  {
  }

  lemma StepOver(p: Page, op: Op, ix: nat)
    requires Bookkept(p) && Over(p, ix) && Allowed(p, op)
    ensures p.out <= Step(p, op).out && Over(Step(p, op), ix) && NoneIn(Let(p, op), ix)
  {
    if QueuesOrDrains(op) {
      GateStepOver(p, op, ix);
      GateStepBookkept(p, op);
      if ix in Step(p, op).records {
        GateKeepsStates(p, op, ix);
      }
    } else {
      OtherStepOver(p, op, ix);
    }
  }

  lemma {:induction false} RunOver(p: Page, ops: seq<Op>, ix: nat)
    requires Bookkept(p) && Over(p, ix) && AllowedRun(p, ops)
    ensures p.out <= Run(p, ops).out && NoneIn(Run(p, ops).out[|p.out|..], ix)
    decreases |ops|
  {
    if ops != [] {
      var q := Step(p, ops[0]);
      StepOver(p, ops[0], ix);
      StepBookkept(p, ops[0]);
      RunOver(q, ops[1..], ix);
      NoneInBoth(p.out, q.out, Run(p, ops).out, ix);
    }
  }

  lemma NoneInBoth(a: seq<Buffered>, b: seq<Buffered>, c: seq<Buffered>, ix: nat)
    requires a <= b <= c && NoneIn(b[|a|..], ix) && NoneIn(c[|b|..], ix)
    ensures a <= c && NoneIn(c[|a|..], ix)
  {
    assert c[|a|..] == b[|a|..] + c[|b|..];
  }

  /** After every run, once a channel is lost or released, no frame of it goes out any more, whatever it had queued. */
  lemma NothingAfterEnd(before: seq<Op>, end: Op, after: seq<Op>)
    requires AllowedRun(FRESH_PAGE, before) && (end.Lose? || end.ReleaseChannel?)
    requires Allowed(Run(FRESH_PAGE, before), end) && AllowedRun(Step(Run(FRESH_PAGE, before), end), after)
    ensures var p := Step(Run(FRESH_PAGE, before), end);
            p.out <= Run(p, after).out && NoneIn(Run(p, after).out[|p.out|..], end.ix)
  {
    var p := Run(FRESH_PAGE, before);
    assert Kept(FRESH_PAGE);
    RunKept(FRESH_PAGE, before);
    StepBookkept(p, end);
    RunOver(Step(p, end), after, end.ix);
  }
}
