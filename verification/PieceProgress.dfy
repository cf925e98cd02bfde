/** How far what waits goes: as far as the headroom reaches, and all of it where there is enough. */
module PieceProgress {
  import opened Bytes
  import opened Tags
  import opened Frames
  import opened Pieces
  import opened PieceSteps
  import opened PieceRuns
  import S = PieceSafety
  import C = PieceCounters

  /** The whole bytes of the headroom. */
  function Room(headroom: real): nat {
    if headroom < 1.0 then 0 else headroom.Floor
  }

  /** How many bytes of a frame sent now go at once, the others waiting: data that is cut goes as far as the headroom,
      but for a frame sent whole before a rate is measured; uncut, it goes whole while there is some. */
  function GoesOf(s: Sender, frame: Frame): (n: nat)
    ensures n <= |frame|
  {
    if !Sequenced(frame) then |frame|
    else if !s.cutsData then if s.headroom > 0.0 then |frame| else 0
    else if !s.sizes.measured && |frame| as real <= s.sizes.wholeUpTo then |frame|
    else Min(|frame|, Room(s.headroom))
  }

  /** `to` bytes of `frame` went; the rest of it, if any, waits. */
  predicate LeftAt(s: Sender, t: Sender, frame: Frame, from: nat, to: nat) {
    && from <= to <= |frame|
    && t.rest == (if to < |frame| then Some(Rest(frame, to)) else None)
    && t.waiting == s.waiting && t.waitingBytes == s.waitingBytes + |frame| - to
    && t.cutsData == s.cutsData && t.sizes == s.sizes
  }

  /** Whatever is counted as handed is taken off the headroom. */
  predicate Spends(s: Sender, t: Sender) {
    t.headroom == s.headroom - (t.transmitted - s.transmitted) as real
  }

  /** Handing messages leaves the frames that wait, and the counts. */
  predicate OnlyHanded(s: Sender, t: Sender) {
    t == s.(messages := t.messages, out := t.out) && t.messages.lengthAhead <= s.messages.lengthAhead
  }

  lemma {:induction false} HandsEach(s: Sender, frames: seq<Frame>)
    ensures OnlyHanded(s, s.HandEach(frames))
    decreases |frames|
  {
    if frames != [] {
      HandsEach(s.Hand(frames[0]), frames[1..]);
    }
  }

  /** `bytes` were handed in pieces, each at least one byte. */
  predicate HandedPieces(s: Sender, t: Sender, bytes: nat) {
    && C.SameWaits(s, t) && t.cutsData == s.cutsData && t.sizes == s.sizes && Spends(s, t)
    && bytes <= t.transmitted - s.transmitted <= bytes * (1 + PIECE_HEADER)
    && t.messages.lengthAhead <= s.messages.lengthAhead
  }

  lemma PiecesCost(s: Sender, frame: Frame, offset: nat, end: nat)
    requires offset <= end <= |frame|
    ensures HandedPieces(s, s.HandPieces(frame, offset, end), end - offset)
  {
    var pieces := PiecesOf(frame, offset, end, s.PieceSize());
    S.PiecesBytes(frame, offset, end, s.PieceSize());
    FewPieces(frame, offset, end, s.PieceSize());
    HandsEach(s.Count(SumBytes(pieces)).TrackOver(|frame|), pieces);
  }

  lemma {:induction false} FewPieces(frame: Frame, at: nat, end: nat, size: nat)
    requires at <= end <= |frame| && size > 0
    ensures |PiecesOf(frame, at, end, size)| <= end - at
    decreases end - at
  {
    if at < end {
      FewPieces(frame, Min(end, at + size), end, size);
    }
  }

  /** Where a cut ends: data that is cut goes as far as the headroom reaches, any other frame to its end. */
  function CutTo(s: Sender, frame: Frame, offset: nat): nat
    requires offset <= |frame|
  {
    if Sequenced(frame) && s.cutsData then Min(|frame|, offset + Room(s.headroom)) else |frame|
  }

  function EmptyPieceBytes(offset: nat): nat { if offset == 0 then PIECE_HEADER else 0 }

  lemma StartCutCost(s: Sender, frame: Frame, offset: nat)
    ensures var t := s.StartCut(frame, offset);
            && C.SameWaits(s, t) && t.cutsData == s.cutsData && t.sizes == s.sizes && Spends(s, t)
            && 0 <= t.transmitted - s.transmitted <= EmptyPieceBytes(offset)
            && t.messages.lengthAhead <= s.messages.lengthAhead
  {
  }

  lemma CutIsTo(s: Sender, frame: Frame, offset: nat)
    requires offset < |frame|
    ensures s.FlushGathered().CutEnd(frame, offset) == CutTo(s, frame, offset)
    ensures OnlyHanded(s, s.FlushGathered())
  {
  }

  /** A cut hands a frame from `offset` just so far, the rest waiting. */
  lemma CutGoesTo(s: Sender, frame: Frame, offset: nat)
    requires s.rest.None? && offset < |frame|
    ensures var t, to := s.Cut(frame, offset), CutTo(s, frame, offset);
            && LeftAt(s, t, frame, offset, to) && Spends(s, t) && t.messages.lengthAhead <= s.messages.lengthAhead
            && t.transmitted - s.transmitted <= (to - offset) * (1 + PIECE_HEADER) + EmptyPieceBytes(offset)
  {
    var f, to := s.FlushGathered(), CutTo(s, frame, offset);
    CutIsTo(s, frame, offset);
    if to != offset {
      var e := f.StartCut(frame, offset);
      StartCutCost(f, frame, offset);
      PiecesCost(e, frame, offset, to);
      WaitsFrom(e.HandPieces(frame, offset, to), frame, to);
    } else {
      WaitsFrom(f, frame, to);
    }
  }

  lemma WaitsFrom(s: Sender, frame: Frame, to: nat)
    requires s.rest.None? && to <= |frame|
    ensures LeftAt(s, s.WaitFrom(frame, to), frame, to, to)
    ensures var t := s.WaitFrom(frame, to);
            t.headroom == s.headroom && t.transmitted == s.transmitted && t.messages == s.messages
  {
  }

  lemma WholeCost(s: Sender, frame: Frame)
    requires s.rest.None? && s.messages.lengthAhead <= HEADER
    ensures var t := s.Gather(frame);
            && LeftAt(s, t, frame, 0, |frame|) && Spends(s, t) && t.messages.lengthAhead <= HEADER
            && t.transmitted - s.transmitted <= HEADER + |frame|
    ensures var t := s.HandWhole(frame);
            && LeftAt(s, t, frame, 0, |frame|) && Spends(s, t) && t.messages.lengthAhead <= HEADER
            && t.transmitted - s.transmitted == |frame|
  {
  }

  /** A frame sent with no rest ahead of it goes just so far. */
  lemma PassGoesTo(s: Sender, frame: Frame)
    requires s.rest.None? && s.messages.lengthAhead <= HEADER
    ensures var t := s.Pass(frame);
            && LeftAt(s, t, frame, 0, GoesOf(s, frame)) && Spends(s, t) && t.messages.lengthAhead <= HEADER
            && t.transmitted - s.transmitted <= 14 * |frame|
  {
    if Sequenced(frame) && !s.cutsData && s.headroom <= 0.0 {
      assert s.Pass(frame) == s.Wait(frame, 0);
    } else if s.CutsNow(frame) {
      assert s.Pass(frame) == s.Cut(frame, 0) && CutTo(s, frame, 0) == GoesOf(s, frame);
      CutGoesTo(s, frame, 0);
    } else {
      assert s.Pass(frame) == s.Gather(frame) || s.Pass(frame) == s.HandWhole(frame);
      assert GoesOf(s, frame) == |frame|;
      WholeCost(s, frame);
    }
  }

  // ── What waits ──

  /** What frames carried ahead take, with the LENGTH each needs once another follows. */
  function CarriedBytes(s: Sender, carried: seq<Frame>): nat {
    if carried == [] then 0 else s.messages.lengthAhead + MessageBytes(carried)
  }

  lemma {:induction false} CarriedCost(s: Sender, carried: seq<Frame>)
    ensures var t := s.TakeCarried(carried);
            && C.SameWaits(s, t) && t.cutsData == s.cutsData && t.sizes == s.sizes && Spends(s, t)
            && t.transmitted - s.transmitted == CarriedBytes(s, carried)
            && (s.messages.lengthAhead <= HEADER ==> t.messages.lengthAhead <= HEADER)
    decreases |carried|
  {
    if carried != [] {
      CarriedCost(s.Carry(carried[0]), carried[1..]);
      assert |carried| == 1 ==> carried[1..] == [];
    }
  }

  /** The frames behind a rest go one after another, till one of them leaves a rest of its own. */
  lemma {:induction false} QueuedGoesTo(s: Sender, n: nat) returns (k: nat)
    requires s.rest.None? && s.messages.lengthAhead <= HEADER && n >= |s.waiting|
    ensures var t := s.SendQueued(n);
            && k <= |s.waiting| && t.waiting == s.waiting[k..] && (t.rest.None? ==> t.waiting == [])
            && (t.rest.Some? ==> k > 0 && t.rest.value.frame == s.waiting[k - 1])
    decreases n
  {
    k := 0;
    if s.waiting != [] {
      PassGoesTo(s.Dequeued(), s.waiting[0]);
      var u := s.SendNext();
      if u.rest.None? {
        var j := QueuedGoesTo(u, n - 1);
        k := j + 1;
      } else {
        k := 1;
      }
    }
  }

  /** How far a rest from `offset` goes. */
  function RestGoes(s: Sender, frame: Frame, offset: nat): nat
    requires offset <= |frame|
  {
    if s.cutsData then Min(|frame|, offset + Room(s.headroom)) else if s.headroom > 0.0 then |frame| else offset
  }

  /** What a rest is, between calls. */
  predicate RestIsData(s: Sender) {
    s.rest.Some? ==>
      && Sequenced(s.rest.value.frame) && s.rest.value.offset < |s.rest.value.frame|
      && (!s.cutsData ==> s.rest.value.offset == 0)
  }

  lemma ResumeGoesTo(s: Sender, frame: Frame, offset: nat)
    requires s.rest.None? && s.messages.lengthAhead <= HEADER && Sequenced(frame) && offset < |frame|
    requires !s.cutsData ==> offset == 0
    ensures var t := s.Resume(frame, offset);
            && LeftAt(s, t, frame, offset, RestGoes(s, frame, offset)) && Spends(s, t) && t.messages.lengthAhead <= HEADER
            && t.transmitted - s.transmitted <= 14 * (|frame| - offset)
  {
    if s.cutsData {
      CutGoesTo(s, frame, offset);
    } else {
      PassGoesTo(s, frame);
    }
  }

  /** Sending what waits has the rest go just as far as the headroom left past the carried frames, whole where the sender
      does not cut; what it leaves of the rest is all that is taken off `waitingBytes`. Where none of the rest is left, the
      frames behind it go too, in order, till one of them leaves a rest. */
  lemma SendWaitingGoesTo(s: Sender, headroom: real, carried: seq<Frame>) returns (k: nat)
    requires s.rest.Some? && RestIsData(s) && s.messages.lengthAhead <= HEADER
    ensures var t, Rest(frame, offset) := s.SendWaiting(headroom, carried), s.rest.value;
            var to := RestGoes(s.(headroom := headroom - CarriedBytes(s, carried) as real), frame, offset);
            && (to < |frame| ==> t.rest == Some(Rest(frame, to)) && t.waiting == s.waiting
                                 && t.waitingBytes == s.waitingBytes - (to - offset))
            && (to == |frame| ==> k <= |s.waiting| && t.waiting == s.waiting[k..] && (t.rest.None? ==> t.waiting == [])
                                  && (t.rest.Some? ==> k > 0 && t.rest.value.frame == s.waiting[k - 1]))
  {
    var Rest(frame, offset) := s.rest.value;
    var r := RestFirst(s, headroom, carried);
    k := 0;
    if r.rest.None? {
      k := QueuedGoesTo(r, |s.waiting|);
    }
  }

  /** The rest's turn. */
  lemma RestFirst(s: Sender, headroom: real, carried: seq<Frame>) returns (r: Sender)
    requires s.rest.Some? && RestIsData(s) && s.messages.lengthAhead <= HEADER
    ensures r == s.(headroom := headroom).TakeCarried(carried).WithoutRest()
                  .Resume(s.rest.value.frame, s.rest.value.offset)
    ensures var Rest(frame, offset) := s.rest.value;
            var to := RestGoes(s.(headroom := headroom - CarriedBytes(s, carried) as real), frame, offset);
            && r.rest == (if to < |frame| then Some(Rest(frame, to)) else None) && r.waiting == s.waiting
            && r.waitingBytes == s.waitingBytes - (to - offset) && r.messages.lengthAhead <= HEADER
            && r.headroom >= headroom - (CarriedBytes(s, carried) + 14 * (|frame| - offset)) as real
  {
    var Rest(frame, offset) := s.rest.value;
    var c := s.(headroom := headroom).TakeCarried(carried);
    CarriedCost(s.(headroom := headroom), carried);
    ResumeGoesTo(c.WithoutRest(), frame, offset);
    r := c.WithoutRest().Resume(frame, offset);
  }

  // ── Enough headroom ──

  lemma {:induction false} QueuedAllGoes(s: Sender, n: nat)
    requires s.rest.None? && s.messages.lengthAhead <= HEADER && n >= |s.waiting|
    requires s.headroom >= (14 * SumBytes(s.waiting)) as real
    ensures var t := s.SendQueued(n); t.rest.None? && t.waiting == []
    decreases n
  {
    if s.waiting != [] {
      var u := s.Dequeued();
      PassGoesTo(u, s.waiting[0]);
      assert GoesOf(u, s.waiting[0]) == |s.waiting[0]|;
      QueuedAllGoes(s.SendNext(), n - 1);
    }
  }

  /** With headroom for all that waits, its pieces' headers included, and for what is carried, nothing waits any more. */
  lemma EnoughGoes(s: Sender, headroom: real, carried: seq<Frame>)
    requires RestIsData(s) && s.messages.lengthAhead <= HEADER && C.WaitingCounted(s) && S.Settled(s)
    requires headroom >= (14 * s.waitingBytes + CarriedBytes(s, carried)) as real
    ensures var t := s.SendWaiting(headroom, carried); t.rest.None? && t.waiting == []
  {
    if s.rest.Some? {
      var r := RestFirst(s, headroom, carried);
      QueuedAllGoes(r, |s.waiting|);
    }
  }

  // ── Every run ──

  lemma KeptSmall(s: Sender, p: Receiver, given: seq<seq<byte>>)
    requires PieceRuns.Kept(s, p, given)
    ensures RestIsData(s) && s.messages.lengthAhead <= HEADER && C.WaitingCounted(s) && S.Settled(s)
  {
  }

  lemma {:induction false} RunMore(s: Sender, ops: seq<Op>, more: seq<Op>)
    requires CanRun(s, ops) && CanRun(Run(s, ops), more)
    ensures CanRun(s, ops + more) && Run(s, ops + more) == Run(Run(s, ops), more)
    decreases |ops|
  {
    if ops == [] {
      assert ops + more == more;
    } else {
      assert (ops + more)[1..] == ops[1..] + more && (ops + more)[0] == ops[0];
      RunMore(Step(s, ops[0]), ops[1..], more);
    }
  }

  lemma {:induction false} FitsMore(s: Sender, ops: seq<Op>, more: seq<Op>)
    requires CanRun(s, ops) && CanRun(Run(s, ops), more) && CanRun(s, ops + more)
    requires AllFit(s, ops) && AllFit(Run(s, ops), more)
    ensures AllFit(s, ops + more)
    decreases |ops|
  {
    if ops == [] {
      assert ops + more == more;
    } else {
      assert (ops + more)[1..] == ops[1..] + more && (ops + more)[0] == ops[0];
      FitsMore(Step(s, ops[0]), ops[1..], more);
    }
  }

  lemma {:induction false} GivenMore(s: Sender, ops: seq<Op>, more: seq<Op>)
    requires CanRun(s, ops) && CanRun(Run(s, ops), more) && CanRun(s, ops + more)
    ensures AllGiven(s, ops + more) == AllGiven(s, ops) + AllGiven(Run(s, ops), more)
    decreases |ops|
  {
    if ops == [] {
      assert ops + more == more && AllGiven(s, ops) == [];
    } else {
      assert (ops + more)[1..] == ops[1..] + more && (ops + more)[0] == ops[0];
      GivenMore(Step(s, ops[0]), ops[1..], more);
      S.Assoc(Given(s, ops[0]), AllGiven(Step(s, ops[0]), ops[1..]), AllGiven(Run(s, ops), more));
    }
  }

  function ThenAll(headroom: real): seq<Op> {
    [SendWaiting(headroom, []), Op.Flush]
  }

  lemma TwoMore(s: Sender, headroom: real)
    requires RestIsData(s)
    ensures CanRun(s, ThenAll(headroom)) && AllFit(s, ThenAll(headroom)) && AllGiven(s, ThenAll(headroom)) == []
    ensures Run(s, ThenAll(headroom)) == s.SendWaiting(headroom, []).Flush()
  {
    var more, t := ThenAll(headroom), Step(s, SendWaiting(headroom, []));
    assert more[1..] == [Op.Flush] && more[1..][1..] == [];
    assert CanRun(t.Flush(), []) && CanRun(t, [Op.Flush]);
    assert Given(t, Op.Flush) + AllGiven(t.Flush(), []) == [];
    assert Run(t, [Op.Flush]) == t.Flush();
  }

  lemma AllWent(s: Sender, headroom: real)
    requires RestIsData(s) && s.messages.lengthAhead <= HEADER && C.WaitingCounted(s) && S.Settled(s)
    requires headroom >= (14 * s.waitingBytes) as real
    ensures var t := s.SendWaiting(headroom, []).Flush(); t.rest.None? && t.waiting == [] && t.messages.frames == []
  {
    EnoughGoes(s, headroom, []);
  }

  /** After every run whose steps fit, one call with headroom for what waits, and a flush, leave the receiver with every
      frame given, its data in order, and nothing of another. */
  lemma EnoughArrives(cutsData: bool, sizes: Sizes, ops: seq<Op>, headroom: real) returns (p: Receiver)
    requires CanRun(NewSender(cutsData, sizes), ops) && AllFit(NewSender(cutsData, sizes), ops)
    requires headroom >= (14 * Run(NewSender(cutsData, sizes), ops).waitingBytes) as real
    ensures var s0, more := NewSender(cutsData, sizes), ops + ThenAll(headroom);
            && CanRun(s0, more) && AllFit(s0, more) && Run(s0, more).rest.None? && Run(s0, more).waiting == []
            && (forall i | 0 <= i < |Run(s0, more).out| :: Run(s0, more).out[i] != [])
            && NewReceiver().TakeMessages(S.Encoded(Run(s0, more).out)) == Ok(p)
            && multiset(p.delivered) == multiset(AllGiven(s0, ops))
            && S.Ordered(p.delivered) == S.Ordered(AllGiven(s0, ops)) && p.part == []
  {
    var s0 := NewSender(cutsData, sizes);
    var s := Run(s0, ops);
    var q := RunFromStart(cutsData, sizes, ops);
    KeptSmall(s, q, AllGiven(s0, ops));
    TwoMore(s, headroom);
    AllWent(s, headroom);
    RunMore(s0, ops, ThenAll(headroom));
    FitsMore(s0, ops, ThenAll(headroom));
    GivenMore(s0, ops, ThenAll(headroom));
    S.NoMore(AllGiven(s0, ops));
    p := AllArrived(cutsData, sizes, ops + ThenAll(headroom));
  }
}
