/** Runs whose bytes the receiver takes for a violation: an acknowledgement cut in the middle of a frame, and an
    announcement of 2^32 bytes. */
module PieceMisfits {
  import opened Bytes
  import opened Tags
  import opened Frames
  import opened Pieces
  import opened PieceSteps
  import opened PieceRuns
  import S = PieceSafety
  import C = PieceCounters

  /** A text frame of `bytes` in all. */
  function TextOf(bytes: nat): (frame: Frame)
    requires bytes >= HEADER
    ensures |frame| == bytes && frame[0] == TEXT
  {
    [TEXT] + seq(bytes - 1, _ => 0)
  }

  /** Whatever the rates, an acknowledgement goes whole unless the fastest is below 19 bytes in an eighth of the ping
      interval. */
  lemma AckFitsExactly(cutsData: bool, fastest: real, floor: real, ping: real, deadline: real)
    requires fastest >= 0.0 && floor >= 0.0 && ping >= 0.0 && deadline >= 0.0
    ensures SizesFor(cutsData, fastest, floor, ping, deadline).wholeUpTo >= (HEADER + 12) as real
            <==> fastest == 0.0 || fastest * ping >= RATE_MARGIN * (HEADER + 12) as real
  {
    assert fastest * ping / RATE_MARGIN * RATE_MARGIN == fastest * ping;
  }

  /** A run one step later on of which a step doesn't fit. */
  lemma MisfitsLater(s: Sender, op: Op, rest: seq<Op>)
    requires Allowed(s, op) && CanRun(Step(s, op), rest)
    requires !Fits(s, op) || !AllFit(Step(s, op), rest)
    ensures CanRun(s, [op] + rest) && !AllFit(s, [op] + rest)
  {
    assert ([op] + rest)[1..] == rest;
  }

  // ── An acknowledgement cut in the middle of a frame ──

  /** 1 byte a millisecond, then a tenth of it, with a ping interval of 800 ms. */
  const FAST: Sizes := SizesFor(true, 1.0, 1.0, 800.0, 100.0)
  const SLOW: Sizes := SizesFor(true, 0.1, 1.0, 800.0, 100.0)

  /** A frame goes in part, the rate falls, and an acknowledgement is sent. */
  function CutAckRun(ack: Frame): seq<Op> {
    [Op.Send(TextOf(50), 20.0, [], 0)] + ([Rates(SLOW)] + ([Op.Send(ack, 0.0, [], 0)] + []))
  }

  lemma PartGoes()
    ensures NewSender(true, FAST).Send(TextOf(50), 20.0, [], 0).rest == Some(Rest(TextOf(50), 20))
  {
    PassCuts(NewSender(true, FAST).(headroom := 20.0), TextOf(50), 20);
  }

  /** Of a frame that goes whole at the rate, but is past the headroom, only a part goes. */
  lemma PassCuts(s: Sender, frame: Frame, end: nat)
    requires s.cutsData && s.sizes.measured && Sequenced(frame) && s.rest.None? && !s.messages.gathered
    requires |frame| as real <= s.sizes.wholeUpTo && 0 < end < |frame| && s.headroom == end as real
    ensures s.Pass(frame).rest == Some(Rest(frame, end))
  {
    C.HandPiecesWaits(s, frame, 0, end);
    assert s.CutEnd(frame, 0) == end && s.StartCut(frame, 0) == s;
    assert s.Pass(frame) == s.Cut(frame, 0) == s.HandPieces(frame, 0, end).WaitFrom(frame, end);
  }

  lemma CutsLater(s: Sender, ack: Frame)
    requires S.IsAck(ack) && s.rest.Some? && s.rest.value.offset > 0
    ensures var ops := [Rates(SLOW)] + ([Op.Send(ack, 0.0, [], 0)] + []); CanRun(s, ops) && !AllFit(s, ops)
  {
    MisfitsLater(s.(sizes := SLOW), Op.Send(ack, 0.0, [], 0), []);
    MisfitsLater(s, Rates(SLOW), [Op.Send(ack, 0.0, [], 0)] + []);
  }

  lemma CutMisfits(s: Sender, ack: Frame)
    requires S.IsAck(ack) && s == NewSender(true, FAST)
    ensures CanRun(s, CutAckRun(ack)) && !AllFit(s, CutAckRun(ack))
  {
    var part, t := Op.Send(TextOf(50), 20.0, [], 0), s.Send(TextOf(50), 20.0, [], 0);
    PartGoes();
    CutsLater(t, ack);
    MisfitsLater(s, part, [Rates(SLOW)] + ([Op.Send(ack, 0.0, [], 0)] + []));
  }

  /** The piece that opens the acknowledgement comes in the middle of the frame. */
  lemma CutAckBreaks(ack: Frame)
    requires S.IsAck(ack)
    ensures CanRun(NewSender(true, FAST), CutAckRun(ack)) && !StaysTaken(NewSender(true, FAST), CutAckRun(ack))
  {
    CutMisfits(NewSender(true, FAST), ack);
    EveryRunIsTakenExactly(true, FAST, CutAckRun(ack));
  }

  // ── An announcement of 2^32 bytes ──

  const UNMEASURED: Sizes := SizesFor(false, 0.0, 0.0, 0.0, 0.0)

  /** Two frames of 2^31 bytes in one task. */
  const HALF := Op.Send(TextOf(SEQ_SPAN / 2), 1.0, [], 0)
  const LARGE: seq<Op> := [HALF] + ([HALF] + ([Op.Close] + []))

  lemma GoesBehind(s: Sender) returns (t: Sender)
    requires s.rest.None? && s.sizes == UNMEASURED
    ensures Allowed(s, HALF) && t == Step(s, HALF) && t.rest.None? && t.sizes == UNMEASURED && t.open.Some?
    ensures t.open.value.bytes == SEQ_SPAN / 2 + if s.open.Some? then s.open.value.bytes else 0
  {
    S.BehindKeeps(s.(headroom := 1.0), HALF.frame, 0);
    t := s.(headroom := 1.0).SendBehindAnnouncement(HALF.frame, 0);
  }

  lemma CloseMisfits(s: Sender)
    requires s.open.Some? && s.open.value.bytes >= SEQ_SPAN
    ensures CanRun(s, [Op.Close] + []) && !AllFit(s, [Op.Close] + [])
  {
    MisfitsLater(s, Op.Close, []);
  }

  lemma SecondMisfits(s: Sender)
    requires s.rest.None? && s.sizes == UNMEASURED && s.open.Some? && s.open.value.bytes == SEQ_SPAN / 2
    ensures var ops := [HALF] + ([Op.Close] + []); CanRun(s, ops) && !AllFit(s, ops)
  {
    var t := GoesBehind(s);
    CloseMisfits(t);
    MisfitsLater(s, HALF, [Op.Close] + []);
  }

  lemma FirstMisfits(s: Sender)
    requires s.rest.None? && s.sizes == UNMEASURED && s.open.None?
    ensures CanRun(s, LARGE) && !AllFit(s, LARGE)
  {
    var t := GoesBehind(s);
    SecondMisfits(t);
    MisfitsLater(s, HALF, [HALF] + ([Op.Close] + []));
  }

  /** The closing ANNOUNCE names 0 bytes. */
  lemma LargeBreaks()
    ensures CanRun(NewSender(false, UNMEASURED), LARGE) && !StaysTaken(NewSender(false, UNMEASURED), LARGE)
  {
    FirstMisfits(NewSender(false, UNMEASURED));
    EveryRunIsTakenExactly(false, UNMEASURED, LARGE);
  }
}
