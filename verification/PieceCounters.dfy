/** The piece sender's counters agree between calls: what waits is counted, nothing acknowledged was not sent, and each
    queue is in order of where its entries end, past what is acknowledged. */
module PieceCounters {
  import opened Bytes
  import opened Tags
  import opened Frames
  import opened Pieces
  import opened PieceSteps

  // ── What waits ──

  function RestBytes(s: Sender): int {
    if s.rest.Some? then |s.rest.value.frame| - s.rest.value.offset else 0
  }

  predicate WaitingCounted(s: Sender) {
    s.waitingBytes == RestBytes(s) + SumBytes(s.waiting)
  }

  /** Handing moves no frame that waits. */
  predicate SameWaits(s: Sender, t: Sender) {
    t.rest == s.rest && t.waiting == s.waiting && t.waitingBytes == s.waitingBytes
  }

  lemma {:induction false} HandEachWaits(s: Sender, frames: seq<Frame>)
    ensures SameWaits(s, s.HandEach(frames))
    decreases |frames|
  {
    if frames != [] {
      HandEachWaits(s.Hand(frames[0]), frames[1..]);
    }
  }

  lemma {:induction false} CarriedWaits(s: Sender, carried: seq<Frame>)
    ensures SameWaits(s, s.TakeCarried(carried))
    decreases |carried|
  {
    if carried != [] {
      CarriedWaits(s.Carry(carried[0]), carried[1..]);
    }
  }

  lemma {:induction false} AnnouncedPiecesWait(s: Sender, frame: Frame, at: nat, sizes: seq<nat>, end: nat)
    requires at + Sum(sizes) == |frame|
    ensures SameWaits(s, s.SendAnnouncedPieces(frame, at, sizes, end))
    decreases |sizes|
  {
    if sizes != [] {
      var to := end + PIECE_HEADER + sizes[0];
      AnnouncedPiecesWait(s.SendAnnouncedMessage(PieceFrame(|frame|, frame[at..at + sizes[0]]), sizes[0], to), frame,
                          at + sizes[0], sizes[1..], to);
    }
  }

  lemma HandPiecesWaits(s: Sender, frame: Frame, offset: nat, end: nat)
    requires offset <= end <= |frame|
    ensures SameWaits(s, s.HandPieces(frame, offset, end))
  {
    var pieces := PiecesOf(frame, offset, end, s.PieceSize());
    HandEachWaits(s.Count(SumBytes(pieces)).TrackOver(|frame|), pieces);
  }

  /** With no rest, a cut leaves what waits as it was, or the rest of its frame. */
  lemma CutCounted(s: Sender, frame: Frame, offset: nat)
    requires WaitingCounted(s) && s.rest.None? && offset <= |frame|
    ensures var t := s.Cut(frame, offset); WaitingCounted(t) && t.waiting == s.waiting
  {
    var f := s.FlushGathered();
    var end := f.CutEnd(frame, offset);
    if end != offset {
      HandPiecesWaits(f.StartCut(frame, offset), frame, offset, end);
    }
  }

  lemma PassCounted(s: Sender, frame: Frame)
    requires WaitingCounted(s) && (s.rest.None? || !Sequenced(frame))
    ensures var t := s.Pass(frame); WaitingCounted(t) && t.waiting == s.waiting
  {
    WholeWaits(s, frame);
    if s.CutsNow(frame) {
      if s.rest.None? {
        CutCounted(s, frame, 0);
      } else {
        CutBesideCounted(s, frame);
      }
    }
  }

  lemma WholeWaits(s: Sender, frame: Frame)
    ensures SameWaits(s, s.Gather(frame)) && SameWaits(s, s.HandWhole(frame))
  {
  }

  lemma CutBesideCounted(s: Sender, frame: Frame)
    requires WaitingCounted(s) && !Sequenced(frame)
    ensures SameWaits(s, s.Cut(frame, 0))
  {
    HandPiecesWaits(s.FlushGathered().StartCut(frame, 0), frame, 0, |frame|);
  }

  lemma BehindWaits(s: Sender, frame: Frame, floorPerS: nat)
    ensures SameWaits(s, s.SendBehindAnnouncement(frame, floorPerS))
  {
    var b := s.Announcing(frame, floorPerS);
    var c := if b.Probes(frame) then b.SendProbePair(frame).Probing(frame) else b;
    var offset := if b.Probes(frame) then PROBE_FIRST + PROBE_PAIR else 0;
    AnnouncedWaits(c, frame, offset);
  }

  lemma AnnouncedWaits(s: Sender, frame: Frame, offset: nat)
    requires offset <= |frame|
    ensures SameWaits(s, s.SendAnnounced(frame, offset))
  {
    var sizes := AnnouncedSizes(|frame| - offset, s.lastAnnounced, s.namedFloor);
    AnnouncedPiecesWait(s.Count(Sum(sizes) + |sizes| * PIECE_HEADER).TrackOver(|frame|), frame, offset, sizes,
                        s.transmitted);
  }

  lemma SendCounted(s: Sender, frame: Frame, headroom: real, carried: seq<Frame>, floorPerS: nat)
    requires WaitingCounted(s)
    ensures WaitingCounted(s.Send(frame, headroom, carried, floorPerS))
  {
    var c := s.(headroom := headroom).TakeCarried(carried);
    CarriedWaits(s.(headroom := headroom), carried);
    RouteCounted(c, frame, floorPerS);
  }

  lemma RouteCounted(s: Sender, frame: Frame, floorPerS: nat)
    requires WaitingCounted(s)
    ensures WaitingCounted(s.Route(frame, floorPerS))
  {
    CountedIsBudgeted(frame[0]);
    if s.rest.None? || s.PassesRest(frame) || frame[0] == PIECES_ACK {
      PassCounted(s, frame);
      BehindWaits(s, frame, floorPerS);
    }
    SumBytesAppend(s.waiting, [frame]);
    assert SumBytes([frame]) == |frame| by { assert [frame][1..] == []; }
  }

  lemma {:induction false} SendQueuedCounted(s: Sender, n: nat)
    requires WaitingCounted(s)
    ensures WaitingCounted(s.SendQueued(n))
    decreases n
  {
    if n > 0 && s.rest.None? && s.waiting != [] {
      PassCounted(s.Dequeued(), s.waiting[0]);
      SendQueuedCounted(s.SendNext(), n - 1);
    }
  }

  lemma SendWaitingCounted(s: Sender, headroom: real, carried: seq<Frame>)
    requires WaitingCounted(s) && (s.rest.Some? ==> s.rest.value.offset <= |s.rest.value.frame|)
    ensures WaitingCounted(s.SendWaiting(headroom, carried))
  {
    if s.rest.Some? {
      var c := s.(headroom := headroom).TakeCarried(carried);
      CarriedWaits(s.(headroom := headroom), carried);
      var u := c.WithoutRest();
      CutCounted(u, s.rest.value.frame, s.rest.value.offset);
      PassCounted(u, s.rest.value.frame);
      SendQueuedCounted(u.Resume(s.rest.value.frame, s.rest.value.offset), |s.waiting|);
    }
  }

  // ── What is acknowledged ──

  /** In order, each past `after` and through `upTo`. */
  predicate Between(ends: seq<nat>, after: nat, upTo: nat) {
    && (forall i | 0 <= i < |ends| :: after < ends[i] <= upTo)
    && (forall i, j | 0 <= i < j < |ends| :: ends[i] <= ends[j])
  }

  function EndsOf(q: seq<Announced>): seq<nat> {
    seq(|q|, i requires 0 <= i < |q| => q[i].end)
  }

  predicate Ordered(s: Sender) {
    && s.acknowledged <= s.transmitted && s.heartbeat <= s.transmitted
    && Between(s.unacknowledged, s.acknowledged, s.transmitted)
    && Between(s.announcedEnds, s.acknowledged, s.transmitted)
    && Between(EndsOf(s.announcements), s.acknowledged, s.transmitted)
    && (s.probe.Some? ==> s.acknowledged < s.probe.value.end <= s.transmitted)
  }

  /** Only more is sent, and entries added, each where the bytes counted end. */
  predicate Grows(s: Sender, t: Sender) {
    t.transmitted >= s.transmitted && t.acknowledged == s.acknowledged && t.heartbeat == s.heartbeat && Ordered(t)
  }

  lemma TrackGrows(s: Sender, n: nat)
    requires Ordered(s) && s.acknowledged < s.transmitted
    ensures Grows(s, s.Track()) && Grows(s, s.TrackOver(n))
  {
  }

  lemma CountTrackGrows(s: Sender, n: nat, of: nat)
    requires Ordered(s) && n > 0
    ensures Grows(s, s.Count(n)) && Grows(s, s.Count(n).TrackOver(of)) && Grows(s, s.Count(n).Track())
  {
    TrackGrows(s.Count(n), of);
  }

  /** Handing, gathering and waiting move no counter. */
  predicate SameCounters(s: Sender, t: Sender) {
    && t.transmitted == s.transmitted && t.acknowledged == s.acknowledged && t.heartbeat == s.heartbeat
    && t.unacknowledged == s.unacknowledged && t.announcedEnds == s.announcedEnds
    && t.announcements == s.announcements && t.probe == s.probe
  }

  lemma {:induction false} HandEachCounters(s: Sender, frames: seq<Frame>)
    ensures SameCounters(s, s.HandEach(frames))
    decreases |frames|
  {
    if frames != [] {
      HandEachCounters(s.Hand(frames[0]), frames[1..]);
    }
  }

  lemma HandPiecesGrows(s: Sender, frame: Frame, offset: nat, end: nat)
    requires Ordered(s) && offset < end <= |frame|
    ensures Grows(s, s.HandPieces(frame, offset, end))
  {
    var pieces := PiecesOf(frame, offset, end, s.PieceSize());
    PiecesHaveBytes(frame, offset, end, s.PieceSize());
    CountTrackGrows(s, SumBytes(pieces), |frame|);
    HandEachCounters(s.Count(SumBytes(pieces)).TrackOver(|frame|), pieces);
  }

  lemma PiecesHaveBytes(frame: Frame, at: nat, end: nat, size: nat)
    requires at < end <= |frame| && size > 0
    ensures SumBytes(PiecesOf(frame, at, end, size)) > 0
  {
  }

  lemma StartCutGrows(s: Sender, frame: Frame, offset: nat)
    requires Ordered(s)
    ensures Grows(s, s.StartCut(frame, offset))
  {
    CountTrackGrows(s, PIECE_HEADER, 0);
  }

  lemma CutGrows(s: Sender, frame: Frame, offset: nat)
    requires Ordered(s) && offset <= |frame|
    ensures Grows(s, s.Cut(frame, offset))
  {
    var f := s.FlushGathered();
    var end := f.CutEnd(frame, offset);
    if end != offset {
      StartCutGrows(f, frame, offset);
      HandPiecesGrows(f.StartCut(frame, offset), frame, offset, end);
    }
  }

  lemma WholeGrows(s: Sender, frame: Frame)
    requires Ordered(s)
    ensures Grows(s, s.HandWhole(frame)) && Grows(s, s.SendWhole(frame))
  {
    CountTrackGrows(s.FlushGathered(), |frame|, |frame|);
  }

  lemma GatherGrows(s: Sender, frame: Frame)
    requires Ordered(s)
    ensures Grows(s, s.Gather(frame)) && Grows(s, s.Wait(frame, 0))
  {
  }

  lemma PassGrows(s: Sender, frame: Frame)
    requires Ordered(s)
    ensures Grows(s, s.Pass(frame))
  {
    CutGrows(s, frame, 0);
    GatherGrows(s, frame);
    WholeGrows(s, frame);
    PassIsOne(s, frame);
  }

  lemma PassIsOne(s: Sender, frame: Frame)
    ensures s.Pass(frame) in {s.Wait(frame, 0), s.Cut(frame, 0), s.Gather(frame), s.HandWhole(frame)}
  {
  }

  lemma {:induction false} CarriedGrows(s: Sender, carried: seq<Frame>)
    requires Ordered(s)
    ensures Grows(s, s.TakeCarried(carried))
    decreases |carried|
  {
    if carried != [] {
      CarriedGrows(s.Carry(carried[0]), carried[1..]);
    }
  }

  lemma AnnouncedGrows(s: Sender, message: Frame, bytes: nat, end: nat)
    requires Ordered(s) && s.acknowledged < end <= s.transmitted
    requires forall i | 0 <= i < |s.announcedEnds| :: s.announcedEnds[i] <= end
    ensures Grows(s, s.SendAnnouncedMessage(message, bytes, end))
  {
  }

  /** Each announced piece ends where its bytes do, the last where all counted do. */
  lemma {:induction false} AnnouncedPiecesGrow(s: Sender, frame: Frame, at: nat, sizes: seq<nat>, end: nat)
    requires Ordered(s) && at + Sum(sizes) == |frame| && end + Sum(sizes) + |sizes| * PIECE_HEADER == s.transmitted
    requires s.acknowledged <= end && forall i | 0 <= i < |s.announcedEnds| :: s.announcedEnds[i] <= end
    ensures Grows(s, s.SendAnnouncedPieces(frame, at, sizes, end))
    decreases |sizes|
  {
    if sizes != [] {
      var to := end + PIECE_HEADER + sizes[0];
      AnnouncedGrows(s, PieceFrame(|frame|, frame[at..at + sizes[0]]), sizes[0], to);
      AnnouncedPiecesGrow(s.SendAnnouncedMessage(PieceFrame(|frame|, frame[at..at + sizes[0]]), sizes[0], to), frame,
                          at + sizes[0], sizes[1..], to);
    }
  }

  lemma AnnouncePiecesGrow(s: Sender, frame: Frame, offset: nat, sizes: seq<nat>)
    requires Ordered(s) && offset + Sum(sizes) == |frame| && sizes != []
    ensures Grows(s, s.AnnouncePieces(frame, offset, sizes))
  {
    var n := Sum(sizes) + |sizes| * PIECE_HEADER;
    CountTrackGrows(s, n, |frame|);
    AnnouncedPiecesGrow(s.Count(n).TrackOver(|frame|), frame, offset, sizes, s.transmitted);
  }

  lemma SendAnnouncedGrows(s: Sender, frame: Frame, offset: nat)
    requires Ordered(s) && offset < |frame|
    ensures Grows(s, s.SendAnnounced(frame, offset))
  {
    if offset == 0 && |frame| <= AnnouncedNext(s.lastAnnounced, s.namedFloor) {
      CountTrackGrows(s, |frame|, |frame|);
      var c := s.Count(|frame|).TrackOver(|frame|);
      AnnouncedGrows(c, frame, |frame|, c.transmitted);
    } else {
      AnnouncePiecesGrow(s, frame, offset, AnnouncedSizes(|frame| - offset, s.lastAnnounced, s.namedFloor));
    }
  }

  lemma ProbePieceGrows(s: Sender, frame: Frame, at: nat, size: nat)
    requires Ordered(s) && at + size <= |frame|
    ensures Grows(s, s.SendProbePiece(frame, at, size))
    ensures s.SendProbePiece(frame, at, size).transmitted > s.transmitted
  {
    CountTrackGrows(s, PIECE_HEADER + size, 0);
    var c := s.Count(PIECE_HEADER + size).Track();
    AnnouncedGrows(c, PieceFrame(|frame|, frame[at..at + size]), size, c.transmitted);
  }

  lemma ProbePairGrows(s: Sender, frame: Frame)
    requires Ordered(s) && |frame| >= PROBE_FIRST + PROBE_PAIR
    ensures var t := s.SendProbePair(frame); Grows(s, t.Probing(frame))
  {
    CountTrackGrows(s, PIECE_HEADER, 0);
    var s1 := s.SendEmptyPiece(|frame|);
    ProbePieceGrows(s1, frame, 0, PROBE_FIRST);
    ProbePieceGrows(s1.SendProbePiece(frame, 0, PROBE_FIRST), frame, PROBE_FIRST, PROBE_PAIR);
  }

  lemma AnnouncingGrows(s: Sender, frame: Frame, floorPerS: nat)
    requires Ordered(s)
    ensures Grows(s, s.Announcing(frame, floorPerS))
  {
    CountTrackGrows(s, ANNOUNCE_BYTES, 0);
    assert SameCounters(s, s.FlushGathered());
  }

  lemma BehindGrows(s: Sender, frame: Frame, floorPerS: nat)
    requires Ordered(s)
    ensures Grows(s, s.SendBehindAnnouncement(frame, floorPerS))
  {
    var b := s.Announcing(frame, floorPerS);
    AnnouncingGrows(s, frame, floorPerS);
    if b.Probes(frame) {
      ProbePairGrows(b, frame);
      SendAnnouncedGrows(b.SendProbePair(frame).Probing(frame), frame, PROBE_FIRST + PROBE_PAIR);
    } else {
      SendAnnouncedGrows(b, frame, 0);
    }
  }

  lemma RouteGrows(s: Sender, frame: Frame, floorPerS: nat)
    requires Ordered(s)
    ensures Grows(s, s.Route(frame, floorPerS))
  {
    PassGrows(s, frame);
    WholeGrows(s, frame);
    BehindGrows(s, frame, floorPerS);
  }

  lemma SendGrows(s: Sender, frame: Frame, headroom: real, carried: seq<Frame>, floorPerS: nat)
    requires Ordered(s)
    ensures Grows(s, s.Send(frame, headroom, carried, floorPerS))
  {
    var h := s.(headroom := headroom);
    CarriedGrows(h, carried);
    RouteGrows(h.TakeCarried(carried), frame, floorPerS);
  }

  lemma {:induction false} SendQueuedGrows(s: Sender, n: nat)
    requires Ordered(s)
    ensures Grows(s, s.SendQueued(n))
    decreases n
  {
    if n > 0 && s.rest.None? && s.waiting != [] {
      PassGrows(s.Dequeued(), s.waiting[0]);
      SendQueuedGrows(s.SendNext(), n - 1);
    }
  }

  lemma SendWaitingGrows(s: Sender, headroom: real, carried: seq<Frame>)
    requires Ordered(s) && (s.rest.Some? ==> s.rest.value.offset <= |s.rest.value.frame|)
    ensures Grows(s, s.SendWaiting(headroom, carried))
  {
    if s.rest.Some? {
      var h := s.(headroom := headroom);
      CarriedGrows(h, carried);
      var u := h.TakeCarried(carried).WithoutRest();
      CutGrows(u, s.rest.value.frame, s.rest.value.offset);
      PassGrows(u, s.rest.value.frame);
      SendQueuedGrows(u.Resume(s.rest.value.frame, s.rest.value.offset), |s.waiting|);
    }
  }

  lemma CloseGrows(s: Sender)
    requires Ordered(s) && s.open.Some?
    ensures Grows(s, s.CloseAnnouncement())
  {
    var c := s.(open := None).Count(ANNOUNCE_BYTES).Hand(AnnounceFrame(s.open.value.bytes, 0));
    var t := s.CloseAnnouncement();
    assert EndsOf(t.announcements) == EndsOf(s.announcements) + [c.transmitted];
  }

  // ── Acknowledgements ──

  lemma {:induction false} PastIsPast(ends: seq<nat>, after: nat, upTo: nat, to: nat)
    requires Between(ends, after, upTo) && after <= to
    ensures Between(Past(ends, to), to, upTo)
  {
    if ends != [] && ends[0] <= to {
      assert forall i | 0 <= i < |ends[1..]| :: ends[1..][i] == ends[i + 1];
      PastIsPast(ends[1..], after, upTo, to);
    }
  }

  lemma {:induction false} EndingPastIsPast(q: seq<Announced>, to: nat)
    ensures EndsOf(EndingPast(q, to)) == Past(EndsOf(q), to)
  {
    if q != [] && q[0].end <= to {
      assert EndsOf(q)[1..] == EndsOf(q[1..]);
      EndingPastIsPast(q[1..], to);
    }
  }

  /** An ack drops every entry it reaches, and the probe once it reaches its end. */
  lemma AcknowledgeOrdered(s: Sender, bits: nat)
    requires Ordered(s) && s.Acknowledge(bits).Some?
    ensures Ordered(s.Acknowledge(bits).value)
  {
    var to := s.acknowledged + (bits - s.acknowledged) % SEQ_SPAN;
    PastIsPast(s.unacknowledged, s.acknowledged, s.transmitted, to);
    PastIsPast(s.announcedEnds, s.acknowledged, s.transmitted, to);
    PastIsPast(EndsOf(s.announcements), s.acknowledged, s.transmitted, to);
    EndingPastIsPast(s.announcements, to);
  }

  /** The low 32 bits of a count of the bytes taken, past what is acknowledged and less than 2^32 past, acknowledge
      exactly that count. */
  lemma AcknowledgesExactly(s: Sender, took: nat)
    requires s.acknowledged < took <= s.transmitted && took - s.acknowledged < SEQ_SPAN
    ensures s.Acknowledge(took % SEQ_SPAN).Some? && s.Acknowledge(took % SEQ_SPAN).value.acknowledged == took
  {
    LowDifference(took, s.acknowledged);
  }

  /** Those of one less than 2^31 either way name it too. */
  lemma HeartbeatExactly(s: Sender, took: nat)
    requires took <= s.transmitted && -(SEQ_SPAN as int) / 2 <= took - s.acknowledged < SEQ_SPAN / 2
    ensures s.Heartbeat(took % SEQ_SPAN).Some? && s.Heartbeat(took % SEQ_SPAN).value.heartbeat == took
  {
    LowDifference(took, s.acknowledged);
  }

  /** A difference survives dropping the high bits. */
  lemma LowDifference(a: nat, b: nat)
    ensures (a % SEQ_SPAN - b) % SEQ_SPAN == (a - b) % SEQ_SPAN
  {
    var k := a / SEQ_SPAN;
    assert a == k * SEQ_SPAN + a % SEQ_SPAN;
  }
}
