/** What a piece sender chooses: as few announced messages as the pace allows, pieces as large as the rate does, what goes
    behind an announcement, and what waits behind a rest. */
module PieceChoices {
  import opened Bytes
  import opened Tags
  import opened Frames
  import opened Pieces
  import opened PieceSteps
  import opened PieceProgress
  import S = PieceSafety
  import C = PieceCounters

  // ── Announced sizes ──

  lemma NextRises(last: nat, more: nat, floorPerS: nat)
    requires last <= more
    ensures AnnouncedNext(last, floorPerS) <= AnnouncedNext(more, floorPerS)
  {
  }

  /** Ahead in bytes and in pace, the largest sizes are as few as any. */
  lemma {:induction false} LargestAreFewest(left: nat, last: nat, floorPerS: nat, behind: nat, other: seq<nat>)
    requires S.InPace(behind, floorPerS, other) && behind <= last && Sum(other) >= left
    ensures |LargestSizes(left, last, floorPerS)| <= |other|
    decreases left
  {
    if left > 0 {
      var size := Min(left, AnnouncedNext(last, floorPerS));
      NextRises(behind, last, floorPerS);
      if size < left {
        LargestAreFewest(left - size, size, floorPerS, other[0], other[1..]);
      }
    }
  }

  /** No sizes that each follow the one before in pace carry as much in fewer messages, and the last one is no smaller than
      the one before. */
  lemma AnnouncedAreFewest(left: nat, last: nat, floorPerS: nat, other: seq<nat>)
    requires S.InPace(last, floorPerS, other) && Sum(other) == left
    ensures |AnnouncedSizes(left, last, floorPerS)| <= |other|
    ensures var sizes := AnnouncedSizes(left, last, floorPerS);
            |sizes| >= 2 ==> sizes[|sizes| - 2] <= sizes[|sizes| - 1]
  {
    var largest := LargestSizes(left, last, floorPerS);
    LargestAreFewest(left, last, floorPerS, last, other);
    RebalancedSum(largest);
    S.LargestInPace(left, last, floorPerS);
    if |largest| >= 2 {
      PacedIsSome(largest, last, floorPerS, |largest| - 1);
    }
  }

  lemma {:induction false} PacedIsSome(sizes: seq<nat>, last: nat, floorPerS: nat, i: nat)
    requires S.InPace(last, floorPerS, sizes) && i < |sizes|
    ensures sizes[i] > 0
    decreases i
  {
    if i > 0 {
      PacedIsSome(sizes[1..], sizes[0], floorPerS, i - 1);
    }
  }

  // ── Pieces ──

  /** Each piece but the last carries as many whole bytes as the rate allows one, at least one; the last no more. */
  lemma {:induction false} PiecesAreFull(frame: Frame, at: nat, end: nat, size: nat, i: nat)
    requires at <= end <= |frame| && size > 0 && i < |PiecesOf(frame, at, end, size)|
    ensures var pieces := PiecesOf(frame, at, end, size);
            && at + i * size < end && pieces[i] == PieceFrame(|frame|, frame[at + i * size..Min(end, at + (i + 1) * size)])
            && (i + 1 < |pieces| ==> at + (i + 1) * size < end)
    decreases i
  {
    if i > 0 {
      PiecesAreFull(frame, Min(end, at + size), end, size, i - 1);
      assert i * size == (i - 1) * size + size && (i + 1) * size == i * size + size;
    }
  }

  /** What a sender hands of a frame, cut: messages of one piece each, the first with what was carried. */
  lemma HandsPieces(s: Sender, frame: Frame, offset: nat, end: nat)
    requires offset < end <= |frame|
    ensures var t, pieces := s.HandPieces(frame, offset, end), PiecesOf(frame, offset, end, s.PieceSize());
            && pieces != [] && |t.out| == |s.out| + |pieces| && t.out[..|s.out|] == s.out
            && t.out[|s.out|] == s.messages.frames + [pieces[0]]
            && (forall i | 0 < i < |pieces| :: t.out[|s.out| + i] == [pieces[i]])
    ensures s.PieceSize() >= 1 && (s.PieceSize() > 1 ==> s.PieceSize() as real <= s.sizes.wholeUpTo)
    ensures s.sizes.wholeUpTo < (s.PieceSize() + 1) as real
  {
    var pieces := PiecesOf(frame, offset, end, s.PieceSize());
    HandsEachIn(s.Count(SumBytes(pieces)).TrackOver(|frame|), pieces);
  }

  lemma {:induction false} HandsEachIn(s: Sender, frames: seq<Frame>)
    requires frames != []
    ensures var t := s.HandEach(frames);
            && |t.out| == |s.out| + |frames| && t.out[..|s.out|] == s.out
            && t.out[|s.out|] == s.messages.frames + [frames[0]]
            && (forall i | 0 < i < |frames| :: t.out[|s.out| + i] == [frames[i]])
    decreases |frames|
  {
    var u := s.Hand(frames[0]);
    if |frames| > 1 {
      HandsEachIn(u, frames[1..]);
      var t := s.HandEach(frames);
      assert u.messages.frames + [frames[1]] == [frames[1]];
      assert t.out[..|s.out|] == t.out[..|u.out|][..|s.out|];
      forall i | 0 < i < |frames| ensures t.out[|s.out| + i] == [frames[i]] {
        assert |s.out| + i == |u.out| + (i - 1) && frames[i] == frames[1..][i - 1];
      }
    } else {
      assert frames[1..] == [];
    }
  }

  // ── Gathering ──

  /** A message gathers no more than a frame alone or what the limit allows, and data only where none of it is timed and no
      frame in it goes at once. */
  lemma GathersWithin(s: Sender, frame: Frame)
    ensures var t := s.Gather(frame);
            && t.messages.gathered && t.endQueued
            && ((t.messages.frames == s.messages.frames + [frame] && t.out == s.out)
                || (s.messages.gathered && t.messages.frames == [frame] && t.out == s.out + [s.messages.frames]))
            && (s.messages.gathered && t.out == s.out && s.messages.frames != [] ==>
                  && t.messages.bytes as real <= s.sizes.gatherUpTo
                  && (Sequenced(frame) ==> !s.cutsData && !s.messages.atOnce))
            && (t.messages.atOnce <==> !Sequenced(frame) || (t.out == s.out && s.messages.atOnce))
  {
    assert [] + [frame] == [frame];
  }

  /** As the task ends, what it gathered goes in one message. */
  lemma TaskEnds(s: Sender)
    requires S.MessagesKept(s.messages)
    ensures var t := s.EndTask();
            && !t.messages.gathered && !t.endQueued
            && (s.messages.gathered ==> t.out == s.out + [s.messages.frames] && t.messages == NO_MESSAGES)
            && (!s.messages.gathered ==> t.out == s.out && t.messages == s.messages)
  {
  }

  // ── Which way a frame goes ──

  /** With no rest and no announcement open, a frame goes behind one exactly where a probe is out, or where no rate is
      measured and it is larger than goes unannounced, if it is data or larger than goes whole; but data that fits both the
      send-ahead and the headroom left goes whole, and an acknowledgement never announces. */
  lemma AnnouncesExactly(s: Sender, frame: Frame, headroom: real, carried: seq<Frame>, floorPerS: nat)
    requires s.rest.None? && s.open.None?
    ensures var t, left := s.Send(frame, headroom, carried, floorPerS), headroom - CarriedBytes(s, carried) as real;
            var z, bytes := s.sizes, |frame| as real;
            t.open.Some? <==>
              && frame[0] != PIECES_ACK
              && (s.probe.Some?
                  || (&& !z.measured && bytes > z.unannouncedUpTo && (Sequenced(frame) || bytes > z.wholeUpTo)
                      && !(Sequenced(frame) && |frame| <= SEND_AHEAD_MIN + FRAME_OVERHEAD_MAX && bytes <= left)))
  {
    RoutesOpen(s.(headroom := headroom), frame, carried, floorPerS);
  }

  /** Behind a rest a frame waits exactly where it may not pass data or is cut itself, an acknowledgement never; what
      waited and the rest stay as they were. */
  lemma QueuesExactly(s: Sender, frame: Frame, headroom: real, carried: seq<Frame>, floorPerS: nat)
    requires s.rest.Some? && s.open.None?
    ensures var t := s.Send(frame, headroom, carried, floorPerS);
            var passes := frame[0] == PIECES_ACK || (PassesData(frame[0]) && |frame| as real <= s.sizes.wholeUpTo);
            && t.waiting == s.waiting + (if passes then [] else [frame])
            && t.waitingBytes == s.waitingBytes + (if passes then 0 else |frame|)
            && t.rest == s.rest
  {
    CarriedCost(s.(headroom := headroom), carried);
    S.CarriedKeeps(s.(headroom := headroom), carried);
    var c := s.(headroom := headroom).TakeCarried(carried);
    if frame[0] == PIECES_ACK || c.PassesRest(frame) {
      assert !Sequenced(frame) && c.Route(frame, floorPerS) == c.Pass(frame);
      PassesBeside(c, frame);
    } else {
      assert c.Route(frame, floorPerS) == c.Enqueue(frame);
    }
  }

  lemma CutBesideWaits(s: Sender, frame: Frame)
    requires !Sequenced(frame)
    ensures C.SameWaits(s, s.Cut(frame, 0))
  {
    C.HandPiecesWaits(s.FlushGathered().StartCut(frame, 0), frame, 0, |frame|);
  }

  lemma PassesBeside(s: Sender, frame: Frame)
    requires !Sequenced(frame)
    ensures C.SameWaits(s, s.Pass(frame))
  {
    C.WholeWaits(s, frame);
    CutBesideWaits(s, frame);
  }

  /** Carrying changes nothing that chooses but the headroom. */
  lemma RoutesOpen(s: Sender, frame: Frame, carried: seq<Frame>, floorPerS: nat)
    requires s.rest.None? && s.open.None?
    ensures var c := s.TakeCarried(carried);
            && c.headroom == s.headroom - CarriedBytes(s, carried) as real && c.open.None? && c.probe == s.probe
            && c.sizes == s.sizes && c.rest.None?
    ensures var c := s.TakeCarried(carried);
            c.Route(frame, floorPerS).open.Some?
            <==> frame[0] != PIECES_ACK && c.Announces(frame) && !c.GoesWhole(frame)
  {
    CarriedCost(s, carried);
    S.CarriedKeeps(s, carried);
    var c := s.TakeCarried(carried);
    StaysClosed(c, frame);
    S.BehindKeeps(c, frame, floorPerS);
  }

  lemma StaysClosed(s: Sender, frame: Frame)
    ensures s.Pass(frame).open == s.open && s.SendWhole(frame).open == s.open
  {
    if s.CutsNow(frame) {
      var f := s.FlushGathered();
      var end := f.CutEnd(frame, 0);
      var e := f.StartCut(frame, 0);
      var pieces := PiecesOf(frame, 0, end, e.PieceSize());
      HandsEach(e.Count(SumBytes(pieces)).TrackOver(|frame|), pieces);
    }
  }

  // ── Announcing ──

  /** A frame no larger than may follow the last announced message goes in one. */
  lemma AnnouncedInOne(s: Sender, frame: Frame)
    requires |frame| <= AnnouncedNext(s.lastAnnounced, s.namedFloor)
    ensures var t := s.SendAnnounced(frame, 0);
            && t.out == s.out + [s.messages.frames + [frame]] && t.lastAnnounced == |frame|
            && t.transmitted == s.transmitted + |frame|
  {
  }

  /** The task's first announced frame opens the announcement, naming the floor; later ones go behind the same. */
  lemma OpensOnce(s: Sender, frame: Frame, floorPerS: nat)
    requires S.MessagesKept(s.messages)
    ensures var t, f := s.Announcing(frame, floorPerS), s.FlushGathered();
            && t.open.Some?
            && (s.open.None? ==>
                  && t.out == f.out + [f.messages.frames + [AnnounceFrame(0, floorPerS)]] && t.namedFloor == floorPerS
                  && t.open.value == Opened(s.transmitted, |frame|))
            && (s.open.Some? ==>
                  && t.out == f.out && t.namedFloor == s.namedFloor
                  && t.open.value == Opened(s.open.value.start, s.open.value.bytes + |frame|))
  {
  }

  /** One probe at a time: the frame is the probe just where none is out, no rate is measured and it is larger than goes
      whole. It ends behind its empty piece and two more, before the rest of the frame goes. */
  lemma ProbesExactly(s: Sender, frame: Frame, floorPerS: nat)
    ensures var t, a := s.SendBehindAnnouncement(frame, floorPerS), s.Announcing(frame, floorPerS);
            var probes := !s.sizes.measured && s.probe.None? && |frame| as real > s.sizes.wholeUpTo;
            if probes then
              && t.probe.Some? && t.probe.value.end == a.transmitted + 3 * PIECE_HEADER + PROBE_FIRST + PROBE_PAIR
              && (t.probe.value.second.Some? <==> Sequenced(frame))
              && (Sequenced(frame) ==> t.probe.value.second.value == t.probe.value.end - PIECE_HEADER - PROBE_PAIR)
            else t.probe == s.probe
  {
    var a := s.Announcing(frame, floorPerS);
    if a.Probes(frame) {
      S.SendAnnouncedKeeps(a.SendProbePair(frame).Probing(frame), frame, PROBE_FIRST + PROBE_PAIR);
    } else {
      S.SendAnnouncedKeeps(a, frame, 0);
    }
  }

  // ── Acknowledgements ──

  predicate TrackedIn(t: Sender, s: Sender, frame: Frame) {
    t.unacknowledged == s.unacknowledged + if |frame| > ACK_OVER then [t.transmitted] else []
  }

  /** Whatever goes of a frame the receiver acknowledges is tracked by where it ends, and nothing of another. */
  lemma TracksExactly(s: Sender, frame: Frame, offset: nat, end: nat)
    requires offset <= end <= |frame|
    ensures TrackedIn(s.HandWhole(frame), s, frame) && TrackedIn(s.HandPieces(frame, offset, end), s, frame)
    ensures TrackedIn(s.SendAnnounced(frame, offset), s, frame)
  {
    var pieces := PiecesOf(frame, offset, end, s.PieceSize());
    HandsEach(s.Count(SumBytes(pieces)).TrackOver(|frame|), pieces);
    var sizes := AnnouncedSizes(|frame| - offset, s.lastAnnounced, s.namedFloor);
    S.AnnouncedPiecesKeep(s.Count(Sum(sizes) + |sizes| * PIECE_HEADER).TrackOver(|frame|), frame, offset, sizes,
                          s.transmitted);
    assert s.unacknowledged + [] == s.unacknowledged;
  }

  /** Just the ends an acknowledgement reaches are dropped. */
  lemma {:induction false} PastIsExact(ends: seq<nat>, to: nat) returns (n: nat)
    requires forall i, j | 0 <= i < j < |ends| :: ends[i] <= ends[j]
    ensures n <= |ends| && Past(ends, to) == ends[n..]
    ensures forall i | 0 <= i < |ends| :: ends[i] <= to <==> i < n
  {
    if ends == [] || ends[0] > to {
      n := 0;
    } else {
      assert forall i | 0 <= i < |ends[1..]| :: ends[1..][i] == ends[i + 1];
      n := PastIsExact(ends[1..], to);
      n := n + 1;
      assert forall i | 1 <= i < |ends| :: ends[i] == ends[1..][i - 1];
    }
  }

  /** An acknowledgement drops just the entries it reaches, and the probe just where it reaches its end. */
  lemma AcknowledgeDrops(s: Sender, bits: nat) returns (n: nat, m: nat, k: nat)
    requires C.Ordered(s) && s.Acknowledge(bits).Some?
    ensures var t := s.Acknowledge(bits).value;
            && n <= |s.unacknowledged| && t.unacknowledged == s.unacknowledged[n..]
            && (forall i | 0 <= i < |s.unacknowledged| :: s.unacknowledged[i] <= t.acknowledged <==> i < n)
            && m <= |s.announcedEnds| && t.announcedEnds == s.announcedEnds[m..]
            && (forall i | 0 <= i < |s.announcedEnds| :: s.announcedEnds[i] <= t.acknowledged <==> i < m)
            && k <= |s.announcements| && C.EndsOf(t.announcements) == C.EndsOf(s.announcements)[k..]
            && (forall i | 0 <= i < |s.announcements| :: s.announcements[i].end <= t.acknowledged <==> i < k)
            && t.probe == if s.probe.Some? && s.probe.value.end <= t.acknowledged then None else s.probe
  {
    var to := s.Acknowledge(bits).value.acknowledged;
    n := PastIsExact(s.unacknowledged, to);
    m := PastIsExact(s.announcedEnds, to);
    k := PastIsExact(C.EndsOf(s.announcements), to);
    C.EndingPastIsPast(s.announcements, to);
    assert forall i | 0 <= i < |s.announcements| :: C.EndsOf(s.announcements)[i] == s.announcements[i].end;
  }

  // ── Sizes ──

  /** At the fastest rate measured a whole frame takes an eighth of the ping interval; before one is measured, a frame is
      cut only past two probes and, uncut data, an eighth of the interval at the floor. An unannounced frame is no larger
      than a whole one, and past a probe's first piece it goes within the deadline at the floor. */
  lemma SizesMean(cutsData: bool, fastest: real, floor: real, ping: real, deadline: real)
    requires fastest >= 0.0 && floor >= 0.0 && ping >= 0.0 && deadline >= 0.0
    ensures var z := SizesFor(cutsData, fastest, floor, ping, deadline);
            && (z.measured <==> fastest > 0.0)
            && (z.measured ==> RATE_MARGIN * z.wholeUpTo == fastest * ping)
            && (!z.measured ==> z.wholeUpTo >= (2 * PROBE_PAIR) as real
                                && (!cutsData ==> RATE_MARGIN * z.wholeUpTo >= floor * ping)
                                && (z.wholeUpTo > (2 * PROBE_PAIR) as real ==>
                                      !cutsData && RATE_MARGIN * z.wholeUpTo == floor * ping))
            && z.unannouncedUpTo <= z.wholeUpTo
            && (z.unannouncedUpTo <= floor * deadline || z.unannouncedUpTo <= PROBE_FIRST as real)
            && (z.unannouncedUpTo < z.wholeUpTo ==>
                  z.unannouncedUpTo >= floor * deadline && z.unannouncedUpTo >= PROBE_FIRST as real)
            && z.gatherUpTo <= GATHER_MAX as real && z.gatherUpTo <= z.wholeUpTo
            && (!z.measured ==> z.gatherUpTo <= z.unannouncedUpTo)
            && (z.gatherUpTo < GATHER_MAX as real ==>
                  z.gatherUpTo == if z.measured then z.wholeUpTo else z.unannouncedUpTo)
  {
  }
}
