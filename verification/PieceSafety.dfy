/** Over every run of a piece sender, the receiver at the other end takes every message without a violation, counts what
    the sender counts, and gets every frame whole, once, its data in order. */
module PieceSafety {
  import opened Bytes
  import opened Tags
  import opened Frames
  import opened Pieces
  import opened PieceSteps

  /** The receiver once it took the frames of each message handed, each a frame an encoder makes. */
  function Peer(out: seq<seq<Frame>>): Result<Receiver> {
    if out == [] then Ok(NewReceiver())
    else
      var frames := out[|out| - 1];
      match Peer(out[..|out| - 1])
      case Ok(r) => if frames != [] && AllWellFormed(frames) then r.TakeFrames(frames) else Violation
      case Violation => Violation
  }

  lemma PeerTakes(out: seq<seq<Frame>>, riders: seq<Frame>, last: Frame, r: Receiver)
    requires Peer(out) == Ok(r) && AllPlain(riders) && WellFormed(last)
    ensures Peer(out + [riders + [last]]) == r.TakeFrames(riders + [last])
  {
    assert (out + [riders + [last]])[..|out|] == out;
    RidersWellFormed(riders, last);
  }

  lemma {:induction false} RidersWellFormed(riders: seq<Frame>, last: Frame)
    requires AllPlain(riders) && WellFormed(last)
    ensures AllWellFormed(riders + [last])
  {
    var all := riders + [last];
    if riders == [] {
      assert all == [last] && all[1..] == [];
    } else {
      assert Plain(riders[0]);
      assert forall i | 0 <= i < |riders[1..]| :: riders[1..][i] == riders[i + 1];
      assert all[1..] == riders[1..] + [last];
      RidersWellFormed(riders[1..], last);
    }
  }

  // ── What the sender holds and what the receiver took ──

  predicate MessagesKept(m: Messages) {
    && AllPlain(m.frames)
    && m.bytes == (if m.frames == [] then 0 else MessageBytes(m.frames))
    && m.lengthAhead == (if m.frames == [] then 0 else LengthBytes(m.frames[|m.frames| - 1][0]))
    && (m.gathered ==> m.frames != [])
    && (!m.gathered ==> m.lengthAhead == 0)
  }

  /** `ahead`: bytes the sender counted for messages it hands next, `behind`: announced bytes among them. */
  predicate Agrees(s: Sender, p: Receiver, ahead: nat, behind: nat) {
    && p.took + s.messages.bytes + ahead == s.transmitted
    && (s.open.None? ==> p.announced == None)
    && (s.open.Some? ==> p.announced.Some? && p.announced.value + behind == s.open.value.bytes)
    && p.lastAnnounced == s.lastAnnounced && p.floorPerS == s.namedFloor && p.onPace
  }

  predicate GoodAhead(s: Sender, p: Receiver, ahead: nat, behind: nat) {
    Peer(s.out) == Ok(p) && Agrees(s, p, ahead, behind) && MessagesKept(s.messages)
  }

  predicate Good(s: Sender, p: Receiver) {
    GoodAhead(s, p, 0, 0)
  }

  /** The receiver once it took the carried frames ahead of a message. */
  function Ridden(s: Sender, p: Receiver): Receiver {
    p.(took := p.took + s.messages.bytes, delivered := p.delivered + s.messages.frames)
  }

  lemma {:induction false} RodeAll(frames: seq<Frame>)
    ensures RodeBytes(frames) == if frames == [] then 0
                                 else MessageBytes(frames) + LengthBytes(frames[|frames| - 1][0])
  {
    if |frames| > 1 {
      RodeAll(frames[1..]);
      assert frames[1..][|frames| - 2] == frames[|frames| - 1];
    } else if |frames| == 1 {
      assert frames[1..] == [];
    }
  }

  lemma HandTaken(s: Sender, p: Receiver, m: Frame)
    requires Peer(s.out) == Ok(p) && MessagesKept(s.messages) && s.messages.lengthAhead == 0 && WellFormed(m)
    ensures Peer(s.Hand(m).out) == Ridden(s, p).Take(m, true)
  {
    PeerTakes(s.out, s.messages.frames, m, p);
    RidesTaken(p, s.messages, m);
  }

  lemma RidesTaken(p: Receiver, held: Messages, m: Frame)
    requires MessagesKept(held) && held.lengthAhead == 0
    ensures p.TakeFrames(held.frames + [m])
            == p.(took := p.took + held.bytes, delivered := p.delivered + held.frames).Take(m, true)
  {
    TakesRiders(p, held.frames, m);
    RodeAll(held.frames);
    TakesOne(p.(took := p.took + held.bytes, delivered := p.delivered + held.frames), m);
  }

  /** A plain frame handed alone. */
  lemma HandPlain(s: Sender, p: Receiver, m: Frame)
    requires Peer(s.out) == Ok(p) && MessagesKept(s.messages) && s.messages.lengthAhead == 0 && Plain(m)
    ensures Peer(s.Hand(m).out) == Ok(Ridden(s, p).Arrived(m, true))
  {
    HandTaken(s, p, m);
  }

  lemma PlainRides(p: Receiver, front: seq<Frame>, last: Frame)
    requires AllPlain(front) && Plain(last) && p.announced.None?
    ensures p.TakeFrames(front + [last])
            == Ok(p.(took := p.took + MessageBytes(front + [last]), delivered := p.delivered + (front + [last])))
  {
    TakesRiders(p, front, last);
    RodeBytesEnd(front, last);
    TakesOne(p.(took := p.took + RodeBytes(front), delivered := p.delivered + front), last);
    assert p.delivered + front + [last] == p.delivered + (front + [last]);
  }

  /** A message of plain frames. */
  lemma PlainTaken(out: seq<seq<Frame>>, p: Receiver, front: seq<Frame>, last: Frame)
    requires Peer(out) == Ok(p) && AllPlain(front) && Plain(last) && p.announced.None?
    ensures Peer(out + [front + [last]])
            == Ok(p.(took := p.took + MessageBytes(front + [last]), delivered := p.delivered + (front + [last])))
  {
    PeerTakes(out, front, last, p);
    PlainRides(p, front, last);
  }

  /** What it gathered goes: all plain frames, and none announced. */
  lemma FlushTaken(s: Sender, p: Receiver) returns (q: Receiver)
    requires Good(s, p) && (s.open.None? || s.messages.frames == [])
    ensures Good(s.Flush(), q) && q == Ridden(s, p)
  {
    q := Ridden(s, p);
    if s.messages.frames != [] {
      var frames := s.messages.frames;
      var front, last := frames[..|frames| - 1], frames[|frames| - 1];
      assert frames == front + [last];
      PlainTaken(s.out, p, front, last);
    } else {
      assert p.delivered + [] == p.delivered;
    }
  }

  /** What is only carried stays. */
  lemma FlushGatheredTaken(s: Sender, p: Receiver) returns (q: Receiver)
    requires Good(s, p) && (s.open.None? || s.messages.frames == [])
    ensures var t := s.FlushGathered();
            && Good(t, q) && t.messages.lengthAhead == 0
            && q.part == p.part && q.total == p.total
            && q.delivered + t.messages.frames == p.delivered + s.messages.frames
  {
    if s.messages.gathered {
      q := FlushTaken(s, p);
      assert q.delivered + [] == q.delivered;
    } else {
      q := p;
    }
  }

  /** A frame joining a message is counted with the LENGTH the one before it needs now. */
  lemma MessageJoined(m: Messages, frame: Frame)
    requires MessagesKept(m)
    ensures m.bytes + m.lengthAhead + |frame| == MessageBytes(m.frames + [frame])
  {
    if m.frames == [] {
      assert [] + [frame] == [frame];
    } else {
      MessageAppend(m.frames, frame);
    }
  }

  lemma JoinTaken(s: Sender, p: Receiver, frame: Frame)
    requires Good(s, p) && Plain(frame)
    ensures Agrees(s.CountJoining(frame).(messages := s.messages.Add(frame)), p, 0, 0)
    ensures s.messages.Add(frame).bytes == MessageBytes(s.messages.frames + [frame])
  {
    MessageJoined(s.messages, frame);
  }

  lemma NoMore(a: seq<seq<byte>>)
    ensures a + [] == a && [] + a == a
  {
  }

  // ── Whole frames ──

  /** `q` took `more` after `p`, and holds as much of a frame not yet whole. */
  predicate Took(p: Receiver, more: seq<seq<byte>>, q: Receiver) {
    q.delivered == p.delivered + more && q.part == p.part && q.total == p.total
  }

  lemma GatherTaken(s: Sender, p: Receiver, frame: Frame) returns (q: Receiver)
    requires Good(s, p) && s.open.None? && Plain(frame)
    ensures var t := s.Gather(frame);
            && Good(t, q) && q.part == p.part && q.total == p.total
            && q.delivered + t.messages.frames == p.delivered + s.messages.frames + [frame]
  {
    var f := if s.StartsMessage(frame) then s.Flush() else s;
    q := p;
    if s.StartsMessage(frame) {
      q := FlushTaken(s, p);
    }
    JoinTaken(f, q, frame);
    Assoc(q.delivered, f.messages.frames, [frame]);
  }

  lemma Assoc(a: seq<seq<byte>>, b: seq<seq<byte>>, c: seq<seq<byte>>)
    ensures (a + b) + c == a + (b + c)
  {
  }

  /** A frame handed whole with no announcement open. */
  lemma WholeTaken(s: Sender, p: Receiver, frame: Frame) returns (q: Receiver)
    requires Good(s, p) && s.open.None? && Plain(frame) && s.messages.lengthAhead == 0
    ensures var t := s.Count(|frame|).Hand(frame);
            Good(t, q) && Took(p, s.messages.frames + [frame], q)
  {
    var c := s.Count(|frame|);
    q := Ridden(s, p).Arrived(frame, true);
    HandPlain(c, p, frame);
    Assoc(p.delivered, s.messages.frames, [frame]);
  }

  // ── Pieces ──

  /** The receiver holds `frame` through `at`. */
  predicate HoldsPart(p: Receiver, frame: Frame, at: nat)
    requires at <= |frame|
  {
    p.part == frame[..at] && (at > 0 ==> p.total == |frame|)
  }

  /** The receiver with the next piece of `frame` too. */
  function WithPiece(p: Receiver, frame: Frame, at: nat, to: nat): Receiver
    requires at < to <= |frame|
  {
    var whole := to == |frame|;
    p.(took := p.took + PIECE_HEADER + (to - at), total := |frame|, part := if whole then [] else frame[..to],
       delivered := p.delivered + if whole then [frame] else [])
    .Paced(to - at)
  }

  lemma AddsPiece(p: Receiver, frame: Frame, at: nat, to: nat)
    requires at < to <= |frame| && HoldsPart(p, frame, at)
    ensures p.Add(|frame|, frame[at..to]) == Ok(WithPiece(p, frame, at, to))
  {
    assert frame[..at] + frame[at..to] == frame[..to];
    assert frame[..|frame|] == frame;
    assert p.delivered + [] == p.delivered;
  }

  lemma PieceTaken(p: Receiver, frame: Frame, at: nat, to: nat)
    requires at < to <= |frame| && |frame| + PIECE_HEADER < SEQ_SPAN && HoldsPart(p, frame, at)
    ensures p.Take(PieceFrame(|frame|, frame[at..to]), true) == Ok(WithPiece(p, frame, at, to))
  {
    TakesPiece(p, |frame|, frame[at..to]);
    AddsPiece(p, frame, at, to);
  }

  /** An empty piece starts a frame of which nothing came yet. */
  lemma EmptyPieceTaken(s: Sender, p: Receiver, total: nat, behind: nat) returns (q: Receiver)
    requires GoodAhead(s, p, 0, behind) && s.messages.lengthAhead == 0 && p.part == [] && total < SEQ_SPAN
    ensures var t := s.SendEmptyPiece(total);
            GoodAhead(t, q, 0, behind) && q.part == [] && q.delivered == p.delivered + s.messages.frames
  {
    HandTaken(s.Count(PIECE_HEADER), p, PieceFrame(total, []));
    TakesPiece(Ridden(s, p), total, []);
    q := Ridden(s, p).Add(total, []).value;
  }

  lemma SumBytesFirst(first: Frame, rest: seq<Frame>)
    ensures SumBytes([first] + rest) == |first| + SumBytes(rest)
  {
    assert ([first] + rest)[1..] == rest;
  }

  lemma HandEachFirst(s: Sender, first: Frame, rest: seq<Frame>)
    ensures s.HandEach([first] + rest) == s.Hand(first).HandEach(rest)
  {
    assert ([first] + rest)[1..] == rest;
  }

  /** Pieces of a frame from where the receiver is, with no announcement open. */
  lemma {:induction false} PiecesTaken(s: Sender, p: Receiver, frame: Frame, at: nat, end: nat, size: nat)
    returns (q: Receiver)
    requires at < end <= |frame| && size > 0 && |frame| + PIECE_HEADER < SEQ_SPAN && HoldsPart(p, frame, at)
    requires GoodAhead(s, p, SumBytes(PiecesOf(frame, at, end, size)), 0) && s.messages.lengthAhead == 0 && s.open.None?
    ensures Good(s.HandEach(PiecesOf(frame, at, end, size)), q)
    ensures q.part == (if end == |frame| then [] else frame[..end]) && q.total == |frame|
    ensures q.delivered == p.delivered + s.messages.frames + if end == |frame| then [frame] else []
    decreases end - at
  {
    var to := Min(end, at + size);
    var first, rest := PieceFrame(|frame|, frame[at..to]), PiecesOf(frame, to, end, size);
    SumBytesFirst(first, rest);
    HandEachFirst(s, first, rest);
    HandTaken(s, p, first);
    PieceTaken(Ridden(s, p), frame, at, to);
    q := WithPiece(Ridden(s, p), frame, at, to);
    var h := s.Hand(first);
    assert GoodAhead(h, q, SumBytes(rest), 0);
    if to < end {
      var last := PiecesTaken(h, q, frame, to, end, size);
      assert q.delivered + h.messages.frames == q.delivered;
      q := last;
    } else {
      assert rest == [];
    }
  }

  /** The pieces carry exactly the bytes of their span, with one header each. */
  lemma {:induction false} PiecesBytes(frame: Frame, at: nat, end: nat, size: nat)
    requires at <= end <= |frame| && size > 0
    ensures SumBytes(PiecesOf(frame, at, end, size)) == end - at + |PiecesOf(frame, at, end, size)| * PIECE_HEADER
    ensures |PiecesOf(frame, at, end, size)| == (end - at + size - 1) / size
    decreases end - at
  {
    if at < end {
      var to := Min(end, at + size);
      PiecesBytes(frame, to, end, size);
      SumBytesFirst(PieceFrame(|frame|, frame[at..to]), PiecesOf(frame, to, end, size));
      CeilStep(end - at, size);
    }
  }

  lemma CeilStep(n: nat, size: nat)
    requires n > 0 && size > 0
    ensures (n + size - 1) / size == 1 + (if n > size then (n - size + size - 1) / size else 0)
  {
    if n > size {
      var x := n - 1;
      DivIs(x + size, size, x / size + 1, x % size);
    } else {
      DivIs(n + size - 1, size, 1, n - 1);
    }
  }

  lemma DivIs(x: nat, d: nat, q: nat, r: nat)
    requires r < d && x == q * d + r
    ensures x / d == q
  {
    var k, m := x / d, x % d;
    assert x == k * d + m;
    if q > k {
      Multiples(q - k, d);
    } else if k > q {
      Multiples(k - q, d);
    }
  }

  lemma Multiples(n: nat, d: nat)
    requires n >= 1
    ensures n * d >= d
  {
  }

  // ── One frame passed ──

  /** A frame the sender can be given: some header less than a u32's worth of bytes. */
  predicate Sendable(frame: Frame) {
    Plain(frame) && |frame| + PIECE_HEADER < SEQ_SPAN
  }

  function RestFrames(s: Sender): seq<seq<byte>> {
    if s.rest.Some? then [s.rest.value.frame] else []
  }

  /** The receiver holds just what went of the rest, of a frame of data or one never cut. */
  predicate RestKept(s: Sender, p: Receiver) {
    && (s.rest.None? ==> p.part == [])
    && (s.rest.Some? ==>
          var Rest(frame, offset) := s.rest.value;
          && Sendable(frame) && Sequenced(frame) && offset < |frame| && HoldsPart(p, frame, offset)
          && (!s.cutsData ==> offset == 0))
  }

  /** What the task gathered goes as it ends. */
  predicate EndsQueued(s: Sender) {
    s.messages.gathered ==> s.endQueued
  }

  /** What passing or cutting changes: neither what waits behind, nor an announcement. */
  predicate SameQueue(s: Sender, t: Sender) {
    && (EndsQueued(s) ==> EndsQueued(t))
    && t.waiting == s.waiting && t.open == s.open && t.cutsData == s.cutsData && t.sizes == s.sizes && t.probe == s.probe
    && t.lastAnnounced == s.lastAnnounced && t.namedFloor == s.namedFloor
  }

  /** `frame` went after what was sent before it, or its rest waits, next to go. */
  predicate Passed(s: Sender, p: Receiver, frame: Frame, t: Sender, q: Receiver) {
    && Good(t, q) && RestKept(t, q) && SameQueue(s, t)
    && q.delivered + t.messages.frames + RestFrames(t) == p.delivered + s.messages.frames + [frame]
  }

  lemma HandEachKeeps(s: Sender, frames: seq<Frame>)
    ensures var t := s.HandEach(frames);
            t == s.(out := t.out, messages := if frames == [] then s.messages else NO_MESSAGES)
    decreases |frames|
  {
    if frames != [] {
      HandEachKeeps(s.Hand(frames[0]), frames[1..]);
    }
  }

  /** The pieces of one cut, to its end. */
  lemma HandPiecesTaken(s: Sender, p: Receiver, frame: Frame, offset: nat, end: nat) returns (q: Receiver)
    requires Good(s, p) && s.open.None? && s.messages.lengthAhead == 0 && Sendable(frame)
    requires offset < end <= |frame| && HoldsPart(p, frame, offset)
    ensures var t := s.HandPieces(frame, offset, end);
            && Good(t, q) && SameQueue(s, t) && t.rest == s.rest && t.messages == NO_MESSAGES
            && q.part == (if end == |frame| then [] else frame[..end]) && q.total == |frame|
            && q.delivered == p.delivered + s.messages.frames + if end == |frame| then [frame] else []
  {
    var pieces := PiecesOf(frame, offset, end, s.PieceSize());
    var c := s.Count(SumBytes(pieces)).TrackOver(|frame|);
    assert GoodAhead(c, p, SumBytes(pieces), 0);
    q := PiecesTaken(c, p, frame, offset, end, s.PieceSize());
    HandEachKeeps(c, pieces);
  }

  lemma StartCutTaken(s: Sender, p: Receiver, frame: Frame, offset: nat) returns (q: Receiver)
    requires Good(s, p) && s.open.None? && s.messages.lengthAhead == 0 && Sendable(frame)
    requires offset < |frame| && HoldsPart(p, frame, offset)
    ensures var e := s.StartCut(frame, offset);
            && Good(e, q) && SameQueue(s, e) && e.rest == s.rest && HoldsPart(q, frame, offset)
            && q.delivered + e.messages.frames == p.delivered + s.messages.frames && e.messages.lengthAhead == 0
  {
    q := p;
    if offset == 0 && |frame| as real > s.sizes.wholeUpTo {
      q := EmptyPieceTaken(s, p, |frame|, 0);
      assert frame[..0] == [];
      assert q.delivered + [] == q.delivered;
    }
  }

  /** What was not handed of `frame` waits. */
  lemma WaitTaken(s: Sender, p: Receiver, frame: Frame, offset: nat)
    requires Good(s, p) && s.rest.None? && Sendable(frame) && offset <= |frame|
    requires offset == |frame| ==> p.part == []
    requires offset < |frame| ==> Sequenced(frame) && HoldsPart(p, frame, offset) && (!s.cutsData ==> offset == 0)
    ensures var t := s.WaitFrom(frame, offset);
            Good(t, p) && RestKept(t, p) && SameQueue(s, t) && t.messages == s.messages
            && RestFrames(t) == if offset < |frame| then [frame] else []
  {
  }

  lemma CutTaken(s: Sender, p: Receiver, frame: Frame, offset: nat) returns (q: Receiver)
    requires Good(s, p) && s.open.None? && s.rest.None? && Sendable(frame)
    requires offset < |frame| && HoldsPart(p, frame, offset) && (offset > 0 ==> s.cutsData && Sequenced(frame))
    ensures Passed(s, p, frame, s.Cut(frame, offset), q)
  {
    q := FlushGatheredTaken(s, p);
    var f := s.FlushGathered();
    var end := f.CutEnd(frame, offset);
    if end == offset {
      WaitTaken(f, q, frame, offset);
      assert f.WaitFrom(frame, offset) == s.Cut(frame, offset);
    } else {
      var r := StartCutTaken(f, q, frame, offset);
      var e := f.StartCut(frame, offset);
      var d := HandPiecesTaken(e, r, frame, offset, end);
      WaitTaken(e.HandPieces(frame, offset, end), d, frame, end);
      CutLine(d.delivered, r.delivered + e.messages.frames, frame, end < |frame|);
      q := d;
    }
  }

  lemma CutLine(delivered: seq<seq<byte>>, before: seq<seq<byte>>, frame: seq<byte>, waits: bool)
    requires delivered == before + if waits then [] else [frame]
    ensures delivered + [] + (if waits then [frame] else []) == before + [frame]
  {
  }

  lemma HandWholeTaken(s: Sender, p: Receiver, frame: Frame) returns (q: Receiver)
    requires Good(s, p) && s.open.None? && Plain(frame)
    ensures var t := s.HandWhole(frame);
            && Good(t, q) && SameQueue(s, t) && t.rest == s.rest && q.part == p.part && q.total == p.total
            && q.delivered + t.messages.frames == p.delivered + s.messages.frames + [frame]
  {
    var f := s.FlushGathered();
    var r := FlushGatheredTaken(s, p);
    q := WholeTaken(f, r, frame);
    Assoc(r.delivered, f.messages.frames, [frame]);
    assert q.delivered + [] == q.delivered;
  }

  lemma UncutTaken(s: Sender, p: Receiver, frame: Frame) returns (q: Receiver)
    requires Good(s, p) && s.open.None? && Plain(frame)
    ensures var t := if |frame| as real < s.sizes.gatherUpTo then s.Gather(frame) else s.HandWhole(frame);
            && Good(t, q) && SameQueue(s, t) && t.rest == s.rest && q.part == p.part && q.total == p.total
            && q.delivered + t.messages.frames == p.delivered + s.messages.frames + [frame]
  {
    if |frame| as real < s.sizes.gatherUpTo {
      q := GatherTaken(s, p, frame);
    } else {
      q := HandWholeTaken(s, p, frame);
    }
  }

  /** With no rest waiting, a frame passes whole, in pieces, or waits. */
  lemma PassTaken(s: Sender, p: Receiver, frame: Frame) returns (q: Receiver)
    requires Good(s, p) && s.open.None? && s.rest.None? && p.part == [] && Sendable(frame)
    ensures Passed(s, p, frame, s.Pass(frame), q)
  {
    if Sequenced(frame) && !s.cutsData && s.headroom <= 0.0 {
      q := p;
      assert frame[..0] == [];
    } else if s.CutsNow(frame) {
      assert frame[..0] == [];
      q := CutTaken(s, p, frame, 0);
    } else {
      q := UncutTaken(s, p, frame);
      NoMore(p.delivered + s.messages.frames + [frame]);
    }
  }

  /** Beside a rest that waits, a frame that is not data and small enough passes whole. */
  lemma PassBesideTaken(s: Sender, p: Receiver, frame: Frame) returns (q: Receiver)
    requires Good(s, p) && s.open.None? && Plain(frame)
    requires !Sequenced(frame) && |frame| as real <= s.sizes.wholeUpTo
    ensures var t := s.Pass(frame);
            && Good(t, q) && SameQueue(s, t) && t.rest == s.rest && q.part == p.part && q.total == p.total
            && q.delivered + t.messages.frames == p.delivered + s.messages.frames + [frame]
  {
    q := UncutTaken(s, p, frame);
  }

  // ── Announcements ──

  lemma OpenTaken(s: Sender, p: Receiver, floorPerS: nat) returns (q: Receiver)
    requires Good(s, p) && s.messages.lengthAhead == 0 && p.part == [] && floorPerS < SEQ_SPAN
    ensures var t := s.OpenAnnouncement(floorPerS);
            && Good(t, q) && t.open.Some? && q.part == [] && t.messages.lengthAhead == 0
            && q.delivered + t.messages.frames == p.delivered + s.messages.frames
  {
    q := p;
    if s.open.None? {
      HandTaken(s, p, AnnounceFrame(0, floorPerS));
      TakesAnnounce(Ridden(s, p), 0, floorPerS);
      q := Ridden(s, p).Announce(0, floorPerS).value;
      assert q.delivered + [] == q.delivered;
    }
  }

  lemma CloseTaken(s: Sender, p: Receiver) returns (q: Receiver)
    requires Good(s, p) && s.open.Some? && s.messages.lengthAhead == 0 && s.open.value.bytes < SEQ_SPAN
    ensures var t := s.CloseAnnouncement();
            Good(t, q) && t.open.None? && Took(p, s.messages.frames, q)
  {
    HandTaken(s, p, AnnounceFrame(s.open.value.bytes, 0));
    TakesAnnounce(Ridden(s, p), s.open.value.bytes, 0);
    q := Ridden(s, p).Announce(s.open.value.bytes, 0).value;
  }

  /** No size is past what may follow the one before. */
  predicate InPace(last: nat, floorPerS: nat, sizes: seq<nat>)
    decreases |sizes|
  {
    sizes == [] || (0 < sizes[0] <= AnnouncedNext(last, floorPerS) && InPace(sizes[0], floorPerS, sizes[1..]))
  }

  lemma {:induction false} LargestInPace(left: nat, last: nat, floorPerS: nat)
    ensures InPace(last, floorPerS, LargestSizes(left, last, floorPerS))
    decreases left
  {
    if left != 0 {
      var size := Min(left, AnnouncedNext(last, floorPerS));
      LargestInPace(left - size, size, floorPerS);
    }
  }

  /** Taking a third of the last two keeps each within what may follow the one before. */
  lemma {:induction false} RebalancedInPace(last: nat, floorPerS: nat, sizes: seq<nat>)
    requires InPace(last, floorPerS, sizes)
    ensures InPace(last, floorPerS, Rebalanced(sizes))
    decreases |sizes|
  {
    var n := |sizes|;
    if n > 2 {
      RebalancedInPace(sizes[0], floorPerS, sizes[1..]);
      assert Rebalanced(sizes) == [sizes[0]] + Rebalanced(sizes[1..]);
    } else if n == 2 && sizes[1] < sizes[0] {
      var both := sizes[0] + sizes[1];
      var first := (both + 2) / 3;
      assert Rebalanced(sizes) == [first, both - first];
      assert InPace(both - first, floorPerS, []);
      assert [first, both - first][1..] == [both - first] && [both - first][1..] == [];
      assert sizes[1..] == [sizes[1]];
      assert InPace(first, floorPerS, [both - first]);
    }
  }

  /** Every announced message is at most what may follow the one before. */
  lemma AnnouncedInPace(left: nat, last: nat, floorPerS: nat)
    ensures InPace(last, floorPerS, AnnouncedSizes(left, last, floorPerS))
  {
    LargestInPace(left, last, floorPerS);
    RebalancedInPace(last, floorPerS, LargestSizes(left, last, floorPerS));
  }

  /** What one announced piece leaves. */
  predicate PieceWent(s: Sender, p: Receiver, t: Sender, q: Receiver, frame: Frame, at: nat, size: nat, ahead: nat,
                      behind: nat)
    requires PIECE_HEADER + size <= ahead && size <= behind && at + size <= |frame|
  {
    && GoodAhead(t, q, ahead - PIECE_HEADER - size, behind - size) && t.messages == NO_MESSAGES
    && q.part == (if at + size == |frame| then [] else frame[..at + size]) && q.total == |frame|
    && q.delivered == p.delivered + s.messages.frames + if at + size == |frame| then [frame] else []
  }

  /** One announced piece, in the message `m`. */
  lemma AnnouncedPieceTaken(s: Sender, p: Receiver, m: Frame, frame: Frame, at: nat, size: nat, end: nat, ahead: nat,
                            behind: nat)
    returns (q: Receiver)
    requires GoodAhead(s, p, ahead, behind) && s.open.Some?
    requires 0 < size <= AnnouncedNext(s.lastAnnounced, s.namedFloor) && size <= behind && PIECE_HEADER + size <= ahead
    requires at + size <= |frame| && Peer(s.Hand(m).out) == Ok(WithPiece(Ridden(s, p), frame, at, at + size))
    ensures PieceWent(s, p, s.SendAnnouncedMessage(m, size, end), q, frame, at, size, ahead, behind)
  {
    q := WithPiece(Ridden(s, p), frame, at, at + size);
    AnnouncedAgrees(s, p, q, m, size, end, ahead, behind);
    assert s.SendAnnouncedMessage(m, size, end).out == s.Hand(m).out;
  }

  lemma PieceHanded(s: Sender, p: Receiver, frame: Frame, at: nat, to: nat)
    requires Peer(s.out) == Ok(p) && MessagesKept(s.messages) && s.messages.lengthAhead == 0
    requires at < to <= |frame| && |frame| + PIECE_HEADER < SEQ_SPAN && HoldsPart(p, frame, at)
    ensures Peer(s.Hand(PieceFrame(|frame|, frame[at..to])).out) == Ok(WithPiece(Ridden(s, p), frame, at, to))
  {
    PieceIsWellFormed(|frame|, frame[at..to]);
    HandTaken(s, p, PieceFrame(|frame|, frame[at..to]));
    PieceTaken(Ridden(s, p), frame, at, to);
  }

  lemma PieceIsWellFormed(total: nat, piece: seq<byte>)
    requires |piece| + PIECE_HEADER < SEQ_SPAN
    ensures WellFormed(PieceFrame(total, piece))
  {
  }

  lemma AnnouncedAgrees(s: Sender, p: Receiver, q: Receiver, m: Frame, size: nat, end: nat, ahead: nat, behind: nat)
    requires Agrees(s, p, ahead, behind) && s.open.Some? && size <= behind && PIECE_HEADER + size <= ahead
    requires q.took == p.took + s.messages.bytes + PIECE_HEADER + size && q.announced == Some(p.announced.value + size)
    requires q.lastAnnounced == size && q.floorPerS == p.floorPerS && q.onPace
    ensures Agrees(s.SendAnnouncedMessage(m, size, end), q, ahead - PIECE_HEADER - size, behind - size)
  {
  }

  /** All is counted for the pieces of `sizes`, and the receiver holds the frame up to them. */
  predicate Announcing(s: Sender, p: Receiver, frame: Frame, at: nat, sizes: seq<nat>) {
    && at + Sum(sizes) == |frame| && sizes != [] && Sendable(frame) && HoldsPart(p, frame, at)
    && GoodAhead(s, p, Sum(sizes) + |sizes| * PIECE_HEADER, Sum(sizes))
    && s.messages.lengthAhead == 0 && s.open.Some? && InPace(s.lastAnnounced, s.namedFloor, sizes)
  }

  function FirstAnnounced(s: Sender, frame: Frame, at: nat, sizes: seq<nat>, end: nat): Sender
    requires sizes != [] && at + Sum(sizes) == |frame|
  {
    s.SendAnnouncedMessage(PieceFrame(|frame|, frame[at..at + sizes[0]]), sizes[0], end + PIECE_HEADER + sizes[0])
  }

  /** Once the first piece went, more follow, or the frame is whole. */
  predicate FirstWent(s: Sender, p: Receiver, t: Sender, q: Receiver, frame: Frame, at: nat, sizes: seq<nat>)
    requires sizes != [] && at + Sum(sizes) == |frame|
  {
    && t.messages == NO_MESSAGES
    && (|sizes| == 1 ==> Good(t, q) && q.part == [] && q.delivered == p.delivered + s.messages.frames + [frame])
    && (|sizes| > 1 ==> Announcing(t, q, frame, at + sizes[0], sizes[1..])
                        && q.delivered == p.delivered + s.messages.frames)
  }

  /** In the message `m`. */
  lemma FirstTaken(s: Sender, p: Receiver, m: Frame, frame: Frame, at: nat, sizes: seq<nat>, end: nat)
    returns (t: Sender, q: Receiver)
    requires Announcing(s, p, frame, at, sizes)
    requires Peer(s.Hand(m).out) == Ok(WithPiece(Ridden(s, p), frame, at, at + sizes[0]))
    ensures t == s.SendAnnouncedMessage(m, sizes[0], end) && FirstWent(s, p, t, q, frame, at, sizes)
  {
    t := s.SendAnnouncedMessage(m, sizes[0], end);
    q := AnnouncedPieceTaken(s, p, m, frame, at, sizes[0], end, Sum(sizes) + |sizes| * PIECE_HEADER, Sum(sizes));
    if |sizes| > 1 {
      SumPositive(sizes[0], s.namedFloor, sizes[1..]);
    } else {
      assert sizes[1..] == [] && Sum(sizes) == sizes[0] + Sum(sizes[1..]);
    }
  }

  lemma FirstPieceTaken(s: Sender, p: Receiver, frame: Frame, at: nat, sizes: seq<nat>, end: nat)
    returns (t: Sender, q: Receiver)
    requires Announcing(s, p, frame, at, sizes)
    ensures FirstWent(s, p, t, q, frame, at, sizes)
    ensures s.SendAnnouncedPieces(frame, at, sizes, end)
            == t.SendAnnouncedPieces(frame, at + sizes[0], sizes[1..], end + PIECE_HEADER + sizes[0])
    ensures |sizes| == 1 ==> s.SendAnnouncedPieces(frame, at, sizes, end) == t
  {
    t, q := FirstOutTaken(s, p, frame, at, sizes, end);
    FirstThenRest(s, frame, at, sizes, end);
  }

  lemma FirstThenRest(s: Sender, frame: Frame, at: nat, sizes: seq<nat>, end: nat)
    requires sizes != [] && at + Sum(sizes) == |frame|
    ensures s.SendAnnouncedPieces(frame, at, sizes, end)
            == FirstAnnounced(s, frame, at, sizes, end)
               .SendAnnouncedPieces(frame, at + sizes[0], sizes[1..], end + PIECE_HEADER + sizes[0])
    ensures |sizes| == 1 ==> s.SendAnnouncedPieces(frame, at, sizes, end) == FirstAnnounced(s, frame, at, sizes, end)
  {
    if |sizes| == 1 {
      NoPieces(FirstAnnounced(s, frame, at, sizes, end), frame, at + sizes[0], sizes[1..], end + PIECE_HEADER + sizes[0]);
    }
  }

  lemma NoPieces(s: Sender, frame: Frame, at: nat, sizes: seq<nat>, end: nat)
    requires sizes == [] && at + Sum(sizes) == |frame|
    ensures s.SendAnnouncedPieces(frame, at, sizes, end) == s
  {
  }

  lemma FirstOutTaken(s: Sender, p: Receiver, frame: Frame, at: nat, sizes: seq<nat>, end: nat)
    returns (t: Sender, q: Receiver)
    requires Announcing(s, p, frame, at, sizes)
    ensures t == FirstAnnounced(s, frame, at, sizes, end) && FirstWent(s, p, t, q, frame, at, sizes)
  {
    PieceHanded(s, p, frame, at, at + sizes[0]);
    t, q := FirstTaken(s, p, PieceFrame(|frame|, frame[at..at + sizes[0]]), frame, at, sizes,
                       end + PIECE_HEADER + sizes[0]);
  }

  lemma {:induction false} AnnouncedPiecesTaken(s: Sender, p: Receiver, frame: Frame, at: nat, sizes: seq<nat>, end: nat)
    returns (t: Sender, q: Receiver)
    requires Announcing(s, p, frame, at, sizes)
    ensures t == s.SendAnnouncedPieces(frame, at, sizes, end)
    ensures Good(t, q) && t.messages == NO_MESSAGES && q.part == []
    ensures q.delivered == p.delivered + s.messages.frames + [frame]
    decreases |sizes|
  {
    var first, r := FirstPieceTaken(s, p, frame, at, sizes, end);
    if |sizes| == 1 {
      return first, r;
    }
    t, q := AnnouncedPiecesTaken(first, r, frame, at + sizes[0], sizes[1..], end + PIECE_HEADER + sizes[0]);
    NoMore(r.delivered);
  }

  lemma {:induction false} SumPositive(last: nat, floorPerS: nat, sizes: seq<nat>)
    requires sizes != [] && InPace(last, floorPerS, sizes)
    ensures Sum(sizes) > 0
  {
  }

  lemma AnnounceWholeTaken(s: Sender, p: Receiver, frame: Frame) returns (q: Receiver)
    requires GoodAhead(s, p, 0, |frame|) && s.messages.lengthAhead == 0 && s.open.Some? && Plain(frame)
    requires |frame| <= AnnouncedNext(s.lastAnnounced, s.namedFloor) && p.part == []
    ensures var t := s.AnnounceWhole(frame);
            && Good(t, q) && t.messages == NO_MESSAGES && q.part == []
            && q.delivered == p.delivered + s.messages.frames + [frame]
  {
    q := Ridden(s, p).Arrived(frame, true);
    HandPlain(s, p, frame);
  }

  lemma AnnouncePiecesTaken(s: Sender, p: Receiver, frame: Frame, offset: nat, sizes: seq<nat>) returns (q: Receiver)
    requires offset < |frame| && GoodAhead(s, p, 0, |frame| - offset) && s.messages.lengthAhead == 0 && s.open.Some?
    requires Sendable(frame) && HoldsPart(p, frame, offset) && offset + Sum(sizes) == |frame|
    requires InPace(s.lastAnnounced, s.namedFloor, sizes)
    ensures var t := s.AnnouncePieces(frame, offset, sizes);
            && Good(t, q) && t.messages == NO_MESSAGES && q.part == []
            && q.delivered == p.delivered + s.messages.frames + [frame]
  {
    var c := s.Count(Sum(sizes) + |sizes| * PIECE_HEADER).TrackOver(|frame|);
    var t, r := AnnouncedPiecesTaken(c, p, frame, offset, sizes, s.transmitted);
    q := r;
  }

  /** A frame behind an open announcement goes whole or in announced pieces, from where its probe left it. */
  lemma SendAnnouncedTaken(s: Sender, p: Receiver, frame: Frame, offset: nat) returns (q: Receiver)
    requires offset < |frame| && GoodAhead(s, p, 0, |frame| - offset) && s.messages.lengthAhead == 0 && s.open.Some?
    requires Sendable(frame) && HoldsPart(p, frame, offset)
    ensures var t := s.SendAnnounced(frame, offset);
            && Good(t, q) && t.messages == NO_MESSAGES && q.part == []
            && q.delivered == p.delivered + s.messages.frames + [frame]
  {
    if offset == 0 && |frame| <= AnnouncedNext(s.lastAnnounced, s.namedFloor) {
      assert frame[..0] == [];
      q := AnnounceWholeTaken(s, p, frame);
      assert s.SendAnnounced(frame, offset) == s.AnnounceWhole(frame);
    } else {
      AnnouncedInPace(|frame| - offset, s.lastAnnounced, s.namedFloor);
      q := AnnouncePiecesTaken(s, p, frame, offset, AnnouncedSizes(|frame| - offset, s.lastAnnounced, s.namedFloor));
    }
  }

  /** A probe's piece counted and tracked, in the message `m`. */
  lemma ProbeMessageTaken(s: Sender, p: Receiver, m: Frame, frame: Frame, at: nat, size: nat, behind: nat)
    returns (q: Receiver)
    requires GoodAhead(s, p, PIECE_HEADER + size, behind) && s.open.Some?
    requires 0 < size <= AnnouncedNext(s.lastAnnounced, s.namedFloor) && size <= behind && at + size < |frame|
    requires Peer(s.Hand(m).out) == Ok(WithPiece(Ridden(s, p), frame, at, at + size))
    ensures var t := s.SendAnnouncedMessage(m, size, s.transmitted);
            && GoodAhead(t, q, 0, behind - size) && t.messages == NO_MESSAGES
            && HoldsPart(q, frame, at + size) && q.delivered == p.delivered + s.messages.frames
  {
    q := AnnouncedPieceTaken(s, p, m, frame, at, size, s.transmitted, PIECE_HEADER + size, behind);
    assert (p.delivered + s.messages.frames) + [] == p.delivered + s.messages.frames;
  }

  lemma ProbeCountedTaken(c: Sender, p: Receiver, frame: Frame, at: nat, size: nat, behind: nat)
    returns (t: Sender, q: Receiver)
    requires GoodAhead(c, p, PIECE_HEADER + size, behind) && c.messages.lengthAhead == 0 && c.open.Some? && Sendable(frame)
    requires 0 < size <= AnnouncedNext(c.lastAnnounced, c.namedFloor) && size <= behind
    requires at + size < |frame| && HoldsPart(p, frame, at)
    ensures t == c.SendAnnouncedMessage(PieceFrame(|frame|, frame[at..at + size]), size, c.transmitted)
    ensures GoodAhead(t, q, 0, behind - size) && t.messages == NO_MESSAGES
    ensures HoldsPart(q, frame, at + size) && q.delivered == p.delivered + c.messages.frames
  {
    var m := PieceFrame(|frame|, frame[at..at + size]);
    PieceHanded(c, p, frame, at, at + size);
    t := c.SendAnnouncedMessage(m, size, c.transmitted);
    q := ProbeMessageTaken(c, p, m, frame, at, size, behind);
  }

  lemma ProbePieceTaken(s: Sender, p: Receiver, frame: Frame, at: nat, size: nat, behind: nat) returns (q: Receiver)
    requires GoodAhead(s, p, 0, behind) && s.messages.lengthAhead == 0 && s.open.Some? && Sendable(frame)
    requires 0 < size <= AnnouncedNext(s.lastAnnounced, s.namedFloor) && size <= behind
    requires at + size < |frame| && HoldsPart(p, frame, at)
    ensures var t := s.SendProbePiece(frame, at, size);
            && GoodAhead(t, q, 0, behind - size) && t.messages == NO_MESSAGES && t.open == s.open
            && t.lastAnnounced == size && t.namedFloor == s.namedFloor
            && HoldsPart(q, frame, at + size) && q.delivered == p.delivered + s.messages.frames
  {
    var t, r := ProbeCountedTaken(s.Count(PIECE_HEADER + size).Track(), p, frame, at, size, behind);
    q := r;
  }
  lemma ProbePairTaken(s: Sender, p: Receiver, frame: Frame) returns (q: Receiver)
    requires GoodAhead(s, p, 0, |frame|) && s.messages.lengthAhead == 0 && s.open.Some? && Sendable(frame)
    requires |frame| > PROBE_FIRST + PROBE_PAIR && p.part == []
    ensures var t := s.SendProbePair(frame);
            && GoodAhead(t, q, 0, |frame| - PROBE_FIRST - PROBE_PAIR) && t.messages == NO_MESSAGES && t.open == s.open
            && HoldsPart(q, frame, PROBE_FIRST + PROBE_PAIR) && q.delivered == p.delivered + s.messages.frames
            && t.transmitted >= PIECE_HEADER + PROBE_PAIR
  {
    assert frame[..0] == [];
    var a := EmptyPieceTaken(s, p, |frame|, |frame|);
    var s1 := s.SendEmptyPiece(|frame|);
    var b := ProbePieceTaken(s1, a, frame, 0, PROBE_FIRST, |frame|);
    var s2 := s1.SendProbePiece(frame, 0, PROBE_FIRST);
    q := ProbePieceTaken(s2, b, frame, PROBE_FIRST, PROBE_PAIR, |frame| - PROBE_FIRST);
    assert a.delivered + [] == a.delivered && b.delivered + [] == b.delivered;
  }

  lemma SendProbeTaken(s: Sender, p: Receiver, frame: Frame) returns (q: Receiver)
    requires GoodAhead(s, p, 0, |frame|) && s.messages.lengthAhead == 0 && s.open.Some? && Sendable(frame)
    requires |frame| > PROBE_FIRST + PROBE_PAIR && p.part == []
    ensures var t := s.SendProbe(frame);
            && Good(t, q) && t.messages == NO_MESSAGES && q.part == []
            && q.delivered == p.delivered + s.messages.frames + [frame]
  {
    var r := ProbePairTaken(s, p, frame);
    q := SendAnnouncedTaken(s.SendProbePair(frame).Probing(frame), r, frame, PROBE_FIRST + PROBE_PAIR);
    assert r.delivered + [] == r.delivered;
  }

  // ── Frames carried ──

  /** What a receiver's acknowledgements are. */
  predicate IsAck(frame: Frame) {
    frame[0] == PIECES_ACK && |frame| == HEADER + 12
  }

  predicate AllAcks(frames: seq<Frame>) {
    forall i | 0 <= i < |frames| :: IsAck(frames[i])
  }

  lemma {:induction false} CarriedKeeps(s: Sender, carried: seq<Frame>)
    ensures var t := s.TakeCarried(carried);
            && t == s.(messages := t.messages, transmitted := t.transmitted, headroom := t.headroom)
            && t.messages.frames == s.messages.frames + carried && t.messages.gathered == s.messages.gathered
    decreases |carried|
  {
    if carried == [] {
      assert s.messages.frames + [] == s.messages.frames;
    } else {
      CarriedKeeps(s.Carry(carried[0]), carried[1..]);
      assert s.messages.frames + [carried[0]] + carried[1..] == s.messages.frames + carried;
    }
  }

  lemma CarryTaken(s: Sender, p: Receiver, frame: Frame)
    requires Good(s, p) && IsAck(frame)
    ensures Good(s.Carry(frame), p)
  {
    assert Plain(frame);
    JoinTaken(s, p, frame);
  }

  lemma {:induction false} CarriedGood(s: Sender, p: Receiver, carried: seq<Frame>)
    requires Good(s, p) && AllAcks(carried)
    ensures Good(s.TakeCarried(carried), p)
    decreases |carried|
  {
    if carried != [] {
      assert IsAck(carried[0]);
      CarryTaken(s, p, carried[0]);
      assert forall i | 0 <= i < |carried[1..]| :: carried[1..][i] == carried[i + 1];
      CarriedGood(s.Carry(carried[0]), p, carried[1..]);
    }
  }

  lemma CarriedTaken(s: Sender, p: Receiver, carried: seq<Frame>)
    requires Good(s, p) && AllAcks(carried)
    ensures var t := s.TakeCarried(carried);
            && Good(t, p) && t == s.(messages := t.messages, transmitted := t.transmitted, headroom := t.headroom)
            && t.messages.frames == s.messages.frames + carried && t.messages.gathered == s.messages.gathered
  {
    CarriedKeeps(s, carried);
    CarriedGood(s, p, carried);
  }

  // ── A frame sent ──

  lemma AnnouncingTaken(s: Sender, p: Receiver, frame: Frame, floorPerS: nat) returns (q: Receiver)
    requires Good(s, p) && s.rest.None? && p.part == [] && floorPerS < SEQ_SPAN
    requires s.open.Some? ==> !s.messages.gathered
    ensures var t := s.Announcing(frame, floorPerS);
            && GoodAhead(t, q, 0, |frame|) && q.part == [] && t.messages.lengthAhead == 0 && t.open.Some?
            && q.delivered + t.messages.frames == p.delivered + s.messages.frames
  {
    q := p;
    if s.open.None? {
      q := FlushGatheredTaken(s, p);
    }
    q := OpenTaken(s.FlushGathered(), q, floorPerS);
  }

  lemma BehindTaken(s: Sender, p: Receiver, frame: Frame, floorPerS: nat) returns (q: Receiver)
    requires Good(s, p) && s.rest.None? && p.part == [] && Sendable(frame) && floorPerS < SEQ_SPAN
    requires s.open.Some? ==> !s.messages.gathered
    ensures var t := s.SendBehindAnnouncement(frame, floorPerS);
            && Good(t, q) && q.part == [] && t.messages == NO_MESSAGES
            && q.delivered == p.delivered + s.messages.frames + [frame]
  {
    var b := s.Announcing(frame, floorPerS);
    var r := AnnouncingTaken(s, p, frame, floorPerS);
    if b.Probes(frame) {
      q := SendProbeTaken(b, r, frame);
    } else {
      assert frame[..0] == [];
      q := SendAnnouncedTaken(b, r, frame, 0);
    }
  }

  lemma SendWholeTaken(s: Sender, p: Receiver, frame: Frame) returns (q: Receiver)
    requires Good(s, p) && s.open.None? && Plain(frame)
    ensures var t := s.SendWhole(frame);
            && Good(t, q) && SameQueue(s, t) && t.rest == s.rest && q.part == p.part && q.total == p.total
            && q.delivered + t.messages.frames == p.delivered + s.messages.frames + [frame]
  {
    var f := s.FlushGathered();
    var r := FlushGatheredTaken(s, p);
    q := WholeTaken(f, r, frame);
    Assoc(r.delivered, f.messages.frames, [frame]);
    assert q.delivered + [] == q.delivered;
  }

  /** Beside a rest of which nothing went yet, a frame that is not data may be cut: no piece of another is between. */
  lemma CutBesideTaken(s: Sender, p: Receiver, frame: Frame) returns (q: Receiver)
    requires Good(s, p) && s.open.None? && Sendable(frame) && !Sequenced(frame) && p.part == []
    ensures var t := s.Cut(frame, 0);
            && Good(t, q) && SameQueue(s, t) && t.rest == s.rest && q.part == []
            && q.delivered + t.messages.frames == p.delivered + s.messages.frames + [frame]
  {
    assert frame[..0] == [];
    q := FlushGatheredTaken(s, p);
    var f := s.FlushGathered();
    var r := StartCutTaken(f, q, frame, 0);
    q := HandPiecesTaken(f.StartCut(frame, 0), r, frame, 0, |frame|);
    assert q.delivered + [] == q.delivered;
  }

  // ── Every frame once, data in order ──

  /** The frames of data among `q`, in order. */
  function Ordered(q: seq<seq<byte>>): seq<seq<byte>> {
    if q == [] then []
    else (if |q[0]| >= HEADER && Sequenced(q[0]) then [q[0]] else []) + Ordered(q[1..])
  }

  /** `line` is the frames of `sent`, each as often, and those of data in the same order. */
  ghost predicate Same(line: seq<seq<byte>>, sent: seq<seq<byte>>) {
    multiset(line) == multiset(sent) && Ordered(line) == Ordered(sent)
  }

  lemma {:induction false} OrderedAppend(a: seq<seq<byte>>, b: seq<seq<byte>>)
    ensures Ordered(a + b) == Ordered(a) + Ordered(b)
  {
    if a == [] {
      assert a + b == b;
    } else {
      assert (a + b)[1..] == a[1..] + b;
      OrderedAppend(a[1..], b);
    }
  }

  /** Frames that are not data go anywhere; data goes last. */
  lemma SameInserted(a: seq<seq<byte>>, more: seq<seq<byte>>, b: seq<seq<byte>>, sent: seq<seq<byte>>)
    requires Same(a + b, sent) && (b == [] || Ordered(more) == [])
    ensures Same(a + more + b, sent + more)
  {
    assert multiset(a + more + b) == multiset(sent + more);
    OrderedInserted(a, more, b, sent);
  }

  lemma OrderedInserted(a: seq<seq<byte>>, more: seq<seq<byte>>, b: seq<seq<byte>>, sent: seq<seq<byte>>)
    requires Ordered(a + b) == Ordered(sent) && (b == [] || Ordered(more) == [])
    ensures Ordered(a + more + b) == Ordered(sent + more)
  {
    OrderedAppend(a, b);
    OrderedAppend(a + more, b);
    OrderedAppend(a, more);
    OrderedAppend(sent, more);
    if b == [] {
      assert Ordered(a) + [] == Ordered(a) && Ordered(a + more) + [] == Ordered(a + more);
    } else {
      assert Ordered(a) + [] == Ordered(a) && Ordered(sent) + [] == Ordered(sent);
    }
  }

  lemma {:induction false} AcksAreNotData(frames: seq<Frame>)
    requires AllAcks(frames)
    ensures Ordered(frames) == []
  {
    if frames != [] {
      assert IsAck(frames[0]);
      assert forall i | 0 <= i < |frames[1..]| :: frames[1..][i] == frames[i + 1];
      AcksAreNotData(frames[1..]);
    }
  }

  /** All it was given, in the order it goes: delivered, gathered or carried, the rest, and the frames behind it. */
  function Line(s: Sender, p: Receiver): seq<seq<byte>> {
    (p.delivered + s.messages.frames) + Pending(s)
  }

  function Pending(s: Sender): seq<seq<byte>> {
    RestFrames(s) + s.waiting
  }

  // ── The invariant ──

  predicate AllSendable(frames: seq<Frame>) {
    forall i | 0 <= i < |frames| :: Sendable(frames[i])
  }

  /** With no announcement of frames, or with all of them handed: nothing waits then, and nothing is gathered. */
  predicate Settled(s: Sender) {
    && (s.rest.None? ==> s.waiting == [])
    && (s.open.Some? ==> s.rest.None? && s.messages.frames == [])
    && EndsQueued(s)
  }

  predicate Running(s: Sender, p: Receiver) {
    Good(s, p) && RestKept(s, p) && AllSendable(s.waiting)
  }

  ghost predicate Kept(s: Sender, p: Receiver, sent: seq<seq<byte>>) {
    Running(s, p) && Settled(s) && Same(Line(s, p), sent)
  }

  lemma {:induction false} AnnouncedPiecesKeep(s: Sender, frame: Frame, at: nat, sizes: seq<nat>, end: nat)
    requires at + Sum(sizes) == |frame|
    ensures var t := s.SendAnnouncedPieces(frame, at, sizes, end);
            t == s.(lastAnnounced := t.lastAnnounced, announcedEnds := t.announcedEnds, messages := t.messages,
                    out := t.out)
    decreases |sizes|
  {
    if sizes != [] {
      AnnouncedPiecesKeep(FirstAnnounced(s, frame, at, sizes, end), frame, at + sizes[0], sizes[1..],
                          end + PIECE_HEADER + sizes[0]);
    }
  }

  /** Sending behind an announcement leaves what waits as it is. */
  predicate SameWaiting(s: Sender, t: Sender) {
    && t.rest == s.rest && t.waiting == s.waiting && t.waitingBytes == s.waitingBytes && t.cutsData == s.cutsData
    && t.endQueued == s.endQueued && t.sizes == s.sizes && t.acknowledged == s.acknowledged
    && t.heartbeat == s.heartbeat && t.announcements == s.announcements
  }

  lemma SendAnnouncedKeeps(s: Sender, frame: Frame, offset: nat)
    requires offset <= |frame|
    ensures var t := s.SendAnnounced(frame, offset); SameWaiting(s, t) && t.open == s.open && t.probe == s.probe
  {
    AnnouncePiecesKeeps(s, frame, offset, AnnouncedSizes(|frame| - offset, s.lastAnnounced, s.namedFloor));
  }

  lemma AnnouncePiecesKeeps(s: Sender, frame: Frame, offset: nat, sizes: seq<nat>)
    requires offset + Sum(sizes) == |frame|
    ensures var t := s.AnnouncePieces(frame, offset, sizes); SameWaiting(s, t) && t.open == s.open && t.probe == s.probe
  {
    var c := s.Count(Sum(sizes) + |sizes| * PIECE_HEADER).TrackOver(|frame|);
    AnnouncedPiecesKeep(c, frame, offset, sizes, s.transmitted);
  }

  lemma BehindKeeps(s: Sender, frame: Frame, floorPerS: nat)
    ensures var t := s.SendBehindAnnouncement(frame, floorPerS); SameWaiting(s, t) && t.open.Some?
    ensures s.SendBehindAnnouncement(frame, floorPerS).open.value.bytes
            == |frame| + if s.open.Some? then s.open.value.bytes else 0
  {
    var b := s.Announcing(frame, floorPerS);
    if b.Probes(frame) {
      SendAnnouncedKeeps(b.SendProbePair(frame).Probing(frame), frame, PROBE_FIRST + PROBE_PAIR);
    } else {
      SendAnnouncedKeeps(b, frame, 0);
    }
  }

  /** Passing a frame keeps the line: it joins ahead of the frames waiting behind it. */
  lemma PassedLine(s: Sender, p: Receiver, frame: Frame, t: Sender, q: Receiver)
    requires Passed(s, p, frame, t, q)
    ensures Line(t, q) == p.delivered + s.messages.frames + [frame] + s.waiting
  {
    Assoc(q.delivered + t.messages.frames, RestFrames(t), t.waiting);
  }

  lemma SendNextTaken(s: Sender, p: Receiver) returns (q: Receiver)
    requires Running(s, p) && s.open.None? && s.rest.None? && s.waiting != [] && EndsQueued(s)
    ensures var t := s.SendNext();
            && Running(t, q) && t.open.None? && EndsQueued(t) && t.waiting == s.waiting[1..]
            && Line(t, q) == Line(s, p)
  {
    var frame, u := s.waiting[0], s.Dequeued();
    assert Sendable(frame) && AllSendable(u.waiting) by {
      assert forall i | 0 <= i < |u.waiting| :: u.waiting[i] == s.waiting[i + 1];
    }
    q := PassTaken(u, p, frame);
    PassedLine(u, p, frame, u.Pass(frame), q);
    FirstInLine(p.delivered + s.messages.frames, s.waiting);
  }

  lemma FirstInLine(before: seq<seq<byte>>, waiting: seq<seq<byte>>)
    requires waiting != []
    ensures (before + [waiting[0]]) + waiting[1..] == before + ([] + waiting)
  {
  }

  /** `s` got to `t`, where nothing waits unless a rest does, and the line is the one it was. */
  ghost predicate Caught(s: Sender, p: Receiver, t: Sender, q: Receiver) {
    Running(t, q) && Settled(t) && t.open.None? && Line(t, q) == Line(s, p)
  }

  /** Sending what is queued catches up, with the peer at some `q`. */
  ghost predicate Catches(s: Sender, p: Receiver, n: nat) {
    exists q :: Caught(s, p, s.SendQueued(n), q)
  }

  /** More of what is queued can go, and `n` is enough for all of it. */
  ghost predicate Queued(s: Sender, p: Receiver, n: nat) {
    Running(s, p) && s.open.None? && |s.waiting| <= n && EndsQueued(s)
  }

  lemma NothingQueued(s: Sender, p: Receiver, n: nat)
    requires Queued(s, p, n) && (s.rest.Some? || s.waiting == [])
    ensures Catches(s, p, n)
  {
    assert s.SendQueued(n) == s;
    assert Caught(s, p, s, p);
  }

  lemma NextTaken(s: Sender, p: Receiver, n: nat) returns (u: Sender, r: Receiver)
    requires Queued(s, p, n) && s.rest.None? && s.waiting != []
    ensures Queued(u, r, n - 1) && (Catches(u, r, n - 1) ==> Catches(s, p, n))
  {
    u := s.SendNext();
    r := SendNextTaken(s, p);
    if Catches(u, r, n - 1) {
      var t := u.SendQueued(n - 1);
      var q :| Caught(u, r, t, q);
      assert s.SendQueued(n) == t;
      CaughtThrough(s, p, u, r, t, q);
    }
  }

  lemma CaughtThrough(s: Sender, p: Receiver, u: Sender, r: Receiver, t: Sender, q: Receiver)
    requires Line(u, r) == Line(s, p) && Caught(u, r, t, q)
    ensures Caught(s, p, t, q)
  {
  }

  /** The frames behind a rest that went go in their order, till one of them waits. */
  lemma {:induction false} SendQueuedTaken(s: Sender, p: Receiver, n: nat)
    requires Queued(s, p, n)
    ensures Catches(s, p, n)
    decreases n
  {
    if s.rest.Some? || s.waiting == [] {
      NothingQueued(s, p, n);
    } else {
      var u, r := NextTaken(s, p, n);
      SendQueuedTaken(u, r, n - 1);
    }
  }

  lemma ResumeTaken(s: Sender, p: Receiver, frame: Frame, offset: nat) returns (q: Receiver)
    requires Good(s, p) && s.open.None? && s.rest.None? && Sendable(frame) && Sequenced(frame)
    requires offset < |frame| && HoldsPart(p, frame, offset) && (!s.cutsData ==> offset == 0)
    ensures Passed(s, p, frame, s.Resume(frame, offset), q)
  {
    if s.cutsData {
      q := CutTaken(s, p, frame, offset);
    } else {
      q := PassTaken(s, p, frame);
    }
  }

  /** The rest goes as far as the headroom does, then what waits behind it. */
  lemma RestTaken(s: Sender, p: Receiver) returns (q: Receiver)
    requires Running(s, p) && s.open.None? && s.rest.Some? && EndsQueued(s)
    ensures var t := s.WithoutRest().Resume(s.rest.value.frame, s.rest.value.offset);
            && Running(t, q) && t.open.None? && EndsQueued(t) && t.waiting == s.waiting && Line(t, q) == Line(s, p)
  {
    var Rest(frame, offset) := s.rest.value;
    var u := s.WithoutRest();
    q := ResumeTaken(u, p, frame, offset);
    PassedLine(u, p, frame, u.Resume(frame, offset), q);
    Assoc(p.delivered + s.messages.frames, [frame], s.waiting);
  }

  /** Carried frames join the line ahead of what waits. */
  lemma CarriedLine(s: Sender, p: Receiver, carried: seq<Frame>, sent: seq<seq<byte>>)
    requires Good(s, p) && AllAcks(carried) && Same(Line(s, p), sent)
    ensures Same(Line(s.TakeCarried(carried), p), sent + carried)
  {
    CarriedTaken(s, p, carried);
    AcksAreNotData(carried);
    Assoc(p.delivered, s.messages.frames, carried);
    SameInserted(p.delivered + s.messages.frames, carried, Pending(s), sent);
  }

  lemma SendWaitingTaken(s: Sender, p: Receiver, headroom: real, carried: seq<Frame>, sent: seq<seq<byte>>)
    returns (q: Receiver)
    requires Kept(s, p, sent) && AllAcks(carried) && s.rest.Some?
    ensures Kept(s.SendWaiting(headroom, carried), q, sent + carried)
  {
    var h := s.(headroom := headroom);
    CarriedTaken(h, p, carried);
    CarriedLine(h, p, carried, sent);
    var c := h.TakeCarried(carried);
    var r := RestTaken(c, p);
    var u := c.WithoutRest().Resume(s.rest.value.frame, s.rest.value.offset);
    SendQueuedTaken(u, r, |s.waiting|);
    q :| Caught(u, r, u.SendQueued(|s.waiting|), q);
  }

  predicate MaySend(frame: Frame) {
    Sendable(frame) && (frame[0] == PIECES_ACK ==> IsAck(frame))
  }

  /** An acknowledgement is not cut beside a rest of which some went. */
  predicate AckFits(s: Sender) {
    s.rest.Some? && s.rest.value.offset > 0 ==> s.sizes.wholeUpTo >= (HEADER + 12) as real
  }

  lemma IsOrdered(frame: Frame)
    ensures Ordered([frame]) == if Sequenced(frame) then [frame] else []
  {
    assert [frame][1..] == [];
  }

  /** A frame that goes before what waits, and is not data or has none before it. */
  lemma JoinsLine(s: Sender, p: Receiver, t: Sender, q: Receiver, frame: Frame, sent: seq<seq<byte>>)
    requires Same(Line(s, p), sent) && (Sequenced(frame) ==> Pending(s) == [])
    requires Line(t, q) == p.delivered + s.messages.frames + [frame] + Pending(s)
    ensures Same(Line(t, q), sent + [frame])
  {
    IsOrdered(frame);
    SameInserted(p.delivered + s.messages.frames, [frame], Pending(s), sent);
  }

  /** With nothing waiting. */
  lemma RouteFreeTaken(s: Sender, p: Receiver, frame: Frame, floorPerS: nat, sent: seq<seq<byte>>) returns (q: Receiver)
    requires Running(s, p) && s.rest.None? && s.waiting == [] && EndsQueued(s) && MaySend(frame)
    requires s.open.Some? ==> !s.messages.gathered
    requires floorPerS < SEQ_SPAN && Same(Line(s, p), sent)
    ensures Kept(s.Route(frame, floorPerS), q, sent + [frame])
  {
    var t, line := s.Route(frame, floorPerS), p.delivered + s.messages.frames + [frame];
    NoMore(line);
    if s.open.None? && (frame[0] == PIECES_ACK || !s.Announces(frame)) {
      q := PassTaken(s, p, frame);
      PassedLine(s, p, frame, t, q);
    } else if s.open.None? && s.GoesWhole(frame) {
      q := SendWholeTaken(s, p, frame);
      NoMore(q.delivered + t.messages.frames);
    } else {
      q := BehindTaken(s, p, frame, floorPerS);
      BehindKeeps(s, frame, floorPerS);
      NoMore(q.delivered);
    }
    JoinsLine(s, p, t, q, frame, sent);
  }

  /** While a rest waits. */
  lemma RouteBesideTaken(s: Sender, p: Receiver, frame: Frame, floorPerS: nat, sent: seq<seq<byte>>) returns (q: Receiver)
    requires Running(s, p) && s.rest.Some? && s.open.None? && EndsQueued(s) && MaySend(frame)
    requires Same(Line(s, p), sent) && (frame[0] == PIECES_ACK ==> AckFits(s))
    ensures Kept(s.Route(frame, floorPerS), q, sent + [frame])
  {
    var t := s.Route(frame, floorPerS);
    CountedIsBudgeted(frame[0]);
    if frame[0] == PIECES_ACK || s.PassesRest(frame) {
      q := BesideTaken(s, p, frame);
      JoinsLine(s, p, t, q, frame, sent);
    } else {
      q := p;
      EnqueuedLine(s, p, frame, sent);
    }
  }

  lemma EnqueuedLine(s: Sender, p: Receiver, frame: Frame, sent: seq<seq<byte>>)
    requires Same(Line(s, p), sent)
    ensures Same(Line(s.Enqueue(frame), p), sent + [frame])
  {
    Assoc(p.delivered + s.messages.frames, Pending(s), [frame]);
    Assoc(RestFrames(s), s.waiting, [frame]);
    NoMore(Line(s, p));
    NoMore(Line(s, p) + [frame]);
    SameInserted(Line(s, p), [frame], [], sent);
  }

  lemma BesideTaken(s: Sender, p: Receiver, frame: Frame) returns (q: Receiver)
    requires Running(s, p) && s.rest.Some? && s.open.None? && EndsQueued(s) && MaySend(frame) && !Sequenced(frame)
    requires frame[0] == PIECES_ACK || |frame| as real <= s.sizes.wholeUpTo
    requires frame[0] == PIECES_ACK ==> AckFits(s)
    ensures var t := s.Pass(frame);
            && Running(t, q) && SameQueue(s, t) && t.rest == s.rest
            && Line(t, q) == p.delivered + s.messages.frames + [frame] + Pending(s)
  {
    if |frame| as real <= s.sizes.wholeUpTo {
      q := PassBesideTaken(s, p, frame);
    } else {
      q := CutBesideTaken(s, p, frame);
    }
  }

  lemma SendTaken(s: Sender, p: Receiver, frame: Frame, headroom: real, carried: seq<Frame>, floorPerS: nat,
                  sent: seq<seq<byte>>) returns (q: Receiver)
    requires Kept(s, p, sent) && AllAcks(carried) && MaySend(frame) && floorPerS < SEQ_SPAN
    requires frame[0] == PIECES_ACK ==> AckFits(s)
    ensures Kept(s.Send(frame, headroom, carried, floorPerS), q, sent + carried + [frame])
  {
    var h := s.(headroom := headroom);
    CarriedTaken(h, p, carried);
    CarriedLine(h, p, carried, sent);
    var c := h.TakeCarried(carried);
    if s.rest.None? {
      q := RouteFreeTaken(c, p, frame, floorPerS, sent + carried);
    } else {
      q := RouteBesideTaken(c, p, frame, floorPerS, sent + carried);
    }
  }

  // ── Where the peer takes it for a violation ──

  /** One of the messages handed, of frames an encoder makes, the peer takes for a violation. */
  predicate Breaks(out: seq<seq<Frame>>)
    decreases |out|
  {
    out != [] &&
      var front, last := out[..|out| - 1], out[|out| - 1];
      Breaks(front)
      || (Peer(front).Ok? && last != [] && AllWellFormed(last) && Peer(front).value.TakeFrames(last).Violation?)
  }

  lemma {:induction false} StaysBroken(out: seq<seq<Frame>>, to: seq<seq<Frame>>)
    requires Breaks(out) && out <= to
    ensures Breaks(to)
    decreases |to|
  {
    if |out| < |to| {
      StaysBroken(out, to[..|to| - 1]);
    } else {
      assert to == out;
    }
  }

  /** A message handed that breaks the protocol. */
  lemma HandBreaks(s: Sender, p: Receiver, m: Frame)
    requires Peer(s.out) == Ok(p) && MessagesKept(s.messages) && s.messages.lengthAhead == 0 && WellFormed(m)
    requires Ridden(s, p).Take(m, true).Violation?
    ensures Breaks(s.Hand(m).out)
  {
    HandTaken(s, p, m);
    RidersWellFormed(s.messages.frames, m);
    var out := s.Hand(m).out;
    assert out[..|out| - 1] == s.out;
  }

  /** An announcement's closing ANNOUNCE names the low 32 bits of its bytes: it matches exactly where they are all of
      them. */
  lemma ClosesExactly(s: Sender, p: Receiver)
    requires Good(s, p) && s.open.Some? && s.messages.lengthAhead == 0
    ensures Peer(s.CloseAnnouncement().out).Ok? <==> s.open.value.bytes < SEQ_SPAN
    ensures Breaks(s.CloseAnnouncement().out) <==> s.open.value.bytes >= SEQ_SPAN
  {
    if s.open.value.bytes < SEQ_SPAN {
      var q := CloseTaken(s, p);
      if Breaks(s.CloseAnnouncement().out) {
        BrokenIsViolation(s.CloseAnnouncement().out);
      }
    } else {
      CloseBreaks(s, p);
      BrokenIsViolation(s.CloseAnnouncement().out);
    }
  }

  lemma CloseBreaks(s: Sender, p: Receiver)
    requires Good(s, p) && s.open.Some? && s.messages.lengthAhead == 0 && s.open.value.bytes >= SEQ_SPAN
    ensures Breaks(s.CloseAnnouncement().out)
  {
    var m := AnnounceFrame(s.open.value.bytes, 0);
    PiecesRoundTrip(Fields.Announce(s.open.value.bytes, 0));
    TakesAnnounced(Ridden(s, p), m, s.open.value.bytes % SEQ_SPAN, 0);
    HandBreaks(s, p, m);
  }

  /** More is handed, in messages of frames. */
  predicate Adds(out: seq<seq<Frame>>, to: seq<seq<Frame>>) {
    out <= to && forall i | |out| <= i < |to| :: to[i] != []
  }

  lemma {:induction false} HandEachAdds(s: Sender, frames: seq<Frame>)
    ensures Adds(s.out, s.HandEach(frames).out)
    decreases |frames|
  {
    if frames != [] {
      HandEachAdds(s.Hand(frames[0]), frames[1..]);
    }
  }

  lemma CutAdds(s: Sender, frame: Frame)
    requires |frame| as real > s.sizes.wholeUpTo && !Sequenced(frame)
    ensures var e := s.FlushGathered().SendEmptyPiece(|frame|);
            Adds(s.out, e.out) && Adds(e.out, s.Cut(frame, 0).out)
  {
    var e := s.FlushGathered().SendEmptyPiece(|frame|);
    var pieces := PiecesOf(frame, 0, |frame|, e.PieceSize());
    HandEachAdds(e.Count(SumBytes(pieces)).TrackOver(|frame|), pieces);
  }

  /** An empty piece in the middle of another frame breaks the protocol. */
  lemma EmptyPieceBreaks(s: Sender, p: Receiver, total: nat)
    requires Good(s, p) && s.messages.lengthAhead == 0 && p.part != [] && total < SEQ_SPAN
    ensures Breaks(s.SendEmptyPiece(total).out)
  {
    TakesPiece(Ridden(s, p), total, []);
    HandBreaks(s.Count(PIECE_HEADER), p, PieceFrame(total, []));
  }

  lemma CutBreaks(s: Sender, p: Receiver, frame: Frame)
    requires Good(s, p) && s.open.None? && p.part != [] && Sendable(frame) && !Sequenced(frame)
    requires |frame| as real > s.sizes.wholeUpTo
    ensures Breaks(s.Cut(frame, 0).out) && Adds(s.out, s.Cut(frame, 0).out)
  {
    var q := FlushGatheredTaken(s, p);
    EmptyPieceBreaks(s.FlushGathered(), q, |frame|);
    CutAdds(s, frame);
    StaysBroken(s.FlushGathered().SendEmptyPiece(|frame|).out, s.Cut(frame, 0).out);
  }

  lemma AckBreaks(s: Sender, p: Receiver, ack: Frame, floorPerS: nat)
    requires Running(s, p) && s.rest.Some? && s.open.None? && EndsQueued(s) && IsAck(ack) && !AckFits(s)
    ensures Breaks(s.Route(ack, floorPerS).out) && Adds(s.out, s.Route(ack, floorPerS).out)
  {
    assert Sendable(ack) && !Sequenced(ack);
    CutBreaks(s, p, ack);
  }

  /** A PIECES_ACK passes ahead of a rest whatever its size: the receiver takes it exactly where no piece of the rest
      went yet, or it goes whole. */
  lemma AckBesideRest(s: Sender, p: Receiver, ack: Frame, floorPerS: nat)
    requires Running(s, p) && s.rest.Some? && s.open.None? && EndsQueued(s) && IsAck(ack)
    ensures Peer(s.Route(ack, floorPerS).out).Ok? <==> AckFits(s)
    ensures Breaks(s.Route(ack, floorPerS).out) <==> !AckFits(s)
  {
    if AckFits(s) {
      assert Sendable(ack) && !Sequenced(ack);
      var q := BesideTaken(s, p, ack);
    } else {
      AckBreaks(s, p, ack, floorPerS);
    }
    if Breaks(s.Route(ack, floorPerS).out) {
      BrokenIsViolation(s.Route(ack, floorPerS).out);
    }
  }

  lemma {:induction false} BrokenIsViolation(out: seq<seq<Frame>>)
    requires Breaks(out)
    ensures Peer(out).Violation?
    decreases |out|
  {
    if Breaks(out[..|out| - 1]) {
      BrokenIsViolation(out[..|out| - 1]);
    }
  }

  lemma SendBreaks(s: Sender, p: Receiver, ack: Frame, headroom: real, carried: seq<Frame>, floorPerS: nat,
                   sent: seq<seq<byte>>)
    requires Kept(s, p, sent) && AllAcks(carried) && IsAck(ack) && !AckFits(s)
    ensures var out := s.Send(ack, headroom, carried, floorPerS).out; Breaks(out) && Adds(s.out, out)
  {
    var h := s.(headroom := headroom);
    CarriedTaken(h, p, carried);
    AckBreaks(h.TakeCarried(carried), p, ack, floorPerS);
  }

  // ── The bytes ──

  /** The messages as the socket takes them. */
  function Encoded(out: seq<seq<Frame>>): seq<seq<byte>>
    requires forall i | 0 <= i < |out| :: out[i] != []
  {
    seq(|out|, i requires 0 <= i < |out| => Message(out[i]))
  }

  lemma {:induction false} TakeMessagesAppend(r: Receiver, a: seq<seq<byte>>, b: seq<byte>)
    ensures r.TakeMessages(a + [b]) ==
            match r.TakeMessages(a) case Ok(q) => q.TakeMessage(b) case Violation => Violation
    decreases |a|
  {
    if a == [] {
      assert a + [b] == [b] && [b][1..] == [];
    } else {
      assert (a + [b])[1..] == a[1..] + [b];
      if r.TakeMessage(a[0]).Ok? {
        TakeMessagesAppend(r.TakeMessage(a[0]).value, a[1..], b);
      }
    }
  }

  lemma SplitsBack(r: Receiver, frames: seq<Frame>)
    requires frames != [] && AllWellFormed(frames)
    ensures r.TakeMessage(Message(frames)) == r.TakeFrames(frames)
  {
    MessageRoundTrip(frames);
  }

  /** What the receiver took frame by frame is what it takes of the bytes handed. */
  lemma {:induction false} PeerTakesBytes(out: seq<seq<Frame>>)
    requires Peer(out).Ok?
    ensures forall i | 0 <= i < |out| :: out[i] != []
    ensures NewReceiver().TakeMessages(Encoded(out)) == Peer(out)
    decreases |out|
  {
    if out == [] {
      assert Encoded(out) == [];
    } else {
      var front, last := out[..|out| - 1], out[|out| - 1];
      PeerTakesBytes(front);
      EncodedLast(out, front);
      TakeMessagesAppend(NewReceiver(), Encoded(front), Message(last));
      SplitsBack(Peer(front).value, last);
    }
  }

  lemma EncodedLast(out: seq<seq<Frame>>, front: seq<seq<Frame>>)
    requires out != [] && front == out[..|out| - 1] && forall i | 0 <= i < |out| :: out[i] != []
    ensures forall i | 0 <= i < |front| :: front[i] != []
    ensures Encoded(out) == Encoded(front) + [Message(out[|out| - 1])]
  {
    assert forall i | 0 <= i < |front| :: front[i] == out[i];
  }

  /** So is a violation one of the bytes. */
  lemma {:induction false} BrokenBytes(out: seq<seq<Frame>>)
    requires Breaks(out) && forall i | 0 <= i < |out| :: out[i] != []
    ensures NewReceiver().TakeMessages(Encoded(out)).Violation?
    decreases |out|
  {
    var front, last := out[..|out| - 1], out[|out| - 1];
    EncodedLast(out, front);
    TakeMessagesAppend(NewReceiver(), Encoded(front), Message(last));
    if Breaks(front) {
      BrokenBytes(front);
    } else {
      PeerTakesBytes(front);
      SplitsBack(Peer(front).value, last);
    }
  }
}
