/** What a piece sender does with each frame it is given, as values. Times and rates only choose sizes here: they are
    arbitrary. */
module PieceSteps {
  import opened Bytes
  import opened Tags
  import opened Frames
  import opened Pieces

  const GATHER_MAX: nat := 16384
  const SEND_AHEAD_MIN: nat := 65536
  const FRAME_OVERHEAD_MAX: nat := HEADER + 9
  const RATE_MARGIN: real := 8.0

  /** The frames a task gathered and the frames carried, till they go in one message. `lengthAhead`: what the LENGTH of
      its last frame takes once another follows. */
  datatype Messages = Messages(frames: seq<Frame>, bytes: nat, gathered: bool, atOnce: bool, lengthAhead: nat) {
    function Add(frame: Frame): Messages {
      this.(frames := frames + [frame], bytes := bytes + lengthAhead + |frame|, lengthAhead := LengthBytes(frame[0]))
    }

    function Gather(frame: Frame): Messages {
      this.(gathered := true, atOnce := atOnce || !Sequenced(frame)).Add(frame)
    }
  }

  const NO_MESSAGES := Messages([], 0, false, false, 0)

  datatype Rest = Rest(frame: Frame, offset: nat)

  /** Where an announcement's bytes start and end among all sent. */
  datatype Announced = Announced(start: nat, end: nat)

  /** `second`: where the probe's second piece starts, `None` for a frame that is not data. */
  datatype Probe = Probe(end: nat, second: Option<nat>)

  datatype Opened = Opened(start: nat, bytes: nat)

  /** The sizes the rates allow. `measured`: a rate was measured. */
  datatype Limits = Limits(measured: bool, wholeUpTo: real, unannouncedUpTo: real, gatherUpTo: real)

  /** Before a rate is measured, a frame cut is larger than a probe. */
  type Sizes = s: Limits | !s.measured ==> s.wholeUpTo >= 2.0 * PROBE_PAIR as real
    witness Limits(false, 4096.0, 64.0, 64.0)

  /** The sizes for a `fastest` rate, 0 for none, a `floor` and a ping interval with its deadline. */
  function SizesFor(cutsData: bool, fastest: real, floor: real, ping: real, deadline: real): (s: Sizes)
    requires fastest >= 0.0 && floor >= 0.0 && ping >= 0.0 && deadline >= 0.0
  {
    var atFloor := if cutsData then 0.0 else floor * ping / RATE_MARGIN;
    var wholeUpTo := if fastest > 0.0 then fastest * ping / RATE_MARGIN
                     else LargerOf(2.0 * PROBE_PAIR as real, atFloor);
    var unannouncedUpTo := SmallerOf(wholeUpTo, LargerOf(PROBE_FIRST as real, floor * deadline));
    Limits(fastest > 0.0, wholeUpTo, unannouncedUpTo,
          SmallerOf(GATHER_MAX as real, if fastest > 0.0 then wholeUpTo else unannouncedUpTo))
  }

  function LargerOf(a: real, b: real): real { if a > b then a else b }

  function SmallerOf(a: real, b: real): real { if a < b then a else b }

  /** `rest`: of a data frame, from its offset on. `waiting`: the frames behind it. `out`: the messages handed to the
      socket, as their frames. The queues hold where each entry ends among all bytes sent. */
  datatype Sender = Sender(
    cutsData: bool, sizes: Sizes, headroom: real,
    transmitted: nat, acknowledged: nat, heartbeat: int,
    probe: Option<Probe>, rest: Option<Rest>, waiting: seq<Frame>, waitingBytes: int,
    open: Option<Opened>, lastAnnounced: nat, namedFloor: nat,
    unacknowledged: seq<nat>, announcedEnds: seq<nat>, announcements: seq<Announced>,
    messages: Messages, endQueued: bool, out: seq<seq<Frame>>)
  {
    // ── Messages ──

    function Flush(): Sender {
      if messages.frames == [] then this else this.(out := out + [messages.frames], messages := NO_MESSAGES)
    }

    function FlushGathered(): Sender {
      if messages.gathered then Flush() else this
    }

    /** `message` goes, with the carried frames riding ahead of it. */
    function Hand(message: Frame): Sender {
      this.(out := out + [messages.frames + [message]], messages := NO_MESSAGES)
    }

    function HandEach(frames: seq<Frame>): Sender
      decreases |frames|
    {
      if frames == [] then this else Hand(frames[0]).HandEach(frames[1..])
    }

    function Count(bytes: nat): Sender {
      this.(transmitted := transmitted + bytes, headroom := headroom - bytes as real)
    }

    function CountJoining(frame: Frame): Sender {
      Count(messages.lengthAhead + |frame|)
    }

    function Track(): Sender {
      this.(unacknowledged := unacknowledged + [transmitted])
    }

    function TrackOver(bytes: nat): Sender {
      if Acknowledges(bytes) then Track() else this
    }

    // ── What goes as it is ──

    function Wait(frame: Frame, offset: nat): Sender
      requires offset <= |frame|
    {
      this.(rest := Some(Rest(frame, offset)), waitingBytes := waitingBytes + |frame| - offset)
    }

    /** Whether gathering `frame` starts a new message. */
    predicate StartsMessage(frame: Frame) {
      && messages.gathered
      && ((Sequenced(frame) && (messages.atOnce || cutsData))
          || (messages.bytes + messages.lengthAhead + |frame|) as real > sizes.gatherUpTo)
    }

    function Gather(frame: Frame): Sender {
      var s := if StartsMessage(frame) then Flush() else this;
      s.CountJoining(frame).(messages := s.messages.Gather(frame), endQueued := true)
    }

    function HandWhole(frame: Frame): Sender {
      FlushGathered().Count(|frame|).TrackOver(|frame|).Hand(frame)
    }

    // ── Pieces ──

    function PieceSize(): nat {
      if sizes.wholeUpTo < 1.0 then 1 else sizes.wholeUpTo.Floor
    }

    function CutEnd(frame: Frame, offset: nat): nat
      requires offset <= |frame|
    {
      if Sequenced(frame) && cutsData && headroom.Floor < |frame| - offset then offset + Max(0, headroom.Floor)
      else |frame|
    }

    function SendEmptyPiece(total: nat): Sender {
      Count(PIECE_HEADER).Hand(PieceFrame(total, []))
    }

    /** An empty first piece has the receiver acknowledge the next two at once. */
    function StartCut(frame: Frame, offset: nat): Sender {
      if offset == 0 && |frame| as real > sizes.wholeUpTo then SendEmptyPiece(|frame|) else this
    }

    function HandPieces(frame: Frame, offset: nat, end: nat): Sender
      requires offset <= end <= |frame|
    {
      var pieces := PiecesOf(frame, offset, end, PieceSize());
      Count(SumBytes(pieces)).TrackOver(|frame|).HandEach(pieces)
    }

    function WaitFrom(frame: Frame, offset: nat): Sender
      requires offset <= |frame|
    {
      if offset < |frame| then Wait(frame, offset) else this
    }

    /** `frame` from `offset` in pieces; data goes only as far as the headroom, and the rest waits. */
    function Cut(frame: Frame, offset: nat): Sender
      requires offset <= |frame|
    {
      var s := FlushGathered();
      var end := s.CutEnd(frame, offset);
      if end == offset then s.Wait(frame, offset)
      else s.StartCut(frame, offset).HandPieces(frame, offset, end).WaitFrom(frame, end)
    }

    predicate CutsNow(frame: Frame) {
      || |frame| as real > sizes.wholeUpTo
      || (sizes.measured && Sequenced(frame) && cutsData && |frame| as real > headroom)
    }

    function Pass(frame: Frame): Sender {
      if Sequenced(frame) && !cutsData && headroom <= 0.0 then Wait(frame, 0)
      else if CutsNow(frame) then Cut(frame, 0)
      else if |frame| as real < sizes.gatherUpTo then Gather(frame)
      else HandWhole(frame)
    }

    // ── Announcements ──

    function SendAnnouncedMessage(message: Frame, bytes: nat, end: nat): Sender {
      this.(lastAnnounced := bytes, announcedEnds := announcedEnds + [end]).Hand(message)
    }

    /** The pieces of `sizes` of `frame` from `at`, each an announced message ending where its bytes do. */
    function SendAnnouncedPieces(frame: Frame, at: nat, sizes: seq<nat>, end: nat): Sender
      requires at + Sum(sizes) == |frame|
      decreases |sizes|
    {
      if sizes == [] then this
      else
        var to := end + PIECE_HEADER + sizes[0];
        SendAnnouncedMessage(PieceFrame(|frame|, frame[at..at + sizes[0]]), sizes[0], to)
        .SendAnnouncedPieces(frame, at + sizes[0], sizes[1..], to)
    }

    /** `frame` in one announced message. */
    function AnnounceWhole(frame: Frame): Sender {
      var s := Count(|frame|).TrackOver(|frame|);
      s.SendAnnouncedMessage(frame, |frame|, s.transmitted)
    }

    /** `frame` from `offset` in announced pieces of `sizes`. */
    function AnnouncePieces(frame: Frame, offset: nat, sizes: seq<nat>): Sender
      requires offset + Sum(sizes) == |frame|
    {
      Count(Sum(sizes) + |sizes| * PIECE_HEADER).TrackOver(|frame|)
      .SendAnnouncedPieces(frame, offset, sizes, transmitted)
    }

    function SendAnnounced(frame: Frame, offset: nat): Sender
      requires offset <= |frame|
    {
      if offset == 0 && |frame| <= AnnouncedNext(lastAnnounced, namedFloor) then AnnounceWhole(frame)
      else AnnouncePieces(frame, offset, AnnouncedSizes(|frame| - offset, lastAnnounced, namedFloor))
    }

    function SendProbePiece(frame: Frame, at: nat, size: nat): Sender
      requires at + size <= |frame|
    {
      var s := Count(PIECE_HEADER + size).Track();
      s.SendAnnouncedMessage(PieceFrame(|frame|, frame[at..at + size]), size, s.transmitted)
    }

    /** An empty piece and its first two, back to back. */
    function SendProbePair(frame: Frame): Sender
      requires |frame| >= PROBE_FIRST + PROBE_PAIR
    {
      SendEmptyPiece(|frame|).SendProbePiece(frame, 0, PROBE_FIRST).SendProbePiece(frame, PROBE_FIRST, PROBE_PAIR)
    }

    /** Where the probe just sent ends, and where its second piece starts. */
    function Probing(frame: Frame): Sender
      requires transmitted >= PIECE_HEADER + PROBE_PAIR
    {
      this.(probe := Some(Probe(transmitted, if Sequenced(frame) then Some(transmitted - PIECE_HEADER - PROBE_PAIR)
                                             else None)))
    }

    function SendProbe(frame: Frame): Sender
      requires |frame| >= PROBE_FIRST + PROBE_PAIR
    {
      SendProbePair(frame).Probing(frame).SendAnnounced(frame, PROBE_FIRST + PROBE_PAIR)
    }

    /** `floorPerS`: the floor an opening ANNOUNCE names. */
    function OpenAnnouncement(floorPerS: nat): Sender {
      if open.Some? then this
      else
        this.(open := Some(Opened(transmitted, 0)), namedFloor := floorPerS).Count(ANNOUNCE_BYTES)
        .Hand(AnnounceFrame(0, floorPerS))
    }

    predicate Probes(frame: Frame) {
      !sizes.measured && probe.None? && |frame| as real > sizes.wholeUpTo
    }

    /** This task's announcement, opened if none is, counting `frame` behind it. */
    function Announcing(frame: Frame, floorPerS: nat): Sender {
      var s := FlushGathered().OpenAnnouncement(floorPerS);
      s.(open := Some(s.open.value.(bytes := s.open.value.bytes + |frame|)))
    }

    function SendBehindAnnouncement(frame: Frame, floorPerS: nat): Sender {
      var s := Announcing(frame, floorPerS);
      if s.Probes(frame) then s.SendProbe(frame) else s.SendAnnounced(frame, 0)
    }

    function CloseAnnouncement(): Sender
      requires open.Some?
    {
      var s := this.(open := None).Count(ANNOUNCE_BYTES).Hand(AnnounceFrame(open.value.bytes, 0));
      s.(announcements := s.announcements + [Announced(open.value.start, s.transmitted)])
    }

    // ── Calls ──

    predicate Announces(frame: Frame) {
      || probe.Some?
      || (!sizes.measured && |frame| as real > sizes.unannouncedUpTo
          && (|frame| as real > sizes.wholeUpTo || Sequenced(frame)))
    }

    predicate GoesWhole(frame: Frame) {
      && !sizes.measured && probe.None? && Sequenced(frame)
      && |frame| <= SEND_AHEAD_MIN + FRAME_OVERHEAD_MAX && |frame| as real <= headroom
    }

    function SendWhole(frame: Frame): Sender {
      FlushGathered().Count(|frame|).Hand(frame)
    }

    predicate PassesRest(frame: Frame) {
      PassesData(frame[0]) && |frame| as real <= sizes.wholeUpTo
    }

    function Carry(frame: Frame): Sender {
      CountJoining(frame).(messages := messages.Add(frame))
    }

    /** The frames carried ahead, as they are at that time. */
    function TakeCarried(carried: seq<Frame>): (s: Sender)
      ensures s.rest == rest
      decreases |carried|
    {
      if carried == [] then this
      else Carry(carried[0]).TakeCarried(carried[1..])
    }

    function Enqueue(frame: Frame): Sender {
      this.(waiting := waiting + [frame], waitingBytes := waitingBytes + |frame|)
    }

    function Route(frame: Frame, floorPerS: nat): Sender
    {
      if frame[0] == PIECES_ACK && open.None? then Pass(frame)
      else if rest.None? then
        if open.None? && !Announces(frame) then Pass(frame)
        else if open.None? && GoesWhole(frame) then SendWhole(frame)
        else SendBehindAnnouncement(frame, floorPerS)
      else if PassesRest(frame) then Pass(frame)
      else Enqueue(frame)
    }

    function Send(frame: Frame, headroom: real, carried: seq<Frame>, floorPerS: nat): Sender
    {
      this.(headroom := headroom).TakeCarried(carried).Route(frame, floorPerS)
    }

    function Dequeued(): Sender
      requires waiting != []
    {
      this.(waiting := waiting[1..], waitingBytes := waitingBytes - |waiting[0]|)
    }

    /** The first frame behind a rest that went. */
    function SendNext(): Sender
      requires waiting != []
    {
      Dequeued().Pass(waiting[0])
    }

    /** The frames behind the rest go too, till one of them waits: `n` of them at most. */
    function SendQueued(n: nat): Sender
      decreases n
    {
      if n == 0 || rest.Some? || waiting == [] then this else SendNext().SendQueued(n - 1)
    }

    function WithoutRest(): Sender
      requires rest.Some?
    {
      this.(rest := None, waitingBytes := waitingBytes - (|rest.value.frame| - rest.value.offset))
    }

    /** A sender that doesn't cut data held the whole frame, so it goes as if sent now. */
    function Resume(frame: Frame, offset: nat): Sender
      requires offset <= |frame|
    {
      if cutsData then Cut(frame, offset) else Pass(frame)
    }

    /** Sends what waits for headroom, as far as it goes, and the frames behind it. */
    function SendWaiting(headroom: real, carried: seq<Frame>): Sender
      requires rest.Some? ==> rest.value.offset <= |rest.value.frame|
    {
      if rest.None? then this
      else
        var s := this.(headroom := headroom).TakeCarried(carried);
        s.WithoutRest().Resume(rest.value.frame, rest.value.offset).SendQueued(|waiting|)
    }

    /** As the task ends, what it gathered goes. */
    function EndTask(): Sender {
      FlushGathered().(endQueued := false)
    }

    /** A PIECES_ACK's count, of which the wire carries the low 32 bits; `None` if it acknowledges nothing sent, or more
        than was. */
    function Acknowledge(bits: nat): Option<Sender> {
      var newly := (bits - acknowledged) % SEQ_SPAN;
      if newly < 1 || newly > transmitted - acknowledged then None
      else
        var to := acknowledged + newly;
        Some(this.(acknowledged := to, unacknowledged := Past(unacknowledged, to),
                   announcedEnds := Past(announcedEnds, to), announcements := EndingPast(announcements, to),
                   probe := if probe.Some? && to >= probe.value.end then None else probe))
    }

    /** A PING's or PONG's count of the bytes taken; `None` if more than was sent. */
    function Heartbeat(bits: nat): Option<Sender> {
      var ahead := (bits - acknowledged) % SEQ_SPAN;
      var took := acknowledged + if ahead < SEQ_SPAN / 2 then ahead else ahead - SEQ_SPAN;
      if took > transmitted then None else Some(this.(heartbeat := took))
    }
  }

  function NewSender(cutsData: bool, sizes: Sizes): Sender {
    Sender(cutsData, sizes, 0.0, 0, 0, 0, None, None, [], 0, None, 0, 0, [], [], [], NO_MESSAGES, false, [])
  }

  // ── Cutting ──

  function PiecesOf(frame: Frame, at: nat, end: nat, size: nat): seq<Frame>
    requires at <= end <= |frame| && size > 0
    decreases end - at
  {
    if at == end then []
    else
      var to := Min(end, at + size);
      [PieceFrame(|frame|, frame[at..to])] + PiecesOf(frame, to, end, size)
  }

  /** Each as large as it may be after the one before. */
  function LargestSizes(left: nat, last: nat, floorPerS: nat): seq<nat>
    decreases left
  {
    if left == 0 then []
    else
      var size := Min(left, AnnouncedNext(last, floorPerS));
      [size] + LargestSizes(left - size, size, floorPerS)
  }

  /** A last size smaller than the one before takes more of their sum, the first of them a third. */
  function Rebalanced(sizes: seq<nat>): seq<nat> {
    var n := |sizes|;
    if n >= 2 && sizes[n - 1] < sizes[n - 2] then
      var both := sizes[n - 2] + sizes[n - 1];
      var first := (both + 2) / 3;
      sizes[..n - 2] + [first, both - first]
    else sizes
  }

  function AnnouncedSizes(left: nat, last: nat, floorPerS: nat): (sizes: seq<nat>)
    ensures Sum(sizes) == left
  {
    LargestSum(left, last, floorPerS);
    RebalancedSum(LargestSizes(left, last, floorPerS));
    Rebalanced(LargestSizes(left, last, floorPerS))
  }

  lemma {:induction false} LargestSum(left: nat, last: nat, floorPerS: nat)
    ensures Sum(LargestSizes(left, last, floorPerS)) == left
    decreases left
  {
    if left != 0 {
      var size := Min(left, AnnouncedNext(last, floorPerS));
      LargestSum(left - size, size, floorPerS);
    }
  }

  lemma RebalancedSum(sizes: seq<nat>)
    ensures Sum(Rebalanced(sizes)) == Sum(sizes) && |Rebalanced(sizes)| == |sizes|
  {
    var n := |sizes|;
    if n >= 2 && sizes[n - 1] < sizes[n - 2] {
      var both := sizes[n - 2] + sizes[n - 1];
      var tail := [(both + 2) / 3, both - (both + 2) / 3];
      SumAppend(sizes[..n - 2], tail);
      SumAppend(sizes[..n - 2], [sizes[n - 2], sizes[n - 1]]);
      assert sizes == sizes[..n - 2] + [sizes[n - 2], sizes[n - 1]];
      SumTwo(tail[0], tail[1]);
      SumTwo(sizes[n - 2], sizes[n - 1]);
    }
  }

  lemma SumTwo(a: nat, b: nat)
    ensures Sum([a, b]) == a + b
  {
    assert [a, b][1..] == [b] && [b][1..] == [];
    assert Sum([b]) == b + Sum([]);
  }

  /** The ends not reached yet. */
  function Past(ends: seq<nat>, to: nat): seq<nat> {
    if ends == [] || ends[0] > to then ends else Past(ends[1..], to)
  }

  function EndingPast(q: seq<Announced>, to: nat): seq<Announced> {
    if q == [] || q[0].end > to then q else EndingPast(q[1..], to)
  }
}
