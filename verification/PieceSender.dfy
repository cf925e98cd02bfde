/** Sends one WebSocket's frames, whole or in pieces; each method is the step of the same name in `PieceSteps`. The
    headroom, the frames carried and the floor named are parameters, as the owner and the rates give them. */
module PieceSenders {
  import opened Bytes
  import opened Tags
  import opened Frames
  import opened Fifos
  import opened Pieces
  import opened PieceSteps
  import opened SocketMessagesOf
  import S = PieceSafety

  /** The sizes of a frame's announced messages, the last two rebalanced. */
  method SizesOf(bytes: nat, lastAnnounced: nat, floorPerS: nat) returns (all: seq<nat>)
    ensures all == AnnouncedSizes(bytes, lastAnnounced, floorPerS)
  {
    all := [];
    var left: nat, last: nat := bytes, lastAnnounced;
    while left > 0
      invariant all + LargestSizes(left, last, floorPerS) == LargestSizes(bytes, lastAnnounced, floorPerS)
      decreases left
    {
      last := Min(left, AnnouncedNext(last, floorPerS));
      all := all + [last];
      left := left - last;
    }
    assert all + [] == all;
    all := Rebalance(all);
  }

  /** The last two of `sizes` in thirds, where the last is less than the one before. */
  method Rebalance(sizes: seq<nat>) returns (all: seq<nat>)
    ensures all == Rebalanced(sizes)
  {
    all := sizes;
    var n := |all|;
    if n >= 2 && all[n - 1] < all[n - 2] {
      var both := all[n - 2] + all[n - 1];
      var first := (both + 2) / 3;
      all := all[n - 2 := first][n - 1 := both - first];
      assert all == sizes[..n - 2] + [first, both - first];
    }
  }

  lemma TailOf(all: seq<nat>, i: nat)
    requires i < |all|
    ensures all[i..][0] == all[i] && all[i..][1..] == all[i + 1..] && Sum(all[i..]) == all[i] + Sum(all[i + 1..])
  {
  }

  class PieceSender {
    const cutsData: bool
    const messages: SocketMessages
    const waiting: Fifo<Frame>
    const unacknowledged: Fifo<nat>
    const announcedEnds: Fifo<nat>
    const announcements: Fifo<Announced>
    var headroom: real
    var transmittedBytes: nat
    var acknowledgedBytes: nat
    var heartbeatBytes: int
    var probe: Option<Probe>
    var rest: Option<Rest>
    var waitingBytes: int
    var open: Option<Opened>
    var lastAnnounced: nat
    var namedFloor: nat
    var sizes: Sizes
    var endQueued: bool

    ghost function Parts(): set<object> {
      {waiting, unacknowledged, announcedEnds, announcements, messages, messages.socket}
    }

    ghost predicate Valid()
      reads this, Parts()
    {
      && waiting.Valid() && unacknowledged.Valid() && announcedEnds.Valid() && announcements.Valid() && messages.Valid()
      && |Parts()| == 6 && (rest.Some? ==> rest.value.offset < |rest.value.frame|)
    }

    /** What waits are frames it was given. */
    ghost predicate WaitsPlain()
      reads this, waiting
      requires waiting.Valid()
    {
      AllPlain(waiting.Contents()) && (rest.Some? ==> Plain(rest.value.frame))
    }

    ghost function Model(): Sender
      reads this, Parts()
      requires Valid()
    {
      Sender(cutsData, sizes, headroom, transmittedBytes, acknowledgedBytes, heartbeatBytes, probe, rest,
             waiting.Contents(), waitingBytes, open, lastAnnounced, namedFloor, unacknowledged.Contents(),
             announcedEnds.Contents(), announcements.Contents(), messages.Value(), endQueued, messages.out)
    }

    constructor (socket: Socket, cutsData: bool, sizes: Sizes)
      requires socket.taken == []
      ensures Valid() && fresh(Parts() - {socket}) && messages.socket == socket && Model() == NewSender(cutsData, sizes)
    {
      this.cutsData, this.sizes := cutsData, sizes;
      messages := new SocketMessages(socket);
      waiting := new Fifo();
      unacknowledged := new Fifo();
      announcedEnds := new Fifo();
      announcements := new Fifo();
      headroom, transmittedBytes, acknowledgedBytes, heartbeatBytes := 0.0, 0, 0, 0;
      probe, rest, waitingBytes, open, lastAnnounced, namedFloor, endQueued := None, None, 0, None, 0, 0, false;
    }

    /** Counts `bytes` handed, or carried into the next message. */
    method CountHanded(bytes: nat)
      requires Valid()
      modifies this`transmittedBytes, this`headroom
      ensures Valid() && Model() == old(Model()).Count(bytes)
    {
      transmittedBytes := transmittedBytes + bytes;
      headroom := headroom - bytes as real;
    }

    method Track()
      requires Valid()
      modifies unacknowledged
      ensures Valid() && Model() == old(Model()).Track()
    {
      unacknowledged.Push(transmittedBytes);
    }

    method TrackOver(bytes: nat)
      requires Valid()
      modifies unacknowledged
      ensures Valid() && Model() == old(Model()).TrackOver(bytes)
    {
      if Acknowledges(bytes) {
        Track();
      }
    }

    method Hand(message: Frame)
      requires Valid() && messages.lengthAhead == 0
      modifies messages, messages.socket
      ensures Valid() && Model() == old(Model()).Hand(message)
    {
      messages.Hand(message);
    }

    method HandGathered()
      requires Valid()
      modifies messages, messages.socket
      ensures Valid() && Model() == old(Model()).FlushGathered() && messages.lengthAhead == 0
    {
      if messages.gathered {
        messages.Flush();
      }
    }

    /** `frame` from `offset` waits for headroom. */
    method Wait(frame: Frame, offset: nat)
      requires Valid() && offset < |frame|
      modifies this`rest, this`waitingBytes
      ensures Valid() && Model() == old(Model()).Wait(frame, offset)
    {
      rest := Some(Rest(frame, offset));
      waitingBytes := waitingBytes + |frame| - offset;
    }

    /** Hands data in one message, taking no rate sample from it. */
    method SendWhole(frame: Frame)
      requires Valid()
      modifies this`transmittedBytes, this`headroom, messages, messages.socket
      ensures Valid() && Model() == old(Model()).SendWhole(frame)
    {
      HandGathered();
      CountHanded(|frame|);
      Hand(frame);
    }

    /** Starts a new message where `frame` would take this one too far, or is data behind a frame that goes at once. */
    method StartMessage(frame: Frame)
      requires Valid()
      modifies messages, messages.socket
      ensures Valid()
      ensures Model() == if old(Model()).StartsMessage(frame) then old(Model()).Flush() else old(Model())
    {
      if messages.gathered
         && ((Sequenced(frame) && (messages.atOnce || cutsData))
             || (messages.bytes + messages.lengthAhead + |frame|) as real > sizes.gatherUpTo) {
        messages.Flush();
      }
    }

    method Join(frame: Frame)
      requires Valid() && Plain(frame)
      modifies this`transmittedBytes, this`headroom, messages
      ensures Valid()
      ensures Model() == old(Model()).CountJoining(frame).(messages := old(messages.Value()).Gather(frame))
    {
      Count(frame);
      messages.Gather(frame);
    }

    /** Adds `frame` to the message of this task's frames. */
    method Gather(frame: Frame)
      requires Valid() && Plain(frame)
      modifies this`transmittedBytes, this`headroom, this`endQueued, messages, messages.socket
      ensures Valid() && Model() == old(Model()).Gather(frame)
    {
      StartMessage(frame);
      Join(frame);
      if !endQueued {
        endQueued := true;
      }
    }

    /** Counts `frame` as it joins the task's message, after the LENGTH the frame before it needs now. */
    method Count(frame: Frame)
      requires Valid()
      modifies this`transmittedBytes, this`headroom
      ensures Valid() && Model() == old(Model()).CountJoining(frame)
    {
      var length := messages.lengthAhead;
      if length > 0 {
        CountHanded(length);
      }
      CountHanded(|frame|);
    }

    method HandWhole(frame: Frame)
      requires Valid()
      modifies this`transmittedBytes, this`headroom, unacknowledged, messages, messages.socket
      ensures Valid() && Model() == old(Model()).HandWhole(frame)
    {
      HandGathered();
      CountHanded(|frame|);
      TrackOver(|frame|);
      Hand(frame);
    }

    method SendEmptyPiece(total: nat)
      requires Valid() && messages.lengthAhead == 0
      modifies this`transmittedBytes, this`headroom, messages, messages.socket
      ensures Valid() && Model() == old(Model()).SendEmptyPiece(total) && messages.lengthAhead == 0
    {
      CountHanded(PIECE_HEADER);
      Hand(PieceFrame(total, []));
    }

    /** Hands `frame` from `offset` to `end` in pieces of `size`, counted ahead by their number. */
    method HandPieces(frame: Frame, offset: nat, end: nat)
      requires Valid() && messages.lengthAhead == 0 && offset < end <= |frame|
      modifies this`transmittedBytes, this`headroom, unacknowledged, messages, messages.socket
      ensures Valid() && Model() == old(Model()).HandPieces(frame, offset, end)
    {
      var size := if sizes.wholeUpTo < 1.0 then 1 else sizes.wholeUpTo.Floor;
      ghost var pieces := PiecesOf(frame, offset, end, size);
      ghost var was := Model();
      S.PiecesBytes(frame, offset, end, size);
      CountHanded(end - offset + (end - offset + size - 1) / size * PIECE_HEADER);
      assert Model() == was.Count(SumBytes(pieces));
      TrackOver(|frame|);
      HandEach(frame, offset, end, size);
    }

    method HandEach(frame: Frame, offset: nat, end: nat, size: nat)
      requires Valid() && messages.lengthAhead == 0 && offset <= end <= |frame| && size > 0
      modifies messages, messages.socket
      ensures Valid() && Model() == old(Model()).HandEach(PiecesOf(frame, offset, end, size))
    {
      ghost var goal := Model().HandEach(PiecesOf(frame, offset, end, size));
      var at := offset;
      while at < end
        invariant Valid() && messages.lengthAhead == 0 && offset <= at
        invariant Model().HandEach(PiecesOf(frame, Min(at, end), end, size)) == goal
        decreases end - at
      {
        HandNext(frame, at, end, size, goal);
        at := at + size;
      }
    }

    method HandNext(frame: Frame, at: nat, end: nat, size: nat, ghost goal: Sender)
      requires Valid() && messages.lengthAhead == 0 && at < end <= |frame| && size > 0
      requires Model().HandEach(PiecesOf(frame, at, end, size)) == goal
      modifies messages, messages.socket
      ensures Valid() && messages.lengthAhead == 0
      ensures Model().HandEach(PiecesOf(frame, Min(at + size, end), end, size)) == goal
    {
      var to := Min(end, at + size);
      var piece := PieceFrame(|frame|, frame[at..to]);
      S.HandEachFirst(Model(), piece, PiecesOf(frame, to, end, size));
      Hand(piece);
    }

    method StartCut(frame: Frame, offset: nat)
      requires Valid() && messages.lengthAhead == 0
      modifies this`transmittedBytes, this`headroom, messages, messages.socket
      ensures Valid() && Model() == old(Model()).StartCut(frame, offset) && messages.lengthAhead == 0
    {
      if offset == 0 && |frame| as real > sizes.wholeUpTo {
        SendEmptyPiece(|frame|);
      }
    }

    /** Hands `frame` from `offset` in pieces; data goes only as far as the headroom, and the rest waits. */
    method Cut(frame: Frame, offset: nat)
      requires Valid() && offset < |frame|
      modifies this`transmittedBytes, this`headroom, this`rest, this`waitingBytes, unacknowledged, messages,
               messages.socket
      ensures Valid() && Model() == old(Model()).Cut(frame, offset)
      ensures rest == old(rest) || (rest.Some? && rest.value.frame == frame)
    {
      HandGathered();
      var room := Max(0, headroom.Floor);
      var end := if Sequenced(frame) && cutsData then Min(|frame|, offset + room) else |frame|;
      assert end == Model().CutEnd(frame, offset);
      if end == offset {
        Wait(frame, offset);
        return;
      }
      StartCut(frame, offset);
      HandPieces(frame, offset, end);
      if end < |frame| {
        Wait(frame, end);
      }
    }

    /** Hands the socket `frame`, whole or in pieces, or has it wait. */
    method Pass(frame: Frame)
      requires Valid() && Plain(frame)
      modifies this`transmittedBytes, this`headroom, this`endQueued, this`rest, this`waitingBytes, unacknowledged,
               messages, messages.socket
      ensures Valid() && Model() == old(Model()).Pass(frame)
      ensures rest == old(rest) || (rest.Some? && rest.value.frame == frame)
    {
      var bytes := |frame|;
      var data := Sequenced(frame);
      if data && !cutsData && headroom <= 0.0 {
        Wait(frame, 0);
      } else if bytes as real > sizes.wholeUpTo
                || (sizes.measured && data && cutsData && bytes as real > headroom) {
        Cut(frame, 0);
      } else if (bytes as real) < sizes.gatherUpTo {
        Gather(frame);
      } else {
        HandWhole(frame);
      }
    }

    // ── Announcements ──

    /** Hands `message`, with `bytes` of announced frames, ending at `end` of all bytes sent. */
    method SendAnnouncedMessage(message: Frame, bytes: nat, end: nat)
      requires Valid() && messages.lengthAhead == 0
      modifies this`lastAnnounced, announcedEnds, messages, messages.socket
      ensures Valid() && Model() == old(Model()).SendAnnouncedMessage(message, bytes, end) && messages.lengthAhead == 0
    {
      lastAnnounced := bytes;
      announcedEnds.Push(end);
      Hand(message);
    }

    method AnnounceWhole(frame: Frame)
      requires Valid() && messages.lengthAhead == 0
      modifies this`transmittedBytes, this`headroom, this`lastAnnounced, unacknowledged, announcedEnds, messages,
               messages.socket
      ensures Valid() && Model() == old(Model()).AnnounceWhole(frame)
    {
      CountHanded(|frame|);
      TrackOver(|frame|);
      SendAnnouncedMessage(frame, |frame|, transmittedBytes);
    }

    method AnnouncePieces(frame: Frame, offset: nat, all: seq<nat>)
      requires Valid() && messages.lengthAhead == 0 && offset + Sum(all) == |frame|
      modifies this`transmittedBytes, this`headroom, this`lastAnnounced, unacknowledged, announcedEnds, messages,
               messages.socket
      ensures Valid() && Model() == old(Model()).AnnouncePieces(frame, offset, all)
    {
      var end := transmittedBytes;
      CountHanded(|frame| - offset + |all| * PIECE_HEADER);
      TrackOver(|frame|);
      SendEachAnnounced(frame, offset, all, end);
    }

    /** Sends `frame` from `offset` as announced messages, none past what may follow the one before. */
    method SendAnnounced(frame: Frame, offset: nat)
      requires Valid() && messages.lengthAhead == 0 && offset < |frame|
      modifies this`transmittedBytes, this`headroom, this`lastAnnounced, unacknowledged, announcedEnds, messages,
               messages.socket
      ensures Valid() && Model() == old(Model()).SendAnnounced(frame, offset)
    {
      if offset == 0 && |frame| <= AnnouncedNext(lastAnnounced, namedFloor) {
        AnnounceWhole(frame);
      } else {
        AnnounceCut(frame, offset);
      }
    }

    method AnnounceCut(frame: Frame, offset: nat)
      requires Valid() && messages.lengthAhead == 0 && offset < |frame|
      modifies this`transmittedBytes, this`headroom, this`lastAnnounced, unacknowledged, announcedEnds, messages,
               messages.socket
      ensures Valid()
      ensures Model() == old(Model()).AnnouncePieces(frame, offset,
                                                     AnnouncedSizes(|frame| - offset, old(lastAnnounced), namedFloor))
    {
      ghost var goal := Model().AnnouncePieces(frame, offset, AnnouncedSizes(|frame| - offset, lastAnnounced, namedFloor));
      var all := SizesOf(|frame| - offset, lastAnnounced, namedFloor);
      AnnouncePieces(frame, offset, all);
      assert Model() == goal;
    }

    method SendEachAnnounced(frame: Frame, offset: nat, all: seq<nat>, start: nat)
      requires Valid() && messages.lengthAhead == 0 && offset + Sum(all) == |frame|
      modifies this`lastAnnounced, announcedEnds, messages, messages.socket
      ensures Valid() && Model() == old(Model()).SendAnnouncedPieces(frame, offset, all, start)
    {
      ghost var goal := Model().SendAnnouncedPieces(frame, offset, all, start);
      var at: nat, end: nat := offset, start;
      assert all[0..] == all;
      for i := 0 to |all|
        invariant Valid() && messages.lengthAhead == 0 && at + Sum(all[i..]) == |frame|
        invariant Model().SendAnnouncedPieces(frame, at, all[i..], end) == goal
      {
        at, end := SendOneAnnounced(frame, at, all, i, end, goal);
      }
    }

    /** The piece at `at`: where the next one starts, and where this one's message ends. */
    method SendOneAnnounced(frame: Frame, at: nat, all: seq<nat>, i: nat, end: nat, ghost goal: Sender)
      returns (next: nat, to: nat)
      requires Valid() && messages.lengthAhead == 0 && i < |all| && at + Sum(all[i..]) == |frame|
      requires Model().SendAnnouncedPieces(frame, at, all[i..], end) == goal
      modifies this`lastAnnounced, announcedEnds, messages, messages.socket
      ensures Valid() && messages.lengthAhead == 0 && next + Sum(all[i + 1..]) == |frame|
      ensures Model().SendAnnouncedPieces(frame, next, all[i + 1..], to) == goal
    {
      TailOf(all, i);
      next, to := at + all[i], end + PIECE_HEADER + all[i];
      SendAnnouncedMessage(PieceFrame(|frame|, frame[at..next]), all[i], to);
    }

    method SendProbePiece(frame: Frame, at: nat, size: nat)
      requires Valid() && messages.lengthAhead == 0 && at + size <= |frame|
      modifies this`transmittedBytes, this`headroom, this`lastAnnounced, unacknowledged, announcedEnds, messages,
               messages.socket
      ensures Valid() && Model() == old(Model()).SendProbePiece(frame, at, size) && messages.lengthAhead == 0
    {
      CountHanded(PIECE_HEADER + size);
      Track();
      SendAnnouncedMessage(PieceFrame(|frame|, frame[at..at + size]), size, transmittedBytes);
    }

    /** Probes the path: `frame`'s first two pieces back to back, then the rest. */
    method SendProbe(frame: Frame)
      requires Valid() && messages.lengthAhead == 0 && |frame| > PROBE_FIRST + PROBE_PAIR
      modifies this`transmittedBytes, this`headroom, this`lastAnnounced, this`probe, unacknowledged, announcedEnds,
               messages, messages.socket
      ensures Valid() && Model() == old(Model()).SendProbe(frame)
    {
      SendEmptyPiece(|frame|);
      SendProbePiece(frame, 0, PROBE_FIRST);
      SendProbePiece(frame, PROBE_FIRST, PROBE_PAIR);
      StartProbe(frame);
      SendAnnounced(frame, PROBE_FIRST + PROBE_PAIR);
    }

    method StartProbe(frame: Frame)
      requires Valid() && transmittedBytes >= PIECE_HEADER + PROBE_PAIR
      modifies this`probe
      ensures Valid() && Model() == old(Model()).Probing(frame)
    {
      var second := if Sequenced(frame) then Some(transmittedBytes - PIECE_HEADER - PROBE_PAIR) else None;
      probe := Some(Probe(transmittedBytes, second));
    }

    /** Opens this task's announcement with an ANNOUNCE of 0 bytes, if none is open. */
    method OpenAnnouncement(floorPerS: nat)
      requires Valid() && messages.lengthAhead == 0
      modifies this`transmittedBytes, this`headroom, this`open, this`namedFloor, messages, messages.socket
      ensures Valid() && Model() == old(Model()).OpenAnnouncement(floorPerS)
      ensures open.Some? && messages.lengthAhead == 0
    {
      if open.None? {
        open := Some(Opened(transmittedBytes, 0));
        namedFloor := floorPerS;
        CountHanded(ANNOUNCE_BYTES);
        Hand(AnnounceFrame(0, floorPerS));
      }
    }

    method Announce(frame: Frame, floorPerS: nat)
      requires Valid()
      modifies this`transmittedBytes, this`headroom, this`open, this`namedFloor, messages, messages.socket
      ensures Valid() && Model() == old(Model()).Announcing(frame, floorPerS) && messages.lengthAhead == 0
    {
      HandGathered();
      OpenAnnouncement(floorPerS);
      open := Some(open.value.(bytes := open.value.bytes + |frame|));
    }

    /** Sends `frame` at once behind this task's announcement. */
    method SendBehindAnnouncement(frame: Frame, floorPerS: nat)
      requires Valid()
      modifies this`transmittedBytes, this`headroom, this`open, this`namedFloor, this`lastAnnounced, this`probe,
               unacknowledged, announcedEnds, messages, messages.socket
      ensures Valid() && Model() == old(Model()).SendBehindAnnouncement(frame, floorPerS)
    {
      Announce(frame, floorPerS);
      if !sizes.measured && probe.None? && |frame| as real > sizes.wholeUpTo {
        SendProbe(frame);
      } else {
        SendAnnounced(frame, 0);
      }
    }

    /** Closes the announcement of this task with an ANNOUNCE of the bytes of the frames sent behind it. */
    method CloseAnnouncement()
      requires Valid() && open.Some? && messages.lengthAhead == 0
      modifies this`transmittedBytes, this`headroom, this`open, announcements, messages, messages.socket
      ensures Valid() && Model() == old(Model()).CloseAnnouncement()
    {
      var Opened(start, bytes) := open.value;
      open := None;
      CountHanded(ANNOUNCE_BYTES);
      Hand(AnnounceFrame(bytes, 0));
      announcements.Push(Announced(start, transmittedBytes));
    }

    // ── Calls ──

    method TakeCarried(carried: seq<Frame>)
      requires Valid() && S.AllAcks(carried)
      modifies this`transmittedBytes, this`headroom, messages
      ensures Valid() && Model() == old(Model()).TakeCarried(carried)
    {
      ghost var goal := Model().TakeCarried(carried);
      assert carried[0..] == carried;
      for i := 0 to |carried|
        invariant Valid() && Model().TakeCarried(carried[i..]) == goal
      {
        assert carried[i..][1..] == carried[i + 1..] && S.IsAck(carried[i]);
        CarryOne(carried[i]);
      }
    }

    method CarryOne(frame: Frame)
      requires Valid() && S.IsAck(frame)
      modifies this`transmittedBytes, this`headroom, messages
      ensures Valid() && Model() == old(Model()).Carry(frame)
    {
      Count(frame);
      messages.Add(frame);
    }

    /** Sends `frame`, whole or in pieces, or has it wait behind what waits. */
    method Send(frame: Frame, room: real, carried: seq<Frame>, floorPerS: nat)
      requires Valid() && WaitsPlain() && Plain(frame) && S.AllAcks(carried)
      modifies this, Parts()
      ensures Valid() && WaitsPlain() && Model() == old(Model()).Send(frame, room, carried, floorPerS)
    {
      headroom := room;
      TakeCarried(carried);
      Route(frame, floorPerS);
    }

    method Route(frame: Frame, floorPerS: nat)
      requires Valid() && WaitsPlain() && Plain(frame)
      modifies this, Parts()
      ensures Valid() && WaitsPlain() && Model() == old(Model()).Route(frame, floorPerS)
    {
      if frame[0] == PIECES_ACK && open.None? {
        Pass(frame);
      } else if rest.None? {
        RouteFree(frame, floorPerS);
      } else if PassesData(frame[0]) && |frame| as real <= sizes.wholeUpTo {
        Pass(frame);
      } else {
        Enqueue(frame);
      }
    }

    method RouteFree(frame: Frame, floorPerS: nat)
      requires Valid() && WaitsPlain() && Plain(frame) && rest.None? && !(frame[0] == PIECES_ACK && open.None?)
      modifies this`transmittedBytes, this`headroom, this`endQueued, this`rest, this`waitingBytes, this`open,
               this`namedFloor, this`lastAnnounced, this`probe, unacknowledged, announcedEnds, messages, messages.socket
      ensures Valid() && WaitsPlain() && Model() == old(Model()).Route(frame, floorPerS)
    {
      if open.None? && !Announces(frame) {
        Pass(frame);
      } else if open.None? && GoesWhole(frame) {
        SendWhole(frame);
      } else {
        SendBehindAnnouncement(frame, floorPerS);
      }
    }

    predicate Announces(frame: Frame)
      reads this, Parts()
      requires Valid()
      ensures Announces(frame) == Model().Announces(frame)
    {
      || probe.Some?
      || (!sizes.measured && |frame| as real > sizes.unannouncedUpTo
          && (|frame| as real > sizes.wholeUpTo || Sequenced(frame)))
    }

    predicate GoesWhole(frame: Frame)
      reads this, Parts()
      requires Valid()
      ensures GoesWhole(frame) == Model().GoesWhole(frame)
    {
      && !sizes.measured && probe.None? && Sequenced(frame)
      && |frame| <= SEND_AHEAD_MIN + FRAME_OVERHEAD_MAX && |frame| as real <= headroom
    }

    method Enqueue(frame: Frame)
      requires Valid()
      modifies this`waitingBytes, waiting
      ensures Valid() && Model() == old(Model()).Enqueue(frame)
      ensures waiting.Contents() == old(waiting.Contents()) + [frame]
    {
      waiting.Push(frame);
      waitingBytes := waitingBytes + |frame|;
    }

    /** Takes the first frame behind a rest that went. */
    method Dequeue() returns (next: Frame)
      requires Valid() && WaitsPlain() && waiting.Contents() != [] && rest.None?
      modifies this`waitingBytes, waiting
      ensures Valid() && WaitsPlain() && Plain(next)
      ensures next == old(waiting.Contents())[0] && Model() == old(Model()).Dequeued()
      ensures waiting.Contents() == old(waiting.Contents())[1..]
    {
      ghost var q := waiting.Contents();
      assert Plain(q[0]) && forall i | 0 <= i < |q[1..]| :: q[1..][i] == q[i + 1];
      var front := waiting.Shift();
      next := front.value;
      waitingBytes := waitingBytes - |next|;
    }

    /** Sends what waits for headroom, as far as it goes, and the frames behind it. */
    method SendWaiting(room: real, carried: seq<Frame>)
      requires Valid() && WaitsPlain() && S.AllAcks(carried)
      modifies this, Parts()
      ensures Valid() && WaitsPlain() && Model() == old(Model()).SendWaiting(room, carried)
    {
      if rest.None? {
        return;
      }
      headroom := room;
      TakeCarried(carried);
      Resume();
      SendQueued();
    }

    method SendNext()
      requires Valid() && WaitsPlain() && waiting.Contents() != [] && rest.None?
      modifies this`transmittedBytes, this`headroom, this`endQueued, this`rest, this`waitingBytes, unacknowledged,
               messages, messages.socket, waiting
      ensures Valid() && WaitsPlain() && waiting.Length() == old(waiting.Length()) - 1
      ensures Model().SendQueued(waiting.Length()) == old(Model()).SendQueued(old(waiting.Length()))
    {
      ghost var s := Model();
      var next := Dequeue();
      Pass(next);
      assert Model() == s.SendNext();
    }

    /** The frames behind the rest go too, till one of them waits. */
    method SendQueued()
      requires Valid() && WaitsPlain()
      modifies this`transmittedBytes, this`headroom, this`endQueued, this`rest, this`waitingBytes, unacknowledged,
               messages, messages.socket, waiting
      ensures Valid() && WaitsPlain() && Model() == old(Model()).SendQueued(old(waiting.Length()))
    {
      ghost var goal := Model().SendQueued(waiting.Length());
      while rest.None? && waiting.Length() > 0
        invariant Valid() && WaitsPlain() && Model().SendQueued(waiting.Length()) == goal
        decreases waiting.Length()
      {
        SendNext();
      }
    }

    method Resume()
      requires Valid() && WaitsPlain() && rest.Some?
      modifies this`transmittedBytes, this`headroom, this`endQueued, this`rest, this`waitingBytes, unacknowledged,
               messages, messages.socket
      ensures Valid() && WaitsPlain()
      ensures Model() == old(Model()).WithoutRest().Resume(old(rest).value.frame, old(rest).value.offset)
    {
      var Rest(frame, offset) := rest.value;
      rest := None;
      waitingBytes := waitingBytes - (|frame| - offset);
      assert Model() == old(Model()).WithoutRest();
      if cutsData {
        Cut(frame, offset);
      } else {
        Pass(frame);
      }
    }

    /** As the task ends, what it gathered goes. */
    method EndTask()
      requires Valid()
      modifies this`endQueued, messages, messages.socket
      ensures Valid() && Model() == old(Model()).EndTask()
    {
      endQueued := false;
      if messages.gathered {
        messages.Flush();
      }
    }

    method Flush()
      requires Valid()
      modifies messages, messages.socket
      ensures Valid() && Model() == old(Model()).Flush()
    {
      messages.Flush();
    }

    /** Takes the rates' new sizes. */
    method SetSizes(to: Sizes)
      requires Valid()
      modifies this`sizes
      ensures Valid() && Model() == old(Model()).(sizes := to)
    {
      sizes := to;
    }

    // ── What the peer says it took ──

    /** Takes a PIECES_ACK's count; false if it acknowledges nothing sent, or more than was. */
    method Acknowledged(bits: nat) returns (valid: bool)
      requires Valid()
      modifies this`acknowledgedBytes, this`probe, unacknowledged, announcedEnds, announcements
      ensures Valid() && valid == old(Model()).Acknowledge(bits).Some?
      ensures Model() == if valid then old(Model()).Acknowledge(bits).value else old(Model())
    {
      var newly := (bits - acknowledgedBytes) % SEQ_SPAN;
      if newly < 1 || newly > transmittedBytes - acknowledgedBytes {
        return false;
      }
      AcknowledgeThrough(acknowledgedBytes + newly);
      return true;
    }

    /** Drops every entry the ack reaches. */
    method AcknowledgeThrough(to: nat)
      requires Valid()
      modifies this`acknowledgedBytes, this`probe, unacknowledged, announcedEnds, announcements
      ensures Valid()
      ensures Model() == old(Model()).(acknowledged := to, unacknowledged := Past(old(unacknowledged.Contents()), to),
                                       announcedEnds := Past(old(announcedEnds.Contents()), to),
                                       announcements := EndingPast(old(announcements.Contents()), to),
                                       probe := if old(probe).Some? && to >= old(probe).value.end then None
                                                else old(probe))
    {
      acknowledgedBytes := to;
      DropEnds();
      DropAnnouncements();
      DropSent();
      SettleProbe();
    }

    /** The probe is over once its end is acknowledged. */
    method SettleProbe()
      requires Valid()
      modifies this`probe
      ensures Valid()
      ensures Model() == old(Model()).(probe := if old(probe).Some? && acknowledgedBytes >= old(probe).value.end then None
                                                else old(probe))
    {
      if probe.Some? && acknowledgedBytes >= probe.value.end {
        probe := None;
      }
    }

    method DropReached(ends: Fifo<nat>)
      requires Valid() && (ends == announcedEnds || ends == unacknowledged)
      modifies ends
      ensures Valid() && ends.Contents() == Past(old(ends.Contents()), acknowledgedBytes)
    {
      ghost var goal := Past(ends.Contents(), acknowledgedBytes);
      while ends.Length() > 0 && ends.Peek().value <= acknowledgedBytes
        invariant Valid() && Past(ends.Contents(), acknowledgedBytes) == goal
        decreases ends.Length()
      {
        var _ := ends.Shift();
      }
    }

    method DropEnds()
      requires Valid()
      modifies announcedEnds
      ensures Valid()
      ensures Model() == old(Model()).(announcedEnds := Past(old(announcedEnds.Contents()), acknowledgedBytes))
    {
      DropReached(announcedEnds);
    }

    method DropSent()
      requires Valid()
      modifies unacknowledged
      ensures Valid()
      ensures Model() == old(Model()).(unacknowledged := Past(old(unacknowledged.Contents()), acknowledgedBytes))
    {
      DropReached(unacknowledged);
    }

    method DropAnnouncements()
      requires Valid()
      modifies announcements
      ensures Valid()
      ensures Model() == old(Model()).(announcements := EndingPast(old(announcements.Contents()), acknowledgedBytes))
      ensures announcements.Contents() == EndingPast(old(announcements.Contents()), acknowledgedBytes)
    {
      ghost var goal := EndingPast(announcements.Contents(), acknowledgedBytes);
      while announcements.Length() > 0 && announcements.Peek().value.end <= acknowledgedBytes
        invariant Valid() && EndingPast(announcements.Contents(), acknowledgedBytes) == goal
        decreases announcements.Length()
      {
        var _ := announcements.Shift();
      }
    }

    /** Takes a PING's or PONG's count of the bytes taken; false if more than was sent. */
    method Heartbeat(bits: nat) returns (valid: bool)
      requires Valid()
      modifies this`heartbeatBytes
      ensures Valid() && valid == old(Model()).Heartbeat(bits).Some?
      ensures Model() == if valid then old(Model()).Heartbeat(bits).value else old(Model())
    {
      var ahead := (bits - acknowledgedBytes) % SEQ_SPAN;
      var took := acknowledgedBytes + if ahead < SEQ_SPAN / 2 then ahead else ahead - SEQ_SPAN;
      if took > transmittedBytes {
        return false;
      }
      heartbeatBytes := took;
      return true;
    }
  }
}
