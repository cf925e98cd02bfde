/** What one end of a WebSocket takes of the other's messages, as values: whole frames, frames put back together from
    pieces, and the announcements some go behind. */
module Pieces {
  import opened Bytes
  import opened Tags
  import opened Frames

  /** A receiver acknowledges a frame over this size. */
  const ACK_OVER: nat := 16384

  /** A probe's first piece, and the second. */
  const PROBE_FIRST: nat := 64
  const PROBE_PAIR: nat := 2048

  const ANNOUNCED_MIN: nat := 8192

  /** What a PIECE and an ANNOUNCE add to what they carry. */
  const PIECE_HEADER: nat := HEADER + 4
  const ANNOUNCE_BYTES: nat := HEADER + 4

  predicate Acknowledges(bytes: nat) {
    bytes > ACK_OVER
  }

  /** The most bytes the announced message after one of `last` bytes may carry. */
  function AnnouncedNext(last: nat, floorPerS: nat): nat {
    if last == 0 && floorPerS == 0 then PROBE_FIRST else Max(2 * last, ANNOUNCED_MIN)
  }

  /** `part`: what arrived of a frame of `total` bytes not yet whole. `announced`: the bytes that followed the open
      announcement. `onPace`: no announced message was larger than it might be. `delivered`: the frames taken so far. */
  datatype Receiver = Receiver(part: seq<byte>, total: nat, announced: Option<nat>, lastAnnounced: nat,
                               floorPerS: nat, took: nat, onPace: bool, delivered: seq<seq<byte>>)
  {
    /** A message of `bytes`, if it was announced. */
    function Paced(bytes: nat): Receiver {
      if announced.None? then this
      else this.(announced := Some(announced.value + bytes), lastAnnounced := bytes,
                 onPace := onPace && bytes <= AnnouncedNext(lastAnnounced, floorPerS))
    }

    /** A whole frame, which dates its message if it arrives alone, or rides ahead of the message's last one. */
    function Arrived(frame: Frame, alone: bool): Receiver {
      var r := this.(took := took + |frame| + (if alone then 0 else LengthBytes(frame[0])),
                     delivered := delivered + [frame]);
      if alone then r.Paced(|frame|) else r
    }

    function Announce(bytes: nat, floor: nat): Result<Receiver> {
      var r := this.(took := took + ANNOUNCE_BYTES);
      if announced.None? then
        if bytes == 0 then Ok(r.(announced := Some(0), floorPerS := floor)) else Violation
      else if bytes == announced.value then Ok(r.(announced := None))
      else Violation
    }

    /** A piece, the first of its frame where nothing of one is held. */
    function Add(of: nat, piece: seq<byte>): Result<Receiver> {
      var r := this.(took := took + PIECE_HEADER, total := if part == [] then of else total);
      if part == [] && piece == [] then Ok(r)
      else if of != r.total || piece == [] || |piece| > r.total - |part| then Violation
      else
        var p := r.(took := r.took + |piece|, part := part + piece).Paced(|piece|);
        Ok(if |p.part| == of then p.(part := [], delivered := p.delivered + [p.part]) else p)
    }

    /** Each frame goes where its tag sends it. */
    function Take(frame: Frame, alone: bool): Result<Receiver> {
      if frame[0] == PIECE || frame[0] == ANNOUNCE then
        match Decode(frame)
        case Ok(Piece(of, piece)) => Add(of, piece)
        case Ok(Announce(bytes, floor)) => Announce(bytes, floor)
        case _ => Violation
      else Ok(Arrived(frame, alone))
    }

    /** The last frame arrives alone, the others ride. */
    function TakeFrames(frames: seq<seq<byte>>): Result<Receiver>
      decreases |frames|
    {
      if frames == [] then Ok(this)
      else if |frames[0]| < HEADER then Violation
      else
        match Take(frames[0], |frames| == 1)
        case Ok(r) => r.TakeFrames(frames[1..])
        case Violation => Violation
    }

    function TakeMessage(message: seq<byte>): Result<Receiver> {
      match MessageFrames(message)
      case Ok(frames) => TakeFrames(frames)
      case Violation => Violation
    }

    function TakeMessages(messages: seq<seq<byte>>): Result<Receiver>
      decreases |messages|
    {
      if messages == [] then Ok(this)
      else
        match TakeMessage(messages[0])
        case Ok(r) => r.TakeMessages(messages[1..])
        case Violation => Violation
    }
  }

  function NewReceiver(): Receiver {
    Receiver([], 0, None, 0, 0, 0, true, [])
  }

  /** A frame the sender is given, or one it makes for a peer: not in pieces, nor an announcement. */
  predicate Plain(frame: Frame) {
    WellFormed(frame) && frame[0] != PIECE && frame[0] != ANNOUNCE
  }

  predicate AllPlain(frames: seq<Frame>) {
    forall i | 0 <= i < |frames| :: Plain(frames[i])
  }

  function PieceFrame(total: nat, piece: seq<byte>): (frame: Frame)
    ensures |frame| == PIECE_HEADER + |piece| && frame[0] == PIECE
  {
    Encode(Piece(total, piece))
  }

  function AnnounceFrame(bytes: nat, floorPerS: nat): (frame: Frame)
    ensures |frame| == ANNOUNCE_BYTES && frame[0] == ANNOUNCE
  {
    Encode(Announce(bytes, floorPerS))
  }

  lemma Decodes(f: Fields)
    requires f.Piece? || f.Announce?
    requires f.Piece? ==> f.total < SEQ_SPAN
    requires f.Announce? ==> f.bytes < SEQ_SPAN && f.floorPerS < SEQ_SPAN
    ensures Decode(Encode(f)) == Ok(f)
  {
    PiecesRoundTrip(f);
    assert OnWire(f) == f;
  }

  lemma TakesPiece(r: Receiver, total: nat, piece: seq<byte>)
    requires total < SEQ_SPAN
    ensures r.Take(PieceFrame(total, piece), true) == r.Add(total, piece)
  {
    Decodes(Piece(total, piece));
  }

  lemma TakesAnnounce(r: Receiver, bytes: nat, floorPerS: nat)
    requires bytes < SEQ_SPAN && floorPerS < SEQ_SPAN
    ensures r.Take(AnnounceFrame(bytes, floorPerS), true) == r.Announce(bytes, floorPerS)
  {
    var frame := AnnounceFrame(bytes, floorPerS);
    assert Decode(frame) == Ok(Fields.Announce(bytes, floorPerS)) by { Decodes(Fields.Announce(bytes, floorPerS)); }
    TakesAnnounced(r, frame, bytes, floorPerS);
  }

  lemma TakesAnnounced(r: Receiver, frame: Frame, bytes: nat, floorPerS: nat)
    requires frame[0] == ANNOUNCE && Decode(frame) == Ok(Fields.Announce(bytes, floorPerS))
    ensures r.Take(frame, true) == r.Announce(bytes, floorPerS)
  {
  }

  // ── Messages of plain frames ──

  /** `frames` as taken riding, all but the last. */
  function RodeBytes(frames: seq<Frame>): nat {
    if frames == [] then 0 else |frames[0]| + LengthBytes(frames[0][0]) + RodeBytes(frames[1..])
  }

  /** Plain frames ahead of a last one are counted with their LENGTHs and delivered in order, and the last taken next. */
  lemma {:induction false} TakesRiders(r: Receiver, riders: seq<Frame>, last: Frame)
    requires AllPlain(riders)
    ensures r.TakeFrames(riders + [last])
            == r.(took := r.took + RodeBytes(riders), delivered := r.delivered + riders).TakeFrames([last])
    decreases |riders|
  {
    if riders == [] {
      assert riders + [last] == [last] && r.delivered + [] == r.delivered;
    } else {
      assert Plain(riders[0]);
      assert (riders + [last])[1..] == riders[1..] + [last];
      var s := r.Arrived(riders[0], false);
      assert forall i | 0 <= i < |riders[1..]| :: riders[1..][i] == riders[i + 1];
      TakesRiders(s, riders[1..], last);
      assert s.delivered + riders[1..] == r.delivered + riders;
    }
  }

  lemma {:induction false} RodeBytesEnd(riders: seq<Frame>, last: Frame)
    ensures MessageBytes(riders + [last]) == RodeBytes(riders) + |last|
  {
    if riders == [] {
      assert riders + [last] == [last];
    } else {
      assert (riders + [last])[1..] == riders[1..] + [last];
      RodeBytesEnd(riders[1..], last);
    }
  }

  lemma TakesOne(r: Receiver, frame: Frame)
    ensures r.TakeFrames([frame]) == r.Take(frame, true)
  {
    assert [frame][1..] == [];
    var t := r.Take(frame, true);
    if t.Ok? {
      assert t.value.TakeFrames([]) == t;
    }
  }
}
