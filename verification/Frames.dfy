/** Several frames in one WebSocket message, and the encoding of each frame. */
module Frames {
  import opened Bytes
  import opened Tags
  import opened Header

  // ── Messages of several frames ──

  /** The bytes of every frame of `tag`, 0 where they vary. */
  function FixedBytes(tag: byte): nat {
    if tag == FIN || tag == STREAM_REQUEST_OPEN_ACK || tag == CLOSE_ACK then HEADER
    else if tag == ERROR || tag == BROADCAST_SUB || tag == BROADCAST_UNSUB then HEADER + 1
    else if tag == ANNOUNCE || tag == CLOSE || tag == BDP_PING || tag == MSG_WINDOW then HEADER + 4
    else if tag == ATTACH_RESULT then HEADER + 5
    else if tag == WINDOW then HEADER + 8
    else if tag == PIECES_ACK || tag == BDP_PING_ACK then HEADER + 12
    else 0
  }

  /** The bytes of the LENGTH a frame of `tag` needs ahead of it once another follows it in its message. */
  function LengthBytes(tag: byte): nat {
    if FixedBytes(tag) == 0 then HEADER else 0
  }

  /** What the encoders produce: no LENGTH of its own, and the size its tag fixes. A LENGTH names a u32 of bytes. */
  predicate WellFormed(frame: Frame) {
    && frame[0] != LENGTH
    && (FixedBytes(frame[0]) != 0 ==> |frame| == FixedBytes(frame[0]))
    && |frame| < SEQ_SPAN
  }

  predicate AllWellFormed(frames: seq<Frame>) {
    frames == [] || (WellFormed(frames[0]) && AllWellFormed(frames[1..]))
  }

  /** `frame` as it goes ahead of another: after its LENGTH, if its tag doesn't fix its bytes. */
  function Riding(frame: Frame): seq<byte> {
    (if LengthBytes(frame[0]) > 0 then HeaderBytes(LENGTH, 0, |frame|) else []) + frame
  }

  function Message(frames: seq<Frame>): seq<byte>
    requires frames != []
  {
    if |frames| == 1 then frames[0] else Riding(frames[0]) + Message(frames[1..])
  }

  /** The bytes of `frames`, with the LENGTH each but the last needs. */
  function MessageBytes(frames: seq<Frame>): nat
    requires frames != []
  {
    if |frames| == 1 then |frames[0]| else LengthBytes(frames[0][0]) + |frames[0]| + MessageBytes(frames[1..])
  }

  lemma {:induction false} MessageHasItsBytes(frames: seq<Frame>)
    requires frames != []
    ensures |Message(frames)| == MessageBytes(frames)
    ensures |frames| >= 2 ==> MessageBytes(frames) >= LengthBytes(frames[0][0]) + |frames[0]| + HEADER
  {
    if |frames| > 1 {
      MessageHasItsBytes(frames[1..]);
    }
  }

  /** Appending a frame makes the last one ride. */
  lemma {:induction false} MessageAppend(frames: seq<Frame>, frame: Frame)
    requires frames != []
    ensures MessageBytes(frames + [frame]) ==
            MessageBytes(frames) + LengthBytes(frames[|frames| - 1][0]) + |frame|
  {
    var all := frames + [frame];
    if |frames| == 1 {
      assert all[1..] == [frame];
    } else {
      assert all[1..] == frames[1..] + [frame];
      MessageAppend(frames[1..], frame);
    }
  }

  function RidingAll(frames: seq<Frame>): seq<byte> {
    if frames == [] then [] else Riding(frames[0]) + RidingAll(frames[1..])
  }

  lemma {:induction false} RidingAllAppend(frames: seq<Frame>, frame: Frame)
    ensures RidingAll(frames + [frame]) == RidingAll(frames) + Riding(frame)
  {
    var all := frames + [frame];
    if frames == [] {
      assert all == [frame] && all[1..] == [];
    } else {
      assert all[1..] == frames[1..] + [frame];
      RidingAllAppend(frames[1..], frame);
    }
  }

  lemma {:induction false} MessageEnds(frames: seq<Frame>, frame: Frame)
    ensures Message(frames + [frame]) == RidingAll(frames) + frame
  {
    var all := frames + [frame];
    if frames == [] {
      assert all == [frame];
    } else {
      assert all[1..] == frames[1..] + [frame];
      MessageEnds(frames[1..], frame);
    }
  }

  /** `buffer.set(bytes, at)`. */
  method Put(buffer: array<byte>, bytes: seq<byte>, at: nat)
    requires at + |bytes| <= buffer.Length
    modifies buffer
    ensures buffer[..] == old(buffer[..at]) + bytes + old(buffer[at + |bytes|..])
  {
    forall k | 0 <= k < |bytes| {
      buffer[at + k] := bytes[k];
    }
  }

  /** Writes `frames` in one buffer of the bytes the caller counted for them. */
  method EncodeMessage(frames: seq<Frame>, bytes: nat) returns (message: array<byte>)
    requires frames != [] && bytes == MessageBytes(frames)
    ensures fresh(message) && message[..] == Message(frames)
  {
    message := new byte[bytes];
    var last := |frames| - 1;
    var at := 0;
    for i := 0 to last
      invariant at == |RidingAll(frames[..i])| <= bytes && message[..at] == RidingAll(frames[..i])
    {
      RoomLeft(frames, i);
      at := PutRiding(message, frames[i], at);
      RidingAllAppend(frames[..i], frames[i]);
      assert frames[..i + 1] == frames[..i] + [frames[i]];
    }
    RoomLeft(frames, last);
    assert frames == frames[..last] + [frames[last]];
    MessageEnds(frames[..last], frames[last]);
    Put(message, frames[last], at);
  }

  method PutRiding(buffer: array<byte>, frame: Frame, start: nat) returns (at: nat)
    requires start + |Riding(frame)| <= buffer.Length
    modifies buffer
    ensures at == start + |Riding(frame)| && buffer[..at] == old(buffer[..start]) + Riding(frame)
  {
    at := start;
    if LengthBytes(frame[0]) > 0 {
      WriteHeader(buffer, at, LENGTH, 0, |frame|);
      at := at + HEADER;
    }
    Put(buffer, frame, at);
    at := at + |frame|;
  }

  lemma {:induction false} RoomLeft(frames: seq<Frame>, i: nat)
    requires i < |frames|
    ensures |RidingAll(frames[..i])| + (if i < |frames| - 1 then |Riding(frames[i])| else |frames[i]|)
            <= MessageBytes(frames)
    ensures i == |frames| - 1 ==> |RidingAll(frames[..i])| + |frames[i]| == MessageBytes(frames)
  {
    if i > 0 {
      assert frames[..i][1..] == frames[1..][..i - 1];
      RoomLeft(frames[1..], i - 1);
    }
  }

  /** A message holds one frame, by its first bytes. */
  predicate IsOneFrame(message: seq<byte>) {
    if message == [] then true
    else message[0] != LENGTH && (FixedBytes(message[0]) == 0 || |message| <= FixedBytes(message[0]))
  }

  function Ahead(frame: seq<byte>, rest: Result<seq<seq<byte>>>): Result<seq<seq<byte>>> {
    if rest.Ok? then Ok([frame] + rest.value) else Violation
  }

  /** What stands at `at`: the message's last frame, one of `bytes` from `from` with others after it, or a LENGTH of no
      frame. */
  datatype Next = Last | Take(from: nat, bytes: nat) | Bad

  function NextFrame(message: seq<byte>, at: nat): (next: Next)
    requires at <= |message|
    ensures next.Take? ==> at <= next.from && next.bytes >= HEADER && next.from + next.bytes < |message|
  {
    var left := |message| - at;
    var bytes := if left == 0 then 0 else FixedBytes(message[at]);
    if left > 0 && message[at] == LENGTH then
      if left <= HEADER then Bad
      else
        var named := ReadU32(message, at + 3);
        if FixedBytes(message[at + HEADER]) == 0 && named >= HEADER && left - HEADER > named
        then Take(at + HEADER, named)
        else Bad
    else if bytes == 0 || left <= bytes then Last
    else Take(at, bytes)
  }

  /** The frames of `message` from `at` on. */
  function FramesFrom(message: seq<byte>, at: nat): Result<seq<seq<byte>>>
    requires at <= |message|
    decreases |message| - at
  {
    match NextFrame(message, at)
    case Bad => Violation
    case Last => Ok([message[at..]])
    case Take(from, bytes) => Ahead(message[from..from + bytes], FramesFrom(message, from + bytes))
  }

  /** The frames `message` splits into. */
  function MessageFrames(message: seq<byte>): Result<seq<seq<byte>>> {
    FramesFrom(message, 0)
  }

  /** `frames`, then those of `rest`. */
  function After(frames: seq<seq<byte>>, rest: Result<seq<seq<byte>>>): (r: Result<seq<seq<byte>>>)
    ensures frames == [] ==> r == rest
  {
    assert rest.Ok? && frames == [] ==> frames + rest.value == rest.value;
    if rest.Ok? then Ok(frames + rest.value) else Violation
  }

  lemma AfterAhead(frames: seq<seq<byte>>, frame: seq<byte>, rest: Result<seq<seq<byte>>>)
    ensures After(frames, Ahead(frame, rest)) == After(frames + [frame], rest)
  {
    if rest.Ok? {
      assert frames + ([frame] + rest.value) == frames + [frame] + rest.value;
    }
  }

  /** The frames taken one by one from an advancing offset. */
  method SplitMessage(message: seq<byte>) returns (r: Result<seq<seq<byte>>>)
    ensures r == MessageFrames(message)
  {
    var end := |message|;
    var at := 0;
    var frames: seq<seq<byte>> := [];
    while true
      invariant 0 <= at <= end
      invariant MessageFrames(message) == After(frames, FramesFrom(message, at))
      decreases end - at
    {
      var bytes := if at == end then 0 else FixedBytes(message[at]);
      ghost var start := at;
      if at < end && message[at] == LENGTH {
        if end - at <= HEADER {
          return Violation;
        }
        bytes := ReadU32(message, at + 3);
        at := at + HEADER;
        if !(FixedBytes(message[at]) == 0 && bytes >= HEADER && end - at > bytes) {
          return Violation;
        }
      } else if bytes == 0 || end - at <= bytes {
        return Ok(frames + [message[at..]]);
      }
      assert NextFrame(message, start) == Take(at, bytes);
      AfterAhead(frames, message[at..at + bytes], FramesFrom(message, at + bytes));
      frames := frames + [message[at..at + bytes]];
      at := at + bytes;
    }
  }

  lemma LengthReads(message: seq<byte>, at: nat, n: nat)
    requires n < SEQ_SPAN && at + HEADER <= |message| && message[at..at + HEADER] == HeaderBytes(LENGTH, 0, n)
    ensures message[at] == LENGTH && ReadU32(message, at + 3) == n
  {
    var head := HeaderBytes(LENGTH, 0, n);
    assert forall k | 0 <= k < HEADER :: message[at + k] == head[k];
    assert head == ([LENGTH] + U16(0)) + U32(n) + [];
    U32RoundTrip([LENGTH] + U16(0), n, []);
  }

  lemma Halves(message: seq<byte>, at: nat, a: seq<byte>, b: seq<byte>)
    requires at <= |message| && message[at..] == a + b
    ensures at + |a| + |b| == |message|
    ensures message[at..at + |a|] == a && message[at + |a|..] == b
  {
    var s := message[at..];
    assert |s| == |message| - at;
    assert s[..|a|] == message[at..at + |a|] && s[|a|..] == message[at + |a|..];
  }

  /** A frame riding ahead of others is taken whole, wherever it stands. */
  lemma TakesRiding(message: seq<byte>, at: nat, frame: Frame)
    requires WellFormed(frame) && at + |Riding(frame)| < |message|
    requires message[at..at + |Riding(frame)|] == Riding(frame)
    ensures NextFrame(message, at) == Take(at + LengthBytes(frame[0]), |frame|)
    ensures message[at + LengthBytes(frame[0])..at + |Riding(frame)|] == frame
  {
    if LengthBytes(frame[0]) > 0 {
      TakesLength(message, at, frame);
    } else {
      assert Riding(frame) == frame;
      assert message[at] == message[at..at + |frame|][0];
    }
  }

  lemma TakesLength(message: seq<byte>, at: nat, frame: Frame)
    requires WellFormed(frame) && LengthBytes(frame[0]) > 0 && at + HEADER + |frame| < |message|
    requires message[at..at + HEADER + |frame|] == HeaderBytes(LENGTH, 0, |frame|) + frame
    ensures NextFrame(message, at) == Take(at + HEADER, |frame|)
    ensures message[at + HEADER..at + HEADER + |frame|] == frame
  {
    var from := at + HEADER;
    var both := message[at..from + |frame|];
    assert message[at..from] == both[..HEADER] == HeaderBytes(LENGTH, 0, |frame|);
    assert message[from..from + |frame|] == both[HEADER..] == frame;
    assert message[from] == message[from..from + |frame|][0];
    LengthReads(message, at, |frame|);
  }

  /** `frames` stand one after another in `message` from `at`, each but the last riding. */
  predicate Stand(message: seq<byte>, at: nat, frames: seq<Frame>)
    decreases |frames|
  {
    if frames == [] || at > |message| then false
    else if |frames| == 1 then message[at..] == frames[0]
    else
      var next := at + |Riding(frames[0])|;
      next < |message| && message[at..next] == Riding(frames[0]) && Stand(message, next, frames[1..])
  }

  lemma {:induction false} MessageStands(message: seq<byte>, at: nat, frames: seq<Frame>)
    requires frames != [] && at <= |message| && message[at..] == Message(frames)
    ensures Stand(message, at, frames)
    decreases |frames|
  {
    if |frames| > 1 {
      var after := Message(frames[1..]);
      MessageHasItsBytes(frames[1..]);
      Halves(message, at, Riding(frames[0]), after);
      MessageStands(message, at + |Riding(frames[0])|, frames[1..]);
    }
  }

  lemma StandingLast(message: seq<byte>, at: nat, frames: seq<Frame>)
    requires |frames| == 1 && Stand(message, at, frames) && WellFormed(frames[0])
    ensures FramesFrom(message, at) == Ok(frames)
  {
    assert message[at] == frames[0][0];
    assert frames == [frames[0]];
  }

  lemma StandingAhead(message: seq<byte>, at: nat, frames: seq<Frame>)
    requires |frames| > 1 && Stand(message, at, frames) && WellFormed(frames[0])
    requires FramesFrom(message, at + |Riding(frames[0])|) == Ok(frames[1..])
    ensures FramesFrom(message, at) == Ok(frames)
  {
    TakesRiding(message, at, frames[0]);
    assert frames == [frames[0]] + frames[1..];
  }

  lemma {:induction false} StandingSplit(message: seq<byte>, at: nat, frames: seq<Frame>)
    requires Stand(message, at, frames) && AllWellFormed(frames)
    ensures FramesFrom(message, at) == Ok(frames)
    decreases |frames|
  {
    if |frames| == 1 {
      StandingLast(message, at, frames);
    } else {
      StandingSplit(message, at + |Riding(frames[0])|, frames[1..]);
      StandingAhead(message, at, frames);
    }
  }

  /** Splitting gives back exactly the frames put together, and the message's first bytes say whether it holds one. */
  lemma MessageRoundTrip(frames: seq<Frame>)
    requires frames != [] && AllWellFormed(frames)
    ensures MessageFrames(Message(frames)) == Ok(frames)
    ensures IsOneFrame(Message(frames)) <==> |frames| == 1
  {
    MessageStands(Message(frames), 0, frames);
    StandingSplit(Message(frames), 0, frames);
    MessageHasItsBytes(frames);
  }

  /** Conservation on any input, well-formed or not: the frames taken account for every byte of the message, less one
      7-byte LENGTH ahead of each that had one, which the last never has. */
  lemma {:induction false} SplitConserves(message: seq<byte>, at: nat) returns (lengths: nat)
    requires at <= |message| && FramesFrom(message, at).Ok?
    ensures var frames := FramesFrom(message, at).value;
            lengths < |frames| && |message| - at == |Concat(frames)| + HEADER * lengths
    decreases |message| - at
  {
    var frames := FramesFrom(message, at).value;
    match NextFrame(message, at)
    case Last =>
      lengths := 0;
      assert Concat(frames) == frames[0] + Concat([]);
    case Take(from, bytes) =>
      assert frames[1..] == FramesFrom(message, from + bytes).value && |frames[0]| == bytes;
      assert |Concat(frames)| == |frames[0]| + |Concat(frames[1..])|;
      lengths := SplitConserves(message, from + bytes);
      lengths := if from == at then lengths else lengths + 1;
  }

  // ── Frames ──

  datatype PingEntry = PingEntry(ix: nat, lastSeq: nat)

  datatype PongEntry = PongEntry(ix: nat, lastSeq: Option<nat>)

  datatype AckStatus = OK | ERR | ABORTED | SHIELD

  /** A frame's fields; `Data` and `Json` payloads are opaque. `None` in a BDP_PING_ACK stands for `Infinity`, and its
      path round trip is in µs. */
  datatype Fields =
    | Data(tag: byte, ix: nat, seqNo: nat, payload: seq<byte>)
    | AckRes(ix: nat, seqNo: nat, ackedSeq: nat, status: AckStatus, result: seq<byte>)
    | Ping(ended: seq<PingEntry>, took: nat)
    | Pong(held: seq<PongEntry>, took: nat)
    | Bare(tag: byte)
    | Json(tag: byte, json: seq<byte>)
    | Piece(total: nat, piece: seq<byte>)
    | PiecesAck(bytes: nat, heldMs: nat, spanUs: nat)
    | Announce(bytes: nat, floorPerS: nat)
    | Close(ix: nat, seqNo: nat, timeoutMs: nat)
    | CloseAck(ix: nat, seqNo: nat)
    | Error(ix: nat, seqNo: nat, reason: byte)
    | Window(ix: nat, bytes: nat, lastSeq: nat)
    | MsgWindow(ix: nat, count: nat)
    | Subscribe(on: bool, ix: nat, binary: bool)
    | BdpPing(ix: nat, probe: nat)
    | BdpPingAck(ix: nat, probe: nat, backlog: Option<nat>, pathRttUs: Option<nat>)
    | AttachResult(ix: nat, attached: Option<nat>)

  /** The data tags whose payload is a message, and ABORT, whose payload is its value. */
  predicate CarriesPayload(tag: byte) {
    (TEXT <= tag <= PUBLISH_BINARY_ACK_REQ && tag != ACK_RES) || tag == ABORT
  }

  /** RECONCILE, RECONCILED, PREPARE, READY and BARRIER. */
  predicate CarriesJson(tag: byte) {
    tag == 0x04 || tag == 0x05 || 0x07 <= tag <= 0x09
  }

  predicate IsBare(tag: byte) {
    tag == FIN || tag == STREAM_REQUEST_OPEN_ACK
  }

  /** A frame some encoder makes. */
  predicate Encodable(f: Fields) {
    match f
    case Data(tag, _, _, _) => CarriesPayload(tag)
    case Bare(tag) => IsBare(tag)
    case Json(tag, _) => CarriesJson(tag)
    case _ => true
  }

  const ALL_ONES: nat := 0xffff_ffff

  function StatusByte(status: AckStatus): byte {
    match status case OK => 0 case ERR => 1 case ABORTED => 2 case SHIELD => 3
  }

  function Flag(b: bool): byte { if b then 1 else 0 }

  function PingEntries(ended: seq<PingEntry>): seq<byte> {
    if ended == [] then [] else U16(ended[0].ix) + U32(ended[0].lastSeq) + PingEntries(ended[1..])
  }

  function PongEntries(held: seq<PongEntry>): seq<byte> {
    if held == [] then []
    else
      U16(held[0].ix) + [Flag(held[0].lastSeq.Some?)]
      + U32(if held[0].lastSeq.Some? then held[0].lastSeq.value else 0) + PongEntries(held[1..])
  }

  /** All ones stands for a backlog of `Infinity`. */
  function BacklogField(backlog: Option<nat>): nat {
    if backlog.None? then ALL_ONES else Min(ALL_ONES, backlog.value)
  }

  /** 0 stands for a path round trip of `Infinity`. */
  function PathRttField(us: Option<nat>): nat {
    if us.None? then 0 else Min(ALL_ONES, Max(1, us.value))
  }

  function Encode(f: Fields): seq<byte> {
    match f
    case Data(tag, ix, seqNo, payload) => HeaderBytes(tag, ix, seqNo) + payload
    case AckRes(ix, seqNo, ackedSeq, status, result) =>
      HeaderBytes(ACK_RES, ix, seqNo) + U64(ackedSeq) + [StatusByte(status)] + result
    case Ping(ended, took) => HeaderBytes(PING, 0, took) + PingEntries(ended)
    case Pong(held, took) => HeaderBytes(PONG, 0, took) + PongEntries(held)
    case Bare(tag) => HeaderBytes(tag, 0, 0)
    case Json(tag, json) => HeaderBytes(tag, 0, 0) + json
    case Piece(total, piece) => HeaderBytes(PIECE, 0, 0) + U32(total) + piece
    case PiecesAck(bytes, heldMs, spanUs) => HeaderBytes(PIECES_ACK, 0, 0) + U32(bytes) + U32(heldMs) + U32(spanUs)
    case Announce(bytes, floorPerS) => HeaderBytes(ANNOUNCE, 0, floorPerS) + U32(bytes)
    case Close(ix, seqNo, timeoutMs) => HeaderBytes(CLOSE, ix, seqNo) + U32(timeoutMs)
    case CloseAck(ix, seqNo) => HeaderBytes(CLOSE_ACK, ix, seqNo)
    case Error(ix, seqNo, reason) => HeaderBytes(ERROR, ix, seqNo) + [reason]
    case Window(ix, bytes, lastSeq) => HeaderBytes(WINDOW, ix, 0) + U32(bytes) + U32(lastSeq)
    case MsgWindow(ix, count) => HeaderBytes(MSG_WINDOW, ix, 0) + U32(count)
    case Subscribe(on, ix, binary) =>
      HeaderBytes(if on then BROADCAST_SUB else BROADCAST_UNSUB, ix, 0) + [Flag(binary)]
    case BdpPing(ix, probe) => HeaderBytes(BDP_PING, ix, 0) + U32(probe)
    case BdpPingAck(ix, probe, backlog, pathRttUs) =>
      HeaderBytes(BDP_PING_ACK, ix, 0) + U32(probe)
      + U32(BacklogField(backlog)) + U32(PathRttField(pathRttUs))
    case AttachResult(ix, attached) =>
      HeaderBytes(ATTACH_RESULT, ix, 0) + [Flag(attached.Some?)] + U32(if attached.Some? then attached.value else 0)
  }

  function DecodePings(payload: seq<byte>): seq<PingEntry>
    requires |payload| % 6 == 0
  {
    if payload == [] then []
    else [PingEntry(ReadU16(payload, 0), ReadU32(payload, 2))] + DecodePings(payload[6..])
  }

  function DecodePongs(payload: seq<byte>): seq<PongEntry>
    requires |payload| % 7 == 0
  {
    if payload == [] then []
    else
      [PongEntry(ReadU16(payload, 0), if payload[2] == 1 then Some(ReadU32(payload, 3)) else None)]
      + DecodePongs(payload[7..])
  }

  /** Reads `frame`; a malformed one breaks the protocol. */
  function Decode(frame: seq<byte>): Result<Fields> {
    if |frame| < HEADER then Violation
    else DecodeBody(frame[0], ReadU16(frame, 1), ReadU32(frame, 3), frame[HEADER..])
  }

  function DecodeBody(tag: byte, ix: nat, seqNo: nat, payload: seq<byte>): Result<Fields> {
    if CarriesPayload(tag) then Ok(Data(tag, ix, seqNo, payload))
    else if tag == ACK_RES then
      if |payload| < 9 || payload[8] > 3 then Violation
      else
        var status := if payload[8] == 0 then OK else if payload[8] == 1 then ERR
                      else if payload[8] == 2 then ABORTED else SHIELD;
        Ok(AckRes(ix, seqNo, ReadU64(payload, 0), status, payload[9..]))
    else if tag == PING then if |payload| % 6 != 0 then Violation else Ok(Ping(DecodePings(payload), seqNo))
    else if tag == PONG then if |payload| % 7 != 0 then Violation else Ok(Pong(DecodePongs(payload), seqNo))
    else if IsBare(tag) then Ok(Bare(tag))
    else if CarriesJson(tag) then Ok(Json(tag, payload))
    else if tag == PIECE then if |payload| < 4 then Violation else Ok(Piece(ReadU32(payload, 0), payload[4..]))
    else if tag == PIECES_ACK then
      if |payload| < 12 then Violation
      else Ok(PiecesAck(ReadU32(payload, 0), ReadU32(payload, 4), ReadU32(payload, 8)))
    else if tag == ANNOUNCE then
      if |payload| < 4 then Violation else Ok(Announce(ReadU32(payload, 0), seqNo))
    else DecodeControl(tag, ix, seqNo, payload)
  }

  /** The per-channel control frames. */
  function DecodeControl(tag: byte, ix: nat, seqNo: nat, payload: seq<byte>): Result<Fields> {
    if tag == CLOSE then if |payload| < 4 then Violation else Ok(Close(ix, seqNo, ReadU32(payload, 0)))
    else if tag == CLOSE_ACK then Ok(CloseAck(ix, seqNo))
    else if tag == ERROR then if |payload| < 1 then Violation else Ok(Error(ix, seqNo, payload[0]))
    else if tag == WINDOW then
      if |payload| < 8 then Violation else Ok(Window(ix, ReadU32(payload, 0), ReadU32(payload, 4)))
    else if tag == MSG_WINDOW then if |payload| < 4 then Violation else Ok(MsgWindow(ix, ReadU32(payload, 0)))
    else if tag == BROADCAST_SUB || tag == BROADCAST_UNSUB then
      if |payload| < 1 then Violation else Ok(Subscribe(tag == BROADCAST_SUB, ix, payload[0] == 1))
    else if tag == BDP_PING then if |payload| < 4 then Violation else Ok(BdpPing(ix, ReadU32(payload, 0)))
    else if tag == BDP_PING_ACK then
      if |payload| < 12 then Violation
      else
        var backlog, pathRtt := ReadU32(payload, 4), ReadU32(payload, 8);
        Ok(BdpPingAck(ix, ReadU32(payload, 0), if backlog == ALL_ONES then None else Some(backlog),
                      if pathRtt == 0 then None else Some(pathRtt)))
    else if tag == ATTACH_RESULT then
      if |payload| < 5 then Violation
      else Ok(AttachResult(ix, if payload[0] == 1 then Some(ReadU32(payload, 1)) else None))
    else Violation
  }

  // ── What survives the wire ──

  function Low(n: nat): nat { n % SEQ_SPAN }

  function LowPing(e: PingEntry): PingEntry { PingEntry(e.ix % 65536, Low(e.lastSeq)) }

  function LowPong(e: PongEntry): PongEntry {
    PongEntry(e.ix % 65536, if e.lastSeq.Some? then Some(Low(e.lastSeq.value)) else None)
  }

  function OnWireBacklog(backlog: Option<nat>): Option<nat> {
    if backlog.Some? && backlog.value < ALL_ONES then backlog else None
  }

  function OnWireRtt(us: Option<nat>): Option<nat> {
    if us.Some? then Some(Min(ALL_ONES, Max(1, us.value))) else None
  }

  /** `f` with each field cut to its width on the wire: u16 indexes, u32 seqs and counts, a whole u64 `ackedSeq`. */
  function OnWire(f: Fields): Fields {
    match f
    case Data(tag, ix, seqNo, payload) => Data(tag, ix % 65536, Low(seqNo), payload)
    case AckRes(ix, seqNo, ackedSeq, status, result) =>
      AckRes(ix % 65536, Low(seqNo), ackedSeq % (SEQ_SPAN * SEQ_SPAN), status, result)
    case Ping(ended, took) => Ping(seq(|ended|, i requires 0 <= i < |ended| => LowPing(ended[i])), Low(took))
    case Pong(held, took) => Pong(seq(|held|, i requires 0 <= i < |held| => LowPong(held[i])), Low(took))
    case Bare(_) => f
    case Json(_, _) => f
    case Piece(total, piece) => Piece(Low(total), piece)
    case PiecesAck(bytes, heldMs, spanUs) => PiecesAck(Low(bytes), Low(heldMs), Low(spanUs))
    case Announce(bytes, floorPerS) => Announce(Low(bytes), Low(floorPerS))
    case Close(ix, seqNo, timeoutMs) => Close(ix % 65536, Low(seqNo), Low(timeoutMs))
    case CloseAck(ix, seqNo) => CloseAck(ix % 65536, Low(seqNo))
    case Error(ix, seqNo, reason) => Error(ix % 65536, Low(seqNo), reason)
    case Window(ix, bytes, lastSeq) => Window(ix % 65536, Low(bytes), Low(lastSeq))
    case MsgWindow(ix, count) => MsgWindow(ix % 65536, Low(count))
    case Subscribe(on, ix, binary) => Subscribe(on, ix % 65536, binary)
    case BdpPing(ix, probe) => BdpPing(ix % 65536, Low(probe))
    case BdpPingAck(ix, probe, backlog, pathRttUs) =>
      BdpPingAck(ix % 65536, Low(probe),
                 OnWireBacklog(backlog), OnWireRtt(pathRttUs))
    case AttachResult(ix, attached) =>
      AttachResult(ix % 65536, if attached.Some? then Some(Low(attached.value)) else None)
  }

  lemma HeaderReads(tag: byte, ix: nat, seqNo: nat, payload: seq<byte>)
    ensures Decode(HeaderBytes(tag, ix, seqNo) + payload) == DecodeBody(tag, ix % 65536, Low(seqNo), payload)
  {
    var frame := HeaderBytes(tag, ix, seqNo) + payload;
    assert frame == [tag] + U16(ix) + (U32(seqNo) + payload);
    assert frame == ([tag] + U16(ix)) + U32(seqNo) + payload;
    U16RoundTrip([tag], ix, U32(seqNo) + payload);
    U32RoundTrip([tag] + U16(ix), seqNo, payload);
    assert frame[HEADER..] == payload;
  }

  lemma {:induction false} PingsRoundTrip(ended: seq<PingEntry>)
    ensures |PingEntries(ended)| == 6 * |ended|
    ensures DecodePings(PingEntries(ended)) == seq(|ended|, i requires 0 <= i < |ended| => LowPing(ended[i]))
  {
    if ended != [] {
      var e, rest := ended[0], PingEntries(ended[1..]);
      var all := PingEntries(ended);
      PingsRoundTrip(ended[1..]);
      assert all == [] + U16(e.ix) + (U32(e.lastSeq) + rest);
      U16RoundTrip([], e.ix, U32(e.lastSeq) + rest);
      U32RoundTrip(U16(e.ix), e.lastSeq, rest);
      assert all[6..] == rest;
    }
  }

  lemma {:induction false} PongsRoundTrip(held: seq<PongEntry>)
    ensures |PongEntries(held)| == 7 * |held|
    ensures DecodePongs(PongEntries(held)) == seq(|held|, i requires 0 <= i < |held| => LowPong(held[i]))
  {
    if held != [] {
      var e, rest := held[0], PongEntries(held[1..]);
      var all := PongEntries(held);
      var n := if e.lastSeq.Some? then e.lastSeq.value else 0;
      var flag := [Flag(e.lastSeq.Some?)];
      PongsRoundTrip(held[1..]);
      assert all == [] + U16(e.ix) + (flag + U32(n) + rest);
      assert all == (U16(e.ix) + flag) + U32(n) + rest;
      U16RoundTrip([], e.ix, flag + U32(n) + rest);
      U32RoundTrip(U16(e.ix) + flag, n, rest);
      assert all[7..] == rest;
    }
  }

  /** Three u32 payload fields read back. */
  lemma U32sRoundTrip(a: nat, b: nat, c: nat)
    ensures var payload := U32(a) + U32(b) + U32(c);
            ReadU32(payload, 0) == Low(a) && ReadU32(payload, 4) == Low(b) && ReadU32(payload, 8) == Low(c)
  {
    var payload := U32(a) + U32(b) + U32(c);
    assert payload == [] + U32(a) + (U32(b) + U32(c)) && payload == (U32(a) + U32(b)) + U32(c) + [];
    U32RoundTrip([], a, U32(b) + U32(c));
    U32RoundTrip(U32(a), b, U32(c));
    U32RoundTrip(U32(a) + U32(b), c, []);
  }

  lemma FirstU32(n: nat, rest: seq<byte>)
    ensures ReadU32(U32(n) + rest, 0) == Low(n) && (U32(n) + rest)[4..] == rest
  {
    assert U32(n) + rest == [] + U32(n) + rest;
    U32RoundTrip([], n, rest);
  }

  /** Every encodable frame reads back with each field as wide as its place on the wire, nothing else lost. */
  lemma FrameRoundTrip(f: Fields)
    requires Encodable(f)
    ensures Decode(Encode(f)) == Ok(OnWire(f))
  {
    if f.AckRes? {
      AckResRoundTrip(f);
    } else if f.Ping? {
      PingRoundTrip(f);
    } else if f.Pong? {
      PongRoundTrip(f);
    } else if f.Data? || f.Bare? || f.Json? {
      OpaqueRoundTrip(f);
    } else if f.Piece? || f.PiecesAck? || f.Announce? {
      PiecesRoundTrip(f);
    } else if f.Close? {
      OneU32RoundTrip(CLOSE, f.ix, f.seqNo, f.timeoutMs);
    } else if f.MsgWindow? {
      OneU32RoundTrip(MSG_WINDOW, f.ix, 0, f.count);
    } else if f.BdpPing? {
      OneU32RoundTrip(BDP_PING, f.ix, 0, f.probe);
    } else if f.CloseAck? {
      CloseAckRoundTrip(f);
    } else if f.Window? {
      WindowRoundTrip(f);
    } else if f.BdpPingAck? {
      BdpPingAckRoundTrip(f);
    } else {
      FlagRoundTrip(f);
    }
  }

  lemma PingRoundTrip(f: Fields)
    requires f.Ping?
    ensures Decode(Encode(f)) == Ok(OnWire(f))
  {
    HeaderReads(PING, 0, f.took, PingEntries(f.ended));
    PingsRoundTrip(f.ended);
  }

  lemma PongRoundTrip(f: Fields)
    requires f.Pong?
    ensures Decode(Encode(f)) == Ok(OnWire(f))
  {
    HeaderReads(PONG, 0, f.took, PongEntries(f.held));
    PongsRoundTrip(f.held);
  }

  lemma OpaqueRoundTrip(f: Fields)
    requires Encodable(f) && (f.Data? || f.Bare? || f.Json?)
    ensures Decode(Encode(f)) == Ok(OnWire(f))
  {
    match f
    case Data(tag, ix, seqNo, payload) => HeaderReads(tag, ix, seqNo, payload);
    case Bare(tag) =>
      HeaderReads(tag, 0, 0, []);
      assert Encode(f) == HeaderBytes(tag, 0, 0) + [];
    case Json(tag, json) => HeaderReads(tag, 0, 0, json);
  }

  lemma PiecesRoundTrip(f: Fields)
    requires f.Piece? || f.PiecesAck? || f.Announce?
    ensures Decode(Encode(f)) == Ok(OnWire(f))
  {
    match f
    case Piece(total, piece) =>
      HeaderReads(PIECE, 0, 0, U32(total) + piece);
      assert Encode(f) == HeaderBytes(PIECE, 0, 0) + (U32(total) + piece);
      FirstU32(total, piece);
    case PiecesAck(bytes, heldMs, spanUs) =>
      HeaderReads(PIECES_ACK, 0, 0, U32(bytes) + U32(heldMs) + U32(spanUs));
      assert Encode(f) == HeaderBytes(PIECES_ACK, 0, 0) + (U32(bytes) + U32(heldMs) + U32(spanUs));
      U32sRoundTrip(bytes, heldMs, spanUs);
    case Announce(bytes, floorPerS) =>
      HeaderReads(ANNOUNCE, 0, floorPerS, U32(bytes));
      assert U32(bytes) + [] == U32(bytes);
      FirstU32(bytes, []);
  }

  lemma AckResRoundTrip(f: Fields)
    requires f.AckRes?
    ensures Decode(Encode(f)) == Ok(OnWire(f))
  {
    var tail := [StatusByte(f.status)] + f.result;
    var payload := U64(f.ackedSeq) + tail;
    HeaderReads(ACK_RES, f.ix, f.seqNo, payload);
    assert Encode(f) == HeaderBytes(ACK_RES, f.ix, f.seqNo) + payload;
    assert payload == [] + U64(f.ackedSeq) + tail;
    U64RoundTrip([], f.ackedSeq, tail);
    assert payload[8] == StatusByte(f.status);
    assert payload[9..] == f.result;
  }

  lemma ReadsOneU32(ix: nat, seqNo: nat, field: seq<byte>)
    requires |field| == 4
    ensures DecodeBody(CLOSE, ix, seqNo, field) == Ok(Close(ix, seqNo, ReadU32(field, 0)))
    ensures DecodeBody(MSG_WINDOW, ix, seqNo, field) == Ok(MsgWindow(ix, ReadU32(field, 0)))
    ensures DecodeBody(BDP_PING, ix, seqNo, field) == Ok(BdpPing(ix, ReadU32(field, 0)))
  {
  }

  /** The control frames of one u32. */
  lemma OneU32RoundTrip(tag: byte, ix: nat, seqNo: nat, n: nat)
    requires tag == CLOSE || tag == MSG_WINDOW || tag == BDP_PING
    ensures var read := Decode(HeaderBytes(tag, ix, seqNo) + U32(n));
            && (tag == CLOSE ==> read == Ok(Close(ix % 65536, Low(seqNo), Low(n))))
            && (tag == MSG_WINDOW ==> read == Ok(MsgWindow(ix % 65536, Low(n))))
            && (tag == BDP_PING ==> read == Ok(BdpPing(ix % 65536, Low(n))))
  {
    HeaderReads(tag, ix, seqNo, U32(n));
    ReadsOneU32(ix % 65536, Low(seqNo), U32(n));
    FirstU32(n, []);
    assert U32(n) + [] == U32(n);
  }

  lemma CloseAckRoundTrip(f: Fields)
    requires f.CloseAck?
    ensures Decode(Encode(f)) == Ok(OnWire(f))
  {
    HeaderReads(CLOSE_ACK, f.ix, f.seqNo, []);
    assert Encode(f) == HeaderBytes(CLOSE_ACK, f.ix, f.seqNo) + [];
  }

  lemma WindowRoundTrip(f: Fields)
    requires f.Window?
    ensures Decode(Encode(f)) == Ok(OnWire(f))
  {
    var payload := U32(f.bytes) + U32(f.lastSeq);
    HeaderReads(WINDOW, f.ix, 0, payload);
    assert Encode(f) == HeaderBytes(WINDOW, f.ix, 0) + payload;
    FirstU32(f.bytes, U32(f.lastSeq));
    assert payload == U32(f.bytes) + U32(f.lastSeq) + [];
    U32RoundTrip(U32(f.bytes), f.lastSeq, []);
  }

  lemma BdpPingAckRoundTrip(f: Fields)
    requires f.BdpPingAck?
    ensures Decode(Encode(f)) == Ok(OnWire(f))
  {
    var b, r := BacklogField(f.backlog), PathRttField(f.pathRttUs);
    var payload := U32(f.probe) + U32(b) + U32(r);
    HeaderReads(BDP_PING_ACK, f.ix, 0, payload);
    assert Encode(f) == HeaderBytes(BDP_PING_ACK, f.ix, 0) + payload;
    ReadsBdpPingAck(f.ix % 65536, f.probe, b, r);
    SentinelsRead(f.backlog, f.pathRttUs);
  }

  lemma SentinelsRead(backlog: Option<nat>, us: Option<nat>)
    ensures OnWireBacklog(backlog) ==
            var b := Low(BacklogField(backlog)); if b == ALL_ONES then None else Some(b)
    ensures OnWireRtt(us) == var r := Low(PathRttField(us)); if r == 0 then None else Some(r)
  {
  }

  lemma ReadsBdpPingAck(ix: nat, probe: nat, b: nat, r: nat)
    ensures DecodeBody(BDP_PING_ACK, ix, 0, U32(probe) + U32(b) + U32(r)) ==
            Ok(BdpPingAck(ix, Low(probe), if Low(b) == ALL_ONES then None else Some(Low(b)),
                          if Low(r) == 0 then None else Some(Low(r))))
  {
    U32sRoundTrip(probe, b, r);
  }

  lemma FlagRoundTrip(f: Fields)
    requires f.Error? || f.Subscribe? || f.AttachResult?
    ensures Decode(Encode(f)) == Ok(OnWire(f))
  {
    match f
    case Error(ix, s, reason) => HeaderReads(ERROR, ix, s, [reason]);
    case Subscribe(on, ix, binary) =>
      HeaderReads(if on then BROADCAST_SUB else BROADCAST_UNSUB, ix, 0, [Flag(binary)]);
    case AttachResult(ix, attached) =>
      var n := if attached.Some? then attached.value else 0;
      var payload := [Flag(attached.Some?)] + U32(n);
      HeaderReads(ATTACH_RESULT, ix, 0, payload);
      assert Encode(f) == HeaderBytes(ATTACH_RESULT, ix, 0) + payload;
      assert payload == [Flag(attached.Some?)] + U32(n) + [];
      U32RoundTrip([Flag(attached.Some?)], n, []);
  }

  /** The encoders' fixed sizes are the ones a message is split by: each control frame is well-formed as it is. */
  lemma EncodedIsWellFormed(f: Fields)
    requires Encodable(f) && |Encode(f)| < SEQ_SPAN
    ensures |Encode(f)| >= HEADER && WellFormed(Encode(f))
  {
  }
}
