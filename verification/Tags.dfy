/** The tags, whose ranges classify frames: below 0x10 wire-level control, 0x10 to 0x2f data, from 0x30 per-channel
    control. */
module Tags {
  import opened Bytes

  const PING: byte := 0x01
  const PONG: byte := 0x02
  const FIN: byte := 0x03
  const STREAM_REQUEST_OPEN_ACK: byte := 0x06
  const PIECE: byte := 0x0a
  const PIECES_ACK: byte := 0x0b
  const ANNOUNCE: byte := 0x0c
  const LENGTH: byte := 0x0d
  const TEXT: byte := 0x10
  const BINARY: byte := 0x11
  const TEXT_ACK_REQ: byte := 0x12
  const BINARY_ACK_REQ: byte := 0x13
  const ACK_RES: byte := 0x14
  const PUBLISH: byte := 0x15
  const PUBLISH_BINARY: byte := 0x17
  const PUBLISH_BINARY_ACK_REQ: byte := 0x18
  const CLOSE: byte := 0x30
  const CLOSE_ACK: byte := 0x31
  const ABORT: byte := 0x32
  const ERROR: byte := 0x33
  const WINDOW: byte := 0x34
  const BROADCAST_SUB: byte := 0x35
  const BROADCAST_UNSUB: byte := 0x36
  const BDP_PING: byte := 0x37
  const BDP_PING_ACK: byte := 0x38
  const MSG_WINDOW: byte := 0x39
  const ATTACH_RESULT: byte := 0x3b

  const DATA_TAG_MIN: byte := 0x10
  const CHANNEL_CTRL_TAG_MIN: byte := 0x30

  predicate IsClosingTag(tag: byte) {
    tag == CLOSE || tag == CLOSE_ACK || tag == ABORT || tag == ERROR
  }

  /** Replayed after a lost wire: the data frames, and the four that end a channel. */
  predicate IsSequencedTag(tag: byte) {
    DATA_TAG_MIN <= tag < CHANNEL_CTRL_TAG_MIN || IsClosingTag(tag)
  }

  /** A frame of `tag` may pass the data waiting ahead of it. */
  predicate PassesData(tag: byte) {
    !IsSequencedTag(tag) && tag != FIN
  }

  /** The replay queue a sequenced frame waits in. */
  datatype ReplayKind = Text | Binary | Closing

  function ReplayKindOf(tag: byte): ReplayKind
    requires IsSequencedTag(tag)
  {
    if IsClosingTag(tag) then Closing
    else if tag == BINARY || tag == BINARY_ACK_REQ || tag == PUBLISH_BINARY || tag == PUBLISH_BINARY_ACK_REQ then Binary
    else Text
  }

  /** Flow control counts it: a message, not an ack request or its answer. */
  predicate CountsCredit(tag: byte) {
    tag == TEXT || tag == BINARY || tag == PUBLISH || tag == PUBLISH_BINARY
  }

  /** A frame the replay stores. */
  predicate Sequenced(frame: Frame) {
    IsSequencedTag(frame[0])
  }

  /** What credit counts is always sequenced data that a byte budget bounds, and nothing sequenced passes data. */
  lemma CountedIsBudgeted(tag: byte)
    ensures CountsCredit(tag) ==> IsSequencedTag(tag) && ReplayKindOf(tag) != Closing && !PassesData(tag)
  {
  }
}
