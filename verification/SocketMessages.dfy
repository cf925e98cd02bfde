/** The frames a task gathered and the frames carried, handed to the socket in one message. */
module SocketMessagesOf {
  import opened Bytes
  import opened Tags
  import opened Frames
  import opened Pieces
  import opened PieceSteps
  import S = PieceSafety

  /** A socket, as the messages it was handed. */
  class Socket {
    var taken: seq<seq<byte>>

    constructor ()
      ensures taken == []
    {
      taken := [];
    }

    method Send(message: seq<byte>)
      modifies this
      ensures taken == old(taken) + [message]
    {
      taken := taken + [message];
    }
  }

  class SocketMessages {
    const socket: Socket
    var bytes: nat
    var gathered: bool
    var atOnce: bool
    var lengthAhead: nat
    /** The largest message handed. */
    var largest: nat
    var frames: seq<Frame>
    /** The frames of each message handed. */
    ghost var out: seq<seq<Frame>>

    ghost predicate Valid()
      reads this, socket
    {
      && S.MessagesKept(Value()) && (forall i | 0 <= i < |out| :: out[i] != [])
      && socket.taken == S.Encoded(out) && forall i | 0 <= i < |out| :: |Message(out[i])| <= largest
    }

    function Value(): Messages
      reads this
    {
      Messages(frames, bytes, gathered, atOnce, lengthAhead)
    }

    constructor (socket: Socket)
      requires socket.taken == []
      ensures Valid() && this.socket == socket && Value() == NO_MESSAGES && out == []
    {
      this.socket := socket;
      bytes, gathered, atOnce, lengthAhead, largest, frames, out := 0, false, false, 0, 0, [], [];
    }

    /** Adds `frame`, which the task sent. */
    method Gather(frame: Frame)
      requires Valid() && Plain(frame)
      modifies this
      ensures Valid() && Value() == old(Value()).Gather(frame) && out == old(out)
    {
      S.MessageJoined(Value(), frame);
      gathered := true;
      if !Sequenced(frame) {
        atOnce := true;
      }
      AddFrame(frame);
    }

    method AddFrame(frame: Frame)
      requires AllPlain(frames) && Plain(frame)
      modifies this`frames, this`bytes, this`lengthAhead
      ensures frames == old(frames) + [frame] && bytes == old(bytes) + old(lengthAhead) + |frame|
      ensures lengthAhead == LengthBytes(frame[0])
    {
      frames := frames + [frame];
      bytes := bytes + lengthAhead + |frame|;
      lengthAhead := LengthBytes(frame[0]);
    }

    /** Adds a carried acknowledgement, after the LENGTH the frame before it now needs. */
    method Add(frame: Frame)
      requires Valid() && S.IsAck(frame)
      modifies this`frames, this`bytes, this`lengthAhead
      ensures Valid() && Value() == old(Value()).Add(frame)
    {
      assert Plain(frame);
      S.MessageJoined(Value(), frame);
      AddFrame(frame);
    }

    /** Hands the socket `message`, with the carried frames riding ahead of it: their tags fix their bytes, so it needs no
        LENGTH ahead of it. */
    method Hand(message: Frame)
      requires Valid() && lengthAhead == 0
      modifies this, socket
      ensures Valid() && Value() == NO_MESSAGES && out == old(out) + [old(frames) + [message]]
    {
      S.MessageJoined(Value(), message);
      frames := frames + [message];
      bytes := bytes + |message|;
      SendFrames();
    }

    /** Hands the socket what it holds, in one message. */
    method Flush()
      requires Valid()
      modifies this, socket
      ensures Valid() && out == (if old(frames) == [] then old(out) else old(out) + [old(frames)])
      ensures Value() == if old(frames) == [] then old(Value()) else NO_MESSAGES
    {
      if |frames| > 0 {
        SendFrames();
      }
    }

    /** The message goes as the bytes counted for its frames. */
    method SendFrames()
      requires frames != [] && bytes == MessageBytes(frames)
      requires (forall i | 0 <= i < |out| :: out[i] != []) && socket.taken == S.Encoded(out)
      requires forall i | 0 <= i < |out| :: |Message(out[i])| <= largest
      modifies this, socket
      ensures Valid() && Value() == NO_MESSAGES && out == old(out) + [old(frames)]
    {
      var message: seq<byte> := frames[0];
      if |frames| > 1 {
        var buffer := EncodeMessage(frames, bytes);
        message := buffer[..];
      }
      assert message == Message(frames);
      if |message| > largest {
        largest := |message|;
      }
      socket.Send(message);
      out := out + [frames];
      frames, bytes, lengthAhead, gathered, atOnce := [], 0, 0, false, false;
    }
  }
}
