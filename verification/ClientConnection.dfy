/** A page's connection handing its channels' frames to the gate: each seq taken has its frame, and no other does. */
module Connections {
  import opened Bytes
  import opened Tags
  import opened Replays
  import opened Gates
  import opened ChannelTables
  import opened SendGates

  /** `Skipped`: the channel sends nothing more. `Refused`: larger than the server accepts. */
  datatype SendResult = Skipped | Refused | Queued(bytes: nat, out: seq<Buffered>)

  class ClientConnection {
    const gate: SendGate
    const channels: ChannelTable

    /** No frame of a channel still sending waits to be dropped. */
    ghost predicate Valid()
      reads this, gate, gate.waitingForHeadroom, channels
    {
      gate.channels == channels && gate.Valid() && channels.byChannel !! gate.droppedQueues
    }

    constructor (gate: SendGate)
      requires gate.Valid() && gate.channels.byChannel !! gate.droppedQueues
      ensures Valid() && this.gate == gate && channels == gate.channels
    {
      this.gate, channels := gate, gate.channels;
    }

    /** Takes `ix`'s next seq, and its frame at that seq goes to the gate. */
    method Issue(ix: nat, frame: Frame, s: Sending) returns (out: seq<Buffered>)
      requires Valid() && ix in channels.byChannel && Sequenced(frame)
      modifies gate, gate.waitingForHeadroom, channels`records
      ensures Valid()
      ensures Outcome(gate.Value(), channels.records, out)
              == IssueAndSend(old(gate.Value()), old(channels.records), ix, frame, s)
    {
      var replay := channels.records[ix].replay.NextSeq();
      channels.records := channels.records[ix := channels.records[ix].(replay := replay)];
      SendUsed(gate.Value(), channels.records, Buffered(frame, ix, Some(replay.issued)), s.sendsOpen, s.headroom, s.after,
               channels.records.Keys + gate.droppedQueues);
      out := gate.Send(Buffered(frame, ix, Some(replay.issued)), s.sendsOpen, s.headroom, s.after);
    }

    /** Encodes at the next seq and only then takes the seq, so a refused frame uses none. */
    method SendSequenced(ix: nat, frameAt: nat -> Frame, maxFrameBytes: nat, s: Sending) returns (r: SendResult)
      requires Valid() && forall n :: Sequenced(frameAt(n))
      modifies gate, gate.waitingForHeadroom, channels`records
      ensures Valid()
      ensures var was := old(channels.records);
              if ix !in old(channels.byChannel) then
                r == Skipped && gate.Value() == old(gate.Value()) && channels.records == was
              else
                var frame := frameAt(was[ix].replay.issued + 1);
                if |frame| > maxFrameBytes then
                  r == Refused && gate.Value() == old(gate.Value()) && channels.records == was
                else
                  && r.Queued? && r.bytes == |frame|
                  && Outcome(gate.Value(), channels.records, r.out) == IssueAndSend(old(gate.Value()), was, ix, frame, s)
    {
      if ix !in channels.byChannel {
        return Skipped;
      }
      var frame := frameAt(channels.records[ix].replay.issued + 1);
      if |frame| > maxFrameBytes {
        return Refused;
      }
      var out := Issue(ix, frame, s);
      r := Queued(|frame|, out);
    }

    /** An answer too large is sent as an error at the same seq: its seq is never left without a frame. */
    method SendAckRes(ix: nat, answerAt: nat -> Frame, errorAt: nat -> Frame, maxFrameBytes: nat, s: Sending)
      returns (r: SendResult)
      requires Valid() && forall n :: Sequenced(answerAt(n)) && Sequenced(errorAt(n))
      modifies gate, gate.waitingForHeadroom, channels`records
      ensures Valid()
      ensures var was := old(channels.records);
              if ix !in old(channels.byChannel) then
                r == Skipped && gate.Value() == old(gate.Value()) && channels.records == was
              else
                var n := was[ix].replay.issued + 1;
                var frame := if |answerAt(n)| > maxFrameBytes then errorAt(n) else answerAt(n);
                && r.Queued? && r.bytes == |frame|
                && Outcome(gate.Value(), channels.records, r.out) == IssueAndSend(old(gate.Value()), was, ix, frame, s)
    {
      if ix !in channels.byChannel {
        return Skipped;
      }
      var n := channels.records[ix].replay.issued + 1;
      var frame := answerAt(n);
      if |frame| > maxFrameBytes {
        frame := errorAt(n);
      }
      var out := Issue(ix, frame, s);
      r := Queued(|frame|, out);
    }

    /** An ABORT, CLOSE or CLOSE_ACK, sequenced like data. */
    method SendClosing(ix: nat, frameAt: nat -> Frame, s: Sending) returns (r: SendResult)
      requires Valid() && forall n :: IsClosingTag(frameAt(n)[0])
      modifies gate, gate.waitingForHeadroom, channels`records
      ensures Valid()
      ensures var was := old(channels.records);
              if ix !in old(channels.byChannel) then
                r == Skipped && gate.Value() == old(gate.Value()) && channels.records == was
              else
                var frame := frameAt(was[ix].replay.issued + 1);
                && r.Queued? && r.bytes == |frame|
                && Outcome(gate.Value(), channels.records, r.out) == IssueAndSend(old(gate.Value()), was, ix, frame, s)
    {
      if ix !in channels.byChannel {
        return Skipped;
      }
      var frame := frameAt(channels.records[ix].replay.issued + 1);
      var out := Issue(ix, frame, s);
      r := Queued(|frame|, out);
    }
  }
}
