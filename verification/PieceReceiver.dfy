/** Receives one WebSocket's frames, a frame in pieces in one buffer that grows as they arrive. */
module PieceReceivers {
  import opened Bytes
  import opened Tags
  import opened Frames
  import opened Pieces

  /** The frame with one more piece, handed on if it is the last. */
  function Joined(r: Receiver, of: nat, piece: seq<byte>): Receiver {
    var p := r.(took := r.took + PIECE_HEADER + |piece|, total := of, part := r.part + piece).Paced(|piece|);
    if |p.part| == of then p.(part := [], delivered := p.delivered + [p.part]) else p
  }

  lemma AddsTo(r: Receiver, of: nat, piece: seq<byte>)
    requires piece != [] && |r.part| + |piece| <= of && (r.part != [] ==> r.total == of)
    ensures r.Add(of, piece) == Ok(Joined(r, of, piece))
  {
  }

  class PieceReceiver {
    /** The frame being put together, and how much of it arrived. */
    var frame: array<byte>
    var received: nat
    var total: nat
    /** How many pieces, after an empty first one, are still to be acknowledged at once. */
    var probing: nat
    var announced: Option<nat>
    var lastAnnounced: nat
    var floorPerS: nat
    var took: nat
    ghost var onPace: bool
    ghost var delivered: seq<seq<byte>>

    /** The buffer holds no more than the frame takes, and nothing between frames. */
    ghost predicate Valid()
      reads this, frame
    {
      received <= frame.Length && (received == 0 ==> frame.Length == 0)
      && (received > 0 ==> received < total && frame.Length <= total)
    }

    ghost function Model(): Receiver
      reads this, frame
      requires Valid()
    {
      Receiver(frame[..received], total, announced, lastAnnounced, floorPerS, took, onPace, delivered)
    }

    constructor ()
      ensures Valid() && fresh(frame) && Model() == NewReceiver() && probing == 0
    {
      frame := new byte[0];
      received, total, probing, announced, lastAnnounced, floorPerS, took := 0, 0, 0, None, 0, 0, 0;
      onPace, delivered := true, [];
    }

    /** Dates a message of `bytes`, if it was announced. */
    method Paced(bytes: nat) returns (wasAnnounced: bool)
      modifies this`announced, this`lastAnnounced, this`onPace
      ensures wasAnnounced == old(announced).Some?
      ensures announced == if old(announced).Some? then Some(old(announced).value + bytes) else None
      ensures lastAnnounced == if old(announced).Some? then bytes else old(lastAnnounced)
      ensures onPace == (old(onPace)
                         && (old(announced).Some? ==> bytes <= AnnouncedNext(old(lastAnnounced), floorPerS)))
    {
      wasAnnounced := announced.Some?;
      if wasAnnounced {
        onPace := onPace && bytes <= AnnouncedNext(lastAnnounced, floorPerS);
        lastAnnounced := bytes;
        announced := Some(announced.value + bytes);
      }
    }

    /** A whole frame arrived. */
    method Arrived(arrival: Frame, alone: bool)
      requires Valid()
      modifies this`took, this`announced, this`lastAnnounced, this`onPace, this`delivered
      ensures Valid() && Model() == old(Model()).Arrived(arrival, alone)
    {
      took := took + if alone then |arrival| else |arrival| + LengthBytes(arrival[0]);
      delivered := delivered + [arrival];
      if alone {
        var _ := Paced(|arrival|);
      }
    }

    /** An ANNOUNCE of 0 bytes opens an announcement, and one naming its bytes closes it. */
    method Announce(bytes: nat, floor: nat) returns (r: Result<()>)
      requires Valid()
      modifies this`took, this`announced, this`floorPerS
      ensures Valid()
      ensures r.Ok? <==> old(Model()).Announce(bytes, floor).Ok?
      ensures r.Ok? ==> Model() == old(Model()).Announce(bytes, floor).value
    {
      took := took + ANNOUNCE_BYTES;
      if announced.None? {
        if bytes != 0 {
          return Violation;
        }
        announced, floorPerS := Some(0), floor;
        return Ok(());
      }
      if bytes != announced.value {
        return Violation;
      }
      announced := None;
      return Ok(());
    }

    /** Makes room for `bytes` more: twice the buffer, or just enough, but never past the frame's total. */
    method Grow(bytes: nat)
      requires received <= frame.Length && received + bytes <= total
      modifies this`frame
      ensures received + bytes <= frame.Length <= Max(total, old(frame).Length) && frame[..received] == old(frame[..received])
      ensures frame == old(frame) || (fresh(frame) && frame.Length <= total)
    {
      if received + bytes > frame.Length {
        var grown := new byte[Min(total, Max(2 * frame.Length, received + bytes))];
        forall k | 0 <= k < received {
          grown[k] := frame[k];
        }
        frame := grown;
      }
    }

    /** Takes a piece; gives the frame once its last one arrived, and whether it is acknowledged at once. */
    method Add(of: nat, piece: seq<byte>) returns (r: Result<Option<seq<byte>>>, acknowledged: bool)
      requires Valid()
      modifies this, frame
      ensures r.Ok? <==> old(Model()).Add(of, piece).Ok?
      ensures r.Ok? ==>
                && Valid() && (frame == old(frame) || fresh(frame))
                && Model() == old(Model()).Add(of, piece).value
                && (r.value.Some? <==> |Model().delivered| > |old(delivered)|)
                && (r.value.Some? ==> Model().delivered == old(delivered) + [r.value.value] && |r.value.value| == of)
                && (acknowledged <==> piece != [] && old(probing) > 0)
                && probing == (if old(received) == 0 && piece == [] then 2
                               else if r.value.Some? || old(probing) == 0 then 0
                               else old(probing) - 1)
    {
      acknowledged := false;
      ghost var was := Model();
      took := took + PIECE_HEADER;
      if received == 0 {
        total := of;
        if |piece| == 0 {
          probing := 2;
          return Ok(None), false;
        }
      }
      if !(of == total && |piece| > 0 && |piece| <= total - received) {
        return Violation, false;
      }
      AddsTo(was, of, piece);
      Grow(|piece|);
      r, acknowledged := Put(of, piece, was);
    }

    method Fill(piece: seq<byte>)
      requires received + |piece| <= frame.Length
      modifies frame
      ensures frame[..received + |piece|] == old(frame[..received]) + piece
    {
      forall k | 0 <= k < |piece| {
        frame[received + k] := piece[k];
      }
    }

    /** The piece joins the frame it makes room for. */
    method Put(of: nat, piece: seq<byte>, ghost was: Receiver) returns (r: Result<Option<seq<byte>>>, acknowledged: bool)
      requires received + |piece| <= frame.Length <= total == of && |piece| > 0
      requires was.part == frame[..received] && was.took + PIECE_HEADER == took && was.delivered == delivered
      requires was.announced == announced && was.lastAnnounced == lastAnnounced && was.floorPerS == floorPerS
      requires was.onPace == onPace && (was.part != [] ==> was.total == of)
      modifies this, frame
      ensures r.Ok? && Valid() && (frame == old(frame) || fresh(frame))
      ensures Model() == Joined(was, of, piece)
      ensures r.value.Some? <==> old(received) + |piece| == of
      ensures delivered == if r.value.Some? then old(delivered) + [r.value.value] else old(delivered)
      ensures r.value.Some? ==> |r.value.value| == of
      ensures acknowledged <==> old(probing) > 0
      ensures probing == if r.value.Some? || old(probing) == 0 then 0 else old(probing) - 1
    {
      Fill(piece);
      received := received + |piece|;
      took := took + |piece|;
      var _ := Paced(|piece|);
      var whole := received == of;
      acknowledged := probing > 0;
      if acknowledged {
        probing := probing - 1;
      }
      if !whole {
        return Ok(None), acknowledged;
      }
      var complete := TakeWhole();
      return Ok(Some(complete)), acknowledged;
    }

    /** Hands on the frame, and holds nothing more of it. */
    method TakeWhole() returns (complete: seq<byte>)
      requires received == frame.Length
      modifies this`frame, this`received, this`probing, this`delivered
      ensures complete == old(frame[..received]) && delivered == old(delivered) + [complete]
      ensures fresh(frame) && frame.Length == 0 && received == 0 && probing == 0
    {
      complete := frame[..];
      delivered := delivered + [complete];
      frame := new byte[0];
      received, probing := 0, 0;
    }
  }
}
