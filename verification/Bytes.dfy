/** Bytes, frames and the few sequence facts every part of the wire protocol shares. */
module Bytes {

  type byte = x: int | 0 <= x < 256

  /** Every frame starts with a 7-byte header: a tag, a u16 index and a u32 seq. */
  const HEADER: nat := 7

  /** A u32 tells this many values apart. */
  const SEQ_SPAN: nat := 0x1_0000_0000

  type Frame = f: seq<byte> | |f| >= HEADER witness [0, 0, 0, 0, 0, 0, 0]

  datatype Option<+T> = None | Some(value: T)

  /** `Violation`: the peer broke the protocol, which ends the wire. */
  datatype Result<+T> = Ok(value: T) | Violation

  function Min(a: int, b: int): int { if a < b then a else b }

  function Max(a: int, b: int): int { if a > b then a else b }

  /** The bytes of `frames` in all. */
  function SumBytes(frames: seq<Frame>): nat {
    if frames == [] then 0 else |frames[0]| + SumBytes(frames[1..])
  }

  lemma {:induction false} SumBytesAppend(a: seq<Frame>, b: seq<Frame>)
    ensures SumBytes(a + b) == SumBytes(a) + SumBytes(b)
  {
    if a == [] {
      assert a + b == b;
    } else {
      assert (a + b)[1..] == a[1..] + b;
      SumBytesAppend(a[1..], b);
    }
  }

  /** The frames one after another. */
  function Concat(frames: seq<seq<byte>>): seq<byte> {
    if frames == [] then [] else frames[0] + Concat(frames[1..])
  }

  lemma {:induction false} ConcatAppend(a: seq<seq<byte>>, b: seq<seq<byte>>)
    ensures Concat(a + b) == Concat(a) + Concat(b)
  {
    if a == [] {
      assert a + b == b;
    } else {
      assert (a + b)[1..] == a[1..] + b;
      ConcatAppend(a[1..], b);
    }
  }

  function Sum(sizes: seq<nat>): nat {
    if sizes == [] then 0 else sizes[0] + Sum(sizes[1..])
  }

  lemma {:induction false} SumAppend(a: seq<nat>, b: seq<nat>)
    ensures Sum(a + b) == Sum(a) + Sum(b)
  {
    if a == [] {
      assert a + b == b;
    } else {
      assert (a + b)[1..] == a[1..] + b;
      SumAppend(a[1..], b);
    }
  }
}
