/** Reads a request body by byte counts: where its chunks end changes nothing of what is read. */
module BodyReaders {
  import opened Bytes

  datatype Read = Full(bytes: seq<byte>) | Ended | Truncated | Oversize

  /** A big-endian u32. */
  function DecodeU32(b: seq<byte>): nat
    requires |b| == 4
  {
    b[0] as int * 0x100_0000 + b[1] as int * 0x1_0000 + b[2] as int * 0x100 + b[3]
  }

  /** What a read of `n` bytes gives of what is left, and leaves. */
  function ReadOf(left: seq<byte>, n: nat): (Read, seq<byte>) {
    if n <= |left| then (Full(left[..n]), left[n..]) else (Truncated, [])
  }

  /** A length-prefixed chunk of at most `max` bytes; `Ended` where nothing is left. */
  function ChunkOf(left: seq<byte>, max: nat): (Read, seq<byte>) {
    if left == [] then (Ended, [])
    else
      var (prefix, rest) := ReadOf(left, 4);
      if !prefix.Full? then (prefix, rest)
      else if DecodeU32(prefix.bytes) > max then (Oversize, rest)
      else ReadOf(rest, DecodeU32(prefix.bytes))
  }

  lemma ConcatOne(chunk: seq<byte>)
    ensures Concat([chunk]) == chunk
  {
    assert [chunk][1..] == [] && chunk + [] == chunk;
  }

  lemma ConcatLast(parts: seq<seq<byte>>, chunk: seq<byte>)
    ensures Concat(parts + [chunk]) == Concat(parts) + chunk
  {
    ConcatAppend(parts, [chunk]);
    ConcatOne(chunk);
  }

  /** The bytes of the files before `index` not read yet. */
  function SkippedBytes(sizes: map<nat, nat>, next: nat, index: nat): nat
    requires next <= index && forall i | next <= i < index :: i in sizes
    decreases index - next
  {
    if next == index then 0 else sizes[next] + SkippedBytes(sizes, next + 1, index)
  }

  lemma TakesFirst(chunk: seq<byte>, unread: seq<byte>, n: nat)
    requires n <= |chunk|
    ensures chunk + unread == chunk[..n] + (chunk[n..] + unread)
    ensures n == |chunk| ==> chunk[n..] == []
  {
  }

  lemma ReadsMore(left: seq<byte>, bytes: seq<byte>, part: seq<byte>, now: seq<byte>)
    requires left == bytes + (part + now)
    ensures left == (bytes + part) + now
  {
  }

  lemma ReadsAll(left: seq<byte>, bytes: seq<byte>, now: seq<byte>)
    requires left == bytes + now
    ensures ReadOf(left, |bytes|) == (Full(bytes), now)
  {
  }

  lemma ReadsLess(left: seq<byte>, bytes: seq<byte>, size: nat)
    requires left == bytes + [] && |bytes| < size
    ensures ReadOf(left, size).0 == Truncated && |left| < size
  {
  }

  lemma DropsTwice(left: seq<byte>, a: nat, b: nat)
    requires a <= |left| && b <= |left| - a
    ensures left[a..][b..] == left[a + b..]
  {
  }

  class BodyReader {
    /** The chunks the source has yet to yield. */
    var source: seq<seq<byte>>
    var buffer: seq<byte>
    var disconnected: bool
    var fileSizes: map<nat, nat>
    var nextFileIndex: nat

    /** What the source has yet to yield. */
    function Unread(): seq<byte>
      reads this
    {
      if disconnected then [] else Concat(source)
    }

    /** What is left of the body. */
    function Left(): seq<byte>
      reads this
    {
      buffer + Unread()
    }

    constructor (source: seq<seq<byte>>)
      ensures Left() == Concat(source) && nextFileIndex == 0 && fileSizes == map[]
    {
      this.source, buffer, disconnected, fileSizes, nextFileIndex := source, [], false, map[], 0;
    }

    /** One chunk of the source, `None` once it ended. */
    method PullChunk() returns (chunk: Option<seq<byte>>)
      modifies this`source, this`disconnected
      ensures chunk.None? <==> old(disconnected) || old(source) == []
      ensures chunk.None? ==> old(Unread()) == [] && Unread() == [] && disconnected
      ensures chunk.Some? ==> old(Unread()) == chunk.value + Unread() && |source| < |old(source)| && !disconnected
    {
      if disconnected || source == [] {
        disconnected := true;
        return None;
      }
      chunk := Some(source[0]);
      source := source[1..];
    }

    /** Up to `max` bytes of the buffer, `None` if it is empty. */
    method TakeBuffered(max: nat) returns (taken: Option<seq<byte>>)
      modifies this`buffer
      ensures taken.None? ==> buffer == [] && old(buffer) == []
      ensures taken.Some? ==> old(buffer) != [] && taken.value == old(buffer)[..Min(|old(buffer)|, max)]
                              && buffer == old(buffer)[Min(|old(buffer)|, max)..]
    {
      if buffer == [] {
        return None;
      }
      var take := Min(|buffer|, max);
      taken := Some(buffer[..take]);
      buffer := buffer[take..];
    }

    /** Pulls till the buffer holds `n` bytes, in parts joined once. */
    method Fill(n: nat) returns (filled: bool)
      modifies this`source, this`buffer, this`disconnected
      ensures filled <==> n <= |old(Left())|
      ensures filled ==> Left() == old(Left()) && |buffer| >= n
      ensures !filled ==> disconnected && buffer == old(buffer)
    {
      ghost var left := Left();
      var parts, length := [buffer], |buffer|;
      ConcatOne(buffer);
      while length < n
        invariant length == |Concat(parts)| && buffer == old(buffer)
        invariant left == Concat(parts) + Unread()
        decreases |source|
      {
        var chunk := PullChunk();
        if chunk.None? {
          ReadsLess(left, Concat(parts), n);
          return false;
        }
        ReadsMore(left, Concat(parts), chunk.value, Unread());
        ConcatLast(parts, chunk.value);
        parts := parts + [chunk.value];
        length := length + |chunk.value|;
      }
      buffer := Concat(parts);
      return true;
    }

    /** Exactly `n` bytes, or `Truncated` if the body ends first. */
    method ReadExact(n: nat) returns (r: Read)
      modifies this`source, this`buffer, this`disconnected
      ensures r == ReadOf(old(Left()), n).0
      ensures r.Full? ==> Left() == ReadOf(old(Left()), n).1
    {
      ghost var left := Left();
      var filled := Fill(n);
      if !filled {
        return Truncated;
      }
      assert buffer[..n] == left[..n] && buffer[n..] + Unread() == left[n..];
      r := Full(buffer[..n]);
      buffer := buffer[n..];
    }

    /** Exactly `n` bytes, or `Ended` if nothing is left at all. */
    method ReadExactOrNull(n: nat) returns (r: Read)
      modifies this`source, this`buffer, this`disconnected
      ensures r == if old(Left()) == [] then Ended else ReadOf(old(Left()), n).0
      ensures r.Full? ==> Left() == ReadOf(old(Left()), n).1
    {
      while buffer == []
        invariant Left() == old(Left())
        decreases |source|, |buffer| == 0
      {
        var chunk := PullChunk();
        if chunk.None? {
          return Ended;
        }
        buffer := chunk.value;
      }
      r := ReadExact(n);
    }

    /** A length-prefixed chunk: its bytes, or why there is none. */
    method ReadLengthPrefixed(max: nat) returns (r: Read)
      modifies this`source, this`buffer, this`disconnected
      ensures r == ChunkOf(old(Left()), max).0
      ensures r.Full? ==> Left() == ChunkOf(old(Left()), max).1
    {
      var prefix := ReadExactOrNull(4);
      if !prefix.Full? {
        return prefix;
      }
      var length := DecodeU32(prefix.bytes);
      if length > max {
        return Oversize;
      }
      r := ReadExact(length);
    }

    /** One chunk more dropped, or what of it is past `remaining` buffered: how much is still to skip, `None` at the end. */
    method SkipChunk(remaining: nat) returns (more: Option<nat>, ghost gone: seq<byte>)
      requires remaining > 0 && buffer == []
      modifies this`source, this`buffer, this`disconnected
      ensures more.None? ==> old(Left()) == []
      ensures more.Some? ==>
                && more.value <= remaining && |gone| == remaining - more.value && old(Left()) == gone + Left()
                && |source| < |old(source)| && (more.value > 0 ==> buffer == [])
    {
      gone := [];
      ghost var left := Left();
      var chunk := PullChunk();
      if chunk.None? {
        return None, [];
      }
      assert left == chunk.value + Unread();
      var take := Min(|chunk.value|, remaining);
      gone := chunk.value[..take];
      TakesFirst(chunk.value, Unread(), take);
      if take < |chunk.value| {
        buffer := chunk.value[take..];
      }
      more := Some(remaining - take);
    }

    /** What is buffered is skipped first: how much is still to skip. */
    method SkipBuffered(n: nat) returns (remaining: nat, ghost gone: seq<byte>)
      modifies this`buffer
      ensures remaining <= n && |gone| == n - remaining && old(Left()) == gone + Left()
      ensures remaining > 0 ==> buffer == []
    {
      ghost var was, unread := buffer, Unread();
      var buffered := TakeBuffered(n);
      if buffered.None? {
        ReadsMore([] + unread, [], [], unread);
        return n, [];
      }
      TakesFirst(was, unread, |buffered.value|);
      return n - |buffered.value|, buffered.value;
    }

    /** Skips exactly `n` bytes; false if the body ends first. */
    method SkipBytes(n: nat) returns (skipped: bool)
      modifies this`source, this`buffer, this`disconnected
      ensures skipped <==> n <= |old(Left())|
      ensures skipped ==> Left() == old(Left())[n..]
    {
      ghost var left := Left();
      var remaining, gone := SkipBuffered(n);
      while remaining > 0
        invariant 0 <= remaining <= n && |gone| == n - remaining && left == gone + Left()
        invariant remaining > 0 ==> buffer == []
        decreases |source|
      {
        var more, first := SkipChunk(remaining);
        if more.None? {
          ReadsLess(left, gone, n);
          return false;
        }
        ReadsMore(left, gone, first, Left());
        gone, remaining := gone + first, more.value;
      }
      ReadsAll(left, gone, Left());
      return true;
    }

    /** Up to `remaining` bytes of a file: what is buffered, or one chunk, whose rest is buffered. */
    method PullFile(remaining: nat) returns (part: Option<seq<byte>>)
      requires remaining > 0
      modifies this`source, this`buffer, this`disconnected
      ensures part.None? <==> |old(buffer)| == 0 && (old(disconnected) || old(source) == [])
      ensures part.Some? ==> |part.value| <= remaining && old(Left()) == part.value + Left()
      ensures part.None? ==> old(Left()) == []
      ensures part.Some? ==> |source| < |old(source)| || (source == old(source) && |buffer| < |old(buffer)|)
    {
      part := TakeBuffered(remaining);
      if part.Some? {
        return part;
      }
      var chunk := PullChunk();
      if chunk.None? {
        return None;
      }
      var take := Min(|chunk.value|, remaining);
      part := Some(chunk.value[..take]);
      if take < |chunk.value| {
        buffer := chunk.value[take..];
      }
    }

    /** A file read to its end, one pull after another: exactly its bytes, whatever chunks they came in. */
    method ReadFile(size: nat) returns (r: Read)
      modifies this`source, this`buffer, this`disconnected
      ensures r == ReadOf(old(Left()), size).0
      ensures r.Full? ==> Left() == ReadOf(old(Left()), size).1
    {
      ghost var left := Left();
      var bytes, remaining := [], size;
      while remaining > 0
        invariant 0 <= remaining && |bytes| == size - remaining && left == bytes + Left()
        decreases |source|, |buffer|
      {
        var part := PullFile(remaining);
        if part.None? {
          ReadsLess(left, bytes, size);
          return Truncated;
        }
        ReadsMore(left, bytes, part.value, Left());
        bytes := bytes + part.value;
        remaining := remaining - |part.value|;
      }
      ReadsAll(left, bytes, Left());
      return Full(bytes);
    }

    /** Starts reading file `index`: earlier files not read are skipped, one already read is refused. */
    method StartFile(index: nat) returns (started: bool)
      requires forall i | nextFileIndex <= i < index :: i in fileSizes
      modifies this`source, this`buffer, this`disconnected, this`nextFileIndex
      ensures index < old(nextFileIndex) ==> !started && Left() == old(Left()) && nextFileIndex == old(nextFileIndex)
      ensures index >= old(nextFileIndex) ==>
                var skipped := SkippedBytes(fileSizes, old(nextFileIndex), index);
                && (started <==> skipped <= |old(Left())|)
                && (started ==> Left() == old(Left())[skipped..] && nextFileIndex == index + 1)
    {
      if index < nextFileIndex {
        return false;
      }
      ghost var left, all := Left(), SkippedBytes(fileSizes, nextFileIndex, index);
      ghost var gone: nat := 0;
      while nextFileIndex < index
        invariant old(nextFileIndex) <= nextFileIndex <= index
        invariant gone <= |left| && Left() == left[gone..]
        invariant gone + SkippedBytes(fileSizes, nextFileIndex, index) == all
        decreases index - nextFileIndex
      {
        var size := fileSizes[nextFileIndex];
        var skipped := SkipBytes(size);
        if !skipped {
          return false;
        }
        DropsTwice(left, gone, size);
        gone := gone + size;
        nextFileIndex := nextFileIndex + 1;
      }
      nextFileIndex := nextFileIndex + 1;
      return true;
    }
  }
}
