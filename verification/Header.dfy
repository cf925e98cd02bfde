/** The little-endian fields of a frame, the 7-byte header, and the recovery of a whole seq from its low 32 bits. */
module Header {
  import opened Bytes

  // ── What is written ──

  function U16(n: nat): (s: seq<byte>)
    ensures |s| == 2
  {
    [n % 256, n / 256 % 256]
  }

  /** The `k`-th byte of `n`, the lowest first. */
  function ByteOf(n: nat, k: nat): byte
    decreases k, n
  {
    if k == 0 then n % 256 else ByteOf(n / 256, k - 1)
  }

  /** The low 32 bits of `n`. */
  function U32(n: nat): (s: seq<byte>)
    ensures |s| == 4
  {
    [ByteOf(n, 0), ByteOf(n, 1), ByteOf(n, 2), ByteOf(n, 3)]
  }

  lemma BytesOf(n: nat)
    ensures U32(n) == [n % 256, n / 256 % 256, n / 256 / 256 % 256, n / 256 / 256 / 256 % 256]
  {
    var a, b, c := n / 256, n / 256 / 256, n / 256 / 256 / 256;
    assert ByteOf(c, 0) == c % 256;
    assert ByteOf(b, 1) == ByteOf(c, 0) && ByteOf(b, 0) == b % 256;
    assert ByteOf(a, 2) == ByteOf(b, 1) && ByteOf(a, 1) == ByteOf(b, 0) && ByteOf(a, 0) == a % 256;
    assert ByteOf(n, 3) == ByteOf(a, 2) && ByteOf(n, 2) == ByteOf(a, 1) && ByteOf(n, 1) == ByteOf(a, 0);
  }

  function U64(n: nat): (s: seq<byte>)
    ensures |s| == 8
  {
    U32(n) + U32(n / SEQ_SPAN)
  }

  function HeaderBytes(tag: byte, index: nat, seqNo: nat): (s: seq<byte>)
    ensures |s| == HEADER && s[0] == tag
  {
    [tag] + U16(index) + U32(seqNo)
  }

  // ── What is read ──

  function At(buf: seq<byte>, i: nat): nat
    requires i < |buf|
  {
    buf[i] as nat
  }

  function ReadU16(buf: seq<byte>, offset: nat): (n: nat)
    requires offset + 2 <= |buf|
    ensures n < 65536
  {
    At(buf, offset) + 256 * At(buf, offset + 1)
  }

  function ReadU32(buf: seq<byte>, offset: nat): (n: nat)
    requires offset + 4 <= |buf|
    ensures n < SEQ_SPAN
  {
    At(buf, offset) + 256 * At(buf, offset + 1) + 65536 * At(buf, offset + 2) + 16777216 * At(buf, offset + 3)
  }

  function ReadU64(buf: seq<byte>, offset: nat): nat
    requires offset + 8 <= |buf|
  {
    ReadU32(buf, offset) + ReadU32(buf, offset + 4) * SEQ_SPAN
  }

  /** A u32 field at any offset reads back as the low 32 bits of what was written, whatever surrounds it. */
  lemma U32RoundTrip(before: seq<byte>, n: nat, after: seq<byte>)
    ensures ReadU32(before + U32(n) + after, |before|) == n % SEQ_SPAN
  {
    var s, w := before + U32(n) + after, U32(n);
    assert forall k | 0 <= k < 4 :: s[|before| + k] == w[k];
    BytesOf(n);
    Digits(n);
  }

  lemma Digits(n: nat)
    ensures var a := n / 256; var b := a / 256; var c := b / 256;
            n % SEQ_SPAN == n % 256 + 256 * (a % 256) + 65536 * (b % 256) + 16777216 * (c % 256)
  {
    var c := n / 256 / 256 / 256;
    assert n == SEQ_SPAN * (c / 256) + 16777216 * (c % 256) + 65536 * (n / 256 / 256 % 256)
                + 256 * (n / 256 % 256) + n % 256;
  }

  lemma U16RoundTrip(before: seq<byte>, n: nat, after: seq<byte>)
    ensures ReadU16(before + U16(n) + after, |before|) == n % 65536
  {
    var s, w := before + U16(n) + after, U16(n);
    assert forall k | 0 <= k < 2 :: s[|before| + k] == w[k];
    assert n == 65536 * (n / 256 / 256) + (At(w, 0) + 256 * At(w, 1));
  }

  /** The two u32 halves carry every integer below 2^64, so every one a number holds exactly (2^53). */
  lemma U64RoundTrip(before: seq<byte>, n: nat, after: seq<byte>)
    ensures ReadU64(before + U64(n) + after, |before|) == n % (SEQ_SPAN * SEQ_SPAN)
  {
    var lo, hi := U32(n), U32(n / SEQ_SPAN);
    assert before + U64(n) + after == before + lo + (hi + after);
    assert before + U64(n) + after == (before + lo) + hi + after;
    U32RoundTrip(before, n, hi + after);
    U32RoundTrip(before + lo, n / SEQ_SPAN, after);
    TwoHalves(n);
  }

  lemma TwoHalves(n: nat)
    ensures n % SEQ_SPAN + n / SEQ_SPAN % SEQ_SPAN * SEQ_SPAN == n % (SEQ_SPAN * SEQ_SPAN)
  {
    var q := n / SEQ_SPAN;
    var low := n % SEQ_SPAN + q % SEQ_SPAN * SEQ_SPAN;
    assert n == SEQ_SPAN * SEQ_SPAN * (q / SEQ_SPAN) + low && 0 <= low < SEQ_SPAN * SEQ_SPAN;
  }

  // ── Writing in place ──

  method WriteU16(frame: array<byte>, offset: nat, n: nat)
    requires offset + 2 <= frame.Length
    modifies frame
    ensures frame[..] == old(frame[..offset]) + U16(n) + old(frame[offset + 2..])
  {
    frame[offset] := n % 256;
    frame[offset + 1] := n / 256 % 256;
  }

  method WriteU32(frame: array<byte>, offset: nat, n: nat)
    requires offset + 4 <= frame.Length
    modifies frame
    ensures frame[..] == old(frame[..offset]) + U32(n) + old(frame[offset + 4..])
  {
    BytesOf(n);
    frame[offset] := n % 256;
    frame[offset + 1] := n / 256 % 256;
    frame[offset + 2] := n / 256 / 256 % 256;
    frame[offset + 3] := n / 256 / 256 / 256 % 256;
  }

  method WriteHeader(frame: array<byte>, at: nat, tag: byte, index: nat, seqNo: nat)
    requires at + HEADER <= frame.Length
    modifies frame
    ensures frame[..] == old(frame[..at]) + HeaderBytes(tag, index, seqNo) + old(frame[at + HEADER..])
  {
    ghost var was := frame[..];
    frame[at] := tag;
    WriteU16(frame, at + 1, index);
    var head := [tag] + U16(index);
    assert frame[..at + 3] == was[..at] + head;
    assert frame[at + HEADER..] == was[at + HEADER..];
    WriteU32(frame, at + 3, seqNo);
    assert frame[..] == was[..at] + (head + U32(seqNo)) + was[at + HEADER..];
  }

  // ── Seqs past 32 bits ──

  /** The seq with low bits `bits` nearest `expected` (Appendix A.3 of RFC 9000). */
  function SeqNear(bits: nat, expected: nat): int {
    var s := expected - expected % SEQ_SPAN + bits;
    if s <= expected - SEQ_SPAN / 2 then s + SEQ_SPAN
    else if s > expected + SEQ_SPAN / 2 && s >= SEQ_SPAN then s - SEQ_SPAN
    else s
  }

  /** The latest seq with low bits `bits` through `sent`. */
  function SeqThrough(bits: nat, sent: nat): int {
    var s := sent - sent % SEQ_SPAN + bits;
    if s > sent && s >= SEQ_SPAN then s - SEQ_SPAN else s
  }

  /** Truncated to 32 bits, a seq is recovered exactly when it is within half a span of the expected one, or when
      nothing below it has the same low bits. */
  lemma SeqNearRecovers(s: nat, expected: nat)
    ensures SeqNear(s % SEQ_SPAN, expected) == s <==>
            (expected - SEQ_SPAN / 2 < s <= expected + SEQ_SPAN / 2) || (expected + SEQ_SPAN / 2 < s < SEQ_SPAN)
  {
    var e, q := expected / SEQ_SPAN, s / SEQ_SPAN;
    assert expected == e * SEQ_SPAN + expected % SEQ_SPAN && s == q * SEQ_SPAN + s % SEQ_SPAN;
    if expected - SEQ_SPAN / 2 < s <= expected + SEQ_SPAN / 2 {
      assert q == e || q == e + 1 || q + 1 == e;
    }
  }

  /** An acknowledged seq is recovered exactly when it is at most the last sent and fewer than 2^32 before it, or when
      it is past the last sent and below 2^32. */
  lemma SeqThroughRecovers(s: nat, sent: nat)
    ensures SeqThrough(s % SEQ_SPAN, sent) == s <==> (sent - SEQ_SPAN < s <= sent) || (sent < s < SEQ_SPAN)
  {
    var e, q := sent / SEQ_SPAN, s / SEQ_SPAN;
    assert sent == e * SEQ_SPAN + sent % SEQ_SPAN && s == q * SEQ_SPAN + s % SEQ_SPAN;
    if sent - SEQ_SPAN < s <= sent {
      assert q == e || q + 1 == e;
    }
  }
}
