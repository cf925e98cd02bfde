/** What a wire delivered lately, in a ring of running sums. */
module DeliveryRing {
  import opened Bytes

  const KEPT: nat := 32

  datatype Delivery = Delivery(at: real, bytes: nat)

  /** The bytes of the first `n` deliveries. */
  function BytesOf(history: seq<Delivery>, n: nat): nat
    requires n <= |history|
  {
    if n == 0 then 0 else BytesOf(history, n - 1) + history[n - 1].bytes
  }

  /** The bytes of the first `n` deliveries that came no earlier than `from`. */
  function BytesSince(history: seq<Delivery>, n: nat, from: real): nat
    requires n <= |history|
  {
    if n == 0 then 0
    else BytesSince(history, n - 1, from) + if history[n - 1].at >= from then history[n - 1].bytes else 0
  }

  predicate InOrder(history: seq<Delivery>) {
    forall i, j | 0 <= i < j < |history| :: history[i].at <= history[j].at
  }

  lemma {:induction false} NoneBefore(history: seq<Delivery>, n: nat, from: real)
    requires n <= |history| && forall i | 0 <= i < n :: history[i].at < from
    ensures BytesSince(history, n, from) == 0
  {
    if n > 0 {
      NoneBefore(history, n - 1, from);
    }
  }

  /** From where deliveries come late enough, all of them count. */
  lemma {:induction false} AllSince(history: seq<Delivery>, start: nat, n: nat, from: real)
    requires start <= n <= |history| && InOrder(history)
    requires (start > 0 ==> history[start - 1].at < from) && (start < n ==> history[start].at >= from)
    ensures BytesSince(history, n, from) == BytesOf(history, n) - BytesOf(history, start)
    decreases n
  {
    if n == start {
      NoneBefore(history, n, from);
    } else {
      AllSince(history, start, n - 1, from);
    }
  }

  /** `Busy`: reads as a busy wire, where what is asked is kept no more, or spans no time. */
  datatype Span = Bytes(bytes: real) | Busy

  function Oldest(n: nat): nat {
    if n > KEPT then n - KEPT else 0
  }

  /** A kept delivery before `n` came earlier than `ms` before it, or none was ever overwritten. */
  predicate Known(history: seq<Delivery>, n: nat, ms: real)
    requires n < |history|
  {
    Oldest(|history|) == 0 || exists i | Oldest(|history|) <= i < n :: history[i].at < history[n].at - ms
  }

  /** The bytes at the rate of those kept, where they span some time. */
  function AtRate(history: seq<Delivery>, n: nat, ms: real): Span
    requires Oldest(|history|) < n < |history|
  {
    var oldest := Oldest(|history|);
    var kept := history[n].at - history[oldest].at;
    if kept > 0.0 then Bytes((BytesOf(history, n) - BytesOf(history, oldest + 1)) as real * ms / kept) else Busy
  }

  class Deliveries {
    const at: array<real>
    const through: array<nat>
    var count: nat
    ghost var history: seq<Delivery>

    ghost predicate Valid()
      reads this, at, through
    {
      && at.Length == KEPT && through.Length == KEPT && at != through as object
      && count == |history| && InOrder(history)
      && forall n | Oldest(count) <= n < count ::
           at[n % KEPT] == history[n].at && through[n % KEPT] == BytesOf(history, n + 1)
    }

    constructor ()
      ensures Valid() && history == [] && fresh(at) && fresh(through)
    {
      at := new real[KEPT];
      through := new nat[KEPT](_ => 0);
      count, history := 0, [];
    }

    /** Writes over the slot of the oldest delivery kept. */
    method NoteDelivery(when: real, bytes: nat)
      requires Valid() && (history != [] ==> history[|history| - 1].at <= when)
      modifies this`count, this`history, at, through
      ensures Valid() && history == old(history) + [Delivery(when, bytes)]
    {
      var slot := count % KEPT;
      var sum: nat := bytes;
      if count > 0 {
        sum := through[(count - 1) % KEPT] + bytes;
      }
      Appended(history, Delivery(when, bytes));
      OtherSlots(count + 1);
      history := history + [Delivery(when, bytes)];
      through[slot] := sum;
      at[slot] := when;
      count := count + 1;
    }

    /** The bytes in the `ms` before delivery `n`: exactly those that came no earlier, where that is known. */
    method Before(n: nat, ms: real) returns (span: Span)
      requires Valid() && n < count && ms >= 0.0
      ensures n == 0 ==> span == Bytes(0.0)
      ensures 0 < n <= Oldest(count) ==> span == Busy
      ensures n > Oldest(count) && Known(history, n, ms) ==>
                span == Bytes(BytesSince(history, n, history[n].at - ms) as real)
      ensures n > Oldest(count) > 0 && !Known(history, n, ms) ==>
                span == AtRate(history, n, ms)
    {
      if n == 0 {
        return Bytes(0.0);
      }
      var oldest := Oldest(count);
      if n <= oldest {
        return Busy;
      }
      var arrived := at[n % KEPT];
      var sum := through[(n - 1) % KEPT];
      var i := LastBefore(n, arrived - ms);
      if i >= oldest {
        AllSince(history, i + 1, n, arrived - ms);
        return Bytes((sum as int - through[i % KEPT]) as real);
      }
      if oldest == 0 {
        AllSince(history, 0, n, arrived - ms);
        return Bytes(sum as real);
      }
      span := Extrapolated(n, ms);
    }

    /** The rate of those kept, over `ms`. */
    method Extrapolated(n: nat, ms: real) returns (span: Span)
      requires Valid() && 0 < Oldest(count) < n < count
      ensures span == AtRate(history, n, ms)
    {
      var oldest := Oldest(count);
      var kept := at[n % KEPT] - at[oldest % KEPT];
      if kept > 0.0 {
        return Bytes((through[(n - 1) % KEPT] as int - through[oldest % KEPT]) as real * ms / kept);
      }
      return Busy;
    }

    /** The last kept delivery before `n` that came before `from`, or one before the oldest kept. */
    method LastBefore(n: nat, from: real) returns (i: int)
      requires Valid() && Oldest(count) < n < count
      ensures Oldest(count) - 1 <= i < n
      ensures forall k | i < k < n :: history[k].at >= from
      ensures i >= Oldest(count) ==> history[i].at < from
    {
      i := n - 1;
      while i >= Oldest(count) && at[i % KEPT] >= from
        invariant Oldest(count) - 1 <= i < n
        invariant forall k | i < k < n :: history[k].at >= from
        decreases i
      {
        i := i - 1;
      }
    }
  }

  lemma Appended(history: seq<Delivery>, d: Delivery)
    requires InOrder(history) && (history != [] ==> history[|history| - 1].at <= d.at)
    ensures InOrder(history + [d])
    ensures forall n | 0 <= n <= |history| :: BytesOf(history + [d], n) == BytesOf(history, n)
  {
    forall i, j | 0 <= i < j < |history + [d]|
      ensures (history + [d])[i].at <= (history + [d])[j].at
    {
      if j == |history| && i < |history| - 1 {
        assert history[i].at <= history[|history| - 1].at;
      }
    }
    forall n | 0 <= n <= |history|
      ensures BytesOf(history + [d], n) == BytesOf(history, n)
    {
      SameSums(history, d, n);
    }
  }

  lemma {:induction false} SameSums(history: seq<Delivery>, d: Delivery, n: nat)
    requires n <= |history|
    ensures BytesOf(history + [d], n) == BytesOf(history, n)
  {
    if n > 0 {
      SameSums(history, d, n - 1);
    }
  }

  /** The deliveries kept are each in a slot of its own. */
  lemma OtherSlots(count: nat)
    requires count > 0
    ensures forall n | Oldest(count) <= n < count - 1 :: n % KEPT != (count - 1) % KEPT
  {
  }
}
