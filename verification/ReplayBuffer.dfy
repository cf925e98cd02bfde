/** The replay buffer a channel keeps, as it updates its queues in place. */
module ReplayBuffers {
  import opened Bytes
  import opened Tags
  import opened Replays

  const REPLAY_KINDS: seq<ReplayKind> := [Text, Binary, Closing]

  /** Two sorted runs, merged into one. */
  method MergeBySeq(a: seq<Entry>, b: seq<Entry>) returns (run: seq<Entry>)
    ensures run == Merge(a, b)
  {
    if a == [] {
      return b;
    }
    if b == [] {
      return a;
    }
    run := [];
    var ai, bi := 0, 0;
    assert a[0..] == a && b[0..] == b;
    for ri := 0 to |a| + |b|
      invariant 0 <= ai <= |a| && 0 <= bi <= |b| && ai + bi == ri
      invariant Merge(a, b) == run + Merge(a[ai..], b[bi..])
    {
      MergeTakes(a, b, ai, bi);
      ghost var before, rest := run, Merge(a[ai..], b[bi..]);
      if bi >= |b| || (ai < |a| && a[ai].seqNo <= b[bi].seqNo) {
        run := run + [a[ai]];
        ai := ai + 1;
      } else {
        run := run + [b[bi]];
        bi := bi + 1;
      }
      assert before + rest == run + Merge(a[ai..], b[bi..]);
    }
  }

  /** What the merge takes next. */
  lemma MergeTakes(a: seq<Entry>, b: seq<Entry>, ai: nat, bi: nat)
    requires ai <= |a| && bi <= |b| && ai + bi < |a| + |b|
    ensures Merge(a[ai..], b[bi..]) ==
            if bi >= |b| || (ai < |a| && a[ai].seqNo <= b[bi].seqNo)
            then [a[ai]] + Merge(a[ai + 1..], b[bi..])
            else [b[bi]] + Merge(a[ai..], b[bi + 1..])
  {
    var v, w := a[ai..], b[bi..];
    if v != [] {
      assert v[1..] == a[ai + 1..] && v == [v[0]] + v[1..];
      assert w == [] ==> Merge(v[1..], w) == v[1..];
    }
    if w != [] {
      assert w[1..] == b[bi + 1..] && w == [w[0]] + w[1..];
    }
  }

  lemma SliceZip(seqs: seq<nat>, frames: seq<Frame>, head: nat, lo: nat, hi: nat)
    requires head <= lo <= hi <= |seqs| == |frames|
    ensures Zip(seqs[lo..hi], frames[lo..hi]) == Zip(seqs[head..], frames[head..])[lo - head..][..hi - lo]
  {
  }

  lemma NextUnacknowledged(q: seq<Entry>, k: nat, lastSeq: nat)
    requires k <= |q|
    ensures Unacknowledged(q[k..], lastSeq) ==
            if k < |q| && q[k].seqNo <= lastSeq then Unacknowledged(q[k + 1..], lastSeq) else q[k..]
  {
    if k < |q| {
      assert q[k..][1..] == q[k + 1..];
    }
  }

  lemma NextThrough(q: seq<Entry>, k: nat, throughSeq: Option<nat>)
    requires k <= |q|
    ensures q[..k] + Through(q[k..], throughSeq) ==
            if k < |q| && UpTo(q[k].seqNo, throughSeq) then q[..k + 1] + Through(q[k + 1..], throughSeq) else q[..k]
  {
    if k < |q| {
      assert q[k..][1..] == q[k + 1..];
      assert q[..k] + ([q[k]] + Through(q[k + 1..], throughSeq)) == q[..k + 1] + Through(q[k + 1..], throughSeq);
    }
  }

  /** Where the entries after `afterSeq` start in `seqs`, whose live ones are `q`'s. */
  method ScanAfter(ghost q: seq<Entry>, seqs: seq<nat>, head: nat, afterSeq: nat) returns (lo: nat)
    requires head + |q| == |seqs| && forall i | 0 <= i < |q| :: q[i].seqNo == seqs[head + i]
    ensures head <= lo <= |seqs| && Unacknowledged(q, afterSeq) == q[lo - head..]
  {
    lo := head;
    assert q[0..] == q;
    while lo < |seqs| && seqs[lo] <= afterSeq
      invariant head <= lo <= |seqs|
      invariant Unacknowledged(q, afterSeq) == Unacknowledged(q[lo - head..], afterSeq)
    {
      NextUnacknowledged(q, lo - head, afterSeq);
      lo := lo + 1;
    }
    NextUnacknowledged(q, lo - head, afterSeq);
  }

  method ScanThrough(ghost from: seq<Entry>, seqs: seq<nat>, lo: nat, throughSeq: Option<nat>) returns (hi: nat)
    requires lo + |from| == |seqs| && forall i | 0 <= i < |from| :: from[i].seqNo == seqs[lo + i]
    ensures lo <= hi <= |seqs| && Through(from, throughSeq) == from[..hi - lo]
  {
    hi := lo;
    assert from[0..] == from && from[..0] + Through(from, throughSeq) == Through(from, throughSeq);
    while hi < |seqs| && UpTo(seqs[hi], throughSeq)
      invariant lo <= hi <= |seqs|
      invariant Through(from, throughSeq) == from[..hi - lo] + Through(from[hi - lo..], throughSeq)
    {
      NextThrough(from, hi - lo, throughSeq);
      hi := hi + 1;
    }
    NextThrough(from, hi - lo, throughSeq);
  }

  /** The two scans. */
  method ScanSpan(ghost q: seq<Entry>, seqs: seq<nat>, head: nat, afterSeq: nat, throughSeq: Option<nat>)
    returns (lo: nat, hi: nat)
    requires head + |q| == |seqs| && forall i | 0 <= i < |q| :: q[i].seqNo == seqs[head + i]
    ensures head <= lo <= hi <= |seqs| && Within(q, afterSeq, throughSeq) == q[lo - head..][..hi - lo]
  {
    lo := ScanAfter(q, seqs, head, afterSeq);
    hi := ScanThrough(q[lo - head..], seqs, lo, throughSeq);
  }

  function Zip(seqs: seq<nat>, frames: seq<Frame>): (q: seq<Entry>)
    requires |seqs| == |frames|
    ensures |q| == |seqs| && forall i | 0 <= i < |q| :: q[i] == Entry(seqs[i], frames[i])
  {
    seq(|seqs|, i requires 0 <= i < |seqs| => Entry(seqs[i], frames[i]))
  }

  /** One kind's frames, oldest first: seqs and frames in parallel, the dead slots ahead of `head` cut now and then. */
  class ReplayQueue {
    var seqs: seq<nat>
    var frames: seq<Frame>
    var head: nat
    var totalBytes: nat
    var maxBytes: Budget

    ghost predicate Shaped()
      reads this
    {
      |seqs| == |frames| && head <= |frames|
    }

    ghost function Entries(): seq<Entry>
      reads this
      requires Shaped()
    {
      Zip(seqs[head..], frames[head..])
    }

    ghost predicate Valid()
      reads this
    {
      Shaped() && totalBytes == QueueBytes(Entries())
    }

    constructor (maxBytes: Budget)
      ensures Valid() && Entries() == [] && this.maxBytes == maxBytes
    {
      seqs, frames, head, totalBytes := [], [], 0, 0;
      this.maxBytes := maxBytes;
    }

    method Push(seqNo: nat, frame: Frame)
      requires Valid()
      modifies this
      ensures Valid() && maxBytes == old(maxBytes)
      ensures Entries() == Store(old(Entries()), maxBytes, Entry(seqNo, frame))
    {
      var bytes := |frame|;
      if !maxBytes.Holds(bytes) {
        return;
      }
      ghost var was := Entries();
      seqs := seqs + [seqNo];
      frames := frames + [frame];
      totalBytes := totalBytes + bytes;
      assert Entries() == was + [Entry(seqNo, frame)];
      QueueBytesAppend(was, [Entry(seqNo, frame)]);
      assert QueueBytes([Entry(seqNo, frame)]) == bytes by { assert [Entry(seqNo, frame)][1..] == []; }
      TrimQueue();
    }

    method Acknowledge(lastSeq: nat)
      requires Valid()
      modifies this
      ensures Valid() && maxBytes == old(maxBytes)
      ensures Entries() == Unacknowledged(old(Entries()), lastSeq)
    {
      while head < |frames| && seqs[head] <= lastSeq
        invariant Valid() && maxBytes == old(maxBytes)
        invariant Unacknowledged(Entries(), lastSeq) == Unacknowledged(old(Entries()), lastSeq)
        decreases |frames| - head
      {
        DropHead();
      }
      Compact();
    }

    method SetBudget(maxBytes: Budget)
      requires Valid()
      modifies this
      ensures Valid() && this.maxBytes == maxBytes
      ensures Entries() == Trim(old(Entries()), maxBytes)
    {
      this.maxBytes := maxBytes;
      TrimQueue();
    }

    /** The stored frames after `afterSeq` through `throughSeq`, all of them for `None`. */
    method GetAfter(afterSeq: nat, throughSeq: Option<nat>) returns (run: seq<Entry>)
      requires Valid()
      ensures run == Within(Entries(), afterSeq, throughSeq)
    {
      ghost var q := Entries();
      var lo, hi := ScanSpan(q, seqs, head, afterSeq, throughSeq);
      run := Zip(seqs[lo..hi], frames[lo..hi]);
      SliceZip(seqs, frames, head, lo, hi);
    }

    method Dispose()
      requires Valid()
      modifies this
      ensures Valid() && Entries() == [] && maxBytes == old(maxBytes)
    {
      seqs, frames, head, totalBytes := [], [], 0, 0;
    }

    /** Evicts the oldest entries while over the byte budget. */
    method TrimQueue()
      requires Valid()
      modifies this
      ensures Valid() && maxBytes == old(maxBytes)
      ensures Entries() == Trim(old(Entries()), maxBytes)
    {
      while head < |frames| && !maxBytes.Holds(totalBytes)
        invariant Valid() && maxBytes == old(maxBytes)
        invariant Trim(Entries(), maxBytes) == Trim(old(Entries()), maxBytes)
        decreases |frames| - head
      {
        DropHead();
      }
      assert Entries() == [] || maxBytes.Holds(QueueBytes(Entries()));
      Compact();
    }

    /** Drops the oldest entry, leaving its slot for `Compact`. */
    method DropHead()
      requires Valid() && head < |frames|
      modifies this`totalBytes, this`head
      ensures Valid() && head == old(head) + 1
      ensures old(Entries()) == [Entry(seqs[old(head)], frames[old(head)])] + Entries()
      ensures Entries() == old(Entries())[1..]
    {
      ghost var was := Entries();
      totalBytes := totalBytes - |frames[head]|;
      head := head + 1;
      assert Entries() == was[1..];
    }

    /** Cuts the dead slots once they are as many as the live ones. */
    method Compact()
      requires Valid()
      modifies this
      ensures Valid() && Entries() == old(Entries()) && maxBytes == old(maxBytes)
      ensures head == 0 || head < |frames| - head
    {
      if head >= |frames| {
        seqs, frames, head, totalBytes := [], [], 0, 0;
        assert Entries() == old(Entries());
        return;
      }
      if head > 0 && head >= |frames| - head {
        seqs := seqs[head..];
        frames := frames[head..];
        head := 0;
        assert Entries() == old(Entries());
      }
    }
  }

  /** `to` for the first `n` kinds, `from` for the others. */
  function Mixed<T>(n: nat, to: PerKind<T>, from: PerKind<T>): PerKind<T> {
    PerKind(if n > 0 then to.text else from.text, if n > 1 then to.binary else from.binary,
            if n > 2 then to.closing else from.closing)
  }

  ghost function EntriesOf(queue: ReplayQueue?): seq<Entry>
    reads queue
    requires queue != null ==> queue.Valid()
  {
    if queue == null then [] else queue.Entries()
  }

  ghost predicate Fits(queue: ReplayQueue?, budget: Budget)
    reads queue
  {
    queue != null ==> queue.Valid() && queue.maxBytes == budget
  }

  /** Sent sequenced frames till their peer acknowledges them, each kind's queue made at its first frame. */
  class ReplayBuffer {
    var text: ReplayQueue?
    var binary: ReplayQueue?
    var closing: ReplayQueue?
    var budgets: Budgets
    var issuedSeq: nat
    var pushedSeq: nat
    var acknowledgedSeq: nat
    var lowered: Option<Lowered>

    function QueueOf(kind: ReplayKind): ReplayQueue?
      reads this
    {
      match kind case Text => text case Binary => binary case Closing => closing
    }

    ghost function Queues(): set<ReplayQueue?>
      reads this
    {
      {text, binary, closing}
    }

    ghost predicate Valid()
      reads this, Queues()
    {
      && Fits(text, budgets.text) && Fits(binary, budgets.binary) && Fits(closing, budgets.closing)
      && (text != null ==> text != binary && text != closing)
      && (binary != null ==> binary != closing)
    }

    ghost function Contents(): PerKind<seq<Entry>>
      reads this, Queues()
      requires Valid()
    {
      PerKind(EntriesOf(text), EntriesOf(binary), EntriesOf(closing))
    }

    /** What it holds, as a value. */
    ghost function Model(): Replay
      reads this, Queues()
      requires Valid()
    {
      Replay(Contents(), budgets, issuedSeq, pushedSeq, acknowledgedSeq, lowered)
    }

    constructor (maxBytes: nat, binaryMaxBytes: nat)
      ensures Valid() && Queues() == {null} && Model() == Fresh(maxBytes, binaryMaxBytes)
    {
      text, binary, closing := null, null, null;
      budgets := QueueBudgets(maxBytes, binaryMaxBytes);
      issuedSeq, pushedSeq, acknowledgedSeq, lowered := 0, 0, 0, None;
    }

    method NextSeq() returns (seqNo: nat)
      requires Valid()
      modifies this`issuedSeq
      ensures Valid() && Model() == old(Model()).NextSeq() && seqNo == Model().issued
    {
      issuedSeq := issuedSeq + 1;
      seqNo := issuedSeq;
    }

    /** `kind`'s queue, made if there is none. */
    method QueueFor(kind: ReplayKind) returns (queue: ReplayQueue)
      requires Valid()
      modifies this
      ensures Valid() && QueueOf(kind) == queue && fresh(Queues() - old(Queues()))
      ensures Model() == old(Model())
    {
      var existing := QueueOf(kind);
      if existing != null {
        return existing;
      }
      queue := new ReplayQueue(budgets.Of(kind));
      match kind
      case Text => text := queue;
      case Binary => binary := queue;
      case Closing => closing := queue;
    }

    /** The asserted bounds on the seq, and a sequenced tag, are what its callers owe it. */
    method Push(seqNo: nat, frame: Frame)
      requires Valid() && Sequenced(frame) && pushedSeq <= seqNo <= issuedSeq
      modifies this, Queues()
      ensures Valid() && fresh(Queues() - old(Queues()))
      ensures Model() == old(Model()).Push(seqNo, frame)
    {
      pushedSeq := seqNo;
      var kind := ReplayKindOf(frame[0]);
      var queue := QueueFor(kind);
      label made:
      PushTo(queue, kind, seqNo, frame);
      assert Model() == old@made(Model()).(queues := Contents());
    }

    method PushTo(queue: ReplayQueue, kind: ReplayKind, seqNo: nat, frame: Frame)
      requires Valid() && QueueOf(kind) == queue
      modifies queue
      ensures Valid()
      ensures Contents() == old(Contents()).With(kind, Store(old(Contents().Of(kind)), budgets.Of(kind),
                                                             Entry(seqNo, frame)))
    {
      queue.Push(seqNo, frame);
    }

    method AcknowledgeKind(kind: ReplayKind, lastSeq: nat)
      requires Valid()
      modifies Queues()
      ensures Valid() && Contents() == old(Contents()).With(kind, Unacknowledged(old(Contents().Of(kind)), lastSeq))
    {
      var queue := QueueOf(kind);
      if queue != null {
        queue.Acknowledge(lastSeq);
      }
    }

    method Acknowledge(lastSeq: nat)
      requires Valid()
      modifies this, Queues()
      ensures Valid() && Queues() == old(Queues())
      ensures Model() == old(Model()).Acknowledge(lastSeq)
    {
      if lastSeq <= acknowledgedSeq {
        return;
      }
      ReleaseThrough(lastSeq);
      if lowered.None? || lastSeq < lowered.value.throughSeq {
        return;
      }
      ApplyLowered();
    }

    method ReleaseThrough(lastSeq: nat)
      requires Valid()
      modifies this`acknowledgedSeq, Queues()
      ensures Valid() && Queues() == old(Queues())
      ensures Model() == old(Model()).Release(lastSeq)
    {
      acknowledgedSeq := lastSeq;
      AcknowledgeQueues(lastSeq);
    }

    /** The lowered budgets that waited. */
    method ApplyLowered()
      requires Valid() && lowered.Some?
      modifies this, Queues()
      ensures Valid() && Queues() == old(Queues())
      ensures Model() == old(Model()).(lowered := None).WithBudgets(old(lowered).value.budgets)
    {
      var to := lowered.value.budgets;
      lowered := None;
      SetBudgets(to);
    }

    method AcknowledgeQueues(lastSeq: nat)
      requires Valid()
      modifies Queues()
      ensures Valid() && Contents() == old(Model()).Release(lastSeq).queues
    {
      ghost var to := old(Model()).Release(lastSeq).queues;
      for i := 0 to |REPLAY_KINDS|
        invariant Valid() && Contents() == Mixed(i, to, old(Contents()))
      {
        AcknowledgeKind(REPLAY_KINDS[i], lastSeq);
      }
    }

    method SetBudget(kind: ReplayKind, budget: Budget)
      requires Valid()
      modifies this`budgets, Queues()
      ensures Valid() && budgets == old(budgets).With(kind, budget)
      ensures Contents() == old(Contents()).With(kind, Trim(old(Contents().Of(kind)), budget))
    {
      budgets := budgets.With(kind, budget);
      var queue := QueueOf(kind);
      if queue != null {
        queue.SetBudget(budget);
      }
    }

    method SetBudgets(to: Budgets)
      requires Valid()
      modifies this`budgets, Queues()
      ensures Valid() && Model() == old(Model()).WithBudgets(to)
    {
      ghost var trimmed := old(Model()).WithBudgets(to).queues;
      for i := 0 to |REPLAY_KINDS|
        invariant Valid() && Contents() == Mixed(i, trimmed, old(Contents())) && budgets == Mixed(i, to, old(budgets))
      {
        SetBudget(REPLAY_KINDS[i], to.Of(REPLAY_KINDS[i]));
      }
    }

    method SetLimits(maxBytes: nat, binaryMaxBytes: nat)
      requires Valid()
      modifies this, Queues()
      ensures Valid() && Queues() == old(Queues())
      ensures Model() == old(Model()).SetLimits(maxBytes, binaryMaxBytes)
    {
      var to := QueueBudgets(maxBytes, binaryMaxBytes);
      var lower := ApplyLimits(to, acknowledgedSeq < issuedSeq);
      lowered := if lower
                 then Some(Lowered(to, if lowered.Some? then lowered.value.throughSeq else issuedSeq))
                 else None;
    }

    /** Sets each kind's budget, which only rises while frames are `unacknowledged`; says whether one would have been
        lowered. */
    method ApplyLimits(to: Budgets, unacknowledged: bool) returns (lower: bool)
      requires Valid()
      modifies this`budgets, Queues()
      ensures Valid()
      ensures Model() == old(Model()).WithBudgets(
                           if unacknowledged
                           then PerKind(to.text.Larger(old(budgets).text), to.binary.Larger(old(budgets).binary),
                                        to.closing.Larger(old(budgets).closing))
                           else to)
      ensures lower == (unacknowledged && (to.text.Below(old(budgets).text) || to.binary.Below(old(budgets).binary)
                                           || to.closing.Below(old(budgets).closing)))
    {
      ghost var from := budgets;
      ghost var applied := if unacknowledged
                           then PerKind(to.text.Larger(from.text), to.binary.Larger(from.binary),
                                        to.closing.Larger(from.closing))
                           else to;
      ghost var trimmed := old(Model()).WithBudgets(applied).queues;
      lower := false;
      for i := 0 to |REPLAY_KINDS|
        invariant Valid() && Contents() == Mixed(i, trimmed, old(Contents())) && budgets == Mixed(i, applied, from)
        invariant lower == (unacknowledged && ((i > 0 && to.text.Below(from.text))
                                               || (i > 1 && to.binary.Below(from.binary))
                                               || (i > 2 && to.closing.Below(from.closing))))
      {
        var kind := REPLAY_KINDS[i];
        if unacknowledged && to.Of(kind).Below(budgets.Of(kind)) {
          lower := true;
        }
        SetBudget(kind, if unacknowledged then to.Of(kind).Larger(budgets.Of(kind)) else to.Of(kind));
      }
    }

    method GetAfterOf(kind: ReplayKind, afterSeq: nat, throughSeq: Option<nat>) returns (run: seq<Entry>)
      requires Valid()
      ensures run == Within(Contents().Of(kind), afterSeq, throughSeq)
    {
      run := [];
      var queue := QueueOf(kind);
      if queue != null {
        run := queue.GetAfter(afterSeq, throughSeq);
      }
    }

    method GetAfter(afterSeq: nat, throughSeq: Option<nat>) returns (r: Option<seq<Frame>>)
      requires Valid()
      ensures r == Model().GetAfter(afterSeq, throughSeq)
    {
      var run: seq<Entry> := [];
      ghost var q := Contents();
      ghost var t, b := Within(q.text, afterSeq, throughSeq), Within(q.binary, afterSeq, throughSeq);
      for i := 0 to |REPLAY_KINDS|
        invariant i == 0 ==> run == []
        invariant i == 1 ==> run == t
        invariant i == 2 ==> run == Merge(t, b)
        invariant i == 3 ==> run == Model().RunAfter(afterSeq, throughSeq)
      {
        var part := GetAfterOf(REPLAY_KINDS[i], afterSeq, throughSeq);
        run := MergeBySeq(run, part);
      }
      var top := if throughSeq.Some? then Min(throughSeq.value, pushedSeq) else pushedSeq;
      r := if |run| >= top - afterSeq then Some(FramesOf(run)) else None;
    }

    method DisposeKind(kind: ReplayKind)
      requires Valid()
      modifies Queues()
      ensures Valid() && Contents() == old(Contents()).With(kind, [])
    {
      var queue := QueueOf(kind);
      if queue != null {
        queue.Dispose();
      }
    }

    method Dispose()
      requires Valid()
      modifies this, Queues()
      ensures Valid() && Queues() == old(Queues()) && Model() == old(Model()).Dispose()
    {
      ghost var empty: PerKind<seq<Entry>> := PerKind([], [], []);
      for i := 0 to |REPLAY_KINDS|
        invariant Valid() && Queues() == old(Queues()) && budgets == old(budgets)
        invariant Contents() == Mixed(i, empty, old(Contents()))
      {
        DisposeKind(REPLAY_KINDS[i]);
      }
      issuedSeq, pushedSeq, acknowledgedSeq, lowered := 0, 0, 0, None;
    }
  }
}
