/** What a replay buffer holds of the sequenced frames sent, as values: the steps of `ReplayBuffer`, and what they keep
    over every run. */
module Replays {
  import opened Bytes
  import opened Tags

  /** A queue's byte budget. */
  datatype Budget = Limited(bytes: nat) | Unlimited {
    predicate Holds(bytes: nat) { Unlimited? || bytes <= this.bytes }

    predicate Below(other: Budget) { Limited? && (other.Unlimited? || bytes < other.bytes) }

    function Larger(other: Budget): Budget { if Below(other) then other else this }
  }

  datatype Entry = Entry(seqNo: nat, frame: Frame)

  /** One value for each kind's queue. */
  datatype PerKind<+T> = PerKind(text: T, binary: T, closing: T) {
    function Of(kind: ReplayKind): T {
      match kind case Text => text case Binary => binary case Closing => closing
    }

    function With(kind: ReplayKind, value: T): (p: PerKind<T>)
      ensures p.Of(kind) == value && forall other | other != kind :: p.Of(other) == Of(other)
    {
      match kind
      case Text => this.(text := value)
      case Binary => this.(binary := value)
      case Closing => this.(closing := value)
    }
  }

  type Budgets = PerKind<Budget>

  type Queues = PerKind<seq<Entry>>

  /** The frame that ends a channel is small, and none is dropped for size. */
  function QueueBudgets(maxBytes: nat, binaryMaxBytes: nat): Budgets {
    PerKind(Limited(maxBytes), Limited(binaryMaxBytes), Unlimited)
  }

  // ── One queue ──

  function QueueBytes(q: seq<Entry>): nat {
    if q == [] then 0 else |q[0].frame| + QueueBytes(q[1..])
  }

  /** The oldest entries go while the queue is over its budget. */
  function Trim(q: seq<Entry>, budget: Budget): seq<Entry> {
    if q == [] || budget.Holds(QueueBytes(q)) then q else Trim(q[1..], budget)
  }

  /** None larger than the budget is stored. */
  function Store(q: seq<Entry>, budget: Budget, e: Entry): seq<Entry> {
    if budget.Holds(|e.frame|) then Trim(q + [e], budget) else q
  }

  function Unacknowledged(q: seq<Entry>, lastSeq: nat): seq<Entry> {
    if q == [] || q[0].seqNo > lastSeq then q else Unacknowledged(q[1..], lastSeq)
  }

  predicate UpTo(seqNo: nat, throughSeq: Option<nat>) {
    throughSeq.None? || seqNo <= throughSeq.value
  }

  /** The first entries through `throughSeq`, all of them for `None`. */
  function Through(q: seq<Entry>, throughSeq: Option<nat>): seq<Entry> {
    if q == [] || !UpTo(q[0].seqNo, throughSeq) then []
    else [q[0]] + Through(q[1..], throughSeq)
  }

  function Within(q: seq<Entry>, afterSeq: nat, throughSeq: Option<nat>): seq<Entry> {
    Through(Unacknowledged(q, afterSeq), throughSeq)
  }

  /** Two runs sorted by seq, merged. */
  function Merge(a: seq<Entry>, b: seq<Entry>): seq<Entry> {
    if a == [] then b
    else if b == [] then a
    else if a[0].seqNo <= b[0].seqNo then [a[0]] + Merge(a[1..], b)
    else [b[0]] + Merge(a, b[1..])
  }

  function FramesOf(q: seq<Entry>): (frames: seq<Frame>)
    ensures |frames| == |q| && forall i | 0 <= i < |q| :: frames[i] == q[i].frame
  {
    seq(|q|, i requires 0 <= i < |q| => q[i].frame)
  }

  // ── The buffer ──

  /** Lower budgets than the queues', which apply once the peer acknowledged every seq through `throughSeq`. */
  datatype Lowered = Lowered(budgets: Budgets, throughSeq: nat)

  datatype Replay = Replay(queues: Queues, budgets: Budgets, issued: nat, pushed: nat, acked: nat,
                           lowered: Option<Lowered>)
  {
    function Length(): nat { |queues.text| + |queues.binary| + |queues.closing| }

    function NextSeq(): Replay { this.(issued := issued + 1) }

    function Push(seqNo: nat, frame: Frame): Replay
      requires Sequenced(frame)
    {
      var kind := ReplayKindOf(frame[0]);
      this.(pushed := seqNo,
            queues := queues.With(kind, Store(queues.Of(kind), budgets.Of(kind), Entry(seqNo, frame))))
    }

    function WithBudgets(to: Budgets): Replay {
      this.(budgets := to,
            queues := PerKind(Trim(queues.text, to.text), Trim(queues.binary, to.binary),
                              Trim(queues.closing, to.closing)))
    }

    function Release(lastSeq: nat): Replay {
      this.(acked := lastSeq,
            queues := PerKind(Unacknowledged(queues.text, lastSeq), Unacknowledged(queues.binary, lastSeq),
                              Unacknowledged(queues.closing, lastSeq)))
    }

    /** The peer has every frame through `lastSeq`: they go, and a lowered budget that waited for them applies. */
    function Acknowledge(lastSeq: nat): Replay {
      if lastSeq <= acked then this
      else
        var released := Release(lastSeq);
        if lowered.None? || lastSeq < lowered.value.throughSeq then released
        else released.(lowered := None).WithBudgets(lowered.value.budgets)
    }

    /** A lower budget waits till the peer acknowledges what was issued when the first one pending came. */
    function SetLimits(maxBytes: nat, binaryMaxBytes: nat): Replay {
      var to := QueueBudgets(maxBytes, binaryMaxBytes);
      if acked >= issued then this.(lowered := None).WithBudgets(to)
      else
        var lower := to.text.Below(budgets.text) || to.binary.Below(budgets.binary)
                     || to.closing.Below(budgets.closing);
        var throughSeq := if lowered.Some? then lowered.value.throughSeq else issued;
        this.(lowered := if lower then Some(Lowered(to, throughSeq)) else None)
        .WithBudgets(PerKind(to.text.Larger(budgets.text), to.binary.Larger(budgets.binary),
                             to.closing.Larger(budgets.closing)))
    }

    /** The stored entries after `afterSeq` through `throughSeq`, of all queues by seq. */
    function RunAfter(afterSeq: nat, throughSeq: Option<nat>): seq<Entry> {
      Merge(Merge(Within(queues.text, afterSeq, throughSeq), Within(queues.binary, afterSeq, throughSeq)),
            Within(queues.closing, afterSeq, throughSeq))
    }

    function Top(throughSeq: Option<nat>): nat {
      if throughSeq.Some? then Min(throughSeq.value, pushed) else pushed
    }

    /** The frames after `afterSeq` through `throughSeq`, or `None` if one of them was dropped. */
    function GetAfter(afterSeq: nat, throughSeq: Option<nat>): Option<seq<Frame>> {
      var run := RunAfter(afterSeq, throughSeq);
      if |run| >= Top(throughSeq) - afterSeq then Some(FramesOf(run)) else None
    }

    function Dispose(): Replay {
      Replay(PerKind([], [], []), budgets, 0, 0, 0, None)
    }

    /** The frame of `seqNo` is stored. */
    predicate Held(seqNo: nat) {
      HasSeq(queues.text, seqNo) || HasSeq(queues.binary, seqNo) || HasSeq(queues.closing, seqNo)
    }

    // ── Runs whose pushes are consecutive ──

    /** `q` holds frames of `kind` among `sent`, each by its seq, in order, none acknowledged, within its budget. */
    predicate QueueOf(kind: ReplayKind, q: seq<Entry>, sent: seq<Frame>) {
      && Sorted(q)
      && budgets.Of(kind).Holds(QueueBytes(q))
      && forall i | 0 <= i < |q| :: Stores(kind, q[i], sent)
    }

    predicate Stores(kind: ReplayKind, e: Entry, sent: seq<Frame>) {
      && acked < e.seqNo <= |sent| && e.frame == sent[e.seqNo - 1]
      && Sequenced(e.frame) && ReplayKindOf(e.frame[0]) == kind
    }

    /** The frames pushed so far are `sent`, the one of seq n at n - 1. */
    predicate Tracks(sent: seq<Frame>) {
      && pushed == |sent| <= issued
      && (forall kind: ReplayKind :: QueueOf(kind, queues.Of(kind), sent))
      && (lowered.Some? ==> acked < lowered.value.throughSeq <= issued)
    }
  }

  function Fresh(maxBytes: nat, binaryMaxBytes: nat): Replay {
    Replay(PerKind([], [], []), QueueBudgets(maxBytes, binaryMaxBytes), 0, 0, 0, None)
  }

  predicate Sorted(q: seq<Entry>) {
    forall i, j | 0 <= i < j < |q| :: q[i].seqNo < q[j].seqNo
  }

  predicate HasSeq(q: seq<Entry>, seqNo: nat) {
    exists i | 0 <= i < |q| :: q[i].seqNo == seqNo
  }

  // ── One queue's facts ──

  lemma {:induction false} TrimIsSuffix(q: seq<Entry>, budget: Budget) returns (n: nat)
    ensures n <= |q| && Trim(q, budget) == q[n..]
    ensures budget.Holds(QueueBytes(Trim(q, budget)))
    ensures n == 0 <==> budget.Holds(QueueBytes(q))
    ensures n > 0 ==> !budget.Holds(QueueBytes(q[n - 1..]))
  {
    if q == [] || budget.Holds(QueueBytes(q)) {
      n := 0;
    } else {
      var k := TrimIsSuffix(q[1..], budget);
      assert k > 0 ==> q[1..][k - 1..] == q[k..];
      n := k + 1;
    }
  }

  lemma {:induction false} UnacknowledgedIsSuffix(q: seq<Entry>, lastSeq: nat) returns (n: nat)
    requires Sorted(q)
    ensures n <= |q| && Unacknowledged(q, lastSeq) == q[n..]
    ensures forall i | 0 <= i < |q| :: q[i].seqNo <= lastSeq <==> i < n
  {
    if q == [] || q[0].seqNo > lastSeq {
      n := 0;
    } else {
      n := UnacknowledgedIsSuffix(q[1..], lastSeq);
      assert forall i | 1 <= i < |q| :: q[i] == q[1..][i - 1];
      n := n + 1;
    }
  }

  lemma {:induction false} ThroughIsPrefix(q: seq<Entry>, throughSeq: Option<nat>) returns (n: nat)
    requires Sorted(q)
    ensures n <= |q| && Through(q, throughSeq) == q[..n]
    ensures forall i | 0 <= i < |q| :: UpTo(q[i].seqNo, throughSeq) <==> i < n
  {
    if q == [] || !UpTo(q[0].seqNo, throughSeq) {
      n := 0;
    } else {
      n := ThroughIsPrefix(q[1..], throughSeq);
      assert forall i | 1 <= i < |q| :: q[i] == q[1..][i - 1];
      assert [q[0]] + q[1..][..n] == q[..n + 1];
      n := n + 1;
    }
  }

  lemma {:induction false} QueueBytesAppend(a: seq<Entry>, b: seq<Entry>)
    ensures QueueBytes(a + b) == QueueBytes(a) + QueueBytes(b)
  {
    if a == [] {
      assert a + b == b;
    } else {
      assert (a + b)[1..] == a[1..] + b;
      QueueBytesAppend(a[1..], b);
    }
  }

  lemma SuffixBytes(q: seq<Entry>, n: nat)
    requires n <= |q|
    ensures QueueBytes(q[n..]) <= QueueBytes(q)
  {
    assert q == q[..n] + q[n..];
    QueueBytesAppend(q[..n], q[n..]);
  }

  // ── The merge ──

  /** `run` has the seqs of `a` and `b`, each once, in order. */
  ghost predicate Merges(run: seq<Entry>, a: seq<Entry>, b: seq<Entry>) {
    && |run| == |a| + |b| && Sorted(run)
    && (forall e :: e in run <==> e in a || e in b)
  }

  predicate Disjoint(a: seq<Entry>, b: seq<Entry>) {
    forall i, j | 0 <= i < |a| && 0 <= j < |b| :: a[i].seqNo != b[j].seqNo
  }

  lemma {:induction false} MergeMerges(a: seq<Entry>, b: seq<Entry>)
    requires Sorted(a) && Sorted(b) && Disjoint(a, b)
    ensures Merges(Merge(a, b), a, b)
  {
    if a != [] && b != [] {
      if a[0].seqNo <= b[0].seqNo {
        MergeMerges(a[1..], b);
        Prepend(a[0], Merge(a[1..], b), a, b, a[1..], b);
      } else {
        MergeMerges(a, b[1..]);
        Prepend(b[0], Merge(a, b[1..]), b, a, b[1..], a);
      }
    }
  }

  lemma Prepend(first: Entry, rest: seq<Entry>, a: seq<Entry>, b: seq<Entry>, tail: seq<Entry>, other: seq<Entry>)
    requires a == [first] + tail && b == other && Sorted(a) && Sorted(b) && Disjoint(a, b)
    requires b != [] && first.seqNo <= b[0].seqNo
    requires Merges(rest, tail, other) || Merges(rest, other, tail)
    ensures Merges([first] + rest, a, b) && Merges([first] + rest, b, a)
  {
    var run := [first] + rest;
    assert a[0] == first;
    forall j | 0 < j < |run|
      ensures first.seqNo < run[j].seqNo
    {
      assert run[j] in rest;
      if run[j] in tail {
        var i :| 0 <= i < |tail| && tail[i] == run[j];
        assert a[i + 1] == run[j];
      }
    }
    assert forall e :: e in a <==> e == first || e in tail;
  }

  /** Sorted seqs after `a` through `top` are at most top - a, and then all of them. */
  lemma {:induction false} FullRun(run: seq<Entry>, a: nat, top: nat)
    requires Sorted(run) && forall i | 0 <= i < |run| :: a < run[i].seqNo <= top
    ensures |run| <= top - a || (run == [] && top <= a)
    ensures |run| >= top - a ==> forall i | 0 <= i < |run| :: run[i].seqNo == a + 1 + i
  {
    if run != [] {
      var n := |run| - 1;
      FullRun(run[..n], a, run[n].seqNo - 1);
    }
  }

  // ── Main results ──

  /** With consecutive pushes, what is asked for is answered in full, in seq order, exactly when none of it was dropped. */
  lemma GetAfterExact(r: Replay, sent: seq<Frame>, afterSeq: nat, throughSeq: Option<nat>)
    requires r.Tracks(sent)
    ensures var top := r.Top(throughSeq);
            && (r.GetAfter(afterSeq, throughSeq).Some? <==> forall s | afterSeq < s <= top :: r.Held(s))
            && (r.GetAfter(afterSeq, throughSeq).Some? ==>
                  r.GetAfter(afterSeq, throughSeq).value == if afterSeq <= top then sent[afterSeq..top] else [])
  {
    var run, top := r.RunAfter(afterSeq, throughSeq), r.Top(throughSeq);
    RunHolds(r, sent, afterSeq, throughSeq);
    FullRun(run, afterSeq, top);
    if |run| >= top - afterSeq {
      forall s | afterSeq < s <= top
        ensures r.Held(s)
      {
        assert run[s - afterSeq - 1].seqNo == s;
        assert r.Held(run[s - afterSeq - 1].seqNo);
      }
    } else if forall s | afterSeq < s <= top :: r.Held(s) {
      assert forall s | afterSeq < s <= top :: HasSeq(run, s);
      RunReaches(run, afterSeq, top);
    }
  }

  /** Every seq of the span in the run makes it as long as the span. */
  lemma {:induction false} RunReaches(run: seq<Entry>, a: nat, top: nat)
    requires Sorted(run) && forall i | 0 <= i < |run| :: a < run[i].seqNo <= top
    requires forall s | a < s <= top :: HasSeq(run, s)
    ensures |run| >= top - a
    decreases top
  {
    if top > a {
      assert HasSeq(run, top);
      var k :| 0 <= k < |run| && run[k].seqNo == top;
      BelowTop(run, k, a, top);
      RunReaches(run[..k], a, top - 1);
    }
  }

  /** The entry at the span's end is the run's last; what comes before it holds the rest of the span. */
  lemma BelowTop(run: seq<Entry>, k: nat, a: nat, top: nat)
    requires k < |run| && run[k].seqNo == top > a
    requires Sorted(run) && forall i | 0 <= i < |run| :: a < run[i].seqNo <= top
    requires forall s | a < s <= top :: HasSeq(run, s)
    ensures k == |run| - 1 && Sorted(run[..k]) && forall i | 0 <= i < k :: a < run[..k][i].seqNo <= top - 1
    ensures forall s | a < s <= top - 1 :: HasSeq(run[..k], s)
  {
    assert run[|run| - 1].seqNo <= top;
    forall s | a < s <= top - 1
      ensures HasSeq(run[..k], s)
    {
      assert HasSeq(run, s);
      var j :| 0 <= j < |run| && run[j].seqNo == s;
      assert run[..k][j].seqNo == s;
    }
  }

  lemma WithinHolds(q: seq<Entry>, afterSeq: nat, throughSeq: Option<nat>)
    requires Sorted(q)
    ensures Sorted(Within(q, afterSeq, throughSeq))
    ensures forall e :: e in Within(q, afterSeq, throughSeq) <==>
                        e in q && afterSeq < e.seqNo && UpTo(e.seqNo, throughSeq)
  {
    var n := UnacknowledgedIsSuffix(q, afterSeq);
    var m := ThroughIsPrefix(q[n..], throughSeq);
    forall e | e in q && afterSeq < e.seqNo && UpTo(e.seqNo, throughSeq)
      ensures e in q[n..][..m]
    {
      var i :| 0 <= i < |q| && q[i] == e;
      InSpan(q, n, m, i);
    }
    forall e | e in q[n..][..m]
      ensures e in q && afterSeq < e.seqNo && UpTo(e.seqNo, throughSeq)
    {
      var i :| 0 <= i < m && q[n..][i] == e;
      assert q[n + i] == e;
    }
  }

  lemma InSpan(q: seq<Entry>, n: nat, m: nat, i: nat)
    requires n <= |q| && m <= |q| - n && i < |q| && (n <= i ==> i - n < m) && n <= i
    ensures q[i] in q[n..][..m]
  {
    assert q[n..][..m][i - n] == q[i];
  }

  /** What `kind`'s queue holds of the span. */
  lemma KindWithin(r: Replay, sent: seq<Frame>, kind: ReplayKind, afterSeq: nat, throughSeq: Option<nat>)
    returns (w: seq<Entry>)
    requires r.Tracks(sent)
    ensures w == Within(r.queues.Of(kind), afterSeq, throughSeq) && Sorted(w)
    ensures forall i | 0 <= i < |w| :: r.Stores(kind, w[i], sent) && Spans(w[i], sent, afterSeq, r.Top(throughSeq))
    ensures forall s :: HasSeq(w, s) ==> HasSeq(r.queues.Of(kind), s)
    ensures forall s | afterSeq < s <= r.Top(throughSeq) && HasSeq(r.queues.Of(kind), s) :: HasSeq(w, s)
  {
    var q := r.queues.Of(kind);
    w := Within(q, afterSeq, throughSeq);
    assert r.QueueOf(kind, q, sent);
    WithinHolds(q, afterSeq, throughSeq);
    forall i | 0 <= i < |w|
      ensures r.Stores(kind, w[i], sent) && Spans(w[i], sent, afterSeq, r.Top(throughSeq)) && HasSeq(q, w[i].seqNo)
    {
      assert w[i] in w;
      var k :| 0 <= k < |q| && q[k] == w[i];
      assert r.Stores(kind, q[k], sent);
    }
    forall s | afterSeq < s <= r.Top(throughSeq) && HasSeq(q, s)
      ensures HasSeq(w, s)
    {
      var k :| 0 <= k < |q| && q[k].seqNo == s;
      assert q[k] in w;
    }
  }

  lemma MergedHasSeq(run: seq<Entry>, a: seq<Entry>, b: seq<Entry>, s: nat)
    requires Merges(run, a, b)
    ensures HasSeq(run, s) <==> HasSeq(a, s) || HasSeq(b, s)
  {
    if HasSeq(run, s) {
      var i :| 0 <= i < |run| && run[i].seqNo == s;
      assert run[i] in run;
    }
    if HasSeq(a, s) {
      var i :| 0 <= i < |a| && a[i].seqNo == s;
      assert a[i] in a && a[i] in run;
    }
    if HasSeq(b, s) {
      var i :| 0 <= i < |b| && b[i].seqNo == s;
      assert b[i] in b && b[i] in run;
    }
  }

  /** An entry of the span as `sent` has it. */
  predicate Spans(e: Entry, sent: seq<Frame>, afterSeq: nat, top: nat) {
    afterSeq < e.seqNo <= top && e.seqNo <= |sent| && e.frame == sent[e.seqNo - 1]
  }

  lemma MergedSpans(run: seq<Entry>, a: seq<Entry>, b: seq<Entry>, sent: seq<Frame>, afterSeq: nat, top: nat)
    requires Merges(run, a, b)
    requires forall i | 0 <= i < |a| :: Spans(a[i], sent, afterSeq, top)
    requires forall i | 0 <= i < |b| :: Spans(b[i], sent, afterSeq, top)
    ensures forall i | 0 <= i < |run| :: Spans(run[i], sent, afterSeq, top)
  {
    forall i | 0 <= i < |run|
      ensures Spans(run[i], sent, afterSeq, top)
    {
      assert run[i] in run;
    }
  }

  /** Two kinds' queues store no seq in common. */
  lemma KindsDisjoint(r: Replay, sent: seq<Frame>, a: ReplayKind, b: ReplayKind, v: seq<Entry>, w: seq<Entry>)
    requires a != b
    requires forall i | 0 <= i < |v| :: r.Stores(a, v[i], sent)
    requires forall i | 0 <= i < |w| :: r.Stores(b, w[i], sent)
    ensures Disjoint(v, w)
  {
  }

  /** Three sorted runs of the span merge into one of all their seqs. */
  lemma MergeThree(t: seq<Entry>, b: seq<Entry>, c: seq<Entry>, sent: seq<Frame>, afterSeq: nat, top: nat)
    requires Sorted(t) && Sorted(b) && Sorted(c) && Disjoint(t, b) && Disjoint(t, c) && Disjoint(b, c)
    requires forall i | 0 <= i < |t| :: Spans(t[i], sent, afterSeq, top)
    requires forall i | 0 <= i < |b| :: Spans(b[i], sent, afterSeq, top)
    requires forall i | 0 <= i < |c| :: Spans(c[i], sent, afterSeq, top)
    ensures var run := Merge(Merge(t, b), c);
            && Sorted(run)
            && (forall i | 0 <= i < |run| :: Spans(run[i], sent, afterSeq, top))
            && (forall s :: HasSeq(run, s) <==> HasSeq(t, s) || HasSeq(b, s) || HasSeq(c, s))
  {
    var tb := Merge(t, b);
    MergeMerges(t, b);
    MergedDisjoint(tb, t, b, c);
    var run := Merge(tb, c);
    MergeMerges(tb, c);
    MergedSpans(tb, t, b, sent, afterSeq, top);
    MergedSpans(run, tb, c, sent, afterSeq, top);
    forall s
      ensures HasSeq(run, s) <==> HasSeq(t, s) || HasSeq(b, s) || HasSeq(c, s)
    {
      MergedHasSeq(tb, t, b, s);
      MergedHasSeq(run, tb, c, s);
    }
  }

  /** The merged run is what is held of the span, in order. */
  lemma RunHolds(r: Replay, sent: seq<Frame>, afterSeq: nat, throughSeq: Option<nat>)
    requires r.Tracks(sent)
    ensures var run, top := r.RunAfter(afterSeq, throughSeq), r.Top(throughSeq);
            && Sorted(run)
            && (forall i | 0 <= i < |run| :: Spans(run[i], sent, afterSeq, top) && r.Held(run[i].seqNo))
            && (forall s | afterSeq < s <= top && r.Held(s) :: HasSeq(run, s))
  {
    var t := KindWithin(r, sent, Text, afterSeq, throughSeq);
    var b := KindWithin(r, sent, Binary, afterSeq, throughSeq);
    var c := KindWithin(r, sent, Closing, afterSeq, throughSeq);
    KindsDisjoint(r, sent, Text, Binary, t, b);
    KindsDisjoint(r, sent, Text, Closing, t, c);
    KindsDisjoint(r, sent, Binary, Closing, b, c);
    MergeThree(t, b, c, sent, afterSeq, r.Top(throughSeq));
    var run := Merge(Merge(t, b), c);
    assert run == r.RunAfter(afterSeq, throughSeq);
    forall i | 0 <= i < |run|
      ensures r.Held(run[i].seqNo)
    {
      assert HasSeq(run, run[i].seqNo);
    }
  }

  lemma MergedDisjoint(run: seq<Entry>, a: seq<Entry>, b: seq<Entry>, c: seq<Entry>)
    requires Merges(run, a, b) && Disjoint(a, c) && Disjoint(b, c)
    ensures Disjoint(run, c)
  {
    forall i, j | 0 <= i < |run| && 0 <= j < |c|
      ensures run[i].seqNo != c[j].seqNo
    {
      assert run[i] in run;
    }
  }

  // ── What every step keeps ──

  lemma SuffixStores(r: Replay, r': Replay, kind: ReplayKind, q: seq<Entry>, n: nat, sent: seq<Frame>)
    requires n <= |q| && Sorted(q) && r'.budgets.Of(kind).Holds(QueueBytes(q[n..]))
    requires forall i | 0 <= i < |q| :: r.Stores(kind, q[i], sent)
    requires forall i | n <= i < |q| :: r'.acked < q[i].seqNo
    ensures r'.QueueOf(kind, q[n..], sent)
  {
  }

  lemma StoredIsUnacknowledged(r: Replay, kind: ReplayKind, q: seq<Entry>, sent: seq<Frame>)
    requires r.QueueOf(kind, q, sent)
    ensures q != [] ==> r.acked < |sent|
  {
    if q != [] {
      assert r.Stores(kind, q[0], sent);
    }
  }

  lemma SetLimitsTracks(r: Replay, sent: seq<Frame>, maxBytes: nat, binaryMaxBytes: nat)
    requires r.Tracks(sent)
    ensures r.SetLimits(maxBytes, binaryMaxBytes).Tracks(sent)
    ensures r.SetLimits(maxBytes, binaryMaxBytes).queues == r.queues
  {
    var r' := r.SetLimits(maxBytes, binaryMaxBytes);
    forall kind: ReplayKind
      ensures r'.queues.Of(kind) == r.queues.Of(kind) && r'.QueueOf(kind, r'.queues.Of(kind), sent)
    {
      var q := r.queues.Of(kind);
      assert r.QueueOf(kind, q, sent);
      StoredIsUnacknowledged(r, kind, q, sent);
      assert Trim(q, r'.budgets.Of(kind)) == q;
    }
    assert r'.queues.Of(Text) == r.queues.text && r'.queues.Of(Binary) == r.queues.binary
           && r'.queues.Of(Closing) == r.queues.closing;
  }

  lemma ReleaseTracks(r: Replay, sent: seq<Frame>, lastSeq: nat)
    requires r.Tracks(sent) && lastSeq > r.acked
    ensures forall kind: ReplayKind :: r.Release(lastSeq).QueueOf(kind, r.Release(lastSeq).queues.Of(kind), sent)
    ensures forall s | s > lastSeq :: r.Release(lastSeq).Held(s) <==> r.Held(s)
  {
    var r' := r.Release(lastSeq);
    forall kind: ReplayKind
      ensures r'.QueueOf(kind, r'.queues.Of(kind), sent)
      ensures forall s | s > lastSeq :: HasSeq(r'.queues.Of(kind), s) <==> HasSeq(r.queues.Of(kind), s)
    {
      var q := r.queues.Of(kind);
      assert r.QueueOf(kind, q, sent);
      var n := UnacknowledgedIsSuffix(q, lastSeq);
      SuffixBytes(q, n);
      SuffixStores(r, r', kind, q, n, sent);
      SuffixHas(q, n, lastSeq);
    }
    assert r'.queues.Of(Text) == r'.queues.text && r.queues.Of(Text) == r.queues.text;
    assert r'.queues.Of(Binary) == r'.queues.binary && r.queues.Of(Binary) == r.queues.binary;
    assert r'.queues.Of(Closing) == r'.queues.closing && r.queues.Of(Closing) == r.queues.closing;
  }

  /** Dropping the first `n`, all at most `lastSeq`, drops no later seq. */
  lemma SuffixHas(q: seq<Entry>, n: nat, lastSeq: nat)
    requires n <= |q| && forall i | 0 <= i < n :: q[i].seqNo <= lastSeq
    ensures forall s | s > lastSeq :: HasSeq(q[n..], s) <==> HasSeq(q, s)
  {
    forall s | s > lastSeq && HasSeq(q, s)
      ensures HasSeq(q[n..], s)
    {
      var i :| 0 <= i < |q| && q[i].seqNo == s;
      assert q[n..][i - n] == q[i];
    }
    forall s | HasSeq(q[n..], s)
      ensures HasSeq(q, s)
    {
      var i :| 0 <= i < |q[n..]| && q[n..][i].seqNo == s;
      assert q[n + i] == q[n..][i];
    }
  }

  lemma WithBudgetsTracks(r: Replay, sent: seq<Frame>, to: Budgets)
    requires forall kind: ReplayKind :: r.QueueOf(kind, r.queues.Of(kind), sent)
    ensures forall kind: ReplayKind :: r.WithBudgets(to).QueueOf(kind, r.WithBudgets(to).queues.Of(kind), sent)
  {
    var r' := r.WithBudgets(to);
    forall kind: ReplayKind
      ensures r'.QueueOf(kind, r'.queues.Of(kind), sent)
    {
      var q := r.queues.Of(kind);
      assert r.QueueOf(kind, q, sent);
      var n := TrimIsSuffix(q, to.Of(kind));
      SuffixStores(r, r', kind, q, n, sent);
    }
  }

  lemma AcknowledgeTracks(r: Replay, sent: seq<Frame>, lastSeq: nat)
    requires r.Tracks(sent)
    ensures r.Acknowledge(lastSeq).Tracks(sent)
  {
    if lastSeq > r.acked {
      ReleaseTracks(r, sent, lastSeq);
      if r.lowered.Some? && lastSeq >= r.lowered.value.throughSeq {
        WithBudgetsTracks(r.Release(lastSeq).(lowered := None), sent, r.lowered.value.budgets);
      }
    }
  }

  /** What a queue stores, it stores still once more was sent. */
  lemma StoresStill(r: Replay, r': Replay, kind: ReplayKind, q: seq<Entry>, sent: seq<Frame>, frame: Frame)
    requires r.QueueOf(kind, q, sent) && r'.budgets == r.budgets && r'.acked == r.acked
    ensures r'.QueueOf(kind, q, sent + [frame])
  {
    forall i | 0 <= i < |q|
      ensures r'.Stores(kind, q[i], sent + [frame])
    {
      assert r.Stores(kind, q[i], sent);
    }
  }

  lemma StoreTracks(r: Replay, kind: ReplayKind, q: seq<Entry>, e: Entry, sent: seq<Frame>)
    requires Sorted(q) && forall i | 0 <= i < |q| :: r.Stores(kind, q[i], sent) && q[i].seqNo < e.seqNo
    requires r.budgets.Of(kind).Holds(QueueBytes(q)) && r.Stores(kind, e, sent)
    ensures r.QueueOf(kind, Store(q, r.budgets.Of(kind), e), sent)
  {
    if r.budgets.Of(kind).Holds(|e.frame|) {
      AppendStores(r, kind, q, e, sent);
      TrimTracks(r, kind, q + [e], sent);
    }
  }

  lemma TrimTracks(r: Replay, kind: ReplayKind, q: seq<Entry>, sent: seq<Frame>)
    requires Sorted(q) && forall i | 0 <= i < |q| :: r.Stores(kind, q[i], sent)
    ensures r.QueueOf(kind, Trim(q, r.budgets.Of(kind)), sent)
  {
    var n := TrimIsSuffix(q, r.budgets.Of(kind));
    SuffixStores(r, r, kind, q, n, sent);
  }

  lemma AppendStores(r: Replay, kind: ReplayKind, q: seq<Entry>, e: Entry, sent: seq<Frame>)
    requires Sorted(q) && (forall i | 0 <= i < |q| :: r.Stores(kind, q[i], sent) && q[i].seqNo < e.seqNo)
    requires r.Stores(kind, e, sent)
    ensures Sorted(q + [e]) && forall i | 0 <= i < |q + [e]| :: r.Stores(kind, (q + [e])[i], sent)
  {
    var all := q + [e];
    forall i | 0 <= i < |all|
      ensures r.Stores(kind, all[i], sent)
    {
      if i < |q| {
        assert all[i] == q[i];
      }
    }
  }

  /** The next frame is pushed at the next seq. */
  lemma PushTracks(r: Replay, sent: seq<Frame>, frame: Frame)
    requires r.Tracks(sent) && r.acked <= r.pushed < r.issued && Sequenced(frame)
    ensures r.Push(r.pushed + 1, frame).Tracks(sent + [frame])
  {
    var r', sent' := r.Push(r.pushed + 1, frame), sent + [frame];
    var pushedTo := ReplayKindOf(frame[0]);
    forall kind: ReplayKind
      ensures r'.QueueOf(kind, r'.queues.Of(kind), sent')
    {
      var q := r.queues.Of(kind);
      assert r.QueueOf(kind, q, sent);
      StoresStill(r, r', kind, q, sent, frame);
      if kind == pushedTo {
        assert forall i | 0 <= i < |q| :: r.Stores(kind, q[i], sent);
        StoreTracks(r', kind, q, Entry(r.pushed + 1, frame), sent');
      }
    }
  }

  /** What a channel does to its replay. */
  datatype Op = Issue | PushNext(frame: Frame) | Ack(lastSeq: nat) | Limit(maxBytes: nat, binaryMaxBytes: nat)

  /** The gate pushes the next seq issued; the peer acknowledges only what was pushed. */
  predicate Allowed(r: Replay, op: Op) {
    match op
    case PushNext(frame) => r.pushed < r.issued && Sequenced(frame)
    case Ack(lastSeq) => lastSeq <= r.pushed
    case _ => true
  }

  function Apply(r: Replay, op: Op): Replay
    requires Allowed(r, op)
  {
    match op
    case Issue => r.NextSeq()
    case PushNext(frame) => r.Push(r.pushed + 1, frame)
    case Ack(lastSeq) => r.Acknowledge(lastSeq)
    case Limit(maxBytes, binaryMaxBytes) => r.SetLimits(maxBytes, binaryMaxBytes)
  }

  predicate AllowedRun(r: Replay, ops: seq<Op>)
    decreases |ops|
  {
    ops == [] || (Allowed(r, ops[0]) && AllowedRun(Apply(r, ops[0]), ops[1..]))
  }

  function Run(r: Replay, ops: seq<Op>): Replay
    requires AllowedRun(r, ops)
    decreases |ops|
  {
    if ops == [] then r else Run(Apply(r, ops[0]), ops[1..])
  }

  /** The frames `ops` push, in order. */
  function PushedBy(ops: seq<Op>): seq<Frame> {
    if ops == [] then []
    else (if ops[0].PushNext? then [ops[0].frame] else []) + PushedBy(ops[1..])
  }

  lemma StepTracks(r: Replay, sent: seq<Frame>, op: Op)
    requires r.Tracks(sent) && r.acked <= r.pushed && Allowed(r, op)
    ensures Apply(r, op).Tracks(sent + PushedBy([op])) && Apply(r, op).acked <= Apply(r, op).pushed
  {
    assert PushedBy([op]) == if op.PushNext? then [op.frame] else [];
    assert sent + [] == sent;
    match op {
      case Issue =>
        forall kind: ReplayKind
          ensures r.NextSeq().QueueOf(kind, r.queues.Of(kind), sent)
        {
          assert r.QueueOf(kind, r.queues.Of(kind), sent);
          assert forall i | 0 <= i < |r.queues.Of(kind)| :: r.Stores(kind, r.queues.Of(kind)[i], sent);
        }
      case PushNext(frame) => PushTracks(r, sent, frame);
      case Ack(lastSeq) => AcknowledgeTracks(r, sent, lastSeq);
      case Limit(a, b) => SetLimitsTracks(r, sent, a, b);
    }
  }

  /** Over every run of issues, pushes, acknowledgements and limits, the buffer tracks exactly what was pushed. */
  lemma {:induction false} RunTracks(r: Replay, sent: seq<Frame>, ops: seq<Op>)
    requires r.Tracks(sent) && r.acked <= r.pushed && AllowedRun(r, ops)
    ensures Run(r, ops).Tracks(sent + PushedBy(ops)) && Run(r, ops).acked <= Run(r, ops).pushed
    decreases |ops|
  {
    if ops == [] {
      assert sent + [] == sent;
    } else {
      StepTracks(r, sent, ops[0]);
      RunTracks(Apply(r, ops[0]), sent + PushedBy([ops[0]]), ops[1..]);
      assert PushedBy(ops) == PushedBy([ops[0]]) + PushedBy(ops[1..]);
      assert sent + PushedBy(ops) == sent + PushedBy([ops[0]]) + PushedBy(ops[1..]);
    }
  }

  // ── What is evicted ──

  /** After an acknowledgement, a kind's unacknowledged frames no longer fit the lowered budget that now applies. */
  predicate LoweringOverflows(r: Replay, lastSeq: nat, kind: ReplayKind) {
    && r.lowered.Some? && r.lowered.value.throughSeq <= lastSeq
    && !r.lowered.value.budgets.Of(kind).Holds(QueueBytes(Unacknowledged(r.queues.Of(kind), lastSeq)))
  }

  lemma HasOfKind(r: Replay, s: nat)
    ensures r.Held(s) <==> exists kind: ReplayKind :: HasSeq(r.queues.Of(kind), s)
  {
    assert r.queues.Of(Text) == r.queues.text && r.queues.Of(Binary) == r.queues.binary;
    assert r.queues.Of(Closing) == r.queues.closing;
  }

  /** A seq trimmed from its kind's queue is held no more. */
  lemma TrimmedIsGone(r: Replay, sent: seq<Frame>, to: Budgets, kind: ReplayKind, s: nat)
    requires forall k: ReplayKind :: r.QueueOf(k, r.queues.Of(k), sent)
    requires HasSeq(r.queues.Of(kind), s) && !HasSeq(Trim(r.queues.Of(kind), to.Of(kind)), s)
    ensures r.Held(s) && !r.WithBudgets(to).Held(s)
  {
    var r' := r.WithBudgets(to);
    HasOfKind(r, s);
    HeldOnce(r, sent, kind, s);
    forall k: ReplayKind
      ensures !HasSeq(r'.queues.Of(k), s)
    {
      assert r.QueueOf(k, r.queues.Of(k), sent);
      TrimEvicts(r.queues.Of(k), to.Of(k));
    }
    HasOfKind(r', s);
  }

  /** A lowered budget that applies and that `kind`'s frames exceed evicts one of them. */
  lemma OverflowEvicts(r: Replay, sent: seq<Frame>, lastSeq: nat, kind: ReplayKind) returns (s: nat)
    requires r.Tracks(sent) && lastSeq > r.acked && LoweringOverflows(r, lastSeq, kind)
    ensures s > lastSeq && r.Held(s) && !r.Acknowledge(lastSeq).Held(s)
  {
    var released, to := r.Release(lastSeq), r.lowered.value.budgets;
    ReleaseTracks(r, sent, lastSeq);
    var q := released.queues.Of(kind);
    assert released.QueueOf(kind, q, sent);
    TrimEvicts(q, to.Of(kind));
    s :| HasSeq(q, s) && !HasSeq(Trim(q, to.Of(kind)), s);
    var i :| 0 <= i < |q| && q[i].seqNo == s;
    assert released.Stores(kind, q[i], sent);
    TrimmedIsGone(released, sent, to, kind, s);
    assert r.Acknowledge(lastSeq).queues == released.WithBudgets(to).queues;
  }

  /** Only a lowered budget that applies and is exceeded evicts an unacknowledged frame. */
  lemma EvictedByOverflow(r: Replay, sent: seq<Frame>, lastSeq: nat, s: nat) returns (kind: ReplayKind)
    requires r.Tracks(sent) && s > lastSeq > r.acked && r.Held(s) && !r.Acknowledge(lastSeq).Held(s)
    ensures LoweringOverflows(r, lastSeq, kind) && s > r.lowered.value.throughSeq
  {
    var released, r' := r.Release(lastSeq), r.Acknowledge(lastSeq);
    ReleaseTracks(r, sent, lastSeq);
    HasOfKind(released, s);
    HasOfKind(r', s);
    kind :| HasSeq(released.queues.Of(kind), s);
    assert released.QueueOf(kind, released.queues.Of(kind), sent);
    TrimEvicts(released.queues.Of(kind), r.lowered.value.budgets.Of(kind));
  }

  /** `setLimits` evicts nothing. An acknowledgement evicts an unacknowledged frame exactly where it applies a pending
      lower budget that the frames still unacknowledged exceed; each was issued after the lowering began to wait. */
  lemma AcknowledgeEvicts(r: Replay, sent: seq<Frame>, lastSeq: nat)
    requires r.Tracks(sent) && lastSeq > r.acked
    ensures (exists s | s > lastSeq :: r.Held(s) && !r.Acknowledge(lastSeq).Held(s)) <==>
            (exists kind: ReplayKind :: LoweringOverflows(r, lastSeq, kind))
    ensures forall s | s > lastSeq && r.Held(s) && !r.Acknowledge(lastSeq).Held(s) :: s > r.lowered.value.throughSeq
  {
    if kind: ReplayKind :| LoweringOverflows(r, lastSeq, kind) {
      var _ := OverflowEvicts(r, sent, lastSeq, kind);
    }
    forall s | s > lastSeq && r.Held(s) && !r.Acknowledge(lastSeq).Held(s)
      ensures r.lowered.Some? && s > r.lowered.value.throughSeq
      ensures exists kind: ReplayKind :: LoweringOverflows(r, lastSeq, kind)
    {
      var _ := EvictedByOverflow(r, sent, lastSeq, s);
    }
  }

  lemma KindOfSeq(r: Replay, kind: ReplayKind, q: seq<Entry>, sent: seq<Frame>, s: nat)
    requires r.QueueOf(kind, q, sent) && HasSeq(q, s)
    ensures 0 < s <= |sent| && Sequenced(sent[s - 1]) && ReplayKindOf(sent[s - 1][0]) == kind
  {
    var i :| 0 <= i < |q| && q[i].seqNo == s;
    assert r.Stores(kind, q[i], sent);
  }

  /** A seq stored in one kind's queue is in no other's. */
  lemma HeldOnce(r: Replay, sent: seq<Frame>, kind: ReplayKind, s: nat)
    requires forall k: ReplayKind :: r.QueueOf(k, r.queues.Of(k), sent)
    requires HasSeq(r.queues.Of(kind), s)
    ensures forall k: ReplayKind :: HasSeq(r.queues.Of(k), s) ==> k == kind
  {
    KindOfSeq(r, kind, r.queues.Of(kind), sent, s);
    forall k: ReplayKind | HasSeq(r.queues.Of(k), s)
      ensures ReplayKindOf(sent[s - 1][0]) == k
    {
      KindOfSeq(r, k, r.queues.Of(k), sent, s);
    }
  }

  /** Trimming drops some seq exactly where the queue is over its budget. */
  lemma TrimEvicts(q: seq<Entry>, budget: Budget)
    requires Sorted(q)
    ensures forall s :: HasSeq(Trim(q, budget), s) ==> HasSeq(q, s)
    ensures !budget.Holds(QueueBytes(q)) <==> exists s :: HasSeq(q, s) && !HasSeq(Trim(q, budget), s)
  {
    var n := TrimIsSuffix(q, budget);
    forall s | HasSeq(q[n..], s)
      ensures HasSeq(q, s)
    {
      var i :| 0 <= i < |q[n..]| && q[n..][i].seqNo == s;
      assert q[n + i] == q[n..][i];
    }
    if n > 0 {
      assert HasSeq(q, q[0].seqNo) && !HasSeq(q[n..], q[0].seqNo);
    }
  }

  /** A pending lowering waits for what was issued when it came, through every later step until it applies or is
      called off. */
  lemma PendingKeepsItsSeq(r: Replay, op: Op)
    requires Allowed(r, op) && Apply(r, op).lowered.Some?
    ensures Apply(r, op).lowered.value.throughSeq ==
            if r.lowered.Some? then r.lowered.value.throughSeq else r.issued
  {
  }

  /** The first lowering's promise, that no frame a reconnect needs is trimmed, fails for a frame issued after it: seq 2
      is unacknowledged, fits the budget in force when it was pushed, and the acknowledgement of seq 1 evicts it. */
  lemma LoweringEvictsLaterFrame(frame: Frame)
    requires frame[0] == TEXT && |frame| == 60
    ensures var r := Fresh(200, 200).NextSeq().Push(1, frame).SetLimits(10, 10).NextSeq().Push(2, frame);
            r.GetAfter(1, None) == Some([frame]) && r.Acknowledge(1).GetAfter(1, None) == None
  {
    var one, two := Entry(1, frame), Entry(2, frame);
    assert [one][1..] == [] && [two][1..] == [] && [one, two][1..] == [two];
    assert QueueBytes([one]) == 60 && QueueBytes([two]) == 60;
    assert QueueBytes([one, two]) == 60 + QueueBytes([two]);
    assert [] + [one] == [one] && [one] + [two] == [one, two];
    var r2 := Fresh(200, 200).NextSeq().Push(1, frame);
    assert r2.queues == PerKind([one], [], []);
    var r3 := r2.SetLimits(10, 10);
    assert r3.queues == r2.queues && r3.budgets == r2.budgets;
    var r5 := r3.NextSeq().Push(2, frame);
    assert r5.queues == PerKind([one, two], [], []);
    assert Unacknowledged([one, two], 1) == [two];
    assert Through([two], None) == [two] + Through([], None);
    assert r5.RunAfter(1, None) == [two];
    assert FramesOf([two]) == [frame];
    assert Trim([two], Limited(10)) == Trim([], Limited(10));
    var r6 := r5.Acknowledge(1);
    assert r6.queues == PerKind([], [], []);
    assert r6.RunAfter(1, None) == [];
  }

  /** A push takes no more than it must: the frame goes to the end of its queue, or nowhere if it is larger than the budget
      by itself; the `n` oldest go, without the last of which the rest would still be over it. */
  lemma PushEvictsTheOldest(r: Replay, frame: Frame) returns (n: nat)
    requires Sequenced(frame)
    ensures var kind := ReplayKindOf(frame[0]);
            var q, q' := r.queues.Of(kind), r.Push(r.pushed + 1, frame).queues.Of(kind);
            var all, budget := q + [Entry(r.pushed + 1, frame)], r.budgets.Of(kind);
            && (!budget.Holds(|frame|) ==> q' == q)
            && (budget.Holds(|frame|) ==>
                  && n <= |all| && q' == all[n..] && budget.Holds(QueueBytes(all[n..]))
                  && (n > 0 ==> !budget.Holds(QueueBytes(all[n - 1..]))))
    ensures forall other: ReplayKind | other != ReplayKindOf(frame[0]) ::
              r.Push(r.pushed + 1, frame).queues.Of(other) == r.queues.Of(other)
  {
    var kind := ReplayKindOf(frame[0]);
    n := TrimIsSuffix(r.queues.Of(kind) + [Entry(r.pushed + 1, frame)], r.budgets.Of(kind));
  }

  // ── The limits in force ──

  /** The budgets of the last limits among `ops`, `before` where there are none. */
  function LastLimits(ops: seq<Op>, before: Budgets): Budgets
    decreases |ops|
  {
    if ops == [] then before
    else LastLimits(ops[1..], if ops[0].Limit? then QueueBudgets(ops[0].maxBytes, ops[0].binaryMaxBytes) else before)
  }

  /** `last` applies, or is pending till all issued before it are acknowledged; no budget is below it meanwhile. */
  predicate Limits(r: Replay, last: Budgets) {
    && (r.lowered.None? ==> r.budgets == last)
    && (r.lowered.Some? ==> r.lowered.value.budgets == last && r.acked < r.lowered.value.throughSeq <= r.issued)
    && (forall kind: ReplayKind :: !r.budgets.Of(kind).Below(last.Of(kind)))
  }

  lemma StepLimits(r: Replay, op: Op, last: Budgets)
    requires Limits(r, last) && Allowed(r, op) && r.acked <= r.pushed <= r.issued
    ensures Limits(Apply(r, op), if op.Limit? then QueueBudgets(op.maxBytes, op.binaryMaxBytes) else last)
  {
    if op.Limit? {
      var to := QueueBudgets(op.maxBytes, op.binaryMaxBytes);
      forall kind: ReplayKind
        ensures !Apply(r, op).budgets.Of(kind).Below(to.Of(kind))
      {
      }
    }
  }

  lemma {:induction false} RunLimits(r: Replay, sent: seq<Frame>, ops: seq<Op>, last: Budgets)
    requires r.Tracks(sent) && r.acked <= r.pushed && AllowedRun(r, ops) && Limits(r, last)
    ensures Limits(Run(r, ops), LastLimits(ops, last))
    decreases |ops|
  {
    if ops != [] {
      StepTracks(r, sent, ops[0]);
      StepLimits(r, ops[0], last);
      RunLimits(Apply(r, ops[0]), sent + PushedBy([ops[0]]), ops[1..],
                if ops[0].Limit? then QueueBudgets(ops[0].maxBytes, ops[0].binaryMaxBytes) else last);
    }
  }

  /** In every run the budgets are never below the last limits given, and are just those once all issued is acknowledged. */
  lemma LastLimitsApply(maxBytes: nat, binaryMaxBytes: nat, ops: seq<Op>)
    requires AllowedRun(Fresh(maxBytes, binaryMaxBytes), ops)
    ensures var r, last := Run(Fresh(maxBytes, binaryMaxBytes), ops),
                           LastLimits(ops, QueueBudgets(maxBytes, binaryMaxBytes));
            && (forall kind: ReplayKind :: !r.budgets.Of(kind).Below(last.Of(kind)))
            && (r.acked >= r.issued ==> r.budgets == last)
  {
    RunLimits(Fresh(maxBytes, binaryMaxBytes), [], ops, QueueBudgets(maxBytes, binaryMaxBytes));
  }

  /** A frame within its kind's budget goes to the end of its queue, and evicts no other while they fit together. */
  lemma PushKeeps(r: Replay, frame: Frame)
    requires Sequenced(frame)
    ensures var kind := ReplayKindOf(frame[0]);
            var r' := r.Push(r.pushed + 1, frame);
            && (r.budgets.Of(kind).Holds(|frame|) ==> r'.Held(r.pushed + 1))
            && (r.budgets.Of(kind).Holds(QueueBytes(r.queues.Of(kind)) + |frame|) ==>
                  && r'.queues == r.queues.With(kind, r.queues.Of(kind) + [Entry(r.pushed + 1, frame)])
                  && forall s :: r.Held(s) ==> r'.Held(s))
  {
    var kind := ReplayKindOf(frame[0]);
    var q, e := r.queues.Of(kind), Entry(r.pushed + 1, frame);
    var r' := r.Push(r.pushed + 1, frame);
    var all := q + [e];
    QueueBytesAppend(q, [e]);
    assert QueueBytes([e]) == |frame| by { assert [e][1..] == []; }
    if r.budgets.Of(kind).Holds(|frame|) {
      var n := TrimIsSuffix(all, r.budgets.Of(kind));
      if n == |all| {
        LastFits(all, r.budgets.Of(kind));
      }
      assert all[n..][|all| - 1 - n] == e;
      assert HasSeq(r'.queues.Of(kind), e.seqNo);
    }
    if r.budgets.Of(kind).Holds(QueueBytes(q) + |frame|) {
      forall s | HasSeq(q, s)
        ensures HasSeq(all, s)
      {
        var i :| 0 <= i < |q| && q[i].seqNo == s;
        assert all[i] == q[i];
      }
    }
  }

  /** Trimming never drops a last entry the budget holds. */
  lemma {:induction false} LastFits(q: seq<Entry>, budget: Budget)
    requires q != [] && budget.Holds(|q[|q| - 1].frame|)
    ensures Trim(q, budget) != []
  {
    if |q| == 1 {
      assert q[1..] == [];
      assert QueueBytes(q) == |q[0].frame|;
    } else {
      LastFits(q[1..], budget);
    }
  }
}
