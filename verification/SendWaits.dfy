/** The longest recent wait, from a stack that drops what a later wait exceeds, searched by halves. */
module SendWaitHistory {
  import opened Bytes

  const KEPT_MS: real := 60_000.0

  datatype Note = Note(at: real, wait: real)

  /** The longest wait of `notes` at or after `at`, 0 for none. */
  function LongestSince(notes: seq<Note>, at: real): (longest: real)
    ensures forall i | 0 <= i < |notes| && notes[i].at >= at :: notes[i].wait <= longest
    ensures longest == 0.0 || exists i | 0 <= i < |notes| :: notes[i].at >= at && notes[i].wait == longest
  {
    if notes == [] then 0.0
    else
      var rest := LongestSince(notes[1..], at);
      assert forall i | 1 <= i < |notes| :: notes[i] == notes[1..][i - 1];
      if notes[0].at >= at && notes[0].wait > rest then notes[0].wait else rest
  }

  /** Later notes came no earlier, and a wait is not negative. */
  predicate InOrder(notes: seq<Note>) {
    && (forall i, j | 0 <= i < j < |notes| :: notes[i].at <= notes[j].at)
    && (forall i | 0 <= i < |notes| :: notes[i].wait >= 0.0)
  }

  /** Each later one waited less. */
  predicate Descends(notes: seq<Note>) {
    forall i, j | 0 <= i < j < |notes| :: notes[i].wait > notes[j].wait
  }

  /** A note at or after `n` waited at least as long. */
  predicate Covers(kept: seq<Note>, n: Note) {
    exists i | 0 <= i < |kept| :: kept[i].at >= n.at && kept[i].wait >= n.wait
  }

  class SendWaits {
    var entries: seq<Note>
    var head: nat
    /** All noted so far. */
    ghost var noted: seq<Note>

    /** What is kept descends, was noted, and covers all noted within the time kept. */
    ghost predicate Valid()
      reads this
    {
      head <= |entries| && (head <= 16 || head < |entries| / 2) && Keeps(entries[head..], noted)
    }

    constructor ()
      ensures Valid() && noted == []
    {
      entries, head, noted := [], 0, [];
    }

    /** Drops the last waits no longer than `wait`. */
    method PopShorter(wait: real) returns (ghost popped: seq<Note>)
      requires head <= |entries|
      modifies this`entries
      ensures head <= |entries| && old(entries) == entries + popped
      ensures |entries| > head ==> entries[|entries| - 1].wait > wait
      ensures forall i | 0 <= i < |popped| :: popped[i].wait <= wait
    {
      popped := [];
      while |entries| > head && entries[|entries| - 1].wait <= wait
        invariant head <= |entries| && old(entries) == entries + popped
        invariant forall i | 0 <= i < |popped| :: popped[i].wait <= wait
        decreases |entries|
      {
        popped := [entries[|entries| - 1]] + popped;
        entries := entries[..|entries| - 1];
      }
    }

    /** Those older than the time kept go, and dead slots now and then. */
    method Drop(at: real)
      requires head < |entries| && noted != [] && at == noted[|noted| - 1].at && Keeps(entries[head..], noted)
      requires entries[|entries| - 1].at == at
      modifies this`entries, this`head
      ensures Valid()
    {
      var to := FirstKept(entries, head, at);
      DropUpTo(entries, head, to, noted);
      head := to;
      ghost var kept := entries[head..];
      Compact();
      assert entries[head..] == kept;
    }

    method Compact()
      requires head < |entries|
      modifies this`entries, this`head
      ensures head < |entries| && (head <= 16 || head < |entries| / 2)
      ensures entries[head..] == old(entries[head..])
    {
      if head > 16 && head >= |entries| / 2 {
        entries, head := entries[head..], 0;
      }
    }

    method Push(n: Note)
      requires Valid() && n.wait >= 0.0 && (noted != [] ==> n.at >= noted[|noted| - 1].at)
      modifies this`entries, this`noted
      ensures noted == old(noted) + [n] && head < |entries| && entries[|entries| - 1] == n
      ensures Keeps(entries[head..], noted)
    {
      ghost var all, was, from := entries, noted, head;
      assert Keeps(all[from..], was);
      ghost var popped := PopShorter(n.wait);
      ghost var front := entries;
      PushedKeeps(all, from, front, popped, n, was);
      entries := entries + [n];
      noted := noted + [n];
      assert entries == front + [n] && noted == was + [n] && head == from;
    }

    method NoteWait(wait: real, at: real)
      requires Valid() && wait >= 0.0 && (noted != [] ==> at >= noted[|noted| - 1].at)
      modifies this
      ensures Valid() && noted == old(noted) + [Note(at, wait)]
    {
      Push(Note(at, wait));
      Drop(at);
    }

    /** The longest wait noted at or after `at`, for any time within those kept, by halving. */
    method Since(at: real) returns (longest: real)
      requires Valid() && (noted != [] ==> at >= noted[|noted| - 1].at - KEPT_MS)
      ensures longest == LongestSince(noted, at)
    {
      var lo := FirstSince(entries, head, at);
      longest := if lo < |entries| then entries[lo].wait else 0.0;
      SinceIsLongest(entries, head, lo, noted, at);
    }
  }

  /** The first entry not older than the time kept. */
  method FirstKept(entries: seq<Note>, head: nat, at: real) returns (to: nat)
    requires head < |entries| && entries[|entries| - 1].at == at
    ensures head <= to < |entries| && forall i | head <= i < to :: entries[i].at < at - KEPT_MS
  {
    to := head;
    while entries[to].at < at - KEPT_MS
      invariant head <= to < |entries|
      invariant forall i | head <= i < to :: entries[i].at < at - KEPT_MS
      decreases |entries| - to
    {
      to := to + 1;
    }
  }

  lemma DropUpTo(entries: seq<Note>, head: nat, to: nat, noted: seq<Note>)
    requires head <= to < |entries| && noted != [] && Keeps(entries[head..], noted)
    requires forall i | head <= i < to :: entries[i].at < noted[|noted| - 1].at - KEPT_MS
    ensures Keeps(entries[to..], noted)
  {
    SliceTwice(entries, head, to);
    DropKeeps(entries[head..], to - head, noted);
  }

  lemma SliceTwice(entries: seq<Note>, head: nat, to: nat)
    requires head <= to <= |entries|
    ensures entries[head..][to - head..] == entries[to..]
    ensures forall i | 0 <= i < to - head :: entries[head..][i] == entries[head + i]
  {
  }

  lemma SliceSplit(all: seq<Note>, head: nat, front: seq<Note>, popped: seq<Note>)
    requires all == front + popped && head <= |front|
    ensures all[head..] == front[head..] + popped
    ensures front[head..] != [] ==> |front| > head && front[head..][|front| - head - 1] == front[|front| - 1]
  {
  }

  lemma SliceAppend(front: seq<Note>, head: nat, n: Note)
    requires head <= |front|
    ensures (front + [n])[head..] == front[head..] + [n]
  {
  }

  lemma PushedKeeps(all: seq<Note>, head: nat, front: seq<Note>, popped: seq<Note>, n: Note, noted: seq<Note>)
    requires all == front + popped && head <= |front| && Keeps(all[head..], noted)
    requires n.wait >= 0.0 && (noted != [] ==> n.at >= noted[|noted| - 1].at)
    requires forall i | 0 <= i < |popped| :: popped[i].wait <= n.wait
    requires |front| > head ==> front[|front| - 1].wait > n.wait
    ensures Keeps((front + [n])[head..], noted + [n])
  {
    SliceSplit(all, head, front, popped);
    SliceAppend(front, head, n);
    PushKeeps(front[head..], popped, n, noted);
  }

  /** Where the entries at or after `at` start, by halving. */
  method FirstSince(entries: seq<Note>, head: nat, at: real) returns (lo: nat)
    requires head <= |entries| && InOrder(entries[head..])
    ensures head <= lo <= |entries|
    ensures forall i | head <= i < lo :: entries[i].at < at
    ensures forall i | lo <= i < |entries| :: entries[i].at >= at
  {
    lo := head;
    var hi := |entries|;
    while lo < hi
      invariant head <= lo <= hi <= |entries|
      invariant forall i | head <= i < lo :: entries[i].at < at
      invariant forall i | hi <= i < |entries| :: entries[i].at >= at
    {
      var mid := (lo + hi) / 2;
      Around(entries, head, mid);
      if entries[mid].at < at {
        lo := mid + 1;
      } else {
        hi := mid;
      }
    }
  }

  lemma Around(entries: seq<Note>, head: nat, mid: nat)
    requires head <= mid < |entries| && InOrder(entries[head..])
    ensures forall i | head <= i <= mid :: entries[i].at <= entries[mid].at
    ensures forall i | mid <= i < |entries| :: entries[mid].at <= entries[i].at
  {
    var kept := entries[head..];
    assert forall i | head <= i < |entries| :: entries[i] == kept[i - head];
  }

  lemma PushInOrder(notes: seq<Note>, n: Note)
    requires InOrder(notes) && n.wait >= 0.0 && (notes != [] ==> notes[|notes| - 1].at <= n.at)
    ensures InOrder(notes + [n])
  {
  }

  lemma PushDescends(left: seq<Note>, n: Note)
    requires Descends(left) && (left != [] ==> left[|left| - 1].wait > n.wait)
    ensures Descends(left + [n])
  {
  }

  lemma FrontInOrder(a: seq<Note>, b: seq<Note>)
    requires InOrder(a + b) && Descends(a + b)
    ensures InOrder(a) && Descends(a)
  {
    assert forall i | 0 <= i < |a| :: a[i] == (a + b)[i];
  }

  lemma BackInOrder(q: seq<Note>, n: nat)
    requires n <= |q| && InOrder(q) && Descends(q)
    ensures InOrder(q[n..]) && Descends(q[n..])
  {
    assert forall i | 0 <= i < |q[n..]| :: q[n..][i] == q[n + i];
  }

  /** The new note covers those it pops. */
  lemma PushCovers(left: seq<Note>, popped: seq<Note>, n: Note, m: Note)
    requires forall i | 0 <= i < |popped| :: popped[i].wait <= n.wait
    requires m.at <= n.at && Covers(left + popped, m)
    ensures Covers(left + [n], m)
  {
    var kept := left + popped;
    var i :| 0 <= i < |kept| && kept[i].at >= m.at && kept[i].wait >= m.wait;
    if i < |left| {
      assert (left + [n])[i] == kept[i];
    } else {
      assert kept[i] == popped[i - |left|];
      assert (left + [n])[|left|] == n;
    }
  }

  predicate CoversSince(kept: seq<Note>, noted: seq<Note>, at: real) {
    forall i | 0 <= i < |noted| && noted[i].at >= at :: Covers(kept, noted[i])
  }

  predicate AllIn(kept: seq<Note>, noted: seq<Note>) {
    forall n | n in kept :: n in noted
  }

  /** What the history keeps, as a value. */
  predicate Keeps(kept: seq<Note>, noted: seq<Note>) {
    && InOrder(noted) && InOrder(kept) && Descends(kept)
    && AllIn(kept, noted)
    && (noted != [] ==> kept != [] && CoversSince(kept, noted, noted[|noted| - 1].at - KEPT_MS))
  }

  lemma LastIsLatest(kept: seq<Note>, noted: seq<Note>, at: real)
    requires InOrder(noted) && AllIn(kept, noted)
    requires noted != [] ==> at >= noted[|noted| - 1].at
    ensures forall i | 0 <= i < |kept| :: kept[i].at <= at
  {
    forall i | 0 <= i < |kept|
      ensures kept[i].at <= at
    {
      assert kept[i] in noted;
      var j :| 0 <= j < |noted| && noted[j] == kept[i];
      assert noted[j].at <= noted[|noted| - 1].at;
    }
  }

  lemma AllCovered(left: seq<Note>, popped: seq<Note>, n: Note, noted: seq<Note>)
    requires InOrder(noted) && (noted != [] ==> n.at >= noted[|noted| - 1].at)
    requires noted != [] ==> CoversSince(left + popped, noted, noted[|noted| - 1].at - KEPT_MS)
    requires forall i | 0 <= i < |popped| :: popped[i].wait <= n.wait
    ensures CoversSince(left + [n], noted + [n], n.at - KEPT_MS)
  {
    var to, all := left + [n], noted + [n];
    forall i | 0 <= i < |all| && all[i].at >= n.at - KEPT_MS
      ensures Covers(to, all[i])
    {
      if i < |noted| {
        assert all[i] == noted[i] && noted[i].at <= noted[|noted| - 1].at;
        PushCovers(left, popped, n, noted[i]);
      } else {
        assert to[|left|] == n;
      }
    }
  }

  /** What a note leaves covers all that was covered and the note, before the old ones are dropped. */
  lemma PushKeeps(left: seq<Note>, popped: seq<Note>, n: Note, noted: seq<Note>)
    requires Keeps(left + popped, noted) && n.wait >= 0.0 && (noted != [] ==> n.at >= noted[|noted| - 1].at)
    requires forall i | 0 <= i < |popped| :: popped[i].wait <= n.wait
    requires left != [] ==> left[|left| - 1].wait > n.wait
    ensures Keeps(left + [n], noted + [n])
  {
    var kept := left + popped;
    LastIsLatest(kept, noted, n.at);
    FrontInOrder(left, popped);
    assert AllIn(left, noted) by { assert forall m | m in left :: m in kept; }
    if left != [] {
      assert left[|left| - 1] in left;
    }
    PushInOrder(left, n);
    PushDescends(left, n);
    PushInOrder(noted, n);
    AllCovered(left, popped, n, noted);
  }

  lemma DropKeeps(pushed: seq<Note>, n: nat, noted: seq<Note>)
    requires Keeps(pushed, noted) && n < |pushed| && noted != []
    requires forall i | 0 <= i < n :: pushed[i].at < noted[|noted| - 1].at - KEPT_MS
    ensures Keeps(pushed[n..], noted)
  {
    BackInOrder(pushed, n);
    forall i | 0 <= i < |noted| && noted[i].at >= noted[|noted| - 1].at - KEPT_MS
      ensures Covers(pushed[n..], noted[i])
    {
      DropCovers(pushed, n, noted[i]);
    }
  }

  /** Dropping what is older than the time kept uncovers nothing within it. */
  lemma DropCovers(pushed: seq<Note>, n: nat, m: Note)
    requires n < |pushed| && (forall i | 0 <= i < n :: pushed[i].at < m.at) && Covers(pushed, m)
    ensures Covers(pushed[n..], m)
  {
    var i :| 0 <= i < |pushed| && pushed[i].at >= m.at && pushed[i].wait >= m.wait;
    assert pushed[n..][i - n] == pushed[i];
  }

  /** The first kept at or after a time waited longest of all noted since. */
  lemma FirstIsLongest(kept: seq<Note>, first: nat, noted: seq<Note>, at: real)
    requires first <= |kept| && Descends(kept) && InOrder(noted)
    requires forall i | 0 <= i < first :: kept[i].at < at
    requires forall i | first <= i < |kept| :: kept[i].at >= at
    requires AllIn(kept, noted)
    requires CoversSince(kept, noted, at)
    ensures LongestSince(noted, at) == if first < |kept| then kept[first].wait else 0.0
  {
    forall i | 0 <= i < |noted| && noted[i].at >= at
      ensures first < |kept| && noted[i].wait <= kept[first].wait
    {
      assert Covers(kept, noted[i]);
      var j :| 0 <= j < |kept| && kept[j].at >= noted[i].at && kept[j].wait >= noted[i].wait;
      assert j >= first;
    }
    if first < |kept| {
      assert kept[first] in noted;
      var i :| 0 <= i < |noted| && noted[i] == kept[first];
      assert noted[i].wait <= LongestSince(noted, at);
    }
  }

  lemma SinceIsLongest(entries: seq<Note>, head: nat, lo: nat, noted: seq<Note>, at: real)
    requires head <= lo <= |entries| && Keeps(entries[head..], noted)
    requires noted != [] ==> at >= noted[|noted| - 1].at - KEPT_MS
    requires forall i | head <= i < lo :: entries[i].at < at
    requires forall i | lo <= i < |entries| :: entries[i].at >= at
    ensures LongestSince(noted, at) == if lo < |entries| then entries[lo].wait else 0.0
  {
    var kept := entries[head..];
    assert forall i | 0 <= i < |kept| :: kept[i] == entries[head + i];
    assert CoversSince(kept, noted, at);
    FirstIsLongest(kept, lo - head, noted, at);
  }
}
