/** What each step of a gate lets go and what it keeps, of every frame, with a seq or without. */
module GateFlows {
  import opened Bytes
  import opened Tags
  import opened Replays
  import opened Gates
  import opened SendGates

  /** The entries of `q` that `p` holds of, in order. */
  function Those(q: seq<Buffered>, p: Buffered -> bool): seq<Buffered> {
    if q == [] then [] else (if p(q[0]) then [q[0]] else []) + Those(q[1..], p)
  }

  function Numbered(): Buffered -> bool {
    (e: Buffered) => e.Numbered()
  }

  /** Without a seq: a WINDOW, a BDP_PING, a BROADCAST_SUB. */
  function Plain(): Buffered -> bool {
    (e: Buffered) => !e.Numbered()
  }

  function PlainOf(ix: nat): Buffered -> bool {
    (e: Buffered) => e.ix == ix && !e.Numbered()
  }

  function OfAny(ixes: set<nat>): Buffered -> bool {
    (e: Buffered) => e.ix in ixes
  }

  function OfNone(ixes: set<nat>): Buffered -> bool {
    (e: Buffered) => e.ix !in ixes
  }

  lemma {:induction false} ThoseAppend(a: seq<Buffered>, b: seq<Buffered>, p: Buffered -> bool)
    ensures Those(a + b, p) == Those(a, p) + Those(b, p)
  {
    if a == [] {
      assert a + b == b;
    } else {
      assert (a + b)[1..] == a[1..] + b && (a + b)[0] == a[0];
      ThoseAppend(a[1..], b, p);
      Assoc(if p(a[0]) then [a[0]] else [], Those(a[1..], p), Those(b, p));
    }
  }

  lemma ThoseOne(e: Buffered, p: Buffered -> bool)
    ensures Those([e], p) == if p(e) then [e] else []
  {
    assert [e][1..] == [];
  }

  lemma ThoseLast(a: seq<Buffered>, e: Buffered, p: Buffered -> bool)
    ensures Those(a + [e], p) == Those(a, p) + if p(e) then [e] else []
  {
    ThoseAppend(a, [e], p);
    ThoseOne(e, p);
  }

  lemma {:induction false} ThoseHas(q: seq<Buffered>, p: Buffered -> bool, e: Buffered)
    ensures e in Those(q, p) <==> e in q && p(e)
  {
    if q != [] {
      ThoseHas(q[1..], p, e);
      assert q == [q[0]] + q[1..];
    }
  }

  lemma {:induction false} ThoseTwice(q: seq<Buffered>, p: Buffered -> bool, r: Buffered -> bool, both: Buffered -> bool)
    requires forall e :: both(e) <==> p(e) && r(e)
    ensures Those(Those(q, p), r) == Those(q, both)
  {
    if q != [] {
      ThoseTwice(q[1..], p, r, both);
      ThoseAppend(if p(q[0]) then [q[0]] else [], Those(q[1..], p), r);
      ThoseOne(q[0], r);
    }
  }

  lemma {:induction false} ThoseNone(q: seq<Buffered>, p: Buffered -> bool)
    requires forall e <- q :: !p(e)
    ensures Those(q, p) == []
  {
    if q != [] {
      assert q == [q[0]] + q[1..];
      ThoseNone(q[1..], p);
    }
  }

  // ── What a drain lets go ──

  /** A WINDOW or MSG_WINDOW that a later one of its channel follows. */
  predicate Replaced(q: seq<Buffered>)
    requires q != []
  {
    && (q[0].frame[0] == WINDOW || q[0].frame[0] == MSG_WINDOW)
    && exists e <- q[1..] :: e.ix == q[0].ix && e.frame[0] == q[0].frame[0]
  }

  /** `q` with each limit that a later one replaces left out. */
  function Newest(q: seq<Buffered>): seq<Buffered> {
    if q == [] then [] else (if Replaced(q) then [] else [q[0]]) + Newest(q[1..])
  }

  /** The entries among the first `n` held that are due: their channel releasable, and no later limit in their place. */
  function DueAmong(buffer: seq<Buffered>, n: nat, releasable: set<nat>): seq<Buffered>
    requires n <= |buffer|
  {
    if n == 0 then []
    else
      DueAmong(buffer, n - 1, releasable) + DueAt(buffer, n - 1, releasable)
  }

  lemma ReplacedIsSuperseded(buffer: seq<Buffered>, i: nat, releasable: set<nat>)
    requires i < |buffer| && buffer[i].ix in releasable
    ensures Superseded(buffer, i) <==> Replaced([buffer[i]] + Those(buffer[i + 1..], OfAny(releasable)))
  {
    var rest := Those(buffer[i + 1..], OfAny(releasable));
    assert ([buffer[i]] + rest)[1..] == rest;
    if Superseded(buffer, i) {
      var j :| i < j < |buffer| && LimitKey(buffer[j]) == LimitKey(buffer[i]);
      assert buffer[i + 1..][j - i - 1] == buffer[j];
      ThoseHas(buffer[i + 1..], OfAny(releasable), buffer[j]);
    }
    if Replaced([buffer[i]] + rest) {
      var e :| e in rest && e.ix == buffer[i].ix && e.frame[0] == buffer[i].frame[0];
      ThoseHas(buffer[i + 1..], OfAny(releasable), e);
      var k :| 0 <= k < |buffer[i + 1..]| && buffer[i + 1..][k] == e;
      assert LimitKey(buffer[i + 1 + k]) == LimitKey(buffer[i]);
    }
  }

  /** The same, from the `n`th on. */
  function DueFrom(buffer: seq<Buffered>, n: nat, releasable: set<nat>): seq<Buffered>
    requires n <= |buffer|
    decreases |buffer| - n
  {
    if n == |buffer| then [] else DueAt(buffer, n, releasable) + DueFrom(buffer, n + 1, releasable)
  }

  lemma {:induction false} DueFromIsNewest(buffer: seq<Buffered>, n: nat, releasable: set<nat>)
    requires n <= |buffer|
    ensures DueFrom(buffer, n, releasable) == Newest(Those(buffer[n..], OfAny(releasable)))
    decreases |buffer| - n
  {
    if n < |buffer| {
      DueFromIsNewest(buffer, n + 1, releasable);
      NewestFirst(buffer, n, releasable);
    }
  }

  lemma {:induction false} DueSplits(buffer: seq<Buffered>, n: nat, releasable: set<nat>)
    requires n <= |buffer|
    ensures DueAmong(buffer, n, releasable) + DueFrom(buffer, n, releasable) == DueFrom(buffer, 0, releasable)
  {
    if n == 0 {
      assert [] + DueFrom(buffer, 0, releasable) == DueFrom(buffer, 0, releasable);
    } else {
      DueSplits(buffer, n - 1, releasable);
      Assoc(DueAmong(buffer, n - 1, releasable), DueAt(buffer, n - 1, releasable), DueFrom(buffer, n, releasable));
    }
  }

  lemma DueIsNewest(buffer: seq<Buffered>, releasable: set<nat>)
    ensures DueAmong(buffer, |buffer|, releasable) == Newest(Those(buffer, OfAny(releasable)))
  {
    DueSplits(buffer, |buffer|, releasable);
    DueFromIsNewest(buffer, 0, releasable);
    assert buffer[0..] == buffer;
    assert DueAmong(buffer, |buffer|, releasable) + [] == DueAmong(buffer, |buffer|, releasable);
  }

  /** The held entry at `n`, if it is due. */
  function DueAt(buffer: seq<Buffered>, n: nat, releasable: set<nat>): seq<Buffered>
    requires n < |buffer|
  {
    if buffer[n].ix in releasable && !Superseded(buffer, n) then [buffer[n]] else []
  }

  lemma NewestFirst(buffer: seq<Buffered>, n: nat, releasable: set<nat>)
    requires n < |buffer|
    ensures Newest(Those(buffer[n..], OfAny(releasable)))
            == DueAt(buffer, n, releasable) + Newest(Those(buffer[n + 1..], OfAny(releasable)))
  {
    var e, rest := buffer[n], Those(buffer[n + 1..], OfAny(releasable));
    assert buffer[n..][1..] == buffer[n + 1..];
    if e.ix in releasable {
      ReplacedIsSuperseded(buffer, n, releasable);
      assert ([e] + rest)[1..] == rest;
    } else {
      assert [] + rest == rest && [] + Newest(rest) == Newest(rest);
    }
  }

  /** The headroom is used up at `due[at]`, the first to wait; none goes at once where some `waited` already. */
  ghost predicate CutAt(due: seq<Buffered>, waited: bool, headroom: int, at: nat)
    requires at <= |due|
  {
    && (at < |due| ==> due[at].Numbered() && (waited || BytesOf(Those(due[..at], Numbered())) >= headroom))
    && forall i | 0 <= i < at && due[i].Numbered() :: !waited && BytesOf(Those(due[..i], Numbered())) < headroom
  }

  /** What a drain of `due` came to so far. */
  ghost predicate DrainedSo(due: seq<Buffered>, waited: seq<Buffered>, headroom: int, at: nat, d: Draining) {
    && at <= |due| && CutAt(due, waited != [], headroom, at)
    && d.out == due[..at] + Those(due[at..], Plain())
    && d.waiting == waited + Those(due[at..], Numbered())
    && (at == |due| && waited == [] ==> d.headroom == headroom - BytesOf(Those(due, Numbered())))
  }

  lemma BytesOfLast(due: seq<Buffered>, e: Buffered)
    ensures BytesOf(Those(due + [e], Numbered())) == BytesOf(Those(due, Numbered())) + if e.Numbered() then |e.frame| else 0
  {
    ThoseLast(due, e, Numbered());
    BytesOfAppend(Those(due, Numbered()), if e.Numbered() then [e] else []);
    assert BytesOf([e]) == |e.frame| by { assert [e][1..] == []; }
  }

  /** The next entry due, and all before it, go. */
  lemma CutPasses(due: seq<Buffered>, waited: bool, headroom: int, e: Buffered)
    requires CutAt(due, waited, headroom, |due|)
    requires e.Numbered() ==> !waited && BytesOf(Those(due, Numbered())) < headroom
    ensures CutAt(due + [e], waited, headroom, |due| + 1)
  {
    assert forall i | 0 <= i < |due| :: (due + [e])[i] == due[i] && (due + [e])[..i] == due[..i];
    assert (due + [e])[..|due|] == due;
  }

  lemma CutStays(due: seq<Buffered>, waited: bool, headroom: int, at: nat, e: Buffered)
    requires at <= |due| && CutAt(due, waited, headroom, at)
    requires at == |due| ==> e.Numbered() && (waited || BytesOf(Those(due, Numbered())) >= headroom)
    ensures CutAt(due + [e], waited, headroom, at)
  {
    assert forall i | 0 <= i < |due| :: (due + [e])[i] == due[i] && (due + [e])[..i] == due[..i];
    assert (due + [e])[..|due|] == due;
  }

  /** One more entry due goes, or waits. */
  lemma DrainedOne(due: seq<Buffered>, waited: seq<Buffered>, headroom: int, at: nat, d: Draining, e: Buffered)
    returns (next: nat)
    requires DrainedSo(due, waited, headroom, at, d)
    ensures DrainedSo(due + [e], waited, headroom, next, d.Take(e, true, false))
  {
    BytesOfLast(due, e);
    if at == |due| && (!e.Numbered() || (waited == [] && d.headroom > 0)) {
      next := at + 1;
      DrainedGoes(due, waited, headroom, d, e);
    } else {
      next := at;
      DrainedWaits(due, waited, headroom, at, d, e);
    }
  }

  lemma DrainedGoes(due: seq<Buffered>, waited: seq<Buffered>, headroom: int, d: Draining, e: Buffered)
    requires DrainedSo(due, waited, headroom, |due|, d)
    requires e.Numbered() ==> waited == [] && d.headroom > 0
    ensures DrainedSo(due + [e], waited, headroom, |due| + 1, d.Take(e, true, false))
  {
    BytesOfLast(due, e);
    var more := due + [e];
    assert due[..|due|] == due && due[|due|..] == [] && more[..|more|] == more && more[|more|..] == [];
    CutPasses(due, waited != [], headroom, e);
  }

  lemma DrainedWaits(due: seq<Buffered>, waited: seq<Buffered>, headroom: int, at: nat, d: Draining, e: Buffered)
    requires DrainedSo(due, waited, headroom, at, d)
    requires at == |due| ==> e.Numbered() && (waited != [] || d.headroom <= 0)
    ensures DrainedSo(due + [e], waited, headroom, at, d.Take(e, true, false))
  {
    SplitLast(due, at, e);
    if at < |due| {
      SomeWait(due, at);
    } else {
      assert due[..|due|] == due && due[|due|..] == [];
    }
    CutStays(due, waited != [], headroom, at, e);
    assert d.waiting != [] || !e.Numbered() || d.headroom <= 0;
  }

  lemma SplitLast(due: seq<Buffered>, at: nat, e: Buffered)
    requires at <= |due|
    ensures (due + [e])[..at] == due[..at] && (due + [e])[at..] == due[at..] + [e]
    ensures Those((due + [e])[at..], Plain()) == Those(due[at..], Plain()) + if e.Numbered() then [] else [e]
    ensures Those((due + [e])[at..], Numbered()) == Those(due[at..], Numbered()) + if e.Numbered() then [e] else []
  {
    assert (due + [e])[at..] == due[at..] + [e];
    ThoseLast(due[at..], e, Plain());
    ThoseLast(due[at..], e, Numbered());
  }

  lemma SomeWait(due: seq<Buffered>, at: nat)
    requires at < |due| && due[at].Numbered()
    ensures Those(due[at..], Numbered()) != []
  {
  }

  lemma {:induction false} DrainsFirst(buffer: seq<Buffered>, n: nat, releasable: set<nat>, from: Draining) returns (at: nat)
    requires n <= |buffer| && from.kept == [] && from.out == []
    ensures var d := DrainFirst(buffer, n, releasable, from);
            && d.kept == Those(buffer[..n], OfNone(releasable))
            && DrainedSo(DueAmong(buffer, n, releasable), from.waiting, from.headroom, at, d)
  {
    if n == 0 {
      at := 0;
      assert buffer[..0] == [];
    } else {
      at := DrainsFirst(buffer, n - 1, releasable, from);
      KeepsOne(buffer, n - 1, releasable, from);
      var d, e := DrainFirst(buffer, n - 1, releasable, from), buffer[n - 1];
      if e.ix in releasable && !Superseded(buffer, n - 1) {
        at := DrainedOne(DueAmong(buffer, n - 1, releasable), from.waiting, from.headroom, at, d, e);
      } else {
        assert DueAmong(buffer, n - 1, releasable) + [] == DueAmong(buffer, n - 1, releasable);
      }
    }
  }

  lemma KeepsOne(buffer: seq<Buffered>, i: nat, releasable: set<nat>, from: Draining)
    requires i < |buffer|
    requires DrainFirst(buffer, i, releasable, from).kept == Those(buffer[..i], OfNone(releasable))
    ensures DrainFirst(buffer, i + 1, releasable, from).kept == Those(buffer[..i + 1], OfNone(releasable))
  {
    assert buffer[..i + 1] == buffer[..i] + [buffer[i]];
    ThoseLast(buffer[..i], buffer[i], OfNone(releasable));
  }

  /** Every frame a drain lets go, and every one it leaves. Held frames of other channels stay, in order. Of those due, in
      order, all before the cut go, and past it those without a seq go and the others wait, behind what waited. */
  lemma DrainsExactly(g: Gate, records: Records, releasable: set<nat>, sendsOpen: bool, headroom: int) returns (at: nat)
    ensures var d, s := Drain(g, records, releasable, sendsOpen, headroom), Settle(g, sendsOpen);
            var due := Newest(Those(s.buffer, OfAny(releasable)));
            && d.gate.buffer == Those(s.buffer, OfNone(releasable)) && d.gate.dropped == {}
            && at <= |due| && CutAt(due, s.waiting != [], headroom, at)
            && d.out == due[..at] + Those(due[at..], Plain())
            && d.gate.waiting == s.waiting + Those(due[at..], Numbered())
  {
    var s := Settle(g, sendsOpen);
    DueIsNewest(s.buffer, releasable);
    assert s.buffer[..|s.buffer|] == s.buffer;
    at := DrainsFirst(s.buffer, |s.buffer|, releasable, Draining([], s.waiting, headroom, records, []));
  }

  // ── Frames without a seq ──

  lemma {:induction false} NewestPlain(q: seq<Buffered>, ix: nat)
    ensures Those(Newest(q), PlainOf(ix)) == Newest(Those(q, PlainOf(ix)))
  {
    if q != [] {
      var rest := Those(q[1..], PlainOf(ix));
      NewestPlain(q[1..], ix);
      ThoseAppend(if Replaced(q) then [] else [q[0]], Newest(q[1..]), PlainOf(ix));
      ThoseOne(q[0], PlainOf(ix));
      if PlainOf(ix)(q[0]) {
        assert ([q[0]] + rest)[1..] == rest;
        ReplacedByPlain(q, ix);
      } else {
        assert [] + rest == rest && [] + Newest(rest) == Newest(rest);
      }
    }
  }

  lemma ReplacedByPlain(q: seq<Buffered>, ix: nat)
    requires q != [] && PlainOf(ix)(q[0])
    ensures Replaced(q) <==> Replaced([q[0]] + Those(q[1..], PlainOf(ix)))
  {
    var rest := Those(q[1..], PlainOf(ix));
    assert ([q[0]] + rest)[1..] == rest;
    if Replaced(q) {
      var e :| e in q[1..] && e.ix == q[0].ix && e.frame[0] == q[0].frame[0];
      ThoseHas(q[1..], PlainOf(ix), e);
    }
    if Replaced([q[0]] + rest) {
      var e :| e in rest && e.ix == q[0].ix && e.frame[0] == q[0].frame[0];
      ThoseHas(q[1..], PlainOf(ix), e);
    }
  }

  /** Of a releasable channel, the frames without a seq that go are just those held, in order, less each limit that a
      later one of its kind follows; those of any other channel stay held. */
  lemma PlainDrains(g: Gate, records: Records, releasable: set<nat>, sendsOpen: bool, headroom: int, ix: nat)
    ensures var d, held := Drain(g, records, releasable, sendsOpen, headroom), Settle(g, sendsOpen).buffer;
            && Those(d.out, PlainOf(ix)) == (if ix in releasable then Newest(Those(held, PlainOf(ix))) else [])
            && Those(d.gate.buffer, PlainOf(ix)) == if ix in releasable then [] else Those(held, PlainOf(ix))
  {
    var d, held := Drain(g, records, releasable, sendsOpen, headroom), Settle(g, sendsOpen).buffer;
    var at := DrainsExactly(g, records, releasable, sendsOpen, headroom);
    var due := Newest(Those(held, OfAny(releasable)));
    PlainGoes(due, at, ix);
    NewestPlain(Those(held, OfAny(releasable)), ix);
    PlainWithin(held, releasable, ix);
  }

  lemma PlainGoes(due: seq<Buffered>, at: nat, ix: nat)
    requires at <= |due|
    ensures Those(due[..at] + Those(due[at..], Plain()), PlainOf(ix)) == Those(due, PlainOf(ix))
  {
    assert due == due[..at] + due[at..];
    ThoseAppend(due[..at], due[at..], PlainOf(ix));
    ThoseAppend(due[..at], Those(due[at..], Plain()), PlainOf(ix));
    ThoseTwice(due[at..], Plain(), PlainOf(ix), PlainOf(ix));
  }

  lemma PlainWithin(held: seq<Buffered>, releasable: set<nat>, ix: nat)
    ensures Those(Those(held, OfAny(releasable)), PlainOf(ix))
            == if ix in releasable then Those(held, PlainOf(ix)) else []
    ensures Those(Those(held, OfNone(releasable)), PlainOf(ix))
            == if ix in releasable then [] else Those(held, PlainOf(ix))
  {
    if ix in releasable {
      ThoseTwice(held, OfAny(releasable), PlainOf(ix), PlainOf(ix));
      NoneWithin(held, OfNone(releasable), PlainOf(ix));
    } else {
      NoneWithin(held, OfAny(releasable), PlainOf(ix));
      ThoseTwice(held, OfNone(releasable), PlainOf(ix), PlainOf(ix));
    }
  }

  lemma NoneWithin(q: seq<Buffered>, p: Buffered -> bool, r: Buffered -> bool)
    requires forall e :: !(p(e) && r(e))
    ensures Those(Those(q, p), r) == []
  {
    forall e | e in Those(q, p) ensures !r(e) {
      ThoseHas(q, p, e);
    }
    ThoseNone(Those(q, p), r);
  }

  // ── What no drain reaches ──

  /** Of a channel not releasable nothing goes: its frames stay where they were, held or waiting, its replay as it was. */
  lemma StaysPut(g: Gate, records: Records, releasable: set<nat>, sendsOpen: bool, headroom: int, ix: nat)
    requires ix !in releasable
    ensures var d, s := Drain(g, records, releasable, sendsOpen, headroom), Settle(g, sendsOpen);
            && Those(d.out, OfAny({ix})) == []
            && Those(d.gate.buffer, OfAny({ix})) == Those(s.buffer, OfAny({ix}))
            && Those(d.gate.waiting, OfAny({ix})) == Those(s.waiting, OfAny({ix}))
            && (ix in records ==> ix in d.records && d.records[ix] == records[ix])
  {
    var d, s := Drain(g, records, releasable, sendsOpen, headroom), Settle(g, sendsOpen);
    var at := DrainsExactly(g, records, releasable, sendsOpen, headroom);
    var due := Newest(Those(s.buffer, OfAny(releasable)));
    NoneDue(s.buffer, releasable, at, ix);
    ThoseAppend(due[..at], Those(due[at..], Plain()), OfAny({ix}));
    ThoseAppend(s.waiting, Those(due[at..], Numbered()), OfAny({ix}));
    assert Those(s.waiting, OfAny({ix})) + [] == Those(s.waiting, OfAny({ix}));
    ThoseTwice(s.buffer, OfNone(releasable), OfAny({ix}), OfAny({ix}));
    if ix in records {
      NonePushed(g, records, releasable, sendsOpen, headroom, ix);
    }
  }

  lemma {:induction false} NewestHas(q: seq<Buffered>, e: Buffered)
    requires e in Newest(q)
    ensures e in q
  {
    if q != [] && e != q[0] {
      NewestHas(q[1..], e);
    }
  }

  lemma NoneDue(held: seq<Buffered>, releasable: set<nat>, at: nat, ix: nat)
    requires ix !in releasable && at <= |Newest(Those(held, OfAny(releasable)))|
    ensures var due := Newest(Those(held, OfAny(releasable)));
            && Those(due[..at], OfAny({ix})) == []
            && Those(Those(due[at..], Plain()), OfAny({ix})) == []
            && Those(Those(due[at..], Numbered()), OfAny({ix})) == []
  {
    var due := Newest(Those(held, OfAny(releasable)));
    forall e | e in due ensures e.ix != ix {
      NewestHas(Those(held, OfAny(releasable)), e);
      ThoseHas(held, OfAny(releasable), e);
    }
    ThoseNone(due[..at], OfAny({ix}));
    assert forall e <- due[at..] :: e in due;
    NoneOfNone(due[at..], Plain(), OfAny({ix}));
    NoneOfNone(due[at..], Numbered(), OfAny({ix}));
  }

  lemma NoneOfNone(q: seq<Buffered>, p: Buffered -> bool, r: Buffered -> bool)
    requires forall e <- q :: !r(e)
    ensures Those(Those(q, p), r) == []
  {
    forall e | e in Those(q, p) ensures !r(e) {
      ThoseHas(q, p, e);
    }
    ThoseNone(Those(q, p), r);
  }

  lemma {:induction false} NoneOf(q: seq<Buffered>, ix: nat)
    requires Those(q, OfAny({ix})) == []
    ensures Of(q, ix) == []
  {
    if q != [] {
      NoneOf(q[1..], ix);
    }
  }

  lemma NonePushed(g: Gate, records: Records, releasable: set<nat>, sendsOpen: bool, headroom: int, ix: nat)
    requires ix in records && Those(Drain(g, records, releasable, sendsOpen, headroom).out, OfAny({ix})) == []
    ensures var d := Drain(g, records, releasable, sendsOpen, headroom);
            ix in d.records && d.records[ix] == records[ix]
  {
    var s := Settle(g, sendsOpen);
    DrainFirstPushes(s.buffer, |s.buffer|, releasable, Draining([], s.waiting, headroom, records, []), ix);
    NoneOf(Drain(g, records, releasable, sendsOpen, headroom).out, ix);
  }

  /** Every frame of channel `ix` the gate has, in order. */
  function FramesOf(g: Gate, ix: nat): seq<Buffered> {
    if ix in g.dropped then [] else Those(g.waiting, OfAny({ix})) + Those(g.buffer, OfAny({ix}))
  }

  lemma FramesWithout(q: seq<Buffered>, dropped: set<nat>, ix: nat)
    ensures Those(Those(q, OfNone(dropped)), OfAny({ix})) == if ix in dropped then [] else Those(q, OfAny({ix}))
  {
    if ix in dropped {
      NoneWithin(q, OfNone(dropped), OfAny({ix}));
    } else {
      ThoseTwice(q, OfNone(dropped), OfAny({ix}), OfAny({ix}));
    }
  }

  lemma FramesSettle(g: Gate, sendsOpen: bool, ix: nat)
    ensures FramesOf(Settle(g, sendsOpen), ix) == FramesOf(g, ix)
  {
    var kept := OfNone(g.dropped);
    SettlesExactly(g, sendsOpen);
    ThoseAppend(Those(g.waiting, kept), Those(g.buffer, kept), OfAny({ix}));
    FramesWithout(g.waiting, g.dropped, ix);
    FramesWithout(g.buffer, g.dropped, ix);
    if !sendsOpen {
      var both := Those(Those(g.waiting, kept), OfAny({ix})) + Those(Those(g.buffer, kept), OfAny({ix}));
      assert [] + both == both;
    }
  }

  /** No frame of channel `ix` left `g`, nor was pushed to its replay. */
  ghost predicate KeptBack(g: Gate, records: Records, o: Outcome, ix: nat) {
    && (forall e <- o.out :: e.ix != ix) && FramesOf(o.gate, ix) == FramesOf(g, ix)
    && (ix in records ==> ix in o.records && o.records[ix] == records[ix])
  }

  lemma DrainKeepsBack(g: Gate, records: Records, releasable: set<nat>, sendsOpen: bool, headroom: int, ix: nat)
    requires ix !in releasable
    ensures KeptBack(g, records, Drain(g, records, releasable, sendsOpen, headroom), ix)
  {
    var o := Drain(g, records, releasable, sendsOpen, headroom);
    StaysPut(g, records, releasable, sendsOpen, headroom, ix);
    FramesSettle(g, sendsOpen, ix);
    forall e | e in o.out ensures e.ix != ix {
      ThoseHas(o.out, OfAny({ix}), e);
    }
  }

  lemma DrainOnlyReplays(g: Gate, records: Records, releasable: set<nat>, sendsOpen: bool, headroom: int)
    ensures OnlyReplays(records, Drain(g, records, releasable, sendsOpen, headroom).records)
  {
    var s := Settle(g, sendsOpen);
    DrainFirstOnly(s.buffer, |s.buffer|, releasable, Draining([], s.waiting, headroom, records, []));
  }

  // ── What is held, and where ──

  lemma {:induction false} WithoutThose(q: seq<Buffered>, dropped: set<nat>)
    ensures Without(q, dropped) == Those(q, OfNone(dropped))
  {
    if q != [] {
      WithoutThose(q[1..], dropped);
    }
  }

  lemma {:induction false} AllThose(q: seq<Buffered>, p: Buffered -> bool)
    requires forall e <- q :: p(e)
    ensures Those(q, p) == q
  {
    if q != [] {
      assert q == [q[0]] + q[1..];
      AllThose(q[1..], p);
    }
  }

  /** The dropped channels' frames go, and while sends are held back what waited moves ahead of what is held. */
  lemma SettlesExactly(g: Gate, sendsOpen: bool)
    ensures var s, kept := Settle(g, sendsOpen), OfNone(g.dropped);
            && s.dropped == {}
            && (sendsOpen ==> s.buffer == Those(g.buffer, kept) && s.waiting == Those(g.waiting, kept))
            && (!sendsOpen ==> s.buffer == Those(g.waiting, kept) + Those(g.buffer, kept) && s.waiting == [])
  {
    WithoutThose(g.buffer, g.dropped);
    WithoutThose(g.waiting, g.dropped);
    if g.dropped == {} {
      AllThose(g.buffer, OfNone(g.dropped));
      AllThose(g.waiting, OfNone(g.dropped));
    }
  }

  /** What is held without a seq is no one's but its channel's to lose. */
  lemma PlainSettles(g: Gate, sendsOpen: bool, ix: nat)
    requires AllNumbered(g.waiting)
    ensures Those(Settle(g, sendsOpen).buffer, PlainOf(ix)) == if ix in g.dropped then [] else Those(g.buffer, PlainOf(ix))
  {
    SettlesExactly(g, sendsOpen);
    PlainWithin(g.buffer, g.dropped, ix);
    if !sendsOpen {
      var waiting, held := Those(g.waiting, OfNone(g.dropped)), Those(g.buffer, OfNone(g.dropped));
      NoPlain(g.waiting, g.dropped, ix);
      ThoseAppend(waiting, held, PlainOf(ix));
      assert [] + Those(held, PlainOf(ix)) == Those(held, PlainOf(ix));
    }
  }

  lemma NoPlain(waiting: seq<Buffered>, dropped: set<nat>, ix: nat)
    requires AllNumbered(waiting)
    ensures Those(Those(waiting, OfNone(dropped)), PlainOf(ix)) == []
  {
    forall e | e in waiting ensures !PlainOf(ix)(e) {
    }
    NoneOfNone(waiting, OfNone(dropped), PlainOf(ix));
  }

  /** Only a subscribing channel's BROADCAST_SUB and BROADCAST_UNSUB frames go. */
  lemma {:induction false} DropsSubscriptions(q: seq<Buffered>, subscribing: set<nat>)
    ensures WithoutSubscriptions(q, subscribing)
            == Those(q, (e: Buffered) => e.ix in subscribing ==> e.frame[0] != BROADCAST_SUB && e.frame[0] != BROADCAST_UNSUB)
  {
    if q != [] {
      DropsSubscriptions(q[1..], subscribing);
    }
  }

  /** A frame that may not go yet is the last held, whether it has a seq or not. */
  lemma HoldsLast(g: Gate, records: Records, e: Buffered, sendsOpen: bool, headroom: int, after: int)
    requires e.ix in records && (sendsOpen ==> records[e.ix].awaited)
    ensures Send(g, records, e, sendsOpen, headroom, after) == SendUnsequenced(g, records, e, sendsOpen)
    ensures var s := SendUnsequenced(g, records, e, sendsOpen);
            var waited, held := Those(g.waiting, OfNone(g.dropped)), Those(g.buffer, OfNone(g.dropped));
            && s.out == [] && s.records == records
            && (sendsOpen ==> s.gate == Gate(held + [e], waited, {}))
            && (!sendsOpen ==> s.gate == Gate(waited + held + [e], [], {}))
  {
    SettlesExactly(g, sendsOpen);
  }

  /** Where its channel's frames may go: one without a seq goes at once. One with a seq goes right behind what waited, if
      all of that goes and headroom is left, else waits behind it; what waited goes till the headroom is used up. */
  lemma SendsExactly(g: Gate, records: Records, e: Buffered, headroom: int, after: int) returns (n: nat)
    requires e.ix in records && !records[e.ix].awaited
    ensures SendUnsequenced(g, records, e, true) == Outcome(g, records, [e])
    ensures var s, waited := Send(g, records, e, true, headroom, after), Those(g.waiting, OfNone(g.dropped));
            && n <= |waited| && GoesTill(waited, headroom, n)
            && (n == |waited| && after > 0 ==> s.out == waited + [e] && s.gate.waiting == [])
            && (n < |waited| || after <= 0 ==> s.out == waited[..n] && s.gate.waiting == waited[n..] + [e])
  {
    var waited := Those(g.waiting, OfNone(g.dropped));
    WithoutThose(g.waiting, g.dropped);
    if g.dropped == {} {
      AllThose(g.waiting, OfNone(g.dropped));
    }
    n := Going(waited, headroom);
    GoesExactly(waited, headroom);
    assert waited[..|waited|] == waited && waited[|waited|..] == [];
  }

  /** The first `n` go, no more than till the headroom is used up. */
  ghost predicate GoesTill(q: seq<Buffered>, headroom: int, n: nat)
    requires n <= |q|
  {
    && (n < |q| ==> BytesOf(q[..n]) >= headroom)
    && forall i | 0 <= i < n :: BytesOf(q[..i]) < headroom
  }

  lemma {:induction false} GoesExactly(q: seq<Buffered>, headroom: int)
    ensures GoesTill(q, headroom, Going(q, headroom))
  {
    if q != [] && headroom > 0 {
      GoesExactly(q[1..], headroom - |q[0].frame|);
      var n := Going(q, headroom);
      assert q[..n] == [q[0]] + q[1..][..n - 1];
      forall i | 0 <= i <= n && 0 < i ensures BytesOf(q[..i]) == |q[0].frame| + BytesOf(q[1..][..i - 1]) {
        assert q[..i][1..] == q[1..][..i - 1];
      }
    }
  }
}
