/** Publishes ordered behind the SUBSCRIBEs sent before them. */
module RedisOrder {
  import opened Bytes

  /** A SUBSCRIBE not acknowledged; `order` numbers it. */
  datatype Pending = Pending(channel: string, order: nat)

  /** A publish of call `id`, after the SUBSCRIBEs numbered through `upTo`. */
  datatype Publish = Publish(id: nat, upTo: nat)

  /** A publish let go or rejected, which resumes in a later task. */
  datatype Resuming = Resuming(publish: Publish, ok: bool)

  /** `issued`: the publishes whose command went, in order, and `refused` those that failed. */
  datatype Transport = Transport(subscribing: seq<Pending>, subscribesSent: nat, failed: set<string>,
                                 waiters: seq<Publish>, resuming: seq<Resuming>, calls: nat,
                                 issued: seq<Publish>, refused: seq<Publish>)
  {
    /** Every publish that may go does, from the oldest. */
    function ReleaseWaiters(): Transport
      decreases |waiters|
    {
      if waiters == [] || (subscribing != [] && waiters[0].upTo >= subscribing[0].order) then this
      else this.(waiters := waiters[1..], resuming := resuming + [Resuming(waiters[0], true)]).ReleaseWaiters()
    }

    /** The publishes that came after the SUBSCRIBE of `order` fail, from the newest. */
    function RejectFrom(order: nat): Transport
      decreases |waiters|
    {
      if waiters == [] || waiters[|waiters| - 1].upTo < order then this
      else
        this.(waiters := waiters[..|waiters| - 1], resuming := resuming + [Resuming(waiters[|waiters| - 1], false)])
        .RejectFrom(order)
    }

    function Subscribe(channel: string): Transport {
      this.(subscribing := subscribing + [Pending(channel, subscribesSent + 1)], subscribesSent := subscribesSent + 1)
    }

    /** A SUBSCRIBE withdrawn meanwhile settles nothing. */
    function Settle(p: Pending, ok: bool): Transport {
      if p !in subscribing then this
      else
        var t := this.(subscribing := Without(subscribing, p));
        (if ok then t else t.(failed := failed + {p.channel}).RejectFrom(p.order)).ReleaseWaiters()
    }

    function Unsubscribe(channel: string): Transport {
      this.(subscribing := WithoutChannel(subscribing, channel), failed := failed - {channel}).ReleaseWaiters()
    }

    /** Publishes keep their order: one waits while an earlier one does. */
    function TakePublish(): Transport {
      var p := Publish(calls, subscribesSent);
      var t := this.(calls := calls + 1);
      if failed != {} then t.(refused := refused + [p])
      else if subscribing != [] || waiters != [] || resuming != [] then t.(waiters := waiters + [p]).ReleaseWaiters()
      else t.(issued := issued + [p])
    }

    function Resume(): Transport
      requires resuming != []
    {
      var t := this.(resuming := resuming[1..]);
      if resuming[0].ok then t.(issued := issued + [resuming[0].publish])
      else t.(refused := refused + [resuming[0].publish])
    }

    // ── What every step keeps ──

    /** Those issued, then those let go, then those waiting. */
    function Line(): seq<Publish> {
      issued + LetGo(resuming) + waiters
    }

    /** In the order of their calls, each waiting for some SUBSCRIBE still pending. */
    predicate Kept() {
      && Ascending(subscribing) && (forall i | 0 <= i < |subscribing| :: subscribing[i].order <= subscribesSent)
      && InCallOrder(Line(), calls, subscribesSent)
      && (waiters != [] ==> subscribing != [] && waiters[0].upTo >= subscribing[0].order)
      && Clear(issued + LetGo(resuming), subscribing)
    }
  }

  const NEW_TRANSPORT := Transport([], 0, {}, [], [], 0, [], [])

  function LetGo(q: seq<Resuming>): seq<Publish> {
    if q == [] then [] else (if q[0].ok then [q[0].publish] else []) + LetGo(q[1..])
  }

  function Without(q: seq<Pending>, p: Pending): seq<Pending> {
    if q == [] then [] else if q[0] == p then q[1..] else [q[0]] + Without(q[1..], p)
  }

  function WithoutChannel(q: seq<Pending>, channel: string): seq<Pending> {
    if q == [] then [] else if q[0].channel == channel then q[1..] else [q[0]] + WithoutChannel(q[1..], channel)
  }

  predicate Ascending(q: seq<Pending>) {
    forall i, j | 0 <= i < j < |q| :: q[i].order < q[j].order
  }

  /** Called one after another, each after all SUBSCRIBEs the one before was after. */
  predicate InCallOrder(q: seq<Publish>, calls: nat, sent: nat) {
    && (forall i | 0 <= i < |q| :: q[i].id < calls && q[i].upTo <= sent)
    && (forall i, j | 0 <= i < j < |q| :: q[i].id < q[j].id && q[i].upTo <= q[j].upTo)
  }

  /** No SUBSCRIBE sent before one of `q` is pending. */
  predicate Clear(q: seq<Publish>, pending: seq<Pending>) {
    forall i, j | 0 <= i < |q| && 0 <= j < |pending| :: q[i].upTo < pending[j].order
  }

  lemma {:induction false} LetGoAppend(q: seq<Resuming>, r: Resuming)
    ensures LetGo(q + [r]) == LetGo(q) + if r.ok then [r.publish] else []
  {
    var last := if r.ok then [r.publish] else [];
    if q == [] {
      assert [r][1..] == [] && q + [r] == [r];
      assert LetGo([r]) == last + LetGo([]);
    } else {
      var first := if q[0].ok then [q[0].publish] else [];
      assert (q + [r])[1..] == q[1..] + [r] && (q + [r])[0] == q[0];
      LetGoAppend(q[1..], r);
      assert first + (LetGo(q[1..]) + last) == (first + LetGo(q[1..])) + last;
    }
  }

  /** The part of the invariant that holds while waiters are being let go. */
  predicate Ordered(t: Transport) {
    && Ascending(t.subscribing) && (forall i | 0 <= i < |t.subscribing| :: t.subscribing[i].order <= t.subscribesSent)
    && InCallOrder(t.Line(), t.calls, t.subscribesSent)
    && Clear(t.issued + LetGo(t.resuming), t.subscribing)
  }

  lemma ReleaseOne(t: Transport)
    requires Ordered(t) && t.waiters != [] && (t.subscribing != [] ==> t.waiters[0].upTo < t.subscribing[0].order)
    ensures Ordered(t.(waiters := t.waiters[1..], resuming := t.resuming + [Resuming(t.waiters[0], true)]))
  {
    var w := t.waiters[0];
    var to := t.(waiters := t.waiters[1..], resuming := t.resuming + [Resuming(w, true)]);
    LetGoAppend(t.resuming, Resuming(w, true));
    assert to.Line() == t.Line();
    var gone, more := t.issued + LetGo(t.resuming), to.issued + LetGo(to.resuming);
    assert more == gone + [w];
    forall i, j | 0 <= i < |more| && 0 <= j < |t.subscribing|
      ensures more[i].upTo < t.subscribing[j].order
    {
      if i < |gone| {
        assert more[i] == gone[i];
      } else if j > 0 {
        assert t.subscribing[0].order < t.subscribing[j].order;
      }
    }
  }

  lemma {:induction false} ReleaseKept(t: Transport)
    requires Ordered(t)
    ensures t.ReleaseWaiters().Kept()
    decreases |t.waiters|
  {
    if t.waiters != [] && (t.subscribing == [] || t.waiters[0].upTo < t.subscribing[0].order) {
      ReleaseOne(t);
      ReleaseKept(t.(waiters := t.waiters[1..], resuming := t.resuming + [Resuming(t.waiters[0], true)]));
    }
  }

  lemma PrefixInOrder(q: seq<Publish>, n: nat, calls: nat, sent: nat)
    requires InCallOrder(q, calls, sent) && n <= |q|
    ensures InCallOrder(q[..n], calls, sent)
  {
  }

  lemma RejectOne(t: Transport)
    requires Ordered(t) && t.waiters != []
    ensures var n := |t.waiters| - 1;
            Ordered(t.(waiters := t.waiters[..n], resuming := t.resuming + [Resuming(t.waiters[n], false)]))
  {
    var n := |t.waiters| - 1;
    var to := t.(waiters := t.waiters[..n], resuming := t.resuming + [Resuming(t.waiters[n], false)]);
    LetGoAppend(t.resuming, Resuming(t.waiters[n], false));
    assert LetGo(to.resuming) == LetGo(t.resuming);
    assert to.Line() == t.Line()[..|t.Line()| - 1];
    PrefixInOrder(t.Line(), |t.Line()| - 1, t.calls, t.subscribesSent);
  }

  /** The first waiters stay, those after some SUBSCRIBE of `order` are rejected, and nothing else changes. */
  predicate Rejected(t: Transport, to: Transport, order: nat) {
    && to.subscribing == t.subscribing && to.issued == t.issued && LetGo(to.resuming) == LetGo(t.resuming)
    && |to.waiters| <= |t.waiters| && to.waiters == t.waiters[..|to.waiters|]
    && (forall i | 0 <= i < |to.waiters| :: t.waiters[i].upTo < order)
    && (forall i | |to.waiters| <= i < |t.waiters| :: t.waiters[i].upTo >= order)
    && |to.resuming| - |t.resuming| == |t.waiters| - |to.waiters|
  }

  lemma RejectedOneMore(t: Transport, next: Transport, to: Transport, order: nat)
    requires t.waiters != [] && t.waiters[|t.waiters| - 1].upTo >= order
    requires var n := |t.waiters| - 1;
             next == t.(waiters := t.waiters[..n], resuming := t.resuming + [Resuming(t.waiters[n], false)])
    requires LetGo(next.resuming) == LetGo(t.resuming) && Rejected(next, to, order)
    ensures Rejected(t, to, order)
  {
    assert forall i | 0 <= i < |next.waiters| :: next.waiters[i] == t.waiters[i];
    assert next.waiters[..|to.waiters|] == t.waiters[..|to.waiters|];
  }

  /** A failed SUBSCRIBE rejects exactly the waiting publishes that came after it. */
  lemma {:induction false} RejectsExactly(t: Transport, order: nat)
    requires Ordered(t)
    ensures Ordered(t.RejectFrom(order)) && Rejected(t, t.RejectFrom(order), order)
    decreases |t.waiters|
  {
    if t.waiters != [] {
      var n := |t.waiters| - 1;
      if t.waiters[n].upTo >= order {
        var next := t.(waiters := t.waiters[..n], resuming := t.resuming + [Resuming(t.waiters[n], false)]);
        RejectOne(t);
        LetGoAppend(t.resuming, Resuming(t.waiters[n], false));
        RejectsExactly(next, order);
        RejectedOneMore(t, next, next.RejectFrom(order), order);
      } else {
        NoneRejected(t, order);
      }
    }
  }

  lemma NoneRejected(t: Transport, order: nat)
    requires Ordered(t) && t.waiters != [] && t.waiters[|t.waiters| - 1].upTo < order
    ensures Rejected(t, t, order)
  {
    WaitersInOrder(t);
    assert t.waiters[..|t.waiters|] == t.waiters;
  }

  lemma WaitersInOrder(t: Transport)
    requires Ordered(t)
    ensures InCallOrder(t.waiters, t.calls, t.subscribesSent)
  {
    var gone := t.issued + LetGo(t.resuming);
    assert forall i | 0 <= i < |t.waiters| :: t.waiters[i] == t.Line()[|gone| + i];
  }

  lemma {:induction false} WithoutOne(q: seq<Pending>, p: Pending)
    requires Ascending(q)
    ensures Ascending(Without(q, p)) && forall r | r in Without(q, p) :: r in q
  {
    if q != [] {
      RestAscends(q);
      WithoutOne(q[1..], p);
      Fronted(q[0], Without(q[1..], p), q[1..]);
    }
  }

  lemma {:induction false} WithoutOneChannel(q: seq<Pending>, channel: string)
    requires Ascending(q)
    ensures Ascending(WithoutChannel(q, channel)) && forall r | r in WithoutChannel(q, channel) :: r in q
  {
    if q != [] {
      RestAscends(q);
      WithoutOneChannel(q[1..], channel);
      Fronted(q[0], WithoutChannel(q[1..], channel), q[1..]);
    }
  }

  lemma RestAscends(q: seq<Pending>)
    requires q != [] && Ascending(q)
    ensures Ascending(q[1..]) && (forall r | r in q[1..] :: r in q)
    ensures forall i | 0 <= i < |q[1..]| :: q[0].order < q[1..][i].order
  {
    assert forall i | 0 <= i < |q[1..]| :: q[1..][i] == q[i + 1];
  }

  lemma Fronted(first: Pending, left: seq<Pending>, rest: seq<Pending>)
    requires Ascending(left) && (forall r | r in left :: r in rest) && forall i | 0 <= i < |rest| :: first.order < rest[i].order
    ensures Ascending([first] + left)
  {
    forall i | 0 <= i < |left|
      ensures first.order < left[i].order
    {
      assert left[i] in rest;
    }
  }

  /** With fewer SUBSCRIBEs pending, order is as it was. */
  lemma FewerPending(t: Transport, left: seq<Pending>)
    requires Ordered(t) && Ascending(left) && forall r | r in left :: r in t.subscribing
    ensures Ordered(t.(subscribing := left))
  {
    var gone := t.issued + LetGo(t.resuming);
    forall i | 0 <= i < |left|
      ensures left[i].order <= t.subscribesSent && forall k | 0 <= k < |gone| :: gone[k].upTo < left[i].order
    {
      assert left[i] in t.subscribing;
    }
  }

  datatype Op = Subscribe(channel: string) | Settle(p: Pending, ok: bool) | Unsubscribe(channel: string) | Publishes | Resume

  /** A channel is listened to once at a time. */
  predicate Allowed(t: Transport, op: Op) {
    match op
    case Subscribe(channel) => forall i | 0 <= i < |t.subscribing| :: t.subscribing[i].channel != channel
    case Resume => t.resuming != []
    case _ => true
  }

  function Step(t: Transport, op: Op): Transport
    requires Allowed(t, op)
  {
    match op
    case Subscribe(channel) => t.Subscribe(channel)
    case Settle(p, ok) => t.Settle(p, ok)
    case Unsubscribe(channel) => t.Unsubscribe(channel)
    case Publishes => t.TakePublish()
    case Resume => t.Resume()
  }

  lemma SubscribeKept(t: Transport, channel: string)
    requires t.Kept()
    ensures t.Subscribe(channel).Kept()
  {
    var gone := t.issued + LetGo(t.resuming);
    forall i | 0 <= i < |gone|
      ensures gone[i].upTo < t.subscribesSent + 1
    {
      assert gone[i] == t.Line()[i];
    }
  }

  lemma SettleKept(t: Transport, p: Pending, ok: bool)
    requires t.Kept()
    ensures t.Settle(p, ok).Kept()
  {
    if p in t.subscribing {
      WithoutOne(t.subscribing, p);
      FewerPending(t, Without(t.subscribing, p));
      var u := t.(subscribing := Without(t.subscribing, p));
      if ok {
        ReleaseKept(u);
      } else {
        var f := u.(failed := t.failed + {p.channel});
        RejectsExactly(f, p.order);
        ReleaseKept(f.RejectFrom(p.order));
      }
    }
  }

  lemma UnsubscribeKept(t: Transport, channel: string)
    requires t.Kept()
    ensures t.Unsubscribe(channel).Kept()
  {
    WithoutOneChannel(t.subscribing, channel);
    FewerPending(t, WithoutChannel(t.subscribing, channel));
    ReleaseKept(t.(subscribing := WithoutChannel(t.subscribing, channel), failed := t.failed - {channel}));
  }

  lemma LastInOrder(q: seq<Publish>, p: Publish)
    requires InCallOrder(q, p.id, p.upTo)
    ensures InCallOrder(q + [p], p.id + 1, p.upTo)
  {
  }

  lemma PublishKept(t: Transport)
    requires t.Kept()
    ensures t.TakePublish().Kept()
  {
    var p := Publish(t.calls, t.subscribesSent);
    LastInOrder(t.Line(), p);
    if t.failed == {} && (t.subscribing != [] || t.waiters != [] || t.resuming != []) {
      var w := t.(calls := t.calls + 1, waiters := t.waiters + [p]);
      assert w.Line() == t.Line() + [p];
      ReleaseKept(w);
    } else if t.failed == {} {
      assert t.TakePublish().Line() == t.Line() + [p];
    }
  }

  lemma ResumeKept(t: Transport)
    requires t.Kept() && t.resuming != []
    ensures t.Resume().Kept()
  {
    var r := t.resuming[0];
    assert LetGo(t.resuming) == (if r.ok then [r.publish] else []) + LetGo(t.resuming[1..]);
    var u := t.Resume();
    assert u.issued + LetGo(u.resuming) == t.issued + LetGo(t.resuming);
  }

  lemma StepKept(t: Transport, op: Op)
    requires t.Kept() && Allowed(t, op)
    ensures Step(t, op).Kept()
  {
    match op {
      case Subscribe(channel) => SubscribeKept(t, channel);
      case Settle(p, ok) => SettleKept(t, p, ok);
      case Unsubscribe(channel) => UnsubscribeKept(t, channel);
      case Publishes => PublishKept(t);
      case Resume => ResumeKept(t);
    }
  }

  predicate AllowedRun(t: Transport, ops: seq<Op>)
    decreases |ops|
  {
    ops == [] || (Allowed(t, ops[0]) && AllowedRun(Step(t, ops[0]), ops[1..]))
  }

  function Run(t: Transport, ops: seq<Op>): Transport
    requires AllowedRun(t, ops)
    decreases |ops|
  {
    if ops == [] then t else Run(Step(t, ops[0]), ops[1..])
  }

  lemma {:induction false} RunKept(t: Transport, ops: seq<Op>)
    requires t.Kept() && AllowedRun(t, ops)
    ensures Run(t, ops).Kept()
    decreases |ops|
  {
    if ops != [] {
      StepKept(t, ops[0]);
      RunKept(Step(t, ops[0]), ops[1..]);
    }
  }

  /** In every run, publishes are issued in the order of their calls, and none while a SUBSCRIBE sent before it is
      pending, neither acknowledged nor withdrawn. */
  lemma IssuedInOrder(ops: seq<Op>)
    requires AllowedRun(NEW_TRANSPORT, ops)
    ensures var t := Run(NEW_TRANSPORT, ops);
            && (forall i, j | 0 <= i < j < |t.issued| :: t.issued[i].id < t.issued[j].id)
            && Clear(t.issued, t.subscribing)
  {
    RunKept(NEW_TRANSPORT, ops);
    IssuedFirst(Run(NEW_TRANSPORT, ops));
  }

  /** Those issued come first in the line. */
  lemma IssuedFirst(t: Transport)
    requires t.Kept()
    ensures forall i, j | 0 <= i < j < |t.issued| :: t.issued[i].id < t.issued[j].id
    ensures Clear(t.issued, t.subscribing)
  {
    var gone := t.issued + LetGo(t.resuming);
    assert forall i | 0 <= i < |t.issued| :: t.issued[i] == t.Line()[i];
    assert forall i | 0 <= i < |t.issued| :: t.issued[i] == gone[i];
  }

  // ── Each publish once ──

  function PublishesOf(q: seq<Resuming>): seq<Publish> {
    if q == [] then [] else [q[0].publish] + PublishesOf(q[1..])
  }

  function Ids(q: seq<Publish>): multiset<nat> {
    if q == [] then multiset{} else multiset{q[0].id} + Ids(q[1..])
  }

  function FirstIds(n: nat): multiset<nat> {
    if n == 0 then multiset{} else FirstIds(n - 1) + multiset{n - 1}
  }

  lemma {:induction false} IdsAppend(a: seq<Publish>, b: seq<Publish>)
    ensures Ids(a + b) == Ids(a) + Ids(b)
  {
    if a == [] {
      assert a + b == b;
    } else {
      assert (a + b)[1..] == a[1..] + b;
      IdsAppend(a[1..], b);
    }
  }

  lemma IdsLast(q: seq<Publish>, p: Publish)
    ensures Ids(q + [p]) == Ids(q) + multiset{p.id}
  {
    IdsAppend(q, [p]);
    assert [p][1..] == [];
  }

  lemma {:induction false} PublishesOfLast(q: seq<Resuming>, r: Resuming)
    ensures PublishesOf(q + [r]) == PublishesOf(q) + [r.publish]
  {
    if q == [] {
      assert [r][1..] == [] && q + [r] == [r];
    } else {
      assert (q + [r])[1..] == q[1..] + [r];
      PublishesOfLast(q[1..], r);
    }
  }

  /** The calls issued, refused, let go or rejected, and waiting. */
  function AllIds(t: Transport): multiset<nat> {
    Ids(t.issued) + Ids(t.refused) + Ids(PublishesOf(t.resuming)) + Ids(t.waiters)
  }

  lemma Resumes(t: Transport, w: Publish, waiters: seq<Publish>, ok: bool)
    requires Ids(t.waiters) == Ids(waiters) + multiset{w.id}
    ensures AllIds(t.(waiters := waiters, resuming := t.resuming + [Resuming(w, ok)])) == AllIds(t)
  {
    PublishesOfLast(t.resuming, Resuming(w, ok));
    IdsLast(PublishesOf(t.resuming), w);
  }

  lemma {:induction false} ReleasesEachOnce(t: Transport)
    ensures AllIds(t.ReleaseWaiters()) == AllIds(t) && t.ReleaseWaiters().calls == t.calls
    decreases |t.waiters|
  {
    if t.waiters != [] && (t.subscribing == [] || t.waiters[0].upTo < t.subscribing[0].order) {
      Resumes(t, t.waiters[0], t.waiters[1..], true);
      ReleasesEachOnce(t.(waiters := t.waiters[1..], resuming := t.resuming + [Resuming(t.waiters[0], true)]));
    }
  }

  lemma {:induction false} RejectsEachOnce(t: Transport, order: nat)
    ensures AllIds(t.RejectFrom(order)) == AllIds(t) && t.RejectFrom(order).calls == t.calls
    decreases |t.waiters|
  {
    if t.waiters != [] && t.waiters[|t.waiters| - 1].upTo >= order {
      var n := |t.waiters| - 1;
      assert t.waiters == t.waiters[..n] + [t.waiters[n]];
      IdsLast(t.waiters[..n], t.waiters[n]);
      Resumes(t, t.waiters[n], t.waiters[..n], false);
      RejectsEachOnce(t.(waiters := t.waiters[..n], resuming := t.resuming + [Resuming(t.waiters[n], false)]), order);
    }
  }

  lemma SettlesEachOnce(t: Transport, p: Pending, ok: bool)
    ensures AllIds(t.Settle(p, ok)) == AllIds(t) && t.Settle(p, ok).calls == t.calls
  {
    if p in t.subscribing {
      var u := t.(subscribing := Without(t.subscribing, p));
      assert AllIds(u) == AllIds(t);
      if ok {
        ReleasesEachOnce(u);
      } else {
        var f := u.(failed := t.failed + {p.channel});
        assert AllIds(f) == AllIds(t);
        RejectsEachOnce(f, p.order);
        ReleasesEachOnce(f.RejectFrom(p.order));
      }
    }
  }

  lemma UnsubscribesEachOnce(t: Transport, channel: string)
    ensures AllIds(t.Unsubscribe(channel)) == AllIds(t) && t.Unsubscribe(channel).calls == t.calls
  {
    var u := t.(subscribing := WithoutChannel(t.subscribing, channel), failed := t.failed - {channel});
    assert AllIds(u) == AllIds(t);
    ReleasesEachOnce(u);
  }

  lemma OneMore(a: multiset<nat>, b: multiset<nat>, c: multiset<nat>, d: multiset<nat>, x: multiset<nat>)
    ensures (a + x) + b + c + d == a + b + c + d + x && a + (b + x) + c + d == a + b + c + d + x
    ensures a + b + c + (d + x) == a + b + c + d + x
  {
  }

  /** A call taken joins those issued, refused or waiting. */
  lemma TakesOne(t: Transport, p: Publish, calls: nat)
    ensures AllIds(t.(calls := calls, issued := t.issued + [p])) == AllIds(t) + multiset{p.id}
    ensures AllIds(t.(calls := calls, refused := t.refused + [p])) == AllIds(t) + multiset{p.id}
    ensures AllIds(t.(calls := calls, waiters := t.waiters + [p])) == AllIds(t) + multiset{p.id}
  {
    IdsLast(t.issued, p);
    IdsLast(t.refused, p);
    IdsLast(t.waiters, p);
    OneMore(Ids(t.issued), Ids(t.refused), Ids(PublishesOf(t.resuming)), Ids(t.waiters), multiset{p.id});
  }

  lemma TakesEachOnce(t: Transport)
    ensures AllIds(t.TakePublish()) == AllIds(t) + multiset{t.calls} && t.TakePublish().calls == t.calls + 1
  {
    TakesOne(t, Publish(t.calls, t.subscribesSent), t.calls + 1);
    var to := Joining(t);
    if t.failed == {} && (t.subscribing != [] || t.waiters != [] || t.resuming != []) {
      ReleasesEachOnce(to);
    }
  }

  /** The call joins those waiting. */
  function Joining(t: Transport): Transport {
    t.(calls := t.calls + 1, waiters := t.waiters + [Publish(t.calls, t.subscribesSent)])
  }

  lemma ResumesEachOnce(t: Transport)
    requires t.resuming != []
    ensures AllIds(t.Resume()) == AllIds(t) && t.Resume().calls == t.calls
  {
    if t.resuming[0].ok {
      IdsLast(t.issued, t.resuming[0].publish);
    } else {
      IdsLast(t.refused, t.resuming[0].publish);
    }
  }

  lemma StepEachOnce(t: Transport, op: Op)
    requires Allowed(t, op) && AllIds(t) == FirstIds(t.calls)
    ensures AllIds(Step(t, op)) == FirstIds(Step(t, op).calls)
  {
    match op {
      case Subscribe(channel) =>
      case Settle(p, ok) => SettlesEachOnce(t, p, ok);
      case Unsubscribe(channel) => UnsubscribesEachOnce(t, channel);
      case Publishes => TakesEachOnce(t);
      case Resume => ResumesEachOnce(t);
    }
  }

  lemma {:induction false} RunEachOnce(t: Transport, ops: seq<Op>)
    requires AllowedRun(t, ops) && AllIds(t) == FirstIds(t.calls)
    ensures AllIds(Run(t, ops)) == FirstIds(Run(t, ops).calls)
    decreases |ops|
  {
    if ops != [] {
      StepEachOnce(t, ops[0]);
      RunEachOnce(Step(t, ops[0]), ops[1..]);
    }
  }

  /** In every run each call is issued, refused, resuming or waiting, and just once; with no SUBSCRIBE pending none waits,
      and once all resumed each was either issued or refused. */
  lemma EachEndsOnce(ops: seq<Op>)
    requires AllowedRun(NEW_TRANSPORT, ops)
    ensures var t := Run(NEW_TRANSPORT, ops);
            && AllIds(t) == FirstIds(t.calls) && (t.subscribing == [] ==> t.waiters == [])
            && (t.subscribing == [] && t.resuming == [] ==> Ids(t.issued) + Ids(t.refused) == FirstIds(t.calls))
  {
    RunEachOnce(NEW_TRANSPORT, ops);
    RunKept(NEW_TRANSPORT, ops);
  }

  // ── Behind a failed SUBSCRIBE ──

  /** Every publish still to go, or gone, is before the SUBSCRIBE of `order`, which failed and is not withdrawn. */
  predicate HeldBehind(t: Transport, channel: string, order: nat) {
    channel in t.failed && forall i | 0 <= i < |t.Line()| :: t.Line()[i].upTo < order
  }

  /** `to` has no publish in line that `t` has not. */
  predicate FewerInLine(t: Transport, to: Transport) {
    to.failed >= t.failed && |to.Line()| <= |t.Line()| && to.Line() == t.Line()[..|to.Line()|]
  }

  lemma {:induction false} ReleaseSameLine(t: Transport)
    requires Ordered(t)
    ensures t.ReleaseWaiters().Line() == t.Line() && t.ReleaseWaiters().failed == t.failed
    decreases |t.waiters|
  {
    if t.waiters != [] && (t.subscribing == [] || t.waiters[0].upTo < t.subscribing[0].order) {
      var next := t.(waiters := t.waiters[1..], resuming := t.resuming + [Resuming(t.waiters[0], true)]);
      ReleaseOne(t);
      LetGoAppend(t.resuming, Resuming(t.waiters[0], true));
      assert next.Line() == t.Line();
      ReleaseSameLine(next);
    }
  }

  lemma {:induction false} RejectFailed(t: Transport, order: nat)
    ensures t.RejectFrom(order).failed == t.failed
    decreases |t.waiters|
  {
    if t.waiters != [] && t.waiters[|t.waiters| - 1].upTo >= order {
      var n := |t.waiters| - 1;
      RejectFailed(t.(waiters := t.waiters[..n], resuming := t.resuming + [Resuming(t.waiters[n], false)]), order);
    }
  }

  lemma SettleFewer(t: Transport, p: Pending, ok: bool)
    requires t.Kept()
    ensures FewerInLine(t, t.Settle(p, ok))
    ensures p in t.subscribing && !ok ==> HeldBehind(t.Settle(p, ok), p.channel, p.order)
  {
    assert t.Line()[..|t.Line()|] == t.Line();
    if p in t.subscribing {
      var u := t.(subscribing := Without(t.subscribing, p));
      WithoutOne(t.subscribing, p);
      FewerPending(t, u.subscribing);
      if ok {
        ReleaseSameLine(u);
      } else {
        var f := u.(failed := t.failed + {p.channel});
        RejectFewer(f, p.order);
        ReleaseSameLine(f.RejectFrom(p.order));
        AllBefore(t, f.RejectFrom(p.order), p);
      }
    }
  }

  lemma RejectFewer(t: Transport, order: nat)
    requires Ordered(t)
    ensures var to := t.RejectFrom(order);
            && FewerInLine(t, to) && Ordered(to) && to.failed == t.failed && to.issued == t.issued
            && LetGo(to.resuming) == LetGo(t.resuming) && forall i | 0 <= i < |to.waiters| :: to.waiters[i].upTo < order
  {
    RejectsExactly(t, order);
    RejectFailed(t, order);
  }

  /** What went before is clear of the one pending, and what waits was not rejected. */
  lemma AllBefore(t: Transport, to: Transport, p: Pending)
    requires p in t.subscribing && Clear(t.issued + LetGo(t.resuming), t.subscribing)
    requires to.issued == t.issued && LetGo(to.resuming) == LetGo(t.resuming)
    requires forall i | 0 <= i < |to.waiters| :: to.waiters[i].upTo < p.order
    ensures forall i | 0 <= i < |to.Line()| :: to.Line()[i].upTo < p.order
  {
    var j :| 0 <= j < |t.subscribing| && t.subscribing[j] == p;
    var gone := t.issued + LetGo(t.resuming);
    forall i | 0 <= i < |to.Line()| ensures to.Line()[i].upTo < p.order {
      if i < |gone| {
        assert to.Line()[i] == gone[i] && gone[i].upTo < t.subscribing[j].order;
      } else {
        assert to.Line()[i] == to.waiters[i - |gone|];
      }
    }
  }

  lemma StaysBehind(t: Transport, op: Op, channel: string, order: nat)
    requires t.Kept() && Allowed(t, op) && HeldBehind(t, channel, order) && op != Op.Unsubscribe(channel)
    ensures HeldBehind(Step(t, op), channel, order)
  {
    match op {
      case Subscribe(_) =>
      case Settle(p, ok) => SettleFewer(t, p, ok);
      case Unsubscribe(other) =>
        WithoutOneChannel(t.subscribing, other);
        FewerPending(t, WithoutChannel(t.subscribing, other));
        ReleaseSameLine(t.(subscribing := WithoutChannel(t.subscribing, other), failed := t.failed - {other}));
      case Publishes =>
      case Resume =>
        var r := t.resuming[0];
        assert LetGo(t.resuming) == (if r.ok then [r.publish] else []) + LetGo(t.resuming[1..]);
        assert Step(t, op).Line() == t.Line();
    }
  }

  lemma {:induction false} RunStaysBehind(t: Transport, ops: seq<Op>, channel: string, order: nat)
    requires t.Kept() && AllowedRun(t, ops) && HeldBehind(t, channel, order)
    requires forall i | 0 <= i < |ops| :: ops[i] != Op.Unsubscribe(channel)
    ensures HeldBehind(Run(t, ops), channel, order)
    decreases |ops|
  {
    if ops != [] {
      StaysBehind(t, ops[0], channel, order);
      StepKept(t, ops[0]);
      assert forall i | 0 <= i < |ops[1..]| :: ops[1..][i] == ops[i + 1];
      RunStaysBehind(Step(t, ops[0]), ops[1..], channel, order);
    }
  }

  /** After any run, once a SUBSCRIBE fails, no publish called after it is issued, nor any called later, till its channel is
      withdrawn. */
  lemma NoneBehindAFailed(before: seq<Op>, p: Pending, ops: seq<Op>)
    requires AllowedRun(NEW_TRANSPORT, before) && p in Run(NEW_TRANSPORT, before).subscribing
    requires AllowedRun(Step(Run(NEW_TRANSPORT, before), Op.Settle(p, false)), ops)
    requires forall i | 0 <= i < |ops| :: ops[i] != Op.Unsubscribe(p.channel)
    ensures var t := Run(Step(Run(NEW_TRANSPORT, before), Op.Settle(p, false)), ops);
            p.channel in t.failed && forall i | 0 <= i < |t.issued| :: t.issued[i].upTo < p.order
  {
    RunKept(NEW_TRANSPORT, before);
    NoneAfterFailed(Run(NEW_TRANSPORT, before), p, ops);
  }

  lemma NoneAfterFailed(t: Transport, p: Pending, ops: seq<Op>)
    requires t.Kept() && p in t.subscribing && AllowedRun(t.Settle(p, false), ops)
    requires forall i | 0 <= i < |ops| :: ops[i] != Op.Unsubscribe(p.channel)
    ensures var to := Run(t.Settle(p, false), ops);
            p.channel in to.failed && forall i | 0 <= i < |to.issued| :: to.issued[i].upTo < p.order
  {
    SettleFewer(t, p, false);
    SettleKept(t, p, false);
    RunStaysBehind(t.Settle(p, false), ops, p.channel, p.order);
    IssuedBehind(Run(t.Settle(p, false), ops), p.channel, p.order);
  }

  lemma IssuedBehind(t: Transport, channel: string, order: nat)
    requires HeldBehind(t, channel, order)
    ensures channel in t.failed && forall i | 0 <= i < |t.issued| :: t.issued[i].upTo < order
  {
    assert forall i | 0 <= i < |t.issued| :: t.issued[i] == t.Line()[i];
  }
}
