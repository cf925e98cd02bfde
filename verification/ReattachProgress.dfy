/** A reconnect delivers: from any state a run comes to, some steps of a next wire leave the server with every frame the page
    issued, if the replay holds what the server lacks. */
module ReattachProgress {
  import opened Bytes
  import opened Tags
  import opened Reattach
  import opened ReattachSafety

  lemma {:induction false} RunThen(c: Channel, steps: seq<Step>, more: seq<Step>)
    requires CanRun(c, steps) && CanRun(Run(c, steps), more)
    ensures CanRun(c, steps + more) && Run(c, steps + more) == Run(Run(c, steps), more)
    decreases |steps|
  {
    if steps == [] {
      assert steps + more == more;
    } else {
      assert (steps + more)[1..] == steps[1..] + more && (steps + more)[0] == steps[0];
      RunThen(Next(c, steps[0]), steps[1..], more);
    }
  }

  /** The wire delivers, and nothing is refused, closed or given up. */
  predicate Plain(s: Step) {
    s == LoseWire || s == SendReconcile(false) || s == ServerTakes(Registered) || s == Reply || s == PageTakes || s == Flush
  }

  predicate AllPlain(steps: seq<Step>) {
    forall i | 0 <= i < |steps| :: Plain(steps[i])
  }

  /** Live on a wire the server took the channel on. */
  predicate OnWire(c: Channel) {
    Kept(c) && c.page.mode.Live? && c.server.phase == Attached && c.server.held == [] && !c.server.ended
  }

  /** What is on the wire comes to the server, then the next frame issued goes out, till none is left. */
  lemma {:induction false} WireDelivers(c: Channel) returns (steps: seq<Step>)
    requires OnWire(c)
    ensures CanRun(c, steps) && AllPlain(steps)
    ensures Run(c, steps).server.accepted == Run(c, steps).page.issued == c.page.issued
    decreases 2 * (|c.page.issued| - c.page.replay.pushed) + |c.up|
  {
    if c.up != [] {
      steps := StepThen(c, ServerTakes(Registered));
    } else if c.page.replay.pushed < |c.page.issued| {
      steps := StepThen(c, Flush);
    } else {
      steps := [];
      DeliversAll(c);
      assert c.page.issued[..|c.page.issued|] == c.page.issued;
    }
  }

  lemma StepThen(c: Channel, s: Step) returns (steps: seq<Step>)
    requires OnWire(c) && CanStep(c, s)
    requires s == ServerTakes(Registered) || (s == Flush && c.up == [])
    ensures CanRun(c, steps) && AllPlain(steps)
    ensures Run(c, steps).server.accepted == Run(c, steps).page.issued == c.page.issued
    decreases 2 * (|c.page.issued| - c.page.replay.pushed) + |c.up|, 0
  {
    StepKept(c, s);
    var rest := WireDelivers(Next(c, s));
    steps := [s] + rest;
    assert steps[1..] == rest;
  }

  /** A reconnect in order: the wire is lost, the next one's RECONCILE names the channel, and its RECONCILED comes. */
  const RECONNECT: seq<Step> := [LoseWire, SendReconcile(false), ServerTakes(Registered), Reply, PageTakes]

  /** The new wire once its RECONCILED comes. */
  function Reconnected(c: Channel): Channel {
    var left := Leave(c);
    var named := left.(page := left.page.(mode := Named(!left.page.attachedOnce, None, None), session := true),
                       server := left.server.(phase := Attached));
    ReplayTo(named, c.server.has, None)
  }

  lemma Leaves(c: Channel) returns (d: Channel)
    requires !c.page.mode.Ended? && !c.page.mode.Gone?
    ensures d == Next(c, LoseWire) && d == Leave(c) && d.page.mode.Unattached? && d.up == [] && d.down == []
    ensures d.server.phase == Unnamed && d.server.has == c.server.has
  {
    d := Leave(c);
  }

  lemma Names(c: Channel) returns (d: Channel, e: Channel)
    requires c.page.mode.Unattached? && c.up == [] && c.server.phase == Unnamed
    ensures CanStep(c, SendReconcile(false)) && d == Next(c, SendReconcile(false))
    ensures CanStep(d, ServerTakes(Registered)) && e == Next(d, ServerTakes(Registered))
    ensures e == c.(page := c.page.(mode := Named(!c.page.attachedOnce, None, None)),
                    server := c.server.(phase := Attached, replying := Some(true)))
  {
    d := Next(c, SendReconcile(false));
    assert d.up == [Reconcile(!c.page.attachedOnce)];
    e := Next(d, ServerTakes(Registered));
    assert e.up == [];
  }

  lemma Replies(c: Channel) returns (d: Channel)
    requires c.page.mode.Named? && c.page.mode.carriedFrom.None? && c.server.replying == Some(true) && c.down == []
    ensures CanStep(c, Reply) && d == Next(c, Reply) && CanStep(d, PageTakes)
    ensures Next(d, PageTakes) == ReplayTo(c.(page := c.page.(session := true), server := c.server.(replying := None)),
                                           c.server.has, None)
  {
    d := Next(c, Reply);
    assert d.down == [Reconciled(Some(c.server.has))];
    assert d.down[1..] == [];
  }

  lemma Reconnects(c: Channel)
    requires !c.page.mode.Ended? && !c.page.mode.Gone?
    ensures CanRun(c, RECONNECT) && Run(c, RECONNECT) == Reconnected(c)
  {
    var c1 := Leaves(c);
    var c2, c3 := Names(c1);
    var c4 := Replies(c3);
    OneByOne(c, c1, c2, c3, c4);
  }

  lemma OneByOne(c: Channel, c1: Channel, c2: Channel, c3: Channel, c4: Channel)
    requires c1 == Next(c, LoseWire) && CanStep(c1, SendReconcile(false)) && c2 == Next(c1, SendReconcile(false))
    requires CanStep(c2, ServerTakes(Registered)) && c3 == Next(c2, ServerTakes(Registered))
    requires CanStep(c3, Reply) && c4 == Next(c3, Reply) && CanStep(c4, PageTakes)
    ensures CanRun(c, RECONNECT) && Run(c, RECONNECT) == Next(c4, PageTakes)
  {
    var q1, q2, q3, q4 := RECONNECT[1..], RECONNECT[2..], RECONNECT[3..], RECONNECT[4..];
    assert q1[1..] == q2 && q2[1..] == q3 && q3[1..] == q4 && q4[1..] == [];
    assert CanRun(c4, q4) && Run(c4, q4) == Next(c4, PageTakes);
    assert CanRun(c3, q3) && Run(c3, q3) == Run(c4, q4);
    assert CanRun(c2, q2) && Run(c2, q2) == Run(c3, q3);
    assert CanRun(c1, q1) && Run(c1, q1) == Run(c2, q2);
  }

  /** The replay holds all the server lacks of what went out, once the server's last seq is acknowledged. */
  predicate Replayable(c: Channel) {
    var r := c.page.replay.Acknowledge(c.server.has);
    forall s | c.server.has < s <= c.page.replay.pushed :: r.Held(s)
  }

  /** After a reconnect the channel is live just where the replay gives what the server lacks. */
  lemma ReconnectedExactly(c: Channel)
    requires Kept(c) && !c.page.mode.Ended? && !c.page.mode.Gone?
    ensures var d := Reconnected(c);
            && Kept(d) && d.page.issued == c.page.issued && d.server.phase == Attached && d.server.held == []
            && (d.page.mode.Live? <==> Replayable(c)) && (d.page.mode.Ended? <==> !Replayable(c))
  {
    Reconnects(c);
    RunKept(c, RECONNECT);
    LostExactly(c, c.server.has, None);
    var r := c.page.replay.Acknowledge(c.server.has);
    assert r.acked == c.server.has && r.Top(None) == c.page.replay.pushed;
  }

  /** After every run, where neither side gave the channel up, a next wire brings the server every frame issued, if and only
      if the replay holds what the server lacks: else the channel ends as lost. */
  lemma ReconnectDelivers(before: seq<Step>) returns (more: seq<Step>)
    requires CanRun(Start(), before)
    requires var c := Run(Start(), before); !c.page.mode.Ended? && !c.page.mode.Gone?
    ensures var c := Run(Start(), before);
            && CanRun(c, more) && RECONNECT <= more && AllPlain(more)
            && (Replayable(c) ==> Run(c, more).server.accepted == Run(c, more).page.issued == c.page.issued)
            && (!Replayable(c) ==> more == RECONNECT && Run(c, more).page.mode.Ended?)
  {
    StartKept();
    RunKept(Start(), before);
    more := NextWireDelivers(Run(Start(), before));
  }

  lemma NextWireDelivers(c: Channel) returns (more: seq<Step>)
    requires Kept(c) && !c.page.mode.Ended? && !c.page.mode.Gone?
    ensures CanRun(c, more) && RECONNECT <= more && AllPlain(more)
    ensures Replayable(c) ==> Run(c, more).server.accepted == Run(c, more).page.issued == c.page.issued
    ensures !Replayable(c) ==> more == RECONNECT && Run(c, more).page.mode.Ended?
  {
    Reconnects(c);
    ReconnectedExactly(c);
    more := RECONNECT;
    if Replayable(c) {
      var d := Reconnected(c);
      assert OnWire(d);
      var rest := WireDelivers(d);
      RunThen(c, RECONNECT, rest);
      more := RECONNECT + rest;
      PlainThen(rest);
    }
  }

  lemma PlainThen(rest: seq<Step>)
    requires AllPlain(rest)
    ensures AllPlain(RECONNECT + rest)
  {
    assert AllPlain(RECONNECT);
  }
}
