/** Over every run, what the server accepts is a gap-free prefix of what the page issued, each frame once, and a channel
    live on a wire loses nothing: the wire carries all the server still lacks. */
module ReattachSafety {
  import opened Bytes
  import opened Tags
  import opened Replays
  import opened Reattach

  // ── What wires carry ──

  /** The server's last seq once it took `q`, at `h` before. */
  function Through(h: nat, q: seq<Up>): nat
    decreases |q|
  {
    if q == [] then h else Through(if q[0].Data? && q[0].seqNo > h then q[0].seqNo else h, q[1..])
  }

  /** No frame of `q` is past the next one when it arrives. */
  predicate NoGap(h: nat, q: seq<Up>)
    decreases |q|
  {
    q == [] || ((q[0].Data? ==> q[0].seqNo <= h + 1)
                && NoGap(if q[0].Data? && q[0].seqNo > h then q[0].seqNo else h, q[1..]))
  }

  /** A frame on a wire is the one issued at its seq, gone out before. */
  predicate IsIssued(m: Up, issued: seq<Frame>, pushed: nat) {
    m.Data? ==> 0 < m.seqNo <= pushed <= |issued| && m.frame == issued[m.seqNo - 1]
  }

  predicate AllIssued(q: seq<Up>, issued: seq<Frame>, pushed: nat) {
    forall i | 0 <= i < |q| :: IsIssued(q[i], issued, pushed)
  }

  lemma {:induction false} ThroughAppend(h: nat, a: seq<Up>, b: seq<Up>)
    ensures Through(h, a + b) == Through(Through(h, a), b)
    decreases |a|
  {
    if a == [] {
      assert a + b == b;
    } else {
      assert (a + b)[1..] == a[1..] + b;
      ThroughAppend(if a[0].Data? && a[0].seqNo > h then a[0].seqNo else h, a[1..], b);
    }
  }

  lemma {:induction false} NoGapAppend(h: nat, a: seq<Up>, b: seq<Up>)
    ensures NoGap(h, a + b) <==> NoGap(h, a) && NoGap(Through(h, a), b)
    decreases |a|
  {
    if a == [] {
      assert a + b == b;
    } else {
      assert (a + b)[1..] == a[1..] + b;
      NoGapAppend(if a[0].Data? && a[0].seqNo > h then a[0].seqNo else h, a[1..], b);
    }
  }

  /** The further the server is, the less a wire can leave a gap, and it ends no further back. */
  lemma {:induction false} FurtherOn(h: nat, more: nat, q: seq<Up>)
    requires h <= more
    ensures NoGap(h, q) ==> NoGap(more, q)
    ensures Through(h, q) <= Through(more, q)
    decreases |q|
  {
    if q != [] {
      var to := if q[0].Data? && q[0].seqNo > h then q[0].seqNo else h;
      FurtherOn(to, if q[0].Data? && q[0].seqNo > more then q[0].seqNo else more, q[1..]);
    }
  }

  lemma {:induction false} ThroughBounds(h: nat, q: seq<Up>, issued: seq<Frame>, pushed: nat)
    requires AllIssued(q, issued, pushed) && h <= pushed
    ensures h <= Through(h, q) <= pushed
    decreases |q|
  {
    if q != [] {
      assert IsIssued(q[0], issued, pushed);
      assert forall i | 0 <= i < |q[1..]| :: q[1..][i] == q[i + 1];
      ThroughBounds(if q[0].Data? && q[0].seqNo > h then q[0].seqNo else h, q[1..], issued, pushed);
    }
  }

  /** What is replayed from `lastSeq` on leaves no gap at a server that has as much, and takes it to the end. */
  lemma {:induction false} AgainReaches(h: nat, lastSeq: nat, frames: seq<Frame>)
    requires lastSeq <= h
    ensures NoGap(h, Again(lastSeq, frames))
    ensures Through(h, Again(lastSeq, frames)) == Max(h, lastSeq + |frames|)
    decreases |frames|
  {
    var q := Again(lastSeq, frames);
    if frames != [] {
      assert q[1..] == Again(lastSeq + 1, frames[1..]);
      AgainReaches(if lastSeq + 1 > h then lastSeq + 1 else h, lastSeq + 1, frames[1..]);
    }
  }

  // ── The invariant ──

  /** The page's replay tracks what went out, and all issued is sequenced and small enough to replay. */
  predicate PageKept(p: Page, has: nat) {
    && p.replay.pushed <= |p.issued| == p.replay.issued && p.replay.acked <= has <= p.replay.pushed
    && p.replay.Tracks(p.issued[..p.replay.pushed])
    && (forall i | 0 <= i < |p.issued| :: Sequenced(p.issued[i]) && |p.issued[i]| <= MAX_FRAME)
    && (p.mode.Named? && p.mode.carriedFrom.Some? ==> 0 < p.mode.carriedFrom.value <= p.replay.pushed + 1)
    && (p.mode.Named? && p.mode.answer.Some? && p.mode.answer.value.Some? ==> p.mode.answer.value.value <= has)
  }

  /** Till a RECONCILED comes, the newest frame sent is stored unless the server has it, so an empty replay says it does. */
  predicate NewestStored(p: Page) {
    && p.replay.budgets.text.Holds(MAX_FRAME) && p.replay.budgets.binary.Holds(MAX_FRAME)
    && p.replay.budgets.closing.Unlimited?
    && (p.replay.acked < p.replay.pushed ==> p.replay.Held(p.replay.pushed))
    && p.replay.lowered.None?
  }

  /** No answer on its way names more than the server has. */
  predicate Answers(q: seq<Down>, has: nat) {
    forall i | 0 <= i < |q| ::
      match q[i] case Reconciled(l) => l.Some? ==> l.value <= has
                 case AttachResult(l) => l.Some? ==> l.value <= has
                 case Has(n) => n <= has
  }

  /** What the page's wire still carries for the channel. */
  function Ahead(c: Channel): seq<Up> { c.server.held + c.up }

  /** All that went out is with the server or on the wire to it. */
  predicate Covers(c: Channel) {
    c.server.phase != Refused ==> Through(c.server.has, Ahead(c)) == c.page.replay.pushed
  }

  predicate Carrying(m: Mode) { m.Live? || (m.Named? && m.carriedFrom.Some?) }

  predicate Flows(c: Channel) {
    && (c.server.phase != Refused ==> NoGap(c.server.has, Ahead(c)))
    && (forall i | 0 <= i < |c.stale| :: NoGap(c.server.has, c.stale[i]))
    && (Carrying(c.page.mode) ==> Covers(c))
  }

  predicate WiresIssued(c: Channel) {
    var issued, pushed := c.page.issued, c.page.replay.pushed;
    && AllIssued(c.up, issued, pushed) && AllIssued(c.server.held, issued, pushed)
    && (forall i | 0 <= i < |c.stale| :: AllIssued(c.stale[i], issued, pushed))
  }

  /** A wire's first message names the channel. */
  predicate NamedFirst(c: Channel) {
    && (c.server.phase == Unnamed ==> c.server.held == [] && (c.up == [] || c.up[0].Reconcile?))
    && (c.server.phase == Unnamed && (c.page.mode.Named? || c.page.mode.Awaited? || c.page.mode.Live?) ==> c.up != [])
    && (c.page.mode.Unattached? ==> c.up == [] && c.server.phase == Unnamed)
    && (c.server.phase == Attached || c.server.phase == Refused ==> c.server.held == [])
  }

  predicate NoneLost(q: seq<Up>) {
    forall i | 0 <= i < |q| :: !q[i].Lost?
  }

  /** Till the page gives the channel up, nothing says so. */
  predicate NotEnded(c: Channel) {
    !c.page.mode.Ended? ==>
      && !c.server.ended && NoneLost(c.up) && NoneLost(c.server.held)
      && forall i | 0 <= i < |c.stale| :: NoneLost(c.stale[i])
  }

  predicate Prefix(c: Channel) {
    c.server.has <= |c.page.issued| && c.server.accepted == c.page.issued[..c.server.has]
  }

  predicate Kept(c: Channel) {
    && Prefix(c) && PageKept(c.page, c.server.has) && WiresIssued(c) && NamedFirst(c) && NotEnded(c)
    && Answers(c.down, c.server.has) && Answers(c.late, c.server.has)
    && (!c.server.ended ==> Flows(c))
    && (!c.page.session ==> NewestStored(c.page))
  }

  lemma StartKept()
    ensures Kept(Start())
  {
  }

  // ── The server takes a frame ──

  lemma AcceptOne(c: Channel, m: Up)
    requires Prefix(c) && IsIssued(m, c.page.issued, c.page.replay.pushed)
    requires !c.server.ended && m.Data? ==> m.seqNo <= c.server.has + 1
    ensures var s := Accept(c.server, m);
            && c.server.has <= s.has && s.accepted == c.page.issued[..s.has] && s.phase == c.server.phase
            && (!c.server.ended ==> s.has == Through(c.server.has, [m]))
            && (!c.server.ended && !m.Lost? ==> !s.ended) && (c.server.ended ==> s.has == c.server.has && s.ended)
  {
    var s := Accept(c.server, m);
    if s.accepted != c.server.accepted {
      assert c.page.issued[..s.has] == c.page.issued[..c.server.has] + [m.frame];
    }
    assert [m][1..] == [];
  }

  /** What another wire carries leaves no gap still, once the server is further on. */
  lemma StaleStill(stale: seq<seq<Up>>, h: nat, more: nat)
    requires h <= more && forall i | 0 <= i < |stale| :: NoGap(h, stale[i])
    ensures forall i | 0 <= i < |stale| :: NoGap(more, stale[i])
  {
    forall i | 0 <= i < |stale|
      ensures NoGap(more, stale[i])
    {
      FurtherOn(h, more, stale[i]);
    }
  }

  lemma TailIssued(q: seq<Up>, issued: seq<Frame>, pushed: nat)
    requires q != [] && AllIssued(q, issued, pushed)
    ensures AllIssued(q[1..], issued, pushed) && IsIssued(q[0], issued, pushed)
  {
    assert forall i | 0 <= i < |q[1..]| :: q[1..][i] == q[i + 1];
  }

  /** A frame of an old wire. */
  lemma StaleTakesKept(c: Channel, i: nat)
    requires Kept(c) && CanStep(c, StaleTakes(i))
    ensures Kept(Next(c, StaleTakes(i)))
  {
    var m, c' := c.stale[i][0], Next(c, StaleTakes(i));
    assert AllIssued(c.stale[i], c.page.issued, c.page.replay.pushed);
    TailIssued(c.stale[i], c.page.issued, c.page.replay.pushed);
    assert !c.server.ended ==> NoGap(c.server.has, c.stale[i]);
    AcceptOne(c, m);
    assert [m] + c.stale[i][1..] == c.stale[i];
    if !c.server.ended {
      assert !c.page.mode.Ended? ==> NoneLost(c.stale[i]);
      StaleFlows(c, i);
    }
  }

  lemma StaleFlows(c: Channel, i: nat)
    requires Kept(c) && CanStep(c, StaleTakes(i)) && !c.server.ended
    ensures Flows(Next(c, StaleTakes(i)))
  {
    var m, c' := c.stale[i][0], Next(c, StaleTakes(i));
    var h, h' := c.server.has, c'.server.has;
    assert AllIssued(c.stale[i], c.page.issued, c.page.replay.pushed);
    TailIssued(c.stale[i], c.page.issued, c.page.replay.pushed);
    AcceptOne(c, m);
    StaleStill(c.stale, h, h');
    NoGapAppend(h, [m], c.stale[i][1..]);
    assert [m] + c.stale[i][1..] == c.stale[i];
    AheadStill(c, h');
  }

  /** What the page's wire carries still covers all that went out, once the server is further on. */
  lemma AheadStill(c: Channel, more: nat)
    requires c.server.has <= more <= c.page.replay.pushed && WiresIssued(c)
    ensures NoGap(c.server.has, Ahead(c)) ==> NoGap(more, Ahead(c))
    ensures Through(c.server.has, Ahead(c)) == c.page.replay.pushed ==> Through(more, Ahead(c)) == c.page.replay.pushed
  {
    FurtherOn(c.server.has, more, Ahead(c));
    ThroughBounds(more, Ahead(c), c.page.issued, c.page.replay.pushed);
  }

  /** The page's own wire's next message, the channel attached there. */
  lemma TakesFlows(c: Channel, finds: Finds)
    requires Kept(c) && CanStep(c, ServerTakes(finds)) && !c.server.ended
    requires c.server.phase == Attached && !c.up[0].Reconcile?
    ensures Flows(Next(c, ServerTakes(finds)))
  {
    var m, c' := c.up[0], Next(c, ServerTakes(finds));
    TailIssued(c.up, c.page.issued, c.page.replay.pushed);
    assert Ahead(c) == c.up == [m] + c'.up && Ahead(c') == c'.up;
    NoGapAppend(c.server.has, [m], c'.up);
    ThroughAppend(c.server.has, [m], c'.up);
    AcceptOne(c, m);
    StaleStill(c.stale, c.server.has, c'.server.has);
  }

  lemma TakesKept(c: Channel, finds: Finds)
    requires Kept(c) && CanStep(c, ServerTakes(finds)) && c.server.phase == Attached && !c.up[0].Reconcile?
    ensures Kept(Next(c, ServerTakes(finds)))
  {
    var m := c.up[0];
    TailIssued(c.up, c.page.issued, c.page.replay.pushed);
    if !c.server.ended {
      assert Ahead(c) == c.up == [m] + c.up[1..];
      NoGapAppend(c.server.has, [m], c.up[1..]);
      TakesFlows(c, finds);
    }
    AcceptOne(c, m);
  }

  /** A RECONCILE moves no frame. */
  lemma ReconcileFlows(c: Channel, finds: Finds)
    requires Kept(c) && CanStep(c, ServerTakes(finds)) && !c.server.ended && c.up[0].Reconcile?
    ensures Flows(Next(c, ServerTakes(finds)))
  {
    var m, c', held := c.up[0], Next(c, ServerTakes(finds)), c.server.held;
    assert c.up == [m] + c'.up && c'.server.held == held;
    var h := c.server.has;
    NoGapAppend(h, held, c.up);
    NoGapAppend(h, held, c'.up);
    ThroughAppend(h, held, c.up);
    ThroughAppend(h, held, c'.up);
  }

  /** Held frames stay between what was held and what follows. */
  lemma HeldFlows(c: Channel, finds: Finds)
    requires Kept(c) && CanStep(c, ServerTakes(finds)) && !c.server.ended && !c.up[0].Reconcile?
    requires c.server.phase != Attached
    ensures Flows(Next(c, ServerTakes(finds)))
  {
    var m, c' := c.up[0], Next(c, ServerTakes(finds));
    if c.server.phase == Waiting || c.server.phase == Settling {
      assert c.server.held + c.up == (c.server.held + [m]) + c.up[1..];
    }
  }

  lemma ServerTakesKept(c: Channel, finds: Finds)
    requires Kept(c) && CanStep(c, ServerTakes(finds))
    ensures Kept(Next(c, ServerTakes(finds)))
  {
    TailIssued(c.up, c.page.issued, c.page.replay.pushed);
    if c.up[0].Reconcile? {
      if !c.server.ended {
        ReconcileFlows(c, finds);
      }
    } else if c.server.phase == Attached {
      TakesKept(c, finds);
    } else if !c.server.ended {
      HeldFlows(c, finds);
    }
  }

  /** Dispatching in order what was held is as taking it off the wire. */
  lemma {:induction false} AcceptAllKept(c: Channel, s: Server, q: seq<Up>)
    requires AllIssued(q, c.page.issued, c.page.replay.pushed)
    requires Prefix(c.(server := s)) && (!s.ended ==> NoGap(s.has, q))
    ensures var t := AcceptAll(s, q);
            && Prefix(c.(server := t)) && s.has <= t.has && t.phase == s.phase && t.held == s.held
            && (s.ended ==> t.ended) && (!t.ended ==> t.has == Through(s.has, q))
            && (NoneLost(q) && !s.ended ==> !t.ended)
    decreases |q|
  {
    if q != [] {
      TailIssued(q, c.page.issued, c.page.replay.pushed);
      AcceptOne(c.(server := s), q[0]);
      assert [q[0]][1..] == [];
      AcceptAllKept(c, Accept(s, q[0]), q[1..]);
    }
  }

  lemma SettleFlows(c: Channel)
    requires Kept(c) && CanStep(c, Settle) && !Next(c, Settle).server.ended && !c.server.ended
    ensures Flows(Next(c, Settle))
  {
    var c' := Next(c, Settle);
    NoGapAppend(c.server.has, c.server.held, c.up);
    ThroughAppend(c.server.has, c.server.held, c.up);
    AcceptAllKept(c, c.server, c.server.held);
    StaleStill(c.stale, c.server.has, c'.server.has);
    assert Ahead(c') == c.up;
  }

  lemma SettleKept(c: Channel)
    requires Kept(c) && CanStep(c, Settle)
    ensures Kept(Next(c, Settle))
  {
    var c', held := Next(c, Settle), c.server.held;
    if !c.server.ended {
      NoGapAppend(c.server.has, held, c.up);
    }
    AcceptAllKept(c, c.server, held);
    assert c'.server.has <= c.page.replay.pushed by {
      HasBounds(c, held);
    }
    if !c'.server.ended {
      SettleFlows(c);
    }
  }

  lemma {:induction false} AcceptAllBounds(s: Server, q: seq<Up>, issued: seq<Frame>, pushed: nat)
    requires AllIssued(q, issued, pushed) && s.has <= pushed
    ensures s.has <= AcceptAll(s, q).has <= pushed
    decreases |q|
  {
    if q != [] {
      TailIssued(q, issued, pushed);
      AcceptAllBounds(Accept(s, q[0]), q[1..], issued, pushed);
    }
  }

  lemma HasBounds(c: Channel, q: seq<Up>)
    requires Kept(c) && AllIssued(q, c.page.issued, c.page.replay.pushed)
    ensures AcceptAll(c.server, q).has <= c.page.replay.pushed
  {
    AcceptAllBounds(c.server, q, c.page.issued, c.page.replay.pushed);
  }

  /** What changes no frame's place. */
  lemma AnswerKept(c: Channel, s: Step)
    requires Kept(c) && CanStep(c, s)
    requires s.Reply? || s.Register? || s.Acknowledges? || s.StaleAnswers? || s.Expire?
    ensures Kept(Next(c, s))
  {
    if s.Expire? {
      assert !c.server.ended ==> Flows(Next(c, s));
    } else {
      assert Ahead(Next(c, s)) == Ahead(c);
    }
  }

  lemma StaleClosesKept(c: Channel, i: nat)
    requires Kept(c) && CanStep(c, StaleCloses(i))
    ensures Kept(Next(c, StaleCloses(i)))
  {
    assert Ahead(Next(c, StaleCloses(i))) == Ahead(c);
  }

  // ── The page's replay ──

  /** An acknowledgement evicts no frame while no lower budget waits. */
  lemma NewestAcknowledged(p: Page, has: nat, lastSeq: nat)
    requires PageKept(p, has) && NewestStored(p) && lastSeq <= has
    ensures NewestStored(p.(replay := p.replay.Acknowledge(lastSeq)))
  {
    var r, r' := p.replay, p.replay.Acknowledge(lastSeq);
    if lastSeq > r.acked && lastSeq < r.pushed {
      AcknowledgeEvicts(r, p.issued[..r.pushed], lastSeq);
      assert r.Held(r.pushed);
    }
  }

  /** An empty replay before any RECONCILED: the server has all that went out. */
  lemma EmptyIsAcknowledged(p: Page)
    requires NewestStored(p) && p.replay.Length() == 0
    ensures p.replay.acked >= p.replay.pushed
  {
  }

  lemma AcknowledgeKept(p: Page, has: nat, lastSeq: nat)
    requires PageKept(p, has) && lastSeq <= has
    ensures var q := p.(replay := p.replay.Acknowledge(lastSeq));
            PageKept(q, has) && (NewestStored(p) ==> NewestStored(q))
    ensures p.replay.Acknowledge(lastSeq).pushed == p.replay.pushed
  {
    AcknowledgeTracks(p.replay, p.issued[..p.replay.pushed], lastSeq);
    if NewestStored(p) {
      NewestAcknowledged(p, has, lastSeq);
    }
  }

  lemma AgainIssued(missed: seq<Frame>, issued: seq<Frame>, from: nat, to: nat, pushed: nat)
    requires from <= to <= pushed <= |issued| && missed == issued[from..to]
    ensures AllIssued(Again(from, missed), issued, pushed) && NoneLost(Again(from, missed))
  {
    var q := Again(from, missed);
    forall i | 0 <= i < |q|
      ensures IsIssued(q[i], issued, pushed) && !q[i].Lost?
    {
      assert missed[i] == issued[from + i];
    }
  }

  lemma SliceOfPrefix(issued: seq<Frame>, pushed: nat, a: nat, b: nat)
    requires a <= b <= pushed <= |issued|
    ensures issued[..pushed][a..b] == issued[a..b]
  {
  }

  lemma MissedIs(r: Replay, issued: seq<Frame>, lastSeq: nat, throughSeq: Option<nat>)
    requires r.pushed <= |issued| && r.Tracks(issued[..r.pushed]) && r.GetAfter(lastSeq, throughSeq).Some?
    ensures var top := r.Top(throughSeq);
            r.GetAfter(lastSeq, throughSeq).value == if lastSeq <= top then issued[lastSeq..top] else []
  {
    GetAfterExact(r, issued[..r.pushed], lastSeq, throughSeq);
    if lastSeq <= r.Top(throughSeq) {
      SliceOfPrefix(issued, r.pushed, lastSeq, r.Top(throughSeq));
    }
  }

  /** The frames replayed are those issued after `lastSeq`, through `throughSeq` or all that went out. */
  lemma MissedIsIssued(p: Page, has: nat, lastSeq: nat, throughSeq: Option<nat>)
    requires PageKept(p, has) && lastSeq <= has
    requires p.replay.GetAfter(lastSeq, throughSeq).Some?
    ensures var missed := p.replay.GetAfter(lastSeq, throughSeq).value;
            && AllIssued(Again(lastSeq, missed), p.issued, p.replay.pushed) && NoneLost(Again(lastSeq, missed))
            && lastSeq + |missed| <= p.replay.pushed
            && (throughSeq.None? ==> lastSeq + |missed| == p.replay.pushed)
  {
    MissedIs(p.replay, p.issued, lastSeq, throughSeq);
    var missed, top := p.replay.GetAfter(lastSeq, throughSeq).value, p.replay.Top(throughSeq);
    if lastSeq <= top {
      AgainIssued(missed, p.issued, lastSeq, top, p.replay.pushed);
    }
  }

  lemma AppendIssued(a: seq<Up>, b: seq<Up>, issued: seq<Frame>, pushed: nat)
    requires AllIssued(a, issued, pushed) && AllIssued(b, issued, pushed)
    ensures AllIssued(a + b, issued, pushed)
  {
  }

  /** The replay behind what the wire carries leaves no gap, and then the wire carries all the server lacks. */
  lemma ReplayFlows(c: Channel, lastSeq: nat, missed: seq<Frame>)
    requires Kept(c) && !c.server.ended && lastSeq <= c.server.has
    requires lastSeq + |missed| <= c.page.replay.pushed
    requires lastSeq + |missed| == c.page.replay.pushed || Carrying(c.page.mode)
    ensures var c' := c.(up := c.up + Again(lastSeq, missed));
            && (c.server.phase != Refused ==> NoGap(c.server.has, Ahead(c'))) && Covers(c')
  {
    var h, again := c.server.has, Again(lastSeq, missed);
    var c' := c.(up := c.up + again);
    assert Ahead(c') == Ahead(c) + again;
    AppendIssued(c.server.held, c.up, c.page.issued, c.page.replay.pushed);
    ThroughBounds(h, Ahead(c), c.page.issued, c.page.replay.pushed);
    NoGapAppend(h, Ahead(c), again);
    ThroughAppend(h, Ahead(c), again);
    AgainReaches(Through(h, Ahead(c)), lastSeq, missed);
  }

  lemma LostFlows(c: Channel)
    requires Kept(c) && !c.server.ended
    ensures c.server.phase != Refused ==> NoGap(c.server.has, Ahead(c.(up := c.up + [Lost])))
  {
    assert Ahead(c.(up := c.up + [Lost])) == Ahead(c) + [Lost];
    NoGapAppend(c.server.has, Ahead(c), [Lost]);
    assert [Lost][1..] == [];
  }

  lemma ReplayToKept(c: Channel, lastSeq: nat, throughSeq: Option<nat>)
    requires Kept(c) && lastSeq <= c.server.has && (c.page.mode.Named? || c.page.mode.Awaited?)
    requires throughSeq.Some? ==> Carrying(c.page.mode)
    ensures Kept(ReplayTo(c, lastSeq, throughSeq))
  {
    var c' := ReplayTo(c, lastSeq, throughSeq);
    AcknowledgeKept(c.page, c.server.has, lastSeq);
    var p := c.page.(replay := c.page.replay.Acknowledge(lastSeq));
    var missed := p.replay.GetAfter(lastSeq, throughSeq);
    if missed.Some? {
      MissedIsIssued(p, c.server.has, lastSeq, throughSeq);
      AppendIssued(c.up, Again(lastSeq, missed.value), c.page.issued, c.page.replay.pushed);
      if !c.server.ended {
        ReplayFlows(c, lastSeq, missed.value);
      }
    } else if !c.server.ended {
      LostFlows(c);
    }
  }

  lemma TakeReconciledKept(c: Channel, lastSeq: Option<nat>)
    requires Kept(c) && c.page.session && (lastSeq.Some? ==> lastSeq.value <= c.server.has)
    ensures Kept(TakeReconciled(c, lastSeq))
  {
    if c.page.mode.Named? {
      var carriedFrom, answer := c.page.mode.carriedFrom, c.page.mode.answer;
      if lastSeq.Some? {
        ReplayToKept(c, lastSeq.value, BeforeCarried(carriedFrom));
      } else if answer.Some? && answer.value.Some? {
        ReplayToKept(c, answer.value.value, BeforeCarried(carriedFrom));
      } else {
        assert Ahead(TakeReconciled(c, lastSeq)) == Ahead(c);
      }
    }
  }

  lemma TakeAttachResultKept(c: Channel, lastSeq: Option<nat>)
    requires Kept(c) && (lastSeq.Some? ==> lastSeq.value <= c.server.has)
    ensures Kept(TakeAttachResult(c, lastSeq))
  {
    if c.page.mode.Awaited? && lastSeq.Some? {
      ReplayToKept(c, lastSeq.value, None);
    } else {
      assert Ahead(TakeAttachResult(c, lastSeq)) == Ahead(c);
    }
  }

  lemma TakeHasKept(c: Channel, through: nat)
    requires Kept(c) && through <= c.server.has
    ensures Kept(PageTake(c, Has(through)))
  {
    AcknowledgeKept(c.page, c.server.has, through);
    assert Ahead(PageTake(c, Has(through))) == Ahead(c);
  }

  lemma PageTakeKept(c: Channel, m: Down)
    requires Kept(c) && Answers([m], c.server.has)
    ensures Kept(PageTake(c, m))
  {
    assert [m][0] == m;
    match m {
      case Reconciled(lastSeq) =>
        var d := c.(page := c.page.(session := true));
        assert Ahead(d) == Ahead(c);
        TakeReconciledKept(d, lastSeq);
      case AttachResult(lastSeq) => TakeAttachResultKept(c, lastSeq);
      case Has(through) => TakeHasKept(c, through);
    }
  }

  lemma PageTakesKept(c: Channel)
    requires Kept(c) && CanStep(c, PageTakes)
    ensures Kept(Next(c, PageTakes))
  {
    var d := c.(down := c.down[1..]);
    assert Ahead(d) == Ahead(c) && c.down[0] == [c.down[0]][0];
    PageTakeKept(d, c.down[0]);
  }

  lemma PageTakesLateKept(c: Channel, i: nat)
    requires Kept(c) && CanStep(c, PageTakesLate(i))
    ensures Kept(Next(c, PageTakesLate(i)))
  {
    var d := c.(late := c.late[..i] + c.late[i + 1..]);
    assert Ahead(d) == Ahead(c) && c.late[i] == [c.late[i]][0];
    PageTakeKept(d, c.late[i]);
  }

  lemma PrefixIssued(q: seq<Up>, issued: seq<Frame>, pushed: nat, frame: Frame)
    requires AllIssued(q, issued, pushed)
    ensures AllIssued(q, issued + [frame], pushed)
  {
  }

  lemma IssueKept(c: Channel, frame: Frame)
    requires Kept(c) && CanStep(c, Send(frame))
    ensures Kept(Next(c, Send(frame)))
  {
    var c', pushed := Next(c, Send(frame)), c.page.replay.pushed;
    assert c'.page.issued[..pushed] == c.page.issued[..pushed];
    StepTracks(c.page.replay, c.page.issued[..pushed], Replays.Op.Issue);
    assert c.page.issued[..pushed] + [] == c.page.issued[..pushed];
    PrefixIssued(c.up, c.page.issued, pushed, frame);
    PrefixIssued(c.server.held, c.page.issued, pushed, frame);
    forall i | 0 <= i < |c.stale|
      ensures AllIssued(c.stale[i], c'.page.issued, pushed)
    {
      PrefixIssued(c.stale[i], c.page.issued, pushed, frame);
    }
    assert c'.page.issued[..c.server.has] == c.page.issued[..c.server.has];
    assert Ahead(c') == Ahead(c);
  }

  lemma MoreIssued(q: seq<Up>, issued: seq<Frame>, pushed: nat)
    requires AllIssued(q, issued, pushed) && pushed < |issued|
    ensures AllIssued(q, issued, pushed + 1)
  {
  }

  lemma FlushPage(p: Page, has: nat)
    requires PageKept(p, has) && p.replay.pushed < |p.issued|
    ensures var n := p.replay.pushed;
            var q := p.(replay := p.replay.Push(n + 1, p.issued[n]));
            PageKept(q, has) && (NewestStored(p) ==> NewestStored(q))
  {
    var n := p.replay.pushed;
    PushTracks(p.replay, p.issued[..n], p.issued[n]);
    assert p.issued[..n + 1] == p.issued[..n] + [p.issued[n]];
    PushKeeps(p.replay, p.issued[n]);
  }

  lemma FlushFlows(c: Channel)
    requires Kept(c) && CanStep(c, Flush) && !c.server.ended
    ensures Flows(Next(c, Flush))
  {
    var c', n := Next(c, Flush), c.page.replay.pushed;
    var out := [Data(n + 1, c.page.issued[n])];
    assert Ahead(c') == Ahead(c) + out && out[1..] == [];
    NoGapAppend(c.server.has, Ahead(c), out);
    ThroughAppend(c.server.has, Ahead(c), out);
  }

  lemma FlushKept(c: Channel)
    requires Kept(c) && CanStep(c, Flush)
    ensures Kept(Next(c, Flush))
  {
    var c', n := Next(c, Flush), c.page.replay.pushed;
    FlushPage(c.page, c.server.has);
    MoreIssued(c.up, c.page.issued, n);
    MoreIssued(c.server.held, c.page.issued, n);
    forall i | 0 <= i < |c.stale|
      ensures AllIssued(c.stale[i], c.page.issued, n + 1)
    {
      MoreIssued(c.stale[i], c.page.issued, n);
    }
    if !c.server.ended {
      FlushFlows(c);
    }
  }

  /** Where a RECONCILE carries frames, the server has all that went before them, or the wire to it does. */
  lemma NameFlows(c: Channel, carry: bool)
    requires Kept(c) && CanStep(c, SendReconcile(carry)) && !c.server.ended
    ensures Flows(Next(c, SendReconcile(carry)))
  {
    var c' := Next(c, SendReconcile(carry));
    var out := [Reconcile(!c.page.attachedOnce)];
    assert Ahead(c') == Ahead(c) + out && out[1..] == [];
    NoGapAppend(c.server.has, Ahead(c), out);
    ThroughAppend(c.server.has, Ahead(c), out);
    if Carrying(c'.page.mode) && !c.page.mode.Live? {
      assert Ahead(c) == [];
      if c.page.replay.pushed != 0 {
        EmptyIsAcknowledged(c.page);
      }
    }
  }

  lemma NameKept(c: Channel, carry: bool)
    requires Kept(c) && CanStep(c, SendReconcile(carry))
    ensures Kept(Next(c, SendReconcile(carry)))
  {
    if !c.server.ended {
      NameFlows(c, carry);
    }
  }

  lemma {:induction false} TakenLateAnswers(down: seq<Down>, has: nat)
    requires Answers(down, has)
    ensures Answers(TakenLate(down), has)
  {
    if down != [] {
      assert forall i | 0 <= i < |down[1..]| :: down[1..][i] == down[i + 1];
      assert down[0] == [down[0]][0];
      TakenLateAnswers(down[1..], has);
    }
  }

  lemma LeaveKept(c: Channel)
    requires Kept(c)
    ensures Kept(Leave(c))
  {
    var c' := Leave(c);
    TakenLateAnswers(c.down, c.server.has);
    AppendIssued(c.server.held, c.up, c.page.issued, c.page.replay.pushed);
    assert Ahead(c') == [];
    forall i | 0 <= i < |c'.stale|
      ensures AllIssued(c'.stale[i], c.page.issued, c.page.replay.pushed)
      ensures !c.server.ended ==> NoGap(c.server.has, c'.stale[i])
    {
      if i < |c.stale| {
        assert c'.stale[i] == c.stale[i];
      } else {
        assert c'.stale[i] == Ahead(c);
      }
    }
  }

  lemma SettingsKept(c: Channel, maxBytes: nat, binaryMaxBytes: nat)
    requires Kept(c)
    ensures Kept(Next(c, Settings(maxBytes, binaryMaxBytes)))
  {
    SetLimitsTracks(c.page.replay, c.page.issued[..c.page.replay.pushed], maxBytes, binaryMaxBytes);
    assert Ahead(Next(c, Settings(maxBytes, binaryMaxBytes))) == Ahead(c);
  }

  // ── Every run ──

  lemma StepKept(c: Channel, s: Step)
    requires Kept(c) && CanStep(c, s)
    ensures Kept(Next(c, s))
  {
    match s {
      case Send(frame) => IssueKept(c, frame);
      case Flush => FlushKept(c);
      case SendReconcile(carry) => NameKept(c, carry);
      case LoseWire => LeaveKept(c);
      case Settings(a, b) => SettingsKept(c, a, b);
      case PageTakes => PageTakesKept(c);
      case PageTakesLate(i) => PageTakesLateKept(c, i);
      case ServerTakes(finds) => ServerTakesKept(c, finds);
      case Settle => SettleKept(c);
      case StaleTakes(i) => StaleTakesKept(c, i);
      case StaleCloses(i) => StaleClosesKept(c, i);
      case _ => AnswerKept(c, s);
    }
  }

  predicate CanRun(c: Channel, steps: seq<Step>)
    decreases |steps|
  {
    steps == [] || (CanStep(c, steps[0]) && CanRun(Next(c, steps[0]), steps[1..]))
  }

  function Run(c: Channel, steps: seq<Step>): Channel
    requires CanRun(c, steps)
    decreases |steps|
  {
    if steps == [] then c else Run(Next(c, steps[0]), steps[1..])
  }

  lemma {:induction false} RunKept(c: Channel, steps: seq<Step>)
    requires Kept(c) && CanRun(c, steps)
    ensures Kept(Run(c, steps))
    decreases |steps|
  {
    if steps != [] {
      StepKept(c, steps[0]);
      RunKept(Next(c, steps[0]), steps[1..]);
    }
  }

  /** In every run, through any wires lost on the way, what the server acted on is exactly the first frames the page
      issued, in order, each once. */
  lemma AcceptedIsPrefix(steps: seq<Step>)
    requires CanRun(Start(), steps)
    ensures var c := Run(Start(), steps);
            c.server.has <= c.page.replay.pushed <= |c.page.issued| && c.server.accepted == c.page.issued[..c.server.has]
  {
    StartKept();
    RunKept(Start(), steps);
  }

  /** In every run, whenever the channel is live on a wire whose server has not refused it, no frame that went out is
      lost: once the wire delivered what it carries, the server accepted every one. */
  lemma LiveLosesNothing(steps: seq<Step>)
    requires CanRun(Start(), steps)
    requires var c := Run(Start(), steps); c.page.mode.Live? && c.server.phase != Refused
    ensures var c := Run(Start(), steps);
            && c.page.replay.pushed <= |c.page.issued|
            && AcceptAll(c.server, c.server.held + c.up).accepted == c.page.issued[..c.page.replay.pushed]
  {
    StartKept();
    RunKept(Start(), steps);
    DeliversAll(Run(Start(), steps));
  }

  lemma DeliversAll(c: Channel)
    requires Kept(c) && c.page.mode.Live? && c.server.phase != Refused
    ensures c.page.replay.pushed <= |c.page.issued|
    ensures AcceptAll(c.server, Ahead(c)).accepted == c.page.issued[..c.page.replay.pushed]
  {
    AppendIssued(c.server.held, c.up, c.page.issued, c.page.replay.pushed);
    AcceptAllKept(c, c.server, Ahead(c));
    assert NoneLost(Ahead(c));
  }

  /** A channel the server names at `lastSeq` ends as lost exactly where its replay can't give all it went on to send:
      a frame not acknowledged was evicted, or the page already knew the server had more than `lastSeq`. */
  lemma LostExactly(c: Channel, lastSeq: nat, throughSeq: Option<nat>)
    requires Kept(c) && lastSeq <= c.server.has
    ensures var r := c.page.replay.Acknowledge(lastSeq);
            var top := r.Top(throughSeq);
            ReplayTo(c, lastSeq, throughSeq).page.mode.Ended? <==>
            (lastSeq < r.acked && lastSeq < top) || exists s | r.acked < s <= top :: !r.Held(s)
  {
    var p := c.page.(replay := c.page.replay.Acknowledge(lastSeq));
    AcknowledgeKept(c.page, c.server.has, lastSeq);
    var r, sent := p.replay, p.issued[..p.replay.pushed];
    GetAfterExact(r, sent, lastSeq, throughSeq);
    forall s: nat | s <= r.acked
      ensures !r.Held(s)
    {
      AcknowledgedNotHeld(r, sent, s);
    }
    if lastSeq < r.acked && lastSeq < r.Top(throughSeq) {
      assert !r.Held(lastSeq + 1);
    }
  }

  lemma AcknowledgedNotHeld(r: Replay, sent: seq<Frame>, s: nat)
    requires r.Tracks(sent) && s <= r.acked
    ensures !r.Held(s)
  {
    assert r.QueueOf(Text, r.queues.Of(Text), sent) && r.QueueOf(Binary, r.queues.Of(Binary), sent);
    assert r.QueueOf(Closing, r.queues.Of(Closing), sent);
    assert forall i | 0 <= i < |r.queues.text| :: r.Stores(Text, r.queues.text[i], sent);
    assert forall i | 0 <= i < |r.queues.binary| :: r.Stores(Binary, r.queues.binary[i], sent);
    assert forall i | 0 <= i < |r.queues.closing| :: r.Stores(Closing, r.queues.closing[i], sent);
  }
}
