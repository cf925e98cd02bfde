/** What the server's answers and acknowledgements say in every run: which seqs their low bits and the frames' stand for,
    when a channel has all its frames delivered, and that only a frame dropped ends one, save for an answer overtaken. */
module ReattachAnswers {
  import opened Bytes
  import opened Header
  import opened Tags
  import opened Reattach
  import opened ReattachSafety

  /** The last seq an answer or an acknowledgement names. */
  function Value(m: Down): Option<nat> {
    match m
    case Reconciled(lastSeq) => lastSeq
    case AttachResult(lastSeq) => lastSeq
    case Has(through) => Some(through)
  }

  // ── Seqs by their low 32 bits ──

  /** The next frame of a wire, by its low bits, where the server expects the one after its last. */
  predicate Recovers(q: seq<Up>, has: nat) {
    q != [] && q[0].Data? ==>
      && q[0].seqNo <= has + 1
      && (SeqNear(q[0].seqNo % SEQ_SPAN, has + 1) == q[0].seqNo <==> has + 1 - q[0].seqNo < SEQ_SPAN / 2)
  }

  lemma NoGapRecovers(has: nat, q: seq<Up>)
    requires NoGap(has, q)
    ensures Recovers(q, has)
  {
    if q != [] && q[0].Data? {
      SeqNearRecovers(q[0].seqNo, has + 1);
    }
  }

  /** In every run the server recovers the next frame of any wire by its low 32 bits if and only if it is less than 2^31
      behind the one expected: it is never ahead of that. */
  lemma EveryFrameRecovers(steps: seq<Step>, i: nat)
    requires CanRun(Start(), steps) && !Run(Start(), steps).server.ended
    ensures var c := Run(Start(), steps);
            && (c.server.phase != Refused ==> Recovers(Ahead(c), c.server.has))
            && (i < |c.stale| ==> Recovers(c.stale[i], c.server.has))
  {
    StartKept();
    RunKept(Start(), steps);
    var c := Run(Start(), steps);
    if c.server.phase != Refused {
      NoGapRecovers(c.server.has, Ahead(c));
    }
    if i < |c.stale| {
      NoGapRecovers(c.server.has, c.stale[i]);
    }
  }

  lemma AnswerWithin(q: seq<Down>, has: nat, i: nat)
    requires Answers(q, has) && i < |q|
    ensures Value(q[i]).Some? ==> Value(q[i]).value <= has
  {
  }

  /** In every run the page recovers the seq an answer or an acknowledgement names by its low 32 bits if and only if fewer
      than 2^32 frames were issued since: it is never past the last issued. */
  lemma EveryAnswerRecovers(steps: seq<Step>, i: nat)
    requires CanRun(Start(), steps)
    requires var c := Run(Start(), steps); i < |c.down + c.late| && Value((c.down + c.late)[i]).Some?
    ensures var c := Run(Start(), steps);
            var v := Value((c.down + c.late)[i]).value;
            v <= |c.page.issued|
            && (SeqThrough(v % SEQ_SPAN, |c.page.issued|) == v <==> |c.page.issued| - v < SEQ_SPAN)
  {
    var v := AnswerOfRun(steps, i);
    SeqThroughRecovers(v, |Run(Start(), steps).page.issued|);
  }

  lemma AnswerOfRun(steps: seq<Step>, i: nat) returns (v: nat)
    requires CanRun(Start(), steps)
    requires var c := Run(Start(), steps); i < |c.down + c.late| && Value((c.down + c.late)[i]).Some?
    ensures var c := Run(Start(), steps);
            && v == Value((c.down + c.late)[i]).value && v <= c.server.has <= c.page.replay.pushed <= |c.page.issued|
            && c.server.accepted == c.page.issued[..c.server.has]
  {
    StartKept();
    RunKept(Start(), steps);
    var c := Run(Start(), steps);
    v := Value((c.down + c.late)[i]).value;
    if i < |c.down| {
      AnswerWithin(c.down, c.server.has, i);
    } else {
      AnswerWithin(c.late, c.server.has, i - |c.down|);
    }
  }

  // ── A channel closed ──

  /** In every run, once an answer or an acknowledgement names the last frame issued, as a closed channel's closing frame,
      the server accepted every frame: a record let go on that had all of its own delivered. */
  lemma DeliveredIsAccepted(steps: seq<Step>, i: nat)
    requires CanRun(Start(), steps)
    requires var c := Run(Start(), steps);
             && i < |c.down + c.late| && Value((c.down + c.late)[i]).Some?
             && Value((c.down + c.late)[i]).value >= |c.page.issued|
    ensures Run(Start(), steps).server.accepted == Run(Start(), steps).page.issued
  {
    var v := AnswerOfRun(steps, i);
  }

  // ── Answers in order ──

  /** An answer on its wire is at least what came before it there, and what the page took. */
  predicate Above(floor: nat, q: seq<Down>)
    decreases |q|
  {
    q == []
    || ((!q[0].Has? && Value(q[0]).Some? ==> Value(q[0]).value >= floor)
        && Above(if Value(q[0]).Some? then Max(floor, Value(q[0]).value) else floor, q[1..]))
  }

  /** What is acknowledged, and the seq of an ATTACH_RESULT kept for its RECONCILED. */
  function Floor(p: Page): nat {
    Max(p.replay.acked, if p.mode.Named? && p.mode.answer.Some? && p.mode.answer.value.Some?
                        then p.mode.answer.value.value else 0)
  }

  predicate Rises(c: Channel) {
    Above(Floor(c.page), c.down)
  }

  lemma {:induction false} AboveLower(floor: nat, lower: nat, q: seq<Down>)
    requires Above(floor, q) && lower <= floor
    ensures Above(lower, q)
    decreases |q|
  {
    if q != [] {
      AboveLower(if Value(q[0]).Some? then Max(floor, Value(q[0]).value) else floor,
                 if Value(q[0]).Some? then Max(lower, Value(q[0]).value) else lower, q[1..]);
    }
  }

  /** An answer of all the server has goes behind any. */
  lemma {:induction false} AboveAppend(floor: nat, q: seq<Down>, m: Down, has: nat)
    requires Above(floor, q) && floor <= has && Answers(q, has)
    requires m.Has? || (Value(m).Some? ==> Value(m).value >= has)
    ensures Above(floor, q + [m])
    decreases |q|
  {
    if q == [] {
      assert q + [m] == [m] && [m][1..] == [];
    } else {
      assert (q + [m])[1..] == q[1..] + [m];
      assert q[0] == [q[0]][0];
      AnswerWithin(q, has, 0);
      assert forall i | 0 <= i < |q[1..]| :: q[1..][i] == q[i + 1];
      AboveAppend(if Value(q[0]).Some? then Max(floor, Value(q[0]).value) else floor, q[1..], m, has);
    }
  }

  /** Once the page took the first answer. */
  lemma TakenRises(c: Channel)
    requires Rises(c) && c.down != []
    ensures Rises(Next(c, PageTakes))
  {
    var m, floor, to := c.down[0], Floor(c.page), Next(c, PageTakes);
    assert to.down == c.down[1..];
    AboveLower(if Value(m).Some? then Max(floor, Value(m).value) else floor, Floor(to.page), c.down[1..]);
  }

  lemma AnsweredRises(c: Channel, s: Step)
    requires Kept(c) && Rises(c) && CanStep(c, s) && (s.Reply? || s.Settle? || s.Expire? || s.Acknowledges?)
    ensures Rises(Next(c, s))
  {
    var to := Next(c, s);
    if |to.down| > |c.down| {
      SettleReaches(c, s);
      AboveAppend(Floor(c.page), c.down, to.down[|c.down|], c.server.has);
      assert to.down == c.down + [to.down[|c.down|]];
    }
  }

  lemma SettleReaches(c: Channel, s: Step)
    requires Kept(c) && CanStep(c, s)
    ensures Next(c, s).server.has >= c.server.has
  {
    if s.Settle? {
      AcceptAllGrows(c.server, c.server.held);
    }
  }

  lemma {:induction false} AcceptAllGrows(s: Server, q: seq<Up>)
    ensures AcceptAll(s, q).has >= s.has
    decreases |q|
  {
    if q != [] {
      AcceptAllGrows(Accept(s, q[0]), q[1..]);
    }
  }

  lemma StepRises(c: Channel, s: Step)
    requires Kept(c) && Rises(c) && CanStep(c, s) && !s.PageTakesLate?
    ensures Rises(Next(c, s))
  {
    match s {
      case PageTakes => TakenRises(c);
      case Reply => AnsweredRises(c, s);
      case Settle => AnsweredRises(c, s);
      case Expire => AnsweredRises(c, s);
      case Acknowledges(_, _) => AnsweredRises(c, s);
      case SendReconcile(carry) => AboveLower(Floor(c.page), Floor(Next(c, s).page), c.down);
      case _ =>
    }
  }

  lemma {:induction false} RunRises(c: Channel, steps: seq<Step>)
    requires Kept(c) && Rises(c) && CanRun(c, steps) && forall i | 0 <= i < |steps| :: !steps[i].PageTakesLate?
    ensures Rises(Run(c, steps))
    decreases |steps|
  {
    if steps != [] {
      StepKept(c, steps[0]);
      StepRises(c, steps[0]);
      assert forall i | 0 <= i < |steps[1..]| :: steps[1..][i] == steps[i + 1];
      RunRises(Next(c, steps[0]), steps[1..]);
    }
  }

  /** In every run that takes nothing from a wire left, a channel ends as lost, on an answer that names its seq, if and only
      if a frame past that was dropped. */
  lemma EndsForDroppedOnly(steps: seq<Step>)
    requires CanRun(Start(), steps) && forall i | 0 <= i < |steps| :: !steps[i].PageTakesLate?
    requires var c := Run(Start(), steps);
             && c.down != [] && Value(c.down[0]).Some?
             && ((c.down[0].Reconciled? && c.page.mode.Named?) || (c.down[0].AttachResult? && c.page.mode.Awaited?))
    ensures var c := Run(Start(), steps);
            var v := Value(c.down[0]).value;
            var r := c.page.replay.Acknowledge(v);
            var through := if c.page.mode.Named? then BeforeCarried(c.page.mode.carriedFrom) else None;
            Next(c, PageTakes).page.mode.Ended? <==> exists s | v < s <= r.Top(through) :: !r.Held(s)
  {
    StartKept();
    RunKept(Start(), steps);
    RunRises(Start(), steps);
    EndsForDropped(Run(Start(), steps));
  }

  lemma EndsForDropped(c: Channel)
    requires Kept(c) && Rises(c) && c.down != [] && Value(c.down[0]).Some?
    requires (c.down[0].Reconciled? && c.page.mode.Named?) || (c.down[0].AttachResult? && c.page.mode.Awaited?)
    ensures var v := Value(c.down[0]).value;
            var r := c.page.replay.Acknowledge(v);
            var through := if c.page.mode.Named? then BeforeCarried(c.page.mode.carriedFrom) else None;
            Next(c, PageTakes).page.mode.Ended? <==> exists s | v < s <= r.Top(through) :: !r.Held(s)
  {
    var v := Value(c.down[0]).value;
    assert v >= c.page.replay.acked;
    AnswerWithin(c.down, c.server.has, 0);
    var through := if c.page.mode.Named? then BeforeCarried(c.page.mode.carriedFrom) else None;
    LostExactly(c, v, through);
    SamePageReplays(c, v, through);
  }

  /** What is ended depends on the replay alone. */
  lemma SamePageReplays(c: Channel, lastSeq: nat, throughSeq: Option<nat>)
    requires c.down != [] && Value(c.down[0]) == Some(lastSeq)
    requires (c.down[0].Reconciled? && c.page.mode.Named? && throughSeq == BeforeCarried(c.page.mode.carriedFrom))
             || (c.down[0].AttachResult? && c.page.mode.Awaited? && throughSeq == None)
    ensures Next(c, PageTakes).page.mode.Ended? <==> ReplayTo(c, lastSeq, throughSeq).page.mode.Ended?
  {
  }

  // ── An answer overtaken ──

  lemma RunsCons(c: Channel, s: Step, rest: seq<Step>)
    requires CanStep(c, s) && CanRun(Next(c, s), rest)
    ensures CanRun(c, [s] + rest) && Run(c, [s] + rest) == Run(Next(c, s), rest)
  {
    assert ([s] + rest)[1..] == rest;
  }

  /** A frame goes out behind a RECONCILE on a wire that is lost, and another RECONCILE names the channel. */
  function Rewired(frame: Frame, rest: seq<Step>): seq<Step> {
    [Send(frame)] + ([SendReconcile(true)] + ([Flush] + ([LoseWire] + ([SendReconcile(false)] + rest))))
  }

  function Lagging(frame: Frame): Channel
    requires Sequenced(frame)
  {
    Channel(Page([frame], Start().page.replay.NextSeq().Push(1, frame), Named(true, None, None), false, false),
            Start().server, [Reconcile(true)], [], [[Reconcile(true), Data(1, frame)]], [])
  }

  /** The server attaches the channel before the frame comes on the wire lost, acknowledges that, and only then sends the
      RECONCILED, which leaves the channel out. */
  const OVERTAKES: seq<Step> :=
    [ServerTakes(NotYet)] + ([Register] + ([Settle] + ([StaleTakes(0)] + ([StaleTakes(0)] + OVERTAKEN))))

  const OVERTAKEN: seq<Step> := [Acknowledges(1, false)] + ([Reply] + THEN_TAKES)

  const THEN_TAKES: seq<Step> := [PageTakes] + ([PageTakes] + ([PageTakes] + []))

  /** The frame out on the first wire. */
  function FirstOut(frame: Frame): Channel
    requires Sequenced(frame) && |frame| <= MAX_FRAME
  {
    Next(Next(Next(Start(), Send(frame)), SendReconcile(true)), Flush)
  }

  lemma FirstIsOut(frame: Frame)
    requires Sequenced(frame) && |frame| <= MAX_FRAME
    ensures FirstOut(frame) == Channel(Page([frame], Start().page.replay.NextSeq().Push(1, frame),
                                            Named(true, Some(1), None), false, false),
                                       Start().server, [Reconcile(true), Data(1, frame)], [], [], [])
  {
  }

  lemma LostOnes(frame: Frame)
    requires Sequenced(frame) && |frame| <= MAX_FRAME
    ensures Next(Next(FirstOut(frame), LoseWire), SendReconcile(false)) == Lagging(frame)
  {
    FirstIsOut(frame);
    var c := FirstOut(frame);
    assert c.server.held + c.up == c.up;
    assert Next(c, LoseWire).stale == [c.up];
  }

  lemma RewiredRuns(frame: Frame, rest: seq<Step>)
    requires Sequenced(frame) && |frame| <= MAX_FRAME && CanRun(Lagging(frame), rest)
    ensures CanRun(Start(), Rewired(frame, rest)) && Run(Start(), Rewired(frame, rest)) == Run(Lagging(frame), rest)
  {
    LostOnes(frame);
    var c3 := FirstOut(frame);
    RunsCons(Next(c3, LoseWire), SendReconcile(false), rest);
    RunsCons(c3, LoseWire, [SendReconcile(false)] + rest);
    FirstRuns(frame, [LoseWire] + ([SendReconcile(false)] + rest));
  }

  lemma FirstRuns(frame: Frame, rest: seq<Step>)
    requires Sequenced(frame) && |frame| <= MAX_FRAME && CanRun(FirstOut(frame), rest)
    ensures var steps := [Send(frame)] + ([SendReconcile(true)] + ([Flush] + rest));
            CanRun(Start(), steps) && Run(Start(), steps) == Run(FirstOut(frame), rest)
  {
    var c1 := Next(Start(), Send(frame));
    RunsCons(Next(c1, SendReconcile(true)), Flush, rest);
    RunsCons(c1, SendReconcile(true), [Flush] + rest);
    RunsCons(Start(), Send(frame), [SendReconcile(true)] + ([Flush] + rest));
  }

  lemma LaggingKept(frame: Frame)
    requires Sequenced(frame) && |frame| <= MAX_FRAME
    ensures Kept(Lagging(frame))
  {
    StartKept();
    RewiredRuns(frame, []);
    RunKept(Start(), Rewired(frame, []));
  }

  /** What comes of a run: the channel ended as lost, the server with every frame. */
  predicate EndsWithAll(c: Channel, frame: Frame) {
    c.page.mode.Ended? && c.page.issued == [frame] && c.server.accepted == [frame]
  }

  lemma SavedEnds(c: Channel, frame: Frame)
    requires Kept(c) && c.page.mode == Named(true, None, Some(Some(0))) && c.down == [Reconciled(None)]
    requires c.page.replay.acked == 1 && c.page.replay.pushed == 1 && c.page.issued == c.server.accepted == [frame]
    ensures EndsWithAll(Next(c, PageTakes), frame)
  {
    LostExactly(c, 0, None);
  }

  lemma ThenEnds(c: Channel, frame: Frame)
    requires Kept(c) && c.page.mode == Named(true, None, None) && c.page.issued == c.server.accepted == [frame]
    requires c.page.replay.acked == 0 && c.page.replay.pushed == 1
    requires c.down == [AttachResult(Some(0)), Has(1), Reconciled(None)]
    ensures CanRun(c, THEN_TAKES) && EndsWithAll(Run(c, THEN_TAKES), frame)
  {
    var c1 := Next(c, PageTakes);
    assert c1.down == [Has(1), Reconciled(None)];
    var c2 := Next(c1, PageTakes);
    assert c2.down == [Reconciled(None)];
    StepKept(c, PageTakes);
    StepKept(c1, PageTakes);
    SavedEnds(c2, frame);
    RunsCons(c2, PageTakes, []);
    RunsCons(c1, PageTakes, [PageTakes] + []);
    RunsCons(c, PageTakes, [PageTakes] + ([PageTakes] + []));
  }

  lemma OvertakenEndsFrom(c: Channel, frame: Frame)
    requires Kept(c) && c.page.mode == Named(true, None, None) && c.page.issued == c.server.accepted == [frame]
    requires c.page.replay.acked == 0 && c.page.replay.pushed == 1
    requires c.server.has == 1 && c.server.replying == Some(false) && c.down == [AttachResult(Some(0))]
    ensures CanRun(c, OVERTAKEN) && EndsWithAll(Run(c, OVERTAKEN), frame)
  {
    var c1 := Next(c, Acknowledges(1, false));
    var c2 := Next(c1, Reply);
    assert c2.down == [AttachResult(Some(0)), Has(1), Reconciled(None)];
    StepKept(c, Acknowledges(1, false));
    StepKept(c1, Reply);
    ThenEnds(c2, frame);
    RunsCons(c1, Reply, THEN_TAKES);
    RunsCons(c, Acknowledges(1, false), [Reply] + THEN_TAKES);
  }

  /** The old wire's frame comes once the channel is attached. */
  lemma StaleArrives(c: Channel, frame: Frame)
    requires Kept(c) && c.page.mode == Named(true, None, None) && c.page.issued == [frame]
    requires c.page.replay.acked == 0 && c.page.replay.pushed == 1
    requires !c.server.ended && c.server.has == 0 && c.server.replying == Some(false) && c.down == [AttachResult(Some(0))]
    requires c.stale == [[Reconcile(true), Data(1, frame)]]
    ensures var steps := [StaleTakes(0)] + ([StaleTakes(0)] + OVERTAKEN);
            CanRun(c, steps) && EndsWithAll(Run(c, steps), frame)
  {
    var c1 := Next(c, StaleTakes(0));
    assert c1.stale == [[Data(1, frame)]];
    StepKept(c, StaleTakes(0));
    StepKept(c1, StaleTakes(0));
    OvertakenEndsFrom(Next(c1, StaleTakes(0)), frame);
    RunsCons(c1, StaleTakes(0), OVERTAKEN);
    RunsCons(c, StaleTakes(0), [StaleTakes(0)] + OVERTAKEN);
  }

  lemma OvertakesEnds(c: Channel, frame: Frame)
    requires Kept(c) && Sequenced(frame) && c == Lagging(frame)
    ensures CanRun(c, OVERTAKES) && EndsWithAll(Run(c, OVERTAKES), frame)
  {
    var c1 := Next(c, ServerTakes(NotYet));
    var c2 := Next(c1, Register);
    StepKept(c, ServerTakes(NotYet));
    StepKept(c1, Register);
    StepKept(c2, Settle);
    StaleArrives(Next(c2, Settle), frame);
    var stale := [StaleTakes(0)] + ([StaleTakes(0)] + OVERTAKEN);
    RunsCons(c2, Settle, stale);
    RunsCons(c1, Register, [Settle] + stale);
    RunsCons(c, ServerTakes(NotYet), [Register] + ([Settle] + stale));
  }

  /** Where the answer was kept till the RECONCILED came, an acknowledgement may overtake it: the channel ends as lost
      though the server has every frame, and nothing was taken from a wire left. */
  lemma OvertakenEnds(frame: Frame)
    requires Sequenced(frame) && |frame| <= MAX_FRAME
    ensures var steps := Rewired(frame, OVERTAKES);
            && CanRun(Start(), steps) && (forall i | 0 <= i < |steps| :: !steps[i].PageTakesLate?)
            && EndsWithAll(Run(Start(), steps), frame)
  {
    LaggingKept(frame);
    OvertakesEnds(Lagging(frame), frame);
    RewiredRuns(frame, OVERTAKES);
  }
}
