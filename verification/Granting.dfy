/** What a receiver grants, as values: limits that go out as it consumes, and windows that grow as rounds settle. */
module Grantings {
  import opened Bytes
  import opened Credits

  /** How soon a limit goes. */
  datatype Urgency = Acknowledgement | FlowControl | Urgent

  /** A limit sent, of which the wire carries the low 32 bits. */
  datatype Limit = ByteLimit(limit: nat, urgency: Urgency) | MessageLimit(limit: nat, urgency: Urgency)

  /** `advertised`: what had been consumed when each limit last went out, and `urgent`: when an urgent one did. `sent`:
      the limits sent so far. */
  datatype Granting = Granting(
    estimator: Estimator, fitted: bool, consumedBytes: nat, consumedMessages: nat,
    advertisedBytes: nat, advertisedMessages: nat, grantedBytes: nat, urgentBytes: nat, urgentMessages: nat,
    uncountedBytes: nat, arrived: bool, wired: bool, sent: seq<Limit>)
  {
    function AdvertiseMessages(urgency: Urgency): Granting {
      var urgent := urgency.FlowControl? && (consumedMessages - urgentMessages) * 2 > estimator.msgWindow;
      this.(advertisedMessages := consumedMessages, urgentMessages := if urgent then consumedMessages else urgentMessages,
            sent := sent + [MessageLimit(consumedMessages + estimator.msgWindow, if urgent then Urgent else urgency)])
    }

    /** A message limit behind rides with a byte limit that doesn't ride itself. */
    function AdvertiseBytes(urgency: Urgency): Granting {
      if !fitted then this
      else
        var limit := consumedBytes + estimator.window;
        var urgent := (consumedBytes - urgentBytes) * 2 > estimator.window;
        var g := this.(advertisedBytes := consumedBytes, grantedBytes := Max(grantedBytes, limit),
                       uncountedBytes := 0, arrived := false,
                       urgentBytes := if urgent then consumedBytes else urgentBytes);
        var m := if (urgent || !urgency.Acknowledgement?) && consumedMessages > advertisedMessages
                 then g.AdvertiseMessages(Acknowledgement) else g;
        m.(sent := m.sent + [ByteLimit(limit, if urgent then Urgent else urgency)])
    }

    function Refresh(): Granting {
      var g := if consumedBytes - advertisedBytes >= estimator.window / 4 then AdvertiseBytes(FlowControl) else this;
      if g.consumedMessages - g.advertisedMessages >= g.estimator.msgWindow / 4 then g.AdvertiseMessages(FlowControl) else g
    }

    function Counting(bytes: nat): Granting {
      this.(consumedBytes := consumedBytes + bytes, consumedMessages := consumedMessages + 1)
    }

    function Consume(bytes: nat): Granting {
      Counting(bytes).Refresh()
    }

    function Receive(bytes: nat, now: real, wait: real): Granting {
      this.(arrived := true, estimator := estimator.OnReceive(bytes, now, wait))
    }

    function CountingUncounted(bytes: nat): Granting {
      this.(arrived := true, uncountedBytes := uncountedBytes + bytes)
    }

    function ReceiveUncounted(bytes: nat): Granting {
      var g := CountingUncounted(bytes);
      if g.uncountedBytes >= estimator.window / 4 then g.AdvertiseBytes(Acknowledgement) else g
    }

    function Acknowledge(): Granting {
      if arrived then AdvertiseBytes(Acknowledgement) else this
    }

    function Answered(): Granting {
      this.(uncountedBytes := 0, arrived := false)
    }

    /** `busy`: this side's handlers take too long to grow. */
    function TakePingAck(ack: PingAck, round: Round, busy: bool): Granting {
      var (e, verdict) := estimator.OnPingAck(ack, round);
      var g := this.(estimator := e);
      if busy then g
      else
        var b := if verdict.bytes.Grow? then g.(estimator := e.GrowBytes()).AdvertiseBytes(FlowControl) else g;
        if verdict.msgs.Grow? then b.(estimator := b.estimator.GrowMsgs()).AdvertiseMessages(FlowControl) else b
    }

    /** Attach on another wire than the last: the limits go out again. */
    function AttachOnNewWire(): Granting {
      var g := this.(estimator := estimator.Reset(), wired := true);
      if wired then g.AdvertiseMessages(FlowControl).AdvertiseBytes(FlowControl)
      else if arrived || consumedBytes + estimator.window > grantedBytes then g.AdvertiseBytes(FlowControl)
      else g
    }

    function RestartRound(): Granting {
      this.(estimator := estimator.Reset())
    }

    function FitReplay(window: nat): Granting {
      this.(fitted := true, estimator := estimator.CapWindow(window))
    }

    function UseBatchInitial(): Granting {
      var e := estimator.RaiseWindow(WINDOW_INITIAL_BATCH);
      if e.window > estimator.window then this.(estimator := e).AdvertiseBytes(FlowControl) else this.(estimator := e)
    }

    function UndoBatchInitial(): Granting {
      this.(estimator := estimator.UndoRaise())
    }
  }

  const NEW_GRANTING := Granting(NEW_ESTIMATOR, false, 0, 0, 0, 0, WINDOW_INITIAL, 0, 0, 0, false, false, [])

  // ── The estimator's runs ──

  /** What changes an estimator as its receiver runs. */
  datatype Event =
    | Received(bytes: nat, now: real, wait: real)
    | AttachProbed(stale: set<nat>)
    | PingAcked(ack: PingAck, round: Round, busy: bool)
    | Capped(bytes: nat)
    | BatchUsed
    | BatchUndone
    | Restarted

  function After(g: Granting, event: Event): Granting {
    match event
    case Received(bytes, now, wait) => g.Receive(bytes, now, wait)
    case AttachProbed(stale) => g.(estimator := g.estimator.ProbeAttach(stale))
    case PingAcked(ack, round, busy) => g.TakePingAck(ack, round, busy)
    case Capped(bytes) => g.FitReplay(bytes)
    case BatchUsed => g.UseBatchInitial()
    case BatchUndone => g.UndoBatchInitial()
    case Restarted => g.RestartRound()
  }

  function AfterAll(g: Granting, events: seq<Event>): Granting
    decreases |events|
  {
    if events == [] then g else AfterAll(After(g, events[0]), events[1..])
  }

  /** The caps are replay windows, which are never 0. */
  predicate Capable(events: seq<Event>) {
    forall i | 0 <= i < |events| :: events[i].Capped? ==> events[i].bytes >= 1
  }

  lemma GrownIsBounded(e: Estimator, ack: PingAck, round: Round)
    requires e.Sound() && e.GrownWindow(ack, round) != 0
    ensures e.window <= e.GrownWindow(ack, round) <= 2 * e.window
  {
  }

  lemma AdvertiseKeeps(g: Granting, urgency: Urgency)
    ensures g.AdvertiseBytes(urgency).estimator == g.estimator && g.AdvertiseMessages(urgency).estimator == g.estimator
  {
  }

  /** What an answer makes of the estimator, its growths taken unless this side is busy. */
  function Taken(e: Estimator, ack: PingAck, round: Round, busy: bool): Estimator {
    var (t, verdict) := e.OnPingAck(ack, round);
    if busy then t
    else
      var b := if verdict.bytes.Grow? then t.GrowBytes() else t;
      if verdict.msgs.Grow? then b.GrowMsgs() else b
  }

  lemma TakesEstimator(g: Granting, ack: PingAck, round: Round, busy: bool)
    ensures g.TakePingAck(ack, round, busy).estimator == Taken(g.estimator, ack, round, busy)
  {
    var (e, verdict) := g.estimator.OnPingAck(ack, round);
    AdvertiseKeeps(g.(estimator := e.GrowBytes()), FlowControl);
  }

  lemma SettleSound(e: Estimator, ack: PingAck, round: Round)
    requires e.Sound()
    ensures e.Settle(ack, round).Sound()
  {
  }

  lemma TakenSound(e: Estimator, ack: PingAck, round: Round, busy: bool)
    requires e.Sound()
    ensures Taken(e, ack, round, busy).Sound()
  {
    SettleSound(e, ack, round);
    var (t, verdict) := e.OnPingAck(ack, round);
    assert t.Sound();
    if verdict.bytes.Grow? {
      assert t.GrowBytes().Sound();
    }
  }

  lemma StepSound(g: Granting, event: Event)
    requires g.estimator.Sound() && (event.Capped? ==> event.bytes >= 1)
    ensures After(g, event).estimator.Sound()
  {
    if event.PingAcked? {
      TakesEstimator(g, event.ack, event.round, event.busy);
      TakenSound(g.estimator, event.ack, event.round, event.busy);
    }
  }

  /** Over any run the byte window stays positive and within its cap, the message window and the probe interval within
      their bounds. */
  lemma {:induction false} RunSound(g: Granting, events: seq<Event>)
    requires g.estimator.Sound() && Capable(events)
    ensures AfterAll(g, events).estimator.Sound()
    decreases |events|
  {
    if events != [] {
      StepSound(g, events[0]);
      assert forall i | 0 <= i < |events[1..]| :: events[1..][i] == events[i + 1];
      RunSound(After(g, events[0]), events[1..]);
    }
  }

  lemma PositiveTimes(x: real, y: real)
    requires x > 0.0 && y > 0.0
    ensures x * y > 0.0
  {
  }

  lemma TimesSign(q: real, b: real)
    requires b > 0.0
    ensures q < 0.0 ==> q * b < 0.0
    ensures q > 1.0 ==> q * b > b
  {
    if q < 0.0 {
      PositiveTimes(-q, b);
      assert (-q) * b == -(q * b);
    } else if q > 1.0 {
      PositiveTimes(q - 1.0, b);
      assert (q - 1.0) * b == q * b - b;
    }
  }

  lemma RatioIsPart(a: real, b: real)
    requires 0.0 <= a < b
    ensures 0.0 <= a / b <= 1.0
  {
    assert (a / b) * b == a;
    TimesSign(a / b, b);
  }

  lemma ShareIsPart(e: Estimator, ack: PingAck, round: Round)
    ensures 0.0 <= e.Share(ack, round) <= 1.0
  {
    var path, rtt := e.PathRtt(ack, round), e.Rtt(round);
    if path.Some? && 0.0 <= path.value + round.roundWait + round.postWait < rtt {
      RatioIsPart(path.value + round.roundWait + round.postWait, rtt);
    }
  }

  lemma SampleIsPart(e: Estimator, ack: PingAck, round: Round)
    requires e.Sound()
    ensures 0.0 <= e.ByteSample(ack, round) <= (e.bytesReceived - e.bytesAtPing) as real
  {
    var received, share := (e.bytesReceived - e.bytesAtPing) as real, e.Share(ack, round);
    ShareIsPart(e, ack, round);
    PartOf(received, share);
    SampleIsShare(e, ack, round);
    assert 0.0 <= Part(received, share) <= received;
  }

  function Part(x: real, share: real): real {
    x * share
  }

  lemma SampleIsShare(e: Estimator, ack: PingAck, round: Round)
    ensures e.ByteSample(ack, round) == Part((e.bytesReceived - e.bytesAtPing) as real, e.Share(ack, round))
  {
  }

  lemma PartOf(x: real, share: real)
    requires x >= 0.0 && 0.0 <= share <= 1.0
    ensures 0.0 <= Part(x, share) <= x
  {
    if x == 0.0 {
      assert x * share == 0.0;
    } else if share == 0.0 {
      assert x * share == 0.0;
    } else if share == 1.0 {
      assert x * share == x;
    } else {
      PositiveTimes(x, share);
      PositiveTimes(x, 1.0 - share);
      assert x * (1.0 - share) == x - x * share;
    }
  }

  /** An answer grows the byte window only if it is the ping in flight's and at least two thirds of the window arrived
      since that ping went; it never lowers the window, and at most doubles it. */
  lemma GrowsOnEvidence(g: Granting, ack: PingAck, round: Round, busy: bool)
    requires g.estimator.Sound()
    ensures var e, to := g.estimator, g.TakePingAck(ack, round, busy).estimator;
            && e.window <= to.window <= 2 * e.window
            && (to.window > e.window ==>
                  e.Settles(ack) && !busy && (e.bytesReceived - e.bytesAtPing) * 3 >= e.window * 2)
  {
    var e := g.estimator;
    TakesEstimator(g, ack, round, busy);
    SampleIsPart(e, ack, round);
    if e.Settles(ack) && e.Decide(ack, round).bytes.Grow? && !busy && e.GrownWindow(ack, round) != 0 {
      GrownIsBounded(e, ack, round);
    }
  }

  /** As the message window does, by the messages that arrived; starved, against the window before its last growth. */
  lemma MessagesGrowOnEvidence(g: Granting, ack: PingAck, round: Round, busy: bool)
    requires g.estimator.Sound()
    ensures var e, to := g.estimator, g.TakePingAck(ack, round, busy).estimator;
            && e.msgWindow <= to.msgWindow <= 2 * e.msgWindow
            && (to.msgWindow > e.msgWindow ==>
                  && e.Settles(ack) && !busy
                  && (e.msgsReceived - e.msgsAtPing) * 3
                     >= 2 * (if e.Starved(ack) && e.msgBeforeGrowth != 0 then e.msgBeforeGrowth else e.msgWindow))
  {
    TakesEstimator(g, ack, round, busy);
  }

  // ── Just when a window grows ──

  /** The answer is the one to the ping in flight, and to no attach's probe. */
  predicate AnswersPing(e: Estimator, ack: PingAck) {
    e.inFlight && ack.probe == e.ping && ack.probe !in e.attachProbes
  }

  /** As its credit ran out, the sender's wire held less than an eighth of the window. */
  predicate SenderStarved(e: Estimator, ack: PingAck) {
    ack.backlog.Some? && 8.0 * ack.backlog.value < e.window as real
  }

  /** From the ping to its answer. */
  function RoundTook(e: Estimator, round: Round): (took: real)
    ensures took >= 0.0 && (e.lastPingAt.Some? && took > 0.0 ==> e.lastPingAt.value + took == round.now)
  {
    if e.lastPingAt.Some? && e.lastPingAt.value < round.now then round.now - e.lastPingAt.value else 0.0
  }

  /** Starved, two thirds of the window arrived, and the wire near idle before the answer: no queue held the round. */
  predicate HeldBack(e: Estimator, ack: PingAck, round: Round) {
    var received := e.bytesReceived - e.bytesAtPing;
    SenderStarved(e, ack) && received * 3 >= e.window * 2 && round.deliveredBefore * 16 < received
  }

  /** A round trip of the path is known, as soon as an end measured one or a round bounds it. */
  predicate Measured(e: Estimator, ack: PingAck, round: Round) {
    round.pathRtt.Some? || ack.pathRtt.Some? || e.boundRtt.Some? || HeldBack(e, ack, round)
  }

  /** A round bounds the path's round trip where it was held back, and where a shorter one follows: by its own, less its
      wait. */
  lemma BoundIs(e: Estimator, ack: PingAck, round: Round)
    ensures var bound, less := e.BoundBy(ack, round), MaxReal(1.0, RoundTook(e, round) - e.pingWait);
            && (bound.Some? <==> e.boundRtt.Some? || HeldBack(e, ack, round))
            && (HeldBack(e, ack, round) ==> bound.value == less)
            && (bound.Some? && !HeldBack(e, ack, round) ==>
                  && bound.value <= less && bound.value <= e.boundRtt.value
                  && (bound.value == less || bound == e.boundRtt))
  {
  }

  /** The path's is the shortest that an end measured, but no shorter than the bound. */
  lemma PathIs(e: Estimator, ack: PingAck, round: Round)
    ensures var path, bound := e.PathRtt(ack, round), e.BoundBy(ack, round);
            var own, other := round.pathRtt, ack.pathRtt;
            && (path.Some? <==> Measured(e, ack, round))
            && (bound.Some? ==> path.value >= bound.value)
            && (path.Some? && path != bound ==>
                  && (path == own || path == other)
                  && (own.Some? ==> path.value <= own.value) && (other.Some? ==> path.value <= other.value))
            && (path.Some? && path == bound ==>
                  (own.Some? ==> own.value <= path.value) || (other.Some? && other.value <= path.value))
  {
  }

  /** How long the path and the waits explain of a round. */
  function Explained(e: Estimator, ack: PingAck, round: Round): real
    requires e.PathRtt(ack, round).Some?
  {
    e.PathRtt(ack, round).value + round.roundWait + round.postWait
  }

  /** A round took longer than the path and the waits explain. */
  predicate TookLonger(e: Estimator, ack: PingAck, round: Round) {
    e.PathRtt(ack, round).Some? && 0.0 <= Explained(e, ack, round) < RoundTook(e, round)
  }

  /** Two thirds of the window arrived, in just the part of a longer round that the path and the waits explain. */
  predicate Fills(e: Estimator, ack: PingAck, round: Round) {
    var received := (e.bytesReceived - e.bytesAtPing) as real;
    if TookLonger(e, ack, round)
    then received * Explained(e, ack, round) * 3.0 >= e.window as real * 2.0 * RoundTook(e, round)
    else received * 3.0 >= e.window as real * 2.0
  }

  lemma SampleTimesRtt(received: real, part: real, rtt: real, window: real)
    requires 0.0 <= part < rtt
    ensures received * (part / rtt) * 3.0 < window * 2.0 <==> received * part * 3.0 < window * 2.0 * rtt
  {
    var x := received * (part / rtt);
    assert (part / rtt) * rtt == part;
    assert x * rtt == received * part by { TimesOver(received, part, rtt); }
    TimesKeepsOrder(x * 3.0, window * 2.0, rtt);
    assert x * 3.0 * rtt == received * part * 3.0;
  }

  lemma TimesOver(a: real, part: real, rtt: real)
    requires rtt > 0.0
    ensures a * (part / rtt) * rtt == a * part
  {
    var r := part / rtt;
    assert r * rtt == part;
    assert a * r * rtt == a * (r * rtt);
  }

  lemma TimesKeepsOrder(x: real, y: real, f: real)
    requires f > 0.0
    ensures x < y <==> x * f < y * f
  {
    if x < y {
      PositiveTimes(y - x, f);
      assert (y - x) * f == y * f - x * f;
    } else if x > y {
      PositiveTimes(x - y, f);
      assert (x - y) * f == x * f - y * f;
    }
  }

  lemma FillsIsSample(e: Estimator, ack: PingAck, round: Round)
    ensures Fills(e, ack, round) <==> e.ByteSample(ack, round) * 3.0 >= e.window as real * 2.0
  {
    var received := (e.bytesReceived - e.bytesAtPing) as real;
    if TookLonger(e, ack, round) {
      SampleTimesRtt(received, Explained(e, ack, round), RoundTook(e, round), e.window as real);
    }
  }

  /** The byte window may grow: below its cap, filled, and the path's round trip known, or else the sender starved by a
      window that did not just grow. */
  predicate MayGrowBytes(e: Estimator, ack: PingAck, round: Round) {
    && AnswersPing(e, ack) && e.window < e.cap && Fills(e, ack, round)
    && (Measured(e, ack, round) || (SenderStarved(e, ack) && !e.followsGrowth))
  }

  predicate MayGrowMessages(e: Estimator, ack: PingAck) {
    && AnswersPing(e, ack) && e.msgWindow < MSG_WINDOW_MAX
    && (e.msgsReceived - e.msgsAtPing) * 3
       >= 2 * if SenderStarved(e, ack) && e.msgBeforeGrowth != 0 then e.msgBeforeGrowth else e.msgWindow
  }

  lemma DecidesExactly(e: Estimator, ack: PingAck, round: Round)
    requires AnswersPing(e, ack)
    ensures e.Decide(ack, round).bytes.Grow? <==> MayGrowBytes(e, ack, round)
    ensures e.Decide(ack, round).msgs.Grow? <==> MayGrowMessages(e, ack)
    ensures e.Decide(ack, round).bytes.WindowGrew?
            <==> e.window < e.cap && Fills(e, ack, round) && !Measured(e, ack, round) && e.followsGrowth
  {
    FillsIsSample(e, ack, round);
    PathIs(e, ack, round);
  }

  /** An answer grows the byte window if and only if it may grow and this side is not busy: to twice its size, or, where
      the round waited, half as much again as what arrived, within its cap. */
  lemma GrowsExactly(g: Granting, ack: PingAck, round: Round, busy: bool)
    requires g.estimator.Sound()
    ensures var e, to := g.estimator, g.TakePingAck(ack, round, busy).estimator;
            to.window == if busy || !MayGrowBytes(e, ack, round) then e.window
                         else if round.roundWait > 0.0
                         then Min(e.cap, Min(2 * e.window, Max(e.window, Ceil(1.5 * e.ByteSample(ack, round)))))
                         else Min(e.cap, 2 * e.window)
  {
    var e := g.estimator;
    TakesEstimator(g, ack, round, busy);
    if AnswersPing(e, ack) {
      DecidesExactly(e, ack, round);
      if e.GrownWindow(ack, round) != 0 {
        GrownIsBounded(e, ack, round);
      }
    }
  }

  /** So it does the message window, always doubled, within its bound. */
  lemma MessagesGrowExactly(g: Granting, ack: PingAck, round: Round, busy: bool)
    requires g.estimator.Sound()
    ensures var e, to := g.estimator, g.TakePingAck(ack, round, busy).estimator;
            to.msgWindow == if busy || !MayGrowMessages(e, ack) then e.msgWindow else Min(MSG_WINDOW_MAX, 2 * e.msgWindow)
  {
    TakesEstimator(g, ack, round, busy);
    if AnswersPing(g.estimator, ack) {
      DecidesExactly(g.estimator, ack, round);
    }
  }

  /** The next ping comes soonest after a round that may grow a window, and ever later after others, but for one that only
      a window just grown filled. */
  lemma PacesExactly(g: Granting, ack: PingAck, round: Round, busy: bool)
    requires g.estimator.Sound()
    ensures var e, to := g.estimator, g.TakePingAck(ack, round, busy).estimator;
            to.interval == if !AnswersPing(e, ack) then e.interval
                           else if MayGrowBytes(e, ack, round) || MayGrowMessages(e, ack) then PING_MIN_MS
                           else if e.window < e.cap && Fills(e, ack, round) && !Measured(e, ack, round) && e.followsGrowth
                           then e.interval
                           else Min(PING_MAX_MS, e.interval * 2)
  {
    TakesEstimator(g, ack, round, busy);
    if AnswersPing(g.estimator, ack) {
      DecidesExactly(g.estimator, ack, round);
    }
  }

  // ── A window raised, and one that grew ──

  /** A raise taken back leaves the window as it was, and one a growth followed is kept. */
  lemma UndoRestores(e: Estimator, bytes: nat)
    requires e.Sound() && e.beforeRaise == 0
    ensures e.RaiseWindow(bytes).UndoRaise().window == e.window && e.RaiseWindow(bytes).UndoRaise().beforeRaise == 0
    ensures var grown := e.RaiseWindow(bytes).GrowBytes(); grown.UndoRaise() == grown
    ensures var more: Estimator := e.RaiseWindow(bytes).RaiseWindow(2 * bytes); more.UndoRaise().window == e.window
  {
  }

  /** The first ping after a growth or a raise follows it, and the next one does not, if the window did not grow again. */
  lemma PingFollowsGrowth(e: Estimator, bytes: nat, now: real, wait: real, later: real)
    requires e.PingDue(now)
    ensures var p := e.(grewSincePing := true).OnReceive(bytes, now, wait);
            p.followsGrowth && !p.(inFlight := false).SendPing(later, wait).followsGrowth
    ensures e.GrowBytes().grewSincePing && (e.RaiseWindow(bytes).window > e.window ==> e.RaiseWindow(bytes).grewSincePing)
    ensures !e.PingDue(later) ==> e.OnReceive(bytes, later, wait).grewSincePing == e.grewSincePing
  {
  }
}
