/** Both ends of a channel's credit: the sender never takes more than was granted, and once all it sent is consumed it
    may send again. */
module CreditRuns {
  import opened Bytes
  import opened Credits
  import opened Grantings
  import opened Urgencies

  /** `sizes`: the frames sent, of which the first `arrived` came and the first `consumed` were taken. `delivered`: the
      limits sent that came to the sender. */
  datatype Flow = Flow(sender: Spending, receiver: Granting, sizes: seq<nat>, arrived: nat, consumed: nat,
                       delivered: set<nat>)

  /** Both ends fitted to one replay window. */
  function Start(cap: nat): Flow {
    Flow(NEW_SPENDING.FitReplay(cap), NEW_GRANTING.FitReplay(cap), [], 0, 0, {})
  }

  datatype Step =
    | Send(bytes: nat)
    | Arrive(now: real, wait: real)
    | Consume
    | TakeLimit(i: nat)
    | ReceiveUncounted(bytes: nat)
    | Heartbeat
    | Answer
    | AnswerPing(ack: PingAck, round: Round, busy: bool)
    | ProbeAttach(stale: set<nat>)
    | Attach
    | Restart
    | UseBatch
    | UndoBatch

  /** Frames come and are consumed in order. Of the limits sent, any may be lost, and one may come out of order or again
      as long as it is not too late. */
  predicate CanStep(c: Flow, s: Step) {
    match s
    case Arrive(_, _) => c.arrived < |c.sizes|
    case Consume => c.consumed < c.arrived <= |c.sizes|
    case TakeLimit(i) =>
      i < |c.receiver.sent| && ((forall j <- c.delivered :: j < i) || Timely(c.sender, c.receiver.sent[i]))
    case _ => true
  }

  /** A late limit is behind all sent by less than 2^31 and the largest window. */
  predicate Timely(s: Spending, l: Limit) {
    match l
    case ByteLimit(limit, _) => s.sentBytes + WINDOW_MAX <= limit + SEQ_SPAN / 2
    case MessageLimit(limit, _) => s.sentMessages + MSG_WINDOW_MAX <= limit + SEQ_SPAN / 2
  }

  /** What was sent past the limits, with a window, is less than 2^31. */
  predicate InReach(s: Spending) {
    && s.sentBytes + WINDOW_MAX < s.limitBytes + SEQ_SPAN / 2
    && s.sentMessages + MSG_WINDOW_MAX < s.limitMessages + SEQ_SPAN / 2
  }

  function Take(s: Spending, l: Limit): Spending {
    match l
    case ByteLimit(limit, _) => s.TakeByteLimit(limit % SEQ_SPAN)
    case MessageLimit(limit, _) => s.TakeMessageLimit(limit % SEQ_SPAN)
  }

  function Next(c: Flow, s: Step): Flow
    requires CanStep(c, s)
  {
    match s
    case Send(bytes) => c.(sender := c.sender.Send(bytes), sizes := c.sizes + [bytes])
    case Arrive(now, wait) => c.(receiver := c.receiver.Receive(c.sizes[c.arrived], now, wait), arrived := c.arrived + 1)
    case Consume => c.(receiver := c.receiver.Consume(c.sizes[c.consumed]), consumed := c.consumed + 1)
    case TakeLimit(i) => c.(sender := Take(c.sender, c.receiver.sent[i]), delivered := c.delivered + {i})
    case ReceiveUncounted(bytes) => c.(receiver := c.receiver.ReceiveUncounted(bytes))
    case Heartbeat => c.(receiver := c.receiver.Acknowledge())
    case Answer => c.(receiver := c.receiver.Answered())
    case AnswerPing(ack, round, busy) => c.(receiver := c.receiver.TakePingAck(ack, round, busy))
    case ProbeAttach(stale) => c.(receiver := c.receiver.(estimator := c.receiver.estimator.ProbeAttach(stale)))
    case Attach => c.(receiver := c.receiver.AttachOnNewWire())
    case Restart => c.(receiver := c.receiver.RestartRound())
    case UseBatch => c.(receiver := c.receiver.UseBatchInitial())
    case UndoBatch => c.(receiver := c.receiver.UndoBatchInitial())
  }

  // ── The receiver's invariant ──

  /** The newest byte limit sent, `first` before any. */
  function LastBytes(sent: seq<Limit>, first: nat): nat {
    if sent == [] then first
    else if sent[|sent| - 1].ByteLimit? then sent[|sent| - 1].limit
    else LastBytes(sent[..|sent| - 1], first)
  }

  function LastMessages(sent: seq<Limit>): nat {
    if sent == [] then MSG_WINDOW_INITIAL
    else if sent[|sent| - 1].MessageLimit? then sent[|sent| - 1].limit
    else LastMessages(sent[..|sent| - 1])
  }

  /** No limit sent was past what this says it granted, nor the granted bytes more than a window past those consumed. */
  predicate Granted(g: Granting) {
    && g.grantedBytes <= g.consumedBytes + WINDOW_MAX
    && forall i | 0 <= i < |g.sent| ::
         if g.sent[i].ByteLimit? then g.sent[i].limit <= g.grantedBytes
         else g.sent[i].limit <= g.consumedMessages + g.estimator.msgWindow
  }

  /** How far past a later limit of its kind an earlier one may be. */
  function Slack(l: Limit): nat {
    if l.ByteLimit? then WINDOW_MAX else MSG_WINDOW_MAX
  }

  /** A limit may be lower than an earlier one, as a window shrank, but by no more than the largest window. */
  predicate Level(sent: seq<Limit>) {
    forall i, j | 0 <= i < j < |sent| && sent[i].ByteLimit? == sent[j].ByteLimit? ::
      sent[i].limit <= sent[j].limit + Slack(sent[j])
  }

  /** Undoing a raise lowers the window, as it does while the cap stays. */
  predicate Undoable(e: Estimator) {
    e.beforeRaise != 0 ==> e.beforeRaise <= e.window
  }

  predicate Base(g: Granting, first: nat) {
    && Granted(g) && Level(g.sent) && g.grantedBytes >= first && g.fitted && g.estimator.Sound() && Undoable(g.estimator)
    && g.advertisedBytes <= g.consumedBytes && g.advertisedMessages <= g.consumedMessages
  }

  /** The newest byte limit leaves room past all consumed, and a window past what was consumed as it went. */
  predicate BytesAhead(g: Granting, first: nat) {
    && LastBytes(g.sent, first) > g.consumedBytes
    && LastBytes(g.sent, first) >= g.advertisedBytes + g.estimator.window
  }

  predicate MessageRoom(g: Granting) {
    LastMessages(g.sent) > g.consumedMessages
  }

  predicate MessageWindowAhead(g: Granting) {
    LastMessages(g.sent) >= g.advertisedMessages + g.estimator.msgWindow
  }

  predicate MessagesAhead(g: Granting) {
    MessageRoom(g) && MessageWindowAhead(g)
  }

  predicate Grants(g: Granting, first: nat) {
    Base(g, first) && BytesAhead(g, first) && MessagesAhead(g)
  }

  lemma LastAppend(sent: seq<Limit>, l: Limit, first: nat)
    ensures LastBytes(sent + [l], first) == if l.ByteLimit? then l.limit else LastBytes(sent, first)
    ensures LastMessages(sent + [l]) == if l.MessageLimit? then l.limit else LastMessages(sent)
  {
    assert (sent + [l])[..|sent|] == sent;
  }

  /** A limit at least what is consumed keeps the others level with it. */
  lemma LevelAppend(g: Granting, l: Limit)
    requires Granted(g) && Level(g.sent) && g.estimator.msgWindow <= MSG_WINDOW_MAX
    requires l.limit >= if l.ByteLimit? then g.consumedBytes else g.consumedMessages
    ensures Level(g.sent + [l])
  {
    var to := g.sent + [l];
    forall i, j | 0 <= i < j < |to| && to[i].ByteLimit? == to[j].ByteLimit?
      ensures to[i].limit <= to[j].limit + Slack(to[j])
    {
      assert to[i] == g.sent[i];
      if j < |g.sent| {
        assert to[j] == g.sent[j];
      }
    }
  }

  lemma AdvertiseMessagesGrants(g: Granting, urgency: Urgency, first: nat)
    requires Base(g, first)
    ensures var to := g.AdvertiseMessages(urgency);
            && Base(to, first) && MessagesAhead(to) && LastBytes(to.sent, first) == LastBytes(g.sent, first)
            && to.advertisedBytes == g.advertisedBytes && to.consumedBytes == g.consumedBytes
            && to.consumedMessages == g.consumedMessages && to.grantedBytes == g.grantedBytes && g.sent <= to.sent
  {
    LastAppend(g.sent, g.AdvertiseMessages(urgency).sent[|g.sent|], first);
    LevelAppend(g, g.AdvertiseMessages(urgency).sent[|g.sent|]);
  }

  /** A byte limit of a window past what is consumed about to go. */
  function Noted(g: Granting): Granting {
    var urgent := (g.consumedBytes - g.urgentBytes) * 2 > g.estimator.window;
    g.(advertisedBytes := g.consumedBytes, grantedBytes := Max(g.grantedBytes, g.consumedBytes + g.estimator.window),
       uncountedBytes := 0, arrived := false, urgentBytes := if urgent then g.consumedBytes else g.urgentBytes)
  }

  lemma NotedGrants(g: Granting, first: nat)
    requires Base(g, first)
    ensures Base(Noted(g), first)
  {
  }

  /** A byte limit a window past what is consumed, already noted as granted. */
  lemma ByteLimitGrants(m: Granting, l: Limit, first: nat)
    requires Base(m, first) && l.ByteLimit? && l.limit == m.consumedBytes + m.estimator.window <= m.grantedBytes
    ensures var to := m.(sent := m.sent + [l]); Base(to, first) && LastMessages(to.sent) == LastMessages(m.sent)
    ensures BytesAhead(m.(sent := m.sent + [l]), first)
  {
    LastAppend(m.sent, l, first);
    LevelAppend(m, l);
  }

  /** The message limit that rides along, if one is due. */
  function Riding(g: Granting, urgency: Urgency): Granting {
    var urgent := (g.consumedBytes - g.urgentBytes) * 2 > g.estimator.window;
    if (urgent || !urgency.Acknowledgement?) && g.consumedMessages > g.advertisedMessages
    then Noted(g).AdvertiseMessages(Acknowledgement) else Noted(g)
  }

  lemma RidingGrants(g: Granting, urgency: Urgency, first: nat)
    requires Base(g, first)
    ensures var m := Riding(g, urgency);
            && Base(m, first) && (MessageRoom(g) ==> MessageRoom(m)) && (MessageWindowAhead(g) ==> MessageWindowAhead(m))
            && m.grantedBytes == Noted(g).grantedBytes && g.sent <= m.sent
  {
    NotedGrants(g, first);
    AdvertiseMessagesGrants(Noted(g), Acknowledgement, first);
  }

  lemma AdvertisesBytes(g: Granting, urgency: Urgency, to: Granting) returns (l: Limit)
    requires g.fitted && to == g.AdvertiseBytes(urgency)
    ensures l.ByteLimit? && l.limit == g.consumedBytes + g.estimator.window
    ensures to == Riding(g, urgency).(sent := Riding(g, urgency).sent + [l])
  {
    var urgent := (g.consumedBytes - g.urgentBytes) * 2 > g.estimator.window;
    l := ByteLimit(g.consumedBytes + g.estimator.window, if urgent then Urgent else urgency);
  }

  /** What going out with a byte limit leaves: the message limits still ahead, or made so. */
  predicate BytesOut(g: Granting, to: Granting, first: nat) {
    && Base(to, first) && BytesAhead(to, first)
    && (MessageRoom(g) ==> MessageRoom(to)) && (MessageWindowAhead(g) ==> MessageWindowAhead(to))
    && to.consumedBytes == g.consumedBytes && to.consumedMessages == g.consumedMessages
    && to.grantedBytes >= g.grantedBytes && to.estimator == g.estimator && g.sent <= to.sent
  }

  lemma BytesOutGrants(g: Granting, urgency: Urgency, to: Granting, l: Limit, first: nat)
    requires Base(g, first) && l.ByteLimit? && l.limit == g.consumedBytes + g.estimator.window
    requires to == Riding(g, urgency).(sent := Riding(g, urgency).sent + [l])
    ensures BytesOut(g, to, first)
  {
    RidingGrants(g, urgency, first);
    ByteLimitGrants(Riding(g, urgency), l, first);
  }

  lemma AdvertiseBytesGrants(g: Granting, urgency: Urgency, first: nat)
    requires Base(g, first)
    ensures BytesOut(g, g.AdvertiseBytes(urgency), first)
  {
    var l := AdvertisesBytes(g, urgency, g.AdvertiseBytes(urgency));
    BytesOutGrants(g, urgency, g.AdvertiseBytes(urgency), l, first);
  }

  /** With less than a quarter of the window consumed since a limit went out, it leaves room. */
  lemma QuarterLeavesRoom(g: Granting)
    requires g.estimator.Sound() && MessageWindowAhead(g)
    requires g.consumedMessages - g.advertisedMessages < g.estimator.msgWindow / 4
    ensures MessageRoom(g)
  {
  }

  lemma RefreshBytesGrants(g: Granting, first: nat) returns (b: Granting)
    requires Base(g, first) && MessageWindowAhead(g)
    requires LastBytes(g.sent, first) >= g.advertisedBytes + g.estimator.window
    ensures b == if g.consumedBytes - g.advertisedBytes >= g.estimator.window / 4 then g.AdvertiseBytes(FlowControl) else g
    ensures Base(b, first) && BytesAhead(b, first) && MessageWindowAhead(b) && b.grantedBytes >= g.grantedBytes
    ensures b.consumedBytes == g.consumedBytes && b.consumedMessages == g.consumedMessages && b.estimator == g.estimator
    ensures g.sent <= b.sent
  {
    b := g;
    if g.consumedBytes - g.advertisedBytes >= g.estimator.window / 4 {
      AdvertiseBytesGrants(g, FlowControl, first);
      b := g.AdvertiseBytes(FlowControl);
    }
  }

  lemma RefreshGrants(g: Granting, first: nat)
    requires Base(g, first) && MessageWindowAhead(g)
    requires LastBytes(g.sent, first) >= g.advertisedBytes + g.estimator.window
    ensures var to := g.Refresh();
            && Grants(to, first) && to.grantedBytes >= g.grantedBytes && to.consumedBytes == g.consumedBytes
            && to.consumedMessages == g.consumedMessages && to.estimator == g.estimator && g.sent <= to.sent
  {
    var b := RefreshBytesGrants(g, first);
    var to := RefreshMessagesGrants(b, first);
  }

  lemma RefreshMessagesGrants(b: Granting, first: nat) returns (to: Granting)
    requires Base(b, first) && BytesAhead(b, first) && MessageWindowAhead(b)
    ensures to == if b.consumedMessages - b.advertisedMessages >= b.estimator.msgWindow / 4
                  then b.AdvertiseMessages(FlowControl) else b
    ensures Grants(to, first) && to.grantedBytes == b.grantedBytes && to.consumedBytes == b.consumedBytes
    ensures to.consumedMessages == b.consumedMessages && to.estimator == b.estimator && b.sent <= to.sent
  {
    to := b;
    if b.consumedMessages - b.advertisedMessages >= b.estimator.msgWindow / 4 {
      AdvertiseMessagesGrants(b, FlowControl, first);
      to := b.AdvertiseMessages(FlowControl);
    } else {
      QuarterLeavesRoom(b);
    }
  }

  /** Consuming a frame sends each limit whose window is a quarter used up. */
  lemma ConsumeGrants(g: Granting, bytes: nat, first: nat)
    requires Grants(g, first)
    ensures var to := g.Consume(bytes);
            && Grants(to, first) && to.grantedBytes >= g.grantedBytes && to.consumedBytes == g.consumedBytes + bytes
            && to.consumedMessages == g.consumedMessages + 1 && to.estimator == g.estimator && g.sent <= to.sent
  {
    RefreshGrants(g.Counting(bytes), first);
  }

  /** What only an advertisement changes. */
  predicate Advances(g: Granting, to: Granting) {
    && to.grantedBytes >= g.grantedBytes && to.consumedBytes == g.consumedBytes
    && to.consumedMessages == g.consumedMessages && to.estimator.msgWindow >= g.estimator.msgWindow
    && g.sent <= to.sent
  }

  /** A round settled: a window that grew goes out at once. */
  lemma AnswerGrants(g: Granting, ack: PingAck, round: Round, busy: bool, first: nat)
    requires Grants(g, first)
    ensures var to := g.TakePingAck(ack, round, busy); Grants(to, first) && Advances(g, to)
  {
    var (e, verdict) := g.estimator.OnPingAck(ack, round);
    SettleSound(g.estimator, ack, round);
    TakenSound(g.estimator, ack, round, false);
    var t := g.(estimator := e);
    assert e.Sound() && Grants(t, first);
    if !busy {
      var b := t;
      if verdict.bytes.Grow? {
        GrowBytesGrants(t, first);
        b := t.(estimator := e.GrowBytes()).AdvertiseBytes(FlowControl);
      }
      if verdict.msgs.Grow? {
        GrowMessagesGrants(b, first);
      }
    }
  }

  lemma GrowBytesGrants(g: Granting, first: nat)
    requires Grants(g, first)
    ensures var to := g.(estimator := g.estimator.GrowBytes()).AdvertiseBytes(FlowControl);
            Grants(to, first) && Advances(g, to)
  {
    assert g.estimator.GrowBytes().Sound();
    AdvertiseBytesGrants(g.(estimator := g.estimator.GrowBytes()), FlowControl, first);
  }

  lemma GrowMessagesGrants(g: Granting, first: nat)
    requires Grants(g, first)
    ensures var to := g.(estimator := g.estimator.GrowMsgs()).AdvertiseMessages(FlowControl);
            Grants(to, first) && Advances(g, to)
  {
    assert g.estimator.GrowMsgs().Sound();
    AdvertiseMessagesGrants(g.(estimator := g.estimator.GrowMsgs()), FlowControl, first);
  }

  lemma AttachGrants(g: Granting, first: nat)
    requires Grants(g, first)
    ensures var to := g.AttachOnNewWire(); Grants(to, first) && Advances(g, to)
  {
    var r := g.(estimator := g.estimator.Reset(), wired := true);
    assert Grants(r, first);
    if g.wired {
      AdvertiseMessagesGrants(r, FlowControl, first);
      AdvertiseBytesGrants(r.AdvertiseMessages(FlowControl), FlowControl, first);
    } else {
      AdvertiseBytesGrants(r, FlowControl, first);
    }
  }

  lemma BatchGrants(g: Granting, first: nat)
    requires Grants(g, first)
    ensures Grants(g.UseBatchInitial(), first) && Advances(g, g.UseBatchInitial())
  {
    var e := g.estimator.RaiseWindow(WINDOW_INITIAL_BATCH);
    assert e.Sound();
    AdvertiseBytesGrants(g.(estimator := e), FlowControl, first);
  }

  lemma UndoGrants(g: Granting, first: nat)
    requires Grants(g, first)
    ensures Grants(g.UndoBatchInitial(), first) && Advances(g, g.UndoBatchInitial())
  {
    assert g.estimator.UndoRaise().Sound();
  }

  lemma UncountedGrants(g: Granting, bytes: nat, first: nat)
    requires Grants(g, first)
    ensures Grants(g.ReceiveUncounted(bytes), first) && Advances(g, g.ReceiveUncounted(bytes))
  {
    var u := g.CountingUncounted(bytes);
    AdvertiseBytesGrants(u, Acknowledgement, first);
  }

  lemma HeartbeatGrants(g: Granting, first: nat)
    requires Grants(g, first)
    ensures Grants(g.Acknowledge(), first) && Advances(g, g.Acknowledge())
  {
    AdvertiseBytesGrants(g, Acknowledgement, first);
  }

  // ── Both ends ──

  predicate Counts(c: Flow) {
    && c.consumed <= c.arrived <= |c.sizes|
    && c.sender.sentBytes == Sum(c.sizes) && c.sender.sentMessages == |c.sizes|
    && c.receiver.consumedBytes == Sum(c.sizes[..c.consumed]) && c.receiver.consumedMessages == c.consumed
  }

  /** The sender takes no more than was granted, and never less than it started with. */
  predicate Spends(s: Spending, g: Granting, first: nat) {
    && first <= s.limitBytes <= g.grantedBytes
    && MSG_WINDOW_INITIAL <= s.limitMessages <= g.consumedMessages + g.estimator.msgWindow
  }

  /** Each limit of the sender's is the one it started with, or no more than one delivered. */
  ghost predicate Backed(s: Spending, sent: seq<Limit>, delivered: set<nat>, first: nat) {
    && (forall i <- delivered :: i < |sent|)
    && (s.limitBytes <= first
        || exists i :: i in delivered && sent[i].ByteLimit? && s.limitBytes <= sent[i].limit)
    && (s.limitMessages <= MSG_WINDOW_INITIAL
        || exists i :: i in delivered && sent[i].MessageLimit? && s.limitMessages <= sent[i].limit)
  }

  ghost predicate Kept(c: Flow, first: nat) {
    && Counts(c) && Spends(c.sender, c.receiver, first) && Grants(c.receiver, first)
    && Backed(c.sender, c.receiver.sent, c.delivered, first) && first <= WINDOW_MAX && Soon(c.receiver, first)
  }

  /** What was delivered stays, as more limits are sent. */
  lemma BackedStill(s: Spending, sent: seq<Limit>, to: seq<Limit>, delivered: set<nat>, first: nat)
    requires Backed(s, sent, delivered, first) && sent <= to
    ensures Backed(s, to, delivered, first)
  {
  }

  /** A limit that may be taken is at most 2^31 behind the sender's. */
  lemma NotFarBehind(c: Flow, i: nat, first: nat)
    requires Kept(c, first) && CanStep(c, TakeLimit(i))
    ensures c.receiver.sent[i].limit + SEQ_SPAN / 2
            >= if c.receiver.sent[i].ByteLimit? then c.sender.limitBytes else c.sender.limitMessages
  {
    var g, l := c.receiver, c.receiver.sent[i];
    if Timely(c.sender, l) {
      ConsumedWasSent(c);
    } else if l.ByteLimit? && c.sender.limitBytes > first {
      var j :| j in c.delivered && g.sent[j].ByteLimit? && c.sender.limitBytes <= g.sent[j].limit;
      assert g.sent[j].limit <= l.limit + Slack(l);
    } else if l.MessageLimit? && c.sender.limitMessages > MSG_WINDOW_INITIAL {
      var j :| j in c.delivered && g.sent[j].MessageLimit? && c.sender.limitMessages <= g.sent[j].limit;
      assert g.sent[j].limit <= l.limit + Slack(l);
    }
  }

  lemma ConsumedWasSent(c: Flow)
    requires Counts(c)
    ensures c.receiver.consumedBytes <= c.sender.sentBytes && c.receiver.consumedMessages <= c.sender.sentMessages
  {
    assert c.sizes == c.sizes[..c.consumed] + c.sizes[c.consumed..];
    SumAppend(c.sizes[..c.consumed], c.sizes[c.consumed..]);
  }

  lemma TakeKept(c: Flow, i: nat, first: nat)
    requires Kept(c, first) && CanStep(c, TakeLimit(i))
    ensures Kept(Next(c, TakeLimit(i)), first)
  {
    NotFarBehind(c, i, first);
    match c.receiver.sent[i] {
      case ByteLimit(limit, _) => RaiseIsWithin(limit, c.sender.limitBytes);
      case MessageLimit(limit, _) => RaiseIsWithin(limit, c.sender.limitMessages);
    }
    TakeBacked(c.sender, c.receiver.sent, c.delivered, i, first);
  }

  lemma TakeBacked(s: Spending, sent: seq<Limit>, delivered: set<nat>, i: nat, first: nat)
    requires Backed(s, sent, delivered, first) && i < |sent|
    requires sent[i].ByteLimit? ==> Take(s, sent[i]).limitBytes <= Max(s.limitBytes, sent[i].limit)
    requires sent[i].MessageLimit? ==> Take(s, sent[i]).limitMessages <= Max(s.limitMessages, sent[i].limit)
    ensures Backed(Take(s, sent[i]), sent, delivered + {i}, first)
  {
    var to, now := Take(s, sent[i]), delivered + {i};
    assert i in now;
    if s.limitBytes > first {
      var j :| j in delivered && sent[j].ByteLimit? && s.limitBytes <= sent[j].limit;
      assert j in now;
    }
    if s.limitMessages > MSG_WINDOW_INITIAL {
      var j :| j in delivered && sent[j].MessageLimit? && s.limitMessages <= sent[j].limit;
      assert j in now;
    }
  }

  lemma ConsumeKept(c: Flow, first: nat)
    requires Kept(c, first) && CanStep(c, Consume)
    ensures Kept(Next(c, Consume), first)
  {
    var n := c.consumed;
    ConsumeGrants(c.receiver, c.sizes[n], first);
    ConsumeSoon(c.receiver, c.sizes[n], first);
    assert c.sizes[..n + 1] == c.sizes[..n] + [c.sizes[n]];
    SumAppend(c.sizes[..n], [c.sizes[n]]);
    SumOne(c.sizes[n]);
    BackedStill(c.sender, c.receiver.sent, Next(c, Consume).receiver.sent, c.delivered, first);
  }

  lemma SumOne(n: nat)
    ensures Sum([n]) == n
  {
    assert [n][1..] == [] && Sum([]) == 0;
  }

  lemma SendKept(c: Flow, bytes: nat, first: nat)
    requires Kept(c, first)
    ensures Kept(Next(c, Send(bytes)), first)
  {
    SumAppend(c.sizes, [bytes]);
    SumOne(bytes);
    assert (c.sizes + [bytes])[..c.consumed] == c.sizes[..c.consumed];
  }

  /** What the receiver does by itself. */
  lemma ReceiverGrants(c: Flow, s: Step, first: nat)
    requires Grants(c.receiver, first) && CanStep(c, s) && !s.Consume?
    ensures Grants(Next(c, s).receiver, first) && Advances(c.receiver, Next(c, s).receiver)
  {
    match s {
      case ReceiveUncounted(bytes) => UncountedGrants(c.receiver, bytes, first);
      case Heartbeat => HeartbeatGrants(c.receiver, first);
      case AnswerPing(ack, round, busy) => AnswerGrants(c.receiver, ack, round, busy, first);
      case Attach => AttachGrants(c.receiver, first);
      case UseBatch => BatchGrants(c.receiver, first);
      case UndoBatch => UndoGrants(c.receiver, first);
      case _ => QuietGrants(c, s, first);
    }
  }

  /** What sends no limit. */
  lemma QuietGrants(c: Flow, s: Step, first: nat)
    requires Grants(c.receiver, first) && CanStep(c, s)
    requires s.Send? || s.Arrive? || s.TakeLimit? || s.Answer? || s.ProbeAttach? || s.Restart?
    ensures Grants(Next(c, s).receiver, first) && Advances(c.receiver, Next(c, s).receiver)
  {
  }

  lemma ReceiverSoon(c: Flow, s: Step, first: nat)
    requires Soon(c.receiver, first) && Undoable(c.receiver.estimator) && CanStep(c, s) && !s.Consume?
    ensures Soon(Next(c, s).receiver, first)
    ensures s.AnswerPing? || s.Attach? || s.UseBatch? ==> WentAtOnce(c.receiver, Next(c, s).receiver, first)
  {
    match s {
      case ReceiveUncounted(bytes) => UncountedSoon(c.receiver, bytes, first);
      case Heartbeat => AcknowledgementSoon(c.receiver, first);
      case AnswerPing(ack, round, busy) => AnswerSoon(c.receiver, ack, round, busy, first);
      case Attach => AttachSoon(c.receiver, first);
      case UseBatch => BatchSoon(c.receiver, first);
      case UndoBatch => UndoSoon(c.receiver, first);
      case _ =>
    }
  }

  lemma GrantKept(c: Flow, s: Step, first: nat)
    requires Kept(c, first) && CanStep(c, s) && !s.Send? && !s.Consume? && !s.TakeLimit?
    ensures Kept(Next(c, s), first)
  {
    ReceiverGrants(c, s, first);
    ReceiverSoon(c, s, first);
    BackedStill(c.sender, c.receiver.sent, Next(c, s).receiver.sent, c.delivered, first);
  }

  lemma StepKept(c: Flow, s: Step, first: nat)
    requires Kept(c, first) && CanStep(c, s)
    ensures Kept(Next(c, s), first)
  {
    match s {
      case Send(bytes) => SendKept(c, bytes, first);
      case Consume => ConsumeKept(c, first);
      case TakeLimit(i) => TakeKept(c, i, first);
      case _ => GrantKept(c, s, first);
    }
  }

  predicate CanRun(c: Flow, steps: seq<Step>)
    decreases |steps|
  {
    steps == [] || (CanStep(c, steps[0]) && CanRun(Next(c, steps[0]), steps[1..]))
  }

  function Run(c: Flow, steps: seq<Step>): Flow
    requires CanRun(c, steps)
    decreases |steps|
  {
    if steps == [] then c else Run(Next(c, steps[0]), steps[1..])
  }

  lemma {:induction false} RunKept(c: Flow, steps: seq<Step>, first: nat)
    requires Kept(c, first) && CanRun(c, steps)
    ensures Kept(Run(c, steps), first)
    decreases |steps|
  {
    if steps != [] {
      StepKept(c, steps[0], first);
      RunKept(Next(c, steps[0]), steps[1..], first);
    }
  }

  lemma StartKept(cap: nat)
    requires cap >= 1
    ensures Kept(Start(cap), Min(WINDOW_INITIAL, cap))
  {
  }

  /** In every run, whatever limits were lost, late or repeated, the sender's byte limit never passes what the receiver
      granted, nor its message limit the messages consumed and a window. */
  lemma NeverPastGranted(cap: nat, steps: seq<Step>)
    requires cap >= 1 && CanRun(Start(cap), steps)
    ensures var c := Run(Start(cap), steps);
            && c.sender.limitBytes <= c.receiver.grantedBytes
            && c.sender.limitMessages <= c.consumed + c.receiver.estimator.msgWindow
  {
    StartKept(cap);
    RunKept(Start(cap), steps, Min(WINDOW_INITIAL, cap));
  }

  // ── Exact despite 32 bits ──

  /** The sender's limit a limit is for. */
  function Own(s: Spending, l: Limit): nat {
    if l.ByteLimit? then s.limitBytes else s.limitMessages
  }

  lemma TakesExactly(c: Flow, i: nat, first: nat)
    requires Kept(c, first) && CanStep(c, TakeLimit(i))
    ensures var l := c.receiver.sent[i];
            && (TakenExactly(l.limit, Own(c.sender, l)) <==> l.limit < Own(c.sender, l) + SEQ_SPAN / 2)
            && (InReach(c.sender) ==> TakenExactly(l.limit, Own(c.sender, l)))
  {
    NotFarBehind(c, i, first);
    ConsumedWasSent(c);
  }

  /** In every run, a limit that comes has exactly its effect, though only its low 32 bits do, if and only if it is less
      than 2^31 ahead of the sender's; so it has while the sender stays in reach of its limits. */
  lemma LimitsAreExact(cap: nat, steps: seq<Step>, i: nat)
    requires cap >= 1 && CanRun(Start(cap), steps) && CanStep(Run(Start(cap), steps), TakeLimit(i))
    ensures var c := Run(Start(cap), steps);
            var l := c.receiver.sent[i];
            var to := Own(Next(c, TakeLimit(i)).sender, l);
            && (to == Max(Own(c.sender, l), l.limit) <==> l.limit < Own(c.sender, l) + SEQ_SPAN / 2)
            && (InReach(c.sender) ==> to == Max(Own(c.sender, l), l.limit))
  {
    StartKept(cap);
    var first := Min(WINDOW_INITIAL, cap);
    RunKept(Start(cap), steps, first);
    var c := Run(Start(cap), steps);
    TakesExactly(c, i, first);
    RaiseIsExact(c.receiver.sent[i].limit, Own(c.sender, c.receiver.sent[i]));
  }

  /** The sender is in reach of its limits all along. */
  predicate StaysInReach(c: Flow, steps: seq<Step>)
    requires CanRun(c, steps)
    decreases |steps|
  {
    InReach(c.sender) && (steps != [] ==> StaysInReach(Next(c, steps[0]), steps[1..]))
  }

  /** Each send waits for credit, and is of at most `most` bytes. */
  predicate Awaits(c: Flow, steps: seq<Step>, most: nat)
    requires CanRun(c, steps)
    decreases |steps|
  {
    steps != [] ==>
      && (steps[0].Send? ==> !c.sender.OutOfCredit() && steps[0].bytes <= most)
      && Awaits(Next(c, steps[0]), steps[1..], most)
  }

  /** A sender that awaits its sends stays in reach. */
  lemma {:induction false} AwaitedStaysInReach(c: Flow, steps: seq<Step>, most: nat)
    requires CanRun(c, steps) && Awaits(c, steps, most) && most + WINDOW_MAX < SEQ_SPAN / 2
    requires c.sender.sentBytes <= c.sender.limitBytes + most && c.sender.sentMessages <= c.sender.limitMessages
    ensures StaysInReach(c, steps)
    decreases |steps|
  {
    if steps != [] {
      AwaitedStaysInReach(Next(c, steps[0]), steps[1..], most);
    }
  }

  /** Every limit delivered was taken in full. */
  predicate InFull(s: Spending, sent: seq<Limit>, delivered: set<nat>) {
    forall i <- delivered :: i < |sent| ==> sent[i].limit <= Own(s, sent[i])
  }

  lemma StepInFull(c: Flow, s: Step, first: nat)
    requires Kept(c, first) && CanStep(c, s) && InReach(c.sender)
    requires InFull(c.sender, c.receiver.sent, c.delivered)
    ensures InFull(Next(c, s).sender, Next(c, s).receiver.sent, Next(c, s).delivered)
  {
    if s.TakeLimit? {
      TakesExactly(c, s.i, first);
      RaiseIsExact(c.receiver.sent[s.i].limit, Own(c.sender, c.receiver.sent[s.i]));
    } else {
      SentGrows(c, s, first);
    }
  }

  lemma SentGrows(c: Flow, s: Step, first: nat)
    requires Kept(c, first) && CanStep(c, s)
    ensures c.receiver.sent <= Next(c, s).receiver.sent
  {
    if s.Consume? {
      ConsumeGrants(c.receiver, c.sizes[c.consumed], first);
    } else {
      ReceiverGrants(c, s, first);
    }
  }

  lemma {:induction false} RunInFull(c: Flow, steps: seq<Step>, first: nat)
    requires Kept(c, first) && CanRun(c, steps) && StaysInReach(c, steps)
    requires InFull(c.sender, c.receiver.sent, c.delivered)
    ensures InFull(Run(c, steps).sender, Run(c, steps).receiver.sent, Run(c, steps).delivered)
    decreases |steps|
  {
    if steps != [] {
      StepInFull(c, steps[0], first);
      StepKept(c, steps[0], first);
      RunInFull(Next(c, steps[0]), steps[1..], first);
    }
  }

  /** No later limit is of its kind. */
  predicate Newest(sent: seq<Limit>, i: nat)
    requires i < |sent|
  {
    forall j | i < j < |sent| :: sent[j].ByteLimit? != sent[i].ByteLimit?
  }

  /** The newest byte limit and the newest message limit were delivered, if any was sent. */
  predicate NewestDelivered(sent: seq<Limit>, delivered: set<nat>) {
    forall i | 0 <= i < |sent| && Newest(sent, i) :: i in delivered
  }

  /** The newest byte limit of those that went at once, and the newest message limit, were delivered, if any was sent. */
  predicate AtOnceDelivered(sent: seq<Limit>, delivered: set<nat>) {
    && (forall i | 0 <= i < |sent| && sent[i].MessageLimit? && Newest(sent, i) :: i in delivered)
    && (forall i | 0 <= i < |sent| && NewestAtOnce(sent, i) :: i in delivered)
  }

  predicate NewestAtOnce(sent: seq<Limit>, i: nat)
    requires i < |sent|
  {
    sent[i].ByteLimit? && !Rides(sent[i]) && forall j | i < j < |sent| :: sent[j].ByteLimit? ==> Rides(sent[j])
  }

  lemma {:induction false} AtOnceIsLast(sent: seq<Limit>, first: nat) returns (b: int)
    ensures LastAtOnce(sent, first) == if 0 <= b < |sent| && NewestAtOnce(sent, b) then sent[b].limit else first
  {
    b := -1;
    if sent != [] {
      var n := |sent| - 1;
      if sent[n].ByteLimit? && !Rides(sent[n]) {
        b := n;
      } else {
        b := AtOnceIsLast(sent[..n], first);
        if 0 <= b < n {
          assert forall j | 0 <= j < n :: sent[..n][j] == sent[j];
          assert NewestAtOnce(sent[..n], b) <==> NewestAtOnce(sent, b);
        }
      }
    }
  }

  /** What is newest of all sent so far is what the receiver's invariant is about. */
  lemma {:induction false} NewestIsLast(sent: seq<Limit>, first: nat) returns (b: int, m: int)
    ensures LastBytes(sent, first)
            == if 0 <= b < |sent| && sent[b].ByteLimit? && Newest(sent, b) then sent[b].limit else first
    ensures LastMessages(sent)
            == if 0 <= m < |sent| && sent[m].MessageLimit? && Newest(sent, m) then sent[m].limit else MSG_WINDOW_INITIAL
  {
    b, m := -1, -1;
    if sent != [] {
      var n := |sent| - 1;
      b, m := NewestIsLast(sent[..n], first);
      if sent[n].ByteLimit? {
        b := n;
        if 0 <= m < n && sent[m].MessageLimit? {
          StillNewest(sent, m);
        }
      } else {
        m := n;
        if 0 <= b < n && sent[b].ByteLimit? {
          StillNewest(sent, b);
        }
      }
    }
  }

  lemma StillNewest(sent: seq<Limit>, i: nat)
    requires i < |sent| - 1 && sent[|sent| - 1].ByteLimit? != sent[i].ByteLimit?
    ensures Newest(sent, i) <==> Newest(sent[..|sent| - 1], i)
  {
    var front := sent[..|sent| - 1];
    assert forall j | 0 <= j < |front| :: front[j] == sent[j];
  }

  /** In every run, a limit sent as a quarter of a window is consumed, a window grows or a wire is new goes at once, but a
      message limit that rides with a byte limit going at once right behind it. */
  lemma LimitsGoAtOnce(cap: nat, steps: seq<Step>, s: Step)
    requires cap >= 1 && CanRun(Start(cap), steps) && CanStep(Run(Start(cap), steps), s)
    requires s.Consume? || s.AnswerPing? || s.Attach? || s.UseBatch?
    ensures var g, to := Run(Start(cap), steps).receiver, Next(Run(Start(cap), steps), s).receiver;
            g.sent <= to.sent && BytesGoAtOnce(to.sent, |g.sent|) && RidesAlong(to.sent)
  {
    StartKept(cap);
    var first := Min(WINDOW_INITIAL, cap);
    RunKept(Start(cap), steps, first);
    var c := Run(Start(cap), steps);
    if s.Consume? {
      ConsumeSoon(c.receiver, c.sizes[c.consumed], first);
    } else {
      ReceiverSoon(c, s, first);
    }
  }

  /** In every run that stays in reach, once all sent is consumed and the newest limits came, or just the newest of those
      that go at once, whichever others were lost, late or still wait for a message to ride, the sender has credit left on
      both axes: the two never wait for each other. */
  lemma NeverDeadlocks(cap: nat, steps: seq<Step>)
    requires cap >= 1 && CanRun(Start(cap), steps) && StaysInReach(Start(cap), steps)
    requires var c := Run(Start(cap), steps);
             && c.consumed == |c.sizes|
             && (NewestDelivered(c.receiver.sent, c.delivered) || AtOnceDelivered(c.receiver.sent, c.delivered))
    ensures !Run(Start(cap), steps).sender.OutOfCredit()
  {
    StartKept(cap);
    var first := Min(WINDOW_INITIAL, cap);
    RunKept(Start(cap), steps, first);
    RunInFull(Start(cap), steps, first);
    LeavesCredit(Run(Start(cap), steps), first);
  }

  lemma LeavesCredit(c: Flow, first: nat)
    requires Kept(c, first) && InFull(c.sender, c.receiver.sent, c.delivered) && c.consumed == |c.sizes|
    requires NewestDelivered(c.receiver.sent, c.delivered) || AtOnceDelivered(c.receiver.sent, c.delivered)
    ensures !c.sender.OutOfCredit()
  {
    assert c.sizes[..c.consumed] == c.sizes;
    var b, m := NewestIsLast(c.receiver.sent, first);
    if !NewestDelivered(c.receiver.sent, c.delivered) {
      b := AtOnceIsLast(c.receiver.sent, first);
    }
  }

  /** So it does in every run of awaited sends of frames well below 2^31 bytes. */
  lemma AwaitedNeverDeadlocks(cap: nat, steps: seq<Step>, most: nat)
    requires cap >= 1 && CanRun(Start(cap), steps) && Awaits(Start(cap), steps, most) && most + WINDOW_MAX < SEQ_SPAN / 2
    requires var c := Run(Start(cap), steps);
             && c.consumed == |c.sizes|
             && (NewestDelivered(c.receiver.sent, c.delivered) || AtOnceDelivered(c.receiver.sent, c.delivered))
    ensures !Run(Start(cap), steps).sender.OutOfCredit()
  {
    AwaitedStaysInReach(Start(cap), steps, most);
    NeverDeadlocks(cap, steps);
  }

  lemma RunsCons(c: Flow, s: Step, rest: seq<Step>)
    requires CanStep(c, s) && CanRun(Next(c, s), rest)
    ensures CanRun(c, [s] + rest) && Run(c, [s] + rest) == Run(Next(c, s), rest)
  {
    assert ([s] + rest)[1..] == rest;
  }

  /** A frame of 2^31 bytes sent and consumed. */
  const FAR_SENT := Next(Next(Start(WINDOW_MAX), Send(SEQ_SPAN / 2)), Arrive(0.0, 0.0))

  const FAR_LIMITS := [MessageLimit(1 + MSG_WINDOW_INITIAL, Acknowledgement),
                       ByteLimit(SEQ_SPAN / 2 + WINDOW_INITIAL, Urgent)]

  lemma FarLimits()
    ensures CanStep(FAR_SENT, Consume)
    ensures var c := Next(FAR_SENT, Consume);
            && c.sender == FAR_SENT.sender && c.receiver.sent == FAR_LIMITS && c.delivered == {} && c.consumed == 1
            && c.sizes == [SEQ_SPAN / 2]
  {
    var g := FAR_SENT.receiver.Counting(SEQ_SPAN / 2);
    assert g.estimator.window == WINDOW_INITIAL && g.sent == [];
    assert g.AdvertiseBytes(FlowControl).sent == FAR_LIMITS;
  }

  const FAR_TAKEN: seq<Step> := [TakeLimit(0)] + ([TakeLimit(1)] + [])

  const OUT_OF_REACH: seq<Step> := [Send(SEQ_SPAN / 2)] + ([Arrive(0.0, 0.0)] + ([Consume] + FAR_TAKEN))

  lemma FarTaken()
    ensures CanStep(FAR_SENT, Consume) && CanRun(Next(FAR_SENT, Consume), FAR_TAKEN)
    ensures var c := Run(Next(FAR_SENT, Consume), FAR_TAKEN);
            && c.consumed == |c.sizes| && NewestDelivered(c.receiver.sent, c.delivered) && c.sender.OutOfCredit()
  {
    FarLimits();
    var c := Next(FAR_SENT, Consume);
    assert Raise((SEQ_SPAN / 2 + WINDOW_INITIAL) % SEQ_SPAN, WINDOW_INITIAL) == 0;
    RunsCons(Next(c, TakeLimit(0)), TakeLimit(1), []);
    RunsCons(c, TakeLimit(0), [TakeLimit(1)] + []);
  }

  /** Out of reach it may wait for ever, all consumed and every limit delivered: past its limit by 2^31 bytes, it takes the
      byte limit for a stale one. */
  lemma OutOfReachDeadlocks()
    ensures CanRun(Start(WINDOW_MAX), OUT_OF_REACH)
    ensures var c := Run(Start(WINDOW_MAX), OUT_OF_REACH);
            && c.consumed == |c.sizes| && NewestDelivered(c.receiver.sent, c.delivered) && c.sender.OutOfCredit()
  {
    FarTaken();
    var start := Start(WINDOW_MAX);
    RunsCons(FAR_SENT, Consume, FAR_TAKEN);
    RunsCons(Next(start, Send(SEQ_SPAN / 2)), Arrive(0.0, 0.0), [Consume] + FAR_TAKEN);
    RunsCons(start, Send(SEQ_SPAN / 2), [Arrive(0.0, 0.0)] + ([Consume] + FAR_TAKEN));
  }
}
