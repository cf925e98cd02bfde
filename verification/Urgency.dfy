/** How soon limits go: an acknowledgement rides the next message, which may never come, and any other goes at once. What
    reopens credit never waits for a message. */
module Urgencies {
  import opened Bytes
  import opened Credits
  import opened Grantings

  predicate Rides(l: Limit) {
    l.urgency.Acknowledgement?
  }

  /** The newest byte limit that went at once, `first` before any. */
  function LastAtOnce(sent: seq<Limit>, first: nat): nat {
    if sent == [] then first
    else
      var n := |sent| - 1;
      if sent[n].ByteLimit? && !Rides(sent[n]) then sent[n].limit else LastAtOnce(sent[..n], first)
  }

  /** A message limit rides only with a byte limit that goes at once, right behind it. */
  predicate RidesAlong(sent: seq<Limit>) {
    forall i | 0 <= i < |sent| && sent[i].MessageLimit? && Rides(sent[i]) ::
      i + 1 < |sent| && sent[i + 1].ByteLimit? && !Rides(sent[i + 1])
  }

  /** No byte limit from `from` on rides. */
  predicate BytesGoAtOnce(sent: seq<Limit>, from: nat) {
    forall i | from <= i < |sent| && sent[i].ByteLimit? :: !Rides(sent[i])
  }

  /** More than half the window was consumed since an urgent byte limit went. */
  predicate BytesAreUrgent(g: Granting) {
    (g.consumedBytes - g.urgentBytes) * 2 > g.estimator.window
  }

  predicate MessagesAreUrgent(g: Granting) {
    (g.consumedMessages - g.urgentMessages) * 2 > g.estimator.msgWindow
  }

  // ── The invariant ──

  predicate Tidy(g: Granting) {
    && g.fitted && g.estimator.Sound() && RidesAlong(g.sent)
    && g.urgentBytes <= g.consumedBytes && g.advertisedBytes <= g.consumedBytes
  }

  /** The newest byte limit that went at once is a window past the last urgent one, and half a window past the last of
      any: however many ride, it is ahead. */
  predicate Reopens(g: Granting, first: nat) {
    && LastAtOnce(g.sent, first) >= g.urgentBytes + g.estimator.window
    && 2 * LastAtOnce(g.sent, first) >= 2 * g.advertisedBytes + g.estimator.window
  }

  predicate Soon(g: Granting, first: nat) {
    Tidy(g) && Reopens(g, first) && LastAtOnce(g.sent, first) > g.consumedBytes
  }

  lemma AtOnceAppend(sent: seq<Limit>, l: Limit, first: nat)
    ensures LastAtOnce(sent + [l], first) == if l.ByteLimit? && !Rides(l) then l.limit else LastAtOnce(sent, first)
  {
    assert (sent + [l])[..|sent|] == sent;
  }

  lemma AlongAppend(sent: seq<Limit>, l: Limit)
    requires RidesAlong(sent) && (l.ByteLimit? || !Rides(l))
    ensures RidesAlong(sent + [l])
  {
    var to := sent + [l];
    forall i | 0 <= i < |to| && to[i].MessageLimit? && Rides(to[i])
      ensures i + 1 < |to| && to[i + 1].ByteLimit? && !Rides(to[i + 1])
    {
      assert i < |sent| && to[i] == sent[i] && to[i + 1] == sent[i + 1];
    }
  }

  lemma AlongWith(sent: seq<Limit>, m: Limit, l: Limit)
    requires RidesAlong(sent) && l.ByteLimit? && !Rides(l)
    ensures RidesAlong(sent + [m] + [l])
  {
    var to := sent + [m] + [l];
    forall i | 0 <= i < |to| && to[i].MessageLimit? && Rides(to[i])
      ensures i + 1 < |to| && to[i + 1].ByteLimit? && !Rides(to[i + 1])
    {
      if i < |sent| {
        assert to[i] == sent[i] && to[i + 1] == sent[i + 1];
      }
    }
  }

  /** A byte limit is urgent if and only if more than half the window was consumed since the last urgent one, and else as
      it was asked for; a message limit rides with it only where it does not ride itself. */
  lemma AdvertisesBytesSoon(g: Granting, urgency: Urgency)
    requires g.fitted && !urgency.Urgent?
    ensures var to := g.AdvertiseBytes(urgency);
            var l := ByteLimit(g.consumedBytes + g.estimator.window, if BytesAreUrgent(g) then Urgent else urgency);
            && to.urgentBytes == (if l.urgency.Urgent? then g.consumedBytes else g.urgentBytes)
            && to.urgentMessages == g.urgentMessages
            && to.sent == (if !Rides(l) && g.consumedMessages > g.advertisedMessages
                           then g.sent + [MessageLimit(g.consumedMessages + g.estimator.msgWindow, Acknowledgement)] + [l]
                           else g.sent + [l])
  {
  }

  /** One asked for at once goes at once. */
  lemma FlowControlSoon(g: Granting, first: nat)
    requires Tidy(g)
    ensures Soon(g.AdvertiseBytes(FlowControl), first)
    ensures BytesGoAtOnce(g.AdvertiseBytes(FlowControl).sent, |g.sent|) && g.sent <= g.AdvertiseBytes(FlowControl).sent
  {
    var to := g.AdvertiseBytes(FlowControl);
    AdvertisesBytesSoon(g, FlowControl);
    var l := to.sent[|to.sent| - 1];
    if g.consumedMessages > g.advertisedMessages {
      var m := to.sent[|g.sent|];
      AlongWith(g.sent, m, l);
      AtOnceAppend(g.sent + [m], l, first);
    } else {
      AlongAppend(g.sent, l);
      AtOnceAppend(g.sent, l, first);
    }
  }

  /** One that rides leaves what went at once ahead: else it is urgent, and doesn't ride. */
  lemma AcknowledgementSoon(g: Granting, first: nat)
    requires Soon(g, first)
    ensures Soon(g.AdvertiseBytes(Acknowledgement), first) && g.sent <= g.AdvertiseBytes(Acknowledgement).sent
  {
    var to := g.AdvertiseBytes(Acknowledgement);
    AdvertisesBytesSoon(g, Acknowledgement);
    var l := to.sent[|to.sent| - 1];
    if !Rides(l) && g.consumedMessages > g.advertisedMessages {
      var m := to.sent[|g.sent|];
      AlongWith(g.sent, m, l);
      AtOnceAppend(g.sent + [m], l, first);
    } else {
      AlongAppend(g.sent, l);
      AtOnceAppend(g.sent, l, first);
    }
  }

  /** A message limit by itself never rides, and is urgent where more than half its window was consumed since an urgent
      one. */
  lemma MessagesSoon(g: Granting, first: nat)
    requires Tidy(g)
    ensures var to := g.AdvertiseMessages(FlowControl);
            && to.sent == g.sent + [MessageLimit(g.consumedMessages + g.estimator.msgWindow,
                                                 if MessagesAreUrgent(g) then Urgent else FlowControl)]
            && to.urgentMessages == (if MessagesAreUrgent(g) then g.consumedMessages else g.urgentMessages)
            && Tidy(to) && (Reopens(g, first) ==> Reopens(to, first)) && (Soon(g, first) ==> Soon(to, first))
  {
    var to := g.AdvertiseMessages(FlowControl);
    AlongAppend(g.sent, to.sent[|g.sent|]);
    AtOnceAppend(g.sent, to.sent[|g.sent|], first);
  }

  // ── What keeps it ──

  /** `to` follows, and no byte limit it sent rides. */
  predicate WentAtOnce(g: Granting, to: Granting, first: nat) {
    Soon(to, first) && g.sent <= to.sent && BytesGoAtOnce(to.sent, |g.sent|)
  }

  lemma RefreshSoon(g: Granting, first: nat)
    requires Tidy(g) && Reopens(g, first)
    ensures WentAtOnce(g, g.Refresh(), first)
  {
    var b := g;
    if g.consumedBytes - g.advertisedBytes >= g.estimator.window / 4 {
      FlowControlSoon(g, first);
      b := g.AdvertiseBytes(FlowControl);
    }
    MessagesSoon(b, first);
  }

  /** As a quarter of a window is consumed. */
  lemma ConsumeSoon(g: Granting, bytes: nat, first: nat)
    requires Soon(g, first)
    ensures WentAtOnce(g, g.Consume(bytes), first)
  {
    RefreshSoon(g.Counting(bytes), first);
  }

  /** As a window grows. */
  lemma AnswerSoon(g: Granting, ack: PingAck, round: Round, busy: bool, first: nat)
    requires Soon(g, first)
    ensures WentAtOnce(g, g.TakePingAck(ack, round, busy), first)
  {
    var (e, verdict) := g.estimator.OnPingAck(ack, round);
    SettleSound(g.estimator, ack, round);
    TakenSound(g.estimator, ack, round, false);
    var b := g.(estimator := e);
    if !busy {
      if verdict.bytes.Grow? {
        b := GrowBytesSoon(b, first);
      }
      if verdict.msgs.Grow? {
        GrowMessagesSoon(b, first);
      }
    }
  }

  lemma GrowBytesSoon(g: Granting, first: nat) returns (to: Granting)
    requires Tidy(g)
    ensures to == g.(estimator := g.estimator.GrowBytes()).AdvertiseBytes(FlowControl) && WentAtOnce(g, to, first)
  {
    assert g.estimator.GrowBytes().Sound();
    FlowControlSoon(g.(estimator := g.estimator.GrowBytes()), first);
    to := g.(estimator := g.estimator.GrowBytes()).AdvertiseBytes(FlowControl);
  }

  lemma GrowMessagesSoon(g: Granting, first: nat)
    requires Soon(g, first)
    ensures WentAtOnce(g, g.(estimator := g.estimator.GrowMsgs()).AdvertiseMessages(FlowControl), first)
  {
    assert g.estimator.GrowMsgs().Sound();
    MessagesSoon(g.(estimator := g.estimator.GrowMsgs()), first);
  }

  /** As the wire is new. */
  lemma AttachSoon(g: Granting, first: nat)
    requires Soon(g, first)
    ensures WentAtOnce(g, g.AttachOnNewWire(), first)
  {
    var r := g.(estimator := g.estimator.Reset(), wired := true);
    if g.wired {
      MessagesSoon(r, first);
      FlowControlSoon(r.AdvertiseMessages(FlowControl), first);
    } else {
      FlowControlSoon(r, first);
    }
  }

  /** As a raise makes room. */
  lemma BatchSoon(g: Granting, first: nat)
    requires Soon(g, first)
    ensures WentAtOnce(g, g.UseBatchInitial(), first)
  {
    var e := g.estimator.RaiseWindow(WINDOW_INITIAL_BATCH);
    assert e.Sound();
    FlowControlSoon(g.(estimator := e), first);
  }

  /** A lowered window keeps what went ahead of it. */
  lemma UndoSoon(g: Granting, first: nat)
    requires Soon(g, first) && (g.estimator.beforeRaise != 0 ==> g.estimator.beforeRaise <= g.estimator.window)
    ensures Soon(g.UndoBatchInitial(), first)
  {
    assert g.estimator.UndoRaise().Sound();
  }

  lemma UncountedSoon(g: Granting, bytes: nat, first: nat)
    requires Soon(g, first)
    ensures Soon(g.ReceiveUncounted(bytes), first)
  {
    AcknowledgementSoon(g.CountingUncounted(bytes), first);
  }
}
