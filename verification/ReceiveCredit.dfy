/** What a channel lets its peer send, each method the step of the same name in `Grantings`. What it sends through its
    owner is kept as the limits sent. */
module ReceiveCredits {
  import opened Bytes
  import opened Credits
  import opened Grantings
  import opened BdpEstimators
  import opened Urgencies

  lemma GrowthKept(g: Granting, ack: PingAck, round: Round, busy: bool)
    ensures var e, to := g.estimator, g.TakePingAck(ack, round, busy).estimator;
            e.Sound() ==>
              && e.window <= to.window <= 2 * e.window && e.msgWindow <= to.msgWindow <= 2 * e.msgWindow
              && (to.window > e.window ==> AnswersPing(e, ack) && !busy && (e.bytesReceived - e.bytesAtPing) * 3 >= e.window * 2)
              && (to.window > e.window ==> !busy && MayGrowBytes(e, ack, round)) && to.cap == e.cap
              && (!busy && MayGrowBytes(e, ack, round) && round.roundWait <= 0.0 ==> to.window == Min(e.cap, 2 * e.window))
              && to.msgWindow == if busy || !MayGrowMessages(e, ack) then e.msgWindow
                                 else Min(MSG_WINDOW_MAX, 2 * e.msgWindow)
  {
    if g.estimator.Sound() {
      GrowsExactly(g, ack, round, busy);
      MessagesGrowExactly(g, ack, round, busy);
      TakesEstimator(g, ack, round, busy);
      GrowsOnEvidence(g, ack, round, busy);
      MessagesGrowOnEvidence(g, ack, round, busy);
    }
  }

  class ReceiveCredit {
    const bdp: BdpEstimator
    var fitted: bool
    var consumedBytes: nat
    var consumedMessages: nat
    var advertisedBytes: nat
    var advertisedMessages: nat
    var grantedBytes: nat
    var urgentBytes: nat
    var urgentMessages: nat
    var uncountedBytes: nat
    var arrived: bool
    var wired: bool
    var sent: seq<Limit>

    function Model(): Granting
      reads this, bdp
    {
      Granting(bdp.Model(), fitted, consumedBytes, consumedMessages, advertisedBytes, advertisedMessages, grantedBytes,
               urgentBytes, urgentMessages, uncountedBytes, arrived, wired, sent)
    }

    constructor ()
      ensures Model() == NEW_GRANTING && fresh(bdp)
    {
      bdp := new BdpEstimator();
      fitted, consumedBytes, consumedMessages, advertisedBytes, advertisedMessages := false, 0, 0, 0, 0;
      grantedBytes, urgentBytes, urgentMessages, uncountedBytes := WINDOW_INITIAL, 0, 0, 0;
      arrived, wired, sent := false, false, [];
    }

    method FitReplay(window: nat)
      modifies this`fitted, bdp
      ensures Model() == old(Model()).FitReplay(window)
    {
      fitted := true;
      bdp.CapByteWindow(window);
    }

    /** Counts a frame that arrived; true if a BDP_PING goes out. */
    method OnReceived(bytes: nat, now: real, wait: real) returns (ping: bool)
      modifies this`arrived, bdp
      ensures Model() == old(Model()).Receive(bytes, now, wait) && ping == old(bdp.Model()).PingDue(now)
    {
      arrived := true;
      ping := bdp.OnReceive(bytes, now, wait);
    }

    /** An `Acknowledgement` rides the next message, so it is never urgent. */
    method AdvertiseMessages(urgency: Urgency)
      modifies this`advertisedMessages, this`urgentMessages, this`sent
      ensures Model() == old(Model()).AdvertiseMessages(urgency)
      ensures |sent| == |old(sent)| + 1 && sent[|sent| - 1].MessageLimit?
              && sent[|sent| - 1].limit == consumedMessages + bdp.currentMsgWindow
      // One asked for with a message rides it; any other is urgent past half its window, and else goes at once.
      ensures sent[|sent| - 1].urgency == (if urgency.FlowControl? && old(MessagesAreUrgent(Model())) then Urgent
                                           else urgency)
    {
      advertisedMessages := consumedMessages;
      var goes := urgency;
      if urgency.FlowControl? && (consumedMessages - urgentMessages) * 2 > bdp.currentMsgWindow {
        urgentMessages := consumedMessages;
        goes := Urgent;
      }
      sent := sent + [MessageLimit(consumedMessages + bdp.currentMsgWindow, goes)];
    }

    method AdvertiseBytes(urgency: Urgency)
      modifies this`advertisedBytes, this`advertisedMessages, this`grantedBytes, this`urgentBytes, this`urgentMessages,
               this`uncountedBytes, this`arrived, this`sent
      ensures Model() == old(Model()).AdvertiseBytes(urgency)
      // A limit of a window past what is consumed, never past what is noted as granted.
      ensures fitted ==> |sent| > |old(sent)| && sent[|sent| - 1].ByteLimit?
                         && sent[|sent| - 1].limit == consumedBytes + bdp.currentByteWindow <= grantedBytes
      ensures old(grantedBytes) <= grantedBytes && old(sent) <= sent
      // It is urgent if and only if more than half the window was consumed since the last urgent one.
      ensures fitted ==> sent[|sent| - 1].urgency == (if old(BytesAreUrgent(Model())) then Urgent else urgency)
                         && urgentBytes == if old(BytesAreUrgent(Model())) then consumedBytes else old(urgentBytes)
    {
      if !fitted {
        return;
      }
      var limit := consumedBytes + bdp.currentByteWindow;
      var urgent := (consumedBytes - urgentBytes) * 2 > bdp.currentByteWindow;
      Grant(limit, urgent);
      // A message limit behind rides with a byte limit that doesn't ride itself.
      if (urgent || !urgency.Acknowledgement?) && consumedMessages > advertisedMessages {
        AdvertiseMessages(Acknowledgement);
      }
      sent := sent + [ByteLimit(limit, if urgent then Urgent else urgency)];
    }

    /** All consumed is advertised as of now. */
    method Grant(limit: nat, urgent: bool)
      modifies this`advertisedBytes, this`grantedBytes, this`urgentBytes, this`uncountedBytes, this`arrived
      ensures Model() == old(Model()).(
                advertisedBytes := consumedBytes, grantedBytes := Max(old(grantedBytes), limit), uncountedBytes := 0,
                arrived := false, urgentBytes := if urgent then consumedBytes else old(urgentBytes))
    {
      advertisedBytes := consumedBytes;
      if limit > grantedBytes {
        grantedBytes := limit;
      }
      uncountedBytes, arrived := 0, false;
      if urgent {
        urgentBytes := consumedBytes;
      }
    }

    method Count(bytes: nat)
      modifies this`consumedBytes, this`consumedMessages
      ensures Model() == old(Model()).Counting(bytes)
    {
      consumedBytes := consumedBytes + bytes;
      consumedMessages := consumedMessages + 1;
    }

    /** Counts a frame as consumed, and sends each limit whose window is a quarter used up. */
    method OnConsumed(bytes: nat)
      modifies this
      ensures Model() == old(Model()).Consume(bytes)
      ensures fitted ==> consumedBytes - advertisedBytes < Max(1, bdp.currentByteWindow / 4)
      ensures consumedMessages - advertisedMessages < Max(1, bdp.currentMsgWindow / 4)
    {
      Count(bytes);
      Refresh();
    }

    method Refresh()
      modifies this`advertisedBytes, this`advertisedMessages, this`grantedBytes, this`urgentBytes, this`urgentMessages,
               this`uncountedBytes, this`arrived, this`sent
      ensures Model() == old(Model()).Refresh()
      // Less than a quarter of either window is used up since its limit went.
      ensures fitted ==> consumedBytes - advertisedBytes < Max(1, bdp.currentByteWindow / 4)
      ensures consumedMessages - advertisedMessages < Max(1, bdp.currentMsgWindow / 4)
    {
      if consumedBytes - advertisedBytes >= bdp.currentByteWindow / 4 {
        AdvertiseBytes(FlowControl);
      }
      if consumedMessages - advertisedMessages >= bdp.currentMsgWindow / 4 {
        AdvertiseMessages(FlowControl);
      }
    }

    method CountUncounted(bytes: nat)
      modifies this`arrived, this`uncountedBytes
      ensures Model() == old(Model()).CountingUncounted(bytes)
    {
      arrived := true;
      uncountedBytes := uncountedBytes + bytes;
    }

    /** A frame credit doesn't count arrived, which a byte limit acknowledges. */
    method OnReceivedUncounted(bytes: nat)
      modifies this
      ensures Model() == old(Model()).ReceiveUncounted(bytes)
      ensures fitted ==> uncountedBytes < Max(1, bdp.currentByteWindow / 4)
      ensures consumedBytes == old(consumedBytes) && bdp.Model() == old(bdp.Model())
    {
      CountUncounted(bytes);
      if uncountedBytes >= bdp.currentByteWindow / 4 {
        AdvertiseBytes(Acknowledgement);
      }
    }

    /** At each heartbeat, a byte limit for what arrived since the last. */
    method Acknowledge()
      modifies this
      ensures Model() == old(Model()).Acknowledge()
      ensures fitted ==> !arrived && (old(arrived) ==> |sent| > |old(sent)|)
    {
      if arrived {
        AdvertiseBytes(Acknowledgement);
      }
    }

    method Answered()
      modifies this`uncountedBytes, this`arrived
      ensures Model() == old(Model()).Answered()
    {
      uncountedBytes, arrived := 0, false;
    }

    /** Settles a BDP_PING_ACK, and grants the windows it grew. */
    method OnPingAck(ack: PingAck, round: Round, busy: bool)
      modifies this, bdp
      ensures Model() == old(Model()).TakePingAck(ack, round, busy)
      // Neither window shrinks, nor more than doubles, and the byte window grows only on two thirds of it arrived since
      // the ping it answers.
      ensures old(bdp.Model()).Sound() ==>
                && (bdp.currentByteWindow > old(bdp.currentByteWindow) ==> !busy && MayGrowBytes(old(bdp.Model()), ack, round))
                && (!busy && MayGrowBytes(old(bdp.Model()), ack, round) && round.roundWait <= 0.0 ==>
                      bdp.currentByteWindow == Min(bdp.byteWindowCap, 2 * old(bdp.currentByteWindow)))
                && bdp.currentMsgWindow == (if busy || !MayGrowMessages(old(bdp.Model()), ack) then old(bdp.currentMsgWindow)
                                            else Min(MSG_WINDOW_MAX, 2 * old(bdp.currentMsgWindow)))
      ensures old(bdp.Model()).Sound() ==>
                && old(bdp.currentByteWindow) <= bdp.currentByteWindow <= 2 * old(bdp.currentByteWindow)
                && old(bdp.currentMsgWindow) <= bdp.currentMsgWindow <= 2 * old(bdp.currentMsgWindow)
                && (bdp.currentByteWindow > old(bdp.currentByteWindow) ==>
                      && !busy && ack.probe == old(bdp.ping)
                      && (old(bdp.bytesReceived) - old(bdp.bytesAtPingSent)) * 3 >= old(bdp.currentByteWindow) * 2)
    {
      GrowthKept(Model(), ack, round, busy);
      var verdict := bdp.OnPingAck(ack, round);
      if busy {
        return;
      }
      if verdict.bytes.Grow? {
        GrowBytes();
      }
      if verdict.msgs.Grow? {
        GrowMessages();
      }
    }

    method GrowBytes()
      modifies this, bdp
      ensures Model() == old(Model()).(estimator := old(bdp.Model()).GrowBytes()).AdvertiseBytes(FlowControl)
    {
      bdp.GrowBytes();
      AdvertiseBytes(FlowControl);
    }

    method GrowMessages()
      modifies this, bdp
      ensures Model() == old(Model()).(estimator := old(bdp.Model()).GrowMsgs()).AdvertiseMessages(FlowControl)
    {
      bdp.GrowMsgs();
      AdvertiseMessages(FlowControl);
    }

    /** On another wire than the last, or the first, the limits go out again. */
    method AttachOnNewWire()
      modifies this, bdp
      ensures Model() == old(Model()).AttachOnNewWire()
      // On another wire both limits go, and windows are kept.
      ensures old(wired) && fitted ==> advertisedBytes == consumedBytes && advertisedMessages == consumedMessages
                                       && |sent| >= |old(sent)| + 2
      ensures old(sent) <= sent && bdp.currentByteWindow == old(bdp.currentByteWindow)
              && bdp.currentMsgWindow == old(bdp.currentMsgWindow) && !bdp.pingInFlight
      // On the first too, what is granted covers the window, and what arrived is acknowledged.
      ensures fitted ==> grantedBytes >= consumedBytes + bdp.currentByteWindow && !arrived
    {
      var again := wired;
      Wire();
      if again {
        AdvertiseMessages(FlowControl);
        AdvertiseBytes(FlowControl);
      } else if arrived || consumedBytes + bdp.currentByteWindow > grantedBytes {
        AdvertiseBytes(FlowControl);
      }
    }

    method Wire()
      modifies this`wired, bdp
      ensures Model() == old(Model()).(estimator := old(bdp.Model()).Reset(), wired := true)
    {
      bdp.Reset();
      wired := true;
    }

    method RestartRound()
      modifies bdp
      ensures Model() == old(Model()).RestartRound()
    {
      bdp.Reset();
    }

    /** Raises the window to the batch one and advertises it; never lowers it. */
    method UseBatchTransportInitial()
      modifies this, bdp
      ensures Model() == old(Model()).UseBatchInitial()
      ensures bdp.currentByteWindow == Max(old(bdp.currentByteWindow), Min(bdp.byteWindowCap, WINDOW_INITIAL_BATCH))
      ensures fitted && bdp.currentByteWindow > old(bdp.currentByteWindow) ==> |sent| > |old(sent)|
    {
      var prev := bdp.currentByteWindow;
      bdp.RaiseByteWindow(WINDOW_INITIAL_BATCH);
      if bdp.currentByteWindow > prev {
        AdvertiseBytes(FlowControl);
      }
    }

    method UndoBatchTransportInitial()
      modifies bdp
      ensures Model() == old(Model()).UndoBatchInitial()
    {
      bdp.UndoByteWindowRaise();
    }
  }
}
