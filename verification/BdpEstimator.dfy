/** A channel's receive window, each method the step of the same name in `Credits`. Times and what wires measured are
    parameters. */
module BdpEstimators {
  import opened Bytes
  import opened Credits
  import opened Grantings

  class BdpEstimator {
    var currentByteWindow: nat
    var byteWindowCap: nat
    var byteWindowBeforeRaise: nat
    var bytesAtPingSent: nat
    var bytesReceived: nat
    var currentMsgWindow: nat
    var msgsAtPingSent: nat
    var msgsReceived: nat
    var msgWindowBeforeGrowth: nat
    var probes: nat
    var ping: nat
    var pingInFlight: bool
    var attachProbes: seq<nat>
    var boundRtt: Option<real>
    var lastPingAt: Option<real>
    var pingWait: real
    var grownWindow: nat
    var grewSincePing: bool
    var pingFollowsGrowth: bool
    var probeIntervalMs: nat

    function Model(): Estimator
      reads this
    {
      Estimator(currentByteWindow, byteWindowCap, byteWindowBeforeRaise, bytesAtPingSent, bytesReceived,
                currentMsgWindow, msgsAtPingSent, msgsReceived, msgWindowBeforeGrowth, probes, ping, pingInFlight,
                attachProbes, boundRtt, lastPingAt, pingWait, grownWindow, grewSincePing, pingFollowsGrowth,
                probeIntervalMs)
    }

    constructor ()
      ensures Model() == NEW_ESTIMATOR
    {
      currentByteWindow, byteWindowCap, byteWindowBeforeRaise := WINDOW_INITIAL, WINDOW_MAX, 0;
      bytesAtPingSent, bytesReceived := 0, 0;
      currentMsgWindow, msgsAtPingSent, msgsReceived, msgWindowBeforeGrowth := MSG_WINDOW_INITIAL, 0, 0, 0;
      probes, ping, pingInFlight, attachProbes := 0, 0, false, [];
      boundRtt, lastPingAt, pingWait := None, None, 0.0;
      grownWindow, grewSincePing, pingFollowsGrowth, probeIntervalMs := 0, false, false, PING_MIN_MS;
    }

    /** A probe is skipped only when both windows are at their cap: otherwise one may still grow. */
    predicate PingDue(now: real)
      reads this
      ensures PingDue(now) == Model().PingDue(now)
    {
      if pingInFlight then false
      else if currentByteWindow >= byteWindowCap && currentMsgWindow >= MSG_WINDOW_MAX then false
      else lastPingAt.None? || now - lastPingAt.value >= probeIntervalMs as real
    }

    method SendPing(now: real, wait: real)
      modifies this
      ensures Model() == old(Model()).SendPing(now, wait)
    {
      NumberPing();
      lastPingAt, pingWait := Some(now), wait;
      pingFollowsGrowth, grewSincePing := grewSincePing, false;
      bytesAtPingSent, msgsAtPingSent := bytesReceived, msgsReceived;
    }

    /** Each probe takes the next number. */
    method NumberPing()
      modifies this`probes, this`ping, this`pingInFlight
      ensures Model() == old(Model()).(probes := (old(probes) + 1) % SEQ_SPAN, ping := (old(probes) + 1) % SEQ_SPAN,
                                       inFlight := true)
    {
      probes := (probes + 1) % SEQ_SPAN;
      ping := probes;
      pingInFlight := true;
    }

    /** Records one received frame; true if a ping of the number `ping` reads goes out at once. */
    method OnReceive(bytes: nat, now: real, wait: real) returns (probe: bool)
      modifies this
      ensures Model() == old(Model()).OnReceive(bytes, now, wait) && probe == old(Model()).PingDue(now)
      // One ping at a time, no sooner after the last than the interval, and only while a window may still grow.
      ensures probe <==> !old(pingInFlight) && (old(lastPingAt).None? || now - old(lastPingAt).value >= probeIntervalMs as real)
                         && (currentByteWindow < byteWindowCap || currentMsgWindow < MSG_WINDOW_MAX)
      ensures bytesReceived == old(bytesReceived) + bytes && msgsReceived == old(msgsReceived) + 1
      ensures pingInFlight <==> old(pingInFlight) || probe
      ensures if probe then lastPingAt == Some(now) && bytesAtPingSent == old(bytesReceived) && msgsAtPingSent == old(msgsReceived)
              else lastPingAt == old(lastPingAt) && bytesAtPingSent == old(bytesAtPingSent) && ping == old(ping)
    {
      probe := PingDue(now);
      // Before the triggering frame counts: it is the first in-flight byte of the round.
      if probe {
        SendPing(now, wait);
      }
      bytesReceived := bytesReceived + bytes;
      msgsReceived := msgsReceived + 1;
    }

    /** The probes of `stale` wires are dropped, and one goes out with an attach. */
    method ProbeAttach(stale: set<nat>) returns (probe: nat)
      modifies this`probes, this`attachProbes
      ensures Model() == old(Model()).ProbeAttach(stale) && probe == probes
      ensures forall n :: n in attachProbes <==> n == probe || (n in old(attachProbes) && n !in stale)
    {
      var kept := Without(attachProbes, stale);
      DroppedLeaves(attachProbes, stale);
      probes := (probes + 1) % SEQ_SPAN;
      attachProbes := kept + [probes];
      probe := probes;
    }

    /** Settles `probe` if it is an attach's. */
    method SettleAttachProbe(probe: nat) returns (settled: bool)
      modifies this`attachProbes
      ensures settled == (probe in old(attachProbes))
      ensures attachProbes == if settled then Dropped(old(attachProbes), {probe}) else old(attachProbes)
    {
      if probe !in attachProbes {
        return false;
      }
      attachProbes := Without(attachProbes, {probe});
      return true;
    }

    /** Settles the ping in flight. */
    method OnPingAck(ack: PingAck, round: Round) returns (verdict: Verdict)
      modifies this
      ensures (Model(), verdict) == old(Model()).OnPingAck(ack, round)
      // Settling sizes no window, and a ping answered is settled once.
      ensures currentByteWindow == old(currentByteWindow) && currentMsgWindow == old(currentMsgWindow)
      ensures verdict != NOT_SETTLED ==> old(pingInFlight) && ack.probe == old(ping) && !pingInFlight
      // It says to grow just where the window is filled below its cap, the path or the sender telling so.
      ensures verdict.bytes.Grow? <==> MayGrowBytes(old(Model()), ack, round)
      ensures verdict.msgs.Grow? <==> MayGrowMessages(old(Model()), ack)
    {
      if Model().Settles(ack) {
        DecidesExactly(Model(), ack, round);
      }
      var attach := SettleAttachProbe(ack.probe);
      if attach || !pingInFlight || ack.probe != ping {
        return NOT_SETTLED;
      }
      verdict := SettleRound(ack, round);
    }

    method SettleRound(ack: PingAck, round: Round) returns (verdict: Verdict)
      requires pingInFlight
      modifies this
      ensures Model() == old(Model()).Settle(ack, round) && verdict == old(Model()).Decide(ack, round)
    {
      ghost var was := Model();
      pingInFlight := false;
      var starved := ack.backlog.Some? && ack.backlog.value * 8.0 < currentByteWindow as real;
      var sample, measured := Measure(ack, round, starved, was);
      var bytes := ByteDecision(sample, measured, starved);
      var msgs := MsgDecision(msgsReceived - msgsAtPingSent, starved);
      verdict := Verdict(bytes, msgs);
      assert verdict == was.Decide(ack, round);
      Conclude(verdict, sample, round);
    }

    /** Sizes the next growth by the sample where the round waited behind this side's data, and sets the pace. */
    method Conclude(verdict: Verdict, sample: real, round: Round)
      modifies this`msgWindowBeforeGrowth, this`grownWindow, this`probeIntervalMs
      ensures Model() == old(Model()).(
                msgBeforeGrowth := 0, interval := old(Model()).Paced(verdict),
                grownWindow := if verdict.bytes.Grow? && round.roundWait > 0.0
                               then Min(2 * currentByteWindow, Max(currentByteWindow, Ceil(1.5 * sample)))
                               else 0)
    {
      msgWindowBeforeGrowth := 0;
      Pace(verdict.bytes, verdict.msgs);
      grownWindow := if verdict.bytes.Grow? && round.roundWait > 0.0
                     then Min(2 * currentByteWindow, Max(currentByteWindow, Ceil(1.5 * sample)))
                     else 0;
    }

    /** What arrived in the round counts for the path's round trip, if that is measured, where the round took longer. */
    method Measure(ack: PingAck, round: Round, starved: bool, ghost was: Estimator) returns (sample: real, measured: bool)
      requires Model() == was.(inFlight := false) && starved == was.Starved(ack)
      modifies this`boundRtt
      ensures boundRtt == was.BoundBy(ack, round)
      ensures sample == was.ByteSample(ack, round) && measured == was.PathRtt(ack, round).Some?
    {
      var rtt := if lastPingAt.Some? then MaxReal(0.0, round.now - lastPingAt.value) else 0.0;
      var received := bytesReceived - bytesAtPingSent;
      BoundRoundTrip(rtt, received, starved, round);
      var path := PathRtt(Least(round.pathRtt, ack.pathRtt));
      measured := path.Some?;
      sample := received as real;
      if path.Some? && 0.0 <= path.value + round.roundWait + round.postWait < rtt {
        sample := received as real * ((path.value + round.roundWait + round.postWait) / rtt);
      } else {
        assert sample == sample * 1.0;
      }
    }

    /** This round bounds the round trip where shorter, or where no queue held it. */
    method BoundRoundTrip(rtt: real, received: int, starved: bool, round: Round)
      modifies this`boundRtt
      ensures var roundRtt := MaxReal(1.0, rtt - pingWait);
              boundRtt == if starved && received * 3 >= currentByteWindow * 2 && round.deliveredBefore * 16 < received
                          then Some(roundRtt)
                          else if old(boundRtt).Some? && roundRtt < old(boundRtt).value then Some(roundRtt)
                          else old(boundRtt)
    {
      var roundRtt := MaxReal(1.0, rtt - pingWait);
      if boundRtt.Some? && roundRtt < boundRtt.value {
        boundRtt := Some(roundRtt);
      }
      if starved && received * 3 >= currentByteWindow * 2 && round.deliveredBefore * 16 < received {
        boundRtt := Some(roundRtt);
      }
    }

    function PathRtt(path: Option<real>): Option<real>
      reads this
    {
      if boundRtt.None? then path
      else Some(if path.Some? then MaxReal(path.value, boundRtt.value) else boundRtt.value)
    }

    function ByteDecision(sample: real, measured: bool, starved: bool): Decision
      reads this
      ensures ByteDecision(sample, measured, starved) == Model().ByteDecision(sample, measured, starved)
    {
      if currentByteWindow >= byteWindowCap then AtCap
      else if sample * 3.0 < currentByteWindow as real * 2.0 then SampleTooSmall
      else if measured then Grow
      else if pingFollowsGrowth then WindowGrew
      else if starved then Grow
      else WireBusy
    }

    function MsgDecision(sample: int, starved: bool): Decision
      reads this
      ensures MsgDecision(sample, starved) == Model().MsgDecision(sample, starved)
    {
      if currentMsgWindow >= MSG_WINDOW_MAX then AtCap
      else
        var against := if starved && msgWindowBeforeGrowth != 0 then msgWindowBeforeGrowth else currentMsgWindow;
        if sample * 3 < against * 2 then SampleTooSmall else Grow
    }

    /** Back to the minimum after a growth, kept where the window had grown, doubled up to the maximum otherwise. */
    method Pace(bytes: Decision, msgs: Decision)
      modifies this`probeIntervalMs
      ensures probeIntervalMs == if bytes.Grow? || msgs.Grow? then PING_MIN_MS
                                 else if bytes.WindowGrew? then old(probeIntervalMs)
                                 else Min(PING_MAX_MS, old(probeIntervalMs) * 2)
    {
      if bytes.Grow? || msgs.Grow? {
        probeIntervalMs := PING_MIN_MS;
      } else if !bytes.WindowGrew? {
        probeIntervalMs := Min(PING_MAX_MS, probeIntervalMs * 2);
      }
    }

    method GrowBytes()
      modifies this
      ensures Model() == old(Model()).GrowBytes()
      ensures old(currentByteWindow) <= byteWindowCap && (old(grownWindow) == 0 || old(grownWindow) >= old(currentByteWindow))
              ==> old(currentByteWindow) <= currentByteWindow <= byteWindowCap
      ensures old(grownWindow) <= 2 * old(currentByteWindow) ==> currentByteWindow <= 2 * old(currentByteWindow)
    {
      currentByteWindow := Min(byteWindowCap, if grownWindow != 0 then grownWindow else currentByteWindow * 2);
      grownWindow := 0;
      grewSincePing := true;
      byteWindowBeforeRaise := 0;
    }

    method RaiseByteWindow(bytes: nat)
      modifies this
      ensures Model() == old(Model()).RaiseWindow(bytes)
      ensures currentByteWindow == Max(old(currentByteWindow), Min(byteWindowCap, bytes))
    {
      var window := Min(byteWindowCap, bytes);
      if window <= currentByteWindow {
        return;
      }
      if byteWindowBeforeRaise == 0 {
        byteWindowBeforeRaise := currentByteWindow;
      }
      currentByteWindow := window;
      grewSincePing := true;
    }

    method UndoByteWindowRaise()
      modifies this
      ensures Model() == old(Model()).UndoRaise()
      ensures old(byteWindowBeforeRaise) != 0 ==> currentByteWindow <= byteWindowCap && byteWindowBeforeRaise == 0
    {
      if byteWindowBeforeRaise == 0 {
        return;
      }
      currentByteWindow := Min(byteWindowCap, byteWindowBeforeRaise);
      byteWindowBeforeRaise := 0;
    }

    method CapByteWindow(bytes: nat)
      modifies this
      ensures Model() == old(Model()).CapWindow(bytes)
      ensures currentByteWindow <= byteWindowCap <= WINDOW_MAX && currentByteWindow <= old(currentByteWindow)
    {
      byteWindowCap := Min(WINDOW_MAX, bytes);
      currentByteWindow := Min(currentByteWindow, byteWindowCap);
    }

    method GrowMsgs()
      modifies this
      ensures Model() == old(Model()).GrowMsgs()
      ensures old(currentMsgWindow) <= MSG_WINDOW_MAX
              ==> old(currentMsgWindow) <= currentMsgWindow <= Min(MSG_WINDOW_MAX, 2 * old(currentMsgWindow))
    {
      msgWindowBeforeGrowth := currentMsgWindow;
      currentMsgWindow := Min(MSG_WINDOW_MAX, currentMsgWindow * 2);
    }

    /** The next round starts here, the windows and the cadence kept. */
    method Reset()
      modifies this
      ensures Model() == old(Model()).Reset()
      // Nothing arrived in the round yet; the windows and the pace are kept.
      ensures !pingInFlight && bytesAtPingSent == bytesReceived && msgsAtPingSent == msgsReceived
      ensures currentByteWindow == old(currentByteWindow) && currentMsgWindow == old(currentMsgWindow)
              && probeIntervalMs == old(probeIntervalMs)
    {
      pingInFlight := false;
      boundRtt := None;
      msgWindowBeforeGrowth := 0;
      bytesAtPingSent := bytesReceived;
      msgsAtPingSent := msgsReceived;
    }
  }

  lemma {:induction false} DroppedLeaves(q: seq<nat>, dropped: set<nat>)
    ensures forall n :: n in Dropped(q, dropped) <==> n in q && n !in dropped
  {
    if q != [] {
      DroppedLeaves(q[1..], dropped);
    }
  }

  method Without(q: seq<nat>, dropped: set<nat>) returns (kept: seq<nat>)
    ensures kept == Dropped(q, dropped)
  {
    kept := [];
    for i := 0 to |q|
      invariant kept + Dropped(q[i..], dropped) == Dropped(q, dropped)
    {
      if q[i] !in dropped {
        kept := kept + [q[i]];
      }
    }
  }
}
