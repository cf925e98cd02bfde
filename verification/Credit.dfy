/** Credit flow control, as values: what a sender may send, and what a receiver grants, its windows sized by rounds of
    probes. Limits are cumulative and cross the wire mod 2^32 (section 4.1 of RFC 9000). */
module Credits {
  import opened Bytes

  const WINDOW_INITIAL: nat := 0x20_0000
  const WINDOW_INITIAL_BATCH: nat := 0x80_0000
  const WINDOW_MAX: nat := 0x400_0000
  const MSG_WINDOW_INITIAL: nat := 100
  const MSG_WINDOW_MAX: nat := 50_000
  const PING_MIN_MS: nat := 50
  const PING_MAX_MS: nat := 10_000

  /** The most a frame adds to the message it carries. */
  const FRAME_OVERHEAD: nat := HEADER + 9

  /** The largest window a sender whose replay queues hold `text` and `binary` bytes gets: one more would not fit twice. */
  function ReplayWindow(text: nat, binary: nat): (window: nat)
    ensures window >= 1 && (window > 1 ==> 2 * (window + FRAME_OVERHEAD) <= Min(text, binary))
    ensures 2 * (window + 1 + FRAME_OVERHEAD) > Min(text, binary)
  {
    Max(1, Min(text, binary) / 2 - FRAME_OVERHEAD)
  }

  // ── The spending side ──

  /** What a limit of low 32 bits `bits` raises `limit` by: a signed difference, none if it is not ahead. */
  function Raise(bits: nat, limit: nat): nat {
    var ahead := (bits - limit) % SEQ_SPAN;
    if ahead < SEQ_SPAN / 2 then ahead else 0
  }

  /** A granted limit is taken exactly, and a stale one ignored, where it is less than 2^31 ahead, or its distance behind
      does not wrap to one less than 2^31 ahead. */
  predicate TakenExactly(granted: nat, limit: nat) {
    if granted >= limit then granted - limit < SEQ_SPAN / 2
    else (granted - limit) % SEQ_SPAN == 0 || (granted - limit) % SEQ_SPAN >= SEQ_SPAN / 2
  }

  lemma RaiseIsExact(granted: nat, limit: nat)
    ensures limit + Raise(granted % SEQ_SPAN, limit) == Max(limit, granted) <==> TakenExactly(granted, limit)
  {
    LowDifference(granted, limit);
    var d := granted - limit;
    assert d == SEQ_SPAN * (d / SEQ_SPAN) + d % SEQ_SPAN;
  }

  /** Whatever a limit less than 2^31 behind raises the sender's to is at most the larger of the two, however far ahead
      it is. */
  lemma RaiseIsWithin(granted: nat, limit: nat)
    requires limit <= granted + SEQ_SPAN / 2
    ensures limit + Raise(granted % SEQ_SPAN, limit) <= Max(limit, granted)
  {
    LowDifference(granted, limit);
  }

  lemma LowDifference(a: nat, b: nat)
    ensures (a % SEQ_SPAN - b) % SEQ_SPAN == (a - b) % SEQ_SPAN
  {
    var k := a / SEQ_SPAN;
    assert a == k * SEQ_SPAN + a % SEQ_SPAN;
  }

  /** What was sent, and the limits the peer granted. `cap`: the largest window it grants. `raised`: a limit rose past the
      one assumed at first. */
  datatype Spending = Spending(sentBytes: nat, sentMessages: nat, limitBytes: nat, limitMessages: nat, cap: nat,
                               raised: bool)
  {
    predicate OutOfCredit() { limitBytes <= sentBytes || limitMessages <= sentMessages }

    function FitReplay(window: nat): Spending {
      var to := Min(WINDOW_MAX, window);
      this.(cap := to, limitBytes := if raised then limitBytes else Min(WINDOW_INITIAL, to))
    }

    function Send(bytes: nat): Spending {
      this.(sentBytes := sentBytes + bytes, sentMessages := sentMessages + 1)
    }

    function TakeByteLimit(bits: nat): Spending {
      var raise := Raise(bits, limitBytes);
      if raise == 0 then this else this.(limitBytes := limitBytes + raise, raised := true)
    }

    function TakeMessageLimit(bits: nat): Spending {
      this.(limitMessages := limitMessages + Raise(bits, limitMessages))
    }
  }

  const NEW_SPENDING := Spending(0, 0, WINDOW_INITIAL, MSG_WINDOW_INITIAL, WINDOW_MAX, false)

  // ── The window's estimator ──

  datatype Decision = Grow | SampleTooSmall | WireBusy | WindowGrew | AtCap

  /** What a settled round decided on each axis; `NOT_SETTLED` where the answer settles none. */
  datatype Verdict = Verdict(bytes: Decision, msgs: Decision)

  const NOT_SETTLED := Verdict(SampleTooSmall, SampleTooSmall)

  /** A BDP_PING_ACK; `None` stands for no limit. */
  datatype PingAck = PingAck(probe: nat, backlog: Option<real>, pathRtt: Option<real>)

  /** What the wire shows as an ack comes: the waits of the round, the path's round trip if measured, and the bytes it
      delivered right before. */
  datatype Round = Round(now: real, roundWait: real, postWait: real, pathRtt: Option<real>, deliveredBefore: nat)

  function MaxReal(a: real, b: real): real { if a > b then a else b }

  function Ceil(x: real): int { -((-x).Floor) }

  /** `None` is no bound. */
  function Least(a: Option<real>, b: Option<real>): Option<real> {
    if a.None? then b else if b.None? then a else Some(if a.value < b.value then a.value else b.value)
  }

  datatype Estimator = Estimator(
    window: nat, cap: nat, beforeRaise: nat, bytesAtPing: nat, bytesReceived: nat,
    msgWindow: nat, msgsAtPing: nat, msgsReceived: nat, msgBeforeGrowth: nat,
    probes: nat, ping: nat, inFlight: bool, attachProbes: seq<nat>,
    boundRtt: Option<real>, lastPingAt: Option<real>, pingWait: real,
    grownWindow: nat, grewSincePing: bool, followsGrowth: bool, interval: nat)
  {
    predicate PingDue(now: real) {
      && !inFlight && !(window >= cap && msgWindow >= MSG_WINDOW_MAX)
      && (lastPingAt.None? || now - lastPingAt.value >= interval as real)
    }

    function SendPing(now: real, wait: real): Estimator {
      var next := (probes + 1) % SEQ_SPAN;
      this.(probes := next, ping := next, inFlight := true, lastPingAt := Some(now), pingWait := wait,
            followsGrowth := grewSincePing, grewSincePing := false, bytesAtPing := bytesReceived,
            msgsAtPing := msgsReceived)
    }

    /** The round's counts start before the frame that opens it. */
    function OnReceive(bytes: nat, now: real, wait: real): Estimator {
      var e := if PingDue(now) then SendPing(now, wait) else this;
      e.(bytesReceived := e.bytesReceived + bytes, msgsReceived := e.msgsReceived + 1)
    }

    /** A probe that goes out with an attach, numbered as pings are. */
    function ProbeAttach(stale: set<nat>): Estimator {
      var next := (probes + 1) % SEQ_SPAN;
      this.(probes := next, attachProbes := Dropped(attachProbes, stale) + [next])
    }

    predicate Settles(ack: PingAck) {
      ack.probe !in attachProbes && inFlight && ack.probe == ping
    }

    function Rtt(round: Round): real {
      if lastPingAt.Some? then MaxReal(0.0, round.now - lastPingAt.value) else 0.0
    }

    predicate Starved(ack: PingAck) {
      ack.backlog.Some? && ack.backlog.value * 8.0 < window as real
    }

    /** This round, less its wait, bounds the round trip where shorter, or where no queue held it. */
    function BoundBy(ack: PingAck, round: Round): Option<real> {
      var received := bytesReceived - bytesAtPing;
      var roundRtt := MaxReal(1.0, Rtt(round) - pingWait);
      if Starved(ack) && received * 3 >= window * 2 && round.deliveredBefore * 16 < received then Some(roundRtt)
      else if boundRtt.Some? && roundRtt < boundRtt.value then Some(roundRtt)
      else boundRtt
    }

    function PathRtt(ack: PingAck, round: Round): Option<real> {
      var path, bound := Least(round.pathRtt, ack.pathRtt), BoundBy(ack, round);
      if bound.None? then path
      else Some(if path.Some? then MaxReal(path.value, bound.value) else bound.value)
    }

    /** How much of what arrived in the round counts for one round trip of the path. */
    function Share(ack: PingAck, round: Round): real {
      var path, rtt := PathRtt(ack, round), Rtt(round);
      if path.Some? && 0.0 <= path.value + round.roundWait + round.postWait < rtt
      then (path.value + round.roundWait + round.postWait) / rtt
      else 1.0
    }

    function ByteSample(ack: PingAck, round: Round): real {
      (bytesReceived - bytesAtPing) as real * Share(ack, round)
    }

    function ByteDecision(sample: real, measured: bool, starved: bool): Decision {
      if window >= cap then AtCap
      else if sample * 3.0 < window as real * 2.0 then SampleTooSmall
      else if measured then Grow
      else if followsGrowth then WindowGrew
      else if starved then Grow
      else WireBusy
    }

    function MsgDecision(sample: int, starved: bool): Decision {
      if msgWindow >= MSG_WINDOW_MAX then AtCap
      else
        var against := if starved && msgBeforeGrowth != 0 then msgBeforeGrowth else msgWindow;
        if sample * 3 < against * 2 then SampleTooSmall else Grow
    }

    function Decide(ack: PingAck, round: Round): Verdict {
      Verdict(ByteDecision(ByteSample(ack, round), PathRtt(ack, round).Some?, Starved(ack)),
              MsgDecision(msgsReceived - msgsAtPing, Starved(ack)))
    }

    function Paced(v: Verdict): nat {
      if v.bytes.Grow? || v.msgs.Grow? then PING_MIN_MS
      else if v.bytes.WindowGrew? then interval
      else Min(PING_MAX_MS, interval * 2)
    }

    /** What the next growth takes the window to, 0 where it doubles. */
    function GrownWindow(ack: PingAck, round: Round): nat {
      if Decide(ack, round).bytes.Grow? && round.roundWait > 0.0
      then Min(2 * window, Max(window, Ceil(1.5 * ByteSample(ack, round))))
      else 0
    }

    function Settle(ack: PingAck, round: Round): Estimator {
      this.(inFlight := false, boundRtt := BoundBy(ack, round), msgBeforeGrowth := 0,
            grownWindow := GrownWindow(ack, round), interval := Paced(Decide(ack, round)))
    }

    /** Only the answer to the ping in flight settles a round; one to an attach's probe settles that. */
    function OnPingAck(ack: PingAck, round: Round): (Estimator, Verdict) {
      if ack.probe in attachProbes then (this.(attachProbes := Dropped(attachProbes, {ack.probe})), NOT_SETTLED)
      else if !inFlight || ack.probe != ping then (this, NOT_SETTLED)
      else (Settle(ack, round), Decide(ack, round))
    }

    function GrowBytes(): Estimator {
      this.(window := Min(cap, if grownWindow != 0 then grownWindow else window * 2), grownWindow := 0,
            grewSincePing := true, beforeRaise := 0)
    }

    function GrowMsgs(): Estimator {
      this.(msgBeforeGrowth := msgWindow, msgWindow := Min(MSG_WINDOW_MAX, msgWindow * 2))
    }

    function RaiseWindow(bytes: nat): Estimator {
      var to := Min(cap, bytes);
      if to <= window then this
      else this.(beforeRaise := if beforeRaise == 0 then window else beforeRaise, window := to, grewSincePing := true)
    }

    function UndoRaise(): Estimator {
      if beforeRaise == 0 then this else this.(window := Min(cap, beforeRaise), beforeRaise := 0)
    }

    function CapWindow(bytes: nat): Estimator {
      var to := Min(WINDOW_MAX, bytes);
      this.(cap := to, window := Min(window, to))
    }

    function Reset(): Estimator {
      this.(inFlight := false, boundRtt := None, msgBeforeGrowth := 0, bytesAtPing := bytesReceived,
            msgsAtPing := msgsReceived)
    }

    /** Windows within their bounds, counts in order, and the interval within its own. */
    predicate Sound() {
      && 1 <= window <= cap <= WINDOW_MAX && MSG_WINDOW_INITIAL <= msgWindow <= MSG_WINDOW_MAX
      && bytesAtPing <= bytesReceived && msgsAtPing <= msgsReceived
      && PING_MIN_MS <= interval <= PING_MAX_MS && msgBeforeGrowth <= msgWindow
    }
  }

  function Dropped(q: seq<nat>, dropped: set<nat>): seq<nat> {
    if q == [] then [] else (if q[0] in dropped then [] else [q[0]]) + Dropped(q[1..], dropped)
  }

  const NEW_ESTIMATOR := Estimator(WINDOW_INITIAL, WINDOW_MAX, 0, 0, 0, MSG_WINDOW_INITIAL, 0, 0, 0, 0, 0, false, [],
                                   None, None, 0.0, 0, false, false, PING_MIN_MS)
}
