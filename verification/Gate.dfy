/** What a page's channels send, as values: held while sends are held back, waiting for headroom, or pushed to their
    channel's replay as they go out. Each step is followed on one channel's lane, where order is kept. */
module Gates {
  import opened Bytes
  import opened Tags
  import opened Replays

  /** A closed channel stays listed till it is released. */
  datatype ChannelState =
    | Pending(initial: bool)
    | Open
    | Closed(initial: bool, delivered: bool, reported: bool)

  /** A channel the connection carries. `lastSeq` is the newest seq the server sent on it; `awaited` holds what it
      queues till its ATTACH_RESULT. */
  datatype Record = Record(state: ChannelState, replay: Replay, lastSeq: nat, awaited: bool)

  type Records = map<nat, Record>

  /** A frame of channel `ix`, with its seq if it has one. */
  datatype Buffered = Buffered(frame: Frame, ix: nat, seqNo: Option<nat>) {
    predicate Numbered() { seqNo.Some? && Sequenced(frame) }
  }

  /** `buffer`: held in order. `waiting`: only for headroom, in order. `dropped`: channels whose frames go at the next
      read. */
  datatype Gate = Gate(buffer: seq<Buffered>, waiting: seq<Buffered>, dropped: set<nat>)

  /** What a step leaves, and the frames it let go, in order. */
  datatype Outcome = Outcome(gate: Gate, records: Records, out: seq<Buffered>)

  // ── Steps ──

  function Without(q: seq<Buffered>, dropped: set<nat>): seq<Buffered> {
    if q == [] then []
    else (if q[0].ix in dropped then [] else [q[0]]) + Without(q[1..], dropped)
  }

  function DropQueues(g: Gate): Gate {
    if g.dropped == {} then g else Gate(Without(g.buffer, g.dropped), Without(g.waiting, g.dropped), {})
  }

  /** While sends are held back, what waited for headroom moves ahead of what is held. */
  function Settle(g: Gate, sendsOpen: bool): Gate {
    var d := DropQueues(g);
    if sendsOpen then d else Gate(d.waiting + d.buffer, [], {})
  }

  function DropQueue(g: Gate, ix: nat): Gate {
    if g.buffer == [] && g.waiting == [] then g else g.(dropped := g.dropped + {ix})
  }

  function PushFor(records: Records, e: Buffered): Records {
    if e.ix in records && e.Numbered()
    then records[e.ix := records[e.ix].(replay := records[e.ix].replay.Push(e.seqNo.value, e.frame))]
    else records
  }

  function PushEach(records: Records, q: seq<Buffered>): Records {
    if q == [] then records else PushEach(PushFor(records, q[0]), q[1..])
  }

  /** How many of `q` go from its front while there is headroom. */
  function Going(q: seq<Buffered>, headroom: int): (n: nat)
    ensures n <= |q|
  {
    if q == [] || headroom <= 0 then 0 else 1 + Going(q[1..], headroom - |q[0].frame|)
  }

  function SendWaiting(g: Gate, records: Records, headroom: int): Outcome {
    if g.waiting == [] then Outcome(g, records, [])
    else
      var d := DropQueues(g);
      var n := Going(d.waiting, headroom);
      Outcome(d.(waiting := d.waiting[n..]), PushEach(records, d.waiting[..n]), d.waiting[..n])
  }

  predicate CanSend(records: Records, ix: nat, sendsOpen: bool)
    requires ix in records
  {
    sendsOpen && !records[ix].awaited
  }

  function Hold(g: Gate, records: Records, e: Buffered, sendsOpen: bool): Outcome {
    var s := Settle(g, sendsOpen);
    Outcome(s.(buffer := s.buffer + [e]), records, [])
  }

  /** After what waited, it goes if there is headroom left, or waits for it. */
  function SendAfter(w: Outcome, e: Buffered, headroom: int): Outcome {
    if w.gate.waiting == [] && headroom > 0
    then Outcome(w.gate, PushFor(w.records, e), w.out + [e])
    else w.(gate := w.gate.(waiting := w.gate.waiting + [e]))
  }

  /** `headroom` is read before what waits goes, `after` once it went. */
  function Send(g: Gate, records: Records, e: Buffered, sendsOpen: bool, headroom: int, after: int): Outcome
    requires e.ix in records
  {
    if CanSend(records, e.ix, sendsOpen) then SendAfter(SendWaiting(g, records, headroom), e, after)
    else Hold(g, records, e, sendsOpen)
  }

  /** The owner's and the transport's state as a send reads it (see `Send`). */
  datatype Sending = Sending(sendsOpen: bool, headroom: int, after: int)

  /** `frame` takes channel `ix`'s next seq and is sent. */
  function IssueAndSend(g: Gate, records: Records, ix: nat, frame: Frame, s: Sending): Outcome
    requires ix in records
  {
    var replay := records[ix].replay.NextSeq();
    Send(g, records[ix := records[ix].(replay := replay)], Buffered(frame, ix, Some(replay.issued)), s.sendsOpen,
         s.headroom, s.after)
  }

  function SendUnsequenced(g: Gate, records: Records, e: Buffered, sendsOpen: bool): Outcome
    requires e.ix in records
  {
    if CanSend(records, e.ix, sendsOpen) then Outcome(g, records, [e]) else Hold(g, records, e, sendsOpen)
  }

  /** A WINDOW's or MSG_WINDOW's channel and tag. */
  function LimitKey(e: Buffered): Option<(nat, byte)> {
    if e.frame[0] == WINDOW || e.frame[0] == MSG_WINDOW then Some((e.ix, e.frame[0])) else None
  }

  /** A later limit of the same channel and tag replaces it. */
  predicate Superseded(buffer: seq<Buffered>, i: nat)
    requires i < |buffer|
  {
    LimitKey(buffer[i]).Some? && exists j | i < j < |buffer| :: LimitKey(buffer[j]) == LimitKey(buffer[i])
  }

  /** What is done with one held entry, in turn. */
  datatype Draining = Draining(kept: seq<Buffered>, waiting: seq<Buffered>, headroom: int, records: Records,
                               out: seq<Buffered>)
  {
    function Take(e: Buffered, releasable: bool, superseded: bool): Draining {
      if !releasable then this.(kept := kept + [e])
      else if superseded then this
      else if !e.Numbered() then this.(out := out + [e])
      else if headroom <= 0 || waiting != [] then this.(waiting := waiting + [e])
      else Draining(kept, waiting, headroom - |e.frame|, PushFor(records, e), out + [e])
    }
  }

  /** The first `n` held entries drained. */
  function DrainFirst(buffer: seq<Buffered>, n: nat, releasable: set<nat>, from: Draining): Draining
    requires n <= |buffer|
  {
    if n == 0 then from
    else
      var d := DrainFirst(buffer, n - 1, releasable, from);
      d.Take(buffer[n - 1], buffer[n - 1].ix in releasable, Superseded(buffer, n - 1))
  }

  /** Takes out what `releasable` channels held; past the headroom, sequenced frames join those waiting for it. */
  function Drain(g: Gate, records: Records, releasable: set<nat>, sendsOpen: bool, headroom: int): Outcome {
    var s := Settle(g, sendsOpen);
    var d := DrainFirst(s.buffer, |s.buffer|, releasable, Draining([], s.waiting, headroom, records, []));
    Outcome(Gate(d.kept, d.waiting, {}), d.records, d.out)
  }

  predicate IsSubscription(e: Buffered, subscribing: set<nat>) {
    e.ix in subscribing && (e.frame[0] == BROADCAST_SUB || e.frame[0] == BROADCAST_UNSUB)
  }

  function WithoutSubscriptions(q: seq<Buffered>, subscribing: set<nat>): seq<Buffered> {
    if q == [] then []
    else (if IsSubscription(q[0], subscribing) then [] else [q[0]]) + WithoutSubscriptions(q[1..], subscribing)
  }

  /** Drops the subscription frames a RECONCILE's declarations supersede. */
  function DropSubscriptions(g: Gate, subscribing: set<nat>, sendsOpen: bool): Gate {
    var s := Settle(g, sendsOpen);
    s.(buffer := WithoutSubscriptions(s.buffer, subscribing))
  }

  function Unawaited(records: Records): set<nat> {
    set ix | ix in records && !records[ix].awaited
  }

  /** `carried` with the first seq each sendable channel holds, where it has none yet. */
  function Carries(q: seq<Buffered>, sendable: set<nat>, carried: map<nat, nat>): map<nat, nat> {
    if q == [] then carried
    else
      Carries(q[1..], sendable, if q[0].Numbered() && q[0].ix in sendable && q[0].ix !in carried
                                then carried[q[0].ix := q[0].seqNo.value]
                                else carried)
  }

  // ── One channel's lane ──

  /** A channel's replay, and its sequenced frames waiting for headroom and held. */
  datatype Lane = Lane(replay: Replay, waiting: seq<Entry>, held: seq<Entry>) {
    function Queue(): seq<Entry> { waiting + held }
  }

  /** Channel `ix`'s sequenced entries of `q`, in order. */
  function Of(q: seq<Buffered>, ix: nat): seq<Entry> {
    if q == [] then []
    else
      (if q[0].ix == ix && q[0].Numbered() then [Entry(q[0].seqNo.value, q[0].frame)] else []) + Of(q[1..], ix)
  }

  /** What the next read finds of channel `ix`. */
  function LaneOf(g: Gate, records: Records, ix: nat): Lane
    requires ix in records
  {
    if ix in g.dropped then Lane(records[ix].replay, [], [])
    else Lane(records[ix].replay, Of(g.waiting, ix), Of(g.buffer, ix))
  }

  predicate AllSequenced(q: seq<Entry>) {
    forall i | 0 <= i < |q| :: Sequenced(q[i].frame)
  }

  function PushAll(r: Replay, q: seq<Entry>): Replay
    requires AllSequenced(q)
    decreases |q|
  {
    if q == [] then r else PushAll(r.Push(q[0].seqNo, q[0].frame), q[1..])
  }

  /** `out` went, pushed to the replay, and the rest stays queued, in the same order. */
  predicate Moves(lane: Lane, out: seq<Entry>, to: Lane) {
    && out + to.Queue() == lane.Queue()
    && AllSequenced(out) && to.replay == PushAll(lane.replay, out)
  }

  // ── Projection ──

  lemma {:induction false} OfSequenced(q: seq<Buffered>, ix: nat)
    ensures AllSequenced(Of(q, ix))
  {
    if q != [] {
      OfSequenced(q[1..], ix);
    }
  }

  lemma {:induction false} OfAppend(a: seq<Buffered>, b: seq<Buffered>, ix: nat)
    ensures Of(a + b, ix) == Of(a, ix) + Of(b, ix)
  {
    if a == [] {
      assert a + b == b;
    } else {
      assert (a + b)[1..] == a[1..] + b;
      OfAppend(a[1..], b, ix);
    }
  }

  /** A frame is one lane's, or none's. */
  lemma OfOne(e: Buffered, ix: nat)
    ensures Of([e], ix) == if e.ix == ix && e.Numbered() then [Entry(e.seqNo.value, e.frame)] else []
  {
    assert [e][1..] == [];
  }

  lemma {:induction false} OfWithout(q: seq<Buffered>, dropped: set<nat>, ix: nat)
    ensures Of(Without(q, dropped), ix) == if ix in dropped then [] else Of(q, ix)
  {
    if q != [] {
      OfWithout(q[1..], dropped, ix);
      OfAppend(if q[0].ix in dropped then [] else [q[0]], Without(q[1..], dropped), ix);
      OfOne(q[0], ix);
    }
  }

  lemma {:induction false} OfWithoutSubscriptions(q: seq<Buffered>, subscribing: set<nat>, ix: nat)
    ensures Of(WithoutSubscriptions(q, subscribing), ix) == Of(q, ix)
  {
    if q != [] {
      OfWithoutSubscriptions(q[1..], subscribing, ix);
      OfAppend(if IsSubscription(q[0], subscribing) then [] else [q[0]], WithoutSubscriptions(q[1..], subscribing), ix);
      OfOne(q[0], ix);
    }
  }

  lemma DropQueuesOf(g: Gate, records: Records, ix: nat)
    requires ix in records
    ensures LaneOf(DropQueues(g), records, ix) == LaneOf(g, records, ix)
  {
    OfWithout(g.buffer, g.dropped, ix);
    OfWithout(g.waiting, g.dropped, ix);
  }

  lemma SettleOf(g: Gate, records: Records, sendsOpen: bool, ix: nat)
    requires ix in records
    ensures var lane, to := LaneOf(g, records, ix), LaneOf(Settle(g, sendsOpen), records, ix);
            to == if sendsOpen then lane else Lane(lane.replay, [], lane.Queue())
  {
    DropQueuesOf(g, records, ix);
    var d := DropQueues(g);
    OfAppend(d.waiting, d.buffer, ix);
  }

  lemma {:induction false} PushEachOf(records: Records, q: seq<Buffered>, ix: nat)
    requires ix in records
    ensures AllSequenced(Of(q, ix))
    ensures ix in PushEach(records, q)
    ensures PushEach(records, q)[ix] == records[ix].(replay := PushAll(records[ix].replay, Of(q, ix)))
    decreases |q|
  {
    OfSequenced(q, ix);
    if q != [] {
      var rest := Of(q[1..], ix);
      PushEachOf(PushFor(records, q[0]), q[1..], ix);
      if q[0].ix == ix && q[0].Numbered() {
        PushFirst(records[ix].replay, Entry(q[0].seqNo.value, q[0].frame), rest);
      } else {
        assert Of(q, ix) == [] + rest == rest;
      }
    }
  }

  lemma PushFirst(r: Replay, e: Entry, rest: seq<Entry>)
    requires AllSequenced([e] + rest) && AllSequenced(rest)
    ensures PushAll(r, [e] + rest) == PushAll(PushAll(r, [e]), rest)
    ensures PushAll(r, [e]) == r.Push(e.seqNo, e.frame)
  {
    assert Sequenced(([e] + rest)[0].frame);
    assert ([e] + rest)[1..] == rest;
    assert [e][1..] == [];
  }

  lemma {:induction false} PushAllAppend(r: Replay, a: seq<Entry>, b: seq<Entry>)
    requires AllSequenced(a) && AllSequenced(b)
    ensures AllSequenced(a + b) && PushAll(r, a + b) == PushAll(PushAll(r, a), b)
    decreases |a|
  {
    if a == [] {
      assert a + b == b;
    } else {
      assert (a + b)[1..] == a[1..] + b;
      PushAllAppend(r.Push(a[0].seqNo, a[0].frame), a[1..], b);
    }
  }

  lemma Assoc<T>(a: seq<T>, b: seq<T>, c: seq<T>)
    ensures (a + b) + c == a + (b + c)
  {
  }

  lemma MovesStill(lane: Lane, to: Lane)
    requires to.replay == lane.replay && to.Queue() == lane.Queue()
    ensures Moves(lane, [], to)
  {
    assert [] + to.Queue() == to.Queue();
  }

  /** The first waiting frames go, pushed to their replay. */
  lemma FrontMoves(lane: Lane, front: seq<Entry>, to: Lane)
    requires AllSequenced(front) && front <= lane.waiting
    requires to == Lane(PushAll(lane.replay, front), lane.waiting[|front|..], lane.held)
    ensures Moves(lane, front, to)
  {
    assert lane.waiting == front + to.waiting;
    Assoc(front, to.waiting, lane.held);
  }

  lemma SplitOf(q: seq<Buffered>, k: nat, ix: nat)
    requires k <= |q|
    ensures Of(q[..k], ix) <= Of(q, ix) && Of(q[k..], ix) == Of(q, ix)[|Of(q[..k], ix)|..]
  {
    OfAppend(q[..k], q[k..], ix);
    assert q == q[..k] + q[k..];
  }

  /** With no queue to drop. */
  lemma FrontOf(d: Gate, records: Records, k: nat, ix: nat)
    requires ix in records && d.dropped == {} && k <= |d.waiting|
    ensures AllSequenced(Of(d.waiting[..k], ix))
    ensures var lane, to := LaneOf(d, records, ix), PushEach(records, d.waiting[..k]);
            && ix in to && to[ix] == records[ix].(replay := to[ix].replay)
            && Moves(lane, Of(d.waiting[..k], ix), LaneOf(d.(waiting := d.waiting[k..]), to, ix))
            && LaneOf(d.(waiting := d.waiting[k..]), to, ix).held == lane.held
  {
    PushEachOf(records, d.waiting[..k], ix);
    SplitOf(d.waiting, k, ix);
    FrontMoves(LaneOf(d, records, ix), Of(d.waiting[..k], ix),
               LaneOf(d.(waiting := d.waiting[k..]), PushEach(records, d.waiting[..k]), ix));
  }

  /** Some of the channel's waiting frames, from the first, go as there is headroom. */
  lemma SendWaitingOf(g: Gate, records: Records, headroom: int, ix: nat)
    requires ix in records
    ensures var w := SendWaiting(g, records, headroom);
            && ix in w.records && Moves(LaneOf(g, records, ix), Of(w.out, ix), LaneOf(w.gate, w.records, ix))
            && LaneOf(w.gate, w.records, ix).held == LaneOf(g, records, ix).held
            && w.records[ix] == records[ix].(replay := w.records[ix].replay)
  {
    if g.waiting == [] {
      MovesStill(LaneOf(g, records, ix), LaneOf(g, records, ix));
    } else {
      DropQueuesOf(g, records, ix);
      var d := DropQueues(g);
      FrontOf(d, records, Going(d.waiting, headroom), ix);
    }
  }

  lemma GoesOf(w: Outcome, e: Buffered, ix: nat)
    requires ix in w.records && w.gate.waiting == [] && LaneOf(w.gate, w.records, ix).held == []
    requires e.Numbered() && e.ix == ix
    ensures var records, lane := PushFor(w.records, e), LaneOf(w.gate, w.records, ix);
            Moves(Joined(lane, e, ix), Of([e], ix), LaneOf(w.gate, records, ix))
  {
    var lane := LaneOf(w.gate, w.records, ix);
    OfOne(e, ix);
    PushEachOf(w.records, [e], ix);
    assert PushEach(w.records, [e]) == PushFor(w.records, e) by { assert [e][1..] == []; }
    assert lane.waiting == [];
    var one := Of([e], ix);
    assert one + [] == one && [] + one == one;
  }

  lemma WaitsOf(g: Gate, records: Records, e: Buffered, ix: nat)
    requires ix in records && e.ix !in g.dropped && (e.ix == ix ==> LaneOf(g, records, ix).held == [])
    ensures var lane, to := LaneOf(g, records, ix), LaneOf(g.(waiting := g.waiting + [e]), records, ix);
            Moves(Joined(lane, e, ix), [], to) && to.held == lane.held
  {
    var lane, to := LaneOf(g, records, ix), LaneOf(g.(waiting := g.waiting + [e]), records, ix);
    OfOne(e, ix);
    OfAppend(g.waiting, [e], ix);
    var mine := Of([e], ix);
    if e.ix == ix {
      assert (lane.waiting + mine) + [] == lane.waiting + ([] + mine);
    }
    assert to.Queue() == Joined(lane, e, ix).Queue();
    MovesStill(Joined(lane, e, ix), to);
  }

  /** The frame joins its channel's queue: it is the last, and stays last unless it goes too. */
  lemma SendAfterOf(w: Outcome, e: Buffered, headroom: int, ix: nat) returns (more: seq<Buffered>)
    requires ix in w.records && e.ix in w.records && e.Numbered() && e.ix !in w.gate.dropped
    requires e.ix == ix ==> LaneOf(w.gate, w.records, ix).held == []
    ensures var s := SendAfter(w, e, headroom);
            && ix in s.records && s.out == w.out + more
            && Moves(Joined(LaneOf(w.gate, w.records, ix), e, ix), Of(more, ix), LaneOf(s.gate, s.records, ix))
            && LaneOf(s.gate, s.records, ix).held == LaneOf(w.gate, w.records, ix).held
            && s.records[ix] == w.records[ix].(replay := s.records[ix].replay)
  {
    if w.gate.waiting == [] && headroom > 0 {
      more := [e];
      if e.ix == ix {
        GoesOf(w, e, ix);
      } else {
        OfOne(e, ix);
        MovesStill(LaneOf(w.gate, w.records, ix), LaneOf(w.gate, w.records, ix));
      }
    } else {
      more := [];
      WaitsOf(w.gate, w.records, e, ix);
    }
  }

  /** A lane once `e` was handed to its channel. */
  function Joined(lane: Lane, e: Buffered, ix: nat): Lane {
    if e.ix == ix && e.Numbered() then lane.(held := lane.held + [Entry(e.seqNo.value, e.frame)]) else lane
  }

  lemma MovesTwice(lane: Lane, out: seq<Entry>, mid: Lane, e: Buffered, ix: nat, more: seq<Entry>, to: Lane)
    requires Moves(lane, out, mid) && Moves(Joined(mid, e, ix), more, to) && mid.held == lane.held
    ensures Moves(Joined(lane, e, ix), out + more, to)
  {
    PushAllAppend(lane.replay, out, more);
    var add := Joined(lane, e, ix).held[|lane.held|..];
    assert Joined(lane, e, ix).Queue() == lane.Queue() + add;
    assert Joined(mid, e, ix).Queue() == mid.Queue() + add;
    assert (out + more) + to.Queue() == out + (more + to.Queue());
    assert out + (mid.Queue() + add) == (out + mid.Queue()) + add;
  }

  lemma HoldOf(g: Gate, records: Records, e: Buffered, sendsOpen: bool, ix: nat)
    requires ix in records && e.ix !in g.dropped
    ensures var s := Hold(g, records, e, sendsOpen);
            && Moves(Joined(LaneOf(g, records, ix), e, ix), [], LaneOf(s.gate, s.records, ix))
            && (sendsOpen && e.ix != ix ==> LaneOf(s.gate, s.records, ix).held == LaneOf(g, records, ix).held)
  {
    var lane, s := LaneOf(g, records, ix), Settle(g, sendsOpen);
    SettleOf(g, records, sendsOpen, ix);
    OfAppend(s.buffer, [e], ix);
    OfOne(e, ix);
    var add := Of([e], ix);
    assert Joined(lane, e, ix).Queue() == lane.Queue() + add;
    assert LaneOf(s, records, ix).Queue() + add == lane.Queue() + add;
    MovesStill(Joined(lane, e, ix), LaneOf(s.(buffer := s.buffer + [e]), records, ix));
  }

  /** A frame sent joins its channel's queue, last; what goes goes from the front, and no other channel's order changes.
      A channel whose frames may go at once has none held. */
  lemma SendOf(g: Gate, records: Records, e: Buffered, sendsOpen: bool, headroom: int, after: int, ix: nat)
    requires e.ix in records && ix in records && e.Numbered() && e.ix !in g.dropped
    requires e.ix == ix && CanSend(records, ix, sendsOpen) ==> LaneOf(g, records, ix).held == []
    ensures var s, lane := Send(g, records, e, sendsOpen, headroom, after), LaneOf(g, records, ix);
            && ix in s.records && Moves(Joined(lane, e, ix), Of(s.out, ix), LaneOf(s.gate, s.records, ix))
            && s.records[ix] == records[ix].(replay := s.records[ix].replay)
            && (CanSend(records, ix, sendsOpen) && lane.held == [] ==> LaneOf(s.gate, s.records, ix).held == [])
  {
    if CanSend(records, e.ix, sendsOpen) {
      var lane, w := LaneOf(g, records, ix), SendWaiting(g, records, headroom);
      SendWaitingOf(g, records, headroom, ix);
      SendWaitingOf(g, records, headroom, e.ix);
      var more := SendAfterOf(w, e, after, ix);
      var s := SendAfter(w, e, after);
      MovesTwice(lane, Of(w.out, ix), LaneOf(w.gate, w.records, ix), e, ix, Of(more, ix),
                 LaneOf(s.gate, s.records, ix));
      OfAppend(w.out, more, ix);
    } else {
      HoldOf(g, records, e, sendsOpen, ix);
    }
  }

  /** One held entry's turn: another channel's lane is as it was, and a releasable one's entry goes behind what waits. */
  lemma TakeOf(d: Draining, e: Buffered, releasable: set<nat>, superseded: bool, ix: nat)
    requires superseded ==> !e.Numbered()
    ensures var t, mine := d.Take(e, e.ix in releasable, superseded), Of([e], ix);
            && Of(t.kept, ix) == Of(d.kept, ix) + (if ix in releasable then [] else mine)
            && Of(t.out, ix) + Of(t.waiting, ix)
               == (Of(d.out, ix) + Of(d.waiting, ix)) + (if ix in releasable then mine else [])
  {
    var out, waiting, kept, mine := Of(d.out, ix), Of(d.waiting, ix), Of(d.kept, ix), Of([e], ix);
    OfOne(e, ix);
    OfAppend(d.kept, [e], ix);
    OfAppend(d.out, [e], ix);
    OfAppend(d.waiting, [e], ix);
    assert kept + [] == kept && out + [] == out && (out + waiting) + [] == out + waiting;
    Assoc(out, waiting, mine);
    if d.waiting == [] {
      assert (out + mine) + waiting == (out + waiting) + mine;
    }
  }

  lemma TakePushes(d: Draining, e: Buffered, releasable: bool, superseded: bool, replay: Replay, ix: nat)
    requires ix in d.records && AllSequenced(Of(d.out, ix)) && (superseded ==> !e.Numbered())
    requires d.records[ix].replay == PushAll(replay, Of(d.out, ix))
    ensures var t := d.Take(e, releasable, superseded);
            && ix in t.records && AllSequenced(Of(t.out, ix))
            && t.records[ix] == d.records[ix].(replay := PushAll(replay, Of(t.out, ix)))
  {
    var t := d.Take(e, releasable, superseded);
    OfOne(e, ix);
    if t.out != d.out {
      assert t.out == d.out + [e];
      OfAppend(d.out, [e], ix);
      PushEachOf(d.records, [e], ix);
      assert PushEach(d.records, [e]) == PushFor(d.records, e) by { assert [e][1..] == []; }
      PushAllAppend(replay, Of(d.out, ix), Of([e], ix));
    }
  }

  lemma {:induction false} DrainFirstPushes(buffer: seq<Buffered>, n: nat, releasable: set<nat>, from: Draining, ix: nat)
    requires n <= |buffer| && ix in from.records && from.out == []
    ensures var d := DrainFirst(buffer, n, releasable, from);
            && ix in d.records && AllSequenced(Of(d.out, ix))
            && d.records[ix] == from.records[ix].(replay := PushAll(from.records[ix].replay, Of(d.out, ix)))
  {
    if n > 0 {
      DrainFirstPushes(buffer, n - 1, releasable, from, ix);
      var d, e := DrainFirst(buffer, n - 1, releasable, from), buffer[n - 1];
      TakePushes(d, e, e.ix in releasable, Superseded(buffer, n - 1), from.records[ix].replay, ix);
    }
  }

  lemma {:induction false} DrainFirstKeeps(buffer: seq<Buffered>, n: nat, releasable: set<nat>, from: Draining, ix: nat)
    requires n <= |buffer| && from.kept == []
    ensures Of(DrainFirst(buffer, n, releasable, from).kept, ix)
            == if ix in releasable then [] else Of(buffer[..n], ix)
  {
    if n > 0 {
      DrainFirstKeeps(buffer, n - 1, releasable, from, ix);
      var d, e := DrainFirst(buffer, n - 1, releasable, from), buffer[n - 1];
      TakeKeeps(d, e, releasable, Superseded(buffer, n - 1), ix);
      LastOf(buffer, n, ix);
    }
  }

  lemma LastOf(buffer: seq<Buffered>, n: nat, ix: nat)
    requires 0 < n <= |buffer|
    ensures Of(buffer[..n], ix) == Of(buffer[..n - 1], ix) + Of([buffer[n - 1]], ix)
  {
    assert buffer[..n] == buffer[..n - 1] + [buffer[n - 1]];
    OfAppend(buffer[..n - 1], [buffer[n - 1]], ix);
  }

  lemma TakeKeeps(d: Draining, e: Buffered, releasable: set<nat>, superseded: bool, ix: nat)
    requires superseded ==> !e.Numbered()
    ensures Of(d.Take(e, e.ix in releasable, superseded).kept, ix)
            == Of(d.kept, ix) + if ix in releasable then [] else Of([e], ix)
  {
    TakeOf(d, e, releasable, superseded, ix);
  }

  lemma {:induction false} DrainFirstOf(buffer: seq<Buffered>, n: nat, releasable: set<nat>, from: Draining, ix: nat)
    requires n <= |buffer| && from.out == []
    ensures var d := DrainFirst(buffer, n, releasable, from);
            Of(d.out, ix) + Of(d.waiting, ix)
            == Of(from.waiting, ix) + if ix in releasable then Of(buffer[..n], ix) else []
  {
    if n == 0 {
      assert buffer[..0] == [] && Of(from.out, ix) == [];
      assert [] + Of(from.waiting, ix) == Of(from.waiting, ix) + [];
    } else {
      DrainFirstOf(buffer, n - 1, releasable, from, ix);
      DrainOneOf(DrainFirst(buffer, n - 1, releasable, from), buffer, n - 1, releasable, Of(from.waiting, ix), ix);
    }
  }

  /** The next held entry joins what is out or waits, if its channel is releasable. */
  lemma DrainOneOf(d: Draining, buffer: seq<Buffered>, i: nat, releasable: set<nat>, waited: seq<Entry>, ix: nat)
    requires i < |buffer|
    requires Of(d.out, ix) + Of(d.waiting, ix) == waited + if ix in releasable then Of(buffer[..i], ix) else []
    ensures var t := d.Take(buffer[i], buffer[i].ix in releasable, Superseded(buffer, i));
            Of(t.out, ix) + Of(t.waiting, ix) == waited + if ix in releasable then Of(buffer[..i + 1], ix) else []
  {
    var e := buffer[i];
    TakeOf(d, e, releasable, Superseded(buffer, i), ix);
    assert buffer[..i + 1] == buffer[..i] + [e];
    OfAppend(buffer[..i], [e], ix);
    AppendIf(Of(d.out, ix) + Of(d.waiting, ix), waited, Of(buffer[..i], ix), Of([e], ix), ix in releasable);
  }

  lemma AppendIf<T>(sum: seq<T>, first: seq<T>, second: seq<T>, more: seq<T>, taken: bool)
    requires sum == first + if taken then second else []
    ensures sum + (if taken then more else []) == first + if taken then second + more else []
  {
    if taken {
      Assoc(first, second, more);
    } else {
      assert sum + [] == sum;
    }
  }

  /** A drain takes a releasable channel's held frames out, behind what waits, and no other's. */
  lemma DrainOf(g: Gate, records: Records, releasable: set<nat>, sendsOpen: bool, headroom: int, ix: nat)
    requires ix in records
    ensures var d, lane := Drain(g, records, releasable, sendsOpen, headroom), LaneOf(g, records, ix);
            && ix in d.records && Moves(lane, Of(d.out, ix), LaneOf(d.gate, d.records, ix))
            && d.records[ix] == records[ix].(replay := d.records[ix].replay)
            && (ix in releasable ==> LaneOf(d.gate, d.records, ix).held == [])
            && (sendsOpen && lane.held == [] ==> LaneOf(d.gate, d.records, ix).held == [])
  {
    var s := Settle(g, sendsOpen);
    SettleOf(g, records, sendsOpen, ix);
    var from := Draining([], s.waiting, headroom, records, []);
    DrainFirstPushes(s.buffer, |s.buffer|, releasable, from, ix);
    DrainFirstKeeps(s.buffer, |s.buffer|, releasable, from, ix);
    assert s.buffer[..|s.buffer|] == s.buffer;
    var d := Drain(g, records, releasable, sendsOpen, headroom);
    var to := LaneOf(d.gate, d.records, ix);
    DrainFirstOf(s.buffer, |s.buffer|, releasable, from, ix);
    DrainedQueue(Of(d.out, ix), to, Of(s.waiting, ix), Of(s.buffer, ix), ix in releasable);
  }

  lemma DrainedQueue(out: seq<Entry>, to: Lane, waiting: seq<Entry>, held: seq<Entry>, releasable: bool)
    requires out + to.waiting == waiting + if releasable then held else []
    requires to.held == if releasable then [] else held
    ensures out + to.Queue() == waiting + held
  {
    Assoc(out, to.waiting, to.held);
    if releasable {
      assert (waiting + held) + [] == waiting + held;
    } else {
      assert waiting + [] == waiting;
    }
  }

  // ── What no step changes ──

  /** The gate changes nothing of a record but its replay. */
  predicate OnlyReplays(records: Records, to: Records) {
    && to.Keys == records.Keys
    && forall ix <- records :: to[ix] == records[ix].(replay := to[ix].replay)
  }

  predicate AllUsed(q: seq<Buffered>, used: set<nat>) {
    forall i | 0 <= i < |q| :: q[i].ix in used
  }

  predicate GateUsed(g: Gate, used: set<nat>) {
    AllUsed(g.buffer, used) && AllUsed(g.waiting, used) && g.dropped <= used
  }

  /** What `o` let go and left queued are `used` channels', and none of those dropped on the way. */
  predicate OutcomeUsed(g: Gate, records: Records, o: Outcome, used: set<nat>) {
    && OnlyReplays(records, o.records) && AllUsed(o.out, used)
    && o.gate.dropped <= g.dropped && GateUsed(o.gate, used - (g.dropped - o.gate.dropped))
  }

  lemma {:induction false} PushEachOnly(records: Records, q: seq<Buffered>)
    ensures OnlyReplays(records, PushEach(records, q))
    decreases |q|
  {
    if q != [] {
      PushEachOnly(PushFor(records, q[0]), q[1..]);
    }
  }

  lemma {:induction false} DrainFirstOnly(buffer: seq<Buffered>, n: nat, releasable: set<nat>, from: Draining)
    requires n <= |buffer|
    ensures OnlyReplays(from.records, DrainFirst(buffer, n, releasable, from).records)
  {
    if n > 0 {
      DrainFirstOnly(buffer, n - 1, releasable, from);
    }
  }

  lemma {:induction false} WithoutUsed(q: seq<Buffered>, dropped: set<nat>, used: set<nat>)
    requires AllUsed(q, used)
    ensures AllUsed(Without(q, dropped), used - dropped)
  {
    if q != [] {
      assert q[0].ix in used && forall i | 0 <= i < |q[1..]| :: q[1..][i] == q[i + 1];
      WithoutUsed(q[1..], dropped, used);
    }
  }

  lemma {:induction false} WithoutSubscriptionsUsed(q: seq<Buffered>, subscribing: set<nat>, used: set<nat>)
    requires AllUsed(q, used)
    ensures AllUsed(WithoutSubscriptions(q, subscribing), used)
  {
    if q != [] {
      assert q[0].ix in used && forall i | 0 <= i < |q[1..]| :: q[1..][i] == q[i + 1];
      WithoutSubscriptionsUsed(q[1..], subscribing, used);
    }
  }

  lemma SettleUsed(g: Gate, sendsOpen: bool, used: set<nat>)
    requires GateUsed(g, used)
    ensures GateUsed(DropQueues(g), used - g.dropped) && GateUsed(Settle(g, sendsOpen), used - g.dropped)
    ensures Settle(g, sendsOpen).dropped == {}
  {
    WithoutUsed(g.buffer, g.dropped, used);
    WithoutUsed(g.waiting, g.dropped, used);
  }

  lemma SendWaitingUsed(g: Gate, records: Records, headroom: int, used: set<nat>)
    requires GateUsed(g, used)
    ensures OutcomeUsed(g, records, SendWaiting(g, records, headroom), used)
  {
    SettleUsed(g, true, used);
    var d := DropQueues(g);
    PushEachOnly(records, d.waiting[..Going(d.waiting, headroom)]);
  }

  lemma SendUsed(g: Gate, records: Records, e: Buffered, sendsOpen: bool, headroom: int, after: int, used: set<nat>)
    requires GateUsed(g, used) && e.ix in records && e.ix in used && e.ix !in g.dropped
    ensures OutcomeUsed(g, records, Send(g, records, e, sendsOpen, headroom, after), used)
  {
    SendWaitingUsed(g, records, headroom, used);
    SettleUsed(g, sendsOpen, used);
  }

  lemma SendPlainUsed(g: Gate, records: Records, e: Buffered, sendsOpen: bool, used: set<nat>)
    requires GateUsed(g, used) && e.ix in records && e.ix in used && e.ix !in g.dropped
    ensures OutcomeUsed(g, records, SendUnsequenced(g, records, e, sendsOpen), used)
  {
    SettleUsed(g, sendsOpen, used);
  }

  lemma {:induction false} DrainFirstUsed(buffer: seq<Buffered>, n: nat, releasable: set<nat>, from: Draining, used: set<nat>)
    requires n <= |buffer| && AllUsed(buffer, used) && from.out == [] && from.kept == [] && AllUsed(from.waiting, used)
    ensures var d := DrainFirst(buffer, n, releasable, from);
            AllUsed(d.kept, used) && AllUsed(d.waiting, used) && AllUsed(d.out, used)
  {
    if n > 0 {
      DrainFirstUsed(buffer, n - 1, releasable, from, used);
    }
  }

  lemma DrainUsed(g: Gate, records: Records, releasable: set<nat>, sendsOpen: bool, headroom: int, used: set<nat>)
    requires GateUsed(g, used)
    ensures OutcomeUsed(g, records, Drain(g, records, releasable, sendsOpen, headroom), used)
  {
    SettleUsed(g, sendsOpen, used);
    var s := Settle(g, sendsOpen);
    DrainFirstUsed(s.buffer, |s.buffer|, releasable, Draining([], s.waiting, headroom, records, []), used - g.dropped);
    DrainFirstOnly(s.buffer, |s.buffer|, releasable, Draining([], s.waiting, headroom, records, []));
  }

  /** A RECONCILE carries a channel's frames from the first one it held: its replay ends right before. */
  lemma {:induction false} CarriesFirst(q: seq<Buffered>, sendable: set<nat>, carried: map<nat, nat>, ix: nat)
    ensures ix in carried ==> ix in Carries(q, sendable, carried) && Carries(q, sendable, carried)[ix] == carried[ix]
    ensures ix !in carried ==> (ix in Carries(q, sendable, carried) <==> ix in sendable && Of(q, ix) != [])
    ensures ix !in carried && ix in sendable && Of(q, ix) != [] ==>
              Carries(q, sendable, carried)[ix] == Of(q, ix)[0].seqNo
    decreases |q|
  {
    if q != [] {
      var next := if q[0].Numbered() && q[0].ix in sendable && q[0].ix !in carried
                  then carried[q[0].ix := q[0].seqNo.value] else carried;
      CarriesFirst(q[1..], sendable, next, ix);
    }
  }
}
