/** A sender that awaits each send, its windows fitted to its replay, never has a frame evicted before the peer has it. */
module ReplayFits {
  import opened Bytes
  import opened Tags
  import opened Replays
  import opened Credits

  /** `frames`: those sent, each counted by credit, the first `pushed` of them gone out. `limitBytes`: the byte limit the
      sender took, none of them for more than `consumed` frames. */
  datatype Sender = Sender(replay: Replay, frames: seq<Frame>, limitBytes: nat, consumed: nat)

  /** A byte limit with the seq it acknowledges: all consumed as it went, and maybe more, arrived by then. */
  datatype Window = Window(consumed: nat, window: nat, lastSeq: nat)

  datatype Step = Send(frame: Frame) | Push | Take(w: Window) | Acknowledge(lastSeq: nat)

  function Fitted(text: nat, binary: nat): nat { Min(WINDOW_MAX, ReplayWindow(text, binary)) }

  function Start(text: nat, binary: nat): Sender {
    Sender(Fresh(text, binary), [], Min(WINDOW_INITIAL, Fitted(text, binary)), 0)
  }

  /** The bytes of the queue a frame credit counts is stored in. */
  function BudgetOf(frame: Frame, text: nat, binary: nat): nat {
    if frame[0] == BINARY || frame[0] == PUBLISH_BINARY then binary else text
  }

  /** A counted send, its message at most half its replay budget, and only while there is credit left; the peer
      acknowledges frames that went out, its windows are within the same cap, and one that comes behind another is less
      than 2^31 behind all sent. */
  predicate CanStep(s: Sender, step: Step, text: nat, binary: nat) {
    match step
    case Send(frame) =>
      && CountsCredit(frame[0]) && |frame| <= BudgetOf(frame, text, binary) / 2 + FRAME_OVERHEAD
      && SumBytes(s.frames) < s.limitBytes
    case Push => s.replay.pushed < |s.frames|
    case Take(w) =>
      && w.consumed <= w.lastSeq <= s.replay.pushed && w.window <= Fitted(text, binary) && w.lastSeq <= |s.frames|
      && (w.consumed >= s.consumed
          || SumBytes(s.frames) + WINDOW_MAX <= SumBytes(s.frames[..w.consumed]) + w.window + SEQ_SPAN / 2)
    case Acknowledge(lastSeq) => lastSeq <= s.replay.pushed
  }

  function Next(s: Sender, step: Step, text: nat, binary: nat): Sender
    requires CanStep(s, step, text, binary)
  {
    match step
    case Send(frame) => s.(frames := s.frames + [frame], replay := s.replay.NextSeq())
    case Push =>
      if Sequenced(s.frames[s.replay.pushed])
      then s.(replay := s.replay.Push(s.replay.pushed + 1, s.frames[s.replay.pushed]))
      else s
    case Take(w) =>
      var limit := SumBytes(s.frames[..w.consumed]) + w.window;
      s.(replay := s.replay.Acknowledge(w.lastSeq),
         limitBytes := s.limitBytes + Raise(limit % SEQ_SPAN, s.limitBytes),
         consumed := Max(s.consumed, w.consumed))
    case Acknowledge(lastSeq) => s.(replay := s.replay.Acknowledge(lastSeq))
  }

  /** Each frame fits on top of all not acknowledged before it. */
  predicate EachFits(frames: seq<Frame>, acked: nat, text: nat, binary: nat) {
    forall k | acked <= k < |frames| :: SumBytes(frames[acked..k]) + |frames[k]| <= BudgetOf(frames[k], text, binary)
  }

  /** Every frame gone out and not acknowledged is stored. */
  ghost predicate AllHeld(r: Replay) {
    forall s | r.acked < s <= r.pushed :: r.Held(s)
  }

  ghost predicate Kept(s: Sender, text: nat, binary: nat) {
    var r := s.replay;
    && r.acked <= r.pushed <= |s.frames| == r.issued && r.Tracks(s.frames[..r.pushed])
    && (forall i | 0 <= i < |s.frames| :: CountsCredit(s.frames[i][0]))
    && r.budgets == QueueBudgets(text, binary) && r.lowered.None? && AllHeld(r)
    && EachFits(s.frames, r.acked, text, binary)
    && s.limitBytes <= SumBytes(s.frames[..r.acked]) + Fitted(text, binary)
    && s.consumed <= |s.frames| && s.limitBytes <= SumBytes(s.frames[..s.consumed]) + WINDOW_MAX
  }

  lemma SumSplit(frames: seq<Frame>, a: nat, b: nat)
    requires a <= b <= |frames|
    ensures SumBytes(frames[..b]) == SumBytes(frames[..a]) + SumBytes(frames[a..b])
  {
    assert frames[..b] == frames[..a] + frames[a..b];
    SumBytesAppend(frames[..a], frames[a..b]);
  }

  /** What a queue holds is among the frames not acknowledged, so no more bytes than they are. */
  lemma {:induction false} QueueWithin(q: seq<Entry>, frames: seq<Frame>, from: nat)
    requires Sorted(q) && from <= |frames|
    requires forall i | 0 <= i < |q| :: from < q[i].seqNo <= |frames| && q[i].frame == frames[q[i].seqNo - 1]
    ensures QueueBytes(q) <= SumBytes(frames[from..])
    decreases |q|
  {
    if q != [] {
      var at := q[0].seqNo;
      QueueWithin(q[1..], frames, at);
      assert frames[from..] == frames[from..at - 1] + ([frames[at - 1]] + frames[at..]);
      SumBytesAppend(frames[from..at - 1], [frames[at - 1]] + frames[at..]);
      assert ([frames[at - 1]] + frames[at..])[1..] == frames[at..];
    }
  }

  lemma PushFits(s: Sender, text: nat, binary: nat)
    requires Kept(s, text, binary) && s.replay.pushed < |s.frames|
    ensures var r, frame := s.replay, s.frames[s.replay.pushed];
            && Sequenced(frame)
            && r.budgets.Of(ReplayKindOf(frame[0])).Holds(QueueBytes(r.queues.Of(ReplayKindOf(frame[0]))) + |frame|)
  {
    var r, frame := s.replay, s.frames[s.replay.pushed];
    CountedIsBudgeted(frame[0]);
    var sent := s.frames[..r.pushed];
    HeldWithin(r, ReplayKindOf(frame[0]), sent);
    assert sent[r.acked..] == s.frames[r.acked..r.pushed];
  }

  lemma HeldWithin(r: Replay, kind: ReplayKind, sent: seq<Frame>)
    requires r.Tracks(sent) && r.acked <= |sent|
    ensures QueueBytes(r.queues.Of(kind)) <= SumBytes(sent[r.acked..])
  {
    assert r.QueueOf(kind, r.queues.Of(kind), sent);
    assert forall i | 0 <= i < |r.queues.Of(kind)| :: r.Stores(kind, r.queues.Of(kind)[i], sent);
    QueueWithin(r.queues.Of(kind), sent, r.acked);
  }

  lemma PushHolds(r: Replay, frame: Frame)
    requires AllHeld(r) && Sequenced(frame)
    requires r.budgets.Of(ReplayKindOf(frame[0])).Holds(QueueBytes(r.queues.Of(ReplayKindOf(frame[0]))) + |frame|)
    ensures AllHeld(r.Push(r.pushed + 1, frame))
  {
    PushKeeps(r, frame);
  }

  lemma PushKept(s: Sender, text: nat, binary: nat)
    requires Kept(s, text, binary) && CanStep(s, Push, text, binary)
    ensures Kept(Next(s, Push, text, binary), text, binary)
  {
    var r, n := s.replay, s.replay.pushed;
    var frame := s.frames[n];
    PushFits(s, text, binary);
    PushTracks(r, s.frames[..n], frame);
    assert s.frames[..n + 1] == s.frames[..n] + [frame];
    PushHolds(r, frame);
  }

  lemma LaterFits(frames: seq<Frame>, acked: nat, to: nat, text: nat, binary: nat)
    requires EachFits(frames, acked, text, binary) && acked <= to <= |frames|
    ensures EachFits(frames, to, text, binary)
  {
    forall k | to <= k < |frames|
      ensures SumBytes(frames[to..k]) + |frames[k]| <= BudgetOf(frames[k], text, binary)
    {
      SumSplit(frames, acked, k);
      SumSplit(frames, acked, to);
      SumSplit(frames, to, k);
    }
  }

  lemma AcknowledgeKept(s: Sender, lastSeq: nat, text: nat, binary: nat)
    requires Kept(s, text, binary) && lastSeq <= s.replay.pushed
    ensures Kept(s.(replay := s.replay.Acknowledge(lastSeq)), text, binary)
  {
    var r := s.replay;
    AcknowledgeTracks(r, s.frames[..r.pushed], lastSeq);
    if lastSeq > r.acked {
      AcknowledgeEvicts(r, s.frames[..r.pushed], lastSeq);
      LaterFits(s.frames, r.acked, lastSeq, text, binary);
      SumSplit(s.frames, r.acked, lastSeq);
    }
  }

  /** The limit rises to no more than the peer granted, though only its low 32 bits come. */
  lemma TakeIsWithin(s: Sender, w: Window, text: nat, binary: nat)
    requires Kept(s, text, binary) && CanStep(s, Take(w), text, binary)
    ensures Next(s, Take(w), text, binary).limitBytes
            <= Max(s.limitBytes, SumBytes(s.frames[..w.consumed]) + w.window)
  {
    SumSplit(s.frames, s.consumed, Max(s.consumed, w.consumed));
    SumSplit(s.frames, s.consumed, |s.frames|);
    assert s.frames[..|s.frames|] == s.frames;
    RaiseIsWithin(SumBytes(s.frames[..w.consumed]) + w.window, s.limitBytes);
  }

  lemma TakeKept(s: Sender, w: Window, text: nat, binary: nat)
    requires Kept(s, text, binary) && CanStep(s, Take(w), text, binary)
    ensures Kept(Next(s, Take(w), text, binary), text, binary)
  {
    AcknowledgeKept(s, w.lastSeq, text, binary);
    TakeIsWithin(s, w, text, binary);
    var most := Max(s.consumed, w.consumed);
    SumSplit(s.frames, s.consumed, most);
    SumSplit(s.frames, w.consumed, most);
    SumSplit(s.frames, w.consumed, w.lastSeq);
    var acked := s.replay.Acknowledge(w.lastSeq).acked;
    SumSplit(s.frames, w.lastSeq, Max(w.lastSeq, acked));
  }

  /** What is in flight before a send is less than a window, and a window with the largest frame fits a budget. */
  lemma SendKept(s: Sender, frame: Frame, text: nat, binary: nat)
    requires Kept(s, text, binary) && CanStep(s, Send(frame), text, binary)
    requires Min(text, binary) / 2 > FRAME_OVERHEAD
    ensures Kept(Next(s, Send(frame), text, binary), text, binary)
  {
    var r, to := s.replay, s.frames + [frame];
    StepTracks(r, s.frames[..r.pushed], Op.Issue);
    assert PushedBy([Op.Issue]) == [];
    assert s.frames[..r.pushed] + [] == s.frames[..r.pushed] == to[..r.pushed];
    assert to[..r.acked] == s.frames[..r.acked] && to[..s.consumed] == s.frames[..s.consumed];
    forall k | r.acked <= k < |to|
      ensures SumBytes(to[r.acked..k]) + |to[k]| <= BudgetOf(to[k], text, binary)
    {
      assert to[r.acked..k] == s.frames[r.acked..k];
      if k == |s.frames| {
        SumSplit(s.frames, r.acked, k);
        assert s.frames[..k] == s.frames;
      }
    }
    forall n | r.acked < n <= r.pushed
      ensures r.NextSeq().Held(n)
    {
      assert r.Held(n);
    }
  }

  predicate CanRun(s: Sender, steps: seq<Step>, text: nat, binary: nat)
    decreases |steps|
  {
    steps == [] || (CanStep(s, steps[0], text, binary) && CanRun(Next(s, steps[0], text, binary), steps[1..], text, binary))
  }

  function Run(s: Sender, steps: seq<Step>, text: nat, binary: nat): Sender
    requires CanRun(s, steps, text, binary)
    decreases |steps|
  {
    if steps == [] then s else Run(Next(s, steps[0], text, binary), steps[1..], text, binary)
  }

  lemma {:induction false} RunKept(s: Sender, steps: seq<Step>, text: nat, binary: nat)
    requires Kept(s, text, binary) && CanRun(s, steps, text, binary) && Min(text, binary) / 2 > FRAME_OVERHEAD
    ensures Kept(Run(s, steps, text, binary), text, binary)
    decreases |steps|
  {
    if steps != [] {
      match steps[0] {
        case Send(frame) => SendKept(s, frame, text, binary);
        case Push => PushKept(s, text, binary);
        case Take(w) => TakeKept(s, w, text, binary);
        case Acknowledge(lastSeq) => AcknowledgeKept(s, lastSeq, text, binary);
      }
      RunKept(Next(s, steps[0], text, binary), steps[1..], text, binary);
    }
  }

  /** In every run of awaited sends, with a window not clamped to 1, whatever seq the peer reports that is no less than
      it acknowledged, the replay gives every frame after it: a reconnect loses nothing. */
  lemma ReconnectLosesNothing(steps: seq<Step>, text: nat, binary: nat, lastSeq: nat)
    requires Min(text, binary) / 2 > FRAME_OVERHEAD && CanRun(Start(text, binary), steps, text, binary)
    requires var r := Run(Start(text, binary), steps, text, binary).replay; r.acked <= lastSeq <= r.pushed
    ensures var s := Run(Start(text, binary), steps, text, binary);
            && s.replay.pushed <= |s.frames|
            && s.replay.GetAfter(lastSeq, None) == Some(s.frames[lastSeq..s.replay.pushed])
  {
    RunKept(Start(text, binary), steps, text, binary);
    GivesAll(Run(Start(text, binary), steps, text, binary), lastSeq, text, binary);
  }

  lemma GivesAll(s: Sender, lastSeq: nat, text: nat, binary: nat)
    requires Kept(s, text, binary) && s.replay.acked <= lastSeq <= s.replay.pushed
    ensures s.replay.GetAfter(lastSeq, None) == Some(s.frames[lastSeq..s.replay.pushed])
  {
    var r, sent := s.replay, s.frames[..s.replay.pushed];
    GetAfterExact(r, sent, lastSeq, None);
    assert r.Top(None) == r.pushed && forall n | lastSeq < n <= r.pushed :: r.Held(n);
    assert sent[lastSeq..r.pushed] == s.frames[lastSeq..r.pushed];
  }
}
