/** When a page acknowledges what it took of a wire: each frame over 16 KiB and each announcement's close, a frame's with
    the next message it sends, a close's alone, and no sooner than a gap after the last one. */
module AckSchedules {
  import opened Bytes
  import opened Pieces

  /** In ms. */
  const ACK_GAP: real := 50.0

  /** `timer`: when it is due. `alone`: whether it goes alone then. `carrying`: it goes with the next message. */
  datatype Schedule = Schedule(timer: Option<real>, alone: bool, carrying: bool) {
    /** A timer due sooner stays. */
    function Arm(due: real): Schedule {
      if timer.Some? && timer.value <= due then this else this.(timer := Some(due))
    }

    function AloneBy(due: real): Schedule { this.(alone := true).Arm(due) }
  }

  const CLEAR := Schedule(None, false, false)

  /** An acknowledgement of `took` bytes in all. */
  datatype Ack = Ack(at: real, took: nat, probe: bool)

  /** `owed`: a frame to acknowledge came since the last acknowledgement. `owedAlone`: an announcement closed. */
  datatype Page = Page(schedule: Schedule, ackedAt: Option<real>, newestAt: real, took: nat, now: real, owed: bool,
                       owedAlone: bool, acks: seq<Ack>)
  {
    function Dated(at: real): Page { this.(newestAt := at) }

    /** How long an acknowledgement waits after the newest arrival; the first one doesn't. */
    function Waits(): bool { ackedAt.Some? && ackedAt.value + ACK_GAP - newestAt > 0.0 }

    function Due(): real
      requires ackedAt.Some?
    {
      newestAt + (ackedAt.value + ACK_GAP - newestAt)
    }

    function Acknowledge(probe: bool): Page {
      this.(schedule := CLEAR, ackedAt := Some(now), owed := false, owedAlone := false,
            acks := acks + [Ack(now, took, probe)])
    }

    function Soon(): Page {
      if Waits() then this.(schedule := schedule.AloneBy(Due())) else Acknowledge(false)
    }

    function WithNextSoon(): Page {
      if Waits() then this.(schedule := schedule.Arm(Due())) else this.(schedule := schedule.(carrying := true))
    }

    /** A whole frame of `bytes`, `ahead` of a LENGTH before it. */
    function TookFrame(bytes: nat, ahead: nat, at: real): Page {
      var p := this.(took := took + bytes + ahead);
      if Acknowledges(bytes) then p.Dated(at).(owed := true).WithNextSoon() else p
    }

    /** A piece: the last of two probed, or of a frame of `total` bytes made whole, or neither. */
    function TookPiece(bytes: nat, total: Option<nat>, probing: bool, at: real): Page {
      var p := this.(took := took + PIECE_HEADER + bytes).Dated(at);
      if probing then p.Acknowledge(true)
      else if total.Some? && Acknowledges(total.value) then p.(owed := true).WithNextSoon()
      else p
    }

    function TookClose(at: real): Page {
      this.(took := took + ANNOUNCE_BYTES, owed := true, owedAlone := true).Dated(at).Soon()
    }

    function Fired(): Page {
      var p := this.(schedule := schedule.(timer := None));
      if schedule.alone then p.Acknowledge(false) else p.(schedule := p.schedule.(carrying := true))
    }

    /** The page sends a message, which carries the acknowledgement if one waits for it. */
    function Sends(): Page {
      if schedule.carrying then Acknowledge(false) else this
    }
  }

  datatype Event =
    | Frame(bytes: nat, ahead: nat, at: real)
    | Piece(bytes: nat, total: Option<nat>, probing: bool, at: real)
    | Close(at: real)
    | Fire
    | Message

  /** Each event comes no sooner than the one before, and a timer fires no sooner than it is due. */
  predicate Allowed(p: Page, e: Event, now: real) {
    p.now <= now && (e.Fire? ==> p.schedule.timer.Some? && p.schedule.timer.value <= now)
  }

  function Next(p: Page, e: Event, now: real): Page
    requires Allowed(p, e, now)
  {
    var q := p.(now := now);
    match e
    case Frame(bytes, ahead, at) => q.TookFrame(bytes, ahead, at)
    case Piece(bytes, total, probing, at) => q.TookPiece(bytes, total, probing, at)
    case Close(at) => q.TookClose(at)
    case Fire => q.Fired()
    case Message => q.Sends()
  }

  predicate CanRun(p: Page, events: seq<(Event, real)>)
    decreases |events|
  {
    events == []
    || (Allowed(p, events[0].0, events[0].1) && CanRun(Next(p, events[0].0, events[0].1), events[1..]))
  }

  function Run(p: Page, events: seq<(Event, real)>): Page
    requires CanRun(p, events)
    decreases |events|
  {
    if events == [] then p else Run(Next(p, events[0].0, events[0].1), events[1..])
  }

  const START := Page(CLEAR, None, 0.0, 0, 0.0, false, false, [])

  predicate Apart(acks: seq<Ack>) {
    forall i | 0 < i < |acks| && !acks[i].probe :: acks[i].at >= acks[i - 1].at + ACK_GAP
  }

  predicate Counted(acks: seq<Ack>, took: nat) {
    && (forall i, j | 0 <= i < j < |acks| :: acks[i].took <= acks[j].took)
    && (forall i | 0 <= i < |acks| :: acks[i].took <= took)
  }

  /** What a page owes is scheduled, no sooner than the gap after the last one. */
  predicate Scheduled(p: Page) {
    && (p.owed ==> p.schedule.timer.Some? || p.schedule.carrying)
    && (p.owedAlone ==> p.owed && p.schedule.timer.Some? && p.schedule.alone)
    && (p.schedule.timer.Some? ==> p.ackedAt.Some? && p.schedule.timer.value == p.ackedAt.value + ACK_GAP)
    && (p.schedule.carrying && p.ackedAt.Some? ==> p.now >= p.ackedAt.value + ACK_GAP)
  }

  predicate Logged(p: Page) {
    && (p.ackedAt.Some? <==> p.acks != [])
    && (p.acks != [] ==> p.acks[|p.acks| - 1].at == p.ackedAt.value)
    && Apart(p.acks) && Counted(p.acks, p.took)
  }

  predicate Kept(p: Page) {
    Scheduled(p) && Logged(p)
  }

  lemma AcknowledgeKept(p: Page, probe: bool)
    requires Logged(p) && (probe || p.ackedAt.None? || p.now >= p.ackedAt.value + ACK_GAP)
    ensures Kept(p.Acknowledge(probe))
  {
  }

  /** Taking more bytes changes no acknowledgement sent. */
  lemma TookLogged(p: Page, q: Page)
    requires Logged(p) && q.ackedAt == p.ackedAt && q.acks == p.acks && q.took >= p.took
    ensures Logged(q)
  {
  }

  /** An arrival comes before it is taken. */
  predicate Dates(e: Event, now: real) {
    match e
    case Frame(_, _, at) => at <= now
    case Piece(_, _, _, at) => at <= now
    case Close(at) => at <= now
    case _ => true
  }

  lemma WithNextKept(p: Page)
    requires Kept(p) && p.newestAt <= p.now
    ensures Kept(p.(owed := true).WithNextSoon())
  {
    TookLogged(p, p.(owed := true).WithNextSoon());
  }

  /** Taking and dating bytes that are not acknowledged owes nothing more. */
  lemma TookKept(p: Page, took: nat, newestAt: real)
    requires Kept(p) && took >= p.took
    ensures Kept(p.(took := took, newestAt := newestAt))
  {
    TookLogged(p, p.(took := took, newestAt := newestAt));
  }

  lemma CloseKept(p: Page)
    requires Logged(p) && Scheduled(p.(owed := false, owedAlone := false)) && p.newestAt <= p.now
    ensures Kept(p.(owed := true, owedAlone := true).Soon())
  {
    var q := p.(owed := true, owedAlone := true);
    TookLogged(p, q);
    if q.Waits() {
      TookLogged(p, q.Soon());
    } else {
      AcknowledgeKept(q, false);
    }
  }

  lemma FireKept(p: Page)
    requires Kept(p) && p.schedule.timer.Some? && p.schedule.timer.value <= p.now
    ensures Kept(p.Fired())
  {
    if p.schedule.alone {
      AcknowledgeKept(p.(schedule := p.schedule.(timer := None)), false);
    } else {
      TookLogged(p, p.Fired());
    }
  }

  lemma FrameKept(p: Page, bytes: nat, ahead: nat, at: real)
    requires Kept(p) && at <= p.now
    ensures Kept(p.TookFrame(bytes, ahead, at))
  {
    if Acknowledges(bytes) {
      TookKept(p, p.took + bytes + ahead, at);
      WithNextKept(p.(took := p.took + bytes + ahead, newestAt := at));
    } else {
      TookKept(p, p.took + bytes + ahead, p.newestAt);
    }
    TookFrameIs(p, bytes, ahead, at);
  }

  lemma TookFrameIs(p: Page, bytes: nat, ahead: nat, at: real)
    ensures p.TookFrame(bytes, ahead, at)
            == if Acknowledges(bytes)
               then p.(took := p.took + bytes + ahead, newestAt := at).(owed := true).WithNextSoon()
               else p.(took := p.took + bytes + ahead, newestAt := p.newestAt)
  {
  }

  lemma PieceKept(p: Page, bytes: nat, total: Option<nat>, probing: bool, at: real)
    requires Kept(p) && at <= p.now
    ensures Kept(p.TookPiece(bytes, total, probing, at))
  {
    var q := p.(took := p.took + PIECE_HEADER + bytes, newestAt := at);
    TookKept(p, p.took + PIECE_HEADER + bytes, at);
    if probing {
      AcknowledgeKept(q, true);
    } else if total.Some? && Acknowledges(total.value) {
      WithNextKept(q);
    }
    TookPieceIs(p, bytes, total, probing, at);
  }

  lemma TookPieceIs(p: Page, bytes: nat, total: Option<nat>, probing: bool, at: real)
    ensures var q := p.(took := p.took + PIECE_HEADER + bytes, newestAt := at);
            p.TookPiece(bytes, total, probing, at)
            == if probing then q.Acknowledge(true)
               else if total.Some? && Acknowledges(total.value) then q.(owed := true).WithNextSoon()
               else q
  {
  }

  lemma ClosedKept(p: Page, at: real)
    requires Kept(p) && at <= p.now
    ensures Kept(p.TookClose(at))
  {
    var q := p.(took := p.took + ANNOUNCE_BYTES).Dated(at);
    TookLogged(p, q);
    CloseKept(q);
  }

  lemma SendsKept(p: Page)
    requires Kept(p)
    ensures Kept(p.Sends())
  {
    if p.schedule.carrying {
      AcknowledgeKept(p, false);
    }
  }

  lemma LaterKept(p: Page, now: real)
    requires Kept(p) && p.now <= now
    ensures Kept(p.(now := now))
  {
    TookLogged(p, p.(now := now));
  }

  lemma StepKept(p: Page, e: Event, now: real)
    requires Kept(p) && Allowed(p, e, now) && Dates(e, now)
    ensures Kept(Next(p, e, now))
  {
    LaterKept(p, now);
    match e {
      case Frame(bytes, ahead, at) => FrameKept(p.(now := now), bytes, ahead, at);
      case Piece(bytes, total, probing, at) => PieceKept(p.(now := now), bytes, total, probing, at);
      case Close(at) => ClosedKept(p.(now := now), at);
      case Fire => FireKept(p.(now := now));
      case Message => SendsKept(p.(now := now));
    }
  }

  lemma {:induction false} RunKept(p: Page, events: seq<(Event, real)>)
    requires Kept(p) && CanRun(p, events) && forall i | 0 <= i < |events| :: Dates(events[i].0, events[i].1)
    ensures Kept(Run(p, events))
    decreases |events|
  {
    if events != [] {
      StepKept(p, events[0].0, events[0].1);
      assert forall i | 0 <= i < |events[1..]| :: events[1..][i] == events[i + 1];
      RunKept(Next(p, events[0].0, events[0].1), events[1..]);
    }
  }

  /** In every run, acknowledgements but a probe's come at least the gap apart, each reports no less than the one before,
      and no more than was taken. */
  lemma {:induction false} AcksAreApart(events: seq<(Event, real)>)
    requires CanRun(START, events) && forall i | 0 <= i < |events| :: Dates(events[i].0, events[i].1)
    ensures Apart(Run(START, events).acks) && Counted(Run(START, events).acks, Run(START, events).took)
  {
    RunKept(START, events);
  }

  /** At `now`, its timer fires if one runs, and the page sends a message. */
  function GoneBy(p: Page, now: real): Page {
    var timed := p.(now := now);
    (if p.schedule.timer.Some? then timed.Fired() else timed).Sends()
  }

  /** In every run, all the page owes goes by the gap after the last acknowledgement: with the first message after it, or
      with none for an announcement's close. */
  lemma {:induction false} OwedGoes(events: seq<(Event, real)>, now: real)
    requires CanRun(START, events) && forall i | 0 <= i < |events| :: Dates(events[i].0, events[i].1)
    requires Run(START, events).owed && Run(START, events).now <= now
    requires var p := Run(START, events); p.ackedAt.Some? ==> p.ackedAt.value + ACK_GAP <= now
    ensures var p := Run(START, events);
            && GoneBy(p, now).acks == p.acks + [Ack(now, p.took, false)] && !GoneBy(p, now).owed
            && (p.schedule.timer.Some? ==> p.schedule.timer.value <= now)
            && (p.owedAlone ==> p.(now := now).Fired() == GoneBy(p, now))
  {
    RunKept(START, events);
  }

  // ── What is acknowledged ──

  /** A frame over the limit, whole or made whole of pieces, a probe's second piece and a close ask for one. */
  predicate Asks(e: Event) {
    match e
    case Frame(bytes, _, _) => bytes > ACK_OVER
    case Piece(_, total, probing, _) => probing || (total.Some? && total.value > ACK_OVER)
    case Close(_) => true
    case _ => false
  }

  /** The bytes taken through the last event that asked, `before` if none did. */
  function AskedAt(p: Page, events: seq<(Event, real)>, before: nat): nat
    requires CanRun(p, events)
    decreases |events|
  {
    if events == [] then before
    else
      var q := Next(p, events[0].0, events[0].1);
      AskedAt(q, events[1..], if Asks(events[0].0) then q.took else before)
  }

  function AckedThrough(p: Page): nat {
    if p.acks == [] then 0 else p.acks[|p.acks| - 1].took
  }

  predicate Rising(acks: seq<Ack>) {
    forall i | 0 < i < |acks| :: acks[i - 1].took < acks[i].took
  }

  /** What was asked is acknowledged or owed, and nothing else is scheduled. */
  predicate Answers(p: Page, asked: nat) {
    && asked <= p.took && AckedThrough(p) <= p.took && (p.owed || AckedThrough(p) >= asked)
    && (p.schedule.timer.Some? || p.schedule.carrying ==> p.owed) && (p.schedule.alone ==> p.owedAlone)
    && (p.owed ==> AckedThrough(p) < p.took) && Rising(p.acks)
  }

  lemma AcknowledgeAnswers(p: Page, probe: bool, asked: nat)
    requires asked <= p.took && AckedThrough(p) < p.took && Rising(p.acks)
    ensures Answers(p.Acknowledge(probe), asked)
  {
  }

  lemma AskAnswers(p: Page, e: Event, now: real, asked: nat)
    requires Answers(p, asked) && Allowed(p, e, now) && Asks(e)
    ensures Answers(Next(p, e, now), Next(p, e, now).took)
  {
    var q := Next(p, e, now);
    AcknowledgeAnswers(p.(took := q.took), false, q.took);
  }

  lemma StepAnswers(p: Page, e: Event, now: real, asked: nat)
    requires Answers(p, asked) && Allowed(p, e, now)
    ensures var q := Next(p, e, now); Answers(q, if Asks(e) then q.took else asked)
  {
    if Asks(e) {
      AskAnswers(p, e, now, asked);
    }
  }

  lemma {:induction false} RunAnswers(p: Page, events: seq<(Event, real)>, asked: nat)
    requires Answers(p, asked) && CanRun(p, events)
    ensures Answers(Run(p, events), AskedAt(p, events, asked))
    decreases |events|
  {
    if events != [] {
      var q := Next(p, events[0].0, events[0].1);
      StepAnswers(p, events[0].0, events[0].1, asked);
      RunAnswers(q, events[1..], if Asks(events[0].0) then q.took else asked);
    }
  }

  /** In every run, all that was asked for is acknowledged or still owed, and each acknowledgement reports more than the one
      before: none goes that nothing asked for. */
  lemma AsksAreAnswered(events: seq<(Event, real)>)
    requires CanRun(START, events)
    ensures var p := Run(START, events);
            (p.owed || AckedThrough(p) >= AskedAt(START, events, 0)) && Rising(p.acks)
  {
    RunAnswers(START, events, 0);
  }

  /** A probe's second piece is acknowledged at once. */
  lemma ProbeAtOnce(p: Page, bytes: nat, total: Option<nat>, at: real, now: real)
    requires Allowed(p, Piece(bytes, total, true, at), now)
    ensures var q := Next(p, Piece(bytes, total, true, at), now); q.acks == p.acks + [Ack(now, q.took, true)]
  {
  }

  // ── The schedule as it runs ──

  class AckSchedule {
    var timer: Option<real>
    var alone: bool
    var carrying: bool

    function Value(): Schedule
      reads this
    {
      Schedule(timer, alone, carrying)
    }

    constructor ()
      ensures Value() == CLEAR
    {
      timer, alone, carrying := None, false, false;
    }

    /** A due counted from the arrival is the same for every frame of a burst: one timer. */
    method Arm(due: real)
      modifies this`timer
      ensures Value() == old(Value()).Arm(due)
    {
      if timer.Some? && timer.value <= due {
        return;
      }
      timer := Some(due);
    }

    method AloneBy(due: real)
      modifies this
      ensures Value() == old(Value()).AloneBy(due)
    {
      alone := true;
      Arm(due);
    }

    /** False if it is carried already. */
    method Carry() returns (carries: bool)
      modifies this`carrying
      ensures carries <==> !old(carrying)
      ensures Value() == old(Value()).(carrying := true)
    {
      carries := !carrying;
      carrying := true;
    }

    method Clear()
      modifies this
      ensures Value() == CLEAR
    {
      timer, alone, carrying := None, false, false;
    }
  }

  /** The page's acknowledgements over `PieceReceiver`. `acks` is what it sent. */
  class ClientPieceReceiver {
    const ack: AckSchedule
    var ackedAt: Option<real>
    var newestAt: real
    var took: nat
    ghost var owed: bool
    ghost var owedAlone: bool
    ghost var acks: seq<Ack>

    ghost function Value(now: real): Page
      reads this, ack
    {
      Page(ack.Value(), ackedAt, newestAt, took, now, owed, owedAlone, acks)
    }

    constructor ()
      ensures Value(0.0) == START && fresh(ack)
    {
      ack := new AckSchedule();
      ackedAt, newestAt, took, owed, owedAlone, acks := None, 0.0, 0, false, false, [];
    }

    /** How long an acknowledgement waits after the newest arrival, `None` for the first. */
    function AckWait(): Option<real>
      reads this
    {
      if ackedAt.None? then None else Some(ackedAt.value + ACK_GAP - newestAt)
    }

    method Acknowledge(now: real, ghost probe: bool)
      modifies this, ack
      ensures Value(now) == old(Value(now)).Acknowledge(probe)
    {
      ack.Clear();
      ackedAt := Some(now);
      acks := acks + [Ack(now, took, probe)];
      owed, owedAlone := false, false;
    }

    method AcknowledgeSoon(now: real)
      modifies this, ack
      ensures Value(now) == old(Value(now)).Soon()
    {
      var wait := AckWait();
      if wait.Some? && wait.value > 0.0 {
        ack.AloneBy(newestAt + wait.value);
      } else {
        Acknowledge(now, false);
      }
    }

    method AcknowledgeWithNextSoon(now: real)
      modifies ack
      ensures Value(now) == old(Value(now)).WithNextSoon()
    {
      var wait := AckWait();
      if wait.Some? && wait.value > 0.0 {
        ack.Arm(newestAt + wait.value);
      } else {
        var _ := ack.Carry();
      }
    }

    method TookFrame(bytes: nat, ahead: nat, at: real, now: real)
      modifies this, ack
      ensures Value(now) == old(Value(now)).TookFrame(bytes, ahead, at)
    {
      took := took + bytes + ahead;
      if !Acknowledges(bytes) {
        return;
      }
      newestAt, owed := at, true;
      AcknowledgeWithNextSoon(now);
    }

    method TookPiece(bytes: nat, total: Option<nat>, probing: bool, at: real, now: real)
      modifies this, ack
      ensures Value(now) == old(Value(now)).TookPiece(bytes, total, probing, at)
    {
      took := took + PIECE_HEADER + bytes;
      newestAt := at;
      if probing {
        Acknowledge(now, true);
      } else if total.Some? && Acknowledges(total.value) {
        owed := true;
        AcknowledgeWithNextSoon(now);
      }
    }

    method TookClose(at: real, now: real)
      modifies this, ack
      ensures Value(now) == old(Value(now)).TookClose(at)
    {
      took := took + ANNOUNCE_BYTES;
      newestAt, owed, owedAlone := at, true, true;
      AcknowledgeSoon(now);
    }

    method Fired(now: real)
      modifies this, ack
      ensures Value(now) == old(Value(now)).Fired()
    {
      ack.timer := None;
      if ack.alone {
        Acknowledge(now, false);
      } else {
        var _ := ack.Carry();
      }
    }

    /** The side's next message takes the acknowledgement it carries. */
    method Sends(now: real) returns (carried: bool)
      modifies this, ack
      ensures carried == old(ack.carrying) && Value(now) == old(Value(now)).Sends()
    {
      carried := ack.carrying;
      if carried {
        Acknowledge(now, false);
      }
    }
  }
}
