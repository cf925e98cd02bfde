/** One channel across wires that may die: the page names it in a RECONCILE, replays what the server lacks, and sends on,
    while old wires may still deliver what they carry. The server takes a frame newer than its last one, and no other. */
module Reattach {
  import opened Bytes
  import opened Tags
  import opened Replays

  /** The largest frame a page sends, and the replay budgets it has till a RECONCILED gives the server's. */
  const MAX_FRAME: nat := 0x400_0000
  const DEFAULT_REPLAY: nat := 0x800_0000

  /** `Lost`: the ERROR that ends a channel whose replay lost a frame. */
  datatype Up = Data(seqNo: nat, frame: Frame) | Reconcile(initial: bool) | Lost

  /** `Reconciled` and `AttachResult`: the last seq the server has of the channel, or `None` where it isn't attached. */
  datatype Down = Reconciled(lastSeq: Option<nat>) | AttachResult(lastSeq: Option<nat>) | Has(through: nat)

  /** The page's view of the channel on its wire. `Named`: a RECONCILE naming it is out, its frames from `carriedFrom`
      on behind it, and `answer` is the ATTACH_RESULT that came first. `Ended`: given up as lost. `Gone`: the server
      does not have it. */
  datatype Mode =
    | Unattached
    | Named(initial: bool, carriedFrom: Option<nat>, answer: Option<Option<nat>>)
    | Awaited
    | Live
    | Ended
    | Gone

  /** `issued`: the frames handed over so far. Those after `replay.pushed` have not gone out yet. `attachedOnce`: a
      RECONCILE names it no more as initial. `session`: a RECONCILED came. */
  datatype Page = Page(issued: seq<Frame>, replay: Replay, mode: Mode, attachedOnce: bool, session: bool)

  /** What the server does with the channel's frames on the page's wire. `Waiting`: for its registration, `Settling`:
      till what it held is dispatched. */
  datatype Phase = Unnamed | Waiting | Settling | Attached | Refused

  /** `accepted`: the frames it acted on. `replying`: a RECONCILED it owes, and whether the channel is in it. */
  datatype Server = Server(accepted: seq<Frame>, has: nat, ended: bool, phase: Phase, held: seq<Up>,
                           replying: Option<bool>)

  /** `up` and `down`: what the page's wire carries, in order. `stale`: what each wire before still carries. `late`: what
      the server sent on those that the page may still get. */
  datatype Channel = Channel(page: Page, server: Server, up: seq<Up>, down: seq<Down>, stale: seq<seq<Up>>,
                             late: seq<Down>)

  function Start(): Channel {
    Channel(Page([], Fresh(DEFAULT_REPLAY, DEFAULT_REPLAY), Unattached, false, false),
            Server([], 0, false, Unnamed, [], None), [], [], [], [])
  }

  // ── The server's rule ──

  function Accept(s: Server, m: Up): Server {
    match m
    case Data(seqNo, frame) =>
      if !s.ended && seqNo > s.has then s.(accepted := s.accepted + [frame], has := seqNo) else s
    case Lost => s.(ended := true)
    case Reconcile(_) => s
  }

  function AcceptAll(s: Server, q: seq<Up>): Server
    decreases |q|
  {
    if q == [] then s else AcceptAll(Accept(s, q[0]), q[1..])
  }

  // ── The page's replay ──

  /** What the server lacks after `lastSeq` through `throughSeq` goes again, or the channel ends as lost. */
  function ReplayTo(c: Channel, lastSeq: nat, throughSeq: Option<nat>): Channel {
    var replay := c.page.replay.Acknowledge(lastSeq);
    var missed := replay.GetAfter(lastSeq, throughSeq);
    if missed.None? then
      c.(page := c.page.(replay := replay, mode := Ended, attachedOnce := true), up := c.up + [Lost])
    else
      c.(page := c.page.(replay := replay, mode := Live, attachedOnce := true),
         up := c.up + Again(lastSeq, missed.value))
  }

  /** `frames` as the wire carries them, the first at the seq after `lastSeq`. */
  function Again(lastSeq: nat, frames: seq<Frame>): seq<Up> {
    seq(|frames|, i requires 0 <= i < |frames| => Data(lastSeq + 1 + i, frames[i]))
  }

  /** The replay stops before the first seq the wire carries behind the RECONCILE. */
  function BeforeCarried(carriedFrom: Option<nat>): Option<nat> {
    if carriedFrom.Some? then Some(Max(carriedFrom.value - 1, 0)) else None
  }

  /** A RECONCILED that answers the RECONCILE naming the channel, with an ATTACH_RESULT that came before it. */
  function TakeReconciled(c: Channel, lastSeq: Option<nat>): Channel {
    match c.page.mode
    case Named(initial, carriedFrom, answer) =>
      if lastSeq.Some? then ReplayTo(c, lastSeq.value, BeforeCarried(carriedFrom))
      else if answer.Some? && answer.value.Some? then ReplayTo(c, answer.value.value, BeforeCarried(carriedFrom))
      else if initial && answer.None? then c.(page := c.page.(mode := Awaited))
      else c.(page := c.page.(mode := Gone))
    case _ => c
  }

  function TakeAttachResult(c: Channel, lastSeq: Option<nat>): Channel {
    match c.page.mode
    case Named(initial, carriedFrom, _) => c.(page := c.page.(mode := Named(initial, carriedFrom, Some(lastSeq))))
    case Awaited => if lastSeq.Some? then ReplayTo(c, lastSeq.value, None) else c.(page := c.page.(mode := Gone))
    case _ => c
  }

  function PageTake(c: Channel, m: Down): Channel {
    match m
    case Reconciled(lastSeq) => TakeReconciled(c.(page := c.page.(session := true)), lastSeq)
    case AttachResult(lastSeq) => TakeAttachResult(c, lastSeq)
    case Has(through) => c.(page := c.page.(replay := c.page.replay.Acknowledge(through)))
  }

  // ── Steps ──

  /** What the server finds as a RECONCILE names the channel. */
  datatype Finds = Registered | NotYet | NoMore

  datatype Step =
    | Send(frame: Frame)
    | Flush
    | SendReconcile(carry: bool)
    | LoseWire
    | Settings(maxBytes: nat, binaryMaxBytes: nat)
    | PageTakes
    | PageTakesLate(i: nat)
    | ServerTakes(finds: Finds)
    | Reply
    | Register
    | Settle
    | Expire
    | Acknowledges(through: nat, late: bool)
    | StaleTakes(i: nat)
    | StaleCloses(i: nat)
    | StaleAnswers(attached: bool)

  /** A new wire's RECONCILE carries frames only where no replay has to go first: nothing went out before, or no
      RECONCILED came yet and the replay is empty. One on a wire the channel is live on carries what it held. */
  predicate MayCarry(p: Page) {
    p.mode.Live? || (p.mode.Unattached? && (p.replay.pushed == 0 || (!p.session && p.replay.Length() == 0)))
  }

  predicate CanStep(c: Channel, s: Step) {
    match s
    case Send(frame) => Sequenced(frame) && |frame| <= MAX_FRAME && !c.page.mode.Ended? && !c.page.mode.Gone?
    case Flush =>
      && c.page.replay.pushed < |c.page.issued| && Sequenced(c.page.issued[c.page.replay.pushed])
      && (c.page.mode.Live? || (c.page.mode.Named? && c.page.mode.carriedFrom.Some?))
    case SendReconcile(carry) =>
      && (c.page.mode.Unattached? || c.page.mode.Live? || c.page.mode.Awaited?)
      && (carry ==> MayCarry(c.page))
    case PageTakes => c.down != []
    case PageTakesLate(i) => i < |c.late|
    case ServerTakes(finds) => c.up != []
    case Reply => c.server.replying.Some?
    case Register => c.server.phase == Waiting
    case Settle => c.server.phase == Settling
    case Expire => c.server.phase == Waiting
    case Acknowledges(through, _) => through <= c.server.has
    case StaleTakes(i) => i < |c.stale| && c.stale[i] != []
    case StaleCloses(i) => i < |c.stale|
    case _ => true
  }

  function FlushOne(c: Channel): Channel
    requires CanStep(c, Flush)
  {
    var p := c.page;
    var n := p.replay.pushed;
    c.(page := p.(replay := p.replay.Push(n + 1, p.issued[n])), up := c.up + [Data(n + 1, p.issued[n])])
  }

  function Name(c: Channel, carry: bool): Channel {
    var p := c.page;
    var carriedFrom := if carry && p.replay.pushed < |p.issued| then Some(p.replay.pushed + 1) else None;
    c.(page := p.(mode := Named(!p.attachedOnce, carriedFrom, None)), up := c.up + [Reconcile(!p.attachedOnce)])
  }

  /** Only what needs no RECONCILE of its own is still taken from a wire left. */
  function TakenLate(down: seq<Down>): seq<Down> {
    if down == [] then [] else (if down[0].Reconciled? then [] else [down[0]]) + TakenLate(down[1..])
  }

  /** The server may get what the wire carries, or the wire may close; where it had refused the channel, nothing more of
      it counts. */
  function Leave(c: Channel): Channel {
    var mode := if c.page.mode.Ended? || c.page.mode.Gone? then c.page.mode else Unattached;
    Channel(c.page.(mode := mode), c.server.(phase := Unnamed, held := [], replying := None), [], [],
            if c.server.phase == Refused then c.stale else c.stale + [c.server.held + c.up],
            c.late + TakenLate(c.down))
  }

  /** A RECONCILE names the channel: whether it is attached from now on. */
  function TakeReconcile(s: Server, initial: bool, finds: Finds): Server {
    match s.phase
    case Waiting => s.(replying := Some(false))
    case Settling => s.(replying := Some(true))
    case Refused => s.(replying := Some(false))
    case Attached => if finds.NoMore? then s.(phase := Refused, replying := Some(false)) else s.(replying := Some(true))
    case Unnamed =>
      match finds
      case Registered => s.(phase := Attached, replying := Some(true))
      case NotYet => s.(phase := if initial then Waiting else Refused, replying := Some(false))
      case NoMore => s.(phase := Refused, replying := Some(false))
  }

  function ServerTake(s: Server, m: Up, finds: Finds): Server {
    if m.Reconcile? then TakeReconcile(s, m.initial, finds)
    else
      match s.phase
      case Attached => Accept(s, m)
      case Waiting => s.(held := s.held + [m])
      case Settling => s.(held := s.held + [m])
      case _ => s
  }

  /** What the server held is dispatched, and the ATTACH_RESULT counts it. */
  function Settled(c: Channel): Channel {
    var s := AcceptAll(c.server, c.server.held);
    c.(server := s.(phase := Attached, held := []), down := c.down + [AttachResult(Some(s.has))])
  }

  function Next(c: Channel, s: Step): Channel
    requires CanStep(c, s)
  {
    match s
    case Send(frame) =>
      c.(page := c.page.(issued := c.page.issued + [frame], replay := c.page.replay.NextSeq()))
    case Flush => FlushOne(c)
    case SendReconcile(carry) => Name(c, carry)
    case LoseWire => Leave(c)
    case Settings(maxBytes, binaryMaxBytes) =>
      c.(page := c.page.(replay := c.page.replay.SetLimits(maxBytes, binaryMaxBytes), session := true))
    case PageTakes => PageTake(c.(down := c.down[1..]), c.down[0])
    case PageTakesLate(i) => PageTake(c.(late := c.late[..i] + c.late[i + 1..]), c.late[i])
    case ServerTakes(finds) => c.(up := c.up[1..], server := ServerTake(c.server, c.up[0], finds))
    case Reply =>
      c.(server := c.server.(replying := None),
         down := c.down + [Reconciled(if c.server.replying.value then Some(c.server.has) else None)])
    case Register => c.(server := c.server.(phase := Settling))
    case Settle => Settled(c)
    case Expire => c.(server := c.server.(phase := Refused, held := []), down := c.down + [AttachResult(None)])
    case Acknowledges(through, late) =>
      if late then c.(late := c.late + [Has(through)]) else c.(down := c.down + [Has(through)])
    case StaleTakes(i) => c.(server := Accept(c.server, c.stale[i][0]), stale := c.stale[i := c.stale[i][1..]])
    case StaleCloses(i) => c.(stale := c.stale[i := []])
    case StaleAnswers(attached) => c.(late := c.late + [AttachResult(if attached then Some(c.server.has) else None)])
  }
}
