/** What a RECONCILED and an ATTACH_RESULT do to the records of a page's channels, each by itself: the steps one channel
    takes in `Reattach`. */
module Attaching {
  import opened Bytes
  import opened Tags
  import opened Replays
  import opened Gates
  import opened Reattach
  import GateFlows
  import Pages

  /** The RECONCILE in flight. `ixes`: the channels it names, and whether as initial. `carriedFrom`: per channel, the
      first seq the wire carries behind it. `attachResults`: the ATTACH_RESULTs that came before its RECONCILED. */
  datatype InFlight = InFlight(ixes: map<nat, bool>, carriedFrom: map<nat, nat>, attachResults: map<nat, Option<nat>>) {
    function Through(ix: nat): Option<nat> {
      BeforeCarried(if ix in carriedFrom then Some(carriedFrom[ix]) else None)
    }
  }

  const NOTHING := InFlight(map[], map[], map[])

  // ── One channel ──

  /** What its replay gives once the server has it through `lastSeq`. */
  function Missed(r: Record, lastSeq: nat, throughSeq: Option<nat>): Option<seq<Frame>> {
    r.replay.Acknowledge(lastSeq).GetAfter(lastSeq, throughSeq)
  }

  /** A channel the server ended needs nothing more. */
  predicate Loses(r: Record, lastSeq: nat, throughSeq: Option<nat>) {
    Missed(r, lastSeq, throughSeq).None? && !(r.state.Closed? && r.state.delivered)
  }

  /** The record once its replay went again, or it ended as lost, its ERROR at the next seq. */
  function Replayed(r: Record, lastSeq: nat, throughSeq: Option<nat>): Record {
    var a := r.(replay := r.replay.Acknowledge(lastSeq));
    if Loses(r, lastSeq, throughSeq) then Pages.Closing(a).(replay := a.replay.NextSeq()) else a
  }

  function Resent(r: Record, lastSeq: nat, throughSeq: Option<nat>): seq<Up> {
    if Missed(r, lastSeq, throughSeq).Some? then Again(lastSeq, Missed(r, lastSeq, throughSeq).value)
    else if Loses(r, lastSeq, throughSeq) then [Lost]
    else []
  }

  /** The record brought to the server's state, which has it through `lastSeq`. */
  function Opened(r: Record, lastSeq: nat): Record {
    match r.state
    case Pending(_) => r.(state := Open)
    case Open => r
    case Closed(_, delivered, reported) =>
      var replay := r.replay.Acknowledge(lastSeq);
      r.(replay := replay, state := Closed(false, delivered || lastSeq >= replay.issued, reported))
  }

  // ── The channels a RECONCILED answers for ──

  /** The last seq the server has of each channel it attached: the RECONCILED's, else its ATTACH_RESULT's. */
  function ServerHas(named: map<nat, nat>, results: map<nat, Option<nat>>): map<nat, nat> {
    map ix | ix in named.Keys + results.Keys && (ix in named || results[ix].Some?) ::
      if ix in named then named[ix] else results[ix].value
  }

  /** An initial channel the answers leave out is one the server awaits. */
  function SettleAwaited(records: Records, f: InFlight, serverHas: map<nat, nat>): Records {
    map ix | ix in records ::
      if ix in f.ixes
      then records[ix].(awaited := f.ixes[ix] && ix !in serverHas && ix !in f.attachResults)
      else records[ix]
  }

  predicate Answered(records: Records, of: set<nat>, ix: nat) {
    ix in of && ix in records && !records[ix].awaited
  }

  predicate Resumes(records: Records, of: set<nat>, serverHas: map<nat, nat>, ix: nat) {
    Answered(records, of, ix) && ix in serverHas
  }

  /** The server has it no more, and it was closed. */
  predicate LetsGo(records: Records, of: set<nat>, serverHas: map<nat, nat>, ix: nat) {
    Answered(records, of, ix) && ix !in serverHas && records[ix].state.Closed?
  }

  /** The server has it no more, and it was not closed. */
  predicate Omits(records: Records, of: set<nat>, serverHas: map<nat, nat>, ix: nat) {
    Answered(records, of, ix) && ix !in serverHas && !records[ix].state.Closed?
  }

  function Resumed(r: Record, lastSeq: nat, throughSeq: Option<nat>): Record {
    Replayed(Opened(r, lastSeq), lastSeq, throughSeq)
  }

  /** The channels of `of` brought to the server's state, those let go gone. */
  function AttachEach(records: Records, of: set<nat>, serverHas: map<nat, nat>, f: InFlight): Records {
    map ix | ix in records && !LetsGo(records, of, serverHas, ix) ::
      if Resumes(records, of, serverHas, ix) then Resumed(records[ix], serverHas[ix], f.Through(ix)) else records[ix]
  }

  /** What goes again on channel `ix`. */
  function ResentOn(records: Records, of: set<nat>, serverHas: map<nat, nat>, f: InFlight, ix: nat): seq<Up> {
    if Resumes(records, of, serverHas, ix)
    then Resent(Opened(records[ix], serverHas[ix]), serverHas[ix], f.Through(ix))
    else []
  }

  predicate Drops(records: Records, of: set<nat>, serverHas: map<nat, nat>, f: InFlight, ix: nat) {
    || LetsGo(records, of, serverHas, ix)
    || (Resumes(records, of, serverHas, ix) && Loses(Opened(records[ix], serverHas[ix]), serverHas[ix], f.Through(ix)))
  }

  /** The channels whose queue goes with them. */
  function DroppedOf(records: Records, of: set<nat>, serverHas: map<nat, nat>, f: InFlight): set<nat> {
    set ix | ix in of && Drops(records, of, serverHas, f, ix)
  }

  function DropEach(g: Gate, ixes: set<nat>): Gate {
    if g.buffer == [] && g.waiting == [] then g else g.(dropped := g.dropped + ixes)
  }

  lemma DropOneMore(g: Gate, ixes: set<nat>, more: set<nat>)
    ensures DropEach(DropEach(g, ixes), more) == DropEach(g, ixes + more)
  {
    assert g.dropped + (ixes + more) == (g.dropped + ixes) + more;
  }

  /** The channels one after another, in any order, come to what each comes to by itself. */
  lemma AttachOneMore(records: Records, done: set<nat>, ix: nat, serverHas: map<nat, nat>, f: InFlight)
    requires ix !in done
    ensures var some := AttachEach(records, done, serverHas, f);
            && AttachEach(some, {ix}, serverHas, f) == AttachEach(records, done + {ix}, serverHas, f)
            && (forall other :: ResentOn(records, done + {ix}, serverHas, f, other)
                  == if other == ix then ResentOn(some, {ix}, serverHas, f, ix)
                     else ResentOn(records, done, serverHas, f, other))
            && DroppedOf(records, done + {ix}, serverHas, f)
               == DroppedOf(records, done, serverHas, f) + DroppedOf(some, {ix}, serverHas, f)
            && (Omits(records, done + {ix}, serverHas, ix) <==> Omits(some, {ix}, serverHas, ix))
  {
    var some := AttachEach(records, done, serverHas, f);
    assert ix in some <==> ix in records;
    assert ix in records ==> some[ix] == records[ix];
    assert AttachEach(some, {ix}, serverHas, f) == AttachEach(records, done + {ix}, serverHas, f);
  }

  // ── The steps of one channel ──

  /** What `Reattach` says of channel `ix` while the RECONCILE naming it is out. */
  function ModeNamed(f: InFlight, ix: nat): Mode
    requires ix in f.ixes
  {
    Named(f.ixes[ix], if ix in f.carriedFrom then Some(f.carriedFrom[ix]) else None,
          if ix in f.attachResults then Some(f.attachResults[ix]) else None)
  }

  function Named1(named: map<nat, nat>, ix: nat): Option<nat> {
    if ix in named then Some(named[ix]) else None
  }

  /** A closed channel still waits for the server to have its closing frame. */
  predicate Waits(r: Record) {
    r.replay.pushed <= r.replay.issued && (r.state.Closed? ==> !r.state.delivered)
  }

  /** A channel the server may still lack frames of, closed or not, takes exactly the step `Reattach` has for the
      RECONCILED: the same replay, the same frames again, and awaited, live, lost or gone just where that says. What it held drains
      only where the server has it: not where it is awaited, nor gone. */
  lemma ReconciledIsTheStep(c: Channel, r: Record, ix: nat, f: InFlight, named: map<nat, nat>, undeclared: set<nat>)
    requires ix in f.ixes && c.page.mode == ModeNamed(f, ix) && c.page.replay == r.replay && Waits(r)
    ensures var serverHas := ServerHas(named, f.attachResults);
            var records := SettleAwaited(map[ix := r], f, serverHas);
            var t := TakeReconciled(c, Named1(named, ix));
            && (t.page.mode.Awaited? <==> records[ix].awaited)
            && (Omits(records, f.ixes.Keys, serverHas, ix) <==> t.page.mode.Gone? && !r.state.Closed?)
            && (LetsGo(records, f.ixes.Keys, serverHas, ix) <==> t.page.mode.Gone? && r.state.Closed?)
            && t.up == c.up + ResentOn(records, f.ixes.Keys, serverHas, f, ix)
            && (t.page.mode.Live? || t.page.mode.Ended? <==> Resumes(records, f.ixes.Keys, serverHas, ix))
            && (t.page.mode.Ended? <==> Resumes(records, f.ixes.Keys, serverHas, ix)
                                        && Drops(records, f.ixes.Keys, serverHas, f, ix))
            && (ix in Releasable(AttachEach(records, f.ixes.Keys, serverHas, f), undeclared, f, serverHas)
                <==> t.page.mode.Live? || t.page.mode.Ended?)
            && (t.page.mode.Live? ==> t.page.replay == Resumed(records[ix], serverHas[ix], f.Through(ix)).replay)
  {
    var serverHas := ServerHas(named, f.attachResults);
    if ix in serverHas {
      OpenReplays(c, r.(awaited := false), serverHas[ix], f.Through(ix));
    }
  }

  /** So does one awaited, as its ATTACH_RESULT comes. */
  lemma AttachResultIsTheStep(c: Channel, r: Record, lastSeq: nat)
    requires c.page.mode.Awaited? && c.page.replay == r.replay && Waits(r)
    ensures var t := TakeAttachResult(c, Some(lastSeq));
            && t.up == c.up + Resent(Opened(r, lastSeq), lastSeq, None)
            && (t.page.mode.Ended? <==> Loses(Opened(r, lastSeq), lastSeq, None))
            && (t.page.mode.Live? ==> t.page.replay == Resumed(r, lastSeq, None).replay)
  {
    OpenReplays(c, r, lastSeq, None);
  }

  lemma OpenReplays(c: Channel, r: Record, lastSeq: nat, throughSeq: Option<nat>)
    requires c.page.replay == r.replay && Waits(r)
    ensures var t := ReplayTo(c, lastSeq, throughSeq);
            && t.up == c.up + Resent(Opened(r, lastSeq), lastSeq, throughSeq)
            && (t.page.mode.Ended? <==> Loses(Opened(r, lastSeq), lastSeq, throughSeq))
            && (t.page.mode.Live? <==> !t.page.mode.Ended?)
            && (t.page.mode.Live? ==> t.page.replay == Resumed(r, lastSeq, throughSeq).replay)
  {
    AcknowledgeTwice(r.replay, lastSeq);
  }

  lemma AcknowledgeTwice(r: Replay, lastSeq: nat)
    ensures r.Acknowledge(lastSeq).Acknowledge(lastSeq) == r.Acknowledge(lastSeq)
    ensures r.Acknowledge(lastSeq).issued == r.issued && r.Acknowledge(lastSeq).pushed == r.pushed
  {
  }

  // ── A RECONCILED in all ──

  function OmittedOf(records: Records, f: InFlight, serverHas: map<nat, nat>): set<nat> {
    set ix | ix in records && Omits(records, f.ixes.Keys, serverHas, ix)
  }

  /** What the server has: the channels the RECONCILE named that it attached, and those the ones before named. */
  function Releasable(records: Records, undeclared: set<nat>, f: InFlight, serverHas: map<nat, nat>): set<nat> {
    (set ix | ix in f.ixes && ix in serverHas)
    + (set ix | ix in records && ix !in f.ixes && ix !in undeclared && !records[ix].awaited)
  }

  /** The records before the drain: the answers settled, the named channels brought up, those left out closed. */
  function BroughtRecords(records: Records, f: InFlight, named: map<nat, nat>, deferOmitted: bool): Records {
    var serverHas := ServerHas(named, f.attachResults);
    var settled := SettleAwaited(records, f, serverHas);
    var brought := AttachEach(settled, f.ixes.Keys, serverHas, f);
    if deferOmitted then brought else brought - OmittedOf(settled, f, serverHas)
  }

  function BroughtGate(g: Gate, records: Records, f: InFlight, named: map<nat, nat>, deferOmitted: bool): Gate {
    var serverHas := ServerHas(named, f.attachResults);
    var settled := SettleAwaited(records, f, serverHas);
    var brought := DropEach(g, DroppedOf(settled, f.ixes.Keys, serverHas, f));
    if deferOmitted then brought else DropEach(brought, OmittedOf(settled, f, serverHas))
  }

  /** What drains: every channel the server has now. */
  function DrainBrought(g: Gate, records: Records, undeclared: set<nat>, f: InFlight, named: map<nat, nat>,
                        deferOmitted: bool, sendsOpen: bool, headroom: int): Outcome
  {
    var after := BroughtRecords(records, f, named, deferOmitted);
    Drain(BroughtGate(g, records, f, named, deferOmitted), after,
          Releasable(after, undeclared, f, ServerHas(named, f.attachResults)), sendsOpen, headroom)
  }

  /** Where no channel waits for a next RECONCILE, the drain lets go every channel still listed that the server does not
      await, but those left to close later: only then do sends reopen. */
  lemma DrainsAllUnawaited(records: Records, undeclared: set<nat>, f: InFlight, named: map<nat, nat>, deferOmitted: bool)
    ensures var serverHas := ServerHas(named, f.attachResults);
            var after := BroughtRecords(records, f, named, deferOmitted);
            Unawaited(after) <= Releasable(after, undeclared, f, serverHas) + undeclared
                                + OmittedOf(SettleAwaited(records, f, serverHas), f, serverHas)
    ensures var serverHas := ServerHas(named, f.attachResults);
            var after := BroughtRecords(records, f, named, deferOmitted);
            undeclared == {} && !deferOmitted ==> Unawaited(after) <= Releasable(after, undeclared, f, serverHas)
  {
    var serverHas := ServerHas(named, f.attachResults);
    var settled := SettleAwaited(records, f, serverHas);
    var after := BroughtRecords(records, f, named, deferOmitted);
    forall ix | ix in Unawaited(after) && ix !in undeclared && ix !in OmittedOf(settled, f, serverHas)
      ensures ix in Releasable(after, undeclared, f, serverHas)
    {
      assert ix in settled;
    }
  }

  /** The server may not have it: it awaits the channel, no RECONCILE named it yet, or the one just answered did and the
      server did not attach it. */
  predicate Withheld(after: Records, undeclared: set<nat>, f: InFlight, serverHas: map<nat, nat>, ix: nat) {
    || (ix in after && after[ix].awaited)
    || (ix in undeclared && ix !in f.ixes)
    || (ix in f.ixes && ix !in serverHas)
  }

  lemma WithheldIsNoneOfThem(records: Records, undeclared: set<nat>, f: InFlight, named: map<nat, nat>,
                             deferOmitted: bool, ix: nat)
    requires Withheld(BroughtRecords(records, f, named, deferOmitted), undeclared, f, ServerHas(named, f.attachResults), ix)
    ensures ix !in Releasable(BroughtRecords(records, f, named, deferOmitted), undeclared, f,
                              ServerHas(named, f.attachResults))
  {
    var serverHas, after := ServerHas(named, f.attachResults), BroughtRecords(records, f, named, deferOmitted);
    var settled := SettleAwaited(records, f, serverHas);
    if ix in after && after[ix].awaited && ix in f.ixes {
      assert settled[ix].awaited;
    }
  }

  /** What the answers settle of it is all that changes, and its queue goes only with it. */
  lemma WithheldIsBrought(g: Gate, records: Records, undeclared: set<nat>, f: InFlight, named: map<nat, nat>,
                          deferOmitted: bool, ix: nat)
    requires var after := BroughtRecords(records, f, named, deferOmitted);
             ix in after && Withheld(after, undeclared, f, ServerHas(named, f.attachResults), ix)
    ensures var after := BroughtRecords(records, f, named, deferOmitted);
            && ix in records && after[ix] == records[ix].(awaited := after[ix].awaited)
            && GateFlows.FramesOf(BroughtGate(g, records, f, named, deferOmitted), ix) == GateFlows.FramesOf(g, ix)
  {
    var serverHas, after := ServerHas(named, f.attachResults), BroughtRecords(records, f, named, deferOmitted);
    var settled := SettleAwaited(records, f, serverHas);
    assert !Resumes(settled, f.ixes.Keys, serverHas, ix);
    assert ix !in DroppedOf(settled, f.ixes.Keys, serverHas, f);
    assert !deferOmitted ==> ix !in OmittedOf(settled, f, serverHas);
  }

  /** Nothing the drain lets go is such a channel's: one still listed keeps every frame it had queued, and its record but
      for what the answers settled. */
  lemma WithheldStays(g: Gate, records: Records, undeclared: set<nat>, f: InFlight, named: map<nat, nat>,
                      deferOmitted: bool, sendsOpen: bool, headroom: int, ix: nat)
    requires Withheld(BroughtRecords(records, f, named, deferOmitted), undeclared, f, ServerHas(named, f.attachResults), ix)
    ensures var o := DrainBrought(g, records, undeclared, f, named, deferOmitted, sendsOpen, headroom);
            && (forall e <- o.out :: e.ix != ix)
            && (ix in o.records ==> StillHeld(g, records, o, ix))
  {
    var serverHas, after := ServerHas(named, f.attachResults), BroughtRecords(records, f, named, deferOmitted);
    var h, releasable := BroughtGate(g, records, f, named, deferOmitted), Releasable(after, undeclared, f, serverHas);
    WithheldIsNoneOfThem(records, undeclared, f, named, deferOmitted, ix);
    GateFlows.DrainKeepsBack(h, after, releasable, sendsOpen, headroom, ix);
    GateFlows.DrainOnlyReplays(h, after, releasable, sendsOpen, headroom);
    if ix in after {
      WithheldIsBrought(g, records, undeclared, f, named, deferOmitted, ix);
    }
  }

  /** No such channel's frame is among those that went, and those still listed have all theirs. */
  ghost predicate KeepsWithheld(g: Gate, records: Records, undeclared: set<nat>, f: InFlight, named: map<nat, nat>,
                                deferOmitted: bool, o: Outcome)
  {
    var after := BroughtRecords(records, f, named, deferOmitted);
    forall ix | Withheld(after, undeclared, f, ServerHas(named, f.attachResults), ix) ::
      (forall e <- o.out :: e.ix != ix) && (ix in o.records ==> StillHeld(g, records, o, ix))
  }

  /** `left`: the undeclared channels still listed. */
  lemma DrainKeepsWithheld(g: Gate, records: Records, undeclared: set<nat>, left: set<nat>, f: InFlight,
                           named: map<nat, nat>, deferOmitted: bool, sendsOpen: bool, headroom: int)
    requires undeclared <= records.Keys && left == undeclared * BroughtRecords(records, f, named, deferOmitted).Keys
    ensures KeepsWithheld(g, records, undeclared, f, named, deferOmitted,
                          DrainBrought(g, records, left, f, named, deferOmitted, sendsOpen, headroom))
  {
    var serverHas, after := ServerHas(named, f.attachResults), BroughtRecords(records, f, named, deferOmitted);
    var o := DrainBrought(g, records, left, f, named, deferOmitted, sendsOpen, headroom);
    forall ix | Withheld(after, undeclared, f, serverHas, ix)
      ensures (forall e <- o.out :: e.ix != ix) && (ix in o.records ==> StillHeld(g, records, o, ix))
    {
      if ix in undeclared && ix !in f.ixes {
        StillUndeclared(records, undeclared, f, named, deferOmitted, ix);
      }
      WithheldStays(g, records, left, f, named, deferOmitted, sendsOpen, headroom, ix);
    }
  }

  lemma StillUndeclared(records: Records, undeclared: set<nat>, f: InFlight, named: map<nat, nat>, deferOmitted: bool, ix: nat)
    requires undeclared <= records.Keys && ix in undeclared && ix !in f.ixes
    ensures ix in BroughtRecords(records, f, named, deferOmitted)
  {
    var serverHas := ServerHas(named, f.attachResults);
    var settled := SettleAwaited(records, f, serverHas);
    assert ix in settled && ix in AttachEach(settled, f.ixes.Keys, serverHas, f);
  }

  /** Its frames are all queued as they were. */
  ghost predicate StillHeld(g: Gate, records: Records, o: Outcome, ix: nat)
    requires ix in o.records
  {
    && ix in records && o.records[ix] == records[ix].(awaited := o.records[ix].awaited)
    && GateFlows.FramesOf(o.gate, ix) == GateFlows.FramesOf(g, ix)
  }

  // ── The RECONCILE ──

  datatype OpenEntry = OpenEntry(lastSeq: nat, initial: bool)

  predicate Initial(r: Record) {
    !r.state.Open? && r.state.initial
  }

  /** A channel is listed as initial till the server attached it: one added is, closing one does not change it, nor do the
      answers to a RECONCILE, but for the channels they attach. */
  lemma InitialTillAttached(records: Records, f: InFlight, named: map<nat, nat>, deferOmitted: bool, ix: nat)
    requires ix in BroughtRecords(records, f, named, deferOmitted)
    ensures var after, serverHas := BroughtRecords(records, f, named, deferOmitted), ServerHas(named, f.attachResults);
            && ix in records
            && (Initial(after[ix]) <==> Initial(records[ix]) && !(ix in f.ixes && ix in serverHas && !after[ix].awaited))
    ensures Initial(Pages.Closing(records[ix])) <==> Initial(records[ix])
    ensures forall lastSeq: nat :: !Initial(Opened(records[ix], lastSeq))
  {
  }

  /** The server has all a delivered one sent it, or ended it. */
  predicate Done(records: Records, of: set<nat>, ix: nat) {
    ix in of && ix in records && records[ix].state.Closed? && records[ix].state.delivered
  }

  /** `skip`: a barrier leaves out what no RECONCILE named yet. */
  predicate Lists(records: Records, of: set<nat>, skip: bool, ix: nat) {
    && ix in of && ix in records && !Done(records, of, ix)
    && !(skip && Initial(records[ix]) && !records[ix].awaited)
  }

  function DoneOf(records: Records, of: set<nat>): set<nat> {
    set ix | ix in of && Done(records, of, ix)
  }

  function Entries(records: Records, of: set<nat>, skip: bool): map<nat, OpenEntry> {
    map ix | ix in of && Lists(records, of, skip, ix) :: OpenEntry(records[ix].lastSeq, Initial(records[ix]))
  }

  /** The channels a RECONCILE lists as initial, or not. */
  function NamedAs(open: map<nat, OpenEntry>): map<nat, bool> {
    map ix | ix in open :: open[ix].initial
  }

  /** The gate once a RECONCILE is built: the queues of those let go dropped, and what its subscriptions supersede. */
  function DeclaredGate(g: Gate, records: Records, of: set<nat>, subscribing: set<nat>, sendsOpen: bool): Gate {
    var d := DropEach(g, DoneOf(records, of));
    if subscribing == {} then d else DropSubscriptions(d, subscribing, sendsOpen)
  }

  lemma ListOneMore(records: Records, done: set<nat>, ix: nat, skip: bool)
    requires ix !in done
    ensures DoneOf(records, done + {ix}) == DoneOf(records, done) + DoneOf(records, {ix})
    ensures Entries(records, done + {ix}, skip) == Entries(records, done, skip) + Entries(records, {ix}, skip)
  {
  }
}
