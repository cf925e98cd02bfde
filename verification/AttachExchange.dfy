/** The page's side of attaching its channels: each RECONCILE names them, its RECONCILED says which the server attached and
    how far it has what they sent, and an ATTACH_RESULT answers for one the server awaited. */
module AttachExchanges {
  import opened Bytes
  import opened Replays
  import opened Gates
  import opened Reattach
  import opened Attaching
  import opened ChannelTables
  import opened SendGates
  import GateFlows
  import Pages

  /** A frame channel `ix` sends again, or the ERROR that ends it. */
  datatype Resend = Resend(ix: nat, frame: Up)

  function On(q: seq<Resend>, ix: nat): seq<Up> {
    if q == [] then [] else (if q[0].ix == ix then [q[0].frame] else []) + On(q[1..], ix)
  }

  lemma {:induction false} OnAppend(a: seq<Resend>, b: seq<Resend>, ix: nat)
    ensures On(a + b, ix) == On(a, ix) + On(b, ix)
  {
    if a == [] {
      assert a + b == b && On(a, ix) + On(b, ix) == On(b, ix);
    } else {
      var first := if a[0].ix == ix then [a[0].frame] else [];
      assert (a + b)[1..] == a[1..] + b && (a + b)[0] == a[0];
      OnAppend(a[1..], b, ix);
      assert first + (On(a[1..], ix) + On(b, ix)) == (first + On(a[1..], ix)) + On(b, ix);
    }
  }

  function Tagged(ix: nat, q: seq<Up>): seq<Resend> {
    seq(|q|, i requires 0 <= i < |q| => Resend(ix, q[i]))
  }

  lemma {:induction false} OnTagged(ix: nat, q: seq<Up>, other: nat)
    ensures On(Tagged(ix, q), other) == if other == ix then q else []
  {
    if q != [] {
      assert Tagged(ix, q)[1..] == Tagged(ix, q[1..]);
      OnTagged(ix, q[1..], other);
    }
  }

  lemma OnOneMore(out: seq<Resend>, ix: nat, more: seq<Up>)
    ensures forall other :: On(out + Tagged(ix, more), other) == On(out, other) + if other == ix then more else []
  {
    forall other
      ensures On(out + Tagged(ix, more), other) == On(out, other) + if other == ix then more else []
    {
      OnAppend(out, Tagged(ix, more), other);
      OnTagged(ix, more, other);
    }
  }

  /** What declaring channels changes. */
  datatype Listing = Listing(records: Records, gate: Gate, inFlight: InFlight, known: set<nat>, undeclared: set<nat>)

  /** Those of `of` the server is not done with are listed, the others let go, their queues too. */
  ghost predicate Built(was: Records, g: Gate, of: set<nat>, subscribing: set<nat>, sendsOpen: bool,
                        open: map<nat, OpenEntry>, records: Records, g': Gate)
  {
    && open == Entries(was, of, false) && records == was - DoneOf(was, of)
    && g' == DeclaredGate(g, was, of, subscribing * open.Keys, sendsOpen)
  }

  predicate NothingStored(records: Records) {
    forall ix <- records :: records[ix].replay.Length() == 0
  }

  /** One record's turn. */
  ghost function Declared(l: Listing, ix: nat, skip: bool): Listing
    requires ix in l.records
  {
    var done := DoneOf(l.records, {ix});
    var named := if Lists(l.records, {ix}, skip, ix) then {ix} else {};
    Listing(l.records - done, DropEach(l.gate, done),
            if named == {} then l.inFlight else l.inFlight.(ixes := l.inFlight.ixes[ix := Initial(l.records[ix])]),
            l.known + named, l.undeclared - named - done)
  }

  /** `done` of the records are listed or let go. */
  ghost predicate DeclaredSome(was: Listing, done: set<nat>, skip: bool, some: Listing, open: map<nat, OpenEntry>) {
    && open == Entries(was.records, done, skip)
    && some == Listing(was.records - DoneOf(was.records, done), DropEach(was.gate, DoneOf(was.records, done)),
                       NOTHING.(ixes := NamedAs(open)), was.known + open.Keys,
                       was.undeclared - open.Keys - DoneOf(was.records, done))
  }

  /** What goes behind a RECONCILE, and from which seq on each channel; nothing where the wire carries none there. */
  ghost predicate Moved(g: Gate, records: Records, carries: bool, sendsOpen: bool, headroom: int, g': Gate,
                        records': Records, carriedFrom: map<nat, nat>, moved: seq<Buffered>)
  {
    if carries then
      && carriedFrom == Carries(Gates.Settle(g, sendsOpen).buffer, Unawaited(records), map[])
      && Outcome(g', records', moved) == Gates.Drain(Gates.Settle(g, sendsOpen), records, Unawaited(records), sendsOpen, headroom)
    else carriedFrom == map[] && Outcome(g', records', moved) == Outcome(g, records, [])
  }

  ghost predicate Staged(g: Gate, records: Records, open: map<nat, OpenEntry>, carries: bool, sendsOpen: bool,
                         headroom: int, g': Gate, records': Records, f: InFlight, moved: seq<Buffered>)
  {
    && f == InFlight(NamedAs(open), f.carriedFrom, map[])
    && Moved(g, records, carries, sendsOpen, headroom, g', records', f.carriedFrom, moved)
  }

  lemma MovedOnlyReplays(g: Gate, records: Records, sendsOpen: bool, headroom: int)
    ensures Gates.Drain(Gates.Settle(g, sendsOpen), records, Unawaited(records), sendsOpen, headroom).records.Keys == records.Keys
  {
    var s := Gates.Settle(Gates.Settle(g, sendsOpen), sendsOpen);
    DrainKeepsKeys(s.buffer, |s.buffer|, Unawaited(records), Draining([], s.waiting, headroom, records, []));
  }

  lemma {:induction false} DrainKeepsKeys(buffer: seq<Buffered>, n: nat, releasable: set<nat>, from: Draining)
    requires n <= |buffer|
    ensures DrainFirst(buffer, n, releasable, from).records.Keys == from.records.Keys
  {
    if n > 0 {
      DrainKeepsKeys(buffer, n - 1, releasable, from);
    }
  }

  class AttachExchange {
    const gate: SendGate
    const channels: ChannelTable
    /** A RECONCILE is out and its RECONCILED hasn't come. */
    var isReconciling: bool
    var inFlight: InFlight
    /** A channel registered since the last RECONCILE, which owes the server one naming it. */
    var isReconcileOwed: bool
    /** A RECONCILED gave the server's session, the last one on wire `reconciledWire`. */
    var session: bool
    var reconciledWire: int

    ghost predicate Valid()
      reads this, gate, gate.waitingForHeadroom, channels
    {
      gate.channels == channels && gate.Valid() && channels.byChannel !! gate.droppedQueues
    }

    constructor (gate: SendGate)
      requires gate.Valid() && gate.channels.byChannel !! gate.droppedQueues
      ensures Valid() && this.gate == gate && channels == gate.channels && !isReconciling && inFlight == NOTHING
      ensures !isReconcileOwed && !session
    {
      this.gate, channels, isReconciling, inFlight := gate, gate.channels, false, NOTHING;
      isReconcileOwed, session, reconciledWire := false, false, -1;
    }

    /** The server stops awaiting channels as their wire goes. */
    method ForgetWire()
      requires Valid()
      modifies this`isReconciling, this`inFlight, channels`records
      ensures Valid() && !isReconciling && inFlight == NOTHING
      ensures channels.records == Pages.StopAwaiting(old(channels.records))
    {
      channels.StopAwaiting();
      assert channels.records.Keys == old(channels.records.Keys);
      inFlight := NOTHING;
      isReconciling := false;
    }

    // ── The RECONCILED ──

    /** Ends the channel on both ends, dropping its queue; the ERROR takes its next seq. */
    method LoseChannel(ix: nat)
      requires Valid() && ix in channels.records
      modifies gate`droppedQueues, channels
      ensures Valid() && gate.Value() == DropEach(old(gate.Value()), {ix})
      ensures var r := old(channels.records)[ix];
              channels.records == old(channels.records)[ix := Pages.Closing(r).(replay := r.replay.NextSeq())]
      ensures channels.undeclared == old(channels.undeclared) && channels.released == old(channels.released)
    {
      gate.DropQueue(ix);
      var record := channels.records[ix];
      channels.records := channels.records[ix := record.(replay := record.replay.NextSeq())];
      assert channels.records.Keys == old(channels.records.Keys);
      if !record.state.Closed? {
        channels.Close(ix);
      }
      assert channels.records.Keys == old(channels.records.Keys);
    }

    /** What the server lacks through `throughSeq`: the replay, or an ERROR ending the channel if the replay lost some. */
    method ReplayTo(ix: nat, lastSeq: nat, throughSeq: Option<nat>) returns (out: seq<Up>)
      requires Valid() && ix in channels.records
      modifies gate`droppedQueues, channels
      ensures Valid()
      ensures out == Resent(old(channels.records)[ix], lastSeq, throughSeq)
      ensures channels.records == old(channels.records)[ix := Replayed(old(channels.records)[ix], lastSeq, throughSeq)]
      ensures gate.Value() == if Loses(old(channels.records)[ix], lastSeq, throughSeq)
                              then DropEach(old(gate.Value()), {ix}) else old(gate.Value())
      ensures channels.undeclared == old(channels.undeclared) && channels.released == old(channels.released)
    {
      channels.ServerHasThrough(ix, lastSeq);
      assert channels.records.Keys == old(channels.records.Keys);
      var record := channels.records[ix];
      var missed := record.replay.GetAfter(lastSeq, throughSeq);
      if missed.Some? {
        return Again(lastSeq, missed.value);
      }
      if record.state.Closed? && record.state.delivered {
        return [];
      }
      LoseChannel(ix);
      out := [Lost];
    }

    /** Its state brought to the server's, which has it through `lastSeq`. */
    method OpenRecord(ix: nat, lastSeq: nat)
      requires Valid() && ix in channels.records
      modifies channels`records
      ensures Valid()
      ensures channels.records == old(channels.records)[ix := Opened(old(channels.records)[ix], lastSeq)]
    {
      if channels.records[ix].state.Closed? {
        channels.ServerHas(ix, lastSeq);
      } else if channels.records[ix].state.Pending? {
        channels.OpenChannel(ix);
      }
      assert channels.records.Keys == old(channels.records.Keys);
    }

    /** What a channel the server attached replays to it, its state brought to the server's. */
    method AttachRecord(ix: nat, lastSeq: nat, throughSeq: Option<nat>) returns (out: seq<Up>)
      requires Valid() && ix in channels.records
      modifies gate`droppedQueues, channels
      ensures Valid()
      ensures out == Resent(Opened(old(channels.records)[ix], lastSeq), lastSeq, throughSeq)
      ensures channels.records == old(channels.records)[ix := Resumed(old(channels.records)[ix], lastSeq, throughSeq)]
      ensures gate.Value() == if Loses(Opened(old(channels.records)[ix], lastSeq), lastSeq, throughSeq)
                              then DropEach(old(gate.Value()), {ix}) else old(gate.Value())
      ensures channels.undeclared == old(channels.undeclared) && channels.released == old(channels.released)
    {
      OpenRecord(ix, lastSeq);
      out := ReplayTo(ix, lastSeq, throughSeq);
    }

    /** Which initial channels the server awaits, and the last seq the server has of each channel it attached. */
    method SettleAnswers(named: map<nat, nat>, f: InFlight) returns (serverHas: map<nat, nat>)
      requires Valid()
      modifies channels`records
      ensures Valid() && serverHas == ServerHas(named, f.attachResults)
      ensures channels.records == SettleAwaited(old(channels.records), f, serverHas)
    {
      serverHas := ServerHas(named, f.attachResults);
      ghost var was := channels.records;
      var left := f.ixes.Keys;
      while left != {}
        invariant Valid() && left <= f.ixes.Keys && channels.records.Keys == was.Keys
        invariant forall ix <- was ::
          channels.records[ix] == if ix in left then was[ix] else SettleAwaited(was, f, serverHas)[ix]
        decreases |left|
      {
        var ix :| ix in left;
        SetAwaited(ix, f.ixes[ix] && ix !in serverHas && ix !in f.attachResults);
        left := left - {ix};
      }
    }

    method SetAwaited(ix: nat, awaited: bool)
      requires Valid()
      modifies channels`records
      ensures Valid()
      ensures channels.records == if ix in old(channels.records)
                                  then old(channels.records)[ix := old(channels.records)[ix].(awaited := awaited)]
                                  else old(channels.records)
    {
      if ix in channels.records {
        channels.records := channels.records[ix := channels.records[ix].(awaited := awaited)];
        assert channels.records.Keys == old(channels.records.Keys);
      }
    }

    /** One channel the RECONCILE named: what it sends again, and whether the server has it no more. */
    method AttachOne(ix: nat, serverHas: map<nat, nat>, f: InFlight) returns (out: seq<Up>, omitted: bool)
      requires Valid()
      modifies gate`droppedQueues, channels
      ensures Valid()
      ensures channels.records == AttachEach(old(channels.records), {ix}, serverHas, f)
      ensures out == ResentOn(old(channels.records), {ix}, serverHas, f, ix)
      ensures omitted <==> Omits(old(channels.records), {ix}, serverHas, ix)
      ensures gate.Value() == DropEach(old(gate.Value()), DroppedOf(old(channels.records), {ix}, serverHas, f))
      ensures channels.undeclared == old(channels.undeclared) * channels.records.Keys
    {
      ghost var was, g := channels.records, gate.Value();
      AttachAlone(was, ix, serverHas, f, g);
      out, omitted := [], false;
      if ix in channels.records && !channels.records[ix].awaited {
        if ix in serverHas {
          out := AttachRecord(ix, serverHas[ix], f.Through(ix));
        } else if channels.records[ix].state.Closed? {
          gate.Release(ix);
        } else {
          omitted := true;
        }
      }
    }

    /** One of those `left` more. */
    method AttachNext(ghost was: Records, ghost g: Gate, left: set<nat>, serverHas: map<nat, nat>, f: InFlight,
                      out: seq<Resend>, omitted: set<nat>, ghost undeclared: set<nat>)
      returns (left': set<nat>, out': seq<Resend>, omitted': set<nat>)
      requires Valid() && left != {} && left <= f.ixes.Keys && channels.undeclared == undeclared * channels.records.Keys
      requires BroughtUp(was, g, f.ixes.Keys - left, serverHas, f, channels.records, gate.Value(), out, omitted)
      modifies gate`droppedQueues, channels
      ensures Valid() && left' < left && |left'| < |left|
      ensures BroughtUp(was, g, f.ixes.Keys - left', serverHas, f, channels.records, gate.Value(), out', omitted')
      ensures channels.undeclared == undeclared * channels.records.Keys
    {
      var ix :| ix in left;
      left' := left - {ix};
      ghost var some, h, done := channels.records, gate.Value(), f.ixes.Keys - left;
      var more, omits := AttachOne(ix, serverHas, f);
      OneAttached(was, g, done, serverHas, f, some, h, out, omitted, ix, more, omits);
      assert f.ixes.Keys - left' == done + {ix};
      out' := out + Tagged(ix, more);
      omitted' := if omits then omitted + {ix} else omitted;
    }

    /** The channels `f` named, brought to the server's state: what they send again, and those the server has no more. */
    method AttachNamed(f: InFlight, serverHas: map<nat, nat>) returns (out: seq<Resend>, omitted: set<nat>)
      requires Valid()
      modifies gate`droppedQueues, channels
      ensures Valid()
      ensures BroughtUp(old(channels.records), old(gate.Value()), f.ixes.Keys, serverHas, f, channels.records,
                        gate.Value(), out, omitted)
      ensures channels.undeclared == old(channels.undeclared) * channels.records.Keys
    {
      ghost var was, g, undeclared := channels.records, gate.Value(), channels.undeclared;
      var left := f.ixes.Keys;
      out, omitted := [], {};
      NoneAttached(was, g, serverHas, f);
      assert f.ixes.Keys - left == {};
      while left != {}
        invariant Valid() && left <= f.ixes.Keys && channels.undeclared == undeclared * channels.records.Keys
        invariant BroughtUp(was, g, f.ixes.Keys - left, serverHas, f, channels.records, gate.Value(), out, omitted)
        decreases |left|
      {
        left, out, omitted := AttachNext(was, g, left, serverHas, f, out, omitted, undeclared);
      }
      assert f.ixes.Keys - left == f.ixes.Keys;
    }

    method CloseOne(ix: nat)
      requires Valid()
      modifies gate`droppedQueues, channels
      ensures Valid() && channels.records == old(channels.records) - {ix}
      ensures gate.Value() == DropEach(old(gate.Value()), old(channels.records).Keys * {ix})
      ensures channels.undeclared == old(channels.undeclared) - {ix}
    {
      if ix in channels.records {
        assert channels.records.Keys * {ix} == {ix};
        gate.Release(ix);
      } else {
        assert channels.records.Keys * {ix} == {} && gate.droppedQueues + {} == gate.droppedQueues;
        assert channels.records - {ix} == channels.records;
      }
    }

    /** Closes each channel with no word to the server, whatever it holds dropped. */
    method CloseUnacknowledged(ixes: set<nat>)
      requires Valid()
      modifies gate`droppedQueues, channels
      ensures Valid() && channels.records == old(channels.records) - ixes
      ensures gate.Value() == DropEach(old(gate.Value()), old(channels.records).Keys * ixes)
      ensures channels.undeclared == old(channels.undeclared) - ixes
    {
      ghost var was, g, done: set<nat> := channels.records, gate.Value(), {};
      var left := ixes;
      NoneClosed(was, g);
      while left != {}
        invariant Valid() && done + left == ixes && done !! left
        invariant channels.records == was - done && gate.Value() == DropEach(g, was.Keys * done)
        invariant channels.undeclared == old(channels.undeclared) - done
        decreases |left|
      {
        var ix :| ix in left;
        CloseOne(ix);
        OneClosed(was, g, done, ix);
        done, left := done + {ix}, left - {ix};
      }
      assert done == ixes;
    }

    /** An awaited channel's own answer: `lastSeq` if the server attached it, `None` if not. `taken` is false where it answers
        no channel the server awaited, or waits for the RECONCILED in flight. What the channel sends again goes first, then
        what it held. */
    method HandleAttachResult(ix: nat, lastSeq: Option<nat>, sendsOpen: bool, headroom: int)
      returns (taken: bool, resent: seq<Up>, drained: seq<Buffered>)
      requires Valid()
      modifies this`inFlight, gate, gate.waitingForHeadroom, channels
      ensures Valid()
      ensures ix in old(inFlight).ixes ==>
                inFlight == old(inFlight).(attachResults := old(inFlight).attachResults[ix := lastSeq])
      ensures ix !in old(inFlight).ixes ==> inFlight == old(inFlight)
      ensures taken <==> ix !in old(inFlight).ixes && ix in old(channels.records) && old(channels.records)[ix].awaited
      ensures !taken ==> Outcome(gate.Value(), channels.records, drained)
                         == Outcome(old(gate.Value()), old(channels.records), []) && resent == []
      ensures taken && lastSeq.None? ==>
                && Outcome(gate.Value(), channels.records, drained)
                   == Outcome(DropEach(old(gate.Value()), {ix}), old(channels.records) - {ix}, [])
                && resent == []
      ensures taken && lastSeq.Some? ==>
                var r := old(channels.records)[ix].(awaited := false);
                var lost := Loses(Opened(r, lastSeq.value), lastSeq.value, None);
                && resent == Resent(Opened(r, lastSeq.value), lastSeq.value, None)
                && Outcome(gate.Value(), channels.records, drained)
                   == Gates.Drain(if lost then DropEach(old(gate.Value()), {ix}) else old(gate.Value()),
                                  old(channels.records)[ix := Resumed(r, lastSeq.value, None)], {ix}, sendsOpen, headroom)
    {
      resent, drained := [], [];
      if ix in inFlight.ixes {
        inFlight := inFlight.(attachResults := inFlight.attachResults[ix := lastSeq]);
        return false, [], [];
      }
      if ix !in channels.records || !channels.records[ix].awaited {
        return false, [], [];
      }
      taken := true;
      if lastSeq.None? {
        gate.Release(ix);
        return;
      }
      resent, drained := AttachAwaited(ix, lastSeq.value, sendsOpen, headroom);
    }

    /** The server attached the awaited channel: its replay goes, then what it held. */
    method AttachAwaited(ix: nat, lastSeq: nat, sendsOpen: bool, headroom: int)
      returns (resent: seq<Up>, drained: seq<Buffered>)
      requires Valid() && ix in channels.records
      modifies gate, gate.waitingForHeadroom, channels
      ensures Valid()
      ensures var r := old(channels.records)[ix].(awaited := false);
              var lost := Loses(Opened(r, lastSeq), lastSeq, None);
              && resent == Resent(Opened(r, lastSeq), lastSeq, None)
              && Outcome(gate.Value(), channels.records, drained)
                 == Gates.Drain(if lost then DropEach(old(gate.Value()), {ix}) else old(gate.Value()),
                                old(channels.records)[ix := Resumed(r, lastSeq, None)], {ix}, sendsOpen, headroom)
    {
      ghost var was := channels.records;
      ghost var r := was[ix].(awaited := false);
      SetAwaited(ix, false);
      resent := AttachRecord(ix, lastSeq, None);
      assert was[ix := r][ix := Resumed(r, lastSeq, None)] == was[ix := Resumed(r, lastSeq, None)];
      drained := gate.Drain({ix}, sendsOpen, headroom);
    }

    /** The answers settled, the named channels brought up, and those the server has no more closed. */
    method BringUp(f: InFlight, named: map<nat, nat>, deferOmitted: bool)
      returns (serverHas: map<nat, nat>, resent: seq<Resend>, omitted: set<nat>)
      requires Valid()
      modifies gate`droppedQueues, channels
      ensures Valid() && serverHas == ServerHas(named, f.attachResults)
      ensures var settled := SettleAwaited(old(channels.records), f, serverHas);
              && omitted == OmittedOf(settled, f, serverHas)
              && forall ix :: On(resent, ix) == ResentOn(settled, f.ixes.Keys, serverHas, f, ix)
      ensures channels.records == BroughtRecords(old(channels.records), f, named, deferOmitted)
      ensures gate.Value() == BroughtGate(old(gate.Value()), old(channels.records), f, named, deferOmitted)
      ensures channels.undeclared == old(channels.undeclared) * channels.records.Keys
    {
      serverHas := SettleAnswers(named, f);
      ghost var settled := channels.records;
      resent, omitted := AttachNamed(f, serverHas);
      OmittedAreListed(settled, f, serverHas, omitted);
      if !deferOmitted {
        CloseUnacknowledged(omitted);
      }
    }

    /** What the channels the server has now held. */
    method DrainAnswered(ghost was: Records, ghost g: Gate, ghost undeclared: set<nat>, f: InFlight,
                         ghost named: map<nat, nat>, serverHas: map<nat, nat>, ghost deferOmitted: bool, sendsOpen: bool,
                         headroom: int)
      returns (drained: seq<Buffered>)
      requires Valid() && undeclared <= was.Keys && serverHas == ServerHas(named, f.attachResults)
      requires channels.records == BroughtRecords(was, f, named, deferOmitted)
      requires gate.Value() == BroughtGate(g, was, f, named, deferOmitted)
      requires channels.undeclared == undeclared * channels.records.Keys
      modifies gate, gate.waitingForHeadroom, channels`records
      ensures Valid() && (gate.waitingForHeadroom == old(gate.waitingForHeadroom) || fresh(gate.waitingForHeadroom))
      ensures channels.records.Keys == old(channels.records).Keys
      ensures Outcome(gate.Value(), channels.records, drained)
              == DrainBrought(g, was, channels.undeclared, f, named, deferOmitted, sendsOpen, headroom)
    {
      var releasable := Releasable(channels.records, channels.undeclared, f, serverHas);
      GateFlows.DrainOnlyReplays(gate.Value(), channels.records, releasable, sendsOpen, headroom);
      drained := gate.Drain(releasable, sendsOpen, headroom);
    }

    /** Takes the answers to the RECONCILE in flight: what goes again, then what the channels the server has held. */
    method TakeAnswers(named: map<nat, nat>, deferOmitted: bool, sendsOpen: bool, headroom: int)
      returns (resent: seq<Resend>, drained: seq<Buffered>, omitted: set<nat>)
      requires Valid()
      modifies this`inFlight, gate, gate.waitingForHeadroom, channels
      ensures Valid() && inFlight == NOTHING
      ensures gate.waitingForHeadroom == old(gate.waitingForHeadroom) || fresh(gate.waitingForHeadroom)
      ensures var f := old(inFlight);
              var serverHas := ServerHas(named, f.attachResults);
              var settled := SettleAwaited(old(channels.records), f, serverHas);
              && omitted == OmittedOf(settled, f, serverHas)
              && forall ix :: On(resent, ix) == ResentOn(settled, f.ixes.Keys, serverHas, f, ix)
      ensures Outcome(gate.Value(), channels.records, drained)
              == DrainBrought(old(gate.Value()), old(channels.records), channels.undeclared, old(inFlight), named,
                              deferOmitted, sendsOpen, headroom)
      ensures channels.undeclared == old(channels.undeclared) * channels.records.Keys
      ensures KeepsWithheld(old(gate.Value()), old(channels.records), old(channels.undeclared), old(inFlight), named,
                            deferOmitted, Outcome(gate.Value(), channels.records, drained))
    {
      var f := inFlight;
      ghost var g, was, undeclared := gate.Value(), channels.records, channels.undeclared;
      inFlight := NOTHING;
      var serverHas;
      serverHas, resent, omitted := BringUp(f, named, deferOmitted);
      drained := DrainAnswered(was, g, undeclared, f, named, serverHas, deferOmitted, sendsOpen, headroom);
      DrainKeepsWithheld(g, was, undeclared, channels.undeclared, f, named, deferOmitted, sendsOpen, headroom);
    }

    // ── The RECONCILE ──

    /** What declaring changes, as a value. */
    ghost function Listed(): Listing
      reads this, gate, gate.waitingForHeadroom, channels
      requires gate.waitingForHeadroom.Valid()
    {
      Listing(channels.records, gate.Value(), inFlight, channels.Known(), channels.undeclared)
    }

    /** One record's turn: released if the server is done with it, left out, or declared and listed. */
    method DeclareOne(ix: nat, skip: bool) returns (entry: Option<OpenEntry>)
      requires Valid() && ix in channels.records
      modifies this`inFlight, gate`droppedQueues, channels
      ensures Valid()
      ensures entry.Some? <==> Lists(old(channels.records), {ix}, skip, ix)
      ensures entry.Some? ==> entry.value == OpenEntry(old(channels.records)[ix].lastSeq, Initial(old(channels.records)[ix]))
      ensures Listed() == Declared(old(Listed()), ix, skip)
    {
      DoneAlone(channels.records, ix, gate.Value());
      var record := channels.records[ix];
      if record.state.Closed? && record.state.delivered {
        gate.Release(ix);
        return None;
      }
      if skip && Initial(record) && !record.awaited {
        return None;
      }
      channels.MarkDeclared(ix);
      inFlight := inFlight.(ixes := inFlight.ixes[ix := Initial(record)]);
      entry := Some(OpenEntry(record.lastSeq, Initial(record)));
    }

    /** What a RECONCILE lists of `of`, each once, and lets go. */
    method DeclareOpenEntries(of: set<nat>, skip: bool) returns (open: map<nat, OpenEntry>)
      requires Valid() && of <= channels.records.Keys && inFlight == NOTHING
      modifies this`inFlight, gate`droppedQueues, channels
      ensures Valid()
      ensures DeclaredSome(old(Listed()), of, skip, Listed(), open)
    {
      ghost var was, done: set<nat> := Listed(), {};
      var left := of;
      open := map[];
      NoneDeclared(was, skip);
      while left != {}
        invariant Valid() && done + left == of && done !! left
        invariant DeclaredSome(was, done, skip, Listed(), open)
        decreases |left|
      {
        var ix :| ix in left;
        open := DeclareNext(was, done, skip, open, ix);
        done, left := done + {ix}, left - {ix};
      }
      assert done == of;
    }

    method DeclareNext(ghost was: Listing, ghost done: set<nat>, skip: bool, open: map<nat, OpenEntry>, ix: nat)
      returns (open': map<nat, OpenEntry>)
      requires Valid() && ix !in done && ix in was.records && DeclaredSome(was, done, skip, Listed(), open)
      modifies this`inFlight, gate`droppedQueues, channels
      ensures Valid() && DeclaredSome(was, done + {ix}, skip, Listed(), open')
    {
      ghost var some := Listed();
      StillListed(was, done, skip, some, open, ix);
      var entry := DeclareOne(ix, skip);
      OneDeclared(was, done, skip, some, open, ix);
      open' := if entry.Some? then open[ix := entry.value] else open;
    }

    /** The RECONCILE: on the wire that has the session it names what changed since the last one there, else every
        channel. A server that took those before, as it takes this one, lists just the channels the page does. */
    method BuildReconcile(wire: nat, subscribing: set<nat>, sendsOpen: bool)
      returns (changes: bool, open: map<nat, OpenEntry>, released: seq<nat>)
      requires Valid()
      modifies this, gate, channels
      ensures Valid() && isReconciling && !isReconcileOwed && session == old(session)
      ensures gate.waitingForHeadroom == old(gate.waitingForHeadroom) || fresh(gate.waitingForHeadroom)
      ensures changes <==> session && reconciledWire == wire
      ensures reconciledWire == old(reconciledWire)
      ensures inFlight == NOTHING.(ixes := NamedAs(open)) && channels.undeclared == {}
      ensures !changes ==> open.Keys == channels.records.Keys
      ensures changes ==> (old(channels.Known()) + open.Keys) - AsSet(released) == channels.records.Keys
      ensures Built(old(channels.records), old(gate.Value()),
                    if changes then old(channels.Changed()) else old(channels.records).Keys, subscribing, sendsOpen, open,
                    channels.records, gate.Value())
    {
      var of: set<nat>;
      changes, of := StartReconcile(wire);
      open, released := NameEvery(of, subscribing, sendsOpen);
    }

    /** Whether it names only what changed, and the channels it may name. */
    method StartReconcile(wire: nat) returns (changes: bool, of: set<nat>)
      requires Valid()
      modifies this`isReconcileOwed, this`isReconciling, this`inFlight
      ensures Valid() && isReconciling && !isReconcileOwed && inFlight == NOTHING
      ensures changes <==> session && reconciledWire == wire
      ensures of == if changes then old(channels.Changed()) else old(channels.records).Keys
      ensures channels.undeclared <= of <= channels.records.Keys
    {
      isReconcileOwed, isReconciling, inFlight := false, true, NOTHING;
      changes := session && reconciledWire == wire;
      of := ToName(changes);
    }

    /** Names those of `of` the server is not done with, and lets go of the rest: it lists just the channels the page does. */
    method NameEvery(of: set<nat>, subscribing: set<nat>, sendsOpen: bool)
      returns (open: map<nat, OpenEntry>, released: seq<nat>)
      requires Valid() && channels.undeclared <= of <= channels.records.Keys && inFlight == NOTHING
      modifies this`inFlight, gate, channels
      ensures Valid() && inFlight == NOTHING.(ixes := NamedAs(open)) && channels.undeclared == {}
      ensures gate.waitingForHeadroom == old(gate.waitingForHeadroom) || fresh(gate.waitingForHeadroom)
      ensures of == old(channels.records).Keys ==> open.Keys == channels.records.Keys
      ensures (old(channels.Known()) + open.Keys) - AsSet(released) == channels.records.Keys
      ensures Built(old(channels.records), old(gate.Value()), of, subscribing, sendsOpen, open, channels.records,
                    gate.Value())
    {
      open := DeclareEvery(of);
      DropSubscriptionsOf(subscribing * open.Keys, sendsOpen);
      released := channels.TakeReleased();
    }

    /** What changed since the last RECONCILE on the wire, or every channel. */
    method ToName(changes: bool) returns (of: set<nat>)
      requires Valid()
      ensures of == if changes then channels.Changed() else channels.records.Keys
      ensures channels.undeclared <= of <= channels.records.Keys
    {
      of := if changes then channels.Changed() else channels.records.Keys;
    }

    /** Every undeclared channel declared with the others of `of`. */
    method DeclareEvery(of: set<nat>) returns (open: map<nat, OpenEntry>)
      requires Valid() && channels.undeclared <= of <= channels.records.Keys && inFlight == NOTHING
      modifies this`inFlight, gate`droppedQueues, channels
      ensures Valid()
      ensures open == Entries(old(channels.records), of, false) && inFlight == NOTHING.(ixes := NamedAs(open))
      ensures channels.records == old(channels.records) - DoneOf(old(channels.records), of)
      ensures gate.Value() == DropEach(old(gate.Value()), DoneOf(old(channels.records), of))
      ensures channels.undeclared == {} && channels.Known() == old(channels.Known()) + open.Keys
      ensures of == old(channels.records).Keys ==> open.Keys == channels.records.Keys
    {
      ghost var was := Listed();
      open := DeclareOpenEntries(of, false);
      KnowsTheListed(was, of, Listed(), open);
    }

    /** As a RECONCILE is staged, so is what goes behind it: on a wire that carries frames there, what the channels not
        awaited held, each from the seq `inFlight` records. */
    method StageReconcileBatch(wire: nat, carries: bool, subscribing: set<nat>, sendsOpen: bool, headroom: int)
      returns (changes: bool, open: map<nat, OpenEntry>, released: seq<nat>, moved: seq<Buffered>)
      requires Valid()
      modifies this, gate, gate.waitingForHeadroom, channels
      ensures Valid() && isReconciling && !isReconcileOwed && channels.undeclared == {}
      ensures session == old(session) && reconciledWire == old(reconciledWire)
      ensures changes <==> session && reconciledWire == wire
      ensures var of := if changes then old(channels.Changed()) else old(channels.records).Keys;
              var records := old(channels.records) - DoneOf(old(channels.records), of);
              var g := DeclaredGate(old(gate.Value()), old(channels.records), of, subscribing * open.Keys, sendsOpen);
              && open == Entries(old(channels.records), of, false)
              && Staged(g, records, open, carries, sendsOpen, headroom, gate.Value(), channels.records, inFlight, moved)
    {
      changes, open, released := BuildReconcile(wire, subscribing, sendsOpen);
      moved := DrainBufferedFrames(carries, sendsOpen, headroom);
    }

    method DrainBufferedFrames(carries: bool, sendsOpen: bool, headroom: int) returns (moved: seq<Buffered>)
      requires Valid() && inFlight.carriedFrom == map[]
      modifies this`inFlight, gate, gate.waitingForHeadroom, channels`records
      ensures Valid() && channels.records.Keys == old(channels.records).Keys
      ensures inFlight == old(inFlight).(carriedFrom := inFlight.carriedFrom)
      ensures Moved(old(gate.Value()), old(channels.records), carries, sendsOpen, headroom, gate.Value(), channels.records,
                    inFlight.carriedFrom, moved)
    {
      if !carries {
        return [];
      }
      ghost var g, was := gate.Value(), channels.records;
      var carried;
      moved, carried := gate.DrainForReconcile(inFlight.carriedFrom, sendsOpen, headroom);
      inFlight := inFlight.(carriedFrom := carried);
      MovedOnlyReplays(g, was, sendsOpen, headroom);
    }

    /** The batch a new wire's opening request carries: after a wire that may have lost frames, the replay goes first. */
    method StageInitialReconcileBatch(wire: nat, carries: bool, subscribing: set<nat>, sendsOpen: bool, headroom: int)
      returns (changes: bool, open: map<nat, OpenEntry>, released: seq<nat>, moved: seq<Buffered>)
      requires Valid()
      modifies this, gate, gate.waitingForHeadroom, channels
      ensures Valid() && isReconciling && !isReconcileOwed && channels.undeclared == {}
      ensures changes <==> session && reconciledWire == wire
      ensures var of := if changes then old(channels.Changed()) else old(channels.records).Keys;
              var records := old(channels.records) - DoneOf(old(channels.records), of);
              var g := DeclaredGate(old(gate.Value()), old(channels.records), of, subscribing * open.Keys, sendsOpen);
              var mayCarry := !session && NothingStored(records);
              && open == Entries(old(channels.records), of, false)
              && Staged(g, records, open, carries && mayCarry, sendsOpen, headroom, gate.Value(), channels.records,
                        inFlight, moved)
    {
      changes, open, released := BuildReconcile(wire, subscribing, sendsOpen);
      var sent := SentBefore();
      moved := DrainBufferedFrames(carries && !session && !sent, sendsOpen, headroom);
    }

    /** Whether a replay holds a frame the page sent. */
    method SentBefore() returns (sent: bool)
      ensures sent <==> !NothingStored(channels.records)
    {
      var left := channels.records.Keys;
      while left != {}
        invariant left <= channels.records.Keys
        invariant forall ix <- channels.records.Keys - left :: channels.records[ix].replay.Length() == 0
        decreases |left|
      {
        var ix :| ix in left;
        if channels.records[ix].replay.Length() > 0 {
          return true;
        }
        left := left - {ix};
      }
      return false;
    }

    /** An upgrade's barrier, the old wire's last frame: a channel no RECONCILE named yet is left out. */
    method BuildBarrier() returns (open: map<nat, OpenEntry>)
      requires Valid()
      modifies this, gate`droppedQueues, channels
      ensures Valid() && isReconciling && open == Entries(old(channels.records), old(channels.records).Keys, true)
      ensures DeclaredSome(old(Listed()).(inFlight := NOTHING), old(channels.records).Keys, true,
                           Listed().(known := old(channels.Known()) + open.Keys), open)
      ensures channels.released == []
    {
      isReconciling, inFlight := true, NOTHING;
      open := DeclareOpenEntries(channels.records.Keys, true);
      var released := channels.TakeReleased();
    }

    /** A RECONCILED: its answers taken, a RECONCILE follows for channels registered meanwhile, unless an upgrade's barrier
        goes next; else none is out any more. */
    method ApplyReconciled(wire: nat, named: map<nat, nat>, deferOmitted: bool, upgradeReady: bool, carries: bool,
                           subscribing: set<nat>, sendsOpen: bool, headroom: int, headroomNext: int)
      returns (resent: seq<Resend>, drained: seq<Buffered>, omitted: set<nat>, complete: bool, moved: seq<Buffered>)
      requires Valid()
      modifies this, gate, gate.waitingForHeadroom, channels
      ensures Valid() && session && reconciledWire == wire
      ensures complete <==> old(channels.undeclared) == {}
      ensures isReconciling <==> !complete && !upgradeReady
      ensures isReconciling ==> channels.undeclared == {}
      ensures var f := old(inFlight);
              var serverHas := ServerHas(named, f.attachResults);
              var settled := SettleAwaited(old(channels.records), f, serverHas);
              && omitted == OmittedOf(settled, f, serverHas)
              && forall ix :: On(resent, ix) == ResentOn(settled, f.ixes.Keys, serverHas, f, ix)
      ensures var f := old(inFlight);
              var after := BroughtRecords(old(channels.records), f, named, deferOmitted);
              forall e <- drained :: !Withheld(after, old(channels.undeclared), f, ServerHas(named, f.attachResults), e.ix)
      ensures !isReconciling ==>
                && KeepsWithheld(old(gate.Value()), old(channels.records), old(channels.undeclared), old(inFlight), named,
                                 deferOmitted, Outcome(gate.Value(), channels.records, drained))
                && Outcome(gate.Value(), channels.records, drained)
                   == DrainBrought(old(gate.Value()), old(channels.records), channels.undeclared, old(inFlight), named,
                                   deferOmitted, sendsOpen, headroom)
                && inFlight == NOTHING && moved == []
    {
      reconciledWire, session := wire, true;
      complete := channels.undeclared == {};
      resent, drained, omitted := TakeAnswers(named, deferOmitted, sendsOpen, headroom);
      moved := FollowUp(!complete, upgradeReady, wire, carries, subscribing, sendsOpen, headroomNext);
    }

    /** A RECONCILE follows for channels registered meanwhile, but where an upgrade's barrier goes next. */
    method FollowUp(hasNew: bool, upgradeReady: bool, wire: nat, carries: bool, subscribing: set<nat>, sendsOpen: bool,
                    headroom: int)
      returns (moved: seq<Buffered>)
      requires Valid()
      modifies this, gate, gate.waitingForHeadroom, channels
      ensures Valid() && session == old(session) && reconciledWire == old(reconciledWire)
      ensures isReconciling <==> hasNew && !upgradeReady
      ensures isReconciling ==> channels.undeclared == {}
      ensures !isReconciling ==>
                && Listed() == old(Listed()) && (isReconcileOwed <==> old(isReconcileOwed) || hasNew)
                && Outcome(gate.Value(), channels.records, moved) == Outcome(old(gate.Value()), old(channels.records), [])
    {
      moved := [];
      if hasNew && !upgradeReady {
        var _, _, _, next := StageReconcileBatch(wire, carries, subscribing, sendsOpen, headroom);
        moved := next;
      } else {
        isReconciling, isReconcileOwed := false, isReconcileOwed || hasNew;
      }
    }

    /** The declared subscriptions supersede the SUB and UNSUB frames queued before them. */
    method DropSubscriptionsOf(subscribing: set<nat>, sendsOpen: bool)
      requires Valid()
      modifies gate
      ensures Valid()
      ensures gate.waitingForHeadroom == old(gate.waitingForHeadroom) || fresh(gate.waitingForHeadroom)
      ensures gate.Value() == if subscribing == {} then old(gate.Value())
                              else DropSubscriptions(old(gate.Value()), subscribing, sendsOpen)
    {
      if subscribing != {} {
        gate.DropSubscriptionFrames(subscribing, sendsOpen);
      }
    }
  }

  lemma NoneClosed(was: Records, g: Gate)
    ensures was - {} == was && DropEach(g, was.Keys * {}) == g
  {
    assert was.Keys * {} == {} && g.dropped + {} == g.dropped;
  }

  lemma OneClosed(was: Records, g: Gate, done: set<nat>, ix: nat)
    requires ix !in done
    ensures was - done - {ix} == was - (done + {ix})
    ensures DropEach(DropEach(g, was.Keys * done), (was - done).Keys * {ix}) == DropEach(g, was.Keys * (done + {ix}))
  {
    DropOneMore(g, was.Keys * done, (was - done).Keys * {ix});
    assert was.Keys * done + (was - done).Keys * {ix} == was.Keys * (done + {ix});
  }

  lemma OmittedAreListed(settled: Records, f: InFlight, serverHas: map<nat, nat>, omitted: set<nat>)
    requires forall ix :: ix in omitted <==> Omits(settled, f.ixes.Keys, serverHas, ix)
    ensures omitted == OmittedOf(settled, f, serverHas)
    ensures AttachEach(settled, f.ixes.Keys, serverHas, f).Keys * omitted == omitted
  {
  }

  /** One channel alone: let go, resumed, or left as it is. */
  lemma AttachAlone(records: Records, ix: nat, serverHas: map<nat, nat>, f: InFlight, g: Gate)
    ensures AttachEach(records, {ix}, serverHas, f)
            == if LetsGo(records, {ix}, serverHas, ix) then records - {ix}
               else if Resumes(records, {ix}, serverHas, ix)
                 then records[ix := Resumed(records[ix], serverHas[ix], f.Through(ix))]
               else records
    ensures DropEach(g, DroppedOf(records, {ix}, serverHas, f))
            == if Drops(records, {ix}, serverHas, f, ix) then DropEach(g, {ix}) else g
  {
    assert DroppedOf(records, {ix}, serverHas, f) == if Drops(records, {ix}, serverHas, f, ix) then {ix} else {};
    assert g.dropped + {} == g.dropped;
  }

  /** `done` of the named channels are brought to the server's state. */
  ghost predicate BroughtUp(was: Records, g: Gate, done: set<nat>, serverHas: map<nat, nat>, f: InFlight,
                            records: Records, h: Gate, out: seq<Resend>, omitted: set<nat>)
  {
    && records == AttachEach(was, done, serverHas, f)
    && h == DropEach(g, DroppedOf(was, done, serverHas, f))
    && (forall ix :: On(out, ix) == ResentOn(was, done, serverHas, f, ix))
    && (forall ix :: ix in omitted <==> Omits(was, done, serverHas, ix))
  }

  lemma NoneAttached(was: Records, g: Gate, serverHas: map<nat, nat>, f: InFlight)
    ensures BroughtUp(was, g, {}, serverHas, f, was, g, [], {})
  {
    assert AttachEach(was, {}, serverHas, f) == was;
    assert DroppedOf(was, {}, serverHas, f) == {} && g.dropped + {} == g.dropped;
  }

  lemma OneAttached(was: Records, g: Gate, done: set<nat>, serverHas: map<nat, nat>, f: InFlight, some: Records, h: Gate,
                    out: seq<Resend>, omitted: set<nat>, ix: nat, more: seq<Up>, omits: bool)
    requires BroughtUp(was, g, done, serverHas, f, some, h, out, omitted) && ix !in done
    requires more == ResentOn(some, {ix}, serverHas, f, ix) && (omits <==> Omits(some, {ix}, serverHas, ix))
    ensures BroughtUp(was, g, done + {ix}, serverHas, f, AttachEach(some, {ix}, serverHas, f),
                     DropEach(h, DroppedOf(some, {ix}, serverHas, f)), out + Tagged(ix, more),
                     if omits then omitted + {ix} else omitted)
  {
    AttachOneMore(was, done, ix, serverHas, f);
    DropOneMore(g, DroppedOf(was, done, serverHas, f), DroppedOf(some, {ix}, serverHas, f));
    OneResent(was, done, serverHas, f, some, out, ix, more);
    OneOmitted(was, done, serverHas, some, omitted, ix, omits);
  }

  lemma OneResent(was: Records, done: set<nat>, serverHas: map<nat, nat>, f: InFlight, some: Records, out: seq<Resend>,
                  ix: nat, more: seq<Up>)
    requires some == AttachEach(was, done, serverHas, f) && ix !in done && more == ResentOn(some, {ix}, serverHas, f, ix)
    requires forall other :: On(out, other) == ResentOn(was, done, serverHas, f, other)
    ensures forall other :: On(out + Tagged(ix, more), other) == ResentOn(was, done + {ix}, serverHas, f, other)
  {
    AttachOneMore(was, done, ix, serverHas, f);
    OnOneMore(out, ix, more);
    assert ResentOn(was, done, serverHas, f, ix) == [];
    assert [] + more == more && forall other :: On(out, other) + [] == On(out, other);
  }

  lemma OneOmitted(was: Records, done: set<nat>, serverHas: map<nat, nat>, some: Records, omitted: set<nat>, ix: nat,
                   omits: bool)
    requires ix !in done && (omits <==> Omits(was, done + {ix}, serverHas, ix))
    requires forall other :: other in omitted <==> Omits(was, done, serverHas, other)
    ensures forall other ::
              other in (if omits then omitted + {ix} else omitted) <==> Omits(was, done + {ix}, serverHas, other)
  {
  }

  lemma DoneAlone(records: Records, ix: nat, g: Gate)
    ensures DoneOf(records, {ix}) == if Done(records, {ix}, ix) then {ix} else {}
    ensures DropEach(g, {}) == g && records - {} == records
  {
    assert g.dropped + {} == g.dropped;
  }

  lemma NoneDeclared(was: Listing, skip: bool)
    requires was.inFlight == NOTHING
    ensures DeclaredSome(was, {}, skip, was, map[])
  {
    assert DoneOf(was.records, {}) == {} && was.gate.dropped + {} == was.gate.dropped && was.records - {} == was.records;
    var open: map<nat, OpenEntry> := map[];
    assert was.known + open.Keys == was.known && was.undeclared - open.Keys - {} == was.undeclared;
    assert NamedAs(open) == map[] && Entries(was.records, {}, skip) == open;
  }

  /** The records listed or let go first change nothing of one whose turn comes later. */
  lemma StillListed(was: Listing, done: set<nat>, skip: bool, some: Listing, open: map<nat, OpenEntry>, ix: nat)
    requires DeclaredSome(was, done, skip, some, open) && ix !in done && ix in was.records
    ensures ix in some.records && some.records[ix] == was.records[ix]
    ensures DoneOf(some.records, {ix}) == DoneOf(was.records, {ix})
    ensures Lists(some.records, {ix}, skip, ix) <==> Lists(was.records, {ix}, skip, ix)
  {
  }

  lemma OneDeclared(was: Listing, done: set<nat>, skip: bool, some: Listing, open: map<nat, OpenEntry>, ix: nat)
    requires DeclaredSome(was, done, skip, some, open) && ix !in done && ix in was.records && ix in some.records
    ensures var entry := OpenEntry(was.records[ix].lastSeq, Initial(was.records[ix]));
            DeclaredSome(was, done + {ix}, skip, Declared(some, ix, skip),
                         if Lists(was.records, {ix}, skip, ix) then open[ix := entry] else open)
  {
    StillListed(was, done, skip, some, open, ix);
    ListOneMore(was.records, done, ix, skip);
    DropOneMore(was.gate, DoneOf(was.records, done), DoneOf(was.records, {ix}));
    LessDone(was.records, DoneOf(was.records, done), DoneOf(was.records, {ix}));
    OneEntry(was.records, ix, skip);
    var entry := OpenEntry(was.records[ix].lastSeq, Initial(was.records[ix]));
    if Lists(was.records, {ix}, skip, ix) {
      assert open + map[ix := entry] == open[ix := entry];
      assert NamedAs(open[ix := entry]) == NamedAs(open)[ix := entry.initial];
    }
  }

  lemma LessDone(records: Records, some: set<nat>, more: set<nat>)
    ensures records - some - more == records - (some + more)
  {
  }

  lemma OneEntry(records: Records, ix: nat, skip: bool)
    requires ix in records
    ensures Entries(records, {ix}, skip)
            == if Lists(records, {ix}, skip, ix) then map[ix := OpenEntry(records[ix].lastSeq, Initial(records[ix]))]
               else map[]
  {
  }

  /** Every channel not declared is listed or let go, and the server is left with just those the page lists. */
  lemma KnowsTheListed(was: Listing, of: set<nat>, some: Listing, open: map<nat, OpenEntry>)
    requires of <= was.records.Keys && was.undeclared <= of && DeclaredSome(was, of, false, some, open)
    ensures some.undeclared == {} && (of == was.records.Keys ==> open.Keys == some.records.Keys)
  {
    assert open.Keys == of - DoneOf(was.records, of);
  }
}
