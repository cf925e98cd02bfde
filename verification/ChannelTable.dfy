/** The channels a page's connection carries, one record per wire index. */
module ChannelTables {
  import opened Bytes
  import opened Header
  import opened Replays
  import opened Gates

  function AsSet(q: seq<nat>): set<nat> {
    set ix | ix in q
  }

  class ChannelTable {
    var records: Records
    /** The channels not closed: `Close` takes one out while `records` still lists it. */
    var byChannel: set<nat>
    /** Channels no RECONCILE on the wire declared yet. */
    var undeclared: set<nat>
    /** Closed channels not let go, which a RECONCILE names. */
    var closed: set<nat>
    /** Channels let go since the last RECONCILE on the wire, which releases them on the server. */
    var released: seq<nat>

    ghost predicate Valid()
      reads this
    {
      && undeclared <= records.Keys
      && closed == (set ix | ix in records && records[ix].state.Closed?)
      && byChannel == records.Keys - closed
      && (forall i | 0 <= i < |released| :: released[i] !in records)
      && (forall i, j | 0 <= i < j < |released| :: released[i] != released[j])
    }

    /** What a server that took every RECONCILE of the wire so far lists: the declared channels, and those let go since. */
    ghost function Known(): set<nat>
      reads this
    {
      (records.Keys - undeclared) + AsSet(released)
    }

    constructor ()
      ensures Valid() && records == map[] && released == []
    {
      records, byChannel, undeclared, closed, released := map[], {}, {}, {}, [];
    }

    /** The channels a RECONCILE on the wire that has the session names: each once. */
    function Changed(): set<nat>
      reads this
    {
      undeclared + closed
    }

    method MarkDeclared(ix: nat)
      requires Valid()
      modifies this`undeclared
      ensures Valid() && undeclared == old(undeclared) - {ix}
      ensures Known() == old(Known()) + (records.Keys * {ix})
    {
      undeclared := undeclared - {ix};
    }

    method TakeReleased() returns (taken: seq<nat>)
      requires Valid()
      modifies this`released
      ensures Valid() && taken == old(released) && released == []
      ensures Known() == records.Keys - undeclared == old(Known()) - AsSet(taken)
    {
      taken := released;
      released := [];
    }

    /** The latest seq the page sent with those low 32 bits; 0 for a channel it no longer lists. */
    method SentThrough(ix: nat, lastSeq: nat) returns (through: int)
      requires lastSeq < SEQ_SPAN
      ensures through == SeqThrough(lastSeq, if ix in records then records[ix].replay.issued else 0)
    {
      through := SeqThrough(lastSeq, if ix in records then records[ix].replay.issued else 0);
    }

    method ServerHasThrough(ix: nat, lastSeq: nat)
      requires Valid()
      modifies this`records
      ensures Valid()
      ensures records == if ix in old(records)
                         then old(records)[ix := old(records)[ix].(replay := old(records)[ix].replay.Acknowledge(lastSeq))]
                         else old(records)
    {
      if ix in records {
        records := records[ix := records[ix].(replay := records[ix].replay.Acknowledge(lastSeq))];
      }
    }

    /** An index is given out once. */
    method Add(ix: nat, replay: Replay)
      requires Valid() && ix !in records && ix !in released
      modifies this
      ensures Valid() && released == old(released) && undeclared == old(undeclared) + {ix} && Known() == old(Known())
      ensures records == old(records)[ix := Record(Pending(true), replay, 0, false)]
    {
      records := records[ix := Record(Pending(true), replay, 0, false)];
      byChannel := byChannel + {ix};
      undeclared := undeclared + {ix};
    }

    method SetState(ix: nat, state: ChannelState)
      requires Valid() && ix in records && (state.Closed? <==> ix in closed)
      modifies this`records
      ensures Valid() && records == old(records)[ix := old(records)[ix].(state := state)]
    {
      records := records[ix := records[ix].(state := state)];
    }

    method OpenChannel(ix: nat)
      requires Valid() && ix in records && records[ix].state.Pending?
      modifies this`records
      ensures Valid() && records == old(records)[ix := old(records)[ix].(state := Open)]
    {
      SetState(ix, Open);
    }

    method Close(ix: nat)
      requires Valid() && ix in records && !records[ix].state.Closed?
      modifies this
      ensures Valid() && undeclared == old(undeclared) && released == old(released)
      ensures byChannel == old(byChannel) - {ix} && Known() == old(Known())
      ensures records == old(records)[ix := old(records)[ix].(
                state := Closed(old(records)[ix].state.Pending? && old(records)[ix].state.initial, false, false))]
    {
      byChannel := byChannel - {ix};
      var initial := records[ix].state.Pending? && records[ix].state.initial;
      records := records[ix := records[ix].(state := Closed(initial, false, false))];
      closed := closed + {ix};
    }

    /** A closed channel the server attached has what the page sent on it through `lastSeq`: all of it once that is the
        last seq issued, though frames issued may wait still. */
    method ServerHas(ix: nat, lastSeq: nat)
      requires Valid() && ix in records && records[ix].state.Closed?
      modifies this`records
      ensures Valid() && records.Keys == old(records).Keys
      ensures forall other | other in records && other != ix :: records[other] == old(records)[other]
      ensures var r, r' := old(records)[ix], records[ix];
              && r'.replay == r.replay.Acknowledge(lastSeq) && r'.state.Closed?
              && !r'.state.initial && r'.state.reported == r.state.reported
              && (r'.state.delivered <==> r.state.delivered || lastSeq >= r.replay.issued)
              && r'.lastSeq == r.lastSeq && r'.awaited == r.awaited
    {
      var record := records[ix];
      var replay := record.replay.Acknowledge(lastSeq);
      var delivered := record.state.delivered || lastSeq >= replay.issued;
      records := records[ix := record.(replay := replay, state := Closed(false, delivered, record.state.reported))];
    }

    method ServerEnded(ix: nat)
      requires Valid() && ix in records && records[ix].state.Closed?
      modifies this`records
      ensures Valid()
      ensures records == old(records)[ix := old(records)[ix].(state := old(records)[ix].state.(delivered := true))]
    {
      SetState(ix, records[ix].state.(delivered := true));
    }

    method Reported(ix: nat)
      requires Valid() && ix in records && records[ix].state.Closed?
      modifies this`records
      ensures Valid()
      ensures records == old(records)[ix := old(records)[ix].(state := old(records)[ix].state.(reported := true))]
    {
      SetState(ix, records[ix].state.(reported := true));
    }

    /** Drops all the channel holds; a declared one is told to the server. */
    method Release(ix: nat)
      requires Valid() && ix in records
      modifies this
      ensures Valid() && records == old(records) - {ix}
      ensures released == if ix in old(undeclared) then old(released) else old(released) + [ix]
      ensures undeclared == old(undeclared) - {ix} && closed == old(closed) - {ix}
      ensures byChannel == old(byChannel) - {ix} && Known() == old(Known())
    {
      if ix in undeclared {
        undeclared := undeclared - {ix};
      } else {
        released := released + [ix];
      }
      closed := closed - {ix};
      records := records - {ix};
      byChannel := byChannel - {ix};
    }

    /** No channel waits for its ATTACH_RESULT. */
    method StopAwaiting()
      requires Valid()
      modifies this`records
      ensures Valid()
      ensures records == map ix | ix in old(records) :: old(records)[ix].(awaited := false)
    {
      ghost var was := records;
      var left := records.Keys;
      while left != {}
        invariant left <= records.Keys == was.Keys && Valid()
        invariant forall ix <- was :: records[ix] == if ix in left then was[ix] else was[ix].(awaited := false)
        decreases |left|
      {
        var ix :| ix in left;
        records := records[ix := records[ix].(awaited := false)];
        left := left - {ix};
      }
    }

    method Clear()
      modifies this
      ensures Valid() && records == map[] && released == [] && undeclared == {}
    {
      records, byChannel, undeclared, closed, released := map[], {}, {}, {}, [];
    }
  }
}
