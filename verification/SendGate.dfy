/** The gate a page's channels send through, each method the step of the same name in `Gates`. The owner's state and the
    transport's headroom are parameters, and what the transport takes is returned. */
module SendGates {
  import opened Bytes
  import opened Tags
  import opened Replays
  import opened Gates
  import opened Fifos
  import opened ChannelTables

  function BytesOf(q: seq<Buffered>): nat {
    if q == [] then 0 else |q[0].frame| + BytesOf(q[1..])
  }

  lemma {:induction false} BytesOfAppend(a: seq<Buffered>, b: seq<Buffered>)
    ensures BytesOf(a + b) == BytesOf(a) + BytesOf(b)
  {
    if a == [] {
      assert a + b == b;
    } else {
      assert (a + b)[1..] == a[1..] + b;
      BytesOfAppend(a[1..], b);
    }
  }

  lemma {:induction false} WithoutAppend(q: seq<Buffered>, e: Buffered, dropped: set<nat>)
    ensures Without(q + [e], dropped) == Without(q, dropped) + if e.ix in dropped then [] else [e]
  {
    if q == [] {
      assert [e][1..] == [] && q + [e] == [e];
    } else {
      assert (q + [e])[1..] == q[1..] + [e];
      WithoutAppend(q[1..], e, dropped);
    }
  }

  method Filter(q: seq<Buffered>, dropped: set<nat>) returns (kept: seq<Buffered>)
    ensures kept == Without(q, dropped)
  {
    kept := [];
    for i := 0 to |q|
      invariant kept == Without(q[..i], dropped)
    {
      assert q[..i + 1] == q[..i] + [q[i]];
      WithoutAppend(q[..i], q[i], dropped);
      if q[i].ix !in dropped {
        kept := kept + [q[i]];
      }
    }
    assert q[..|q|] == q;
  }

  predicate AllNumbered(q: seq<Buffered>) {
    forall i | 0 <= i < |q| :: q[i].Numbered()
  }

  lemma {:induction false} WithoutNumbered(q: seq<Buffered>, dropped: set<nat>)
    requires AllNumbered(q)
    ensures AllNumbered(Without(q, dropped))
  {
    if q != [] {
      assert q[0].Numbered() && forall i | 0 <= i < |q[1..]| :: q[1..][i] == q[i + 1];
      WithoutNumbered(q[1..], dropped);
    }
  }

  lemma {:induction false} PushEachAppend(records: Records, q: seq<Buffered>, e: Buffered)
    ensures PushEach(records, q + [e]) == PushFor(PushEach(records, q), e)
    decreases |q|
  {
    if q == [] {
      assert [e][1..] == [] && q + [e] == [e];
    } else {
      assert (q + [e])[1..] == q[1..] + [e];
      PushEachAppend(PushFor(records, q[0]), q[1..], e);
    }
  }

  lemma {:induction false} WithoutSubscriptionsAppend(q: seq<Buffered>, e: Buffered, subscribing: set<nat>)
    ensures WithoutSubscriptions(q + [e], subscribing)
            == WithoutSubscriptions(q, subscribing) + if IsSubscription(e, subscribing) then [] else [e]
  {
    if q == [] {
      assert [e][1..] == [] && q + [e] == [e];
    } else {
      assert (q + [e])[1..] == q[1..] + [e];
      WithoutSubscriptionsAppend(q[1..], e, subscribing);
    }
  }

  method FilterSubscriptions(q: seq<Buffered>, subscribing: set<nat>) returns (kept: seq<Buffered>)
    ensures kept == WithoutSubscriptions(q, subscribing)
  {
    kept := [];
    for i := 0 to |q|
      invariant kept == WithoutSubscriptions(q[..i], subscribing)
    {
      assert q[..i + 1] == q[..i] + [q[i]];
      WithoutSubscriptionsAppend(q[..i], q[i], subscribing);
      if !IsSubscription(q[i], subscribing) {
        kept := kept + [q[i]];
      }
    }
    assert q[..|q|] == q;
  }

  method FirstCarried(q: seq<Buffered>, sendable: set<nat>, carriedFrom: map<nat, nat>) returns (carried: map<nat, nat>)
    ensures carried == Carries(q, sendable, carriedFrom)
  {
    carried := carriedFrom;
    for i := 0 to |q|
      invariant Carries(q[i..], sendable, carried) == Carries(q, sendable, carriedFrom)
    {
      assert q[i..][1..] == q[i + 1..];
      if q[i].Numbered() && q[i].ix in sendable && q[i].ix !in carried {
        carried := carried[q[i].ix := q[i].seqNo.value];
      }
    }
  }

  /** The index of each limit's last frame among the first of a queue. */
  ghost predicate Newest(newest: map<(nat, byte), nat>, q: seq<Buffered>) {
    && (forall key <- newest :: newest[key] < |q| && LimitKey(q[newest[key]]) == Some(key))
    && (forall i | 0 <= i < |q| && LimitKey(q[i]).Some? ::
          LimitKey(q[i]).value in newest && i <= newest[LimitKey(q[i]).value])
  }

  method NewestLimits(q: seq<Buffered>) returns (newest: map<(nat, byte), nat>)
    ensures Newest(newest, q)
  {
    newest := map[];
    for i := 0 to |q|
      invariant Newest(newest, q[..i])
    {
      var key := LimitKey(q[i]);
      if key.Some? {
        newest := newest[key.value := i];
      }
    }
    assert q[..|q|] == q;
  }

  /** A limit is superseded just where the newest of its kind is another. */
  lemma NewestSupersedes(newest: map<(nat, byte), nat>, q: seq<Buffered>, i: nat)
    requires Newest(newest, q) && i < |q|
    ensures LimitKey(q[i]).Some? ==> LimitKey(q[i]).value in newest
    ensures Superseded(q, i) <==> LimitKey(q[i]).Some? && newest[LimitKey(q[i]).value] != i
  {
  }

  /** `out` of `q` went, `left` of the headroom stays. */
  predicate Released(q: seq<Buffered>, headroom: int, out: seq<Buffered>, rest: seq<Buffered>, left: int) {
    q == out + rest && AllNumbered(rest) && Going(q, headroom) == |out| + Going(rest, left)
  }

  lemma ReleasedOne(q: seq<Buffered>, headroom: int, out: seq<Buffered>, rest: seq<Buffered>, left: int)
    requires Released(q, headroom, out, rest, left) && rest != [] && left > 0
    ensures rest[0].Numbered() && Released(q, headroom, out + [rest[0]], rest[1..], left - |rest[0].frame|)
  {
    assert forall i | 0 <= i < |rest[1..]| :: rest[1..][i] == rest[i + 1];
  }

  lemma ReleasedAll(q: seq<Buffered>, headroom: int, out: seq<Buffered>, rest: seq<Buffered>, left: int)
    requires Released(q, headroom, out, rest, left) && (left <= 0 || rest == [])
    ensures Going(q, headroom) == |out| && rest == q[|out|..] && out == q[..|out|]
  {
  }

  /** Every frame left once those of dropped queues go is a listed channel's. */
  lemma DropUsed(g: Gate, listed: set<nat>)
    requires GateUsed(g, listed + g.dropped) && AllNumbered(g.waiting)
    ensures GateUsed(Gates.DropQueues(g), listed + {}) && AllNumbered(Gates.DropQueues(g).waiting)
  {
    SettleUsed(g, true, listed + g.dropped);
    WithoutNumbered(g.waiting, g.dropped);
  }

  class SendGate {
    const channels: ChannelTable
    var sendBuffer: seq<Buffered>
    var waitingForHeadroom: Fifo<Buffered>
    var waitingForHeadroomBytes: int
    var droppedQueues: set<nat>

    /** The byte count is what waits, each frame of it has its seq, and whatever is queued and not dropped is of a channel
        still listed. */
    ghost predicate Valid()
      reads this, waitingForHeadroom, channels
    {
      && waitingForHeadroom.Valid() && channels.Valid()
      && waitingForHeadroomBytes == BytesOf(waitingForHeadroom.Contents())
      && AllNumbered(waitingForHeadroom.Contents())
      && GateUsed(Value(), channels.records.Keys + droppedQueues)
    }

    ghost function Value(): Gate
      reads this, waitingForHeadroom
      requires waitingForHeadroom.Valid()
    {
      Gate(sendBuffer, waitingForHeadroom.Contents(), droppedQueues)
    }

    constructor (channels: ChannelTable)
      requires channels.Valid()
      ensures Valid() && this.channels == channels && Value() == Gate([], [], {}) && fresh(waitingForHeadroom)
    {
      this.channels := channels;
      sendBuffer, waitingForHeadroomBytes, droppedQueues := [], 0, {};
      waitingForHeadroom := new Fifo();
    }

    /** The bytes of the frames waiting for headroom. */
    function WaitingBytes(): int
      reads this, waitingForHeadroom, channels
      requires Valid()
      ensures WaitingBytes() == BytesOf(Value().waiting)
    {
      waitingForHeadroomBytes
    }

    /** A frame with no channel's seq behind it is dropped with its channel's others. */
    method DropQueues()
      requires Valid()
      modifies this
      ensures Valid() && Value() == Gates.DropQueues(old(Value()))
      ensures waitingForHeadroom == old(waitingForHeadroom) || fresh(waitingForHeadroom)
    {
      if droppedQueues == {} {
        return;
      }
      var waiting := waitingForHeadroom.Contents();
      DropUsed(Value(), channels.records.Keys);
      sendBuffer := Filter(sendBuffer, droppedQueues);
      if waiting != [] {
        DropWaiting(waiting, droppedQueues);
      }
      droppedQueues := {};
    }

    /** The frames waiting, but the `dropped` channels'. */
    method DropWaiting(waiting: seq<Buffered>, dropped: set<nat>)
      requires waitingForHeadroomBytes == BytesOf(waiting)
      modifies this`waitingForHeadroom, this`waitingForHeadroomBytes
      ensures fresh(waitingForHeadroom) && waitingForHeadroom.Valid()
      ensures waitingForHeadroom.Contents() == Without(waiting, dropped)
      ensures waitingForHeadroomBytes == BytesOf(Without(waiting, dropped))
    {
      var kept := new Fifo();
      for i := 0 to |waiting|
        invariant fresh(kept) && kept.Valid() && kept.Contents() == Without(waiting[..i], dropped)
        invariant waitingForHeadroomBytes == BytesOf(Without(waiting[..i], dropped)) + BytesOf(waiting[i..])
      {
        var e := waiting[i];
        assert waiting[..i + 1] == waiting[..i] + [e] && waiting[i..][1..] == waiting[i + 1..];
        WithoutAppend(waiting[..i], e, dropped);
        BytesOfAppend(Without(waiting[..i], dropped), [e]);
        assert BytesOf([e]) == |e.frame| by { assert [e][1..] == []; }
        if e.ix in dropped {
          waitingForHeadroomBytes := waitingForHeadroomBytes - |e.frame|;
        } else {
          kept.Push(e);
        }
      }
      assert waiting[..|waiting|] == waiting && waiting[|waiting|..] == [];
      waitingForHeadroom := kept;
    }

    /** `sendBuffer`; while sends are held back, the frames waiting for headroom move to its front. */
    method SettleQueue(sendsOpen: bool)
      requires Valid()
      modifies this
      ensures Valid() && Value() == Settle(old(Value()), sendsOpen)
      ensures waitingForHeadroom == old(waitingForHeadroom) || fresh(waitingForHeadroom)
    {
      DropQueues();
      if !sendsOpen && waitingForHeadroom.Length() > 0 {
        sendBuffer := waitingForHeadroom.Contents() + sendBuffer;
        waitingForHeadroom := new Fifo();
        waitingForHeadroomBytes := 0;
      }
    }

    /** Its channel's replay takes it; an unlisted channel has none. */
    method PushTo(e: Buffered)
      requires e.Numbered() && channels.Valid()
      modifies channels`records
      ensures channels.records == PushFor(old(channels.records), e) && channels.Valid()
    {
      if e.ix in channels.records {
        var record := channels.records[e.ix];
        channels.records := channels.records[e.ix := record.(replay := record.replay.Push(e.seqNo.value, e.frame))];
      }
    }

    method WaitForHeadroom(e: Buffered)
      requires waitingForHeadroom.Valid() && waitingForHeadroomBytes == BytesOf(waitingForHeadroom.Contents())
      modifies this`waitingForHeadroomBytes, waitingForHeadroom
      ensures waitingForHeadroom.Valid() && waitingForHeadroomBytes == BytesOf(waitingForHeadroom.Contents())
      ensures waitingForHeadroom.Contents() == old(waitingForHeadroom.Contents()) + [e]
    {
      BytesOfAppend(waitingForHeadroom.Contents(), [e]);
      assert BytesOf([e]) == |e.frame| by { assert [e][1..] == []; }
      waitingForHeadroom.Push(e);
      waitingForHeadroomBytes := waitingForHeadroomBytes + |e.frame|;
    }

    /** The front one goes. */
    method SendFront() returns (e: Buffered)
      requires waitingForHeadroom.Valid() && waitingForHeadroomBytes == BytesOf(waitingForHeadroom.Contents())
      requires waitingForHeadroom.Contents() != [] && waitingForHeadroom.Contents()[0].Numbered() && channels.Valid()
      modifies this`waitingForHeadroomBytes, waitingForHeadroom, channels`records
      ensures waitingForHeadroom.Valid() && waitingForHeadroomBytes == BytesOf(waitingForHeadroom.Contents())
      ensures e == old(waitingForHeadroom.Contents()[0]) && channels.Valid()
      ensures waitingForHeadroom.Contents() == old(waitingForHeadroom.Contents()[1..])
      ensures channels.records == PushFor(old(channels.records), e)
    {
      var front := waitingForHeadroom.Shift();
      e := front.value;
      waitingForHeadroomBytes := waitingForHeadroomBytes - |e.frame|;
      PushTo(e);
    }

    /** What waits for headroom goes, from the front, while there is some. */
    method SendWaiting(headroom: int) returns (out: seq<Buffered>)
      requires Valid()
      modifies this, waitingForHeadroom, channels`records
      ensures Valid() && (waitingForHeadroom == old(waitingForHeadroom) || fresh(waitingForHeadroom))
      ensures Outcome(Value(), channels.records, out) == Gates.SendWaiting(old(Value()), old(channels.records), headroom)
    {
      if waitingForHeadroom.Length() == 0 {
        return [];
      }
      SendWaitingUsed(Value(), channels.records, headroom, channels.records.Keys + droppedQueues);
      DropQueues();
      out := ReleaseWaiting(headroom);
    }

    /** The first frame waiting goes, after `out`. */
    method ReleaseFront(ghost q: seq<Buffered>, ghost headroom: int, out: seq<Buffered>, left: int, ghost was: Records)
      returns (more: seq<Buffered>, after: int)
      requires waitingForHeadroom.Valid() && waitingForHeadroomBytes == BytesOf(waitingForHeadroom.Contents())
      requires channels.Valid() && channels.records == PushEach(was, out) && left > 0
      requires waitingForHeadroom.Contents() != [] && Released(q, headroom, out, waitingForHeadroom.Contents(), left)
      modifies this`waitingForHeadroomBytes, waitingForHeadroom, channels`records
      ensures waitingForHeadroom.Valid() && waitingForHeadroomBytes == BytesOf(waitingForHeadroom.Contents())
      ensures channels.Valid() && channels.records == PushEach(was, more)
      ensures Released(q, headroom, more, waitingForHeadroom.Contents(), after)
      ensures |waitingForHeadroom.Contents()| < |old(waitingForHeadroom.Contents())|
    {
      ghost var rest := waitingForHeadroom.Contents();
      PushEachAppend(was, out, rest[0]);
      ReleasedOne(q, headroom, out, rest, left);
      var e := SendFront();
      return out + [e], left - |e.frame|;
    }

    method ReleaseWaiting(headroom: int) returns (out: seq<Buffered>)
      requires Valid()
      modifies this`waitingForHeadroomBytes, waitingForHeadroom, channels`records
      ensures waitingForHeadroom.Valid() && waitingForHeadroomBytes == BytesOf(waitingForHeadroom.Contents())
      ensures channels.Valid()
      ensures var q := old(waitingForHeadroom.Contents());
              var n := Going(q, headroom);
              && waitingForHeadroom.Contents() == q[n..] && out == q[..n]
              && channels.records == PushEach(old(channels.records), q[..n])
    {
      ghost var q := waitingForHeadroom.Contents();
      var left := headroom;
      out := [];
      while left > 0 && waitingForHeadroom.Length() > 0
        invariant waitingForHeadroom.Valid() && waitingForHeadroomBytes == BytesOf(waitingForHeadroom.Contents())
        invariant channels.Valid() && Released(q, headroom, out, waitingForHeadroom.Contents(), left)
        invariant channels.records == PushEach(old(channels.records), out)
        decreases |waitingForHeadroom.Contents()|
      {
        out, left := ReleaseFront(q, headroom, out, left, old(channels.records));
      }
      ReleasedAll(q, headroom, out, waitingForHeadroom.Contents(), left);
    }

    /** Held, till its channel may send. */
    method Hold(e: Buffered, sendsOpen: bool)
      requires Valid() && e.ix in channels.records && e.ix !in droppedQueues
      modifies this
      ensures Valid() && (waitingForHeadroom == old(waitingForHeadroom) || fresh(waitingForHeadroom))
      ensures Outcome(Value(), channels.records, []) == Gates.Hold(old(Value()), channels.records, e, sendsOpen)
    {
      SettleQueue(sendsOpen);
      sendBuffer := sendBuffer + [e];
    }

    /** Sends after the frames waiting for headroom; holds it while sends are held back or its channel isn't attached.
        `headroom` is the transport's before what waits goes, `after` once it went. */
    method Send(e: Buffered, sendsOpen: bool, headroom: int, after: int) returns (out: seq<Buffered>)
      requires Valid() && e.ix in channels.records && e.ix !in droppedQueues && e.Numbered()
      modifies this, waitingForHeadroom, channels`records
      ensures Valid() && (waitingForHeadroom == old(waitingForHeadroom) || fresh(waitingForHeadroom))
      ensures Outcome(Value(), channels.records, out)
              == Gates.Send(old(Value()), old(channels.records), e, sendsOpen, headroom, after)
    {
      if !sendsOpen || channels.records[e.ix].awaited {
        Hold(e, sendsOpen);
        return [];
      }
      SendWaitingUsed(Value(), channels.records, headroom, channels.records.Keys + droppedQueues);
      out := SendWaiting(headroom);
      var gone := SendAfter(e, after);
      out := out + gone;
    }

    /** Once what waited went: it goes too, or waits for headroom. */
    method SendAfter(e: Buffered, after: int) returns (gone: seq<Buffered>)
      requires Valid() && e.ix in channels.records && e.ix !in droppedQueues && e.Numbered()
      modifies this`waitingForHeadroomBytes, waitingForHeadroom, channels`records
      ensures Valid()
      ensures Outcome(Value(), channels.records, gone)
              == Gates.SendAfter(Outcome(old(Value()), old(channels.records), []), e, after)
    {
      if waitingForHeadroom.Length() == 0 && after > 0 {
        PushTo(e);
        return [e];
      }
      WaitForHeadroom(e);
      return [];
    }

    method SendUnsequenced(e: Buffered, sendsOpen: bool) returns (out: seq<Buffered>)
      requires Valid() && e.ix in channels.records && e.ix !in droppedQueues && e.seqNo.None?
      modifies this
      ensures Valid() && (waitingForHeadroom == old(waitingForHeadroom) || fresh(waitingForHeadroom))
      ensures Outcome(Value(), channels.records, out)
              == Gates.SendUnsequenced(old(Value()), channels.records, e, sendsOpen)
    {
      if !sendsOpen || channels.records[e.ix].awaited {
        Hold(e, sendsOpen);
        return [];
      }
      out := [e];
    }

    /** What it drained so far, as a value. */
    ghost function Drained(kept: seq<Buffered>, headroom: int, out: seq<Buffered>): Draining
      reads this, waitingForHeadroom, channels
      requires waitingForHeadroom.Valid()
    {
      Draining(kept, waitingForHeadroom.Contents(), headroom, channels.records, out)
    }

    ghost predicate Counts()
      reads this, waitingForHeadroom, channels
    {
      && waitingForHeadroom.Valid() && channels.Valid()
      && waitingForHeadroomBytes == BytesOf(waitingForHeadroom.Contents())
      && AllNumbered(waitingForHeadroom.Contents())
    }

    /** A releasable entry's turn: dropped, let go, or behind what waits for headroom. */
    method Release1(e: Buffered, superseded: bool, headroom: int, kept: seq<Buffered>, out: seq<Buffered>)
      returns (headroom': int, out': seq<Buffered>)
      requires Counts() && (superseded ==> LimitKey(e).Some?)
      modifies this`waitingForHeadroomBytes, waitingForHeadroom, channels`records
      ensures Counts() && Drained(kept, headroom', out') == old(Drained(kept, headroom, out)).Take(e, true, superseded)
    {
      headroom', out' := headroom, out;
      if superseded {
        return;
      }
      if e.Numbered() {
        if headroom <= 0 || waitingForHeadroom.Length() > 0 {
          WaitForHeadroom(e);
          return;
        }
        headroom' := headroom - |e.frame|;
        PushTo(e);
      }
      out' := out + [e];
    }

    /** Takes out what `releasable` channels held, in place. */
    method Drain(releasable: set<nat>, sendsOpen: bool, headroom: int) returns (out: seq<Buffered>)
      requires Valid()
      modifies this, waitingForHeadroom, channels`records
      ensures Valid() && (waitingForHeadroom == old(waitingForHeadroom) || fresh(waitingForHeadroom))
      ensures Outcome(Value(), channels.records, out)
              == Gates.Drain(old(Value()), old(channels.records), releasable, sendsOpen, headroom)
    {
      ghost var g := Value();
      ghost var used := channels.records.Keys + droppedQueues;
      DrainUsed(g, channels.records, releasable, sendsOpen, headroom, used);
      SettleQueue(sendsOpen);
      out := DrainBuffer(releasable, headroom);
    }

    /** What it drained of the first `readIx` held entries, the kept ones moved to the front. */
    ghost predicate DrainedTo(buffer: seq<Buffered>, releasable: set<nat>, from: Draining, readIx: nat, writeIx: nat,
                              left: int, out: seq<Buffered>)
      reads this, waitingForHeadroom, channels
    {
      && writeIx <= readIx <= |buffer| == |sendBuffer| && sendBuffer[readIx..] == buffer[readIx..] && Counts()
      && Drained(sendBuffer[..writeIx], left, out) == DrainFirst(buffer, readIx, releasable, from)
    }

    /** The next held entry stays, or has its turn. */
    method DrainNext(ghost buffer: seq<Buffered>, newest: map<(nat, byte), nat>, releasable: set<nat>,
                     ghost from: Draining, readIx: nat, writeIx: nat, left: int, out: seq<Buffered>)
      returns (writeIx': nat, left': int, out': seq<Buffered>)
      requires DrainedTo(buffer, releasable, from, readIx, writeIx, left, out) && readIx < |buffer|
      requires Newest(newest, buffer)
      modifies this`sendBuffer, this`waitingForHeadroomBytes, waitingForHeadroom, channels`records
      ensures DrainedTo(buffer, releasable, from, readIx + 1, writeIx', left', out')
    {
      var entry := sendBuffer[readIx];
      assert entry == buffer[readIx];
      NewestSupersedes(newest, buffer, readIx);
      writeIx', left', out' := writeIx, left, out;
      if entry.ix !in releasable {
        sendBuffer := sendBuffer[writeIx := entry];
        writeIx' := writeIx + 1;
      } else {
        var key := LimitKey(entry);
        left', out' := Release1(entry, key.Some? && newest[key.value] != readIx, left, sendBuffer[..writeIx], out);
      }
    }

    method DrainBuffer(releasable: set<nat>, headroom: int) returns (out: seq<Buffered>)
      requires Valid()
      modifies this`sendBuffer, this`waitingForHeadroomBytes, waitingForHeadroom, channels`records
      ensures Counts()
      ensures var from := Draining([], old(Value()).waiting, headroom, old(channels.records), []);
              var d := DrainFirst(old(sendBuffer), |old(sendBuffer)|, releasable, from);
              sendBuffer == d.kept && Value().waiting == d.waiting && channels.records == d.records && out == d.out
    {
      var newest := NewestLimits(sendBuffer);
      ghost var buffer := sendBuffer;
      ghost var from := Draining([], Value().waiting, headroom, channels.records, []);
      var left, writeIx: nat := headroom, 0;
      out := [];
      for readIx := 0 to |sendBuffer|
        invariant DrainedTo(buffer, releasable, from, readIx, writeIx, left, out)
      {
        writeIx, left, out := DrainNext(buffer, newest, releasable, from, readIx, writeIx, left, out);
      }
      sendBuffer := sendBuffer[..writeIx];
    }

    /** Takes out the held frames of every channel the server doesn't await. */
    method DrainSendable(sendsOpen: bool, headroom: int) returns (out: seq<Buffered>)
      requires Valid()
      modifies this, waitingForHeadroom, channels`records
      ensures Valid() && (waitingForHeadroom == old(waitingForHeadroom) || fresh(waitingForHeadroom))
      ensures Outcome(Value(), channels.records, out)
              == Gates.Drain(old(Value()), old(channels.records), Unawaited(old(channels.records)), sendsOpen, headroom)
    {
      out := Drain(Unawaited(channels.records), sendsOpen, headroom);
    }

    /** As `DrainSendable`, recording in `carriedFrom` the first seq each channel's frames carry. */
    method DrainForReconcile(carriedFrom: map<nat, nat>, sendsOpen: bool, headroom: int)
      returns (out: seq<Buffered>, carried: map<nat, nat>)
      requires Valid()
      modifies this, waitingForHeadroom, channels`records
      ensures Valid() && (waitingForHeadroom == old(waitingForHeadroom) || fresh(waitingForHeadroom))
      ensures carried == Carries(Settle(old(Value()), sendsOpen).buffer, Unawaited(old(channels.records)), carriedFrom)
      ensures var settled := Settle(old(Value()), sendsOpen);
              Outcome(Value(), channels.records, out)
              == Gates.Drain(settled, old(channels.records), Unawaited(old(channels.records)), sendsOpen, headroom)
    {
      SettleQueue(sendsOpen);
      carried := FirstCarried(sendBuffer, Unawaited(channels.records), carriedFrom);
      out := Drain(Unawaited(channels.records), sendsOpen, headroom);
    }

    /** Drops the held subscription frames the RECONCILE's declarations supersede. */
    method DropSubscriptionFrames(subscribing: set<nat>, sendsOpen: bool)
      requires Valid()
      modifies this
      ensures Valid() && Value() == DropSubscriptions(old(Value()), subscribing, sendsOpen)
      ensures waitingForHeadroom == old(waitingForHeadroom) || fresh(waitingForHeadroom)
    {
      SettleQueue(sendsOpen);
      WithoutSubscriptionsUsed(sendBuffer, subscribing, channels.records.Keys + droppedQueues);
      sendBuffer := FilterSubscriptions(sendBuffer, subscribing);
    }

    /** The channels whose frames wait to go. */
    method QueuedIxes(sendsOpen: bool) returns (ixes: set<nat>)
      requires Valid()
      modifies this
      ensures Valid() && Value() == Settle(old(Value()), sendsOpen)
      ensures waitingForHeadroom == old(waitingForHeadroom) || fresh(waitingForHeadroom)
      ensures ixes == (set e | e in Value().buffer + Value().waiting :: e.ix) && ixes <= channels.records.Keys
    {
      SettleQueue(sendsOpen);
      ixes := set e | e in sendBuffer + waitingForHeadroom.Contents() :: e.ix;
      assert forall e | e in sendBuffer + waitingForHeadroom.Contents() :: e.ix in channels.records;
    }

    /** Nothing waits to go. */
    method Idle(sendsOpen: bool) returns (idle: bool)
      requires Valid()
      modifies this
      ensures Valid() && Value() == Settle(old(Value()), sendsOpen)
      ensures waitingForHeadroom == old(waitingForHeadroom) || fresh(waitingForHeadroom)
      ensures idle <==> Value().buffer == [] && Value().waiting == []
    {
      SettleQueue(sendsOpen);
      idle := |sendBuffer| == 0 && waitingForHeadroom.Length() == 0;
    }

    /** Drops all the channel holds, its ATTACH_RESULT wait included. */
    method Release(ix: nat)
      requires Valid() && ix in channels.records
      modifies this`droppedQueues, channels
      ensures Valid() && Value() == Gates.DropQueue(old(Value()), ix)
      ensures channels.records == old(channels.records) - {ix} && channels.undeclared == old(channels.undeclared) - {ix}
      ensures channels.byChannel == old(channels.byChannel) - {ix} && channels.Known() == old(channels.Known())
    {
      channels.Release(ix);
      if |sendBuffer| == 0 && waitingForHeadroom.Length() == 0 {
        return;
      }
      droppedQueues := droppedQueues + {ix};
    }

    /** Drops the frames channel `ix` holds or has waiting, at the next read. */
    method DropQueue(ix: nat)
      requires Valid() && ix in channels.records
      modifies this`droppedQueues
      ensures Valid() && Value() == Gates.DropQueue(old(Value()), ix)
    {
      if |sendBuffer| == 0 && waitingForHeadroom.Length() == 0 {
        return;
      }
      droppedQueues := droppedQueues + {ix};
    }

    method Clear()
      requires Valid()
      modifies this
      ensures Valid() && Value() == Gate([], [], {}) && fresh(waitingForHeadroom)
    {
      sendBuffer, waitingForHeadroomBytes, droppedQueues := [], 0, {};
      waitingForHeadroom := new Fifo();
    }
  }
}
