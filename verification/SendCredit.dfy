/** What a channel may send, and the senders waiting for credit, oldest first. A waiter stands for one sender's promise;
    each method says which one it resolves. */
module SendCredits {
  import opened Bytes
  import opened Credits
  import opened Fifos

  /** `Waits`: for credit, or for its turn behind others. `Yields`: it goes on in a later task. `Ended`: the wait is over
      at once as the channel shut down, rejected if with an error. */
  datatype Turn = Goes | Yields | Waits | Ended(error: Option<nat>)

  class SendCredit {
    var sentBytes: nat
    var sentMessages: nat
    var limitBytes: nat
    var limitMessages: nat
    var peerByteWindowCap: nat
    var limitRaised: bool
    const waiters: Fifo<nat>
    /** A waiter was handed the credit and no send was counted since. */
    var released: bool
    var releases: nat
    var unyieldedBytes: nat
    const yieldBytes: Option<nat>
    var isShutdown: bool
    var shutdownError: Option<nat>
    /** Since the last ping, the least its wire held as credit ran out; `None` for none. */
    var leastBacklog: Option<nat>

    /** Nobody waits once it shut down. */
    ghost predicate Valid()
      reads this, waiters
    {
      waiters.Valid() && (isShutdown ==> waiters.Contents() == [])
    }

    function Model(): Spending
      reads this
    {
      Spending(sentBytes, sentMessages, limitBytes, limitMessages, peerByteWindowCap, limitRaised)
    }

    constructor (yieldBytes: Option<nat>)
      ensures Valid() && Model() == NEW_SPENDING && waiters.Contents() == [] && !released && !isShutdown && fresh(waiters)
    {
      this.yieldBytes := yieldBytes;
      sentBytes, sentMessages, limitBytes, limitMessages := 0, 0, WINDOW_INITIAL, MSG_WINDOW_INITIAL;
      peerByteWindowCap, limitRaised, released, releases, unyieldedBytes := WINDOW_MAX, false, false, 0, 0;
      leastBacklog, isShutdown, shutdownError := None, false, None;
      waiters := new Fifo();
    }

    predicate IsOutOfCredit()
      reads this
      ensures IsOutOfCredit() == Model().OutOfCredit()
    {
      limitBytes - sentBytes <= 0 || limitMessages - sentMessages <= 0
    }

    /** Keeps what it lets be in flight within the replay that holds what it sends. */
    method FitReplay(peerWindow: nat)
      modifies this`peerByteWindowCap, this`limitBytes
      ensures Model() == old(Model()).FitReplay(peerWindow)
    {
      peerByteWindowCap := Min(WINDOW_MAX, peerWindow);
      if !limitRaised {
        limitBytes := Min(WINDOW_INITIAL, peerByteWindowCap);
      }
    }

    method WaitForCredit(sender: nat) returns (turn: Turn)
      requires Valid()
      modifies this`unyieldedBytes, waiters
      ensures Valid() && turn == if isShutdown then Ended(shutdownError) else Waits
      ensures waiters.Contents() == old(waiters.Contents()) + if isShutdown then [] else [sender]
      ensures unyieldedBytes == if isShutdown then old(unyieldedBytes) else 0
    {
      if isShutdown {
        return Ended(shutdownError);
      }
      unyieldedBytes := 0;
      waiters.Push(sender);
      return Waits;
    }

    /** The oldest waiter's turn. */
    method ReleaseOne() returns (turn: Option<nat>)
      requires Valid()
      modifies this`released, this`releases, waiters
      ensures Valid()
      ensures turn == if old(waiters.Contents()) == [] then None else Some(old(waiters.Contents())[0])
      ensures waiters.Contents() == if old(waiters.Contents()) == [] then [] else old(waiters.Contents())[1..]
      ensures released == (old(released) || turn.Some?)
      ensures releases == old(releases) + if turn.Some? then 1 else 0
    {
      turn := waiters.Shift();
      if turn.Some? {
        released := true;
        releases := releases + 1;
      }
    }

    /** Its sender goes on, in a later task once this one is busy or sent enough. */
    method GoOn(bytes: nat, busy: bool) returns (turn: Turn)
      modifies this`unyieldedBytes
      ensures turn == if busy || (yieldBytes.Some? && old(unyieldedBytes) + bytes >= yieldBytes.value) then Yields else Goes
    {
      unyieldedBytes := unyieldedBytes + bytes;
      if busy || (yieldBytes.Some? && unyieldedBytes >= yieldBytes.value) {
        unyieldedBytes := 0;
        return Yields;
      }
      return Goes;
    }

    /** Counts a frame against credit. Its sender goes on with credit left and none waiting; behind others it waits, and
        the oldest of them gets its turn. */
    method Decrement(bytes: nat, sender: nat, busy: bool) returns (turn: Turn, resolved: Option<nat>)
      requires Valid()
      modifies this, waiters
      ensures Valid() && Model() == old(Model()).Send(bytes)
      ensures isShutdown == old(isShutdown) && shutdownError == old(shutdownError)
      ensures Model().OutOfCredit() ==>
                && turn == (if isShutdown then Ended(shutdownError) else Waits) && resolved == None
                && waiters.Contents() == old(waiters.Contents()) + if isShutdown then [] else [sender]
      ensures !Model().OutOfCredit() && old(waiters.Contents()) != [] ==>
                && turn == Waits && resolved == Some(old(waiters.Contents())[0])
                && waiters.Contents() == old(waiters.Contents())[1..] + [sender]
      ensures !Model().OutOfCredit() && old(waiters.Contents()) == [] ==>
                && resolved == None && waiters.Contents() == []
                && turn == if busy || (yieldBytes.Some? && old(unyieldedBytes) + bytes >= yieldBytes.value)
                           then Yields else Goes
      ensures released <==> resolved.Some?
    {
      sentBytes, sentMessages, released := sentBytes + bytes, sentMessages + 1, false;
      resolved := None;
      if IsOutOfCredit() {
        turn := WaitForCredit(sender);
      } else if waiters.Length() > 0 {
        resolved := ReleaseOne();
        turn := WaitForCredit(sender);
      } else {
        turn := GoOn(bytes, busy);
      }
    }

    /** One waiter at a time is handed the credit, and only if there is some. */
    method WakeOne() returns (resolved: Option<nat>)
      requires Valid()
      modifies this`released, this`releases, waiters
      ensures Valid()
      ensures var waited := old(waiters.Contents());
              var wakes := !old(released) && !Model().OutOfCredit() && waited != [];
              && resolved == (if wakes then Some(waited[0]) else None)
              && waiters.Contents() == (if wakes then waited[1..] else waited)
              && released == (old(released) || wakes)
              && releases == old(releases) + if wakes then 1 else 0
    {
      if isShutdown || released || IsOutOfCredit() {
        return None;
      }
      resolved := ReleaseOne();
    }

    /** The least the wire held as credit ran out; a runtime that can't tell counts as none held. */
    method NoteBacklog(backlog: Option<nat>)
      modifies this`leastBacklog
      ensures leastBacklog == if old(leastBacklog) == Some(0) || !Model().OutOfCredit() then old(leastBacklog)
                              else Some(Min(if old(leastBacklog).Some? then old(leastBacklog).value else
                                              (if backlog.Some? then backlog.value else 0),
                                            if backlog.Some? then backlog.value else 0))
    {
      if leastBacklog == Some(0) || !IsOutOfCredit() {
        return;
      }
      var held := if backlog.Some? then backlog.value else 0;
      leastBacklog := Some(if leastBacklog.Some? then Min(leastBacklog.value, held) else held);
    }

    /** Takes a byte limit's low 32 bits: what it raised the limit by, and the waiter that may go on. */
    method OnPeerByteWindow(bits: nat, backlog: Option<nat>) returns (raise: nat, resolved: Option<nat>)
      requires Valid()
      modifies this, waiters
      ensures Valid() && Model() == old(Model()).TakeByteLimit(bits) && raise == Raise(bits, old(limitBytes))
      ensures var waited := old(waiters.Contents());
              var wakes := raise > 0 && !old(released) && !Model().OutOfCredit() && waited != [];
              && resolved == (if wakes then Some(waited[0]) else None)
              && waiters.Contents() == if wakes then waited[1..] else waited
    {
      raise := Raise(bits, limitBytes);
      if raise == 0 {
        return 0, None;
      }
      NoteBacklog(backlog);
      limitBytes, limitRaised := limitBytes + raise, true;
      resolved := WakeOne();
    }

    method OnPeerMessageWindow(bits: nat, backlog: Option<nat>) returns (resolved: Option<nat>)
      requires Valid()
      modifies this, waiters
      ensures Valid() && Model() == old(Model()).TakeMessageLimit(bits)
      ensures var waited := old(waiters.Contents());
              var wakes := Raise(bits, old(limitMessages)) > 0 && !old(released) && !Model().OutOfCredit() && waited != [];
              && resolved == (if wakes then Some(waited[0]) else None)
              && waiters.Contents() == if wakes then waited[1..] else waited
    {
      var raise := Raise(bits, limitMessages);
      if raise == 0 {
        return None;
      }
      NoteBacklog(backlog);
      limitMessages := limitMessages + raise;
      resolved := WakeOne();
    }

    /** Answers a ping with the least its wire held since the last; `None` for none. */
    method OnPing(backlog: Option<nat>) returns (least: Option<nat>)
      modifies this`leastBacklog
      ensures leastBacklog == None
      ensures Model().OutOfCredit() ==> least.Some? && (old(leastBacklog).Some? ==> least.value <= old(leastBacklog).value)
      ensures !Model().OutOfCredit() ==> least == old(leastBacklog)
    {
      NoteBacklog(backlog);
      least := leastBacklog;
      leastBacklog := None;
    }

    /** A macrotask after release `release`, a waiter that has not sent passes its turn on. */
    method PassTurnOn(release: nat) returns (resolved: Option<nat>)
      requires Valid()
      modifies this`released, this`releases, waiters
      ensures Valid()
      ensures var waited, turn := old(waiters.Contents()), old(released) && old(releases) == release;
              && resolved == (if turn && !Model().OutOfCredit() && waited != [] then Some(waited[0]) else None)
              && waiters.Contents() == (if resolved.Some? then waited[1..] else waited)
              && released == (if turn then resolved.Some? else old(released))
    {
      if !released || releases != release {
        return None;
      }
      released := false;
      resolved := WakeOne();
    }

    /** Every wait ends, the oldest first, rejected if with an error, as does any to come. */
    method Shutdown(error: Option<nat>) returns (ended: seq<nat>)
      requires Valid()
      modifies this`isShutdown, this`shutdownError, waiters
      ensures Valid() && isShutdown && shutdownError == error
      ensures ended == old(waiters.Contents()) && waiters.Contents() == []
    {
      ended := [];
      while waiters.Length() > 0
        invariant waiters.Valid() && ended + waiters.Contents() == old(waiters.Contents())
        decreases waiters.Length()
      {
        var waiter := waiters.Shift();
        ended := ended + [waiter.value];
      }
      shutdownError, isShutdown := error, true;
    }
  }
}
