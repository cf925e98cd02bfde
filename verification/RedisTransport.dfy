/** The transport whose publishes wait for its SUBSCRIBEs, each method the step of the same name in `RedisOrder`, the order
    of publishes kept. */
module RedisTransports {
  import opened Bytes
  import opened RedisOrder

  class RedisTransport {
    var subscribing: seq<Pending>
    var subscribesSent: nat
    var failedSubscribes: set<string>
    var waiters: seq<Publish>
    /** Publishes let go or rejected, whose task resumes later, in order. */
    var resuming: seq<Resuming>
    var calls: nat
    var issued: seq<Publish>
    var refused: seq<Publish>

    function Model(): Transport
      reads this
    {
      Transport(subscribing, subscribesSent, failedSubscribes, waiters, resuming, calls, issued, refused)
    }

    constructor ()
      ensures Model() == NEW_TRANSPORT
    {
      subscribing, subscribesSent, failedSubscribes, waiters := [], 0, {}, [];
      resuming, calls, issued, refused := [], 0, [], [];
    }

    method SubscribeTo(channel: string)
      modifies this
      ensures Model() == old(Model()).Subscribe(channel)
      ensures old(Model().Kept()) ==> Model().Kept()
    {
      ghost var was := Model();
      subscribesSent := subscribesSent + 1;
      subscribing := subscribing + [Pending(channel, subscribesSent)];
      if was.Kept() {
        SubscribeKept(was, channel);
      }
    }

    /** A SUBSCRIBE was acknowledged, or failed; one withdrawn meanwhile, or replaced by another, settles nothing. */
    method SettleSubscribe(p: Pending, ok: bool)
      modifies this
      ensures Model() == old(Model()).Settle(p, ok)
      ensures old(Model().Kept()) ==> Model().Kept()
    {
      ghost var was := Model();
      if p !in subscribing {
        return;
      }
      subscribing := Without(subscribing, p);
      if !ok {
        failedSubscribes := failedSubscribes + {p.channel};
        RejectFrom(p.order);
      }
      ReleaseWaiters();
      if was.Kept() {
        SettleKept(was, p, ok);
      }
    }

    /** The publishes sent after the SUBSCRIBE of `order` waited for it: they fail with it. */
    method RejectFrom(order: nat)
      modifies this`waiters, this`resuming
      ensures Model() == old(Model()).RejectFrom(order)
    {
      while |waiters| > 0 && waiters[|waiters| - 1].upTo >= order
        invariant Model().RejectFrom(order) == old(Model()).RejectFrom(order)
        decreases |waiters|
      {
        var last := |waiters| - 1;
        resuming := resuming + [Resuming(waiters[last], false)];
        waiters := waiters[..last];
      }
    }

    /** Lets each publish go, in order, once every SUBSCRIBE sent before it is acknowledged. */
    method ReleaseWaiters()
      modifies this`waiters, this`resuming
      ensures Model() == old(Model()).ReleaseWaiters()
    {
      var oldest := if subscribing == [] then None else Some(subscribing[0].order);
      while |waiters| > 0 && (oldest.None? || waiters[0].upTo < oldest.value)
        invariant Model().ReleaseWaiters() == old(Model()).ReleaseWaiters()
        invariant oldest == if subscribing == [] then None else Some(subscribing[0].order)
        decreases |waiters|
      {
        resuming := resuming + [Resuming(waiters[0], true)];
        waiters := waiters[1..];
      }
    }

    method UnsubscribeFrom(channel: string)
      modifies this
      ensures Model() == old(Model()).Unsubscribe(channel)
      ensures old(Model().Kept()) ==> Model().Kept()
    {
      ghost var was := Model();
      subscribing := WithoutChannel(subscribing, channel);
      failedSubscribes := failedSubscribes - {channel};
      ReleaseWaiters();
      if was.Kept() {
        UnsubscribeKept(was, channel);
      }
    }

    /** Its command goes at once, or once those before it and its SUBSCRIBEs are out of the way; a failed SUBSCRIBE
        refuses it. */
    method TakePublish()
      modifies this
      ensures Model() == old(Model()).TakePublish()
      ensures old(Model().Kept()) ==> Model().Kept()
    {
      ghost var was := Model();
      var p := Publish(calls, subscribesSent);
      calls := calls + 1;
      if |failedSubscribes| > 0 {
        refused := refused + [p];
      } else if |subscribing| > 0 || |waiters| + |resuming| > 0 {
        waiters := waiters + [p];
        ReleaseWaiters();
      } else {
        issued := issued + [p];
      }
      if was.Kept() {
        PublishKept(was);
      }
    }

    /** The task of the publish first let go or rejected resumes. */
    method ResumeOne()
      requires resuming != []
      modifies this
      ensures Model() == old(Model()).Resume()
      ensures old(Model().Kept()) ==> Model().Kept()
    {
      ghost var was := Model();
      var first := resuming[0];
      resuming := resuming[1..];
      if first.ok {
        issued := issued + [first.publish];
      } else {
        refused := refused + [first.publish];
      }
      if was.Kept() {
        ResumeKept(was);
      }
    }
  }
}
