/** `Proletariat::Subscriber`: consumes one broker queue, hands each message
    body to a listener, and acknowledges each delivery on the channel once
    the listener's future for it is resolved. */
module Subscribers {
  import opened Values
  import opened Strings
  import opened QueueConfigs

  /** The state of a listener's future. An unscheduled future has not
      started running; it is not pending, so it counts as ready. */
  datatype FutureState = Pending | Unscheduled | Fulfilled(value: Value) | Rejected(reason: Value)

  /** How a future may have moved on while the subscriber was not looking:
      an unscheduled future may be scheduled and may finish, a pending one
      may finish (it never becomes unscheduled again), and a finished one
      stays as it is. */
  predicate CanEvolve(before: FutureState, after: FutureState) {
    before == after || (before.Pending? && !after.Unscheduled?) || before.Unscheduled?
  }

  /** `Acknowledger.new(future, delivery_tag)`. */
  datatype Acknowledger = Acknowledger(future: FutureState, deliveryTag: nat)

  /** An acknowledgement call on the channel. */
  datatype ChannelCall = Ack(tag: nat) | Reject(tag: nat, requeue: bool)

  /** Everything the subscriber asks of the broker and of the logger,
      in the order asked. */
  datatype Effect =
    | CreateChannel
    | Prefetch(count: int)
    | DeclareTopicExchange(name: string, durable: bool)
    | DeclareQueue(name: string, durable: bool, autoDelete: bool)
    | Bind(queue: string, exchange: string, routingKey: string)
    | Subscribe(queue: string)
    | Cancel
    | OnChannel(call: ChannelCall)
    | Warn(text: string)
    | ErrorLog(reason: Value)
    | Info(text: string)

  /** The acknowledgement call an effect makes, if it is one. */
  function CallOf(e: Effect): seq<ChannelCall> {
    if e.OnChannel? then [e.call] else []
  }

  /** The acknowledgement calls among `effects`, in order. */
  function ChannelCalls(effects: seq<Effect>): seq<ChannelCall> {
    if effects == [] then [] else CallOf(effects[0]) + ChannelCalls(effects[1..])
  }

  lemma {:induction false} ChannelCallsAppend(a: seq<Effect>, b: seq<Effect>)
    ensures ChannelCalls(a + b) == ChannelCalls(a) + ChannelCalls(b)
    decreases |a|
  {
    if a != [] {
      var ab := a + b;
      assert ab[0] == a[0];
      assert ab[1..] == a[1..] + b;
      assert ChannelCalls(ab) == CallOf(a[0]) + ChannelCalls(a[1..] + b);
      ChannelCallsAppend(a[1..], b);
      AppendAssoc(CallOf(a[0]), ChannelCalls(a[1..]), ChannelCalls(b));
    } else {
      assert a + b == b;
    }
  }

  /** The delivery tags of a list of channel calls. */
  function Tags(calls: seq<ChannelCall>): (tags: seq<nat>)
    ensures |tags| == |calls| && forall i :: 0 <= i < |calls| ==> tags[i] == calls[i].tag
  {
    seq(|calls|, i requires 0 <= i < |calls| => calls[i].tag)
  }

  lemma TagsAppend(a: seq<ChannelCall>, b: seq<ChannelCall>)
    ensures Tags(a + b) == Tags(a) + Tags(b)
  {
  }

  // ---------------------------------------------------------------------
  // Acknowledger

  /** `MAX_BLOCK_TIME`: the longest wait, in seconds, for an unresolved
      future when shutting down. */
  const MaxBlockTime := 5

  /** `ready_to_acknowledge?`: the future is no longer pending. */
  predicate ReadyToAcknowledge(a: Acknowledger) {
    a.future != Pending
  }

  /** `acknowledge_success`: the value of a fulfilled future picks the
      call. */
  function AcknowledgeSuccess(value: Value, tag: nat): (effects: seq<Effect>)
    ensures value == Sym("ok") ==> effects == [OnChannel(Ack(tag))]
    ensures value == Sym("drop") ==> effects == [OnChannel(Reject(tag, false))]
    ensures value == Sym("requeue") ==> effects == [OnChannel(Reject(tag, true))]
    ensures value !in {Sym("ok"), Sym("drop"), Sym("requeue")} ==>
      effects == [Warn("Unexpected return value from #work."), OnChannel(Reject(tag, false))]
  {
    if value == Sym("ok") then [OnChannel(Ack(tag))]
    else if value == Sym("drop") then [OnChannel(Reject(tag, false))]
    else if value == Sym("requeue") then [OnChannel(Reject(tag, true))]
    else [Warn("Unexpected return value from #work."), OnChannel(Reject(tag, false))]
  }

  /** `acknowledge_error`: the reason is logged and the message requeued. */
  function AcknowledgeError(reason: Value, tag: nat): (effects: seq<Effect>)
    ensures effects == [ErrorLog(reason), OnChannel(Reject(tag, true))]
  {
    [ErrorLog(reason), OnChannel(Reject(tag, true))]
  }

  /** `acknowledge_on_channel`. */
  function AcknowledgeOnChannel(a: Acknowledger): seq<Effect> {
    match a.future
    case Fulfilled(v) => AcknowledgeSuccess(v, a.deliveryTag)
    case Rejected(r) => AcknowledgeError(r, a.deliveryTag)
    case _ => []
  }

  /** A resolved future produces exactly one channel call, for its own
      delivery tag; an unresolved one produces nothing at all. */
  lemma ExactlyOneCall(a: Acknowledger)
    ensures (a.future.Fulfilled? || a.future.Rejected?) ==>
      Tags(ChannelCalls(AcknowledgeOnChannel(a))) == [a.deliveryTag]
    ensures (a.future.Pending? || a.future.Unscheduled?) ==> AcknowledgeOnChannel(a) == []
  {
    var e := AcknowledgeOnChannel(a);
    if |e| == 2 {
      assert ChannelCalls(e) == ChannelCalls(e[1..]);
    }
  }

  /** A rejected worker future is requeued, never acked or dropped. */
  lemma RejectedIsRequeued(reason: Value, tag: nat)
    ensures ChannelCalls(AcknowledgeOnChannel(Acknowledger(Rejected(reason), tag))) == [Reject(tag, true)]
  {
    var e := AcknowledgeOnChannel(Acknowledger(Rejected(reason), tag));
    assert e == [ErrorLog(reason), OnChannel(Reject(tag, true))];
    assert ChannelCalls(e) == ChannelCalls(e[1..]);
  }

  /** `block_until_acknowledged`: wait (at most `MaxBlockTime` seconds) for
      the future, which is then in state `after`, and acknowledge. */
  function BlockUntilAcknowledged(a: Acknowledger, after: FutureState): (effects: seq<Effect>)
    requires CanEvolve(a.future, after)
    ensures after.Pending? ==> effects == []
  {
    AcknowledgeOnChannel(Acknowledger(after, a.deliveryTag))
  }

  // ---------------------------------------------------------------------
  // Lists of acknowledgers

  /** `ready_acknowledgers`: the ready ones, in list order. */
  function Ready(s: seq<Acknowledger>): seq<Acknowledger> {
    if s == [] then []
    else (if ReadyToAcknowledge(s[0]) then [s[0]] else []) + Ready(s[1..])
  }

  /** The ones still pending, in list order. */
  function StillPending(s: seq<Acknowledger>): seq<Acknowledger> {
    if s == [] then []
    else (if ReadyToAcknowledge(s[0]) then [] else [s[0]]) + StillPending(s[1..])
  }

  /** `s` without the given ones (`Array#delete` for each). */
  function Except(s: seq<Acknowledger>, gone: seq<Acknowledger>): seq<Acknowledger> {
    if s == [] then []
    else (if s[0] in gone then [] else [s[0]]) + Except(s[1..], gone)
  }

  /** The ready list holds exactly the ready members of the list. */
  lemma {:induction false} ReadyMembers(s: seq<Acknowledger>)
    ensures forall a :: a in Ready(s) <==> a in s && ReadyToAcknowledge(a)
  {
    if s != [] {
      ReadyMembers(s[1..]);
      assert s == [s[0]] + s[1..];
    }
  }

  /** What stays after `on_task` is exactly the members still pending. */
  lemma {:induction false} StillPendingMembers(s: seq<Acknowledger>)
    ensures forall a :: a in StillPending(s) <==> a in s && !ReadyToAcknowledge(a)
  {
    if s != [] {
      StillPendingMembers(s[1..]);
      assert s == [s[0]] + s[1..];
    }
  }

  /** Deleting keeps exactly the members not deleted. */
  lemma {:induction false} ExceptMembers(s: seq<Acknowledger>, gone: seq<Acknowledger>)
    ensures forall a :: a in Except(s, gone) <==> a in s && a !in gone
  {
    if s != [] {
      ExceptMembers(s[1..], gone);
      assert s == [s[0]] + s[1..];
    }
  }

  lemma {:induction false} ExceptOneMore(s: seq<Acknowledger>, gone: seq<Acknowledger>, x: Acknowledger)
    ensures Except(Except(s, gone), [x]) == Except(s, gone + [x])
    decreases |s|
  {
    if s != [] {
      ExceptOneMore(s[1..], gone, x);
      var head := if s[0] in gone then [] else [s[0]];
      assert Except(s, gone) == head + Except(s[1..], gone);
      ExceptAppend(head, Except(s[1..], gone), [x]);
    }
  }

  /** Deleting nothing keeps the list. */
  lemma {:induction false} ExceptNothing(s: seq<Acknowledger>)
    ensures Except(s, []) == s
  {
    if s != [] {
      ExceptNothing(s[1..]);
      assert s == [s[0]] + s[1..];
    }
  }

  lemma {:induction false} ExceptAppend(a: seq<Acknowledger>, b: seq<Acknowledger>, gone: seq<Acknowledger>)
    ensures Except(a + b, gone) == Except(a, gone) + Except(b, gone)
    decreases |a|
  {
    if a != [] {
      assert (a + b)[0] == a[0];
      assert (a + b)[1..] == a[1..] + b;
      ExceptAppend(a[1..], b, gone);
      var head := if a[0] in gone then [] else [a[0]];
      AppendAssoc(head, Except(a[1..], gone), Except(b, gone));
    } else {
      assert a + b == b;
    }
  }

  /** Deleting every ready one leaves exactly the pending ones, in their
      original order. */
  lemma {:induction false} ExceptReadyIsStillPending(s: seq<Acknowledger>, ready: seq<Acknowledger>)
    requires forall a :: a in s ==> (a in ready <==> ReadyToAcknowledge(a))
    ensures Except(s, ready) == StillPending(s)
    decreases |s|
  {
    if s != [] {
      ExceptReadyIsStillPending(s[1..], ready);
    }
  }

  /** An acknowledger whose future was never scheduled counts as ready, so
      `on_task` removes it, yet acknowledging it makes no channel call: its
      delivery is neither acked nor rejected. */
  lemma UnscheduledReapedUnacknowledged(s: seq<Acknowledger>, tag: nat)
    requires Acknowledger(Unscheduled, tag) in s
    ensures Acknowledger(Unscheduled, tag) in Ready(s)
    ensures Acknowledger(Unscheduled, tag) !in StillPending(s)
    ensures ChannelCalls(AcknowledgeOnChannel(Acknowledger(Unscheduled, tag))) == []
  {
    ReadyMembers(s);
    StillPendingMembers(s);
  }

  /** The effects of acknowledging each of `rs`, first to last. */
  function AcknowledgeAll(rs: seq<Acknowledger>): seq<Effect> {
    if rs == [] then [] else AcknowledgeAll(rs[..|rs| - 1]) + AcknowledgeOnChannel(rs[|rs| - 1])
  }

  /** One more pass of `on_task`'s loop: acknowledge the next ready one and
      delete it. */
  lemma OnTaskStep(all: seq<Acknowledger>, ready: seq<Acknowledger>, i: nat)
    requires i < |ready|
    ensures AcknowledgeAll(ready[..i + 1]) == AcknowledgeAll(ready[..i]) + AcknowledgeOnChannel(ready[i])
    ensures Except(Except(all, ready[..i]), [ready[i]]) == Except(all, ready[..i + 1])
  {
    assert ready[..i + 1][..i] == ready[..i];
    ExceptOneMore(all, ready[..i], ready[i]);
    assert ready[..i + 1] == ready[..i] + [ready[i]];
  }

  /** The delivery tags of the resolved ones among `rs`, in order. */
  function ResolvedTags(rs: seq<Acknowledger>): seq<nat> {
    if rs == [] then []
    else
      var last := rs[|rs| - 1];
      ResolvedTags(rs[..|rs| - 1]) + (if last.future.Fulfilled? || last.future.Rejected? then [last.deliveryTag] else [])
  }

  /** Acknowledging a list makes one channel call per resolved entry, for
      its tag, in list order, and none for the others. */
  lemma {:induction false} AcknowledgeAllCalls(rs: seq<Acknowledger>)
    ensures Tags(ChannelCalls(AcknowledgeAll(rs))) == ResolvedTags(rs)
    decreases |rs|
  {
    if rs != [] {
      var init, last := rs[..|rs| - 1], rs[|rs| - 1];
      AcknowledgeAllCalls(init);
      ChannelCallsAppend(AcknowledgeAll(init), AcknowledgeOnChannel(last));
      ExactlyOneCall(last);
      TagsAppend(ChannelCalls(AcknowledgeAll(init)), ChannelCalls(AcknowledgeOnChannel(last)));
    }
  }

  /** What the shutdown drain does: pop from the back, wait for each
      future, which is then in the state `after` gives for its position,
      and acknowledge it. */
  function AcknowledgeFromBack(acks: seq<Acknowledger>, after: seq<FutureState>): seq<Effect>
    requires |after| == |acks|
    requires forall i :: 0 <= i < |acks| ==> CanEvolve(acks[i].future, after[i])
  {
    if acks == [] then []
    else
      var n := |acks| - 1;
      BlockUntilAcknowledged(acks[n], after[n]) + AcknowledgeFromBack(acks[..n], after[..n])
  }

  /** The drain acknowledges in reverse list order, each entry by the state
      its future reached, and a future still pending after the wait is
      dropped with no channel call. */
  lemma {:induction false} AcknowledgeFromBackCalls(acks: seq<Acknowledger>, after: seq<FutureState>)
    requires |after| == |acks|
    requires forall i :: 0 <= i < |acks| ==> CanEvolve(acks[i].future, after[i])
    ensures Tags(ChannelCalls(AcknowledgeFromBack(acks, after))) == ResolvedTags(Reversed(Settled(acks, after)))
    decreases |acks|
  {
    if acks != [] {
      var n := |acks| - 1;
      var a := Acknowledger(after[n], acks[n].deliveryTag);
      AcknowledgeFromBackCalls(acks[..n], after[..n]);
      ChannelCallsAppend(AcknowledgeOnChannel(a), AcknowledgeFromBack(acks[..n], after[..n]));
      TagsAppend(ChannelCalls(AcknowledgeOnChannel(a)), ChannelCalls(AcknowledgeFromBack(acks[..n], after[..n])));
      var r := Reversed(Settled(acks[..n], after[..n]));
      SettledLastFirst(acks, after);
      ResolvedTagsCons(a, r);
      ExactlyOneCall(a);
    }
  }

  /** Each acknowledger with its future in the state it reached. */
  function Settled(acks: seq<Acknowledger>, after: seq<FutureState>): (r: seq<Acknowledger>)
    requires |after| == |acks|
    ensures |r| == |acks|
    ensures forall i :: 0 <= i < |r| ==> r[i] == Acknowledger(after[i], acks[i].deliveryTag)
  {
    seq(|acks|, i requires 0 <= i < |acks| => Acknowledger(after[i], acks[i].deliveryTag))
  }

  /** Reversing the settled list puts the last entry first. */
  lemma SettledLastFirst(acks: seq<Acknowledger>, after: seq<FutureState>)
    requires |after| == |acks| && acks != []
    ensures Reversed(Settled(acks, after)) ==
      [Acknowledger(after[|acks| - 1], acks[|acks| - 1].deliveryTag)] +
      Reversed(Settled(acks[..|acks| - 1], after[..|acks| - 1]))
  {
    var n := |acks| - 1;
    assert Settled(acks, after)[..n] == Settled(acks[..n], after[..n]);
  }

  function Reversed<T>(s: seq<T>): (r: seq<T>)
    ensures |r| == |s|
    ensures forall i :: 0 <= i < |s| ==> r[i] == s[|s| - 1 - i]
  {
    if s == [] then [] else [s[|s| - 1]] + Reversed(s[..|s| - 1])
  }

  lemma {:induction false} ResolvedTagsCons(a: Acknowledger, rs: seq<Acknowledger>)
    ensures ResolvedTags([a] + rs) ==
      (if a.future.Fulfilled? || a.future.Rejected? then [a.deliveryTag] else []) + ResolvedTags(rs)
    decreases |rs|
  {
    if rs != [] {
      var s := [a] + rs;
      assert s[..|s| - 1] == [a] + rs[..|rs| - 1];
      ResolvedTagsCons(a, rs[..|rs| - 1]);
    } else {
      assert ([a] + rs)[..0] == [];
    }
  }

  // ---------------------------------------------------------------------
  // The subscriber

  /** `bind_queue`: one binding per routing key, in order. */
  function Bindings(queue: string, exchange: string, keys: seq<string>): (b: seq<Effect>)
    ensures |b| == |keys|
    ensures forall i :: 0 <= i < |keys| ==> b[i] == Bind(queue, exchange, keys[i])
  {
    seq(|keys|, i requires 0 <= i < |keys| => Bind(queue, exchange, keys[i]))
  }

  class Subscriber {
    /** `"#{self.class.name} #{object_id}"`, the prefix of `log_info`. */
    const identity: string
    /** `listener.post?(body)`: the future the listener returns for a body. */
    const listener: string -> FutureState
    const queueConfig: QueueConfig
    const exchangeName: string
    /** `@consumer` is set. */
    var consuming: bool
    var acknowledgers: seq<Acknowledger>
    var effects: seq<Effect>

    /** `new(listener, queue_config)`: open a channel, prefetch the worker
        thread count, declare the durable topic exchange and the durable
        queue, and bind it. */
    constructor(identity: string, listener: string -> FutureState, queueConfig: QueueConfig,
                exchangeName: string, workerThreads: int)
      ensures this.identity == identity && this.listener == listener
      ensures this.queueConfig == queueConfig && this.exchangeName == exchangeName
      ensures effects ==
        [CreateChannel, Prefetch(workerThreads), DeclareTopicExchange(exchangeName, true),
         DeclareQueue(ConfigQueueName(queueConfig), true, queueConfig.autoDelete)] +
        Bindings(ConfigQueueName(queueConfig), exchangeName, queueConfig.routingKeys)
      ensures acknowledgers == [] && !consuming
    {
      this.identity := identity;
      this.listener := listener;
      this.queueConfig := queueConfig;
      this.exchangeName := exchangeName;
      consuming := false;
      acknowledgers := [];
      effects := [CreateChannel, Prefetch(workerThreads), DeclareTopicExchange(exchangeName, true),
                  DeclareQueue(ConfigQueueName(queueConfig), true, queueConfig.autoDelete)];
      new;
      BindQueue();
    }

    /** `bind_queue`. */
    method BindQueue()
      modifies this
      ensures effects == old(effects) + Bindings(ConfigQueueName(queueConfig), exchangeName, queueConfig.routingKeys)
      ensures acknowledgers == old(acknowledgers) && consuming == old(consuming)
    {
      var keys := queueConfig.routingKeys;
      var queue := ConfigQueueName(queueConfig);
      var i := 0;
      while i < |keys|
        invariant 0 <= i <= |keys|
        invariant effects == old(effects) + Bindings(queue, exchangeName, keys[..i])
        invariant acknowledgers == old(acknowledgers) && consuming == old(consuming)
      {
        effects := effects + [Bind(queue, exchangeName, keys[i])];
        i := i + 1;
      }
      assert keys[..i] == keys;
    }

    method OnRun()
      modifies this
      ensures effects == old(effects) + [Subscribe(ConfigQueueName(queueConfig)), Info(identity + ": Now online")]
      ensures consuming && acknowledgers == old(acknowledgers)
    {
      StartConsumer();
      effects := effects + [Info(identity + ": Now online")];
    }

    /** `start_consumer`: subscribe with manual acknowledgement; each
        delivery runs `Deliver`. */
    method StartConsumer()
      modifies this
      ensures effects == old(effects) + [Subscribe(ConfigQueueName(queueConfig))]
      ensures consuming && acknowledgers == old(acknowledgers)
    {
      effects := effects + [Subscribe(ConfigQueueName(queueConfig))];
      consuming := true;
    }

    /** The consumer's block: the body goes to the listener, and one
        acknowledger for this delivery joins the end of the list. */
    method Deliver(deliveryTag: nat, body: string) returns (r: Value)
      modifies this
      ensures acknowledgers == old(acknowledgers) + [Acknowledger(listener(body), deliveryTag)]
      ensures effects == old(effects) && consuming == old(consuming)
      ensures r == Nil
    {
      var future := listener(body);
      acknowledgers := acknowledgers + [Acknowledger(future, deliveryTag)];
      r := Nil;
    }

    /** Other threads move the listener's futures on. */
    method FuturesProgress(states: seq<FutureState>)
      requires |states| == |acknowledgers|
      requires forall i :: 0 <= i < |states| ==> CanEvolve(acknowledgers[i].future, states[i])
      modifies this
      ensures acknowledgers == Settled(old(acknowledgers), states)
      ensures effects == old(effects) && consuming == old(consuming)
    {
      acknowledgers := Settled(acknowledgers, states);
    }

    /** `on_task`: acknowledge each ready acknowledger, in list order, and
        delete it; the pending ones stay, in order. */
    method OnTask()
      modifies this
      ensures effects == old(effects) + AcknowledgeAll(Ready(old(acknowledgers)))
      ensures acknowledgers == StillPending(old(acknowledgers))
      ensures consuming == old(consuming)
    {
      ghost var all := acknowledgers;
      var ready := Ready(acknowledgers);
      var i := 0;
      ExceptNothing(all);
      while i < |ready|
        invariant 0 <= i <= |ready|
        invariant effects == old(effects) + AcknowledgeAll(ready[..i])
        invariant acknowledgers == Except(all, ready[..i])
        invariant consuming == old(consuming)
      {
        OnTaskStep(all, ready, i);
        AppendAssoc(old(effects), AcknowledgeAll(ready[..i]), AcknowledgeOnChannel(ready[i]));
        effects := effects + AcknowledgeOnChannel(ready[i]);
        acknowledgers := Except(acknowledgers, [ready[i]]);
        i := i + 1;
      }
      assert ready[..i] == ready;
      ReadyMembers(all);
      ExceptReadyIsStillPending(all, ready);
    }

    /** `on_stop`: `after` gives, position by position, the state each
        future is in once its bounded wait is over. */
    method OnStop(after: seq<FutureState>)
      requires |after| == |acknowledgers|
      requires forall i :: 0 <= i < |after| ==> CanEvolve(acknowledgers[i].future, after[i])
      modifies this
      ensures effects == old(effects) + [Info(identity + ": Attempting graceful shutdown.")] +
        StopConsumerEffects(identity, old(consuming), old(acknowledgers), after) + [Info(identity + ": Now offline")]
      ensures acknowledgers == [] && consuming == old(consuming)
    {
      effects := effects + [Info(identity + ": Attempting graceful shutdown.")];
      StopConsumer(after);
      effects := effects + [Info(identity + ": Now offline")];
    }

    /** `stop_consumer`. */
    method StopConsumer(after: seq<FutureState>)
      requires |after| == |acknowledgers|
      requires forall i :: 0 <= i < |after| ==> CanEvolve(acknowledgers[i].future, after[i])
      modifies this
      ensures effects == old(effects) + StopConsumerEffects(identity, old(consuming), old(acknowledgers), after)
      ensures acknowledgers == [] && consuming == old(consuming)
    {
      ghost var before := effects;
      ghost var cancel := if consuming then [Cancel] else [];
      if consuming {
        effects := effects + [Cancel];
      }
      assert effects == before + cancel;
      if acknowledgers != [] {
        ghost var waiting := [Info(identity + ": Waiting for unacknowledged messages.")] +
          AcknowledgeFromBack(acknowledgers, after);
        WaitForAcknowledgers(after);
        AppendAssoc(before, cancel, waiting);
        assert StopConsumerEffects(identity, old(consuming), old(acknowledgers), after) == cancel + waiting;
      } else {
        assert StopConsumerEffects(identity, old(consuming), old(acknowledgers), after) == cancel + [];
        assert cancel + [] == cancel;
      }
    }

    /** `wait_for_acknowledgers`: pop from the back until the list is empty,
        blocking on each. */
    method WaitForAcknowledgers(after: seq<FutureState>)
      requires |after| == |acknowledgers|
      requires forall i :: 0 <= i < |after| ==> CanEvolve(acknowledgers[i].future, after[i])
      modifies this
      ensures effects == old(effects) + [Info(identity + ": Waiting for unacknowledged messages.")] +
        AcknowledgeFromBack(old(acknowledgers), after)
      ensures acknowledgers == [] && consuming == old(consuming)
    {
      effects := effects + [Info(identity + ": Waiting for unacknowledged messages.")];
      ghost var start := effects;
      ghost var all := acknowledgers;
      assert after[..|acknowledgers|] == after;
      while acknowledgers != []
        invariant |acknowledgers| <= |all| && acknowledgers == all[..|acknowledgers|]
        invariant start + AcknowledgeFromBack(all, after) ==
          effects + AcknowledgeFromBack(acknowledgers, after[..|acknowledgers|])
        invariant consuming == old(consuming)
        decreases |acknowledgers|
      {
        var n := |acknowledgers| - 1;
        var a := acknowledgers[n];
        assert after[..n + 1][..n] == after[..n];
        assert acknowledgers[..n] == all[..n];
        AppendAssoc(effects, BlockUntilAcknowledged(a, after[n]), AcknowledgeFromBack(all[..n], after[..n]));
        acknowledgers := acknowledgers[..n];
        effects := effects + BlockUntilAcknowledged(a, after[n]);
      }
    }
  }

  /** What `stop_consumer` asks for: cancel the consumer first, if there is
      one, then, if any acknowledgers are left, drain them from the back. */
  function StopConsumerEffects(identity: string, consuming: bool, acks: seq<Acknowledger>, after: seq<FutureState>): seq<Effect>
    requires |after| == |acks|
    requires forall i :: 0 <= i < |acks| ==> CanEvolve(acks[i].future, after[i])
  {
    (if consuming then [Cancel] else []) +
    (if acks != [] then [Info(identity + ": Waiting for unacknowledged messages.")] + AcknowledgeFromBack(acks, after)
     else [])
  }
}
