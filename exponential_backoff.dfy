/** `Proletariat::ExceptionHandler::ExponentialBackoff`: a handler that parks
    each failed message in a delay queue whose time-to-live grows with the
    number of earlier failures. When the time-to-live runs out, the broker
    dead-letters the message to a requeue queue. A consumer on that queue
    publishes it again to the routing key it first failed on. */
module ExponentialBackoffs {
  import opened Values
  import opened Strings
  import opened Messages

  // ---------------------------------------------------------------------
  // The delay ladder

  function Pow(b: nat, e: nat): nat {
    if e == 0 then 1 else b * Pow(b, e - 1)
  }

  lemma {:induction false} PowPositive(b: nat, e: nat)
    requires b >= 1
    ensures Pow(b, e) >= 1
  {
    if e > 0 {
      PowPositive(b, e - 1);
    }
  }

  lemma PowAtLeastBase(b: nat, e: nat)
    requires b >= 1 && e >= 1
    ensures Pow(b, e) >= b
  {
    PowPositive(b, e - 1);
  }

  lemma {:induction false} PowMonotoneInBase(b: nat, c: nat, e: nat)
    requires b <= c
    ensures Pow(b, e) <= Pow(c, e)
  {
    if e > 0 {
      PowMonotoneInBase(b, c, e - 1);
      MulMonotone(b, Pow(b, e - 1), c, Pow(c, e - 1));
    }
  }

  lemma MulMonotone(a: nat, b: nat, c: nat, d: nat)
    requires a <= c && b <= d
    ensures a * b <= c * d
  {
    assert c * d - a * b == (c - a) * d + a * (d - b);
  }

  /** `i**i` grows strictly with `i`. */
  lemma SelfPowerStep(i: nat)
    requires i >= 1
    ensures Pow(i, i) < Pow(i + 1, i + 1)
  {
    PowMonotoneInBase(i, i + 1, i);
    PowPositive(i + 1, i);
    assert Pow(i + 1, i + 1) == (i + 1) * Pow(i + 1, i);
  }

  lemma {:induction false} SelfPowerMonotone(a: nat, b: nat)
    requires 1 <= a < b
    ensures Pow(a, a) < Pow(b, b)
    decreases b - a
  {
    SelfPowerStep(a);
    if a + 1 < b {
      SelfPowerMonotone(a + 1, b);
    }
  }

  /** `i**i` for `i = start, start + 1, …` while below `cap`. */
  function SelfPowersBelow(start: nat, cap: int): seq<nat>
    requires start >= 1
    decreases cap - start
  {
    if Pow(start, start) < cap then
      PowAtLeastBase(start, start);
      [Pow(start, start)] + SelfPowersBelow(start + 1, cap)
    else []
  }

  /** The list holds exactly the self-powers below the cap, in order, and
      the next one would not be. */
  lemma {:induction false} SelfPowersBelowSpec(start: nat, cap: int)
    requires start >= 1
    ensures var s := SelfPowersBelow(start, cap);
      (forall k :: 0 <= k < |s| ==> s[k] == Pow(start + k, start + k) && s[k] < cap) &&
      Pow(start + |s|, start + |s|) >= cap
    decreases cap - start
  {
    if Pow(start, start) < cap {
      PowAtLeastBase(start, start);
      SelfPowersBelowSpec(start + 1, cap);
    }
  }

  /** The ladder in seconds: the self-powers below the cap, then the cap. */
  function LadderSeconds(maxRetryDelay: int): (l: seq<int>)
    ensures |l| >= 1 && l[|l| - 1] == maxRetryDelay
  {
    SelfPowersBelow(1, maxRetryDelay) + [maxRetryDelay]
  }

  /** `retry_delay_times`: the ladder in milliseconds. */
  function RetryDelayTimes(maxRetryDelay: int): (d: seq<int>)
    ensures |d| == |LadderSeconds(maxRetryDelay)|
    ensures forall k :: 0 <= k < |d| ==> d[k] == LadderSeconds(maxRetryDelay)[k] * 1000
  {
    var l := LadderSeconds(maxRetryDelay);
    seq(|l|, k requires 0 <= k < |l| => l[k] * 1000)
  }

  /** Rung `k` below the top is `(k+1)**(k+1)` seconds, and below the cap;
      the top rung is the cap; the first self-power left out is not below
      the cap. */
  lemma RetryDelayTimesRungs(maxRetryDelay: int)
    ensures var d := RetryDelayTimes(maxRetryDelay);
      |d| >= 1 && d[|d| - 1] == maxRetryDelay * 1000 &&
      (forall k :: 0 <= k < |d| - 1 ==> d[k] == Pow(k + 1, k + 1) * 1000 && Pow(k + 1, k + 1) < maxRetryDelay) &&
      Pow(|d|, |d|) >= maxRetryDelay
  {
    SelfPowersBelowSpec(1, maxRetryDelay);
    var s := SelfPowersBelow(1, maxRetryDelay);
    var d := RetryDelayTimes(maxRetryDelay);
    assert LadderSeconds(maxRetryDelay) == s + [maxRetryDelay];
    forall k | 0 <= k < |d| - 1
      ensures d[k] == Pow(k + 1, k + 1) * 1000 && Pow(k + 1, k + 1) < maxRetryDelay
    {
      assert LadderSeconds(maxRetryDelay)[k] == s[k];
    }
  }

  /** The ladder is strictly increasing. */
  lemma RetryDelayTimesIncrease(maxRetryDelay: int)
    ensures var d := RetryDelayTimes(maxRetryDelay);
      forall j, k :: 0 <= j < k < |d| ==> d[j] < d[k]
  {
    var d := RetryDelayTimes(maxRetryDelay);
    RetryDelayTimesRungs(maxRetryDelay);
    forall j, k | 0 <= j < k < |d|
      ensures d[j] < d[k]
    {
      if k < |d| - 1 {
        SelfPowerMonotone(j + 1, k + 1);
      }
    }
  }

  /** With a cap of at most one second there is a single rung: the cap. */
  lemma SmallCapSingleRung(maxRetryDelay: int)
    requires maxRetryDelay <= 1
    ensures RetryDelayTimes(maxRetryDelay) == [maxRetryDelay * 1000]
  {
    assert Pow(1, 1) == 1;
    assert SelfPowersBelow(1, maxRetryDelay) == [];
  }

  /** A one-minute cap gives the rungs 1 s, 4 s, 27 s and 60 s. */
  lemma OneMinuteLadder()
    ensures RetryDelayTimes(60) == [1000, 4000, 27000, 60000]
  {
    assert Pow(1, 1) == 1 && Pow(2, 2) == 4 && Pow(3, 3) == 27 && Pow(4, 4) == 256;
    assert SelfPowersBelow(4, 60) == [];
    assert SelfPowersBelow(1, 60) == [1, 4, 27];
  }

  // ---------------------------------------------------------------------
  // Choosing a rung

  function Min(a: int, b: int): int {
    if a <= b then a else b
  }

  /** `queue_for_x_death(header)`: rung 0 without the header, otherwise the
      number of earlier deaths capped at the top rung. `None` is the
      NoMethodError a header without `length` raises. */
  function QueueForXDeath(header: Value, maxRetryDelay: int): (r: Option<nat>)
    ensures !Truthy(header) ==> r == Some(0)
    ensures Truthy(header) && Length(header).Some? ==>
      r == Some(Min(Length(header).value, |RetryDelayTimes(maxRetryDelay)| - 1))
    ensures Truthy(header) && Length(header).None? ==> r.None?
    ensures r.Some? ==> r.value < |RetryDelayTimes(maxRetryDelay)|
  {
    if Truthy(header) then
      match Length(header)
      case Some(n) => Some(Min(n, |RetryDelayTimes(maxRetryDelay)| - 1))
      case None => None
    else Some(0)
  }

  /** More recorded deaths never pick an earlier rung, and from the top
      rung's index on every header picks the top rung. */
  lemma QueueForXDeathMonotone(a: seq<Value>, b: seq<Value>, maxRetryDelay: int)
    requires |a| <= |b|
    ensures QueueForXDeath(List(a), maxRetryDelay).value <= QueueForXDeath(List(b), maxRetryDelay).value
    ensures |a| >= |RetryDelayTimes(maxRetryDelay)| - 1 ==>
      QueueForXDeath(List(a), maxRetryDelay).value == |RetryDelayTimes(maxRetryDelay)| - 1
  {
  }
}

module ExponentialBackoffBroker {
  import opened Values
  import opened Strings
  import opened ExponentialBackoffs

  // ---------------------------------------------------------------------
  // Names

  /** `exchange_name`: the handler's own direct exchange. */
  function RetryExchangeName(exchangeName: string): string {
    exchangeName + "_retry"
  }

  function RequeueQueueName(queueName: string): string {
    queueName + "_requeue"
  }

  /** `"#{queue_name}_delay_#{index}"`. */
  function DelayQueueName(queueName: string, index: nat): string {
    queueName + ("_delay_" + NatToString(index))
  }

  /** Each rung has a queue name of its own. */
  lemma DelayQueueNamesDistinct(queueName: string, i: nat, j: nat)
    requires i != j
    ensures DelayQueueName(queueName, i) != DelayQueueName(queueName, j)
  {
    if DelayQueueName(queueName, i) == DelayQueueName(queueName, j) {
      var p := queueName + "_delay_";
      AppendAssoc(queueName, "_delay_", NatToString(i));
      AppendAssoc(queueName, "_delay_", NatToString(j));
      assert (p + NatToString(i))[|p|..] == NatToString(i);
      assert (p + NatToString(j))[|p|..] == NatToString(j);
      NatToStringInjective(i, j);
    }
  }

  // ---------------------------------------------------------------------
  // What the handler asks of the broker

  /** A delay queue's dead-letter settings: where a message goes when its
      time-to-live (in milliseconds) runs out. */
  datatype DeadLetter = DeadLetter(exchange: string, routingKey: string, ttl: int)

  datatype BrokerOp =
    | CreateChannel
    | DeclareQueue(name: string, durable: bool, autoDelete: bool, deadLetter: Option<DeadLetter>)
    | DeclareDirectExchange(name: string, durable: bool, autoDelete: bool)
    | Bind(queue: string, exchange: string, routingKey: string)
    | Subscribe(queue: string)
    | PublishOnExchange(exchange: string, body: string, routingKey: string, persistent: bool, headers: Headers)
    | CancelConsumer(queue: string)
    | CloseChannel
    /** A call of the process-wide `publish(to, body, headers)`. */
    | GlobalPublish(to: Value, body: string, headers: Headers)

  datatype ChannelState = Open | Closed

  /** `channel`: the channel is created on first use. */
  function ChannelOps(channel: Option<ChannelState>): seq<BrokerOp> {
    if channel.None? then [CreateChannel] else []
  }

  /** `setup_retry_queue(delay, index)`. */
  function RetryQueueStep(queueName: string, retryExchange: string, delay: int, index: nat, testMode: bool): seq<BrokerOp> {
    [DeclareQueue(DelayQueueName(queueName, index), !testMode, testMode,
                  Some(DeadLetter(retryExchange, RequeueQueueName(queueName), delay))),
     Bind(DelayQueueName(queueName, index), retryExchange, DelayQueueName(queueName, index))]
  }

  /** `setup_retry_queues` over the first `n` rungs of `times`. */
  function RetryQueueOps(queueName: string, retryExchange: string, times: seq<int>, n: nat, testMode: bool): (ops: seq<BrokerOp>)
    requires n <= |times|
    ensures |ops| == 2 * n
  {
    if n == 0 then []
    else RetryQueueOps(queueName, retryExchange, times, n - 1, testMode) +
         RetryQueueStep(queueName, retryExchange, times[n - 1], n - 1, testMode)
  }

  /** Rung `k` is declared as queue `"<q>_delay_<k>"` with the rung's delay
      as time-to-live and the requeue queue as dead-letter target, then
      bound to the retry exchange under its own name. */
  lemma {:induction false} RetryQueueOpsAt(queueName: string, retryExchange: string, times: seq<int>, n: nat, testMode: bool)
    requires n <= |times|
    ensures forall k :: 0 <= k < n ==>
      RetryQueueOps(queueName, retryExchange, times, n, testMode)[2 * k] ==
        DeclareQueue(DelayQueueName(queueName, k), !testMode, testMode,
                     Some(DeadLetter(retryExchange, RequeueQueueName(queueName), times[k]))) &&
      RetryQueueOps(queueName, retryExchange, times, n, testMode)[2 * k + 1] ==
        Bind(DelayQueueName(queueName, k), retryExchange, DelayQueueName(queueName, k))
  {
    if n > 0 {
      RetryQueueOpsAt(queueName, retryExchange, times, n - 1, testMode);
      var prev := RetryQueueOps(queueName, retryExchange, times, n - 1, testMode);
      var step := RetryQueueStep(queueName, retryExchange, times[n - 1], n - 1, testMode);
      assert RetryQueueOps(queueName, retryExchange, times, n, testMode) == prev + step;
    }
  }

  /** `setup`, from a state with the given channel and exchange memos. */
  function SetupOps(channel: Option<ChannelState>, exchangeDeclared: bool, queueName: string,
                    exchangeName: string, maxRetryDelay: int, testMode: bool): seq<BrokerOp>
  {
    var times := RetryDelayTimes(maxRetryDelay);
    SetupHead(channel, exchangeDeclared, queueName, exchangeName, testMode) +
    RetryQueueOps(queueName, RetryExchangeName(exchangeName), times, |times|, testMode)
  }

  /** The part of `setup` before the delay queues: the requeue queue, its
      binding and its consumer. */
  function SetupHead(channel: Option<ChannelState>, exchangeDeclared: bool, queueName: string,
                     exchangeName: string, testMode: bool): seq<BrokerOp>
  {
    var rq := RequeueQueueName(queueName);
    var rx := RetryExchangeName(exchangeName);
    ChannelOps(channel) + [DeclareQueue(rq, !testMode, testMode, None)] +
    (if !exchangeDeclared then [DeclareDirectExchange(rx, !testMode, testMode)] else []) +
    [Bind(rq, rx, rq), Subscribe(rq)]
  }

  /** Regrouping a log that grew by five appends. */
  lemma Regroup(o: seq<BrokerOp>, a: seq<BrokerOp>, b: seq<BrokerOp>, c: seq<BrokerOp>, d: seq<BrokerOp>, e: seq<BrokerOp>)
    ensures o + a + b + c + d + e == o + (a + b + c + (d + e))
  {
    AppendAssoc(o + a + b + c, d, e);
    AppendAssoc(o + a + b, c, d + e);
    AppendAssoc(o + a, b, c + (d + e));
    AppendAssoc(o, a, b + (c + (d + e)));
    AppendAssoc(a, b, c + (d + e));
    AppendAssoc(a + b, c, d + e);
  }

  /** The publication `work(body, to, headers)` makes, or `None` when
      reading the `x-death` header's length raises. */
  function WorkPublication(queueName: string, exchangeName: string, maxRetryDelay: int, testMode: bool,
                           body: string, to: string, headers: Headers): (p: Option<BrokerOp>)
    ensures p.Some? <==> QueueForXDeath(Get(headers, "x-death"), maxRetryDelay).Some?
    ensures p.Some? ==> (p.value.PublishOnExchange? && p.value.body == body &&
      p.value.exchange == RetryExchangeName(exchangeName) && p.value.persistent == !testMode)
    ensures p.Some? ==> p.value.routingKey == DelayQueueName(queueName, QueueForXDeath(Get(headers, "x-death"), maxRetryDelay).value)
    ensures p.Some? ==> (Get(p.value.headers, "proletariat-to") == Str(to) &&
      p.value.headers.Keys == headers.Keys + {"proletariat-to"})
    ensures p.Some? ==> forall k :: k in headers && k != "proletariat-to" ==> p.value.headers[k] == headers[k]
  {
    match QueueForXDeath(Get(headers, "x-death"), maxRetryDelay)
    case None => None
    case Some(failures) =>
      Some(PublishOnExchange(RetryExchangeName(exchangeName), body, DelayQueueName(queueName, failures),
                             !testMode, headers["proletariat-to" := Str(to)]))
  }

  /** What the requeue consumer does with a dead-lettered message. */
  function RequeuePublication(body: string, headers: Headers): (op: BrokerOp)
    ensures op.GlobalPublish? && op.body == body && op.headers == headers
    ensures op.to == Get(headers, "proletariat-to")
  {
    GlobalPublish(Get(headers, "proletariat-to"), body, headers)
  }

  /** `cleanup`, from the given consumer and channel. */
  function CleanupOps(consumer: Option<string>, channel: Option<ChannelState>): seq<BrokerOp> {
    (if consumer.Some? then [CancelConsumer(consumer.value)] else []) +
    (if channel == Some(Open) then [CloseChannel] else [])
  }

  /** `cleanup` cancels exactly when there is a consumer and closes exactly
      when there is an open channel. */
  lemma CleanupGuards(consumer: Option<string>, channel: Option<ChannelState>)
    ensures |CleanupOps(consumer, channel)| <= 2
    ensures (exists q :: CancelConsumer(q) in CleanupOps(consumer, channel)) <==> consumer.Some?
    ensures CloseChannel in CleanupOps(consumer, channel) <==> channel == Some(Open)
  {
    if consumer.Some? {
      assert CancelConsumer(consumer.value) in CleanupOps(consumer, channel);
    }
  }

  /** Every routing key `work` publishes to names a delay queue `setup`
      declared and bound under that name. */
  lemma EveryRungExists(channel: Option<ChannelState>, exchangeDeclared: bool, queueName: string,
                        exchangeName: string, maxRetryDelay: int, testMode: bool,
                        body: string, to: string, headers: Headers)
    requires WorkPublication(queueName, exchangeName, maxRetryDelay, testMode, body, to, headers).Some?
    ensures var key := WorkPublication(queueName, exchangeName, maxRetryDelay, testMode, body, to, headers).value.routingKey;
      var f := QueueForXDeath(Get(headers, "x-death"), maxRetryDelay).value;
      var ops := SetupOps(channel, exchangeDeclared, queueName, exchangeName, maxRetryDelay, testMode);
      key == DelayQueueName(queueName, f) && f < |RetryDelayTimes(maxRetryDelay)| &&
      DeclareQueue(key, !testMode, testMode,
        Some(DeadLetter(RetryExchangeName(exchangeName), RequeueQueueName(queueName), RetryDelayTimes(maxRetryDelay)[f]))) in ops &&
      Bind(key, RetryExchangeName(exchangeName), key) in ops
  {
    RungDeclared(channel, exchangeDeclared, queueName, exchangeName, maxRetryDelay, testMode,
      QueueForXDeath(Get(headers, "x-death"), maxRetryDelay).value);
  }

  /** Rung `f` of the ladder is among the operations of `setup`: its delay
      queue, dead-lettering to the requeue queue after the rung's delay, and
      the binding of that queue under its own name. */
  lemma RungDeclared(channel: Option<ChannelState>, exchangeDeclared: bool, queueName: string,
                     exchangeName: string, maxRetryDelay: int, testMode: bool, f: nat)
    requires f < |RetryDelayTimes(maxRetryDelay)|
    ensures var key := DelayQueueName(queueName, f);
      var ops := SetupOps(channel, exchangeDeclared, queueName, exchangeName, maxRetryDelay, testMode);
      DeclareQueue(key, !testMode, testMode,
        Some(DeadLetter(RetryExchangeName(exchangeName), RequeueQueueName(queueName), RetryDelayTimes(maxRetryDelay)[f]))) in ops &&
      Bind(key, RetryExchangeName(exchangeName), key) in ops
  {
    var times := RetryDelayTimes(maxRetryDelay);
    var rx := RetryExchangeName(exchangeName);
    var key := DelayQueueName(queueName, f);
    var retry := RetryQueueOps(queueName, rx, times, |times|, testMode);
    RetryQueueOpsAt(queueName, rx, times, |times|, testMode);
    var d := Some(DeadLetter(rx, RequeueQueueName(queueName), times[f]));
    assert retry[2 * f] == DeclareQueue(key, !testMode, testMode, d);
    assert retry[2 * f + 1] == Bind(key, rx, key);
    var head := SetupHead(channel, exchangeDeclared, queueName, exchangeName, testMode);
    assert (head + retry)[|head| + 2 * f] == DeclareQueue(key, !testMode, testMode, d);
    assert (head + retry)[|head| + 2 * f + 1] == Bind(key, rx, key);
  }

  /** The round trip: what `work` publishes comes back, through the requeue
      consumer, to the routing key the message first failed on, with the
      same body; the headers are the original ones plus `proletariat-to`,
      which overrides an earlier value. The broker may add headers (such as
      `x-death`) while dead-lettering: `delivered` is what the requeue
      consumer receives, any headers that keep `proletariat-to`. */
  lemma RequeueReturnsToOrigin(queueName: string, exchangeName: string, maxRetryDelay: int, testMode: bool,
                               body: string, to: string, headers: Headers, delivered: Headers)
    requires WorkPublication(queueName, exchangeName, maxRetryDelay, testMode, body, to, headers).Some?
    requires Get(delivered, "proletariat-to") ==
      Get(WorkPublication(queueName, exchangeName, maxRetryDelay, testMode, body, to, headers).value.headers, "proletariat-to")
    ensures var p := WorkPublication(queueName, exchangeName, maxRetryDelay, testMode, body, to, headers).value;
      RequeuePublication(p.body, delivered) == GlobalPublish(Str(to), body, delivered) &&
      p.headers.Keys == headers.Keys + {"proletariat-to"} &&
      forall k :: k in headers && k != "proletariat-to" ==> p.headers[k] == headers[k]
  {
  }

  // ---------------------------------------------------------------------
  // The handler

  class ExponentialBackoff {
    const queueName: string
    /** The process-wide exchange name, maximum retry delay and test mode. */
    const exchangeName: string
    const maxRetryDelay: int
    const testMode: bool
    /** `@channel`, whether `@exchange` is set (it is always the retry
        exchange), `@requeue` and `@consumer` (the queue it consumes). */
    var channel: Option<ChannelState>
    var exchangeDeclared: bool
    var requeue: Option<string>
    var consumer: Option<string>
    /** Everything asked of the broker so far, oldest first. */
    var ops: seq<BrokerOp>

    /** `new(queue_name)`: the queue name is stored, then `setup` runs. */
    constructor(queueName: string, exchangeName: string, maxRetryDelay: int, testMode: bool)
      ensures this.queueName == queueName && this.exchangeName == exchangeName
      ensures this.maxRetryDelay == maxRetryDelay && this.testMode == testMode
      ensures ops == SetupOps(None, false, queueName, exchangeName, maxRetryDelay, testMode)
      ensures channel == Some(Open) && exchangeDeclared
      ensures requeue == Some(RequeueQueueName(queueName)) && consumer == requeue
    {
      this.queueName := queueName;
      this.exchangeName := exchangeName;
      this.maxRetryDelay := maxRetryDelay;
      this.testMode := testMode;
      channel := None;
      exchangeDeclared := false;
      requeue := None;
      consumer := None;
      ops := [];
      new;
      Setup();
    }

    /** `setup`. */
    method Setup()
      modifies this
      ensures ops == old(ops) + SetupOps(old(channel), old(exchangeDeclared), queueName, exchangeName, maxRetryDelay, testMode)
      ensures channel == (if old(channel).None? then Some(Open) else old(channel))
      ensures exchangeDeclared
      ensures requeue == Some(RequeueQueueName(queueName)) && consumer == requeue
    {
      ghost var before := ops;
      var rx := RetryExchangeName(exchangeName);
      var rq := RequeueQueueName(queueName);
      ghost var head := SetupHead(channel, exchangeDeclared, queueName, exchangeName, testMode);
      Regroup(before, ChannelOps(channel), [DeclareQueue(rq, !testMode, testMode, None)],
        if !exchangeDeclared then [DeclareDirectExchange(rx, !testMode, testMode)] else [],
        [Bind(rq, rx, rq)], [Subscribe(rq)]);
      SetupRequeueQueue();
      ConsumeRequeue();
      assert [Bind(rq, rx, rq), Subscribe(rq)] == [Bind(rq, rx, rq)] + [Subscribe(rq)];
      assert ops == before + head;
      var times := RetryDelayTimes(maxRetryDelay);
      SetupRetryQueues();
      AppendAssoc(before, head, RetryQueueOps(queueName, rx, times, |times|, testMode));
    }

    /** `channel`. */
    method Channel()
      modifies this
      ensures ops == old(ops) + ChannelOps(old(channel))
      ensures channel == (if old(channel).None? then Some(Open) else old(channel))
      ensures exchangeDeclared == old(exchangeDeclared) && requeue == old(requeue) && consumer == old(consumer)
    {
      if channel.None? {
        ops := ops + [CreateChannel];
        channel := Some(Open);
      }
    }

    /** `exchange`. */
    method Exchange() returns (name: string)
      modifies this
      ensures !old(exchangeDeclared) ==>
        ops == old(ops) + ChannelOps(old(channel)) + [DeclareDirectExchange(RetryExchangeName(exchangeName), !testMode, testMode)] &&
        channel == (if old(channel).None? then Some(Open) else old(channel)) &&
        exchangeDeclared
      ensures old(exchangeDeclared) ==> ops == old(ops) && channel == old(channel) && exchangeDeclared == old(exchangeDeclared)
      ensures name == RetryExchangeName(exchangeName)
      ensures requeue == old(requeue) && consumer == old(consumer)
    {
      if !exchangeDeclared {
        Channel();
        ops := ops + [DeclareDirectExchange(RetryExchangeName(exchangeName), !testMode, testMode)];
        exchangeDeclared := true;
      }
      name := RetryExchangeName(exchangeName);
    }

    /** `setup_requeue_queue`. */
    method SetupRequeueQueue()
      modifies this
      ensures ops == old(ops) + ChannelOps(old(channel)) +
        [DeclareQueue(RequeueQueueName(queueName), !testMode, testMode, None)] +
        (if !old(exchangeDeclared) then [DeclareDirectExchange(RetryExchangeName(exchangeName), !testMode, testMode)] else []) +
        [Bind(RequeueQueueName(queueName), RetryExchangeName(exchangeName), RequeueQueueName(queueName))]
      ensures channel == (if old(channel).None? then Some(Open) else old(channel))
      ensures exchangeDeclared
      ensures requeue == Some(RequeueQueueName(queueName)) && consumer == old(consumer)
    {
      var rq := RequeueQueueName(queueName);
      Channel();
      ops := ops + [DeclareQueue(rq, !testMode, testMode, None)];
      requeue := Some(rq);
      var x := Exchange();
      ops := ops + [Bind(rq, x, rq)];
    }

    /** `consume_requeue`: subscribing to the requeue queue. Each delivery
        on it runs `OnRequeued`. */
    method ConsumeRequeue()
      requires requeue.Some?
      modifies this
      ensures ops == old(ops) + [Subscribe(old(requeue).value)]
      ensures consumer == old(requeue)
      ensures channel == old(channel) && exchangeDeclared == old(exchangeDeclared) && requeue == old(requeue)
    {
      ops := ops + [Subscribe(requeue.value)];
      consumer := requeue;
    }

    /** The requeue consumer's block: publish the body again to the
        routing key recorded under `proletariat-to`, headers unchanged. */
    method OnRequeued(body: string, headers: Headers) returns (r: Value)
      modifies this
      ensures ops == old(ops) + [RequeuePublication(body, headers)]
      ensures channel == old(channel) && exchangeDeclared == old(exchangeDeclared)
      ensures requeue == old(requeue) && consumer == old(consumer)
      ensures r == Nil
    {
      ops := ops + [GlobalPublish(Get(headers, "proletariat-to"), body, headers)];
      r := Nil;
    }

    /** `setup_retry_queues`, once the channel and the exchange exist. */
    method SetupRetryQueues()
      requires channel.Some? && exchangeDeclared
      modifies this
      ensures ops == old(ops) + RetryQueueOps(queueName, RetryExchangeName(exchangeName),
        RetryDelayTimes(maxRetryDelay), |RetryDelayTimes(maxRetryDelay)|, testMode)
      ensures channel == old(channel) && exchangeDeclared == old(exchangeDeclared)
      ensures requeue == old(requeue) && consumer == old(consumer)
    {
      var times := RetryDelayTimes(maxRetryDelay);
      var rx := RetryExchangeName(exchangeName);
      var index := 0;
      while index < |times|
        invariant 0 <= index <= |times|
        invariant ops == old(ops) + RetryQueueOps(queueName, rx, times, index, testMode)
        invariant channel == old(channel) && exchangeDeclared == old(exchangeDeclared)
        invariant requeue == old(requeue) && consumer == old(consumer)
      {
        SetupRetryQueue(times[index], index);
        index := index + 1;
      }
    }

    /** `setup_retry_queue(delay, index)`. */
    method SetupRetryQueue(delay: int, index: nat)
      requires channel.Some? && exchangeDeclared
      modifies this
      ensures ops == old(ops) + RetryQueueStep(queueName, RetryExchangeName(exchangeName), delay, index, testMode)
      ensures channel == old(channel) && exchangeDeclared == old(exchangeDeclared)
      ensures requeue == old(requeue) && consumer == old(consumer)
    {
      var name := DelayQueueName(queueName, index);
      var rx := RetryExchangeName(exchangeName);
      ops := ops + [DeclareQueue(name, !testMode, testMode, Some(DeadLetter(rx, RequeueQueueName(queueName), delay)))];
      var x := Exchange();
      ops := ops + [Bind(name, x, name)];
    }

    /** `work(body, to, headers)`: park the message in the delay queue for
        its number of earlier failures. */
    method Work(body: string, to: string, headers: Headers) returns (o: Outcome)
      modifies this
      ensures var p := WorkPublication(queueName, exchangeName, maxRetryDelay, testMode, body, to, headers);
        (p.None? ==> o == Raised(NoMethodError("length")) && ops == old(ops)) &&
        (p.Some? ==> (o == Returned(Nil) &&
          ops == old(ops) + (if !old(exchangeDeclared) then ChannelOps(old(channel)) + [DeclareDirectExchange(RetryExchangeName(exchangeName), !testMode, testMode)] else []) + [p.value]))
      ensures var p := WorkPublication(queueName, exchangeName, maxRetryDelay, testMode, body, to, headers);
        (p.None? ==> channel == old(channel) && exchangeDeclared == old(exchangeDeclared)) &&
        (p.Some? ==> channel == (if !old(exchangeDeclared) && old(channel).None? then Some(Open) else old(channel)) &&
                     exchangeDeclared)
      ensures requeue == old(requeue) && consumer == old(consumer)
    {
      var failures := QueueForXDeath(Get(headers, "x-death"), maxRetryDelay);
      if failures.None? {
        return Raised(NoMethodError("length"));
      }
      var x := Exchange();
      ops := ops + [PublishOnExchange(RetryExchangeName(exchangeName), body, DelayQueueName(queueName, failures.value),
                                      !testMode, headers["proletariat-to" := Str(to)])];
      o := Returned(Nil);
    }

    /** `cleanup`. */
    method Cleanup()
      modifies this
      ensures ops == old(ops) + CleanupOps(old(consumer), old(channel))
      ensures channel == (if old(channel) == Some(Open) then Some(Closed) else old(channel))
      ensures exchangeDeclared == old(exchangeDeclared) && requeue == old(requeue) && consumer == old(consumer)
    {
      if consumer.Some? {
        ops := ops + [CancelConsumer(consumer.value)];
      }
      if channel.Some? && channel.value == Open {
        ops := ops + [CloseChannel];
        channel := Some(Closed);
      }
    }
  }
}
