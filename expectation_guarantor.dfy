/** The test-harness side of `wait_for`: one message counter and one
    subscriber per expectation, and the check that every counter has seen
    enough messages. */
module ExpectationGuarantors {
  import opened Values
  import opened QueueConfigs
  import opened Subscribers
  import opened Expectations

  /** `MessageCounter`: the listener a harness subscriber feeds. */
  class MessageCounter {
    var count: int
    const expected: int

    /** `new(expected, count = 0)`. */
    constructor(expected: int, count: int := 0)
      ensures this.expected == expected && this.count == count
    {
      this.expected := expected;
      this.count := count;
    }

    /** `expected_messages_received?`. */
    predicate ExpectedMessagesReceived()
      reads this
    {
      count >= expected
    }

    /** `post?(message, routing_key)`: count one more message and hand back
        a future that was never scheduled, whose block would give `:ok`. */
    method Post(message: string, routingKey: string) returns (future: FutureState, block: Value)
      modifies this
      ensures count == old(count) + 1
      ensures future == Unscheduled && block == Sym("ok")
      ensures old(ExpectedMessagesReceived()) ==> ExpectedMessagesReceived()
      ensures count == expected ==> ExpectedMessagesReceived()
    {
      count := count + 1;
      future := Unscheduled;
      block := Sym("ok");
    }
  }

  /** `reduce { |a, e| a && e }` over the counters' answers: `nil` (here
      `None`) when there are none, so that `until passed?` never stops on an
      empty harness, and the conjunction otherwise. */
  function PassedOf(received: seq<bool>): (r: Option<bool>)
    ensures r.Some? <==> received != []
  {
    if received == [] then None
    else if |received| == 1 then Some(received[0])
    else Some(PassedOf(received[..|received| - 1]).value && received[|received| - 1])
  }

  /** The check passes exactly when there is at least one counter and every
      counter has seen its quota; the other outcome is `false`, or `nil`
      when there are no counters at all. */
  lemma {:induction false} PassedOfSpec(received: seq<bool>)
    ensures PassedOf(received) == Some(true) <==> (received != [] && forall i :: 0 <= i < |received| ==> received[i])
    ensures received != [] && PassedOf(received) != Some(true) ==> PassedOf(received) == Some(false)
  {
    if |received| > 1 {
      var front := received[..|received| - 1];
      PassedOfSpec(front);
      assert forall i :: 0 <= i < |front| ==> front[i] == received[i];
    }
  }

  /** Once every counter has passed, further messages keep it passed. */
  lemma PassedStaysPassed(before: seq<bool>, after: seq<bool>)
    requires |before| == |after|
    requires forall i :: 0 <= i < |before| ==> before[i] ==> after[i]
    ensures PassedOf(before) == Some(true) ==> PassedOf(after) == Some(true)
  {
    PassedOfSpec(before);
    PassedOfSpec(after);
  }

  /** `generate_queue_config_for_topic`: an anonymous, auto-deleted queue
      bound to the expectation's topics. */
  function HarnessConfig(topics: seq<string>): (c: QueueConfig)
    ensures c.routingKeys == topics && c.autoDelete
    ensures ConfigQueueName(c) == ""
  {
    EmptyName();
    QueueConfig("", topics, true)
  }

  /** `Subscriber.new(counter, queue_config)`: the subscriber is fixed by
      the listener it feeds and the queue it reads. */
  datatype HarnessSubscriber = HarnessSubscriber(listener: MessageCounter, config: QueueConfig)

  class ExpectationGuarantor {
    var counters: seq<MessageCounter>
    var subscribers: seq<HarnessSubscriber>

    /** One subscriber per counter, each feeding its own counter; no counter
        is shared. */
    predicate Valid()
      reads this
    {
      |subscribers| == |counters| &&
      (forall i :: 0 <= i < |counters| ==> subscribers[i].listener == counters[i]) &&
      (forall i, j :: 0 <= i < j < |counters| ==> counters[i] != counters[j])
    }

    /** `new(expectations)`: in expectation order, a fresh counter for the
        quantity and a subscriber for the topics. */
    constructor(expectations: seq<Expectation>)
      ensures Valid()
      ensures |counters| == |expectations|
      ensures forall i :: 0 <= i < |expectations| ==>
        fresh(counters[i]) && counters[i].expected == expectations[i].quantity && counters[i].count == 0
      ensures forall i :: 0 <= i < |expectations| ==> subscribers[i].config == HarnessConfig(expectations[i].topics)
    {
      counters := [];
      subscribers := [];
      new;
      var k := 0;
      while k < |expectations|
        invariant 0 <= k <= |expectations|
        invariant |counters| == k && Valid()
        invariant forall i :: 0 <= i < k ==>
          fresh(counters[i]) && counters[i].expected == expectations[i].quantity && counters[i].count == 0
        invariant forall i :: 0 <= i < k ==> subscribers[i].config == HarnessConfig(expectations[i].topics)
      {
        var queueConfig := HarnessConfig(expectations[k].topics);
        var counter := new MessageCounter(expectations[k].quantity);
        counters := counters + [counter];
        subscribers := subscribers + [HarnessSubscriber(counter, queueConfig)];
        k := k + 1;
      }
    }

    /** Each counter's answer, in expectation order. */
    function Received(): (r: seq<bool>)
      reads this, counters
      ensures |r| == |counters|
      ensures forall i :: 0 <= i < |counters| ==> r[i] == counters[i].ExpectedMessagesReceived()
    {
      seq(|counters|, i reads this, counters requires 0 <= i < |counters| => counters[i].ExpectedMessagesReceived())
    }

    /** `passed?`. */
    function Passed(): Option<bool>
      reads this, counters
    {
      PassedOf(Received())
    }

    /** A harness subscriber hands a delivery to its counter; the other
        counters do not move. */
    method Deliver(i: nat, message: string, routingKey: string) returns (future: FutureState)
      requires Valid() && i < |counters|
      modifies counters[i]
      ensures counters[i].count == old(counters[i].count) + 1
      ensures forall j :: 0 <= j < |counters| && j != i ==> counters[j].count == old(counters[j].count)
      ensures old(Passed()) == Some(true) ==> Passed() == Some(true)
      ensures future == Unscheduled
    {
      ghost var before := Received();
      var block;
      future, block := subscribers[i].listener.Post(message, routingKey);
      PassedStaysPassed(before, Received());
    }
  }
}
