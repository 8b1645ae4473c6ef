/** `Proletariat::Worker`: the base class of background workers. Its class
    side collects the routing keys the worker's queue is bound with; its
    instances hand mailbox messages to `work`, log and publish on the
    worker's behalf, and drain their mailbox before going offline. */
module Workers {
  import opened Values
  import opened Strings
  import opened Lifecycle

  /** The base `work(message)`: called with its one argument it raises
      NotImplementedError; any other number of arguments is rejected by
      Ruby before the body runs, with ArgumentError. */
  function BaseWork(arguments: seq<Value>): (o: Outcome)
    ensures |arguments| == 1 ==> o == Raised(NotImplementedError)
    ensures |arguments| != 1 ==> o == Raised(ArgumentError(|arguments|, 1))
  {
    if |arguments| == 1 then Raised(NotImplementedError) else Raised(ArgumentError(|arguments|, 1))
  }

  /** A line logged through `log_info`: the object's class name and id,
      then the text. */
  function InfoLine(identity: string, text: string): Step {
    LogInfo(identity, text)
  }

  /** What `log(message)` gives back. */
  datatype LogResult = NilResult | TheLogger

  /** The class side of a worker: `listen_on` and `routing_keys`. */
  class WorkerClass {
    /** `@routing_keys`, unset until first read. */
    var routingKeys: Option<seq<string>>

    constructor()
      ensures routingKeys == None
    {
      routingKeys := None;
    }

    /** `routing_keys`: `[]` until a key is added. */
    method RoutingKeys() returns (keys: seq<string>)
      modifies this
      ensures keys == old(routingKeys).GetOr([])
      ensures routingKeys == Some(keys)
    {
      if routingKeys.None? {
        routingKeys := Some([]);
      }
      keys := routingKeys.value;
    }

    /** `listen_on(routing_key)`: the key goes to the end of the list. */
    method ListenOn(routingKey: string) returns (r: Value)
      modifies this
      ensures routingKeys == Some(old(routingKeys).GetOr([]) + [routingKey])
      ensures r == Nil
    {
      var keys := RoutingKeys();
      routingKeys := Some(keys + [routingKey]);
      r := Nil;
    }
  }

  /** A fresh worker class that listens on `first` and then on `second`
      reports exactly those keys, in that order. */
  method ListenOnTwo(first: string, second: string) returns (keys: seq<string>)
    ensures keys == [first, second]
  {
    var c := new WorkerClass();
    var _ := c.ListenOn(first);
    var _ := c.ListenOn(second);
    keys := c.RoutingKeys();
  }

  /** A fresh worker class has no routing keys. */
  method NoKeysByDefault() returns (keys: seq<string>)
    ensures keys == []
  {
    var c := new WorkerClass();
    keys := c.RoutingKeys();
  }

  const Shutdown := "Attempting graceful shutdown."
  const Waiting := "Waiting for work queue to drain."
  const Offline := "Now offline"

  /** What `on_stop` runs once the drain has ended as `r`, given its first
      log line, the line logged before draining and the last line. */
  function StopShape(first: Step, waiting: Step, last: Step, queue: seq<seq<Value>>, r: DrainResult): (t: seq<Step>)
    ensures |t| >= 1 && t[0] == first
    ensures r.error.Some? && first != CallSuper && waiting != CallSuper ==> CallSuper !in t
  {
    [first] +
    (if queue != [] then [waiting] + WorkSteps(r.delivered) else []) +
    (if r.error.None? then [CallSuper, last] else [])
  }

  /** What `on_stop` logs and runs once the drain has ended as `r`. */
  function WorkerStopTrace(identity: string, queue: seq<seq<Value>>, r: DrainResult): (t: seq<Step>)
  {
    StopShape(InfoLine(identity, Shutdown), InfoLine(identity, Waiting), InfoLine(identity, Offline), queue, r)
  }

  lemma StopShapeOfAll(first: Step, waiting: Step, last: Step, queue: seq<seq<Value>>)
    requires queue != []
    ensures StopShape(first, waiting, last, queue, DrainResult(queue, [], None)) ==
      [first, waiting] + WorkSteps(queue) + [CallSuper, last]
  {
    var w := WorkSteps(queue);
    AppendAssoc([first], [waiting], w);
    assert [first] + [waiting] == [first, waiting];
  }

  class Worker {
    /** `"#{self.class.name} #{object_id}"`, the prefix of `log_info`. */
    const identity: string
    /** The subclass's `work`, on the argument list of one call. */
    const work: seq<Value> -> Outcome
    /** The mailbox, oldest first: each envelope's message as the argument
        list it splats into. */
    var queue: seq<seq<Value>>
    var trace: seq<Step>

    constructor(identity: string, work: seq<Value> -> Outcome)
      ensures this.identity == identity && this.work == work
      ensures queue == [] && trace == []
    {
      this.identity := identity;
      this.work := work;
      queue := [];
      trace := [];
    }

    /** The concurrency library puts a message in the mailbox. */
    method Enqueue(arguments: seq<Value>)
      modifies this
      ensures queue == old(queue) + [arguments] && trace == old(trace)
    {
      queue := queue + [arguments];
    }

    /** `act(message)` is `work(message)`. */
    method Act(message: Value) returns (o: Outcome)
      modifies this
      ensures o == work([message])
      ensures trace == old(trace) + [Work([message])] && queue == old(queue)
    {
      o := work([message]);
      trace := trace + [Work([message])];
    }

    /** `log(message = nil)`: a truthy message is logged and nil comes
        back; without one the logger itself comes back. */
    method Log(message: Value := Nil) returns (r: LogResult)
      modifies this
      ensures Truthy(message) ==> r == NilResult && trace == old(trace) + [Logged(message)]
      ensures !Truthy(message) ==> r == TheLogger && trace == old(trace)
      ensures queue == old(queue)
    {
      if Truthy(message) {
        trace := trace + [Logged(message)];
        r := NilResult;
      } else {
        r := TheLogger;
      }
    }

    /** `publish(to, message = '')`: forwarded unchanged; nil comes back. */
    method Publish(to: string, message: string := "") returns (r: Value)
      modifies this
      ensures trace == old(trace) + [Published(to, message)] && queue == old(queue)
      ensures r == Nil
    {
      trace := trace + [Published(to, message)];
      r := Nil;
    }

    method OnRun() returns (r: Value)
      modifies this
      ensures trace == old(trace) + [CallSuper, InfoLine(identity, "Now online")]
      ensures queue == old(queue) && r == Nil
    {
      trace := trace + [CallSuper];
      trace := trace + [InfoLine(identity, "Now online")];
      r := Nil;
    }

    /** `on_stop`; an exception raised by `work` while draining ends it
        there. */
    method OnStop() returns (o: Outcome)
      modifies this
      ensures var r := Drain(old(queue), work);
        queue == r.remaining &&
        trace == old(trace) + WorkerStopTrace(identity, old(queue), r) &&
        o == if r.error.Some? then Raised(r.error.value) else Returned(Nil)
    {
      ghost var q := queue;
      ghost var r := Drain(queue, work);
      ghost var before := trace;
      trace := trace + [InfoLine(identity, Shutdown)];
      var error := None;
      if queue != [] {
        error := WaitForWorkQueue();
        AppendAssoc(before, [InfoLine(identity, Shutdown)],
          [InfoLine(identity, Waiting)] + WorkSteps(r.delivered));
      } else {
        assert [InfoLine(identity, Shutdown)] + [] == [InfoLine(identity, Shutdown)];
      }
      ghost var head := [InfoLine(identity, Shutdown)] +
        (if q != [] then [InfoLine(identity, Waiting)] + WorkSteps(r.delivered) else []);
      assert trace == before + head;
      if error.Some? {
        assert WorkerStopTrace(identity, q, r) == head + [];
        assert head + [] == head;
        return Raised(error.value);
      }
      AppendAssoc(before, head, [CallSuper, InfoLine(identity, Offline)]);
      trace := trace + [CallSuper, InfoLine(identity, Offline)];
      o := Returned(Nil);
    }

    /** `wait_for_work_queue`. */
    method WaitForWorkQueue() returns (error: Option<Error>)
      modifies this
      ensures var r := Drain(old(queue), work);
        queue == r.remaining &&
        trace == old(trace) + [InfoLine(identity, Waiting)] + WorkSteps(r.delivered) &&
        error == r.error
    {
      trace := trace + [InfoLine(identity, Waiting)];
      var r := DrainLoop(queue, work);
      queue := r.remaining;
      trace := trace + WorkSteps(r.delivered);
      error := r.error;
    }
  }

  /** When `work` returns for every queued message, going offline hands each
      of them to `work` in the order queued, all before the superclass's
      `on_stop`, and empties the mailbox. */
  lemma StopDrainsFirst(identity: string, queue: seq<seq<Value>>, work: seq<Value> -> Outcome)
    requires queue != []
    requires forall i :: 0 <= i < |queue| ==> work(queue[i]).Returned?
    ensures Drain(queue, work).remaining == []
    ensures WorkerStopTrace(identity, queue, Drain(queue, work)) ==
      [InfoLine(identity, Shutdown), InfoLine(identity, Waiting)] + WorkSteps(queue) + [CallSuper, InfoLine(identity, Offline)]
  {
    DrainAll(queue, work);
    StopShapeOfAll(InfoLine(identity, Shutdown), InfoLine(identity, Waiting), InfoLine(identity, Offline), queue);
  }

  /** An empty mailbox is not drained and nothing about draining is
      logged. */
  lemma StopSkipsEmptyDrain(identity: string, work: seq<Value> -> Outcome)
    ensures WorkerStopTrace(identity, [], Drain([], work)) ==
      [InfoLine(identity, Shutdown), CallSuper, InfoLine(identity, Offline)]
  {
  }
}
