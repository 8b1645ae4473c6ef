/** `Proletariat::Actor`: an actor that builds a delegate object once and
    forwards its mailbox, its start and its stop to it. */
module Actors {
  import opened Values
  import opened Strings
  import opened Lifecycle

  /** A class handed to the actor: the hooks its instances respond to and
      what their `work` does with the construction arguments and the
      arguments of one call. */
  datatype DelegateClass = DelegateClass(
    name: string,
    hooks: set<Hook>,
    work: (seq<Value>, seq<Value>) -> Outcome)

  /** `delegate_class.new(*arguments)`. */
  datatype Delegate = Delegate(cls: DelegateClass, arguments: seq<Value>)

  /** The delegate's `work` method. */
  function DelegateWork(d: Delegate): seq<Value> -> Outcome {
    args => d.cls.work(d.arguments, args)
  }

  /** What `on_stop` runs once the drain has ended as `r`: `stopping`, the
      work the drain did, and, unless the drain raised, the superclass and
      `stopped`. */
  function StopTrace(hooks: set<Hook>, r: DrainResult): (t: seq<Step>)
    ensures r.error.Some? ==> CallSuper !in t && RunHook(Stopped) !in t
  {
    IfDefined(hooks, Stopping) + WorkSteps(r.delivered) +
    (if r.error.None? then [CallSuper] + IfDefined(hooks, Stopped) else [])
  }

  class Actor {
    const delegate: Delegate
    /** The mailbox: each envelope's message as the argument list it splats
        into, oldest first. */
    var queue: seq<seq<Value>>
    var trace: seq<Step>

    constructor(delegateClass: DelegateClass, arguments: seq<Value>)
      ensures delegate == Delegate(delegateClass, arguments)
      ensures queue == [] && trace == []
    {
      delegate := Delegate(delegateClass, arguments);
      queue := [];
      trace := [];
    }

    /** The concurrency library puts a message in the mailbox. */
    method Enqueue(arguments: seq<Value>)
      modifies this
      ensures queue == old(queue) + [arguments] && trace == old(trace)
    {
      queue := queue + [arguments];
    }

    /** `act(*arguments)`: exactly these arguments go to the delegate. */
    method Act(arguments: seq<Value>) returns (o: Outcome)
      modifies this
      ensures o == delegate.cls.work(delegate.arguments, arguments)
      ensures trace == old(trace) + [Work(arguments)]
      ensures queue == old(queue)
    {
      o := DelegateWork(delegate)(arguments);
      trace := trace + [Work(arguments)];
    }

    method OnRun() returns (r: Value)
      modifies this
      ensures trace == old(trace) + Around(delegate.cls.hooks, Starting, Started)
      ensures queue == old(queue) && r == Nil
    {
      if Starting in delegate.cls.hooks {
        trace := trace + [RunHook(Starting)];
      }
      trace := trace + [CallSuper];
      if Started in delegate.cls.hooks {
        trace := trace + [RunHook(Started)];
      }
      r := Nil;
    }

    /** `on_stop`; an exception raised by the delegate's `work` while
        draining ends it there. */
    method OnStop() returns (o: Outcome)
      modifies this
      ensures var r := Drain(old(queue), DelegateWork(delegate));
        queue == r.remaining &&
        trace == old(trace) + StopTrace(delegate.cls.hooks, r) &&
        o == if r.error.Some? then Raised(r.error.value) else Returned(Nil)
    {
      ghost var r := Drain(queue, DelegateWork(delegate));
      ghost var before := trace;
      var hooks := delegate.cls.hooks;
      trace := trace + IfDefined(hooks, Stopping);
      var error := None;
      if queue != [] {
        error := WaitForQueueToDrain();
      } else {
        assert trace == trace + WorkSteps(r.delivered);
      }
      assert trace == before + IfDefined(hooks, Stopping) + WorkSteps(r.delivered);
      if error.Some? {
        assert trace == before + StopTrace(hooks, r);
        return Raised(error.value);
      }
      var tail := [CallSuper] + IfDefined(hooks, Stopped);
      AppendAssoc(before, IfDefined(hooks, Stopping) + WorkSteps(r.delivered), tail);
      AppendAssoc(before, IfDefined(hooks, Stopping), WorkSteps(r.delivered));
      trace := trace + tail;
      o := Returned(Nil);
    }

    /** `wait_for_queue_to_drain`. */
    method WaitForQueueToDrain() returns (error: Option<Error>)
      modifies this
      ensures var r := Drain(old(queue), DelegateWork(delegate));
        queue == r.remaining && trace == old(trace) + WorkSteps(r.delivered) && error == r.error
    {
      var r := DrainLoop(queue, DelegateWork(delegate));
      queue := r.remaining;
      trace := trace + WorkSteps(r.delivered);
      error := r.error;
    }
  }

  /** When the delegate's `work` returns for every queued message, `on_stop`
      runs `stopping`, then `work` on every message in the order queued,
      then the superclass, then `stopped`, and leaves the mailbox empty. */
  lemma StopHandsOverEveryMessage(hooks: set<Hook>, queue: seq<seq<Value>>, work: seq<Value> -> Outcome)
    requires forall i :: 0 <= i < |queue| ==> work(queue[i]).Returned?
    ensures Drain(queue, work).remaining == []
    ensures StopTrace(hooks, Drain(queue, work)) ==
      IfDefined(hooks, Stopping) + WorkSteps(queue) + [CallSuper] + IfDefined(hooks, Stopped)
  {
    DrainAll(queue, work);
    AppendAssoc(IfDefined(hooks, Stopping) + WorkSteps(queue), [CallSuper], IfDefined(hooks, Stopped));
  }

  /** The order of that trace: `stopping` before the superclass, every
      drained message before the superclass, the superclass before
      `stopped`. */
  lemma StopOrder(hooks: set<Hook>, queue: seq<seq<Value>>)
    ensures var t := IfDefined(hooks, Stopping) + WorkSteps(queue) + [CallSuper] + IfDefined(hooks, Stopped);
      Before(t, RunHook(Stopping), CallSuper) &&
      Before(t, CallSuper, RunHook(Stopped)) &&
      forall m :: m in queue ==> Before(t, Work(m), CallSuper)
  {
    var s := IfDefined(hooks, Stopping);
    var w := WorkSteps(queue);
    var e := IfDefined(hooks, Stopped);
    var t := s + w + [CallSuper] + e;
    AppendAssoc(s + w, [CallSuper], e);
    AppendAssoc(s, w, [CallSuper] + e);
    assert CallSuper !in s + w && CallSuper !in e;
    assert RunHook(Stopping) !in w + ([CallSuper] + e);
    BeforeAcross(s, w + ([CallSuper] + e), RunHook(Stopping), CallSuper);
    assert RunHook(Stopped) !in s + w + [CallSuper];
    BeforeAcross(s + w + [CallSuper], e, CallSuper, RunHook(Stopped));
    forall m | m in queue
      ensures Before(t, Work(m), CallSuper)
    {
      assert Work(m) !in [CallSuper] + e;
      BeforeAcross(s + w, [CallSuper] + e, Work(m), CallSuper);
    }
  }

  /** An empty mailbox is not drained: `on_stop` is the hooks around the
      superclass. */
  lemma StopWithEmptyMailbox(hooks: set<Hook>, work: seq<Value> -> Outcome)
    ensures StopTrace(hooks, Drain([], work)) == IfDefined(hooks, Stopping) + [CallSuper] + IfDefined(hooks, Stopped)
  {
  }
}
