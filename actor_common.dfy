/** The behaviour `ActorCommon` mixes into the pooled actor classes: the
    injected initializer runs `starting` and `started` around the
    superclass's initializer, and the `:terminated` event runs `stopping`,
    `cleanup`, the superclass handler and `stopped`, each hook only when the
    object responds to it. */
module ActorCommon {
  import opened Values
  import opened Lifecycle

  /** The injected `initialize`. */
  function InitTrace(hooks: set<Hook>): (t: seq<Step>)
    ensures |t| >= 1
  {
    Around(hooks, Starting, Started)
  }

  /** `on_event(event)`. */
  function EventTrace(hooks: set<Hook>, event: Value): (t: seq<Step>)
    ensures |t| >= 1
  {
    if event == Sym("terminated") then IfDefined(hooks, Stopping) + Around(hooks, Cleanup, Stopped)
    else [CallSuper]
  }

  /** Construction: `starting` (when defined) → superclass → `started`
      (when defined), each at most once. */
  lemma InitOrder(hooks: set<Hook>)
    ensures Occurrences(InitTrace(hooks), CallSuper) == 1
    ensures Occurrences(InitTrace(hooks), RunHook(Starting)) == if Starting in hooks then 1 else 0
    ensures Occurrences(InitTrace(hooks), RunHook(Started)) == if Started in hooks then 1 else 0
    ensures forall h :: h != Starting && h != Started ==> Occurrences(InitTrace(hooks), RunHook(h)) == 0
    ensures Before(InitTrace(hooks), RunHook(Starting), CallSuper)
    ensures Before(InitTrace(hooks), CallSuper, RunHook(Started))
  {
    AroundCounts(hooks, Starting, Started);
    AroundOrder(hooks, Starting, Started);
  }

  /** `:terminated`: each hook the event handles runs exactly once when
      defined and not at all otherwise, and the superclass runs once. */
  lemma TerminatedCounts(hooks: set<Hook>)
    ensures var t := EventTrace(hooks, Sym("terminated"));
      Occurrences(t, CallSuper) == 1 &&
      (forall h :: h != Starting && h != Started ==>
        Occurrences(t, RunHook(h)) == if h in hooks then 1 else 0) &&
      Occurrences(t, RunHook(Starting)) == 0 && Occurrences(t, RunHook(Started)) == 0
  {
    TerminatedOccurrences(hooks, CallSuper);
    TerminatedOccurrences(hooks, RunHook(Starting));
    TerminatedOccurrences(hooks, RunHook(Started));
    forall h | h != Starting && h != Started
      ensures Occurrences(EventTrace(hooks, Sym("terminated")), RunHook(h)) == if h in hooks then 1 else 0
    {
      TerminatedOccurrences(hooks, RunHook(h));
    }
  }

  /** How often a step occurs in the `:terminated` trace. */
  lemma TerminatedOccurrences(hooks: set<Hook>, x: Step)
    ensures Occurrences(EventTrace(hooks, Sym("terminated")), x) ==
      (if Stopping in hooks && x == RunHook(Stopping) then 1 else 0) +
      (if Cleanup in hooks && x == RunHook(Cleanup) then 1 else 0) +
      (if x == CallSuper then 1 else 0) +
      (if Stopped in hooks && x == RunHook(Stopped) then 1 else 0)
  {
    var s := IfDefined(hooks, Stopping);
    var u := Around(hooks, Cleanup, Stopped);
    assert EventTrace(hooks, Sym("terminated")) == s + u;
    OccurrencesAppend(s, u, x);
    IfDefinedOccurrences(hooks, Stopping, x);
    AroundOccurrences(hooks, Cleanup, Stopped, x);
  }

  /** `:terminated` runs `stopping` → `cleanup` → superclass → `stopped`. */
  lemma TerminatedOrder(hooks: set<Hook>)
    ensures var t := EventTrace(hooks, Sym("terminated"));
      Before(t, RunHook(Stopping), RunHook(Cleanup)) &&
      Before(t, RunHook(Cleanup), CallSuper) &&
      Before(t, CallSuper, RunHook(Stopped))
  {
    var s := IfDefined(hooks, Stopping);
    var u := Around(hooks, Cleanup, Stopped);
    assert EventTrace(hooks, Sym("terminated")) == s + u;
    AroundOrder(hooks, Cleanup, Stopped);
    assert RunHook(Cleanup) !in s && CallSuper !in s && RunHook(Stopped) !in s;
    assert RunHook(Stopping) !in u;
    BeforeAcross(s, u, RunHook(Stopping), RunHook(Cleanup));
    BeforeAfterPrefix(s, u, RunHook(Cleanup), CallSuper);
    BeforeAfterPrefix(s, u, CallSuper, RunHook(Stopped));
  }

  /** Any other event goes straight to the superclass: no hook runs. */
  lemma OtherEvent(hooks: set<Hook>, event: Value)
    requires event != Sym("terminated")
    ensures EventTrace(hooks, event) == [CallSuper]
    ensures forall h :: Occurrences(EventTrace(hooks, event), RunHook(h)) == 0
  {
  }
}
