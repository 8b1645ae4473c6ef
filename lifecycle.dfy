/** What the actor classes do around the concurrency library's own
    lifecycle: optional hooks run before and after the superclass, and a
    mailbox drained through `work` on shutdown. Everything an actor does is
    recorded as a trace of steps. */
module Lifecycle {
  import opened Values

  /** The optional hook methods an object may define. */
  datatype Hook = Starting | Started | Stopping | Cleanup | Stopped

  /** One observable step of an actor. */
  datatype Step =
    | RunHook(hook: Hook)       // a hook method was called
    | CallSuper                 // the superclass's implementation ran
    | Work(args: seq<Value>)    // `work` was called with these arguments
    | LogInfo(sender: string, text: string)  // `log_info`: the line `sender: text` at info level
    | Logged(message: Value)    // `logger.info(message)` with the caller's object
    | Published(to: string, body: string)  // the process-wide `publish` was called

  /** `hook if respond_to?(:hook)`: the hook's step, when it is defined. */
  function IfDefined(hooks: set<Hook>, h: Hook): (t: seq<Step>)
    ensures h in hooks ==> t == [RunHook(h)]
    ensures h !in hooks ==> t == []
  {
    if h in hooks then [RunHook(h)] else []
  }

  /** Order across a concatenation: `a` only in the first part and `b` only
      in the second. */
  lemma BeforeAcross(s: seq<Step>, u: seq<Step>, a: Step, b: Step)
    requires a !in u && b !in s
    ensures Before(s + u, a, b)
  {
    var t := s + u;
    forall i, j | 0 <= i < |t| && 0 <= j < |t| && t[i] == a && t[j] == b
      ensures i < j
    {
      assert i < |s| <= j;
    }
  }

  /** Order in the second part of a concatenation is kept when neither step
      occurs in the first part. */
  lemma BeforeAfterPrefix(s: seq<Step>, u: seq<Step>, a: Step, b: Step)
    requires a !in s && b !in s && Before(u, a, b)
    ensures Before(s + u, a, b)
  {
    var t := s + u;
    forall i, j | 0 <= i < |t| && 0 <= j < |t| && t[i] == a && t[j] == b
      ensures i < j
    {
      assert |s| <= i && |s| <= j;
      assert u[i - |s|] == a && u[j - |s|] == b;
    }
  }

  /** `before if respond_to?(:before); super; after if respond_to?(:after)`. */
  function Around(hooks: set<Hook>, before: Hook, after: Hook): (t: seq<Step>)
    ensures |t| >= 1
  {
    IfDefined(hooks, before) + [CallSuper] + IfDefined(hooks, after)
  }

  /** How often `s` occurs in `trace`. */
  function Occurrences(trace: seq<Step>, s: Step): (n: nat)
    ensures n <= |trace|
    ensures n == 0 <==> s !in trace
  {
    if trace == [] then 0 else (if trace[0] == s then 1 else 0) + Occurrences(trace[1..], s)
  }

  /** Counts add up across a concatenation. */
  lemma {:induction false} OccurrencesAppend(a: seq<Step>, b: seq<Step>, s: Step)
    ensures Occurrences(a + b, s) == Occurrences(a, s) + Occurrences(b, s)
    decreases |a|
  {
    if a != [] {
      assert (a + b)[1..] == a[1..] + b;
      OccurrencesAppend(a[1..], b, s);
    } else {
      assert a + b == b;
    }
  }

  /** A hook step occurs once when the hook is defined, and nothing else
      occurs in `IfDefined`. */
  lemma IfDefinedOccurrences(hooks: set<Hook>, h: Hook, s: Step)
    ensures Occurrences(IfDefined(hooks, h), s) == if h in hooks && s == RunHook(h) then 1 else 0
  {
    if h in hooks {
      assert [RunHook(h)][1..] == [];
    }
  }

  /** How often a step occurs around the superclass. */
  lemma AroundOccurrences(hooks: set<Hook>, before: Hook, after: Hook, s: Step)
    ensures Occurrences(Around(hooks, before, after), s) ==
      (if before in hooks && s == RunHook(before) then 1 else 0) +
      (if s == CallSuper then 1 else 0) +
      (if after in hooks && s == RunHook(after) then 1 else 0)
  {
    var a, c := IfDefined(hooks, before), IfDefined(hooks, after);
    OccurrencesAppend(a, [CallSuper], s);
    OccurrencesAppend(a + [CallSuper], c, s);
    assert [CallSuper][1..] == [];
    IfDefinedOccurrences(hooks, before, s);
    IfDefinedOccurrences(hooks, after, s);
  }

  /** Every occurrence of `a` comes before every occurrence of `b`. */
  predicate Before(trace: seq<Step>, a: Step, b: Step) {
    forall i, j :: 0 <= i < |trace| && 0 <= j < |trace| && trace[i] == a && trace[j] == b ==> i < j
  }

  /** A `work` step per message, in order. */
  function WorkSteps(messages: seq<seq<Value>>): (t: seq<Step>)
    ensures |t| == |messages|
    ensures forall i :: 0 <= i < |t| ==> t[i] == Work(messages[i])
  {
    seq(|messages|, i requires 0 <= i < |messages| => Work(messages[i]))
  }

  /** The superclass runs exactly once; each hook runs once if it is
      defined and not at all otherwise; nothing else runs. */
  lemma AroundCounts(hooks: set<Hook>, before: Hook, after: Hook)
    requires before != after
    ensures Occurrences(Around(hooks, before, after), CallSuper) == 1
    ensures Occurrences(Around(hooks, before, after), RunHook(before)) == if before in hooks then 1 else 0
    ensures Occurrences(Around(hooks, before, after), RunHook(after)) == if after in hooks then 1 else 0
    ensures forall h :: h != before && h != after ==> Occurrences(Around(hooks, before, after), RunHook(h)) == 0
  {
    AroundOccurrences(hooks, before, after, CallSuper);
    AroundOccurrences(hooks, before, after, RunHook(before));
    AroundOccurrences(hooks, before, after, RunHook(after));
    forall h | h != before && h != after
      ensures Occurrences(Around(hooks, before, after), RunHook(h)) == 0
    {
      AroundOccurrences(hooks, before, after, RunHook(h));
    }
  }

  /** The hook before the superclass runs before it, the hook after runs
      after it. */
  lemma AroundOrder(hooks: set<Hook>, before: Hook, after: Hook)
    requires before != after
    ensures Before(Around(hooks, before, after), RunHook(before), CallSuper)
    ensures Before(Around(hooks, before, after), CallSuper, RunHook(after))
    ensures Before(Around(hooks, before, after), RunHook(before), RunHook(after))
  {
    var t := Around(hooks, before, after);
    var a := IfDefined(hooks, before);
    assert forall i :: 0 <= i < |t| ==> (t[i] == RunHook(before) <==> i < |a|);
    assert forall i :: 0 <= i < |t| ==> (t[i] == CallSuper <==> i == |a|);
    assert forall i :: 0 <= i < |t| ==> (t[i] == RunHook(after) <==> i > |a|);
  }

  lemma WorkStepsAppend(m: seq<seq<Value>>, n: seq<seq<Value>>)
    ensures WorkSteps(m + n) == WorkSteps(m) + WorkSteps(n)
  {
  }

  // ---------------------------------------------------------------------
  // Draining a mailbox

  /** What `work(*queue.pop.message) until queue.empty?` does to a FIFO
      mailbox: the messages handed to `work`, the messages left, and the
      exception that stopped the loop, if one did. */
  datatype DrainResult = DrainResult(delivered: seq<seq<Value>>, remaining: seq<seq<Value>>, error: Option<Error>)

  function Drain(queue: seq<seq<Value>>, work: seq<Value> -> Outcome): (r: DrainResult)
    ensures r.delivered + r.remaining == queue
    ensures r.error.None? ==> r.delivered == queue && r.remaining == []
    decreases |queue|
  {
    if queue == [] then DrainResult([], [], None)
    else
      match work(queue[0])
      case Raised(e) => DrainResult([queue[0]], queue[1..], Some(e))
      case Returned(_) =>
        var rest := Drain(queue[1..], work);
        DrainResult([queue[0]] + rest.delivered, rest.remaining, rest.error)
  }

  /** `work` returned for every message handed to it but the last; the last
      raised exactly when the loop stopped on an exception. */
  lemma {:induction false} DrainOutcomes(queue: seq<seq<Value>>, work: seq<Value> -> Outcome)
    ensures var r := Drain(queue, work);
      forall i :: 0 <= i < |r.delivered| - 1 ==> work(r.delivered[i]).Returned?
    ensures var r := Drain(queue, work);
      r.error.Some? ==> r.delivered != [] && work(r.delivered[|r.delivered| - 1]) == Raised(r.error.value)
    ensures var r := Drain(queue, work);
      r.error.None? ==> forall i :: 0 <= i < |r.delivered| ==> work(r.delivered[i]).Returned?
    decreases |queue|
  {
    if queue != [] && work(queue[0]).Returned? {
      DrainOutcomes(queue[1..], work);
    }
  }

  /** When `work` never raises, every queued message is handed to it, in
      the order it was queued, and the mailbox ends empty. */
  lemma {:induction false} DrainAll(queue: seq<seq<Value>>, work: seq<Value> -> Outcome)
    requires forall i :: 0 <= i < |queue| ==> work(queue[i]).Returned?
    ensures Drain(queue, work) == DrainResult(queue, [], None)
    decreases |queue|
  {
    if queue != [] {
      assert work(queue[0]).Returned?;
      DrainAll(queue[1..], work);
    }
  }

  /** A drain result with `done` handed to `work` before it. */
  function After(done: seq<seq<Value>>, r: DrainResult): DrainResult {
    DrainResult(done + r.delivered, r.remaining, r.error)
  }

  /** The loop itself: pop the oldest message, hand it to `work`, stop when
      the mailbox is empty or `work` raises. */
  method DrainLoop(queue: seq<seq<Value>>, work: seq<Value> -> Outcome) returns (r: DrainResult)
    ensures r == Drain(queue, work)
  {
    var q := queue;
    var delivered := [];
    while q != []
      invariant Drain(queue, work) == After(delivered, Drain(q, work))
      decreases |q|
    {
      var m := q[0];
      var o := work(m);
      if o.Raised? {
        return DrainResult(delivered + [m], q[1..], Some(o.error));
      }
      DrainStep(q, work);
      delivered := delivered + [m];
      q := q[1..];
    }
    return DrainResult(delivered, [], None);
  }

  /** One step of the drain, as the loop takes it. */
  lemma DrainStep(queue: seq<seq<Value>>, work: seq<Value> -> Outcome)
    requires queue != [] && work(queue[0]).Returned?
    ensures Drain(queue, work).delivered == [queue[0]] + Drain(queue[1..], work).delivered
    ensures Drain(queue, work).remaining == Drain(queue[1..], work).remaining
    ensures Drain(queue, work).error == Drain(queue[1..], work).error
  {
  }
}
