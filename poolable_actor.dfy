/** `Proletariat::PoolableActor`: a pool member that handles one message at
    a time and asks its pool's balancer for the next one afterwards, and
    the naming of a pool and its members. Its initializer and event handler
    are the ones `ActorCommon` injects. */
module PoolableActors {
  import opened Values
  import opened Strings
  import opened Lifecycle
  import opened ActorCommon

  /** `respond_to?(:work_method) ? send(work_method, message) : work(message)`:
      a `work_method` names the method to call, which raises NoMethodError
      when the object has no method of that name. */
  function Dispatch<M>(workMethod: Option<string>, methods: map<string, M -> Outcome>, work: M -> Outcome, message: M): (o: Outcome)
    ensures workMethod.None? ==> o == work(message)
    ensures workMethod.Some? && workMethod.value in methods ==> o == methods[workMethod.value](message)
    ensures workMethod.Some? && workMethod.value !in methods ==> o == Raised(NoMethodError(workMethod.value))
  {
    match workMethod
    case None => work(message)
    case Some(name) => if name in methods then methods[name](message) else Raised(NoMethodError(name))
  }

  /** The pool's balancer, as far as a member sees it: the messages sent
      to it. */
  class Balancer {
    var inbox: seq<Value>

    constructor()
      ensures inbox == []
    {
      inbox := [];
    }
  }

  class PoolableActor<M> {
    const hooks: set<Hook>
    const workMethod: Option<string>
    const methods: map<string, M -> Outcome>
    const work: M -> Outcome
    const balancer: Balancer
    var trace: seq<Step>

    /** The initializer `ActorCommon` injects: `starting`, the superclass's
        initializer, `started`. */
    constructor(hooks: set<Hook>, workMethod: Option<string>, methods: map<string, M -> Outcome>, work: M -> Outcome, balancer: Balancer)
      ensures this.hooks == hooks && this.workMethod == workMethod && this.methods == methods
      ensures this.work == work && this.balancer == balancer
      ensures trace == InitTrace(hooks)
    {
      this.hooks := hooks;
      this.workMethod := workMethod;
      this.methods := methods;
      this.work := work;
      this.balancer := balancer;
      var t := [];
      if Starting in hooks {
        t := t + [RunHook(Starting)];
      }
      t := t + [CallSuper];
      if Started in hooks {
        t := t + [RunHook(Started)];
      }
      trace := t;
    }

    /** The event handler `ActorCommon` injects. */
    method OnEvent(event: Value)
      modifies this
      ensures trace == old(trace) + EventTrace(hooks, event)
    {
      if event == Sym("terminated") {
        ghost var before := trace;
        if Stopping in hooks {
          trace := trace + [RunHook(Stopping)];
        }
        if Cleanup in hooks {
          trace := trace + [RunHook(Cleanup)];
        }
        trace := trace + [CallSuper];
        if Stopped in hooks {
          trace := trace + [RunHook(Stopped)];
        }
        assert trace == before + IfDefined(hooks, Stopping) + IfDefined(hooks, Cleanup) + [CallSuper] + IfDefined(hooks, Stopped);
      } else {
        trace := trace + [CallSuper];
      }
    }

    /** `on_message`: the balancer gets exactly one `:subscribe`, whether
        the work returned or raised. */
    method OnMessage(message: M) returns (o: Outcome)
      modifies balancer
      ensures o == Dispatch(workMethod, methods, work, message)
      ensures balancer.inbox == old(balancer.inbox) + [Sym("subscribe")]
    {
      if workMethod.Some? {
        if workMethod.value in methods {
          o := methods[workMethod.value](message);
        } else {
          o := Raised(NoMethodError(workMethod.value));
        }
      } else {
        o := work(message);
      }
      balancer.inbox := balancer.inbox + [Sym("subscribe")];
    }
  }

  /** Two members sharing one balancer: every message either handles adds
      exactly one `:subscribe` to it from `on_message`. Whatever the
      superclass `Concurrent::Actor::Utils::AbstractWorker` sends to the
      balancer itself is outside this model and not counted here. */
  method TwoMembersShareBalancer<M>(work: M -> Outcome, first: M, second: M) returns (inbox: seq<Value>)
    ensures inbox == [Sym("subscribe"), Sym("subscribe")]
  {
    var b := new Balancer();
    var m := new PoolableActor({}, None, map[], work, b);
    var n := new PoolableActor({}, None, map[], work, b);
    var _ := m.OnMessage(first);
    var _ := n.OnMessage(second);
    inbox := b.inbox;
  }

  // ---------------------------------------------------------------------
  // PoolableActor.pool

  /** What a member is started with: the pool's balancer. */
  datatype PoolArgument = PoolBalancer

  datatype MemberSpec = MemberSpec(name: string, supervise: bool, args: seq<PoolArgument>)

  datatype PoolSpec = PoolSpec(name: string, members: seq<MemberSpec>)

  /** `"#{to_s}_#{i}_#{suffix}"`. */
  function MemberName(cls: string, i: nat, suffix: string): string {
    cls + "_" + (NatToString(i) + "_" + suffix)
  }

  /** `pool(pool_size, suffix = '')`: a pool named after the class, whose
      member `i`, for each `i` below the size, is supervised, gets the
      balancer and is named after the class, `i` and the suffix. */
  function Pool(cls: string, poolSize: nat, suffix: string := ""): (p: PoolSpec)
    ensures p.name == cls + "_pool"
    ensures |p.members| == poolSize
    ensures forall i :: 0 <= i < poolSize ==>
      p.members[i] == MemberSpec(MemberName(cls, i, suffix), true, [PoolBalancer])
  {
    PoolSpec(cls + "_pool",
      seq(poolSize, i requires 0 <= i < poolSize => MemberSpec(MemberName(cls, i, suffix), true, [PoolBalancer])))
  }

  /** Digits cannot stand where the separator does: a printed number
      followed by `_` determines the number. */
  lemma NumberThenSeparator(i: nat, j: nat, suffix: string)
    requires NatToString(i) + "_" + suffix == NatToString(j) + "_" + suffix
    ensures i == j
  {
    var x, y := NatToString(i), NatToString(j);
    var l := x + "_" + suffix;
    assert x == l[..|x|] == y;
    NatToStringInjective(i, j);
  }

  /** Distinct indices give distinct member names. */
  lemma MemberNamesDistinct(cls: string, suffix: string, i: nat, j: nat)
    requires i != j
    ensures MemberName(cls, i, suffix) != MemberName(cls, j, suffix)
  {
    if MemberName(cls, i, suffix) == MemberName(cls, j, suffix) {
      var p := cls + "_";
      assert (p + (NatToString(i) + "_" + suffix))[|p|..] == NatToString(i) + "_" + suffix;
      assert (p + (NatToString(j) + "_" + suffix))[|p|..] == NatToString(j) + "_" + suffix;
      NumberThenSeparator(i, j, suffix);
    }
  }

  /** The pool's own name is never a member's name. */
  lemma PoolNameIsNoMemberName(cls: string, suffix: string, i: nat)
    ensures cls + "_pool" != MemberName(cls, i, suffix)
  {
    var p := cls + "_";
    assert (cls + "_pool")[|p|] == 'p';
    assert MemberName(cls, i, suffix)[|p|] == NatToString(i)[0];
  }

  /** Every member of a pool is named differently. */
  lemma PoolMembersDistinct(cls: string, poolSize: nat, suffix: string)
    ensures forall i, j :: 0 <= i < j < poolSize ==>
      Pool(cls, poolSize, suffix).members[i].name != Pool(cls, poolSize, suffix).members[j].name
  {
    forall i, j | 0 <= i < j < poolSize
      ensures Pool(cls, poolSize, suffix).members[i].name != Pool(cls, poolSize, suffix).members[j].name
    {
      MemberNamesDistinct(cls, suffix, i, j);
    }
  }
}
