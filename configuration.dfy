/** `Configuration`: the global settings object. Each getter returns the
    value set through its writer, or computes a default, stores it and
    returns it (`@field ||= default`). Unset fields, and fields set to
    nil, are `None`. The environment is a map from variable name to value. */
module Configurations {
  import opened Values
  import opened Strings
  import opened WorkerDescriptionParser

  type Environment = map<string, string>

  const DefaultExchangeName: string := "proletariat"

  function EnvLookup(env: Environment, key: string): (r: Option<string>)
    ensures r.Some? <==> key in env
    ensures key in env ==> r.value == env[key]
  {
    if key in env then Some(env[key]) else None
  }

  /** `(ENV[var] || fallback).to_i`: the variable read as an integer when
      it is set, the fallback otherwise. */
  function DefaultThreads(setting: Option<string>, fallback: nat): int {
    match setting
    case None => fallback
    case Some(s) => ToI(s)
  }

  /** An unset variable gives the fallback. */
  lemma DefaultThreadsUnset(fallback: nat)
    ensures DefaultThreads(None, fallback) == fallback
  {
  }

  /** A variable holding a count gives that count. */
  lemma DefaultThreadsOfCount(n: nat, fallback: nat)
    ensures DefaultThreads(Some(NatToString(n)), fallback) == n
  {
    ToIOfNatToString(n);
  }

  /** A variable that does not start with a number gives 0, not the
      fallback (`'abc'.to_i` is 0, and 0 is truthy for `||=`). */
  lemma DefaultThreadsNotANumber(s: string, fallback: nat)
    requires s == [] || (!IsBlank(s[0]) && !IsDigit(s[0]) && s[0] != '-' && s[0] != '+')
    ensures DefaultThreads(Some(s), fallback) == 0
  {
  }

  class Configuration<C(==)> {
    /** `DEFAULT_PUBLISHER_THREADS` and `DEFAULT_WORKER_THREADS`, read from
        the environment once. */
    const defaultPublisherThreads: int
    const defaultWorkerThreads: int
    /** The root namespace and the constant table class names are looked
        up in. */
    const root: C
    const table: map<(C, string), C>

    var exchangeName: Option<string>
    var publisherThreads: Option<int>
    var workerThreads: Option<int>
    var workerClasses: Option<seq<C>>

    constructor(env: Environment, root: C, table: map<(C, string), C>)
      ensures defaultPublisherThreads == DefaultThreads(EnvLookup(env, "PUBLISHER_THREADS"), 2)
      ensures defaultWorkerThreads == DefaultThreads(EnvLookup(env, "WORKER_THREADS"), 3)
      ensures this.root == root && this.table == table
      ensures exchangeName == None && publisherThreads == None
      ensures workerThreads == None && workerClasses == None
    {
      defaultPublisherThreads := DefaultThreads(EnvLookup(env, "PUBLISHER_THREADS"), 2);
      defaultWorkerThreads := DefaultThreads(EnvLookup(env, "WORKER_THREADS"), 3);
      this.root := root;
      this.table := table;
      exchangeName := None;
      publisherThreads := None;
      workerThreads := None;
      workerClasses := None;
    }

    /** `exchange_name`: the value set, or `'proletariat'`, which is then
        kept. */
    method ExchangeName() returns (name: string)
      modifies this
      ensures name == old(exchangeName).GetOr(DefaultExchangeName)
      ensures exchangeName == Some(name)
      ensures publisherThreads == old(publisherThreads) && workerThreads == old(workerThreads)
      ensures workerClasses == old(workerClasses)
    {
      if exchangeName.None? {
        exchangeName := Some(DefaultExchangeName);
      }
      name := exchangeName.value;
    }

    /** `publisher_threads`: the value set, or the environment default,
        which is then kept. */
    method PublisherThreads() returns (n: int)
      modifies this
      ensures n == old(publisherThreads).GetOr(defaultPublisherThreads)
      ensures publisherThreads == Some(n)
      ensures exchangeName == old(exchangeName) && workerThreads == old(workerThreads)
      ensures workerClasses == old(workerClasses)
    {
      if publisherThreads.None? {
        publisherThreads := Some(defaultPublisherThreads);
      }
      n := publisherThreads.value;
    }

    /** `worker_threads`: the value set, or the environment default, which
        is then kept. */
    method WorkerThreads() returns (n: int)
      modifies this
      ensures n == old(workerThreads).GetOr(defaultWorkerThreads)
      ensures workerThreads == Some(n)
      ensures exchangeName == old(exchangeName) && publisherThreads == old(publisherThreads)
      ensures workerClasses == old(workerClasses)
    {
      if workerThreads.None? {
        workerThreads := Some(defaultWorkerThreads);
      }
      n := workerThreads.value;
    }

    /** `worker_classes`: the classes set, or, when none are, the classes
        `WORKERS` names (`[]` when it is unset), which are then kept.
        `workers` is `ENV['WORKERS']` at the time of the call; `warnings`
        are the lines logged while parsing it. */
    method WorkerClasses(workers: Option<string>) returns (classes: seq<C>, warnings: seq<string>)
      modifies this
      ensures old(workerClasses).Some? ==> classes == old(workerClasses).value && warnings == []
      ensures old(workerClasses).None? && workers.None? ==> classes == [] && warnings == []
      ensures old(workerClasses).None? && workers.Some? ==>
        classes == Parse(workers.value, root, table).classes &&
        warnings == Parse(workers.value, root, table).warnings
      ensures workerClasses == Some(classes)
      ensures exchangeName == old(exchangeName) && publisherThreads == old(publisherThreads)
      ensures workerThreads == old(workerThreads)
    {
      warnings := [];
      if workerClasses.None? {
        if workers.Some? {
          var parsed := Parse(workers.value, root, table);
          workerClasses := Some(parsed.classes);
          warnings := parsed.warnings;
        } else {
          workerClasses := Some([]);
        }
      }
      classes := workerClasses.value;
    }

    /** `exchange_name=`; nil is `None`. */
    method SetExchangeName(v: Option<string>)
      modifies this
      ensures exchangeName == v
      ensures publisherThreads == old(publisherThreads) && workerThreads == old(workerThreads)
      ensures workerClasses == old(workerClasses)
    {
      exchangeName := v;
    }

    method SetPublisherThreads(v: Option<int>)
      modifies this
      ensures publisherThreads == v
      ensures exchangeName == old(exchangeName) && workerThreads == old(workerThreads)
      ensures workerClasses == old(workerClasses)
    {
      publisherThreads := v;
    }

    method SetWorkerThreads(v: Option<int>)
      modifies this
      ensures workerThreads == v
      ensures exchangeName == old(exchangeName) && publisherThreads == old(publisherThreads)
      ensures workerClasses == old(workerClasses)
    {
      workerThreads := v;
    }

    method SetWorkerClasses(v: Option<seq<C>>)
      modifies this
      ensures workerClasses == v
      ensures exchangeName == old(exchangeName) && publisherThreads == old(publisherThreads)
      ensures workerThreads == old(workerThreads)
    {
      workerClasses := v;
    }
  }

  /** Memoisation: once `worker_classes` has answered, it keeps its answer
      even if `WORKERS` changes, and logs nothing more. */
  method WorkerClassesAreKept<C(==)>(config: Configuration<C>, before: Option<string>, after: Option<string>)
    returns (first: seq<C>, second: seq<C>, laterWarnings: seq<string>)
    modifies config
    ensures first == second && laterWarnings == []
  {
    var w;
    first, w := config.WorkerClasses(before);
    second, laterWarnings := config.WorkerClasses(after);
  }

  /** Writing nil brings the default back: `||=` treats nil as unset. */
  method NilRestoresDefault<C(==)>(config: Configuration<C>, v: string)
    returns (written: string, restored: string)
    modifies config
    ensures written == v && restored == DefaultExchangeName
  {
    config.SetExchangeName(Some(v));
    written := config.ExchangeName();
    config.SetExchangeName(None);
    restored := config.ExchangeName();
  }
}
