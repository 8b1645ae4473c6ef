# Proletariat, modelled in Dafny

Proletariat is a Ruby framework for background workers on RabbitMQ.
Messages are published to a topic exchange.
Each worker class declares the routing keys it listens on.
For each worker class a `Subscriber` binds a queue to those keys.
Each delivery goes to a pool of concurrent actors, which run the worker's `work`.
The result of `work` (`:ok`, `:drop`, `:requeue` or an exception) becomes an acknowledgement on the channel.
Exception handlers are meant to decide what happens to a message whose work failed.
No other file of the library refers to the handlers, though: the subscriber requeues errored work itself (`acknowledge_error` in subscriber.rb), so a handler runs only where an application sets one up.
`ExponentialBackoff` re-publishes such a message onto a ladder of delay queues.
A testing harness counts the messages received on given topics.

This project models that core:

- **Values and strings.** `values.dfy` and `strings.dfy`:
  - the Ruby values the core passes around;
  - Ruby truthiness;
  - the `String` operations the core calls (`split`, `strip`, `to_i`, `Integer#to_s`, `tr`, `downcase`).
- **Messages and queue configuration.** `message.dfy` and `queue_config.dfy`:
  - the `Message` struct;
  - the derivation of a queue name from a worker class name.
- **Parsing worker names.** `worker_description_parser.dfy`: turning `"A,B::C"` into classes, through a constant table.
- **Configuration.** `configuration.dfy`:
  - the `Configuration` object;
  - its memoised getters and setters;
  - the thread-count defaults read from the environment.
- **Actors.** `lifecycle.dfy`, `actor_common.dfy`, `actor.dfy` and `poolable_actor.dfy`. The actors are objects that record a trace of the steps they take:
  - the lifecycle hooks, modelled as a set of the hooks a class defines;
  - `super`;
  - the `work` calls;
  - the draining of the mailbox on stop.
- **Workers.** `worker.dfy`:
  - the `Worker` base class with its routing-key declaration;
  - logging, publishing;
  - the "Attempting graceful shutdown" / "Waiting" / "Now offline" stop sequence.
- **Subscriber.** `subscriber.dfy`:
  - the queue setup it performs;
  - bookkeeping of acknowledgers, one per delivery;
  - `on_task`, which acknowledges the resolved futures and keeps the pending ones;
  - the stop sequence, which waits for every outstanding acknowledger.
- **Exception handlers.** `exception_handler.dfy` and `exponential_backoff.dfy`:
  - the handler base class and `Drop`;
  - `ExponentialBackoff`: its retry ladder (`i^i` seconds capped at the maximum delay), the choice of rung from the `x-death` header, the queues and bindings it declares, and the requeue round trip.
- **Testing harness.** `expectation.dfy` and `expectation_guarantor.dfy`:
  - `Expectation` and its builders;
  - the `MessageCounter`s of `ExpectationGuarantor` and its `passed?` verdict.

How the Ruby is represented:

- **Side effects are recorded, not performed.** A method that talks to the broker or the logger appends to a field of the object instead:
  - `trace` for `Step`s;
  - `effects` for the subscriber's `Effect`s;
  - `ops` for the backoff handler's `BrokerOp`s.
- **Memoisation is explicit.** Most `@x ||=` memos are `Option` fields, and a getter writes that field on its first call. Four are not:
  - `@queue_name` and `@delay_times` are not stored, because they cache pure computations;
  - `@exchange` is a flag;
  - `@acknowledgers ||= []` is a list that starts empty.

  Each of the four has a line under "## Left out".
- **Futures are states.** A future that a method waits on is taken as a parameter: the state it reaches, constrained by `CanEvolve`.
- **Ruby constants.** `self.class`, `object_id` and constant lookup become parameters or constant tables.

## Model

| member | source | states |
|---|---|---|
| Messages.Unpack | lib/proletariat/exception_handler.rb:18 | the argument list `work(message.body, message.to, message.headers)` carries the message's body, routing key and headers; the round trip is in `Messages.UnpackRepack` |
| Messages.Repack | lib/proletariat/exception_handler.rb:18 | a message rebuilt from `work`'s arguments has that routing key, body and headers; the round trip is in `Messages.UnpackRepack` |
| Messages.UnpackRepack | lib/proletariat/message.rb:8-9 | the argument order `work(body, to, headers)` loses nothing: repacking the unpacked message gives the message back |
| Messages.MessageEquality | lib/proletariat/message.rb:8-9 | struct equality: two messages are equal iff their routing key, body and headers are |
| QueueConfigs.QueueName | lib/proletariat/queue_config.rb:12-21 | definition: the three `gsub`s, `tr` and `downcase` in the source's order; properties in `QueueNameAlphabet`, `QueueNameNoDoubleColon`, `QueueNameIdempotent` and the example lemmas |
| QueueConfigs.ConfigQueueName | lib/proletariat/queue_config.rb:12-13 | definition: a configuration's queue name is `QueueName` of its worker name; the memo is under "## Left out" |
| QueueConfigs.ColonsToSlashes | lib/proletariat/queue_config.rb:15 | definition of `gsub(/::/, '/')`; properties in `ColonsBecomeSlashes` and `ColonsToSlashesIdentity` |
| QueueConfigs.SplitAcronyms | lib/proletariat/queue_config.rb:16 | definition of the acronym rewrite; properties in `AcronymWordAcronyms` and `SplitAcronymsIdentity` |
| QueueConfigs.SplitWords | lib/proletariat/queue_config.rb:17 | the word-boundary rewrite keeps the first character; further properties in `SplitWordsBoundary`, `SplitWordsConcat` and `SplitWordsIdentity` |
| QueueConfigs.Finish | lib/proletariat/queue_config.rb:18-19 | definition of `tr('-', '_')` followed by `downcase`; properties in `QueueNameAlphabet` |
| QueueConfigs.QueueNameAlphabet | lib/proletariat/queue_config.rb:12-21 | every queue name has no upper-case letter and no `-` (`tr` then `downcase`) |
| QueueConfigs.SplitWordsConcat | lib/proletariat/queue_config.rb:17 | the word-boundary rewrite acts piecewise on strings not joined at a lower-or-digit/upper boundary |
| QueueConfigs.SplitWordsBoundary | lib/proletariat/queue_config.rb:17 | at a lower-or-digit followed by an upper letter, the rewrite inserts exactly one `_` |
| QueueConfigs.ColonsToSlashesIdentity | lib/proletariat/queue_config.rb:15 | a name without `::` is unchanged by the `::` to `/` rewrite |
| QueueConfigs.SplitAcronymsIdentity | lib/proletariat/queue_config.rb:16 | a name without two adjacent capitals is unchanged by the acronym rewrite |
| QueueConfigs.SplitWordsIdentity | lib/proletariat/queue_config.rb:17 | a name without a lower-or-digit/upper boundary is unchanged by the word rewrite |
| QueueConfigs.AcronymWordAcronyms | lib/proletariat/queue_config.rb:16 | an all-capitals acronym followed by a capitalised word gets `_` between the acronym and the word |
| QueueConfigs.CapitalisedName | lib/proletariat/queue_config.rb:12-21 | a single capitalised word becomes its lower-case form |
| QueueConfigs.TwoWordsName | lib/proletariat/queue_config.rb:12-21 | two capitalised words `AB` become `a_b` |
| QueueConfigs.AcronymWordName | lib/proletariat/queue_config.rb:12-21 | an acronym followed by a word (`HTTPServer`) becomes `http_server` in general form |
| QueueConfigs.NamespacedName | lib/proletariat/queue_config.rb:12-21 | `Ns::W` becomes the name of `Ns`, then `/`, then the name of `W` |
| QueueConfigs.NamespacedTwoWords | lib/proletariat/queue_config.rb:12-21 | `Ns::AB` becomes `ns/a_b` |
| QueueConfigs.ExampleWorkerName | spec/lib/queue_config_spec.rb:6-10 | `ExampleWorker` becomes `example_worker` |
| QueueConfigs.NestedWorkerName | lib/proletariat/queue_config.rb:12-21 | `My::NestedWorker` becomes `my/nested_worker` |
| QueueConfigs.AcronymName | lib/proletariat/queue_config.rb:16 | `HTTPServer` becomes `http_server` |
| QueueConfigs.EmptyName | lib/proletariat/queue_config.rb:12-21 | the empty worker name gives the empty queue name |
| QueueConfigs.ColonsBecomeSlashes | lib/proletariat/queue_config.rb:15 | segments joined by `::` become the same segments joined by `/` |
| QueueConfigs.QueueNameNoDoubleColon | lib/proletariat/queue_config.rb:12-21 | no queue name contains `::` |
| QueueConfigs.QueueNameIdempotent | lib/proletariat/queue_config.rb:12-21 | deriving a queue name from a queue name changes nothing |
| Values.Truthy | lib/proletariat/exception_handler/exponential_backoff.rb:78 | definition: only `nil` and `false` are falsy; used by `QueueForXDeath` and `Worker.Log` |
| Values.Length | lib/proletariat/exception_handler/exponential_backoff.rb:79 | `length` answers for strings, symbols, arrays and hashes and is their size; any other value has none, which is `NoMethodError` |
| Values.Get | lib/proletariat/exception_handler/exponential_backoff.rb:29 | `headers[key]` is the stored value when the key is present and `nil` otherwise |
| Strings.Split | lib/proletariat/util/worker_description_parser.rb:17 | definition: the pieces between separators with trailing empty pieces dropped; properties in `SplitIsPrefixOfPieces` and `JoinPieces` |
| Strings.JoinPieces | lib/proletariat/util/worker_description_parser.rb:17 | `split` pieces joined with the separator give back the original string |
| Strings.SplitIsPrefixOfPieces | lib/proletariat/util/worker_description_parser.rb:17 | `split` keeps a prefix of the pieces and drops only empty trailing ones |
| Strings.StripIdempotent | lib/proletariat/util/worker_description_parser.rb:17 | `strip` applied twice is `strip` applied once |
| Strings.Strip | lib/proletariat/util/worker_description_parser.rb:17 | `strip`'s result neither starts nor ends with a blank, is no longer than its input, and leaves an unpadded string unchanged |
| Strings.ToI | lib/proletariat/configuration.rb:8-11 | a string that starts neither with a blank, a digit nor a sign reads as 0 |
| Strings.MagnitudeOfRadixPrefixed | lib/proletariat/configuration.rb:8-11 | past a `0d`/`0D` prefix, a printed count reads back as the count |
| Strings.ToIOfRadixPrefixed | lib/proletariat/configuration.rb:8-11 | `to_i` reads past a `0d`/`0D` prefix, with or without a sign: `"0d#{n}"` gives `n`, `"-0D#{n}"` gives `-n` |
| Strings.ToIOfNatToString | lib/proletariat/configuration.rb:8-11 | `n.to_s.to_i == n` for every count |
| Strings.NatToString | lib/proletariat/exception_handler/exponential_backoff.rb:112 | `Integer#to_s` of a count is a non-empty string of digits with no leading zero, except `"0"` itself; more in `ToIOfNatToString` and `NatToStringInjective` |
| Strings.ReplaceChar | lib/proletariat/queue_config.rb:18 | `tr(from, to)`, character by character: each `from` becomes `to` and every other character is kept, so the length is kept |
| Strings.Downcase | lib/proletariat/queue_config.rb:19 | ASCII `downcase`: the same length, no upper-case letter left, each character lowered by `LowerChar` |
| Strings.NatToStringInjective | lib/proletariat/concurrency/poolable_actor.rb:21 | distinct numbers print differently |
| WorkerDescriptionParser.MissingWarning | lib/proletariat/util/worker_description_parser.rb:33 | definition of the warning text `Missing worker class: <name>`; its use is in `ParseOneField` |
| WorkerDescriptionParser.Constantize | lib/proletariat/util/worker_description_parser.rb:30-35 | definition: split at `::` and resolve from the root; properties in `ParseOneField`, `EmptyNameIsRoot`, `ResolveFirstMissing` and `ResolveConcat` |
| WorkerDescriptionParser.ParseFields | lib/proletariat/util/worker_description_parser.rb:16-20 | every field gives either a class or a warning, so the classes and the warnings together number the fields; the rest is in `ParseFieldsConcat` and `ParseAllFound` |
| WorkerDescriptionParser.Resolve | lib/proletariat/util/worker_description_parser.rb:31 | an empty path is the start namespace; a missing constant is one of the path's segments |
| WorkerDescriptionParser.Fields | lib/proletariat/util/worker_description_parser.rb:17 | there is one field per `split(',')` piece, and each field is that piece stripped |
| WorkerDescriptionParser.Parse | lib/proletariat/util/worker_description_parser.rb:16-20 | each field yields either a class or a warning, so classes plus warnings number the fields |
| WorkerDescriptionParser.ParseFieldsConcat | lib/proletariat/util/worker_description_parser.rb:16-20 | parsing is a map with `compact`: the classes and warnings of `f + g` are those of `f` followed by those of `g` |
| WorkerDescriptionParser.ParseOneField | lib/proletariat/util/worker_description_parser.rb:30-35 | a resolved name contributes its class and no warning; a missing one contributes no class and the warning `Missing worker class: <name>` |
| WorkerDescriptionParser.ParseAllFound | lib/proletariat/util/worker_description_parser.rb:16-20 | when every name resolves, the classes are the fields' classes in order and there are no warnings |
| WorkerDescriptionParser.ResolveConcat | lib/proletariat/util/worker_description_parser.rb:31 | resolving `s + t` is resolving `t` from where `s` ended, or `s`'s miss |
| WorkerDescriptionParser.ResolveFirstMissing | lib/proletariat/util/worker_description_parser.rb:31-34 | the reduction stops at the first missing constant, and names it |
| WorkerDescriptionParser.EmptyNameIsRoot | lib/proletariat/util/worker_description_parser.rb:31 | the empty name reduces to `Object` itself |
| WorkerDescriptionParser.TwoFields | lib/proletariat/util/worker_description_parser.rb:17 | `"a,b".split(',')` is `[a, b]` |
| WorkerDescriptionParser.ParseTwoNames | lib/proletariat/util/worker_description_parser.rb:16-20 | two plain existing class names parse to those two classes, and there are no warnings |
| WorkerDescriptionParser.ExampleParse | lib/proletariat/util/worker_description_parser.rb:10-13 | `'FirstWorker,SecondWorker'` parses to `[FirstWorker, SecondWorker]` |
| WorkerDescriptionParser.PiecesNoDoubleColon | lib/proletariat/util/worker_description_parser.rb:31 | a name without `:` is one segment |
| Configurations.DefaultThreads | lib/proletariat/configuration.rb:8-11 | definition of `(ENV[var] || fallback).to_i`; properties in `DefaultThreadsUnset`, `DefaultThreadsOfCount` and `DefaultThreadsNotANumber` |
| Configurations.EnvLookup | lib/proletariat/configuration.rb:8-11 | `ENV[key]` is present exactly when the key is set, and then it is the set value |
| Configurations.DefaultThreadsUnset | lib/proletariat/configuration.rb:8-11 | with the variable unset, the default is the fallback (2 or 3) |
| Configurations.DefaultThreadsOfCount | lib/proletariat/configuration.rb:8-11 | a variable holding a printed count gives that count |
| Configurations.DefaultThreadsNotANumber | lib/proletariat/configuration.rb:8-11 | a variable that does not start with a number gives 0 (`to_i`) |
| Configurations.Configuration.constructor | lib/proletariat/configuration.rb:5-11 | thread defaults come from the environment; nothing is memoised yet |
| Configurations.Configuration.ExchangeName | lib/proletariat/configuration.rb:59-61 | returns the set name or `'proletariat'` and memoises it; the other fields are unchanged |
| Configurations.Configuration.PublisherThreads | lib/proletariat/configuration.rb:73-75 | returns the set count or the publisher default and memoises it |
| Configurations.Configuration.WorkerThreads | lib/proletariat/configuration.rb:94-96 | returns the set count or the worker default and memoises it |
| Configurations.Configuration.WorkerClasses | lib/proletariat/configuration.rb:81-89 | a memoised list wins; otherwise the parse of `WORKERS`, with its warnings, or `[]` when it is unset; the result is memoised |
| Configurations.Configuration.SetExchangeName | lib/proletariat/configuration.rb:17 | the writer sets exactly that field |
| Configurations.Configuration.SetPublisherThreads | lib/proletariat/configuration.rb:23 | the writer sets exactly that field |
| Configurations.Configuration.SetWorkerClasses | lib/proletariat/configuration.rb:27 | the writer sets exactly that field |
| Configurations.Configuration.SetWorkerThreads | lib/proletariat/configuration.rb:30 | the writer sets exactly that field |
| Configurations.WorkerClassesAreKept | lib/proletariat/configuration.rb:81-89 | once read, the worker classes do not change when `WORKERS` changes, and no second parse warns |
| Configurations.NilRestoresDefault | lib/proletariat/configuration.rb:59-61 | a written name is returned; writing `nil` restores `'proletariat'` |
| Lifecycle.Around | lib/proletariat/concurrency/actor_common.rb:6-12 | a before/`super`/after trace is never empty; further properties in `AroundCounts`, `AroundOrder` and `AroundOccurrences` |
| Lifecycle.WorkSteps | lib/proletariat/concurrency/actor.rb:65-69 | one `work` step per message, in mailbox order |
| Lifecycle.IfDefined | lib/proletariat/concurrency/actor_common.rb:18-24 | a hook runs exactly when the class defines it |
| Lifecycle.OccurrencesAppend | lib/proletariat/concurrency/actor_common.rb:16-28 | step counts add up over concatenated traces |
| Lifecycle.AroundOccurrences | lib/proletariat/concurrency/actor_common.rb:6-12 | the count of any step in a before-`super`-after trace is the sum of its counts in the three parts |
| Lifecycle.AroundCounts | lib/proletariat/concurrency/actor_common.rb:6-12 | `super` runs exactly once; each of the two hooks runs once if defined; no other hook runs |
| Lifecycle.AroundOrder | lib/proletariat/concurrency/actor_common.rb:6-12 | the before hook precedes `super`, which precedes the after hook |
| Lifecycle.WorkStepsAppend | lib/proletariat/concurrency/actor.rb:65-69 | the work steps of two mailbox segments are the segments' steps in order |
| Lifecycle.Drain | lib/proletariat/concurrency/actor.rb:65-69 | a drain splits the mailbox into delivered and remaining messages; with no error, everything was delivered |
| Lifecycle.DrainOutcomes | lib/proletariat/concurrency/actor.rb:65-69 | every delivered message but the last returned; on error, the last one is the one that raised, and its error is reported |
| Lifecycle.DrainAll | lib/proletariat/concurrency/actor.rb:65-69 | when every message's work returns, the whole mailbox is delivered, nothing remains and there is no error |
| Lifecycle.DrainLoop | lib/proletariat/concurrency/actor.rb:65-69 | the popping loop computes `Drain` |
| Lifecycle.DrainStep | lib/proletariat/concurrency/actor.rb:65-69 | a returning head message is delivered first, then the rest is drained |
| ActorCommon.InitTrace | lib/proletariat/concurrency/actor_common.rb:6-12 | the injected initializer's trace is never empty; its order and counts are in `InitOrder` |
| ActorCommon.EventTrace | lib/proletariat/concurrency/actor_common.rb:16-28 | every event's trace is non-empty; further properties in `TerminatedCounts`, `TerminatedOrder`, `TerminatedOccurrences` and `OtherEvent` |
| ActorCommon.InitOrder | lib/proletariat/concurrency/actor_common.rb:6-12 | construction runs `starting`, then `super` once, then `started`, and no other hook |
| ActorCommon.TerminatedOccurrences | lib/proletariat/concurrency/actor_common.rb:16-28 | the count of any step in the `:terminated` trace, as the sum over its parts |
| ActorCommon.TerminatedCounts | lib/proletariat/concurrency/actor_common.rb:16-28 | `:terminated` runs `super` once and each defined stop hook once |
| ActorCommon.TerminatedOrder | lib/proletariat/concurrency/actor_common.rb:16-28 | `:terminated` runs `stopping`, then `cleanup`, then `super`, then `stopped` |
| ActorCommon.OtherEvent | lib/proletariat/concurrency/actor_common.rb:16-28 | any other event only calls `super` |
| Actors.StopTrace | lib/proletariat/concurrency/actor.rb:44-54 | when draining raises, neither `super` nor `stopped` runs |
| Actors.Actor.constructor | lib/proletariat/concurrency/actor.rb:9-11 | the delegate is built from the class and arguments; the mailbox and trace are empty |
| Actors.Actor.Enqueue | lib/proletariat/concurrency/actor.rb:4 | a message sent to the actor is appended to its mailbox |
| Actors.Actor.Act | lib/proletariat/concurrency/actor.rb:20-22 | messages go to the delegate's `work` and its outcome is returned |
| Actors.Actor.OnRun | lib/proletariat/concurrency/actor.rb:29-37 | runs `starting`, `super` and `started` |
| Actors.Actor.OnStop | lib/proletariat/concurrency/actor.rb:44-54 | the new trace and mailbox are those of `StopTrace` and `Drain` on the old mailbox |
| Actors.Actor.WaitForQueueToDrain | lib/proletariat/concurrency/actor.rb:65-69 | the mailbox is drained in FIFO order, and the first error is returned |
| Actors.StopHandsOverEveryMessage | lib/proletariat/concurrency/actor.rb:44-54 | if all work returns: `stopping`, every message in order, then `super` and `stopped` |
| Actors.StopOrder | lib/proletariat/concurrency/actor.rb:44-54 | every drained message's work comes before `super` |
| Actors.StopWithEmptyMailbox | lib/proletariat/concurrency/actor.rb:44-54 | with an empty mailbox, stop is `stopping`, `super`, `stopped` |
| PoolableActors.Dispatch | lib/proletariat/concurrency/poolable_actor.rb:8-16 | without `work_method` the message goes to `work`; otherwise to that method, or `NoMethodError` when it is missing |
| PoolableActors.Balancer.constructor | lib/proletariat/concurrency/poolable_actor.rb:15 | a balancer starts with an empty inbox |
| PoolableActors.PoolableActor.constructor | lib/proletariat/concurrency/actor_common.rb:6-12 | construction runs the `starting`/`super`/`started` trace |
| PoolableActors.PoolableActor.OnEvent | lib/proletariat/concurrency/actor_common.rb:16-28 | events extend the trace by `EventTrace` |
| PoolableActors.PoolableActor.OnMessage | lib/proletariat/concurrency/poolable_actor.rb:8-16 | returns the dispatch outcome, and always tells the balancer `:subscribe` (`ensure`) |
| PoolableActors.TwoMembersShareBalancer | lib/proletariat/concurrency/poolable_actor.rb:14-15 | two members handling one message each send the shared balancer two `:subscribe`s from `on_message`; sends made by the superclass behind `super` are not counted |
| PoolableActors.Pool | lib/proletariat/concurrency/poolable_actor.rb:18-23 | the pool is named `<class>_pool` and has `pool_size` members, member `i` named `<class>_<i>_<suffix>` |
| PoolableActors.MemberName | lib/proletariat/concurrency/poolable_actor.rb:21 | definition of `"#{to_s}_#{i}_#{suffix}"`; properties in `MemberNamesDistinct` and `PoolNameIsNoMemberName` |
| PoolableActors.MemberNamesDistinct | lib/proletariat/concurrency/poolable_actor.rb:21 | different indices give different member names |
| PoolableActors.PoolNameIsNoMemberName | lib/proletariat/concurrency/poolable_actor.rb:20-21 | the pool name differs from every member name |
| PoolableActors.PoolMembersDistinct | lib/proletariat/concurrency/poolable_actor.rb:18-23 | all pool members have pairwise distinct names |
| Workers.BaseWork | lib/proletariat/worker.rb:50-52 | the base `work(message)` raises `NotImplementedError` when called with one argument, and `ArgumentError` with any other number |
| Workers.WorkerClass.constructor | lib/proletariat/worker.rb:124-126 | a worker class starts with no declared routing keys |
| Workers.WorkerClass.RoutingKeys | lib/proletariat/worker.rb:124-126 | returns the declared keys, or `[]`, and memoises them |
| Workers.WorkerClass.ListenOn | lib/proletariat/worker.rb:114-118 | appends the key to the (possibly fresh) list |
| Workers.ListenOnTwo | lib/proletariat/worker.rb:114-118 | `listen_on 'topic1'` then `listen_on 'topic2'` declare exactly those keys, in order |
| Workers.NoKeysByDefault | spec/lib/worker_spec.rb:71-78 | a worker with no `listen_on` has no routing keys |
| Workers.WorkerStopTrace | lib/proletariat/worker.rb:34-43 | definition: `on_stop`'s log lines around the drain; properties in `StopShape`, `StopShapeOfAll`, `StopDrainsFirst` and `StopSkipsEmptyDrain` |
| Workers.StopShape | lib/proletariat/worker.rb:34-43 | the stop trace starts with the shutdown line, and has no `super` when draining raised |
| Workers.StopShapeOfAll | lib/proletariat/worker.rb:34-43 | a complete drain of a non-empty queue: shutdown line, waiting line, every work step, `super`, offline line |
| Workers.Worker.constructor | lib/proletariat/concerns/logging.rb:10-14 | the identity prefix and the `work` behaviour are fixed; the mailbox and trace start empty |
| Workers.Worker.Enqueue | lib/proletariat/worker.rb:14-16 | a message sent to the worker is appended to its mailbox |
| Workers.Worker.Act | lib/proletariat/worker.rb:14-16 | `act` runs `work(message)` and returns its outcome |
| Workers.Worker.Log | lib/proletariat/worker.rb:69-77 | a truthy message is logged and `nil` returned; otherwise the logger itself is returned and nothing is logged |
| Workers.Worker.Publish | lib/proletariat/worker.rb:87-91 | a publication to the routing key (default body `''`) is recorded and `nil` returned |
| Workers.Worker.OnRun | lib/proletariat/worker.rb:22-28 | `super`, then the `Now online` line |
| Workers.Worker.OnStop | lib/proletariat/worker.rb:34-43 | the trace and mailbox are those of `WorkerStopTrace` and `Drain` on the old mailbox |
| Workers.Worker.WaitForWorkQueue | lib/proletariat/worker.rb:98-104 | the waiting line, then the drain of the mailbox in FIFO order |
| Workers.StopDrainsFirst | lib/proletariat/worker.rb:34-43 | when all work returns, every queued message is worked before `super` and the queue ends empty |
| Workers.StopSkipsEmptyDrain | lib/proletariat/worker.rb:34-43 | with an empty mailbox, no waiting line is written |
| ExceptionHandlers.Setup | lib/proletariat/exception_handler.rb:22-23 | the base `setup` creates nothing |
| ExceptionHandlers.New | lib/proletariat/exception_handler.rb:9-12 | a handler keeps its queue name and runs `setup` exactly once |
| ExceptionHandlers.Work | lib/proletariat/exception_handler.rb:32-34 | the base handler raises `NotImplementedError`; `Drop` returns `nil`; neither publishes |
| ExceptionHandlers.ActorWork | lib/proletariat/exception_handler.rb:17-19 | a message is unpacked into `work(body, to, headers)`; anything else returns `nil` |
| ExceptionHandlers.Methods | lib/proletariat/exception_handler.rb:37-39 | definition: the handler answers `actor_work` by name; the dispatch through it is in `PooledDispatchUsesActorWork` |
| ExceptionHandlers.PooledDispatchUsesActorWork | lib/proletariat/exception_handler.rb:37-39 | `work_method` is `:actor_work`, so the pool routes mail through `ActorWork` |
| ExceptionHandlers.BaseHandlerRaises | lib/proletariat/exception_handler.rb:32-34 | a base handler receiving a message raises `NotImplementedError` |
| ExceptionHandlers.DropDropsEverything | lib/proletariat/exception_handler/drop.rb:11-13 | `Drop` returns `nil` for any mail, publishes nothing and creates nothing |
| ExponentialBackoffs.Pow | lib/proletariat/exception_handler/exponential_backoff.rb:93 | definition of `i**i`; properties in `PowPositive`, `PowMonotoneInBase` and `SelfPowerMonotone` |
| ExponentialBackoffs.SelfPowersBelow | lib/proletariat/exception_handler/exponential_backoff.rb:91-95 | definition of `(1..).lazy.map { i**i }.take_while { < max }`; properties in `SelfPowersBelowSpec` |
| ExponentialBackoffs.Min | lib/proletariat/exception_handler/exponential_backoff.rb:79 | definition of `[a, b].min`; its use is in `QueueForXDeath` |
| ExponentialBackoffs.PowPositive | lib/proletariat/exception_handler/exponential_backoff.rb:89-99 | every power of a positive base is positive |
| ExponentialBackoffs.PowMonotoneInBase | lib/proletariat/exception_handler/exponential_backoff.rb:89-99 | a larger base gives a larger power |
| ExponentialBackoffs.SelfPowerMonotone | lib/proletariat/exception_handler/exponential_backoff.rb:89-99 | `i^i` strictly increases in `i` |
| ExponentialBackoffs.SelfPowersBelowSpec | lib/proletariat/exception_handler/exponential_backoff.rb:89-99 | the collected rungs are exactly the `i^i` below the cap, in order |
| ExponentialBackoffs.LadderSeconds | lib/proletariat/exception_handler/exponential_backoff.rb:89-99 | the ladder ends with the maximum delay |
| ExponentialBackoffs.RetryDelayTimes | lib/proletariat/exception_handler/exponential_backoff.rb:89-99 | delays are the ladder's seconds times 1000 |
| ExponentialBackoffs.RetryDelayTimesRungs | lib/proletariat/exception_handler/exponential_backoff.rb:89-99 | every rung but the last is `(k+1)^(k+1)` seconds and below the cap; the last is the cap |
| ExponentialBackoffs.RetryDelayTimesIncrease | lib/proletariat/exception_handler/exponential_backoff.rb:89-99 | the delays strictly increase |
| ExponentialBackoffs.SmallCapSingleRung | lib/proletariat/exception_handler/exponential_backoff.rb:89-99 | a cap of at most 1 second gives the single rung of the cap |
| ExponentialBackoffs.OneMinuteLadder | lib/proletariat/exception_handler/exponential_backoff.rb:89-99 | a 60-second cap gives 1, 4, 27 and 60 seconds |
| ExponentialBackoffs.QueueForXDeath | lib/proletariat/exception_handler/exponential_backoff.rb:77-83 | no header gives rung 0; a header with a length picks the rung `min(length, last)`; a header without one is a `NoMethodError`; the rung is always a valid index |
| ExponentialBackoffs.QueueForXDeathMonotone | lib/proletariat/exception_handler/exponential_backoff.rb:77-83 | a longer death history never picks an earlier rung, and saturates at the last rung |
| ExponentialBackoffBroker.RetryExchangeName | lib/proletariat/exception_handler/exponential_backoff.rb:67-69 | definition of `"#{exchange_name}_retry"`; its use is in `WorkPublication` and `EveryRungExists` |
| ExponentialBackoffBroker.RequeueQueueName | lib/proletariat/exception_handler/exponential_backoff.rb:103 | definition of `"#{queue_name}_requeue"`; its use is in `RetryQueueOpsAt` |
| ExponentialBackoffBroker.DelayQueueName | lib/proletariat/exception_handler/exponential_backoff.rb:112 | definition of `"#{queue_name}_delay_#{index}"`; properties in `DelayQueueNamesDistinct` |
| ExponentialBackoffBroker.ChannelOps | lib/proletariat/exception_handler/exponential_backoff.rb:43 | definition: a channel is created only when none is memoised; stated for the object in `ExponentialBackoff.Channel` |
| ExponentialBackoffBroker.RetryQueueStep | lib/proletariat/exception_handler/exponential_backoff.rb:111-121 | definition: one rung's declare and bind; properties in `RetryQueueOpsAt` |
| ExponentialBackoffBroker.SetupHead | lib/proletariat/exception_handler/exponential_backoff.rb:15-17 | definition: the requeue queue's declaration, its binding and its consumer; stated for the object in `ExponentialBackoff.Setup` |
| ExponentialBackoffBroker.SetupOps | lib/proletariat/exception_handler/exponential_backoff.rb:15-19 | definition: `SetupHead`, then every rung; properties in `RungDeclared` and `EveryRungExists` |
| ExponentialBackoffBroker.CleanupOps | lib/proletariat/exception_handler/exponential_backoff.rb:9-12 | definition of the two guarded calls; properties in `CleanupGuards` |
| ExponentialBackoffBroker.DelayQueueNamesDistinct | lib/proletariat/exception_handler/exponential_backoff.rb:111-121 | different rungs get different delay queues |
| ExponentialBackoffBroker.RetryQueueOps | lib/proletariat/exception_handler/exponential_backoff.rb:124-128 | two broker operations per rung |
| ExponentialBackoffBroker.RetryQueueOpsAt | lib/proletariat/exception_handler/exponential_backoff.rb:111-121 | rung `k` declares its delay queue, with the dead letter back to the requeue queue after delay `k`, and binds it under its own name |
| ExponentialBackoffBroker.WorkPublication | lib/proletariat/exception_handler/exponential_backoff.rb:28-37 | a publication exists iff the rung can be chosen; it is the body, published on the retry exchange with the rung's delay queue as routing key, persistent outside test mode, its headers the delivered ones plus the original routing key under `proletariat-to` |
| ExponentialBackoffBroker.RequeuePublication | lib/proletariat/exception_handler/exponential_backoff.rb:50-57 | a requeued message is published with its body and headers, to its `proletariat-to` key |
| ExponentialBackoffBroker.CleanupGuards | lib/proletariat/exception_handler/exponential_backoff.rb:9-12 | the consumer is cancelled iff there is one, and the channel is closed iff it is open |
| ExponentialBackoffBroker.RungDeclared | lib/proletariat/exception_handler/exponential_backoff.rb:111-121 | setup declares every rung's delay queue and binds it to the retry exchange |
| ExponentialBackoffBroker.EveryRungExists | lib/proletariat/exception_handler/exponential_backoff.rb:15-37 | the routing key `work` publishes under was bound by `setup` |
| ExponentialBackoffBroker.RequeueReturnsToOrigin | lib/proletariat/exception_handler/exponential_backoff.rb:28-57 | a retried message, once requeued with whatever headers the broker delivers, as long as they keep `proletariat-to`, is published back to its original routing key with its body |
| ExponentialBackoffBroker.ExponentialBackoff.constructor | lib/proletariat/exception_handler/exponential_backoff.rb:15-19 | construction runs the whole setup on a fresh handler |
| ExponentialBackoffBroker.ExponentialBackoff.Setup | lib/proletariat/exception_handler/exponential_backoff.rb:15-19 | the requeue queue, its consumer, then every retry queue |
| ExponentialBackoffBroker.ExponentialBackoff.Channel | lib/proletariat/exception_handler/exponential_backoff.rb:42-44 | a channel is opened only on first use |
| ExponentialBackoffBroker.ExponentialBackoff.Exchange | lib/proletariat/exception_handler/exponential_backoff.rb:60-69 | a retry exchange is declared only on first use; its name is `<exchange>_retry` |
| ExponentialBackoffBroker.ExponentialBackoff.SetupRequeueQueue | lib/proletariat/exception_handler/exponential_backoff.rb:102-108 | declares the requeue queue and binds it to the retry exchange |
| ExponentialBackoffBroker.ExponentialBackoff.ConsumeRequeue | lib/proletariat/exception_handler/exponential_backoff.rb:50-57 | subscribes to the requeue queue and keeps the consumer |
| ExponentialBackoffBroker.ExponentialBackoff.OnRequeued | lib/proletariat/exception_handler/exponential_backoff.rb:52-55 | each requeued delivery is published with `RequeuePublication` |
| ExponentialBackoffBroker.ExponentialBackoff.SetupRetryQueues | lib/proletariat/exception_handler/exponential_backoff.rb:124-128 | the loop declares rungs 0 to n-1 in order |
| ExponentialBackoffBroker.ExponentialBackoff.SetupRetryQueue | lib/proletariat/exception_handler/exponential_backoff.rb:111-121 | one rung: declare, then bind |
| ExponentialBackoffBroker.ExponentialBackoff.Work | lib/proletariat/exception_handler/exponential_backoff.rb:28-37 | publishes `WorkPublication` and returns `nil`, or raises `NoMethodError` when the rung cannot be chosen |
| ExponentialBackoffBroker.ExponentialBackoff.Cleanup | lib/proletariat/exception_handler/exponential_backoff.rb:9-12 | cancels the consumer if any, closes the channel if open |
| Subscribers.ChannelCallsAppend | lib/proletariat/subscriber.rb:57-62 | the channel calls of concatenated effects concatenate |
| Subscribers.Tags | lib/proletariat/subscriber.rb:57-62 | helper for the AcknowledgeAllCalls and ExactlyOneCall contracts: the tag of each channel call, position by position |
| Subscribers.CanEvolve | lib/proletariat/subscriber.rb:193-205 | definition: how a future may move on while the subscriber waits (pending to resolved, an unscheduled future to anything, a resolved one stays); used by `BlockUntilAcknowledged` and `FuturesProgress` |
| Subscribers.ReadyToAcknowledge | lib/proletariat/subscriber.rb:203-205 | definition: the future is not pending; properties in `ReadyMembers` and `UnscheduledReapedUnacknowledged` |
| Subscribers.AcknowledgeOnChannel | lib/proletariat/subscriber.rb:178-186 | definition of the fulfilled/rejected/other branches; properties in `ExactlyOneCall` and `RejectedIsRequeued` |
| Subscribers.AcknowledgeSuccess | lib/proletariat/subscriber.rb:215-226 | `:ok` acks, `:drop` rejects without requeue, `:requeue` rejects with requeue; anything else is warned about and rejected without requeue |
| Subscribers.AcknowledgeError | lib/proletariat/subscriber.rb:234-239 | an error is logged and the message rejected with requeue |
| Subscribers.ExactlyOneCall | lib/proletariat/subscriber.rb:178-186 | a resolved future makes exactly one channel call, on its own tag; a pending one makes none |
| Subscribers.RejectedIsRequeued | lib/proletariat/subscriber.rb:178-186 | a rejected future requeues its message |
| Subscribers.BlockUntilAcknowledged | lib/proletariat/subscriber.rb:193-198 | a future still pending after `MAX_BLOCK_TIME` acknowledges nothing |
| Subscribers.Ready | lib/proletariat/subscriber.rb:109-113 | definition of `select(&:ready_to_acknowledge?)`; properties in `ReadyMembers` |
| Subscribers.StillPending | lib/proletariat/subscriber.rb:57-62 | definition: the unready acknowledgers in order; properties in `StillPendingMembers` and `ExceptReadyIsStillPending` |
| Subscribers.Except | lib/proletariat/subscriber.rb:57-62 | definition of the repeated `Array#delete`; properties in `ExceptMembers`, `ExceptOneMore`, `ExceptAppend` and `ExceptReadyIsStillPending` |
| Subscribers.AcknowledgeAll | lib/proletariat/subscriber.rb:57-62 | definition: each ready acknowledger acknowledged in turn; properties in `AcknowledgeAllCalls` |
| Subscribers.AcknowledgeFromBack | lib/proletariat/subscriber.rb:145-153 | definition: the shutdown loop's pops from the back; properties in `AcknowledgeFromBackCalls` |
| Subscribers.StopConsumerEffects | lib/proletariat/subscriber.rb:134-139 | definition: cancel if consuming, then drain if any acknowledger remains; stated for the object in `Subscriber.StopConsumer` |
| Subscribers.ReadyMembers | lib/proletariat/subscriber.rb:109-113 | the ready acknowledgers are exactly those whose future is resolved |
| Subscribers.StillPendingMembers | lib/proletariat/subscriber.rb:57-62 | after `on_task`, exactly the unresolved acknowledgers remain |
| Subscribers.ExceptMembers | lib/proletariat/subscriber.rb:60 | `Array#delete` keeps exactly the elements not removed |
| Subscribers.ExceptOneMore | lib/proletariat/subscriber.rb:58-61 | deleting one more element is deleting the longer list |
| Subscribers.ExceptAppend | lib/proletariat/subscriber.rb:60 | deletion distributes over concatenation |
| Subscribers.ExceptReadyIsStillPending | lib/proletariat/subscriber.rb:57-62 | deleting the ready ones leaves the pending ones, in order |
| Subscribers.UnscheduledReapedUnacknowledged | lib/proletariat/subscriber.rb:178-205 | an acknowledger whose future was never scheduled is ready, so `on_task` drops it, yet it makes no channel call |
| Subscribers.AcknowledgeAllCalls | lib/proletariat/subscriber.rb:57-62 | the tags `on_task` acknowledges are those of the resolved acknowledgers, in order |
| Subscribers.AcknowledgeFromBackCalls | lib/proletariat/subscriber.rb:145-153 | the shutdown wait acknowledges the settled futures' tags, last first |
| Subscribers.Settled | lib/proletariat/subscriber.rb:145-153 | helper for the AcknowledgeFromBackCalls and FuturesProgress contracts: each acknowledger keeps its tag and takes its future's later state |
| Subscribers.Reversed | lib/proletariat/subscriber.rb:148 | `pop` visits the list from the back |
| Subscribers.Bindings | lib/proletariat/subscriber.rb:98-104 | one binding of the queue to the exchange per routing key, in order |
| Subscribers.Subscriber.constructor | lib/proletariat/subscriber.rb:14-28 | a new channel, prefetch, the durable topic exchange, the durable queue named `queue_name` with `auto_delete`, then its bindings |
| Subscribers.Subscriber.BindQueue | lib/proletariat/subscriber.rb:98-104 | appends the bindings for every routing key |
| Subscribers.Subscriber.OnRun | lib/proletariat/subscriber.rb:35-40 | starts consuming and logs `Now online` |
| Subscribers.Subscriber.StartConsumer | lib/proletariat/subscriber.rb:119-128 | subscribes to the queue and marks the consumer running |
| Subscribers.Subscriber.Deliver | lib/proletariat/subscriber.rb:120-125 | each delivery adds an acknowledger for the listener's future and its delivery tag |
| Subscribers.Subscriber.FuturesProgress | lib/proletariat/subscriber.rb:166-169 | futures move forward on their own; the tags stay |
| Subscribers.Subscriber.OnTask | lib/proletariat/subscriber.rb:57-62 | appends the acknowledgements of the ready ones and keeps exactly the pending ones |
| Subscribers.Subscriber.OnStop | lib/proletariat/subscriber.rb:47-51 | the shutdown line, the consumer stop, then `Now offline`; no acknowledger is left |
| Subscribers.Subscriber.StopConsumer | lib/proletariat/subscriber.rb:134-139 | the stop effects, waiting for every acknowledger |
| Subscribers.Subscriber.WaitForAcknowledgers | lib/proletariat/subscriber.rb:145-153 | the waiting line, then each acknowledger, popped from the back, is acknowledged once its future settles |
| Expectations.OnTopic | lib/proletariat/testing/expectation.rb:10-12 | replaces the topics and keeps the quantity |
| Expectations.MessagesOnAnyTopic | lib/proletariat/testing/fixnum_extension.rb:7-9 | `n.messages` expects `n` messages on `#` |
| Expectations.SingleMessage | lib/proletariat/testing.rb:13-15 | `message` expects one message on `#` |
| Expectations.SingleMessageIsOneMessage | lib/proletariat/testing.rb:13-15 | `message` is `1.messages` |
| Expectations.OnTopicLastWins | lib/proletariat/testing/expectation.rb:10-12 | a second `on_topic` overrides the first |
| Expectations.OnTopicOwnTopics | lib/proletariat/testing/expectation.rb:10-12 | re-applying the own topics changes nothing |
| Expectations.TwoTopicsInOrder | spec/lib/testing/expectation_spec.rb:6-10 | `Expectation.new([], 2).on_topic('lolcats', 'dogs')` is on exactly those topics in order, still for two messages |
| Expectations.ThreeMessagesOnOneTopic | lib/proletariat/testing.rb:26 | `3.messages.on_topic('email_sent')` expects 3 messages on that topic |
| ExpectationGuarantors.MessageCounter.constructor | lib/proletariat/testing/expectation_guarantor.rb:106-109 | keeps `expected` and the starting count (default 0) |
| ExpectationGuarantors.MessageCounter.Post | lib/proletariat/testing/expectation_guarantor.rb:125-129 | counts the message, returns an unscheduled future of `:ok`, and once enough messages arrived it stays so |
| ExpectationGuarantors.MessageCounter.ExpectedMessagesReceived | lib/proletariat/testing/expectation_guarantor.rb:115-117 | definition of `count >= expected`; `MessageCounter.Post` keeps it once it holds, and `ExpectationGuarantor.Received` collects it per counter |
| ExpectationGuarantors.ExpectationGuarantor.Passed | lib/proletariat/testing/expectation_guarantor.rb:77-81 | definition: `PassedOf` of the received flags; properties in `PassedOfSpec`, and `ExpectationGuarantor.Deliver` never undoes a pass |
| ExpectationGuarantors.PassedOf | lib/proletariat/testing/expectation_guarantor.rb:77-81 | `reduce` over no counters gives `nil` |
| ExpectationGuarantors.PassedOfSpec | lib/proletariat/testing/expectation_guarantor.rb:77-81 | `passed?` is true iff there is a counter and every counter received its messages, and is otherwise false |
| ExpectationGuarantors.PassedStaysPassed | lib/proletariat/testing/expectation_guarantor.rb:77-81 | more messages never undo a pass |
| ExpectationGuarantors.HarnessConfig | lib/proletariat/testing/expectation_guarantor.rb:69-71 | the harness queue listens on the topics given, is auto-deleted, and has the empty queue name |
| ExpectationGuarantors.ExpectationGuarantor.constructor | lib/proletariat/testing/expectation_guarantor.rb:21-35 | one fresh counter per expectation, expecting its quantity from 0, and a subscriber on its topics |
| ExpectationGuarantors.ExpectationGuarantor.Received | lib/proletariat/testing/expectation_guarantor.rb:77-81 | one flag per counter: whether it received its messages |
| ExpectationGuarantors.ExpectationGuarantor.Deliver | lib/proletariat/testing/expectation_guarantor.rb:125-129 | a delivery counts on its own counter only, and never undoes a pass |

## Left out

- **Bunny I/O.** Some Bunny calls are recorded as operations, and none is performed. The recorded calls are:
  - the backoff handler's channel creation and closing;
  - the subscriber's channel creation and prefetch;
  - queue and exchange declarations, binds and subscriptions;
  - publications, consumer cancellation, acks and rejects.

  The connection itself and `purge` are not recorded.
- **Concurrency.**
  - Thread pools, the mailbox's locking and the concurrent arrival of deliveries are out of the model. Methods run one at a time.
  - A future's later state is a parameter constrained by `CanEvolve`, not a clock.
- **`MAX_BLOCK_TIME`.** The 5-second wait is the state the future reaches after it; the wait itself is out of the model.
- **`ExpectationGuarantor#guarantee`.** Polling every `MESSAGE_CHECK_INTERVAL` until `MESSAGE_TIMEOUT` (both floating-point seconds) is timing and is out of the model. Only the counters it polls and `passed?` are modelled.
- **`run_subscribers` and `stop_subscribers`.** They start and stop the subscribers through Bunny and are out of the model.
  - A harness subscriber is the pair of its counter and its queue configuration.
- **`MessageCounter#post?`.** The subscriber calls it with the body alone, but it takes `message` and `routing_key`. The model gives both arguments.
- **`Subscriber#purge`.** It is a Bunny call on the queue and is out of the model.
- **`QueueConfig#queue_name`.** The model is a function. The `@queue_name ||=` memo is not modelled, since it only caches a pure computation.
  - `downcase` is ASCII-only.
  - The example in the queue-config spec passes five arguments to a three-field struct. The model follows the struct.
- **Environment-derived constants.**
  - The `ENV` values behind `DEFAULT_PUBLISHER_THREADS` and `DEFAULT_WORKER_THREADS` are read when the class is loaded. The model reads them when `Configuration` is constructed.
  - `ExponentialBackoff`'s `max_retry_delay` and `test_mode` are constructor parameters.
- **`Configuration`'s other members.** The connection, the logger and `configure_with_block` are left out.
- **Logging.**
  - The logger is a recorder of lines, and `log_info`'s `"#{self.class.name} #{object_id}"` prefix is an `identity` string fixed at construction.
  - `Workers.Worker.Log` returns a marker standing for the logger.
- **Actor envelopes.** The mailbox holds argument lists. The envelope and the mailbox's future are out of the model.
- A lifecycle hook that itself raises is not modelled. Hooks are steps in a trace.
- **`ExceptionHandler` is an `Actor`.** Its pooled dispatch (`work_method :actor_work`) is stated against `PoolableActor`'s dispatch rule. It is not a second actor class. This departs from the code as written:
  - exception_handler.rb:6 subclasses `Proletariat::Actor`;
  - `ExceptionHandler#initialize(queue_name)` (exception_handler.rb:9-12) never sets `@delegate`, so `Actor#act` (actor.rb:20-22) would call `work` on nil;
  - only `PoolableActor#on_message` (poolable_actor.rb:9-10) reads `work_method`.

  So the superclass as written would never reach `actor_work`. The model states the evident intent: mail reaches `actor_work` through the pooled dispatch (`ExceptionHandlers.PooledDispatchUsesActorWork`).
- **`Subscribers.Except`** removes by value, while Ruby's `Array#delete` on acknowledgers (which keep `Object#==`) removes by identity. `on_task` still ends in the same state: two equal acknowledgers have the same future state, so both are ready or both are pending (`Subscribers.ExceptReadyIsStillPending`).
- **Classes outside this model.** `Publisher`, `Runner`, `Manager`, `Supervisor`, the Cucumber helpers and the Rake tasks are not part of this model.
- **`ExponentialBackoffBroker.ExponentialBackoff.Exchange`** memoises the retry exchange as a flag, not as a handle.
- **`ExponentialBackoff#retry_delay_times`.** The `@delay_times ||=` memo (exponential_backoff.rb:90) is not modelled. `ExponentialBackoffs.RetryDelayTimes` is a pure function of the constructor's `max_retry_delay`, so a memo would only cache its value.
- **`Subscriber#acknowledgers`.** The `@acknowledgers ||= []` memo (subscriber.rb:91) is not modelled lazily. The `acknowledgers` field is set to `[]` when the subscriber is constructed. This gives the same value on every read.
- **`ExponentialBackoffs.QueueForXDeath`.** An `x-death` header whose value has no `length` is a `NoMethodError`. The backoff handler then raises it from `work`.
- `ExponentialBackoffBroker.RequeuePublication` records the three-argument `Proletariat.publish(to, body, headers)` call that the requeue consumer makes. It does not model `Runner#publish`, which takes two arguments; `Runner` is not part of this model.
- **`listen_on`.** The worker spec calls `listen_on 'topic1', 'topic2'`, but `listen_on(routing_key)` takes one argument (worker.rb:114), so that call raises `ArgumentError`. The model follows the code: one key per call.
- **Unscheduled futures.** `MessageCounter#post?` returns a future that is never executed (expectation_guarantor.rb:128). `ready_to_acknowledge?` counts it as ready, and `acknowledge_on_channel` makes no call for it, so such a delivery is dropped from the list and never acked or rejected (`Subscribers.UnscheduledReapedUnacknowledged`). The model keeps this behaviour as written. It does not add a corrected version, because the source does not show which side was meant to change.
- **`PoolableActor`'s superclass.** `Concurrent::Actor::Utils::AbstractWorker`, which `PoolableActor` extends and reaches through `super`, is not part of this model. Any `:subscribe` it sends to the balancer itself is not modelled. `PoolableActors.TwoMembersShareBalancer` counts only what `on_message` sends.
