/** `Proletariat::ExceptionHandler` and its `Drop` subclass: handlers for
    messages whose work raised. A handler remembers the queue it serves,
    runs its `setup` hook once when built, and takes its mailbox through
    `actor_work`, which hands a `Message` to `work` field by field and
    ignores anything else. */
module ExceptionHandlers {
  import opened Values
  import opened Messages
  import opened PoolableActors

  /** What may arrive in a handler's mailbox. */
  datatype Mail = MessageMail(message: Message) | OtherMail(value: Value)

  /** The handler classes without broker state of their own. */
  datatype HandlerClass = BaseHandler | DropHandler

  datatype Handler = Handler(cls: HandlerClass, queueName: string)

  /** What a handler's `work` did: how the call ended and what it
      published. */
  datatype Handled = Handled(outcome: Outcome, published: seq<Message>)

  /** A handler being built: the object, how often `setup` ran, and the
      queues and consumers `setup` created. */
  datatype Construction = Construction(handler: Handler, setupRuns: nat, created: seq<string>)

  /** `setup`: the base hook, which both classes inherit, does nothing. */
  function Setup(cls: HandlerClass): (created: seq<string>)
    ensures created == []
  {
    []
  }

  /** `new(queue_name)`: the queue name is stored, then `setup` runs once. */
  function New(cls: HandlerClass, queueName: string): (c: Construction)
    ensures c.handler.cls == cls && c.handler.queueName == queueName
    ensures c.setupRuns == 1
    ensures c.created == []
  {
    Construction(Handler(cls, queueName), 1, Setup(cls))
  }

  /** `work(body, to, headers)`: the base class raises NotImplementedError;
      `Drop` returns nil. Neither publishes anything. */
  function Work(cls: HandlerClass, a: WorkArguments): (r: Handled)
    ensures r.published == []
    ensures cls == BaseHandler ==> r.outcome == Raised(NotImplementedError)
    ensures cls == DropHandler ==> r.outcome == Returned(Nil)
  {
    match cls
    case BaseHandler => Handled(Raised(NotImplementedError), [])
    case DropHandler => Handled(Returned(Nil), [])
  }

  /** `actor_work(message)`. */
  function ActorWork(h: Handler, mail: Mail): (r: Handled)
    ensures mail.MessageMail? ==>
      r == Work(h.cls, WorkArguments(mail.message.body, mail.message.to, mail.message.headers))
    ensures mail.OtherMail? ==> r == Handled(Returned(Nil), [])
  {
    match mail
    case MessageMail(m) => Work(h.cls, Unpack(m))
    case OtherMail(_) => Handled(Returned(Nil), [])
  }

  /** `work_method`. */
  const WorkMethod := "actor_work"

  /** The methods a handler answers to by name. */
  function Methods(h: Handler): map<string, Mail -> Outcome> {
    map[WorkMethod := (mail: Mail) => ActorWork(h, mail).outcome]
  }

  /** Pooled dispatch of a handler goes through `actor_work`, whatever the
      handler's plain `work` would have done with the mail. */
  lemma PooledDispatchUsesActorWork(h: Handler, work: Mail -> Outcome, mail: Mail)
    ensures Dispatch(Some(WorkMethod), Methods(h), work, mail) == ActorWork(h, mail).outcome
  {
  }

  /** The base handler raises NotImplementedError on every message and
      ignores every other mail. */
  lemma BaseHandlerRaises(queueName: string, mail: Mail)
    ensures ActorWork(Handler(BaseHandler, queueName), mail).outcome ==
      if mail.MessageMail? then Raised(NotImplementedError) else Returned(Nil)
  {
  }

  /** `Drop` returns nil for everything in its mailbox, publishes nothing
      and creates nothing when built. */
  lemma DropDropsEverything(queueName: string, mail: Mail)
    ensures ActorWork(New(DropHandler, queueName).handler, mail) == Handled(Returned(Nil), [])
    ensures New(DropHandler, queueName).created == []
  {
  }
}
