/** The unit of work passed between publishers, workers and exception
    handlers: a routing key, a body and a hash of headers. */
module Messages {
  import opened Values

  /** `Message < Struct.new(:to, :body, :headers)`: built positionally in
      the order (to, body, headers); equality is field-wise, like a Ruby
      Struct. */
  datatype Message = Message(to: string, body: string, headers: Headers)

  /** The argument list an exception handler's `work` receives, in its own
      order: body first, then the routing key, then the headers. */
  datatype WorkArguments = WorkArguments(body: string, to: string, headers: Headers)

  /** Unpacking a message for `work(message.body, message.to, message.headers)`. */
  function Unpack(m: Message): (a: WorkArguments)
    ensures a.body == m.body && a.to == m.to && a.headers == m.headers
  {
    WorkArguments(m.body, m.to, m.headers)
  }

  /** Rebuilding the message from a handler's arguments. */
  function Repack(a: WorkArguments): (m: Message)
    ensures m.to == a.to && m.body == a.body && m.headers == a.headers
  {
    Message(a.to, a.body, a.headers)
  }

  /** Unpacking loses nothing: the reordered arguments determine the
      message. */
  lemma UnpackRepack(m: Message)
    ensures Repack(Unpack(m)) == m
  {
  }

  /** Two messages are equal exactly when all three fields are. */
  lemma MessageEquality(m: Message, n: Message)
    ensures m == n <==> (m.to == n.to && m.body == n.body && m.headers == n.headers)
  {
  }
}
