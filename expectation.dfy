/** What a test waits for: a number of messages on a set of topics. */
module Expectations {

  /** `Expectation < Struct.new(:topics, :quantity)`. */
  datatype Expectation = Expectation(topics: seq<string>, quantity: int)

  /** The topic pattern that matches every routing key. */
  const AnyTopic: string := "#"

  /** `e.on_topic(*topics)`: a new expectation on the given topics, in the
      order given, for the same quantity; `e` itself is a value and stays
      as it was. */
  function OnTopic(e: Expectation, topics: seq<string>): (r: Expectation)
    ensures r.topics == topics
    ensures r.quantity == e.quantity
  {
    Expectation(topics, e.quantity)
  }

  /** `n.messages`: `n` messages on any topic. */
  function MessagesOnAnyTopic(n: int): (r: Expectation)
    ensures r.topics == [AnyTopic]
    ensures r.quantity == n
  {
    Expectation([AnyTopic], n)
  }

  /** `message`: a single message on any topic. */
  function SingleMessage(): (r: Expectation)
    ensures r.topics == [AnyTopic]
    ensures r.quantity == 1
  {
    Expectation([AnyTopic], 1)
  }

  /** `message` and `1.messages` build the same expectation. */
  lemma SingleMessageIsOneMessage()
    ensures SingleMessage() == MessagesOnAnyTopic(1)
  {
  }

  /** Narrowing twice keeps only the last topics, and narrowing never
      changes the quantity. */
  lemma OnTopicLastWins(e: Expectation, first: seq<string>, second: seq<string>)
    ensures OnTopic(OnTopic(e, first), second) == OnTopic(e, second)
    ensures OnTopic(OnTopic(e, first), second).quantity == e.quantity
  {
  }

  /** Narrowing to the topics an expectation already has gives it back. */
  lemma OnTopicOwnTopics(e: Expectation)
    ensures OnTopic(e, e.topics) == e
  {
  }

  /** `Expectation.new([], 2).on_topic('lolcats', 'dogs')` is on exactly
      those two topics, in that order, and still expects two messages. */
  lemma TwoTopicsInOrder()
    ensures OnTopic(Expectation([], 2), ["lolcats", "dogs"]) == Expectation(["lolcats", "dogs"], 2)
  {
  }

  /** `3.messages.on_topic('email_sent')` waits for three messages routed
      with `email_sent`. */
  lemma ThreeMessagesOnOneTopic()
    ensures OnTopic(MessagesOnAnyTopic(3), ["email_sent"]) == Expectation(["email_sent"], 3)
  {
  }
}
