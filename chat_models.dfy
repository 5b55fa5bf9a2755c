/** The chat data model, its conversion to the messages a chatbot is
    given, and the echo bot used in development. */
module ChatModels {
  import opened Strings

  /** A UUID; only its identity matters here. */
  type Uuid = nat

  datatype Role = Assistant | User

  /** The string value of the role enum. */
  function RoleValue(r: Role): (s: string)
    ensures s == "assistant" <==> r == Assistant
    ensures s == "user" <==> r == User
  {
    match r
    case Assistant => "assistant"
    case User => "user"
  }

  datatype ChatMessage = ChatMessage(role: Role, content: string)

  /** A stored chat: its UUID and its messages in order. */
  datatype Chat = Chat(uuid: Uuid, messages: seq<ChatMessage>)

  /** What a chatbot is given as history: the role as its string value. */
  datatype ChatBotMessage = ChatBotMessage(role: string, content: string)

  /** `to_chatbot_messages`: the messages, in order, with each role as its
      string value. */
  function ToChatbotMessages(messages: seq<ChatMessage>): (r: seq<ChatBotMessage>)
    ensures |r| == |messages|
    ensures forall i | 0 <= i < |r| :: r[i].content == messages[i].content
    ensures forall i | 0 <= i < |r| :: r[i].role == RoleValue(messages[i].role)
  {
    seq(|messages|, i requires 0 <= i < |messages| => ChatBotMessage(RoleValue(messages[i].role), messages[i].content))
  }

  /** The conversion is injective: the history determines the messages. */
  lemma ToChatbotMessagesInjective(a: seq<ChatMessage>, b: seq<ChatMessage>)
    requires ToChatbotMessages(a) == ToChatbotMessages(b)
    ensures a == b
  {
    assert |a| == |b|;
    forall i | 0 <= i < |a| ensures a[i] == b[i] {
      assert ToChatbotMessages(a)[i] == ToChatbotMessages(b)[i];
      RoleValueInjective(a[i].role, b[i].role);
    }
  }

  lemma RoleValueInjective(x: Role, y: Role)
    requires RoleValue(x) == RoleValue(y)
    ensures x == y
  {
  }

  /** Converting a conversation that grew by some messages extends the
      converted history by their conversion. */
  lemma ToChatbotMessagesAppend(a: seq<ChatMessage>, b: seq<ChatMessage>)
    ensures ToChatbotMessages(a + b) == ToChatbotMessages(a) + ToChatbotMessages(b)
  {
  }

  /** `DummyBot.reply`: the user's text reversed; the history and the
      search method `how` are not used. */
  function DummyReply(userInput: string, history: seq<ChatBotMessage>, how: string): (r: string)
    ensures |r| == |userInput|
    ensures forall i | 0 <= i < |r| :: r[i] == userInput[|userInput| - 1 - i]
  {
    Reverse(userInput)
  }

  /** Reversing the reply gives back the user's text, and the reply depends
      on nothing else. */
  lemma DummyReplyInverse(userInput: string, h1: seq<ChatBotMessage>, m1: string, h2: seq<ChatBotMessage>, m2: string)
    ensures Reverse(DummyReply(userInput, h1, m1)) == userInput
    ensures DummyReply(userInput, h1, m1) == DummyReply(userInput, h2, m2)
  {
    ReverseReverse(userInput);
  }

  /** The chatbots the factory can build. */
  datatype Bot = Dummy | GraphRag

  /** `chatbot.reply`; the GraphRAG search is `search`, an outside call. */
  function BotReply(bot: Bot, search: (string, seq<ChatBotMessage>, string) -> string,
                    userInput: string, history: seq<ChatBotMessage>, how: string): string
  {
    match bot
    case Dummy => DummyReply(userInput, history, how)
    case GraphRag => search(userInput, history, how)
  }
}
