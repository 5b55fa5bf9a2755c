/** The chat service: creates chats, appends messages through the store,
    and answers a user turn with the chatbot while the chat is marked busy. */
module ChatServices {
  import opened Wrappers
  import opened ChatModels
  import opened MemoryStores

  /** A store error, the failure of `create_chat`, or `ChatBusyError`. */
  datatype ServiceError = StoreFailed(e: StoreError) | CreateFailed | ChatBusy(uuid: Uuid)

  /** The chat with one more message at the end, under the same UUID. */
  function Appended(c: Chat, m: ChatMessage): (r: Chat)
    ensures r.uuid == c.uuid && r.messages == c.messages + [m]
  {
    c.(messages := c.messages + [m])
  }

  class ChatService {
    const store: MemoryStore
    const bot: Bot
    /** The GraphRAG search the chatbot calls; an outside call. */
    const search: (string, seq<ChatBotMessage>, string) -> string
    /** The chats whose lock is held: a user turn is being answered. */
    var busy: set<Uuid>

    constructor(store: MemoryStore, bot: Bot, search: (string, seq<ChatBotMessage>, string) -> string)
      ensures this.store == store && this.bot == bot && this.search == search
      ensures busy == {}
    {
      this.store := store;
      this.bot := bot;
      this.search := search;
      busy := {};
    }

    /** Every stored chat is filed under its own UUID. */
    predicate Valid()
      reads this, store
    {
      Filed(store.objs)
    }

    /** `create_chat`: stores a new chat with no messages under the fresh
        UUID `uuid`, or fails if the store already has that UUID. */
    method CreateChat(uuid: Uuid) returns (r: Result<Chat, ServiceError>)
      modifies store
      ensures uuid !in old(store.objs) ==> r == Ok(Chat(uuid, [])) && store.objs == old(store.objs)[uuid := Chat(uuid, [])]
      ensures uuid in old(store.objs) ==> r == Err(CreateFailed) && store.objs == old(store.objs)
      ensures old(Valid()) ==> Valid()
    {
      var chat := Chat(uuid, []);
      var created := store.Create(chat);
      if !created {
        return Err(CreateFailed);
      }
      return Ok(chat);
    }

    function GetChat(uuid: Uuid): (r: Option<Chat>)
      reads this, store
      ensures r.Some? <==> uuid in store.objs
      ensures r.Some? ==> r.value == store.objs[uuid]
    {
      store.Get(uuid)
    }

    function RequireChat(uuid: Uuid): (r: Result<Chat, ServiceError>)
      reads this, store
      ensures r.Ok? <==> uuid in store.objs
      ensures r.Ok? ==> r.value == store.objs[uuid]
      ensures r.Err? ==> r.error == StoreFailed(NotFound(uuid))
    {
      match store.Require(uuid)
      case Ok(c) => Ok(c)
      case Err(e) => Err(StoreFailed(e))
    }

    /** `add_message`: appends one message with `role` and `content` to the
        end of that chat and of no other, or fails for an unknown chat. */
    method AddMessage(uuid: Uuid, role: Role, content: string) returns (r: Result<ChatMessage, ServiceError>)
      modifies store
      ensures uuid !in old(store.objs) ==> r == Err(StoreFailed(NotFound(uuid))) && store.objs == old(store.objs)
      ensures uuid in old(store.objs) ==>
        && r == Ok(ChatMessage(role, content))
        && store.objs == old(store.objs)[uuid := Appended(old(store.objs)[uuid], ChatMessage(role, content))]
      ensures old(Valid()) ==> Valid()
    {
      var msg := ChatMessage(role, content);
      var mutated := store.Mutate(uuid, (c: Chat) => Appended(c, msg));
      if mutated.Err? {
        return Err(StoreFailed(mutated.error));
      }
      return Ok(msg);
    }

    method DeleteChat(uuid: Uuid) returns (deleted: bool)
      modifies store
      ensures deleted <==> uuid in old(store.objs)
      ensures store.objs == old(store.objs) - {uuid}
      ensures old(Valid()) ==> Valid()
    {
      deleted := store.Delete(uuid);
    }

    /** `count_messages`: the length of the chat, or not found. */
    function CountMessages(uuid: Uuid): (r: Result<nat, ServiceError>)
      reads this, store
      ensures r.Ok? <==> uuid in store.objs
      ensures r.Ok? ==> r.value == |store.objs[uuid].messages|
      ensures r.Err? ==> r.error == StoreFailed(NotFound(uuid))
    {
      match RequireChat(uuid)
      case Ok(c) => Ok(|c.messages|)
      case Err(e) => Err(e)
    }

    /** The first half of `reply_to_user`, up to the chatbot call: refuses a
        busy chat without changing anything; otherwise takes the chat's lock
        and returns its history, or releases the lock again for an unknown
        chat. */
    method BeginReply(uuid: Uuid) returns (r: Result<seq<ChatBotMessage>, ServiceError>)
      modifies this
      ensures uuid in old(busy) ==> r == Err(ChatBusy(uuid)) && busy == old(busy)
      ensures uuid !in old(busy) && uuid !in store.objs ==> r == Err(StoreFailed(NotFound(uuid))) && busy == old(busy)
      ensures uuid !in old(busy) && uuid in store.objs ==>
        r == Ok(ToChatbotMessages(store.objs[uuid].messages)) && busy == old(busy) + {uuid}
    {
      if uuid in busy {
        return Err(ChatBusy(uuid));
      }
      busy := busy + {uuid};
      var chat := RequireChat(uuid);
      if chat.Err? {
        busy := busy - {uuid};
        return Err(chat.error);
      }
      return Ok(ToChatbotMessages(chat.value.messages));
    }

    /** The second half of `reply_to_user`, after the chatbot answered:
        appends the user's text and then the answer, and releases the lock.
        A chat deleted meanwhile gets neither message. */
    method FinishReply(uuid: Uuid, userText: string, answer: string) returns (r: Result<string, ServiceError>)
      requires uuid in busy
      modifies this, store
      ensures busy == old(busy) - {uuid}
      ensures uuid !in old(store.objs) ==> r == Err(StoreFailed(NotFound(uuid))) && store.objs == old(store.objs)
      ensures uuid in old(store.objs) ==>
        && r == Ok(answer)
        && store.objs == old(store.objs)[uuid := old(store.objs)[uuid].(messages := old(store.objs)[uuid].messages
             + [ChatMessage(User, userText), ChatMessage(Assistant, answer)])]
      ensures old(Valid()) ==> Valid()
    {
      var added := AddMessage(uuid, User, userText);
      if added.Err? {
        busy := busy - {uuid};
        return Err(added.error);
      }
      ghost var c := old(store.objs)[uuid];
      assert c.messages + [ChatMessage(User, userText)] + [ChatMessage(Assistant, answer)]
        == c.messages + [ChatMessage(User, userText), ChatMessage(Assistant, answer)];
      added := AddMessage(uuid, Assistant, answer);
      busy := busy - {uuid};
      return Ok(answer);
    }

    /** `reply_to_user` when no other call runs while the chatbot answers:
        a busy chat is refused and an unknown chat is not found, changing
        nothing; otherwise the chat grows by exactly the user's text and the
        answer the chatbot gave to the messages as they stood, and the
        answer is returned. */
    method ReplyToUser(uuid: Uuid, userText: string, how: string) returns (r: Result<string, ServiceError>)
      modifies this, store
      ensures busy == old(busy)
      ensures uuid in old(busy) ==> r == Err(ChatBusy(uuid)) && store.objs == old(store.objs)
      ensures uuid !in old(busy) && uuid !in old(store.objs) ==> r == Err(StoreFailed(NotFound(uuid))) && store.objs == old(store.objs)
      ensures uuid !in old(busy) && uuid in old(store.objs) ==>
        var before := old(store.objs)[uuid];
        var answer := BotReply(bot, search, userText, ToChatbotMessages(before.messages), how);
        && r == Ok(answer)
        && store.objs == old(store.objs)[uuid := before.(messages := before.messages
             + [ChatMessage(User, userText), ChatMessage(Assistant, answer)])]
      ensures old(Valid()) ==> Valid()
    {
      var history := BeginReply(uuid);
      if history.Err? {
        return Err(history.error);
      }
      var answer := BotReply(bot, search, userText, history.value, how);
      r := FinishReply(uuid, userText, answer);
    }
  }

  /** On a successful turn the chat has two messages more, and the last two
      are the user's text and the answer, in that order. */
  lemma TurnGrowsByTwo(before: Chat, userText: string, answer: string)
    ensures var after := before.(messages := before.messages + [ChatMessage(User, userText), ChatMessage(Assistant, answer)]);
      && |after.messages| == |before.messages| + 2
      && after.messages[..|before.messages|] == before.messages
      && after.messages[|after.messages| - 2] == ChatMessage(User, userText)
      && after.messages[|after.messages| - 1] == ChatMessage(Assistant, answer)
      && ToChatbotMessages(after.messages) == ToChatbotMessages(before.messages)
           + [ChatBotMessage("user", userText), ChatBotMessage("assistant", answer)]
  {
    var added := [ChatMessage(User, userText), ChatMessage(Assistant, answer)];
    ToChatbotMessagesAppend(before.messages, added);
  }
}
