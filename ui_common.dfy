/** What the front-end components share: the messages they show, how an
    awaited call can fail, and opening the chat session on first use. */
module UiCommon {
  import opened Wrappers

  datatype UiRole = UserRole | AssistantRole

  /** A message in a component's list; `streaming` is false when absent. */
  datatype UiMessage = UiMessage(id: string, role: UiRole, content: string, streaming: bool)

  /** A rejected promise: `Some(message)` for an `Error`, `None` for any
      other thrown value. */
  datatype Failure = Failure(error: Option<string>)

  /** The text a `catch` block shows: the error's message, or the block's
      own fallback for a value that is not an `Error`. */
  function MessageOf(f: Failure, fallback: string): (m: string)
    ensures f.error.Some? ==> m == f.error.value
    ensures f.error.None? ==> m == fallback
  {
    if f.error.Some? then f.error.value else fallback
  }

  /** The outcome of `chat.create()`: the response's `chat_uuid` (`None`
      when the response or the field is missing), or a failure. */
  datatype CreateReply = Created(chatUuid: Option<string>) | CreateFailed(failure: Failure)

  /** `ensureChat`: a known session is reused; otherwise the created
      session's UUID, or the error raised when none came back. */
  function EnsureChat(chatUuid: Option<string>, create: CreateReply, missing: string): (r: Result<string, Failure>)
    ensures chatUuid.Some? && chatUuid.value != "" ==> r == Ok(chatUuid.value)
    ensures r.Ok? ==> r.value != ""
    ensures !(chatUuid.Some? && chatUuid.value != "") && create.Created? ==>
      (r.Ok? <==> create.chatUuid.Some? && create.chatUuid.value != "")
    ensures !(chatUuid.Some? && chatUuid.value != "") && create.Created? && r.Ok? ==> r.value == create.chatUuid.value
    ensures !(chatUuid.Some? && chatUuid.value != "") && create.Created? && r.Err? ==> r.error == Failure(Some(missing))
    ensures !(chatUuid.Some? && chatUuid.value != "") && create.CreateFailed? ==> r == Err(create.failure)
  {
    if chatUuid.Some? && chatUuid.value != "" then Ok(chatUuid.value)
    else match create
      case CreateFailed(f) => Err(f)
      case Created(u) => if u.Some? && u.value != "" then Ok(u.value) else Err(Failure(Some(missing)))
  }

  /** Once a session is obtained it is kept: asking again with it returns
      it, whatever a new creation would have answered. */
  lemma EnsureChatStable(chatUuid: Option<string>, create: CreateReply, missing: string, again: CreateReply, missing2: string)
    ensures var r := EnsureChat(chatUuid, create, missing);
      r.Ok? ==> EnsureChat(Some(r.value), again, missing2) == r
  {
  }
}
