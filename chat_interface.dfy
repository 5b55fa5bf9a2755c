/** The chat component: sending a message, opening the session on demand,
    and revealing the assistant's answer a few characters per timer tick. */
module ChatInterfaceView {
  import opened Wrappers
  import opened Strings
  import opened Collections
  import opened JsonValues
  import opened UiCommon

  // ---------------------------------------------------------------------
  // Revealing an answer

  function Min(a: int, b: int): int { if a <= b then a else b }

  /** Characters revealed per tick: a 120th of the answer, at least one. */
  function StepOf(total: nat): (step: nat)
    ensures step >= 1
    ensures total >= 120 ==> step == total / 120
  {
    if total / 120 < 1 then 1 else total / 120
  }

  /** Characters shown after `k` ticks: each tick adds `step`, up to `total`. */
  function Shown(total: nat, step: nat, k: nat): (n: nat)
    ensures n <= total
  {
    if k == 0 then 0 else Min(total, Shown(total, step, k - 1) + step)
  }

  /** After `k` ticks, `k * step` characters are shown, or all of them. */
  lemma {:induction false} ShownClosed(total: nat, step: nat, k: nat)
    ensures Shown(total, step, k) == Min(total, k * step)
  {
    if k > 0 {
      ShownClosed(total, step, k - 1);
      assert (k - 1) * step + step == k * step;
    }
  }

  /** Every answer is shown whole after at most 240 ticks, and not before
      `k * step` reaches its length. */
  lemma StreamFinishes(total: nat, k: nat)
    ensures 240 * StepOf(total) >= total
    ensures Shown(total, StepOf(total), k) == total <==> k * StepOf(total) >= total
  {
    var step := StepOf(total);
    ShownClosed(total, step, k);
    if total >= 240 {
      assert total == 120 * step + total % 120;
      assert step >= 2;
    }
  }

  /** The message with id `id` gets the revealed content and the streaming
      flag; every other message stays as it was. */
  function Showing(prev: seq<UiMessage>, id: string, content: string, streaming: bool): (r: seq<UiMessage>)
    ensures |r| == |prev|
    ensures forall i :: 0 <= i < |r| ==> r[i].id == prev[i].id && r[i].role == prev[i].role
    ensures forall i :: 0 <= i < |r| && prev[i].id != id ==> r[i] == prev[i]
    ensures forall i :: 0 <= i < |r| && prev[i].id == id ==> r[i].content == content && r[i].streaming == streaming
  {
    Map(prev, (m: UiMessage) => if m.id == id then m.(content := content, streaming := streaming) else m)
  }

  /** The interval callback of `streamAssistantMessage`: `index` is the
      number of characters revealed so far. */
  class StreamTimer {
    const messageId: string
    const characters: string
    const step: nat
    var index: nat
    ghost var ticks: nat

    ghost predicate Valid()
      reads this
    {
      step == StepOf(|characters|) && index == Shown(|characters|, step, ticks)
    }

    constructor(messageId: string, text: string)
      ensures this.messageId == messageId && characters == text
      ensures index == 0 && ticks == 0 && Valid()
    {
      this.messageId := messageId;
      characters := text;
      step := StepOf(|text|);
      index := 0;
      ticks := 0;
    }

    /** One tick: reveal `step` more characters (never past the end) in the
        assistant's message; `done` says the whole answer is shown and the
        timer is to be cleared. */
    method Tick(prev: seq<UiMessage>) returns (next: seq<UiMessage>, done: bool)
      requires Valid()
      modifies this
      ensures Valid() && ticks == old(ticks) + 1
      ensures index == Min(|characters|, old(index) + step)
      ensures next == Showing(prev, messageId, characters[..index], index < |characters|)
      ensures done <==> index == |characters|
    {
      index := Min(|characters|, index + step);
      ticks := ticks + 1;
      next := Showing(prev, messageId, characters[..index], index < |characters|);
      done := index >= |characters|;
    }
  }

  // ---------------------------------------------------------------------
  // Cleaning the answer

  /** `replace(/\\n/g, "\n")`: a backslash followed by `n` becomes a newline. */
  function Cleaned(answer: string): string {
    ReplaceAll(answer, "\\n", "\n")
  }

  /** An answer whose newlines came written as `\n` gets them back, when it
      holds no other backslash. */
  lemma {:induction false} CleanedRoundTrip(t: string)
    requires '\\' !in t
    ensures Cleaned(ReplaceChar(t, '\n', "\\n")) == t
    decreases |t|
  {
    if t != [] {
      var rest := ReplaceChar(t[1..], '\n', "\\n");
      assert '\\' !in t[1..] by {
        assert forall c | c in t[1..] :: c in t;
      }
      CleanedRoundTrip(t[1..]);
      if t[0] == '\n' {
        var s := "\\n" + rest;
        assert ReplaceChar(t, '\n', "\\n") == s;
        assert s[..2] == "\\n" && s[2..] == rest;
      } else {
        var s := [t[0]] + rest;
        assert ReplaceChar(t, '\n', "\\n") == s;
        assert t[0] in t;
        assert s[1..] == rest;
        if |s| >= 2 {
          assert s[..2][0] != '\\';
        }
      }
      assert t == [t[0]] + t[1..];
    }
  }

  // ---------------------------------------------------------------------
  // Sending a message

  /** The outcome of `chat.sendMessage`: the response's `data.answer`
      (`None` when the response, the data or the field is missing), or a
      failure. */
  datatype SendReply = Replied(answer: Option<Json>) | SendFailed(failure: Failure)

  const MissingId := "Chat service did not return an identifier."
  const StartFallback := "Unable to start the chat session."
  const EmptyAnswer := "The chat service returned an empty response."
  const ReplyFallback := "Unable to fetch a response right now."

  /** The text to reveal: a string answer that is not blank, cleaned. */
  function AnswerText(reply: SendReply): (r: Option<string>)
    ensures r.Some? <==> reply.Replied? && reply.answer.Some? && reply.answer.value.JStr? && Strip(reply.answer.value.s) != ""
  {
    if reply.Replied? && reply.answer.Some? && reply.answer.value.JStr? && Strip(reply.answer.value.s) != ""
    then Some(Cleaned(reply.answer.value.s)) else None
  }

  datatype ChatState = ChatState(
    messages: seq<UiMessage>, input: string, isLoading: bool, isInitializing: bool,
    chatUuid: Option<string>, error: Option<string>)

  /** The state once `ensureChat` has run. */
  function Opened(s: ChatState, create: CreateReply): ChatState {
    if s.chatUuid.Some? && s.chatUuid.value != "" then s
    else match EnsureChat(s.chatUuid, create, MissingId)
      case Ok(u) => s.(chatUuid := Some(u), error := None, isInitializing := false)
      case Err(f) => s.(error := Some(MessageOf(f, StartFallback)), isInitializing := false)
  }

  /** The state after the reply was read: an empty streaming message for a
      usable answer, else the error, also shown as the assistant's message. */
  function Answered(s: ChatState, reply: SendReply, assistantId: string): ChatState {
    if AnswerText(reply).Some? then s.(messages := s.messages + [UiMessage(assistantId, AssistantRole, "", true)])
    else
      var msg := if reply.SendFailed? then MessageOf(reply.failure, ReplyFallback) else EmptyAnswer;
      s.(error := Some(msg), messages := s.messages + [UiMessage(assistantId, AssistantRole, msg, false)])
  }

  /** `handleSubmit` as a change of state. */
  function Submitted(s: ChatState, create: CreateReply, reply: SendReply, userId: string, assistantId: string): ChatState {
    var text := Strip(s.input);
    if text == "" || s.isLoading then s
    else
      var s1 := Opened(s.(input := "", error := None, messages := s.messages + [UiMessage(userId, UserRole, text, false)], isLoading := true), create);
      var session := EnsureChat(s.chatUuid, create, MissingId);
      if session.Err? then
        var msg := MessageOf(session.error, ReplyFallback);
        s1.(error := Some(msg), messages := s1.messages + [UiMessage(assistantId, AssistantRole, msg, false)], isLoading := false)
      else Answered(s1, reply, assistantId).(isLoading := false)
  }

  /** A blank input, or one sent while a reply is pending, changes nothing. */
  lemma SubmitIgnored(s: ChatState, create: CreateReply, reply: SendReply, userId: string, assistantId: string)
    requires s.isLoading || forall i :: 0 <= i < |s.input| ==> IsSpace(s.input[i])
    ensures Submitted(s, create, reply, userId, assistantId) == s
  {
    if !s.isLoading {
      StripAllSpace(s.input);
    }
  }

  /** A message that is sent clears the input, ends not loading and adds
      two messages: the trimmed text as the user's, then the assistant's,
      which is streaming exactly when a session opened and the answer is
      usable. The error is cleared exactly then; otherwise the assistant's
      message is the error. */
  lemma SubmitSpec(s: ChatState, create: CreateReply, reply: SendReply, userId: string, assistantId: string)
    requires Strip(s.input) != "" && !s.isLoading
    ensures var t := Submitted(s, create, reply, userId, assistantId);
      var session := EnsureChat(s.chatUuid, create, MissingId);
      var ok := session.Ok? && AnswerText(reply).Some?;
      && t.input == "" && !t.isLoading
      && |t.messages| == |s.messages| + 2
      && t.messages[..|s.messages|] == s.messages
      && t.messages[|s.messages|] == UiMessage(userId, UserRole, Strip(s.input), false)
      && t.messages[|s.messages| + 1].id == assistantId
      && t.messages[|s.messages| + 1].role == AssistantRole
      && (t.messages[|s.messages| + 1].streaming <==> ok)
      && (t.error.None? <==> ok)
      && (!ok ==> t.error == Some(t.messages[|s.messages| + 1].content))
      && (session.Ok? ==> t.chatUuid == Some(session.value))
  {
    var pre := s.(input := "", error := None, messages := s.messages + [UiMessage(userId, UserRole, Strip(s.input), false)], isLoading := true);
    var s1 := Opened(pre, create);
    SubmitOpen(s, create, reply, userId, assistantId);
    OpenedFrame(pre, create);
    var session := EnsureChat(s.chatUuid, create, MissingId);
    if session.Ok? {
      AnsweredSpec(s1, reply, assistantId);
    }
  }

  /** Opening a session touches only the session, the error and the
      initialising flag, and clears the error when it opens one. */
  lemma OpenedFrame(s: ChatState, create: CreateReply)
    requires s.error.None?
    ensures var t := Opened(s, create);
      var session := EnsureChat(s.chatUuid, create, MissingId);
      && t.messages == s.messages && t.input == s.input && t.isLoading == s.isLoading
      && (session.Ok? ==> t.chatUuid == Some(session.value) && t.error.None?)
  {
  }

  /** Reading the reply adds one assistant message, streaming exactly for a
      usable answer; otherwise the error is its content. */
  lemma AnsweredSpec(s: ChatState, reply: SendReply, assistantId: string)
    requires s.error.None?
    ensures var t := Answered(s, reply, assistantId);
      && t.messages[..|s.messages|] == s.messages && |t.messages| == |s.messages| + 1
      && t.messages[|s.messages|].id == assistantId && t.messages[|s.messages|].role == AssistantRole
      && (t.messages[|s.messages|].streaming <==> AnswerText(reply).Some?)
      && (t.error.None? <==> AnswerText(reply).Some?)
      && (AnswerText(reply).None? ==> t.error == Some(t.messages[|s.messages|].content))
      && t.input == s.input && t.chatUuid == s.chatUuid
  {
  }

  /** How Submitted unfolds for a message that is sent. */
  lemma SubmitOpen(s: ChatState, create: CreateReply, reply: SendReply, userId: string, assistantId: string)
    requires Strip(s.input) != "" && !s.isLoading
    ensures var s1 := Opened(s.(input := "", error := None, messages := s.messages + [UiMessage(userId, UserRole, Strip(s.input), false)], isLoading := true), create);
      var session := EnsureChat(s.chatUuid, create, MissingId);
      var msg := if session.Err? then MessageOf(session.error, ReplyFallback) else "";
      Submitted(s, create, reply, userId, assistantId) ==
        if session.Err? then s1.(error := Some(msg), messages := s1.messages + [UiMessage(assistantId, AssistantRole, msg, false)], isLoading := false)
        else Answered(s1, reply, assistantId).(isLoading := false)
  {
  }

  class ChatInterface {
    var messages: seq<UiMessage>
    var input: string
    var isLoading: bool
    var isInitializing: bool
    var chatUuid: Option<string>
    var error: Option<string>
    /** The timers of the answers still being revealed. */
    var timers: seq<StreamTimer>

    function State(): ChatState
      reads this
    {
      ChatState(messages, input, isLoading, isInitializing, chatUuid, error)
    }

    constructor()
      ensures State() == ChatState([], "", false, true, None, None) && timers == []
    {
      messages := [];
      input := "";
      isLoading := false;
      isInitializing := true;
      chatUuid := None;
      error := None;
      timers := [];
    }

    /** `ensureChat`; `create` is the outcome of `chat.create` when it is called. */
    method EnsureSession(create: CreateReply) returns (session: Result<string, Failure>)
      modifies this
      ensures session == EnsureChat(old(chatUuid), create, MissingId)
      ensures State() == Opened(old(State()), create) && timers == old(timers)
    {
      session := EnsureChat(chatUuid, create, MissingId);
      if chatUuid.Some? && chatUuid.value != "" {
        return;
      }
      isInitializing := true;
      if session.Ok? {
        chatUuid := Some(session.value);
        error := None;
      } else {
        error := Some(MessageOf(session.error, StartFallback));
      }
      isInitializing := false;
    }

    /** `streamAssistantMessage`: an empty streaming message and a timer to
        fill it in. */
    method StreamAnswer(text: string, assistantId: string) returns (timer: StreamTimer)
      modifies this
      ensures fresh(timer) && timer.Valid() && timer.index == 0
      ensures timer.messageId == assistantId && timer.characters == text
      ensures messages == old(messages) + [UiMessage(assistantId, AssistantRole, "", true)]
      ensures timers == old(timers) + [timer]
      ensures input == old(input) && isLoading == old(isLoading) && isInitializing == old(isInitializing)
      ensures chatUuid == old(chatUuid) && error == old(error)
    {
      messages := messages + [UiMessage(assistantId, AssistantRole, "", true)];
      timer := new StreamTimer(assistantId, text);
      timers := timers + [timer];
    }

    /** Reading the reply: a usable answer is revealed by a new timer. */
    method ReadReply(reply: SendReply, assistantId: string) returns (stream: Option<StreamTimer>)
      modifies this
      ensures State() == Answered(old(State()), reply, assistantId)
      ensures stream.Some? <==> AnswerText(reply).Some?
      ensures stream.Some? ==>
        && fresh(stream.value) && stream.value.Valid() && stream.value.index == 0
        && stream.value.messageId == assistantId && stream.value.characters == AnswerText(reply).value
        && timers == old(timers) + [stream.value]
      ensures stream.None? ==> timers == old(timers)
    {
      var text := AnswerText(reply);
      if text.Some? {
        var timer := StreamAnswer(text.value, assistantId);
        stream := Some(timer);
      } else {
        var msg := if reply.SendFailed? then MessageOf(reply.failure, ReplyFallback) else EmptyAnswer;
        error := Some(msg);
        messages := messages + [UiMessage(assistantId, AssistantRole, msg, false)];
        stream := None;
      }
    }

    /** `handleSubmit`: `create` and `reply` are the outcomes of the calls
        it makes, `userId`/`assistantId` the new messages' ids. */
    method Submit(create: CreateReply, reply: SendReply, userId: string, assistantId: string) returns (stream: Option<StreamTimer>)
      modifies this
      ensures State() == Submitted(old(State()), create, reply, userId, assistantId)
      ensures stream.Some? ==> fresh(stream.value) && stream.value.Valid() && timers == old(timers) + [stream.value]
      ensures stream.None? ==> timers == old(timers)
    {
      ghost var s0 := State();
      var text := Strip(input);
      if text == "" || isLoading {
        return None;
      }
      SubmitOpen(s0, create, reply, userId, assistantId);
      input := "";
      error := None;
      messages := messages + [UiMessage(userId, UserRole, text, false)];
      isLoading := true;
      ghost var s1 := State();
      var session := EnsureSession(create);
      assert State() == Opened(s1, create);
      if session.Err? {
        var msg := MessageOf(session.error, ReplyFallback);
        error := Some(msg);
        messages := messages + [UiMessage(assistantId, AssistantRole, msg, false)];
        isLoading := false;
        return None;
      }
      ghost var s2 := State();
      stream := ReadReply(reply, assistantId);
      assert State() == Answered(s2, reply, assistantId);
      isLoading := false;
    }

    /** A tick of `timer`: its message shows more of the answer; a timer
        that has shown all of it is cleared and dropped from the list. */
    method Tick(timer: StreamTimer) returns (done: bool)
      requires timer.Valid()
      modifies this, timer
      ensures timer.Valid() && timer.index == Min(|timer.characters|, old(timer.index) + timer.step)
      ensures messages == Showing(old(messages), timer.messageId, timer.characters[..timer.index], !done)
      ensures done <==> timer.index == |timer.characters|
      ensures done ==> timers == Filter(old(timers), (t: StreamTimer) => t != timer)
      ensures !done ==> timers == old(timers)
      ensures input == old(input) && isLoading == old(isLoading) && isInitializing == old(isInitializing)
      ensures chatUuid == old(chatUuid) && error == old(error)
    {
      var next;
      next, done := timer.Tick(messages);
      messages := next;
      if done {
        timers := Filter(timers, (t: StreamTimer) => t != timer);
      }
    }

    /** Unmounting clears every timer. */
    method Unmount()
      modifies this
      ensures timers == [] && State() == old(State())
    {
      timers := [];
    }
  }
}
