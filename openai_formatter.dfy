/** The OpenAI message list: an optional system prompt, the earlier
    conversation, and an optional user message. */
module OpenAIFormatter {

  /** One `{"role": ..., "content": ...}` entry. */
  datatype PromptMessage = PromptMessage(role: string, content: string)

  /** The list `format` builds; `history` is the already parsed
      `messages_json`, empty when that text is empty. */
  function Formatted(promptSystem: string, history: seq<PromptMessage>, userInput: string): seq<PromptMessage> {
    (if promptSystem != "" then [PromptMessage("system", promptSystem)] else [])
    + history
    + (if userInput != "" then [PromptMessage("user", userInput)] else [])
  }

  /** `OpenAIFormatter.format`, appending to one list step by step. */
  method Format(promptSystem: string, history: seq<PromptMessage>, userInput: string) returns (messages: seq<PromptMessage>)
    ensures messages == Formatted(promptSystem, history, userInput)
  {
    messages := [];
    if promptSystem != "" {
      messages := messages + [PromptMessage("system", promptSystem)];
    }
    if history != [] {
      messages := messages + history;
    }
    if userInput != "" {
      messages := messages + [PromptMessage("user", userInput)];
    }
  }

  /** The list is the system prompt when given, then the history in its
      order, then the user message when given; with nothing given it is empty. */
  lemma FormattedShape(promptSystem: string, history: seq<PromptMessage>, userInput: string)
    ensures var m := Formatted(promptSystem, history, userInput);
      var s := if promptSystem != "" then 1 else 0;
      && |m| == s + |history| + (if userInput != "" then 1 else 0)
      && (promptSystem != "" ==> m[0] == PromptMessage("system", promptSystem))
      && (userInput != "" ==> m[|m| - 1] == PromptMessage("user", userInput))
      && m[s..s + |history|] == history
      && (promptSystem == "" && history == [] && userInput == "" ==> m == [])
  {
    var m := Formatted(promptSystem, history, userInput);
    var s := if promptSystem != "" then 1 else 0;
    var head := if promptSystem != "" then [PromptMessage("system", promptSystem)] else [];
    var tail := if userInput != "" then [PromptMessage("user", userInput)] else [];
    assert m == head + history + tail;
    assert m[s..s + |history|] == history;
  }

  /** When the history holds no system message, the list starts with a
      system message exactly when a system prompt is given; when the history
      holds no user message, it ends with one exactly when a user text is
      given. */
  lemma FormattedEnds(promptSystem: string, history: seq<PromptMessage>, userInput: string)
    ensures var m := Formatted(promptSystem, history, userInput);
      && ((forall i | 0 <= i < |history| :: history[i].role != "system") ==>
            (m != [] && m[0].role == "system" <==> promptSystem != ""))
      && ((forall i | 0 <= i < |history| :: history[i].role != "user") ==>
            (m != [] && m[|m| - 1].role == "user" <==> userInput != ""))
  {
    FormattedShape(promptSystem, history, userInput);
    var m := Formatted(promptSystem, history, userInput);
    if promptSystem == "" && history != [] {
      assert m[0] == history[0];
    }
    if userInput == "" && history != [] {
      assert m[|m| - 1] == history[|history| - 1];
    }
  }
}
