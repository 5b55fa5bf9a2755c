/** Choosing the store and the chatbot from the settings. */
module Factory {
  import opened Wrappers
  import opened Strings
  import opened ChatModels

  /** The stores the factory can build. */
  datatype StoreKind = Memory

  /** The `RuntimeError` of an unknown setting, naming the setting as given. */
  datatype FactoryError = UnknownStore(store: string) | UnknownChatbot(chatbot: string)

  /** `make_store`: the memory store for "memory" in any case, else an error. */
  function MakeStore(setting: string): (r: Result<StoreKind, FactoryError>)
    ensures r.Ok? <==> Lower(setting) == "memory"
    ensures r.Err? ==> r.error == UnknownStore(setting)
  {
    if Lower(setting) == "memory" then Ok(Memory) else Err(UnknownStore(setting))
  }

  /** `make_chatbot`: the lower-cased setting is checked first for being a
      substring of "dummy" (Python's `in` on two strings), then for being
      "graphrag". */
  function MakeChatbot(setting: string): (r: Result<Bot, FactoryError>)
    ensures r == Ok(Dummy) <==> Contains("dummy", Lower(setting))
    ensures r == Ok(GraphRag) <==> !Contains("dummy", Lower(setting)) && Lower(setting) == "graphrag"
    ensures r.Err? ==> r.error == UnknownChatbot(setting)
  {
    var low := Lower(setting);
    if Contains("dummy", low) then Ok(Dummy)
    else if low == "graphrag" then Ok(GraphRag)
    else Err(UnknownChatbot(setting))
  }

  /** A needle longer than the haystack is never found. */
  lemma {:induction false} ContainsLength(s: string, sub: string)
    requires Contains(s, sub)
    ensures |sub| <= |s|
  {
    var k := ContainsWitness(s, sub);
  }

  /** A setting yields a chatbot only if it has at most eight characters,
      and the echo bot only if it has at most five; "graphrag" in any case
      yields the GraphRAG bot. */
  lemma MakeChatbotBounds(setting: string)
    ensures MakeChatbot(setting) == Ok(Dummy) ==> |setting| <= 5
    ensures MakeChatbot(setting).Ok? ==> |setting| <= 8
    ensures Lower(setting) == "graphrag" ==> MakeChatbot(setting) == Ok(GraphRag)
  {
    if Contains("dummy", Lower(setting)) {
      ContainsLength("dummy", Lower(setting));
    }
  }

  /** The empty setting, and any piece of "dummy" such as "umm", yields
      the echo bot: the test is containment, not equality. */
  lemma MakeChatbotPieces(setting: string, i: nat, j: nat)
    requires i <= j <= 5 && Lower(setting) == "dummy"[i..j]
    ensures MakeChatbot(setting) == Ok(Dummy)
  {
    ContainsAt("dummy", Lower(setting), i);
  }
}
