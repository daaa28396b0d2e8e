/** The multi-turn prompt of DeepSeekChatService: a role-tagged message
    list built from a connection's history and the new user input, and the
    emptiness guard in front of the model call. */
module Prompt {
  import opened Turns

  datatype Role = System | User | Assistant

  /** A role-tagged chat message (SystemMessage, UserMessage, AssistantMessage). */
  datatype Message = Message(role: Role, text: string)

  /** The fixed persona sent as the system message. */
  const Persona := "你是一个热情且专业的 AI 编程助手"

  /** The message of the IllegalArgumentException thrown for an empty list. */
  const EmptyMessagesError := "对话历史不能为空"

  /** What a call to the model gives back: a reply, or an exception with
      its message. The model itself is a parameter of type
      `seq<Message> -> Reply`. */
  datatype Reply = Replied(text: string) | Threw(cause: string)

  /** The user/assistant message pairs for `history`, oldest turn first. */
  function Exchanges(history: seq<Turn>): (r: seq<Message>)
    ensures |r| == 2 * |history|
    decreases |history|
  {
    if |history| == 0 then []
    else
      var last := history[|history| - 1];
      Exchanges(history[..|history| - 1]) + [Message(User, last.user), Message(Assistant, last.assistant)]
  }

  /** The list multipleChatWithPrompt hands to the model: the system
      persona, the history's pairs, then the new input. */
  function Assemble(history: seq<Turn>, userInput: string): (r: seq<Message>)
    ensures |r| == 2 * |history| + 2
    ensures r[0] == Message(System, Persona) && r[|r| - 1] == Message(User, userInput)
  {
    [Message(System, Persona)] + Exchanges(history) + [Message(User, userInput)]
  }

  lemma {:induction false} ExchangesAt(history: seq<Turn>)
    ensures |Exchanges(history)| == 2 * |history|
    ensures forall i :: 0 <= i < |history| ==>
      Exchanges(history)[2 * i] == Message(User, history[i].user)
      && Exchanges(history)[2 * i + 1] == Message(Assistant, history[i].assistant)
    decreases |history|
  {
    if |history| > 0 {
      ExchangesAt(history[..|history| - 1]);
    }
  }

  /** The assembled list has 2k + 2 messages for k turns: the persona
      first, user(history[i].user) at 1 + 2i and
      assistant(history[i].assistant) at 2 + 2i, and the new input last. */
  lemma AssembleShape(history: seq<Turn>, userInput: string)
    ensures var m := Assemble(history, userInput);
      && |m| == 2 * |history| + 2
      && m[0] == Message(System, Persona)
      && (forall i :: 0 <= i < |history| ==>
            m[1 + 2 * i] == Message(User, history[i].user)
            && m[2 + 2 * i] == Message(Assistant, history[i].assistant))
      && m[|m| - 1] == Message(User, userInput)
  {
    ExchangesAt(history);
    var m := Assemble(history, userInput);
    forall i | 0 <= i < |history|
      ensures m[1 + 2 * i] == Message(User, history[i].user)
      ensures m[2 + 2 * i] == Message(Assistant, history[i].assistant)
    {
      assert m[1 + 2 * i] == Exchanges(history)[2 * i];
      assert m[2 + 2 * i] == Exchanges(history)[2 * i + 1];
    }
  }

  /** Roles strictly alternate after the system message: user at odd
      positions, assistant at even ones, and a user message last. */
  lemma AssembleAlternates(history: seq<Turn>, userInput: string)
    ensures var m := Assemble(history, userInput);
      forall j :: 1 <= j < |m| ==> m[j].role == (if j % 2 == 1 then User else Assistant)
  {
    AssembleShape(history, userInput);
    var m := Assemble(history, userInput);
    forall j | 1 <= j < |m|
      ensures m[j].role == (if j % 2 == 1 then User else Assistant)
    {
      if j < |m| - 1 {
        var i := (j - 1) / 2;
        if j % 2 == 1 {
          assert j == 1 + 2 * i && m[1 + 2 * i] == Message(User, history[i].user);
        } else {
          assert j == 2 + 2 * i && m[2 + 2 * i] == Message(Assistant, history[i].assistant);
        }
      } else {
        assert j == 2 * |history| + 1;
      }
    }
  }

  /** multipleChat: an empty list is rejected before the model is called. */
  function MultipleChat(messages: seq<Message>, model: seq<Message> -> Reply): (r: Reply)
    ensures |messages| == 0 ==> r == Threw(EmptyMessagesError)
    ensures |messages| > 0 ==> r == model(messages)
  {
    if |messages| == 0 then Threw(EmptyMessagesError) else model(messages)
  }

  /** multipleChatWithPrompt: builds the list message by message and asks
      the model. The model sees exactly the assembled list, and the
      emptiness guard never fires on it. */
  method MultipleChatWithPrompt(history: seq<Turn>, userInput: string, model: seq<Message> -> Reply)
    returns (reply: Reply)
    ensures reply == model(Assemble(history, userInput))
  {
    var messages := [Message(System, Persona)];
    for i := 0 to |history|
      invariant messages == [Message(System, Persona)] + Exchanges(history[..i])
    {
      assert history[..i + 1][..i] == history[..i];
      messages := messages + [Message(User, history[i].user), Message(Assistant, history[i].assistant)];
    }
    assert history[..|history|] == history;
    messages := messages + [Message(User, userInput)];
    reply := MultipleChat(messages, model);
  }
}
