/** ChatWebSocketHandler: the multi-turn handler that sends the model's
    reply as one message and commits the exchange with a single-step
    eviction. */
module Chat {
  import opened Turns
  import opened QueryParams
  import opened Prompt
  import opened HistoryStore

  /** The notice sent when the model call (or the reply's send) throws. */
  const ReplyFailureNotice := "AI回复消息失败，请稍后重试。"

  class ChatHandler {
    /** userChatHistories */
    var histories: Histories

    /** Every stored history is within MaxHistorySize: the single-step
        eviction keeps this bound because the handler never stores an
        oversized history. */
    ghost predicate Valid()
      reads this
    {
      Bounded(histories)
    }

    constructor ()
      ensures Valid() && histories == map[]
    {
      histories := map[];
    }

    /** afterConnectionEstablished: an empty history for the connection's
        identity, unless it already has one. */
    method AfterConnectionEstablished(query: string, sessionId: string)
      requires Valid()
      modifies this
      ensures Valid()
      ensures histories == PutIfAbsent(old(histories), UserId(query, sessionId), [])
    {
      var userId := GetUserId(query, sessionId);
      histories := PutIfAbsent(histories, userId, []);
    }

    /** handleTextMessage. getOrDefault hands back a fresh empty list when
        the identity has no entry, so the prompt is built from it and the
        commit lands in that detached list: the map does not change. When
        the entry exists, the turn is appended to it and the oldest turn
        removed once if the bound is exceeded. A throwing model call
        changes nothing and sends one notice. The `history == null` branch
        of the source cannot be taken and has no counterpart here. */
    method HandleTextMessage(query: string, sessionId: string, userInput: string, model: seq<Message> -> Reply)
      returns (sent: seq<string>)
      requires Valid()
      modifies this
      ensures Valid()
      ensures var userId := UserId(query, sessionId);
        var history := if userId in old(histories) then old(histories)[userId] else [];
        match model(Assemble(history, userInput))
        case Replied(text) =>
          && sent == [text]
          && histories == (if userId in old(histories)
                           then old(histories)[userId := CommitOnce(history, NewTurn(userInput, text))]
                           else old(histories))
        case Threw(_) =>
          sent == [ReplyFailureNotice] && histories == old(histories)
    {
      var userId := GetUserId(query, sessionId);
      var history := if userId in histories then histories[userId] else [];
      var reply := MultipleChatWithPrompt(history, userInput, model);
      match reply
      case Replied(text) =>
        var committed := CommitOnce(history, NewTurn(userInput, text));
        CommitOnceWithinBound(history, NewTurn(userInput, text));
        if userId in histories {
          histories := histories[userId := committed];
        }
        sent := [text];
      case Threw(_) =>
        sent := [ReplyFailureNotice];
    }

    /** afterConnectionClosed: the identity's history is dropped. */
    method AfterConnectionClosed(query: string, sessionId: string)
      requires Valid()
      modifies this
      ensures Valid()
      ensures histories == Remove(old(histories), UserId(query, sessionId))
    {
      var userId := GetUserId(query, sessionId);
      histories := Remove(histories, userId);
    }

    /** handleTransportError: the session is closed (not modelled) and the
        identity's history is dropped. */
    method HandleTransportError(query: string, sessionId: string)
      requires Valid()
      modifies this
      ensures Valid()
      ensures histories == Remove(old(histories), UserId(query, sessionId))
    {
      var userId := GetUserId(query, sessionId);
      histories := Remove(histories, userId);
    }
  }
}
