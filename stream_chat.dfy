/** StreamChatWebSocketHandler: the multi-turn handler that streams the
    model's reply back in segments and commits the exchange when the
    stream completes. */
module StreamChat {
  import opened Turns
  import opened QueryParams
  import opened Prompt
  import opened HistoryStore
  import opened Segmenter

  /** The notice sent when the stream signals an error. */
  const StreamFailureNotice := "发送AI响应消息失败"

  /** What the streaming model produces for one prompt: the fragments it
      emits, then either completion (`completed`) or an error. */
  datatype Stream = Stream(fragments: seq<string>, completed: bool)

  /** The fragment and error callbacks of one subscription, run over the
      whole stream: returns the full reply accumulated and the messages
      sent on the session, which are the due segments in order, then the
      failure notice if the stream ended in an error. */
  method Subscribe(stream: Stream) returns (reply: string, sent: seq<string>)
    ensures reply == Concat(stream.fragments)
    ensures sent == Segmentation(stream.fragments).segments + (if stream.completed then [] else [StreamFailureNotice])
  {
    var exchange := new StreamExchange();
    for i := 0 to |stream.fragments|
      invariant exchange.Valid() && exchange.fragments == stream.fragments[..i]
    {
      assert stream.fragments[..i + 1] == stream.fragments[..i] + [stream.fragments[i]];
      exchange.OnNext(stream.fragments[i]);
    }
    assert stream.fragments[..|stream.fragments|] == stream.fragments;
    if !stream.completed {
      exchange.OnError(StreamFailureNotice);
    }
    reply, sent := exchange.reply, exchange.outbox;
  }

  class StreamChatHandler {
    /** userChatHistories */
    var histories: Histories

    ghost predicate Valid()
      reads this
    {
      Bounded(histories)
    }

    constructor ()
      ensures Valid() && histories == map[]
    {
      histories := map[];
    }

    /** afterConnectionEstablished: an empty history for the connection's
        identity, unless it already has one. */
    method AfterConnectionEstablished(query: string, sessionId: string)
      requires Valid()
      modifies this
      ensures Valid()
      ensures histories == PutIfAbsent(old(histories), UserId(query, sessionId), [])
    {
      var userId := GetUserId(query, sessionId);
      histories := PutIfAbsent(histories, userId, []);
    }

    /** handleTextMessage with its three stream callbacks run to the end.
        The history is created if absent, the model gets the assembled
        prompt, each due segment is sent as it forms; on completion the
        turn (input, full reply) is appended and the oldest turns evicted
        down to the bound, on error one notice is sent and nothing is
        committed. A remainder still buffered at the end is not sent. */
    method HandleTextMessage(query: string, sessionId: string, userInput: string, model: seq<Message> -> Stream)
      returns (sent: seq<string>)
      requires Valid()
      modifies this
      ensures Valid()
      ensures var userId := UserId(query, sessionId);
        var history := if userId in old(histories) then old(histories)[userId] else [];
        var stream := model(Assemble(history, userInput));
        && sent == Segmentation(stream.fragments).segments + (if stream.completed then [] else [StreamFailureNotice])
        && histories == old(histories)[userId :=
             if stream.completed then Retained(history + [NewTurn(userInput, Concat(stream.fragments))])
             else history]
    {
      var userId := GetUserId(query, sessionId);
      histories := PutIfAbsent(histories, userId, []);
      var history := histories[userId];
      assert history == if userId in old(histories) then old(histories)[userId] else [];
      assert histories == old(histories)[userId := history];
      var stream := model(Assemble(history, userInput));
      var reply;
      reply, sent := Subscribe(stream);
      if stream.completed {
        var kept := EvictOldest(history + [NewTurn(userInput, reply)]);
        histories := histories[userId := kept];
      }
      assert histories == old(histories)[userId :=
        if stream.completed then Retained(history + [NewTurn(userInput, Concat(stream.fragments))]) else history];
    }

    /** afterConnectionClosed: the identity's history is dropped. */
    method AfterConnectionClosed(query: string, sessionId: string)
      requires Valid()
      modifies this
      ensures Valid()
      ensures histories == Remove(old(histories), UserId(query, sessionId))
    {
      var userId := GetUserId(query, sessionId);
      histories := Remove(histories, userId);
    }

    /** handleTransportError: the session is closed (not modelled) and the
        identity's history is dropped. */
    method HandleTransportError(query: string, sessionId: string)
      requires Valid()
      modifies this
      ensures Valid()
      ensures histories == Remove(old(histories), UserId(query, sessionId))
    {
      var userId := GetUserId(query, sessionId);
      histories := Remove(histories, userId);
    }
  }
}
