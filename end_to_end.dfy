/**
 * The widget, the client function and the proxy put together: what the
 * completion service receives when the widget sends a message.
 */
module EndToEnd {
  import opened Wrappers
  import opened Json
  import opened Messages
  import Seqs
  import Text
  import ChatServer
  import ChatClient
  import ChatWidget

  /**
   * The proxy forwards the window the widget sent, each message truncated,
   * between the system turn and the new user turn.
   */
  lemma WidgetRequestAtService(configured: Option<string>, text: string, transcript: seq<ChatMessage>,
                               upstream: seq<ChatMessage> -> ChatServer.Completion)
    requires forall k :: 0 <= k < |transcript| ==> IsConversationTurn(transcript[k])
    requires text != "" && Text.IsTrimmed(text)
    ensures var window := ChatWidget.HistoryWindow(transcript);
            var body := ChatClient.AssistantRequest(configured, text, window).body;
            ChatServer.Handle(body, upstream).upstreamRequest
              == Some(ChatServer.OutboundMessages(Seqs.Map(window, ChatServer.Truncated), text))
  {
    var window := ChatWidget.HistoryWindow(transcript);
    var body := ChatClient.AssistantRequest(configured, text, window).body;
    ServerReadsClientRequest(configured, text, window);
    WindowIsConversation(transcript);
    ChatServer.SafeHistoryOfConversation(window);
    assert Seqs.TakeLast(window, ChatServer.MaxHistory) == window;
    ChatServer.HandleForwards(body, upstream);
  }

  /**
   * The window the widget sends already ends with the new user turn, so the
   * list `WidgetRequestAtService` shows reaching the service ends with a
   * message of at most 1000 characters twice in a row.
   */
  lemma WidgetMessageReachesServiceTwice(text: string, transcript: seq<ChatMessage>)
    requires |text| <= ChatServer.MaxContentLength
    requires |transcript| > 0 && transcript[|transcript| - 1] == ChatMessage(User, text)
    ensures var request := ChatServer.OutboundMessages(Seqs.Map(ChatWidget.HistoryWindow(transcript), ChatServer.Truncated), text);
            |request| >= 3 && request[|request| - 2] == request[|request| - 1] == ChatMessage(User, text)
  {
    var window := ChatWidget.HistoryWindow(transcript);
    var safe := Seqs.Map(window, ChatServer.Truncated);
    WindowEndsWith(text, transcript);
    assert safe[|safe| - 1] == ChatServer.Truncated(window[|window| - 1]);
    LastTwoTurns(safe, text);
  }

  lemma WindowEndsWith(text: string, transcript: seq<ChatMessage>)
    requires |transcript| > 0 && transcript[|transcript| - 1] == ChatMessage(User, text)
    ensures var w := ChatWidget.HistoryWindow(transcript);
            |w| > 0 && w[|w| - 1] == ChatMessage(User, text)
  {
    ChatWidget.WindowEndsWithNewest(transcript[..|transcript| - 1], ChatMessage(User, text));
    assert transcript[..|transcript| - 1] + [ChatMessage(User, text)] == transcript;
  }

  lemma LastTwoTurns(safe: seq<ChatMessage>, text: string)
    requires |safe| > 0 && safe[|safe| - 1] == ChatMessage(User, text)
    ensures var request := ChatServer.OutboundMessages(safe, text);
            |request| >= 3 && request[|request| - 2] == request[|request| - 1] == ChatMessage(User, text)
  {
    var request := ChatServer.OutboundMessages(safe, text);
    assert request[|request| - 2] == request[1..|request| - 1][|safe| - 1];
  }

  /** The proxy reads back the message and the history the client put in the body. */
  lemma ServerReadsClientRequest(configured: Option<string>, text: string, history: seq<ChatMessage>)
    requires text != "" && Text.IsTrimmed(text)
    ensures var body := ChatClient.AssistantRequest(configured, text, history).body;
            && ChatServer.HasMessageText(body)
            && Text.Trim(Get(body, "message").value.s) == text
            && ChatServer.RequestHistory(body) == HistoryToJson(history).items
  {
    var body := ChatClient.AssistantRequest(configured, text, history).body;
    assert Get(body, "message") == Some(JString(text));
    assert !Text.IsJsWhitespace(text[0]);
    Text.TrimOfTrimmed(text);
  }

  lemma WindowIsConversation(transcript: seq<ChatMessage>)
    requires forall k :: 0 <= k < |transcript| ==> IsConversationTurn(transcript[k])
    ensures var window := ChatWidget.HistoryWindow(transcript);
            forall k :: 0 <= k < |window| ==> IsConversationTurn(window[k])
  {
    var window := ChatWidget.HistoryWindow(transcript);
    forall k | 0 <= k < |window| ensures IsConversationTurn(window[k]) {
      assert window[k] == (transcript[..|transcript| - |window|] + window)[|transcript| - |window| + k];
    }
  }
}
