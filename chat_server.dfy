/**
 * The `/api/ai-chat` handler of the chat proxy: validate and trim the
 * message, sanitise the untrusted history, assemble the message list for
 * the completion service, and turn its outcome into a response. The
 * completion service is a total function from message lists to outcomes.
 */
module ChatServer {
  import opened Wrappers
  import opened Json
  import opened Messages
  import Seqs
  import Text

  const MaxHistory: nat := 12
  const MaxContentLength: nat := 1000

  /** The fixed persona and topic rules sent as the system turn. */
  const SystemPrompt: string :=
    "\nYou are \"Kunphen Tibetan Medicine Assistant\", an expert advisor in Tibetan medicine (Sowa Rigpa).\n"
    + "\nRules you must follow:\n"
    + "1) Only answer questions related to Tibetan medicine, wellness through Sowa Rigpa, clinic preparation, non-emergency symptom education, diet, and lifestyle guidance.\n"
    + "2) If the user asks anything unrelated to Tibetan medicine (programming, politics, finance, general trivia, etc.), politely refuse in 1-2 sentences and redirect to Tibetan medicine topics.\n"
    + "3) Do not claim to diagnose disease or replace in-person medical care.\n"
    + "4) Do not provide dangerous or high-risk instructions, medication dosages, or emergency treatment plans.\n"
    + "5) If the user describes severe/urgent symptoms, instruct them to seek immediate emergency care and local medical help.\n"
    + "6) Keep answers clear, practical, and compassionate.\n"

  const MessageRequired: string := "Message is required."
  const EmptyModelResponse: string := "Empty model response."
  const FailedToGetResponse: string := "Failed to get AI response."

  datatype ResponseBody = ReplyBody(reply: string) | ErrorBody(error: string)

  datatype HttpResponse = HttpResponse(status: nat, body: ResponseBody)

  /**
   * What the completion call produces: it throws, or it returns its
   * choices, each with the content of its message (None when the message
   * or its content is missing or null).
   */
  datatype Completion = Threw | Choices(contents: seq<Option<string>>)

  /** One request handled: the response, and the message list sent upstream if the service was called. */
  datatype Exchange = Exchange(response: HttpResponse, upstreamRequest: Option<seq<ChatMessage>>)

  /** The body carries a string `message` with at least one non-whitespace character. */
  predicate HasMessageText(body: JsonValue)
  {
    var m := Get(body, "message");
    m.Some? && m.value.JString?
    && exists k :: 0 <= k < |m.value.s| && !Text.IsJsWhitespace(m.value.s[k])
  }

  /** The message field trimmed, or "" when it is missing or not a string. */
  function RequestMessage(body: JsonValue): (m: string)
    ensures (match Get(body, "message") case Some(JString(s)) => m == Text.Trim(s) case _ => m == "")
    ensures Text.IsTrimmed(m)
    ensures m != "" <==> HasMessageText(body)
  {
    match Get(body, "message")
    case Some(JString(s)) => Text.TrimNonEmpty(s); Text.Trim(s)
    case _ => ""
  }

  /** The history field when it is an array, the empty history otherwise. */
  function RequestHistory(body: JsonValue): (h: seq<JsonValue>)
    ensures (match Get(body, "history") case Some(JArray(items)) => h == items case _ => h == [])
  {
    match Get(body, "history")
    case Some(JArray(items)) => items
    case _ => []
  }

  /** The shape filter: a user or assistant entry with string content. */
  predicate IsHistoryEntry(item: JsonValue): (r: bool)
    ensures r <==> Truthy(Some(item))
                   && (Get(item, "role") == Some(JString("user")) || Get(item, "role") == Some(JString("assistant")))
                   && Get(item, "content").Some? && Get(item, "content").value.JString?
  {
    match item
    case JObject(f) =>
      && "role" in f && (f["role"] == JString("user") || f["role"] == JString("assistant"))
      && "content" in f && f["content"].JString?
    case _ => false
  }

  /** A kept entry with its content cut to the first `MaxContentLength` characters. */
  function SanitizedEntry(item: JsonValue): (m: ChatMessage)
    requires IsHistoryEntry(item)
    ensures IsConversationTurn(m)
    ensures JString(RoleName(m.role)) == item.fields["role"]
    ensures |m.content| == Seqs.Min(MaxContentLength, |item.fields["content"].s|)
    ensures m.content <= item.fields["content"].s
  {
    var role := if item.fields["role"] == JString("user") then User else Assistant;
    ChatMessage(role, Seqs.Take(item.fields["content"].s, MaxContentLength))
  }

  /** `history.filter(shape).slice(-12).map(truncate)`. */
  function SafeHistory(history: seq<JsonValue>): (r: seq<ChatMessage>)
    ensures |r| <= MaxHistory
    ensures forall k :: 0 <= k < |r| ==> IsConversationTurn(r[k]) && |r[k].content| <= MaxContentLength
  {
    Seqs.Map(Seqs.TakeLast(Seqs.Filter(history, IsHistoryEntry), MaxHistory), SanitizedEntry)
  }

  /** The list sent upstream: system turn, sanitised history, the new user turn. */
  function OutboundMessages(history: seq<ChatMessage>, message: string): (r: seq<ChatMessage>)
    ensures |r| == |history| + 2
    ensures r[0] == ChatMessage(System, SystemPrompt)
    ensures r[1..|r| - 1] == history
    ensures r[|r| - 1] == ChatMessage(User, message)
  {
    [ChatMessage(System, SystemPrompt)] + history + [ChatMessage(User, message)]
  }

  /** There is a first choice and its content has a non-whitespace character. */
  predicate HasReplyText(c: Completion)
  {
    c.Choices? && |c.contents| > 0 && c.contents[0].Some?
    && exists k :: 0 <= k < |c.contents[0].value| && !Text.IsJsWhitespace(c.contents[0].value[k])
  }

  /** `choices[0]?.message?.content?.trim()`, a thrown call caught. */
  function Classify(c: Completion): (r: HttpResponse)
    ensures r.status == 200 <==> HasReplyText(c)
    ensures r.status == 200 ==> r.body == ReplyBody(Text.Trim(c.contents[0].value))
    ensures r.status != 200 ==> r.status == 500 && r.body.ErrorBody?
    ensures c.Threw? ==> r.body == ErrorBody(FailedToGetResponse)
    ensures c.Choices? && !HasReplyText(c) ==> r.body == ErrorBody(EmptyModelResponse)
  {
    match c
    case Threw => HttpResponse(500, ErrorBody(FailedToGetResponse))
    case Choices(contents) =>
      if |contents| == 0 || contents[0].None? then HttpResponse(500, ErrorBody(EmptyModelResponse))
      else
        var reply := Text.Trim(contents[0].value);
        Text.TrimNonEmpty(contents[0].value);
        if reply == "" then HttpResponse(500, ErrorBody(EmptyModelResponse))
        else HttpResponse(200, ReplyBody(reply))
  }

  /** The whole handler, with the completion service as `upstream`. */
  function Handle(body: JsonValue, upstream: seq<ChatMessage> -> Completion): (x: Exchange)
    ensures x.upstreamRequest.None? <==> !HasMessageText(body)
  {
    var message := RequestMessage(body);
    if message == "" then
      Exchange(HttpResponse(400, ErrorBody(MessageRequired)), None)
    else
      var request := OutboundMessages(SafeHistory(RequestHistory(body)), message);
      Exchange(Classify(upstream(request)), Some(request))
  }

  // ----- properties of the sanitising pipeline -----

  /**
   * The sanitised history is the last min(12, n) of the n entries that
   * pass the shape filter, in their original order, each truncated.
   */
  lemma SafeHistoryIsLastKept(history: seq<JsonValue>)
    ensures var kept := Seqs.Filter(history, IsHistoryEntry);
            var r := SafeHistory(history);
            && |r| == Seqs.Min(MaxHistory, |kept|)
            && forall k :: 0 <= k < |r| ==> r[k] == SanitizedEntry(kept[|kept| - |r| + k])
  {
  }

  /** Entries that fail the shape filter are dropped, wherever they stand. */
  lemma SafeHistoryDropsMalformed(before: seq<JsonValue>, item: JsonValue, after: seq<JsonValue>)
    requires !IsHistoryEntry(item)
    ensures SafeHistory(before + [item] + after) == SafeHistory(before + after)
  {
    Seqs.FilterDrops(before, item, after, IsHistoryEntry);
  }

  /** The cap applies after the filter: only kept entries count towards 12. */
  lemma SafeHistoryFilterFirst(history: seq<JsonValue>)
    ensures SafeHistory(Seqs.Filter(history, IsHistoryEntry)) == SafeHistory(history)
  {
    Seqs.FilterIdempotent(history, IsHistoryEntry);
  }

  /** A message with its content cut to `MaxContentLength`. */
  function Truncated(m: ChatMessage): (r: ChatMessage)
    ensures r.role == m.role && |r.content| == Seqs.Min(MaxContentLength, |m.content|) && r.content <= m.content
    ensures |m.content| <= MaxContentLength ==> r == m
  {
    ChatMessage(m.role, Seqs.Take(m.content, MaxContentLength))
  }

  /**
   * A history of conversation turns, sent as `JSON.stringify` writes it,
   * comes out as its last 12 turns, each truncated.
   */
  lemma SafeHistoryOfConversation(ms: seq<ChatMessage>)
    requires forall k :: 0 <= k < |ms| ==> IsConversationTurn(ms[k])
    ensures SafeHistory(HistoryToJson(ms).items) == Seqs.Map(Seqs.TakeLast(ms, MaxHistory), Truncated)
  {
    var items := HistoryToJson(ms).items;
    AllEntries(ms);
    Seqs.FilterKeepsAll(items, IsHistoryEntry);
    var window := Seqs.TakeLast(items, MaxHistory);
    var turns := Seqs.TakeLast(ms, MaxHistory);
    SanitizeWindow(ms, window, turns);
  }

  lemma AllEntries(ms: seq<ChatMessage>)
    requires forall k :: 0 <= k < |ms| ==> IsConversationTurn(ms[k])
    ensures forall k :: 0 <= k < |ms| ==> IsHistoryEntry(HistoryToJson(ms).items[k])
  {
    forall k | 0 <= k < |ms| ensures IsHistoryEntry(HistoryToJson(ms).items[k]) {
      EntryOfMessage(ms[k]);
    }
  }

  lemma SanitizeWindow(ms: seq<ChatMessage>, window: seq<JsonValue>, turns: seq<ChatMessage>)
    requires forall k :: 0 <= k < |ms| ==> IsConversationTurn(ms[k])
    requires window == Seqs.TakeLast(HistoryToJson(ms).items, MaxHistory)
    requires turns == Seqs.TakeLast(ms, MaxHistory)
    ensures forall k :: 0 <= k < |window| ==> IsHistoryEntry(window[k])
    ensures Seqs.Map(window, SanitizedEntry) == Seqs.Map(turns, Truncated)
  {
    Seqs.TakeLastMap(ms, MessageToJson, MaxHistory);
    Seqs.TakeLastAll(ms, MaxHistory, IsConversationTurn);
    SanitizeTurns(turns);
  }

  /** Serialised conversation turns all pass the filter and sanitise to their truncations. */
  lemma SanitizeTurns(turns: seq<ChatMessage>)
    requires forall k :: 0 <= k < |turns| ==> IsConversationTurn(turns[k])
    ensures forall k :: 0 <= k < |turns| ==> IsHistoryEntry(Seqs.Map(turns, MessageToJson)[k])
    ensures Seqs.Map(Seqs.Map(turns, MessageToJson), SanitizedEntry) == Seqs.Map(turns, Truncated)
  {
    var window := Seqs.Map(turns, MessageToJson);
    forall k | 0 <= k < |window| ensures IsHistoryEntry(window[k]) && SanitizedEntry(window[k]) == Truncated(turns[k]) {
      EntryOfMessage(turns[k]);
    }
    Seqs.MapPointwise(window, turns, SanitizedEntry, Truncated);
  }

  /** A conversation turn, serialised, passes the shape filter and sanitises to its truncation. */
  lemma EntryOfMessage(m: ChatMessage)
    requires IsConversationTurn(m)
    ensures IsHistoryEntry(MessageToJson(m))
    ensures SanitizedEntry(MessageToJson(m)) == Truncated(m)
  {
  }

  /** Sanitising an already sanitised history, sent again, returns it unchanged. */
  lemma SafeHistoryIdempotent(history: seq<JsonValue>)
    ensures SafeHistory(HistoryToJson(SafeHistory(history)).items) == SafeHistory(history)
  {
    var ms := SafeHistory(history);
    SafeHistoryOfConversation(ms);
    var w := Seqs.Map(Seqs.TakeLast(ms, MaxHistory), Truncated);
    assert Seqs.TakeLast(ms, MaxHistory) == ms;
    assert w == ms;
  }

  /** The end-to-end example: a lone `{ role: "system" }` entry never reaches the prompt. */
  lemma SystemEntryDropped()
    ensures SafeHistory([JObject(map["role" := JString("system"), "content" := JString("y")])]) == []
  {
    var item := JObject(map["role" := JString("system"), "content" := JString("y")]);
    assert !IsHistoryEntry(item);
    assert Seqs.Filter([item], IsHistoryEntry) == Seqs.Filter([], IsHistoryEntry);
  }

  // ----- properties of the handler -----

  /**
   * A missing, non-string or blank message gets 400 "Message is required."
   * whatever the upstream service would do, and the service is not called.
   */
  lemma HandleRejectsBlankMessage(body: JsonValue, upstream: seq<ChatMessage> -> Completion,
                                  other: seq<ChatMessage> -> Completion)
    requires !HasMessageText(body)
    ensures Handle(body, upstream).response == HttpResponse(400, ErrorBody(MessageRequired))
    ensures Handle(body, upstream) == Handle(body, other)
  {
  }

  /**
   * With a message, the service is called once, with the system turn first,
   * then the sanitised history, then the trimmed message as the only other
   * user turn added; the response is the classification of what it returns.
   */
  lemma HandleForwards(body: JsonValue, upstream: seq<ChatMessage> -> Completion)
    requires HasMessageText(body)
    ensures var x := Handle(body, upstream);
            var safe := SafeHistory(RequestHistory(body));
            && x.upstreamRequest.Some?
            && x.upstreamRequest.value == OutboundMessages(safe, Text.Trim(Get(body, "message").value.s))
            && x.response == Classify(upstream(x.upstreamRequest.value))
  {
  }

  /** Only the first message of the outbound list has the system role. */
  lemma OutboundHasOneSystemTurn(body: JsonValue, upstream: seq<ChatMessage> -> Completion)
    requires HasMessageText(body)
    ensures var request := Handle(body, upstream).upstreamRequest.value;
            && 2 <= |request| <= MaxHistory + 2
            && request[0].role == System
            && forall k :: 0 < k < |request| ==> request[k].role != System
  {
    OutboundRoles(SafeHistory(RequestHistory(body)), RequestMessage(body));
  }

  lemma OutboundRoles(history: seq<ChatMessage>, message: string)
    requires forall k :: 0 <= k < |history| ==> IsConversationTurn(history[k])
    ensures var request := OutboundMessages(history, message);
            forall k :: 0 < k < |request| ==> request[k].role != System
  {
    var request := OutboundMessages(history, message);
    forall k | 0 < k < |request| - 1 ensures request[k].role != System {
      assert request[k] == request[1..|request| - 1][k - 1];
    }
  }

  /**
   * The caller sees 200 with a non-empty trimmed reply, 400, or 500 with one
   * of two fixed texts: no upstream detail ever reaches the response.
   */
  lemma HandleResponses(body: JsonValue, upstream: seq<ChatMessage> -> Completion)
    ensures var r := Handle(body, upstream).response;
            && r.status in {200, 400, 500}
            && (r.status == 200 ==> r.body.ReplyBody? && r.body.reply != "" && Text.IsTrimmed(r.body.reply))
            && (r.status == 400 ==> r.body == ErrorBody(MessageRequired))
            && (r.status == 500 ==> r.body == ErrorBody(EmptyModelResponse) || r.body == ErrorBody(FailedToGetResponse))
  {
    if HasMessageText(body) {
      var c := upstream(Handle(body, upstream).upstreamRequest.value);
      if HasReplyText(c) {
        Text.TrimNonEmpty(c.contents[0].value);
      }
    }
  }

  /** A history that is not an array is handled as the empty history. */
  lemma NonArrayHistoryIsEmpty(fields: map<string, JsonValue>, upstream: seq<ChatMessage> -> Completion)
    requires "history" in fields ==> !fields["history"].JArray?
    ensures Handle(JObject(fields), upstream) == Handle(JObject(fields["history" := JArray([])]), upstream)
  {
    var body := JObject(fields);
    var body' := JObject(fields["history" := JArray([])]);
    assert Get(body', "message") == Get(body, "message");
    assert RequestHistory(body) == RequestHistory(body') == [];
  }
}
