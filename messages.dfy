/**
 * Chat messages as both sides see them: a role and a text. The browser
 * keeps only user and assistant turns; the proxy adds the system turn.
 */
module Messages {
  import opened Wrappers
  import opened Json
  import Seqs

  datatype Role = System | User | Assistant

  datatype ChatMessage = ChatMessage(role: Role, content: string)

  /** The role as it travels in JSON. */
  function RoleName(role: Role): (name: string)
    ensures name in {"system", "user", "assistant"}
  {
    match role
    case System => "system"
    case User => "user"
    case Assistant => "assistant"
  }

  /** A turn the browser keeps in its transcript (`AssistantRole`). */
  predicate IsConversationTurn(m: ChatMessage)
  {
    m.role == User || m.role == Assistant
  }

  /** `{ role, content }` as `JSON.stringify` writes one message. */
  function MessageToJson(m: ChatMessage): (v: JsonValue)
    ensures Get(v, "role") == Some(JString(RoleName(m.role)))
    ensures Get(v, "content") == Some(JString(m.content))
  {
    JObject(map["role" := JString(RoleName(m.role)), "content" := JString(m.content)])
  }

  /** A history array as `JSON.stringify` writes it. */
  function HistoryToJson(ms: seq<ChatMessage>): (v: JsonValue)
    ensures v.JArray? && |v.items| == |ms|
    ensures forall k :: 0 <= k < |ms| ==> v.items[k] == MessageToJson(ms[k])
  {
    JArray(Seqs.Map(ms, MessageToJson))
  }
}
