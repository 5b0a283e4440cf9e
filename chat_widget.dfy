/**
 * The chat widget's state: whether the panel is open, whether a reply is
 * awaited, the text being typed and the transcript. Sending is split into
 * the part before the network call (`BeginSend`) and the part after it
 * (`CompleteSend`).
 */
module ChatWidget {
  import opened Wrappers
  import opened Messages
  import Seqs
  import Text

  const MaxHistory: nat := 12

  const InitialMessage: ChatMessage := ChatMessage(Assistant,
    "Tashi Delek. I am your Tibetan medicine assistant. I can answer questions related to Sowa Rigpa, "
    + "traditional remedies, lifestyle guidance, and preparation for consultation. I cannot help with unrelated topics.")

  const FallbackReply: string :=
    "I cannot answer right now. Please try again in a moment, or contact the clinic directly for medical guidance."

  /** What an accepted send passes to `sendAssistantMessage`. */
  datatype Outgoing = Outgoing(message: string, history: seq<ChatMessage>)

  /** `canSend`: the trimmed input is non-empty and no reply is awaited. */
  predicate CanSend(input: string, isLoading: bool)
  {
    |Text.Trim(input)| > 0 && !isLoading
  }

  /** Sending is enabled exactly when the input has a non-whitespace character and nothing is loading. */
  lemma CanSendIff(input: string, isLoading: bool)
    ensures CanSend(input, isLoading) <==> !isLoading && exists k :: 0 <= k < |input| && !Text.IsJsWhitespace(input[k])
  {
    Text.TrimNonEmpty(input);
  }

  /** `messages.slice(-MAX_HISTORY)`: the last min(12, n) messages of the transcript. */
  function HistoryWindow(ms: seq<ChatMessage>): (r: seq<ChatMessage>)
    ensures |r| == Seqs.Min(MaxHistory, |ms|)
    ensures ms[..|ms| - |r|] + r == ms
  {
    Seqs.TakeLast(ms, MaxHistory)
  }

  /** The window taken after appending a message ends with that message. */
  lemma WindowEndsWithNewest(ms: seq<ChatMessage>, m: ChatMessage)
    ensures var w := HistoryWindow(ms + [m]);
            |w| > 0 && w[|w| - 1] == m
  {
    var all := ms + [m];
    var w := HistoryWindow(all);
    assert all[|all| - 1] == m;
    assert w[|w| - 1] == (all[..|all| - |w|] + w)[|all| - 1];
  }

  /**
   * The transcript the widget builds: the greeting, then user and assistant
   * turns alternating, each user turn a trimmed non-empty text.
   */
  ghost predicate WellFormedTranscript(ms: seq<ChatMessage>)
  {
    && |ms| >= 1 && ms[0] == InitialMessage
    && (forall k :: 0 <= k < |ms| ==> ms[k].role == if k % 2 == 0 then Assistant else User)
    && (forall k :: 0 <= k < |ms| && ms[k].role == User ==>
          ms[k].content != "" && Text.IsTrimmed(ms[k].content))
  }

  /** A trimmed non-empty user turn after an assistant turn keeps the transcript well formed. */
  lemma AppendUserTurn(ms: seq<ChatMessage>, text: string)
    requires WellFormedTranscript(ms) && |ms| % 2 == 1
    requires text != "" && Text.IsTrimmed(text)
    ensures WellFormedTranscript(ms + [ChatMessage(User, text)])
  {
    var ms' := ms + [ChatMessage(User, text)];
    assert forall k :: 0 <= k < |ms| ==> ms'[k] == ms[k];
  }

  /** An assistant turn after a user turn keeps the transcript well formed. */
  lemma AppendAssistantTurn(ms: seq<ChatMessage>, reply: string)
    requires WellFormedTranscript(ms) && |ms| % 2 == 0
    ensures WellFormedTranscript(ms + [ChatMessage(Assistant, reply)])
  {
    var ms' := ms + [ChatMessage(Assistant, reply)];
    assert forall k :: 0 <= k < |ms| ==> ms'[k] == ms[k];
  }

  class AssistantChat {
    var open: bool
    var isLoading: bool
    var input: string
    var messages: seq<ChatMessage>

    /** A reply is awaited exactly when the transcript ends with a user turn. */
    ghost predicate Valid()
      reads this
    {
      WellFormedTranscript(messages) && (isLoading <==> |messages| % 2 == 0)
    }

    constructor ()
      ensures Valid()
      ensures !open && !isLoading && input == "" && messages == [InitialMessage]
    {
      open, isLoading, input := false, false, "";
      messages := [InitialMessage];
    }

    /** The launcher button. */
    method Open()
      requires Valid()
      modifies this`open
      ensures Valid() && open
    {
      open := true;
    }

    /** The close button in the panel header. */
    method Close()
      requires Valid()
      modifies this`open
      ensures Valid() && !open
    {
      open := false;
    }

    /** Typing in the text area. */
    method SetInput(text: string)
      requires Valid()
      modifies this`input
      ensures Valid() && input == text
    {
      input := text;
    }

    /**
     * The synchronous part of `onSend`. A blank input or a pending reply
     * changes nothing; otherwise the trimmed text is appended as a user
     * turn, the input is cleared, loading starts, and the text is sent with
     * the last 12 messages of the new transcript.
     */
    method BeginSend() returns (sent: Option<Outgoing>)
      requires Valid()
      modifies this`messages, this`input, this`isLoading
      ensures Valid()
      ensures !old(CanSend(input, isLoading)) ==>
                sent == None && messages == old(messages) && input == old(input) && isLoading == old(isLoading)
      ensures old(CanSend(input, isLoading)) ==>
                && messages == old(messages) + [ChatMessage(User, Text.Trim(old(input)))]
                && input == "" && isLoading
                && sent == Some(Outgoing(Text.Trim(old(input)), HistoryWindow(messages)))
    {
      var text := Text.Trim(input);
      if text == [] || isLoading {
        return None;
      }
      AppendUserTurn(messages, text);
      messages := messages + [ChatMessage(User, text)];
      input := "";
      isLoading := true;
      sent := Some(Outgoing(text, HistoryWindow(messages)));
    }

    /**
     * The part of `onSend` after the call settles: the reply, or the fixed
     * fallback text when the call failed, is appended as an assistant turn,
     * and loading ends.
     */
    method CompleteSend(success: bool, reply: string)
      requires Valid() && isLoading
      modifies this`messages, this`isLoading
      ensures Valid() && !isLoading
      ensures messages == old(messages) + [ChatMessage(Assistant, if success then reply else FallbackReply)]
    {
      var content := if success then reply else FallbackReply;
      AppendAssistantTurn(messages, content);
      messages := messages + [ChatMessage(Assistant, content)];
      isLoading := false;
    }
  }

  /** `onSend` run to completion with no other event between its two steps: the transcript gains exactly the user turn and its answer. */
  method OnSend(chat: AssistantChat, text: string, success: bool, reply: string)
    requires chat.Valid() && !chat.isLoading && Text.Trim(text) != []
    modifies chat
    ensures chat.Valid() && !chat.isLoading && chat.input == ""
    ensures chat.messages == old(chat.messages)
              + [ChatMessage(User, Text.Trim(text)), ChatMessage(Assistant, if success then reply else FallbackReply)]
    ensures chat.open == old(chat.open)
  {
    chat.SetInput(text);
    var sent := chat.BeginSend();
    chat.CompleteSend(success, reply);
  }
}
