/** The conversation state of the `Chat` component (src/components/Chat.tsx):
    the message log, the input box and the `loading` flag.

    `handleSendMessage` is split at its `await`: `SendMessage` is what
    happens before the call, `ReceiveReply` what happens when the call comes
    back, with the call's outcome as a `Reply` parameter. `Date.now()` is
    the parameter `now`; both readings in one message are taken as one. */
module Chat {
  import opened Types
  import opened Strings
  import MockApi

  const Apology: string := "I'm sorry, there was an error processing your request. Please try again."
  const WelcomeText: string := "Hello! I'm your document assistant. Ask me questions about your uploaded documents, and I'll use RAG technology to provide relevant answers."
  const ReplyFailed: string := "Failed to get a response"

  /** The greeting a log starts with: a system turn with id "0". */
  function Welcome(now: int): (m: ChatMessage)
    ensures m.role == System && m.id == "0" && m.sources.None?
  {
    ChatMessage("0", System, WelcomeText, now, None)
  }

  /** The user's turn: the input exactly as typed (untrimmed), id and
      timestamp from the clock. */
  function UserTurn(content: string, now: nat): (m: ChatMessage)
    ensures m.role == User && m.content == content && m.timestamp == now && m.sources.None?
    ensures m.id != [] && forall i :: 0 <= i < |m.id| ==> '0' <= m.id[i] <= '9'
    ensures ParseDigits(m.id) == now
  {
    ParseNatToString(now);
    ChatMessage(NatToString(now), User, content, now, None)
  }

  /** The turn appended when the call comes back: the delivered message
      itself, or else a system apology. */
  function ReplyTurn(reply: Reply<ChatMessage>, now: nat): (m: ChatMessage)
    ensures reply.Delivered() ==> m == reply.response.data.value
    ensures !reply.Delivered() ==> m.role == System && m.content == Apology && m.timestamp == now
    ensures !reply.Delivered() ==> m.sources.None?
  {
    if reply.Delivered() then reply.response.data.value
    else ChatMessage(NatToString(now), System, Apology, now, None)
  }

  /** The send button is enabled: something besides whitespace is typed and
      no reply is awaited. */
  predicate SendEnabled(input: string, loading: bool)
  {
    !IsBlank(input) && !loading
  }

  /** The clear button is enabled: more than the greeting is shown and no
      reply is awaited. */
  predicate ClearEnabled(count: nat, loading: bool)
  {
    count > 1 && !loading
  }

  /** With no reply awaited, the send button is enabled exactly when the
      input holds a non-whitespace character. */
  lemma SendEnabledIff(input: string)
    ensures SendEnabled(input, false) <==> exists i :: 0 <= i < |input| && !IsWhitespace(input[i])
  {
    BlankIffAllWhitespace(input);
  }

  /** The mock backend's reply is always shown as it came, an assistant
      turn, never the apology. */
  lemma MockReplyShown(message: string, id: string, timestamp: int, now: nat)
    ensures var response := MockApi.SendChatMessage(message, id, timestamp);
      ReplyTurn(Returned(response), now) == response.data.value
      && ReplyTurn(Returned(response), now).role == Assistant
  {
  }

  class ChatLog {
    var messages: seq<ChatMessage>
    var input: string
    var loading: bool

    /** The component's initial state: an empty log, an empty input, idle. */
    constructor ()
      ensures messages == [] && input == [] && !loading
    {
      messages := [];
      input := [];
      loading := false;
    }

    /** `handleInputChange`: the input box takes the typed value. */
    method ChangeInput(value: string)
      modifies this
      ensures input == value
      ensures messages == old(messages) && loading == old(loading)
    {
      input := value;
    }

    /** `handleSendMessage` up to its `await`. A blank input does nothing.
        Otherwise the user turn is appended, the input cleared, loading set,
        and the untrimmed input is what is sent (`sent`). `handleSendMessage`
        does not consult loading; while a reply is awaited the textarea and
        the send button are both disabled (Chat.tsx:149, 169). */
    method SendMessage(now: nat) returns (sent: Option<string>)
      modifies this
      ensures sent.None? <==> IsBlank(old(input))
      ensures sent.None? ==> messages == old(messages) && input == old(input) && loading == old(loading)
      ensures sent.Some? ==>
        sent.value == old(input) && messages == old(messages) + [UserTurn(old(input), now)]
        && input == [] && loading
    {
      if IsBlank(input) {
        sent := None;
      } else {
        sent := Some(input);
        messages := messages + [UserTurn(input, now)];
        input := [];
        loading := true;
      }
    }

    /** `handleSendMessage` after its `await`: the reply turn is appended;
        a failed or thrown call also raises an error toast. Loading ends
        either way. */
    method ReceiveReply(reply: Reply<ChatMessage>, now: nat) returns (notice: Option<Notice>)
      modifies this
      ensures messages == old(messages) + [ReplyTurn(reply, now)]
      ensures !loading && input == old(input)
      ensures notice.None? <==> reply.Delivered()
      ensures notice.Some? ==> notice.value == Notice("Error",
        ErrorDescription(reply, if reply.Returned? then ReplyFailed else UnknownError), true)
    {
      messages := messages + [ReplyTurn(reply, now)];
      if reply.Delivered() {
        notice := None;
      } else {
        var fallback := if reply.Returned? then ReplyFailed else UnknownError;
        notice := Some(Notice("Error", ErrorDescription(reply, fallback), true));
      }
      loading := false;
    }

    /** `handleKeyDown`: Enter without Shift submits; any other key does
        nothing here. */
    method KeyDown(key: string, shift: bool, now: nat) returns (sent: Option<string>)
      modifies this
      ensures key != "Enter" || shift ==>
        sent.None? && messages == old(messages) && input == old(input) && loading == old(loading)
      ensures key == "Enter" && !shift ==> (sent.None? <==> IsBlank(old(input)))
      ensures key == "Enter" && !shift && sent.Some? ==>
        sent.value == old(input) && messages == old(messages) + [UserTurn(old(input), now)]
        && input == [] && loading
      ensures sent.None? ==> messages == old(messages) && input == old(input) && loading == old(loading)
    {
      if key == "Enter" && !shift {
        sent := SendMessage(now);
      } else {
        sent := None;
      }
    }

    /** `clearChat`: the log is emptied (the greeting effect then re-seeds it). */
    method ClearChat()
      modifies this
      ensures messages == []
      ensures input == old(input) && loading == old(loading)
    {
      messages := [];
    }

    /** The greeting effect: an empty log gets the welcome turn; any other
        log is left alone. */
    method SeedIfEmpty(now: int)
      modifies this
      ensures messages == if old(messages) == [] then [Welcome(now)] else old(messages)
      ensures input == old(input) && loading == old(loading)
    {
      if messages == [] {
        messages := [Welcome(now)];
      }
    }
  }

  /** Clearing a conversation and letting the greeting effect run leaves the
      welcome turn alone, and the clear button then disabled. */
  method ClearAndGreet(log: ChatLog, now: int)
    modifies log
    ensures log.messages == [Welcome(now)]
    ensures !ClearEnabled(|log.messages|, log.loading)
  {
    log.ClearChat();
    log.SeedIfEmpty(now);
  }

  /** One exchange with a delivered reply, from an idle log: the user turn
      and the reply are appended in that order, and the log is idle again. */
  method Exchange(log: ChatLog, typed: string, reply: Reply<ChatMessage>, sentAt: nat, receivedAt: nat)
    returns (sent: Option<string>)
    requires reply.Delivered()
    modifies log
    ensures sent.Some? <==> !IsBlank(typed)
    ensures sent.Some? ==>
      log.messages == old(log.messages) + [UserTurn(typed, sentAt), reply.response.data.value]
      && sent.value == typed && !log.loading && log.input == []
  {
    log.ChangeInput(typed);
    sent := log.SendMessage(sentAt);
    if sent.Some? {
      var notice := log.ReceiveReply(reply, receivedAt);
    }
  }
}
