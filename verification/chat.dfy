/** The chat page (src/pages/Chat.tsx): a log of messages that starts
    with a greeting and to which every accepted send adds the user's
    message and then the assistant's reply. `handleSend` runs in two
    steps around its `await`: `BeginSend` up to the call and `FinishSend`
    after it. The reply comes from the chat client, given the stored
    company information and the API's answer. */
module Chat {
  import opened Common
  import opened Text
  import Gemini

  datatype Role = User | Assistant

  /** A log entry; the timestamp is left out. */
  datatype Message = Message(role: Role, content: string)

  const Greeting := "Hello! I'm RS AI, your RwandaScratch assistant. How can I help you today?"

  /** The reply shown when the call to the chat client throws. */
  const Apology :=
    "I apologize, but I'm having trouble responding right now. Please contact us directly at hello@rwandascratch.com"

  /** The guard of `handleSend`: the input is sent only when it is not
      blank after trimming and no reply is awaited. */
  function Accepts(input: string, loading: bool): (ok: bool)
    ensures ok <==> !AllSpace(input) && !loading
  {
    TrimEmptyIffSpace(input);
    Trim(input) != "" && !loading
  }

  /** The assistant's entry after a send of `message`: the chat client's
      reply when the call returns, the apology when it throws. Never empty. */
  function Reply(call: Outcome, message: string, info: Option<Gemini.SiteInfo>, answer: Gemini.Answer): (r: string)
    ensures call.Threw? ==> r == Apology
    ensures call.Resolved? ==> r == Gemini.SendChatMessage(message, info, answer)
    ensures r != ""
  {
    if call.Threw? then Apology else Gemini.SendChatMessage(message, info, answer)
  }

  /** A returned reply is the answer's text or one of the client's two
      apologies. */
  lemma ResolvedReply(message: string, info: Option<Gemini.SiteInfo>, answer: Gemini.Answer)
    ensures var r := Reply(Resolved, message, info, answer);
      r == Gemini.ErrorReply || r == Gemini.EmptyReply ||
      (answer.Ok? && answer.text.Some? && r == answer.text.value)
  {
  }

  /** The shape of a log: the greeting first, then user and assistant
      entries in turn, so that an even length means a reply is awaited. */
  predicate WellFormed(log: seq<Message>) {
    |log| >= 1 && log[0] == Message(Assistant, Greeting) &&
    forall i :: 1 <= i < |log| ==> log[i].role == (if i % 2 == 1 then User else Assistant)
  }

  /** Appending an entry of the role whose turn it is keeps the shape. */
  lemma {:induction false} AppendInTurn(log: seq<Message>, m: Message)
    requires WellFormed(log)
    requires m.role == (if |log| % 2 == 1 then User else Assistant)
    ensures WellFormed(log + [m])
  {
    var t := log + [m];
    forall i | 1 <= i < |t| ensures t[i].role == (if i % 2 == 1 then User else Assistant) {
      if i < |log| {
        assert t[i] == log[i];
      }
    }
  }

  class ChatSession {
    var messages: seq<Message>
    var input: string
    var loading: bool
    /** The input captured by the pending send, if any. */
    var pending: Option<string>
    /** The company information the pending send was made with: the
        value of the render in which `handleSend` started. */
    var pendingInfo: Option<Gemini.SiteInfo>
    var websiteInfo: Option<Gemini.SiteInfo>

    /** The log has its shape, and a reply is awaited exactly when a send
        is pending, which is when the last entry is the user's. */
    predicate Valid()
      reads this
    {
      WellFormed(messages) &&
      (loading <==> pending.Some?) &&
      (loading <==> |messages| % 2 == 0) &&
      (pending.Some? ==> messages[|messages| - 1] == Message(User, pending.value))
    }

    constructor()
      ensures Valid()
      ensures messages == [Message(Assistant, Greeting)] && input == "" && !loading
      ensures websiteInfo.None?
    {
      messages := [Message(Assistant, Greeting)];
      input, loading, pending, websiteInfo, pendingInfo := "", false, None, None, None;
    }

    /** The page's first effect stores what `getWebsiteInfo` gave. */
    method SetWebsiteInfo(info: Option<Gemini.SiteInfo>)
      modifies this`websiteInfo
      ensures websiteInfo == info
    {
      websiteInfo := info;
    }

    method SetInput(text: string)
      modifies this`input
      ensures input == text
    {
      input := text;
    }

    /** `handleSend` up to its `await`: a blank input or a pending reply
        leaves everything as it was; otherwise the untrimmed input is
        appended as the user's entry, the input is cleared and a reply is
        awaited. */
    method BeginSend() returns (sent: Option<string>)
      requires Valid()
      modifies this`messages, this`input, this`loading, this`pending, this`pendingInfo
      ensures Valid()
      ensures websiteInfo == old(websiteInfo)
      ensures !Accepts(old(input), old(loading)) ==>
        sent.None? && messages == old(messages) && input == old(input) && loading == old(loading) &&
        pending == old(pending) && pendingInfo == old(pendingInfo)
      ensures Accepts(old(input), old(loading)) ==>
        sent == Some(old(input)) && messages == old(messages) + [Message(User, old(input))] &&
        input == "" && loading && pendingInfo == old(websiteInfo)
    {
      if !Accepts(input, loading) {
        return None;
      }
      sent := Some(input);
      AppendInTurn(messages, Message(User, input));
      messages := messages + [Message(User, input)];
      pending := Some(input);
      pendingInfo := websiteInfo;
      input := "";
      loading := true;
    }

    /** `handleSend` after its `await`: the reply to the pending input,
        built from the information captured when the send began, is
        appended as the assistant's entry and loading ends. Information
        fetched meanwhile does not affect it. */
    method FinishSend(call: Outcome, answer: Gemini.Answer)
      requires Valid() && loading
      modifies this`messages, this`loading, this`pending
      ensures Valid()
      ensures messages == old(messages) + [Message(Assistant, Reply(call, old(pending).value, old(pendingInfo), answer))]
      ensures !loading
    {
      var reply := Message(Assistant, Reply(call, pending.value, pendingInfo, answer));
      AppendInTurn(messages, reply);
      messages := messages + [reply];
      pending := None;
      loading := false;
    }

    /** A whole accepted send adds exactly two entries, the user's then
        the assistant's, and keeps everything before them. */
    method Send(call: Outcome, answer: Gemini.Answer) returns (sent: Option<string>)
      requires Valid()
      modifies this`messages, this`input, this`loading, this`pending, this`pendingInfo
      ensures Valid()
      ensures old(messages) <= messages
      ensures !Accepts(old(input), old(loading)) ==> sent.None? && messages == old(messages)
      ensures Accepts(old(input), old(loading)) ==>
        sent == Some(old(input)) && !loading && input == "" &&
        messages == old(messages) +
          [Message(User, old(input)), Message(Assistant, Reply(call, old(input), old(websiteInfo), answer))]
    {
      sent := BeginSend();
      if sent.Some? {
        FinishSend(call, answer);
      }
    }
  }
}
