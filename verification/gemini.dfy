/** The chat client (src/lib/gemini.ts): the prompt built from the stored
    company information, with a default for every missing field, and the
    reply picked from the API's answer, with a fixed apology whenever
    anything goes wrong. The HTTP exchange is an answer passed in. */
module Gemini {
  import opened Common
  import opened Text

  const DefaultCompany := "RwandaScratch"
  const DefaultDescription := "A tech company empowering African youth through technology and innovation"
  const DefaultServices := "Web Development, Mobile Apps, Training"
  const DefaultEmail := "hello@rwandascratch.com"
  const DefaultPhone := "+250 788 123 456"
  const DefaultAddress := "Kigali, Rwanda"

  const EmptyReply := "I apologize, but I cannot provide a response at the moment. Please try again later."
  const ErrorReply :=
    "I apologize, but I cannot provide a response at the moment. Please contact us directly at hello@rwandascratch.com for assistance."

  /** The `services` field: missing, an array, or some other value (on
      which `.join` throws). */
  datatype Services = NoServices | ServiceArray(items: seq<string>) | OtherServices

  datatype ContactInfo = ContactInfo(email: Option<string>, phone: Option<string>, address: Option<string>)

  /** The stored company information, any field possibly missing. */
  datatype SiteInfo = SiteInfo(
    companyName: Option<string>,
    description: Option<string>,
    services: Services,
    contact: Option<ContactInfo>)

  /** The six values the prompt shows. */
  datatype PromptFields = PromptFields(
    company: string, description: string, services: string, email: string, phone: string, address: string)

  /** What the API call gave: a thrown error (network or JSON), a response
      that is not OK, or the first candidate's text if there is one. */
  datatype Answer = Failed | NotOk | Ok(text: Option<string>)

  /** The prompt's values: each missing or empty one replaced by its
      default, the services array joined with ", ". `None` when reading
      the services throws. */
  function Fields(info: Option<SiteInfo>): (r: Option<PromptFields>)
    ensures r.None? <==> info.Some? && info.value.services.OtherServices?
    ensures info.None? ==>
      r == Some(PromptFields(DefaultCompany, DefaultDescription, DefaultServices,
                             DefaultEmail, DefaultPhone, DefaultAddress))
    ensures info.Some? && r.Some? ==>
      r.value.company == OrElse(info.value.companyName, DefaultCompany) &&
      r.value.description == OrElse(info.value.description, DefaultDescription)
    ensures info.Some? && info.value.services.ServiceArray? ==>
      r.value.services == OrElse(Some(Join(info.value.services.items, ", ")), DefaultServices)
    ensures info.Some? && info.value.services.NoServices? ==> r.value.services == DefaultServices
    ensures info.Some? && r.Some? && info.value.contact.None? ==>
      r.value.email == DefaultEmail && r.value.phone == DefaultPhone && r.value.address == DefaultAddress
    ensures info.Some? && r.Some? && info.value.contact.Some? ==>
      r.value.email == OrElse(info.value.contact.value.email, DefaultEmail) &&
      r.value.phone == OrElse(info.value.contact.value.phone, DefaultPhone) &&
      r.value.address == OrElse(info.value.contact.value.address, DefaultAddress)
  {
    match info
    case None =>
      Some(PromptFields(DefaultCompany, DefaultDescription, DefaultServices, DefaultEmail, DefaultPhone, DefaultAddress))
    case Some(i) =>
      if i.services.OtherServices? then None
      else
        var services := if i.services.ServiceArray? then OrElse(Some(Join(i.services.items, ", ")), DefaultServices)
                        else DefaultServices;
        var c := i.contact;
        Some(PromptFields(
          OrElse(i.companyName, DefaultCompany),
          OrElse(i.description, DefaultDescription),
          services,
          if c.Some? then OrElse(c.value.email, DefaultEmail) else DefaultEmail,
          if c.Some? then OrElse(c.value.phone, DefaultPhone) else DefaultPhone,
          if c.Some? then OrElse(c.value.address, DefaultAddress) else DefaultAddress))
  }

  /** Every value shown in the prompt is non-empty. */
  lemma FieldsNonEmpty(info: Option<SiteInfo>)
    requires Fields(info).Some?
    ensures var f := Fields(info).value;
      f.company != "" && f.description != "" && f.services != "" &&
      f.email != "" && f.phone != "" && f.address != ""
  {
  }

  /** The instructions between the company information and the user's message. */
  const Instructions :=
    "\n\nInstructions:\n- Respond based on the website information provided above\n"
    + "- Be helpful, professional, and friendly\n"
    + "- If asked about services or projects, refer to the information provided\n"
    + "- For specific inquiries, suggest contacting via the provided contact information\n"
    + "- Keep responses concise but informative\n"
    + "- Represent RwandaScratch's mission of empowering African youth through technology\n\n"

  /** `systemPrompt`: the company information, the instructions, then
      the user's message. */
  function Prompt(f: PromptFields, message: string): (r: string)
    ensures |Context(f)| <= |r| && r[..|Context(f)|] == Context(f)
    ensures |message| <= |r| && r[|r| - |message|..] == message
  {
    var c, u := Context(f), UserLine(message);
    assert (c + u)[..|c|] == c;
    assert (c + u)[|c + u| - |message|..] == u[|u| - |message|..];
    c + u
  }

  const Intro := "You are RS AI, a helpful assistant for RwandaScratch, a youth-led innovation company in Rwanda.\n\n"

  /** The prompt up to the user's message: the introduction first, the
      instructions last. */
  function Context(f: PromptFields): (r: string)
    ensures |Intro| + |Instructions| <= |r|
    ensures r[..|Intro|] == Intro && r[|r| - |Instructions|..] == Instructions
  {
    Intro + "Website Information:\nCompany: " + f.company + "\nDescription: " + f.description
    + "\nServices: " + f.services + "\nContact Email: " + f.email + "\nPhone: " + f.phone
    + "\nAddress: " + f.address + Instructions
  }

  /** The last line of the prompt: a fixed label, then the message as typed. */
  function UserLine(message: string): (r: string)
    ensures |r| == |message| + 14 && r[14..] == message
  {
    "User message: " + message
  }

  /** The prompt ends with "User message: " and the message as typed. */
  lemma {:induction false} PromptEndsWithMessage(f: PromptFields, message: string)
    ensures var p := Prompt(f, message);
      |p| >= |message| + 14 && p[|p| - |message| - 14..] == "User message: " + message
  {
    EndsWithUserLine(Context(f), message);
  }

  lemma {:induction false} EndsWithUserLine(a: string, message: string)
    ensures var p := a + UserLine(message);
      |p| >= |message| + 14 && p[|p| - |message| - 14..] == "User message: " + message
  {
    var b := UserLine(message);
    assert (a + b)[|a + b| - |b|..] == b;
  }

  /** The text the first candidate gave, or the "try again" apology when
      there is none or it is empty. */
  function ReplyOf(answer: Answer): (r: string)
    ensures answer.Ok? && answer.text.Some? && answer.text.value != "" ==> r == answer.text.value
    ensures answer.Ok? && (answer.text.None? || answer.text.value == "") ==> r == EmptyReply
    ensures !answer.Ok? ==> r == ErrorReply
  {
    match answer
    case Ok(text) => OrElse(text, EmptyReply)
    case _ => ErrorReply
  }

  /** `sendChatMessage`: the reply to `message`, where `answer` is what the
      API gave for the prompt. When building the prompt throws, no request
      is made and the contact-us apology is returned. */
  function SendChatMessage(message: string, info: Option<SiteInfo>, answer: Answer): (r: string)
    ensures Fields(info).None? ==> r == ErrorReply
    ensures Fields(info).Some? ==> r == ReplyOf(answer)
    ensures r != ""
  {
    if Fields(info).None? then ErrorReply else ReplyOf(answer)
  }
}
