/** The contact page (src/pages/Contact.tsx): a four-field form that is
    turned into a WhatsApp message and link. Opening the link is reported
    as the URL returned; `encodeURIComponent` is a function passed in. */
module ContactPage {
  import opened Common
  import opened Text

  datatype ContactForm = ContactForm(name: string, email: string, subject: string, message: string)

  datatype Field = Name | Email | Subject | Message

  const BlankForm := ContactForm("", "", "", "")
  const Header := "Message from RwandaScratch Contact Form"
  const LinkPrefix := "https://wa.me/250792734752?text="

  /** The validation: every field is a non-empty string. */
  function Valid(f: ContactForm): (ok: bool)
    ensures ok <==> f.name != [] && f.email != [] && f.subject != [] && f.message != []
  {
    f.name != "" && f.email != "" && f.subject != "" && f.message != ""
  }

  /** Fields of white space pass, since only emptiness is checked. */
  lemma BlankTextPasses()
    ensures Valid(ContactForm(" ", " ", " ", " "))
  {
  }

  /** The part of the message that `trim` never reaches: the header, then
      name, e-mail and subject in that order, up to "Message:". */
  function Lead(f: ContactForm): string {
    Header + "\n\n Name: " + f.name + "  \n Email: " + f.email + "  \n Subject: " + f.subject
    + "\n\nMessage:"
  }

  /** The template literal after its opening line break, blanks as written. */
  function Body(f: ContactForm): string {
    Lead(f) + " \n" + f.message + "\n    "
  }

  /** The template literal before `trim`. */
  function Template(f: ContactForm): string {
    "\n" + Body(f)
  }

  /** `whatsappMessage`: the template with white space trimmed from both
      ends. */
  function WhatsAppMessage(f: ContactForm): (r: string)
    ensures IsTrimmed(r) && |r| <= |Template(f)|
  {
    Trim(Template(f))
  }

  /** The message is the lead followed by the user's text with its
      trailing white space removed; a text of white space only leaves the
      lead alone. */
  lemma {:induction false} MessageShape(f: ContactForm)
    ensures !AllSpace(f.message) ==> WhatsAppMessage(f) == Lead(f) + " \n" + TrimEnd(f.message)
    ensures AllSpace(f.message) ==> WhatsAppMessage(f) == Lead(f)
  {
    TrimTemplate(f);
    if AllSpace(f.message) {
      BodyOfSpace(f);
    } else {
      BodyOfText(f);
    }
  }

  lemma {:induction false} BodyOfText(f: ContactForm)
    requires !AllSpace(f.message)
    ensures TrimEnd(Body(f)) == Lead(f) + " \n" + TrimEnd(f.message)
  {
    NotAllSpaceTrailing(f.message);
    assert AllSpace("\n    ");
    TrimEndAfterText(Lead(f) + " \n", f.message, "\n    ");
  }

  lemma {:induction false} BodyOfSpace(f: ContactForm)
    requires AllSpace(f.message)
    ensures TrimEnd(Body(f)) == Lead(f)
  {
    var t := " \n" + f.message + "\n    ";
    SpaceAround(" \n", f.message, "\n    ");
    assert Body(f) == Lead(f) + t;
    LeadEndsInText(f);
    TrimEndSpaceTail(Lead(f), t);
  }

  lemma {:induction false} SpaceAround(a: string, m: string, b: string)
    requires AllSpace(a) && AllSpace(m) && AllSpace(b)
    ensures AllSpace(a + m + b)
  {
    var t := a + m + b;
    forall i | 0 <= i < |t| ensures IsSpace(t[i]) {
      if i < |a| {
        assert t[i] == a[i];
      } else if i < |a| + |m| {
        assert t[i] == m[i - |a|];
      } else {
        assert t[i] == b[i - |a| - |m|];
      }
    }
  }

  /** `trim` on the template removes its opening line break and then
      acts as `trimEnd` on the rest. */
  lemma {:induction false} TrimTemplate(f: ContactForm)
    ensures WhatsAppMessage(f) == TrimEnd(Body(f))
  {
    var body := Body(f);
    assert AllSpace("\n");
    LeadingAfterSpace("\n", body);
    LeadStartsWithText(f);
    assert body[0] == Lead(f)[0];
    assert TrimStart("\n" + body) == body;
  }

  lemma {:induction false} LeadStartsWithText(f: ContactForm)
    ensures Lead(f) != [] && Lead(f)[0] == 'M'
  {
    var rest := "\n\n Name: " + f.name + "  \n Email: " + f.email + "  \n Subject: " + f.subject
      + "\n\nMessage:";
    assert Lead(f) == Header + rest;
    assert (Header + rest)[0] == Header[0];
  }

  lemma {:induction false} LeadEndsInText(f: ContactForm)
    ensures TrailingSpace(Lead(f)) == 0
  {
    var lead := Lead(f);
    assert lead[|lead| - 1] == ':';
  }

  /** The message always starts with the header and holds name, e-mail
      and subject in that order. */
  lemma MessageStartsWithLead(f: ContactForm)
    ensures Lead(f) <= WhatsAppMessage(f)
  {
    MessageShape(f);
  }

  /** The WhatsApp link for an encoded message. */
  function Link(encode: string -> string, message: string): (url: string)
    ensures LinkPrefix <= url && url[|LinkPrefix|..] == encode(message)
  {
    LinkPrefix + encode(message)
  }

  /** With an injective encoding, different messages give different links. */
  lemma LinkInjective(encode: string -> string, m1: string, m2: string)
    requires forall a, b :: encode(a) == encode(b) ==> a == b
    requires Link(encode, m1) == Link(encode, m2)
    ensures m1 == m2
  {
    assert Link(encode, m1)[|LinkPrefix|..] == Link(encode, m2)[|LinkPrefix|..];
  }

  /** `handleInputChange` for one named field. */
  function Update(f: ContactForm, field: Field, value: string): (g: ContactForm)
    ensures field == Name ==> g == f.(name := value)
    ensures field == Email ==> g == f.(email := value)
    ensures field == Subject ==> g == f.(subject := value)
    ensures field == Message ==> g == f.(message := value)
  {
    match field
    case Name => f.(name := value)
    case Email => f.(email := value)
    case Subject => f.(subject := value)
    case Message => f.(message := value)
  }

  class ContactPage {
    var form: ContactForm
    var sending: bool

    constructor()
      ensures form == BlankForm && !sending
    {
      form, sending := BlankForm, false;
    }

    method HandleInputChange(field: Field, value: string)
      modifies this`form
      ensures form == Update(old(form), field, value)
    {
      form := Update(form, field, value);
    }

    /** `handleSendToWhatsApp`: an incomplete form opens nothing and is
        kept; a complete one opens the link of its message, and the form
        is cleared with `sending` back to false. */
    method HandleSend(encode: string -> string) returns (url: Option<string>)
      modifies this
      ensures !Valid(old(form)) ==> url.None? && form == old(form) && sending == old(sending)
      ensures Valid(old(form)) ==>
        url == Some(Link(encode, WhatsAppMessage(old(form)))) && form == BlankForm && !sending
    {
      if !Valid(form) {
        return None;
      }
      sending := true;
      url := Some(Link(encode, WhatsAppMessage(form)));
      form := BlankForm;
      sending := false;
    }
  }
}
