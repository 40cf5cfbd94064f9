/** The blog editor (src/components/admin/BlogManager.tsx): the post form
    with its title guard, the tags field (parsed as typed, shown joined),
    the read-time field (`parseInt(value) || 5`), edit, reset and the
    update-or-create submit. The REST calls are outcomes passed in. */
module BlogAdmin {
  import opened Common
  import opened Text
  import Api

  datatype BlogForm = BlogForm(
    title: string,
    excerpt: string,
    content: string,
    author: string,
    category: string,
    tags: seq<string>,
    imageUrl: string,
    published: bool,
    readTime: int)

  /** A post as the API returns it; timestamps are left out. */
  datatype BlogPost = BlogPost(
    id: string,
    title: string,
    excerpt: string,
    content: string,
    author: string,
    category: string,
    tags: seq<string>,
    imageUrl: string,
    published: bool,
    readTime: int)

  datatype Request = Create(data: BlogForm) | Update(id: string, data: BlogForm)

  const DefaultReadTime := 5

  const BlankForm := BlogForm("", "", "", "", "", [], "", false, DefaultReadTime)

  /** The guard of `handleSubmit`: the title is not blank once trimmed. */
  function TitleAccepted(title: string): (ok: bool)
    ensures ok <==> !AllSpace(title)
  {
    TrimEmptyIffSpace(title);
    Trim(title) != ""
  }

  /** The tags field shows the list joined with ", ": blank for no tags,
      otherwise starting with the first tag. */
  function TagsDisplay(tags: seq<string>): (r: string)
    ensures tags == [] ==> r == ""
    ensures tags != [] ==> |tags[0]| <= |r| && r[..|tags[0]|] == tags[0]
  {
    Join(tags, ", ")
  }

  /** What typing `text` into the tags field stores: clean items. */
  function TagsInput(text: string): (tags: seq<string>)
    ensures forall i :: 0 <= i < |tags| ==> IsCleanItem(tags[i])
  {
    ParseListClean(text);
    ParseList(text)
  }

  /** The field shows clean tags in a form that parses back to them. */
  lemma TagsRoundTrip(tags: seq<string>)
    requires forall i :: 0 <= i < |tags| ==> IsCleanItem(tags[i])
    ensures TagsInput(TagsDisplay(tags)) == tags
  {
    ParseJoin(tags);
  }

  /** Re-reading what the field shows after an edit changes nothing: the
      field's normalisation is idempotent. */
  lemma TagsInputStable(text: string)
    ensures TagsInput(TagsDisplay(TagsInput(text))) == TagsInput(text)
  {
    TagsRoundTrip(TagsInput(text));
  }

  /** The field re-parses on every keystroke and shows the parse joined
      again, so a comma typed after the last tag disappears at once:
      a further tag cannot be started by typing. */
  lemma TagsCommaErased(tags: seq<string>)
    requires forall i :: 0 <= i < |tags| ==> IsCleanItem(tags[i])
    ensures TagsInput(TagsDisplay(tags) + ",") == tags
    ensures TagsDisplay(TagsInput(TagsDisplay(tags) + ",")) == TagsDisplay(tags)
  {
    ParseTrailingComma(TagsDisplay(tags));
    TagsRoundTrip(tags);
  }

  predicate IsDigit(c: char) {
    '0' <= c <= '9'
  }

  /** How many decimal digits `s` starts with. */
  function LeadingDigits(s: string): (n: nat)
    ensures n <= |s|
    ensures forall i :: 0 <= i < n ==> IsDigit(s[i])
  {
    if s != [] && IsDigit(s[0]) then 1 + LeadingDigits(s[1..]) else 0
  }

  /** The value of a string of decimal digits. */
  function DigitsValue(d: string): (v: nat)
    requires forall i :: 0 <= i < |d| ==> IsDigit(d[i])
  {
    if d == [] then 0
    else
      assert IsDigit(d[|d| - 1]);
      DigitsValue(d[..|d| - 1]) * 10 + (d[|d| - 1] as int - '0' as int)
  }

  /** `parseInt(s)` in base 10: leading white space skipped, an optional
      sign, then the longest run of digits; `None` stands for NaN. */
  function ParseInt(s: string): (r: Option<int>)
    ensures r.None? <==> LeadingDigits(Unsigned(TrimStart(s))) == 0
  {
    var t := TrimStart(s);
    var body := Unsigned(t);
    var k := LeadingDigits(body);
    if k == 0 then None
    else
      var v: int := DigitsValue(body[..k]);
      Some(if t != [] && t[0] == '-' then -v else v)
  }

  /** The text after an optional leading sign. */
  function Unsigned(t: string): string {
    if t != [] && (t[0] == '-' || t[0] == '+') then t[1..] else t
  }

  /** White space before the number does not change what `parseInt` reads. */
  lemma ParseIntAfterSpace(lead: string, s: string)
    requires AllSpace(lead)
    ensures ParseInt(lead + s) == ParseInt(s)
  {
    LeadingAfterSpace(lead, s);
    assert TrimStart(lead + s) == TrimStart(s);
  }

  /** The decimal numeral of `n`, as a number input shows it. */
  function NatToString(n: nat): (s: string)
    ensures s != [] && forall i :: 0 <= i < |s| ==> IsDigit(s[i])
  {
    if n < 10 then [('0' as int + n) as char]
    else NatToString(n / 10) + [('0' as int + n % 10) as char]
  }

  lemma {:induction false} NatToStringValue(n: nat)
    ensures DigitsValue(NatToString(n)) == n
  {
    var s := NatToString(n);
    if n >= 10 {
      NatToStringValue(n / 10);
      assert s[..|s| - 1] == NatToString(n / 10);
    }
  }

  lemma {:induction false} AllDigitsLeading(s: string)
    requires forall i :: 0 <= i < |s| ==> IsDigit(s[i])
    ensures LeadingDigits(s) == |s|
  {
    if s != [] {
      assert forall i :: 0 <= i < |s| - 1 ==> s[1..][i] == s[i + 1];
      AllDigitsLeading(s[1..]);
    }
  }

  /** `parseInt` reads a numeral back as its value. */
  lemma ParseIntNumeral(n: nat)
    ensures ParseInt(NatToString(n)) == Some(n)
  {
    var s := NatToString(n);
    assert !IsSpace(s[0]);
    assert LeadingSpace(s) == 0;
    assert TrimStart(s) == s;
    assert Unsigned(s) == s;
    AllDigitsLeading(s);
    assert s[..|s|] == s;
    NatToStringValue(n);
  }

  /** The digit run ends where the first non-digit begins. */
  lemma {:induction false} DigitsThenStop(d: string, t: string)
    requires forall i :: 0 <= i < |d| ==> IsDigit(d[i])
    requires t == [] || !IsDigit(t[0])
    ensures LeadingDigits(d + t) == |d|
  {
    if d != [] {
      assert (d + t)[1..] == d[1..] + t;
      DigitsThenStop(d[1..], t);
    }
  }

  /** `parseInt` stops at the first non-digit after a numeral: "1.5" and
      "1e3" are both read as 1. */
  lemma ParseIntStopsAtNonDigit(n: nat, t: string)
    requires t == [] || !IsDigit(t[0])
    ensures ParseInt(NatToString(n) + t) == Some(n)
  {
    var d := NatToString(n);
    var s := d + t;
    assert s[0] == d[0] && !IsSpace(s[0]);
    assert TrimStart(s) == s;
    assert Unsigned(s) == s;
    DigitsThenStop(d, t);
    assert s[..|d|] == d;
    NatToStringValue(n);
  }

  /** A leading '-' negates the numeral that follows it, up to the first
      non-digit. */
  lemma ParseIntNegative(n: nat, t: string)
    requires t == [] || !IsDigit(t[0])
    ensures ParseInt("-" + NatToString(n) + t) == Some(-(n as int))
  {
    var d := NatToString(n);
    var s := "-" + d + t;
    assert !IsSpace(s[0]);
    assert TrimStart(s) == s;
    assert Unsigned(s) == d + t;
    DigitsThenStop(d, t);
    assert (d + t)[..|d|] == d;
    NatToStringValue(n);
  }

  /** A negative number typed into the field is stored as that negative
      read time, and "-0" falls back to 5. */
  lemma ReadTimeOfNegative(n: nat)
    ensures n > 0 ==> ReadTimeOf("-" + NatToString(n)) == -(n as int)
    ensures n == 0 ==> ReadTimeOf("-" + NatToString(n)) == DefaultReadTime
  {
    ParseIntNegative(n, "");
    assert "-" + NatToString(n) + "" == "-" + NatToString(n);
  }

  /** A decimal such as "2.5" is stored as its integer part when that is
      positive. */
  lemma ReadTimeOfDecimal(n: nat, frac: string)
    requires n > 0
    ensures ReadTimeOf(NatToString(n) + "." + frac) == n
  {
    ParseIntStopsAtNonDigit(n, "." + frac);
    assert NatToString(n) + "." + frac == NatToString(n) + ("." + frac);
  }

  /** `parseInt(value) || 5`: NaN and zero fall back to 5, any other
      number is kept, so the read time is never 0. */
  function ReadTimeOf(value: string): (r: int)
    ensures r != 0
    ensures ParseInt(value).Some? && ParseInt(value).value != 0 ==> r == ParseInt(value).value
    ensures ParseInt(value).None? || ParseInt(value).value == 0 ==> r == DefaultReadTime
  {
    match ParseInt(value)
    case None => DefaultReadTime
    case Some(n) => if n == 0 then DefaultReadTime else n
  }

  /** A positive read time typed into the field is stored as is. */
  lemma ReadTimeOfNumeral(n: nat)
    requires n > 0
    ensures ReadTimeOf(NatToString(n)) == n
  {
    ParseIntNumeral(n);
  }

  /** The form `handleEdit` fills from a post: all nine fields copied. */
  function EditForm(p: BlogPost): (f: BlogForm)
    ensures f.title == p.title && f.excerpt == p.excerpt && f.content == p.content
    ensures f.author == p.author && f.category == p.category && f.tags == p.tags
    ensures f.imageUrl == p.imageUrl && f.published == p.published && f.readTime == p.readTime
  {
    BlogForm(p.title, p.excerpt, p.content, p.author, p.category, p.tags, p.imageUrl, p.published, p.readTime)
  }

  /** Update the selected post exactly when editing one, otherwise create. */
  function SubmitRequest(isEditing: bool, selected: Option<BlogPost>, f: BlogForm): (r: Request)
    ensures r.Update? <==> isEditing && selected.Some?
    ensures r.Update? ==> r.id == selected.value.id
    ensures r.data == f
  {
    if isEditing && selected.Some? then Update(selected.value.id, f) else Create(f)
  }

  /** The client method `handleSubmit` calls on the API's default export. */
  function SubmitMethod(isEditing: bool, selected: Option<BlogPost>): (name: string)
    ensures name == "updateBlogPost" <==> isEditing && selected.Some?
    ensures name == "createBlogPost" <==> !(isEditing && selected.Some?)
  {
    if isEditing && selected.Some? then "updateBlogPost" else "createBlogPost"
  }

  /** The submit call as written: neither method exists on the default
      export, so it throws whatever the server would have answered. */
  function SubmitCallAsWritten(isEditing: bool, selected: Option<BlogPost>, server: Outcome): (r: Outcome)
    ensures r == Threw
  {
    Api.EditorCallsMissing();
    Api.Invoke(SubmitMethod(isEditing, selected), server)
  }

  class BlogManager {
    var form: BlogForm
    var isEditing: bool
    var selectedPost: Option<BlogPost>

    constructor()
      ensures form == BlankForm && !isEditing && selectedPost.None?
    {
      form, isEditing, selectedPost := BlankForm, false, None;
    }

    /** `resetForm`: empty fields, no tags, unpublished, read time 5, not
        editing and no post selected. */
    method ResetForm()
      modifies this
      ensures form == BlankForm && !isEditing && selectedPost.None?
    {
      form := BlankForm;
      isEditing := false;
      selectedPost := None;
    }

    /** `handleEdit`. */
    method HandleEdit(p: BlogPost)
      modifies this
      ensures selectedPost == Some(p) && form == EditForm(p) && isEditing
    {
      selectedPost := Some(p);
      form := EditForm(p);
      isEditing := true;
    }

    /** The tags field's change handler. */
    method TypeTags(text: string)
      modifies this`form
      ensures form == old(form).(tags := TagsInput(text))
    {
      form := form.(tags := TagsInput(text));
    }

    /** The read-time field's change handler. */
    method TypeReadTime(value: string)
      modifies this`form
      ensures form == old(form).(readTime := ReadTimeOf(value))
    {
      form := form.(readTime := ReadTimeOf(value));
    }

    /** `handleSubmit`: a blank title sends nothing and changes nothing.
        Otherwise the request is sent; when it resolves the form is reset,
        when it throws everything is kept. */
    method HandleSubmit(outcome: Outcome) returns (sent: Option<Request>)
      modifies this
      ensures !TitleAccepted(old(form.title)) ==>
        sent.None? && form == old(form) && isEditing == old(isEditing) && selectedPost == old(selectedPost)
      ensures TitleAccepted(old(form.title)) ==>
        sent == Some(SubmitRequest(old(isEditing), old(selectedPost), old(form)))
      ensures TitleAccepted(old(form.title)) && outcome == Resolved ==>
        form == BlankForm && !isEditing && selectedPost.None?
      ensures outcome == Threw ==>
        form == old(form) && isEditing == old(isEditing) && selectedPost == old(selectedPost)
    {
      if !TitleAccepted(form.title) {
        return None;
      }
      sent := Some(SubmitRequest(isEditing, selectedPost, form));
      if outcome == Resolved {
        ResetForm();
      }
    }

    /** `handleSubmit` as written: a blank title makes no call; any other
        submit calls a method the default export lacks, which throws, so
        the form is never reset and the editor state never changes. */
    method HandleSubmitAsWritten(server: Outcome) returns (call: Option<Outcome>)
      modifies this
      ensures !TitleAccepted(old(form.title)) ==> call.None?
      ensures TitleAccepted(old(form.title)) ==> call == Some(Threw)
      ensures form == old(form) && isEditing == old(isEditing) && selectedPost == old(selectedPost)
    {
      if !TitleAccepted(form.title) {
        return None;
      }
      var outcome := SubmitCallAsWritten(isEditing, selectedPost, server);
      var request := HandleSubmit(outcome);
      call := Some(outcome);
    }
  }
}
