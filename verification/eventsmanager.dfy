/** The events editor (src/components/admin/EventsManager.tsx): a form
    whose comma-separated authors are parsed into a list on submit, filled
    back from an event on edit (the date cut down to its day), and cleared
    on reset. The REST call is an outcome passed in. */
module EventsAdmin {
  import opened Common
  import opened Text

  /** The dialog's form; `authors` holds the text the user typed. */
  datatype EventForm = EventForm(
    name: string,
    description: string,
    image: string,
    date: string,
    location: string,
    authors: string)

  /** An event as the API returns it. */
  datatype Event = Event(
    id: int,
    name: string,
    description: string,
    image: Option<string>,
    date: string,
    location: string,
    authors: seq<string>)

  /** The body sent to the API. */
  datatype EventData = EventData(
    name: string,
    description: string,
    image: string,
    date: string,
    location: string,
    authors: seq<string>)

  datatype Request = Create(data: EventData) | Update(id: int, data: EventData)

  const EmptyForm := EventForm("", "", "", "", "", "")

  /** `eventData` in `handleSubmit`: the form with `authors` parsed into
      clean items. */
  function ToEventData(f: EventForm): (d: EventData)
    ensures d.authors == ParseList(f.authors)
    ensures forall i :: 0 <= i < |d.authors| ==> IsCleanItem(d.authors[i])
    ensures d.name == f.name && d.description == f.description && d.image == f.image
    ensures d.date == f.date && d.location == f.location
  {
    ParseListClean(f.authors);
    EventData(f.name, f.description, f.image, f.date, f.location, ParseList(f.authors))
  }

  /** `date.split('T')[0]`: the day part of an ISO timestamp, a prefix of
      the date without a `T`. */
  function DatePart(date: string): (r: string)
    ensures |r| <= |date| && r == date[..|r|]
    ensures 'T' !in r
  {
    SplitHead(date, 'T');
    SplitSpec(date, 'T');
    Split(date, 'T')[0]
  }

  /** The day part is the prefix of the date before its first `T`, all of
      the date when it has none, and never holds a `T` itself, so cutting
      twice is cutting once. */
  lemma DatePartSpec(date: string)
    ensures DatePart(date) == date[..|DatePart(date)|]
    ensures 'T' !in DatePart(date)
    ensures 'T' in date ==> date[|DatePart(date)|] == 'T'
    ensures 'T' !in date ==> DatePart(date) == date
    ensures DatePart(DatePart(date)) == DatePart(date)
  {
    SplitHead(date, 'T');
    SplitSpec(date, 'T');
    SplitHead(DatePart(date), 'T');
  }

  /** The form `handleEdit` fills from an event: missing image as "",
      the day part of the date, authors joined with ", ". */
  function EditForm(e: Event): (f: EventForm)
    ensures f.image == OrElse(e.image, "")
    ensures f.date == DatePart(e.date) && f.authors == Join(e.authors, ", ")
    ensures f.name == e.name && f.description == e.description && f.location == e.location
  {
    EventForm(e.name, e.description, OrElse(e.image, ""), DatePart(e.date), e.location, Join(e.authors, ", "))
  }

  /** Opening an event with clean authors for edit and submitting it
      unchanged sends back the same authors, and a date with no time part. */
  lemma EditThenSubmit(e: Event)
    requires forall i :: 0 <= i < |e.authors| ==> IsCleanItem(e.authors[i])
    ensures ToEventData(EditForm(e)).authors == e.authors
    ensures 'T' !in ToEventData(EditForm(e)).date
    ensures 'T' !in e.date ==> ToEventData(EditForm(e)).date == e.date
  {
    ParseJoin(e.authors);
    DatePartSpec(e.date);
  }

  /** Update with the edited event's id exactly when one is being edited,
      otherwise create. */
  function SubmitRequest(editing: Option<Event>, f: EventForm): (r: Request)
    ensures r.Update? <==> editing.Some?
    ensures r.Update? ==> r.id == editing.value.id
    ensures r.data == ToEventData(f)
  {
    if editing.Some? then Update(editing.value.id, ToEventData(f)) else Create(ToEventData(f))
  }

  class EventsManager {
    var form: EventForm
    var editing: Option<Event>
    var dialogOpen: bool

    constructor()
      ensures form == EmptyForm && editing.None? && !dialogOpen
    {
      form, editing, dialogOpen := EmptyForm, None, false;
    }

    /** `resetForm`: all six fields empty, nothing being edited. */
    method ResetForm()
      modifies this`form, this`editing
      ensures form == EmptyForm && editing.None?
    {
      form := EmptyForm;
      editing := None;
    }

    /** `handleEdit`. */
    method HandleEdit(e: Event)
      modifies this
      ensures editing == Some(e) && form == EditForm(e) && dialogOpen
    {
      editing := Some(e);
      form := EditForm(e);
      dialogOpen := true;
    }

    /** `handleSubmit`: sends the request; when it resolves the form is
        reset and the dialog closed, when it throws everything is kept. */
    method HandleSubmit(outcome: Outcome) returns (sent: Request)
      modifies this
      ensures sent == SubmitRequest(old(editing), old(form))
      ensures outcome == Resolved ==> form == EmptyForm && editing.None? && !dialogOpen
      ensures outcome == Threw ==>
        form == old(form) && editing == old(editing) && dialogOpen == old(dialogOpen)
    {
      sent := SubmitRequest(editing, form);
      if outcome == Resolved {
        ResetForm();
        dialogOpen := false;
      }
    }
  }
}
