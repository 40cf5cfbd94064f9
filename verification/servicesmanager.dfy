/** The services editor (src/components/admin/ServicesManager.tsx): the
    new-service form, its guarded add with the features list parsed, and
    the guarded update and delete. Firestore writes are outcomes passed in;
    the write is returned so its content can be stated; timestamps are
    left out. */
module ServicesAdmin {
  import opened Common
  import opened Text
  import Auth

  /** The "Add New Service" form; `features` holds the text the user typed. */
  datatype ServiceForm = ServiceForm(
    title: string,
    description: string,
    price: string,
    features: string,
    isActive: bool,
    popular: bool)

  /** The document `handleAddService` adds. */
  datatype ServiceRecord = ServiceRecord(
    title: string,
    description: string,
    price: string,
    features: seq<string>,
    isActive: bool,
    popular: bool,
    createdBy: string)

  /** A partial update: the fields given in `updates`, the others absent. */
  datatype ServicePatch = ServicePatch(
    title: Option<string>,
    description: Option<string>,
    price: Option<string>,
    features: Option<seq<string>>,
    isActive: Option<bool>,
    popular: Option<bool>)

  /** The `updateDoc` call: document id, the patch, and the editor's uid. */
  datatype UpdateWrite = UpdateWrite(id: string, patch: ServicePatch, updatedBy: string)

  /** The form's initial and reset value: empty text, active, not popular. */
  const BlankForm := ServiceForm("", "", "", "", true, false)

  /** The guard of `handleAddService`: a signed-in profile and a title
      that is not blank once trimmed. */
  function AddAccepted(user: Option<Auth.UserData>, title: string): (ok: bool)
    ensures ok <==> user.Some? && !AllSpace(title)
  {
    TrimEmptyIffSpace(title);
    user.Some? && Trim(title) != ""
  }

  /** The document written: the form with `features` parsed into clean
      items, plus the author's uid. */
  function ToRecord(f: ServiceForm, uid: string): (r: ServiceRecord)
    ensures r.features == ParseList(f.features)
    ensures forall i :: 0 <= i < |r.features| ==> IsCleanItem(r.features[i])
    ensures r.title == f.title && r.description == f.description && r.price == f.price
    ensures r.isActive == f.isActive && r.popular == f.popular && r.createdBy == uid
  {
    ParseListClean(f.features);
    ServiceRecord(f.title, f.description, f.price, ParseList(f.features), f.isActive, f.popular, uid)
  }

  class ServicesManager {
    var newService: ServiceForm
    var editingId: Option<string>

    constructor()
      ensures newService == BlankForm && editingId.None?
    {
      newService, editingId := BlankForm, None;
    }

    /** `handleAddService`: when the guard refuses nothing is written and
        nothing changes. Otherwise the record is written; when the write
        resolves the form is reset, when it throws the form is kept. */
    method HandleAdd(user: Option<Auth.UserData>, outcome: Outcome) returns (written: Option<ServiceRecord>)
      modifies this`newService
      ensures !AddAccepted(user, old(newService.title)) ==> written.None? && newService == old(newService)
      ensures AddAccepted(user, old(newService.title)) ==>
        written == Some(ToRecord(old(newService), user.value.uid))
      ensures AddAccepted(user, old(newService.title)) && outcome == Resolved ==> newService == BlankForm
      ensures outcome == Threw ==> newService == old(newService)
    {
      if !AddAccepted(user, newService.title) {
        return None;
      }
      written := Some(ToRecord(newService, user.value.uid));
      if outcome == Resolved {
        newService := BlankForm;
      }
    }

    /** `handleUpdateService`: without a profile nothing is written;
        otherwise the patch is written with the editor's uid, and editing
        ends only when the write resolves. */
    method HandleUpdate(user: Option<Auth.UserData>, id: string, patch: ServicePatch, outcome: Outcome)
      returns (written: Option<UpdateWrite>)
      modifies this`editingId
      ensures user.None? ==> written.None? && editingId == old(editingId)
      ensures user.Some? ==> written == Some(UpdateWrite(id, patch, user.value.uid))
      ensures user.Some? && outcome == Resolved ==> editingId.None?
      ensures outcome == Threw ==> editingId == old(editingId)
    {
      if user.None? {
        return None;
      }
      written := Some(UpdateWrite(id, patch, user.value.uid));
      if outcome == Resolved {
        editingId := None;
      }
    }
  }

  /** `handleDeleteService`: the id of the document deleted, or nothing
      without a profile. The editor's state is not touched. */
  function DeleteTarget(user: Option<Auth.UserData>, id: string): (deleted: Option<string>)
    ensures deleted.Some? <==> user.Some?
    ensures deleted.Some? ==> deleted.value == id
  {
    if user.None? then None else Some(id)
  }
}
