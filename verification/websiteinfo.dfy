/** The company-information editor
    (src/components/admin/WebsiteInfoManager.tsx): the `website_info/main`
    document is loaded into a flat form and saved back with the services
    parsed into a list and the contact fields nested. Firestore reads and
    writes are outcomes passed in. */
module WebsiteInfo {
  import opened Common
  import opened Text
  import Auth

  /** The editor's flat form; `services` holds comma-separated text. */
  datatype InfoForm = InfoForm(
    companyName: string,
    description: string,
    services: string,
    email: string,
    phone: string,
    address: string)

  /** The `services` field of a stored document: an array, or anything else. */
  datatype StoredServices = ServiceList(items: seq<string>) | NotAList

  datatype ContactDoc = ContactDoc(email: Option<string>, phone: Option<string>, address: Option<string>)

  /** The stored document as read, any field possibly missing. */
  datatype InfoDoc = InfoDoc(
    companyName: Option<string>,
    description: Option<string>,
    services: StoredServices,
    contact: Option<ContactDoc>)

  /** What `getDoc` gave. */
  datatype Fetch = FetchFailed | Absent | Present(doc: InfoDoc)

  datatype Contact = Contact(email: string, phone: string, address: string)

  /** The document `handleSave` writes; the timestamp is left out. */
  datatype SavedDoc = SavedDoc(
    companyName: string,
    description: string,
    services: seq<string>,
    contact: Contact,
    updatedBy: string)

  const BlankForm := InfoForm("", "", "", "", "", "")

  /** The form filled from a stored document: missing fields become "",
      an array of services is joined with ", " and anything else gives "". */
  function FromDoc(d: InfoDoc): (f: InfoForm)
    ensures f.companyName == OrElse(d.companyName, "") && f.description == OrElse(d.description, "")
    ensures d.services.ServiceList? ==> f.services == Join(d.services.items, ", ")
    ensures d.services.NotAList? ==> f.services == ""
    ensures d.contact.None? ==> f.email == "" && f.phone == "" && f.address == ""
    ensures d.contact.Some? ==>
      f.email == OrElse(d.contact.value.email, "") && f.phone == OrElse(d.contact.value.phone, "") &&
      f.address == OrElse(d.contact.value.address, "")
  {
    var services := if d.services.ServiceList? then Join(d.services.items, ", ") else "";
    match d.contact
    case None => InfoForm(OrElse(d.companyName, ""), OrElse(d.description, ""), services, "", "", "")
    case Some(c) =>
      InfoForm(OrElse(d.companyName, ""), OrElse(d.description, ""), services,
               OrElse(c.email, ""), OrElse(c.phone, ""), OrElse(c.address, ""))
  }

  /** The document written from the form: services parsed into clean
      items, the three contact fields nested, the editor's uid. */
  function ToDoc(f: InfoForm, uid: string): (d: SavedDoc)
    ensures d.services == ParseList(f.services)
    ensures forall i :: 0 <= i < |d.services| ==> IsCleanItem(d.services[i])
    ensures d.contact == Contact(f.email, f.phone, f.address)
    ensures d.companyName == f.companyName && d.description == f.description && d.updatedBy == uid
  {
    ParseListClean(f.services);
    SavedDoc(f.companyName, f.description, ParseList(f.services), Contact(f.email, f.phone, f.address), uid)
  }

  /** The written document as a later read sees it. */
  function Stored(s: SavedDoc): InfoDoc {
    InfoDoc(Some(s.companyName), Some(s.description), ServiceList(s.services),
            Some(ContactDoc(Some(s.contact.email), Some(s.contact.phone), Some(s.contact.address))))
  }

  /** Loading a document and saving it unedited keeps its name, description
      and contact fields (missing ones as ""), and a services list of clean
      items; any other services value is saved as the empty list. */
  lemma LoadThenSave(d: InfoDoc, uid: string)
    requires d.services.ServiceList? ==>
      forall i :: 0 <= i < |d.services.items| ==> IsCleanItem(d.services.items[i])
    ensures ToDoc(FromDoc(d), uid).companyName == OrElse(d.companyName, "")
    ensures ToDoc(FromDoc(d), uid).description == OrElse(d.description, "")
    ensures d.services.ServiceList? ==> ToDoc(FromDoc(d), uid).services == d.services.items
    ensures d.services.NotAList? ==> ToDoc(FromDoc(d), uid).services == []
    ensures d.contact.Some? ==>
      ToDoc(FromDoc(d), uid).contact ==
        Contact(OrElse(d.contact.value.email, ""), OrElse(d.contact.value.phone, ""),
                OrElse(d.contact.value.address, ""))
  {
    if d.services.ServiceList? {
      ParseJoin(d.services.items);
    } else {
      ParseJoin([]);
    }
  }

  /** Saving a form and loading it again gives the form back, except that
      the services text comes back normalised to its parsed items joined
      with ", ". */
  lemma SaveThenLoad(f: InfoForm, uid: string)
    ensures FromDoc(Stored(ToDoc(f, uid))) == f.(services := Join(ParseList(f.services), ", "))
  {
  }

  class WebsiteInfoManager {
    var info: InfoForm
    var loading: bool
    var saving: bool

    constructor()
      ensures info == BlankForm && loading && !saving
    {
      info, loading, saving := BlankForm, true, false;
    }

    /** `fetchWebsiteInfo`: a present document fills the form; an absent
        one or a failed read leaves it as it was. Loading ends either way. */
    method FetchInfo(fetch: Fetch)
      modifies this`info, this`loading
      ensures fetch.Present? ==> info == FromDoc(fetch.doc)
      ensures !fetch.Present? ==> info == old(info)
      ensures !loading
    {
      if fetch.Present? {
        info := FromDoc(fetch.doc);
      }
      loading := false;
    }

    /** `handleSave`: without a profile nothing is written and nothing
        changes; otherwise the document is written, and `saving` is false
        afterwards whether the write resolved or threw. The form is kept. */
    method HandleSave(user: Option<Auth.UserData>) returns (written: Option<SavedDoc>)
      modifies this`saving
      ensures user.None? ==> written.None? && saving == old(saving)
      ensures user.Some? ==> written == Some(ToDoc(info, user.value.uid)) && !saving
    {
      if user.None? {
        return None;
      }
      saving := true;
      written := Some(ToDoc(info, user.value.uid));
      saving := false;
    }
  }
}
