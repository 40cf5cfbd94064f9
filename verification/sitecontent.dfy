/** The site-content editor (src/components/admin/SiteContentManager.tsx):
    a list of content sections, the id of the section being edited, and
    the save and create handlers. Store writes are outcomes passed in;
    `updatedAt` timestamps are left out. */
module SiteContent {
  import opened Common
  import Auth

  datatype Section = Section(
    id: string,
    section: string,
    title: string,
    subtitle: Option<string>,
    description: string,
    imageUrl: Option<string>,
    isActive: bool,
    updatedBy: string)

  /** `prev.map(s => s.id === section.id ? section : s)`. */
  function ReplaceById(sections: seq<Section>, saved: Section): (r: seq<Section>)
    ensures |r| == |sections|
    ensures forall i :: 0 <= i < |r| && sections[i].id != saved.id ==> r[i] == sections[i]
    ensures forall i :: 0 <= i < |r| && sections[i].id == saved.id ==> r[i] == saved
  {
    if sections == [] then []
    else [if sections[0].id == saved.id then saved else sections[0]] + ReplaceById(sections[1..], saved)
  }

  /** When no section carries the saved id, the list is unchanged. */
  lemma ReplaceAbsent(sections: seq<Section>, saved: Section)
    requires forall i :: 0 <= i < |sections| ==> sections[i].id != saved.id
    ensures ReplaceById(sections, saved) == sections
  {
  }

  /** The ids, and so the order of sections, never change. */
  lemma ReplaceKeepsIds(sections: seq<Section>, saved: Section)
    ensures forall i :: 0 <= i < |sections| ==> ReplaceById(sections, saved)[i].id == sections[i].id
  {
  }

  /** Saving the same section twice is the same as saving it once. */
  lemma ReplaceIdempotent(sections: seq<Section>, saved: Section)
    ensures ReplaceById(ReplaceById(sections, saved), saved) == ReplaceById(sections, saved)
  {
    var once := ReplaceById(sections, saved);
    ReplaceKeepsIds(sections, saved);
    assert ReplaceById(once, saved) == once;
  }

  /** The record `handleSave` writes: the section with the editor's uid. */
  function SaveRecord(section: Section, uid: string): (r: Section)
    ensures r.updatedBy == uid && r.(updatedBy := section.updatedBy) == section
  {
    section.(updatedBy := uid)
  }

  /** The section `handleCreateSection` adds under the id the store gave. */
  function NewSection(id: string, uid: string): (s: Section)
    ensures s.id == id && s.updatedBy == uid && s.isActive
    ensures s.section == "new_section" && s.title == "New Section"
    ensures s.description == "Description for new section"
    ensures s.subtitle == Some("") && s.imageUrl == Some("")
  {
    Section(id, "new_section", "New Section", Some(""), "Description for new section", Some(""), true, uid)
  }

  class SiteContentManager {
    var sections: seq<Section>
    var editing: Option<string>
    var loading: bool
    var saving: bool

    constructor()
      ensures sections == [] && editing.None? && loading && !saving
    {
      sections, editing, loading, saving := [], None, true, false;
    }

    /** `fetchContent`: the fetched list, if the query succeeded, replaces
        the local one; loading ends either way. */
    method FetchContent(fetched: Option<seq<Section>>)
      modifies this`sections, this`loading
      ensures sections == (if fetched.Some? then fetched.value else old(sections))
      ensures !loading
    {
      if fetched.Some? {
        sections := fetched.value;
      }
      loading := false;
    }

    /** `handleSave`: without a profile nothing happens and nothing is
        written. Otherwise the section is written with the editor's uid;
        when the write resolves, the local list takes the section by id
        and editing ends; when it throws, the list and the editing id are
        kept. `saving` is false afterwards in every case. */
    method HandleSave(user: Option<Auth.UserData>, section: Section, write: Outcome)
      returns (written: Option<Section>)
      modifies this`sections, this`editing, this`saving
      ensures user.None? ==>
        written.None? && sections == old(sections) && editing == old(editing) && saving == old(saving)
      ensures user.Some? ==> written == Some(SaveRecord(section, user.value.uid)) && !saving
      ensures user.Some? && write == Resolved ==>
        sections == ReplaceById(old(sections), section) && editing.None?
      ensures user.Some? && write == Threw ==> sections == old(sections) && editing == old(editing)
    {
      if user.None? {
        return None;
      }
      saving := true;
      written := Some(SaveRecord(section, user.value.uid));
      if write == Resolved {
        sections := ReplaceById(sections, section);
        editing := None;
      }
      saving := false;
    }

    /** `handleCreateSection`: `added` is the id the store gave, or `None`
        when `addDoc` threw. A created section is appended at the end and
        becomes the one being edited. */
    method HandleCreate(user: Option<Auth.UserData>, added: Option<string>)
      modifies this`sections, this`editing
      ensures user.Some? && added.Some? ==>
        sections == old(sections) + [NewSection(added.value, user.value.uid)] &&
        editing == added
      ensures user.None? || added.None? ==> sections == old(sections) && editing == old(editing)
    {
      if user.None? {
        return;
      }
      if added.Some? {
        sections := sections + [NewSection(added.value, user.value.uid)];
        editing := added;
      }
    }
  }
}
