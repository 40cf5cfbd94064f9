/** The projects editor (src/components/admin/ProjectsManager.tsx): a
    form whose comma-separated technologies and authors are parsed into
    lists on submit, filled back from a project on edit, and cleared on
    reset. The REST call is an outcome passed in. */
module ProjectsAdmin {
  import opened Common
  import opened Text

  /** The dialog's form; list fields hold the text the user typed. */
  datatype ProjectForm = ProjectForm(
    name: string,
    projectType: string,
    description: string,
    technologies: string,
    authors: string,
    liveLink: string,
    githubLink: string,
    image: string,
    featured: bool)

  /** A project as the API returns it. */
  datatype Project = Project(
    id: int,
    name: string,
    projectType: string,
    description: string,
    technologies: seq<string>,
    authors: seq<string>,
    liveLink: Option<string>,
    githubLink: Option<string>,
    image: Option<string>,
    featured: bool)

  /** The body sent to the API. */
  datatype ProjectData = ProjectData(
    name: string,
    projectType: string,
    description: string,
    technologies: seq<string>,
    authors: seq<string>,
    liveLink: string,
    githubLink: string,
    image: string,
    featured: bool)

  datatype Request = Create(data: ProjectData) | Update(id: int, data: ProjectData)

  const EmptyForm := ProjectForm("", "", "", "", "", "", "", "", false)

  /** `projectData` in `handleSubmit`: the form with its two list fields
      parsed into clean items. */
  function ToProjectData(f: ProjectForm): (d: ProjectData)
    ensures d.technologies == ParseList(f.technologies) && d.authors == ParseList(f.authors)
    ensures forall i :: 0 <= i < |d.technologies| ==> IsCleanItem(d.technologies[i])
    ensures forall i :: 0 <= i < |d.authors| ==> IsCleanItem(d.authors[i])
    ensures d.name == f.name && d.projectType == f.projectType && d.description == f.description
    ensures d.liveLink == f.liveLink && d.githubLink == f.githubLink && d.image == f.image
    ensures d.featured == f.featured
  {
    ParseListClean(f.technologies);
    ParseListClean(f.authors);
    ProjectData(f.name, f.projectType, f.description, ParseList(f.technologies), ParseList(f.authors),
                f.liveLink, f.githubLink, f.image, f.featured)
  }

  /** The form `handleEdit` fills from a project: lists joined with
      ", ", missing links and image as "". */
  function EditForm(p: Project): (f: ProjectForm)
    ensures f.technologies == Join(p.technologies, ", ") && f.authors == Join(p.authors, ", ")
    ensures f.liveLink == OrElse(p.liveLink, "") && f.githubLink == OrElse(p.githubLink, "")
    ensures f.image == OrElse(p.image, "")
    ensures f.name == p.name && f.projectType == p.projectType && f.description == p.description
    ensures f.featured == p.featured
  {
    ProjectForm(p.name, p.projectType, p.description, Join(p.technologies, ", "), Join(p.authors, ", "),
                OrElse(p.liveLink, ""), OrElse(p.githubLink, ""), OrElse(p.image, ""), p.featured)
  }

  /** The lists of a project stored through this form are clean. */
  predicate CleanProject(p: Project) {
    (forall i :: 0 <= i < |p.technologies| ==> IsCleanItem(p.technologies[i])) &&
    (forall i :: 0 <= i < |p.authors| ==> IsCleanItem(p.authors[i]))
  }

  /** Opening a project for edit and submitting it unchanged sends back
      the same project: same lists, same fields, missing links as "". */
  lemma EditThenSubmit(p: Project)
    requires CleanProject(p)
    ensures ToProjectData(EditForm(p)) ==
      ProjectData(p.name, p.projectType, p.description, p.technologies, p.authors,
                  OrElse(p.liveLink, ""), OrElse(p.githubLink, ""), OrElse(p.image, ""), p.featured)
  {
    ParseJoin(p.technologies);
    ParseJoin(p.authors);
  }

  /** Update with the edited project's id exactly when one is being
      edited, otherwise create. */
  function SubmitRequest(editing: Option<Project>, f: ProjectForm): (r: Request)
    ensures r.Update? <==> editing.Some?
    ensures r.Update? ==> r.id == editing.value.id
    ensures r.data == ToProjectData(f)
  {
    if editing.Some? then Update(editing.value.id, ToProjectData(f)) else Create(ToProjectData(f))
  }

  class ProjectsManager {
    var form: ProjectForm
    var editing: Option<Project>
    var dialogOpen: bool

    constructor()
      ensures form == EmptyForm && editing.None? && !dialogOpen
    {
      form, editing, dialogOpen := EmptyForm, None, false;
    }

    /** `resetForm`: empty strings, `featured` off, nothing being edited;
        the dialog is left as it is. */
    method ResetForm()
      modifies this`form, this`editing
      ensures form == EmptyForm && editing.None?
    {
      form := EmptyForm;
      editing := None;
    }

    /** `handleEdit`. */
    method HandleEdit(p: Project)
      modifies this
      ensures editing == Some(p) && form == EditForm(p) && dialogOpen
    {
      editing := Some(p);
      form := EditForm(p);
      dialogOpen := true;
    }

    /** `handleSubmit`: sends the request; when it resolves the form is
        reset and the dialog closed, when it throws everything is kept. */
    method HandleSubmit(outcome: Outcome) returns (sent: Request)
      modifies this
      ensures sent == SubmitRequest(old(editing), old(form))
      ensures outcome == Resolved ==> form == EmptyForm && editing.None? && !dialogOpen
      ensures outcome == Threw ==>
        form == old(form) && editing == old(editing) && dialogOpen == old(dialogOpen)
    {
      sent := SubmitRequest(editing, form);
      if outcome == Resolved {
        form := EmptyForm;
        editing := None;
        dialogOpen := false;
      }
    }
  }
}
