/** The personal projects board (lifeplanner/src/components/PersonalProjects.tsx): projects
    added from a form draft, edited and deleted by id, with a clamped progress percentage, and
    shown in one column per status. */
module PersonalProjects {
  import opened Types
  import opened Text
  import opened Progress
  import Keyed
  import Hobbies

  // ---------------------------------------------------------------- statuses

  /** A row of PROJECT_STATUSES: the status and its colour class (the icon is left out). */
  datatype StatusRow = StatusRow(kind: ProjectStatus, color: string)

  const PROJECT_STATUSES: seq<StatusRow> := [
    StatusRow(Inicio, "bg-blue-100 text-blue-800"),
    StatusRow(EnProgreso, "bg-yellow-100 text-yellow-800"),
    StatusRow(Avanzado, "bg-orange-100 text-orange-800"),
    StatusRow(Completado, "bg-green-100 text-green-800")
  ]

  /** Position of a status in PROJECT_STATUSES, which is also the order of the board's columns. */
  function StatusOrdinal(s: ProjectStatus): nat {
    match s
    case Inicio => 0
    case EnProgreso => 1
    case Avanzado => 2
    case Completado => 3
  }

  function RowName(row: StatusRow): string { StatusName(row.kind) }

  /** Looking a status's text up in PROJECT_STATUSES finds the status's own row. */
  lemma StatusIndex(s: ProjectStatus)
    ensures Keyed.IndexOf(PROJECT_STATUSES, RowName, StatusName(s)) == StatusOrdinal(s)
    ensures PROJECT_STATUSES[StatusOrdinal(s)].kind == s
  {
    TagNamesInjective();
    Keyed.IndexOfIs(PROJECT_STATUSES, RowName, StatusName(s), StatusOrdinal(s));
  }

  /** A text is found in PROJECT_STATUSES exactly when it is a tag's text, at that tag's row. */
  lemma StatusLookup(tag: string)
    ensures (forall s :: StatusName(s) != tag) ==> !Keyed.HasKey(PROJECT_STATUSES, RowName, tag)
    ensures forall s :: StatusName(s) == tag ==> Keyed.IndexOf(PROJECT_STATUSES, RowName, tag) == StatusOrdinal(s)
    ensures forall s :: PROJECT_STATUSES[StatusOrdinal(s)].kind == s
  {
    forall s: ProjectStatus
      ensures StatusName(s) == tag ==> Keyed.IndexOf(PROJECT_STATUSES, RowName, tag) == StatusOrdinal(s)
      ensures PROJECT_STATUSES[StatusOrdinal(s)].kind == s
    {
      StatusIndex(s);
    }
  }

  /** `getStatusConfig`: the row of the status; a text that is no status gets the first row,
      the one of 'Inicio'. */
  function StatusConfig(tag: string): (r: StatusRow)
    ensures (forall s :: StatusName(s) != tag) ==> r == PROJECT_STATUSES[0] && r.kind == Inicio
    ensures forall s :: StatusName(s) == tag ==> r == PROJECT_STATUSES[StatusOrdinal(s)] && r.kind == s
  {
    StatusLookup(tag);
    match Keyed.Find(PROJECT_STATUSES, RowName, tag)
    case Some(row) => row
    case None => PROJECT_STATUSES[0]
  }

  /** `getProgressColor`: green from 80, yellow from 60, orange from 40, red below. */
  function ProjectProgressColor(progress: int): (r: string)
    ensures r == "bg-green-500" <==> progress >= 80
    ensures r == "bg-yellow-500" <==> 60 <= progress < 80
    ensures r == "bg-orange-500" <==> 40 <= progress < 60
    ensures r == "bg-red-500" <==> progress < 40
  {
    if progress >= 80 then "bg-green-500"
    else if progress >= 60 then "bg-yellow-500"
    else if progress >= 40 then "bg-orange-500"
    else "bg-red-500"
  }

  /** Projects and hobbies colour a progress bar alike. */
  lemma SameProgressColors(progress: int)
    ensures ProjectProgressColor(progress) == Hobbies.ProgressColor(progress)
  {
  }

  // ---------------------------------------------------------------- projects

  function ProjectId(p: PersonalProject): string { p.id }
  function StatusOf(p: PersonalProject): ProjectStatus { p.status }

  /** `Partial<PersonalProject>`: the fields an edit sets, and the shape of the form draft. */
  datatype ProjectPatch = ProjectPatch(
    id: Option<string>, name: Option<string>, description: Option<string>,
    status: Option<ProjectStatus>, progress: Option<int>, notes: Option<string>,
    createdAt: Option<string>)

  /** The draft the form starts from and returns to after an add. */
  const EMPTY_DRAFT: ProjectPatch :=
    ProjectPatch(None, Some(""), Some(""), Some(Inicio), Some(0), Some(""), None)

  /** `newProject.name?.trim()` is falsy: no name, or one that is all white space. */
  predicate BlankName(draft: ProjectPatch) {
    draft.name.None? || Trim(draft.name.value) == ""
  }

  /** The project `addProject` creates from a draft with a name: the name as typed, the draft's
      description or '', its status or 'Inicio', no progress, no notes, created today. */
  function NewProject(draft: ProjectPatch, freshId: string, today: string): (p: PersonalProject)
    requires !BlankName(draft)
    ensures p.id == freshId && p.name == draft.name.value && p.progress == 0 && p.notes == ""
    ensures p.description == draft.description.GetOr("") && p.status == draft.status.GetOr(Inicio)
    ensures p.createdAt == today
  {
    PersonalProject(freshId, draft.name.value, OrElse(draft.description.GetOr(""), ""),
                    draft.status.GetOr(Inicio), 0, "", today)
  }

  /** The projects after `addProject`: unchanged for a blank name, else the project appended. */
  function Added(projects: seq<PersonalProject>, draft: ProjectPatch, freshId: string, today: string)
    : seq<PersonalProject>
  {
    if BlankName(draft) then projects else projects + [NewProject(draft, freshId, today)]
  }

  /** `{ ...project, ...updates }`. */
  function MergeProject(p: PersonalProject, u: ProjectPatch): (r: PersonalProject)
    ensures r.id == u.id.GetOr(p.id) && r.name == u.name.GetOr(p.name)
    ensures r.description == u.description.GetOr(p.description) && r.status == u.status.GetOr(p.status)
    ensures r.progress == u.progress.GetOr(p.progress) && r.notes == u.notes.GetOr(p.notes)
    ensures r.createdAt == u.createdAt.GetOr(p.createdAt)
  {
    PersonalProject(u.id.GetOr(p.id), u.name.GetOr(p.name), u.description.GetOr(p.description),
                    u.status.GetOr(p.status), u.progress.GetOr(p.progress), u.notes.GetOr(p.notes),
                    u.createdAt.GetOr(p.createdAt))
  }

  function Merger(u: ProjectPatch): PersonalProject -> PersonalProject {
    p => MergeProject(p, u)
  }

  /** The projects after `updateProject(id, updates)`. */
  function Updated(projects: seq<PersonalProject>, id: string, u: ProjectPatch): (r: seq<PersonalProject>)
    ensures |r| == |projects|
    ensures forall j :: 0 <= j < |projects| ==>
      r[j] == if projects[j].id == id then MergeProject(projects[j], u) else projects[j]
  {
    Keyed.UpdateWhere(projects, ProjectId, id, Merger(u))
  }

  /** The projects after `deleteProject(id)`. */
  function Deleted(projects: seq<PersonalProject>, id: string): (r: seq<PersonalProject>)
    ensures forall j :: 0 <= j < |r| ==> r[j] in projects && r[j].id != id
    ensures forall j :: 0 <= j < |projects| && projects[j].id != id ==> projects[j] in r
    ensures |r| == |projects| - Keyed.Count(projects, ProjectId, id)
  {
    Keyed.RemoveWhere(projects, ProjectId, id)
  }

  /** One press of a progress button on a project. */
  function Step(delta: int): PersonalProject -> PersonalProject {
    (p: PersonalProject) => p.(progress := Clamp(p.progress + delta))
  }

  /** The projects after `updateProgress(id, delta)`. */
  function Stepped(projects: seq<PersonalProject>, id: string, delta: int): (r: seq<PersonalProject>)
    ensures |r| == |projects|
    ensures forall j :: 0 <= j < |projects| ==>
      r[j] == if projects[j].id == id then Step(delta)(projects[j]) else projects[j]
  {
    Keyed.UpdateWhere(projects, ProjectId, id, Step(delta))
  }

  /** `getProjectsByStatus(status)`: the projects of one column. */
  function ProjectsByStatus(projects: seq<PersonalProject>, status: ProjectStatus): seq<PersonalProject> {
    Keyed.KeepWhere(projects, StatusOf, status)
  }

  predicate ProgressInRange(projects: seq<PersonalProject>) {
    forall j :: 0 <= j < |projects| ==> InRange(projects[j].progress)
  }

  // ---------------------------------------------------------------- properties

  /** A blank name adds nothing. Otherwise exactly one project is appended: the fresh id, the
      name as typed, the draft's description or '', its status or 'Inicio', progress 0, no notes,
      created today. With an unused id the ids stay unique, and deleting that id gives back the
      projects as they were. */
  lemma AddedEffect(projects: seq<PersonalProject>, draft: ProjectPatch, freshId: string, today: string)
    requires !Keyed.HasKey(projects, ProjectId, freshId)
    ensures BlankName(draft) ==> Added(projects, draft, freshId, today) == projects
    ensures !BlankName(draft) ==> |Added(projects, draft, freshId, today)| == |projects| + 1
    ensures !BlankName(draft) ==> Added(projects, draft, freshId, today)[..|projects|] == projects
    ensures !BlankName(draft) ==>
      Added(projects, draft, freshId, today)[|projects|] ==
      PersonalProject(freshId, draft.name.value, draft.description.GetOr(""), draft.status.GetOr(Inicio), 0, "", today)
    ensures Keyed.Unique(projects, ProjectId) ==> Keyed.Unique(Added(projects, draft, freshId, today), ProjectId)
    ensures Deleted(Added(projects, draft, freshId, today), freshId) == projects
  {
    Keyed.RemoveAbsent(projects, ProjectId, freshId);
    if !BlankName(draft) {
      var p := NewProject(draft, freshId, today);
      Keyed.RemoveConcat(projects, [p], ProjectId, freshId);
      assert Keyed.RemoveWhere([p], ProjectId, freshId) == [];
      assert projects + [p] == Keyed.Upsert(projects, ProjectId, p);
      if Keyed.Unique(projects, ProjectId) {
        Keyed.UpsertKeepsUnique(projects, ProjectId, p);
      }
    }
  }

  /** An edit that does not set the id keeps every id, so ids stay unique; an edit of an id
      that is not there changes nothing. */
  lemma UpdatedKeepsIds(projects: seq<PersonalProject>, id: string, u: ProjectPatch)
    ensures u.id.None? ==> forall j :: 0 <= j < |projects| ==> Updated(projects, id, u)[j].id == projects[j].id
    ensures u.id.None? && Keyed.Unique(projects, ProjectId) ==> Keyed.Unique(Updated(projects, id, u), ProjectId)
    ensures !Keyed.HasKey(projects, ProjectId, id) ==> Updated(projects, id, u) == projects
  {
    if u.id.None? {
      Keyed.UpdateKeepsKeys(projects, ProjectId, id, Merger(u));
    }
    if !Keyed.HasKey(projects, ProjectId, id) {
      Keyed.UpdateAbsent(projects, ProjectId, id, Merger(u));
    }
  }

  /** Deleting keeps ids unique, and deleting twice is deleting once. */
  lemma DeletedIdempotent(projects: seq<PersonalProject>, id: string)
    ensures Keyed.Unique(projects, ProjectId) ==> Keyed.Unique(Deleted(projects, id), ProjectId)
    ensures Deleted(Deleted(projects, id), id) == Deleted(projects, id)
  {
    Keyed.RemoveTwice(projects, ProjectId, id);
    if Keyed.Unique(projects, ProjectId) {
      Keyed.RemoveKeepsUnique(projects, ProjectId, id, ProjectId);
    }
  }

  /** A progress press keeps every progress in [0, 100], changes nothing but the progress of
      the matching project, and keeps ids unique. */
  lemma SteppedEffect(projects: seq<PersonalProject>, id: string, delta: int)
    ensures ProgressInRange(projects) ==> ProgressInRange(Stepped(projects, id, delta))
    ensures forall j :: 0 <= j < |projects| && projects[j].id == id ==>
      Stepped(projects, id, delta)[j].progress == Max(0, Min(100, projects[j].progress + delta)) &&
      Stepped(projects, id, delta)[j].(progress := projects[j].progress) == projects[j]
    ensures Keyed.Unique(projects, ProjectId) ==> Keyed.Unique(Stepped(projects, id, delta), ProjectId)
  {
    Keyed.UpdateKeepsKeys(projects, ProjectId, id, Step(delta));
  }

  /** A column holds exactly the projects of its status, in board order. */
  lemma ByStatusExact(projects: seq<PersonalProject>, more: seq<PersonalProject>, status: ProjectStatus)
    ensures forall p :: p in ProjectsByStatus(projects, status) <==> p in projects && p.status == status
    ensures ProjectsByStatus(projects + more, status)
            == ProjectsByStatus(projects, status) + ProjectsByStatus(more, status)
  {
    Keyed.KeepConcat(projects, more, StatusOf, status);
    forall p | p in projects && p.status == status
      ensures p in ProjectsByStatus(projects, status)
    {
      var j :| 0 <= j < |projects| && projects[j] == p;
    }
  }

  /** The four columns of the board share out all the projects: their sizes sum to the total. */
  lemma ColumnsPartition(projects: seq<PersonalProject>)
    ensures |ProjectsByStatus(projects, Inicio)| + |ProjectsByStatus(projects, EnProgreso)|
            + |ProjectsByStatus(projects, Avanzado)| + |ProjectsByStatus(projects, Completado)|
            == |projects|
  {
    StatusCountsPartition(projects);
  }

  function StatusCount(projects: seq<PersonalProject>, s: ProjectStatus): nat {
    Keyed.Count(projects, StatusOf, s)
  }

  lemma {:induction false} StatusCountsPartition(projects: seq<PersonalProject>)
    ensures StatusCount(projects, Inicio) + StatusCount(projects, EnProgreso)
            + StatusCount(projects, Avanzado) + StatusCount(projects, Completado) == |projects|
  {
    if projects != [] {
      var rest := projects[1..];
      StatusCountsPartition(rest);
      assert forall s :: StatusCount(projects, s)
                         == (if projects[0].status == s then 1 else 0) + StatusCount(rest, s);
    }
  }

  // ---------------------------------------------------------------- component state

  /** The board's stored projects, the add form (open flag and draft) and the project whose
      name is being edited. */
  class ProjectBoard {
    var projects: seq<PersonalProject>
    var isAddingProject: bool
    var editingProject: Option<string>
    var newProject: ProjectPatch

    /** The projects as loaded from storage, the form closed with an empty draft. */
    constructor (stored: seq<PersonalProject>)
      ensures projects == stored && !isAddingProject && editingProject == None && newProject == EMPTY_DRAFT
    {
      projects := stored;
      isAddingProject := false;
      editingProject := None;
      newProject := EMPTY_DRAFT;
    }

    /** "Nuevo Proyecto": open the form, keeping the draft. */
    method OpenForm()
      modifies this
      ensures isAddingProject
      ensures projects == old(projects) && newProject == old(newProject) && editingProject == old(editingProject)
    {
      isAddingProject := true;
    }

    /** "Cancelar": close the form, keeping the draft. */
    method CancelForm()
      modifies this
      ensures !isAddingProject
      ensures projects == old(projects) && newProject == old(newProject) && editingProject == old(editingProject)
    {
      isAddingProject := false;
    }

    /** The name, status and description inputs of the form. */
    method EditDraft(name: Option<string>, status: Option<ProjectStatus>, description: Option<string>)
      modifies this
      ensures newProject == old(newProject).(
        name := if name.Some? then name else old(newProject).name,
        status := if status.Some? then status else old(newProject).status,
        description := if description.Some? then description else old(newProject).description)
      ensures projects == old(projects) && isAddingProject == old(isAddingProject)
      ensures editingProject == old(editingProject)
    {
      if name.Some? {
        newProject := newProject.(name := name);
      }
      if status.Some? {
        newProject := newProject.(status := status);
      }
      if description.Some? {
        newProject := newProject.(description := description);
      }
    }

    /** `addProject()` with an unused id and today's date. A blank name changes nothing;
        otherwise the project is appended, the draft reset and the form closed. */
    method AddProject(freshId: string, today: string)
      requires !Keyed.HasKey(projects, ProjectId, freshId)
      modifies this
      ensures projects == Added(old(projects), old(newProject), freshId, today)
      ensures BlankName(old(newProject)) ==> newProject == old(newProject) && isAddingProject == old(isAddingProject)
      ensures !BlankName(old(newProject)) ==> newProject == EMPTY_DRAFT && !isAddingProject
      ensures editingProject == old(editingProject)
    {
      if !BlankName(newProject) {
        var project := NewProject(newProject, freshId, today);
        projects := projects + [project];
        newProject := EMPTY_DRAFT;
        isAddingProject := false;
      }
    }

    /** The edit button: start editing this project's name, or stop when it is the one edited. */
    method ToggleEditing(id: string)
      modifies this
      ensures editingProject == if old(editingProject) == Some(id) then None else Some(id)
      ensures projects == old(projects) && newProject == old(newProject) && isAddingProject == old(isAddingProject)
    {
      if editingProject == Some(id) {
        editingProject := None;
      } else {
        editingProject := Some(id);
      }
    }

    /** Enter in the name field: stop editing. */
    method StopEditing()
      modifies this
      ensures editingProject == None
      ensures projects == old(projects) && newProject == old(newProject) && isAddingProject == old(isAddingProject)
    {
      editingProject := None;
    }

    /** `updateProject(id, updates)`. */
    method UpdateProject(id: string, updates: ProjectPatch)
      modifies this
      ensures projects == Updated(old(projects), id, updates)
      ensures newProject == old(newProject) && isAddingProject == old(isAddingProject)
      ensures editingProject == old(editingProject)
    {
      projects := Updated(projects, id, updates);
    }

    /** `deleteProject(id)`. */
    method DeleteProject(id: string)
      modifies this
      ensures projects == Deleted(old(projects), id)
      ensures newProject == old(newProject) && isAddingProject == old(isAddingProject)
      ensures editingProject == old(editingProject)
    {
      projects := Deleted(projects, id);
    }

    /** `updateProgress(id, delta)`. */
    method UpdateProgress(id: string, delta: int)
      modifies this
      ensures projects == Stepped(old(projects), id, delta)
      ensures newProject == old(newProject) && isAddingProject == old(isAddingProject)
      ensures editingProject == old(editingProject)
    {
      projects := Stepped(projects, id, delta);
    }
  }
}
