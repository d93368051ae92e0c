/** The hobby tracker (lifeplanner/src/components/Hobbies.tsx): hobbies added from a form draft,
    edited and deleted by id, with a progress percentage moved in steps of ten. */
module Hobbies {
  import opened Types
  import opened Text
  import opened Progress
  import Keyed

  // ---------------------------------------------------------------- categories

  /** A row of HOBBY_CATEGORIES: the category and its colour class (the icon is left out). */
  datatype CategoryRow = CategoryRow(kind: HobbyCategory, color: string)

  const HOBBY_CATEGORIES: seq<CategoryRow> := [
    CategoryRow(Pintar, "bg-purple-100 text-purple-800"),
    CategoryRow(Leer, "bg-blue-100 text-blue-800"),
    CategoryRow(Bicicleta, "bg-green-100 text-green-800"),
    CategoryRow(SkinCare, "bg-pink-100 text-pink-800"),
    CategoryRow(HealthCare, "bg-orange-100 text-orange-800"),
    CategoryRow(Otro, "bg-gray-100 text-gray-800")
  ]

  const CATEGORY_FALLBACK: string := "bg-gray-100 text-gray-800"

  /** Position of a category in HOBBY_CATEGORIES. */
  function CategoryOrdinal(c: HobbyCategory): nat {
    match c
    case Pintar => 0
    case Leer => 1
    case Bicicleta => 2
    case SkinCare => 3
    case HealthCare => 4
    case Otro => 5
  }

  function RowName(row: CategoryRow): string { CategoryName(row.kind) }

  /** Looking a category's text up in HOBBY_CATEGORIES finds the category's own row. */
  lemma CategoryIndex(c: HobbyCategory)
    ensures Keyed.IndexOf(HOBBY_CATEGORIES, RowName, CategoryName(c)) == CategoryOrdinal(c)
    ensures HOBBY_CATEGORIES[CategoryOrdinal(c)].kind == c
  {
    TagNamesInjective();
    Keyed.IndexOfIs(HOBBY_CATEGORIES, RowName, CategoryName(c), CategoryOrdinal(c));
  }

  /** A text is found in HOBBY_CATEGORIES exactly when it is a tag's text, at that tag's row. */
  lemma CategoryLookup(tag: string)
    ensures (forall c :: CategoryName(c) != tag) ==> !Keyed.HasKey(HOBBY_CATEGORIES, RowName, tag)
    ensures forall c :: CategoryName(c) == tag ==> Keyed.IndexOf(HOBBY_CATEGORIES, RowName, tag) == CategoryOrdinal(c)
    ensures forall c :: HOBBY_CATEGORIES[CategoryOrdinal(c)].kind == c
  {
    forall c: HobbyCategory
      ensures CategoryName(c) == tag ==> Keyed.IndexOf(HOBBY_CATEGORIES, RowName, tag) == CategoryOrdinal(c)
      ensures HOBBY_CATEGORIES[CategoryOrdinal(c)].kind == c
    {
      CategoryIndex(c);
    }
  }

  /** `getCategoryColor`: the colour class of the category's row; a text that is no category
      gets the grey fallback. */
  function CategoryColor(tag: string): (r: string)
    ensures (forall c :: CategoryName(c) != tag) ==> r == CATEGORY_FALLBACK
    ensures forall c :: CategoryName(c) == tag ==> r == HOBBY_CATEGORIES[CategoryOrdinal(c)].color
  {
    CategoryLookup(tag);
    match Keyed.Find(HOBBY_CATEGORIES, RowName, tag)
    case Some(cat) => cat.color
    case None => CATEGORY_FALLBACK
  }

  // ---------------------------------------------------------------- progress colour

  /** `getProgressColor`: green from 80, yellow from 60, orange from 40, red below; each
      progress gets exactly one of the four. */
  function ProgressColor(progress: int): (r: string)
    ensures r == "bg-green-500" <==> progress >= 80
    ensures r == "bg-yellow-500" <==> 60 <= progress < 80
    ensures r == "bg-orange-500" <==> 40 <= progress < 60
    ensures r == "bg-red-500" <==> progress < 40
  {
    if progress >= 80 then "bg-green-500"
    else if progress >= 60 then "bg-yellow-500"
    else if progress >= 40 then "bg-orange-500"
    else "bg-red-500"
  }

  // ---------------------------------------------------------------- hobbies

  function HobbyId(h: Hobby): string { h.id }

  /** `Partial<Hobby>`: the fields an edit sets, and the shape of the form draft. */
  datatype HobbyPatch = HobbyPatch(
    id: Option<string>, name: Option<string>, category: Option<HobbyCategory>,
    progress: Option<int>, notes: Option<string>, lastActivity: Option<string>)

  /** The draft the form starts from and returns to after an add. */
  const EMPTY_DRAFT: HobbyPatch := HobbyPatch(None, Some(""), Some(Otro), Some(0), Some(""), None)

  /** `newHobby.name?.trim()` is falsy: no name, or one that is all white space. */
  predicate BlankName(draft: HobbyPatch) {
    draft.name.None? || Trim(draft.name.value) == ""
  }

  /** The hobby `addHobby` creates from a draft with a name: the name as typed, the category of
      the draft or 'Otro', no progress, no notes, last active today. */
  function NewHobby(draft: HobbyPatch, freshId: string, today: string): (h: Hobby)
    requires !BlankName(draft)
    ensures h.id == freshId && h.name == draft.name.value && h.progress == 0 && h.notes == ""
    ensures h.category == draft.category.GetOr(Otro) && h.lastActivity == today
  {
    Hobby.Hobby(freshId, draft.name.value, draft.category.GetOr(Otro), 0, "", today)
  }

  /** The hobbies after `addHobby`: unchanged for a blank name, else the new hobby appended. */
  function Added(hobbies: seq<Hobby>, draft: HobbyPatch, freshId: string, today: string): seq<Hobby> {
    if BlankName(draft) then hobbies else hobbies + [NewHobby(draft, freshId, today)]
  }

  /** `{ ...hobby, ...updates }`. */
  function MergeHobby(h: Hobby, p: HobbyPatch): (r: Hobby)
    ensures r.id == p.id.GetOr(h.id) && r.name == p.name.GetOr(h.name)
    ensures r.category == p.category.GetOr(h.category) && r.progress == p.progress.GetOr(h.progress)
    ensures r.notes == p.notes.GetOr(h.notes) && r.lastActivity == p.lastActivity.GetOr(h.lastActivity)
  {
    Hobby.Hobby(p.id.GetOr(h.id), p.name.GetOr(h.name), p.category.GetOr(h.category),
                p.progress.GetOr(h.progress), p.notes.GetOr(h.notes), p.lastActivity.GetOr(h.lastActivity))
  }

  function Merger(p: HobbyPatch): Hobby -> Hobby {
    h => MergeHobby(h, p)
  }

  /** The hobbies after `updateHobby(id, updates)`. */
  function Updated(hobbies: seq<Hobby>, id: string, p: HobbyPatch): (r: seq<Hobby>)
    ensures |r| == |hobbies|
    ensures forall j :: 0 <= j < |hobbies| ==>
      r[j] == if hobbies[j].id == id then MergeHobby(hobbies[j], p) else hobbies[j]
  {
    Keyed.UpdateWhere(hobbies, HobbyId, id, Merger(p))
  }

  /** The hobbies after `deleteHobby(id)`. */
  function Deleted(hobbies: seq<Hobby>, id: string): (r: seq<Hobby>)
    ensures forall j :: 0 <= j < |r| ==> r[j] in hobbies && r[j].id != id
    ensures forall j :: 0 <= j < |hobbies| && hobbies[j].id != id ==> hobbies[j] in r
    ensures |r| == |hobbies| - Keyed.Count(hobbies, HobbyId, id)
  {
    Keyed.RemoveWhere(hobbies, HobbyId, id)
  }

  /** One press of a progress button on a hobby: progress moved and clamped, activity stamped. */
  function Step(delta: int, today: string): Hobby -> Hobby {
    (h: Hobby) => h.(progress := Clamp(h.progress + delta), lastActivity := today)
  }

  /** The hobbies after `updateProgress(id, delta)` on the given day. */
  function Stepped(hobbies: seq<Hobby>, id: string, delta: int, today: string): (r: seq<Hobby>)
    ensures |r| == |hobbies|
    ensures forall j :: 0 <= j < |hobbies| ==>
      r[j] == if hobbies[j].id == id then Step(delta, today)(hobbies[j]) else hobbies[j]
  {
    Keyed.UpdateWhere(hobbies, HobbyId, id, Step(delta, today))
  }

  predicate ProgressInRange(hobbies: seq<Hobby>) {
    forall j :: 0 <= j < |hobbies| ==> InRange(hobbies[j].progress)
  }

  // ---------------------------------------------------------------- properties

  /** A blank name adds nothing. Otherwise exactly one hobby is appended: the fresh id, the
      name as typed, the draft's category or 'Otro', progress 0, no notes, active today. With an
      unused id the ids stay unique, and deleting that id gives back the hobbies as they were. */
  lemma AddedEffect(hobbies: seq<Hobby>, draft: HobbyPatch, freshId: string, today: string)
    requires !Keyed.HasKey(hobbies, HobbyId, freshId)
    ensures BlankName(draft) ==> Added(hobbies, draft, freshId, today) == hobbies
    ensures !BlankName(draft) ==> |Added(hobbies, draft, freshId, today)| == |hobbies| + 1
    ensures !BlankName(draft) ==> Added(hobbies, draft, freshId, today)[..|hobbies|] == hobbies
    ensures !BlankName(draft) ==>
      Added(hobbies, draft, freshId, today)[|hobbies|] == Hobby.Hobby(freshId, draft.name.value, draft.category.GetOr(Otro), 0, "", today)
    ensures Keyed.Unique(hobbies, HobbyId) ==> Keyed.Unique(Added(hobbies, draft, freshId, today), HobbyId)
    ensures Deleted(Added(hobbies, draft, freshId, today), freshId) == hobbies
  {
    Keyed.RemoveAbsent(hobbies, HobbyId, freshId);
    if !BlankName(draft) {
      var h := NewHobby(draft, freshId, today);
      Keyed.RemoveConcat(hobbies, [h], HobbyId, freshId);
      assert Keyed.RemoveWhere([h], HobbyId, freshId) == [];
      assert hobbies + [h] == Keyed.Upsert(hobbies, HobbyId, h);
      if Keyed.Unique(hobbies, HobbyId) {
        Keyed.UpsertKeepsUnique(hobbies, HobbyId, h);
      }
    }
  }

  /** An edit that does not set the id keeps every id, so ids stay unique; an edit of an id
      that is not there changes nothing. */
  lemma UpdatedKeepsIds(hobbies: seq<Hobby>, id: string, p: HobbyPatch)
    ensures p.id.None? ==> forall j :: 0 <= j < |hobbies| ==> Updated(hobbies, id, p)[j].id == hobbies[j].id
    ensures p.id.None? && Keyed.Unique(hobbies, HobbyId) ==> Keyed.Unique(Updated(hobbies, id, p), HobbyId)
    ensures !Keyed.HasKey(hobbies, HobbyId, id) ==> Updated(hobbies, id, p) == hobbies
  {
    if p.id.None? {
      Keyed.UpdateKeepsKeys(hobbies, HobbyId, id, Merger(p));
    }
    if !Keyed.HasKey(hobbies, HobbyId, id) {
      Keyed.UpdateAbsent(hobbies, HobbyId, id, Merger(p));
    }
  }

  /** Deleting keeps ids unique, and deleting twice is deleting once. */
  lemma DeletedIdempotent(hobbies: seq<Hobby>, id: string)
    ensures Keyed.Unique(hobbies, HobbyId) ==> Keyed.Unique(Deleted(hobbies, id), HobbyId)
    ensures Deleted(Deleted(hobbies, id), id) == Deleted(hobbies, id)
  {
    Keyed.RemoveTwice(hobbies, HobbyId, id);
    if Keyed.Unique(hobbies, HobbyId) {
      Keyed.RemoveKeepsUnique(hobbies, HobbyId, id, HobbyId);
    }
  }

  /** A progress press keeps every progress in [0, 100] (whatever the delta), changes only the
      progress and last activity of the matching hobby, and keeps ids unique. */
  lemma SteppedEffect(hobbies: seq<Hobby>, id: string, delta: int, today: string)
    ensures ProgressInRange(Stepped(hobbies, id, delta, today)) <== ProgressInRange(hobbies)
    ensures forall j :: 0 <= j < |hobbies| && hobbies[j].id == id ==>
      Stepped(hobbies, id, delta, today)[j].lastActivity == today &&
      Stepped(hobbies, id, delta, today)[j].progress == Max(0, Min(100, hobbies[j].progress + delta)) &&
      Stepped(hobbies, id, delta, today)[j].(progress := hobbies[j].progress, lastActivity := hobbies[j].lastActivity)
        == hobbies[j]
    ensures Keyed.Unique(hobbies, HobbyId) ==> Keyed.Unique(Stepped(hobbies, id, delta, today), HobbyId)
  {
    Keyed.UpdateKeepsKeys(hobbies, HobbyId, id, Step(delta, today));
  }

  /** Pressing the buttons of one hobby any number of times: its progress is the one `Steps`
      reaches from where it was, so it stays in [0, 100], and on a multiple of ten. */
  function PressAll(hobbies: seq<Hobby>, id: string, deltas: seq<int>, today: string): seq<Hobby>
    decreases |deltas|
  {
    if deltas == [] then hobbies else PressAll(Stepped(hobbies, id, deltas[0], today), id, deltas[1..], today)
  }

  lemma {:induction false} PressAllProgress(hobbies: seq<Hobby>, id: string, deltas: seq<int>, today: string)
    ensures |PressAll(hobbies, id, deltas, today)| == |hobbies|
    ensures forall j :: 0 <= j < |hobbies| && hobbies[j].id == id ==>
      PressAll(hobbies, id, deltas, today)[j].progress == Steps(hobbies[j].progress, deltas)
    ensures forall j :: 0 <= j < |hobbies| && hobbies[j].id != id ==>
      PressAll(hobbies, id, deltas, today)[j] == hobbies[j]
    decreases |deltas|
  {
    if deltas != [] {
      var next := Stepped(hobbies, id, deltas[0], today);
      PressAllProgress(next, id, deltas[1..], today);
      forall j | 0 <= j < |hobbies| && hobbies[j].id == id
        ensures next[j].id == id
      {
      }
    }
  }

  // ---------------------------------------------------------------- component state

  /** The tracker's stored hobbies, the add form (open flag and draft) and the hobby whose name
      is being edited. */
  class HobbyBoard {
    var hobbies: seq<Hobby>
    var isAddingHobby: bool
    var editingHobby: Option<string>
    var newHobby: HobbyPatch

    /** The hobbies as loaded from storage, the form closed with an empty draft. */
    constructor (stored: seq<Hobby>)
      ensures hobbies == stored && !isAddingHobby && editingHobby == None && newHobby == EMPTY_DRAFT
    {
      hobbies := stored;
      isAddingHobby := false;
      editingHobby := None;
      newHobby := EMPTY_DRAFT;
    }

    /** "Nuevo Hobby": open the form, keeping the draft. */
    method OpenForm()
      modifies this
      ensures isAddingHobby
      ensures hobbies == old(hobbies) && newHobby == old(newHobby) && editingHobby == old(editingHobby)
    {
      isAddingHobby := true;
    }

    /** "Cancelar": close the form, keeping the draft. */
    method CancelForm()
      modifies this
      ensures !isAddingHobby
      ensures hobbies == old(hobbies) && newHobby == old(newHobby) && editingHobby == old(editingHobby)
    {
      isAddingHobby := false;
    }

    /** The name and category inputs of the form. */
    method EditDraft(name: Option<string>, category: Option<HobbyCategory>)
      modifies this
      ensures newHobby == old(newHobby).(name := if name.Some? then name else old(newHobby).name,
                                         category := if category.Some? then category else old(newHobby).category)
      ensures hobbies == old(hobbies) && isAddingHobby == old(isAddingHobby) && editingHobby == old(editingHobby)
    {
      if name.Some? {
        newHobby := newHobby.(name := name);
      }
      if category.Some? {
        newHobby := newHobby.(category := category);
      }
    }

    /** `addHobby()` with an unused id and today's date. A blank name changes nothing; otherwise
        the hobby is appended, the draft reset and the form closed. */
    method AddHobby(freshId: string, today: string)
      requires !Keyed.HasKey(hobbies, HobbyId, freshId)
      modifies this
      ensures hobbies == Added(old(hobbies), old(newHobby), freshId, today)
      ensures BlankName(old(newHobby)) ==> newHobby == old(newHobby) && isAddingHobby == old(isAddingHobby)
      ensures !BlankName(old(newHobby)) ==> newHobby == EMPTY_DRAFT && !isAddingHobby
      ensures editingHobby == old(editingHobby)
    {
      if !BlankName(newHobby) {
        var hobby := NewHobby(newHobby, freshId, today);
        hobbies := hobbies + [hobby];
        newHobby := EMPTY_DRAFT;
        isAddingHobby := false;
      }
    }

    /** The edit button: start editing this hobby's name, or stop when it is the one edited. */
    method ToggleEditing(id: string)
      modifies this
      ensures editingHobby == if old(editingHobby) == Some(id) then None else Some(id)
      ensures hobbies == old(hobbies) && newHobby == old(newHobby) && isAddingHobby == old(isAddingHobby)
    {
      if editingHobby == Some(id) {
        editingHobby := None;
      } else {
        editingHobby := Some(id);
      }
    }

    /** Enter in the name field: stop editing. */
    method StopEditing()
      modifies this
      ensures editingHobby == None
      ensures hobbies == old(hobbies) && newHobby == old(newHobby) && isAddingHobby == old(isAddingHobby)
    {
      editingHobby := None;
    }

    /** `updateHobby(id, updates)`. */
    method UpdateHobby(id: string, updates: HobbyPatch)
      modifies this
      ensures hobbies == Updated(old(hobbies), id, updates)
      ensures newHobby == old(newHobby) && isAddingHobby == old(isAddingHobby) && editingHobby == old(editingHobby)
    {
      hobbies := Updated(hobbies, id, updates);
    }

    /** `deleteHobby(id)`. */
    method DeleteHobby(id: string)
      modifies this
      ensures hobbies == Deleted(old(hobbies), id)
      ensures newHobby == old(newHobby) && isAddingHobby == old(isAddingHobby) && editingHobby == old(editingHobby)
    {
      hobbies := Deleted(hobbies, id);
    }

    /** `updateProgress(id, delta)` on the given day. */
    method UpdateProgress(id: string, delta: int, today: string)
      modifies this
      ensures hobbies == Stepped(old(hobbies), id, delta, today)
      ensures newHobby == old(newHobby) && isAddingHobby == old(isAddingHobby) && editingHobby == old(editingHobby)
    {
      hobbies := Stepped(hobbies, id, delta, today);
    }
  }
}
