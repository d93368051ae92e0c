/** The daily notes journal (lifeplanner/src/components/DailyNotes.tsx): one note per calendar
    date edited through a draft, a search over all notes listed newest first, and a short
    preview of each note. */
module DailyNotes {
  import opened Types
  import opened Text
  import Keyed

  function NoteId(n: DailyNote): string { n.id }
  function NoteDate(n: DailyNote): string { n.date }

  // ---------------------------------------------------------------- current note

  /** `getCurrentNote()`: the first note of the date, if any. */
  function CurrentNote(notes: seq<DailyNote>, date: string): (r: Option<DailyNote>)
    ensures r.None? <==> forall j :: 0 <= j < |notes| ==> notes[j].date != date
    ensures r.Some? ==> r.value == notes[Keyed.IndexOf(notes, NoteDate, date)] && r.value.date == date
  {
    Keyed.Find(notes, NoteDate, date)
  }

  /** What `startEditing` loads into the draft: the current note's content, or ''. */
  function DraftFor(notes: seq<DailyNote>, date: string): (r: string)
    ensures CurrentNote(notes, date).None? ==> r == ""
    ensures CurrentNote(notes, date).Some? ==> r == CurrentNote(notes, date).value.content
  {
    match CurrentNote(notes, date)
    case Some(n) => OrElse(n.content, "")
    case None => ""
  }

  /** The edit `saveNote` applies to the note being replaced. */
  function ContentSetter(content: string): DailyNote -> DailyNote {
    (n: DailyNote) => n.(content := content)
  }

  /** The notes after `saveNote()` for the date with the given draft: nothing for a draft of
      white space; otherwise every note sharing the current note's id takes the draft as its
      content, or, when the date has no note, a new note for it is appended. */
  function Saved(notes: seq<DailyNote>, date: string, draft: string, freshId: string): seq<DailyNote> {
    if Trim(draft) == "" then notes
    else match CurrentNote(notes, date)
      case Some(existing) => Keyed.UpdateWhere(notes, NoteId, existing.id, ContentSetter(draft))
      case None => notes + [DailyNote(freshId, date, draft, None)]
  }

  /** The notes after `deleteNote(id)`. */
  function Deleted(notes: seq<DailyNote>, id: string): (r: seq<DailyNote>)
    ensures forall j :: 0 <= j < |r| ==> r[j] in notes && r[j].id != id
    ensures forall j :: 0 <= j < |notes| && notes[j].id != id ==> notes[j] in r
    ensures |r| == |notes| - Keyed.Count(notes, NoteId, id)
  {
    Keyed.RemoveWhere(notes, NoteId, id)
  }

  // ---------------------------------------------------------------- saving

  /** A draft of white space changes nothing. A draft with text becomes the content shown for
      the date; when the date had no note, a note with the fresh id is appended. */
  lemma SavedEffect(notes: seq<DailyNote>, date: string, draft: string, freshId: string)
    ensures AllSpace(draft) ==> Saved(notes, date, draft, freshId) == notes
    ensures !AllSpace(draft) ==> CurrentNote(Saved(notes, date, draft, freshId), date).Some?
    ensures !AllSpace(draft) ==> CurrentNote(Saved(notes, date, draft, freshId), date).value.content == draft
    ensures !AllSpace(draft) && CurrentNote(notes, date).None? ==>
      Saved(notes, date, draft, freshId) == notes + [DailyNote(freshId, date, draft, None)]
  {
    if !AllSpace(draft) {
      if CurrentNote(notes, date).Some? {
        SavedReplaces(notes, date, draft, freshId);
      } else {
        Keyed.IndexOfIs(Saved(notes, date, draft, freshId), NoteDate, date, |notes|);
      }
    }
  }

  /** Saving a draft with text over the date's note replaces its content only: it keeps its id,
      its date and its position, and every note with another id is left as it was. */
  lemma SavedReplaces(notes: seq<DailyNote>, date: string, draft: string, freshId: string)
    requires !AllSpace(draft) && CurrentNote(notes, date).Some?
    ensures |Saved(notes, date, draft, freshId)| == |notes|
    ensures CurrentNote(Saved(notes, date, draft, freshId), date).value
            == CurrentNote(notes, date).value.(content := draft)
    ensures Keyed.IndexOf(Saved(notes, date, draft, freshId), NoteDate, date)
            == Keyed.IndexOf(notes, NoteDate, date)
    ensures forall j :: 0 <= j < |notes| && notes[j].id != CurrentNote(notes, date).value.id ==>
      Saved(notes, date, draft, freshId)[j] == notes[j]
  {
    var existing := CurrentNote(notes, date).value;
    var r := Saved(notes, date, draft, freshId);
    assert r == Keyed.UpdateWhere(notes, NoteId, existing.id, ContentSetter(draft));
    ContentKeepsDates(notes, existing.id, draft);
    Keyed.IndexOfSameKeys(notes, r, NoteDate, date);
    var i := Keyed.IndexOf(notes, NoteDate, date);
    assert r[i] == ContentSetter(draft)(notes[i]);
  }

  lemma ContentKeepsDates(notes: seq<DailyNote>, id: string, draft: string)
    ensures |Keyed.UpdateWhere(notes, NoteId, id, ContentSetter(draft))| == |notes|
    ensures forall j :: 0 <= j < |notes| ==>
      NoteDate(Keyed.UpdateWhere(notes, NoteId, id, ContentSetter(draft))[j]) == NoteDate(notes[j])
  {
  }

  /** With unique ids, saving for one date leaves what every other date shows unchanged, and
      keeps the ids unique when the fresh id is unused. */
  lemma SavedOtherDate(notes: seq<DailyNote>, date: string, draft: string, freshId: string, other: string)
    requires Keyed.Unique(notes, NoteId) && other != date
    requires !Keyed.HasKey(notes, NoteId, freshId)
    ensures CurrentNote(Saved(notes, date, draft, freshId), other) == CurrentNote(notes, other)
    ensures Keyed.Unique(Saved(notes, date, draft, freshId), NoteId)
  {
    if Trim(draft) != "" {
      if CurrentNote(notes, date).Some? {
        SavedOverOtherDate(notes, date, draft, freshId, other);
      } else {
        var n := DailyNote(freshId, date, draft, None);
        Keyed.UpsertOtherKey(notes, NoteDate, n, other);
        assert notes + [n] == Keyed.Upsert(notes, NoteId, n);
        Keyed.UpsertKeepsUnique(notes, NoteId, n);
      }
    }
  }

  lemma SavedOverOtherDate(notes: seq<DailyNote>, date: string, draft: string, freshId: string, other: string)
    requires Keyed.Unique(notes, NoteId) && other != date
    requires Trim(draft) != "" && CurrentNote(notes, date).Some?
    ensures CurrentNote(Saved(notes, date, draft, freshId), other) == CurrentNote(notes, other)
    ensures Keyed.Unique(Saved(notes, date, draft, freshId), NoteId)
  {
    var r := Saved(notes, date, draft, freshId);
    SavedOverKeeps(notes, date, draft, freshId);
    Keyed.IndexOfSameKeys(notes, r, NoteDate, other);
  }

  /** Replacing the date's note keeps ids unique and every date in place, and leaves each note
      of another date as it was. */
  lemma SavedOverKeeps(notes: seq<DailyNote>, date: string, draft: string, freshId: string)
    requires Keyed.Unique(notes, NoteId)
    requires Trim(draft) != "" && CurrentNote(notes, date).Some?
    ensures |Saved(notes, date, draft, freshId)| == |notes|
    ensures Keyed.Unique(Saved(notes, date, draft, freshId), NoteId)
    ensures forall j :: 0 <= j < |notes| ==> NoteDate(Saved(notes, date, draft, freshId)[j]) == NoteDate(notes[j])
    ensures forall j :: 0 <= j < |notes| && notes[j].date != date ==> Saved(notes, date, draft, freshId)[j] == notes[j]
  {
    var i := Keyed.IndexOf(notes, NoteDate, date);
    ContentReplaced(notes, i, draft);
  }

  /** Setting the content of the note at `i` by its id, with unique ids, changes that note only. */
  lemma ContentReplaced(notes: seq<DailyNote>, i: int, draft: string)
    requires Keyed.Unique(notes, NoteId) && 0 <= i < |notes|
    ensures |Keyed.UpdateWhere(notes, NoteId, notes[i].id, ContentSetter(draft))| == |notes|
    ensures Keyed.Unique(Keyed.UpdateWhere(notes, NoteId, notes[i].id, ContentSetter(draft)), NoteId)
    ensures forall j :: 0 <= j < |notes| ==>
      NoteDate(Keyed.UpdateWhere(notes, NoteId, notes[i].id, ContentSetter(draft))[j]) == NoteDate(notes[j])
    ensures forall j :: 0 <= j < |notes| && j != i ==>
      Keyed.UpdateWhere(notes, NoteId, notes[i].id, ContentSetter(draft))[j] == notes[j]
  {
    var u := Keyed.UpdateWhere(notes, NoteId, notes[i].id, ContentSetter(draft));
    Keyed.UpdateKeepsKeys(notes, NoteId, notes[i].id, ContentSetter(draft));
    forall j | 0 <= j < |notes| && j != i
      ensures u[j] == notes[j]
    {
      IdsDiffer(notes, i, j);
    }
  }

  lemma IdsDiffer(notes: seq<DailyNote>, i: int, j: int)
    requires Keyed.Unique(notes, NoteId)
    requires 0 <= i < |notes| && 0 <= j < |notes| && i != j
    ensures notes[i].id != notes[j].id
  {
    var a, b := if i < j then i else j, if i < j then j else i;
    assert NoteId(notes[a]) != NoteId(notes[b]);
  }

  /** Saving the draft `startEditing` loads, unchanged, gives back the notes exactly (with
      unique ids). */
  lemma SaveLoadedDraft(notes: seq<DailyNote>, date: string, freshId: string)
    requires Keyed.Unique(notes, NoteId)
    ensures Saved(notes, date, DraftFor(notes, date), freshId) == notes
  {
    var draft := DraftFor(notes, date);
    if Trim(draft) != "" {
      var existing := CurrentNote(notes, date).value;
      var i := Keyed.IndexOf(notes, NoteDate, date);
      var r := Saved(notes, date, draft, freshId);
      forall j | 0 <= j < |notes| && j != i
        ensures r[j] == notes[j]
      {
        IdsDiffer(notes, i, j);
      }
    }
  }

  /** Deleting keeps ids unique, and deleting twice is deleting once. */
  lemma DeletedIdempotent(notes: seq<DailyNote>, id: string)
    ensures Keyed.Unique(notes, NoteId) ==> Keyed.Unique(Deleted(notes, id), NoteId)
    ensures Deleted(Deleted(notes, id), id) == Deleted(notes, id)
  {
    Keyed.RemoveTwice(notes, NoteId, id);
    if Keyed.Unique(notes, NoteId) {
      Keyed.RemoveKeepsUnique(notes, NoteId, id, NoteId);
    }
  }

  // ---------------------------------------------------------------- search

  /** The search condition: the lower-cased content includes the lower-cased term, or the date
      includes the term as typed. */
  predicate Matches(n: DailyNote, term: string) {
    Contains(Lower(n.content), Lower(term)) || Contains(n.date, term)
  }

  /** The notes that match, in their stored order. */
  function Filtered(notes: seq<DailyNote>, term: string): (r: seq<DailyNote>)
    ensures forall n :: n in r <==> n in notes && Matches(n, term)
    ensures multiset(r) <= multiset(notes)
  {
    if notes == [] then []
    else
      var rest := Filtered(notes[1..], term);
      assert notes == [notes[0]] + notes[1..];
      (if Matches(notes[0], term) then [notes[0]] else []) + rest
  }

  /** The filter keeps every matching note as often as it is stored, and no other note. */
  lemma {:induction false} FilteredCount(notes: seq<DailyNote>, term: string)
    ensures forall n :: multiset(Filtered(notes, term))[n] == if Matches(n, term) then multiset(notes)[n] else 0
  {
    if notes != [] {
      FilteredCount(notes[1..], term);
      assert notes == [notes[0]] + notes[1..];
      assert multiset(notes) == multiset{notes[0]} + multiset(notes[1..]);
    }
  }

  /** Newest date first: no note is newer than one listed before it. */
  predicate NewestFirst(s: seq<DailyNote>) {
    forall i, j :: 0 <= i < j < |s| ==> NotAfter(s[j].date, s[i].date)
  }

  /** `x` placed before the first note that is not newer than it. */
  function Insert(x: DailyNote, t: seq<DailyNote>): seq<DailyNote> {
    if t == [] || NotAfter(t[0].date, x.date) then [x] + t
    else [t[0]] + Insert(x, t[1..])
  }

  /** The order of `sort((a, b) => date(b) - date(a))`, as an insertion sort. */
  function SortNewestFirst(s: seq<DailyNote>): seq<DailyNote> {
    if s == [] then [] else Insert(s[0], SortNewestFirst(s[1..]))
  }

  /** No note of `s` is dated after `d`. */
  predicate NoneAfter(s: seq<DailyNote>, d: string) {
    forall k :: 0 <= k < |s| ==> NotAfter(s[k].date, d)
  }

  /** A note followed by a newest-first list of notes none newer than it. */
  lemma ConsSorted(y: DailyNote, rest: seq<DailyNote>)
    requires NewestFirst(rest) && NoneAfter(rest, y.date)
    ensures NewestFirst([y] + rest)
  {
    var r := [y] + rest;
    forall i, j | 0 <= i < j < |r|
      ensures NotAfter(r[j].date, r[i].date)
    {
      assert r[j] == rest[j - 1];
      if i > 0 {
        assert r[i] == rest[i - 1];
      }
    }
  }

  /** Inserting a note no newer than `d` into notes no newer than `d`. */
  lemma {:induction false} InsertBound(x: DailyNote, t: seq<DailyNote>, d: string)
    requires NoneAfter(t, d) && NotAfter(x.date, d)
    ensures NoneAfter(Insert(x, t), d)
  {
    if t != [] && !NotAfter(t[0].date, x.date) {
      assert NoneAfter(t[1..], d) by {
        forall k | 0 <= k < |t[1..]| ensures NotAfter(t[1..][k].date, d) {
          assert t[1..][k] == t[k + 1];
        }
      }
      InsertBound(x, t[1..], d);
    }
  }

  lemma {:induction false} InsertSorted(x: DailyNote, t: seq<DailyNote>)
    requires NewestFirst(t)
    ensures NewestFirst(Insert(x, t))
  {
    if t == [] {
    } else if NotAfter(t[0].date, x.date) {
      forall k | 0 <= k < |t| ensures NotAfter(t[k].date, x.date) {
        if k > 0 {
          NotAfterTransitive(t[k].date, t[0].date, x.date);
        }
      }
      ConsSorted(x, t);
    } else {
      NotAfterTotal(t[0].date, x.date);
      var tail := t[1..];
      assert NewestFirst(tail) by {
        forall i, j | 0 <= i < j < |tail| ensures NotAfter(tail[j].date, tail[i].date) {
          assert tail[i] == t[i + 1] && tail[j] == t[j + 1];
        }
      }
      assert NoneAfter(tail, t[0].date) by {
        forall k | 0 <= k < |tail| ensures NotAfter(tail[k].date, t[0].date) {
          assert tail[k] == t[k + 1];
        }
      }
      InsertSorted(x, tail);
      InsertBound(x, tail, t[0].date);
      ConsSorted(t[0], Insert(x, tail));
    }
  }

  lemma {:induction false} InsertPermutation(x: DailyNote, t: seq<DailyNote>)
    ensures multiset(Insert(x, t)) == multiset(t) + multiset{x}
  {
    if t != [] && !NotAfter(t[0].date, x.date) {
      InsertPermutation(x, t[1..]);
      assert t == [t[0]] + t[1..];
    }
  }

  /** The sorted list is newest first and holds exactly the notes it was given. */
  lemma {:induction false} SortNewestFirstCorrect(s: seq<DailyNote>)
    ensures NewestFirst(SortNewestFirst(s))
    ensures multiset(SortNewestFirst(s)) == multiset(s)
  {
    if s != [] {
      SortNewestFirstCorrect(s[1..]);
      InsertSorted(s[0], SortNewestFirst(s[1..]));
      InsertPermutation(s[0], SortNewestFirst(s[1..]));
      assert s == [s[0]] + s[1..];
    }
  }

  /** `filteredNotes` for the search term. */
  function FilteredNotes(notes: seq<DailyNote>, term: string): seq<DailyNote> {
    SortNewestFirst(Filtered(notes, term))
  }

  /** A note is listed exactly when it is stored and matches the term, as often as it is
      stored; the list is newest first; an empty term lists every note. */
  lemma FilteredNotesCorrect(notes: seq<DailyNote>, term: string)
    ensures forall n :: n in FilteredNotes(notes, term) <==> n in notes && Matches(n, term)
    ensures forall n ::
      multiset(FilteredNotes(notes, term))[n] == if Matches(n, term) then multiset(notes)[n] else 0
    ensures NewestFirst(FilteredNotes(notes, term))
    ensures multiset(FilteredNotes(notes, term)) <= multiset(notes)
    ensures term == "" ==> multiset(FilteredNotes(notes, term)) == multiset(notes)
  {
    var f := Filtered(notes, term);
    SortNewestFirstCorrect(f);
    FilteredCount(notes, term);
    assert forall n :: n in FilteredNotes(notes, term) <==> n in multiset(f);
    if term == "" {
      forall j | 0 <= j < |notes|
        ensures Matches(notes[j], term)
      {
        ContainsEmpty(Lower(notes[j].content));
      }
      AllMatchKeepsAll(notes, term);
    }
  }

  lemma {:induction false} AllMatchKeepsAll(notes: seq<DailyNote>, term: string)
    requires forall j :: 0 <= j < |notes| ==> Matches(notes[j], term)
    ensures Filtered(notes, term) == notes
  {
    if notes != [] {
      var tail := notes[1..];
      forall j | 0 <= j < |tail|
        ensures Matches(tail[j], term)
      {
        assert tail[j] == notes[j + 1];
      }
      AllMatchKeepsAll(tail, term);
      assert Filtered(notes, term) == [notes[0]] + Filtered(tail, term);
    }
  }

  // ---------------------------------------------------------------- search example

  /** A note written "Hello" on 2024-01-01. */
  predicate IsHello(n: DailyNote) { n.content == "Hello" && n.date == "2024-01-01" }

  /** A note written "World" on 2024-02-02. */
  predicate IsWorld(n: DailyNote) { n.content == "World" && n.date == "2024-02-02" }

  lemma LowerHello()
    ensures Lower("Hello") == "hello"
  {
  }

  lemma LowerWorld()
    ensures Lower("World") == "world"
  {
  }

  lemma LowerTerm()
    ensures Lower("hel") == "hel"
  {
  }

  lemma LowerUpperTerm()
    ensures Lower("HEL") == "hel"
  {
  }

  lemma HelloMatches(n: DailyNote)
    requires IsHello(n)
    ensures Matches(n, "hel") && Matches(n, "HEL")
  {
    LowerHello();
    LowerTerm();
    LowerUpperTerm();
    assert OccursAt("hello", "hel", 0);
  }

  lemma HelloLacksMonth(n: DailyNote)
    requires IsHello(n)
    ensures !Matches(n, "2024-02")
  {
    NoOccurrence("2024-01-01", "2024-02", 6);
    NoOccurrence(Lower("Hello"), Lower("2024-02"), 0);
  }

  /** Neither "world" nor the date "2024-02-02" includes "hel" or "HEL": no 'h' or 'H' occurs
      in them. The texts are parameters so that `Contains` is not unfolded on constants. */
  lemma WorldTextsLackTerm(word: string, date: string, term: string, upper: string)
    requires word == "world" && date == "2024-02-02" && term == "hel" && upper == "HEL"
    ensures !Contains(word, term) && !Contains(date, term) && !Contains(date, upper)
  {
    NoOccurrence(word, term, 0);
    NoOccurrence(date, term, 0);
    NoOccurrence(date, upper, 0);
  }

  lemma WorldLacksTerm(n: DailyNote)
    requires IsWorld(n)
    ensures !Matches(n, "hel") && !Matches(n, "HEL")
  {
    LowerWorld();
    LowerTerm();
    LowerUpperTerm();
    WorldTextsLackTerm("world", "2024-02-02", "hel", "HEL");
  }

  lemma WorldMatchesMonth(n: DailyNote)
    requires IsWorld(n)
    ensures Matches(n, "2024-02")
  {
    assert OccursAt("2024-02-02", "2024-02", 0);
  }

  /** Filtering two notes keeps each one that matches, in order. */
  lemma FilteredPair(a: DailyNote, b: DailyNote, term: string)
    ensures Filtered([a, b], term)
            == (if Matches(a, term) then [a] else []) + (if Matches(b, term) then [b] else [])
  {
    assert [a, b][1..] == [b];
    assert [b][1..] == [];
    assert Filtered([b], term) == (if Matches(b, term) then [b] else []) + Filtered([], term);
  }

  /** When exactly one of two notes matches, the search lists that one alone. */
  lemma SearchPair(a: DailyNote, b: DailyNote, term: string)
    requires Matches(a, term) != Matches(b, term)
    ensures FilteredNotes([a, b], term) == if Matches(a, term) then [a] else [b]
  {
    FilteredPair(a, b, term);
    var one := if Matches(a, term) then a else b;
    assert Filtered([a, b], term) == [one];
    SortSingle(one);
  }

  lemma SortSingle(x: DailyNote)
    ensures SortNewestFirst([x]) == [x]
  {
    assert [x][1..] == [];
  }

  /** Two notes, "Hello" of 2024-01-01 and "World" of 2024-02-02: searching "hel" finds only the
      first, whatever the case of the term; searching "2024-02" finds only the second, by its
      date. */
  lemma SearchExample(hello: DailyNote, world: DailyNote)
    requires IsHello(hello) && IsWorld(world)
    ensures FilteredNotes([hello, world], "hel") == [hello]
    ensures FilteredNotes([hello, world], "HEL") == [hello]
    ensures FilteredNotes([hello, world], "2024-02") == [world]
  {
    HelloMatches(hello);
    HelloLacksMonth(hello);
    WorldLacksTerm(world);
    WorldMatchesMonth(world);
    SearchPair(hello, world, "hel");
    SearchPair(hello, world, "HEL");
    SearchPair(hello, world, "2024-02");
  }

  // ---------------------------------------------------------------- preview

  /** The preview of a note: `content.slice(0, 100)`, then '...' when the content is longer. */
  function Preview(content: string): (r: string)
    ensures |content| <= 100 ==> r == content
    ensures |content| > 100 ==> |r| == 103 && r[..100] == content[..100] && r[100..] == "..."
    ensures |r| <= 103
  {
    var shown := if |content| <= 100 then content else content[..100];
    shown + (if |content| > 100 then "..." else "")
  }

  // ---------------------------------------------------------------- component state

  /** The journal's stored notes, the selected date, the search box and the edit state. */
  class Journal {
    var notes: seq<DailyNote>
    var selectedDate: string
    var searchTerm: string
    var isEditing: bool
    var editingNote: string

    /** The notes as loaded from storage, today selected, nothing searched or edited. */
    constructor (stored: seq<DailyNote>, today: string)
      ensures notes == stored && selectedDate == today && searchTerm == ""
      ensures !isEditing && editingNote == ""
    {
      notes := stored;
      selectedDate := today;
      searchTerm := "";
      isEditing := false;
      editingNote := "";
    }

    /** The date input and the date links of the list. */
    method SelectDate(date: string)
      modifies this
      ensures selectedDate == date
      ensures notes == old(notes) && searchTerm == old(searchTerm)
      ensures isEditing == old(isEditing) && editingNote == old(editingNote)
    {
      selectedDate := date;
    }

    /** The search box. */
    method Search(term: string)
      modifies this
      ensures searchTerm == term
      ensures notes == old(notes) && selectedDate == old(selectedDate)
      ensures isEditing == old(isEditing) && editingNote == old(editingNote)
    {
      searchTerm := term;
    }

    /** The text area of the editor. */
    method EditDraft(text: string)
      modifies this
      ensures editingNote == text
      ensures notes == old(notes) && selectedDate == old(selectedDate)
      ensures searchTerm == old(searchTerm) && isEditing == old(isEditing)
    {
      editingNote := text;
    }

    /** `startEditing()`: load the current note into the draft and open the editor. */
    method StartEditing()
      modifies this
      ensures isEditing && editingNote == DraftFor(old(notes), old(selectedDate))
      ensures notes == old(notes) && selectedDate == old(selectedDate) && searchTerm == old(searchTerm)
    {
      var currentNote := CurrentNote(notes, selectedDate);
      editingNote := if currentNote.Some? then OrElse(currentNote.value.content, "") else "";
      isEditing := true;
    }

    /** `cancelEditing()`: close the editor and drop the draft; the notes are untouched. */
    method CancelEditing()
      modifies this
      ensures !isEditing && editingNote == ""
      ensures notes == old(notes) && selectedDate == old(selectedDate) && searchTerm == old(searchTerm)
    {
      isEditing := false;
      editingNote := "";
    }

    /** `saveNote()` with an id no note uses: store the draft, then close the editor and clear
        the draft whether or not anything was stored. */
    method SaveNote(freshId: string)
      requires !Keyed.HasKey(notes, NoteId, freshId)
      modifies this
      ensures notes == Saved(old(notes), old(selectedDate), old(editingNote), freshId)
      ensures !isEditing && editingNote == ""
      ensures selectedDate == old(selectedDate) && searchTerm == old(searchTerm)
    {
      if Trim(editingNote) != "" {
        var existingNote := CurrentNote(notes, selectedDate);
        if existingNote.Some? {
          notes := Keyed.UpdateWhere(notes, NoteId, existingNote.value.id, ContentSetter(editingNote));
        } else {
          var newNote := DailyNote(freshId, selectedDate, editingNote, None);
          notes := notes + [newNote];
        }
      }
      isEditing := false;
      editingNote := "";
    }

    /** `deleteNote(id)`. */
    method DeleteNote(id: string)
      modifies this
      ensures notes == Deleted(old(notes), id)
      ensures selectedDate == old(selectedDate) && searchTerm == old(searchTerm)
      ensures isEditing == old(isEditing) && editingNote == old(editingNote)
    {
      notes := Deleted(notes, id);
    }
  }
}
