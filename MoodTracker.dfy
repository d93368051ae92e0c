/** The mood tracker (lifeplanner/src/components/MoodTracker.tsx): at most one mood entry per
    calendar date, logged for the selected date together with the trimmed note draft. */
module MoodTracker {
  import opened Types
  import opened Text
  import Keyed

  // ---------------------------------------------------------------- mood table

  /** A row of MOODS: the tag, its colour class and its emoji. */
  datatype MoodRow = MoodRow(kind: Mood, color: string, emoji: string)

  const MOODS: seq<MoodRow> := [
    MoodRow(Feliz, "bg-yellow-100 text-yellow-800", "\U{1F60A}"),
    MoodRow(Triste, "bg-blue-100 text-blue-800", "\U{1F622}"),
    MoodRow(Estresado, "bg-red-100 text-red-800", "\U{1F630}"),
    MoodRow(Motivado, "bg-green-100 text-green-800", "\U{1F4AA}"),
    MoodRow(Cansado, "bg-gray-100 text-gray-800", "\U{1F634}")
  ]

  const COLOR_FALLBACK: string := "bg-gray-100 text-gray-800"
  const EMOJI_FALLBACK: string := "\U{1F610}"

  /** Position of a tag in MOODS. */
  function MoodOrdinal(m: Mood): nat {
    match m
    case Feliz => 0
    case Triste => 1
    case Estresado => 2
    case Motivado => 3
    case Cansado => 4
  }

  function RowName(row: MoodRow): string { MoodName(row.kind) }

  /** Looking a tag's text up in MOODS finds the tag's own row. */
  lemma MoodIndex(m: Mood)
    ensures Keyed.IndexOf(MOODS, RowName, MoodName(m)) == MoodOrdinal(m)
    ensures MOODS[MoodOrdinal(m)].kind == m
  {
    TagNamesInjective();
    Keyed.IndexOfIs(MOODS, RowName, MoodName(m), MoodOrdinal(m));
  }

  /** A text is found in MOODS exactly when it is a tag's text, at that tag's row. */
  lemma MoodLookup(tag: string)
    ensures (forall m :: MoodName(m) != tag) ==> !Keyed.HasKey(MOODS, RowName, tag)
    ensures forall m :: MoodName(m) == tag ==> Keyed.IndexOf(MOODS, RowName, tag) == MoodOrdinal(m)
    ensures forall m :: MOODS[MoodOrdinal(m)].kind == m
  {
    forall m: Mood
      ensures MoodName(m) == tag ==> Keyed.IndexOf(MOODS, RowName, tag) == MoodOrdinal(m)
      ensures MOODS[MoodOrdinal(m)].kind == m
    {
      MoodIndex(m);
    }
  }

  /** `getMoodColor`: the colour class of the tag's row; a text that is no tag gets the grey
      fallback. */
  function MoodColor(tag: string): (r: string)
    ensures (forall m :: MoodName(m) != tag) ==> r == COLOR_FALLBACK
    ensures forall m :: MoodName(m) == tag ==> r == MOODS[MoodOrdinal(m)].color
  {
    MoodLookup(tag);
    match Keyed.Find(MOODS, RowName, tag)
    case Some(row) => OrElse(row.color, COLOR_FALLBACK)
    case None => COLOR_FALLBACK
  }

  /** `getMoodEmoji`: the emoji of the tag's row; a text that is no tag gets the neutral face. */
  function MoodEmoji(tag: string): (r: string)
    ensures (forall m :: MoodName(m) != tag) ==> r == EMOJI_FALLBACK
    ensures forall m :: MoodName(m) == tag ==> r == MOODS[MoodOrdinal(m)].emoji
  {
    MoodLookup(tag);
    match Keyed.Find(MOODS, RowName, tag)
    case Some(row) => OrElse(row.emoji, EMOJI_FALLBACK)
    case None => EMOJI_FALLBACK
  }

  /** Every tag has its own colour class and its own emoji, and neither is a fallback. */
  lemma MoodTableDistinct(m: Mood, n: Mood)
    requires m != n
    ensures MoodColor(MoodName(m)) != MoodColor(MoodName(n))
    ensures MoodEmoji(MoodName(m)) != MoodEmoji(MoodName(n))
    ensures MoodEmoji(MoodName(m)) != EMOJI_FALLBACK
  {
    MoodLookup(MoodName(m));
    MoodLookup(MoodName(n));
  }

  // ---------------------------------------------------------------- entries

  function DateOf(e: MoodEntry): string { e.date }

  /** `todayMood`: the first entry for the date, if any. */
  function TodayMood(moods: seq<MoodEntry>, date: string): (r: Option<MoodEntry>)
    ensures r.None? <==> forall j :: 0 <= j < |moods| ==> moods[j].date != date
    ensures r.Some? ==> r.value.date == date
    ensures r.Some? ==> exists i :: 0 <= i < |moods| && moods[i] == r.value &&
                          forall j :: 0 <= j < i ==> moods[j].date != date
  {
    var r := Keyed.Find(moods, DateOf, date);
    if r.Some? then
      var i := Keyed.IndexOf(moods, DateOf, date);
      assert moods[i] == r.value;
      r
    else
      r
  }

  /** `note.trim() || undefined`: the trimmed draft, absent when nothing but white space. */
  function StoredNote(draft: string): (r: Option<string>)
    ensures r.None? <==> AllSpace(draft)
    ensures r.Some? ==> r.value == Trim(draft) && r.value != ""
  {
    var t := Trim(draft);
    if t == "" then None else Some(t)
  }

  /** The entries after `addMood(mood)` for the selected date with the given draft. */
  function Logged(moods: seq<MoodEntry>, date: string, mood: Mood, draft: string): seq<MoodEntry> {
    Keyed.Upsert(moods, DateOf, MoodEntry(date, mood, StoredNote(draft)))
  }

  /** After logging, the date's entry carries the chosen mood and exactly the stored form of the
      draft, whatever note was there before; an entry already present keeps its position and a
      new date is appended at the end; every other entry keeps its value and position. */
  lemma LoggedEffect(moods: seq<MoodEntry>, date: string, mood: Mood, draft: string)
    ensures TodayMood(Logged(moods, date, mood, draft), date)
            == Some(MoodEntry(date, mood, StoredNote(draft)))
    ensures forall j :: 0 <= j < |moods| && moods[j].date != date ==>
      Logged(moods, date, mood, draft)[j] == moods[j]
    ensures Keyed.HasKey(moods, DateOf, date) ==>
      Logged(moods, date, mood, draft)
      == moods[Keyed.IndexOf(moods, DateOf, date) := MoodEntry(date, mood, StoredNote(draft))]
    ensures !Keyed.HasKey(moods, DateOf, date) ==>
      Logged(moods, date, mood, draft) == moods + [MoodEntry(date, mood, StoredNote(draft))]
  {
    var e := MoodEntry(date, mood, StoredNote(draft));
    if Keyed.HasKey(moods, DateOf, date) {
      Keyed.UpsertInPlace(moods, DateOf, e);
    }
  }

  /** Logging leaves exactly one entry for the date when there was at most one before, and the
      number of entries of every other date is unchanged. */
  lemma LoggedCount(moods: seq<MoodEntry>, date: string, mood: Mood, draft: string, other: string)
    requires Keyed.Count(moods, DateOf, date) <= 1
    ensures Keyed.Count(Logged(moods, date, mood, draft), DateOf, date) == 1
    ensures other != date ==>
      Keyed.Count(Logged(moods, date, mood, draft), DateOf, other) == Keyed.Count(moods, DateOf, other)
  {
    var e := MoodEntry(date, mood, StoredNote(draft));
    Keyed.UpsertCount(moods, DateOf, e, date);
    Keyed.UpsertCount(moods, DateOf, e, other);
  }

  /** Logging keeps dates unique and does not change what any other date shows. */
  lemma LoggedOtherDate(moods: seq<MoodEntry>, date: string, mood: Mood, draft: string, other: string)
    requires other != date
    ensures TodayMood(Logged(moods, date, mood, draft), other) == TodayMood(moods, other)
    ensures Keyed.Unique(moods, DateOf) ==> Keyed.Unique(Logged(moods, date, mood, draft), DateOf)
  {
    var e := MoodEntry(date, mood, StoredNote(draft));
    Keyed.UpsertOtherKey(moods, DateOf, e, other);
    if Keyed.Unique(moods, DateOf) {
      Keyed.UpsertKeepsUnique(moods, DateOf, e);
    }
  }

  /** One day of the recent-moods strip: the date with the mood and note of its entry, if any. */
  datatype RecentDay = RecentDay(date: string, mood: Option<Mood>, note: Option<string>)

  /** `getRecentMoods()` over the given dates (the last seven calendar days, oldest first). */
  function RecentMoods(moods: seq<MoodEntry>, days: seq<string>): (r: seq<RecentDay>)
    ensures |r| == |days|
    ensures forall i :: 0 <= i < |days| ==> r[i].date == days[i]
    ensures forall i :: 0 <= i < |days| && TodayMood(moods, days[i]).None? ==>
      r[i].mood == None && r[i].note == None
    ensures forall i :: 0 <= i < |days| && TodayMood(moods, days[i]).Some? ==>
      r[i].mood == Some(TodayMood(moods, days[i]).value.mood) && r[i].note == TodayMood(moods, days[i]).value.note
  {
    seq(|days|, i requires 0 <= i < |days| =>
      match TodayMood(moods, days[i])
      case Some(e) => RecentDay(days[i], Some(e.mood), e.note)
      case None => RecentDay(days[i], None, None))
  }

  /** After logging a mood, the strip shows it, with the stored note, on every slot of that
      date, and every other slot is as it was. */
  lemma RecentShowsLogged(moods: seq<MoodEntry>, days: seq<string>, date: string, mood: Mood, draft: string)
    ensures forall i :: 0 <= i < |days| && days[i] == date ==>
      RecentMoods(Logged(moods, date, mood, draft), days)[i] == RecentDay(date, Some(mood), StoredNote(draft))
    ensures forall i :: 0 <= i < |days| && days[i] != date ==>
      RecentMoods(Logged(moods, date, mood, draft), days)[i] == RecentMoods(moods, days)[i]
  {
    LoggedEffect(moods, date, mood, draft);
    forall i | 0 <= i < |days| && days[i] != date
      ensures RecentMoods(Logged(moods, date, mood, draft), days)[i] == RecentMoods(moods, days)[i]
    {
      LoggedOtherDate(moods, date, mood, draft, days[i]);
    }
  }

  // ---------------------------------------------------------------- component state

  /** The tracker's stored entries, the selected date and the note draft. */
  class MoodLog {
    var moods: seq<MoodEntry>
    var selectedDate: string
    var note: string

    /** Stored entries, today's date selected, an empty draft. */
    constructor (stored: seq<MoodEntry>, today: string)
      ensures moods == stored && selectedDate == today && note == ""
    {
      moods := stored;
      selectedDate := today;
      note := "";
    }

    /** The date input. */
    method SelectDate(date: string)
      modifies this
      ensures selectedDate == date && moods == old(moods) && note == old(note)
    {
      selectedDate := date;
    }

    /** The note text area. */
    method EditNote(draft: string)
      modifies this
      ensures note == draft && moods == old(moods) && selectedDate == old(selectedDate)
    {
      note := draft;
    }

    /** `addMood(mood)`: log the mood for the selected date, then clear the draft. */
    method AddMood(mood: Mood)
      modifies this
      ensures moods == Logged(old(moods), old(selectedDate), mood, old(note))
      ensures note == "" && selectedDate == old(selectedDate)
    {
      var existingIndex := Keyed.IndexOf(moods, DateOf, selectedDate);
      var newEntry := MoodEntry(selectedDate, mood, StoredNote(note));
      if existingIndex >= 0 {
        var updated := moods;
        updated := updated[existingIndex := newEntry];
        moods := updated;
      } else {
        moods := moods + [newEntry];
      }
      note := "";
    }
  }
}
