/** The weekly planner (lifeplanner/src/components/WeeklyPlanner.tsx): a grid of time blocks
    keyed by (day, hour) whose activity tag is rotated by a click, and a free-text note per day. */
module WeeklyPlanner {
  import opened Types
  import opened Text
  import Keyed

  // ---------------------------------------------------------------- hour labels

  function DigitChar(d: int): (c: char)
    requires 0 <= d < 10
  {
    ('0' as int + d) as char
  }

  /** `n.toString()` for a natural number. */
  function DecimalString(n: nat): string {
    if n < 10 then [DigitChar(n)] else DecimalString(n / 10) + [DigitChar(n % 10)]
  }

  /** `s.padStart(width, fill)` with a one-character fill. */
  function PadStart(s: string, width: nat, fill: char): (r: string)
    ensures |r| == if |s| < width then width else |s|
    ensures r[|r| - |s|..] == s
    ensures forall k :: 0 <= k < |r| - |s| ==> r[k] == fill
  {
    if |s| >= width then s else seq(width - |s|, _ => fill) + s
  }

  /** The label of an hour of the grid: two zero-padded digits and ":00". */
  function HourLabel(hour: nat): string {
    PadStart(DecimalString(hour), 2, '0') + ":00"
  }

  /** HOURS: the 18 rows of the grid, 06:00 to 23:00. */
  const HOURS: seq<string> := seq(18, i requires 0 <= i => HourLabel(i + 6))

  /** The hour a label "HH:00" reads as: its two leading digits. */
  function LabelHour(text: string): int
    requires |text| >= 2
  {
    (text[0] as int - '0' as int) * 10 + (text[1] as int - '0' as int)
  }

  /** A two-digit hour label reads back as its hour. */
  lemma HourLabelDigits(hour: nat)
    requires hour < 100
    ensures HourLabel(hour) == [DigitChar(hour / 10), DigitChar(hour % 10), ':', '0', '0']
    ensures LabelHour(HourLabel(hour)) == hour
  {
    if hour < 10 {
      assert DecimalString(hour) == [DigitChar(hour)];
    } else {
      assert DecimalString(hour / 10) == [DigitChar(hour / 10)];
    }
  }

  /** HOURS has 18 entries, "06:00" first and "23:00" last; entry i is the zero-padded label of
      hour i + 6, so the entries are five characters ending in ":00" and pairwise distinct. */
  lemma HoursShape()
    ensures |HOURS| == 18 && HOURS[0] == "06:00" && HOURS[17] == "23:00"
    ensures forall i :: 0 <= i < 18 ==> |HOURS[i]| == 5 && HOURS[i][2..] == ":00"
    ensures forall i :: 0 <= i < 18 ==> LabelHour(HOURS[i]) == i + 6
    ensures forall i, j :: 0 <= i < j < 18 ==> HOURS[i] != HOURS[j]
  {
    forall i | 0 <= i < 18
      ensures |HOURS[i]| == 5 && HOURS[i][2..] == ":00" && LabelHour(HOURS[i]) == i + 6
    {
      HourEntry(i);
    }
    forall i, j | 0 <= i < j < 18
      ensures HOURS[i] != HOURS[j]
    {
      HourEntry(i);
      HourEntry(j);
    }
    HoursEnds(0, 17);
  }

  lemma HourEntry(i: nat)
    requires i < 18
    ensures HOURS[i] == [DigitChar((i + 6) / 10), DigitChar((i + 6) % 10), ':', '0', '0']
    ensures |HOURS[i]| == 5 && HOURS[i][2..] == ":00" && LabelHour(HOURS[i]) == i + 6
  {
    assert HOURS[i] == HourLabel(i + 6);
    HourLabelDigits(i + 6);
  }

  /** The first and last rows, given as parameters so that their labels are not unfolded as
      constants. */
  lemma HoursEnds(first: nat, last: nat)
    requires first == 0 && last == 17
    ensures HOURS[first] == "06:00" && HOURS[last] == "23:00"
  {
    HourFirst(first);
    HourLast(last);
  }

  lemma HourFirst(first: nat)
    requires first == 0
    ensures HOURS[first] == "06:00"
  {
    HourEntry(first);
  }

  lemma HourLast(last: nat)
    requires last == 17
    ensures HOURS[last] == "23:00"
  {
    HourEntry(last);
    assert (last + 6) / 10 == 2 && (last + 6) % 10 == 3;
  }

  // ---------------------------------------------------------------- activities

  /** ACTIVITIES: the rotation order of the tags and their colour classes. */
  const ACTIVITIES: seq<Activity> := [
    Activity("trabajo", Trabajo, "bg-blue-100 text-blue-800"),
    Activity("estudio", Estudio, "bg-green-100 text-green-800"),
    Activity("gym", Gym, "bg-yellow-100 text-yellow-800"),
    Activity("hobby", ActivityType.Hobby, "bg-pink-100 text-pink-800"),
    Activity("libre", Libre, "bg-gray-50 text-gray-600")
  ]

  /** Position of a tag in ACTIVITIES. */
  function Ordinal(a: ActivityType): nat {
    match a
    case Trabajo => 0
    case Estudio => 1
    case Gym => 2
    case Hobby => 3
    case Libre => 4
  }

  function RowName(row: Activity): string { ActivityName(row.kind) }
  function RowKind(row: Activity): ActivityType { row.kind }

  /** Looking a tag's text up in ACTIVITIES finds the tag's own row. */
  lemma ActivityIndex(a: ActivityType)
    ensures Keyed.IndexOf(ACTIVITIES, RowName, ActivityName(a)) == Ordinal(a)
    ensures ACTIVITIES[Ordinal(a)].kind == a
  {
    TagNamesInjective();
    Keyed.IndexOfIs(ACTIVITIES, RowName, ActivityName(a), Ordinal(a));
  }

  /** `getActivityColor`: the colour class of the row for the tag's text, with a grey fallback
      for a text that is no tag. */
  function ActivityColor(tag: string): (r: string)
    ensures (forall a :: ActivityName(a) != tag) ==> r == "bg-gray-50 text-gray-600"
    ensures forall a :: ActivityName(a) == tag ==> r == ACTIVITIES[Ordinal(a)].color
  {
    ActivityLookup(tag);
    match Keyed.Find(ACTIVITIES, RowName, tag)
    case Some(row) => OrElse(row.color, "bg-gray-50 text-gray-600")
    case None => "bg-gray-50 text-gray-600"
  }

  /** A text is found in ACTIVITIES exactly when it is a tag's text, at that tag's row. */
  lemma ActivityLookup(tag: string)
    ensures (forall a :: ActivityName(a) != tag) ==> !Keyed.HasKey(ACTIVITIES, RowName, tag)
    ensures forall a :: ActivityName(a) == tag ==> Keyed.IndexOf(ACTIVITIES, RowName, tag) == Ordinal(a)
    ensures forall a :: ACTIVITIES[Ordinal(a)].kind == a
  {
    forall a
      ensures ActivityName(a) == tag ==> Keyed.IndexOf(ACTIVITIES, RowName, tag) == Ordinal(a)
      ensures ACTIVITIES[Ordinal(a)].kind == a
    {
      ActivityIndex(a);
    }
  }

  /** The tag a click moves to: the next one in ACTIVITIES, wrapping around. */
  function NextActivity(current: ActivityType): ActivityType {
    var currentIndex := Keyed.IndexOf(ACTIVITIES, RowKind, current);
    var nextIndex := (currentIndex + 1) % |ACTIVITIES|;
    ACTIVITIES[nextIndex].kind
  }

  /** A click moves a tag to the next position of ACTIVITIES, wrapping from the last to the first. */
  lemma NextActivityOrdinal(a: ActivityType)
    ensures Ordinal(NextActivity(a)) == (Ordinal(a) + 1) % 5
  {
    KindIndex(a);
    ActivityOrder();
  }

  lemma KindIndex(a: ActivityType)
    ensures Keyed.IndexOf(ACTIVITIES, RowKind, a) == Ordinal(a)
  {
    ActivityOrder();
    Keyed.IndexOfIs(ACTIVITIES, RowKind, a, Ordinal(a));
  }

  /** Row j of ACTIVITIES holds the tag of ordinal j. */
  lemma ActivityOrder()
    ensures |ACTIVITIES| == 5
    ensures forall j :: 0 <= j < 5 ==> Ordinal(RowKind(ACTIVITIES[j])) == j
  {
  }

  /** The rotation stated outright: Trabajo, Estudio, Gym, Hobby, Libre, then Trabajo again. */
  function Successor(a: ActivityType): ActivityType {
    match a
    case Trabajo => Estudio
    case Estudio => Gym
    case Gym => ActivityType.Hobby
    case Hobby => Libre
    case Libre => Trabajo
  }

  /** The table-driven rotation of the planner is that cycle; in particular the first click on a
      cell without a block (shown as 'Libre') gives 'Trabajo'. */
  lemma NextActivityIsSuccessor(a: ActivityType)
    ensures NextActivity(a) == Successor(a)
  {
    var n := NextActivity(a);
    NextActivityOrdinal(a);
    SuccessorOrdinal(a);
    OrdinalInjective(n, Successor(a));
  }

  lemma SuccessorOrdinal(a: ActivityType)
    ensures Ordinal(Successor(a)) == (Ordinal(a) + 1) % 5
  {
  }

  lemma OrdinalInjective(a: ActivityType, b: ActivityType)
    requires Ordinal(a) == Ordinal(b)
    ensures a == b
  {
  }

  /** The tag reached from `a` after `n` steps of the rotation. */
  function Advance(a: ActivityType, n: nat): ActivityType {
    if n == 0 then a else Successor(Advance(a, n - 1))
  }

  /** `n` steps move a tag `n` positions along ACTIVITIES, modulo its length. */
  lemma {:induction false} AdvanceOrdinal(a: ActivityType, n: nat)
    ensures Ordinal(Advance(a, n)) == (Ordinal(a) + n) % 5
  {
    if n > 0 {
      AdvanceOrdinal(a, n - 1);
      SuccessorOrdinal(Advance(a, n - 1));
      ModStep(Ordinal(a) + n - 1);
    }
  }

  lemma ModStep(o: nat)
    ensures (o % 5 + 1) % 5 == (o + 1) % 5
  {
  }

  /** The rotation has period exactly five: `n` steps bring a tag back exactly when five
      divides `n`. */
  lemma RotationPeriod(a: ActivityType, n: nat)
    ensures Advance(a, n) == a <==> n % 5 == 0
  {
    AdvanceOrdinal(a, n);
    if n % 5 == 0 {
      OrdinalInjective(Advance(a, n), a);
    }
  }

  // ---------------------------------------------------------------- time blocks

  function BlockKey(b: TimeBlock): (string, string) { (b.day, b.hour) }

  /** `getBlockActivity`: the activity of the first block for (day, hour), 'Libre' when none. */
  function BlockActivity(blocks: seq<TimeBlock>, day: string, hour: string): (r: ActivityType)
    ensures Keyed.HasKey(blocks, BlockKey, (day, hour)) ==>
      r == blocks[Keyed.IndexOf(blocks, BlockKey, (day, hour))].activity
    ensures !Keyed.HasKey(blocks, BlockKey, (day, hour)) ==> r == Libre
  {
    match Keyed.Find(blocks, BlockKey, (day, hour))
    case Some(block) => block.activity
    case None => Libre
  }

  /** The blocks after one click on (day, hour). */
  function Cycled(blocks: seq<TimeBlock>, day: string, hour: string): seq<TimeBlock> {
    Keyed.Upsert(blocks, BlockKey, TimeBlock(day, hour, NextActivity(BlockActivity(blocks, day, hour))))
  }

  /** One click: (day, hour) now shows the next tag; the block is replaced in place or appended,
      so the length grows by at most one; other keys keep their blocks; keys stay unique. */
  lemma CycledEffect(blocks: seq<TimeBlock>, day: string, hour: string)
    ensures BlockActivity(Cycled(blocks, day, hour), day, hour)
            == NextActivity(BlockActivity(blocks, day, hour))
    ensures |blocks| <= |Cycled(blocks, day, hour)| <= |blocks| + 1
    ensures forall j :: 0 <= j < |blocks| && BlockKey(blocks[j]) != (day, hour) ==>
      Cycled(blocks, day, hour)[j] == blocks[j]
    ensures Keyed.Unique(blocks, BlockKey) ==> Keyed.Unique(Cycled(blocks, day, hour), BlockKey)
  {
    var b := TimeBlock(day, hour, NextActivity(BlockActivity(blocks, day, hour)));
    if Keyed.Unique(blocks, BlockKey) {
      Keyed.UpsertKeepsUnique(blocks, BlockKey, b);
    }
  }

  function CycledN(blocks: seq<TimeBlock>, day: string, hour: string, n: nat): seq<TimeBlock> {
    if n == 0 then blocks else Cycled(CycledN(blocks, day, hour, n - 1), day, hour)
  }

  lemma {:induction false} CycledNUpsert(blocks: seq<TimeBlock>, day: string, hour: string, n: nat)
    requires n > 0
    ensures CycledN(blocks, day, hour, n)
            == Keyed.Upsert(blocks, BlockKey, TimeBlock(day, hour, Advance(BlockActivity(blocks, day, hour), n)))
  {
    var a := BlockActivity(blocks, day, hour);
    if n > 1 {
      CycledNUpsert(blocks, day, hour, n - 1);
      var prev := TimeBlock(day, hour, Advance(a, n - 1));
      var s := Keyed.Upsert(blocks, BlockKey, prev);
      assert BlockActivity(s, day, hour) == Advance(a, n - 1);
      NextActivityIsSuccessor(Advance(a, n - 1));
      Keyed.UpsertTwice(blocks, BlockKey, prev, TimeBlock(day, hour, Advance(a, n)));
    } else {
      NextActivityIsSuccessor(a);
    }
  }

  /** Clicking a cell brings back the tag it showed exactly when the number of clicks is a
      multiple of five. After such a run of clicks, when a block for the cell was stored the
      whole collection is restored; otherwise a 'Libre' block has been appended. */
  lemma CyclesRestore(blocks: seq<TimeBlock>, day: string, hour: string, n: nat)
    requires n > 0
    ensures BlockActivity(CycledN(blocks, day, hour, n), day, hour) == BlockActivity(blocks, day, hour)
            <==> n % 5 == 0
    ensures n % 5 == 0 && Keyed.HasKey(blocks, BlockKey, (day, hour)) ==>
      CycledN(blocks, day, hour, n) == blocks
    ensures n % 5 == 0 && !Keyed.HasKey(blocks, BlockKey, (day, hour)) ==>
      CycledN(blocks, day, hour, n) == blocks + [TimeBlock(day, hour, Libre)]
  {
    var a := BlockActivity(blocks, day, hour);
    CycledNUpsert(blocks, day, hour, n);
    RotationPeriod(a, n);
    if n % 5 == 0 && Keyed.HasKey(blocks, BlockKey, (day, hour)) {
      var i := Keyed.IndexOf(blocks, BlockKey, (day, hour));
      assert blocks[i] == TimeBlock(day, hour, a);
      assert blocks[i := TimeBlock(day, hour, a)] == blocks;
    }
  }

  // ---------------------------------------------------------------- day notes

  function NoteDay(n: DayNote): string { n.day }

  /** `getDayNote`: the note of the first entry for the day, '' when there is none. */
  function DayNoteText(notes: seq<DayNote>, day: string): (r: string)
    ensures !Keyed.HasKey(notes, NoteDay, day) ==> r == ""
    ensures Keyed.HasKey(notes, NoteDay, day) ==> r == notes[Keyed.IndexOf(notes, NoteDay, day)].note
  {
    match Keyed.Find(notes, NoteDay, day)
    case Some(n) => OrElse(n.note, "")
    case None => ""
  }

  /** The day notes after `updateDayNote(day, note)`. */
  function WithDayNote(notes: seq<DayNote>, day: string, note: string): seq<DayNote> {
    Keyed.Upsert(notes, NoteDay, DayNote(day, note))
  }

  /** After an update the day shows the new note, other days are untouched, no day is duplicated. */
  lemma WithDayNoteEffect(notes: seq<DayNote>, day: string, note: string, other: string)
    requires other != day
    ensures DayNoteText(WithDayNote(notes, day, note), day) == note
    ensures DayNoteText(WithDayNote(notes, day, note), other) == DayNoteText(notes, other)
    ensures Keyed.Unique(notes, NoteDay) ==> Keyed.Unique(WithDayNote(notes, day, note), NoteDay)
  {
    var x := DayNote(day, note);
    Keyed.UpsertOtherKey(notes, NoteDay, x, other);
    if Keyed.Unique(notes, NoteDay) {
      Keyed.UpsertKeepsUnique(notes, NoteDay, x);
    }
  }

  // ---------------------------------------------------------------- component state

  /** The planner's two stored collections and the day whose note editor is open. */
  class Planner {
    var timeBlocks: seq<TimeBlock>
    var dayNotes: seq<DayNote>
    var editingNote: Option<string>

    /** The collections as loaded from storage, no note editor open. */
    constructor (storedBlocks: seq<TimeBlock>, storedNotes: seq<DayNote>)
      ensures timeBlocks == storedBlocks && dayNotes == storedNotes && editingNote == None
    {
      timeBlocks := storedBlocks;
      dayNotes := storedNotes;
      editingNote := None;
    }

    /** The edit button of a day: closes that day's editor when it is open, otherwise opens it
        (closing any other). */
    method ToggleNoteEditor(day: string)
      modifies this
      ensures editingNote == if old(editingNote) == Some(day) then None else Some(day)
      ensures timeBlocks == old(timeBlocks) && dayNotes == old(dayNotes)
    {
      editingNote := if editingNote == Some(day) then None else Some(day);
    }

    /** `cycleActivity(day, hour)`. */
    method CycleActivity(day: string, hour: string)
      modifies this
      ensures timeBlocks == Cycled(old(timeBlocks), day, hour)
      ensures dayNotes == old(dayNotes) && editingNote == old(editingNote)
    {
      var currentActivity := BlockActivity(timeBlocks, day, hour);
      var nextActivity := NextActivity(currentActivity);
      var existingIndex := Keyed.IndexOf(timeBlocks, BlockKey, (day, hour));
      if existingIndex >= 0 {
        var updated := timeBlocks;
        updated := updated[existingIndex := TimeBlock(day, hour, nextActivity)];
        timeBlocks := updated;
      } else {
        timeBlocks := timeBlocks + [TimeBlock(day, hour, nextActivity)];
      }
    }

    /** `updateDayNote(day, note)`. */
    method UpdateDayNote(day: string, note: string)
      modifies this
      ensures dayNotes == WithDayNote(old(dayNotes), day, note)
      ensures timeBlocks == old(timeBlocks) && editingNote == old(editingNote)
    {
      var existingIndex := Keyed.IndexOf(dayNotes, NoteDay, day);
      if existingIndex >= 0 {
        var updated := dayNotes;
        updated := updated[existingIndex := DayNote(day, note)];
        dayNotes := updated;
      } else {
        dayNotes := dayNotes + [DayNote(day, note)];
      }
    }
  }
}
