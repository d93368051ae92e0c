# lifeplanner trackers in Dafny

A model of the collection logic of lifeplanner, a single-page personal tracker. It has six
tracker components:

- the weekly planner, a grid of time blocks with a note per day;
- the mood tracker;
- the gym and diet log;
- the hobbies list;
- the personal projects board;
- the daily notes journal.

Each component keeps one or more stored collections. Every button or input replaces a
collection with a new one computed from the old one. The model writes each such step as a pure
function on sequences. The component's state (collections, selected day or date, form drafts,
edit flags) is a class whose methods state their new fields in terms of those functions. The
properties are proved as lemmas about the functions.

Modules:

- `Types`: the records and tag unions of `types/index.ts`.
- `Text`: the string operations the trackers use, written out:
  - `trim`;
  - lower-casing;
  - `includes`;
  - the `||` fallback;
  - the order of ISO calendar dates.
- `Keyed`: the keyed-collection operations every component repeats, generic in the element
  type and the key:
  - `findIndex` and `find`;
  - find-or-replace by a natural key;
  - map-and-merge by id;
  - filter by key.
- `Progress`: the 0–100 clamp shared by hobbies and projects.
- One module per component: `WeeklyPlanner`, `MoodTracker`, `GymDiet`, `Hobbies`,
  `PersonalProjects`, `DailyNotes`.

Values that come from outside the program are parameters:

- generated ids (`crypto.randomUUID()`);
- today's date;
- the dates of the recent-moods strip;
- what the user types.

A method that stores a fresh id requires that no element already uses it.

## Model

| member | source | states |
|---|---|---|
| Types.TagNamesInjective | lifeplanner/src/types/index.ts:3-66 | each tag union (activity, mood, meal type, hobby category, project status) has pairwise distinct texts, so a text names at most one tag |
| Text.Trim | lifeplanner/src/components/DailyNotes.tsx:18 | `trim()` cuts white space, and only white space, off both ends: the result occurs in the input with all white space before and after it, neither starts nor ends with white space, and is empty exactly when the input is all white space |
| Text.TrimStart | lifeplanner/src/components/DailyNotes.tsx:18 | the leading part removed is all white space and the rest does not start with white space |
| Text.TrimEnd | lifeplanner/src/components/DailyNotes.tsx:18 | the trailing part removed is all white space and the rest does not end with white space |
| Text.TrimIdempotent | lifeplanner/src/components/DailyNotes.tsx:18 | trimming twice removes nothing more |
| Text.Lower | lifeplanner/src/components/DailyNotes.tsx:57 | `toLowerCase()` keeps the length and maps each upper-case letter to its lower-case letter, every other character to itself |
| Text.LowerIdempotent | lifeplanner/src/components/DailyNotes.tsx:57 | lower-casing twice is lower-casing once |
| Text.ContainsIff | lifeplanner/src/components/DailyNotes.tsx:57-58 | `includes` holds exactly when the term occurs at some position |
| Text.Contains | lifeplanner/src/components/DailyNotes.tsx:57-58 | `includes`; its contract is Text.ContainsIff |
| Text.NoOccurrence | lifeplanner/src/components/DailyNotes.tsx:57-58 | a term one of whose characters appears nowhere it would have to is not included |
| Text.ContainsEmpty | lifeplanner/src/components/DailyNotes.tsx:57 | every text includes the empty term |
| Text.NotAfterTotal | lifeplanner/src/components/DailyNotes.tsx:59 | any two dates are ordered one way or the other |
| Text.NotAfterTransitive | lifeplanner/src/components/DailyNotes.tsx:59 | the date order is transitive |
| Text.NotAfterAntisymmetric | lifeplanner/src/components/DailyNotes.tsx:59 | two dates each no later than the other are equal |
| Keyed.IndexOf | lifeplanner/src/components/WeeklyPlanner.tsx:41 | `findIndex` gives -1 exactly when no element has the key, else the first index whose element has it |
| Keyed.Find | lifeplanner/src/components/WeeklyPlanner.tsx:26 | `find` is absent exactly when no element has the key, else the element at `findIndex` |
| Keyed.Count | lifeplanner/src/components/MoodTracker.tsx:19 | the number of elements with a key is zero exactly when none has it |
| Keyed.IndexOfSameKeys | lifeplanner/src/components/DailyNotes.tsx:22-26 | two lists that agree on every key find a key at the same index |
| Keyed.Upsert | lifeplanner/src/components/WeeklyPlanner.tsx:40-49 | find-or-replace: the length grows by one exactly when the key was absent, other keys keep their elements, an absent key is appended, and the key then finds the new element |
| Keyed.UpsertInPlace | lifeplanner/src/components/WeeklyPlanner.tsx:42-45 | with the key present, the replaced element is the first one with that key |
| Keyed.UpsertOtherKey | lifeplanner/src/components/WeeklyPlanner.tsx:40-49 | a lookup of any other key is the same before and after |
| Keyed.UpsertKeepsUnique | lifeplanner/src/components/WeeklyPlanner.tsx:40-49 | find-or-replace never duplicates a key |
| Keyed.UpsertTwice | lifeplanner/src/components/WeeklyPlanner.tsx:40-49 | two upserts of one key leave only the second one's effect |
| Keyed.CountAppend | lifeplanner/src/components/WeeklyPlanner.tsx:47 | appending adds one to the count of the appended element's key only |
| Keyed.CountReplace | lifeplanner/src/components/WeeklyPlanner.tsx:44 | replacing an element moves one from the old key's count to the new key's |
| Keyed.UpsertCount | lifeplanner/src/components/MoodTracker.tsx:22-33 | with at most one element of the key before, exactly one after, and every other key's count unchanged |
| Keyed.UniqueCount | lifeplanner/src/components/MoodTracker.tsx:23 | without duplicate keys each key occurs at most once |
| Keyed.UpdateWhere | lifeplanner/src/components/Hobbies.tsx:43-47 | map-and-merge: same length, elements with the id are merged, all others unchanged |
| Keyed.UpdateAbsent | lifeplanner/src/components/Hobbies.tsx:43-47 | updating an id no element has changes nothing |
| Keyed.UpdateKeepsKeys | lifeplanner/src/components/Hobbies.tsx:43-47 | when the edit keeps keys, every key stays in place and unique keys stay unique |
| Keyed.RemoveWhere | lifeplanner/src/components/Hobbies.tsx:49-51 | the filter keeps exactly the elements without the id, and the length drops by their count |
| Keyed.KeepWhere | lifeplanner/src/components/PersonalProjects.tsx:73-75 | the filter keeps exactly the elements with the key; its length is their count |
| Keyed.RemoveConcat | lifeplanner/src/components/Hobbies.tsx:49-51 | removal distributes over concatenation, so the order of the rest is kept |
| Keyed.KeepConcat | lifeplanner/src/components/PersonalProjects.tsx:73-75 | selection distributes over concatenation, so the original order is kept |
| Keyed.RemoveAbsent | lifeplanner/src/components/Hobbies.tsx:49-51 | removing an id no element has changes nothing |
| Keyed.RemoveTwice | lifeplanner/src/components/Hobbies.tsx:49-51 | removing twice is removing once |
| Keyed.RemoveKeepsUnique | lifeplanner/src/components/Hobbies.tsx:49-51 | removal keeps ids unique |
| Progress.Clamp | lifeplanner/src/components/Hobbies.tsx:57 | `Math.max(0, Math.min(100, v))` lies in [0, 100], is v inside that range, 0 below it and 100 above it |
| Progress.StepsStayInRange | lifeplanner/src/components/Hobbies.tsx:53-61 | any run of ±10 presses from a value in [0, 100] stays in [0, 100], and on multiples of ten when started on one |
| Progress.UpDown | lifeplanner/src/components/Hobbies.tsx:57 | +10 then -10 returns to the value up to 90, and gives 90 from above 90 |
| WeeklyPlanner.PadStart | lifeplanner/src/components/WeeklyPlanner.tsx:9 | `padStart` reaches the width, ends with the text and fills the front with the pad character |
| WeeklyPlanner.HourLabelDigits | lifeplanner/src/components/WeeklyPlanner.tsx:7-10 | the label of an hour below 100 is its two digits and ":00", and reads back as the hour |
| WeeklyPlanner.HoursShape | lifeplanner/src/components/WeeklyPlanner.tsx:7-10 | HOURS has 18 five-character labels ending in ":00", from "06:00" to "23:00", row i reading as hour i + 6, all distinct |
| WeeklyPlanner.HourLabel | lifeplanner/src/components/WeeklyPlanner.tsx:7-10 | the `padStart(2, '0') + ':00'` label of an hour; its contract is WeeklyPlanner.HourLabelDigits |
| WeeklyPlanner.ActivityIndex | lifeplanner/src/components/WeeklyPlanner.tsx:12-18 | each tag's text is found in ACTIVITIES at the tag's own row |
| WeeklyPlanner.ActivityColor | lifeplanner/src/components/WeeklyPlanner.tsx:30-32 | a tag's text gets the colour of its row; any other text gets the grey fallback |
| WeeklyPlanner.NextActivityOrdinal | lifeplanner/src/components/WeeklyPlanner.tsx:34-38 | a click moves a tag one position along ACTIVITIES, modulo 5 |
| WeeklyPlanner.NextActivity | lifeplanner/src/components/WeeklyPlanner.tsx:34-38 | the tag after a click; its contracts are WeeklyPlanner.NextActivityOrdinal and WeeklyPlanner.NextActivityIsSuccessor |
| WeeklyPlanner.NextActivityIsSuccessor | lifeplanner/src/components/WeeklyPlanner.tsx:34-38 | the rotation is Trabajo, Estudio, Gym, Hobby, Libre, then Trabajo again, so the first click on an empty cell gives Trabajo |
| WeeklyPlanner.AdvanceOrdinal | lifeplanner/src/components/WeeklyPlanner.tsx:34-38 | n clicks move a tag n positions modulo 5 |
| WeeklyPlanner.RotationPeriod | lifeplanner/src/components/WeeklyPlanner.tsx:34-38 | n clicks bring a tag back exactly when 5 divides n |
| WeeklyPlanner.BlockActivity | lifeplanner/src/components/WeeklyPlanner.tsx:25-28 | the activity of the first block for (day, hour), or 'Libre' when there is none |
| WeeklyPlanner.Cycled | lifeplanner/src/components/WeeklyPlanner.tsx:34-50 | the blocks after `cycleActivity`; its contracts are WeeklyPlanner.CycledEffect and WeeklyPlanner.CyclesRestore |
| WeeklyPlanner.CycledEffect | lifeplanner/src/components/WeeklyPlanner.tsx:34-50 | after a click the cell shows the next tag; the length grows by at most one; blocks of other cells are unchanged; unique (day, hour) keys stay unique |
| WeeklyPlanner.CycledNUpsert | lifeplanner/src/components/WeeklyPlanner.tsx:34-50 | n clicks on a cell store the tag n steps along the rotation |
| WeeklyPlanner.CyclesRestore | lifeplanner/src/components/WeeklyPlanner.tsx:34-50 | a cell shows its old tag again exactly after a multiple of five clicks; then a stored block leaves the collection as it was, and an empty cell has gained a 'Libre' block |
| WeeklyPlanner.DayNoteText | lifeplanner/src/components/WeeklyPlanner.tsx:52-54 | the note of the day's first entry, or '' when there is none |
| WeeklyPlanner.WithDayNote | lifeplanner/src/components/WeeklyPlanner.tsx:56-67 | the day notes after `updateDayNote`; its contract is WeeklyPlanner.WithDayNoteEffect |
| WeeklyPlanner.WithDayNoteEffect | lifeplanner/src/components/WeeklyPlanner.tsx:56-67 | after an update the day reads the new note, other days read what they did, no day is duplicated |
| WeeklyPlanner.Planner.constructor | lifeplanner/src/components/WeeklyPlanner.tsx:21-23 | the stored blocks and day notes, no day note being edited |
| WeeklyPlanner.Planner.ToggleNoteEditor | lifeplanner/src/components/WeeklyPlanner.tsx:134 | the edit button closes the day's editor when it is open and opens it otherwise |
| WeeklyPlanner.Planner.CycleActivity | lifeplanner/src/components/WeeklyPlanner.tsx:34-50 | the in-place replace or append leaves exactly the blocks of one click, nothing else changes |
| WeeklyPlanner.Planner.UpdateDayNote | lifeplanner/src/components/WeeklyPlanner.tsx:56-67 | the in-place replace or append leaves exactly the upserted day notes, nothing else changes |
| MoodTracker.MoodIndex | lifeplanner/src/components/MoodTracker.tsx:6-12 | each mood's text is found in MOODS at the mood's own row |
| MoodTracker.MoodColor | lifeplanner/src/components/MoodTracker.tsx:55-57 | a mood's text gets its row's colour; any other text gets the grey fallback |
| MoodTracker.MoodEmoji | lifeplanner/src/components/MoodTracker.tsx:59-61 | a mood's text gets its row's emoji; any other text gets the neutral face |
| MoodTracker.MoodTableDistinct | lifeplanner/src/components/MoodTracker.tsx:6-12 | distinct moods have distinct colours and emojis, and no mood shows the fallback emoji |
| MoodTracker.TodayMood | lifeplanner/src/components/MoodTracker.tsx:19 | absent exactly when no entry has the date; else the first entry with that date |
| MoodTracker.StoredNote | lifeplanner/src/components/MoodTracker.tsx:24 | `note.trim() \|\| undefined`: absent exactly when the draft is all white space, else the non-empty trimmed draft |
| MoodTracker.Logged | lifeplanner/src/components/MoodTracker.tsx:21-33 | the entries after `addMood`; its contracts are MoodTracker.LoggedEffect, MoodTracker.LoggedCount and MoodTracker.LoggedOtherDate |
| MoodTracker.LoggedEffect | lifeplanner/src/components/MoodTracker.tsx:21-33 | the date then shows the chosen mood with exactly the stored form of the draft; other entries keep their values and positions; a present entry is replaced in place and a new date appended |
| MoodTracker.LoggedCount | lifeplanner/src/components/MoodTracker.tsx:21-33 | at most one entry for the date before means exactly one after; other dates' counts are unchanged |
| MoodTracker.LoggedOtherDate | lifeplanner/src/components/MoodTracker.tsx:21-33 | other dates show what they did; unique dates stay unique |
| MoodTracker.RecentShowsLogged | lifeplanner/src/components/MoodTracker.tsx:37-53 | after logging, every slot of the date in the recent strip shows the mood and stored note; other slots are unchanged |
| MoodTracker.RecentMoods | lifeplanner/src/components/MoodTracker.tsx:37-53 | one slot per given day, in order: slot i carries day i, with that date's mood and note when an entry has the date and neither when none has |
| MoodTracker.MoodLog.constructor | lifeplanner/src/components/MoodTracker.tsx:15-17 | the stored entries, today selected, an empty note draft |
| MoodTracker.MoodLog.SelectDate | lifeplanner/src/components/MoodTracker.tsx:90 | selects the date; entries and draft untouched |
| MoodTracker.MoodLog.EditNote | lifeplanner/src/components/MoodTracker.tsx:123 | sets the draft; entries and date untouched |
| MoodTracker.MoodLog.AddMood | lifeplanner/src/components/MoodTracker.tsx:21-35 | the in-place replace or append stores the logged entries, then the draft is cleared |
| GymDiet.WorkoutForDay | lifeplanner/src/components/GymDiet.tsx:14-21 | the day's first workout, else an empty workout for the day with the fresh id and '' notes |
| GymDiet.DietForDay | lifeplanner/src/components/GymDiet.tsx:23-30 | the day's first diet, else an empty diet for the day with the fresh id and '' notes |
| GymDiet.WithWorkout | lifeplanner/src/components/GymDiet.tsx:32-43 | the workouts after `updateWorkout`; its contract is GymDiet.WithWorkoutEffect |
| GymDiet.WithDiet | lifeplanner/src/components/GymDiet.tsx:45-56 | the diets after `updateDiet`; its contract is GymDiet.WithDietEffect |
| GymDiet.NewExercise | lifeplanner/src/components/GymDiet.tsx:59-66 | the exercise `addExercise` creates: fresh id, no name, 3 sets of 10, weight 0, not done; stated by GymDiet.GymLog.AddExercise |
| GymDiet.WithNewExercise | lifeplanner/src/components/GymDiet.tsx:68-71 | the workout with the new exercise appended; its contract is GymDiet.NewExerciseUndone |
| GymDiet.Toggled | lifeplanner/src/components/GymDiet.tsx:250 | the workout after a click on an exercise's completion button; its contract is GymDiet.ToggleTwice |
| GymDiet.NewMeal | lifeplanner/src/components/GymDiet.tsx:93-97 | the meal `addMeal` creates: fresh id, the requested kind, no description; stated by GymDiet.GymLog.AddMeal |
| GymDiet.WithNewMeal | lifeplanner/src/components/GymDiet.tsx:99-102 | the diet with the new meal appended; its contract is GymDiet.NewMealUndone |
| GymDiet.WithWorkoutEffect | lifeplanner/src/components/GymDiet.tsx:32-43 | the workout's day then shows it, other days show what they did, the length grows by at most one, no day is duplicated |
| GymDiet.WithDietEffect | lifeplanner/src/components/GymDiet.tsx:45-56 | the diet's day then shows it, other days show what they did, the length grows by at most one, no day is duplicated |
| GymDiet.WithExerciseUpdated | lifeplanner/src/components/GymDiet.tsx:74-83 | only exercises with the id are merged; length, other exercises and the workout's id, day and notes are unchanged |
| GymDiet.WithoutExercise | lifeplanner/src/components/GymDiet.tsx:85-90 | exactly the exercises without the id remain; the workout's id, day and notes are unchanged |
| GymDiet.NewExerciseUndone | lifeplanner/src/components/GymDiet.tsx:58-72 | adding an exercise with an unused id keeps ids unique, and removing it gives back the workout exactly, so the existing exercises keep their order |
| GymDiet.UpdateExerciseKeepsIds | lifeplanner/src/components/GymDiet.tsx:74-83 | an edit without an id keeps every id and their uniqueness; an absent id changes nothing |
| GymDiet.RemoveExerciseIdempotent | lifeplanner/src/components/GymDiet.tsx:85-90 | removal keeps ids unique; removing twice is removing once |
| GymDiet.ToggleTwice | lifeplanner/src/components/GymDiet.tsx:250 | with unique ids a click flips exactly that exercise's flag, and a second click gives back the workout |
| GymDiet.WithMealDescription | lifeplanner/src/components/GymDiet.tsx:105-114 | only the matching meals take the description; length, other meals and the diet's id, day and notes are unchanged |
| GymDiet.WithoutMeal | lifeplanner/src/components/GymDiet.tsx:116-121 | exactly the meals without the id remain; the diet's id, day and notes are unchanged |
| GymDiet.NewMealUndone | lifeplanner/src/components/GymDiet.tsx:92-103 | adding a meal with an unused id keeps ids unique, and removing it gives back the diet exactly |
| GymDiet.MealDescriptionKeepsIds | lifeplanner/src/components/GymDiet.tsx:105-114 | a description edit keeps every meal's id and kind, and their uniqueness; an absent id changes nothing |
| GymDiet.RemoveMealIdempotent | lifeplanner/src/components/GymDiet.tsx:116-121 | removal keeps ids unique; removing twice is removing once |
| GymDiet.GymLog.constructor | lifeplanner/src/components/GymDiet.tsx:9-12 | the stored workouts and diets, 'Lunes' selected |
| GymDiet.GymLog.UpdateWorkout | lifeplanner/src/components/GymDiet.tsx:32-43 | the in-place replace or append stores exactly the upserted workouts; diets and the day are untouched |
| GymDiet.GymLog.UpdateDiet | lifeplanner/src/components/GymDiet.tsx:45-56 | the in-place replace or append stores exactly the upserted diets; workouts and the day are untouched |
| GymDiet.GymLog.AddExercise | lifeplanner/src/components/GymDiet.tsx:58-72 | stores the workout with the new exercise (no name, 3 × 10, weight 0, not done) appended |
| GymDiet.GymLog.UpdateExercise | lifeplanner/src/components/GymDiet.tsx:74-83 | stores the workout with the exercise edit applied |
| GymDiet.GymLog.RemoveExercise | lifeplanner/src/components/GymDiet.tsx:85-90 | stores the workout without the exercise |
| GymDiet.GymLog.AddMeal | lifeplanner/src/components/GymDiet.tsx:92-103 | stores the diet with a meal of the requested kind and no description appended |
| GymDiet.GymLog.UpdateMeal | lifeplanner/src/components/GymDiet.tsx:105-114 | stores the diet with the description edit applied |
| GymDiet.GymLog.RemoveMeal | lifeplanner/src/components/GymDiet.tsx:116-121 | stores the diet without the meal |
| GymDiet.GymLog.SelectDay | lifeplanner/src/components/GymDiet.tsx:173 | selects the day; the collections are untouched |
| Hobbies.CategoryIndex | lifeplanner/src/components/Hobbies.tsx:6-13 | each category's text is found in HOBBY_CATEGORIES at its own row |
| Hobbies.CategoryColor | lifeplanner/src/components/Hobbies.tsx:68-71 | a category's text gets its row's colour; any other text gets the grey fallback |
| Hobbies.ProgressColor | lifeplanner/src/components/Hobbies.tsx:73-78 | green exactly from 80, yellow exactly on [60, 80), orange exactly on [40, 60), red exactly below 40 |
| Hobbies.Added | lifeplanner/src/components/Hobbies.tsx:26-41 | the hobbies after `addHobby`; its contract is Hobbies.AddedEffect |
| Hobbies.Updated | lifeplanner/src/components/Hobbies.tsx:43-47 | same length; hobbies with the id are merged, the others are unchanged |
| Hobbies.Deleted | lifeplanner/src/components/Hobbies.tsx:49-51 | exactly the hobbies without the id remain |
| Hobbies.Stepped | lifeplanner/src/components/Hobbies.tsx:53-61 | same length; the hobbies with the id take the step, the others are unchanged |
| Hobbies.Step | lifeplanner/src/components/Hobbies.tsx:55-59 | one progress press on a hobby; its contracts are Hobbies.SteppedEffect and Hobbies.PressAllProgress |
| Hobbies.AddedEffect | lifeplanner/src/components/Hobbies.tsx:26-41 | a blank name adds nothing; otherwise exactly one hobby is appended after the old ones, with the fresh id, the name as typed, the draft's category or 'Otro', progress 0, no notes and today as last activity; an unused id keeps ids unique, and deleting it restores the list |
| Hobbies.UpdatedKeepsIds | lifeplanner/src/components/Hobbies.tsx:43-47 | an edit without an id keeps every id and their uniqueness; an absent id changes nothing |
| Hobbies.DeletedIdempotent | lifeplanner/src/components/Hobbies.tsx:49-51 | deletion keeps ids unique; deleting twice is deleting once |
| Hobbies.SteppedEffect | lifeplanner/src/components/Hobbies.tsx:53-61 | progress stays in [0, 100]; the matching hobby gets the clamped progress and today's date and nothing else changes; ids stay unique |
| Hobbies.PressAllProgress | lifeplanner/src/components/Hobbies.tsx:53-61 | after any run of presses the hobby's progress is the one the clamped steps reach, and other hobbies are untouched |
| Hobbies.HobbyBoard.constructor | lifeplanner/src/components/Hobbies.tsx:16-24 | the stored hobbies, the form closed with an empty draft of category 'Otro', nothing edited |
| Hobbies.HobbyBoard.OpenForm | lifeplanner/src/components/Hobbies.tsx:92 | opens the form, keeping the draft |
| Hobbies.HobbyBoard.CancelForm | lifeplanner/src/components/Hobbies.tsx:135 | closes the form, keeping the draft |
| Hobbies.HobbyBoard.EditDraft | lifeplanner/src/components/Hobbies.tsx:109-118 | sets the draft's name and/or category, keeping its other fields |
| Hobbies.HobbyBoard.AddHobby | lifeplanner/src/components/Hobbies.tsx:26-41 | stores the added hobbies; after a real add the draft is reset and the form closed, after a blank name nothing changes |
| Hobbies.HobbyBoard.ToggleEditing | lifeplanner/src/components/Hobbies.tsx:173 | stops editing the hobby when it is the one edited, else starts editing it |
| Hobbies.HobbyBoard.StopEditing | lifeplanner/src/components/Hobbies.tsx:163 | Enter in the name field stops editing |
| Hobbies.HobbyBoard.UpdateHobby | lifeplanner/src/components/Hobbies.tsx:43-47 | stores the updated hobbies; form and edit state untouched |
| Hobbies.HobbyBoard.DeleteHobby | lifeplanner/src/components/Hobbies.tsx:49-51 | stores the remaining hobbies; form and edit state untouched |
| Hobbies.HobbyBoard.UpdateProgress | lifeplanner/src/components/Hobbies.tsx:53-61 | stores the stepped hobbies; form and edit state untouched |
| PersonalProjects.StatusIndex | lifeplanner/src/components/PersonalProjects.tsx:6-11 | each status's text is found in PROJECT_STATUSES at its own row |
| PersonalProjects.StatusConfig | lifeplanner/src/components/PersonalProjects.tsx:62-64 | a status's text gets its own row; any other text gets the first row, 'Inicio' |
| PersonalProjects.ProjectProgressColor | lifeplanner/src/components/PersonalProjects.tsx:66-71 | green exactly from 80, yellow on [60, 80), orange on [40, 60), red below 40 |
| PersonalProjects.SameProgressColors | lifeplanner/src/components/PersonalProjects.tsx:66-71 | projects and hobbies colour every progress alike |
| PersonalProjects.Added | lifeplanner/src/components/PersonalProjects.tsx:25-41 | the projects after `addProject`; its contract is PersonalProjects.AddedEffect |
| PersonalProjects.Updated | lifeplanner/src/components/PersonalProjects.tsx:43-47 | same length; projects with the id are merged, the others are unchanged |
| PersonalProjects.Deleted | lifeplanner/src/components/PersonalProjects.tsx:49-51 | exactly the projects without the id remain |
| PersonalProjects.Stepped | lifeplanner/src/components/PersonalProjects.tsx:53-60 | same length; the projects with the id take the step, the others are unchanged |
| PersonalProjects.Step | lifeplanner/src/components/PersonalProjects.tsx:55-58 | one progress press on a project; its contract is PersonalProjects.SteppedEffect |
| PersonalProjects.AddedEffect | lifeplanner/src/components/PersonalProjects.tsx:25-41 | a blank name adds nothing; otherwise exactly one project is appended after the old ones, with the fresh id, the name as typed, the draft's description or '', its status or 'Inicio', progress 0, no notes, created today; an unused id keeps ids unique, and deleting it restores the list |
| PersonalProjects.UpdatedKeepsIds | lifeplanner/src/components/PersonalProjects.tsx:43-47 | an edit without an id keeps every id and their uniqueness; an absent id changes nothing |
| PersonalProjects.DeletedIdempotent | lifeplanner/src/components/PersonalProjects.tsx:49-51 | deletion keeps ids unique; deleting twice is deleting once |
| PersonalProjects.SteppedEffect | lifeplanner/src/components/PersonalProjects.tsx:53-60 | progress stays in [0, 100]; only the matching project's progress changes, to the clamped value; ids stay unique |
| PersonalProjects.ByStatusExact | lifeplanner/src/components/PersonalProjects.tsx:73-75 | a column holds exactly the projects of its status, in board order |
| PersonalProjects.ColumnsPartition | lifeplanner/src/components/PersonalProjects.tsx:148-150 | the four columns' sizes add up to the number of projects |
| PersonalProjects.StatusCountsPartition | lifeplanner/src/components/PersonalProjects.tsx:148-150 | every project has exactly one of the four statuses |
| PersonalProjects.ProjectsByStatus | lifeplanner/src/components/PersonalProjects.tsx:73-75 | the projects of one column; its contracts are PersonalProjects.ByStatusExact and PersonalProjects.ColumnsPartition |
| PersonalProjects.ProjectBoard.constructor | lifeplanner/src/components/PersonalProjects.tsx:14-23 | the stored projects, the form closed with an empty 'Inicio' draft, nothing edited |
| PersonalProjects.ProjectBoard.OpenForm | lifeplanner/src/components/PersonalProjects.tsx:85 | opens the form, keeping the draft |
| PersonalProjects.ProjectBoard.CancelForm | lifeplanner/src/components/PersonalProjects.tsx:138 | closes the form, keeping the draft |
| PersonalProjects.ProjectBoard.EditDraft | lifeplanner/src/components/PersonalProjects.tsx:102-124 | sets the draft's name, status and/or description, keeping its other fields |
| PersonalProjects.ProjectBoard.AddProject | lifeplanner/src/components/PersonalProjects.tsx:25-41 | stores the added projects; after a real add the draft is reset and the form closed, after a blank name nothing changes |
| PersonalProjects.ProjectBoard.ToggleEditing | lifeplanner/src/components/PersonalProjects.tsx:184 | stops editing the project when it is the one edited, else starts editing it |
| PersonalProjects.ProjectBoard.StopEditing | lifeplanner/src/components/PersonalProjects.tsx:177 | Enter in the name field stops editing |
| PersonalProjects.ProjectBoard.UpdateProject | lifeplanner/src/components/PersonalProjects.tsx:43-47 | stores the updated projects; form and edit state untouched |
| PersonalProjects.ProjectBoard.DeleteProject | lifeplanner/src/components/PersonalProjects.tsx:49-51 | stores the remaining projects; form and edit state untouched |
| PersonalProjects.ProjectBoard.UpdateProgress | lifeplanner/src/components/PersonalProjects.tsx:53-60 | stores the stepped projects; form and edit state untouched |
| DailyNotes.CurrentNote | lifeplanner/src/components/DailyNotes.tsx:13-15 | absent exactly when no note has the date, else the first note with it |
| DailyNotes.DraftFor | lifeplanner/src/components/DailyNotes.tsx:45-49 | the current note's content, or '' when there is none |
| DailyNotes.Deleted | lifeplanner/src/components/DailyNotes.tsx:41-43 | exactly the notes without the id remain |
| DailyNotes.Saved | lifeplanner/src/components/DailyNotes.tsx:17-39 | the notes after `saveNote`; its contracts are DailyNotes.SavedEffect, DailyNotes.SavedReplaces, DailyNotes.SavedOtherDate and DailyNotes.SaveLoadedDraft |
| DailyNotes.SavedEffect | lifeplanner/src/components/DailyNotes.tsx:17-39 | a white-space draft changes nothing; a draft with text becomes the content shown for the date, and a date without a note gains one with the fresh id at the end |
| DailyNotes.SavedReplaces | lifeplanner/src/components/DailyNotes.tsx:19-26 | over an existing note only its content changes: it keeps its id, date and position, and notes with other ids are unchanged |
| DailyNotes.SavedOtherDate | lifeplanner/src/components/DailyNotes.tsx:17-39 | with unique ids, other dates show what they did and ids stay unique |
| DailyNotes.SaveLoadedDraft | lifeplanner/src/components/DailyNotes.tsx:17-49 | saving the draft that startEditing loaded, unchanged, leaves the notes as they were |
| DailyNotes.DeletedIdempotent | lifeplanner/src/components/DailyNotes.tsx:41-43 | deletion keeps ids unique; deleting twice is deleting once |
| DailyNotes.Matches | lifeplanner/src/components/DailyNotes.tsx:57-58 | the search condition; its contract is DailyNotes.FilteredNotesCorrect |
| DailyNotes.Filtered | lifeplanner/src/components/DailyNotes.tsx:56-58 | a note is kept exactly when it is stored and matches, never more often than stored |
| DailyNotes.FilteredCount | lifeplanner/src/components/DailyNotes.tsx:56-58 | the filter keeps each matching note exactly as many times as it is stored, and no other note |
| DailyNotes.Insert | lifeplanner/src/components/DailyNotes.tsx:59 | one step of the newest-first sort; its contracts are DailyNotes.InsertSorted and DailyNotes.InsertPermutation |
| DailyNotes.InsertSorted | lifeplanner/src/components/DailyNotes.tsx:59 | inserting into a newest-first list keeps it newest first |
| DailyNotes.InsertPermutation | lifeplanner/src/components/DailyNotes.tsx:59 | inserting adds exactly the one note |
| DailyNotes.SortNewestFirstCorrect | lifeplanner/src/components/DailyNotes.tsx:59 | the sort gives a newest-first permutation of its input |
| DailyNotes.SortNewestFirst | lifeplanner/src/components/DailyNotes.tsx:59 | the newest-first sort; its contract is DailyNotes.SortNewestFirstCorrect |
| DailyNotes.FilteredNotes | lifeplanner/src/components/DailyNotes.tsx:56-59 | `filteredNotes`; its contract is DailyNotes.FilteredNotesCorrect |
| DailyNotes.FilteredNotesCorrect | lifeplanner/src/components/DailyNotes.tsx:56-59 | a note is listed exactly when it is stored and its lower-cased content includes the lower-cased term or its date includes the term, as many times as it is stored; the list is newest first; an empty term lists every note |
| DailyNotes.AllMatchKeepsAll | lifeplanner/src/components/DailyNotes.tsx:56-58 | when every note matches, the filter keeps the list as it is |
| DailyNotes.SearchPair | lifeplanner/src/components/DailyNotes.tsx:56-59 | of two notes of which exactly one matches, that one alone is listed |
| DailyNotes.SearchExample | lifeplanner/src/components/DailyNotes.tsx:56-59 | notes "Hello" of 2024-01-01 and "World" of 2024-02-02: "hel" and "HEL" list only the first, "2024-02" only the second |
| DailyNotes.Preview | lifeplanner/src/components/DailyNotes.tsx:190-191 | up to 100 characters the content itself; beyond, its first 100 characters followed by "..." |
| DailyNotes.Journal.constructor | lifeplanner/src/components/DailyNotes.tsx:7-11 | the stored notes, today selected, no search, the editor closed with an empty draft |
| DailyNotes.Journal.SelectDate | lifeplanner/src/components/DailyNotes.tsx:79 | selects the date; everything else untouched |
| DailyNotes.Journal.Search | lifeplanner/src/components/DailyNotes.tsx:157 | sets the search term; everything else untouched |
| DailyNotes.Journal.EditDraft | lifeplanner/src/components/DailyNotes.tsx:115 | sets the draft; everything else untouched |
| DailyNotes.Journal.StartEditing | lifeplanner/src/components/DailyNotes.tsx:45-49 | the draft holds the current note's content or '' and the editor is open; the notes are untouched |
| DailyNotes.Journal.CancelEditing | lifeplanner/src/components/DailyNotes.tsx:51-54 | the editor is closed and the draft empty; the notes are untouched |
| DailyNotes.Journal.SaveNote | lifeplanner/src/components/DailyNotes.tsx:17-39 | stores the saved notes, then the editor is closed and the draft empty whether or not anything was stored |
| DailyNotes.Journal.DeleteNote | lifeplanner/src/components/DailyNotes.tsx:41-43 | stores the remaining notes; the edit state is untouched |

## Left out

- Browser storage: the `useLocalStorage` hook and its JSON round trip. Its source is not part of this model, so each collection starts from a value passed to the constructor.
- `crypto.randomUUID()`: fresh ids are parameters, required to be unused where they are stored.
- Clocks and locale: `new Date().toISOString()` becomes a `today` parameter.
  - The seven dates of `getRecentMoods` are a parameter of `RecentMoods`.
  - The weekday names of `toLocaleDateString` are left out.
  - The "this month" and "this week" counts of the journal (DailyNotes.tsx:217-233) are left out, because they depend on the clock.
- DailyNotes.SortNewestFirst: the `Date`-based comparator is modelled as descending order of `YYYY-MM-DD` strings, which is an abstraction of date parsing. Invalid dates (NaN comparisons) are not modelled. The sort is an insertion sort that keeps equal dates in their stored order, but that stability is not proved.
- Text.Lower: lower-cases ASCII letters only. Unicode case mapping is not modelled.
- DailyNotes.Preview: counts characters (code points), while JavaScript's `slice` and `length` count UTF-16 code units. The two differ on text outside the Basic Multilingual Plane.
- Numbers: sets, reps and progress are integers and weight is a real. Floating-point rounding and the `parseInt`/`parseFloat` results of the number inputs (NaN, `|| 0`) are not modelled. An edit patch carries the parsed value.
- Tag unions: the selects cast their text to a tag. The model types those fields by the tag datatypes, and the lookups (`getActivityColor`, `getMoodColor`, `getMoodEmoji`, `getCategoryColor`, `getStatusConfig`) take the text, so their fallbacks stay reachable.
- `getCategoryIcon` and the icons of the status rows: presentation only.
- JSX markup, CSS classes outside the lookup tables, GymDiet's `activeTab`, and the tab navigation of App.tsx: presentation only.
- The notes fields of workouts and diets are edited through `updateWorkout` and `updateDiet` with a whole record. They are covered by those two operations.
