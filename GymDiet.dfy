/** The gym and diet tracker (lifeplanner/src/components/GymDiet.tsx): one workout and one diet
    per day of the week, each an ordered list of exercises or meals edited by id. */
module GymDiet {
  import opened Types
  import Keyed

  // ---------------------------------------------------------------- keys

  function WorkoutDay(w: Workout): string { w.day }
  function DietDay(d: Diet): string { d.day }
  function ExerciseId(e: Exercise): string { e.id }
  function MealId(m: Meal): string { m.id }

  /** No two items of the list share an id. */
  predicate ExerciseIdsUnique(w: Workout) { Keyed.Unique(w.exercises, ExerciseId) }
  predicate MealIdsUnique(d: Diet) { Keyed.Unique(d.meals, MealId) }

  // ---------------------------------------------------------------- day records

  /** `getWorkoutForDay(day)`: the first stored workout of the day, else a new empty workout for
      the day carrying the fresh id. */
  function WorkoutForDay(workouts: seq<Workout>, day: string, freshId: string): (r: Workout)
    ensures r.day == day
    ensures Keyed.HasKey(workouts, WorkoutDay, day) ==>
      r == workouts[Keyed.IndexOf(workouts, WorkoutDay, day)]
    ensures !Keyed.HasKey(workouts, WorkoutDay, day) ==> r == Workout(freshId, day, [], "")
  {
    match Keyed.Find(workouts, WorkoutDay, day)
    case Some(w) => w
    case None => Workout(freshId, day, [], "")
  }

  /** `getDietForDay(day)`: the first stored diet of the day, else a new empty diet for the day
      carrying the fresh id. */
  function DietForDay(diets: seq<Diet>, day: string, freshId: string): (r: Diet)
    ensures r.day == day
    ensures Keyed.HasKey(diets, DietDay, day) ==> r == diets[Keyed.IndexOf(diets, DietDay, day)]
    ensures !Keyed.HasKey(diets, DietDay, day) ==> r == Diet(freshId, day, [], "")
  {
    match Keyed.Find(diets, DietDay, day)
    case Some(d) => d
    case None => Diet(freshId, day, [], "")
  }

  /** The workouts after `updateWorkout(w)`: w replaces the workout of its day in place, or is
      appended when its day has none. */
  function WithWorkout(workouts: seq<Workout>, w: Workout): seq<Workout> {
    Keyed.Upsert(workouts, WorkoutDay, w)
  }

  /** The diets after `updateDiet(d)`. */
  function WithDiet(diets: seq<Diet>, d: Diet): seq<Diet> {
    Keyed.Upsert(diets, DietDay, d)
  }

  /** After `updateWorkout(w)` the day of w shows w, any other day shows what it showed before,
      the length grows by at most one and no day is duplicated. */
  lemma WithWorkoutEffect(workouts: seq<Workout>, w: Workout, other: string, freshId: string)
    requires other != w.day
    ensures WorkoutForDay(WithWorkout(workouts, w), w.day, freshId) == w
    ensures WorkoutForDay(WithWorkout(workouts, w), other, freshId) == WorkoutForDay(workouts, other, freshId)
    ensures |workouts| <= |WithWorkout(workouts, w)| <= |workouts| + 1
    ensures Keyed.Unique(workouts, WorkoutDay) ==> Keyed.Unique(WithWorkout(workouts, w), WorkoutDay)
  {
    Keyed.UpsertOtherKey(workouts, WorkoutDay, w, other);
    if Keyed.Unique(workouts, WorkoutDay) {
      Keyed.UpsertKeepsUnique(workouts, WorkoutDay, w);
    }
  }

  /** After `updateDiet(d)` the day of d shows d, any other day shows what it showed before,
      the length grows by at most one and no day is duplicated. */
  lemma WithDietEffect(diets: seq<Diet>, d: Diet, other: string, freshId: string)
    requires other != d.day
    ensures DietForDay(WithDiet(diets, d), d.day, freshId) == d
    ensures DietForDay(WithDiet(diets, d), other, freshId) == DietForDay(diets, other, freshId)
    ensures |diets| <= |WithDiet(diets, d)| <= |diets| + 1
    ensures Keyed.Unique(diets, DietDay) ==> Keyed.Unique(WithDiet(diets, d), DietDay)
  {
    Keyed.UpsertOtherKey(diets, DietDay, d, other);
    if Keyed.Unique(diets, DietDay) {
      Keyed.UpsertKeepsUnique(diets, DietDay, d);
    }
  }

  // ---------------------------------------------------------------- exercises

  /** The exercise a click on "add" creates: no name, 3 sets of 10 reps, weight 0, not done. */
  function NewExercise(id: string): Exercise {
    Exercise(id, "", 3, 10, Some(0.0), false)
  }

  /** `Partial<Exercise>`: the fields an edit sets; an absent field is left as it was. */
  datatype ExercisePatch = ExercisePatch(
    id: Option<string>, name: Option<string>, sets: Option<int>, reps: Option<int>,
    weight: Option<real>, completed: Option<bool>)

  /** `{ ...ex, ...updates }`. */
  function MergeExercise(ex: Exercise, p: ExercisePatch): (r: Exercise)
    ensures r.id == p.id.GetOr(ex.id) && r.name == p.name.GetOr(ex.name)
    ensures r.sets == p.sets.GetOr(ex.sets) && r.reps == p.reps.GetOr(ex.reps)
    ensures r.completed == p.completed.GetOr(ex.completed)
    ensures p.weight.Some? ==> r.weight == p.weight
    ensures p.weight.None? ==> r.weight == ex.weight
  {
    Exercise(p.id.GetOr(ex.id), p.name.GetOr(ex.name), p.sets.GetOr(ex.sets), p.reps.GetOr(ex.reps),
             if p.weight.Some? then p.weight else ex.weight, p.completed.GetOr(ex.completed))
  }

  /** The edit applied to each matching exercise. */
  function Merger(p: ExercisePatch): Exercise -> Exercise {
    ex => MergeExercise(ex, p)
  }

  /** The patch the completion button sends. */
  function CompletedPatch(done: bool): ExercisePatch {
    ExercisePatch(None, None, None, None, None, Some(done))
  }

  /** The workout `addExercise(w)` stores. */
  function WithNewExercise(w: Workout, freshId: string): Workout {
    w.(exercises := w.exercises + [NewExercise(freshId)])
  }

  /** The workout `updateExercise(w, id, p)` stores. */
  function WithExerciseUpdated(w: Workout, id: string, p: ExercisePatch): (r: Workout)
    ensures r.id == w.id && r.day == w.day && r.notes == w.notes
    ensures |r.exercises| == |w.exercises|
    ensures forall j :: 0 <= j < |w.exercises| ==>
      r.exercises[j] == if w.exercises[j].id == id then MergeExercise(w.exercises[j], p) else w.exercises[j]
  {
    w.(exercises := Keyed.UpdateWhere(w.exercises, ExerciseId, id, Merger(p)))
  }

  /** The workout `removeExercise(w, id)` stores. */
  function WithoutExercise(w: Workout, id: string): (r: Workout)
    ensures r.id == w.id && r.day == w.day && r.notes == w.notes
    ensures forall j :: 0 <= j < |r.exercises| ==> r.exercises[j] in w.exercises && r.exercises[j].id != id
    ensures forall j :: 0 <= j < |w.exercises| && w.exercises[j].id != id ==> w.exercises[j] in r.exercises
    ensures |r.exercises| == |w.exercises| - Keyed.Count(w.exercises, ExerciseId, id)
  {
    w.(exercises := Keyed.RemoveWhere(w.exercises, ExerciseId, id))
  }

  /** Adding an exercise with an unused id keeps ids unique, and removing it again gives back
      the workout exactly: the existing exercises are kept, in order. */
  lemma NewExerciseUndone(w: Workout, freshId: string)
    requires !Keyed.HasKey(w.exercises, ExerciseId, freshId)
    ensures ExerciseIdsUnique(w) ==> ExerciseIdsUnique(WithNewExercise(w, freshId))
    ensures WithoutExercise(WithNewExercise(w, freshId), freshId) == w
  {
    var e := NewExercise(freshId);
    Keyed.RemoveConcat(w.exercises, [e], ExerciseId, freshId);
    Keyed.RemoveAbsent(w.exercises, ExerciseId, freshId);
    assert Keyed.RemoveWhere([e], ExerciseId, freshId) == [];
    if ExerciseIdsUnique(w) {
      assert w.exercises + [e] == Keyed.Upsert(w.exercises, ExerciseId, e);
      Keyed.UpsertKeepsUnique(w.exercises, ExerciseId, e);
    }
  }

  /** An edit that does not set the id keeps every exercise's id, and so keeps ids unique; an
      edit of an id that is not there changes nothing. */
  lemma UpdateExerciseKeepsIds(w: Workout, id: string, p: ExercisePatch)
    ensures p.id.None? ==> forall j :: 0 <= j < |w.exercises| ==>
      WithExerciseUpdated(w, id, p).exercises[j].id == w.exercises[j].id
    ensures p.id.None? && ExerciseIdsUnique(w) ==> ExerciseIdsUnique(WithExerciseUpdated(w, id, p))
    ensures !Keyed.HasKey(w.exercises, ExerciseId, id) ==> WithExerciseUpdated(w, id, p) == w
  {
    var f := Merger(p);
    if p.id.None? {
      Keyed.UpdateKeepsKeys(w.exercises, ExerciseId, id, f);
    }
    if !Keyed.HasKey(w.exercises, ExerciseId, id) {
      Keyed.UpdateAbsent(w.exercises, ExerciseId, id, f);
    }
  }

  /** Removing keeps ids unique, and removing twice is removing once. */
  lemma RemoveExerciseIdempotent(w: Workout, id: string)
    ensures ExerciseIdsUnique(w) ==> ExerciseIdsUnique(WithoutExercise(w, id))
    ensures WithoutExercise(WithoutExercise(w, id), id) == WithoutExercise(w, id)
  {
    Keyed.RemoveTwice(w.exercises, ExerciseId, id);
    if ExerciseIdsUnique(w) {
      Keyed.RemoveKeepsUnique(w.exercises, ExerciseId, id, ExerciseId);
    }
  }

  /** The completion button on exercise i: the patch `{ completed: !exercise.completed }`. */
  function Toggled(w: Workout, i: int): Workout
    requires 0 <= i < |w.exercises|
  {
    WithExerciseUpdated(w, w.exercises[i].id, CompletedPatch(!w.exercises[i].completed))
  }

  /** With unique ids a click flips exactly the flag of exercise i, and a second click on the
      same exercise gives back the workout. */
  lemma ToggleTwice(w: Workout, i: int)
    requires 0 <= i < |w.exercises| && ExerciseIdsUnique(w)
    ensures Toggled(w, i).exercises[i] == w.exercises[i].(completed := !w.exercises[i].completed)
    ensures forall j :: 0 <= j < |w.exercises| && j != i ==> Toggled(w, i).exercises[j] == w.exercises[j]
    ensures Toggled(Toggled(w, i), i) == w
  {
    var w1 := Toggled(w, i);
    forall j | 0 <= j < |w.exercises| && j != i
      ensures w1.exercises[j] == w.exercises[j]
    {
      if j < i {
        assert ExerciseId(w.exercises[j]) != ExerciseId(w.exercises[i]);
      } else {
        assert ExerciseId(w.exercises[i]) != ExerciseId(w.exercises[j]);
      }
    }
    var w2 := Toggled(w1, i);
    assert w1.exercises[i].id == w.exercises[i].id;
    forall j | 0 <= j < |w.exercises|
      ensures w2.exercises[j] == w.exercises[j]
    {
      if j != i {
        assert w1.exercises[j] == w.exercises[j];
      }
    }
    assert w2.exercises == w.exercises;
  }

  // ---------------------------------------------------------------- meals

  /** The meal `addMeal(d, kind)` creates: the requested kind and no description. */
  function NewMeal(id: string, kind: MealType): Meal {
    Meal(id, kind, "")
  }

  /** The diet `addMeal(d, kind)` stores. */
  function WithNewMeal(d: Diet, kind: MealType, freshId: string): Diet {
    d.(meals := d.meals + [NewMeal(freshId, kind)])
  }

  /** The edit applied to each matching meal. */
  function DescriptionSetter(description: string): Meal -> Meal {
    (m: Meal) => m.(description := description)
  }

  /** The diet `updateMeal(d, id, description)` stores. */
  function WithMealDescription(d: Diet, id: string, description: string): (r: Diet)
    ensures r.id == d.id && r.day == d.day && r.notes == d.notes
    ensures |r.meals| == |d.meals|
    ensures forall j :: 0 <= j < |d.meals| ==>
      r.meals[j] == if d.meals[j].id == id then d.meals[j].(description := description) else d.meals[j]
  {
    d.(meals := Keyed.UpdateWhere(d.meals, MealId, id, DescriptionSetter(description)))
  }

  /** The diet `removeMeal(d, id)` stores. */
  function WithoutMeal(d: Diet, id: string): (r: Diet)
    ensures r.id == d.id && r.day == d.day && r.notes == d.notes
    ensures forall j :: 0 <= j < |r.meals| ==> r.meals[j] in d.meals && r.meals[j].id != id
    ensures forall j :: 0 <= j < |d.meals| && d.meals[j].id != id ==> d.meals[j] in r.meals
    ensures |r.meals| == |d.meals| - Keyed.Count(d.meals, MealId, id)
  {
    d.(meals := Keyed.RemoveWhere(d.meals, MealId, id))
  }

  /** Adding a meal with an unused id keeps ids unique, and removing it again gives back the
      diet exactly. */
  lemma NewMealUndone(d: Diet, kind: MealType, freshId: string)
    requires !Keyed.HasKey(d.meals, MealId, freshId)
    ensures MealIdsUnique(d) ==> MealIdsUnique(WithNewMeal(d, kind, freshId))
    ensures WithoutMeal(WithNewMeal(d, kind, freshId), freshId) == d
  {
    var m := NewMeal(freshId, kind);
    Keyed.RemoveConcat(d.meals, [m], MealId, freshId);
    Keyed.RemoveAbsent(d.meals, MealId, freshId);
    assert Keyed.RemoveWhere([m], MealId, freshId) == [];
    if MealIdsUnique(d) {
      assert d.meals + [m] == Keyed.Upsert(d.meals, MealId, m);
      Keyed.UpsertKeepsUnique(d.meals, MealId, m);
    }
  }

  /** Editing a description keeps every meal's id and kind, so ids stay unique; editing an id
      that is not there changes nothing. */
  lemma MealDescriptionKeepsIds(d: Diet, id: string, description: string)
    ensures forall j :: 0 <= j < |d.meals| ==>
      WithMealDescription(d, id, description).meals[j].id == d.meals[j].id &&
      WithMealDescription(d, id, description).meals[j].kind == d.meals[j].kind
    ensures MealIdsUnique(d) ==> MealIdsUnique(WithMealDescription(d, id, description))
    ensures !Keyed.HasKey(d.meals, MealId, id) ==> WithMealDescription(d, id, description) == d
  {
    var f := DescriptionSetter(description);
    Keyed.UpdateKeepsKeys(d.meals, MealId, id, f);
    if !Keyed.HasKey(d.meals, MealId, id) {
      Keyed.UpdateAbsent(d.meals, MealId, id, f);
    }
  }

  /** Removing keeps ids unique, and removing twice is removing once. */
  lemma RemoveMealIdempotent(d: Diet, id: string)
    ensures MealIdsUnique(d) ==> MealIdsUnique(WithoutMeal(d, id))
    ensures WithoutMeal(WithoutMeal(d, id), id) == WithoutMeal(d, id)
  {
    Keyed.RemoveTwice(d.meals, MealId, id);
    if MealIdsUnique(d) {
      Keyed.RemoveKeepsUnique(d.meals, MealId, id, MealId);
    }
  }

  // ---------------------------------------------------------------- component state

  /** The tracker's stored workouts and diets and the selected day. */
  class GymLog {
    var workouts: seq<Workout>
    var diets: seq<Diet>
    var selectedDay: string

    /** The collections as loaded from storage, with Monday selected. */
    constructor (storedWorkouts: seq<Workout>, storedDiets: seq<Diet>)
      ensures workouts == storedWorkouts && diets == storedDiets && selectedDay == "Lunes"
    {
      workouts := storedWorkouts;
      diets := storedDiets;
      selectedDay := "Lunes";
    }

    /** The day buttons. */
    method SelectDay(day: string)
      modifies this
      ensures selectedDay == day && workouts == old(workouts) && diets == old(diets)
    {
      selectedDay := day;
    }

    /** `updateWorkout(w)`. */
    method UpdateWorkout(w: Workout)
      modifies this
      ensures workouts == WithWorkout(old(workouts), w)
      ensures diets == old(diets) && selectedDay == old(selectedDay)
    {
      var existingIndex := Keyed.IndexOf(workouts, WorkoutDay, w.day);
      if existingIndex >= 0 {
        var updated := workouts;
        updated := updated[existingIndex := w];
        workouts := updated;
      } else {
        workouts := workouts + [w];
      }
    }

    /** `updateDiet(d)`. */
    method UpdateDiet(d: Diet)
      modifies this
      ensures diets == WithDiet(old(diets), d)
      ensures workouts == old(workouts) && selectedDay == old(selectedDay)
    {
      var existingIndex := Keyed.IndexOf(diets, DietDay, d.day);
      if existingIndex >= 0 {
        var updated := diets;
        updated := updated[existingIndex := d];
        diets := updated;
      } else {
        diets := diets + [d];
      }
    }

    /** `addExercise(w)`, the new exercise carrying an id not used in w. */
    method AddExercise(w: Workout, freshId: string)
      requires !Keyed.HasKey(w.exercises, ExerciseId, freshId)
      modifies this
      ensures workouts == WithWorkout(old(workouts), WithNewExercise(w, freshId))
      ensures diets == old(diets) && selectedDay == old(selectedDay)
    {
      var newExercise := NewExercise(freshId);
      UpdateWorkout(w.(exercises := w.exercises + [newExercise]));
    }

    /** `updateExercise(w, id, updates)`. */
    method UpdateExercise(w: Workout, exerciseId: string, updates: ExercisePatch)
      modifies this
      ensures workouts == WithWorkout(old(workouts), WithExerciseUpdated(w, exerciseId, updates))
      ensures diets == old(diets) && selectedDay == old(selectedDay)
    {
      UpdateWorkout(WithExerciseUpdated(w, exerciseId, updates));
    }

    /** `removeExercise(w, id)`. */
    method RemoveExercise(w: Workout, exerciseId: string)
      modifies this
      ensures workouts == WithWorkout(old(workouts), WithoutExercise(w, exerciseId))
      ensures diets == old(diets) && selectedDay == old(selectedDay)
    {
      UpdateWorkout(WithoutExercise(w, exerciseId));
    }

    /** `addMeal(d, kind)`, the new meal carrying an id not used in d. */
    method AddMeal(d: Diet, kind: MealType, freshId: string)
      requires !Keyed.HasKey(d.meals, MealId, freshId)
      modifies this
      ensures diets == WithDiet(old(diets), WithNewMeal(d, kind, freshId))
      ensures workouts == old(workouts) && selectedDay == old(selectedDay)
    {
      var newMeal := NewMeal(freshId, kind);
      UpdateDiet(d.(meals := d.meals + [newMeal]));
    }

    /** `updateMeal(d, id, description)`. */
    method UpdateMeal(d: Diet, mealId: string, description: string)
      modifies this
      ensures diets == WithDiet(old(diets), WithMealDescription(d, mealId, description))
      ensures workouts == old(workouts) && selectedDay == old(selectedDay)
    {
      UpdateDiet(WithMealDescription(d, mealId, description));
    }

    /** `removeMeal(d, id)`. */
    method RemoveMeal(d: Diet, mealId: string)
      modifies this
      ensures diets == WithDiet(old(diets), WithoutMeal(d, mealId))
      ensures workouts == old(workouts) && selectedDay == old(selectedDay)
    {
      UpdateDiet(WithoutMeal(d, mealId));
    }
  }
}
