/** Record and tag shapes shared by the six trackers (lifeplanner/src/types/index.ts).
    A TypeScript union of string literals becomes an enumeration with a function that
    gives each tag its text; optional fields (`note?`, `weight?`, `mood?`) become Option. */
module Types {

  datatype Option<+T> = None | Some(value: T) {
    /** `x ?? d`: the value if present, else the default. */
    function GetOr(default: T): T {
      match this
      case Some(v) => v
      case None => default
    }
  }

  // ---------------------------------------------------------------- planner

  /** The five activity tags of a time block. */
  datatype ActivityType = Trabajo | Estudio | Gym | Hobby | Libre

  function ActivityName(a: ActivityType): string {
    match a
    case Trabajo => "Trabajo"
    case Estudio => "Estudio"
    case Gym => "Gym"
    case Hobby => "Hobby"
    case Libre => "Libre"
  }

  /** A row of the planner's activity table: an id, the tag it stands for and a colour class. */
  datatype Activity = Activity(id: string, kind: ActivityType, color: string)

  /** One cell of the weekly grid; (day, hour) is its natural key. */
  datatype TimeBlock = TimeBlock(day: string, hour: string, activity: ActivityType)

  /** Free text attached to a day of the week; the day is its natural key. */
  datatype DayNote = DayNote(day: string, note: string)

  // ---------------------------------------------------------------- mood

  datatype Mood = Feliz | Triste | Estresado | Motivado | Cansado

  function MoodName(m: Mood): string {
    match m
    case Feliz => "Feliz"
    case Triste => "Triste"
    case Estresado => "Estresado"
    case Motivado => "Motivado"
    case Cansado => "Cansado"
  }

  /** A mood logged for a calendar date, with an optional note. */
  datatype MoodEntry = MoodEntry(date: string, mood: Mood, note: Option<string>)

  // ---------------------------------------------------------------- gym and diet

  /** An exercise: the weight is optional, the other fields always present. */
  datatype Exercise = Exercise(id: string, name: string, sets: int, reps: int,
                               weight: Option<real>, completed: bool)

  /** The workout of one day of the week: an ordered list of exercises and notes. */
  datatype Workout = Workout(id: string, day: string, exercises: seq<Exercise>, notes: string)

  datatype MealType = Desayuno | Almuerzo | Cena | Snack

  function MealTypeName(t: MealType): string {
    match t
    case Desayuno => "Desayuno"
    case Almuerzo => "Almuerzo"
    case Cena => "Cena"
    case Snack => "Snack"
  }

  datatype Meal = Meal(id: string, kind: MealType, description: string)

  /** The diet of one day of the week: an ordered list of meals and notes. */
  datatype Diet = Diet(id: string, day: string, meals: seq<Meal>, notes: string)

  // ---------------------------------------------------------------- hobbies

  datatype HobbyCategory = Pintar | Leer | Bicicleta | SkinCare | HealthCare | Otro

  function CategoryName(c: HobbyCategory): string {
    match c
    case Pintar => "Pintar"
    case Leer => "Leer"
    case Bicicleta => "Bicicleta"
    case SkinCare => "Skin Care"
    case HealthCare => "Health Care"
    case Otro => "Otro"
  }

  datatype Hobby = Hobby(id: string, name: string, category: HobbyCategory, progress: int,
                         notes: string, lastActivity: string)

  // ---------------------------------------------------------------- projects

  datatype ProjectStatus = Inicio | EnProgreso | Avanzado | Completado

  function StatusName(s: ProjectStatus): string {
    match s
    case Inicio => "Inicio"
    case EnProgreso => "En Progreso"
    case Avanzado => "Avanzado"
    case Completado => "Completado"
  }

  datatype PersonalProject = PersonalProject(id: string, name: string, description: string,
                                             status: ProjectStatus, progress: int, notes: string,
                                             createdAt: string)

  // ---------------------------------------------------------------- daily notes

  datatype DailyNote = DailyNote(id: string, date: string, content: string, mood: Option<string>)

  // ---------------------------------------------------------------- tag texts

  /** Distinct tags have distinct texts, so a tag is recovered from its text. */
  lemma TagNamesInjective()
    ensures forall a, b :: ActivityName(a) == ActivityName(b) ==> a == b
    ensures forall a, b :: MoodName(a) == MoodName(b) ==> a == b
    ensures forall a, b :: MealTypeName(a) == MealTypeName(b) ==> a == b
    ensures forall a, b :: CategoryName(a) == CategoryName(b) ==> a == b
    ensures forall a, b :: StatusName(a) == StatusName(b) ==> a == b
  {
  }
}
