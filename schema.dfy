/**
 * The three tables of the store: their row shapes, the limits their columns
 * impose, the primary keys and the foreign key from an exercise log to its
 * workout session.
 */
module Schema {
  import opened Outcomes
  import opened Dates
  import opened Ids
  import opened Keyed

  const ExpenseCategoryMaxLength := 50
  const SessionNameMaxLength := 100
  const ExerciseNameMaxLength := 100
  const ExerciseCategoryMaxLength := 50

  /** The range of a PostgreSQL `INTEGER` column, a 32-bit two's-complement value. */
  const IntegerMin := -0x8000_0000
  const IntegerMax := 0x7FFF_FFFF

  /** A row of `expenses`; only the description is nullable. */
  datatype Expense = Expense(
    id: Id,
    amount: real,
    category: string,
    description: Option<string>,
    transactionDate: Date)

  /** A row of `workout_sessions`: the parent of exercise logs. */
  datatype WorkoutSession = WorkoutSession(
    id: Id,
    sessionName: string,
    workoutDate: Date)

  /** A row of `exercise_logs`: the child, pointing at its session; all five metrics are nullable and independent. */
  datatype ExerciseLog = ExerciseLog(
    id: Id,
    sessionId: Id,
    exerciseName: string,
    category: string,
    durationMinutes: Option<int>,
    sets: Option<int>,
    reps: Option<int>,
    weightKg: Option<real>,
    distanceKm: Option<real>)

  function ExpenseKey(x: Expense): Id { x.id }
  function SessionKey(w: WorkoutSession): Id { w.id }
  function ExerciseKey(x: ExerciseLog): Id { x.id }

  /** Whether a nullable `INTEGER` column can hold `v`. */
  predicate IntegerFits(v: Option<int>) {
    v.None? || IntegerMin <= v.value <= IntegerMax
  }

  /**
   * Whether `s` holds no U+0000: PostgreSQL text cannot contain it, and the
   * driver refuses any string parameter, of an insert or a query, holding one.
   */
  predicate NulFree(s: string) {
    '\0' !in s
  }

  /** Whether a nullable text column can hold `v`. */
  predicate OptionalNulFree(v: Option<string>) {
    v.None? || NulFree(v.value)
  }

  // Column limits, met by every stored row.
  predicate ExpenseFits(x: Expense) {
    |x.category| <= ExpenseCategoryMaxLength && NulFree(x.category) && OptionalNulFree(x.description)
  }

  predicate SessionFits(w: WorkoutSession) {
    |w.sessionName| <= SessionNameMaxLength && NulFree(w.sessionName)
  }

  predicate ExerciseFits(x: ExerciseLog) {
    && |x.exerciseName| <= ExerciseNameMaxLength && |x.category| <= ExerciseCategoryMaxLength
    && NulFree(x.exerciseName) && NulFree(x.category)
    && IntegerFits(x.durationMinutes) && IntegerFits(x.sets) && IntegerFits(x.reps)
  }

  /**
   * What a PostgreSQL `VARCHAR(limit)` column stores for `s` on insert:
   * nothing for a string holding U+0000; otherwise a string within the limit
   * as it is, a longer one cut to the limit when every character beyond the
   * limit is a space, and else nothing. Nothing means the insert fails.
   */
  function Stored(s: string, limit: nat): (r: Option<string>)
    ensures r.Some? <==> NulFree(s) && forall i :: limit <= i < |s| ==> s[i] == ' '
    ensures r.Some? ==> r.value <= s && |r.value| == (if |s| <= limit then |s| else limit) && NulFree(r.value)
    ensures |s| <= limit && NulFree(s) ==> r == Some(s)
  {
    if !NulFree(s) then None
    else if |s| <= limit then Some(s)
    else if forall i | limit <= i < |s| :: s[i] == ' ' then Some(s[..limit])
    else None
  }

  /**
   * The expense row an insert stores, with its category as the column keeps
   * it; none when the category column refuses the category or the
   * description holds U+0000.
   */
  function StoredExpense(x: Expense): (r: Option<Expense>)
    ensures r.Some? <==> Stored(x.category, ExpenseCategoryMaxLength).Some? && OptionalNulFree(x.description)
    ensures r.Some? ==> ExpenseFits(r.value) && r.value == x.(category := r.value.category)
    ensures ExpenseFits(x) ==> r == Some(x)
  {
    if !OptionalNulFree(x.description) then None
    else match Stored(x.category, ExpenseCategoryMaxLength)
    case None => None
    case Some(c) => Some(x.(category := c))
  }

  /** The session row an insert stores, with its name as the column keeps it. */
  function StoredSession(w: WorkoutSession): (r: Option<WorkoutSession>)
    ensures r.Some? <==> Stored(w.sessionName, SessionNameMaxLength).Some?
    ensures r.Some? ==> SessionFits(r.value) && r.value == w.(sessionName := r.value.sessionName)
    ensures SessionFits(w) ==> r == Some(w)
  {
    match Stored(w.sessionName, SessionNameMaxLength)
    case None => None
    case Some(n) => Some(w.(sessionName := n))
  }

  /** The exercise row an insert stores, with its name and category as the columns keep them. */
  function StoredExercise(x: ExerciseLog): (r: Option<ExerciseLog>)
    ensures r.Some? <==>
      && Stored(x.exerciseName, ExerciseNameMaxLength).Some? && Stored(x.category, ExerciseCategoryMaxLength).Some?
      && IntegerFits(x.durationMinutes) && IntegerFits(x.sets) && IntegerFits(x.reps)
    ensures r.Some? ==>
      ExerciseFits(r.value) && r.value == x.(exerciseName := r.value.exerciseName, category := r.value.category)
    ensures ExerciseFits(x) ==> r == Some(x)
  {
    if !(IntegerFits(x.durationMinutes) && IntegerFits(x.sets) && IntegerFits(x.reps)) then None
    else match Stored(x.exerciseName, ExerciseNameMaxLength)
    case None => None
    case Some(n) =>
      match Stored(x.category, ExerciseCategoryMaxLength)
      case None => None
      case Some(c) => Some(x.(exerciseName := n, category := c))
  }

  /**
   * What an INSERT of one row reports: a column that refuses its value is
   * reported before a primary-key clash, and a row that passes both is stored.
   */
  function InsertFault(fits: bool, keyTaken: bool): Option<StoreFault> {
    if !fits then Some(ValueRefused) else if keyTaken then Some(DuplicateKey) else None
  }

  /** The foreign key `exercise_logs.session_id -> workout_sessions.id`. */
  predicate ReferencesResolve(exercises: seq<ExerciseLog>, sessions: seq<WorkoutSession>) {
    forall x :: x in exercises ==> HasKey(sessions, SessionKey, x.sessionId)
  }

  /** Every constraint the `expenses` table declares. */
  predicate ExpenseTableValid(expenses: seq<Expense>) {
    && UniqueKeys(expenses, ExpenseKey)
    && forall x :: x in expenses ==> ExpenseFits(x)
  }

  /** Every constraint the two workout tables declare, the foreign key included. */
  predicate WorkoutTablesValid(sessions: seq<WorkoutSession>, exercises: seq<ExerciseLog>) {
    && UniqueKeys(sessions, SessionKey)
    && UniqueKeys(exercises, ExerciseKey)
    && (forall w :: w in sessions ==> SessionFits(w))
    && (forall x :: x in exercises ==> ExerciseFits(x))
    && ReferencesResolve(exercises, sessions)
  }
}
