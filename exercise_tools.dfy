/**
 * The four workout tools: log one exercise into a session found or created by
 * (date, session name), list the sessions of a date range with their
 * exercises nested, delete one exercise by id, and total duration and
 * distance over the exercises whose session falls in a date range.
 */
module ExerciseTools {
  import opened Outcomes
  import opened Dates
  import opened Ids
  import opened Keyed
  import opened Schema

  const DefaultSessionName := "Daily Workout"

  // ---- find-or-create ----

  predicate HasSessionKey(w: WorkoutSession, d: Date, name: string) {
    w.workoutDate == d && w.sessionName == name
  }

  /** `SELECT ... WHERE workout_date = d AND session_name = name`, then `.first()`, in table order. */
  function FindSession(sessions: seq<WorkoutSession>, d: Date, name: string): (r: Option<WorkoutSession>)
    ensures r.Some? ==> r.value in sessions && HasSessionKey(r.value, d, name)
    ensures r.None? <==> forall w :: w in sessions ==> !HasSessionKey(w, d, name)
  {
    if sessions == [] then None
    else if HasSessionKey(sessions[0], d, name) then Some(sessions[0])
    else
      var r := FindSession(sessions[1..], d, name);
      assert forall w :: w in sessions ==> w == sessions[0] || w in sessions[1..];
      r
  }

  /** At most one session per (date, name): what find-or-create keeps true when calls run one at a time. */
  predicate SessionKeysUnique(sessions: seq<WorkoutSession>) {
    forall i, j :: 0 <= i < j < |sessions| ==>
      !HasSessionKey(sessions[j], sessions[i].workoutDate, sessions[i].sessionName)
  }

  /** Looking up a key after rows were appended: an older match wins, otherwise the appended rows are searched. */
  lemma {:induction false} FindSessionAfterAppend(sessions: seq<WorkoutSession>, extra: seq<WorkoutSession>, d: Date, name: string)
    ensures FindSession(sessions + extra, d, name)
         == if FindSession(sessions, d, name).Some? then FindSession(sessions, d, name) else FindSession(extra, d, name)
  {
    if sessions == [] {
      assert sessions + extra == extra;
    } else {
      assert (sessions + extra)[1..] == sessions[1..] + extra;
      FindSessionAfterAppend(sessions[1..], extra, d, name);
    }
  }

  /** With unique (date, name) keys the lookup returns the one session holding the key. */
  lemma {:induction false} FindSessionFindsTheOne(sessions: seq<WorkoutSession>, w: WorkoutSession)
    requires SessionKeysUnique(sessions) && w in sessions
    ensures FindSession(sessions, w.workoutDate, w.sessionName) == Some(w)
  {
    if sessions[0] != w {
      var k :| 0 <= k < |sessions| && sessions[k] == w;
      assert k > 0;
      assert !HasSessionKey(sessions[0], w.workoutDate, w.sessionName) by {
        assert !HasSessionKey(sessions[k], sessions[0].workoutDate, sessions[0].sessionName);
      }
      assert SessionKeysUnique(sessions[1..]) by {
        forall i, j | 0 <= i < j < |sessions[1..]|
          ensures !HasSessionKey(sessions[1..][j], sessions[1..][i].workoutDate, sessions[1..][i].sessionName)
        {
          assert sessions[1..][i] == sessions[i + 1] && sessions[1..][j] == sessions[j + 1];
        }
      }
      assert w in sessions[1..];
      FindSessionFindsTheOne(sessions[1..], w);
    }
  }

  /**
   * The session a log call attaches to: the first one with this date and
   * name, else a new row under `newSessionId` as the table would store it;
   * none when the table refuses the new row's name.
   */
  function TargetSession(sessions: seq<WorkoutSession>, d: Date, name: string, newSessionId: Id): Option<WorkoutSession> {
    match FindSession(sessions, d, name)
    case Some(w) => Some(w)
    case None => StoredSession(WorkoutSession(newSessionId, name, d))
  }

  /**
   * What finding or inserting the target session reports: a name holding
   * U+0000 fails the lookup query itself; nothing when an existing session is
   * reused; else what inserting the new session reports.
   */
  function SessionInsertFault(sessions: seq<WorkoutSession>, d: Date, name: string, newSessionId: Id): Option<StoreFault> {
    if !NulFree(name) then Some(ValueRefused)
    else if FindSession(sessions, d, name).Some? then None
    else InsertFault(StoredSession(WorkoutSession(newSessionId, name, d)).Some?, HasKey(sessions, SessionKey, newSessionId))
  }

  /** What a successful `log_exercise` reports: the session used and the row inserted. */
  datatype LoggedExercise = LoggedExercise(session: WorkoutSession, exercise: ExerciseLog)

  // ---- listing ----

  /** `WHERE lo <= workout_date <= hi`, in table order. */
  function SelectSessions(sessions: seq<WorkoutSession>, lo: Date, hi: Date): (r: seq<WorkoutSession>)
    ensures forall w :: w in r <==> w in sessions && InRange(w.workoutDate, lo, hi)
  {
    if sessions == [] then []
    else (if InRange(sessions[0].workoutDate, lo, hi) then [sessions[0]] else []) + SelectSessions(sessions[1..], lo, hi)
  }

  /** `SELECT * FROM exercise_logs WHERE session_id = sid`, in table order. */
  function ExercisesOf(exercises: seq<ExerciseLog>, sid: Id): (r: seq<ExerciseLog>)
    ensures forall x :: x in r <==> x in exercises && x.sessionId == sid
  {
    if exercises == [] then []
    else (if exercises[0].sessionId == sid then [exercises[0]] else []) + ExercisesOf(exercises[1..], sid)
  }

  lemma {:induction false} ExercisesOfConcat(a: seq<ExerciseLog>, b: seq<ExerciseLog>, sid: Id)
    ensures ExercisesOf(a + b, sid) == ExercisesOf(a, sid) + ExercisesOf(b, sid)
  {
    if a == [] {
      assert a + b == b;
    } else {
      assert (a + b)[1..] == a[1..] + b;
      ExercisesOfConcat(a[1..], b, sid);
    }
  }

  /** One nested exercise entry of `get_workouts`; every metric is present, absent ones as `None`. */
  datatype ExerciseRecord = ExerciseRecord(
    exerciseId: string,
    name: string,
    category: string,
    duration: Option<int>,
    sets: Option<int>,
    reps: Option<int>,
    weightKg: Option<real>,
    distanceKm: Option<real>)

  /** One session entry of `get_workouts`, with its exercises nested. */
  datatype SessionRecord = SessionRecord(
    sessionId: string,
    sessionName: string,
    date: string,
    exercises: seq<ExerciseRecord>)

  function ExerciseRecordOf(x: ExerciseLog): ExerciseRecord {
    ExerciseRecord(FormatId(x.id), x.exerciseName, x.category, x.durationMinutes, x.sets, x.reps, x.weightKg, x.distanceKm)
  }

  function ExerciseListing(xs: seq<ExerciseLog>): seq<ExerciseRecord> {
    seq(|xs|, i requires 0 <= i < |xs| => ExerciseRecordOf(xs[i]))
  }

  function SessionRecordOf(w: WorkoutSession, exercises: seq<ExerciseLog>): SessionRecord {
    SessionRecord(FormatId(w.id), w.sessionName, FormatDate(w.workoutDate), ExerciseListing(ExercisesOf(exercises, w.id)))
  }

  /** The whole `get_workouts` answer for a date range. */
  function WorkoutReport(sessions: seq<WorkoutSession>, exercises: seq<ExerciseLog>, lo: Date, hi: Date): seq<SessionRecord> {
    var sel := SelectSessions(sessions, lo, hi);
    seq(|sel|, i requires 0 <= i < |sel| => SessionRecordOf(sel[i], exercises))
  }

  /** The report has an entry for exactly the sessions dated inside `[lo, hi]`. */
  lemma ReportCoversExactlyTheRange(sessions: seq<WorkoutSession>, exercises: seq<ExerciseLog>, lo: Date, hi: Date)
    ensures forall w :: w in sessions && InRange(w.workoutDate, lo, hi) ==>
      SessionRecordOf(w, exercises) in WorkoutReport(sessions, exercises, lo, hi)
    ensures forall rec :: rec in WorkoutReport(sessions, exercises, lo, hi) ==>
      exists w :: w in sessions && InRange(w.workoutDate, lo, hi) && rec == SessionRecordOf(w, exercises)
  {
    var sel := SelectSessions(sessions, lo, hi);
    var report := WorkoutReport(sessions, exercises, lo, hi);
    forall w | w in sessions && InRange(w.workoutDate, lo, hi)
      ensures SessionRecordOf(w, exercises) in report
    {
      var k :| 0 <= k < |sel| && sel[k] == w;
      assert report[k] == SessionRecordOf(w, exercises);
    }
    forall rec | rec in report
      ensures exists w :: w in sessions && InRange(w.workoutDate, lo, hi) && rec == SessionRecordOf(w, exercises)
    {
      var k :| 0 <= k < |report| && report[k] == rec;
      assert sel[k] in sel;
    }
  }

  /** A session's nested list holds exactly its own exercises, and is empty when it has none. */
  lemma NestedExercisesAreTheChildren(w: WorkoutSession, exercises: seq<ExerciseLog>)
    ensures forall x :: x in exercises && x.sessionId == w.id ==>
      ExerciseRecordOf(x) in SessionRecordOf(w, exercises).exercises
    ensures forall er :: er in SessionRecordOf(w, exercises).exercises ==>
      exists x :: x in exercises && x.sessionId == w.id && er == ExerciseRecordOf(x)
    ensures (forall x :: x in exercises ==> x.sessionId != w.id) ==> SessionRecordOf(w, exercises).exercises == []
  {
    var children := ExercisesOf(exercises, w.id);
    var listed := ExerciseListing(children);
    forall x | x in exercises && x.sessionId == w.id
      ensures ExerciseRecordOf(x) in listed
    {
      var k :| 0 <= k < |children| && children[k] == x;
      assert listed[k] == ExerciseRecordOf(x);
    }
    forall er | er in listed
      ensures exists x :: x in exercises && x.sessionId == w.id && er == ExerciseRecordOf(x)
    {
      var k :| 0 <= k < |listed| && listed[k] == er;
      assert children[k] in children;
    }
    if children != [] {
      assert children[0] in children;
    }
  }

  /** After a delete, no session's nested list shows the deleted exercise's id, and the session's other exercises are still shown. */
  lemma DeletedExerciseIsNotListed(exercises: seq<ExerciseLog>, id: Id, w: WorkoutSession)
    ensures forall er :: er in SessionRecordOf(w, WithoutKey(exercises, ExerciseKey, id)).exercises ==>
              er.exerciseId != FormatId(id)
    ensures forall x :: x in exercises && x.sessionId == w.id && x.id != id ==>
              ExerciseRecordOf(x) in SessionRecordOf(w, WithoutKey(exercises, ExerciseKey, id)).exercises
  {
    var remaining := WithoutKey(exercises, ExerciseKey, id);
    NestedExercisesAreTheChildren(w, remaining);
    forall er | er in SessionRecordOf(w, remaining).exercises ensures er.exerciseId != FormatId(id) {
      var y :| y in remaining && y.sessionId == w.id && er == ExerciseRecordOf(y);
      if er.exerciseId == FormatId(id) {
        FormatIdInjective(y.id, id);
      }
    }
  }

  // ---- summary ----

  /** The inner join's condition: the exercise's session exists and is dated inside `[lo, hi]`. */
  predicate ParentInRange(sessions: seq<WorkoutSession>, sid: Id, lo: Date, hi: Date) {
    exists w :: w in sessions && w.id == sid && InRange(w.workoutDate, lo, hi)
  }

  /** `exercise_logs JOIN workout_sessions WHERE lo <= workout_date <= hi`, one row per exercise. */
  function JoinInRange(exercises: seq<ExerciseLog>, sessions: seq<WorkoutSession>, lo: Date, hi: Date): (r: seq<ExerciseLog>)
    ensures forall x :: x in r <==> x in exercises && ParentInRange(sessions, x.sessionId, lo, hi)
  {
    if exercises == [] then []
    else
      (if ParentInRange(sessions, exercises[0].sessionId, lo, hi) then [exercises[0]] else [])
      + JoinInRange(exercises[1..], sessions, lo, hi)
  }

  /** `SUM(duration_minutes)`, NULLs skipped, and 0 for no rows (`result or 0`). */
  function TotalDuration(xs: seq<ExerciseLog>): int {
    if xs == [] then 0 else xs[0].durationMinutes.GetOr(0) + TotalDuration(xs[1..])
  }

  /** `SUM(distance_km)`, NULLs skipped, and 0 for no rows. */
  function TotalDistance(xs: seq<ExerciseLog>): real {
    if xs == [] then 0.0 else xs[0].distanceKm.GetOr(0.0) + TotalDistance(xs[1..])
  }

  /** The `get_workout_summary` answer: both keys, always. */
  datatype WorkoutTotals = WorkoutTotals(totalDurationMinutes: real, totalDistanceKm: real)

  lemma {:induction false} JoinConcat(a: seq<ExerciseLog>, b: seq<ExerciseLog>, sessions: seq<WorkoutSession>, lo: Date, hi: Date)
    ensures JoinInRange(a + b, sessions, lo, hi) == JoinInRange(a, sessions, lo, hi) + JoinInRange(b, sessions, lo, hi)
  {
    if a == [] {
      assert a + b == b;
    } else {
      assert (a + b)[1..] == a[1..] + b;
      JoinConcat(a[1..], b, sessions, lo, hi);
    }
  }

  lemma {:induction false} TotalsConcat(a: seq<ExerciseLog>, b: seq<ExerciseLog>)
    ensures TotalDuration(a + b) == TotalDuration(a) + TotalDuration(b)
    ensures TotalDistance(a + b) == TotalDistance(a) + TotalDistance(b)
  {
    if a == [] {
      assert a + b == b;
    } else {
      assert (a + b)[1..] == a[1..] + b;
      TotalsConcat(a[1..], b);
    }
  }

  /** Adding a session no exercise points at changes no exercise's join partner. */
  lemma {:induction false} JoinIgnoresNewSession(exercises: seq<ExerciseLog>, sessions: seq<WorkoutSession>, w: WorkoutSession, lo: Date, hi: Date)
    requires ReferencesResolve(exercises, sessions) && !HasKey(sessions, SessionKey, w.id)
    ensures JoinInRange(exercises, sessions + [w], lo, hi) == JoinInRange(exercises, sessions, lo, hi)
  {
    if exercises != [] {
      var x := exercises[0];
      assert x in exercises;
      assert ParentInRange(sessions + [w], x.sessionId, lo, hi) == ParentInRange(sessions, x.sessionId, lo, hi) by {
        if ParentInRange(sessions + [w], x.sessionId, lo, hi) {
          var p :| p in sessions + [w] && p.id == x.sessionId && InRange(p.workoutDate, lo, hi);
          assert p in sessions;
        }
      }
      assert ReferencesResolve(exercises[1..], sessions) by {
        forall y | y in exercises[1..] ensures HasKey(sessions, SessionKey, y.sessionId) {
          assert y in exercises;
        }
      }
      JoinIgnoresNewSession(exercises[1..], sessions, w, lo, hi);
    }
  }

  /** If no exercise's session is in range, both totals are zero. */
  lemma {:induction false} NothingMatchedGivesZero(exercises: seq<ExerciseLog>, sessions: seq<WorkoutSession>, lo: Date, hi: Date)
    requires forall x :: x in exercises ==> !ParentInRange(sessions, x.sessionId, lo, hi)
    ensures JoinInRange(exercises, sessions, lo, hi) == []
    ensures TotalDuration(JoinInRange(exercises, sessions, lo, hi)) == 0
    ensures TotalDistance(JoinInRange(exercises, sessions, lo, hi)) == 0.0
  {
    if exercises != [] {
      assert exercises[0] in exercises;
      assert forall x :: x in exercises[1..] ==> x in exercises;
      NothingMatchedGivesZero(exercises[1..], sessions, lo, hi);
    }
  }

  /**
   * Logging an exercise (into an existing session, or into one created by the
   * same call) raises each total by that exercise's own metric when its
   * session is in range, and leaves the totals alone otherwise.
   */
  lemma LoggedExerciseIsCounted(
    sessions: seq<WorkoutSession>, exercises: seq<ExerciseLog>, added: seq<WorkoutSession>,
    x: ExerciseLog, lo: Date, hi: Date)
    requires WorkoutTablesValid(sessions, exercises)
    requires added == [] || (|added| == 1 && !HasKey(sessions, SessionKey, added[0].id))
    ensures var before := JoinInRange(exercises, sessions, lo, hi);
      var after := JoinInRange(exercises + [x], sessions + added, lo, hi);
      var counted := ParentInRange(sessions + added, x.sessionId, lo, hi);
      && TotalDuration(after) == TotalDuration(before) + (if counted then x.durationMinutes.GetOr(0) else 0)
      && TotalDistance(after) == TotalDistance(before) + (if counted then x.distanceKm.GetOr(0.0) else 0.0)
  {
    if added == [] {
      assert sessions + added == sessions;
    } else {
      JoinIgnoresNewSession(exercises, sessions, added[0], lo, hi);
      assert sessions + added == sessions + [added[0]];
    }
    JoinConcat(exercises, [x], sessions + added, lo, hi);
    var tail := JoinInRange([x], sessions + added, lo, hi);
    assert [x][1..] == [];
    TotalsConcat(JoinInRange(exercises, sessions, lo, hi), tail);
    assert tail == [] || tail == [x];
    if tail == [x] {
      assert tail[1..] == [];
    }
  }

  /**
   * Deleting a present exercise lowers each total by that exercise's metric
   * when its session is in range, and leaves the totals alone otherwise.
   */
  lemma {:induction false} DeletedExerciseIsUncounted(
    sessions: seq<WorkoutSession>, exercises: seq<ExerciseLog>, id: Id, lo: Date, hi: Date)
    requires UniqueKeys(exercises, ExerciseKey) && HasKey(exercises, ExerciseKey, id)
    ensures var x := Lookup(exercises, ExerciseKey, id).value;
      var before := JoinInRange(exercises, sessions, lo, hi);
      var after := JoinInRange(WithoutKey(exercises, ExerciseKey, id), sessions, lo, hi);
      var counted := ParentInRange(sessions, x.sessionId, lo, hi);
      && TotalDuration(before) == TotalDuration(after) + (if counted then x.durationMinutes.GetOr(0) else 0)
      && TotalDistance(before) == TotalDistance(after) + (if counted then x.distanceKm.GetOr(0.0) else 0.0)
  {
    var head, rest := exercises[0], exercises[1..];
    UniqueTail(exercises, ExerciseKey);
    var joinedHead := if ParentInRange(sessions, head.sessionId, lo, hi) then [head] else [];
    assert JoinInRange(exercises, sessions, lo, hi) == joinedHead + JoinInRange(rest, sessions, lo, hi);
    TotalsConcat(joinedHead, JoinInRange(rest, sessions, lo, hi));
    if joinedHead == [head] {
      assert joinedHead[1..] == [];
    }
    if head.id == id {
      WithoutAbsentKey(rest, ExerciseKey, id);
      assert WithoutKey(exercises, ExerciseKey, id) == rest;
    } else {
      assert HasKey(rest, ExerciseKey, id) by {
        var y :| y in exercises && y.id == id;
        assert y in rest;
      }
      DeletedExerciseIsUncounted(sessions, rest, id, lo, hi);
      var remaining := WithoutKey(rest, ExerciseKey, id);
      assert WithoutKey(exercises, ExerciseKey, id) == [head] + remaining;
      assert ([head] + remaining)[1..] == remaining;
      assert JoinInRange([head] + remaining, sessions, lo, hi) == joinedHead + JoinInRange(remaining, sessions, lo, hi);
      TotalsConcat(joinedHead, JoinInRange(remaining, sessions, lo, hi));
    }
  }

  // ---- one log_exercise call, as a function of the tables before it ----

  /** The caller-supplied columns of one exercise row. */
  datatype ExerciseEntry = ExerciseEntry(
    exerciseName: string,
    category: string,
    durationMinutes: Option<int>,
    sets: Option<int>,
    reps: Option<int>,
    weightKg: Option<real>,
    distanceKm: Option<real>)

  function RowOf(e: ExerciseEntry, id: Id, sessionId: Id): ExerciseLog {
    ExerciseLog(id, sessionId, e.exerciseName, e.category, e.durationMinutes, e.sets, e.reps, e.weightKg, e.distanceKm)
  }

  /** What a call reports together with both tables after it. */
  datatype LogState = LogState(result: Result<LoggedExercise>, sessions: seq<WorkoutSession>, exercises: seq<ExerciseLog>)

  /**
   * `log_exercise`: parse the date; find the session with this date and name
   * or insert and commit a new one; then insert one exercise row under it.
   * The session commit stands on its own, so a failing exercise insert still
   * leaves a newly created session behind.
   */
  function LogOutcome(
    sessions: seq<WorkoutSession>, exercises: seq<ExerciseLog>, dateText: string, sessionName: Option<string>,
    e: ExerciseEntry, newSessionId: Id, newExerciseId: Id): (s: LogState)
    ensures ParseDate(dateText).None? ==> s == LogState(Err(InvalidDateFormat), sessions, exercises)
    ensures s.result.Err? ==> s.exercises == exercises
    ensures s.result.Ok? ==>
      var d := ParseDate(dateText).value;
      var name := sessionName.GetOr(DefaultSessionName);
      var w := s.result.value.session;
      && s.exercises == exercises + [s.result.value.exercise]
      && w in s.sessions
      && w.workoutDate == d
      && (w.sessionName == name || Stored(name, SessionNameMaxLength) == Some(w.sessionName))
      && StoredExercise(RowOf(e, newExerciseId, w.id)) == Some(s.result.value.exercise)
    ensures |sessions| <= |s.sessions| <= |sessions| + 1 && s.sessions[..|sessions|] == sessions
    ensures |s.sessions| > |sessions| ==>
      && ParseDate(dateText).Some?
      && StoredSession(WorkoutSession(newSessionId, sessionName.GetOr(DefaultSessionName), ParseDate(dateText).value))
         == Some(s.sessions[|sessions|])
  {
    match ParseDate(dateText)
    case None => LogState(Err(InvalidDateFormat), sessions, exercises)
    case Some(d) =>
      var name := sessionName.GetOr(DefaultSessionName);
      match SessionInsertFault(sessions, d, name, newSessionId)
      case Some(f) => LogState(Err(StoreFailure(f)), sessions, exercises)
      case None =>
        var w := TargetSession(sessions, d, name, newSessionId).value;
        var withSession := if FindSession(sessions, d, name).Some? then sessions else sessions + [w];
        var x := RowOf(e, newExerciseId, w.id);
        match InsertFault(StoredExercise(x).Some?, HasKey(exercises, ExerciseKey, newExerciseId))
        case Some(f) => LogState(Err(StoreFailure(f)), withSession, exercises)
        case None => LogState(Ok(LoggedExercise(w, StoredExercise(x).value)), withSession, exercises + [StoredExercise(x).value])
  }

  /**
   * A log call succeeds exactly when the date parses, a session of that date
   * and name exists or a new one is accepted by the session table, both
   * exercise strings are accepted by their columns, the session name holds no
   * U+0000, the three integer metrics fit `INTEGER`, and the exercise id is free.
   */
  lemma LogSucceedsExactlyWhen(
    sessions: seq<WorkoutSession>, exercises: seq<ExerciseLog>, dateText: string, sessionName: Option<string>,
    e: ExerciseEntry, newSessionId: Id, newExerciseId: Id)
    ensures LogOutcome(sessions, exercises, dateText, sessionName, e, newSessionId, newExerciseId).result.Ok? <==>
      && ParseDate(dateText).Some?
      && (|| FindSession(sessions, ParseDate(dateText).value, sessionName.GetOr(DefaultSessionName)).Some?
          || (&& Stored(sessionName.GetOr(DefaultSessionName), SessionNameMaxLength).Some?
              && !HasKey(sessions, SessionKey, newSessionId)))
      && Stored(e.exerciseName, ExerciseNameMaxLength).Some?
      && Stored(e.category, ExerciseCategoryMaxLength).Some?
      && NulFree(sessionName.GetOr(DefaultSessionName))
      && IntegerFits(e.durationMinutes) && IntegerFits(e.sets) && IntegerFits(e.reps)
      && !HasKey(exercises, ExerciseKey, newExerciseId)
  {
  }

  /**
   * A session name holding U+0000 fails the find query itself: the call
   * reports the refusal and leaves both tables as they were, whatever
   * sessions are stored.
   */
  lemma NulSessionNameChangesNothing(
    sessions: seq<WorkoutSession>, exercises: seq<ExerciseLog>, dateText: string, sessionName: Option<string>,
    e: ExerciseEntry, newSessionId: Id, newExerciseId: Id)
    requires '\0' in sessionName.GetOr(DefaultSessionName)
    ensures LogOutcome(sessions, exercises, dateText, sessionName, e, newSessionId, newExerciseId).sessions == sessions
    ensures LogOutcome(sessions, exercises, dateText, sessionName, e, newSessionId, newExerciseId).exercises == exercises
    ensures ParseDate(dateText).Some? ==>
      LogOutcome(sessions, exercises, dateText, sessionName, e, newSessionId, newExerciseId).result == Err(StoreFailure(ValueRefused))
  {
  }

  /**
   * A log call keeps both tables valid, and keeps (date, name) unique among
   * sessions when the session name fits its column.
   */
  lemma LogKeepsTablesValid(
    sessions: seq<WorkoutSession>, exercises: seq<ExerciseLog>, dateText: string, sessionName: Option<string>,
    e: ExerciseEntry, newSessionId: Id, newExerciseId: Id)
    requires WorkoutTablesValid(sessions, exercises)
    ensures var s := LogOutcome(sessions, exercises, dateText, sessionName, e, newSessionId, newExerciseId);
      && WorkoutTablesValid(s.sessions, s.exercises)
      && (SessionKeysUnique(sessions) && |sessionName.GetOr(DefaultSessionName)| <= SessionNameMaxLength
          ==> SessionKeysUnique(s.sessions))
  {
    var s := LogOutcome(sessions, exercises, dateText, sessionName, e, newSessionId, newExerciseId);
    if ParseDate(dateText).Some? {
      var d := ParseDate(dateText).value;
      var name := sessionName.GetOr(DefaultSessionName);
      if SessionInsertFault(sessions, d, name, newSessionId).None? {
        var w := TargetSession(sessions, d, name, newSessionId).value;
        if FindSession(sessions, d, name).None? {
          AppendKeepsUnique(sessions, SessionKey, w);
          forall y | y in exercises ensures HasKey(sessions + [w], SessionKey, y.sessionId) {
            HasKeyAfterAppend(sessions, [w], SessionKey, y.sessionId);
          }
          assert forall v :: v in sessions + [w] ==> v in sessions || v == w;
          if SessionKeysUnique(sessions) && |name| <= SessionNameMaxLength {
            assert w == WorkoutSession(newSessionId, name, d);
            forall i, j | 0 <= i < j < |sessions + [w]|
              ensures !HasSessionKey((sessions + [w])[j], (sessions + [w])[i].workoutDate, (sessions + [w])[i].sessionName)
            {
              if j == |sessions| {
                assert sessions[i] in sessions;
              }
            }
          }
        }
        var x := RowOf(e, newExerciseId, w.id);
        if InsertFault(StoredExercise(x).Some?, HasKey(exercises, ExerciseKey, newExerciseId)).None? {
          var y0 := StoredExercise(x).value;
          AppendKeepsUnique(exercises, ExerciseKey, y0);
          assert forall y :: y in exercises + [y0] ==> y in exercises || y == y0;
          forall y | y in exercises + [y0] ensures HasKey(s.sessions, SessionKey, y.sessionId) {
            assert w in s.sessions;
            if y != y0 {
              HasKeyAfterAppend(sessions, s.sessions[|sessions|..], SessionKey, y.sessionId);
              assert sessions + s.sessions[|sessions|..] == s.sessions;
            }
          }
        }
      }
    }
  }

  /**
   * Find-or-create settles the session: after a call that succeeded with a
   * session name that fits its column, a later call with the same date text
   * and session name attaches to the same session and creates none, whatever
   * id it is offered.
   */
  lemma LogReusesSession(
    sessions: seq<WorkoutSession>, exercises: seq<ExerciseLog>, dateText: string, sessionName: Option<string>,
    e: ExerciseEntry, newSessionId: Id, newExerciseId: Id, laterSessionId: Id)
    requires LogOutcome(sessions, exercises, dateText, sessionName, e, newSessionId, newExerciseId).result.Ok?
    requires |sessionName.GetOr(DefaultSessionName)| <= SessionNameMaxLength
    ensures var s := LogOutcome(sessions, exercises, dateText, sessionName, e, newSessionId, newExerciseId);
      var d := ParseDate(dateText).value;
      var name := sessionName.GetOr(DefaultSessionName);
      && SessionInsertFault(s.sessions, d, name, laterSessionId).None?
      && TargetSession(s.sessions, d, name, laterSessionId) == Some(s.result.value.session)
  {
    var d := ParseDate(dateText).value;
    var name := sessionName.GetOr(DefaultSessionName);
    var w := TargetSession(sessions, d, name, newSessionId).value;
    FindSessionAfterAppend(sessions, [w], d, name);
    assert FindSession([w], d, name) == Some(w);
  }

  /**
   * A session name longer than its column but padded with spaces is stored
   * cut to the limit, so the same lookup never finds the session just
   * created: every such call adds one more session for the same date and name.
   */
  lemma PaddedNameCreatesNewSessions(
    sessions: seq<WorkoutSession>, exercises: seq<ExerciseLog>, dateText: string, sessionName: Option<string>,
    e: ExerciseEntry, newSessionId: Id, newExerciseId: Id)
    requires WorkoutTablesValid(sessions, exercises)
    requires ParseDate(dateText).Some?
    requires |sessionName.GetOr(DefaultSessionName)| > SessionNameMaxLength
    requires SessionInsertFault(sessions, ParseDate(dateText).value, sessionName.GetOr(DefaultSessionName), newSessionId).None?
    ensures var s := LogOutcome(sessions, exercises, dateText, sessionName, e, newSessionId, newExerciseId);
      && |s.sessions| == |sessions| + 1
      && FindSession(s.sessions, ParseDate(dateText).value, sessionName.GetOr(DefaultSessionName)).None?
  {
    var d := ParseDate(dateText).value;
    var name := sessionName.GetOr(DefaultSessionName);
    assert FindSession(sessions, d, name).None? by {
      forall v | v in sessions ensures !HasSessionKey(v, d, name) {
        assert SessionFits(v);
      }
    }
    var w := TargetSession(sessions, d, name, newSessionId).value;
    FindSessionAfterAppend(sessions, [w], d, name);
    assert !HasSessionKey(w, d, name);
    assert FindSession([w][1..], d, name).None? by {
      assert [w][1..] == [];
    }
  }

  /**
   * The first session with this date and name is reused, whether or not later
   * sessions share the pair: no session row is added, and a stored exercise
   * points at that session.
   */
  lemma LogReusesExistingSession(
    sessions: seq<WorkoutSession>, exercises: seq<ExerciseLog>, dateText: string, sessionName: Option<string>,
    e: ExerciseEntry, newSessionId: Id, newExerciseId: Id, w: WorkoutSession)
    requires FindSession(sessions, w.workoutDate, w.sessionName) == Some(w)
    requires ParseDate(dateText) == Some(w.workoutDate) && sessionName.GetOr(DefaultSessionName) == w.sessionName
    ensures var s := LogOutcome(sessions, exercises, dateText, sessionName, e, newSessionId, newExerciseId);
      && s.sessions == sessions
      && (s.result.Ok? ==> s.result.value.session == w && s.result.value.exercise.sessionId == w.id)
  {
  }

  /**
   * Without a session of this date and name, one session under a fresh id is
   * created, its name as the column keeps it, and committed on its own: it
   * stays even when the exercise insert then fails, and a stored exercise
   * points at it.
   */
  lemma LogCreatesOneSession(
    sessions: seq<WorkoutSession>, exercises: seq<ExerciseLog>, dateText: string, sessionName: Option<string>,
    e: ExerciseEntry, newSessionId: Id, newExerciseId: Id)
    requires ParseDate(dateText).Some?
    requires forall w :: w in sessions ==>
      !HasSessionKey(w, ParseDate(dateText).value, sessionName.GetOr(DefaultSessionName))
    requires Stored(sessionName.GetOr(DefaultSessionName), SessionNameMaxLength).Some?
    requires forall w :: w in sessions ==> w.id != newSessionId
    ensures var s := LogOutcome(sessions, exercises, dateText, sessionName, e, newSessionId, newExerciseId);
      var created := WorkoutSession(newSessionId, Stored(sessionName.GetOr(DefaultSessionName), SessionNameMaxLength).value,
                                    ParseDate(dateText).value);
      && s.sessions == sessions + [created]
      && (s.result.Ok? ==> s.result.value.session == created && s.result.value.exercise.sessionId == newSessionId)
  {
  }

  /**
   * After a successful log call the workout summary of any range grows by the
   * new exercise's duration and distance exactly when the logged date lies in
   * the range, and is unchanged otherwise.
   */
  lemma LoggedExerciseReachesSummary(
    sessions: seq<WorkoutSession>, exercises: seq<ExerciseLog>, dateText: string, sessionName: Option<string>,
    e: ExerciseEntry, newSessionId: Id, newExerciseId: Id, lo: Date, hi: Date)
    requires WorkoutTablesValid(sessions, exercises)
    requires LogOutcome(sessions, exercises, dateText, sessionName, e, newSessionId, newExerciseId).result.Ok?
    ensures var s := LogOutcome(sessions, exercises, dateText, sessionName, e, newSessionId, newExerciseId);
      var before := JoinInRange(exercises, sessions, lo, hi);
      var after := JoinInRange(s.exercises, s.sessions, lo, hi);
      var counted := InRange(ParseDate(dateText).value, lo, hi);
      && TotalDuration(after) == TotalDuration(before) + (if counted then e.durationMinutes.GetOr(0) else 0)
      && TotalDistance(after) == TotalDistance(before) + (if counted then e.distanceKm.GetOr(0.0) else 0.0)
  {
    var s := LogOutcome(sessions, exercises, dateText, sessionName, e, newSessionId, newExerciseId);
    var w := s.result.value.session;
    var x := s.result.value.exercise;
    var added := s.sessions[|sessions|..];
    assert s.sessions == sessions + added;
    if added != [] {
      assert added == [s.sessions[|sessions|]];
      assert !HasKey(sessions, SessionKey, newSessionId);
    }
    LoggedExerciseIsCounted(sessions, exercises, added, x, lo, hi);
    LogKeepsTablesValid(sessions, exercises, dateText, sessionName, e, newSessionId, newExerciseId);
    assert x.durationMinutes == e.durationMinutes && x.distanceKm == e.distanceKm;
    assert ParentInRange(s.sessions, x.sessionId, lo, hi) == InRange(w.workoutDate, lo, hi) by {
      if ParentInRange(s.sessions, x.sessionId, lo, hi) {
        var p :| p in s.sessions && p.id == x.sessionId && InRange(p.workoutDate, lo, hi);
        LookupFindsTheRow(s.sessions, SessionKey, p);
        LookupFindsTheRow(s.sessions, SessionKey, w);
      }
    }
  }

  // ---- the store ----

  /** The `workout_sessions` and `exercise_logs` tables. */
  class WorkoutStore {
    var sessions: seq<WorkoutSession>
    var exercises: seq<ExerciseLog>

    ghost predicate Valid()
      reads this
    {
      WorkoutTablesValid(sessions, exercises)
    }

    constructor ()
      ensures Valid() && sessions == [] && exercises == []
      ensures SessionKeysUnique(sessions)
    {
      sessions := [];
      exercises := [];
    }

    /**
     * The find-or-create step of `log_exercise`: the first session with this
     * date and name, else a new one inserted and committed under
     * `newSessionId`; a fault when the lookup query or the insert fails.
     */
    method FindOrCreateSession(d: Date, name: string, newSessionId: Id)
      returns (fault: Option<StoreFault>, session: WorkoutSession)
      modifies this
      ensures exercises == old(exercises)
      ensures fault == SessionInsertFault(old(sessions), d, name, newSessionId)
      ensures fault.Some? ==> sessions == old(sessions)
      ensures fault.None? ==>
        && session == TargetSession(old(sessions), d, name, newSessionId).value
        && sessions == if FindSession(old(sessions), d, name).Some? then old(sessions) else old(sessions) + [session]
    {
      if !NulFree(name) {
        // the find query itself refuses the name
        return Some(ValueRefused), WorkoutSession(newSessionId, name, d);
      }
      var found := FindSession(sessions, d, name);
      if found.Some? {
        return None, found.value;
      }
      var created := StoredSession(WorkoutSession(newSessionId, name, d));
      fault := InsertFault(created.Some?, Lookup(sessions, SessionKey, newSessionId).Some?);
      if fault.Some? {
        return fault, WorkoutSession(newSessionId, name, d);
      }
      session := created.value;
      sessions := sessions + [session];
    }

    /** `log_exercise`, with the two fresh uuid4 values passed in. */
    method LogExercise(
      exerciseName: string, category: string, dateText: string, sessionName: Option<string>,
      durationMinutes: Option<int>, sets: Option<int>, reps: Option<int>,
      weightKg: Option<real>, distanceKm: Option<real>,
      newSessionId: Id, newExerciseId: Id)
      returns (r: Result<LoggedExercise>)
      requires Valid()
      modifies this
      ensures Valid()
      ensures old(SessionKeysUnique(sessions)) && |sessionName.GetOr(DefaultSessionName)| <= SessionNameMaxLength
           ==> SessionKeysUnique(sessions)
      ensures LogState(r, sessions, exercises)
           == LogOutcome(old(sessions), old(exercises), dateText, sessionName,
                         ExerciseEntry(exerciseName, category, durationMinutes, sets, reps, weightKg, distanceKm),
                         newSessionId, newExerciseId)
    {
      var entry := ExerciseEntry(exerciseName, category, durationMinutes, sets, reps, weightKg, distanceKm);
      ghost var outcome := LogOutcome(sessions, exercises, dateText, sessionName, entry, newSessionId, newExerciseId);
      var parsed := ParseDate(dateText);
      if parsed.None? {
        r := Err(InvalidDateFormat);
      } else {
        var d := parsed.value;
        var name := sessionName.GetOr(DefaultSessionName);
        var sessionFault, session := FindOrCreateSession(d, name, newSessionId);
        if sessionFault.Some? {
          r := Err(StoreFailure(sessionFault.value));
        } else {
          var stored := StoredExercise(RowOf(entry, newExerciseId, session.id));
          var fault := InsertFault(stored.Some?, Lookup(exercises, ExerciseKey, newExerciseId).Some?);
          if fault.Some? {
            r := Err(StoreFailure(fault.value));
          } else {
            exercises := exercises + [stored.value];
            r := Ok(LoggedExercise(session, stored.value));
          }
        }
      }
      assert LogState(r, sessions, exercises) == outcome;
      LogKeepsTablesValid(old(sessions), old(exercises), dateText, sessionName, entry, newSessionId, newExerciseId);
    }

    /**
     * `get_workouts`: for each in-range session, its record with the records
     * of its own exercises nested, built by two nested loops.
     */
    method GetWorkouts(startText: string, endText: string) returns (r: Result<seq<SessionRecord>>)
      ensures ParseRange(startText, endText).None? ==> r == Err(InvalidDateFormat)
      ensures ParseRange(startText, endText).Some? ==>
        var (lo, hi) := ParseRange(startText, endText).value;
        r == Ok(WorkoutReport(sessions, exercises, lo, hi))
    {
      var range := ParseRange(startText, endText);
      if range.None? {
        return Err(InvalidDateFormat);
      }
      var selected := SelectSessions(sessions, range.value.0, range.value.1);
      var result: seq<SessionRecord> := [];
      var i := 0;
      while i < |selected|
        invariant 0 <= i <= |selected|
        invariant |result| == i
        invariant forall k :: 0 <= k < i ==> result[k] == SessionRecordOf(selected[k], exercises)
      {
        var ws := selected[i];
        var items := ListExercises(ExercisesOf(exercises, ws.id));
        result := result + [SessionRecord(FormatId(ws.id), ws.sessionName, FormatDate(ws.workoutDate), items)];
        i := i + 1;
      }
      assert result == WorkoutReport(sessions, exercises, range.value.0, range.value.1);
      r := Ok(result);
    }

    /** The inner loop of `get_workouts`: one record per child exercise, in order. */
    static method ListExercises(children: seq<ExerciseLog>) returns (items: seq<ExerciseRecord>)
      ensures items == ExerciseListing(children)
    {
      items := [];
      var j := 0;
      while j < |children|
        invariant 0 <= j <= |children|
        invariant |items| == j
        invariant forall k :: 0 <= k < j ==> items[k] == ExerciseRecordOf(children[k])
      {
        items := items + [ExerciseRecordOf(children[j])];
        j := j + 1;
      }
    }

    /** `delete_exercise`: parse the id, look the row up, and delete only that row; its session stays. */
    method DeleteExercise(idText: string) returns (r: Result<ExerciseLog>)
      requires Valid()
      modifies this
      ensures Valid()
      ensures sessions == old(sessions)
      ensures ParseId(idText).None? ==> r == Err(InvalidIdentifier) && exercises == old(exercises)
      ensures ParseId(idText).Some? && !HasKey(old(exercises), ExerciseKey, ParseId(idText).value) ==>
        r == Err(NotFound) && exercises == old(exercises)
      ensures ParseId(idText).Some? && HasKey(old(exercises), ExerciseKey, ParseId(idText).value) ==>
        var id := ParseId(idText).value;
        && r.Ok? && r.value in old(exercises) && r.value.id == id
        && exercises == WithoutKey(old(exercises), ExerciseKey, id)
        && multiset(old(exercises)) == multiset(exercises) + multiset{r.value}
    {
      var parsed := ParseId(idText);
      if parsed.None? {
        return Err(InvalidIdentifier);
      }
      var found := Lookup(exercises, ExerciseKey, parsed.value);
      if found.None? {
        return Err(NotFound);
      }
      WithoutKeyKeepsUnique(exercises, ExerciseKey, parsed.value);
      WithoutKeyRemovesOne(exercises, ExerciseKey, parsed.value);
      exercises := WithoutKey(exercises, ExerciseKey, parsed.value);
      r := Ok(found.value);
    }

    /** `get_workout_summary`: both sums over the joined in-range exercises, zero-filled. */
    method GetWorkoutSummary(startText: string, endText: string) returns (r: Result<WorkoutTotals>)
      ensures ParseRange(startText, endText).None? ==> r == Err(InvalidDateFormat)
      ensures ParseRange(startText, endText).Some? ==>
        var (lo, hi) := ParseRange(startText, endText).value;
        var joined := JoinInRange(exercises, sessions, lo, hi);
        r == Ok(WorkoutTotals(TotalDuration(joined) as real, TotalDistance(joined)))
    {
      var range := ParseRange(startText, endText);
      if range.None? {
        return Err(InvalidDateFormat);
      }
      var joined := JoinInRange(exercises, sessions, range.value.0, range.value.1);
      r := Ok(WorkoutTotals(TotalDuration(joined) as real, TotalDistance(joined)));
    }
  }

  lemma ExampleDayParses()
    ensures ParseDate("2024-06-01") == Some(DateFields(2024, 6, 1))
    ensures FormatDate(DateFields(2024, 6, 1)) == "2024-06-01"
  {
    var d: Date := DateFields(2024, 6, 1);
    assert FormatDate(d) == "2024-06-01" by {
      assert Padded(2024, 4) == "2024";
      assert Padded(6, 2) == "06";
      assert Padded(1, 2) == "01";
    }
    FormatThenParse(d);
  }

  /** The example's strings hold no U+0000. */
  lemma ExampleTextsAreNulFree()
    ensures NulFree("Morning Run") && NulFree("Running") && NulFree("Stretching") && NulFree("Cardio")
  {
  }

  /** Example, first call: logging "Running" creates the session. */
  lemma RunLogged(firstSessionId: Id, runId: Id)
    ensures var w := WorkoutSession(firstSessionId, "Morning Run", DateFields(2024, 6, 1));
      var run := ExerciseLog(runId, firstSessionId, "Running", "Cardio", None, None, None, None, Some(5.0));
      LogOutcome([], [], "2024-06-01", Some("Morning Run"),
        ExerciseEntry("Running", "Cardio", None, None, None, None, Some(5.0)), firstSessionId, runId)
      == LogState(Ok(LoggedExercise(w, run)), [w], [run])
  {
    ExampleDayParses();
    var d := DateFields(2024, 6, 1);
    var w := WorkoutSession(firstSessionId, "Morning Run", d);
    var run := ExerciseLog(runId, firstSessionId, "Running", "Cardio", None, None, None, None, Some(5.0));
    ExampleTextsAreNulFree();
    assert SessionFits(w);
    assert SessionInsertFault([], d, "Morning Run", firstSessionId) == None;
    assert TargetSession([], d, "Morning Run", firstSessionId) == Some(w);
    assert ExerciseFits(run);
    assert StoredExercise(run) == Some(run);
  }

  /** Example, second call: logging "Stretching" reuses that session. */
  lemma StretchLogged(firstSessionId: Id, secondSessionId: Id, runId: Id, stretchId: Id)
    requires runId != stretchId
    ensures var w := WorkoutSession(firstSessionId, "Morning Run", DateFields(2024, 6, 1));
      var run := ExerciseLog(runId, firstSessionId, "Running", "Cardio", None, None, None, None, Some(5.0));
      var stretch := ExerciseLog(stretchId, firstSessionId, "Stretching", "Cardio", Some(10), None, None, None, None);
      LogOutcome([w], [run], "2024-06-01", Some("Morning Run"),
        ExerciseEntry("Stretching", "Cardio", Some(10), None, None, None, None), secondSessionId, stretchId)
      == LogState(Ok(LoggedExercise(w, stretch)), [w], [run, stretch])
  {
    ExampleDayParses();
    var w := WorkoutSession(firstSessionId, "Morning Run", DateFields(2024, 6, 1));
    var run := ExerciseLog(runId, firstSessionId, "Running", "Cardio", None, None, None, None, Some(5.0));
    var stretch := ExerciseLog(stretchId, firstSessionId, "Stretching", "Cardio", Some(10), None, None, None, None);
    ExampleTextsAreNulFree();
    assert FindSession([w], DateFields(2024, 6, 1), "Morning Run") == Some(w);
    assert SessionInsertFault([w], DateFields(2024, 6, 1), "Morning Run", secondSessionId) == None;
    assert !HasKey([run], ExerciseKey, stretchId);
    assert ExerciseFits(stretch);
    assert StoredExercise(stretch) == Some(stretch);
  }

  /** Example: "Running" and "Stretching" sit under the one "Morning Run" session, in logging order. */
  lemma MorningRunChildren(w: WorkoutSession, run: ExerciseLog, stretch: ExerciseLog)
    requires run.sessionId == w.id && stretch.sessionId == w.id
    ensures ExerciseListing(ExercisesOf([run, stretch], w.id)) == [ExerciseRecordOf(run), ExerciseRecordOf(stretch)]
  {
    assert [run, stretch][1..] == [stretch] && [stretch][1..] == [];
    assert ExercisesOf([stretch], w.id) == [stretch] + ExercisesOf([], w.id);
    assert ExercisesOf([run, stretch], w.id) == [run] + ExercisesOf([stretch], w.id);
  }

  /** Example: the listing of 2024-06-01 shows one session holding both exercises. */
  lemma MorningRunListed(w: WorkoutSession, run: ExerciseLog, stretch: ExerciseLog)
    requires w.workoutDate == DateFields(2024, 6, 1)
    requires run.sessionId == w.id && stretch.sessionId == w.id
    ensures WorkoutReport([w], [run, stretch], DateFields(2024, 6, 1), DateFields(2024, 6, 1))
      == [SessionRecord(FormatId(w.id), w.sessionName, "2024-06-01", [ExerciseRecordOf(run), ExerciseRecordOf(stretch)])]
  {
    var day: Date := DateFields(2024, 6, 1);
    ExampleDayParses();
    assert SelectSessions([w], day, day) == [w] by {
      NotAfterIsTotalOrder(day, day, day);
      assert [w][1..] == [];
    }
    MorningRunChildren(w, run, stretch);
    assert WorkoutReport([w], [run, stretch], day, day) == [SessionRecordOf(w, [run, stretch])];
  }

  /**
   * Example: "Running" (5.0 km) and then "Stretching" (10 minutes),
   * both "Cardio" on 2024-06-01 in "Morning Run", logged into an empty store;
   * the listing of that day has one session holding both exercises, and the
   * second call reuses the session the first created.
   */
  method MorningRunExample(firstSessionId: Id, secondSessionId: Id, runId: Id, stretchId: Id)
    returns (report: Result<seq<SessionRecord>>)
    requires runId != stretchId
    ensures report == Ok([SessionRecord(FormatId(firstSessionId), "Morning Run", "2024-06-01", [
      ExerciseRecord(FormatId(runId), "Running", "Cardio", None, None, None, None, Some(5.0)),
      ExerciseRecord(FormatId(stretchId), "Stretching", "Cardio", Some(10), None, None, None, None)])])
  {
    var store := new WorkoutStore();
    var w := WorkoutSession(firstSessionId, "Morning Run", DateFields(2024, 6, 1));
    var run := ExerciseLog(runId, firstSessionId, "Running", "Cardio", None, None, None, None, Some(5.0));
    var stretch := ExerciseLog(stretchId, firstSessionId, "Stretching", "Cardio", Some(10), None, None, None, None);
    RunLogged(firstSessionId, runId);
    var first := store.LogExercise("Running", "Cardio", "2024-06-01", Some("Morning Run"),
      None, None, None, None, Some(5.0), firstSessionId, runId);
    StretchLogged(firstSessionId, secondSessionId, runId, stretchId);
    var second := store.LogExercise("Stretching", "Cardio", "2024-06-01", Some("Morning Run"),
      Some(10), None, None, None, None, secondSessionId, stretchId);
    MorningRunListed(w, run, stretch);
    ExampleDayParses();
    report := store.GetWorkouts("2024-06-01", "2024-06-01");
  }
}
