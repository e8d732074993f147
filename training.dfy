/** The guided training session: a per-user cursor over the day's exercises
    (exercise index, 1-based set number), advanced by each recorded weight,
    with every weight written to the result store. */
module Training {
  import opened Wrappers
  import opened Dicts
  import opened Schedule
  import opened Store

  /** An exercise as the session holds it; sessions built from the stored
      program carry no exercise id. */
  datatype PlannedExercise = PlannedExercise(name: string, sets: int, exerciseId: Option<int>)

  datatype Session = Session(day: string, exercises: seq<PlannedExercise>, currentEx: nat, currentSet: int, programId: Option<int>)

  /** What a handler did: it left the message to the button engine, found
      no session, rejected the input, or saved `weight`. */
  datatype Outcome = Deferred | NoSession | BadWeight | NoExerciseId | NoPreviousWeight | Ignored | Ended | Saved(weight: real)

  /** How a Python call binds its positional arguments to a parameter list
      without defaults: only an equal count binds; any other count raises
      `TypeError` before the callee runs. */
  datatype CallResult = Bound | TypeError

  /** `save_result(user_id, day, exercise, set_number, weight)`. */
  const SaveResultParams: nat := 5

  /** The arguments the three handlers pass to `save_result`. */
  const HandlerSaveArgs: seq<string> := ["user_id", "exercise_id", "day", "exercise_name", "set_number", "weight"]

  /** The arguments the five-field row needs. */
  const IntendedSaveArgs: seq<string> := ["user_id", "day", "exercise_name", "set_number", "weight"]

  /** The handlers' call passes `exercise_id` as an extra second argument:
      removing it gives exactly the intended call, which binds, while the
      call as written does not. */
  lemma HandlerSaveArity()
    ensures |HandlerSaveArgs| == SaveResultParams + 1 && |IntendedSaveArgs| == SaveResultParams
    ensures HandlerSaveArgs[..1] + HandlerSaveArgs[2..] == IntendedSaveArgs
  {
  }

  /** The number of records an exercise takes: `sets`, and at least one. */
  function SetsOf(e: PlannedExercise): (n: nat)
    ensures n >= 1 && (e.sets >= 1 ==> n == e.sets)
  {
    if e.sets >= 1 then e.sets else 1
  }

  function TotalSets(exs: seq<PlannedExercise>): nat {
    if exs == [] then 0 else SetsOf(exs[0]) + TotalSets(exs[1..])
  }

  /** The cursor points at an exercise and at one of its sets. */
  predicate SessionValid(s: Session) {
    s.currentEx < |s.exercises| && 1 <= s.currentSet <= SetsOf(s.exercises[s.currentEx])
  }

  predicate AllValid(sessions: map<UserId, Session>) {
    forall u | u in sessions :: SessionValid(sessions[u])
  }

  function Current(s: Session): PlannedExercise
    requires SessionValid(s)
  {
    s.exercises[s.currentEx]
  }

  /** `if not exercise_id`: no id, or id 0, refuses the record. */
  predicate HasId(e: PlannedExercise) {
    e.exerciseId.Some? && e.exerciseId.value != 0
  }

  /** A fresh cursor at the first set of the first exercise. */
  function Fresh(day: string, exercises: seq<PlannedExercise>, programId: Option<int>): (s: Session)
    requires exercises != []
    ensures SessionValid(s) && s.currentEx == 0 && s.currentSet == 1
  {
    Session(day, exercises, 0, 1, programId)
  }

  /** `move_to_next_set`: the next set, else the first set of the next
      exercise, else the end of the session (`None`). The cursor only moves
      forward, and nothing but the cursor changes. */
  function Advance(s: Session): (r: Option<Session>)
    requires SessionValid(s)
    ensures r.Some? ==> SessionValid(r.value)
    ensures r.Some? ==> r.value.day == s.day && r.value.exercises == s.exercises && r.value.programId == s.programId
    ensures r.Some? ==> r.value.currentEx > s.currentEx
                        || (r.value.currentEx == s.currentEx && r.value.currentSet == s.currentSet + 1)
    ensures r.None? <==> s.currentEx == |s.exercises| - 1 && s.currentSet == SetsOf(Current(s))
  {
    if s.currentSet < Current(s).sets then Some(s.(currentSet := s.currentSet + 1))
    else if s.currentEx + 1 < |s.exercises| then Some(s.(currentEx := s.currentEx + 1, currentSet := 1))
    else None
  }

  /** The records still to make, this one included. */
  function Remaining(s: Session): nat
    requires SessionValid(s)
  {
    SetsOf(Current(s)) - s.currentSet + 1 + TotalSets(s.exercises[s.currentEx + 1..])
  }

  lemma {:induction false} TotalSetsAt(exs: seq<PlannedExercise>, k: nat)
    requires k < |exs|
    ensures TotalSets(exs[k..]) == SetsOf(exs[k]) + TotalSets(exs[k + 1..])
  {
    assert exs[k..][1..] == exs[k + 1..];
  }

  /** Each record takes exactly one off the remaining count; the last one
      ends the session. */
  lemma {:induction false} AdvanceRemaining(s: Session)
    requires SessionValid(s)
    ensures Advance(s).None? <==> Remaining(s) == 1
    ensures Advance(s).Some? ==> Remaining(Advance(s).value) == Remaining(s) - 1
  {
    if s.currentEx + 1 < |s.exercises| {
      TotalSetsAt(s.exercises, s.currentEx + 1);
    } else {
      assert s.exercises[s.currentEx + 1..] == [];
    }
  }

  /** A fresh cursor has every set of every exercise ahead of it. */
  lemma {:induction false} FreshRemaining(day: string, exercises: seq<PlannedExercise>, programId: Option<int>)
    requires exercises != []
    ensures Remaining(Fresh(day, exercises, programId)) == TotalSets(exercises)
  {
  }

  /** The cursor after `n` records, or `None` once the session has ended. */
  function Run(s: Session, n: nat): (r: Option<Session>)
    requires SessionValid(s)
    ensures r.Some? ==> SessionValid(r.value)
    decreases n
  {
    if n == 0 then Some(s)
    else match Advance(s)
         case None => None
         case Some(t) => Run(t, n - 1)
  }

  /** Exactly `Remaining(s)` records end a session: after one fewer it is
      still running, and the next record ends it. */
  lemma {:induction false} RunToEnd(s: Session)
    requires SessionValid(s)
    ensures Run(s, Remaining(s) - 1).Some?
    ensures Advance(Run(s, Remaining(s) - 1).value).None?
    decreases Remaining(s)
  {
    AdvanceRemaining(s);
    if Remaining(s) > 1 {
      var t := Advance(s).value;
      RunToEnd(t);
      assert Run(s, Remaining(s) - 1) == Run(t, Remaining(t) - 1);
    }
  }

  /** Hence a session started on `exercises` ends after exactly
      `TotalSets(exercises)` records: the sum of `max(sets, 1)`. */
  lemma {:induction false} SessionLength(day: string, exercises: seq<PlannedExercise>, programId: Option<int>)
    requires exercises != []
    ensures var s := Fresh(day, exercises, programId);
            Run(s, TotalSets(exercises) - 1).Some? && Advance(Run(s, TotalSets(exercises) - 1).value).None?
  {
    FreshRemaining(day, exercises, programId);
    RunToEnd(Fresh(day, exercises, programId));
  }

  /** The sessions map after `move_to_next_set` for `user`. */
  function AfterAdvance(sessions: map<UserId, Session>, user: UserId): (r: map<UserId, Session>)
    requires AllValid(sessions)
    ensures AllValid(r)
  {
    if user !in sessions then sessions
    else match Advance(sessions[user])
         case None => sessions - {user}
         case Some(t) => sessions[user := t]
  }

  /** The weight `ask_for_weight` offers: the last one stored for the
      exercise name and set number, whatever the day or program; a stored
      `0.0` counts as none. */
  function Suggested(results: seq<ResultRow>, user: UserId, s: Session): (w: Option<real>)
    requires SessionValid(s)
    ensures w.Some? ==> w.value != 0.0 && exists i | 0 <= i < |results| ::
              ResultFor(results[i], user, Current(s).name, s.currentSet) && results[i].weight == w.value
    ensures w.None? <==> LastWeightOf(results, user, Current(s).name, s.currentSet) in {None, Some(0.0)}
  {
    match LastWeightOf(results, user, Current(s).name, s.currentSet)
    case Some(w) => if w != 0.0 then Some(w) else None
    case None => None
  }

  /** The suggestion reads the store by (user, exercise name, set number)
      alone: two cursors at the same name and set get the same offer. */
  lemma {:induction false} SuggestedKey(results: seq<ResultRow>, user: UserId, s: Session, t: Session)
    requires SessionValid(s) && SessionValid(t)
    requires Current(s).name == Current(t).name && s.currentSet == t.currentSet
    ensures Suggested(results, user, s) == Suggested(results, user, t)
  {
  }

  /** `confirm_weight_callback`'s decision. */
  function ConfirmOutcome(sessions: map<UserId, Session>, results: seq<ResultRow>, user: UserId, buttonActive: bool): Outcome
    requires AllValid(sessions)
  {
    if buttonActive then Deferred
    else if user !in sessions then NoSession
    else if !HasId(Current(sessions[user])) then NoExerciseId
    else match Suggested(results, user, sessions[user])
         case None => NoPreviousWeight
         case Some(w) => Saved(w)
  }

  /** `process_weight_input`'s decision; `weight` is `None` when the text
      is not a number. */
  function InputOutcome(sessions: map<UserId, Session>, user: UserId, weight: Option<real>): Outcome
    requires AllValid(sessions)
  {
    if user !in sessions then NoSession
    else if weight.None? || weight.value <= 0.0 then BadWeight
    else if !HasId(Current(sessions[user])) then NoExerciseId
    else Saved(weight.value)
  }

  /** `process_weight_direct`'s decision; `waiting` is the explicit-entry
      state, which leaves the message to `process_weight_input`. */
  function DirectOutcome(sessions: map<UserId, Session>, user: UserId, buttonActive: bool, waiting: bool, weight: Option<real>): Outcome
    requires AllValid(sessions)
  {
    if buttonActive then Deferred
    else if user !in sessions || waiting || weight.None? || weight.value <= 0.0 then Ignored
    else if !HasId(Current(sessions[user])) then NoExerciseId
    else Saved(weight.value)
  }

  /** Only a positive weight is ever saved, on all three paths. */
  lemma {:induction false} SavedPositive(sessions: map<UserId, Session>, results: seq<ResultRow>, user: UserId, buttonActive: bool, waiting: bool, weight: Option<real>)
    requires AllValid(sessions)
    requires forall i | 0 <= i < |results| :: results[i].weight > 0.0
    ensures InputOutcome(sessions, user, weight).Saved? ==> InputOutcome(sessions, user, weight).weight > 0.0
    ensures DirectOutcome(sessions, user, buttonActive, waiting, weight).Saved? ==> DirectOutcome(sessions, user, buttonActive, waiting, weight).weight > 0.0
    ensures ConfirmOutcome(sessions, results, user, buttonActive).Saved? ==> ConfirmOutcome(sessions, results, user, buttonActive).weight > 0.0
  {
    if ConfirmOutcome(sessions, results, user, buttonActive).Saved? {
      var w := Suggested(results, user, sessions[user]);
      var i :| 0 <= i < |results| && results[i].weight == w.value;
    }
  }

  /** A session built from the stored program has no exercise ids, so every
      record path refuses it and none saves or advances. */
  lemma {:induction false} ProgramSessionsRefuse(sessions: map<UserId, Session>, results: seq<ResultRow>, user: UserId, buttonActive: bool, waiting: bool, weight: Option<real>)
    requires AllValid(sessions) && user in sessions
    requires forall k | 0 <= k < |sessions[user].exercises| :: sessions[user].exercises[k].exerciseId.None?
    ensures !ConfirmOutcome(sessions, results, user, buttonActive).Saved?
    ensures !InputOutcome(sessions, user, weight).Saved?
    ensures !DirectOutcome(sessions, user, buttonActive, waiting, weight).Saved?
  {
    assert Current(sessions[user]).exerciseId.None?;
  }

  /** After a weight is saved at the newest time stamp, the offer for that
      exercise and set, on any day, is the saved weight. */
  lemma {:induction false} SuggestedAfterSave(results: seq<ResultRow>, user: UserId, s: Session, day: string, weight: real, now: nat)
    requires SessionValid(s) && weight > 0.0
    requires forall i | 0 <= i < |results| :: results[i].date <= now
    ensures Suggested(results + [ResultRow(user, day, Current(s).name, s.currentSet, weight, now)], user, s) == Some(weight)
  {
    SaveResultThenLast(results, ResultRow(user, day, Current(s).name, s.currentSet, weight, now), user, Current(s).name, s.currentSet);
  }

  function PlannedFrom(exs: seq<Exercise>): (r: seq<PlannedExercise>)
    ensures |r| == |exs|
    ensures forall k | 0 <= k < |exs| :: r[k] == PlannedExercise(exs[k].name, exs[k].sets, None)
  {
    seq(|exs|, k requires 0 <= k < |exs| => PlannedExercise(exs[k].name, exs[k].sets, None))
  }

  /** A day the stored program has always has exercises. */
  lemma {:induction false} ProgramDayNonEmpty(rows: seq<ProgramRow>, user: UserId, d: string)
    requires Get(ProgramOf(rows, user, Some(d)), d).Some?
    ensures Get(ProgramOf(rows, user, Some(d)), d).value != []
  {
    GroupGet(Selected(rows, user, Some(d)), d);
  }

  /** The stored exercises of day `d`, as a session holds them. */
  function StoredDay(rows: seq<ProgramRow>, user: UserId, d: string): (r: Option<seq<PlannedExercise>>)
    ensures r.Some? <==> HasKey(ProgramOf(rows, user, Some(d)), d)
    ensures r.Some? ==> r.value != [] && r.value == PlannedFrom(Get(ProgramOf(rows, user, Some(d)), d).value)
  {
    var g := Get(ProgramOf(rows, user, Some(d)), d);
    if g.None? then None
    else
      assert g.value != [] by {
        ProgramDayNonEmpty(rows, user, d);
      }
      Some(PlannedFrom(g.value))
  }

  class TrainingEngine {
    /** `training_sessions`. */
    var sessions: map<UserId, Session>
    /** The store the sessions read and write. */
    const db: Database

    predicate Valid()
      reads this
    {
      AllValid(sessions)
    }

    constructor (db: Database)
      ensures this.db == db && sessions == map[] && Valid()
    {
      this.db := db;
      sessions := map[];
    }

    /** `start_training_session`: the day's exercises from the stored
        program, or no session when the program has no such day; `today`
        stands for `get_current_day()`. */
    method StartSession(user: UserId, today: string, day: Option<string>) returns (started: bool)
      requires Valid()
      modifies this
      ensures Valid()
      ensures var d := if day.None? then today else day.value;
              var stored := StoredDay(db.programs, user, d);
              && (started <==> stored.Some?)
              && (started ==> sessions == old(sessions)[user := Fresh(d, stored.value, None)])
              && (!started ==> sessions == old(sessions))
    {
      var d := if day.None? then today else day.value;
      var program := db.GetProgram(user, Some(d));
      var exercises := Get(program, d);
      if exercises.None? {
        return false;
      }
      ProgramDayNonEmpty(db.programs, user, d);
      sessions := sessions[user := Fresh(d, PlannedFrom(exercises.value), None)];
      started := true;
    }

    /** `start_training_session_with_program` once its day's exercises are
        looked up: no session for an empty list. */
    method StartWithProgram(user: UserId, today: string, programId: int, exercises: seq<PlannedExercise>) returns (started: bool)
      requires Valid()
      modifies this
      ensures Valid()
      ensures started <==> exercises != []
      ensures started ==> sessions == old(sessions)[user := Fresh(today, exercises, Some(programId))]
      ensures !started ==> sessions == old(sessions)
    {
      if exercises == [] {
        return false;
      }
      sessions := sessions[user := Fresh(today, exercises, Some(programId))];
      started := true;
    }

    /** `move_to_next_set`. */
    method MoveToNextSet(user: UserId)
      requires Valid()
      modifies this
      ensures Valid()
      ensures sessions == AfterAdvance(old(sessions), user)
    {
      if user !in sessions {
        return;
      }
      var next := Advance(sessions[user]);
      if next.None? {
        sessions := sessions - {user};
      } else {
        sessions := sessions[user := next.value];
      }
    }

    /** Save `weight` for the cursor's set, then advance. */
    method Record(user: UserId, weight: real, now: nat)
      requires Valid() && user in sessions
      modifies this, db
      ensures Valid()
      ensures var s := old(sessions[user]);
              db.results == old(db.results) + [ResultRow(user, s.day, Current(s).name, s.currentSet, weight, now)]
      ensures sessions == AfterAdvance(old(sessions), user)
      ensures db.users == old(db.users) && db.programs == old(db.programs)
      ensures db.buttonWorkouts == old(db.buttonWorkouts) && db.buttonExercises == old(db.buttonExercises)
      ensures db.buttonResults == old(db.buttonResults)
      ensures db.Valid() <==> old(db.Valid())
    {
      var s := sessions[user];
      db.SaveResult(user, s.day, Current(s).name, s.currentSet, weight, now);
      MoveToNextSet(user);
    }

    /** A handler's `save_result` call with `args` positional arguments
        followed by `move_to_next_set`: when the call does not bind, the
        exception leaves every table and every session as it was. */
    method SaveCall(args: nat, user: UserId, weight: real, now: nat) returns (r: CallResult)
      requires Valid() && user in sessions
      modifies this, db
      ensures Valid()
      ensures r == Bound <==> args == SaveResultParams
      ensures r == Bound ==> var s := old(sessions[user]);
              db.results == old(db.results) + [ResultRow(user, s.day, Current(s).name, s.currentSet, weight, now)]
              && sessions == AfterAdvance(old(sessions), user)
      ensures r == TypeError ==> sessions == old(sessions) && db.results == old(db.results)
      ensures db.users == old(db.users) && db.programs == old(db.programs)
      ensures db.buttonWorkouts == old(db.buttonWorkouts) && db.buttonExercises == old(db.buttonExercises)
      ensures db.buttonResults == old(db.buttonResults)
      ensures db.Valid() <==> old(db.Valid())
    {
      if args == SaveResultParams {
        Record(user, weight, now);
        r := Bound;
      } else {
        r := TypeError;
      }
    }

    /** The confirm, typed-weight and direct-weight handlers as written: the
        six-argument call raises, so no row is stored and the cursor stays. */
    method RecordAsWritten(user: UserId, weight: real, now: nat) returns (r: CallResult)
      requires Valid() && user in sessions
      modifies this, db
      ensures r == TypeError
      ensures sessions == old(sessions) && db.results == old(db.results)
      ensures db.users == old(db.users) && db.programs == old(db.programs)
      ensures db.buttonWorkouts == old(db.buttonWorkouts) && db.buttonExercises == old(db.buttonExercises)
      ensures db.buttonResults == old(db.buttonResults)
    {
      r := SaveCall(|HandlerSaveArgs|, user, weight, now);
    }

    /** `confirm_weight_callback`: save the offered weight and advance;
        every other outcome changes nothing. */
    method ConfirmWeight(user: UserId, buttonActive: bool, now: nat) returns (outcome: Outcome)
      requires Valid()
      modifies this, db
      ensures Valid()
      ensures outcome == ConfirmOutcome(old(sessions), old(db.results), user, buttonActive)
      ensures outcome.Saved? ==> var s := old(sessions[user]);
              db.results == old(db.results) + [ResultRow(user, s.day, Current(s).name, s.currentSet, outcome.weight, now)]
              && sessions == AfterAdvance(old(sessions), user)
      ensures !outcome.Saved? ==> sessions == old(sessions) && db.results == old(db.results)
      ensures db.users == old(db.users) && db.programs == old(db.programs)
      ensures db.buttonWorkouts == old(db.buttonWorkouts) && db.buttonExercises == old(db.buttonExercises)
      ensures db.buttonResults == old(db.buttonResults)
      ensures db.Valid() <==> old(db.Valid())
    {
      outcome := ConfirmOutcome(sessions, db.results, user, buttonActive);
      if outcome.Saved? {
        Record(user, outcome.weight, now);
      }
    }

    /** `process_weight_input`. */
    method ProcessWeightInput(user: UserId, weight: Option<real>, now: nat) returns (outcome: Outcome)
      requires Valid()
      modifies this, db
      ensures Valid()
      ensures outcome == InputOutcome(old(sessions), user, weight)
      ensures outcome.Saved? ==> var s := old(sessions[user]);
              db.results == old(db.results) + [ResultRow(user, s.day, Current(s).name, s.currentSet, outcome.weight, now)]
              && sessions == AfterAdvance(old(sessions), user)
      ensures !outcome.Saved? ==> sessions == old(sessions) && db.results == old(db.results)
      ensures db.users == old(db.users) && db.programs == old(db.programs)
      ensures db.buttonWorkouts == old(db.buttonWorkouts) && db.buttonExercises == old(db.buttonExercises)
      ensures db.buttonResults == old(db.buttonResults)
      ensures db.Valid() <==> old(db.Valid())
    {
      outcome := InputOutcome(sessions, user, weight);
      if outcome.Saved? {
        Record(user, outcome.weight, now);
      }
    }

    /** `process_weight_direct`. */
    method ProcessWeightDirect(user: UserId, buttonActive: bool, waiting: bool, weight: Option<real>, now: nat) returns (outcome: Outcome)
      requires Valid()
      modifies this, db
      ensures Valid()
      ensures outcome == DirectOutcome(old(sessions), user, buttonActive, waiting, weight)
      ensures outcome.Saved? ==> var s := old(sessions[user]);
              db.results == old(db.results) + [ResultRow(user, s.day, Current(s).name, s.currentSet, outcome.weight, now)]
              && sessions == AfterAdvance(old(sessions), user)
      ensures !outcome.Saved? ==> sessions == old(sessions) && db.results == old(db.results)
      ensures db.users == old(db.users) && db.programs == old(db.programs)
      ensures db.buttonWorkouts == old(db.buttonWorkouts) && db.buttonExercises == old(db.buttonExercises)
      ensures db.buttonResults == old(db.buttonResults)
      ensures db.Valid() <==> old(db.Valid())
    {
      outcome := DirectOutcome(sessions, user, buttonActive, waiting, weight);
      if outcome.Saved? {
        Record(user, outcome.weight, now);
      }
    }

    /** `end_training_callback`: leaves an active button session to its own
        handler, otherwise drops the cursor if there is one and reports the
        training as ended, which it does whether or not a cursor existed. */
    method End(user: UserId, buttonActive: bool) returns (outcome: Outcome)
      requires Valid()
      modifies this
      ensures Valid()
      ensures buttonActive ==> outcome == Deferred && sessions == old(sessions)
      ensures !buttonActive ==> outcome == Ended && sessions == old(sessions) - {user}
    {
      if buttonActive {
        return Deferred;
      }
      sessions := sessions - {user};
      outcome := Ended;
    }
  }
}
