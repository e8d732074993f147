/** The bot's SQLite store, with every table a sequence of rows in insertion
    order and every statement the relational operation it performs. The same
    model serves both copies of the data layer: the first six operations of
    the full store are those of the older one, statement for statement. */
module Store {
  import opened Wrappers
  import opened Text
  import opened Dicts
  import opened Schedule
  import opened Sorting

  type UserId = int

  datatype UserRow = UserRow(id: UserId, username: Option<string>)

  datatype ProgramRow = ProgramRow(user: UserId, day: string, exercise: string, sets: int)

  /** A row of `results`; `date` stands for the time stamp of the save. */
  datatype ResultRow = ResultRow(user: UserId, day: string, exercise: string, setNumber: int, weight: real, date: nat)

  datatype WorkoutRow = WorkoutRow(user: UserId, number: int, name: string)

  /** One planned set of a button workout: `{set_number, reps}`. */
  datatype SetSpec = SetSpec(setNumber: int, reps: Option<int>)

  /** `{exercise, sets: [...]}`, as saved and as read back. */
  datatype ButtonExercise = ButtonExercise(exercise: string, sets: seq<SetSpec>)

  datatype ExerciseRow = ExerciseRow(user: UserId, number: int, exercise: string, setNumber: int, reps: Option<int>)

  datatype ButtonResultRow = ButtonResultRow(user: UserId, number: int, exercise: string, setNumber: int, weight: real, date: nat)

  // ---------------------------------------------------------------- users

  predicate KnownUser(users: seq<UserRow>, id: UserId) {
    exists i | 0 <= i < |users| :: users[i].id == id
  }

  /** The users table after `add_user`: a row is inserted only for a new id. */
  function WithUser(users: seq<UserRow>, id: UserId, name: Option<string>): (r: seq<UserRow>)
    ensures KnownUser(r, id)
    ensures KnownUser(users, id) ==> r == users
    ensures !KnownUser(users, id) ==> r == users + [UserRow(id, name)]
  {
    if KnownUser(users, id) then users
    else
      assert (users + [UserRow(id, name)])[|users|].id == id;
      users + [UserRow(id, name)]
  }

  /** `add_user` is idempotent: adding a known id again, under any name, changes nothing. */
  lemma {:induction false} WithUserIdempotent(users: seq<UserRow>, id: UserId, name: Option<string>, other: Option<string>)
    ensures WithUser(WithUser(users, id, name), id, other) == WithUser(users, id, name)
  {
  }

  // ------------------------------------------------------------- programs

  /** One row per (day, exercise) pair, in order. */
  function ProgramRows(user: UserId, ps: seq<(string, Exercise)>): (rows: seq<ProgramRow>)
    ensures |rows| == |ps|
    ensures forall i | 0 <= i < |ps| :: rows[i] == ProgramRow(user, ps[i].0, ps[i].1.name, ps[i].1.sets)
  {
    seq(|ps|, i requires 0 <= i < |ps| => ProgramRow(user, ps[i].0, ps[i].1.name, ps[i].1.sets))
  }

  lemma {:induction false} ProgramRowsConcat(user: UserId, a: seq<(string, Exercise)>, b: seq<(string, Exercise)>)
    ensures ProgramRows(user, a + b) == ProgramRows(user, a) + ProgramRows(user, b)
  {
  }

  function DayRows(user: UserId, day: string, exs: seq<Exercise>): (rows: seq<ProgramRow>)
    ensures |rows| == |exs|
    ensures forall i | 0 <= i < |exs| :: rows[i] == ProgramRow(user, day, exs[i].name, exs[i].sets)
  {
    seq(|exs|, i requires 0 <= i < |exs| => ProgramRow(user, day, exs[i].name, exs[i].sets))
  }

  /** The rows `save_program` inserts: day by day, exercise by exercise. */
  function ProgramRowsOf(user: UserId, p: Program): seq<ProgramRow> {
    if p == [] then [] else ProgramRowsOf(user, p[..|p| - 1]) + DayRows(user, p[|p| - 1].0, p[|p| - 1].1)
  }

  lemma {:induction false} ProgramRowsOfFlatten(user: UserId, p: Program)
    ensures ProgramRowsOf(user, p) == ProgramRows(user, Flatten(p))
  {
    if p != [] {
      var init, last := p[..|p| - 1], p[|p| - 1];
      ProgramRowsOfFlatten(user, init);
      ProgramRowsConcat(user, Flatten(init), Pairs(last.0, last.1));
      assert DayRows(user, last.0, last.1) == ProgramRows(user, Pairs(last.0, last.1));
    }
  }

  /** `DELETE FROM programs WHERE user_id = ?`. */
  function OtherUsers(rows: seq<ProgramRow>, user: UserId): (r: seq<ProgramRow>)
    ensures forall i | 0 <= i < |r| :: r[i].user != user
  {
    if rows == [] then []
    else OtherUsers(rows[..|rows| - 1], user)
         + (if rows[|rows| - 1].user == user then [] else [rows[|rows| - 1]])
  }

  /** `if day:` — no day, or the empty string, selects the whole program. */
  predicate DayWanted(day: Option<string>, d: string) {
    day.None? || day.value == [] || day.value == d
  }

  /** `SELECT day, exercise, sets FROM programs WHERE user_id = ? [AND day = ?]`,
      in table order. */
  function Selected(rows: seq<ProgramRow>, user: UserId, day: Option<string>): seq<(string, Exercise)> {
    if rows == [] then []
    else
      var r := rows[|rows| - 1];
      Selected(rows[..|rows| - 1], user, day)
      + (if r.user == user && DayWanted(day, r.day) then [(r.day, Exercise(r.exercise, r.sets))] else [])
  }

  /** `get_program`'s result: the selected rows grouped by day. */
  function ProgramOf(rows: seq<ProgramRow>, user: UserId, day: Option<string>): Program {
    Group(Selected(rows, user, day))
  }

  lemma {:induction false} SelectedConcat(a: seq<ProgramRow>, b: seq<ProgramRow>, user: UserId, day: Option<string>)
    ensures Selected(a + b, user, day) == Selected(a, user, day) + Selected(b, user, day)
    decreases |b|
  {
    if b == [] {
      assert a + b == a;
    } else {
      assert (a + b)[..|a + b| - 1] == a + b[..|b| - 1];
      SelectedConcat(a, b[..|b| - 1], user, day);
    }
  }

  /** The pairs of `ps` that fall on day `d`. */
  function OnDay(ps: seq<(string, Exercise)>, d: string): seq<(string, Exercise)> {
    if ps == [] then []
    else OnDay(ps[..|ps| - 1], d) + (if ps[|ps| - 1].0 == d then [ps[|ps| - 1]] else [])
  }

  /** Reading back a user's freshly written rows gives the pairs they were
      written from (those on the requested day, when one is given). */
  lemma {:induction false} SelectedOwn(user: UserId, ps: seq<(string, Exercise)>, day: Option<string>)
    ensures Selected(ProgramRows(user, ps), user, day)
            == if day.None? || day.value == [] then ps else OnDay(ps, day.value)
  {
    if ps != [] {
      var init := ps[..|ps| - 1];
      assert ProgramRows(user, ps)[..|ps| - 1] == ProgramRows(user, init);
      SelectedOwn(user, init, day);
    }
  }

  /** Rows written for one user are invisible to another. */
  lemma {:induction false} SelectedForeign(user: UserId, other: UserId, ps: seq<(string, Exercise)>, day: Option<string>)
    requires other != user
    ensures Selected(ProgramRows(user, ps), other, day) == []
  {
    if ps != [] {
      var init := ps[..|ps| - 1];
      assert ProgramRows(user, ps)[..|ps| - 1] == ProgramRows(user, init);
      SelectedForeign(user, other, init, day);
    }
  }

  /** Deleting a user's rows hides exactly them. */
  lemma {:induction false} SelectedOtherUsers(rows: seq<ProgramRow>, user: UserId, other: UserId, day: Option<string>)
    ensures Selected(OtherUsers(rows, user), other, day) == if other == user then [] else Selected(rows, other, day)
  {
    if rows != [] {
      var init, last := rows[..|rows| - 1], rows[|rows| - 1];
      SelectedOtherUsers(init, user, other, day);
      if last.user == user {
        assert OtherUsers(rows, user) == OtherUsers(init, user) + [];
        assert OtherUsers(init, user) + [] == OtherUsers(init, user);
      } else {
        SelectedConcat(OtherUsers(init, user), [last], other, day);
        assert [last][..0] == [];
      }
    }
  }

  /** The day filter over a flattened program with distinct days is that
      day's own list. */
  lemma {:induction false} OnDayFlatten(p: Program, d: string)
    requires DistinctKeys(p)
    ensures OnDay(Flatten(p), d) == if Get(p, d).Some? then Pairs(d, Get(p, d).value) else []
  {
    if p != [] {
      var init, last := p[..|p| - 1], p[|p| - 1];
      assert p == init + [last];
      assert forall i | 0 <= i < |init| :: Keys(init)[i] == p[i].0;
      OnDayFlatten(init, d);
      OnDayConcat(Flatten(init), Pairs(last.0, last.1), d);
      if last.0 == d {
        GetLast(init, d, last.1);
        OnDayPairs(d, last.1, d);
      } else {
        GetAppendOther(init, last.0, last.1, d);
        OnDayPairs(last.0, last.1, d);
      }
    }
  }

  lemma {:induction false} OnDayConcat(a: seq<(string, Exercise)>, b: seq<(string, Exercise)>, d: string)
    ensures OnDay(a + b, d) == OnDay(a, d) + OnDay(b, d)
    decreases |b|
  {
    if b == [] {
      assert a + b == a;
    } else {
      assert (a + b)[..|a + b| - 1] == a + b[..|b| - 1];
      OnDayConcat(a, b[..|b| - 1], d);
    }
  }

  lemma {:induction false} OnDayPairs(k: string, vs: seq<Exercise>, d: string)
    ensures OnDay(Pairs(k, vs), d) == if k == d then Pairs(k, vs) else []
  {
    if vs != [] {
      assert Pairs(k, vs)[..|vs| - 1] == Pairs(k, vs[..|vs| - 1]);
      OnDayPairs(k, vs[..|vs| - 1], d);
    }
  }

  /** The whole-program replace and the grouped read-back are inverse: after
      `save_program(user, p)` the user's program reads back as `p` without
      its empty days, and one day reads back as that day alone (or nothing
      when it has no exercises). */
  lemma {:induction false} SaveThenLoad(rows: seq<ProgramRow>, user: UserId, p: Program, day: Option<string>)
    requires DistinctKeys(p)
    ensures var after := OtherUsers(rows, user) + ProgramRowsOf(user, p);
            ProgramOf(after, user, day)
            == if day.None? || day.value == [] then NonEmptyEntries(p)
               else if Get(p, day.value).Some? && Get(p, day.value).value != [] then [(day.value, Get(p, day.value).value)]
               else []
  {
    ProgramRowsOfFlatten(user, p);
    var after := OtherUsers(rows, user) + ProgramRows(user, Flatten(p));
    SelectedConcat(OtherUsers(rows, user), ProgramRows(user, Flatten(p)), user, day);
    SelectedOtherUsers(rows, user, user, day);
    SelectedOwn(user, Flatten(p), day);
    assert Selected(after, user, day) == Selected(ProgramRows(user, Flatten(p)), user, day);
    if day.None? || day.value == [] {
      GroupFlatten(p);
    } else {
      var d := day.value;
      OnDayFlatten(p, d);
      var vs := if Get(p, d).Some? then Get(p, d).value else [];
      assert Selected(after, user, day) == Pairs(d, vs);
      GroupIntoFreshKey([], d, vs);
    }
  }

  /** Saving one user's program leaves every other user's program as it was. */
  lemma {:induction false} SaveKeepsOthers(rows: seq<ProgramRow>, user: UserId, other: UserId, p: Program, day: Option<string>)
    requires other != user
    ensures ProgramOf(OtherUsers(rows, user) + ProgramRowsOf(user, p), other, day) == ProgramOf(rows, other, day)
  {
    ProgramRowsOfFlatten(user, p);
    SelectedConcat(OtherUsers(rows, user), ProgramRows(user, Flatten(p)), other, day);
    SelectedOtherUsers(rows, user, other, day);
    SelectedForeign(user, other, Flatten(p), day);
    assert Selected(rows, other, day) + [] == Selected(rows, other, day);
  }


  // -------------------------------------------------------------- filters

  /** `WHERE p`: the rows satisfying `p`, in table order. */
  function Where<T>(xs: seq<T>, p: T -> bool): (r: seq<T>)
    ensures |r| <= |xs|
    ensures forall i | 0 <= i < |r| :: p(r[i])
  {
    if xs == [] then []
    else
      assert xs == xs[..|xs| - 1] + [xs[|xs| - 1]];
      Where(xs[..|xs| - 1], p) + (if p(xs[|xs| - 1]) then [xs[|xs| - 1]] else [])
  }

  /** `WHERE p` keeps exactly the rows satisfying `p`. */
  lemma {:induction false} WhereMembers<T>(xs: seq<T>, p: T -> bool)
    ensures forall x | x in Where(xs, p) :: x in xs && p(x)
    ensures forall x | x in xs && p(x) :: x in Where(xs, p)
  {
    if xs != [] {
      WhereMembers(xs[..|xs| - 1], p);
      assert xs == xs[..|xs| - 1] + [xs[|xs| - 1]];
    }
  }

  lemma {:induction false} WhereConcat<T>(a: seq<T>, b: seq<T>, p: T -> bool)
    ensures Where(a + b, p) == Where(a, p) + Where(b, p)
    decreases |b|
  {
    if b == [] {
      assert a + b == a;
    } else {
      assert (a + b)[..|a + b| - 1] == a + b[..|b| - 1];
      WhereConcat(a, b[..|b| - 1], p);
    }
  }

  lemma {:induction false} WhereAll<T>(xs: seq<T>, p: T -> bool)
    requires forall i | 0 <= i < |xs| :: p(xs[i])
    ensures Where(xs, p) == xs
  {
    if xs != [] {
      WhereAll(xs[..|xs| - 1], p);
      assert xs == xs[..|xs| - 1] + [xs[|xs| - 1]];
    }
  }

  lemma {:induction false} WhereNone<T>(xs: seq<T>, p: T -> bool)
    requires forall i | 0 <= i < |xs| :: !p(xs[i])
    ensures Where(xs, p) == []
  {
    if xs != [] {
      WhereNone(xs[..|xs| - 1], p);
    }
  }

  // --------------------------------------------------- results and stats

  /** The most recent row that `matches`, by `date`; of two rows with the
      same date the later one is taken. */
  function Latest<R>(rows: seq<R>, matches: R -> bool, date: R -> nat): (r: Option<R>)
    ensures r.None? <==> forall i | 0 <= i < |rows| :: !matches(rows[i])
    ensures r.Some? ==> r.value in rows && matches(r.value)
    ensures r.Some? ==> forall i | 0 <= i < |rows| && matches(rows[i]) :: date(rows[i]) <= date(r.value)
  {
    if rows == [] then None
    else
      var init, last := rows[..|rows| - 1], rows[|rows| - 1];
      assert forall i | 0 <= i < |init| :: init[i] == rows[i];
      var best := Latest(init, matches, date);
      if matches(last) && (best.None? || date(best.value) <= date(last)) then Some(last) else best
  }

  /** A row saved no earlier than every other is what `Latest` finds next. */
  lemma {:induction false} LatestAfterSave<R>(rows: seq<R>, row: R, matches: R -> bool, date: R -> nat)
    requires matches(row)
    requires forall i | 0 <= i < |rows| :: date(rows[i]) <= date(row)
    ensures Latest(rows + [row], matches, date) == Some(row)
  {
    assert (rows + [row])[..|rows|] == rows;
  }

  /** A row that does not match leaves the answer as it was. */
  lemma {:induction false} LatestAfterOther<R>(rows: seq<R>, row: R, matches: R -> bool, date: R -> nat)
    requires !matches(row)
    ensures Latest(rows + [row], matches, date) == Latest(rows, matches, date)
  {
    assert (rows + [row])[..|rows|] == rows;
  }

  predicate ResultFor(r: ResultRow, user: UserId, exercise: string, setNumber: int) {
    r.user == user && r.exercise == exercise && r.setNumber == setNumber
  }

  /** `get_last_weight`: the weight of the most recent result for
      (user, exercise, set number), whatever day it was saved under. */
  function LastWeightOf(rows: seq<ResultRow>, user: UserId, exercise: string, setNumber: int): (w: Option<real>)
    ensures w.None? <==> forall i | 0 <= i < |rows| :: !ResultFor(rows[i], user, exercise, setNumber)
    ensures w.Some? ==> exists i | 0 <= i < |rows| ::
              ResultFor(rows[i], user, exercise, setNumber) && rows[i].weight == w.value
              && forall j | 0 <= j < |rows| && ResultFor(rows[j], user, exercise, setNumber) :: rows[j].date <= rows[i].date
  {
    match Latest(rows, (r: ResultRow) => ResultFor(r, user, exercise, setNumber), (r: ResultRow) => r.date)
    case None => None
    case Some(r) => Some(r.weight)
  }

  /** After `save_result` with the newest time stamp, `get_last_weight` for
      that exercise and set reads the saved weight back; every other
      exercise or set reads as before. */
  lemma {:induction false} SaveResultThenLast(rows: seq<ResultRow>, row: ResultRow, user: UserId, exercise: string, setNumber: int)
    requires forall i | 0 <= i < |rows| :: rows[i].date <= row.date
    ensures LastWeightOf(rows + [row], user, exercise, setNumber)
            == if ResultFor(row, user, exercise, setNumber) then Some(row.weight) else LastWeightOf(rows, user, exercise, setNumber)
  {
    var m := (r: ResultRow) => ResultFor(r, user, exercise, setNumber);
    var dt := (r: ResultRow) => r.date;
    if m(row) {
      LatestAfterSave(rows, row, m, dt);
    } else {
      LatestAfterOther(rows, row, m, dt);
    }
  }

  function Max(a: real, b: real): real {
    if a >= b then a else b
  }

  predicate ResultOf(r: ResultRow, user: UserId, exercise: string) {
    r.user == user && r.exercise == exercise
  }

  /** `get_stats`: per exercise, the heaviest weight the user ever recorded. */
  function MaxWeights(rows: seq<ResultRow>, user: UserId): Dict<string, real> {
    if rows == [] then []
    else
      var s := MaxWeights(rows[..|rows| - 1], user);
      var r := rows[|rows| - 1];
      if r.user != user then s
      else Put(s, r.exercise, match Get(s, r.exercise) case None => r.weight case Some(m) => Max(m, r.weight))
  }

  /** One more row changes only the entry of its own exercise, to the larger
      of the old value and the row's weight. */
  lemma {:induction false} MaxWeightsLast(rows: seq<ResultRow>, user: UserId, exercise: string)
    requires rows != [] && DistinctKeys(MaxWeights(rows[..|rows| - 1], user))
    ensures DistinctKeys(MaxWeights(rows, user))
    ensures var r, m := rows[|rows| - 1], Get(MaxWeights(rows[..|rows| - 1], user), exercise);
            Get(MaxWeights(rows, user), exercise)
            == if !ResultOf(r, user, exercise) then m
               else match m case None => Some(r.weight) case Some(w) => Some(Max(w, r.weight))
  {
    var s := MaxWeights(rows[..|rows| - 1], user);
    var r := rows[|rows| - 1];
    if r.user == user {
      var v := match Get(s, r.exercise) case None => r.weight case Some(m) => Max(m, r.weight);
      PutDistinct(s, r.exercise, v);
      PutGet(s, r.exercise, v, exercise);
    }
  }

  /** An exercise appears in the statistics exactly when the user has a
      result for it, and its value is the maximum of those weights. */
  lemma {:induction false} MaxWeightsSpec(rows: seq<ResultRow>, user: UserId, exercise: string)
    ensures DistinctKeys(MaxWeights(rows, user))
    ensures var m := Get(MaxWeights(rows, user), exercise);
            (m.None? <==> forall i | 0 <= i < |rows| :: !ResultOf(rows[i], user, exercise))
            && (m.Some? ==> (forall i | 0 <= i < |rows| && ResultOf(rows[i], user, exercise) :: rows[i].weight <= m.value)
                            && exists i | 0 <= i < |rows| :: ResultOf(rows[i], user, exercise) && rows[i].weight == m.value)
  {
    if rows != [] {
      var init, r := rows[..|rows| - 1], rows[|rows| - 1];
      assert forall i | 0 <= i < |init| :: init[i] == rows[i];
      MaxWeightsSpec(init, user, exercise);
      MaxWeightsLast(rows, user, exercise);
      if ResultOf(r, user, exercise) {
        var m := Get(MaxWeights(init, user), exercise);
        if m.Some? {
          var k :| 0 <= k < |init| && ResultOf(init[k], user, exercise) && init[k].weight == m.value;
          if m.value >= r.weight {
            assert ResultOf(rows[k], user, exercise) && rows[k].weight == Max(m.value, r.weight);
          } else {
            assert ResultOf(rows[|rows| - 1], user, exercise) && rows[|rows| - 1].weight == Max(m.value, r.weight);
          }
        } else {
          assert ResultOf(rows[|rows| - 1], user, exercise) && rows[|rows| - 1].weight == r.weight;
        }
      }
    }
  }

  /** The statistics report the heaviest weight, not the latest one. */
  lemma {:induction false} StatsNotLatest(rows: seq<ResultRow>, user: UserId)
    requires rows == [ResultRow(user, "Понедельник", "присед", 1, 100.0, 1), ResultRow(user, "Четверг", "присед", 1, 80.0, 2)]
    ensures Get(MaxWeights(rows, user), "присед") == Some(100.0)
    ensures LastWeightOf(rows, user, "присед", 1) == Some(80.0)
  {
    var first := rows[..1];
    assert first[..0] == [] && first[0] == rows[0];
    assert MaxWeights(first[..0], user) == [];
    var s := MaxWeights(first, user);
    assert s == Put([], "присед", 100.0);
    assert Get(s, "присед") == Some(100.0);
    SaveResultThenLast(rows[..1], rows[1], user, "присед", 1);
    assert rows[..1] + [rows[1]] == rows;
  }

  // ------------------------------------------------------ button workouts

  /** `UNIQUE(user_id, workout_number)`. */
  predicate UniqueWorkouts(rows: seq<WorkoutRow>) {
    forall i, j | 0 <= i < j < |rows| :: rows[i].user != rows[j].user || rows[i].number != rows[j].number
  }

  lemma {:induction false} WhereUnique(rows: seq<WorkoutRow>, p: WorkoutRow -> bool)
    requires UniqueWorkouts(rows)
    ensures UniqueWorkouts(Where(rows, p))
  {
    if rows != [] {
      var init, last := rows[..|rows| - 1], rows[|rows| - 1];
      assert UniqueWorkouts(init) by {
        assert forall i | 0 <= i < |init| :: init[i] == rows[i];
      }
      WhereUnique(init, p);
      var w := Where(init, p);
      WhereMembers(init, p);
      if p(last) {
        forall i | 0 <= i < |w|
          ensures w[i].user != last.user || w[i].number != last.number
        {
          assert w[i] in init;
          var k :| 0 <= k < |init| && init[k] == w[i];
          assert rows[k] == w[i];
        }
        assert Where(rows, p) == w + [last];
      }
    }
  }

  /** `INSERT OR REPLACE INTO button_workouts`: the row for (user, number)
      is replaced (or added), and the uniqueness constraint still holds. */
  function ReplaceWorkout(rows: seq<WorkoutRow>, user: UserId, number: int, name: string): (r: seq<WorkoutRow>)
    ensures UniqueWorkouts(rows) ==> UniqueWorkouts(r)
    ensures WorkoutRow(user, number, name) in r
    ensures forall w | w in r && w.user == user && w.number == number :: w == WorkoutRow(user, number, name)
    ensures forall w | w in rows :: w in r || (w.user == user && w.number == number)
    ensures forall w | w in r :: w in rows || w == WorkoutRow(user, number, name)
  {
    var kept := Where(rows, (w: WorkoutRow) => !(w.user == user && w.number == number));
    WhereMembers(rows, (w: WorkoutRow) => !(w.user == user && w.number == number));
    assert UniqueWorkouts(rows) ==> UniqueWorkouts(kept) by {
      if UniqueWorkouts(rows) {
        WhereUnique(rows, (w: WorkoutRow) => !(w.user == user && w.number == number));
      }
    }
    assert (kept + [WorkoutRow(user, number, name)])[|kept|] == WorkoutRow(user, number, name);
    kept + [WorkoutRow(user, number, name)]
  }

  predicate NumberLe(a: WorkoutRow, b: WorkoutRow) {
    a.number <= b.number
  }

  /** `get_button_workouts`: the user's workouts `ORDER BY workout_number`. */
  function WorkoutsOf(rows: seq<WorkoutRow>, user: UserId): seq<WorkoutRow> {
    SortBy(Where(rows, (w: WorkoutRow) => w.user == user), NumberLe)
  }

  /** The list holds exactly the user's workouts, each once, by increasing number. */
  lemma {:induction false} WorkoutsOfSpec(rows: seq<WorkoutRow>, user: UserId)
    requires UniqueWorkouts(rows)
    ensures forall i, j | 0 <= i < j < |WorkoutsOf(rows, user)| :: WorkoutsOf(rows, user)[i].number < WorkoutsOf(rows, user)[j].number
    ensures forall w :: w in WorkoutsOf(rows, user) <==> w in rows && w.user == user
  {
    WorkoutsOfMembers(rows, user);
    WorkoutsOfOrdered(rows, user);
  }

  lemma {:induction false} WorkoutsOfMembers(rows: seq<WorkoutRow>, user: UserId)
    ensures forall w :: w in WorkoutsOf(rows, user) <==> w in rows && w.user == user
  {
    var mine := Where(rows, (w: WorkoutRow) => w.user == user);
    WhereMembers(rows, (w: WorkoutRow) => w.user == user);
    var r := WorkoutsOf(rows, user);
    assert r == SortBy(mine, NumberLe);
    forall w
      ensures w in r <==> w in mine
    {
      assert w in r <==> w in multiset(r);
      assert w in mine <==> w in multiset(mine);
    }
  }

  lemma {:induction false} WorkoutsOfOrdered(rows: seq<WorkoutRow>, user: UserId)
    requires UniqueWorkouts(rows)
    ensures forall i, j | 0 <= i < j < |WorkoutsOf(rows, user)| :: WorkoutsOf(rows, user)[i].number < WorkoutsOf(rows, user)[j].number
  {
    var mine := Where(rows, (w: WorkoutRow) => w.user == user);
    WhereUnique(rows, (w: WorkoutRow) => w.user == user);
    NumberSortStrict(mine, user);
  }

  /** Sorting one user's distinct workouts by number orders them strictly. */
  lemma {:induction false} NumberSortStrict(mine: seq<WorkoutRow>, user: UserId)
    requires UniqueWorkouts(mine)
    requires forall k | 0 <= k < |mine| :: mine[k].user == user
    ensures forall i, j | 0 <= i < j < |SortBy(mine, NumberLe)| :: SortBy(mine, NumberLe)[i].number < SortBy(mine, NumberLe)[j].number
  {
    var r := SortBy(mine, NumberLe);
    assert TotalPreorder(NumberLe);
    SortBySorted(mine, NumberLe);
    forall i, j | 0 <= i < j < |r|
      ensures r[i].number < r[j].number
    {
      SortedDistinct(mine, user, i, j);
    }
  }

  /** Two places of the sorted list never hold workouts with one number. */
  lemma {:induction false} SortedDistinct(mine: seq<WorkoutRow>, user: UserId, i: int, j: int)
    requires UniqueWorkouts(mine)
    requires forall k | 0 <= k < |mine| :: mine[k].user == user
    requires 0 <= i < j < |SortBy(mine, NumberLe)|
    ensures SortBy(mine, NumberLe)[i].number != SortBy(mine, NumberLe)[j].number
  {
    var r := SortBy(mine, NumberLe);
    if r[i].number == r[j].number {
      assert r[i] in multiset(mine) && r[j] in multiset(mine);
      var a :| 0 <= a < |mine| && mine[a] == r[i];
      var b :| 0 <= b < |mine| && mine[b] == r[j];
      assert a == b;
      CountTwice(r, i, j);
      UniqueCount(mine, a);
      assert false;
    }
  }

  /** An element at two places is counted twice. */
  lemma {:induction false} CountTwice<T>(r: seq<T>, i: int, j: int)
    requires 0 <= i < j < |r| && r[i] == r[j]
    ensures multiset(r)[r[i]] >= 2
  {
    assert r == r[..i] + [r[i]] + r[i + 1..j] + [r[j]] + r[j + 1..];
  }

  /** A unique row occurs once. */
  lemma {:induction false} UniqueCount(rows: seq<WorkoutRow>, a: int)
    requires UniqueWorkouts(rows) && 0 <= a < |rows|
    ensures multiset(rows)[rows[a]] == 1
  {
    var x := rows[a];
    assert rows == rows[..a] + [x] + rows[a + 1..];
    assert forall k | 0 <= k < a :: rows[..a][k] == rows[k];
    assert forall k | a + 1 <= k < |rows| :: rows[a + 1..][k - a - 1] == rows[k];
    assert x !in rows[..a];
    assert x !in rows[a + 1..];
  }

  // --------------------------------------------- button workout exercises

  function SetRows(user: UserId, number: int, name: string, sets: seq<SetSpec>): (rows: seq<ExerciseRow>)
    ensures |rows| == |sets|
    ensures forall i | 0 <= i < |sets| :: rows[i] == ExerciseRow(user, number, name, sets[i].setNumber, sets[i].reps)
  {
    seq(|sets|, i requires 0 <= i < |sets| => ExerciseRow(user, number, name, sets[i].setNumber, sets[i].reps))
  }

  /** The rows `save_button_workout` inserts: one per set, exercise by exercise. */
  function ExerciseRowsOf(user: UserId, number: int, exs: seq<ButtonExercise>): seq<ExerciseRow> {
    if exs == [] then []
    else ExerciseRowsOf(user, number, exs[..|exs| - 1]) + SetRows(user, number, exs[|exs| - 1].exercise, exs[|exs| - 1].sets)
  }

  function InWorkout(rows: seq<ExerciseRow>, user: UserId, number: int): seq<ExerciseRow> {
    Where(rows, (e: ExerciseRow) => e.user == user && e.number == number)
  }

  /** `DELETE FROM button_workout_exercises WHERE user_id = ? AND workout_number = ?`. */
  function OutsideWorkout(rows: seq<ExerciseRow>, user: UserId, number: int): seq<ExerciseRow> {
    Where(rows, (e: ExerciseRow) => !(e.user == user && e.number == number))
  }

  /** `ORDER BY exercise_name, set_number`; names compare code point by code
      point, which is the byte order of their UTF-8 encodings. */
  predicate RowLe(a: ExerciseRow, b: ExerciseRow) {
    if a.exercise == b.exercise then a.setNumber <= b.setNumber else StrLe(a.exercise, b.exercise)
  }

  lemma {:induction false} RowLeTotalPreorder()
    ensures TotalPreorder(RowLe)
  {
    forall a, b ensures RowLe(a, b) || RowLe(b, a) {
      StrLeTotal(a.exercise, b.exercise);
    }
    forall a, b, c | RowLe(a, b) && RowLe(b, c) ensures RowLe(a, c) {
      if a.exercise != b.exercise && b.exercise != c.exercise {
        StrLeTrans(a.exercise, b.exercise, c.exercise);
        if a.exercise == c.exercise {
          StrLeAntisym(a.exercise, b.exercise);
        }
      }
    }
  }

  function SetPairs(rows: seq<ExerciseRow>): (ps: seq<(string, SetSpec)>)
    ensures |ps| == |rows|
    ensures forall i | 0 <= i < |rows| :: ps[i] == (rows[i].exercise, SetSpec(rows[i].setNumber, rows[i].reps))
  {
    seq(|rows|, i requires 0 <= i < |rows| => (rows[i].exercise, SetSpec(rows[i].setNumber, rows[i].reps)))
  }

  function AsExercises(g: Dict<string, seq<SetSpec>>): (r: seq<ButtonExercise>)
    ensures |r| == |g|
    ensures forall i | 0 <= i < |g| :: r[i] == ButtonExercise(g[i].0, g[i].1)
  {
    seq(|g|, i requires 0 <= i < |g| => ButtonExercise(g[i].0, g[i].1))
  }

  function Entries(exs: seq<ButtonExercise>): (g: Dict<string, seq<SetSpec>>)
    ensures |g| == |exs|
    ensures forall i | 0 <= i < |exs| :: g[i] == (exs[i].exercise, exs[i].sets)
  {
    seq(|exs|, i requires 0 <= i < |exs| => (exs[i].exercise, exs[i].sets))
  }

  /** The closing loop of `get_button_workout_exercises`: one entry per
      group, in the groups' order. */
  method ListExercises(groups: Dict<string, seq<SetSpec>>) returns (exercises: seq<ButtonExercise>)
    ensures exercises == AsExercises(groups)
  {
    exercises := [];
    for i := 0 to |groups|
      invariant |exercises| == i
      invariant forall k | 0 <= k < i :: exercises[k] == ButtonExercise(groups[k].0, groups[k].1)
    {
      exercises := exercises + [ButtonExercise(groups[i].0, groups[i].1)];
    }
  }

  /** `get_button_workout_exercises`: the workout's rows in `ORDER BY`
      order, grouped by exercise name. */
  function ExercisesOf(rows: seq<ExerciseRow>, user: UserId, number: int): seq<ButtonExercise> {
    AsExercises(Group(SetPairs(SortBy(InWorkout(rows, user, number), RowLe))))
  }

  predicate SetLe(a: SetSpec, b: SetSpec) {
    a.setNumber <= b.setNumber
  }

  /** A workout's exercises come back by strictly increasing name, none
      without sets, each with its sets by set number. */
  lemma {:induction false} ExercisesOfOrdered(rows: seq<ExerciseRow>, user: UserId, number: int)
    ensures forall i, j | 0 <= i < j < |ExercisesOf(rows, user, number)| ::
              StrLe(ExercisesOf(rows, user, number)[i].exercise, ExercisesOf(rows, user, number)[j].exercise)
              && ExercisesOf(rows, user, number)[i].exercise != ExercisesOf(rows, user, number)[j].exercise
    ensures forall i | 0 <= i < |ExercisesOf(rows, user, number)| :: ExercisesOf(rows, user, number)[i].sets != []
    ensures forall i, a, b | 0 <= i < |ExercisesOf(rows, user, number)| && 0 <= a < b < |ExercisesOf(rows, user, number)[i].sets| ::
              ExercisesOf(rows, user, number)[i].sets[a].setNumber <= ExercisesOf(rows, user, number)[i].sets[b].setNumber
  {
    var sorted := SortBy(InWorkout(rows, user, number), RowLe);
    RowLeTotalPreorder();
    SortBySorted(InWorkout(rows, user, number), RowLe);
    var ps := SetPairs(sorted);
    var g := Group(ps);
    forall i, j | 0 <= i < j < |ps|
      ensures StrLe(ps[i].0, ps[j].0)
      ensures ps[i].0 == ps[j].0 ==> SetLe(ps[i].1, ps[j].1)
    {
      assert RowLe(sorted[i], sorted[j]);
      StrLeRefl(ps[i].0);
    }
    GroupKeysOrdered(ps, StrLe);
    GroupShape(ps);
    forall i | 0 <= i < |g|
      ensures forall a, b | 0 <= a < b < |g[i].1| :: g[i].1[a].setNumber <= g[i].1[b].setNumber
    {
      GetAt(g, i);
      GroupGet(ps, g[i].0);
      ValuesOfOrdered(ps, g[i].0, SetLe);
    }
  }

  lemma {:induction false} ExerciseRowsFacts(user: UserId, number: int, exs: seq<ButtonExercise>)
    ensures forall i | 0 <= i < |ExerciseRowsOf(user, number, exs)| ::
              ExerciseRowsOf(user, number, exs)[i].user == user && ExerciseRowsOf(user, number, exs)[i].number == number
              && exists k | 0 <= k < |exs| :: ExerciseRowsOf(user, number, exs)[i].exercise == exs[k].exercise
  {
    if exs != [] {
      var init, last := exs[..|exs| - 1], exs[|exs| - 1];
      ExerciseRowsFacts(user, number, init);
      var a, b := ExerciseRowsOf(user, number, init), SetRows(user, number, last.exercise, last.sets);
      var rows := ExerciseRowsOf(user, number, exs);
      assert rows == a + b;
      forall i | 0 <= i < |rows|
        ensures rows[i].user == user && rows[i].number == number
        ensures exists k | 0 <= k < |exs| :: rows[i].exercise == exs[k].exercise
      {
        if i < |a| {
          var k :| 0 <= k < |init| && a[i].exercise == init[k].exercise;
          assert exs[k] == init[k];
        } else {
          assert rows[i] == b[i - |a|];
          assert rows[i].exercise == exs[|exs| - 1].exercise;
        }
      }
    }
  }

  /** Exercises saved by increasing name, each with ordered sets, give rows
      already in `ORDER BY` order. */
  lemma {:induction false} ExerciseRowsSorted(user: UserId, number: int, exs: seq<ButtonExercise>)
    requires forall i, j | 0 <= i < j < |exs| :: StrLe(exs[i].exercise, exs[j].exercise) && exs[i].exercise != exs[j].exercise
    requires forall i, a, b | 0 <= i < |exs| && 0 <= a < b < |exs[i].sets| :: exs[i].sets[a].setNumber <= exs[i].sets[b].setNumber
    ensures SortedBy(ExerciseRowsOf(user, number, exs), RowLe)
  {
    if exs != [] {
      var init, last := exs[..|exs| - 1], exs[|exs| - 1];
      ExerciseRowsSorted(user, number, init);
      ExerciseRowsFacts(user, number, init);
      var a, b := ExerciseRowsOf(user, number, init), SetRows(user, number, last.exercise, last.sets);
      forall i, j | 0 <= i < |a| && 0 <= j < |b|
        ensures RowLe(a[i], b[j])
      {
        var k :| 0 <= k < |init| && a[i].exercise == init[k].exercise;
        assert exs[k] == init[k];
      }
      SortedConcat(a, b, RowLe);
    }
  }

  lemma {:induction false} ExerciseRowsPairs(user: UserId, number: int, exs: seq<ButtonExercise>)
    ensures SetPairs(ExerciseRowsOf(user, number, exs)) == Flatten(Entries(exs))
  {
    if exs != [] {
      var init, last := exs[..|exs| - 1], exs[|exs| - 1];
      ExerciseRowsPairs(user, number, init);
      assert Entries(exs)[..|exs| - 1] == Entries(init);
      var a, b := ExerciseRowsOf(user, number, init), SetRows(user, number, last.exercise, last.sets);
      assert SetPairs(a + b) == SetPairs(a) + SetPairs(b);
      assert SetPairs(b) == Pairs(last.exercise, last.sets);
    }
  }

  /** After a save, the workout's rows are exactly the ones just written. */
  lemma {:induction false} InWorkoutAfterSave(rows: seq<ExerciseRow>, user: UserId, number: int, exs: seq<ButtonExercise>)
    ensures InWorkout(OutsideWorkout(rows, user, number) + ExerciseRowsOf(user, number, exs), user, number)
            == ExerciseRowsOf(user, number, exs)
  {
    var p := (e: ExerciseRow) => e.user == user && e.number == number;
    var outside := OutsideWorkout(rows, user, number);
    var written := ExerciseRowsOf(user, number, exs);
    WhereConcat(outside, written, p);
    WhereNone(outside, p);
    ExerciseRowsFacts(user, number, exs);
    WhereAll(written, p);
  }

  /** Saving a workout and reading its exercises back is the identity when
      the exercises are given by increasing name, each with its sets in
      order and none empty — the shape the reading side produces. */
  lemma {:induction false} SaveThenReadExercises(rows: seq<ExerciseRow>, user: UserId, number: int, exs: seq<ButtonExercise>)
    requires forall i, j | 0 <= i < j < |exs| :: StrLe(exs[i].exercise, exs[j].exercise) && exs[i].exercise != exs[j].exercise
    requires forall i | 0 <= i < |exs| :: exs[i].sets != []
    requires forall i, a, b | 0 <= i < |exs| && 0 <= a < b < |exs[i].sets| :: exs[i].sets[a].setNumber <= exs[i].sets[b].setNumber
    ensures ExercisesOf(OutsideWorkout(rows, user, number) + ExerciseRowsOf(user, number, exs), user, number) == exs
  {
    var written := ExerciseRowsOf(user, number, exs);
    InWorkoutAfterSave(rows, user, number, exs);
    ExerciseRowsSorted(user, number, exs);
    SortByOrdered(written, RowLe);
    ExerciseRowsPairs(user, number, exs);
    EntriesRoundTrip(exs);
  }

  /** Entries with distinct names and no empty list survive flattening and
      regrouping. */
  lemma {:induction false} EntriesRoundTrip(exs: seq<ButtonExercise>)
    requires forall i, j | 0 <= i < j < |exs| :: exs[i].exercise != exs[j].exercise
    requires forall i | 0 <= i < |exs| :: exs[i].sets != []
    ensures AsExercises(Group(Flatten(Entries(exs)))) == exs
  {
    var g := Entries(exs);
    GroupFlatten(g);
    NonEmptyEntriesAll(g);
  }

  // ------------------------------------------------------------ the store

  class Database {
    var users: seq<UserRow>
    var programs: seq<ProgramRow>
    var results: seq<ResultRow>
    var buttonWorkouts: seq<WorkoutRow>
    var buttonExercises: seq<ExerciseRow>
    var buttonResults: seq<ButtonResultRow>

    /** The table constraints the schema declares. */
    predicate Valid()
      reads this
    {
      UniqueWorkouts(buttonWorkouts)
    }

    /** `init_db` on a new file: every table empty. */
    constructor ()
      ensures Valid()
      ensures users == [] && programs == [] && results == []
      ensures buttonWorkouts == [] && buttonExercises == [] && buttonResults == []
    {
      users, programs, results := [], [], [];
      buttonWorkouts, buttonExercises, buttonResults := [], [], [];
    }

    method AddUser(id: UserId, username: Option<string>)
      modifies this
      ensures users == WithUser(old(users), id, username)
      ensures programs == old(programs) && results == old(results)
      ensures buttonWorkouts == old(buttonWorkouts) && buttonExercises == old(buttonExercises)
      ensures buttonResults == old(buttonResults)
    {
      if !KnownUser(users, id) {
        users := users + [UserRow(id, username)];
      }
    }

    /** `save_program`: the user's rows are deleted, then one row is inserted
        per exercise, day by day in the program's order. */
    method SaveProgram(user: UserId, program: Program)
      modifies this
      ensures programs == OtherUsers(old(programs), user) + ProgramRowsOf(user, program)
      ensures users == old(users) && results == old(results)
      ensures buttonWorkouts == old(buttonWorkouts) && buttonExercises == old(buttonExercises)
      ensures buttonResults == old(buttonResults)
    {
      var rows := OtherUsers(programs, user);
      ghost var base := rows;
      for i := 0 to |program|
        modifies {}
        invariant rows == base + ProgramRowsOf(user, program[..i])
      {
        var day, exercises := program[i].0, program[i].1;
        ghost var before := rows;
        for j := 0 to |exercises|
          modifies {}
          invariant rows == before + DayRows(user, day, exercises[..j])
        {
          rows := rows + [ProgramRow(user, day, exercises[j].name, exercises[j].sets)];
          assert DayRows(user, day, exercises[..j + 1]) == DayRows(user, day, exercises[..j]) + [ProgramRow(user, day, exercises[j].name, exercises[j].sets)];
        }
        assert exercises[..|exercises|] == exercises;
        assert program[..i + 1][..i] == program[..i];
      }
      assert program[..|program|] == program;
      programs := rows;
    }

    /** `get_program`. */
    method GetProgram(user: UserId, day: Option<string>) returns (program: Program)
      ensures program == ProgramOf(programs, user, day)
    {
      program := GroupRows(Selected(programs, user, day));
    }

    /** `save_result`, stamped with `date`. */
    method SaveResult(user: UserId, day: string, exercise: string, setNumber: int, weight: real, date: nat)
      modifies this
      ensures results == old(results) + [ResultRow(user, day, exercise, setNumber, weight, date)]
      ensures users == old(users) && programs == old(programs)
      ensures buttonWorkouts == old(buttonWorkouts) && buttonExercises == old(buttonExercises)
      ensures buttonResults == old(buttonResults)
    {
      results := results + [ResultRow(user, day, exercise, setNumber, weight, date)];
    }

    function LastWeight(user: UserId, exercise: string, setNumber: int): Option<real>
      reads this
    {
      LastWeightOf(results, user, exercise, setNumber)
    }

    function Stats(user: UserId): Dict<string, real>
      reads this
    {
      MaxWeights(results, user)
    }

    /** `save_button_workout`: the workout row is inserted or replaced, its
        exercise rows deleted, and one row inserted per planned set. */
    method SaveButtonWorkout(user: UserId, number: int, name: string, exercises: seq<ButtonExercise>)
      requires Valid()
      modifies this
      ensures Valid()
      ensures buttonWorkouts == ReplaceWorkout(old(buttonWorkouts), user, number, name)
      ensures buttonExercises == OutsideWorkout(old(buttonExercises), user, number) + ExerciseRowsOf(user, number, exercises)
      ensures users == old(users) && programs == old(programs) && results == old(results)
      ensures buttonResults == old(buttonResults)
    {
      buttonWorkouts := ReplaceWorkout(buttonWorkouts, user, number, name);
      var rows := OutsideWorkout(buttonExercises, user, number);
      ghost var base := rows;
      for i := 0 to |exercises|
        modifies {}
        invariant rows == base + ExerciseRowsOf(user, number, exercises[..i])
      {
        var exercise := exercises[i];
        ghost var before := rows;
        for j := 0 to |exercise.sets|
          modifies {}
          invariant rows == before + SetRows(user, number, exercise.exercise, exercise.sets[..j])
        {
          var spec := exercise.sets[j];
          rows := rows + [ExerciseRow(user, number, exercise.exercise, spec.setNumber, spec.reps)];
          assert SetRows(user, number, exercise.exercise, exercise.sets[..j + 1])
                 == SetRows(user, number, exercise.exercise, exercise.sets[..j]) + [ExerciseRow(user, number, exercise.exercise, spec.setNumber, spec.reps)];
        }
        assert exercise.sets[..|exercise.sets|] == exercise.sets;
        assert exercises[..i + 1][..i] == exercises[..i];
        assert ExerciseRowsOf(user, number, exercises[..i + 1])
               == ExerciseRowsOf(user, number, exercises[..i]) + SetRows(user, number, exercise.exercise, exercise.sets);
      }
      assert exercises[..|exercises|] == exercises;
      buttonExercises := rows;
    }

    function ButtonWorkouts(user: UserId): seq<WorkoutRow>
      reads this
    {
      WorkoutsOf(buttonWorkouts, user)
    }

    /** `get_button_workout_exercises`: the grouping loop, then one entry
        per exercise in first-appearance order. */
    method GetButtonWorkoutExercises(user: UserId, number: int) returns (exercises: seq<ButtonExercise>)
      ensures exercises == ExercisesOf(buttonExercises, user, number)
    {
      var rows := buttonExercises;
      var groups := GroupRows(SetPairs(SortBy(InWorkout(rows, user, number), RowLe)));
      exercises := ListExercises(groups);
    }

    /** `save_button_workout_result`, stamped with `date`. */
    method SaveButtonWorkoutResult(user: UserId, number: int, exercise: string, setNumber: int, weight: real, date: nat)
      modifies this
      ensures buttonResults == old(buttonResults) + [ButtonResultRow(user, number, exercise, setNumber, weight, date)]
      ensures users == old(users) && programs == old(programs) && results == old(results)
      ensures buttonWorkouts == old(buttonWorkouts) && buttonExercises == old(buttonExercises)
    {
      buttonResults := buttonResults + [ButtonResultRow(user, number, exercise, setNumber, weight, date)];
    }

    function LastButtonWeight(user: UserId, number: int, exercise: string, setNumber: int): Option<real>
      reads this
    {
      LastButtonWeightOf(buttonResults, user, number, exercise, setNumber)
    }
  }

  predicate ButtonResultFor(r: ButtonResultRow, user: UserId, number: int, exercise: string, setNumber: int) {
    r.user == user && r.number == number && r.exercise == exercise && r.setNumber == setNumber
  }

  /** `get_last_button_workout_weight`: as `get_last_weight`, within one workout number. */
  function LastButtonWeightOf(rows: seq<ButtonResultRow>, user: UserId, number: int, exercise: string, setNumber: int): (w: Option<real>)
    ensures w.None? <==> forall i | 0 <= i < |rows| :: !ButtonResultFor(rows[i], user, number, exercise, setNumber)
    ensures w.Some? ==> exists i | 0 <= i < |rows| ::
              ButtonResultFor(rows[i], user, number, exercise, setNumber) && rows[i].weight == w.value
              && forall j | 0 <= j < |rows| && ButtonResultFor(rows[j], user, number, exercise, setNumber) :: rows[j].date <= rows[i].date
  {
    match Latest(rows, (r: ButtonResultRow) => ButtonResultFor(r, user, number, exercise, setNumber), (r: ButtonResultRow) => r.date)
    case None => None
    case Some(r) => Some(r.weight)
  }

  /** After a save with the newest time stamp, that set reads the saved weight. */
  lemma {:induction false} SaveButtonResultThenLast(rows: seq<ButtonResultRow>, row: ButtonResultRow, user: UserId, number: int, exercise: string, setNumber: int)
    requires forall i | 0 <= i < |rows| :: rows[i].date <= row.date
    ensures LastButtonWeightOf(rows + [row], user, number, exercise, setNumber)
            == if ButtonResultFor(row, user, number, exercise, setNumber) then Some(row.weight)
               else LastButtonWeightOf(rows, user, number, exercise, setNumber)
  {
    var m := (r: ButtonResultRow) => ButtonResultFor(r, user, number, exercise, setNumber);
    var dt := (r: ButtonResultRow) => r.date;
    if m(row) {
      LatestAfterSave(rows, row, m, dt);
    } else {
      LatestAfterOther(rows, row, m, dt);
    }
  }
}
