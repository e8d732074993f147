/** Workouts built from buttons: the creation flow (exercise lines filtered
    and parsed, a preview, then confirm) and the guided session over a
    saved workout, whose cursor is an exercise index plus a 0-based index
    into that exercise's list of planned sets. */
module ButtonWorkouts {
  import opened Wrappers
  import opened Text
  import opened Dicts
  import opened Store

  datatype ButtonSession = ButtonSession(number: int, name: string, exercises: seq<ButtonExercise>, currentEx: nat, currentSet: nat)

  /** A workout being created: `workout_creation_sessions[user]`. */
  datatype Draft = Draft(number: int, name: string, exercises: seq<ButtonExercise>)

  datatype ButtonOutcome = Deferred | Ignored | NoPreviousWeight | Saved(weight: real)

  // --------------------------------------------------------- the cursor

  predicate AllSetsNonEmpty(exs: seq<ButtonExercise>) {
    forall k | 0 <= k < |exs| :: exs[k].sets != []
  }

  /** Between the increment and the check of `ask_for_button_workout_weight`:
      the set index may sit one past the end of its list. */
  predicate Pending(s: ButtonSession) {
    AllSetsNonEmpty(s.exercises) && s.currentEx < |s.exercises|
    && s.currentSet <= |s.exercises[s.currentEx].sets|
  }

  /** At rest between messages: the cursor names a planned set. */
  predicate Ready(s: ButtonSession) {
    Pending(s) && s.currentSet < |s.exercises[s.currentEx].sets|
  }

  predicate AllReady(sessions: map<UserId, ButtonSession>) {
    forall u | u in sessions :: Ready(sessions[u])
  }

  function CurrentSpec(s: ButtonSession): SetSpec
    requires Ready(s)
  {
    s.exercises[s.currentEx].sets[s.currentSet]
  }

  /** The advance in `ask_for_button_workout_weight`: past the last set, go
      to the first set of the next exercise, or end the session (`None`).
      At most one exercise boundary is crossed. */
  function Settle(s: ButtonSession): (r: Option<ButtonSession>)
    requires Pending(s)
    ensures r.Some? ==> Ready(r.value)
    ensures r.Some? ==> r.value.number == s.number && r.value.name == s.name && r.value.exercises == s.exercises
    ensures r.Some? ==> r.value == s || (r.value.currentEx == s.currentEx + 1 && r.value.currentSet == 0)
    ensures Ready(s) ==> r == Some(s)
    ensures r.None? <==> s.currentSet == |s.exercises[s.currentEx].sets| && s.currentEx == |s.exercises| - 1
  {
    if s.currentSet >= |s.exercises[s.currentEx].sets| then
      if s.currentEx + 1 >= |s.exercises| then None
      else Some(s.(currentEx := s.currentEx + 1, currentSet := 0))
    else Some(s)
  }

  /** A recorded set: `current_set += 1`, then the advance. */
  function Step(s: ButtonSession): (r: Option<ButtonSession>)
    requires Ready(s)
    ensures r.Some? ==> Ready(r.value)
    ensures r.Some? ==> r.value.currentEx > s.currentEx
                        || (r.value.currentEx == s.currentEx && r.value.currentSet == s.currentSet + 1)
  {
    Settle(s.(currentSet := s.currentSet + 1))
  }

  function TotalPlanned(exs: seq<ButtonExercise>): nat {
    if exs == [] then 0 else |exs[0].sets| + TotalPlanned(exs[1..])
  }

  /** The sets still to record, the current one included. */
  function Left(s: ButtonSession): nat
    requires Ready(s)
  {
    |s.exercises[s.currentEx].sets| - s.currentSet + TotalPlanned(s.exercises[s.currentEx + 1..])
  }

  lemma {:induction false} TotalPlannedAt(exs: seq<ButtonExercise>, k: nat)
    requires k < |exs|
    ensures TotalPlanned(exs[k..]) == |exs[k].sets| + TotalPlanned(exs[k + 1..])
  {
    assert exs[k..][1..] == exs[k + 1..];
  }

  /** Every record takes one off the count; the last one ends the session. */
  lemma {:induction false} StepLeft(s: ButtonSession)
    requires Ready(s)
    ensures Step(s).None? <==> Left(s) == 1
    ensures Step(s).Some? ==> Left(Step(s).value) == Left(s) - 1
  {
    if s.currentEx + 1 < |s.exercises| {
      TotalPlannedAt(s.exercises, s.currentEx + 1);
    } else {
      assert s.exercises[s.currentEx + 1..] == [];
    }
  }

  /** The cursor `select_workout` stores. */
  function Started(number: int, name: string, exs: seq<ButtonExercise>): (s: ButtonSession)
    requires exs != [] && AllSetsNonEmpty(exs)
    ensures Ready(s) && Left(s) == TotalPlanned(exs)
  {
    assert exs[1..] == exs[0 + 1..];
    ButtonSession(number, name, exs, 0, 0)
  }

  /** The cursor after `n` records, or `None` once the session has ended. */
  function Steps(s: ButtonSession, n: nat): (r: Option<ButtonSession>)
    requires Ready(s)
    ensures r.Some? ==> Ready(r.value)
    decreases n
  {
    if n == 0 then Some(s)
    else match Step(s)
         case None => None
         case Some(t) => Steps(t, n - 1)
  }

  /** Exactly `Left(s)` records end the session. */
  lemma {:induction false} StepsToEnd(s: ButtonSession, n: nat)
    requires Ready(s) && Left(s) == n
    ensures Steps(s, n - 1).Some?
    ensures Step(Steps(s, n - 1).value).None?
    decreases n
  {
    StepLeft(s);
    if n > 1 {
      var t := Step(s).value;
      StepsToEnd(t, n - 1);
    }
  }

  /** A selected workout ends after exactly as many records as it has
      planned sets. */
  lemma {:induction false} WorkoutLength(number: int, name: string, exs: seq<ButtonExercise>)
    requires exs != [] && AllSetsNonEmpty(exs)
    ensures Steps(Started(number, name, exs), TotalPlanned(exs) - 1).Some?
    ensures Step(Steps(Started(number, name, exs), TotalPlanned(exs) - 1).value).None?
  {
    StepsToEnd(Started(number, name, exs), TotalPlanned(exs));
  }

  /** Every exercise a stored workout gives back has at least one set. */
  lemma {:induction false} StoredSetsNonEmpty(rows: seq<ExerciseRow>, user: UserId, number: int)
    ensures AllSetsNonEmpty(ExercisesOf(rows, user, number))
  {
    ExercisesOfOrdered(rows, user, number);
  }

  function AfterStep(sessions: map<UserId, ButtonSession>, user: UserId): (r: map<UserId, ButtonSession>)
    requires AllReady(sessions)
    ensures AllReady(r)
  {
    if user !in sessions then sessions
    else match Step(sessions[user])
         case None => sessions - {user}
         case Some(t) => sessions[user := t]
  }

  /** The weight offered for the cursor's set: the last one stored for
      (user, workout number, exercise, set number); `0.0` counts as none. */
  function SuggestedFor(results: seq<ButtonResultRow>, user: UserId, s: ButtonSession): (w: Option<real>)
    requires Ready(s)
    ensures w.Some? ==> w.value != 0.0 && exists i | 0 <= i < |results| ::
              ButtonResultFor(results[i], user, s.number, s.exercises[s.currentEx].exercise, CurrentSpec(s).setNumber)
              && results[i].weight == w.value
    ensures w.None? <==> LastButtonWeightOf(results, user, s.number, s.exercises[s.currentEx].exercise, CurrentSpec(s).setNumber) in {None, Some(0.0)}
  {
    match LastButtonWeightOf(results, user, s.number, s.exercises[s.currentEx].exercise, CurrentSpec(s).setNumber)
    case Some(w) => if w != 0.0 then Some(w) else None
    case None => None
  }

  /** `process_button_workout_weight`'s decision. */
  function WeightOutcome(sessions: map<UserId, ButtonSession>, user: UserId, weight: Option<real>): (o: ButtonOutcome)
    ensures o.Saved? <==> user in sessions && weight.Some? && weight.value > 0.0
    ensures o.Saved? ==> o.weight == weight.value
  {
    if user !in sessions || weight.None? || weight.value <= 0.0 then Ignored else Saved(weight.value)
  }

  /** `confirm_button_workout_weight`'s decision: without a button session
      the callback is left to the guided-session handler. */
  function ConfirmOutcome(sessions: map<UserId, ButtonSession>, results: seq<ButtonResultRow>, user: UserId): ButtonOutcome
    requires AllReady(sessions)
  {
    if user !in sessions then Deferred
    else match SuggestedFor(results, user, sessions[user])
         case None => NoPreviousWeight
         case Some(w) => Saved(w)
  }

  /** Whatever the path, only a positive weight is saved once every stored
      weight is positive. */
  lemma {:induction false} ConfirmSavesPositive(sessions: map<UserId, ButtonSession>, results: seq<ButtonResultRow>, user: UserId)
    requires AllReady(sessions)
    requires forall i | 0 <= i < |results| :: results[i].weight > 0.0
    ensures ConfirmOutcome(sessions, results, user).Saved? ==> ConfirmOutcome(sessions, results, user).weight > 0.0
  {
    if ConfirmOutcome(sessions, results, user).Saved? {
      var w := SuggestedFor(results, user, sessions[user]);
      var i :| 0 <= i < |results| && results[i].weight == w.value;
    }
  }

  /** The name `select_workout` shows: the first listed workout with that
      number, else "Тренировка N". */
  function WorkoutName(ws: seq<WorkoutRow>, number: int): (r: string)
    ensures (exists i | 0 <= i < |ws| :: ws[i].number == number)
            ==> (exists i | 0 <= i < |ws| :: ws[i].number == number && ws[i].name == r
                   && forall j | 0 <= j < i :: ws[j].number != number)
    ensures (forall i | 0 <= i < |ws| :: ws[i].number != number) ==> r == "Тренировка " + IntToString(number)
  {
    if ws == [] then "Тренировка " + IntToString(number)
    else if ws[0].number == number then ws[0].name
    else
      var r := WorkoutName(ws[1..], number);
      assert forall i | 1 <= i < |ws| :: ws[i] == ws[1..][i - 1];
      r
  }

  // -------------------------------------------------- the creation flow

  const DayCodes: seq<string> := ["ПН", "ВТ", "СР", "ЧТ", "ПТ", "СБ", "ВС"]

  /** The upper-cased line contains a weekday abbreviation anywhere. */
  predicate MentionsDay(line: string) {
    exists k | 0 <= k < |DayCodes| :: Contains(Upper(line), DayCodes[k])
  }

  /** Whether `process_exercises` hands a stripped line to the parser. */
  predicate Keeps(line: string) {
    line != [] && !MentionsDay(line)
  }

  /** The exercises `process_exercises` collects from `lines`, where
      `parse` stands for `parse_exercise_with_reps`. */
  function Collected(lines: seq<string>, parse: string -> Option<ButtonExercise>): seq<ButtonExercise> {
    if lines == [] then []
    else
      var l := Strip(lines[|lines| - 1]);
      Collected(lines[..|lines| - 1], parse) + (if Keeps(l) && parse(l).Some? then [parse(l).value] else [])
  }

  /** `e` is what `parse` makes of some kept line of `lines`. */
  predicate ParsedFrom(lines: seq<string>, parse: string -> Option<ButtonExercise>, e: ButtonExercise) {
    exists i | 0 <= i < |lines| :: Keeps(Strip(lines[i])) && parse(Strip(lines[i])) == Some(e)
  }

  /** Every collected exercise is the parse of a kept line. */
  lemma {:induction false} CollectedFrom(lines: seq<string>, parse: string -> Option<ButtonExercise>)
    ensures forall e | e in Collected(lines, parse) :: ParsedFrom(lines, parse, e)
  {
    if lines != [] {
      var init := lines[..|lines| - 1];
      CollectedFrom(init, parse);
      var l := Strip(lines[|lines| - 1]);
      forall e | e in Collected(lines, parse)
        ensures ParsedFrom(lines, parse, e)
      {
        if e in Collected(init, parse) {
          assert ParsedFrom(init, parse, e);
          var i :| 0 <= i < |init| && Keeps(Strip(init[i])) && parse(Strip(init[i])) == Some(e);
          assert lines[i] == init[i];
        } else {
          assert Keeps(l) && parse(l) == Some(e);
          assert lines[|lines| - 1] == lines[|lines| - 1];
        }
      }
    }
  }

  lemma {:induction false} CollectedConcat(a: seq<string>, b: seq<string>, parse: string -> Option<ButtonExercise>)
    ensures Collected(a + b, parse) == Collected(a, parse) + Collected(b, parse)
    decreases |b|
  {
    if b == [] {
      assert a + b == a;
    } else {
      assert (a + b)[..|a + b| - 1] == a + b[..|b| - 1];
      CollectedConcat(a, b[..|b| - 1], parse);
    }
  }

  /** A blank line, or one mentioning a weekday, adds nothing wherever it stands. */
  lemma {:induction false} SkippedLine(a: seq<string>, line: string, b: seq<string>, parse: string -> Option<ButtonExercise>)
    requires !Keeps(Strip(line))
    ensures Collected(a + [line] + b, parse) == Collected(a + b, parse)
  {
    CollectedConcat(a + [line], b, parse);
    assert (a + [line])[..|a + [line]| - 1] == a;
    assert (a + [line])[|a + [line]| - 1] == line;
    assert Collected(a + [line], parse) == Collected(a, parse);
    CollectedConcat(a, b, parse);
  }

  /** The check is a substring test on the whole upper-cased line, so an
      exercise whose name merely contains such a pair is dropped too. */
  lemma {:induction false} StandingCalfRaiseDropped(line: string)
    requires line == "Вставание на носки — 3х15"
    ensures MentionsDay(line) && !Keeps(Strip(line))
  {
    assert line[0] == 'В' && line[1] == 'с' && line[|line| - 1] == '5';
    StripId(line);
    OpensWithDay(line, 6);
  }

  /** A line whose first two letters, upper-cased, are a weekday code mentions that day. */
  lemma {:induction false} OpensWithDay(line: string, j: nat)
    requires j < |DayCodes| && |line| >= 2
    requires UpperChar(line[0]) == DayCodes[j][0] && UpperChar(line[1]) == DayCodes[j][1]
    ensures MentionsDay(line)
  {
    var u := Upper(line);
    assert |DayCodes[j]| == 2;
    assert u[..2] == DayCodes[j];
    assert Contains(u, DayCodes[j]);
  }

  function Lines(text: string): seq<string> {
    Split(Strip(text), {'\n'})
  }

  /** The set line of the preview; `if reps:` treats no reps and 0 alike. */
  function SetLine(spec: SetSpec): string {
    if spec.reps.Some? && spec.reps.value != 0
    then IntToString(spec.setNumber) + " подход " + IntToString(spec.reps.value) + " раз\n"
    else IntToString(spec.setNumber) + " подход\n"
  }

  function SetLines(sets: seq<SetSpec>): string {
    if sets == [] then [] else SetLines(sets[..|sets| - 1]) + SetLine(sets[|sets| - 1])
  }

  function Block(e: ButtonExercise): string {
    e.exercise + "\n" + SetLines(e.sets) + "\n"
  }

  function Blocks(exs: seq<ButtonExercise>): string {
    if exs == [] then [] else Blocks(exs[..|exs| - 1]) + Block(exs[|exs| - 1])
  }

  const PreviewLead: string := "Ваша тренировка - "

  function Header(name: string): string {
    PreviewLead + name + "\n\n"
  }

  /** `format_button_workout_preview`. */
  function Preview(name: string, exs: seq<ButtonExercise>): string {
    Header(name) + Blocks(exs)
  }

  /** Lines of the preview: two for the header, then per exercise its name,
      one per set and a blank one. */
  function PreviewLines(exs: seq<ButtonExercise>): nat {
    if exs == [] then 0 else PreviewLines(exs[..|exs| - 1]) + |exs[|exs| - 1].sets| + 2
  }

  lemma {:induction false} NoBreak(s: string)
    requires forall k | 0 <= k < |s| :: s[k] != '\n'
    ensures SepCount(s, {'\n'}) == 0
  {
    SepCountNone(s, {'\n'});
  }

  lemma {:induction false} IntToStringNoNewline(n: int)
    ensures SepCount(IntToString(n), {'\n'}) == 0
  {
    if n < 0 {
      SepCountConcat("-", NatDigits(-n), {'\n'});
      SepCountDigits(NatDigits(-n), {'\n'});
    } else {
      SepCountDigits(NatDigits(n), {'\n'});
    }
  }

  lemma {:induction false} SetLineCount(spec: SetSpec)
    ensures SepCount(SetLine(spec), {'\n'}) == 1
  {
    IntToStringNoNewline(spec.setNumber);
    if spec.reps.Some? && spec.reps.value != 0 {
      IntToStringNoNewline(spec.reps.value);
      RepsLineCount(IntToString(spec.setNumber), IntToString(spec.reps.value));
    } else {
      BareLineCount(IntToString(spec.setNumber));
    }
  }

  /** `a подход b раз` ends in the only line break. */
  lemma {:induction false} RepsLineCount(a: string, b: string)
    requires SepCount(a, {'\n'}) == 0 && SepCount(b, {'\n'}) == 0
    ensures SepCount(a + " подход " + b + " раз\n", {'\n'}) == 1
  {
    SetsWordCount();
    RepsWordCount();
    SepCountConcat(a, " подход ", {'\n'});
    SepCountConcat(a + " подход ", b, {'\n'});
    SepCountConcat(a + " подход " + b, " раз\n", {'\n'});
  }

  /** `a подход` ends in the only line break. */
  lemma {:induction false} BareLineCount(a: string)
    requires SepCount(a, {'\n'}) == 0
    ensures SepCount(a + " подход\n", {'\n'}) == 1
  {
    BareWordCount();
    SepCountConcat(a, " подход\n", {'\n'});
  }

  /** The fixed words of a set line: only the last one ends the line. */
  lemma {:induction false} SetsWordCount()
    ensures SepCount(" подход ", {'\n'}) == 0
  {
  }

  lemma {:induction false} RepsWordCount()
    ensures SepCount(" раз\n", {'\n'}) == 1
  {
  }

  lemma {:induction false} BareWordCount()
    ensures SepCount(" подход\n", {'\n'}) == 1
  {
  }

  lemma {:induction false} SetLinesCount(sets: seq<SetSpec>)
    ensures SepCount(SetLines(sets), {'\n'}) == |sets|
  {
    if sets != [] {
      SetLinesCount(sets[..|sets| - 1]);
      SetLineCount(sets[|sets| - 1]);
      SepCountConcat(SetLines(sets[..|sets| - 1]), SetLine(sets[|sets| - 1]), {'\n'});
    }
  }

  lemma {:induction false} BlocksCount(exs: seq<ButtonExercise>)
    requires forall k | 0 <= k < |exs| :: SepCount(exs[k].exercise, {'\n'}) == 0
    ensures SepCount(Blocks(exs), {'\n'}) == PreviewLines(exs)
  {
    if exs != [] {
      var init, e := exs[..|exs| - 1], exs[|exs| - 1];
      BlocksCount(init);
      SetLinesCount(e.sets);
      SepCountConcat(e.exercise, "\n", {'\n'});
      SepCountConcat(e.exercise + "\n", SetLines(e.sets), {'\n'});
      SepCountConcat(e.exercise + "\n" + SetLines(e.sets), "\n", {'\n'});
      SepCountConcat(Blocks(init), Block(e), {'\n'});
    }
  }

  lemma {:induction false} LeadChars()
    ensures forall k | 0 <= k < |PreviewLead| :: PreviewLead[k] !in {'\n'}
  {
  }

  lemma {:induction false} LeadCount()
    ensures SepCount(PreviewLead, {'\n'}) == 0
  {
    LeadChars();
    SepCountNone(PreviewLead, {'\n'});
  }

  lemma {:induction false} HeaderCount(name: string)
    requires SepCount(name, {'\n'}) == 0
    ensures SepCount(Header(name), {'\n'}) == 2
  {
    LeadCount();
    SepCountConcat(PreviewLead, name, {'\n'});
    assert SepCount("\n\n", {'\n'}) == 2;
    SepCountConcat(PreviewLead + name, "\n\n", {'\n'});
  }

  /** With no line break inside the names, the preview has exactly
      `2 + Σ (sets + 2)` line breaks. */
  lemma {:induction false} PreviewLineCount(name: string, exs: seq<ButtonExercise>)
    requires SepCount(name, {'\n'}) == 0
    requires forall k | 0 <= k < |exs| :: SepCount(exs[k].exercise, {'\n'}) == 0
    ensures SepCount(Preview(name, exs), {'\n'}) == 2 + PreviewLines(exs)
  {
    HeaderCount(name);
    SepCountConcat(Header(name), Blocks(exs), {'\n'});
    BlocksCount(exs);
  }

  lemma {:induction false} BlocksSnocAppend(xs: seq<ButtonExercise>, ys: seq<ButtonExercise>)
    requires ys != []
    ensures Blocks(xs + ys) == Blocks(xs + ys[..|ys| - 1]) + Block(ys[|ys| - 1])
  {
    var ws := xs + ys;
    assert ws[..|ws| - 1] == xs + ys[..|ys| - 1] && ws[|ws| - 1] == ys[|ys| - 1];
    BlocksSnoc(ws);
  }

  lemma {:induction false} BlocksSnoc(xs: seq<ButtonExercise>)
    requires xs != []
    ensures Blocks(xs) == Blocks(xs[..|xs| - 1]) + Block(xs[|xs| - 1])
  {
  }

  lemma {:induction false} SetLinesSnocAppend(xs: seq<SetSpec>, ys: seq<SetSpec>)
    requires ys != []
    ensures SetLines(xs + ys) == SetLines(xs + ys[..|ys| - 1]) + SetLine(ys[|ys| - 1])
  {
    var ws := xs + ys;
    assert ws[..|ws| - 1] == xs + ys[..|ys| - 1] && ws[|ws| - 1] == ys[|ys| - 1];
    SetLinesSnoc(ws);
  }

  lemma {:induction false} SetLinesSnoc(xs: seq<SetSpec>)
    requires xs != []
    ensures SetLines(xs) == SetLines(xs[..|xs| - 1]) + SetLine(xs[|xs| - 1])
  {
  }

  lemma {:induction false} BlocksConcatStep(xs: seq<ButtonExercise>, ys: seq<ButtonExercise>)
    requires ys != []
    requires Blocks(xs + ys[..|ys| - 1]) == Blocks(xs) + Blocks(ys[..|ys| - 1])
    ensures Blocks(xs + ys) == Blocks(xs) + Blocks(ys)
  {
    BlocksSnocAppend(xs, ys);
    BlocksSnoc(ys);
    ConcatAssoc(Blocks(xs), Blocks(ys[..|ys| - 1]), Block(ys[|ys| - 1]));
  }

  lemma {:induction false} BlocksConcat(xs: seq<ButtonExercise>, ys: seq<ButtonExercise>)
    ensures Blocks(xs + ys) == Blocks(xs) + Blocks(ys)
    decreases |ys|
  {
    if ys == [] {
      assert xs + ys == xs;
    } else {
      BlocksConcat(xs, ys[..|ys| - 1]);
      BlocksConcatStep(xs, ys);
    }
  }


  lemma {:induction false} SetLinesConcatStep(xs: seq<SetSpec>, ys: seq<SetSpec>)
    requires ys != []
    requires SetLines(xs + ys[..|ys| - 1]) == SetLines(xs) + SetLines(ys[..|ys| - 1])
    ensures SetLines(xs + ys) == SetLines(xs) + SetLines(ys)
  {
    SetLinesSnocAppend(xs, ys);
    SetLinesSnoc(ys);
    ConcatAssoc(SetLines(xs), SetLines(ys[..|ys| - 1]), SetLine(ys[|ys| - 1]));
  }

  lemma {:induction false} SetLinesConcat(xs: seq<SetSpec>, ys: seq<SetSpec>)
    ensures SetLines(xs + ys) == SetLines(xs) + SetLines(ys)
    decreases |ys|
  {
    if ys == [] {
      assert xs + ys == xs;
    } else {
      SetLinesConcat(xs, ys[..|ys| - 1]);
      SetLinesConcatStep(xs, ys);
    }
  }


  /** The preview is the header followed by every exercise's section in
      order: the i-th section is its name on a line, its set lines and a
      blank line. */
  lemma {:induction false} PreviewSection(name: string, exs: seq<ButtonExercise>, i: nat)
    requires i < |exs|
    ensures Preview(name, exs)
            == PreviewLead + name + "\n\n" + Blocks(exs[..i])
               + (exs[i].exercise + "\n" + SetLines(exs[i].sets) + "\n") + Blocks(exs[i + 1..])
  {
    BlocksSection(exs, i);
  }

  lemma {:induction false} BlocksSection(exs: seq<ButtonExercise>, i: nat)
    requires i < |exs|
    ensures Blocks(exs) == Blocks(exs[..i]) + Block(exs[i]) + Blocks(exs[i + 1..])
  {
    assert exs == exs[..i] + [exs[i]] + exs[i + 1..];
    BlocksConcat(exs[..i] + [exs[i]], exs[i + 1..]);
    BlocksConcat(exs[..i], [exs[i]]);
    assert Blocks([exs[i]]) == Block(exs[i]) by {
      assert [exs[i]][..0] == [];
    }
  }

  /** The set lines of an exercise are its sets' lines in order. */
  lemma {:induction false} SetLinesSection(sets: seq<SetSpec>, j: nat)
    requires j < |sets|
    ensures SetLines(sets) == SetLines(sets[..j]) + SetLine(sets[j]) + SetLines(sets[j + 1..])
  {
    assert sets == sets[..j] + [sets[j]] + sets[j + 1..];
    SetLinesConcat(sets[..j] + [sets[j]], sets[j + 1..]);
    SetLinesConcat(sets[..j], [sets[j]]);
    assert SetLines([sets[j]]) == SetLine(sets[j]) by {
      assert [sets[j]][..0] == [];
    }
  }

  /** The filtering loop of `process_exercises`. */
  method CollectExercises(text: string, parse: string -> Option<ButtonExercise>) returns (exercises: seq<ButtonExercise>)
    ensures exercises == Collected(Lines(text), parse)
  {
    var lines := Lines(text);
    exercises := CollectLines(lines, parse);
  }

  /** The loop over the lines of the message. */
  method CollectLines(lines: seq<string>, parse: string -> Option<ButtonExercise>) returns (exercises: seq<ButtonExercise>)
    ensures exercises == Collected(lines, parse)
  {
    exercises := [];
    for i := 0 to |lines|
      invariant exercises == Collected(lines[..i], parse)
    {
      var line := Strip(lines[i]);
      assert lines[..i + 1][..i] == lines[..i];
      if Keeps(line) {
        var parsed := parse(line);
        if parsed.Some? {
          exercises := exercises + [parsed.value];
        }
      }
    }
    assert lines[..|lines|] == lines;
  }

  /** The inner loop of `format_button_workout_preview`: one line per set. */
  method FormatSets(sets: seq<SetSpec>) returns (text: string)
    ensures text == SetLines(sets)
  {
    text := "";
    for j := 0 to |sets|
      invariant text == SetLines(sets[..j])
    {
      var spec := sets[j];
      var line;
      if spec.reps.Some? && spec.reps.value != 0 {
        line := IntToString(spec.setNumber) + " подход " + IntToString(spec.reps.value) + " раз\n";
      } else {
        line := IntToString(spec.setNumber) + " подход\n";
      }
      assert sets[..j + 1][..j] == sets[..j];
      text := text + line;
    }
    assert sets[..|sets|] == sets;
  }

  /** One exercise of the preview: its name, its set lines, a blank line. */
  method FormatBlock(e: ButtonExercise) returns (block: string)
    ensures block == Block(e)
  {
    var lines := FormatSets(e.sets);
    block := e.exercise + "\n" + lines + "\n";
  }

  lemma {:induction false} BlocksStep(exs: seq<ButtonExercise>, i: nat)
    requires i < |exs|
    ensures Blocks(exs[..i + 1]) == Blocks(exs[..i]) + Block(exs[i])
  {
    assert exs[..i + 1][..i] == exs[..i];
  }

  /** `format_button_workout_preview`'s outer loop. */
  method FormatPreview(name: string, exercises: seq<ButtonExercise>) returns (text: string)
    ensures text == Preview(name, exercises)
  {
    var body := [];
    assert exercises[..0] == [];
    for i := 0 to |exercises|
      invariant body == Blocks(exercises[..i])
    {
      var block := FormatBlock(exercises[i]);
      BlocksStep(exercises, i);
      body := body + block;
    }
    assert exercises[..|exercises|] == exercises;
    text := Header(name) + body;
  }

  // ----------------------------------------------------------- the engine

  class ButtonEngine {
    /** `button_training_sessions`. */
    var sessions: map<UserId, ButtonSession>
    /** `workout_creation_sessions`. */
    var drafts: map<UserId, Draft>
    const db: Database

    predicate Valid()
      reads this, db
    {
      AllReady(sessions) && db.Valid()
    }

    constructor (db: Database)
      requires db.Valid()
      ensures this.db == db && sessions == map[] && drafts == map[] && Valid()
    {
      this.db := db;
      sessions, drafts := map[], map[];
    }

    /** `process_exercises`: with nothing collected the draft is left alone
        and no preview is made; otherwise the draft is stored and previewed. */
    method ProcessExercises(user: UserId, number: int, name: string, text: string, parse: string -> Option<ButtonExercise>)
      returns (preview: Option<string>)
      modifies this
      ensures sessions == old(sessions)
      ensures Collected(Lines(text), parse) == [] ==> preview == None && drafts == old(drafts)
      ensures Collected(Lines(text), parse) != [] ==>
                preview == Some(Preview(name, Collected(Lines(text), parse)))
                && drafts == old(drafts)[user := Draft(number, name, Collected(Lines(text), parse))]
    {
      var exercises := CollectExercises(text, parse);
      if exercises != [] {
        var shown := FormatPreview(name, exercises);
        assert sessions == old(sessions) && drafts == old(drafts);
        preview := Some(shown);
        drafts := drafts[user := Draft(number, name, exercises)];
      } else {
        preview := None;
      }
    }

    /** `confirm_workout`: without a draft nothing is saved; otherwise the
        draft is saved and then removed. */
    method ConfirmWorkout(user: UserId) returns (saved: bool)
      requires Valid()
      modifies this, db
      ensures Valid()
      ensures saved <==> user in old(drafts)
      ensures sessions == old(sessions) && drafts == old(drafts) - {user}
      ensures !saved ==> db.buttonWorkouts == old(db.buttonWorkouts) && db.buttonExercises == old(db.buttonExercises)
      ensures saved ==> var d := old(drafts[user]);
              db.buttonWorkouts == ReplaceWorkout(old(db.buttonWorkouts), user, d.number, d.name)
              && db.buttonExercises == OutsideWorkout(old(db.buttonExercises), user, d.number) + ExerciseRowsOf(user, d.number, d.exercises)
      ensures db.buttonResults == old(db.buttonResults) && db.results == old(db.results)
      ensures db.users == old(db.users) && db.programs == old(db.programs)
    {
      if user !in drafts {
        return false;
      }
      var d := drafts[user];
      db.SaveButtonWorkout(user, d.number, d.name, d.exercises);
      drafts := drafts - {user};
      saved := true;
    }

    /** `select_workout`: a workout without stored exercises starts nothing. */
    method SelectWorkout(user: UserId, number: int) returns (found: bool)
      requires Valid()
      modifies this
      ensures Valid() && drafts == old(drafts)
      ensures found <==> ExercisesOf(db.buttonExercises, user, number) != []
      ensures found ==> AllSetsNonEmpty(ExercisesOf(db.buttonExercises, user, number))
      ensures found ==> sessions == old(sessions)[user := Started(number, WorkoutName(WorkoutsOf(db.buttonWorkouts, user), number),
                                                           ExercisesOf(db.buttonExercises, user, number))]
      ensures !found ==> sessions == old(sessions)
    {
      var exercises := db.GetButtonWorkoutExercises(user, number);
      if exercises != [] {
        StoredSetsNonEmpty(db.buttonExercises, user, number);
        var name := WorkoutName(db.ButtonWorkouts(user), number);
        assert name == WorkoutName(WorkoutsOf(db.buttonWorkouts, user), number);
        sessions := sessions[user := Started(number, name, exercises)];
        found := true;
      } else {
        found := false;
      }
    }

    /** Save `weight` for the cursor's set, then step. */
    method Record(user: UserId, weight: real, now: nat)
      requires Valid() && user in sessions
      modifies this, db
      ensures Valid() && drafts == old(drafts)
      ensures var s := old(sessions[user]);
              db.buttonResults == old(db.buttonResults)
                + [ButtonResultRow(user, s.number, s.exercises[s.currentEx].exercise, CurrentSpec(s).setNumber, weight, now)]
      ensures sessions == AfterStep(old(sessions), user)
      ensures db.results == old(db.results) && db.buttonExercises == old(db.buttonExercises)
      ensures db.users == old(db.users) && db.programs == old(db.programs) && db.buttonWorkouts == old(db.buttonWorkouts)
    {
      var s := sessions[user];
      db.SaveButtonWorkoutResult(user, s.number, s.exercises[s.currentEx].exercise, CurrentSpec(s).setNumber, weight, now);
      var next := Step(s);
      if next.None? {
        sessions := sessions - {user};
      } else {
        sessions := sessions[user := next.value];
      }
    }

    /** `process_button_workout_weight`; `weight` is `None` for text that is
        not a number. */
    method ProcessWeight(user: UserId, weight: Option<real>, now: nat) returns (outcome: ButtonOutcome)
      requires Valid()
      modifies this, db
      ensures Valid() && drafts == old(drafts)
      ensures outcome == WeightOutcome(old(sessions), user, weight)
      ensures outcome.Saved? ==> var s := old(sessions[user]);
              db.buttonResults == old(db.buttonResults)
                + [ButtonResultRow(user, s.number, s.exercises[s.currentEx].exercise, CurrentSpec(s).setNumber, outcome.weight, now)]
              && sessions == AfterStep(old(sessions), user)
      ensures !outcome.Saved? ==> sessions == old(sessions) && db.buttonResults == old(db.buttonResults)
      ensures db.results == old(db.results) && db.users == old(db.users) && db.programs == old(db.programs)
      ensures db.buttonWorkouts == old(db.buttonWorkouts) && db.buttonExercises == old(db.buttonExercises)
    {
      outcome := WeightOutcome(sessions, user, weight);
      if outcome.Saved? {
        Record(user, outcome.weight, now);
      }
    }

    /** `confirm_button_workout_weight`. */
    method ConfirmWeight(user: UserId, now: nat) returns (outcome: ButtonOutcome)
      requires Valid()
      modifies this, db
      ensures Valid() && drafts == old(drafts)
      ensures outcome == ConfirmOutcome(old(sessions), old(db.buttonResults), user)
      ensures outcome.Saved? ==> var s := old(sessions[user]);
              db.buttonResults == old(db.buttonResults)
                + [ButtonResultRow(user, s.number, s.exercises[s.currentEx].exercise, CurrentSpec(s).setNumber, outcome.weight, now)]
              && sessions == AfterStep(old(sessions), user)
      ensures !outcome.Saved? ==> sessions == old(sessions) && db.buttonResults == old(db.buttonResults)
      ensures db.results == old(db.results) && db.users == old(db.users) && db.programs == old(db.programs)
      ensures db.buttonWorkouts == old(db.buttonWorkouts) && db.buttonExercises == old(db.buttonExercises)
    {
      outcome := ConfirmOutcome(sessions, db.buttonResults, user);
      if outcome.Saved? {
        Record(user, outcome.weight, now);
      }
    }

    /** `end_button_workout_callback`. */
    method End(user: UserId)
      requires Valid()
      modifies this
      ensures Valid() && drafts == old(drafts)
      ensures sessions == old(sessions) - {user}
    {
      if user in sessions {
        sessions := sessions - {user};
      }
    }
  }
}
