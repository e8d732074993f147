/** The strict program parser: `;`- or newline-separated day blocks of the form
    `ДЕНЬ: упражнение 3x10, упражнение 4`, where anything that does not fit
    the format is an error naming the offending block or item. */
module StrictParser {
  import opened Wrappers
  import opened Text
  import opened Dicts
  import opened Schedule

  /** The four `ValueError`s the parser raises. */
  datatype StrictError =
    | NoDay(block: string)       // no `ДЕНЬ:` at the start of a block
    | UnknownDay(word: string)   // the upper-cased word is not a day
    | BadExercise(item: string)  // an item fits neither exercise format
    | Empty                      // nothing at all was parsed

  /** `re.match(r'^([А-ЯЁ]+):', block, re.IGNORECASE)`: the length of the
      letter group when the block opens with letters and a colon. */
  function DayHeader(b: string): (r: Option<nat>)
    ensures r.Some? ==> 1 <= r.value < |b| && b[r.value] == ':'
    ensures r.Some? ==> forall k | 0 <= k < r.value :: IsDayLetter(b[k])
    ensures r.None? ==> LetterRunEnd(b, 0) == 0 || LetterRunEnd(b, 0) == |b| || b[LetterRunEnd(b, 0)] != ':'
  {
    var n := LetterRunEnd(b, 0);
    if n >= 1 && n < |b| && b[n] == ':' then Some(n) else None
  }

  /** `(\d+|макс|МАКС|max|MAX)$`: the repetitions part. */
  predicate IsRepsWord(t: string) {
    (t != [] && AllDigits(t)) || t == "макс" || t == "МАКС" || t == "max" || t == "MAX"
  }

  /** `\s+(\d+)x(\d+|макс|МАКС|max|MAX)$` matches from position `k`: the blanks
      and the digits are each maximal runs, since nothing shorter can be
      followed by what comes next. */
  predicate SetsRepsAt(e: string, k: nat) {
    k < |e| && IsSpace(e[k]) &&
    var p := SpaceRunEnd(e, k);
    var q := DigitRunEnd(e, p);
    p < q < |e| && e[q] == 'x' && IsRepsWord(e[q + 1..])
  }

  /** `\s+(\d+)$` matches from position `k`. */
  predicate SetsAt(e: string, k: nat) {
    k < |e| && IsSpace(e[k]) &&
    var p := SpaceRunEnd(e, k);
    p < DigitRunEnd(e, p) == |e|
  }

  /** The lazy group `^(.+?)` followed by `tail`: the shortest non-empty,
      newline-free prefix (of length `k` or more) after which `tail` matches. */
  function LazyName(e: string, k: nat, tail: (string, nat) -> bool): (r: Option<nat>)
    requires 1 <= k
    ensures r.Some? ==> k <= r.value < |e| && tail(e, r.value)
    ensures r.Some? ==> forall i | k <= i < r.value :: !tail(e, i)
    ensures r.Some? ==> forall i | k - 1 <= i < r.value :: e[i] != '\n'
    decreases |e| - k
  {
    if k >= |e| || e[k - 1] == '\n' then None
    else if tail(e, k) then Some(k)
    else LazyName(e, k + 1, tail)
  }

  /** `int(match.group(2))`: the digit run after the blanks at `k`. */
  function CountAt(e: string, k: nat): nat
    requires k <= |e|
  {
    var p := SpaceRunEnd(e, k);
    DigitsValue(e[p..DigitRunEnd(e, p)])
  }

  /** One exercise item: first `название NxM`, then `название N`; the name
      is the lazy group, stripped, and the set count the digits after it. */
  function StrictExercise(e: string): (r: Option<Exercise>)
    ensures r.Some? ==> r.value.sets >= 0 && IsStripped(r.value.name)
    ensures r.Some? && e != [] && !IsSpace(e[0]) ==> r.value.name != []
  {
    match LazyName(e, 1, SetsRepsAt)
    case Some(k) => Some(Exercise(Strip(e[..k]), CountAt(e, k)))
    case None =>
      match LazyName(e, 1, SetsAt)
      case Some(k) => Some(Exercise(Strip(e[..k]), CountAt(e, k)))
      case None => None
  }

  /** The repetitions part never holds a blank. */
  lemma {:induction false} SpaceNotReps(t: string, i: nat)
    requires i < |t| && IsSpace(t[i])
    ensures !IsRepsWord(t)
  {
  }

  /** The lazy search stops at the first position where the tail matches. */
  lemma {:induction false} LazyNameAt(e: string, k: nat, tail: (string, nat) -> bool, j: nat)
    requires 1 <= k <= j < |e| && tail(e, j)
    requires forall i | k <= i < j :: !tail(e, i)
    requires forall i | k - 1 <= i < j :: e[i] != '\n'
    ensures LazyName(e, k, tail) == Some(j)
    decreases j - k
  {
    if k < j {
      LazyNameAt(e, k + 1, tail, j);
    }
  }

  lemma {:induction false} LazyNameNone(e: string, k: nat, tail: (string, nat) -> bool)
    requires 1 <= k
    requires forall i | k <= i < |e| :: !tail(e, i)
    ensures LazyName(e, k, tail) == None
    decreases |e| - k
  {
    if k < |e| {
      LazyNameNone(e, k + 1, tail);
    }
  }

  /** Before the last blank that follows a name ending in a non-blank, neither
      exercise format can start: the blanks there stop before the name's end,
      so the digits after them can be followed by neither `x` and a blank-free
      tail nor the end of the item. */
  lemma {:induction false} NoTailBefore(e: string, a: nat, k: nat)
    requires 0 < a < |e| && !IsSpace(e[a - 1]) && IsSpace(e[a]) && k < a
    ensures !SetsRepsAt(e, k) && !SetsAt(e, k)
  {
    if IsSpace(e[k]) {
      var p := SpaceRunEnd(e, k);
      assert p < a;
      var q := DigitRunEnd(e, p);
      assert q <= a;
      if q < a {
        assert e[q + 1..][a - q - 1] == e[a];
        SpaceNotReps(e[q + 1..], a - q - 1);
      }
    }
  }

  /** An item made of a name, one blank, digits, `x` and a repetitions part
      parses to that name and the digits' value. */
  lemma {:induction false} SetsRepsDecomposed(e: string, a: nat, q: nat)
    requires 0 < a && a + 1 < q < |e|
    requires IsStripped(e[..a]) && forall i | 0 <= i < a :: e[i] != '\n'
    requires e[a] == ' ' && AllDigits(e[a + 1..q]) && e[q] == 'x' && IsRepsWord(e[q + 1..])
    ensures StrictExercise(e) == Some(Exercise(e[..a], DigitsValue(e[a + 1..q])))
  {
    SetsRepsMatchAt(e, a, q);
    SetsRepsNotBefore(e, a);
    LazyNameAt(e, 1, SetsRepsAt, a);
    StripId(e[..a]);
  }

  /** The `NxM` pattern matches at the blank after the name, with the count
      read from the digits before `x`. */
  lemma {:induction false} SetsRepsMatchAt(e: string, a: nat, q: nat)
    requires 0 < a && a + 1 < q < |e|
    requires e[a] == ' ' && AllDigits(e[a + 1..q]) && e[q] == 'x' && IsRepsWord(e[q + 1..])
    ensures SetsRepsAt(e, a) && CountAt(e, a) == DigitsValue(e[a + 1..q])
  {
    assert e[a + 1..q][0] == e[a + 1];
    SpaceRunEndAt(e, a, a + 1);
    assert forall i | a + 1 <= i < q :: e[a + 1..q][i - a - 1] == e[i];
    DigitRunEndAt(e, a + 1, q);
  }

  /** Inside a stripped name the `NxM` pattern cannot start. */
  lemma {:induction false} SetsRepsNotBefore(e: string, a: nat)
    requires 0 < a < |e| && IsStripped(e[..a]) && e[a] == ' '
    ensures forall k | 1 <= k < a :: !SetsRepsAt(e, k)
  {
    assert e[..a][a - 1] == e[a - 1];
    forall k | 1 <= k < a
      ensures !SetsRepsAt(e, k)
    {
      NoTailBefore(e, a, k);
    }
  }

  /** An item made of a name, one blank and digits parses to that name and
      the digits' value. */
  lemma {:induction false} SetsDecomposed(e: string, a: nat)
    requires 0 < a && a + 1 < |e|
    requires IsStripped(e[..a]) && forall i | 0 <= i < a :: e[i] != '\n'
    requires e[a] == ' ' && AllDigits(e[a + 1..])
    ensures StrictExercise(e) == Some(Exercise(e[..a], DigitsValue(e[a + 1..])))
  {
    assert e[..a][a - 1] == e[a - 1];
    assert e[a + 1..][0] == e[a + 1];
    SpaceRunEndAt(e, a, a + 1);
    assert forall i | a + 1 <= i < |e| :: e[a + 1..][i - a - 1] == e[i];
    DigitRunEndAt(e, a + 1, |e|);
    assert SetsAt(e, a);
    forall k | 1 <= k < |e|
      ensures !SetsRepsAt(e, k)
    {
      if k < a {
        NoTailBefore(e, a, k);
      } else if k > a {
        assert IsDigit(e[k]);
      }
    }
    LazyNameNone(e, 1, SetsRepsAt);
    forall k | 1 <= k < a
      ensures !SetsAt(e, k)
    {
      NoTailBefore(e, a, k);
    }
    LazyNameAt(e, 1, SetsAt, a);
    assert e[a + 1..|e|] == e[a + 1..];
    StripId(e[..a]);
  }

  /** The parts of `name N x reps`, at their places. */
  lemma {:induction false} RoundTripShape(name: string, d: string, reps: string)
    requires name != [] && d != []
    ensures var e := name + " " + d + "x" + reps;
            var a := |name|;
            var q := a + 1 + |d|;
            a + 1 < q < |e| && e[..a] == name && e[a] == ' ' && e[a + 1..q] == d && e[q] == 'x' && e[q + 1..] == reps
  {
    var e := name + " " + d + "x" + reps;
    var a := |name|;
    var q := a + 1 + |d|;
    assert e[..a] == name;
    assert e[a + 1..q] == d;
    assert e[q + 1..] == reps;
  }

  /** `name D x reps` parses to the name and the value of the digits D. */
  lemma {:induction false} NameSetsReps(name: string, d: string, reps: string)
    requires name != [] && IsStripped(name) && forall i | 0 <= i < |name| :: name[i] != '\n'
    requires d != [] && AllDigits(d) && IsRepsWord(reps)
    ensures StrictExercise(name + " " + d + "x" + reps) == Some(Exercise(name, DigitsValue(d)))
  {
    var e := name + " " + d + "x" + reps;
    var a := |name|;
    var q := a + 1 + |d|;
    RoundTripShape(name, d, reps);
    assert e[..a] == name && e[a + 1..q] == d;
    assert forall i | 0 <= i < a :: e[i] == e[..a][i];
    SetsRepsDecomposed(e, a, q);
  }

  /** Writing an exercise as `название NxM` and parsing it gives back the
      name and the set count N, whatever the repetitions part. */
  lemma {:induction false} StrictExerciseRoundTrip(name: string, n: nat, reps: string)
    requires name != [] && IsStripped(name) && forall i | 0 <= i < |name| :: name[i] != '\n'
    requires IsRepsWord(reps)
    ensures StrictExercise(name + " " + NatDigits(n) + "x" + reps) == Some(Exercise(name, n))
  {
    NameSetsReps(name, NatDigits(n), reps);
    NatDigitsRoundTrip(n);
  }

  /** Writing an exercise as `название N` and parsing it gives back the name
      and N. */
  lemma {:induction false} StrictExerciseSetsOnly(name: string, n: nat)
    requires name != [] && IsStripped(name) && forall i | 0 <= i < |name| :: name[i] != '\n'
    ensures StrictExercise(name + " " + NatDigits(n)) == Some(Exercise(name, n))
  {
    var e := name + " " + NatDigits(n);
    var a := |name|;
    assert e[..a] == name;
    assert e[a + 1..] == NatDigits(n);
    SetsDecomposed(e, a);
    NatDigitsRoundTrip(n);
  }

  /** The times sign must be the Latin `x`: "жим 3х10" with the Cyrillic `х`
      fits neither format. */
  lemma {:induction false} StrictExerciseCyrillicTimes(e: string)
    requires e == "жим 3х10"
    ensures StrictExercise(e) == None
  {
    SpaceRunEndAt(e, 3, 4);
    DigitRunEndAt(e, 4, 5);
    forall k | 1 <= k < |e|
      ensures !SetsRepsAt(e, k) && !SetsAt(e, k)
    {
    }
    LazyNameNone(e, 1, SetsRepsAt);
    LazyNameNone(e, 1, SetsAt);
  }

  /** The items of a block, parsed by `parse` in order after those already in
      `acc`; the first item that `parse` rejects is the error. */
  function ItemsFrom(parse: string -> Option<Exercise>, acc: seq<Exercise>, items: seq<string>)
    : Result<seq<Exercise>, StrictError>
    decreases |items|
  {
    if items == [] then Ok(acc)
    else match parse(items[0])
      case None => Err(BadExercise(items[0]))
      case Some(x) => ItemsFrom(parse, acc + [x], items[1..])
  }

  /** One block: blank blocks are skipped (`Ok(None)`); otherwise the block
      must open with a known day and a colon, and every comma-separated item
      after it must parse. */
  function BlockParse(raw: string): Result<Option<(string, seq<Exercise>)>, StrictError> {
    var b := Strip(raw);
    if b == [] then Ok(None)
    else match DayHeader(b)
      case None => Err(NoDay(b))
      case Some(n) =>
        var word := Upper(b[..n]);
        match LookupDay(word)
        case None => Err(UnknownDay(word))
        case Some(d) =>
          match ItemsFrom(StrictExercise, [], Pieces(Strip(b[n + 1..])))
          case Err(e) => Err(e)
          case Ok(xs) => Ok(Some((d, xs)))
  }

  /** A day block assigns its day in `p`; a blank block leaves `p` as it is. */
  function BlockStep(p: Program, raw: string): Result<Program, StrictError> {
    match BlockParse(raw)
    case Err(e) => Err(e)
    case Ok(None) => Ok(p)
    case Ok(Some((d, xs))) => Ok(Put(p, d, xs))
  }

  /** The blocks in order, stopping at the first error. */
  function BlocksFrom(p: Program, blocks: seq<string>): Result<Program, StrictError>
    decreases |blocks|
  {
    if blocks == [] then Ok(p)
    else match BlockStep(p, blocks[0])
      case Err(e) => Err(e)
      case Ok(q) => BlocksFrom(q, blocks[1..])
  }

  /** `re.split(r'[;\n]', text)`. */
  function Blocks(text: string): seq<string> {
    Split(text, {';', '\n'})
  }

  /** `parse_program`: the blocks in order; an empty result is an error too. */
  function StrictParse(text: string): Result<Program, StrictError> {
    match BlocksFrom([], Blocks(text))
    case Err(e) => Err(e)
    case Ok(p) => if p == [] then Err(Empty) else Ok(p)
  }

  /** `parse_program` as the loop over blocks it is, with an exit at the first
      error. */
  method ParseProgram(text: string) returns (r: Result<Program, StrictError>)
    ensures r == StrictParse(text)
  {
    var program: Program := [];
    var blocks := Blocks(text);
    for i := 0 to |blocks|
      invariant BlocksFrom(program, blocks[i..]) == BlocksFrom([], blocks)
    {
      assert blocks[i..][0] == blocks[i] && blocks[i..][1..] == blocks[i + 1..];
      var step := ApplyBlock(program, blocks[i]);
      if step.Err? {
        return Err(step.error);
      }
      program := step.value;
    }
    assert blocks[|blocks|..] == [];
    if program == [] {
      return Err(Empty);
    }
    return Ok(program);
  }

  /** The body of the block loop: skip a blank block, raise on a missing or
      unknown day, otherwise fill the day. */
  method ApplyBlock(program: Program, raw: string) returns (r: Result<Program, StrictError>)
    ensures r == BlockStep(program, raw)
  {
    var block := Strip(raw);
    if block == [] {
      return Ok(program);
    }
    var header := DayHeader(block);
    if header.None? {
      return Err(NoDay(block));
    }
    var n := header.value;
    var word := Upper(block[..n]);
    var day := LookupDay(word);
    if day.None? {
      return Err(UnknownDay(word));
    }
    BlockStepDay(program, raw, n, day.value);
    r := FillDay(program, day.value, Pieces(Strip(block[n + 1..])));
  }

  /** A block with a known day header sets that day to its parsed items. */
  lemma {:induction false} BlockStepDay(p: Program, raw: string, n: nat, d: string)
    requires Strip(raw) != [] && DayHeader(Strip(raw)) == Some(n)
    requires LookupDay(Upper(Strip(raw)[..n])) == Some(d)
    ensures BlockStep(p, raw) == (match ItemsFrom(StrictExercise, [], Pieces(Strip(Strip(raw)[n + 1..])))
                                  case Err(e) => Err(e)
                                  case Ok(xs) => Ok(Put(p, d, xs)))
  {
    var b := Strip(raw);
    var items := ItemsFrom(StrictExercise, [], Pieces(Strip(b[n + 1..])));
    assert BlockParse(raw) == (match items
                               case Err(e) => Err(e)
                               case Ok(xs) => Ok(Some((d, xs))));
  }

  /** `program[day_full] = []` followed by one `append` per parsed item. */
  method FillDay(before: Program, day: string, items: seq<string>) returns (r: Result<Program, StrictError>)
    ensures ItemsFrom(StrictExercise, [], items).Err? ==> r == Err(ItemsFrom(StrictExercise, [], items).error)
    ensures ItemsFrom(StrictExercise, [], items).Ok? ==> r == Ok(Put(before, day, ItemsFrom(StrictExercise, [], items).value))
  {
    var program := Put(before, day, []);
    ghost var acc: seq<Exercise> := [];
    for j := 0 to |items|
      invariant program == Put(before, day, acc)
      invariant ItemsFrom(StrictExercise, acc, items[j..]) == ItemsFrom(StrictExercise, [], items)
    {
      assert items[j..][0] == items[j] && items[j..][1..] == items[j + 1..];
      var x := StrictExercise(items[j]);
      if x.None? {
        return Err(BadExercise(items[j]));
      }
      PutGet(before, day, acc, day);
      PutPut(before, day, acc, acc + [x.value]);
      program := Put(program, day, Get(program, day).value + [x.value]);
      acc := acc + [x.value];
    }
    assert items[|items|..] == [];
    return Ok(program);
  }

  /** The items parse exactly when `parse` accepts every one of them; the
      result is then `acc` followed by each item's exercise, in order. */
  lemma {:induction false} ItemsFromOk(parse: string -> Option<Exercise>, acc: seq<Exercise>, items: seq<string>)
    ensures ItemsFrom(parse, acc, items).Ok? <==> forall i | 0 <= i < |items| :: parse(items[i]).Some?
    ensures ItemsFrom(parse, acc, items).Ok? ==>
              var xs := ItemsFrom(parse, acc, items).value;
              |xs| == |acc| + |items| && xs[..|acc|] == acc
              && forall i | 0 <= i < |items| :: xs[|acc| + i] == parse(items[i]).value
    decreases |items|
  {
    if items != [] {
      var x := parse(items[0]);
      if x.Some? {
        ItemsFromOk(parse, acc + [x.value], items[1..]);
        assert forall i | 1 <= i < |items| :: items[1..][i - 1] == items[i];
        if ItemsFrom(parse, acc, items).Ok? {
          var xs := ItemsFrom(parse, acc, items).value;
          assert xs[..|acc| + 1][..|acc|] == xs[..|acc|];
        }
      }
    }
  }

  /** The error is the first item that `parse` rejects. */
  lemma {:induction false} ItemsFromFirstError(parse: string -> Option<Exercise>, acc: seq<Exercise>, items: seq<string>, i: nat)
    requires i < |items| && parse(items[i]).None?
    requires forall j | 0 <= j < i :: parse(items[j]).Some?
    ensures ItemsFrom(parse, acc, items) == Err(BadExercise(items[i]))
    decreases i
  {
    if i > 0 {
      assert forall j | 0 <= j < i - 1 :: items[1..][j] == items[j + 1];
      ItemsFromFirstError(parse, acc + [parse(items[0]).value], items[1..], i - 1);
    }
  }

  /** A block that names a day: what it holds. */
  predicate DayBlock(raw: string) {
    BlockParse(raw).Ok? && BlockParse(raw).value.Some?
  }

  /** Parsed non-blank, stripped items give one named exercise each. */
  lemma {:induction false} ItemsNamed(items: seq<string>, xs: seq<Exercise>)
    requires forall i | 0 <= i < |items| :: items[i] != [] && IsStripped(items[i])
    requires ItemsFrom(StrictExercise, [], items) == Ok(xs)
    ensures |xs| == |items|
    ensures forall i | 0 <= i < |items| ::
              StrictExercise(items[i]).Some? && xs[i] == StrictExercise(items[i]).value && xs[i].name != []
  {
    ItemsFromOk(StrictExercise, [], items);
    forall i | 0 <= i < |items|
      ensures StrictExercise(items[i]).Some? && xs[i] == StrictExercise(items[i]).value && xs[i].name != []
    {
      var e := items[i];
      assert StrictExercise(e).Some?;
      assert xs[i] == StrictExercise(e).value;
    }
  }

  /** What a day block is made of: the upper-cased header word names the
      canonical day `d`, and the items after the colon parse to `xs` (which
      `ItemsNamed` describes item by item). */
  lemma {:induction false} BlockParseParts(raw: string, d: string, xs: seq<Exercise>)
    requires BlockParse(raw) == Ok(Some((d, xs)))
    ensures Strip(raw) != [] && DayHeader(Strip(raw)).Some?
    ensures var b := Strip(raw);
            var n := DayHeader(b).value;
            Upper(b[..n]) in DayMapping && d == DayMapping[Upper(b[..n])] && d in Weekdays
            && ItemsFrom(StrictExercise, [], Pieces(Strip(b[n + 1..]))) == Ok(xs)
  {
  }

  /** The blocks parse exactly when every one of them does. */
  lemma {:induction false} BlocksFromOk(p: Program, blocks: seq<string>)
    ensures BlocksFrom(p, blocks).Ok? <==> forall i | 0 <= i < |blocks| :: BlockParse(blocks[i]).Ok?
    decreases |blocks|
  {
    if blocks != [] {
      assert forall i | 1 <= i < |blocks| :: blocks[1..][i - 1] == blocks[i];
      if BlockStep(p, blocks[0]).Ok? {
        BlocksFromOk(BlockStep(p, blocks[0]).value, blocks[1..]);
      }
    }
  }

  /** The error is that of the first block that does not parse. */
  lemma {:induction false} BlocksFromFirstError(p: Program, blocks: seq<string>, i: nat)
    requires i < |blocks| && BlockParse(blocks[i]).Err?
    requires forall j | 0 <= j < i :: BlockParse(blocks[j]).Ok?
    ensures BlocksFrom(p, blocks) == Err(BlockParse(blocks[i]).error)
    decreases i
  {
    if i > 0 {
      assert forall j | 0 <= j < i - 1 :: blocks[1..][j] == blocks[j + 1];
      BlocksFromFirstError(BlockStep(p, blocks[0]).value, blocks[1..], i - 1);
    }
  }

  predicate NoDayBlock(blocks: seq<string>) {
    forall i | 0 <= i < |blocks| :: !DayBlock(blocks[i])
  }

  /** Parsed blocks keep the keys canonical and distinct, and leave the
      program empty only when it was empty and no block named a day. */
  lemma {:induction false} BlocksFromShape(p: Program, blocks: seq<string>)
    requires CanonicalKeys(p) && DistinctKeys(p)
    requires BlocksFrom(p, blocks).Ok?
    ensures CanonicalKeys(BlocksFrom(p, blocks).value) && DistinctKeys(BlocksFrom(p, blocks).value)
    ensures BlocksFrom(p, blocks).value == [] <==> p == [] && NoDayBlock(blocks)
    decreases |blocks|
  {
    if blocks != [] {
      var q := BlockStep(p, blocks[0]).value;
      BlockStepShape(p, blocks[0]);
      BlocksFromShape(q, blocks[1..]);
      assert NoDayBlock(blocks) <==> !DayBlock(blocks[0]) && NoDayBlock(blocks[1..]) by {
        assert forall i | 1 <= i < |blocks| :: blocks[1..][i - 1] == blocks[i];
      }
    }
  }

  /** One block keeps the keys canonical and distinct, and leaves the program
      empty only when it was empty and the block named no day. */
  lemma {:induction false} BlockStepShape(p: Program, b: string)
    requires CanonicalKeys(p) && DistinctKeys(p)
    requires BlockStep(p, b).Ok?
    ensures CanonicalKeys(BlockStep(p, b).value) && DistinctKeys(BlockStep(p, b).value)
    ensures BlockStep(p, b).value == [] <==> p == [] && !DayBlock(b)
  {
    if DayBlock(b) {
      var (d, xs) := BlockParse(b).value.value;
      PutCanonical(p, d, xs);
      PutDistinct(p, d, xs);
    }
  }

  /** The exercises of the last block that names `d`, if any. */
  function LastFor(blocks: seq<string>, d: string): Option<seq<Exercise>>
    decreases |blocks|
  {
    if blocks == [] then None
    else
      var b := blocks[|blocks| - 1];
      if DayBlock(b) && BlockParse(b).value.value.0 == d then Some(BlockParse(b).value.value.1)
      else LastFor(blocks[..|blocks| - 1], d)
  }

  /** Parsing one more block is parsing the others, then that block. */
  lemma {:induction false} BlocksFromSnoc(p: Program, blocks: seq<string>, b: string)
    ensures BlocksFrom(p, blocks + [b])
            == match BlocksFrom(p, blocks)
               case Err(e) => Err(e)
               case Ok(q) => BlockStep(q, b)
    decreases |blocks|
  {
    if blocks == [] {
      assert BlocksFrom(p, [b]) == match BlockStep(p, b) case Err(e) => Err(e) case Ok(q) => BlocksFrom(q, []);
    } else {
      assert (blocks + [b])[0] == blocks[0] && (blocks + [b])[1..] == blocks[1..] + [b];
      if BlockStep(p, blocks[0]).Ok? {
        BlocksFromSnoc(BlockStep(p, blocks[0]).value, blocks[1..], b);
      }
    }
  }

  /** A day repeated in several blocks keeps the exercises of its last block:
      `program[day_full] = []` replaces, it does not extend. */
  lemma {:induction false} BlocksFromGet(p: Program, blocks: seq<string>, d: string)
    requires BlocksFrom(p, blocks).Ok?
    ensures Get(BlocksFrom(p, blocks).value, d)
            == if LastFor(blocks, d).Some? then LastFor(blocks, d) else Get(p, d)
    decreases |blocks|
  {
    if blocks != [] {
      var init := blocks[..|blocks| - 1];
      var b := blocks[|blocks| - 1];
      assert blocks == init + [b];
      BlocksFromSnoc(p, init, b);
      BlocksFromGet(p, init, d);
      var q := BlocksFrom(p, init).value;
      if DayBlock(b) {
        var (d', xs) := BlockParse(b).value.value;
        PutGet(q, d', xs, d);
      }
    }
  }

  /** `parse_program` succeeds exactly when every block parses and at least
      one names a day; the result then has canonical, distinct days, each
      holding the exercises of the last block that names it. */
  lemma {:induction false} StrictParseSpec(text: string)
    ensures var blocks := Blocks(text);
            StrictParse(text).Ok?
            <==> (forall i | 0 <= i < |blocks| :: BlockParse(blocks[i]).Ok?) && !NoDayBlock(blocks)
    ensures StrictParse(text).Ok? ==>
              var p := StrictParse(text).value;
              p != [] && CanonicalKeys(p) && DistinctKeys(p)
              && forall d :: Get(p, d) == LastFor(Blocks(text), d)
  {
    var blocks := Blocks(text);
    BlocksFromOk([], blocks);
    if BlocksFrom([], blocks).Ok? {
      BlocksFromShape([], blocks);
      forall d
        ensures Get(BlocksFrom([], blocks).value, d) == LastFor(blocks, d)
      {
        BlocksFromGet([], blocks, d);
      }
    }
  }

  /** On failure the error is that of the first block that does not parse,
      or `Empty` when every block parses but none names a day. */
  lemma {:induction false} StrictParseError(text: string, i: nat)
    requires i < |Blocks(text)| && BlockParse(Blocks(text)[i]).Err?
    requires forall j | 0 <= j < i :: BlockParse(Blocks(text)[j]).Ok?
    ensures StrictParse(text) == Err(BlockParse(Blocks(text)[i]).error)
  {
    BlocksFromFirstError([], Blocks(text), i);
  }

  /** An item of the documented example, "жим лёжа 3x10": three sets. */
  lemma {:induction false} StrictExerciseBench(e: string, name: string)
    requires e == "жим лёжа 3x10" && name == "жим лёжа"
    ensures StrictExercise(e) == Some(Exercise(name, 3))
  {
    assert e == name + " " + "3" + "x" + "10";
    assert IsStripped(name) && forall i | 0 <= i < |name| :: name[i] != '\n';
    assert AllDigits("10");
    NameSetsReps(name, "3", "10");
    assert DigitsValue("3") == 3;
  }

  /** Another, "подтягивания 3xмакс": three sets of as many as possible. */
  lemma {:induction false} StrictExercisePullUps(e: string, name: string)
    requires e == "подтягивания 3xмакс" && name == "подтягивания"
    ensures StrictExercise(e) == Some(Exercise(name, 3))
  {
    assert e == name + " " + "3" + "x" + "макс";
    assert IsStripped(name) && forall i | 0 <= i < |name| :: name[i] != '\n';
    NameSetsReps(name, "3", "макс");
    assert DigitsValue("3") == 3;
  }

  /** A one-block text that opens with something other than a Cyrillic
      letter is reported whole as the block without a day. */
  lemma {:induction false} StrictParseNoLetter(text: string)
    requires text != [] && IsStripped(text) && !IsDayLetter(text[0])
    requires forall k | 0 <= k < |text| :: text[k] != ';' && text[k] != '\n'
    ensures StrictParse(text) == Err(NoDay(text))
  {
    SplitNone(text, {';', '\n'});
    StripId(text);
    LetterRunEndAt(text, 0, 0);
    StrictParseError(text, 0);
  }

  lemma {:induction false} HelloShape(text: string)
    requires text == "hello"
    ensures text != [] && IsStripped(text) && !IsDayLetter(text[0])
    ensures forall k | 0 <= k < |text| :: text[k] != ';' && text[k] != '\n'
  {
  }

  /** A block with no `ДЕНЬ:` is reported with its text. */
  lemma {:induction false} StrictParseNoDay(text: string)
    requires text == "hello"
    ensures StrictParse(text) == Err(NoDay("hello"))
  {
    HelloShape(text);
    StrictParseNoLetter(text);
  }

  /** A block with a known day header, opened up. */
  lemma {:induction false} BlockParseDay(b: string, n: nat, d: string, xs: seq<Exercise>)
    requires b != [] && Strip(b) == b
    requires DayHeader(b) == Some(n)
    requires LookupDay(Upper(b[..n])) == Some(d)
    requires ItemsFrom(StrictExercise, [], Pieces(Strip(b[n + 1..]))) == Ok(xs)
    ensures BlockParse(b) == Ok(Some((d, xs)))
  {
  }

  /** "ПН:" is a Monday header with nothing after it. */
  lemma {:induction false} MondayHeaderShape(text: string)
    requires text == "ПН:"
    ensures text != [] && Strip(text) == text && DayHeader(text) == Some(2)
    ensures LookupDay(Upper(text[..2])) == Some("Понедельник") && text[3..] == []
  {
    StripId(text);
    LetterRunEndAt(text, 0, 2);
    assert text[..2] == "ПН";
    UpperMonday();
    LookupMonday();
  }

  lemma {:induction false} UpperMonday()
    ensures Upper("ПН") == "ПН"
  {
  }

  /** A header with nothing after it has no items. */
  lemma {:induction false} NoItems()
    ensures ItemsFrom(StrictExercise, [], Pieces(Strip([]))) == Ok([])
  {
    SplitNone([], {','});
    assert Pieces([]) == [];
  }

  /** A one-block text that parses to a day gives that day alone. */
  lemma {:induction false} StrictParseOneBlock(text: string, d: string, xs: seq<Exercise>)
    requires forall k | 0 <= k < |text| :: text[k] !in {';', '\n'}
    requires BlockParse(text) == Ok(Some((d, xs)))
    ensures StrictParse(text) == Ok([(d, xs)])
  {
    SplitNone(text, {';', '\n'});
    assert BlocksFrom([], [text]) == BlocksFrom([(d, xs)], []);
  }

  /** A bare "ПН:" is Monday with no exercises. */
  lemma {:induction false} StrictParseHeaderOnly(text: string)
    requires text == "ПН:"
    ensures StrictParse(text) == Ok([("Понедельник", [])])
  {
    MondayHeaderShape(text);
    NoItems();
    BlockParseDay(text, 2, "Понедельник", []);
    assert forall k | 0 <= k < |text| :: text[k] !in {';', '\n'};
    StrictParseOneBlock(text, "Понедельник", []);
  }

  /** The second item of the documented example, "присед 4x8": four sets. */
  lemma {:induction false} StrictExerciseSquat(e: string, name: string)
    requires e == "присед 4x8" && name == "присед"
    ensures StrictExercise(e) == Some(Exercise(name, 4))
  {
    assert e == name + " " + "4" + "x" + "8";
    assert IsStripped(name) && forall i | 0 <= i < |name| :: name[i] != '\n';
    assert AllDigits("8");
    NameSetsReps(name, "4", "8");
    assert DigitsValue("4") == 4;
  }

  /** Two items parse in order. */
  lemma {:induction false} ItemsFromPair(parse: string -> Option<Exercise>, a: string, c: string, x: Exercise, y: Exercise)
    requires parse(a) == Some(x) && parse(c) == Some(y)
    ensures ItemsFrom(parse, [], [a, c]) == Ok([x, y])
  {
    assert [a, c][0] == a && [a, c][1..] == [c] && [c][0] == c && [c][1..] == [];
    assert [] + [x] == [x];
    assert ItemsFrom(parse, [], [a, c]) == ItemsFrom(parse, [] + [x], [a, c][1..]);
    assert ItemsFrom(parse, [x], [c]) == ItemsFrom(parse, [x] + [y], []);
    assert [x] + [y] == [x, y];
  }

  /** A day header `h` (its colon last) followed by a blank and a stripped
      tail keeps its header, and the tail is what follows the colon. */
  lemma {:induction false} HeaderJoin(h: string, rest: string)
    requires h != [] && !IsSpace(h[0]) && DayHeader(h) == Some(|h| - 1)
    requires |rest| >= 2 && rest[0] == ' ' && !IsSpace(rest[|rest| - 1])
    ensures var t := h + rest;
            Strip(t) == t && DayHeader(t) == Some(|h| - 1)
            && t[..|h| - 1] == h[..|h| - 1] && t[|h|..] == rest
  {
    var n := |h| - 1;
    var t := h + rest;
    assert t[0] == h[0] && t[|t| - 1] == rest[|rest| - 1];
    StripId(t);
    assert forall k | 0 <= k <= n :: t[k] == h[k];
    LetterRunEndAt(t, 0, n);
    assert t[..n] == h[..n] && t[n + 1..] == rest;
  }

  /** A block of a day header `h` (its colon last) and items `rest` after a
      blank parses to that day with the items' exercises. */
  lemma {:induction false} HeaderBlock(t: string, h: string, rest: string, d: string, xs: seq<Exercise>)
    requires t == h + rest
    requires h != [] && !IsSpace(h[0]) && DayHeader(h) == Some(|h| - 1)
    requires |rest| >= 2 && rest[0] == ' ' && !IsSpace(rest[|rest| - 1])
    requires LookupDay(Upper(h[..|h| - 1])) == Some(d)
    requires ItemsFrom(StrictExercise, [], Pieces(Strip(rest))) == Ok(xs)
    ensures BlockParse(t) == Ok(Some((d, xs)))
  {
    HeaderJoin(h, rest);
    BlockParseDay(t, |h| - 1, d, xs);
  }

  /** The items ` a, c` parse to the two exercises in order. */
  lemma {:induction false} TwoItems(rest: string, a: string, c: string, x: Exercise, y: Exercise)
    requires rest == " " + (a + ", " + c)
    requires a != [] && IsStripped(a) && c != [] && IsStripped(c)
    requires forall k | 0 <= k < |a| :: a[k] != ','
    requires forall k | 0 <= k < |c| :: c[k] != ','
    requires StrictExercise(a) == Some(x) && StrictExercise(c) == Some(y)
    ensures ItemsFrom(StrictExercise, [], Pieces(Strip(rest))) == Ok([x, y])
  {
    PiecesTwo(a, c);
    ItemsFromPair(StrictExercise, a, c, x, y);
  }

  /** The block `t`, that is `h a, c`, parses to the day of `h` with the two
      exercises. */
  lemma {:induction false} TwoItemBlockParse(t: string, h: string, rest: string, a: string, c: string, d: string, x: Exercise, y: Exercise)
    requires t == h + rest && rest == " " + (a + ", " + c)
    requires h != [] && !IsSpace(h[0]) && DayHeader(h) == Some(|h| - 1)
    requires LookupDay(Upper(h[..|h| - 1])) == Some(d)
    requires a != [] && IsStripped(a) && c != [] && IsStripped(c)
    requires forall k | 0 <= k < |a| :: a[k] != ','
    requires forall k | 0 <= k < |c| :: c[k] != ','
    requires StrictExercise(a) == Some(x) && StrictExercise(c) == Some(y)
    ensures BlockParse(t) == Ok(Some((d, [x, y])))
  {
    assert rest[|rest| - 1] == c[|c| - 1];
    TwoItems(rest, a, c, x, y);
    HeaderBlock(t, h, rest, d, [x, y]);
  }

  /** `h a, c` has no block separator when its parts have none. */
  lemma {:induction false} JoinNoBlockSeps(t: string, h: string, rest: string, a: string, c: string)
    requires t == h + rest && rest == " " + (a + ", " + c)
    requires forall k | 0 <= k < |h| :: h[k] !in {';', '\n'}
    requires forall k | 0 <= k < |a| :: a[k] !in {';', '\n'}
    requires forall k | 0 <= k < |c| :: c[k] !in {';', '\n'}
    ensures forall k | 0 <= k < |t| :: t[k] !in {';', '\n'}
  {
    NoSepsJoin(h, a, c, {';', '\n'});
  }

  /** A text `h a, c` without block separators that parses as a day block
      gives that day alone. */
  lemma {:induction false} JoinedOneBlock(t: string, h: string, rest: string, a: string, c: string, d: string, xs: seq<Exercise>)
    requires t == h + rest && rest == " " + (a + ", " + c)
    requires forall k | 0 <= k < |h| :: h[k] !in {';', '\n'}
    requires forall k | 0 <= k < |a| :: a[k] !in {';', '\n'}
    requires forall k | 0 <= k < |c| :: c[k] !in {';', '\n'}
    requires BlockParse(t) == Ok(Some((d, xs)))
    ensures StrictParse(t) == Ok([(d, xs)])
  {
    JoinNoBlockSeps(t, h, rest, a, c);
    StrictParseOneBlock(t, d, xs);
  }

  /** A one-block text `t` of a day header `h` (its colon last), a blank and
      two comma-separated items gives that day with the two exercises. */
  lemma {:induction false} TwoItemBlock(t: string, h: string, rest: string, a: string, c: string, d: string, x: Exercise, y: Exercise)
    requires t == h + rest && rest == " " + (a + ", " + c)
    requires h != [] && !IsSpace(h[0]) && DayHeader(h) == Some(|h| - 1)
    requires LookupDay(Upper(h[..|h| - 1])) == Some(d)
    requires forall k | 0 <= k < |h| :: h[k] !in {';', '\n'}
    requires a != [] && IsStripped(a) && c != [] && IsStripped(c)
    requires forall k | 0 <= k < |a| :: a[k] !in {';', '\n'}
    requires forall k | 0 <= k < |c| :: c[k] !in {';', '\n'}
    requires forall k | 0 <= k < |a| :: a[k] != ','
    requires forall k | 0 <= k < |c| :: c[k] != ','
    requires StrictExercise(a) == Some(x) && StrictExercise(c) == Some(y)
    ensures StrictParse(t) == Ok([(d, [x, y])])
  {
    TwoItemBlockParse(t, h, rest, a, c, d, x, y);
    JoinedOneBlock(t, h, rest, a, c, d, [x, y]);
  }

  lemma {:induction false} DocExampleWords(a: string, c: string)
    requires a == "жим лёжа 3x10" && c == "присед 4x8"
    ensures forall k | 0 <= k < |a| :: a[k] !in {';', '\n'}
    ensures forall k | 0 <= k < |c| :: c[k] !in {';', '\n'}
    ensures forall k | 0 <= k < |a| :: a[k] != ','
    ensures forall k | 0 <= k < |c| :: c[k] != ','
  {
  }

  lemma {:induction false} DocExampleText(text: string)
    requires text == "ПН: жим лёжа 3x10, присед 4x8"
    ensures text == "ПН:" + (" " + ("жим лёжа 3x10" + ", " + "присед 4x8"))
  {
  }

  /** The first block of the documented example of the strict format:
      Monday, bench press for three sets and squats for four. */
  lemma {:induction false} StrictParseDocExample(text: string)
    requires text == "ПН: жим лёжа 3x10, присед 4x8"
    ensures StrictParse(text) == Ok([("Понедельник", [Exercise("жим лёжа", 3), Exercise("присед", 4)])])
  {
    var h, a, c := "ПН:", "жим лёжа 3x10", "присед 4x8";
    DocExampleText(text);
    MondayHeaderShape(h);
    assert forall k | 0 <= k < |h| :: h[k] !in {';', '\n'};
    DocExampleWords(a, c);
    StrictExerciseBench(a, "жим лёжа");
    StrictExerciseSquat(c, "присед");
    TwoItemBlock(text, h, " " + (a + ", " + c), a, c, "Понедельник", Exercise("жим лёжа", 3), Exercise("присед", 4));
  }
}
