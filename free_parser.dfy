/** The free-text program parser: day headers, exercise lines with several
    separator styles, set counts inferred from "4х10" or "20-16-14-12", and a
    single pass over lines with a fallback over `;`-separated blocks. */
module FreeParser {
  import opened Wrappers
  import opened Text
  import opened Dicts
  import opened Schedule

  // ---------------------------------------------------------------------
  // Day headers

  /** The decoration class `[🔹🔸▪️▫️•]` (the two variation selectors count). */
  predicate IsBullet(c: char) {
    c == '\U{1F539}' || c == '\U{1F538}' || c == '\U{25AA}' || c == '\U{FE0F}'
    || c == '\U{25AB}' || c == '\U{2022}'
  }

  /** `re.sub` of the decoration class: every bullet removed, wherever it is. */
  function RemoveBullets(s: string): (r: string)
    ensures |r| <= |s|
    ensures forall k | 0 <= k < |r| :: !IsBullet(r[k])
  {
    if s == [] then []
    else (if IsBullet(s[0]) then [] else [s[0]]) + RemoveBullets(s[1..])
  }

  /** The separators `[:—\-]` that may follow a day word. */
  predicate IsDaySep(c: char) {
    c == ':' || c == '\U{2014}' || c == '-'
  }

  /** `^([А-ЯЁ]{2,})\s*[:—\-]`: the leading letter run, then blanks, then a separator. */
  predicate DayPatternSep(t: string) {
    var n := LetterRunEnd(t, 0);
    n >= 2 && SpaceRunEnd(t, n) < |t| && IsDaySep(t[SpaceRunEnd(t, n)])
  }

  /** `^([А-ЯЁ]{2,})\s+`. */
  predicate DayPatternSpace(t: string) {
    var n := LetterRunEnd(t, 0);
    n >= 2 && n < |t| && IsSpace(t[n])
  }

  /** `^([А-ЯЁ]{2,})$` on a stripped string: the whole string is the word. */
  predicate DayPatternAlone(t: string) {
    var n := LetterRunEnd(t, 0);
    n >= 2 && n == |t|
  }

  /** The group all three patterns capture: the whole leading letter run. */
  function DayWord(t: string): string {
    t[..LetterRunEnd(t, 0)]
  }

  /** `extract_day_from_text`: the three patterns in order, each followed by
      the upper-cased lookup of its group. */
  function ExtractDay(text: string): (r: Option<string>)
    ensures r.Some? ==> r.value in Weekdays
  {
    var t := Strip(RemoveBullets(text));
    var day := LookupDay(Upper(DayWord(t)));
    if DayPatternSep(t) && day.Some? then day
    else if DayPatternSpace(t) && day.Some? then day
    else if DayPatternAlone(t) && day.Some? then day
    else None
  }

  /** A day is recognised exactly when, after decorations are removed and the
      text stripped, a run of two or more Cyrillic letters leads, ends the
      text or is followed by a blank or `:` `—` `-`, and upper-cases to one of
      the fourteen day words; the result is that word's canonical day. */
  lemma {:induction false} ExtractDayCharacterised(text: string)
    ensures var t := Strip(RemoveBullets(text));
            var n := LetterRunEnd(t, 0);
            ExtractDay(text) ==
              if n >= 2 && (n == |t| || IsSpace(t[n]) || IsDaySep(t[n])) && Upper(t[..n]) in DayMapping
              then Some(DayMapping[Upper(t[..n])])
              else None
  {
    ExtractDayAt(text, Strip(RemoveBullets(text)), LetterRunEnd(Strip(RemoveBullets(text)), 0));
  }

  /** The same, for a caller that has the cleaned text and its letter run at hand. */
  lemma {:induction false} ExtractDayAt(text: string, t: string, n: nat)
    requires t == Strip(RemoveBullets(text)) && n == LetterRunEnd(t, 0)
    ensures ExtractDay(text) ==
              if n >= 2 && (n == |t| || IsSpace(t[n]) || IsDaySep(t[n])) && Upper(t[..n]) in DayMapping
              then Some(DayMapping[Upper(t[..n])])
              else None
  {
  }

  // ---------------------------------------------------------------------
  // Set counts

  /** `re.sub(r'\([^)]*\)', '', s)`: each `(` with a later `)` is removed up to
      and including the first such `)`; a `(` with no `)` after it stays. */
  function StripParens(s: string): (r: string)
    ensures |r| <= |s|
    ensures forall c | c in r :: c in s
    decreases |s|
  {
    if s == [] then []
    else if s[0] == '(' && NextSep(s, 1, {')'}) < |s| then StripParens(s[NextSep(s, 1, {')'}) + 1..])
    else [s[0]] + StripParens(s[1..])
  }

  /** `[хx]` under `re.IGNORECASE`: Latin and Cyrillic x, either case. */
  predicate IsTimesAnyCase(c: char) {
    c == 'x' || c == 'X' || c == '\U{445}' || c == '\U{425}'
  }

  /** `(\d+)\s*[хx]\s*\d+` matches starting at `i`. */
  predicate TimesAt(s: string, i: nat)
    requires i <= |s|
  {
    i < |s| && IsDigit(s[i]) &&
    var m := SpaceRunEnd(s, DigitRunEnd(s, i));
    m < |s| && IsTimesAnyCase(s[m]) && SpaceRunEnd(s, m + 1) < |s| && IsDigit(s[SpaceRunEnd(s, m + 1)])
  }

  /** `re.search` of that pattern from `i`: the leftmost start. */
  function FindTimes(s: string, i: nat): (r: Option<nat>)
    requires i <= |s|
    ensures r.Some? ==> i <= r.value < |s| && TimesAt(s, r.value)
    ensures r.Some? ==> forall k | i <= k < r.value :: !TimesAt(s, k)
    ensures r.None? ==> forall k | i <= k < |s| :: !TimesAt(s, k)
    decreases |s| - i
  {
    if i == |s| then None
    else if TimesAt(s, i) then Some(i)
    else FindTimes(s, i + 1)
  }

  /** `len(re.findall(r'\d+', s[i..]))`: the number of maximal digit runs. */
  function DigitRuns(s: string, i: nat): nat
    requires i <= |s|
    decreases |s| - i
  {
    if i == |s| then 0
    else if IsDigit(s[i]) then 1 + DigitRuns(s, DigitRunEnd(s, i))
    else DigitRuns(s, i + 1)
  }

  /** `re.findall(r'\d+-\d+', s[i..])` is non-empty: some digit, `-`, digit. */
  predicate HasDashPair(s: string, i: nat)
    requires i <= |s|
    decreases |s| - i
  {
    i + 2 < |s| && ((IsDigit(s[i]) && s[i + 1] == '-' && IsDigit(s[i + 2])) || HasDashPair(s, i + 1))
  }

  /** `parse_sets_from_exercise`. */
  function SetsFrom(text: string): (n: int)
    ensures n >= 0
  {
    var s := Strip(StripParens(text));
    match FindTimes(s, 0)
    case Some(i) => DigitsValue(s[i..DigitRunEnd(s, i)])
    case None => if DigitRuns(s, 0) >= 2 && HasDashPair(s, 0) then DigitRuns(s, 0) else 1
  }

  lemma {:induction false} DigitRunsStep(s: string, i: nat)
    requires i < |s|
    ensures DigitRuns(s, i + 1) <= DigitRuns(s, i)
  {
    if IsDigit(s[i]) && i + 1 < |s| && IsDigit(s[i + 1]) {
      assert DigitRunEnd(s, i) == DigitRunEnd(s, i + 1);
    }
  }

  /** A digit-dash-digit pair means at least two digit runs, so the
      `len(ranges) >= 2` test never decides the outcome. */
  lemma {:induction false} DashPairRuns(s: string, i: nat)
    requires i <= |s| && HasDashPair(s, i)
    ensures DigitRuns(s, i) >= 2
    decreases |s| - i
  {
    if IsDigit(s[i]) && s[i + 1] == '-' && IsDigit(s[i + 2]) {
      assert DigitRunEnd(s, i) == i + 1;
      assert DigitRuns(s, i + 1) == DigitRuns(s, i + 2);
    } else {
      DashPairRuns(s, i + 1);
      DigitRunsStep(s, i);
    }
  }

  /** With no `N x M` anywhere, a dash pair makes the count of all digit runs
      (at least two) the number of sets; otherwise there is one set. */
  lemma {:induction false} SetsFromWithoutTimes(text: string)
    requires var s := Strip(StripParens(text)); forall k | 0 <= k <= |s| :: !TimesAt(s, k)
    ensures var s := Strip(StripParens(text));
            SetsFrom(text) == if HasDashPair(s, 0) then DigitRuns(s, 0) else 1
    ensures var s := Strip(StripParens(text)); HasDashPair(s, 0) ==> SetsFrom(text) >= 2
  {
    var s := Strip(StripParens(text));
    if HasDashPair(s, 0) {
      DashPairRuns(s, 0);
    }
  }

  lemma {:induction false} StripParensNone(s: string)
    requires forall k | 0 <= k < |s| :: s[k] != '('
    ensures StripParens(s) == s
  {
    if s != [] {
      StripParensNone(s[1..]);
    }
  }

  lemma {:induction false} NoTimes(s: string)
    requires forall k | 0 <= k < |s| :: !IsTimesAnyCase(s[k])
    ensures FindTimes(s, 0) == None
  {
  }

  lemma {:induction false} NoDigitRuns(s: string, i: nat)
    requires i <= |s|
    requires forall k | i <= k < |s| :: !IsDigit(s[k])
    ensures DigitRuns(s, i) == 0
    decreases |s| - i
  {
    if i < |s| {
      NoDigitRuns(s, i + 1);
    }
  }

  lemma {:induction false} DashExampleRuns(s: string)
    requires s == "20-16-14-12"
    ensures DigitRuns(s, 0) == 4
  {
    DigitRunEndAt(s, 9, 11);
    assert DigitRuns(s, 9) == 1 + DigitRuns(s, 11);
    assert DigitRuns(s, 8) == 1;
    DigitRunEndAt(s, 6, 8);
    assert DigitRuns(s, 6) == 1 + DigitRuns(s, 8);
    assert DigitRuns(s, 5) == 2;
    DigitRunEndAt(s, 3, 5);
    assert DigitRuns(s, 3) == 1 + DigitRuns(s, 5);
    assert DigitRuns(s, 2) == 3;
    DigitRunEndAt(s, 0, 2);
  }

  /** A text with no parenthesis and no blank at either end is inspected as it is. */
  lemma {:induction false} CleanedId(s: string)
    requires forall k | 0 <= k < |s| :: s[k] != '('
    requires IsStripped(s)
    ensures Strip(StripParens(s)) == s
  {
    StripParensNone(s);
    StripId(s);
  }

  /** "20-16-14-12": four numbers joined by dashes, four sets. */
  lemma {:induction false} SetsFromDashes(s: string)
    requires s == "20-16-14-12"
    ensures SetsFrom(s) == 4
  {
    CleanedId(s);
    NoTimes(s);
    DashExampleRuns(s);
    assert HasDashPair(s, 0);
  }

  /** With a cleaned text whose first `N x M` starts at `i`, the count is
      the number written there. */
  lemma {:induction false} SetsFromFirstTimes(s: string, i: nat, e: nat)
    requires Strip(StripParens(s)) == s
    requires FindTimes(s, 0) == Some(i) && i <= e <= |s| && DigitRunEnd(s, i) == e
    ensures SetsFrom(s) == DigitsValue(s[i..e])
  {
  }

  lemma {:induction false} TimesClean(s: string)
    requires s == "4\U{445}10"
    ensures Strip(StripParens(s)) == s
  {
    StripParensNone(s);
    StripId(s);
  }

  lemma {:induction false} TimesFirst(s: string)
    requires s == "4\U{445}10"
    ensures FindTimes(s, 0) == Some(0) && DigitRunEnd(s, 0) == 1
  {
    DigitRunEndAt(s, 0, 1);
    assert SpaceRunEnd(s, 1) == 1;
    assert SpaceRunEnd(s, 2) == 2;
    assert TimesAt(s, 0);
  }

  lemma {:induction false} SetsFromTimes(s: string)
    requires s == "4\U{445}10"
    ensures SetsFrom(s) == 4
  {
    TimesClean(s);
    TimesFirst(s);
    SetsFromFirstTimes(s, 0, 1);
    assert s[0..1] == "4";
    assert DigitsValue("4") == 4 by {
      assert "4"[..0] == "";
    }
  }

  /** Past the last digit, no `N x M` can start. */
  lemma {:induction false} NoTimesWithoutDigits(s: string, i: nat)
    requires i <= |s|
    requires forall k | i <= k < |s| :: !IsDigit(s[k])
    ensures FindTimes(s, i) == None
    decreases |s| - i
  {
    if i < |s| {
      NoTimesWithoutDigits(s, i + 1);
    }
  }

  /** In "3xмакс" the x is followed by letters, so no `N x M` occurs. */
  lemma {:induction false} MaxNoTimes(s: string)
    requires s == "3xмакс"
    ensures FindTimes(s, 0) == None
  {
    DigitRunEndAt(s, 0, 1);
    SpaceRunEndAt(s, 1, 1);
    SpaceRunEndAt(s, 2, 2);
    assert !IsDigit(s[2]);
    assert !TimesAt(s, 0);
    NoTimesWithoutDigits(s, 1);
  }

  /** Without an `N x M` and with at most one number, the count is 1. */
  lemma {:induction false} SetsFromOneRun(s: string)
    requires Strip(StripParens(s)) == s
    requires FindTimes(s, 0) == None && DigitRuns(s, 0) <= 1
    ensures SetsFrom(s) == 1
  {
  }

  lemma {:induction false} MaxClean(s: string)
    requires s == "3xмакс"
    ensures Strip(StripParens(s)) == s
  {
    StripParensNone(s);
    StripId(s);
  }

  lemma {:induction false} MaxRuns(s: string)
    requires s == "3xмакс"
    ensures DigitRuns(s, 0) == 1
  {
    DigitRunEndAt(s, 0, 1);
    NoDigitRuns(s, 1);
  }

  /** "3xмакс" has no digit after the x and a single number: one set. */
  lemma {:induction false} SetsFromMax(s: string)
    requires s == "3xмакс"
    ensures SetsFrom(s) == 1
  {
    MaxClean(s);
    MaxNoTimes(s);
    MaxRuns(s);
    SetsFromOneRun(s);
  }

  // ---------------------------------------------------------------------
  // Exercise lines

  /** `[🔹🔸▪️▫️•\-\s]`, the class stripped from the front of an exercise line. */
  predicate IsLeadJunk(c: char) {
    IsBullet(c) || c == '-' || IsSpace(c)
  }

  /** `re.sub(r'^[🔹🔸▪️▫️•\-\s]+', '', s)`. */
  function LeadStrip(s: string): (r: string)
    ensures r == [] || !IsLeadJunk(r[0])
  {
    s[RunEnd(s, 0, IsLeadJunk)..]
  }

  /** Em dash, en dash and hyphen, in the order they are tried. */
  const Separators: seq<char> := ['\U{2014}', '\U{2013}', '-']

  /** The separator loop over `seps`: the first one that occurs in `l` splits
      it at its first occurrence into a stripped name and description. */
  function SplitAtSeparator(l: string, seps: seq<char>): (r: (string, string))
    ensures IsStripped(l) ==> IsStripped(r.0)
  {
    if seps == [] then (l, [])
    else if seps[0] in l then (Strip(l[..IndexOf(l, seps[0])]), Strip(l[IndexOf(l, seps[0]) + 1..]))
    else SplitAtSeparator(l, seps[1..])
  }

  /** `[хx]` without IGNORECASE: Latin and Cyrillic small x. */
  predicate IsSmallTimes(c: char) {
    c == 'x' || c == '\U{445}'
  }

  /** `\d+[хx]\d+` continues past the digit run ending at `q`. */
  predicate TimesAfter(l: string, q: nat)
    requires q <= |l|
  {
    q + 1 < |l| && IsSmallTimes(l[q]) && IsDigit(l[q + 1])
  }

  /** `\d+-\d+` continues past the digit run ending at `q`. */
  predicate DashAfter(l: string, q: nat)
    requires q <= |l|
  {
    q + 1 < |l| && l[q] == '-' && IsDigit(l[q + 1])
  }

  /** Pattern A's lazy `^(.+?)\s+` can stop at `k`: the name has no newline,
      blanks follow it, and a digit follows them. */
  predicate NameEndsAt(l: string, k: nat)
    requires k <= |l|
  {
    1 <= k < |l| && k <= LineEnd(l, 0) && IsSpace(l[k])
    && SpaceRunEnd(l, k) < |l| && IsDigit(l[SpaceRunEnd(l, k)])
  }

  /** The smallest such `k` at or after `k0`. */
  function FindNameEnd(l: string, k0: nat): (r: Option<nat>)
    requires k0 <= |l|
    ensures r.Some? ==> k0 <= r.value < |l| && NameEndsAt(l, r.value)
    ensures r.Some? ==> forall k | k0 <= k < r.value :: !NameEndsAt(l, k)
    ensures r.None? ==> forall k | k0 <= k <= |l| :: !NameEndsAt(l, k)
    decreases |l| - k0
  {
    if k0 == |l| then None
    else if NameEndsAt(l, k0) then Some(k0)
    else FindNameEnd(l, k0 + 1)
  }

  /** Where `(\d+[хx]\d+|\d+-\d+.*|\d+)` started at the digit `p` ends, its
      alternatives tried in order (`.*` stops at a newline). */
  function NumberEnd(l: string, p: nat): (e: nat)
    requires p < |l| && IsDigit(l[p])
    ensures p < e <= |l|
  {
    var q := DigitRunEnd(l, p);
    if TimesAfter(l, q) then DigitRunEnd(l, q + 1)
    else if DashAfter(l, q) then LineEnd(l, q + 1)
    else q
  }

  /** `re.match(r'^(.+?)\s+(\d+[хx]\d+|\d+-\d+.*|\d+)', l)`: the stripped
      groups. */
  function MatchNameNumber(l: string): (r: Option<(string, string)>)
    ensures r.Some? ==> r.value.1 != []
  {
    if l == [] then None
    else match FindNameEnd(l, 1)
    case None => None
    case Some(k) =>
      var p := SpaceRunEnd(l, k);
      Some((Strip(l[..k]), Strip(l[p..NumberEnd(l, p)])))
  }

  /** The same alternatives at the digit `i`, each followed by `\s*$`: the
      end of the group when one of them reaches the end of `l`. */
  function TrailingNumberEnd(l: string, i: nat): (r: Option<nat>)
    requires i < |l| && IsDigit(l[i])
    ensures r.Some? ==> i < r.value <= |l|
  {
    var q := DigitRunEnd(l, i);
    if TimesAfter(l, q) && AllSpaceFrom(l, DigitRunEnd(l, q + 1)) then Some(DigitRunEnd(l, q + 1))
    else if DashAfter(l, q) && AllSpaceFrom(l, LineEnd(l, q + 1)) then Some(LineEnd(l, q + 1))
    else if AllSpaceFrom(l, q) then Some(q)
    else None
  }

  predicate TrailingAt(l: string, i: nat)
    requires i <= |l|
  {
    i < |l| && IsDigit(l[i]) && TrailingNumberEnd(l, i).Some?
  }

  /** The leftmost start of `(\d+[хx]\d+|\d+-\d+.*|\d+)\s*$` at or after `i0`. */
  function FindTrailing(l: string, i0: nat): (r: Option<nat>)
    requires i0 <= |l|
    ensures r.Some? ==> i0 <= r.value < |l| && TrailingAt(l, r.value)
    ensures r.Some? ==> forall i | i0 <= i < r.value :: !TrailingAt(l, i)
    ensures r.None? ==> forall i | i0 <= i <= |l| :: !TrailingAt(l, i)
    decreases |l| - i0
  {
    if i0 == |l| then None
    else if TrailingAt(l, i0) then Some(i0)
    else FindTrailing(l, i0 + 1)
  }

  /** `re.search(r'(\d+[хx]\d+|\d+-\d+.*|\d+)\s*$', l)`: the stripped text
      before the match and the stripped group. */
  function MatchTrailingNumber(l: string): (r: Option<(string, string)>)
    ensures r.Some? ==> r.value.1 != []
  {
    match FindTrailing(l, 0)
    case None => None
    case Some(i) => Some((Strip(l[..i]), Strip(l[i..TrailingNumberEnd(l, i).value])))
  }

  /** Name and description of a cleaned line: the separator split, then, while
      the description is still empty, pattern A, then pattern B. */
  function NameAndDescription(l: string): (r: (string, string))
    ensures IsStripped(l) ==> IsStripped(r.0)
  {
    var s := SplitAtSeparator(l, Separators);
    var a := if s.1 == [] && MatchNameNumber(l).Some? then MatchNameNumber(l).value else s;
    if a.1 == [] && MatchTrailingNumber(l).Some? then MatchTrailingNumber(l).value else a
  }

  /** The line once stripped, cleared of leading decorations and stripped again. */
  function CleanLine(line: string): (l: string)
    ensures IsStripped(l)
    ensures l != [] ==> !IsLeadJunk(l[0])
  {
    var r := LeadStrip(Strip(line));
    StripFront(r);
    Strip(r)
  }

  /** `parse_exercise_line`: `None` for a blank line or an empty name. */
  function ExerciseLine(line: string): (r: Option<Exercise>)
    ensures r.Some? ==> r.value.name != [] && IsStripped(r.value.name) && r.value.sets >= 0
  {
    var t := Strip(line);
    if t == [] then None
    else
      var l := CleanLine(line);
      var nd := NameAndDescription(l);
      if nd.0 == [] then None
      else Some(Exercise(nd.0, SetsFrom(if nd.1 != [] then nd.1 else l)))
  }

  /** The same, with the separator loop written as the loop. */
  method ParseExerciseLine(line: string) returns (r: Option<Exercise>)
    ensures r == ExerciseLine(line)
  {
    var t := Strip(line);
    if t == [] {
      return None;
    }
    var l := CleanLine(line);
    var name, description := l, "";
    var j := 0;
    while j < |Separators|
      invariant 0 <= j <= |Separators|
      invariant SplitAtSeparator(l, Separators) == SplitAtSeparator(l, Separators[j..])
    {
      var sep := Separators[j];
      if sep in l {
        var i := IndexOf(l, sep);
        name, description := Strip(l[..i]), Strip(l[i + 1..]);
        break;
      }
      j := j + 1;
    }
    assert (name, description) == SplitAtSeparator(l, Separators);
    if description == [] {
      var m := MatchNameNumber(l);
      if m.Some? {
        name, description := m.value.0, m.value.1;
      }
    }
    if description == [] {
      var m := MatchTrailingNumber(l);
      if m.Some? {
        name, description := m.value.0, m.value.1;
      }
    }
    if name == [] {
      return None;
    }
    r := Some(Exercise(name, SetsFrom(if description != [] then description else l)));
  }

  /** Stripping keeps a non-blank first character in place. */
  lemma {:induction false} StripFront(s: string)
    ensures s != [] && !IsSpace(s[0]) ==> Strip(s) != [] && Strip(s)[0] == s[0]
  {
  }

  /** The name found by the separator loop is non-empty when the line does
      not start with any separator still to be tried. */
  lemma {:induction false} SplitNameNonEmpty(l: string, seps: seq<char>)
    requires l != [] && !IsSpace(l[0])
    requires forall j | 0 <= j < |seps| :: l[0] != seps[j]
    ensures SplitAtSeparator(l, seps).0 != []
  {
    if seps != [] {
      if seps[0] in l {
        StripFront(l[..IndexOf(l, seps[0])]);
      } else {
        SplitNameNonEmpty(l, seps[1..]);
      }
    }
  }

  /** A cleaned line that starts with neither a digit nor a dash always yields
      an exercise: every way of cutting the name leaves its first character. */
  lemma {:induction false} ExerciseLineSome(line: string)
    requires var l := CleanLine(line); l != [] && !IsDigit(l[0]) && l[0] != '\U{2014}' && l[0] != '\U{2013}'
    ensures ExerciseLine(line).Some?
  {
    var l := CleanLine(line);
    assert Strip(line) != [];
    SplitNameNonEmpty(l, Separators);
    match FindNameEnd(l, 1)
    case Some(k) => StripFront(l[..k]);
    case None =>
    match FindTrailing(l, 0)
    case Some(i) => StripFront(l[..i]);
    case None =>
  }

  /** The first separator that occurs, in the order em dash, en dash, hyphen,
      cuts the line at its first occurrence; when both sides are non-empty they
      are the name and the description the set count is read from. */
  lemma {:induction false} ExerciseLineSeparated(line: string, j: nat)
    requires j < |Separators|
    requires var l := CleanLine(line); Separators[j] in l && forall j' | 0 <= j' < j :: Separators[j'] !in l
    requires var l := CleanLine(line); var i := IndexOf(l, Separators[j]);
             Strip(l[..i]) != [] && Strip(l[i + 1..]) != []
    ensures var l := CleanLine(line); var i := IndexOf(l, Separators[j]);
            ExerciseLine(line) == Some(Exercise(Strip(l[..i]), SetsFrom(Strip(l[i + 1..]))))
  {
    var l := CleanLine(line);
    SplitAtFirst(l, j);
  }

  /** A stripped line that starts with no decoration is its own cleaned line. */
  lemma {:induction false} CleanLineStripped(line: string)
    requires line != [] && IsStripped(line) && !IsLeadJunk(line[0])
    ensures CleanLine(line) == line
  {
    StripId(line);
    assert RunEnd(line, 0, IsLeadJunk) == 0;
    assert LeadStrip(line) == line;
  }

  /** `name — desc` is cut at its em dash between the two words. */
  lemma {:induction false} EmDashCut(line: string, name: string, desc: string)
    requires line == name + (" \U{2014} " + desc)
    requires forall k | 0 <= k < |name| :: name[k] != '\U{2014}'
    ensures '\U{2014}' in line && IndexOf(line, '\U{2014}') == |name| + 1
    ensures line[..|name| + 1] == name + " " && line[|name| + 2..] == " " + desc
  {
    var n := |name|;
    assert line[n] == ' ' && line[n + 1] == '\U{2014}';
    assert forall k | 0 <= k < n + 1 :: line[k] !in {'\U{2014}'};
    NextSepAt(line, 0, n + 1, {'\U{2014}'});
  }

  /** A line `name — desc` whose name holds no em dash and starts with no
      decoration names the exercise `name`, its sets counted from `desc`. */
  lemma {:induction false} SeparatedLine(line: string, name: string, desc: string)
    requires line == name + (" \U{2014} " + desc)
    requires name != [] && IsStripped(name) && !IsLeadJunk(name[0])
    requires forall k | 0 <= k < |name| :: name[k] != '\U{2014}'
    requires desc != [] && IsStripped(desc)
    ensures ExerciseLine(line) == Some(Exercise(name, SetsFrom(desc)))
  {
    assert line[0] == name[0] && line[|line| - 1] == desc[|desc| - 1];
    CleanLineStripped(line);
    EmDashCut(line, name, desc);
    StripTrailingBlank(name);
    StripLeadingBlank(desc);
    assert Separators[0] == '\U{2014}';
    ExerciseLineSeparated(line, 0);
  }

  /** The documented line "Гакк-присед — 20-16-14-12": four sets. */
  lemma {:induction false} HackSquatLine(line: string)
    requires line == "Гакк-присед \U{2014} 20-16-14-12"
    ensures ExerciseLine(line) == Some(Exercise("Гакк-присед", 4))
  {
    var name, desc := "Гакк-присед", "20-16-14-12";
    HackSquatParts(line, name, desc);
    SeparatedLine(line, name, desc);
    SetsFromDashes(desc);
  }

  lemma {:induction false} HackSquatParts(line: string, name: string, desc: string)
    requires line == "Гакк-присед \U{2014} 20-16-14-12" && name == "Гакк-присед" && desc == "20-16-14-12"
    ensures line == name + (" \U{2014} " + desc)
    ensures name != [] && IsStripped(name) && !IsLeadJunk(name[0])
    ensures forall k | 0 <= k < |name| :: name[k] != '\U{2014}'
    ensures desc != [] && IsStripped(desc)
  {
  }

  lemma {:induction false} SplitAtFirst(l: string, j: nat)
    requires j < |Separators|
    requires Separators[j] in l && forall j' | 0 <= j' < j :: Separators[j'] !in l
    ensures var i := IndexOf(l, Separators[j]);
            SplitAtSeparator(l, Separators) == (Strip(l[..i]), Strip(l[i + 1..]))
  {
    var rest := Separators[1..];
    assert rest[0] == Separators[1] && rest[1..] == [Separators[2]];
    if j == 0 {
      SeparatorHit(l, Separators);
    } else {
      SeparatorSkip(l, Separators);
      if j == 1 {
        SeparatorHit(l, rest);
      } else {
        SeparatorSkip(l, rest);
        SeparatorHit(l, rest[1..]);
      }
    }
  }

  /** A separator that does not occur is passed over. */
  lemma {:induction false} SeparatorSkip(l: string, seps: seq<char>)
    requires seps != [] && seps[0] !in l
    ensures SplitAtSeparator(l, seps) == SplitAtSeparator(l, seps[1..])
  {
  }

  /** The first separator tried that occurs cuts the line at its first occurrence. */
  lemma {:induction false} SeparatorHit(l: string, seps: seq<char>)
    requires seps != [] && seps[0] in l
    ensures var i := IndexOf(l, seps[0]);
            SplitAtSeparator(l, seps) == (Strip(l[..i]), Strip(l[i + 1..]))
  {
  }

  /** Without a digit there is nothing to count: one set. */
  lemma {:induction false} SetsFromNoDigits(s: string)
    requires forall k | 0 <= k < |s| :: !IsDigit(s[k])
    ensures SetsFrom(s) == 1
  {
    var c := Strip(StripParens(s));
    assert forall k | 0 <= k < |c| :: c[k] in s;
    NoDigitRuns(c, 0);
  }

  lemma {:induction false} SplitWithoutSeparator(l: string)
    requires forall k | 0 <= k < |l| :: l[k] !in Separators
    ensures SplitAtSeparator(l, Separators) == (l, [])
  {
    forall j | 0 <= j < |Separators| ensures Separators[j] !in l {
      assert Separators[j] in Separators;
    }
    var rest := Separators[1..];
    assert SplitAtSeparator(l, Separators) == SplitAtSeparator(l, rest);
    assert SplitAtSeparator(l, rest) == SplitAtSeparator(l, rest[1..]);
    assert SplitAtSeparator(l, rest[1..]) == SplitAtSeparator(l, rest[1..][1..]);
    assert rest[1..][1..] == [];
  }

  /** A cleaned line with no digit and no separator is a one-set exercise
      named by the whole line; "hello" is one. */
  lemma {:induction false} ExerciseLineNoNumber(line: string)
    requires var l := CleanLine(line);
             l != [] && forall k | 0 <= k < |l| :: !IsDigit(l[k]) && l[k] !in Separators
    ensures ExerciseLine(line) == Some(Exercise(CleanLine(line), 1))
  {
    var l := CleanLine(line);
    SplitWithoutSeparator(l);
    assert MatchNameNumber(l) == None;
    assert MatchTrailingNumber(l) == None;
    SetsFromNoDigits(l);
  }

  /** A line that is already clean is left as it is. */
  lemma {:induction false} CleanLineId(line: string)
    requires line != [] && IsStripped(line) && !IsLeadJunk(line[0])
    ensures CleanLine(line) == line
  {
    StripId(line);
    assert LeadStrip(line) == line;
  }

  /** A bare number is one set, whatever its value. */
  lemma {:induction false} SetsFromNumber(digits: string)
    requires digits != [] && AllDigits(digits)
    ensures SetsFrom(digits) == 1
  {
    CleanedId(digits);
    NoTimes(digits);
    DigitRunEndAt(digits, 0, |digits|);
    assert DigitRuns(digits, 0) == 1 + DigitRuns(digits, |digits|);
    assert DigitRuns(digits, 0) == 1;
    assert Strip(StripParens(digits)) == digits;
    assert FindTimes(digits, 0) == None;
  }

  /** In a name, a blank and a bare number, the lazy name group stops at the blank. */
  lemma {:induction false} NameEndAtBlank(name: string, digits: string)
    requires name != [] && IsStripped(name)
    requires forall k | 0 <= k < |name| :: !IsDigit(name[k]) && name[k] != '\n'
    requires digits != [] && AllDigits(digits)
    ensures FindNameEnd(name + " " + digits, 1) == Some(|name|)
  {
    var l, n := name + " " + digits, |name|;
    forall k | 1 <= k < n
      ensures !NameEndsAt(l, k)
    {
      if IsSpace(l[k]) {
        assert l[n - 1] == name[n - 1];
        assert SpaceRunEnd(l, k) < n;
      }
    }
    assert LineEnd(l, 0) >= n by {
      assert forall k | 0 <= k < n :: l[k] == name[k];
    }
    assert l[n + 1] == digits[0];
    assert SpaceRunEnd(l, n) == n + 1;
    assert NameEndsAt(l, n);
  }

  /** The cut pattern A makes in a name, a blank and a bare number. */
  lemma {:induction false} NameNumberAtBlank(name: string, digits: string)
    requires name != [] && IsStripped(name)
    requires forall k | 0 <= k < |name| :: !IsDigit(name[k]) && name[k] != '\n'
    requires digits != [] && AllDigits(digits)
    ensures MatchNameNumber(name + " " + digits) == Some((name, digits))
  {
    var l, n := name + " " + digits, |name|;
    NameEndAtBlank(name, digits);
    BlankNumberEnds(name, digits);
    BlankJoinSlices(name, digits);
    assert l[n + 1..|l|] == l[n + 1..];
    StripId(name);
    StripId(digits);
    MatchNameNumberAt(l, n, n + 1, |l|);
  }

  /** In `name digits` the blank run ends at the number, which runs to the end. */
  lemma {:induction false} BlankNumberEnds(name: string, digits: string)
    requires name != [] && IsStripped(name)
    requires digits != [] && AllDigits(digits)
    ensures |name| + 1 < |name + " " + digits| && IsDigit((name + " " + digits)[|name| + 1])
    ensures SpaceRunEnd(name + " " + digits, |name|) == |name| + 1
    ensures NumberEnd(name + " " + digits, |name| + 1) == |name + " " + digits|
  {
    var l, n := name + " " + digits, |name|;
    assert l[n + 1] == digits[0];
    SpaceRunEndAt(l, n, n + 1);
    DigitRunEndAt(l, n + 1, |l|);
  }

  /** The name-number match once the name end, the blank run and the number
      end are known. */
  lemma {:induction false} MatchNameNumberAt(l: string, k: nat, p: nat, e: nat)
    requires l != [] && FindNameEnd(l, 1) == Some(k)
    requires p == SpaceRunEnd(l, k) && p < |l| && IsDigit(l[p]) && e == NumberEnd(l, p)
    ensures MatchNameNumber(l) == Some((Strip(l[..k]), Strip(l[p..e])))
  {
  }

  /** A name followed by a blank and a bare number yields one set, not that
      number: "присед 4" is the exercise "присед" with one set. */
  lemma {:induction false} ExerciseLineBareNumber(name: string, digits: string)
    requires name != [] && IsStripped(name) && !IsLeadJunk(name[0])
    requires forall k | 0 <= k < |name| :: !IsDigit(name[k]) && name[k] !in Separators && name[k] != '\n'
    requires digits != [] && AllDigits(digits)
    ensures ExerciseLine(name + " " + digits) == Some(Exercise(name, 1))
  {
    var line := name + " " + digits;
    BlankJoinShape(name, digits);
    CleanLineId(line);
    SplitWithoutSeparator(line);
    NameNumberAtBlank(name, digits);
    NameFromNumber(line, name, digits);
    SetsFromNumber(digits);
    ExerciseLineParts(line, name, digits, 1);
  }

  /** `name digits` is stripped, opens like the name, and holds no separator. */
  lemma {:induction false} BlankJoinShape(name: string, digits: string)
    requires name != [] && IsStripped(name)
    requires forall k | 0 <= k < |name| :: name[k] !in Separators
    requires digits != [] && AllDigits(digits)
    ensures (name + " " + digits)[0] == name[0] && IsStripped(name + " " + digits)
    ensures forall k | 0 <= k < |name + " " + digits| :: (name + " " + digits)[k] !in Separators
  {
    var line := name + " " + digits;
    assert line[|line| - 1] == digits[|digits| - 1];
    assert forall k | 0 <= k < |name| :: line[k] == name[k];
    assert forall k | |name| < k < |line| :: line[k] == digits[k - |name| - 1];
  }

  /** With no separator, a name-number match gives the name and description. */
  lemma {:induction false} NameFromNumber(l: string, name: string, digits: string)
    requires SplitAtSeparator(l, Separators) == (l, [])
    requires MatchNameNumber(l) == Some((name, digits)) && digits != []
    ensures NameAndDescription(l) == (name, digits)
  {
  }

  /** A non-blank line whose cleaned form splits into a name and a
      description yields the name and the description's set count. */
  lemma {:induction false} ExerciseLineParts(line: string, name: string, desc: string, sets: int)
    requires Strip(line) != [] && name != [] && desc != []
    requires NameAndDescription(CleanLine(line)) == (name, desc) && SetsFrom(desc) == sets
    ensures ExerciseLine(line) == Some(Exercise(name, sets))
  {
  }

  // ---------------------------------------------------------------------
  // Programs

  /** The `ValueError` raised when neither pass finds anything. */
  datatype FreeError = Unparsable

  /** The single pass's variables: `program`, `current_day`, `current_exercises`. */
  datatype Pass = Pass(program: Program, day: Option<string>, exercises: seq<Exercise>)

  /** Saving the day being collected, if it has collected anything. */
  function Flush(st: Pass): Program {
    if st.day.Some? && st.exercises != [] then Put(st.program, st.day.value, st.exercises)
    else st.program
  }

  /** One line of the single pass: a day header starts a new day (saving the
      previous one); any other line that parses is collected, under `today`
      when no day has been seen. */
  function LineStep(st: Pass, raw: string, today: string): Pass {
    var line := Strip(raw);
    if line == [] then st
    else match ExtractDay(line)
      case Some(d) => Pass(Flush(st), Some(d), [])
      case None =>
        match ExerciseLine(line)
        case None => st
        case Some(e) => Pass(st.program, if st.day.Some? then st.day else Some(today), st.exercises + [e])
  }

  function RunLines(st: Pass, lines: seq<string>, today: string): Pass
    decreases |lines|
  {
    if lines == [] then st
    else LineStep(RunLines(st, lines[..|lines| - 1], today), lines[|lines| - 1], today)
  }

  const Start: Pass := Pass([], None, [])

  /** The single pass over the lines of `text`, with the last day saved. */
  function SinglePass(text: string, today: string): Program {
    Flush(RunLines(Start, Split(text, {'\n'}), today))
  }

  /** `re.match(r'^([А-ЯЁ]+)\s*[:—\-]', block, re.IGNORECASE)` followed by the
      lookup: the day and the length of the whole match. */
  function BlockHeader(b: string): (r: Option<(string, nat)>)
    ensures r.Some? ==> r.value.0 in Weekdays && r.value.1 <= |b|
  {
    var n := LetterRunEnd(b, 0);
    var m := SpaceRunEnd(b, n);
    if n >= 1 && m < |b| && IsDaySep(b[m]) && LookupDay(Upper(b[..n])).Some?
    then Some((LookupDay(Upper(b[..n])).value, m + 1))
    else None
  }

  /** The exercises of the pieces that parse, in order. */
  function ParsedItems(pieces: seq<string>): seq<Exercise> {
    if pieces == [] then []
    else match ExerciseLine(pieces[|pieces| - 1])
      case None => ParsedItems(pieces[..|pieces| - 1])
      case Some(e) => ParsedItems(pieces[..|pieces| - 1]) + [e]
  }

  /** One `;`-block of the fallback: a block with a day header sets that day
      to the exercises after the header, even when there are none. */
  function BlockStep(p: Program, raw: string): Program {
    var b := Strip(raw);
    if b == [] then p
    else match BlockHeader(b)
      case None => p
      case Some((d, n)) => Put(p, d, ParsedItems(Pieces(Strip(b[n..]))))
  }

  function RunBlocks(p: Program, blocks: seq<string>): Program
    decreases |blocks|
  {
    if blocks == [] then p
    else BlockStep(RunBlocks(p, blocks[..|blocks| - 1]), blocks[|blocks| - 1])
  }

  /** The fallback over `;`-separated blocks. */
  function Fallback(text: string): Program {
    RunBlocks([], Split(text, {';'}))
  }

  /** `parse_program`, with `get_current_day()` given as `today`. */
  function FreeParse(text: string, today: string): (r: Result<Program, FreeError>)
    ensures r.Err? <==> SinglePass(text, today) == [] && Fallback(text) == []
  {
    var first := SinglePass(text, today);
    var program := if first != [] then first else Fallback(text);
    if program == [] then Err(Unparsable) else Ok(program)
  }

  /** `parse_program`, as its loops over lines, blocks and pieces. */
  method ParseProgram(text: string, weekday: nat) returns (r: Result<Program, FreeError>)
    requires weekday < 7
    ensures r == FreeParse(text, CurrentDay(weekday))
  {
    var program := RunSinglePass(text, CurrentDay(weekday));
    if program == [] {
      program := RunFallback(text);
    }
    if program == [] {
      return Err(Unparsable);
    }
    return Ok(program);
  }

  /** The loop over lines, then the last day saved. */
  method RunSinglePass(text: string, today: string) returns (program: Program)
    ensures program == SinglePass(text, today)
  {
    var lines := Split(text, {'\n'});
    var st := RunLinesFrom(lines, today);
    if st.day.Some? && st.exercises != [] {
      program := Put(st.program, st.day.value, st.exercises);
    } else {
      program := st.program;
    }
  }

  /** The loop over the lines. */
  method RunLinesFrom(lines: seq<string>, today: string) returns (st: Pass)
    ensures st == RunLines(Start, lines, today)
  {
    st := Start;
    for i := 0 to |lines|
      invariant st == RunLines(Start, lines[..i], today)
    {
      assert lines[..i + 1][..i] == lines[..i];
      st := ParseLine(st, lines[i], today);
    }
    assert lines[..|lines|] == lines;
  }

  /** The body of the line loop. */
  method ParseLine(before: Pass, raw: string, today: string) returns (st: Pass)
    ensures st == LineStep(before, raw, today)
  {
    st := before;
    var line := Strip(raw);
    if line != [] {
      var day := ExtractDay(line);
      if day.Some? {
        var program := before.program;
        if before.day.Some? && before.exercises != [] {
          program := Put(program, before.day.value, before.exercises);
        }
        st := Pass(program, day, []);
      } else {
        var exercise := ParseExerciseLine(line);
        if exercise.Some? {
          var currentDay := before.day;
          if currentDay.None? {
            currentDay := Some(today);
          }
          st := Pass(before.program, currentDay, before.exercises + [exercise.value]);
        }
      }
    }
  }

  /** The loop over `;`-blocks. */
  method RunFallback(text: string) returns (program: Program)
    ensures program == Fallback(text)
  {
    program := [];
    var blocks := Split(text, {';'});
    for i := 0 to |blocks|
      invariant program == RunBlocks([], blocks[..i])
    {
      assert blocks[..i + 1][..i] == blocks[..i];
      assert RunBlocks([], blocks[..i + 1]) == BlockStep(program, blocks[i]);
      program := ParseBlock(program, blocks[i]);
    }
    assert blocks[..|blocks|] == blocks;
  }

  /** The body of the block loop. */
  method ParseBlock(before: Program, raw: string) returns (program: Program)
    ensures program == BlockStep(before, raw)
  {
    var block := Strip(raw);
    if block == [] {
      return before;
    }
    var header := BlockHeader(block);
    if header.None? {
      return before;
    }
    var day, n := header.value.0, header.value.1;
    program := FillDay(before, day, Pieces(Strip(block[n..])));
  }

  /** `program[day] = []`, then one append per piece that parses. */
  method FillDay(before: Program, day: string, pieces: seq<string>) returns (program: Program)
    ensures program == Put(before, day, ParsedItems(pieces))
  {
    program := Put(before, day, []);
    for j := 0 to |pieces|
      invariant program == Put(before, day, ParsedItems(pieces[..j]))
    {
      assert pieces[..j + 1][..j] == pieces[..j];
      var exercise := ParseExerciseLine(pieces[j]);
      if exercise.Some? {
        PutGet(before, day, ParsedItems(pieces[..j]), day);
        PutPut(before, day, ParsedItems(pieces[..j]), ParsedItems(pieces[..j + 1]));
        program := Put(program, day, Get(program, day).value + [exercise.value]);
      }
    }
    assert pieces[..|pieces|] == pieces;
  }

  // ---------------------------------------------------------------------
  // Properties of the two passes

  /** What holds of the single pass's variables after every line. */
  predicate PassInvariant(st: Pass) {
    CanonicalKeys(st.program) && DistinctKeys(st.program)
    && (forall i | 0 <= i < |st.program| :: st.program[i].1 != [])
    && (st.day.Some? ==> st.day.value in Weekdays)
    && (st.exercises != [] ==> st.day.Some?)
  }

  lemma {:induction false} FlushInvariant(st: Pass)
    requires PassInvariant(st)
    ensures CanonicalKeys(Flush(st)) && DistinctKeys(Flush(st))
    ensures forall i | 0 <= i < |Flush(st)| :: Flush(st)[i].1 != []
    ensures Flush(st) == [] <==> st.program == [] && st.exercises == []
  {
    if st.day.Some? && st.exercises != [] {
      PutCanonical(st.program, st.day.value, st.exercises);
      PutDistinct(st.program, st.day.value, st.exercises);
      PutValuesNonEmpty(st.program, st.day.value, st.exercises);
    }
  }

  lemma {:induction false} RunLinesInvariant(lines: seq<string>, today: string)
    requires today in Weekdays
    ensures PassInvariant(RunLines(Start, lines, today))
  {
    if lines != [] {
      RunLinesInvariant(lines[..|lines| - 1], today);
      FlushInvariant(RunLines(Start, lines[..|lines| - 1], today));
    }
  }

  /** The single pass yields canonical, distinct days, each with at least one
      exercise. */
  lemma {:induction false} SinglePassShape(text: string, today: string)
    requires today in Weekdays
    ensures var p := SinglePass(text, today);
            CanonicalKeys(p) && DistinctKeys(p) && forall i | 0 <= i < |p| :: p[i].1 != []
  {
    var lines := Split(text, {'\n'});
    RunLinesInvariant(lines, today);
    FlushInvariant(RunLines(Start, lines, today));
  }

  lemma {:induction false} RunBlocksShape(p: Program, blocks: seq<string>)
    requires CanonicalKeys(p) && DistinctKeys(p)
    ensures CanonicalKeys(RunBlocks(p, blocks)) && DistinctKeys(RunBlocks(p, blocks))
  {
    if blocks != [] {
      var q := RunBlocks(p, blocks[..|blocks| - 1]);
      RunBlocksShape(p, blocks[..|blocks| - 1]);
      var b := Strip(blocks[|blocks| - 1]);
      if b != [] && BlockHeader(b).Some? {
        var d, n := BlockHeader(b).value.0, BlockHeader(b).value.1;
        PutCanonical(q, d, ParsedItems(Pieces(Strip(b[n..]))));
        PutDistinct(q, d, ParsedItems(Pieces(Strip(b[n..]))));
      }
    }
  }

  /** A successful parse is a non-empty program whose keys are distinct
      canonical day names. */
  lemma {:induction false} FreeParseCanonical(text: string, today: string)
    requires today in Weekdays
    ensures var r := FreeParse(text, today);
            r.Ok? ==> r.value != [] && CanonicalKeys(r.value) && DistinctKeys(r.value)
  {
    SinglePassShape(text, today);
    RunBlocksShape([], Split(text, {';'}));
  }

  /** A line the single pass collects: not blank, not a day header, and it
      parses as an exercise. */
  predicate Collects(raw: string) {
    var line := Strip(raw);
    line != [] && ExtractDay(line).None? && ExerciseLine(line).Some?
  }

  /** One line leaves something collected exactly when something was collected
      before or the line itself is collected. */
  lemma {:induction false} LineStepCollects(st: Pass, raw: string, today: string)
    requires PassInvariant(st)
    ensures var st' := LineStep(st, raw, today);
            (st'.program != [] || st'.exercises != []) <==> (st.program != [] || st.exercises != [] || Collects(raw))
  {
    FlushInvariant(st);
  }

  lemma {:induction false} RunLinesCollects(lines: seq<string>, n: nat, today: string)
    requires n <= |lines| && today in Weekdays
    ensures var st := RunLines(Start, lines[..n], today);
            (st.program != [] || st.exercises != []) <==> exists j | 0 <= j < n :: Collects(lines[j])
  {
    if n > 0 {
      assert lines[..n][..n - 1] == lines[..n - 1];
      RunLinesCollects(lines, n - 1, today);
      RunLinesInvariant(lines[..n - 1], today);
      LineStepCollects(RunLines(Start, lines[..n - 1], today), lines[n - 1], today);
      ExistsUpTo(lines, n, Collects);
    }
  }

  /** No line of `lines` is collected. */
  predicate NothingCollected(lines: seq<string>) {
    forall i | 0 <= i < |lines| :: !Collects(lines[i])
  }

  lemma {:induction false} LinesEmpty(lines: seq<string>, today: string)
    requires today in Weekdays
    ensures Flush(RunLines(Start, lines, today)) == [] <==> NothingCollected(lines)
  {
    RunLinesCollects(lines, |lines|, today);
    assert lines[..|lines|] == lines;
    RunLinesInvariant(lines, today);
    FlushInvariant(RunLines(Start, lines, today));
  }

  /** The single pass finds nothing exactly when no line is collected: every
      line is blank, a day header, or fails to parse. */
  lemma {:induction false} SinglePassEmpty(text: string, today: string)
    requires today in Weekdays
    ensures SinglePass(text, today) == [] <==> NothingCollected(Split(text, {'\n'}))
  {
    LinesEmpty(Split(text, {'\n'}), today);
  }

  /** A block the fallback recognises: not blank, and it opens with a day header. */
  predicate HasHeader(raw: string) {
    var b := Strip(raw);
    b != [] && BlockHeader(b).Some?
  }

  lemma {:induction false} RunBlocksEmpty(blocks: seq<string>, n: nat)
    requires n <= |blocks|
    ensures RunBlocks([], blocks[..n]) == [] <==> forall j | 0 <= j < n :: !HasHeader(blocks[j])
  {
    if n > 0 {
      assert blocks[..n][..n - 1] == blocks[..n - 1];
      RunBlocksEmpty(blocks, n - 1);
      ExistsUpTo(blocks, n, HasHeader);
    }
  }

  /** No block of `blocks` has a day header. */
  predicate NoHeader(blocks: seq<string>) {
    forall i | 0 <= i < |blocks| :: !HasHeader(blocks[i])
  }

  lemma {:induction false} BlocksEmpty(blocks: seq<string>)
    ensures RunBlocks([], blocks) == [] <==> NoHeader(blocks)
  {
    RunBlocksEmpty(blocks, |blocks|);
    assert blocks[..|blocks|] == blocks;
  }

  /** The fallback finds nothing exactly when no `;`-block starts with a day
      header; a header with no exercises after it still adds its day. */
  lemma {:induction false} FallbackEmpty(text: string)
    ensures Fallback(text) == [] <==> NoHeader(Split(text, {';'}))
  {
    BlocksEmpty(Split(text, {';'}));
  }

  /** Removing bullets leaves a bullet-free prefix in place. */
  lemma {:induction false} RemoveBulletsPrefix(s: string, j: nat)
    requires j <= |s|
    requires forall k | 0 <= k < j :: !IsBullet(s[k])
    ensures j <= |RemoveBullets(s)| && RemoveBullets(s)[..j] == s[..j]
  {
    if j > 0 {
      RemoveBulletsPrefix(s[1..], j - 1);
      assert RemoveBullets(s) == [s[0]] + RemoveBullets(s[1..]);
    }
  }

  /** Letters, blanks and a day separator are no bullets. */
  lemma {:induction false} HeaderNoBullets(line: string, n: nat, m: nat)
    requires n <= m < |line|
    requires forall k | 0 <= k < n :: IsDayLetter(line[k])
    requires forall k | n <= k < m :: IsSpace(line[k])
    requires IsDaySep(line[m])
    ensures forall k | 0 <= k < m + 1 :: !IsBullet(line[k])
  {
    forall k | 0 <= k < m + 1
      ensures !IsBullet(line[k])
    {
      if k < n {
        assert IsDayLetter(line[k]);
      } else if k < m {
        assert IsSpace(line[k]);
      }
    }
  }

  /** A stripped line that opens with `DAY[:—-]` is a day header for the single
      pass too, so in `parse_program` the old-format branch after a failed
      `extract_day_from_text` never runs. */
  lemma {:induction false} HeaderLineIsDay(line: string)
    requires IsStripped(line) && BlockHeader(line).Some?
    ensures ExtractDay(line) == Some(BlockHeader(line).value.0)
  {
    var n := LetterRunEnd(line, 0);
    var m := SpaceRunEnd(line, n);
    HeaderNoBullets(line, n, m);
    var t := Strip(RemoveBullets(line));
    CleanedPrefix(line, m);
    assert forall k | 0 <= k <= m :: t[k] == line[k] by {
      forall k | 0 <= k <= m ensures t[k] == line[k] {
        assert t[..m + 1][k] == line[..m + 1][k];
      }
    }
    assert !IsDayLetter(t[n]);
    LetterRunEndAt(t, 0, n);
    assert t[..n] == line[..n];
    ExtractDayAt(line, t, n);
  }

  /** A bullet-free prefix that opens with a non-blank and ends in one
      survives bullet removal and stripping unchanged. */
  lemma {:induction false} CleanedPrefix(line: string, m: nat)
    requires m < |line| && !IsSpace(line[0]) && !IsSpace(line[m])
    requires forall k | 0 <= k < m + 1 :: !IsBullet(line[k])
    ensures m < |Strip(RemoveBullets(line))| && Strip(RemoveBullets(line))[..m + 1] == line[..m + 1]
  {
    RemoveBulletsPrefix(line, m + 1);
    var c := RemoveBullets(line);
    assert c[0] == line[0] && c[m] == line[m] by {
      assert c[..m + 1][0] == line[..m + 1][0] && c[..m + 1][m] == line[..m + 1][m];
    }
    assert StripStart(c) == 0;
    var j := StripEnd(c, 0);
    assert j > m;
    assert Strip(c) == c[..j];
  }

  /** A line the single pass takes as a day header. */
  predicate IsDayLine(raw: string) {
    Strip(raw) != [] && ExtractDay(Strip(raw)).Some?
  }

  predicate NoDayLine(lines: seq<string>) {
    forall i | 0 <= i < |lines| :: !IsDayLine(lines[i])
  }

  /** The exercises of the collected lines, in order. */
  function CollectedExercises(lines: seq<string>): seq<Exercise> {
    if lines == [] then []
    else
      var last := lines[|lines| - 1];
      CollectedExercises(lines[..|lines| - 1])
      + (if Collects(last) then [ExerciseLine(Strip(last)).value] else [])
  }

  lemma {:induction false} LineStepNoDay(st: Pass, raw: string, today: string)
    requires !IsDayLine(raw)
    ensures LineStep(st, raw, today).program == st.program
    ensures LineStep(st, raw, today).exercises
            == st.exercises + (if Collects(raw) then [ExerciseLine(Strip(raw)).value] else [])
    ensures LineStep(st, raw, today).day == if Collects(raw) && st.day.None? then Some(today) else st.day
  {
  }

  /** A day-header line is consumed whole: the new day starts with nothing
      collected, the day before it is saved (replacing any earlier block of
      that day) only if it collected something, and every other day is kept. */
  lemma {:induction false} DayLineStep(st: Pass, raw: string, today: string, k: string)
    requires IsDayLine(raw)
    ensures var st' := LineStep(st, raw, today);
            st'.exercises == [] && st'.day == ExtractDay(Strip(raw))
            && Get(st'.program, k)
               == if st.day == Some(k) && st.exercises != [] then Some(st.exercises) else Get(st.program, k)
  {
    if st.day.Some? && st.exercises != [] {
      PutGet(st.program, st.day.value, st.exercises, k);
    }
  }

  lemma {:induction false} RunLinesNoDay(lines: seq<string>, n: nat, today: string)
    requires n <= |lines| && NoDayLine(lines)
    ensures var e := CollectedExercises(lines[..n]);
            RunLines(Start, lines[..n], today) == Pass([], if e == [] then None else Some(today), e)
  {
    if n > 0 {
      assert lines[..n][..n - 1] == lines[..n - 1];
      RunLinesNoDay(lines, n - 1, today);
      LineStepNoDay(RunLines(Start, lines[..n - 1], today), lines[n - 1], today);
    }
  }

  /** Text without any day header is filed, whole, under the current weekday:
      the single pass yields that one day with every collected exercise. */
  lemma {:induction false} SinglePassNoDay(text: string, today: string)
    requires NoDayLine(Split(text, {'\n'}))
    ensures var e := CollectedExercises(Split(text, {'\n'}));
            SinglePass(text, today) == if e == [] then [] else [(today, e)]
  {
    var lines := Split(text, {'\n'});
    RunLinesNoDay(lines, |lines|, today);
    assert lines[..|lines|] == lines;
  }

  /** A line that opens with neither a bullet, a blank nor a Cyrillic letter
      is never a day header. */
  lemma {:induction false} ExtractDayNoLetter(text: string)
    requires text != [] && !IsBullet(text[0]) && !IsSpace(text[0]) && !IsDayLetter(text[0])
    ensures ExtractDay(text).None?
  {
    RemoveBulletsPrefix(text, 1);
    var c := RemoveBullets(text);
    assert c[0] == text[0];
    assert StripStart(c) == 0;
    var t := Strip(c);
    assert t[0] == text[0];
    LetterRunEndAt(t, 0, 0);
    assert DayWord(t) == [];
  }

  /** A line of small Latin letters. */
  predicate LowercaseWord(w: string) {
    w != [] && forall k | 0 <= k < |w| :: 'a' <= w[k] <= 'z'
  }

  /** Such a line is collected as a one-set exercise named by the whole line. */
  lemma {:induction false} LowercaseWordCollected(w: string)
    requires LowercaseWord(w)
    ensures !IsDayLine(w) && Collects(w)
    ensures ExerciseLine(Strip(w)) == Some(Exercise(w, 1))
  {
    assert IsStripped(w);
    StripId(w);
    ExtractDayNoLetter(w);
    CleanLineId(w);
    ExerciseLineNoNumber(w);
  }

  /** Such a text is one line and no header: today's one exercise. */
  lemma {:induction false} FreeParseLowercaseWord(w: string, today: string)
    requires LowercaseWord(w)
    ensures FreeParse(w, today) == Ok([(today, [Exercise(w, 1)])])
  {
    SplitNone(w, {'\n'});
    var lines := Split(w, {'\n'});
    LowercaseWordCollected(w);
    assert lines[..0] == [];
    assert CollectedExercises(lines) == [Exercise(w, 1)];
    SinglePassNoDay(w, today);
  }

  lemma {:induction false} HelloWord(text: string)
    requires text == "hello"
    ensures LowercaseWord(text)
  {
  }

  lemma {:induction false} HelloCollected(text: string)
    requires text == "hello"
    ensures !IsDayLine(text) && Collects(text)
    ensures ExerciseLine(Strip(text)) == Some(Exercise("hello", 1))
  {
    HelloWord(text);
    LowercaseWordCollected(text);
  }

  /** "hello" is not an error: it is a one-set exercise for today. */
  lemma {:induction false} FreeParseHello(text: string, today: string)
    requires text == "hello"
    ensures FreeParse(text, today) == Ok([(today, [Exercise("hello", 1)])])
  {
    HelloWord(text);
    FreeParseLowercaseWord(text, today);
  }

  lemma {:induction false} MondayHeader(text: string)
    requires text == "ПН:"
    ensures BlockHeader(text) == Some(("Понедельник", 3))
    ensures ExtractDay(text) == Some("Понедельник")
  {
    MondayWord(text);
    LookupMonday();
    StripId(text);
    HeaderLineIsDay(text);
  }

  lemma {:induction false} MondayWord(text: string)
    requires text == "ПН:"
    ensures LetterRunEnd(text, 0) == 2 && SpaceRunEnd(text, 2) == 2 && IsDaySep(text[2])
    ensures Upper(text[..2]) == "ПН"
  {
    LetterRunEndAt(text, 0, 2);
    assert SpaceRunEnd(text, 2) == 2;
    assert text[..2] == "ПН";
  }

  /** A bare header "ПН:" gives nothing in the single pass, which drops days
      without exercises, but the fallback then keeps Monday with no exercises. */
  lemma {:induction false} FreeParseHeaderOnly(text: string, today: string)
    requires text == "ПН:"
    ensures SinglePass(text, today) == []
    ensures FreeParse(text, today) == Ok([("Понедельник", [])])
  {
    MondayHeader(text);
    StripId(text);
    MondayNoBreaks(text);
    SinglePassHeaderLine(text, today, "Понедельник");
    FallbackHeaderBlock(text, "Понедельник", 3);
  }

  lemma {:induction false} MondayNoBreaks(text: string)
    requires text == "ПН:"
    ensures text != [] && text[3..] == []
    ensures forall k | 0 <= k < |text| :: text[k] != '\n' && text[k] != ';'
  {
  }

  /** A one-line text that is only a day header gives nothing in the single pass. */
  lemma {:induction false} SinglePassHeaderLine(text: string, today: string, d: string)
    requires forall k | 0 <= k < |text| :: text[k] != '\n'
    requires Strip(text) == text && text != [] && ExtractDay(text) == Some(d)
    ensures SinglePass(text, today) == []
  {
    SplitNone(text, {'\n'});
    assert RunLines(Start, [text], today) == LineStep(Start, [text][0], today);
  }

  /** A one-block text that is only a day header gives that day with no exercises. */
  lemma {:induction false} FallbackHeaderBlock(text: string, d: string, n: nat)
    requires forall k | 0 <= k < |text| :: text[k] != ';'
    requires Strip(text) == text && text != [] && BlockHeader(text) == Some((d, n)) && text[n..] == []
    ensures Fallback(text) == [(d, [])]
  {
    SplitNone(text, {';'});
    SplitNone([], {','});
    assert Pieces(Strip(text[n..])) == [];
    assert RunBlocks([], [text]) == BlockStep([], [text][0]);
  }
}
