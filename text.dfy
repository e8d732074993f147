/** Character classes and string helpers that mirror the Python built-ins and
    regular-expression atoms the bot relies on: `str.isspace` / `\s`,
    `\d`, the case-insensitive class `[А-ЯЁ]`, `str.upper`, `str.strip`,
    `str.split`, `int(...)` on a digit string and `str(int)`. */
module Text {

  /** Python's `str.isspace()`, which is also what `\s` matches in a `str`
      pattern: the 29 Unicode white-space code points. */
  predicate IsSpace(c: char) {
    ('\U{9}' <= c <= '\U{D}') || ('\U{1C}' <= c <= '\U{20}') || c == '\U{85}' || c == '\U{A0}'
    || c == '\U{1680}' || ('\U{2000}' <= c <= '\U{200A}') || c == '\U{2028}' || c == '\U{2029}'
    || c == '\U{202F}' || c == '\U{205F}' || c == '\U{3000}'
  }

  /** `\d`, restricted to the ASCII digits. */
  predicate IsDigit(c: char) {
    '0' <= c <= '9'
  }

  /** The class `[А-ЯЁ]` under `re.IGNORECASE`: the Russian capitals and small
      letters, Ё and ё, and the seven old-style small letters U+1C80..U+1C86
      whose upper case falls inside А-Я. */
  predicate IsDayLetter(c: char) {
    ('\U{410}' <= c <= '\U{44F}') || c == '\U{401}' || c == '\U{451}' || ('\U{1C80}' <= c <= '\U{1C86}')
  }

  /** `str.upper()` for a single character: Latin and Cyrillic small letters
      map to their capitals; every other character is kept. */
  function UpperChar(c: char): (u: char)
    ensures IsDayLetter(c) ==> IsDayLetter(u) && !('\U{430}' <= u <= '\U{44F}') && u != '\U{451}'
  {
    if 'a' <= c <= 'z' then (c as int - 32) as char
    else if '\U{430}' <= c <= '\U{44F}' then (c as int - 32) as char
    else if '\U{450}' <= c <= '\U{45F}' then (c as int - 80) as char
    else if c == '\U{1C80}' then '\U{412}'
    else if c == '\U{1C81}' then '\U{414}'
    else if c == '\U{1C82}' then '\U{41E}'
    else if c == '\U{1C83}' then '\U{421}'
    else if c == '\U{1C84}' || c == '\U{1C85}' then '\U{422}'
    else if c == '\U{1C86}' then '\U{42A}'
    else c
  }

  function Upper(s: string): (u: string)
    ensures |u| == |s|
    ensures forall k | 0 <= k < |s| :: u[k] == UpperChar(s[k])
  {
    if s == [] then [] else [UpperChar(s[0])] + Upper(s[1..])
  }

  /** Index of the first position at or after `i` where `p` fails (or |s|). */
  function RunEnd(s: string, i: nat, p: char -> bool): (r: nat)
    requires i <= |s|
    ensures i <= r <= |s|
    ensures forall k | i <= k < r :: p(s[k])
    ensures r == |s| || !p(s[r])
    decreases |s| - i
  {
    if i == |s| || !p(s[i]) then i else RunEnd(s, i + 1, p)
  }

  function DigitRunEnd(s: string, i: nat): (r: nat)
    requires i <= |s|
    ensures i <= r <= |s|
    ensures forall k | i <= k < r :: IsDigit(s[k])
    ensures r == |s| || !IsDigit(s[r])
  {
    RunEnd(s, i, IsDigit)
  }

  function SpaceRunEnd(s: string, i: nat): (r: nat)
    requires i <= |s|
    ensures i <= r <= |s|
    ensures forall k | i <= k < r :: IsSpace(s[k])
    ensures r == |s| || !IsSpace(s[r])
  {
    RunEnd(s, i, IsSpace)
  }

  function LetterRunEnd(s: string, i: nat): (r: nat)
    requires i <= |s|
    ensures i <= r <= |s|
    ensures forall k | i <= k < r :: IsDayLetter(s[k])
    ensures r == |s| || !IsDayLetter(s[r])
  {
    RunEnd(s, i, IsDayLetter)
  }

  /** Where a `.*` started at `i` stops: the first newline at or after `i`. */
  function LineEnd(s: string, i: nat): (r: nat)
    requires i <= |s|
    ensures i <= r <= |s|
    ensures forall k | i <= k < r :: s[k] != '\n'
    ensures r == |s| || s[r] == '\n'
  {
    RunEnd(s, i, c => c != '\n')
  }

  /** A run end is pinned by where the run stops. */
  lemma {:induction false} DigitRunEndAt(s: string, i: nat, j: nat)
    requires i <= j <= |s|
    requires forall k | i <= k < j :: IsDigit(s[k])
    requires j == |s| || !IsDigit(s[j])
    ensures DigitRunEnd(s, i) == j
  {
  }

  lemma {:induction false} SpaceRunEndAt(s: string, i: nat, j: nat)
    requires i <= j <= |s|
    requires forall k | i <= k < j :: IsSpace(s[k])
    requires j == |s| || !IsSpace(s[j])
    ensures SpaceRunEnd(s, i) == j
  {
  }

  lemma {:induction false} LetterRunEndAt(s: string, i: nat, j: nat)
    requires i <= j <= |s|
    requires forall k | i <= k < j :: IsDayLetter(s[k])
    requires j == |s| || !IsDayLetter(s[j])
    ensures LetterRunEnd(s, i) == j
  {
  }

  /** `\s*$` can match from `i` on. */
  predicate AllSpaceFrom(s: string, i: nat)
    requires i <= |s|
  {
    SpaceRunEnd(s, i) == |s|
  }

  predicate AllDigits(s: string) {
    forall k | 0 <= k < |s| :: IsDigit(s[k])
  }

  /** Index of the first non-blank character (|s| when all blank). */
  function StripStart(s: string): (i: nat)
    ensures i <= |s|
    ensures forall k | 0 <= k < i :: IsSpace(s[k])
    ensures i == |s| || !IsSpace(s[i])
  {
    SpaceRunEnd(s, 0)
  }

  /** One past the last non-blank character at or after `lo`. */
  function StripEnd(s: string, lo: nat): (j: nat)
    requires lo <= |s|
    ensures lo <= j <= |s|
    ensures forall k | j <= k < |s| :: IsSpace(s[k])
    ensures j == lo || !IsSpace(s[j - 1])
    decreases |s| - lo
  {
    if |s| == lo then lo
    else if IsSpace(s[|s| - 1]) then StripEnd(s[..|s| - 1], lo)
    else |s|
  }

  /** No blank at either end. */
  predicate IsStripped(s: string) {
    s == [] || (!IsSpace(s[0]) && !IsSpace(s[|s| - 1]))
  }

  /** `str.strip()`. */
  function Strip(s: string): (r: string)
    ensures IsStripped(r)
    ensures r == s[StripStart(s)..StripEnd(s, StripStart(s))]
  {
    var i := StripStart(s);
    s[i..StripEnd(s, i)]
  }

  /** The two words of `a b` are recovered by slicing around the blank. */
  lemma {:induction false} BlankJoinSlices(a: string, b: string)
    ensures (a + " " + b)[..|a|] == a
    ensures (a + " " + b)[|a| + 1..] == b
  {
    var l := a + " " + b;
    assert l[..|a|] == (a + " ")[..|a|];
    assert l[|a| + 1..] == b;
  }

  /** Stripping a string with no blank at either end changes nothing. */
  lemma {:induction false} StripId(s: string)
    requires IsStripped(s)
    ensures Strip(s) == s
  {
  }

  /** `s.index(c)` when `c in s`, otherwise |s|. */
  function IndexOf(s: string, c: char): (i: nat)
    ensures i <= |s|
    ensures i < |s| ==> s[i] == c
    ensures forall k | 0 <= k < i :: s[k] != c
  {
    NextSep(s, 0, {c})
  }

  /** `s.split(sep)` with an explicit separator (or `re.split` on a class of
      single characters): the pieces between separators, empty ones kept. */
  /** Index of the first separator at or after `i` (or |s|). */
  function NextSep(s: string, i: nat, seps: set<char>): (r: nat)
    requires i <= |s|
    ensures i <= r <= |s|
    ensures forall k | i <= k < r :: s[k] !in seps
    ensures r == |s| || s[r] in seps
    decreases |s| - i
  {
    if i == |s| || s[i] in seps then i else NextSep(s, i + 1, seps)
  }

  function Split(s: string, seps: set<char>): (parts: seq<string>)
    ensures |parts| >= 1
    decreases |s|
  {
    var i := NextSep(s, 0, seps);
    if i == |s| then [s] else [s[..i]] + Split(s[i + 1..], seps)
  }

  /** No piece of a split contains a separator. */
  lemma {:induction false} SplitPiecesClean(s: string, seps: set<char>)
    ensures forall j, k | 0 <= j < |Split(s, seps)| && 0 <= k < |Split(s, seps)[j]| :: Split(s, seps)[j][k] !in seps
    decreases |s|
  {
    var i := NextSep(s, 0, seps);
    if i < |s| {
      SplitPiecesClean(s[i + 1..], seps);
      var parts := Split(s, seps);
      assert parts == [s[..i]] + Split(s[i + 1..], seps);
      forall j, k | 0 <= j < |parts| && 0 <= k < |parts[j]| ensures parts[j][k] !in seps {
        if j > 0 {
          assert parts[j] == Split(s[i + 1..], seps)[j - 1];
        }
      }
    }
  }

  /** A string with no separator splits into itself. */
  lemma {:induction false} SplitNone(s: string, seps: set<char>)
    requires forall k | 0 <= k < |s| :: s[k] !in seps
    ensures Split(s, seps) == [s]
  {
  }

  /** `NextSep` stops at the first separator. */
  lemma {:induction false} NextSepAt(s: string, i: nat, j: nat, seps: set<char>)
    requires i <= j < |s| && s[j] in seps
    requires forall k | i <= k < j :: s[k] !in seps
    ensures NextSep(s, i, seps) == j
    decreases j - i
  {
    if i < j {
      NextSepAt(s, i + 1, j, seps);
    }
  }

  /** A text with one separator splits into the two sides of it. */
  lemma {:induction false} SplitTwo(a: string, c: char, b: string, seps: set<char>)
    requires c in seps
    requires forall k | 0 <= k < |a| :: a[k] !in seps
    requires forall k | 0 <= k < |b| :: b[k] !in seps
    ensures Split(a + [c] + b, seps) == [a, b]
  {
    var s := a + [c] + b;
    NextSepAt(s, 0, |a|, seps);
    assert s[..|a|] == a && s[|a| + 1..] == b;
    SplitNone(b, seps);
  }

  /** `strip()` of a blank followed by a stripped word is the word. */
  lemma {:induction false} StripLeadingBlank(s: string)
    requires s != [] && IsStripped(s)
    ensures Strip(" " + s) == s
  {
    var t := " " + s;
    SpaceRunEndAt(t, 0, 1);
    assert t[|t| - 1] == s[|s| - 1];
    assert StripEnd(t, 1) == |t|;
    assert t[1..] == s;
  }

  /** The stripped, non-blank pieces among `parts`. */
  function NonBlank(parts: seq<string>): (r: seq<string>)
    ensures forall i | 0 <= i < |r| :: r[i] != [] && IsStripped(r[i])
  {
    if parts == [] then []
    else if Strip(parts[|parts| - 1]) == [] then NonBlank(parts[..|parts| - 1])
    else NonBlank(parts[..|parts| - 1]) + [Strip(parts[|parts| - 1])]
  }

  /** `[ex.strip() for ex in s.split(',') if ex.strip()]`. */
  function Pieces(s: string): seq<string> {
    NonBlank(Split(s, {','}))
  }

  /** `strip()` of a stripped word followed by a blank is the word. */
  lemma {:induction false} StripTrailingBlank(s: string)
    requires s != [] && IsStripped(s)
    ensures Strip(s + " ") == s
  {
    var t := s + " ";
    SpaceRunEndAt(t, 0, 0);
    assert t[..|t| - 1] == s;
    assert StripEnd(t[..|t| - 1], 0) == |s|;
    assert StripEnd(t, 0) == |s|;
    assert t[..|s|] == s;
  }

  lemma {:induction false} ConcatAssoc(a: string, b: string, c: string)
    ensures a + b + c == a + (b + c)
  {
  }

  /** Neither side of a concatenation holds a separator, so neither does the whole. */
  lemma {:induction false} NoSepsAppend(x: string, y: string, seps: set<char>)
    requires forall k | 0 <= k < |x| :: x[k] !in seps
    requires forall k | 0 <= k < |y| :: y[k] !in seps
    ensures forall k | 0 <= k < |x + y| :: (x + y)[k] !in seps
  {
  }

  /** `h a, c` has no separator when its parts have none and the joining
      blank and comma are not separators. */
  lemma {:induction false} NoSepsJoin(h: string, a: string, c: string, seps: set<char>)
    requires ' ' !in seps && ',' !in seps
    requires forall k | 0 <= k < |h| :: h[k] !in seps
    requires forall k | 0 <= k < |a| :: a[k] !in seps
    requires forall k | 0 <= k < |c| :: c[k] !in seps
    ensures forall k | 0 <= k < |h + (" " + (a + ", " + c))| :: (h + (" " + (a + ", " + c)))[k] !in seps
  {
    NoSepsAppend(", ", c, seps);
    NoSepsAppend(a, ", " + c, seps);
    assert a + ", " + c == a + (", " + c);
    NoSepsAppend(" ", a + ", " + c, seps);
    NoSepsAppend(h, " " + (a + ", " + c), seps);
  }

  /** Two pieces that are not blank both survive, stripped. */
  lemma {:induction false} NonBlankTwo(p: string, q: string)
    requires Strip(p) != [] && Strip(q) != []
    ensures NonBlank([p, q]) == [Strip(p), Strip(q)]
  {
    assert [p, q][..1] == [p] && [p][..0] == [];
    assert NonBlank([p]) == [Strip(p)];
  }

  /** The pieces of ` a, c` are the two comma-free words `a` and `c`. */
  lemma {:induction false} PiecesTwo(a: string, c: string)
    requires a != [] && IsStripped(a) && c != [] && IsStripped(c)
    requires forall k | 0 <= k < |a| :: a[k] != ','
    requires forall k | 0 <= k < |c| :: c[k] != ','
    ensures Pieces(Strip(" " + (a + ", " + c))) == [a, c]
  {
    var b := " " + c;
    var s := a + ", " + c;
    assert s == a + [','] + b;
    assert s[0] == a[0] && s[|s| - 1] == c[|c| - 1];
    StripLeadingBlank(s);
    SplitTwo(a, ',', b, {','});
    StripId(a);
    StripLeadingBlank(c);
    NonBlankTwo(a, b);
    assert Pieces(Strip(" " + s)) == NonBlank([a, b]);
  }

  /** Number of separator characters in `s`. */
  function SepCount(s: string, seps: set<char>): nat {
    if s == [] then 0 else (if s[0] in seps then 1 else 0) + SepCount(s[1..], seps)
  }

  /** `Split` yields exactly one more piece than there are separators. */
  lemma {:induction false} SplitCount(s: string, seps: set<char>)
    ensures |Split(s, seps)| == SepCount(s, seps) + 1
  {
    var i := NextSep(s, 0, seps);
    if i < |s| {
      SplitCount(s[i + 1..], seps);
      SepCountSplit(s, i, seps);
    } else {
      SepCountNone(s, seps);
    }
  }

  lemma {:induction false} SepCountNone(s: string, seps: set<char>)
    requires forall k | 0 <= k < |s| :: s[k] !in seps
    ensures SepCount(s, seps) == 0
  {
    if s != [] {
      SepCountNone(s[1..], seps);
    }
  }

  lemma {:induction false} SepCountSplit(s: string, i: nat, seps: set<char>)
    requires i < |s| && s[i] in seps
    requires forall k | 0 <= k < i :: s[k] !in seps
    ensures SepCount(s, seps) == 1 + SepCount(s[i + 1..], seps)
  {
    if i == 0 {
      assert s[1..] == s[i + 1..];
    } else {
      SepCountSplit(s[1..], i - 1, seps);
      assert s[1..][i..] == s[i + 1..];
    }
  }

  function DigitValue(c: char): nat
    requires IsDigit(c)
  {
    c as int - '0' as int
  }

  /** `int(s)` for a non-empty run of ASCII digits. */
  function DigitsValue(s: string): nat
    requires AllDigits(s)
  {
    if s == [] then 0 else 10 * DigitsValue(s[..|s| - 1]) + DigitValue(s[|s| - 1])
  }

  predicate StartsWith(s: string, pat: string) {
    |pat| <= |s| && s[..|pat|] == pat
  }

  /** `pat in s` for strings. */
  predicate Contains(s: string, pat: string) {
    StartsWith(s, pat) || (s != [] && Contains(s[1..], pat))
  }

  function NatDigits(n: nat): (r: string)
    ensures r != [] && AllDigits(r)
  {
    if n < 10 then [('0' as int + n) as char]
    else NatDigits(n / 10) + [('0' as int + n % 10) as char]
  }

  /** `str(n)` for a Python int. */
  function IntToString(n: int): string {
    if n < 0 then "-" + NatDigits(-n) else NatDigits(n)
  }

  /** Reading back the digits of `str(n)` gives `n`. */
  lemma {:induction false} NatDigitsRoundTrip(n: nat)
    ensures DigitsValue(NatDigits(n)) == n
  {
    if n >= 10 {
      NatDigitsRoundTrip(n / 10);
      var s := NatDigits(n);
      assert s[..|s| - 1] == NatDigits(n / 10);
    }
  }

  /** SQLite's BINARY collation on UTF-8 text: code point by code point, a
      proper prefix first. */
  predicate StrLe(a: string, b: string) {
    a == [] || (b != [] && (a[0] < b[0] || (a[0] == b[0] && StrLe(a[1..], b[1..]))))
  }

  lemma {:induction false} StrLeTotal(a: string, b: string)
    ensures StrLe(a, b) || StrLe(b, a)
  {
    if a != [] && b != [] && a[0] == b[0] {
      StrLeTotal(a[1..], b[1..]);
    }
  }

  lemma {:induction false} StrLeTrans(a: string, b: string, c: string)
    requires StrLe(a, b) && StrLe(b, c)
    ensures StrLe(a, c)
  {
    if a != [] && a[0] == b[0] && b[0] == c[0] {
      StrLeTrans(a[1..], b[1..], c[1..]);
    }
  }

  lemma {:induction false} StrLeAntisym(a: string, b: string)
    requires StrLe(a, b) && StrLe(b, a)
    ensures a == b
  {
    if a != [] {
      StrLeAntisym(a[1..], b[1..]);
      assert a == [a[0]] + a[1..] && b == [b[0]] + b[1..];
    }
  }

  lemma {:induction false} StrLeRefl(a: string)
    ensures StrLe(a, a)
  {
    if a != [] {
      StrLeRefl(a[1..]);
    }
  }

  lemma {:induction false} SepCountConcat(a: string, b: string, seps: set<char>)
    ensures SepCount(a + b, seps) == SepCount(a, seps) + SepCount(b, seps)
  {
    if a == [] {
      assert a + b == b;
    } else {
      assert (a + b)[0] == a[0] && (a + b)[1..] == a[1..] + b;
      SepCountConcat(a[1..], b, seps);
    }
  }

  lemma {:induction false} SepCountDigits(s: string, seps: set<char>)
    requires AllDigits(s) && forall c | c in seps :: !IsDigit(c)
    ensures SepCount(s, seps) == 0
  {
    if s != [] {
      assert s[0] !in seps;
      SepCountDigits(s[1..], seps);
    }
  }
}
