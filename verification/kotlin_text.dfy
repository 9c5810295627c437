/** The Kotlin standard-library string operations the recipe program relies on,
    each modelled on its JVM behaviour: `indexOf`, `substringAfter`,
    `substringBefore`, `substringAfterLast`, `substringBeforeLast`,
    `removePrefix`, `split`, `joinToString`, `trim`, `trim(vararg Char)`,
    `isBlank`, `lowercase() == "exit"`, `Int.toString()` and `toIntOrNull()`. */
module KotlinText {
  import opened Wrappers

  // ---------------------------------------------------------------- searching

  /** `d` occurs in `s` starting at index `k`. */
  predicate OccursAt(s: string, k: int, d: string) {
    0 <= k && k + |d| <= |s| && s[k..k + |d|] == d
  }

  /** `s.indexOf(d, from)`: the first occurrence of `d` at or after `from`. */
  function IndexFrom(s: string, d: string, from: nat): (r: Option<nat>)
    ensures r.Some? ==> from <= r.value && OccursAt(s, r.value, d)
    ensures r.Some? ==> forall k :: from <= k < r.value ==> !OccursAt(s, k, d)
    ensures r.None? ==> forall k :: from <= k ==> !OccursAt(s, k, d)
    decreases |s| - from
  {
    if from + |d| > |s| then None
    else if s[from..from + |d|] == d then Some(from)
    else IndexFrom(s, d, from + 1)
  }

  /** `s.indexOf(d)`, with `None` for Kotlin's -1. */
  function IndexOf(s: string, d: string): (r: Option<nat>)
    ensures r.Some? ==> OccursAt(s, r.value, d)
    ensures r.Some? ==> forall k :: 0 <= k < r.value ==> !OccursAt(s, k, d)
    ensures r.None? ==> forall k :: 0 <= k ==> !OccursAt(s, k, d)
  {
    IndexFrom(s, d, 0)
  }

  /** An occurrence with none before it is the one `indexOf` finds. */
  lemma FirstOccurrence(s: string, d: string, p: nat)
    requires OccursAt(s, p, d)
    requires forall k :: 0 <= k < p ==> !OccursAt(s, k, d)
    ensures IndexOf(s, d) == Some(p)
  {
  }

  /** Moves an optional index `n` places to the right. */
  function ShiftBy(o: Option<nat>, n: nat): Option<nat> {
    match o
    case None => None
    case Some(i) => Some(i + n)
  }

  /** No occurrence of `d` starts inside the prefix `x` of `x + y`. */
  ghost predicate NoneStartsIn(x: string, y: string, d: string) {
    forall k :: 0 <= k < |x| ==> !OccursAt(x + y, k, d)
  }

  lemma OccursAtShift(x: string, y: string, d: string, k: nat)
    ensures OccursAt(x + y, |x| + k, d) <==> OccursAt(y, k, d)
  {
    if k + |d| <= |y| {
      assert (x + y)[|x| + k..|x| + k + |d|] == y[k..k + |d|];
    }
  }

  /** When no occurrence starts in `x`, searching `x + y` is searching `y`. */
  lemma SkipPrefix(x: string, y: string, d: string)
    requires NoneStartsIn(x, y, d)
    ensures IndexOf(x + y, d) == ShiftBy(IndexOf(y, d), |x|)
  {
    match IndexOf(y, d)
    case None =>
      var r := IndexOf(x + y, d);
      if r.Some? {
        assert r.value >= |x|;
        OccursAtShift(x, y, d, r.value - |x|);
      }
    case Some(i) =>
      OccursAtShift(x, y, d, i);
      forall k | 0 <= k < |x| + i
        ensures !OccursAt(x + y, k, d)
      {
        if k >= |x| {
          OccursAtShift(x, y, d, k - |x|);
        }
      }
      FirstOccurrence(x + y, d, |x| + i);
  }

  /** A prefix that lacks the first character of `d` holds no occurrence start. */
  lemma NoStartWithoutHead(x: string, y: string, d: string)
    requires |d| > 0 && d[0] !in x
    ensures NoneStartsIn(x, y, d)
  {
    forall k | 0 <= k < |x|
      ensures !OccursAt(x + y, k, d)
    {
    }
  }

  /** A text that starts with `d` has it at index 0. */
  lemma FoundAtStart(d: string, y: string)
    ensures IndexOf(d + y, d) == Some(0)
  {
    assert (d + y)[0..|d|] == d;
    FirstOccurrence(d + y, d, 0);
  }

  // -------------------------------------------------- substringAfter / Before

  /** `s.substringAfter(d)`: the text after the first `d`, or all of `s`. */
  function SubstringAfter(s: string, d: string): (r: string)
    ensures IndexOf(s, d).None? ==> r == s
    ensures IndexOf(s, d).Some? ==> s == s[..IndexOf(s, d).value] + d + r
  {
    match IndexOf(s, d)
    case None => s
    case Some(i) => s[i + |d|..]
  }

  /** `s.substringBefore(d)`: the text before the first `d`, or all of `s`. */
  function SubstringBefore(s: string, d: string): (r: string)
    ensures r <= s
    ensures IndexOf(s, d).Some? ==> |r| == IndexOf(s, d).value
    ensures IndexOf(s, d).None? ==> r == s
  {
    match IndexOf(s, d)
    case None => s
    case Some(i) => s[..i]
  }

  lemma AfterSkip(x: string, y: string, d: string)
    requires NoneStartsIn(x, y, d) && IndexOf(y, d).Some?
    ensures SubstringAfter(x + y, d) == SubstringAfter(y, d)
  {
    SkipPrefix(x, y, d);
    var i := IndexOf(y, d).value;
    assert (x + y)[|x| + i + |d|..] == y[i + |d|..];
  }

  lemma AfterStart(d: string, y: string)
    ensures SubstringAfter(d + y, d) == y
  {
    FoundAtStart(d, y);
    assert (d + y)[|d|..] == y;
  }

  lemma BeforeSkip(x: string, y: string, d: string)
    requires NoneStartsIn(x, y, d)
    requires IndexOf(y, d).Some?
    ensures SubstringBefore(x + y, d) == x + SubstringBefore(y, d)
  {
    SkipPrefix(x, y, d);
    var i := IndexOf(y, d).value;
    assert (x + y)[..|x| + i] == x + y[..i];
  }

  /** The text up to the first `d` of `x + d + y`, when `x` lacks `d`'s first character. */
  lemma BeforeHeadFree(x: string, d: string, y: string)
    requires |d| > 0 && d[0] !in x
    ensures SubstringBefore(x + (d + y), d) == x
  {
    NoStartWithoutHead(x, d + y, d);
    FoundAtStart(d, y);
    BeforeSkip(x, d + y, d);
  }

  // ------------------------------------------- substringAfterLast / BeforeLast

  /** `s.lastIndexOf(c)`, with `None` for -1. */
  function LastIndexOf(s: string, c: char): (r: Option<nat>)
    ensures r.Some? ==> r.value < |s| && s[r.value] == c && c !in s[r.value + 1..]
    ensures r.None? ==> c !in s
  {
    if |s| == 0 then None
    else if s[|s| - 1] == c then Some(|s| - 1)
    else
      var r := LastIndexOf(s[..|s| - 1], c);
      assert r.Some? ==> s[r.value + 1..] == s[..|s| - 1][r.value + 1..] + [s[|s| - 1]];
      assert s == s[..|s| - 1] + [s[|s| - 1]];
      r
  }

  /** `s.substringAfterLast(c, missing)`. */
  function SubstringAfterLast(s: string, c: char, missing: string): (r: string)
    ensures LastIndexOf(s, c).None? ==> r == missing
    ensures LastIndexOf(s, c).Some? ==> c !in r && s == s[..LastIndexOf(s, c).value] + [c] + r
  {
    match LastIndexOf(s, c)
    case None => missing
    case Some(i) => assert s == s[..i] + [c] + s[i + 1..]; s[i + 1..]
  }

  /** `s.substringBeforeLast(c)` (the whole of `s` when `c` is missing). */
  function SubstringBeforeLast(s: string, c: char): (r: string)
    ensures r <= s
    ensures LastIndexOf(s, c).None? ==> r == s
    ensures LastIndexOf(s, c).Some? ==> |r| < |s| && s == r + [c] + s[|r| + 1..] && c !in s[|r| + 1..]
  {
    match LastIndexOf(s, c)
    case None => s
    case Some(i) => assert s == s[..i] + [c] + s[i + 1..]; s[..i]
  }

  /** `s.removePrefix(p)`. */
  function RemovePrefix(s: string, p: string): (r: string)
    ensures p <= s ==> s == p + r
    ensures !(p <= s) ==> r == s
  {
    if p <= s then s[|p|..] else s
  }

  // ------------------------------------------------------- split and joining

  /** `xs.joinToString(d)`. */
  function JoinWith(d: string, xs: seq<string>): string {
    if |xs| == 0 then ""
    else if |xs| == 1 then xs[0]
    else xs[0] + d + JoinWith(d, xs[1..])
  }

  /** `s.split(d)` for a non-empty delimiter: the pieces between successive
      leftmost non-overlapping occurrences, trailing empty piece kept. */
  function Split(s: string, d: string): (r: seq<string>)
    requires |d| > 0
    ensures |r| >= 1
    ensures JoinWith(d, r) == s
    ensures forall i :: 0 <= i < |r| ==> IndexOf(r[i], d).None?
    decreases |s|
  {
    match IndexOf(s, d)
    case None => [s]
    case Some(i) =>
      var rest := Split(s[i + |d|..], d);
      assert s == s[..i] + d + s[i + |d|..];
      NoOccurrenceInPrefix(s, d, i);
      [s[..i]] + rest
  }

  /** The text before the first occurrence contains no occurrence. */
  lemma NoOccurrenceInPrefix(s: string, d: string, i: nat)
    requires |d| > 0
    requires IndexOf(s, d) == Some(i)
    ensures IndexOf(s[..i], d).None?
  {
    var r := IndexOf(s[..i], d);
    if r.Some? {
      assert s[..i][r.value..r.value + |d|] == s[r.value..r.value + |d|];
      assert OccursAt(s, r.value, d);
    }
  }

  /** Splitting at an occurrence found right after the first piece. */
  lemma SplitStep(x: string, d: string, y: string)
    requires |d| > 0
    requires IndexOf(x + d + y, d) == Some(|x|)
    ensures Split(x + d + y, d) == [x] + Split(y, d)
  {
    var s := x + d + y;
    assert s[..|x|] == x;
    assert s[|x| + |d|..] == y;
  }

  // ------------------------------------------------------------------ trimming

  /** Drops the longest prefix whose characters all satisfy `p`. */
  function DropWhile(s: string, p: char -> bool): (r: string)
    ensures |r| <= |s| && r == s[|s| - |r|..]
    ensures forall i :: 0 <= i < |s| - |r| ==> p(s[i])
    ensures r != [] ==> !p(r[0])
  {
    if |s| > 0 && p(s[0]) then DropWhile(s[1..], p) else s
  }

  /** Drops the longest suffix whose characters all satisfy `p`. */
  function DropWhileEnd(s: string, p: char -> bool): (r: string)
    ensures |r| <= |s| && r == s[..|r|]
    ensures forall i :: |r| <= i < |s| ==> p(s[i])
    ensures r != [] ==> !p(r[|r| - 1])
  {
    if |s| > 0 && p(s[|s| - 1]) then DropWhileEnd(s[..|s| - 1], p) else s
  }

  /** `CharSequence.trim(predicate)`: strip both ends. */
  function TrimBy(s: string, p: char -> bool): (r: string)
    ensures forall c :: c in r ==> c in s
    ensures r != [] ==> !p(r[0]) && !p(r[|r| - 1])
  {
    var t := DropWhile(s, p);
    var r := DropWhileEnd(t, p);
    assert forall c :: c in r ==> c in t;
    assert forall c :: c in t ==> c in s;
    r
  }

  /** `s.trim(c)`: every leading and trailing `c` removed. */
  function TrimChar(s: string, c: char): (r: string)
    ensures forall x :: x in r ==> x in s
    ensures r != [] ==> r[0] != c && r[|r| - 1] != c
  {
    TrimBy(s, x => x == c)
  }

  /** A string without `c` is its own `trim(c)`. */
  lemma TrimCharAbsent(s: string, c: char)
    requires c !in s
    ensures TrimChar(s, c) == s
  {
  }

  /** `trim(predicate)` removes exactly the leading and trailing runs of
      characters satisfying `p`: the result is the text between them. */
  lemma TrimByKeepsInfix(s: string, p: char -> bool)
    ensures exists a, b ::
      && 0 <= a <= b <= |s| && TrimBy(s, p) == s[a..b]
      && (forall i :: 0 <= i < a ==> p(s[i]))
      && (forall i :: b <= i < |s| ==> p(s[i]))
  {
    var t := DropWhile(s, p);
    var a := |s| - |t|;
    var r := DropWhileEnd(t, p);
    var b := a + |r|;
    assert t == s[a..] && r == t[..|r|];
    assert r == s[a..b];
    forall i | b <= i < |s|
      ensures p(s[i])
    {
      assert s[i] == t[i - a];
    }
  }

  /** `trim(c)` removes exactly the leading and trailing runs of `c`: the
      result is the text between them, kept as it was. */
  lemma TrimCharKeepsInfix(s: string, c: char)
    ensures exists a, b ::
      && 0 <= a <= b <= |s| && TrimChar(s, c) == s[a..b]
      && (forall i :: 0 <= i < a ==> s[i] == c)
      && (forall i :: b <= i < |s| ==> s[i] == c)
  {
    var p := (x: char) => x == c;
    TrimByKeepsInfix(s, p);
    var a, b :| && 0 <= a <= b <= |s| && TrimBy(s, p) == s[a..b]
      && (forall i :: 0 <= i < a ==> p(s[i]))
      && (forall i :: b <= i < |s| ==> p(s[i]));
    assert TrimChar(s, c) == s[a..b];
  }

  /** `trim(c)` removes a single leading and/or trailing `c` from a `c`-free text. */
  lemma TrimCharWrapped(s: string, c: char)
    requires c !in s
    ensures TrimChar([c] + s, c) == s
    ensures TrimChar(s + [c], c) == s
    ensures TrimChar([c] + s + [c], c) == s
  {
    var p := (x: char) => x == c;
    assert ([c] + s)[1..] == s;
    assert DropWhile([c] + s, p) == DropWhile(s, p) == s;
    assert (s + [c])[..|s|] == s;
    assert DropWhileEnd(s + [c], p) == DropWhileEnd(s, p) == s;
    assert ([c] + s + [c])[1..] == s + [c];
  }

  /** Kotlin's `Char.isWhitespace()` on the JVM: `Character.isWhitespace` or
      `Character.isSpaceChar` (space, line and paragraph separators). */
  predicate IsWhitespace(c: char) {
    ('\t' <= c <= '\r') || ('\U{1C}' <= c <= '\U{1F}') || c == ' '
    || c == '\U{A0}' || c == '\U{1680}' || ('\U{2000}' <= c <= '\U{200A}')
    || c == '\U{2028}' || c == '\U{2029}' || c == '\U{202F}' || c == '\U{205F}'
    || c == '\U{3000}'
  }

  /** `s.trimStart()`. */
  function TrimStart(s: string): string {
    if |s| > 0 && IsWhitespace(s[0]) then TrimStart(s[1..]) else s
  }

  /** `s.trimEnd()`. */
  function TrimEnd(s: string): string {
    if |s| > 0 && IsWhitespace(s[|s| - 1]) then TrimEnd(s[..|s| - 1]) else s
  }

  /** `s.trim()`. */
  function Trim(s: string): string {
    TrimEnd(TrimStart(s))
  }

  /** `trimStart` keeps a suffix, and that suffix does not start with
      whitespace. */
  lemma {:induction false} TrimStartKeepsSuffix(s: string)
    ensures |TrimStart(s)| <= |s| && TrimStart(s) == s[|s| - |TrimStart(s)|..]
    ensures TrimStart(s) != [] ==> !IsWhitespace(TrimStart(s)[0])
  {
    if |s| > 0 && IsWhitespace(s[0]) {
      TrimStartKeepsSuffix(s[1..]);
    }
  }

  /** `trimEnd` keeps a prefix, and that prefix does not end with
      whitespace. */
  lemma {:induction false} TrimEndKeepsPrefix(s: string)
    ensures |TrimEnd(s)| <= |s| && TrimEnd(s) == s[..|TrimEnd(s)|]
    ensures TrimEnd(s) != [] ==> !IsWhitespace(TrimEnd(s)[|TrimEnd(s)| - 1])
  {
    if |s| > 0 && IsWhitespace(s[|s| - 1]) {
      TrimEndKeepsPrefix(s[..|s| - 1]);
    }
  }

  /** `trim` keeps only characters of its input and leaves no whitespace at
      either end. */
  lemma TrimmedText(s: string)
    ensures forall c :: c in Trim(s) ==> c in s
    ensures Trim(s) != [] ==> !IsWhitespace(Trim(s)[0]) && !IsWhitespace(Trim(s)[|Trim(s)| - 1])
  {
    var t := TrimStart(s);
    TrimStartKeepsSuffix(s);
    TrimEndKeepsPrefix(t);
    var r := TrimEnd(t);
    if r != [] {
      assert r[0] == t[0];
    }
    assert forall c :: c in r ==> c in t;
    assert forall c :: c in t ==> c in s;
  }

  /** The characters `trimStart` drops are whitespace. */
  lemma {:induction false} TrimStartDropsWhitespace(s: string)
    ensures forall i :: 0 <= i < |s| - |TrimStart(s)| ==> IsWhitespace(s[i])
  {
    if |s| > 0 && IsWhitespace(s[0]) {
      TrimStartDropsWhitespace(s[1..]);
      forall i | 0 < i < |s| - |TrimStart(s)|
        ensures IsWhitespace(s[i])
      {
        assert s[i] == s[1..][i - 1];
      }
    }
  }

  /** The characters `trimEnd` drops are whitespace. */
  lemma {:induction false} TrimEndDropsWhitespace(s: string)
    ensures forall i :: |TrimEnd(s)| <= i < |s| ==> IsWhitespace(s[i])
  {
    if |s| > 0 && IsWhitespace(s[|s| - 1]) {
      var init := s[..|s| - 1];
      TrimEndDropsWhitespace(init);
      forall i | |TrimEnd(s)| <= i < |s| - 1
        ensures IsWhitespace(s[i])
      {
        assert s[i] == init[i];
      }
    }
  }

  /** `trim()` removes exactly the leading and trailing whitespace runs: the
      result is the text between them, kept as it was. */
  lemma TrimKeepsInfix(s: string)
    ensures exists a, b ::
      && 0 <= a <= b <= |s| && Trim(s) == s[a..b]
      && (forall i :: 0 <= i < a ==> IsWhitespace(s[i]))
      && (forall i :: b <= i < |s| ==> IsWhitespace(s[i]))
  {
    var t := TrimStart(s);
    TrimStartKeepsSuffix(s);
    TrimStartDropsWhitespace(s);
    var a := |s| - |t|;
    var r := TrimEnd(t);
    TrimEndKeepsPrefix(t);
    TrimEndDropsWhitespace(t);
    var b := a + |r|;
    assert r == s[a..b];
    forall i | b <= i < |s|
      ensures IsWhitespace(s[i])
    {
      assert s[i] == t[i - a];
    }
  }

  /** `s.isBlank()`: empty or whitespace only. */
  predicate IsBlank(s: string) {
    forall i :: 0 <= i < |s| ==> IsWhitespace(s[i])
  }

  lemma {:induction false} BlankIffStartEmpty(s: string)
    ensures IsBlank(s) <==> TrimStart(s) == []
  {
    if |s| > 0 && IsWhitespace(s[0]) {
      BlankIffStartEmpty(s[1..]);
      if IsBlank(s[1..]) {
        forall i | 0 <= i < |s|
          ensures IsWhitespace(s[i])
        {
          if i > 0 {
            assert s[i] == s[1..][i - 1];
          }
        }
      }
    }
  }

  lemma {:induction false} EndEmptyIsBlank(s: string)
    ensures TrimEnd(s) == [] ==> IsBlank(s)
  {
    if |s| > 0 && IsWhitespace(s[|s| - 1]) {
      var init := s[..|s| - 1];
      EndEmptyIsBlank(init);
      if TrimEnd(s) == [] {
        forall i | 0 <= i < |s|
          ensures IsWhitespace(s[i])
        {
          if i < |s| - 1 {
            assert s[i] == init[i];
          }
        }
      }
    }
  }

  /** A string is blank exactly when trimming it leaves nothing. */
  lemma BlankIffTrimEmpty(s: string)
    ensures IsBlank(s) <==> Trim(s) == []
  {
    var t := TrimStart(s);
    BlankIffStartEmpty(s);
    EndEmptyIsBlank(t);
    TrimStartKeepsSuffix(s);
  }

  // ------------------------------------------------------------ lower-casing

  /** `c.lowercaseChar()` restricted to ASCII letters. */
  function AsciiLower(c: char): char {
    if 'A' <= c <= 'Z' then (c as int - 'A' as int + 'a' as int) as char else c
  }

  /** `s.lowercase() == "exit"`. Under `Locale.ROOT` the only strings that
      lower-case to the four letters e, x, i, t are the ASCII case variants
      of "exit", so comparing character by character is exact here. */
  predicate IsExitWord(s: string) {
    |s| == 4 && AsciiLower(s[0]) == 'e' && AsciiLower(s[1]) == 'x'
    && AsciiLower(s[2]) == 'i' && AsciiLower(s[3]) == 't'
  }

  // ---------------------------------------------------------------- integers

  const MinInt: int := -0x8000_0000
  const MaxInt: int := 0x7FFF_FFFF

  predicate IsDigit(c: char) {
    '0' <= c <= '9'
  }

  function DigitChar(d: nat): char
    requires d < 10
  {
    ('0' as int + d) as char
  }

  /** `n.toString()` for a non-negative `n`. */
  function DecimalString(n: nat): (r: string)
    ensures |r| > 0 && forall i :: 0 <= i < |r| ==> IsDigit(r[i])
  {
    if n < 10 then [DigitChar(n)] else DecimalString(n / 10) + [DigitChar(n % 10)]
  }

  /** The value of a run of ASCII decimal digits, read left to right. */
  function DigitsValue(ds: string): nat
    requires forall i :: 0 <= i < |ds| ==> IsDigit(ds[i])
  {
    if ds == [] then 0
    else
      assert IsDigit(ds[|ds| - 1]);
      DigitsValue(ds[..|ds| - 1]) * 10 + (ds[|ds| - 1] as int - '0' as int)
  }

  /** The magnitude part of `toIntOrNull`: all digits, and in `Int` range. */
  function SignedDigits(ds: string, negative: bool): (r: Option<int>)
    ensures r.Some? ==> MinInt <= r.value <= MaxInt
  {
    if ds != [] && forall i :: 0 <= i < |ds| ==> IsDigit(ds[i]) then
      var v: int := if negative then -(DigitsValue(ds) as int) else DigitsValue(ds);
      if MinInt <= v <= MaxInt then Some(v) else None
    else None
  }

  /** `s.toIntOrNull()` (radix 10): an optional leading `-` or `+`, then
      decimal digits, and a value that fits a 32-bit `Int`. */
  function ToIntOrNull(s: string): (r: Option<int>)
    ensures r.Some? ==> MinInt <= r.value <= MaxInt
    ensures r.Some? ==> |s| > 0
  {
    if |s| == 0 then None
    else if s[0] < '0' then
      if |s| == 1 then None
      else if s[0] == '-' then SignedDigits(s[1..], true)
      else if s[0] == '+' then SignedDigits(s[1..], false)
      else None
    else SignedDigits(s, false)
  }

  /** The only texts `toIntOrNull` can accept: an optional `-` or `+`, then
      at least one decimal digit. */
  predicate NumberShaped(s: string) {
    |s| > 0 && (IsDigit(s[0]) || ((s[0] == '-' || s[0] == '+') && |s| > 1))
    && forall i :: 0 < i < |s| ==> IsDigit(s[i])
  }

  /** Any other text gives null: an empty or blank line, a word, a lone sign,
      a number with spaces around it or letters after it. */
  lemma NonNumberIsNull(s: string)
    ensures !NumberShaped(s) ==> ToIntOrNull(s).None?
  {
    if ToIntOrNull(s).Some? && s[0] < '0' {
      forall i | 0 < i < |s|
        ensures IsDigit(s[i])
      {
        assert s[i] == s[1..][i - 1];
      }
    }
  }

  /** A blank line is not a number. */
  lemma BlankIsNotNumber(s: string)
    requires IsBlank(s)
    ensures !NumberShaped(s)
  {
    if |s| > 0 {
      assert IsWhitespace(s[0]);
    }
  }

  lemma {:induction false} DigitsOfDecimal(n: nat)
    ensures DigitsValue(DecimalString(n)) == n
  {
    var s := DecimalString(n);
    if n >= 10 {
      DigitsOfDecimal(n / 10);
      assert s[..|s| - 1] == DecimalString(n / 10);
    }
  }

  /** `toIntOrNull` reads back what `toString` wrote, for every `Int` value
      that is not negative. */
  lemma ParseDecimal(n: nat)
    requires n <= MaxInt
    ensures ToIntOrNull(DecimalString(n)) == Some(n)
  {
    DigitsOfDecimal(n);
    var s := DecimalString(n);
    assert IsDigit(s[0]);
  }
}
