/** How `addRecipe` gathers a recipe from the console
    (RecipeStorageProgram.kt:144-148 and :171-219): the title and author
    with their defaults for blank answers, the cook time, and the two lists
    read by `collectListInput` until a line reading `exit`.

    The console is the sequence of lines still to be read, each without its
    line terminator. `readln()` fails at the end of the input (Kotlin throws
    there, ending the program); `readlnOrNull()` gives null instead. */
module Input {
  import opened Wrappers
  import opened KotlinText
  import opened Recipe

  /** The outcome of reading: a value and the lines left, or the end of the
      input reached by a `readln()`. */
  datatype Read<T> = Got(value: T, rest: seq<string>) | EndOfInput

  /** `readln()`. */
  function ReadLine(input: seq<string>): Read<string> {
    if input == [] then EndOfInput else Got(input[0], input[1..])
  }

  // ------------------------------------------------------- collectListInput

  /** An entry as stored: a step is numbered `"$count. $input"`. */
  function Entry(line: string, stepPrefix: bool, count: int): string {
    if stepPrefix then IntString(count) + ". " + line else line
  }

  /** `Int.toString()` for any sign. */
  function IntString(n: int): string {
    if n < 0 then "-" + DecimalString(-n) else DecimalString(n)
  }

  /** What `collectListInput` returns, read line by line: the first line
      that trims to `exit` in any case ends the list, a blank line is
      skipped, any other line is added trimmed (and numbered, for steps). */
  function Collect(input: seq<string>, stepPrefix: bool, count: int): Read<seq<string>>
    decreases |input|
  {
    if input == [] then EndOfInput
    else
      var t := Trim(input[0]);
      if IsExitWord(t) then Got([], input[1..])
      else if t == [] then Collect(input[1..], stepPrefix, count)
      else
        var next := if stepPrefix then count + 1 else count;
        PrependAll([Entry(t, stepPrefix, count)], Collect(input[1..], stepPrefix, next))
  }

  function PrependAll(xs: seq<string>, r: Read<seq<string>>): Read<seq<string>> {
    match r
    case EndOfInput => EndOfInput
    case Got(ys, rest) => Got(xs + ys, rest)
  }

  lemma PrependNothing(r: Read<seq<string>>)
    ensures PrependAll([], r) == r
  {
    if r.Got? {
      assert [] + r.value == r.value;
    }
  }

  lemma PrependAllAppend(xs: seq<string>, ys: seq<string>, r: Read<seq<string>>)
    ensures PrependAll(xs, PrependAll(ys, r)) == PrependAll(xs + ys, r)
  {
    if r.Got? {
      assert xs + (ys + r.value) == (xs + ys) + r.value;
    }
  }

  /** Reading the line at `i`: an `exit` line ends the list, any other line
      adds its entry, if it has one, to what the following lines give. */
  lemma CollectAt(input: seq<string>, i: nat, stepPrefix: bool, count: int)
    requires i < |input|
    ensures var t := Trim(input[i]);
      if IsExitWord(t) then Collect(input[i..], stepPrefix, count) == Got([], input[i + 1..])
      else if t == [] then Collect(input[i..], stepPrefix, count) == Collect(input[i + 1..], stepPrefix, count)
      else
        Collect(input[i..], stepPrefix, count)
        == PrependAll([Entry(t, stepPrefix, count)],
                      Collect(input[i + 1..], stepPrefix, if stepPrefix then count + 1 else count))
  {
    assert input[i..][0] == input[i];
    assert input[i..][1..] == input[i + 1..];
  }

  /** What the loop of `collectListInput` keeps: the list so far, followed
      by what the lines from `i` on give, is what the whole input gives. */
  predicate CollectedSoFar(input: seq<string>, stepPrefix: bool, list: seq<string>, i: nat, count: int)
    requires i <= |input|
  {
    Collect(input, stepPrefix, 1) == PrependAll(list, Collect(input[i..], stepPrefix, count))
  }

  lemma CollectLoopStep(input: seq<string>, stepPrefix: bool, list: seq<string>, i: nat, count: int)
    requires i < |input| && CollectedSoFar(input, stepPrefix, list, i, count)
    ensures var t := Trim(input[i]);
      if IsExitWord(t) then Collect(input, stepPrefix, 1) == Got(list, input[i + 1..])
      else if t == [] then CollectedSoFar(input, stepPrefix, list, i + 1, count)
      else CollectedSoFar(input, stepPrefix, list + [Entry(t, stepPrefix, count)], i + 1,
                          if stepPrefix then count + 1 else count)
  {
    var t := Trim(input[i]);
    CollectAt(input, i, stepPrefix, count);
    if IsExitWord(t) {
      assert list + [] == list;
    } else if t != [] {
      PrependAllAppend(list, [Entry(t, stepPrefix, count)],
                       Collect(input[i + 1..], stepPrefix, if stepPrefix then count + 1 else count));
    }
  }

  /** `collectListInput(promptMessage, stepPrefix)`: the list and the lines
      left after the `exit` line, or the end of the input. */
  method CollectListInput(input: seq<string>, stepPrefix: bool) returns (r: Read<seq<string>>)
    ensures r == Collect(input, stepPrefix, 1)
  {
    var list: seq<string> := [];
    var count := 1;
    var i := 0;
    assert input[0..] == input;
    PrependNothing(Collect(input, stepPrefix, 1));
    while i < |input|
      invariant 0 <= i <= |input|
      invariant CollectedSoFar(input, stepPrefix, list, i, count)
    {
      var line := Trim(input[i]);
      CollectLoopStep(input, stepPrefix, list, i, count);
      if IsExitWord(line) {
        return Got(list, input[i + 1..]);
      }
      if line != [] {
        if stepPrefix {
          list := list + [IntString(count) + ". " + line];
          count := count + 1;
        } else {
          list := list + [line];
        }
      }
      i := i + 1;
    }
    assert input[i..] == [];
    return EndOfInput;
  }

  // --------------------------------------------- a reference for the lists

  /** The index of the first line that trims to `exit`. */
  function FirstExit(input: seq<string>): (r: Option<nat>)
    ensures r.Some? ==> r.value < |input|
  {
    if input == [] then None
    else if IsExitWord(Trim(input[0])) then Some(0)
    else ShiftBy(FirstExit(input[1..]), 1)
  }

  /** `FirstExit` finds the first line that trims to `exit`, and finds none
      only when no line does. */
  lemma {:induction false} FirstExitIsFirst(input: seq<string>)
    ensures match FirstExit(input)
      case Some(k) => IsExitWord(Trim(input[k])) && forall i :: 0 <= i < k ==> !IsExitWord(Trim(input[i]))
      case None => forall i :: 0 <= i < |input| ==> !IsExitWord(Trim(input[i]))
  {
    if input != [] && !IsExitWord(Trim(input[0])) {
      var tail := input[1..];
      FirstExitIsFirst(tail);
      match FirstExit(tail)
      case None =>
        forall i | 0 <= i < |input|
          ensures !IsExitWord(Trim(input[i]))
        {
          if i > 0 {
            assert input[i] == tail[i - 1];
          }
        }
      case Some(k) =>
        assert FirstExit(input) == Some(k + 1);
        assert input[k + 1] == tail[k];
        forall i | 0 <= i < k + 1
          ensures !IsExitWord(Trim(input[i]))
        {
          if i > 0 {
            assert input[i] == tail[i - 1];
          }
        }
    }
  }

  /** The trimmed lines that are not blank, in order. */
  function Kept(lines: seq<string>): (r: seq<string>)
    ensures forall i :: 0 <= i < |r| ==> r[i] != []
  {
    if lines == [] then []
    else (if Trim(lines[0]) == [] then [] else [Trim(lines[0])]) + Kept(lines[1..])
  }

  /** Items numbered from `from`. */
  function Numbered(xs: seq<string>, from: int): (r: seq<string>)
    ensures |r| == |xs|
  {
    seq(|xs|, i requires 0 <= i < |xs| => IntString(from + i) + ". " + xs[i])
  }

  function Entries(lines: seq<string>, stepPrefix: bool, from: int): seq<string> {
    if stepPrefix then Numbered(Kept(lines), from) else Kept(lines)
  }

  lemma NumberedCons(x: string, xs: seq<string>, from: int)
    ensures Numbered([x] + xs, from) == [IntString(from) + ". " + x] + Numbered(xs, from + 1)
  {
  }

  /** The entry a line that is not `exit` adds, if any, and the step count
      that follows it. */
  function HeadEntry(line: string, stepPrefix: bool, count: int): seq<string> {
    if Trim(line) == [] then [] else [Entry(Trim(line), stepPrefix, count)]
  }

  function NextCount(line: string, stepPrefix: bool, count: int): int {
    if stepPrefix && Trim(line) != [] then count + 1 else count
  }

  lemma EntriesCons(x: string, xs: seq<string>, stepPrefix: bool, count: int)
    ensures Entries([x] + xs, stepPrefix, count)
         == HeadEntry(x, stepPrefix, count) + Entries(xs, stepPrefix, NextCount(x, stepPrefix, count))
  {
    var t := Trim(x);
    assert ([x] + xs)[0] == x && ([x] + xs)[1..] == xs;
    if stepPrefix && t != [] {
      NumberedCons(t, Kept(xs), count);
    }
  }

  /** The reference reading: the kept lines before the first `exit` line
      (numbered from `count` for steps) and the lines after it, or the end
      of the input when no line is `exit`. */
  function KeptBeforeExit(input: seq<string>, stepPrefix: bool, count: int): Read<seq<string>> {
    match FirstExit(input)
    case None => EndOfInput
    case Some(k) => Got(Entries(input[..k], stepPrefix, count), input[k + 1..])
  }

  lemma SplitAtFirst(input: seq<string>, k: nat)
    requires k < |input| - 1
    ensures input[..k + 1] == [input[0]] + input[1..][..k]
    ensures input[k + 2..] == input[1..][k + 1..]
  {
  }

  lemma GotAfter(whole: seq<string>, head: seq<string>, e: seq<string>, rest: seq<string>, rest': seq<string>)
    requires whole == head + e && rest == rest'
    ensures Got(whole, rest) == PrependAll(head, Got(e, rest'))
  {
  }

  lemma KeptBeforeExitFound(input: seq<string>, stepPrefix: bool, count: int, k: nat)
    requires input != [] && !IsExitWord(Trim(input[0])) && FirstExit(input[1..]) == Some(k)
    ensures KeptBeforeExit(input, stepPrefix, count)
         == PrependAll(HeadEntry(input[0], stepPrefix, count),
                       KeptBeforeExit(input[1..], stepPrefix, NextCount(input[0], stepPrefix, count)))
  {
    var tail := input[1..];
    var n := NextCount(input[0], stepPrefix, count);
    assert FirstExit(input) == Some(k + 1);
    var whole := Entries(input[..k + 1], stepPrefix, count);
    var e := Entries(tail[..k], stepPrefix, n);
    assert KeptBeforeExit(input, stepPrefix, count) == Got(whole, input[k + 2..]);
    assert KeptBeforeExit(tail, stepPrefix, n) == Got(e, tail[k + 1..]);
    SplitAtFirst(input, k);
    EntriesCons(input[0], tail[..k], stepPrefix, count);
    GotAfter(whole, HeadEntry(input[0], stepPrefix, count), e, input[k + 2..], tail[k + 1..]);
  }

  lemma KeptBeforeExitStep(input: seq<string>, stepPrefix: bool, count: int)
    requires input != [] && !IsExitWord(Trim(input[0]))
    ensures KeptBeforeExit(input, stepPrefix, count)
         == PrependAll(HeadEntry(input[0], stepPrefix, count),
                       KeptBeforeExit(input[1..], stepPrefix, NextCount(input[0], stepPrefix, count)))
  {
    if FirstExit(input[1..]).Some? {
      KeptBeforeExitFound(input, stepPrefix, count, FirstExit(input[1..]).value);
    }
  }

  lemma CollectStep(input: seq<string>, stepPrefix: bool, count: int)
    requires input != [] && !IsExitWord(Trim(input[0]))
    ensures Collect(input, stepPrefix, count)
         == PrependAll(HeadEntry(input[0], stepPrefix, count),
                       Collect(input[1..], stepPrefix, NextCount(input[0], stepPrefix, count)))
  {
    if Trim(input[0]) == [] {
      PrependNothing(Collect(input[1..], stepPrefix, count));
    }
  }

  /** `collectListInput` reads the kept lines before the first `exit` line
      (numbered from `count` for steps), and reading resumes after that
      line; with no `exit` line the input runs out. */
  lemma {:induction false} CollectIsKeptBeforeExit(input: seq<string>, stepPrefix: bool, count: int)
    ensures Collect(input, stepPrefix, count) == KeptBeforeExit(input, stepPrefix, count)
    decreases |input|
  {
    if input != [] {
      if IsExitWord(Trim(input[0])) {
        assert Entries(input[..0], stepPrefix, count) == [];
      } else {
        CollectIsKeptBeforeExit(input[1..], stepPrefix, NextCount(input[0], stepPrefix, count));
        CollectStep(input, stepPrefix, count);
        KeptBeforeExitStep(input, stepPrefix, count);
      }
    }
  }

  // ------------------------------------------------------ list properties

  /** A non-empty text with no whitespace at either end. */
  predicate TrimmedEnds(x: string) {
    x != [] && !IsWhitespace(x[0]) && !IsWhitespace(x[|x| - 1])
  }

  /** No entry is empty, and an ingredient has no surrounding whitespace. */
  lemma EntriesNotBlank(input: seq<string>, stepPrefix: bool, xs: seq<string>, rest: seq<string>)
    requires Collect(input, stepPrefix, 1) == Got(xs, rest)
    ensures forall i :: 0 <= i < |xs| ==> xs[i] != []
    ensures !stepPrefix ==> forall i :: 0 <= i < |xs| ==> TrimmedEnds(xs[i])
  {
    CollectIsKeptBeforeExit(input, stepPrefix, 1);
    KeptEnds(input[..FirstExit(input).value]);
  }

  /** Every kept line starts and ends with a character other than
      whitespace. */
  lemma {:induction false} KeptEnds(lines: seq<string>)
    ensures forall i :: 0 <= i < |Kept(lines)| ==> TrimmedEnds(Kept(lines)[i])
  {
    if lines != [] {
      var rest := Kept(lines[1..]);
      KeptEnds(lines[1..]);
      var t := Trim(lines[0]);
      TrimmedText(lines[0]);
      if t != [] {
        assert TrimmedEnds(t);
        assert Kept(lines) == [t] + rest;
        forall i | 1 <= i < |Kept(lines)|
          ensures Kept(lines)[i] == rest[i - 1]
        {
        }
      } else {
        assert Kept(lines) == rest;
      }
    }
  }

  /** A character no line holds is in no kept line. */
  lemma {:induction false} KeptAvoids(lines: seq<string>, c: char)
    requires forall j :: 0 <= j < |lines| ==> c !in lines[j]
    ensures forall i :: 0 <= i < |Kept(lines)| ==> c !in Kept(lines)[i]
  {
    if lines != [] {
      TrimmedText(lines[0]);
      KeptAvoids(lines[1..], c);
    }
  }

  /** The steps are the ingredients that the same lines would give,
      numbered 1, 2, 3, ... in order, and reading stops at the same line. */
  lemma StepsAreNumberedEntries(input: seq<string>)
    ensures match Collect(input, false, 1)
      case EndOfInput => Collect(input, true, 1) == EndOfInput
      case Got(xs, rest) => Collect(input, true, 1) == Got(Numbered(xs, 1), rest)
  {
    CollectIsKeptBeforeExit(input, false, 1);
    CollectIsKeptBeforeExit(input, true, 1);
  }

  /** The number in front of the `i`-th step reads back as `i + 1`. */
  lemma StepNumberReadsBack(xs: seq<string>, i: nat)
    requires i < |xs| && i + 1 <= MaxInt
    ensures SubstringBefore(Numbered(xs, 1)[i], ". ") == DecimalString(i + 1)
    ensures ToIntOrNull(SubstringBefore(Numbered(xs, 1)[i], ". ")) == Some(i + 1)
  {
    var ds := DecimalString(i + 1);
    assert '.' !in ds by {
      forall j | 0 <= j < |ds|
        ensures ds[j] != '.'
      {
        assert IsDigit(ds[j]);
      }
    }
    assert IntString(1 + i) == ds;
    assert Numbered(xs, 1)[i] == ds + (". " + xs[i]);
    BeforeHeadFree(ds, ". ", xs[i]);
    ParseDecimal(i + 1);
  }

  // -------------------------------------------------------------- defaults

  const DefaultTitle: string := "untitled_recipe"
  const DefaultAuthor: string := "unknown"
  const DefaultCookTime: string := "0mins"

  /** `s.ifBlank { default }`. */
  function IfBlank(s: string, default: string): (r: string)
    ensures !IsBlank(s) ==> r == s
    ensures IsBlank(s) ==> r == default
  {
    if IsBlank(s) then default else s
  }

  /** `addTitle()`: `readln().ifBlank { "untitled_recipe" }`. */
  function AddTitle(input: seq<string>): Read<string> {
    match ReadLine(input)
    case EndOfInput => EndOfInput
    case Got(line, rest) => Got(IfBlank(line, DefaultTitle), rest)
  }

  /** `addAuthor()`: `readln().ifBlank { "unknown" }`. */
  function AddAuthor(input: seq<string>): Read<string> {
    match ReadLine(input)
    case EndOfInput => EndOfInput
    case Got(line, rest) => Got(IfBlank(line, DefaultAuthor), rest)
  }

  /** The cook time: `readlnOrNull() ?: "0mins"`; a blank answer is kept. */
  function CookTime(input: seq<string>): (string, seq<string>) {
    if input == [] then (DefaultCookTime, []) else (input[0], input[1..])
  }

  /** The defaults are not blank, so a title or author read is never blank. */
  lemma DefaultsNotBlank()
    ensures !IsBlank(DefaultTitle) && !IsBlank(DefaultAuthor) && !IsBlank(DefaultCookTime)
  {
    assert !IsWhitespace(DefaultTitle[0]);
    assert !IsWhitespace(DefaultAuthor[0]);
    assert !IsWhitespace(DefaultCookTime[0]);
  }

  lemma TitleNeverBlank(input: seq<string>)
    ensures AddTitle(input).Got? ==> !IsBlank(AddTitle(input).value) && AddTitle(input).value != []
    ensures AddAuthor(input).Got? ==> !IsBlank(AddAuthor(input).value)
    ensures AddTitle(input).Got? <==> input != []
  {
    DefaultsNotBlank();
  }

  /** A blank answer is replaced only once: a non-blank title is kept as
      typed. */
  lemma IfBlankIdempotent(s: string, default: string)
    requires !IsBlank(default)
    ensures IfBlank(IfBlank(s, default), default) == IfBlank(s, default)
  {
  }

  // --------------------------------------------------- addInstructions / add

  function Instructions(input: seq<string>): Read<RecipeInstructions> {
    var (time, afterTime) := CookTime(input);
    match Collect(afterTime, false, 1)
    case EndOfInput => EndOfInput
    case Got(ingredients, afterIngredients) =>
      match Collect(afterIngredients, true, 1)
      case EndOfInput => EndOfInput
      case Got(steps, rest) => Got(RecipeInstructions(time, ingredients, steps), rest)
  }

  /** The cook time is kept as typed, blank or not; the `0mins` default
      never reaches a recipe, because at the end of the input the
      ingredient list cannot be read either. */
  lemma CookTimeAsTyped(input: seq<string>)
    ensures input != [] && Instructions(input).Got? ==> Instructions(input).value.time == input[0]
    ensures input == [] ==> Instructions(input) == EndOfInput
  {
  }

  /** `addInstructions()`. */
  method AddInstructions(input: seq<string>) returns (r: Read<RecipeInstructions>)
    ensures r == Instructions(input)
  {
    var (time, afterTime) := CookTime(input);
    var ingredients := CollectListInput(afterTime, false);
    if ingredients.EndOfInput? {
      return EndOfInput;
    }
    var steps := CollectListInput(ingredients.rest, true);
    if steps.EndOfInput? {
      return EndOfInput;
    }
    return Got(RecipeInstructions(time, ingredients.value, steps.value), steps.rest);
  }

  /** The recipe `addRecipe` builds from the console and the clock reading
      `date`. */
  function Capture(input: seq<string>, date: string): Read<FullRecipe> {
    match AddTitle(input)
    case EndOfInput => EndOfInput
    case Got(title, afterTitle) =>
      match AddAuthor(afterTitle)
      case EndOfInput => EndOfInput
      case Got(author, afterAuthor) =>
        match Instructions(afterAuthor)
        case EndOfInput => EndOfInput
        case Got(instructions, rest) => Got(FullRecipe(title, author, instructions, date), rest)
  }

  /** The input side of `addRecipe()`. */
  method CaptureRecipe(input: seq<string>, date: string) returns (r: Read<FullRecipe>)
    ensures r == Capture(input, date)
  {
    var title := AddTitle(input);
    if title.EndOfInput? {
      return EndOfInput;
    }
    var author := AddAuthor(title.rest);
    if author.EndOfInput? {
      return EndOfInput;
    }
    var instructions := AddInstructions(author.rest);
    if instructions.EndOfInput? {
      return EndOfInput;
    }
    return Got(FullRecipe(title.value, author.value, instructions.value, date), instructions.rest);
  }

  /** On a finite console whose cook-time answer is missing the program
      never gets a recipe: the ingredient list then hits the end of the
      input. */
  lemma MissingCookTimeFails(input: seq<string>, date: string)
    requires |input| == 2
    ensures Capture(input, date) == EndOfInput
  {
    assert input[1..][1..] == [];
  }
}
