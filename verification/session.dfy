/** A whole `addRecipe()` session followed by `viewRecipes()`
    (RecipeStorageProgram.kt:144-168 and :42-85): a recipe typed at the
    console, written to the folder and chosen from the listing is read back
    as typed, as long as the typed text stays clear of the characters the
    stored format uses for its own structure. */
module Session {
  import opened KotlinText
  import opened Recipe
  import opened Codec
  import opened RoundTrip
  import opened Input

  /** A console line the stored format is sure to carry unchanged: no
      double quote, no line break and no `]`. These conditions are enough,
      not exact: some lines holding a quote or a `]` also read back
      unchanged, and the model does not say which. */
  predicate Plain(line: string) {
    '"' !in line && '\n' !in line && '\r' !in line && ']' !in line
  }

  predicate AllPlain(lines: seq<string>) {
    forall i :: 0 <= i < |lines| ==> Plain(lines[i])
  }

  lemma PlainSuffix(lines: seq<string>, k: nat)
    requires AllPlain(lines) && k <= |lines|
    ensures AllPlain(lines[k..]) && AllPlain(lines[..k])
  {
    forall i | 0 <= i < |lines| - k
      ensures Plain(lines[k..][i])
    {
      assert lines[k..][i] == lines[k + i];
    }
    forall i | 0 <= i < k
      ensures Plain(lines[..k][i])
    {
      assert lines[..k][i] == lines[i];
    }
  }

  /** A number written in decimal is plain. */
  lemma DigitsPlain(n: nat)
    ensures Plain(DecimalString(n))
  {
    var ds := DecimalString(n);
    forall j | 0 <= j < |ds|
      ensures ds[j] != '"' && ds[j] != '\n' && ds[j] != '\r' && ds[j] != ']'
    {
      assert IsDigit(ds[j]);
    }
  }

  lemma DefaultsPlain()
    ensures Plain(DefaultTitle) && Plain(DefaultAuthor) && Plain(DefaultCookTime)
  {
    NoBoundary(DefaultTitle);
    NoBoundary(DefaultAuthor);
    NoBoundary(DefaultCookTime);
  }

  /** A text of lower-case letters, digits and underscores is plain. */
  lemma NoBoundary(s: string)
    requires forall i :: 0 <= i < |s| ==> 'a' <= s[i] <= 'z' || '0' <= s[i] <= '9' || s[i] == '_'
    ensures Plain(s)
  {
  }

  /** The ingredients read from plain lines are plain, have no whitespace at
      either end, and the lines left are plain. */
  lemma CollectedPlain(input: seq<string>, xs: seq<string>, rest: seq<string>)
    requires AllPlain(input) && Collect(input, false, 1) == Got(xs, rest)
    ensures AllPlain(xs) && AllPlain(rest)
    ensures forall i :: 0 <= i < |xs| ==> TrimmedEnds(xs[i])
  {
    CollectIsKeptBeforeExit(input, false, 1);
    var k := FirstExit(input).value;
    PlainSuffix(input, k);
    PlainSuffix(input, k + 1);
    var lines := input[..k];
    KeptAvoids(lines, '"');
    KeptAvoids(lines, '\n');
    KeptAvoids(lines, '\r');
    KeptAvoids(lines, ']');
    KeptEnds(lines);
  }

  /** Numbering plain items keeps them free of quotes and line breaks, and
      every numbered item starts with a digit. */
  lemma NumberedPlain(xs: seq<string>)
    requires AllPlain(xs)
    ensures AllPlain(Numbered(xs, 1))
    ensures forall i :: 0 <= i < |xs| ==> IsDigit(Numbered(xs, 1)[i][0])
  {
    forall i | 0 <= i < |xs|
      ensures Plain(Numbered(xs, 1)[i]) && IsDigit(Numbered(xs, 1)[i][0])
    {
      var ds := DecimalString(1 + i);
      assert IntString(1 + i) == ds;
      DigitsPlain(1 + i);
      assert Numbered(xs, 1)[i] == ds + (". " + xs[i]);
    }
  }

  /** A recipe captured from plain console lines and a plain date meets
      the conditions of the round trip. */
  lemma CapturedDecodable(input: seq<string>, date: string, r: FullRecipe, rest: seq<string>)
    requires AllPlain(input) && Plain(date)
    requires Capture(input, date) == Got(r, rest)
    ensures Encodable(r) && Decodable(r)
  {
    DefaultsPlain();
    assert |input| >= 2;
    PlainSuffix(input, 2);
    var (time, afterTime) := CookTime(input[2..]);
    if input[2..] != [] {
      PlainSuffix(input[2..], 1);
    }
    var ingredients := Collect(afterTime, false, 1);
    CollectedPlain(afterTime, ingredients.value, ingredients.rest);
    StepsAreNumberedEntries(ingredients.rest);
    var ys := Collect(ingredients.rest, false, 1);
    CollectedPlain(ingredients.rest, ys.value, ys.rest);
    NumberedPlain(ys.value);
    var steps := Numbered(ys.value, 1);
    assert r.instructions == RecipeInstructions(time, ingredients.value, steps);
    if ingredients.value != [] {
      assert TrimmedEnds(ingredients.value[0]);
      assert IsWhitespace(", "[1]);
    }
    if steps != [] {
      assert IsDigit(steps[0][0]);
    }
  }

  /** A recipe captured from plain console lines and a plain date can be
      stored and read back: `viewRecipes` shows every field and both lists
      as typed (an empty list is shown as one empty item). */
  lemma CapturedRecipeReadsBack(input: seq<string>, date: string, r: FullRecipe, rest: seq<string>)
    requires AllPlain(input) && Plain(date)
    requires Capture(input, date) == Got(r, rest)
    ensures Encodable(r)
    ensures Decode(Encode(r)) == FullRecipe(r.title, r.author,
      RecipeInstructions(r.instructions.time,
                         OrBlankItem(r.instructions.ingredients),
                         OrBlankItem(r.instructions.steps)),
      r.date)
  {
    CapturedDecodable(input, date, r, rest);
    DecodeEncode(r);
  }
}
