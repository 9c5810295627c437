/** When does reading back a stored recipe give the recipe that was written?

    `Decode` finds each field by searching the whole text for a key such as
    `"time": "`. Every key has the shape `"name"` followed by a colon, so an
    occurrence can only start at a double quote that opens the text `name`
    and is closed by a quote followed by a colon. In an encoded recipe whose
    fields hold no double quote that happens on exactly one line per key,
    and each line before it can be skipped. The proof walks the encoded text
    line by line, and inside a line quote by quote. */
module RoundTrip {
  import opened KotlinText
  import opened Recipe
  import opened Codec

  // ------------------------------------------------------------------ keys

  predicate QuoteFree(s: string) {
    '"' !in s
  }

  predicate AllQuoteFree(xs: seq<string>) {
    forall i :: 0 <= i < |xs| ==> QuoteFree(xs[i])
  }

  predicate IsLower(c: char) {
    'a' <= c <= 'z'
  }

  /** The names of the keys `Decode` looks for: lower-case letters only. */
  predicate KeyName(name: string) {
    |name| > 0 && forall i :: 0 <= i < |name| ==> IsLower(name[i])
  }

  /** What follows the closing quote of a key name: `: "` or `: [`. */
  predicate KeyTail(tail: string) {
    |tail| > 0 && tail[0] == ':'
  }

  function KeyPattern(name: string, tail: string): string {
    "\"" + name + "\"" + tail
  }

  lemma OccursChar(s: string, k: nat, d: string, j: nat)
    ensures OccursAt(s, k, d) && j < |d| ==> s[k + j] == d[j]
  {
    if OccursAt(s, k, d) && j < |d| {
      assert s[k..k + |d|][j] == d[j];
    }
  }

  lemma OccursPrefix(s: string, d: string)
    ensures OccursAt(s, 0, d) ==> forall j :: 0 <= j < |d| ==> s[j] == d[j]
  {
    if OccursAt(s, 0, d) {
      forall j | 0 <= j < |d|
        ensures s[j] == d[j]
      {
        assert s[0..|d|][j] == s[j];
      }
    }
  }

  lemma KeyFacts(name: string, tail: string)
    ensures |KeyPattern(name, tail)| == |name| + 2 + |tail|
    ensures KeyPattern(name, tail)[0] == '"'
    ensures forall j :: 0 <= j < |name| ==> KeyPattern(name, tail)[1 + j] == name[j]
    ensures KeyPattern(name, tail)[1 + |name|] == '"'
    ensures |tail| > 0 ==> KeyPattern(name, tail)[2 + |name|] == tail[0]
  {
  }

  lemma ChunkFacts(c: string, y: string)
    ensures |"\"" + c + y| == 1 + |c| + |y|
    ensures ("\"" + c + y)[0] == '"'
    ensures forall j :: 0 <= j < |c| ==> ("\"" + c + y)[1 + j] == c[j]
    ensures forall j :: 0 <= j < |y| ==> ("\"" + c + y)[1 + |c| + j] == y[j]
  {
  }

  /** A quote followed by the quote-free text `c` holds no start of a key,
      unless `c` is the key name itself and the next quote is followed by a
      colon. */
  lemma ChunkNoKey(c: string, y: string, name: string, tail: string)
    requires KeyName(name) && KeyTail(tail) && QuoteFree(c)
    requires (|c| > 0 && !IsLower(c[0]))
          || ((y == [] || !IsLower(y[0])) && !(c == name && |y| >= 2 && y[0] == '"' && y[1] == ':'))
    ensures NoneStartsIn("\"" + c, y, KeyPattern(name, tail))
  {
    var s := "\"" + c + y;
    var d := KeyPattern(name, tail);
    var n := |name|;
    KeyFacts(name, tail);
    ChunkFacts(c, y);
    forall k | 0 <= k < 1 + |c|
      ensures !OccursAt(s, k, d)
    {
      OccursChar(s, k, d, 0);
      if k == 0 {
        var m := if |c| < n then |c| else n;
        OccursChar(s, 0, d, 1);
        OccursChar(s, 0, d, 1 + m);
        OccursChar(s, 0, d, 2 + n);
        OccursPrefix(s, d);
      } else {
        assert s[k] == c[k - 1];
      }
    }
  }

  /** No key starts inside `a + b` when none starts in `a` nor in `b`. */
  lemma NoneStartsAppend(a: string, b: string, y: string, d: string)
    requires NoneStartsIn(a, b + y, d) && NoneStartsIn(b, y, d)
    ensures NoneStartsIn(a + b, y, d)
  {
    assert (a + b) + y == a + (b + y);
    forall k | 0 <= k < |a + b|
      ensures !OccursAt((a + b) + y, k, d)
    {
      if k >= |a| {
        OccursAtShift(a, b + y, d, k - |a|);
      }
    }
  }

  /** Adding one quoted chunk in front. */
  lemma Prepend(c: string, b: string, y: string, name: string, tail: string)
    requires KeyName(name) && KeyTail(tail) && QuoteFree(c)
    requires (|c| > 0 && !IsLower(c[0]))
          || ((b + y == [] || !IsLower((b + y)[0]))
              && !(c == name && |b + y| >= 2 && (b + y)[0] == '"' && (b + y)[1] == ':'))
    requires NoneStartsIn(b, y, KeyPattern(name, tail))
    ensures NoneStartsIn("\"" + c + b, y, KeyPattern(name, tail))
  {
    ChunkNoKey(c, b + y, name, tail);
    NoneStartsAppend("\"" + c, b, y, KeyPattern(name, tail));
  }

  /** Adding quote-free text in front. */
  lemma FreePrepend(x: string, b: string, y: string, name: string, tail: string)
    requires QuoteFree(x)
    requires NoneStartsIn(b, y, KeyPattern(name, tail))
    ensures NoneStartsIn(x + b, y, KeyPattern(name, tail))
  {
    KeyFacts(name, tail);
    NoStartWithoutHead(x, b + y, KeyPattern(name, tail));
    NoneStartsAppend(x, b, y, KeyPattern(name, tail));
  }

  // ---------------------------------------------------------------- lines

  /** A line holding a string field: `ind"name": "value",`. */
  function FieldLine(ind: string, name: string, v: string): string {
    ind + "\"" + name + "\": \"" + v + "\","
  }

  /** A line holding a list field: `ind"name": ["a", "b"]`. */
  function ListLine(ind: string, name: string, xs: seq<string>): string {
    ind + "\"" + name + "\": " + ListLiteral(xs)
  }

  /** The text from line `j` of the encoded recipe to the end. */
  function From(r: FullRecipe, j: nat): string
    requires j < 10
  {
    JoinWith("\n", Lines(r)[j..])
  }

  lemma EncodeFrom(r: FullRecipe)
    requires Encodable(r)
    ensures Encode(r) == From(r, 0)
  {
    assert Lines(r)[0..] == Lines(r);
  }

  lemma FromStep(r: FullRecipe, j: nat)
    requires j < 9
    ensures From(r, j) == Lines(r)[j] + "\n" + From(r, j + 1)
  {
    assert Lines(r)[j..][1..] == Lines(r)[j + 1..];
  }

  /** The key each of the first seven lines holds ("" for the opening brace). */
  const LineKeys: seq<string> := ["", "title", "author", "date", "instructions", "time", "ingredients"]

  /** The fields hold no double quote, no line break, and no `]` inside an
      ingredient; then every line can be skipped when looking for another
      line's key. */
  predicate QuoteFreeFields(r: FullRecipe) {
    var t := r.instructions;
    Encodable(r)
    && QuoteFree(r.title) && QuoteFree(r.author) && QuoteFree(r.date) && QuoteFree(t.time)
    && AllQuoteFree(t.ingredients) && AllQuoteFree(t.steps)
    && (forall i :: 0 <= i < |t.ingredients| ==> ']' !in t.ingredients[i])
  }

  lemma FieldLineNoKey(ind: string, n: string, v: string, y: string, name: string, tail: string)
    requires KeyName(name) && KeyTail(tail)
    requires QuoteFree(ind) && QuoteFree(n) && QuoteFree(v) && n != name
    ensures NoneStartsIn(FieldLine(ind, n, v) + "\n", y, KeyPattern(name, tail))
  {
    var p5 := "\"" + ",\n";
    ChunkNoKey(",\n", y, name, tail);
    var p4 := "\"" + v + p5;
    Prepend(v, p5, y, name, tail);
    var p3 := "\"" + ": " + p4;
    Prepend(": ", p4, y, name, tail);
    var p2 := "\"" + n + p3;
    Prepend(n, p3, y, name, tail);
    FreePrepend(ind, p2, y, name, tail);
    assert FieldLine(ind, n, v) + "\n" == ind + p2;
  }

  lemma InstructionsLineNoKey(y: string, name: string, tail: string)
    requires KeyName(name) && KeyTail(tail) && name != "instructions"
    ensures NoneStartsIn("  \"instructions\": {" + "\n", y, KeyPattern(name, tail))
  {
    var p3 := "\"" + ": {\n";
    ChunkNoKey(": {\n", y, name, tail);
    var p2 := "\"" + "instructions" + p3;
    Prepend("instructions", p3, y, name, tail);
    FreePrepend("  ", p2, y, name, tail);
    assert "  \"instructions\": {" + "\n" == "  " + p2;
  }

  /** The text between the brackets of a non-empty list, less its opening quote. */
  function Body(xs: seq<string>): string
    requires |xs| > 0
  {
    if |xs| == 1 then xs[0] + "\"" else xs[0] + ItemSeparator + Body(xs[1..])
  }

  lemma {:induction false} ItemsRender(xs: seq<string>)
    requires |xs| > 0
    ensures JoinWith(", ", QuoteEach(xs)) == "\"" + Body(xs)
  {
    var q := QuoteEach(xs);
    if |xs| > 1 {
      ItemsRender(xs[1..]);
      assert q[1..] == QuoteEach(xs[1..]);
      var b := Body(xs[1..]);
      calc {
        JoinWith(", ", q);
        q[0] + ", " + JoinWith(", ", q[1..]);
        ("\"" + xs[0] + "\"") + ", " + ("\"" + b);
        { assert ("\"" + xs[0] + "\"") + ", " + ("\"" + b) == "\"" + (xs[0] + ItemSeparator + b); }
        "\"" + Body(xs);
      }
    }
  }

  lemma {:induction false} ItemsNoKey(xs: seq<string>, z: string, name: string, tail: string)
    requires KeyName(name) && KeyTail(tail)
    requires |xs| > 0 && AllQuoteFree(xs) && |z| > 0 && z[0] == ']'
    ensures NoneStartsIn("\"" + Body(xs), z, KeyPattern(name, tail))
  {
    if |xs| == 1 {
      ChunkNoKey("", z, name, tail);
      Prepend(xs[0], "\"" + "", z, name, tail);
      assert "\"" + Body(xs) == "\"" + xs[0] + ("\"" + "");
    } else {
      var b := "\"" + Body(xs[1..]);
      ItemsNoKey(xs[1..], z, name, tail);
      Prepend(", ", b, z, name, tail);
      Prepend(xs[0], "\"" + ", " + b, z, name, tail);
      assert "\"" + Body(xs) == "\"" + xs[0] + ("\"" + ", " + b);
    }
  }

  lemma EmptyIngredientsNoKey(y: string, name: string, tail: string)
    requires KeyName(name) && KeyTail(tail) && name != "ingredients"
    ensures NoneStartsIn(ListLine("    ", "ingredients", []) + "," + "\n", y, KeyPattern(name, tail))
  {
    assert QuoteEach([]) == [];
    var p3 := "\"" + ": [],\n";
    ChunkNoKey(": [],\n", y, name, tail);
    var p2 := "\"" + "ingredients" + p3;
    Prepend("ingredients", p3, y, name, tail);
    FreePrepend("    ", p2, y, name, tail);
    assert ListLine("    ", "ingredients", []) + "," + "\n" == "    " + p2;
  }

  /** The rendered items followed by `],` and a line break hold no key. */
  lemma ItemsCloseNoKey(xs: seq<string>, y: string, name: string, tail: string)
    requires KeyName(name) && KeyTail(tail) && |xs| > 0 && AllQuoteFree(xs)
    ensures NoneStartsIn(JoinWith(", ", QuoteEach(xs)) + "],\n", y, KeyPattern(name, tail))
  {
    var close := "],\n";
    ItemsRender(xs);
    KeyFacts(name, tail);
    NoStartWithoutHead(close, y, KeyPattern(name, tail));
    ItemsNoKey(xs, close + y, name, tail);
    NoneStartsAppend(JoinWith(", ", QuoteEach(xs)), close, y, KeyPattern(name, tail));
  }

  lemma IngredientsLineNoKey(xs: seq<string>, y: string, name: string, tail: string)
    requires KeyName(name) && KeyTail(tail) && name != "ingredients" && AllQuoteFree(xs)
    ensures NoneStartsIn(ListLine("    ", "ingredients", xs) + "," + "\n", y, KeyPattern(name, tail))
  {
    if xs == [] {
      EmptyIngredientsNoKey(y, name, tail);
    } else {
      var b := JoinWith(", ", QuoteEach(xs)) + "],\n";
      ItemsCloseNoKey(xs, y, name, tail);
      var p3 := "\"" + ": [" + b;
      Prepend(": [", b, y, name, tail);
      var p2 := "\"" + "ingredients" + p3;
      Prepend("ingredients", p3, y, name, tail);
      FreePrepend("    ", p2, y, name, tail);
      assert ListLine("    ", "ingredients", xs) + "," + "\n" == "    " + p2;
    }
  }

  lemma TitleLine(r: FullRecipe)
    ensures Lines(r)[1] == FieldLine("  ", "title", r.title)
  {
  }

  lemma AuthorLine(r: FullRecipe)
    ensures Lines(r)[2] == FieldLine("  ", "author", r.author)
  {
  }

  lemma DateLine(r: FullRecipe)
    ensures Lines(r)[3] == FieldLine("  ", "date", r.date)
  {
  }

  lemma InstructionsLine(r: FullRecipe)
    ensures Lines(r)[4] == "  \"instructions\": {"
  {
  }

  lemma TimeLine(r: FullRecipe)
    ensures Lines(r)[5] == FieldLine("    ", "time", r.instructions.time)
  {
  }

  lemma IngredientsLine(r: FullRecipe)
    ensures Lines(r)[6] == ListLine("    ", "ingredients", r.instructions.ingredients) + ","
  {
  }

  /** Line `j` (one of the first seven) holds no start of another line's key. */
  lemma LineNoKey(r: FullRecipe, j: nat, y: string, name: string, tail: string)
    requires QuoteFreeFields(r) && KeyName(name) && KeyTail(tail)
    requires j < 7 && name != LineKeys[j]
    ensures NoneStartsIn(Lines(r)[j] + "\n", y, KeyPattern(name, tail))
  {
    var t := r.instructions;
    if j == 0 {
      KeyFacts(name, tail);
      NoStartWithoutHead(Lines(r)[0] + "\n", y, KeyPattern(name, tail));
    } else if j == 1 {
      TitleLine(r);
      FieldLineNoKey("  ", "title", r.title, y, name, tail);
    } else if j == 2 {
      AuthorLine(r);
      FieldLineNoKey("  ", "author", r.author, y, name, tail);
    } else if j == 3 {
      DateLine(r);
      FieldLineNoKey("  ", "date", r.date, y, name, tail);
    } else if j == 4 {
      InstructionsLine(r);
      InstructionsLineNoKey(y, name, tail);
    } else if j == 5 {
      TimeLine(r);
      FieldLineNoKey("    ", "time", t.time, y, name, tail);
    } else {
      IngredientsLine(r);
      IngredientsLineNoKey(t.ingredients, y, name, tail);
    }
  }

  lemma SkipLine(r: FullRecipe, j: nat, key: string)
    requires j < 9
    requires NoneStartsIn(Lines(r)[j] + "\n", From(r, j + 1), key)
    requires IndexOf(From(r, j + 1), key).Some?
    ensures IndexOf(From(r, j), key).Some?
    ensures SubstringAfter(From(r, j), key) == SubstringAfter(From(r, j + 1), key)
  {
    FromStep(r, j);
    SkipPrefix(Lines(r)[j] + "\n", From(r, j + 1), key);
    AfterSkip(Lines(r)[j] + "\n", From(r, j + 1), key);
  }

  /** Searching from line `j` finds the key of line `k` when no line in
      between holds it. */
  lemma {:induction false} SkipRange(r: FullRecipe, j: nat, k: nat, name: string, tail: string)
    requires QuoteFreeFields(r) && KeyName(name) && KeyTail(tail)
    requires j <= k <= 7 && name !in LineKeys[j..k]
    requires IndexOf(From(r, k), KeyPattern(name, tail)).Some?
    ensures IndexOf(From(r, j), KeyPattern(name, tail)).Some?
    ensures SubstringAfter(From(r, j), KeyPattern(name, tail))
         == SubstringAfter(From(r, k), KeyPattern(name, tail))
    decreases k - j
  {
    if j < k {
      assert LineKeys[j..k][0] == LineKeys[j];
      assert LineKeys[j + 1..k] == LineKeys[j..k][1..];
      SkipRange(r, j + 1, k, name, tail);
      LineNoKey(r, j, From(r, j + 1), name, tail);
      SkipLine(r, j, KeyPattern(name, tail));
    }
  }

  /** Searching the whole text finds the key of line `k` on that line. */
  lemma KeyOnLine(r: FullRecipe, k: nat, name: string, tail: string)
    requires QuoteFreeFields(r) && KeyName(name) && KeyTail(tail)
    requires k <= 7 && name !in LineKeys[..k]
    requires IndexOf(From(r, k), KeyPattern(name, tail)).Some?
    ensures SubstringAfter(Encode(r), KeyPattern(name, tail)) == SubstringAfter(From(r, k), KeyPattern(name, tail))
  {
    assert LineKeys[0..k] == LineKeys[..k];
    SkipRange(r, 0, k, name, tail);
    EncodeFrom(r);
  }

  // ------------------------------------------------------------- the fields

  lemma FieldAfterKey(ind: string, name: string, v: string, y: string)
    requires QuoteFree(ind)
    ensures IndexOf(FieldLine(ind, name, v) + "\n" + y, KeyPattern(name, ": \"")).Some?
    ensures SubstringAfter(FieldLine(ind, name, v) + "\n" + y, KeyPattern(name, ": \""))
         == v + (ValueEnd + ("\n" + y))
  {
    var key := KeyPattern(name, ": \"");
    var rest := v + (ValueEnd + ("\n" + y));
    assert FieldLine(ind, name, v) + "\n" + y == ind + (key + rest);
    KeyFacts(name, ": \"");
    NoStartWithoutHead(ind, key + rest, key);
    FoundAtStart(key, rest);
    SkipPrefix(ind, key + rest, key);
    AfterSkip(ind, key + rest, key);
    AfterStart(key, rest);
  }

  /** A string field on line `k` is read back as written. */
  lemma FieldFound(r: FullRecipe, k: nat, ind: string, name: string, v: string)
    requires QuoteFreeFields(r) && KeyName(name) && 1 <= k <= 5
    requires QuoteFree(ind) && QuoteFree(v)
    requires Lines(r)[k] == FieldLine(ind, name, v) && name !in LineKeys[..k]
    ensures StringField(Encode(r), KeyPattern(name, ": \"")) == v
  {
    var y := From(r, k + 1);
    FromStep(r, k);
    FieldAfterKey(ind, name, v, y);
    assert LineKeys[0..k] == LineKeys[..k];
    SkipRange(r, 0, k, name, ": \"");
    EncodeFrom(r);
    BeforeHeadFree(v, ValueEnd, "\n" + y);
  }

  lemma DecodeTitle(r: FullRecipe)
    requires QuoteFreeFields(r)
    ensures StringField(Encode(r), TitleKey) == r.title
  {
    assert TitleKey == KeyPattern("title", ": \"");
    FieldFound(r, 1, "  ", "title", r.title);
  }

  lemma DecodeAuthor(r: FullRecipe)
    requires QuoteFreeFields(r)
    ensures StringField(Encode(r), AuthorKey) == r.author
  {
    assert AuthorKey == KeyPattern("author", ": \"");
    FieldFound(r, 2, "  ", "author", r.author);
  }

  lemma DecodeDate(r: FullRecipe)
    requires QuoteFreeFields(r)
    ensures StringField(Encode(r), DateKey) == r.date
  {
    assert DateKey == KeyPattern("date", ": \"");
    FieldFound(r, 3, "  ", "date", r.date);
  }

  lemma DecodeTime(r: FullRecipe)
    requires QuoteFreeFields(r)
    ensures StringField(Encode(r), TimeKey) == r.instructions.time
  {
    assert TimeKey == KeyPattern("time", ": \"");
    FieldFound(r, 5, "    ", "time", r.instructions.time);
  }

  // -------------------------------------------------------------- the lists

  lemma ListAfterKey(ind: string, name: string, xs: seq<string>, rest: string)
    requires QuoteFree(ind)
    ensures IndexOf(ListLine(ind, name, xs) + rest, KeyPattern(name, ": [")).Some?
    ensures SubstringAfter(ListLine(ind, name, xs) + rest, KeyPattern(name, ": ["))
         == JoinWith(", ", QuoteEach(xs)) + ("]" + rest)
  {
    var key := KeyPattern(name, ": [");
    var after := JoinWith(", ", QuoteEach(xs)) + ("]" + rest);
    assert ListLine(ind, name, xs) + rest == ind + (key + after);
    KeyFacts(name, ": [");
    NoStartWithoutHead(ind, key + after, key);
    FoundAtStart(key, after);
    SkipPrefix(ind, key + after, key);
    AfterSkip(ind, key + after, key);
    AfterStart(key, after);
  }

  /** A character in no item, other than the quote, comma and space, is not
      in the rendered items. */
  lemma {:induction false} ItemsChars(xs: seq<string>, c: char)
    requires c != '"' && c != ',' && c != ' '
    requires forall i :: 0 <= i < |xs| ==> c !in xs[i]
    ensures c !in JoinWith(", ", QuoteEach(xs))
  {
    if |xs| > 0 {
      ItemsChars(xs[1..], c);
      assert QuoteEach(xs)[1..] == QuoteEach(xs[1..]);
    }
  }

  lemma {:induction false} ItemsLast(xs: seq<string>)
    requires |xs| > 0
    ensures var j := JoinWith(", ", QuoteEach(xs)); |j| > 0 && j[|j| - 1] == '"'
  {
    if |xs| > 1 {
      ItemsLast(xs[1..]);
      assert QuoteEach(xs)[1..] == QuoteEach(xs[1..]);
    }
  }

  /** Line 6 holds the ingredients key, followed by the rendered items,
      then `],` and the next line. */
  lemma IngredientsOnLine(r: FullRecipe)
    ensures IndexOf(From(r, 6), IngredientsKey).Some?
    ensures SubstringAfter(From(r, 6), IngredientsKey)
         == JoinWith(", ", QuoteEach(r.instructions.ingredients)) + (IngredientsEnd + ("\n" + From(r, 7)))
  {
    var y := From(r, 7);
    FromStep(r, 6);
    IngredientsLineRest(r, y);
    ListAfterKey("    ", "ingredients", r.instructions.ingredients, ",\n" + y);
    IngredientsKeyShape();
    IngredientsClose(y);
  }

  lemma IngredientsLineRest(r: FullRecipe, y: string)
    ensures Lines(r)[6] + "\n" + y == ListLine("    ", "ingredients", r.instructions.ingredients) + (",\n" + y)
  {
  }

  lemma IngredientsClose(y: string)
    ensures "]" + (",\n" + y) == IngredientsEnd + ("\n" + y)
  {
  }

  lemma IngredientsKeyShape()
    ensures KeyName("ingredients") && KeyTail(": [")
    ensures IngredientsKey == KeyPattern("ingredients", ": [")
    ensures "ingredients" !in LineKeys[..6]
  {
    assert LineKeys[..6] == ["", "title", "author", "date", "instructions", "time"];
  }

  /** Past the ingredients key comes the rendered items, then `],` and the
      next line. */
  lemma AfterIngredientsKey(r: FullRecipe)
    requires QuoteFreeFields(r)
    ensures SubstringAfter(Encode(r), IngredientsKey)
         == JoinWith(", ", QuoteEach(r.instructions.ingredients)) + (IngredientsEnd + ("\n" + From(r, 7)))
  {
    IngredientsOnLine(r);
    IngredientsKeyShape();
    KeyOnLine(r, 6, "ingredients", ": [");
  }

  /** The text `Decode` takes as the ingredient list is the rendered items. */
  lemma IngredientsText(r: FullRecipe)
    requires QuoteFreeFields(r)
    ensures SubstringBefore(SubstringAfter(Encode(r), IngredientsKey), IngredientsEnd)
         == JoinWith(", ", QuoteEach(r.instructions.ingredients))
  {
    AfterIngredientsKey(r);
    ItemsChars(r.instructions.ingredients, ']');
    BeforeHeadFree(JoinWith(", ", QuoteEach(r.instructions.ingredients)), IngredientsEnd, "\n" + From(r, 7));
  }

  /** A step may hold `]`, but never `]` followed by a line break. */
  lemma NoStartWithoutSecond(x: string, y: string, d: string)
    requires |d| >= 2 && d[1] !in x
    requires |x| > 0 ==> x[|x| - 1] != d[0]
    ensures NoneStartsIn(x, y, d)
  {
    forall k | 0 <= k < |x|
      ensures !OccursAt(x + y, k, d)
    {
      OccursChar(x + y, k, d, 0);
      OccursChar(x + y, k, d, 1);
      assert (x + y)[k] == x[k];
      if k + 1 < |x| {
        assert (x + y)[k + 1] == x[k + 1];
      }
    }
  }

  lemma StepsLine(r: FullRecipe, y: string)
    ensures Lines(r)[7] + "\n" + y == ListLine("    ", "steps", r.instructions.steps) + ("\n" + y)
  {
  }

  /** Line 7 holds the steps key, followed by the rendered items, then `]`
      and the closing lines. */
  lemma StepsOnLine(r: FullRecipe)
    ensures IndexOf(From(r, 7), StepsKey).Some?
    ensures SubstringAfter(From(r, 7), StepsKey)
         == JoinWith(", ", QuoteEach(r.instructions.steps)) + (StepsEnd + From(r, 8))
  {
    var y := From(r, 8);
    FromStep(r, 7);
    StepsLine(r, y);
    ListAfterKey("    ", "steps", r.instructions.steps, "\n" + y);
    StepsKeyShape();
    assert "]" + ("\n" + y) == StepsEnd + y;
  }

  lemma StepsKeyShape()
    ensures KeyName("steps") && KeyTail(": [")
    ensures StepsKey == KeyPattern("steps", ": [")
    ensures "steps" !in LineKeys[..7]
  {
    assert LineKeys[..7] == LineKeys;
  }

  /** Past the steps key comes the rendered items, then `]` and the closing
      lines. */
  lemma AfterStepsKey(r: FullRecipe)
    requires QuoteFreeFields(r)
    ensures SubstringAfter(Encode(r), StepsKey)
         == JoinWith(", ", QuoteEach(r.instructions.steps)) + (StepsEnd + From(r, 8))
  {
    StepsOnLine(r);
    StepsKeyShape();
    KeyOnLine(r, 7, "steps", ": [");
  }

  /** The text `Decode` takes as the step list is the rendered items. */
  lemma StepsText(r: FullRecipe)
    requires QuoteFreeFields(r)
    ensures SubstringBefore(SubstringAfter(Encode(r), StepsKey), StepsEnd)
         == JoinWith(", ", QuoteEach(r.instructions.steps))
  {
    var xs := r.instructions.steps;
    var j := JoinWith(", ", QuoteEach(xs));
    var y := From(r, 8);
    AfterStepsKey(r);
    FoundAtStart(StepsEnd, y);
    if xs != [] {
      assert forall i :: 0 <= i < |xs| ==> '\n' !in xs[i];
      ItemsChars(xs, '\n');
      ItemsLast(xs);
      NoStartWithoutSecond(j, StepsEnd + y, StepsEnd);
      BeforeSkip(j, StepsEnd + y, StepsEnd);
    } else {
      assert QuoteEach(xs) == [];
    }
  }

  // ------------------------------------------------------ splitting the items

  lemma ShortNoOccurrence(s: string, d: string)
    requires |s| < |d|
    ensures IndexOf(s, d).None?
  {
  }

  lemma UnquoteCons(a: string, rest: seq<string>)
    ensures UnquoteEach([a] + rest) == [TrimChar(a, '"')] + UnquoteEach(rest)
  {
  }

  /** A piece with no separator and no quote but a last one. */
  lemma LastPiece(x: string)
    requires QuoteFree(x)
    ensures Split(x + "\"", ItemSeparator) == [x + "\""]
    ensures UnquoteEach([x + "\""]) == [x]
  {
    NoStartWithoutHead(x, "\"", ItemSeparator);
    SkipPrefix(x, "\"", ItemSeparator);
    ShortNoOccurrence("\"", ItemSeparator);
    SplitWhole(x + "\"");
    TrimCharWrapped(x, '"');
    UnquoteCons(x + "\"", []);
  }

  /** A quote-free item followed by the separator is one piece. */
  lemma InnerPiece(x: string, b: string)
    requires QuoteFree(x)
    ensures Split(x + ItemSeparator + b, ItemSeparator) == [x] + Split(b, ItemSeparator)
  {
    NoStartWithoutHead(x, ItemSeparator + b, ItemSeparator);
    SplitAfterLead(x, b);
  }

  lemma ConsPiece(x: string, b: string, ys: seq<string>)
    requires QuoteFree(x) && UnquoteEach(Split(b, ItemSeparator)) == ys
    ensures UnquoteEach(Split(x + ItemSeparator + b, ItemSeparator)) == [x] + ys
  {
    InnerPiece(x, b);
    TrimCharAbsent(x, '"');
    UnquoteCons(x, Split(b, ItemSeparator));
  }

  lemma BodyStep(xs: seq<string>)
    requires |xs| > 1 && AllQuoteFree(xs)
    requires UnquoteEach(Split(Body(xs[1..]), ItemSeparator)) == xs[1..]
    ensures UnquoteEach(Split(Body(xs), ItemSeparator)) == [xs[0]] + xs[1..]
  {
    assert QuoteFree(xs[0]);
    assert Body(xs) == xs[0] + ItemSeparator + Body(xs[1..]);
    ConsPiece(xs[0], Body(xs[1..]), xs[1..]);
  }

  lemma HeadTail<T>(xs: seq<T>)
    requires |xs| > 0
    ensures [xs[0]] + xs[1..] == xs
  {
  }

  /** The body of a list (all but its opening quote) splits and unquotes back
      into its items. */
  lemma {:induction false} UnquoteBody(xs: seq<string>)
    requires |xs| > 0 && AllQuoteFree(xs)
    ensures UnquoteEach(Split(Body(xs), ItemSeparator)) == xs
  {
    if |xs| == 1 {
      assert QuoteFree(xs[0]);
      LastPiece(xs[0]);
    } else {
      UnquoteBody(xs[1..]);
      BodyStep(xs);
      HeadTail(xs);
    }
  }

  /** The opening quote of a list only starts a separator when the first
      item is exactly `", "`. */
  lemma LeadMismatch(x: string, y: string)
    requires QuoteFree(x) && x != ", "
    requires |y| > 0 && y[0] == '"'
    ensures !OccursAt("\"" + x + y, 0, ItemSeparator)
  {
    var s := "\"" + x + y;
    OccursChar(s, 0, ItemSeparator, 1);
    OccursChar(s, 0, ItemSeparator, 2);
    OccursChar(s, 0, ItemSeparator, 3);
    if |x| >= 3 {
      assert s[3] == x[2];
    } else if |x| == 2 {
      assert s[1] == x[0] && s[2] == x[1];
      assert x == [x[0], x[1]];
    } else if |x| == 1 {
      assert s[2] == y[0];
    } else {
      assert s[1] == y[0];
    }
  }

  /** No separator starts in the first item or its opening quote. */
  lemma LeadNoSeparator(x: string, y: string)
    requires QuoteFree(x) && x != ", "
    requires |y| > 0 && y[0] == '"'
    ensures NoneStartsIn("\"" + x, y, ItemSeparator)
  {
    forall k | 0 <= k < 1 + |x|
      ensures !OccursAt("\"" + x + y, k, ItemSeparator)
    {
      if k == 0 {
        LeadMismatch(x, y);
      } else {
        OccursChar("\"" + x + y, k, ItemSeparator, 0);
        assert ("\"" + x + y)[k] == x[k - 1];
      }
    }
  }

  /** A text with no separator is one piece. */
  lemma SplitWhole(s: string)
    requires IndexOf(s, ItemSeparator).None?
    ensures Split(s, ItemSeparator) == [s]
  {
  }

  /** Splitting where the first separator follows `lead`. */
  lemma SplitAfterLead(lead: string, b: string)
    requires NoneStartsIn(lead, ItemSeparator + b, ItemSeparator)
    ensures Split(lead + ItemSeparator + b, ItemSeparator) == [lead] + Split(b, ItemSeparator)
  {
    FoundAtStart(ItemSeparator, b);
    SkipPrefix(lead, ItemSeparator + b, ItemSeparator);
    assert lead + ItemSeparator + b == lead + (ItemSeparator + b);
    SplitStep(lead, ItemSeparator, b);
  }

  /** An empty list is read back as the one-item list `[""]`. */
  function OrBlankItem(xs: seq<string>): seq<string> {
    if xs == [] then [""] else xs
  }

  /** A one-item list `"x"` reads back as `[x]`. */
  lemma UnquoteSingle(x: string)
    requires QuoteFree(x) && x != ", "
    ensures UnquoteEach(Split("\"" + Body([x]), ItemSeparator)) == [x]
  {
    var lead := "\"" + x;
    assert "\"" + Body([x]) == lead + "\"";
    LeadNoSeparator(x, "\"");
    SkipPrefix(lead, "\"", ItemSeparator);
    ShortNoOccurrence("\"", ItemSeparator);
    SplitWhole(lead + "\"");
    TrimCharWrapped(x, '"');
    assert lead + "\"" == ['"'] + x + ['"'];
    UnquoteCons(lead + "\"", []);
  }

  /** The first piece keeps the opening quote, which the trim removes. */
  lemma LeadPiece(x: string, b: string, ys: seq<string>)
    requires QuoteFree(x) && x != ", " && UnquoteEach(Split(b, ItemSeparator)) == ys
    ensures UnquoteEach(Split("\"" + x + ItemSeparator + b, ItemSeparator)) == [x] + ys
  {
    LeadNoSeparator(x, ItemSeparator + b);
    SplitAfterLead("\"" + x, b);
    TrimCharWrapped(x, '"');
    UnquoteCons("\"" + x, Split(b, ItemSeparator));
  }

  /** A longer list splits after its first item. */
  lemma UnquoteLonger(xs: seq<string>)
    requires |xs| > 1 && AllQuoteFree(xs) && xs[0] != ", "
    ensures UnquoteEach(Split("\"" + Body(xs), ItemSeparator)) == xs
  {
    var x, b := xs[0], Body(xs[1..]);
    assert QuoteFree(x);
    LongerBody(xs);
    UnquoteBody(xs[1..]);
    LeadPiece(x, b, xs[1..]);
    HeadTail(xs);
  }

  lemma LongerBody(xs: seq<string>)
    requires |xs| > 1
    ensures "\"" + Body(xs) == "\"" + xs[0] + ItemSeparator + Body(xs[1..])
  {
    var b := Body(xs[1..]);
    assert Body(xs) == xs[0] + ItemSeparator + b;
    Associate("\"", xs[0], ItemSeparator, b);
  }

  lemma Associate(a: string, x: string, d: string, b: string)
    ensures a + (x + d + b) == a + x + d + b
  {
  }

  /** Splitting the rendered items and trimming their quotes gives the items. */
  lemma DecodeItems(xs: seq<string>)
    requires AllQuoteFree(xs) && (xs != [] ==> xs[0] != ", ")
    ensures UnquoteEach(Split(JoinWith(", ", QuoteEach(xs)), ItemSeparator)) == OrBlankItem(xs)
  {
    if xs == [] {
      assert QuoteEach(xs) == [];
      ShortNoOccurrence("", ItemSeparator);
      SplitWhole("");
      assert TrimChar("", '"') == "";
    } else {
      ItemsRender(xs);
      if |xs| == 1 {
        assert QuoteFree(xs[0]);
        assert xs == [xs[0]];
        UnquoteSingle(xs[0]);
      } else {
        UnquoteLonger(xs);
      }
    }
  }

  // ------------------------------------------------------------ the theorem

  /** What a recipe must satisfy to be read back unchanged (up to empty
      lists): its fields hold no double quote and no line break, no
      ingredient holds `]`, and no list starts with the item `, `. */
  predicate Decodable(r: FullRecipe) {
    QuoteFreeFields(r)
    && (r.instructions.ingredients != [] ==> r.instructions.ingredients[0] != ", ")
    && (r.instructions.steps != [] ==> r.instructions.steps[0] != ", ")
  }

  /** Decoding an encoded recipe gives back every field and the items of
      both lists in order, except that an empty list comes back as `[""]`. */
  lemma DecodeEncode(r: FullRecipe)
    requires Decodable(r)
    ensures Decode(Encode(r)) == FullRecipe(r.title, r.author,
      RecipeInstructions(r.instructions.time,
                         OrBlankItem(r.instructions.ingredients),
                         OrBlankItem(r.instructions.steps)),
      r.date)
  {
    DecodeTitle(r);
    DecodeAuthor(r);
    DecodeDate(r);
    DecodeTime(r);
    IngredientsText(r);
    DecodeItems(r.instructions.ingredients);
    StepsText(r);
    DecodeItems(r.instructions.steps);
  }

  /** With both lists non-empty the round trip is exact. */
  lemma RoundTrip(r: FullRecipe)
    requires Decodable(r)
    requires r.instructions.ingredients != [] && r.instructions.steps != []
    ensures Decode(Encode(r)) == r
  {
    DecodeEncode(r);
  }

  // ---------------------------------------------- where the round trip fails

  /** The item `, ` renders as exactly the separator, which splits into two
      empty pieces. */
  lemma SeparatorSplits()
    ensures UnquoteEach(Split(JoinWith(", ", QuoteEach([", "])), ItemSeparator)) == ["", ""]
  {
    assert JoinWith(", ", QuoteEach([", "])) == "" + ItemSeparator + "";
    FoundAtStart(ItemSeparator, "");
    SplitStep("", ItemSeparator, "");
    ShortNoOccurrence("", ItemSeparator);
    SplitWhole("");
    assert TrimChar("", '"') == "";
  }

  /** The single ingredient `, ` is read back as two empty ingredients. */
  lemma SeparatorItemSplits(r: FullRecipe)
    requires QuoteFreeFields(r) && r.instructions.ingredients == [", "]
    ensures Decode(Encode(r)).instructions.ingredients == ["", ""]
  {
    IngredientsText(r);
    SeparatorSplits();
  }

  lemma TitleKeyShape()
    ensures TitleKey == KeyPattern("title", ": \"")
  {
  }

  /** The title line, whatever the title holds, comes right after the
      opening brace, which holds no quote. */
  lemma TitleAfterBrace(r: FullRecipe)
    requires Encodable(r)
    ensures SubstringAfter(Encode(r), TitleKey) == r.title + (ValueEnd + ("\n" + From(r, 2)))
  {
    var key := TitleKey;
    TitleKeyShape();
    FromStep(r, 1);
    TitleLine(r);
    FieldAfterKey("  ", "title", r.title, From(r, 2));
    KeyFacts("title", ": \"");
    assert Lines(r)[0] == "{";
    NoStartWithoutHead(Lines(r)[0] + "\n", From(r, 1), key);
    SkipLine(r, 0, key);
    EncodeFrom(r);
  }

  lemma CutAtValueEnd(x: string, rest: string, z: string)
    ensures (x + "\"," + rest) + (ValueEnd + z) == x + (ValueEnd + (rest + (ValueEnd + z)))
  {
  }

  lemma DecodedTitle(content: string)
    ensures Decode(content).title == StringField(content, TitleKey)
  {
  }

  /** A title holding a quote followed by a comma is cut short there: there
      is no escaping in the stored text. */
  lemma QuoteCommaCutsTitle(r: FullRecipe, x: string, rest: string)
    requires Encodable(r) && QuoteFree(x) && r.title == x + "\"," + rest
    ensures Decode(Encode(r)).title == x
  {
    var z := "\n" + From(r, 2);
    TitleAfterBrace(r);
    CutAtValueEnd(x, rest, z);
    BeforeHeadFree(x, ValueEnd, rest + (ValueEnd + z));
    DecodedTitle(Encode(r));
  }
}
