/** The hand-rolled text format of a stored recipe: the JSON-shaped template
    written by `addRecipe` and `saveEditedRecipe`
    (RecipeStorageProgram.kt:151-162 and :103-114) and the
    `substringAfter` / `substringBefore` / `split` / `trim('"')` chain that
    `viewRecipes` uses to read it back (RecipeStorageProgram.kt:60-70). */
module Codec {
  import opened KotlinText
  import opened Recipe

  // ------------------------------------------------------------------ encoding

  predicate NoLineBreak(s: string) {
    '\n' !in s && '\r' !in s
  }

  predicate AllNoLineBreak(xs: seq<string>) {
    forall i :: 0 <= i < |xs| ==> NoLineBreak(xs[i])
  }

  /** The template is passed through `trimIndent()`, which cuts the text into
      lines at LF, CR and CRLF. When no field holds a line break every line of
      the template keeps its four-space margin, and the result is the text
      built by `Encode`. */
  predicate Encodable(r: FullRecipe) {
    NoLineBreak(r.title) && NoLineBreak(r.author) && NoLineBreak(r.date)
    && NoLineBreak(r.instructions.time)
    && AllNoLineBreak(r.instructions.ingredients)
    && AllNoLineBreak(r.instructions.steps)
  }

  /** `xs.map { "\"$it\"" }`. */
  function QuoteEach(xs: seq<string>): seq<string> {
    seq(|xs|, i requires 0 <= i < |xs| => "\"" + xs[i] + "\"")
  }

  /** `List<String>.toString()` of the quoted items: `["a", "b"]`, or `[]`. */
  function ListLiteral(xs: seq<string>): string {
    "[" + JoinWith(", ", QuoteEach(xs)) + "]"
  }

  /** The lines of the template once `trimIndent()` has removed their common
      four-space margin (the first and last, blank, template lines are
      dropped by `trimIndent()` too). */
  function Lines(r: FullRecipe): seq<string> {
    [ "{",
      "  \"title\": \"" + r.title + "\",",
      "  \"author\": \"" + r.author + "\",",
      "  \"date\": \"" + r.date + "\",",
      "  \"instructions\": {",
      "    \"time\": \"" + r.instructions.time + "\",",
      "    \"ingredients\": " + ListLiteral(r.instructions.ingredients) + ",",
      "    \"steps\": " + ListLiteral(r.instructions.steps),
      "  }",
      "}" ]
  }

  /** The stored text of a recipe: the lines joined by `\n`, with no
      trailing newline. */
  function Encode(r: FullRecipe): string
    requires Encodable(r)
  {
    JoinWith("\n", Lines(r))
  }

  // ------------------------------------------------------------------ decoding

  const TitleKey: string := "\"title\": \""
  const AuthorKey: string := "\"author\": \""
  const DateKey: string := "\"date\": \""
  const TimeKey: string := "\"time\": \""
  const IngredientsKey: string := "\"ingredients\": ["
  const StepsKey: string := "\"steps\": ["

  /** What ends a string value, the ingredient list and the step list. */
  const ValueEnd: string := "\","
  const IngredientsEnd: string := "],"
  const StepsEnd: string := "]\n"

  /** The delimiter between two list items. */
  const ItemSeparator: string := "\", \""

  /** `content.substringAfter(key).substringBefore("\",")`. */
  function StringField(content: string, key: string): string {
    SubstringBefore(SubstringAfter(content, key), ValueEnd)
  }

  /** `items.map { it.trim('"') }`. */
  function UnquoteEach(items: seq<string>): (r: seq<string>)
    ensures |r| == |items|
    ensures forall i :: 0 <= i < |r| ==> r[i] == [] || (r[i][0] != '"' && r[i][|r[i]| - 1] != '"')
  {
    if items == [] then [] else [TrimChar(items[0], '"')] + UnquoteEach(items[1..])
  }

  /** `content.substringAfter(key).substringBefore(end).split("\", \"").map { it.trim('"') }`. */
  function ListField(content: string, key: string, end: string): seq<string> {
    UnquoteEach(Split(SubstringBefore(SubstringAfter(content, key), end), ItemSeparator))
  }

  /** The fields `viewRecipes` extracts from a stored text. It never fails:
      a missing key or delimiter makes Kotlin's `substringAfter` and
      `substringBefore` fall back to their whole input, and `split` always
      yields at least one piece, so both lists are never empty and no item
      starts or ends with a double quote. */
  function Decode(content: string): (r: FullRecipe)
    ensures |r.instructions.ingredients| >= 1 && |r.instructions.steps| >= 1
    ensures forall i :: 0 <= i < |r.instructions.ingredients| ==>
      var x := r.instructions.ingredients[i]; x == [] || (x[0] != '"' && x[|x| - 1] != '"')
    ensures forall i :: 0 <= i < |r.instructions.steps| ==>
      var x := r.instructions.steps[i]; x == [] || (x[0] != '"' && x[|x| - 1] != '"')
  {
    var title := StringField(content, TitleKey);
    var author := StringField(content, AuthorKey);
    var date := StringField(content, DateKey);
    var time := StringField(content, TimeKey);
    var ingredients := ListField(content, IngredientsKey, IngredientsEnd);
    var steps := ListField(content, StepsKey, StepsEnd);
    FullRecipe(title, author, RecipeInstructions(time, ingredients, steps), date)
  }

  /** A document that lacks a key still decodes: a text field is read from
      the start of the whole text up to the first `",`, and a list from the
      start of the whole text up to its end marker (or, in either case, the
      whole text), split and unquoted as usual. */
  lemma MissingKeyReadsFromStart(content: string, key: string, end: string)
    requires IndexOf(content, key).None?
    ensures StringField(content, key) == SubstringBefore(content, ValueEnd)
    ensures StringField(content, key) <= content
    ensures ListField(content, key, end) == UnquoteEach(Split(SubstringBefore(content, end), ItemSeparator))
    ensures SubstringBefore(content, end) <= content && |ListField(content, key, end)| >= 1
  {
  }

  /** An empty file decodes, without error, to empty text fields and
      one-item lists holding the empty string. */
  lemma EmptyFileDecodes()
    ensures Decode("") == FullRecipe("", "", RecipeInstructions("", [""], [""]), "")
  {
    EmptyField(TitleKey, IngredientsEnd);
    EmptyField(AuthorKey, IngredientsEnd);
    EmptyField(DateKey, IngredientsEnd);
    EmptyField(TimeKey, IngredientsEnd);
    EmptyField(IngredientsKey, IngredientsEnd);
    EmptyField(StepsKey, StepsEnd);
  }

  lemma EmptyField(key: string, end: string)
    requires |key| > 0 && |end| > 0
    ensures StringField("", key) == ""
    ensures ListField("", key, end) == [""]
  {
    assert IndexOf("", key).None?;
    assert IndexOf("", ValueEnd).None?;
    assert IndexOf("", end).None?;
    assert IndexOf("", ItemSeparator).None?;
    assert Split("", ItemSeparator) == [""];
    assert TrimChar("", '"') == "";
  }
}
