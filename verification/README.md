# Recipe storage: a Dafny model

A model of the recipe catalogue in `RecipeStorageProgram.kt`. The program
keeps each recipe as one file, `recipes/recipe_<title>.json`. The title has
its spaces replaced by underscores. The file holds a JSON-shaped text built by
a string template, and `viewRecipes` reads it back with
`substringAfter` / `substringBefore` / `split` / `trim('"')`.

The project models:

- **`recipe.dfy`** (`Recipe`): the two data classes `RecipeInstructions` and
  `FullRecipe`.
- **`kotlin_text.dfy`** (`KotlinText`): the Kotlin string operations the program
  relies on.
  - `indexOf`, `substringAfter`, `substringBefore` (both fall back to the whole
    string when the delimiter is missing).
  - `substringAfterLast`, `substringBeforeLast`, `removePrefix`, `joinToString`.
  - `split` (always at least one piece), `trim(c)`, `trim()` with the JVM's
    whitespace test, `isBlank`.
  - The comparison of `lowercase()` with `exit`.
  - `Int.toString` and `toIntOrNull`, with the 32-bit `Int` range.
- **`codec.dfy`** (`Codec`): the stored text (`Encode`, the template after
  `trimIndent()`) and the parse `viewRecipes` runs on it (`Decode`).
- **`round_trip.dfy`** (`RoundTrip`): when decoding gives back what was
  encoded, and two inputs where it does not.
- **`naming.dfy`** (`Naming`): the safe title, the file name, the `.json`
  filter of a listing and the numbered menu lines.
- **`input.dfy`** (`Input`): what `addRecipe` reads from the console.
  - Title and author, with their defaults for blank answers.
  - The cook time.
  - The two lists read by `collectListInput`. This is a `while` loop, proved
    equal to a recursive reading. That reading is in turn proved equal to a
    reference: "the trimmed non-blank lines before the first `exit` line,
    numbered for steps".
- **`store.dfy`** (`Store`): the `recipes` folder.
  - It is a class whose state is whether the folder exists and a map from file
    name to file text.
  - Its methods are `addRecipe`, `saveEditedRecipe`, `editRecipe`,
    `deleteRecipe`, and `viewRecipes` as a function.
  - The order in which the file system lists the folder is a parameter: any
    duplicate-free listing of the folder.
- **`session.dfy`** (`Session`): a recipe typed at the console, stored and read
  back.

The console is a sequence of lines; the end of that sequence is where
`readln()` throws (`EndOfInput`) and `readlnOrNull()` gives null. The date
from `addDate()` is a parameter.

Four behaviours of the code shape the model:

- `editRecipe` does not list recipes or offer a sub-menu. It only checks that
  the folder is neither missing nor empty and then runs `addRecipe`.
- Reading a stored file never fails. A missing key makes `substringAfter`
  return the whole text, so every field gets some value
  (`Codec.MissingKeyReadsFromStart`, `Codec.EmptyFileDecodes`).
- `addRecipe` asks for the title and the author before the cook time.
- `saveEditedRecipe` is defined but never called.

## Model

| member | source | states |
|---|---|---|
| `KotlinText.IndexOf` | RecipeStorageProgram.kt:60-70 | the index found is an occurrence of the delimiter with none before it; `None` exactly when there is no occurrence |
| `KotlinText.SubstringAfter` | RecipeStorageProgram.kt:60-66 | the whole text when the delimiter is missing, else the text is prefix + delimiter + result with the first occurrence |
| `KotlinText.SubstringBefore` | RecipeStorageProgram.kt:60-69 | a prefix of the text, as long as the index of the first delimiter, or the whole text when it is missing |
| `KotlinText.LastIndexOf` | RecipeStorageProgram.kt:49 | the index holds the character and no later index does; `None` exactly when the character is absent |
| `KotlinText.SubstringAfterLast` | RecipeStorageProgram.kt:49 | the text after the last dot, holding no dot, or the given default when there is no dot |
| `KotlinText.SubstringBeforeLast` | RecipeStorageProgram.kt:51 | the text before the last dot, with only dot-free text after it, or the whole text |
| `KotlinText.RemovePrefix` | RecipeStorageProgram.kt:51 | prefix + result is the text when it starts with the prefix, else the text unchanged |
| `KotlinText.Split` | RecipeStorageProgram.kt:67 | at least one piece, no piece holds the delimiter, and joining the pieces with it gives the text back |
| `KotlinText.SplitStep` | RecipeStorageProgram.kt:67 | when the first delimiter follows `x`, splitting gives `x` and then the pieces of the rest |
| `KotlinText.TrimChar` | RecipeStorageProgram.kt:67 | only characters of the input, and the result neither starts nor ends with the character |
| `KotlinText.TrimCharKeepsInfix` | RecipeStorageProgram.kt:67 | `trim(c)` removes only the leading and trailing runs of the character: the result is the text between them, unchanged |
| `KotlinText.TrimCharWrapped` | RecipeStorageProgram.kt:67 | trimming a quote-free text with a quote added at either or both ends gives the text back |
| `KotlinText.Trim` | RecipeStorageProgram.kt:191 | `trim()`: `trimStart` then `trimEnd`, with the JVM whitespace test; `TrimmedText`, `TrimKeepsInfix` and `BlankIffTrimEmpty` state its properties |
| `KotlinText.IsBlank` | RecipeStorageProgram.kt:213 | `isBlank()`, the test inside `ifBlank`: every character is whitespace; `BlankIffTrimEmpty` ties it to `trim()` |
| `KotlinText.IsExitWord` | RecipeStorageProgram.kt:192 | `lowercase() == "exit"`: four characters that lower-case to e, x, i, t; `FirstExitIsFirst` uses it to find the line that ends a list |
| `KotlinText.TrimmedText` | RecipeStorageProgram.kt:191 | `trim()` keeps only characters of its input and leaves no whitespace at either end |
| `KotlinText.TrimKeepsInfix` | RecipeStorageProgram.kt:191 | `trim()` removes only the leading and trailing whitespace runs: the result is the text between them, unchanged |
| `KotlinText.BlankIffTrimEmpty` | RecipeStorageProgram.kt:191-193 | a line is blank exactly when trimming it leaves nothing |
| `KotlinText.ToIntOrNull` | RecipeStorageProgram.kt:54 | a parsed number lies in the 32-bit `Int` range and comes from a non-empty text |
| `KotlinText.NonNumberIsNull` | RecipeStorageProgram.kt:54 | a text that is not an optional sign followed by at least one digit (empty, a word, a lone sign, a number with spaces or letters around it) gives null |
| `KotlinText.BlankIsNotNumber` | RecipeStorageProgram.kt:54 | a blank line is not an optional sign followed by digits |
| `KotlinText.ParseDecimal` | RecipeStorageProgram.kt:51-54 | `toIntOrNull` reads back the number `toString` wrote for every non-negative `Int` |
| `KotlinText.DecimalString` | RecipeStorageProgram.kt:195 | a number is written as a non-empty run of decimal digits |
| `Codec.UnquoteEach` | RecipeStorageProgram.kt:67 | one item per piece, and no item starts or ends with a double quote |
| `Codec.Encode` | RecipeStorageProgram.kt:151-162 | the ten template lines after `trimIndent()`, joined by LF; defined only when no field holds a line break; `RoundTrip.DecodeEncode` states what reading it back gives |
| `Codec.Decode` | RecipeStorageProgram.kt:57-70 | parsing never fails: both lists have at least one item and no item starts or ends with a double quote |
| `Codec.MissingKeyReadsFromStart` | RecipeStorageProgram.kt:60-70 | a text field whose key is missing is read from the start of the text up to the first `",`; a list whose key is missing is the start of the text up to its end marker, split and unquoted, and has at least one item |
| `Codec.EmptyFileDecodes` | RecipeStorageProgram.kt:57-70 | an empty file reads as empty fields and one-item lists holding the empty string |
| `RoundTrip.DecodeTitle` | RecipeStorageProgram.kt:151-162 | for a recipe with no double quote or line break in any field and no `]` in an ingredient, the title read back is the title written |
| `RoundTrip.DecodeAuthor` | RecipeStorageProgram.kt:151-162 | under the same conditions, the author read back is the author written |
| `RoundTrip.DecodeDate` | RecipeStorageProgram.kt:151-162 | under the same conditions, the date read back is the date written |
| `RoundTrip.DecodeTime` | RecipeStorageProgram.kt:151-162 | under the same conditions, the cook time read back is the cook time written |
| `RoundTrip.IngredientsText` | RecipeStorageProgram.kt:66 | under the same conditions, the ingredient text cut out of the stored recipe is exactly its rendered ingredient list |
| `RoundTrip.StepsText` | RecipeStorageProgram.kt:69 | under the same conditions, the step text cut out of the stored recipe is exactly its rendered step list |
| `RoundTrip.DecodeItems` | RecipeStorageProgram.kt:67 | for quote-free items whose first item is not `, `, splitting the rendered list and trimming its quotes gives the items in order, or `[""]` for an empty list |
| `RoundTrip.DecodeEncode` | RecipeStorageProgram.kt:42-85 | for a recipe with no double quote or line break in any field, no `]` in an ingredient and no list starting with the item `, `, reading the stored text back gives every field and both lists in order; an empty list is read as `[""]` |
| `RoundTrip.RoundTrip` | RecipeStorageProgram.kt:144-168 | under the same conditions and with both lists non-empty, reading the stored text back gives exactly the recipe |
| `RoundTrip.SeparatorItemSplits` | RecipeStorageProgram.kt:66-67 | the single ingredient `, ` is read back as two empty ingredients |
| `RoundTrip.QuoteCommaCutsTitle` | RecipeStorageProgram.kt:60 | a title holding `",` is read back cut short before it |
| `Naming.SafeTitle` | RecipeStorageProgram.kt:165 | same length and no space; each character is kept, except that a space becomes `_` |
| `Naming.FileName` | RecipeStorageProgram.kt:165-166 | `recipe_`, the safe title, then `.json`; `FileNameIsJson`, `DisplayNameOfFile` and `FileNameShared` state its properties |
| `Naming.Extension` | RecipeStorageProgram.kt:49 | `File.extension`: the text after the last dot, or the empty text; its contract is `SubstringAfterLast`'s |
| `Naming.DisplayName` | RecipeStorageProgram.kt:51 | `nameWithoutExtension.removePrefix("recipe_")`; `DisplayNameOfFile` gives it for a stored file |
| `Naming.Menu` | RecipeStorageProgram.kt:51 | one numbered line per listed file; `MenuNumberSelects` states that each line's number selects its file |
| `Naming.SafeTitleIdempotent` | RecipeStorageProgram.kt:165 | making a title safe twice changes nothing more |
| `Naming.FileNameShared` | RecipeStorageProgram.kt:165-166 | two titles share a file exactly when their safe titles are equal |
| `Naming.SpaceAndUnderscoreCollide` | RecipeStorageProgram.kt:165-166 | `a b` and `a_b` are different titles stored in the same file |
| `Naming.FileNameIsJson` | RecipeStorageProgram.kt:49 | a stored recipe's file passes the `.json` filter |
| `Naming.DisplayNameOfFile` | RecipeStorageProgram.kt:51 | the listing shows a stored recipe's file under its safe title |
| `Naming.JsonFiles` | RecipeStorageProgram.kt:49 | the filter keeps exactly the listed names whose extension is `json` |
| `Naming.StoredFileListed` | RecipeStorageProgram.kt:124 | a stored recipe's file is kept by the filter exactly when the folder lists it |
| `Naming.JsonFilesDistinct` | RecipeStorageProgram.kt:49 | the filter lists no file twice when the folder listing has no repeats |
| `Input.Collect` | RecipeStorageProgram.kt:186-204 | the list `collectListInput` returns, read line by line; `CollectIsKeptBeforeExit` characterises it and `CollectListInput` is proved equal to it |
| `Input.CollectListInput` | RecipeStorageProgram.kt:186-204 | the loop returns what the recursive reading `Collect` gives: the list and the lines after `exit`, or the end of the input |
| `Input.CollectIsKeptBeforeExit` | RecipeStorageProgram.kt:189-202 | the reading is the trimmed non-blank lines before the first `exit` line (numbered for steps), resuming after that line; with no `exit` line the input runs out |
| `Input.FirstExitIsFirst` | RecipeStorageProgram.kt:191-192 | the line found trims to `exit` in some case and no earlier line does; none is found only when no line does |
| `Input.EntriesNotBlank` | RecipeStorageProgram.kt:193-198 | no entry is empty, and an ingredient has no whitespace at either end |
| `Input.KeptAvoids` | RecipeStorageProgram.kt:191-198 | a character no line holds is in no kept entry |
| `Input.StepsAreNumberedEntries` | RecipeStorageProgram.kt:194-198 | the steps are the entries the same lines give as ingredients, numbered 1, 2, 3, ..., and reading stops at the same line |
| `Input.StepNumberReadsBack` | RecipeStorageProgram.kt:195 | the number in front of the i-th step parses back as i + 1 |
| `Input.IfBlank` | RecipeStorageProgram.kt:212 | a blank answer becomes the default, any other answer is kept |
| `Input.AddTitle` | RecipeStorageProgram.kt:216-219 | `readln().ifBlank { "untitled_recipe" }`; `TitleNeverBlank` states that the result is never blank |
| `Input.AddAuthor` | RecipeStorageProgram.kt:210-213 | `readln().ifBlank { "unknown" }`; `TitleNeverBlank` states that the result is never blank |
| `Input.CookTime` | RecipeStorageProgram.kt:174 | `readlnOrNull() ?: "0mins"`; `CookTimeAsTyped` states that the answer is kept as typed |
| `Input.TitleNeverBlank` | RecipeStorageProgram.kt:210-219 | a title or author read is never blank, and a title is read exactly when a line is left |
| `Input.IfBlankIdempotent` | RecipeStorageProgram.kt:218 | applying the default twice changes nothing more |
| `Input.CookTimeAsTyped` | RecipeStorageProgram.kt:174-177 | the cook time is the answer as typed, blank or not; with no answer left the instructions cannot be read, so `0mins` never reaches a recipe |
| `Input.AddInstructions` | RecipeStorageProgram.kt:171-183 | the cook time (or `0mins` at the end of input), then the ingredients, then the numbered steps, as the `Instructions` reading gives them |
| `Input.CaptureRecipe` | RecipeStorageProgram.kt:144-150 | title, author and instructions read in that order and the given date, as the `Capture` reading gives them |
| `Input.MissingCookTimeFails` | RecipeStorageProgram.kt:174-177 | when the cook-time answer is missing the ingredient list hits the end of the input |
| `Session.CapturedRecipeReadsBack` | RecipeStorageProgram.kt:144-168 | a recipe typed on lines free of `"`, `]` and line breaks is stored and read back with every field and both lists as typed, except that an empty list is read back as the one-item list `[""]` |
| `Session.CapturedDecodable` | RecipeStorageProgram.kt:186-219 | such a recipe meets the round-trip conditions, including that no list starts with the item `, ` |
| `Store.ChoiceOf` | RecipeStorageProgram.kt:54 | the choice is a 32-bit `Int`, and 0 at the end of the input |
| `Store.Select` | RecipeStorageProgram.kt:55-56 | a file is chosen exactly when the choice is in 1..size, and it is the file at index choice - 1 |
| `Store.RecipeFolder.constructor` | RecipeStorageProgram.kt:43 | a folder that exists or not, with the given files |
| `Store.RecipeFolder.AddRecipe` | RecipeStorageProgram.kt:164-166 | the folder exists afterwards, and the file named after the title holds the encoded recipe; every other file is unchanged |
| `Store.RecipeFolder.SaveEditedRecipe` | RecipeStorageProgram.kt:101-117 | writes the recipe with `(edited)` after its date when the folder exists; otherwise reports the failed write (where the program would stop) and changes nothing |
| `Store.RecipeFolder.EditRecipe` | RecipeStorageProgram.kt:89-98 | writes exactly when the folder exists and is not empty, and then as `addRecipe` does; it never removes a file |
| `Store.RecipeFolder.DeleteRecipe` | RecipeStorageProgram.kt:122-139 | nothing to delete exactly when no `.json` file is listed; a choice in range removes exactly the chosen `.json` file, which is then gone; any other choice changes nothing |
| `Store.RecipeFolder.View` | RecipeStorageProgram.kt:42-70 | nothing is shown exactly when the folder is missing or empty; otherwise the menu of `.json` files, and a recipe exactly when the choice is in range, namely the chosen file's text as `viewRecipes` parses it |
| `Store.MenuNumberSelects` | RecipeStorageProgram.kt:51-56 | the number in front of the i-th menu line parses back as i + 1 and, typed at the prompt, selects the i-th file |
| `Store.ChoosingShownNumber` | RecipeStorageProgram.kt:51-56 | typing the number a menu line shows selects that line's file |
| `Store.NonNumbersSelectNothing` | RecipeStorageProgram.kt:54-55 | the end of the input, a blank line, any text that is not a sign and digits, or `0` selects nothing |
| `Store.AddedRecipeListed` | RecipeStorageProgram.kt:49-51 | a stored recipe is offered by the listing, under its safe title, whatever order the folder is listed in |
| `Store.ViewAfterAdd` | RecipeStorageProgram.kt:42-70 | for a stored recipe meeting the round-trip conditions with non-empty lists, typing its menu number shows the menu and the recipe exactly as written |
| `Store.EditedDate` | RecipeStorageProgram.kt:102 | the date followed by ` (edited)`; `EditedDateReadsBack` states that it reads back |
| `Store.EditedDateReadsBack` | RecipeStorageProgram.kt:102-117 | when no field holds a double quote or line break and no ingredient holds `]`, an edited recipe's date reads back with ` (edited)` appended |

## Left out

- Console output is not modelled. That covers every `println`, the prompts,
  the "Current list" echo and the formatting of a shown recipe.
- The main menu loop of `main` is left out. Each menu operation is modelled
  on its own.
- The real file system is a map from name to text plus an "exists" flag.
  - The order of `listFiles()` is a parameter.
  - A `recipes` path that exists but is not a directory is left out.
  - A `delete()` or `writeText()` that fails is left out, except one case.
    `saveEditedRecipe` writing into a missing folder throws an uncaught
    `FileNotFoundException` that ends the program. The model reports it as
    `saved == false` and does not model the program ending.
  - `Store.RecipeFolder.AddRecipe`, `EditRecipe` and `SaveEditedRecipe`
    require a title without `/`. Such a title names a file inside a
    sub-folder that does not exist, so the write would fail.
- `addDate()` reads the clock; the date is a parameter instead.
- `Codec.Encode` requires that no field hold a line break. `trimIndent()`
  cuts lines at LF, CR and CRLF, and the general `trimIndent()` of a text
  whose lines lose their common margin is not modelled.
- `Input.ReadLine` takes console lines as already split. `readln()` ends a
  line only at LF and drops a CR just before it, so a lone CR stays inside
  its line. Such a line can be read, but `Codec.Encode` requires that no
  field hold a line break, so a recipe holding one is not stored by the
  model.
- `KotlinText.ToIntOrNull` reads ASCII digits only. Kotlin also accepts other
  Unicode decimal digits.
- `KotlinText.IsExitWord` compares ASCII case-insensitively. It agrees with
  `lowercase()` under the root locale.
- `Input.Collect` counts steps with an unbounded integer. It does not model
  the step counter wrapping past 2^31 - 1.
- `Store.RecipeFolder.EditRecipe` takes the recipe that the nested
  `addRecipe()` would read as a parameter. It does not read it from the
  console.
- There is no escaping in the stored text. Among the inputs that change
  what is read back:
  - `",` inside a field, which ends a text field early;
  - a later key such as `"author": "` inside an earlier field;
  - a `"` at either end of a list item, which `trim('"')` removes;
  - `", "` inside a list item, which splits it in two;
  - a first list item equal to `, ` or starting with `, "`, which the
    opening quote turns into a separator;
  - `],` inside an ingredient, which ends the ingredient list early.
  `RoundTrip.QuoteCommaCutsTitle` and `RoundTrip.SeparatorItemSplits` show
  two such inputs. `RoundTrip.Decodable` asks for no double quote at all,
  no line break, no `]` in an ingredient and no first item `, `. That is
  enough for the round trip, but it is not the exact condition, and the
  model does not characterise the exact set of inputs that read back
  unchanged.
