/** The `recipes` folder and the menu operations that change or read it:
    `addRecipe` (RecipeStorageProgram.kt:144-168), `saveEditedRecipe`
    (:101-118), `editRecipe` (:89-98), `deleteRecipe` (:122-139) and
    `viewRecipes` (:42-85).

    The folder is a map from file name to file text. The order in which the
    file system lists the folder is not known: each operation that lists it
    takes that order as a parameter. The number typed at a menu is the
    console line read there, or `None` at the end of the input. */
module Store {
  import opened Wrappers
  import opened KotlinText
  import opened Recipe
  import opened Codec
  import opened Naming
  import opened RoundTrip

  /** `readlnOrNull()?.toIntOrNull() ?: 0`. */
  function ChoiceOf(line: Option<string>): (c: int)
    ensures MinInt <= c <= MaxInt
    ensures line.None? ==> c == 0
  {
    match line
    case None => 0
    case Some(s) => ToIntOrNull(s).GetOr(0)
  }

  /** `if (choice in 1..files.size) files[choice - 1]`. */
  function Select(files: seq<string>, choice: int): (r: Option<string>)
    ensures r.Some? <==> 1 <= choice <= |files|
    ensures r.Some? ==> r.value == files[choice - 1] && r.value in files
  {
    if 1 <= choice <= |files| then Some(files[choice - 1]) else None
  }

  /** What `viewRecipes` shows: nothing when the folder is missing or empty,
      otherwise the numbered listing and, for a valid choice, the fields read
      back from the chosen file. */
  datatype ViewOutcome = NothingToView | Listed(menu: seq<string>, shown: Option<FullRecipe>)

  /** What `deleteRecipe` did. */
  datatype DeleteOutcome = NothingToDelete | Cancelled(menu: seq<string>) | Deleted(menu: seq<string>, name: string)

  /** `saveEditedRecipe` marks the date of the recipe it writes. */
  function EditedDate(date: string): string {
    date + " (edited)"
  }

  class RecipeFolder {
    /** Whether the `recipes` folder exists. */
    var present: bool
    /** The text of each file in the folder, by file name. */
    var files: map<string, string>

    /** A folder that does not exist holds no files. */
    predicate Valid()
      reads this
    {
      !present ==> files == map[]
    }

    constructor (folderExists: bool, contents: map<string, string>)
      requires folderExists || contents == map[]
      ensures Valid() && present == folderExists && files == contents
    {
      present := folderExists;
      files := contents;
    }

    /** `order` is a listing of the folder: every file once, in some order. */
    ghost predicate IsListing(order: seq<string>)
      reads this
    {
      Distinct(order) && forall name :: name in order <==> name in files
    }

    /** `addRecipe()` once the recipe has been read: the folder is created if
        missing, and the encoded recipe is written to the file named after
        its title, replacing any file of that name. A title holding `/`
        names a path below a folder that does not exist; such a title is
        outside this model. */
    method AddRecipe(r: FullRecipe)
      requires Valid() && Encodable(r) && '/' !in r.title
      modifies this
      ensures Valid() && present
      ensures files == old(files)[FileName(r.title) := Encode(r)]
    {
      present := true;
      files := files[FileName(r.title) := Encode(r)];
    }

    /** `saveEditedRecipe(title, author, instructions, date)`: writes the
        recipe with its date marked as edited. It does not create the
        folder: when the folder is missing, `writeText` throws an uncaught
        `FileNotFoundException` that ends the program. The model reports
        that write as `saved == false`, with the folder unchanged. */
    method SaveEditedRecipe(title: string, author: string, instructions: RecipeInstructions, date: string)
      returns (saved: bool)
      requires Valid() && Encodable(FullRecipe(title, author, instructions, EditedDate(date))) && '/' !in title
      modifies this
      ensures Valid() && saved == old(present) && present == old(present)
      ensures saved ==> files == old(files)[FileName(title) := Encode(FullRecipe(title, author, instructions, EditedDate(date)))]
      ensures !saved ==> files == old(files)
    {
      saved := present;
      if saved {
        var recipe := FullRecipe(title, author, instructions, EditedDate(date));
        files := files[FileName(title) := Encode(recipe)];
      }
    }

    /** `editRecipe()`: when the folder is missing or empty nothing is read
        or written; otherwise it runs `addRecipe()`, here with the recipe
        that call reads. */
    method EditRecipe(r: FullRecipe) returns (edited: bool)
      requires Valid() && Encodable(r) && '/' !in r.title
      modifies this
      ensures Valid()
      ensures edited <==> old(present) && old(files) != map[]
      ensures edited ==> present && files == old(files)[FileName(r.title) := Encode(r)]
      ensures !edited ==> present == old(present) && files == old(files)
    {
      if !present || files == map[] {
        return false;
      }
      AddRecipe(r);
      return true;
    }

    /** `deleteRecipe()`: lists the `.json` files in the given order; with
        none it stops before reading a choice; otherwise a choice in range
        deletes that file and any other choice deletes nothing. */
    method DeleteRecipe(order: seq<string>, line: Option<string>) returns (outcome: DeleteOutcome)
      requires Valid() && IsListing(order)
      modifies this
      ensures Valid() && present == old(present)
      ensures outcome.NothingToDelete? <==> JsonFiles(order) == []
      ensures outcome.Cancelled? <==> JsonFiles(order) != [] && Select(JsonFiles(order), ChoiceOf(line)).None?
      ensures !outcome.NothingToDelete? ==> outcome.menu == Menu(JsonFiles(order))
      ensures outcome.Deleted? ==>
        Select(JsonFiles(order), ChoiceOf(line)) == Some(outcome.name)
        && outcome.name in old(files) && Extension(outcome.name) == "json"
        && files == old(files) - {outcome.name} && outcome.name !in files
      ensures !outcome.Deleted? ==> files == old(files)
    {
      var listed := JsonFiles(order);
      if listed == [] {
        return NothingToDelete;
      }
      var menu := Menu(listed);
      var choice := ChoiceOf(line);
      if 1 <= choice <= |listed| {
        var name := listed[choice - 1];
        files := files - {name};
        return Deleted(menu, name);
      }
      return Cancelled(menu);
    }

    /** `viewRecipes()`. The emptiness test counts every file of the folder,
        the listing only the `.json` ones. */
    function View(order: seq<string>, line: Option<string>): (v: ViewOutcome)
      reads this
      requires IsListing(order)
      ensures v.NothingToView? <==> !present || files == map[]
      ensures v.Listed? ==> v.menu == Menu(JsonFiles(order))
      ensures v.Listed? ==> (v.shown.Some? <==> Select(JsonFiles(order), ChoiceOf(line)).Some?)
      ensures v.Listed? && v.shown.Some? ==>
        v.shown.value == Decode(files[Select(JsonFiles(order), ChoiceOf(line)).value])
    {
      if !present || files == map[] then NothingToView
      else
        var listed := JsonFiles(order);
        match Select(listed, ChoiceOf(line))
        case None => Listed(Menu(listed), None)
        case Some(name) => Listed(Menu(listed), Some(Decode(files[name])))
    }
  }

  // ---------------------------------------------------------------- lemmas

  /** Typing the number a menu line shows selects that line's file. */
  lemma ChoosingShownNumber(files: seq<string>, i: nat)
    requires i < |files| && i + 1 <= MaxInt
    ensures ChoiceOf(Some(DecimalString(i + 1))) == i + 1
    ensures Select(files, ChoiceOf(Some(DecimalString(i + 1)))) == Some(files[i])
  {
    ParseDecimal(i + 1);
  }

  /** The number in front of a menu line, typed back, selects that line's
      file. */
  lemma MenuNumberSelects(files: seq<string>, i: nat)
    requires i < |files| && i + 1 <= MaxInt
    ensures ToIntOrNull(SubstringBefore(Menu(files)[i], ". ")) == Some(i + 1)
    ensures Select(files, ChoiceOf(Some(SubstringBefore(Menu(files)[i], ". ")))) == Some(files[i])
  {
    var ds := DecimalString(i + 1);
    assert '.' !in ds by {
      forall j | 0 <= j < |ds|
        ensures ds[j] != '.'
      {
        assert IsDigit(ds[j]);
      }
    }
    assert Menu(files)[i] == ds + (". " + DisplayName(files[i]));
    BeforeHeadFree(ds, ". ", DisplayName(files[i]));
    ChoosingShownNumber(files, i);
  }

  /** The end of the input, a blank line, a line that is not a sign and
      digits (a word, a number with spaces or letters around it) or `0`
      selects nothing. */
  lemma NonNumbersSelectNothing(files: seq<string>, line: Option<string>)
    requires line.None? || IsBlank(line.value) || !NumberShaped(line.value) || line.value == "0"
    ensures Select(files, ChoiceOf(line)).None?
  {
    if line.Some? {
      var s := line.value;
      if IsBlank(s) {
        BlankIsNotNumber(s);
      }
      NonNumberIsNull(s);
      if s == "0" {
        ParseDecimal(0);
        assert DecimalString(0) == s;
      }
    }
  }

  /** Every recipe written by `addRecipe` is offered by the listing, under
      its safe title, whatever order the file system lists the folder in. */
  lemma AddedRecipeListed(folder: RecipeFolder, order: seq<string>, title: string)
    requires folder.IsListing(order) && FileName(title) in folder.files
    ensures exists i :: 0 <= i < |JsonFiles(order)| && JsonFiles(order)[i] == FileName(title)
    ensures DisplayName(FileName(title)) == SafeTitle(title)
  {
    StoredFileListed(order, title);
    DisplayNameOfFile(title);
    var listed := JsonFiles(order);
    assert FileName(title) in listed;
    var i :| 0 <= i < |listed| && listed[i] == FileName(title);
  }

  /** Viewing the number shown next to a recipe written by `addRecipe`
      gives the recipe back: all its fields, and both lists with their items
      in order. */
  lemma ViewAfterAdd(folder: RecipeFolder, order: seq<string>, r: FullRecipe, i: nat)
    requires Decodable(r) && r.instructions.ingredients != [] && r.instructions.steps != []
    requires folder.present && folder.IsListing(order)
    requires FileName(r.title) in folder.files && folder.files[FileName(r.title)] == Encode(r)
    requires i < |JsonFiles(order)| && JsonFiles(order)[i] == FileName(r.title) && i + 1 <= MaxInt
    ensures folder.View(order, Some(DecimalString(i + 1))) == Listed(Menu(JsonFiles(order)), Some(r))
  {
    ChoosingShownNumber(JsonFiles(order), i);
    RoundTrip.RoundTrip(r);
  }

  /** The file an edit saves reads back with the date marked as edited. */
  lemma EditedDateReadsBack(title: string, author: string, instructions: RecipeInstructions, date: string)
    requires QuoteFreeFields(FullRecipe(title, author, instructions, EditedDate(date)))
    ensures Decode(Encode(FullRecipe(title, author, instructions, EditedDate(date)))).date == date + " (edited)"
  {
    DecodeDate(FullRecipe(title, author, instructions, EditedDate(date)));
  }
}
