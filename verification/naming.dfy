/** Where a recipe is stored and how it is listed: the file name built from
    the title by `addRecipe` and `saveEditedRecipe`
    (RecipeStorageProgram.kt:116-117 and :165-166), the `.json` filter of
    the listing, and the name shown for each listed file
    (RecipeStorageProgram.kt:49-51 and :124-132). */
module Naming {
  import opened Wrappers
  import opened KotlinText

  /** `title.replace(" ", "_")`. */
  function SafeTitle(title: string): (r: string)
    ensures |r| == |title| && ' ' !in r
    ensures forall i :: 0 <= i < |title| ==> r[i] == title[i] || (title[i] == ' ' && r[i] == '_')
  {
    seq(|title|, i requires 0 <= i < |title| => if title[i] == ' ' then '_' else title[i])
  }

  const FilePrefix: string := "recipe_"

  /** `"recipe_$safeTitle.json"`. */
  function FileName(title: string): string {
    FilePrefix + SafeTitle(title) + ".json"
  }

  /** `File.extension`: the text after the last dot, or "" when there is none. */
  function Extension(name: string): string {
    SubstringAfterLast(name, '.', "")
  }

  /** `File.nameWithoutExtension`: the text before the last dot, or the
      whole name. */
  function NameWithoutExtension(name: string): string {
    SubstringBeforeLast(name, '.')
  }

  /** `nameWithoutExtension.removePrefix("recipe_")`, the name a listing
      shows for a file. */
  function DisplayName(name: string): string {
    RemovePrefix(NameWithoutExtension(name), FilePrefix)
  }

  /** `filter { it.extension == "json" }`, keeping the listing order. */
  function JsonFiles(names: seq<string>): (r: seq<string>)
    ensures |r| <= |names|
    ensures forall x :: x in r <==> x in names && Extension(x) == "json"
  {
    if names == [] then []
    else (if Extension(names[0]) == "json" then [names[0]] else []) + JsonFiles(names[1..])
  }

  /** The numbered lines of a listing, `"${index + 1}. $displayName"`. */
  function Menu(files: seq<string>): (r: seq<string>)
    ensures |r| == |files|
  {
    seq(|files|, i requires 0 <= i < |files| => DecimalString(i + 1) + ". " + DisplayName(files[i]))
  }

  // ---------------------------------------------------------------- lemmas

  /** Replacing spaces twice changes nothing more. */
  lemma SafeTitleIdempotent(title: string)
    ensures SafeTitle(SafeTitle(title)) == SafeTitle(title)
  {
  }

  /** A title without spaces is its own safe title. */
  lemma SafeTitleNoSpace(title: string)
    requires ' ' !in title
    ensures SafeTitle(title) == title
  {
  }

  /** Two titles share a file exactly when they agree once spaces are
      replaced. */
  lemma FileNameShared(a: string, b: string)
    ensures FileName(a) == FileName(b) <==> SafeTitle(a) == SafeTitle(b)
  {
    if FileName(a) == FileName(b) {
      var n := |FilePrefix|;
      assert |SafeTitle(a)| == |SafeTitle(b)|;
      assert FileName(a)[n..n + |SafeTitle(a)|] == SafeTitle(a);
      assert FileName(b)[n..n + |SafeTitle(b)|] == SafeTitle(b);
    }
  }

  /** "a b" and "a_b" are different titles stored in the same file, so
      saving one overwrites the other. */
  lemma SpaceAndUnderscoreCollide()
    ensures "a b" != "a_b" && FileName("a b") == FileName("a_b")
  {
    assert "a b"[1] != "a_b"[1];
    assert SafeTitle("a b") == "a_b";
    SafeTitleNoSpace("a_b");
  }

  lemma LaterOccurrence(s: string, r: Option<nat>, j: nat)
    requires j < |s|
    ensures r.Some? && r.value < j ==> s[j] in s[r.value + 1..]
  {
    if r.Some? && r.value < j {
      assert s[r.value + 1..][j - r.value - 1] == s[j];
    }
  }

  /** The last dot of `x.y`, when `y` has none, is the one after `x`. */
  lemma LastDot(x: string, y: string)
    requires '.' !in y
    ensures LastIndexOf(x + "." + y, '.') == Some(|x|)
  {
    var s := x + "." + y;
    assert s[|x|] == '.';
    assert s[|x| + 1..] == y;
    var r := LastIndexOf(s, '.');
    LaterOccurrence(s, r, |x|);
  }

  /** A stored recipe's file passes the listing filter. */
  lemma FileNameIsJson(title: string)
    ensures Extension(FileName(title)) == "json"
  {
    var x := FilePrefix + SafeTitle(title);
    assert FileName(title) == x + "." + "json";
    LastDot(x, "json");
  }

  /** The listing shows a stored recipe under its safe title. */
  lemma DisplayNameOfFile(title: string)
    ensures DisplayName(FileName(title)) == SafeTitle(title)
  {
    var x := FilePrefix + SafeTitle(title);
    assert FileName(title) == x + "." + "json";
    LastDot(x, "json");
    assert NameWithoutExtension(FileName(title)) == x;
  }

  /** The listing keeps every stored recipe's file and drops every other
      kind of file. */
  lemma StoredFileListed(names: seq<string>, title: string)
    ensures FileName(title) in JsonFiles(names) <==> FileName(title) in names
  {
    FileNameIsJson(title);
  }

  predicate Distinct(xs: seq<string>) {
    forall i, j :: 0 <= i < j < |xs| ==> xs[i] != xs[j]
  }

  lemma DistinctCons(a: string, xs: seq<string>)
    requires a !in xs && Distinct(xs)
    ensures Distinct([a] + xs)
  {
    var s := [a] + xs;
    forall i, j | 0 <= i < j < |s|
      ensures s[i] != s[j]
    {
      assert s[j] == xs[j - 1];
      if i > 0 {
        assert s[i] == xs[i - 1];
      }
    }
  }

  /** The filter lists no file twice when the directory lists none twice. */
  lemma {:induction false} JsonFilesDistinct(names: seq<string>)
    requires Distinct(names)
    ensures Distinct(JsonFiles(names))
  {
    if names != [] {
      var tail := names[1..];
      assert Distinct(tail) by {
        forall i, j | 0 <= i < j < |tail|
          ensures tail[i] != tail[j]
        {
          assert tail[i] == names[i + 1] && tail[j] == names[j + 1];
        }
      }
      JsonFilesDistinct(tail);
      if Extension(names[0]) == "json" {
        assert names[0] !in tail by {
          forall k | 0 <= k < |tail|
            ensures tail[k] != names[0]
          {
            assert tail[k] == names[k + 1];
          }
        }
        DistinctCons(names[0], JsonFiles(tail));
      } else {
        assert [] + JsonFiles(tail) == JsonFiles(tail);
      }
    }
  }
}
