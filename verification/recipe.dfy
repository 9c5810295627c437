/** The two record types of the program, `RecipeInstructions` and `FullRecipe`
    (RecipeStorageProgram.kt:6-18). Both are plain immutable values. */
module Recipe {

  /** Cook time as typed, the ingredient lines, and the steps, each step
      already numbered ("1. Mix"). */
  datatype RecipeInstructions = RecipeInstructions(
    time: string,
    ingredients: seq<string>,
    steps: seq<string>
  )

  /** A whole recipe; `date` is the creation timestamp, with " (edited)"
      appended by the edit-save path. */
  datatype FullRecipe = FullRecipe(
    title: string,
    author: string,
    instructions: RecipeInstructions,
    date: string
  )
}
