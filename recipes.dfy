/** The recipe record and the fixed catalog the browser shows. */
module Recipes {
  import opened Seqs

  /**
   * One catalog entry. `difficulty` is compared with the active filter as a
   * string, so it is kept as one ("easy", "medium" or "hard" in the catalog).
   */
  datatype Recipe = Recipe(
    id: int,
    title: string,
    time: int,
    difficulty: string,
    description: string,
    ingredients: seq<string>)

  /** The catalog, in display order. */
  const Catalog: seq<Recipe> := [
    Recipe(1, "Spaghetti Carbonara", 25, "easy", "Creamy Italian pasta.",
      ["Spaghetti", "Eggs", "Cheese", "Pepper"]),
    Recipe(2, "Chicken Tikka Masala", 45, "medium", "Spiced tomato curry.",
      ["Chicken", "Tomato", "Cream", "Spices"]),
    Recipe(3, "Greek Salad", 15, "easy", "Fresh vegetable salad.",
      ["Cucumber", "Tomato", "Feta", "Olives"])
  ]

  function Ids(list: seq<Recipe>): (r: seq<int>)
    ensures |r| == |list|
    ensures forall i :: 0 <= i < |list| ==> r[i] == list[i].id
  {
    seq(|list|, i requires 0 <= i < |list| => list[i].id)
  }

  /** Distinct ids make distinct records. */
  lemma IdsDistinctNoDuplicates(list: seq<Recipe>)
    requires NoDuplicates(Ids(list))
    ensures NoDuplicates(list)
  {
    forall i, j | 0 <= i < j < |list| ensures list[i] != list[j] {
      assert Ids(list)[i] != Ids(list)[j];
    }
  }

  /** Every catalog id is positive and no two catalog entries share one. */
  lemma CatalogWellFormed()
    ensures Ids(Catalog) == [1, 2, 3]
    ensures NoDuplicates(Ids(Catalog)) && NoDuplicates(Catalog)
    ensures forall r :: r in Catalog ==> r.id > 0 && r.time >= 0
  {
    IdsDistinctNoDuplicates(Catalog);
  }
}
