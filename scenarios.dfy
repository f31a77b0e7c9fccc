/** What the browser shows for the catalog in a few concrete situations. */
module Scenarios {
  import opened Seqs
  import opened Sorting
  import opened Text
  import opened Recipes
  import opened Pipeline
  import opened App

  /** The filter of a three-element list, element by element. */
  lemma FilterThree<T>(a: T, b: T, c: T, p: T -> bool)
    ensures Filter([a, b, c], p)
      == (if p(a) then [a] else []) + (if p(b) then [b] else []) + (if p(c) then [c] else [])
  {
    assert [a, b, c] == [a] + ([b] + [c]);
    FilterCons(a, [b] + [c], p);
    FilterCons(b, [c], p);
    FilterCons(c, [], p);
  }

  lemma CatalogThree()
    ensures Catalog == [Catalog[0], Catalog[1], Catalog[2]]
  {
  }

  /** Filtering the catalog by "easy" keeps Spaghetti Carbonara and Greek Salad. */
  lemma EasySelection(favorites: seq<int>)
    ensures ApplyFilter(Catalog, "easy", favorites) == [Catalog[0], Catalog[2]]
  {
    CatalogThree();
    FilterThree(Catalog[0], Catalog[1], Catalog[2], DifficultyTest("easy"));
  }

  /** The "easy" filter with no query shows Spaghetti Carbonara and Greek Salad. */
  lemma EasyFilter(favorites: seq<int>, collate: (string, string) -> int)
    ensures Ids(Display(Catalog, "", "easy", "none", favorites, collate)) == [1, 3]
    ensures CountText(|Display(Catalog, "", "easy", "none", favorites, collate)|, |Catalog|) == "Showing 2 of 3 recipes"
  {
    EasySelection(favorites);
  }

  /**
   * A recipe does not match a query when its title, its description and each
   * of its ingredients lack some letter of the query.
   */
  lemma NoMatchWithout(r: Recipe, q: string, ct: char, cd: char, ci: char)
    requires ct in q && ct !in Lower(r.title)
    requires cd in q && cd !in Lower(r.description)
    requires ci in q && forall i :: 0 <= i < |r.ingredients| ==> ci !in Lower(r.ingredients[i])
    ensures !MatchesQuery(r, q)
  {
    MissingChar(Lower(r.title), q, ct);
    MissingChar(Lower(r.description), q, cd);
    forall i | 0 <= i < |r.ingredients| ensures !Includes(Lower(r.ingredients[i]), q) {
      MissingChar(Lower(r.ingredients[i]), q, ci);
    }
  }

  lemma CarbonaraLacksLetters(r: Recipe)
    requires r == Catalog[0]
    ensures 'm' !in Lower(r.title) && 'o' !in Lower(r.description)
  {
  }

  lemma CarbonaraIngredientsLackM(ings: seq<string>)
    requires ings == Catalog[0].ingredients
    ensures forall i :: 0 <= i < |ings| ==> 'm' !in Lower(ings[i])
  {
    forall i | 0 <= i < |ings| ensures 'm' !in Lower(ings[i]) {
      assert i == 0 || i == 1 || i == 2 || i == 3;
    }
  }

  /** No text of Spaghetti Carbonara contains "tomato": none has an 'm', the description has no 'o'. */
  lemma TomatoNotInCarbonara()
    ensures !MatchesQuery(Catalog[0], "tomato")
  {
    var r := Catalog[0];
    CarbonaraLacksLetters(r);
    CarbonaraIngredientsLackM(r.ingredients);
    NoMatchWithout(r, "tomato", 'm', 'o', 'm');
  }

  lemma TomatoInTikkaMasala()
    ensures MatchesQuery(Catalog[1], "tomato")
  {
    var d := Lower(Catalog[1].description);
    assert d[7..13] == "tomato";
    IncludesSpec(d, "tomato");
    assert OccursAt(d, "tomato", 7);
  }

  lemma TomatoInGreekSalad()
    ensures MatchesQuery(Catalog[2], "tomato")
  {
    var ing := Lower(Catalog[2].ingredients[1]);
    assert ing == "tomato";
    IncludesSpec(ing, "tomato");
    assert OccursAt(ing, "tomato", 0);
  }

  /** A query matching the second and third of three recipes keeps exactly those two. */
  lemma SearchLastTwo(a: Recipe, b: Recipe, c: Recipe, q: string)
    requires q != [] && Lower(q) == q
    requires !MatchesQuery(a, q) && MatchesQuery(b, q) && MatchesQuery(c, q)
    ensures FilterBySearch([a, b, c], q) == [b, c]
  {
    FilterThree(a, b, c, MatchTest(q));
  }

  lemma LowerTomato()
    ensures Lower("tomato") == "tomato"
  {
  }

  /** Searching the catalog for "tomato" keeps Chicken Tikka Masala and Greek Salad. */
  lemma TomatoSearch()
    ensures FilterBySearch(Catalog, "tomato") == [Catalog[1], Catalog[2]]
  {
    TomatoNotInCarbonara();
    TomatoInTikkaMasala();
    TomatoInGreekSalad();
    CatalogThree();
    LowerTomato();
    SearchLastTwo(Catalog[0], Catalog[1], Catalog[2], "tomato");
  }

  /** The query "tomato" matches an ingredient or a description regardless of case. */
  lemma TomatoQuery(favorites: seq<int>, collate: (string, string) -> int)
    ensures Ids(Display(Catalog, "tomato", "all", "none", favorites, collate)) == [2, 3]
  {
    TomatoSearch();
  }

  /** With favorites [2] and the "favorites" filter only Chicken Tikka Masala is shown. */
  lemma FavoritesFilter(collate: (string, string) -> int)
    ensures Ids(Display(Catalog, "", "favorites", "none", [2], collate)) == [2]
  {
    var c := Catalog;
    CatalogThree();
    FilterThree(c[0], c[1], c[2], FavoriteTest([2]));
    assert ApplyFilter(c, "favorites", [2]) == [c[1]];
  }

  /** Three recipes with times t(c) < t(a) < t(b) sort to c, a, b. */
  lemma SortThreeByTime(a: Recipe, b: Recipe, c: Recipe)
    requires c.time < a.time < b.time
    ensures SortBy([a, b, c], ByTime) == [c, a, b]
  {
    assert [a, b, c][1..] == [b, c] && [b, c][1..] == [c];
    assert SortBy([c], ByTime) == [c];
    assert SortBy([b, c], ByTime) == Insert(b, [c], ByTime) == [c, b];
    assert Insert(a, [c, b], ByTime) == [c] + Insert(a, [b], ByTime);
    assert Insert(a, [b], ByTime) == [a, b];
  }

  /** Sorting by time puts Greek Salad (15), Spaghetti Carbonara (25), Chicken Tikka Masala (45). */
  lemma TimeSort(favorites: seq<int>, collate: (string, string) -> int)
    ensures Ids(Display(Catalog, "", "all", "time", favorites, collate)) == [3, 1, 2]
  {
    SortThreeByTime(Catalog[0], Catalog[1], Catalog[2]);
    assert Catalog == [Catalog[0], Catalog[1], Catalog[2]];
  }

  /** A fresh page with nothing stored shows the whole catalog in catalog order. */
  method FreshPage(collate: (string, string) -> int) returns (ids: seq<int>, count: string)
    ensures ids == [1, 2, 3] && count == "Showing 3 of 3 recipes"
  {
    var state := new ViewState(None);
    var shown;
    shown, count := state.UpdateDisplay(collate);
    assert shown == Catalog;
    ids := Ids(shown);
  }

  /** Choosing "easy" on a fresh page shows two of the three recipes. */
  method ChooseEasy(collate: (string, string) -> int) returns (ids: seq<int>, count: string)
    ensures ids == [1, 3] && count == "Showing 2 of 3 recipes"
  {
    var state := new ViewState(None);
    var shown;
    shown, count := state.SetFilter("easy", collate);
    EasyFilter([], collate);
    ids := Ids(shown);
  }

  /** Marking recipe 1 as a favorite survives a reload of the page. */
  method ToggleThenReload(collate: (string, string) -> int) returns (reloaded: seq<int>)
    ensures reloaded == [1]
  {
    var state := new ViewState(None);
    var _, _ := state.ToggleFavorite(1, collate);
    var again := new ViewState(state.stored);
    reloaded := again.favorites;
  }
}
