/**
 * The display pipeline of the recipe browser: search, then filter, then sort,
 * and the count line shown above the cards. Every stage returns a new sequence;
 * none changes its input.
 */
module Pipeline {
  import opened Seqs
  import opened Sorting
  import opened Text
  import opened Recipes

  // ---------------------------------------------------------------- search

  /** `r` matches the lower-cased query `q` in its title, description or some ingredient. */
  predicate MatchesQuery(r: Recipe, q: string)
  {
    || Includes(Lower(r.title), q)
    || Includes(Lower(r.description), q)
    || exists i :: 0 <= i < |r.ingredients| && Includes(Lower(r.ingredients[i]), q)
  }

  function MatchTest(q: string): Recipe -> bool
  {
    (r: Recipe) => MatchesQuery(r, q)
  }

  /** The search stage: an empty query keeps the list, otherwise the matching recipes. */
  function FilterBySearch(list: seq<Recipe>, query: string): seq<Recipe>
  {
    if query == [] then list
    else Filter(list, MatchTest(Lower(query)))
  }

  /** Whether the search stage keeps `r` for the (trimmed) query typed by the user. */
  predicate SearchKeeps(query: string, r: Recipe)
  {
    query == [] || MatchesQuery(r, Lower(query))
  }

  function SearchTest(query: string): Recipe -> bool
  {
    (r: Recipe) => SearchKeeps(query, r)
  }

  /** The search stage is the filter by `SearchKeeps`, the empty query included. */
  lemma FilterBySearchIsFilter(list: seq<Recipe>, query: string)
    ensures FilterBySearch(list, query) == Filter(list, SearchTest(query))
  {
    if query == [] {
      FilterKeepsAll(list, SearchTest(query));
    } else {
      FilterCongruent(list, MatchTest(Lower(query)), SearchTest(query));
    }
  }

  /**
   * With an empty query the list comes back unchanged. Otherwise the result is
   * an order-preserving subsequence holding every copy of each recipe whose
   * lower-cased title, description or an ingredient contains the lower-cased
   * query, and no other recipe.
   */
  lemma FilterBySearchSpec(list: seq<Recipe>, query: string)
    ensures query == [] ==> FilterBySearch(list, query) == list
    ensures IsSubsequence(FilterBySearch(list, query), list)
    ensures forall r :: r in FilterBySearch(list, query) <==> r in list && SearchKeeps(query, r)
    ensures forall r :: multiset(FilterBySearch(list, query))[r] == if SearchKeeps(query, r) then multiset(list)[r] else 0
  {
    FilterBySearchIsFilter(list, query);
    FilterSubsequence(list, SearchTest(query));
    FilterMembers(list, SearchTest(query));
    forall r ensures multiset(FilterBySearch(list, query))[r] == if SearchKeeps(query, r) then multiset(list)[r] else 0 {
      FilterCount(list, SearchTest(query), r);
    }
  }

  /** Queries that differ only in the case of ASCII letters select the same recipes. */
  lemma SearchIgnoresQueryCase(list: seq<Recipe>, q1: string, q2: string)
    requires Lower(q1) == Lower(q2)
    ensures FilterBySearch(list, q1) == FilterBySearch(list, q2)
  {
    LowerEmpty(q1);
    LowerEmpty(q2);
  }

  /** `r` with its title, description and ingredients lower-cased. */
  function LowerRecipe(r: Recipe): Recipe
  {
    r.(title := Lower(r.title),
       description := Lower(r.description),
       ingredients := seq(|r.ingredients|, i requires 0 <= i < |r.ingredients| => Lower(r.ingredients[i])))
  }

  /** Matching ignores the case of the recipe's own text as well. */
  lemma SearchIgnoresRecipeCase(query: string, r: Recipe)
    ensures SearchKeeps(query, r) == SearchKeeps(query, LowerRecipe(r))
  {
    var l := LowerRecipe(r);
    LowerIdempotent(r.title);
    LowerIdempotent(r.description);
    forall i | 0 <= i < |r.ingredients| ensures Lower(l.ingredients[i]) == Lower(r.ingredients[i]) {
      LowerIdempotent(r.ingredients[i]);
    }
  }

  // ---------------------------------------------------------------- filter

  function FavoriteTest(favorites: seq<int>): Recipe -> bool
  {
    (r: Recipe) => r.id in favorites
  }

  function DifficultyTest(difficulty: string): Recipe -> bool
  {
    (r: Recipe) => r.difficulty == difficulty
  }

  /**
   * The filter stage: "favorites" keeps the recipes whose id is a favorite,
   * "all" keeps the list, any other value keeps the recipes of that difficulty.
   */
  function ApplyFilter(list: seq<Recipe>, filter: string, favorites: seq<int>): seq<Recipe>
  {
    if filter == "favorites" then Filter(list, FavoriteTest(favorites))
    else if filter == "all" then list
    else Filter(list, DifficultyTest(filter))
  }

  /** Whether the filter stage keeps `r`. */
  predicate FilterKeeps(filter: string, favorites: seq<int>, r: Recipe)
  {
    if filter == "favorites" then r.id in favorites
    else if filter == "all" then true
    else r.difficulty == filter
  }

  function FilterTest(filter: string, favorites: seq<int>): Recipe -> bool
  {
    (r: Recipe) => FilterKeeps(filter, favorites, r)
  }

  lemma ApplyFilterIsFilter(list: seq<Recipe>, filter: string, favorites: seq<int>)
    ensures ApplyFilter(list, filter, favorites) == Filter(list, FilterTest(filter, favorites))
  {
    if filter == "favorites" {
      FilterCongruent(list, FavoriteTest(favorites), FilterTest(filter, favorites));
    } else if filter == "all" {
      FilterKeepsAll(list, FilterTest(filter, favorites));
    } else {
      FilterCongruent(list, DifficultyTest(filter), FilterTest(filter, favorites));
    }
  }

  /**
   * "all" returns the list unchanged; "favorites" keeps exactly the recipes
   * whose id is in `favorites`; any other value keeps exactly the recipes with
   * that difficulty. The result is always an order-preserving subsequence.
   */
  lemma ApplyFilterSpec(list: seq<Recipe>, filter: string, favorites: seq<int>)
    ensures filter == "all" ==> ApplyFilter(list, filter, favorites) == list
    ensures IsSubsequence(ApplyFilter(list, filter, favorites), list)
    ensures filter == "favorites" ==>
      forall r :: r in ApplyFilter(list, filter, favorites) <==> r in list && r.id in favorites
    ensures filter != "favorites" && filter != "all" ==>
      forall r :: r in ApplyFilter(list, filter, favorites) <==> r in list && r.difficulty == filter
    ensures forall r ::
      multiset(ApplyFilter(list, filter, favorites))[r] == if FilterKeeps(filter, favorites, r) then multiset(list)[r] else 0
  {
    ApplyFilterIsFilter(list, filter, favorites);
    FilterSubsequence(list, FilterTest(filter, favorites));
    FilterMembers(list, FilterTest(filter, favorites));
    forall r ensures multiset(ApplyFilter(list, filter, favorites))[r] ==
      (if FilterKeeps(filter, favorites, r) then multiset(list)[r] else 0)
    {
      FilterCount(list, FilterTest(filter, favorites), r);
    }
  }

  /** With no favorites, the "favorites" filter shows nothing. */
  lemma NoFavoritesShowsNothing(list: seq<Recipe>)
    ensures ApplyFilter(list, "favorites", []) == []
  {
    FilterKeepsNone(list, FavoriteTest([]));
  }

  /** A filter value that is no recipe's difficulty (and not "all" or "favorites") shows nothing. */
  lemma UnknownFilterShowsNothing(list: seq<Recipe>, filter: string, favorites: seq<int>)
    requires filter != "favorites" && filter != "all"
    requires forall r :: r in list ==> r.difficulty != filter
    ensures ApplyFilter(list, filter, favorites) == []
  {
    FilterKeepsNone(list, DifficultyTest(filter));
  }

  /** Search and filter may run in either order. */
  lemma SearchFilterCommute(list: seq<Recipe>, query: string, filter: string, favorites: seq<int>)
    ensures ApplyFilter(FilterBySearch(list, query), filter, favorites)
         == FilterBySearch(ApplyFilter(list, filter, favorites), query)
  {
    FilterBySearchIsFilter(list, query);
    ApplyFilterIsFilter(FilterBySearch(list, query), filter, favorites);
    ApplyFilterIsFilter(list, filter, favorites);
    FilterBySearchIsFilter(ApplyFilter(list, filter, favorites), query);
    FilterCommutes(list, SearchTest(query), FilterTest(filter, favorites));
  }

  // ---------------------------------------------------------------- sort

  /** The comparator `(a, b) => a.time - b.time`, read as "a may come before b". */
  predicate ByTime(a: Recipe, b: Recipe)
  {
    a.time - b.time <= 0
  }

  /**
   * The comparator `(a, b) => a.title.localeCompare(b.title)`. The locale's
   * collation is not part of this model: it is the parameter `collate`.
   */
  function TitleOrder(collate: (string, string) -> int): (Recipe, Recipe) -> bool
  {
    (a: Recipe, b: Recipe) => collate(a.title, b.title) <= 0
  }

  /** What is assumed of `localeCompare`: it orders all strings consistently. */
  ghost predicate IsCollation(collate: (string, string) -> int)
  {
    && (forall a, b :: collate(a, b) <= 0 || collate(b, a) <= 0)
    && (forall a, b, c :: collate(a, b) <= 0 && collate(b, c) <= 0 ==> collate(a, c) <= 0)
  }

  /** The sort stage: "name" and "time" sort a copy stably; any other value keeps the list. */
  function ApplySort(list: seq<Recipe>, sort: string, collate: (string, string) -> int): seq<Recipe>
  {
    if sort == "name" then SortBy(list, TitleOrder(collate))
    else if sort == "time" then SortBy(list, ByTime)
    else list
  }

  /** Sorting rearranges and never adds or drops; "none" and unknown values keep the order. */
  lemma ApplySortPermutes(list: seq<Recipe>, sort: string, collate: (string, string) -> int)
    ensures multiset(ApplySort(list, sort, collate)) == multiset(list)
    ensures sort != "name" && sort != "time" ==> ApplySort(list, sort, collate) == list
  {
    SortByPermutes(list, TitleOrder(collate));
    SortByPermutes(list, ByTime);
  }

  function HasTime(t: int): Recipe -> bool
  {
    (r: Recipe) => r.time == t
  }

  /**
   * "time" gives the stable sort by time: a rearrangement in non-decreasing
   * time whose recipes of equal time keep their relative order.
   */
  lemma TimeSortSpec(list: seq<Recipe>, collate: (string, string) -> int)
    ensures IsStableSortOf(ApplySort(list, "time", collate), list, ByTime)
    ensures forall i, j :: 0 <= i < j < |ApplySort(list, "time", collate)| ==>
      ApplySort(list, "time", collate)[i].time <= ApplySort(list, "time", collate)[j].time
    ensures forall t :: Filter(ApplySort(list, "time", collate), HasTime(t)) == Filter(list, HasTime(t))
  {
    var r := ApplySort(list, "time", collate);
    assert IsTotalPreorder(ByTime);
    SortByIsStableSort(list, ByTime);
    assert |r| == |list| by {
      assert |multiset(r)| == |multiset(list)|;
    }
    forall t ensures Filter(r, HasTime(t)) == Filter(list, HasTime(t)) {
      var x := Recipe(0, "", t, "", "", []);
      assert Filter(r, SameRank(ByTime, x)) == Filter(list, SameRank(ByTime, x));
      FilterCongruent(r, SameRank(ByTime, x), HasTime(t));
      FilterCongruent(list, SameRank(ByTime, x), HasTime(t));
    }
  }

  lemma TitleOrderIsTotalPreorder(collate: (string, string) -> int)
    requires IsCollation(collate)
    ensures IsTotalPreorder(TitleOrder(collate))
  {
    var le := TitleOrder(collate);
    forall a, b ensures le(a, b) || le(b, a) {
      assert collate(a.title, b.title) <= 0 || collate(b.title, a.title) <= 0;
    }
    forall a, b, c | le(a, b) && le(b, c) ensures le(a, c) {
      assert collate(a.title, b.title) <= 0 && collate(b.title, c.title) <= 0;
    }
  }

  /** With a consistent collation, "name" gives the stable sort by title. */
  lemma NameSortSpec(list: seq<Recipe>, collate: (string, string) -> int)
    requires IsCollation(collate)
    ensures IsStableSortOf(ApplySort(list, "name", collate), list, TitleOrder(collate))
  {
    TitleOrderIsTotalPreorder(collate);
    SortByIsStableSort(list, TitleOrder(collate));
  }

  // ---------------------------------------------------------------- composition

  /** What `updateDisplay` shows: search the list, filter the result, sort that. */
  function Display(list: seq<Recipe>, query: string, filter: string, sort: string,
                   favorites: seq<int>, collate: (string, string) -> int): seq<Recipe>
  {
    ApplySort(ApplyFilter(FilterBySearch(list, query), filter, favorites), sort, collate)
  }

  /** Whether the pipeline shows `r`, a recipe of the list. */
  predicate Shown(query: string, filter: string, favorites: seq<int>, r: Recipe)
  {
    SearchKeeps(query, r) && FilterKeeps(filter, favorites, r)
  }

  function ShownTest(query: string, filter: string, favorites: seq<int>): Recipe -> bool
  {
    (r: Recipe) => Shown(query, filter, favorites, r)
  }

  /** Search followed by filter is one filter by `Shown`. */
  lemma SelectionIsFilter(list: seq<Recipe>, query: string, filter: string, favorites: seq<int>)
    ensures ApplyFilter(FilterBySearch(list, query), filter, favorites) == Filter(list, ShownTest(query, filter, favorites))
  {
    FilterBySearchIsFilter(list, query);
    ApplyFilterIsFilter(FilterBySearch(list, query), filter, favorites);
    FilterFilter(list, SearchTest(query), FilterTest(filter, favorites));
    FilterCongruent(list, Both(SearchTest(query), FilterTest(filter, favorites)), ShownTest(query, filter, favorites));
  }

  /** The pipeline shows a rearrangement of the recipes of the list that pass search and filter. */
  lemma DisplayRearrangesSelection(list: seq<Recipe>, query: string, filter: string, sort: string,
                                   favorites: seq<int>, collate: (string, string) -> int)
    ensures multiset(Display(list, query, filter, sort, favorites, collate))
         == multiset(Filter(list, ShownTest(query, filter, favorites)))
  {
    SelectionIsFilter(list, query, filter, favorites);
    ApplySortPermutes(ApplyFilter(FilterBySearch(list, query), filter, favorites), sort, collate);
  }

  /**
   * The pipeline shows exactly the recipes of the list that pass both search
   * and filter, each as often as in the list, so never more recipes than the
   * list has; a duplicate-free list gives a duplicate-free display.
   */
  lemma DisplaySpec(list: seq<Recipe>, query: string, filter: string, sort: string,
                    favorites: seq<int>, collate: (string, string) -> int)
    ensures forall r ::
      multiset(Display(list, query, filter, sort, favorites, collate))[r] == if Shown(query, filter, favorites, r) then multiset(list)[r] else 0
    ensures forall r :: r in Display(list, query, filter, sort, favorites, collate) <==>
      r in list && Shown(query, filter, favorites, r)
    ensures multiset(Display(list, query, filter, sort, favorites, collate)) <= multiset(list)
    ensures |Display(list, query, filter, sort, favorites, collate)| <= |list|
    ensures NoDuplicates(list) ==> NoDuplicates(Display(list, query, filter, sort, favorites, collate))
  {
    var p := ShownTest(query, filter, favorites);
    var selected := Filter(list, p);
    var shown := Display(list, query, filter, sort, favorites, collate);
    DisplayRearrangesSelection(list, query, filter, sort, favorites, collate);
    forall r ensures multiset(shown)[r] == (if Shown(query, filter, favorites, r) then multiset(list)[r] else 0) {
      FilterCount(list, p, r);
    }
    forall r ensures r in shown <==> r in list && Shown(query, filter, favorites, r) {
      assert r in shown <==> r in multiset(shown);
      assert r in list <==> r in multiset(list);
    }
    FilterSubsequence(list, p);
    SubsequenceMultiset(selected, list);
    FilterLength(list, p);
    assert |shown| == |multiset(shown)| == |multiset(selected)| == |selected|;
    if NoDuplicates(list) {
      NoDuplicatesSubmultiset(shown, list);
    }
  }

  /** Without sorting, the display is an order-preserving subsequence of the list. */
  lemma UnsortedDisplayKeepsOrder(list: seq<Recipe>, query: string, filter: string, sort: string,
                                  favorites: seq<int>, collate: (string, string) -> int)
    requires sort != "name" && sort != "time"
    ensures IsSubsequence(Display(list, query, filter, sort, favorites, collate), list)
  {
    FilterBySearchSpec(list, query);
    ApplyFilterSpec(FilterBySearch(list, query), filter, favorites);
    SubsequenceTransitive(ApplyFilter(FilterBySearch(list, query), filter, favorites),
                          FilterBySearch(list, query), list);
  }

  /** The status line `Showing X of Y recipes`. */
  function CountText(shown: nat, total: nat): string
  {
    "Showing " + NatToString(shown) + " of " + NatToString(total) + " recipes"
  }
}
