/**
 * The browser's mutable state and its event handlers: the active filter, the
 * active sort, the committed search text and the favorite ids, which are
 * written to persistent storage after every toggle.
 */
module App {
  import opened Seqs
  import opened Text
  import opened Recipes
  import opened Pipeline

  datatype Option<T> = None | Some(value: T)

  /**
   * The favorites read at start-up, `JSON.parse(stored) || []`: no stored
   * entry gives none; a stored array gives that array, even an empty one.
   */
  function LoadFavorites(stored: Option<seq<int>>): seq<int>
  {
    match stored
    case None => []
    case Some(ids) => ids
  }

  function NotId(id: int): int -> bool
  {
    (f: int) => f != id
  }

  /** `toggleFavorite`: drop every copy of a favorite id, or append an id that is not yet one. */
  function Toggle(favorites: seq<int>, id: int): seq<int>
  {
    if id in favorites then Filter(favorites, NotId(id))
    else favorites + [id]
  }

  /**
   * Toggling flips whether `id` is a favorite and leaves every other id as it
   * was: an absent id is appended at the end; a present id loses every copy,
   * the other favorites keeping their order and their number of copies.
   */
  lemma ToggleSpec(favorites: seq<int>, id: int)
    ensures id in Toggle(favorites, id) <==> id !in favorites
    ensures forall k :: k != id ==> (k in Toggle(favorites, id) <==> k in favorites)
    ensures id !in favorites ==> Toggle(favorites, id) == favorites + [id]
    ensures id in favorites ==> IsSubsequence(Toggle(favorites, id), favorites)
    ensures forall k :: k != id ==> multiset(Toggle(favorites, id))[k] == multiset(favorites)[k]
  {
    if id in favorites {
      FilterSubsequence(favorites, NotId(id));
      FilterMembers(favorites, NotId(id));
      forall k | k != id ensures multiset(Toggle(favorites, id))[k] == multiset(favorites)[k] {
        FilterCount(favorites, NotId(id), k);
      }
    }
  }

  /** Toggling an id twice restores whether it is a favorite, and every other id too. */
  lemma ToggleTwice(favorites: seq<int>, id: int)
    ensures forall k :: k in Toggle(Toggle(favorites, id), id) <==> k in favorites
  {
    ToggleSpec(favorites, id);
    ToggleSpec(Toggle(favorites, id), id);
  }

  /** Starting from a list without `id`, toggling it twice gives back the very same list. */
  lemma ToggleTwiceRestores(favorites: seq<int>, id: int)
    requires id !in favorites
    ensures Toggle(Toggle(favorites, id), id) == favorites
  {
    ToggleSpec(favorites, id);
    FilterAppend(favorites, [id], NotId(id));
    FilterKeepsAll(favorites, NotId(id));
  }

  /** A duplicate-free favorites list stays duplicate-free. */
  lemma ToggleNoDuplicates(favorites: seq<int>, id: int)
    requires NoDuplicates(favorites)
    ensures NoDuplicates(Toggle(favorites, id))
  {
    var r := Toggle(favorites, id);
    if id in favorites {
      FilterSubsequence(favorites, NotId(id));
      SubsequenceMultiset(r, favorites);
      NoDuplicatesSubmultiset(r, favorites);
    } else {
      forall i, j | 0 <= i < j < |r| ensures r[i] != r[j] {
        if j == |favorites| {
          assert r[i] == favorites[i];
        } else {
          assert r[i] == favorites[i] && r[j] == favorites[j];
        }
      }
    }
  }

  /**
   * The page's state. `stored` is the persisted favorites entry, already
   * decoded: `None` when the key is absent.
   */
  class ViewState {
    var filter: string
    var sort: string
    var query: string
    var favorites: seq<int>
    var stored: Option<seq<int>>

    /** Start-up: defaults for filter, sort and query; favorites read from storage. */
    constructor (persisted: Option<seq<int>>)
      ensures filter == "all" && sort == "none" && query == ""
      ensures favorites == LoadFavorites(persisted) && stored == persisted
    {
      filter := "all";
      sort := "none";
      query := "";
      favorites := LoadFavorites(persisted);
      stored := persisted;
    }

    /** The recipes `updateDisplay` shows for the current state. */
    function Visible(collate: (string, string) -> int): seq<Recipe>
      reads this
    {
      Display(Catalog, query, filter, sort, favorites, collate)
    }

    /**
     * `updateDisplay`: the cards to draw and the count line. The cards are the
     * catalog entries passing search and filter, each once, in sort order.
     */
    method UpdateDisplay(collate: (string, string) -> int) returns (shown: seq<Recipe>, count: string)
      ensures shown == Visible(collate)
      ensures forall r :: r in shown <==> r in Catalog && Shown(query, filter, favorites, r)
      ensures NoDuplicates(shown) && |shown| <= |Catalog|
      ensures count == CountText(|shown|, |Catalog|)
    {
      var result := FilterBySearch(Catalog, query);
      result := ApplyFilter(result, filter, favorites);
      result := ApplySort(result, sort, collate);
      DisplaySpec(Catalog, query, filter, sort, favorites, collate);
      CatalogWellFormed();
      shown := result;
      count := CountText(|shown|, |Catalog|);
    }

    /** A filter button: its value becomes the filter, then the display is redrawn. */
    method SetFilter(value: string, collate: (string, string) -> int) returns (shown: seq<Recipe>, count: string)
      modifies this
      ensures filter == value
      ensures sort == old(sort) && query == old(query) && favorites == old(favorites) && stored == old(stored)
      ensures shown == Visible(collate) && count == CountText(|shown|, |Catalog|)
    {
      filter := value;
      shown, count := UpdateDisplay(collate);
    }

    /** A sort button: its value becomes the sort, then the display is redrawn. */
    method SetSort(value: string, collate: (string, string) -> int) returns (shown: seq<Recipe>, count: string)
      modifies this
      ensures sort == value
      ensures filter == old(filter) && query == old(query) && favorites == old(favorites) && stored == old(stored)
      ensures shown == Visible(collate) && count == CountText(|shown|, |Catalog|)
    {
      sort := value;
      shown, count := UpdateDisplay(collate);
    }

    /**
     * The debounced search callback: the trimmed input text becomes the
     * query, the clear button shows exactly when it is non-empty, and the
     * display is redrawn.
     */
    method CommitSearch(input: string, collate: (string, string) -> int)
      returns (showClear: bool, shown: seq<Recipe>, count: string)
      modifies this
      ensures query == Trim(input) && showClear == (query != "")
      ensures filter == old(filter) && sort == old(sort) && favorites == old(favorites) && stored == old(stored)
      ensures shown == Visible(collate) && count == CountText(|shown|, |Catalog|)
    {
      query := Trim(input);
      showClear := query != "";
      shown, count := UpdateDisplay(collate);
    }

    /** The clear button: the query becomes empty, the clear button hides and the display is redrawn. */
    method ClearSearch(collate: (string, string) -> int) returns (showClear: bool, shown: seq<Recipe>, count: string)
      modifies this
      ensures query == "" && !showClear
      ensures filter == old(filter) && sort == old(sort) && favorites == old(favorites) && stored == old(stored)
      ensures shown == Visible(collate) && count == CountText(|shown|, |Catalog|)
    {
      query := "";
      showClear := false;
      shown, count := UpdateDisplay(collate);
    }

    /**
     * A heart button: toggle the id, save the new favorites, redraw. The id
     * is a favorite afterwards exactly when it was not before, and storage
     * holds the new list.
     */
    method ToggleFavorite(id: int, collate: (string, string) -> int) returns (shown: seq<Recipe>, count: string)
      modifies this
      ensures favorites == Toggle(old(favorites), id) && stored == Some(favorites)
      ensures id in favorites <==> id !in old(favorites)
      ensures NoDuplicates(old(favorites)) ==> NoDuplicates(favorites)
      ensures filter == old(filter) && sort == old(sort) && query == old(query)
      ensures shown == Visible(collate) && count == CountText(|shown|, |Catalog|)
    {
      ToggleSpec(favorites, id);
      if NoDuplicates(favorites) {
        ToggleNoDuplicates(favorites, id);
      }
      favorites := Toggle(favorites, id);
      stored := Some(favorites);
      shown, count := UpdateDisplay(collate);
    }
  }
}
