# Recipe browser: a Dafny model of the display pipeline and its state

The recipe browser (`app4.js`) shows a fixed catalog of three recipes as
cards. Buttons and a search box change four pieces of page state: the active
filter, the active sort, the committed search text and the list of favorite
ids. After every change the page redraws through one pipeline: **search**
(keep the recipes whose lower-cased title, description or some ingredient
contains the lower-cased query), then **filter** (`"all"`, `"favorites"` or a
difficulty), then **sort** (`"name"` by `localeCompare` of the titles,
`"time"` by cooking time, anything else unchanged). Above the cards it writes
`Showing X of Y recipes`. Favorite ids are written to persistent storage after
every toggle and read back when the page loads.

The model has seven modules:

- `Seqs`: `Filter`, which is `Array.prototype.filter`, plus what it
  guarantees: an order-preserving subsequence, exact membership and copy
  counts, commutation of two filters, and duplicate-freedom.
- `Sorting`: `SortBy`, a stable insertion sort. It is the reference for
  `Array.prototype.sort`, which ECMAScript 2023, section 23.1.3.30, requires
  to be stable (it has been stable since ECMAScript 2019).
  `StableSortIsSortBy` proves that every stable sort of a list by a total
  preorder gives exactly `SortBy`'s result, so nothing rests on the choice of
  algorithm.
- `Text`: `toLowerCase` (ASCII), `includes`, `trim` with the ECMAScript white
  space and line terminator code points, and decimal formatting of numbers in
  template literals.
- `Recipes`: the `Recipe` record and the catalog constant.
- `Pipeline`: the three stages, their composition `Display` and the count text.
- `App`: `Toggle` and the class `ViewState`. Its fields are the page's state,
  and each event handler is a method that updates the fields and redraws.
- `Scenarios`: the catalog's concrete behaviours, as lemmas and as verified
  methods that drive a `ViewState`.

Three behaviours of the code are easy to miss:

- A filter value that is not `"all"` and not `"favorites"` is compared with
  each recipe's difficulty. An unknown value therefore shows nothing; it does
  not pass the list through (`Pipeline.UnknownFilterShowsNothing`).
- The `"name"` sort uses `localeCompare` as it is. It is not defined as a
  case-insensitive comparison.
- Favorites are loaded with `JSON.parse(...) || []`. A malformed stored value
  throws instead of being treated as empty (see "Left out").

## Model

| member | source | states |
|---|---|---|
| Recipes.CatalogWellFormed | app4.js:5-30 | The catalog's ids are 1, 2 and 3 in display order, no two entries are equal, and every id is positive and every time non-negative. |
| Seqs.FilterSubsequence | app4.js:54-58 | `filter` returns an order-preserving subsequence of its input. |
| Seqs.FilterCount | app4.js:54-58 | `filter` keeps every copy of an element that passes the test and no copy of one that fails it. |
| Seqs.FilterCommutes | app4.js:54-66 | Running two filters in either order gives the same list. |
| Text.LowerShape | app4.js:53-57 | Lower-casing keeps the length, turns each capital letter A-Z into its own lower-case letter a-z, leaves no upper-case letter and changes no other character. |
| Text.LowerIdempotent | app4.js:53-57 | Lower-casing a lower-cased string changes nothing. |
| Text.IncludesSpec | app4.js:55-57 | `includes` holds exactly when the query occurs at some position of the text. |
| Text.IncludesEmpty | app4.js:55-57 | The empty string is included in every string. |
| Text.MissingChar | app4.js:55-57 | A query holding a character that the text lacks is not included in it. |
| Text.TrimSpec | app4.js:113 | `trim` removes a white-space prefix and a white-space suffix and nothing else, and leaves no white space at either end. |
| Text.TrimIdempotent | app4.js:113 | Trimming a trimmed string changes nothing. |
| Text.NatToString | app4.js:106 | A count appears as a non-empty string of decimal digits with no leading zero whose value is the count. |
| Pipeline.FilterBySearchIsFilter | app4.js:51-59 | The search stage is one filter by "the query is empty or the recipe matches it". |
| Pipeline.FilterBySearchSpec | app4.js:51-59 | An empty query returns the list unchanged. Otherwise the result is an order-preserving subsequence that keeps every copy of each recipe whose lower-cased title, description or some ingredient contains the lower-cased query, and no other recipe. |
| Pipeline.SearchIgnoresQueryCase | app4.js:53 | Two queries with the same lower-cased text give the same result. |
| Pipeline.SearchIgnoresRecipeCase | app4.js:55-57 | A recipe is kept exactly when its lower-cased copy would be. |
| Pipeline.ApplyFilterIsFilter | app4.js:61-67 | The filter stage is one filter by the test the filter value selects. |
| Pipeline.ApplyFilterSpec | app4.js:61-67 | `"all"` returns the list unchanged. `"favorites"` keeps exactly the recipes whose id is a favorite. Any other value keeps exactly the recipes with that difficulty. The result is always an order-preserving subsequence with each kept recipe's copies intact. |
| Pipeline.NoFavoritesShowsNothing | app4.js:62-63 | With no favorites, the `"favorites"` filter returns the empty list. |
| Pipeline.UnknownFilterShowsNothing | app4.js:66 | A filter value that is no recipe's difficulty, and is neither `"all"` nor `"favorites"`, returns the empty list. |
| Pipeline.SearchFilterCommute | app4.js:101-102 | Search then filter gives the same list as filter then search. |
| Pipeline.ApplySortPermutes | app4.js:69-77 | Every sort value returns a permutation of the list. `"none"` and unknown values return the list unchanged. |
| Pipeline.TimeSortSpec | app4.js:73-74 | `"time"` returns the stable sort by time. It is a permutation in non-decreasing time, and the recipes of each time keep their relative order. |
| Pipeline.TitleOrderIsTotalPreorder | app4.js:71 | For a consistent collation, the title comparator is a total preorder. |
| Pipeline.NameSortSpec | app4.js:70-71 | For a consistent collation, `"name"` returns a permutation sorted by the title comparator, with equal titles in their original order. |
| Pipeline.SelectionIsFilter | app4.js:101-102 | Search followed by filter is one filter by "shown". |
| Pipeline.DisplayRearrangesSelection | app4.js:101-103 | The displayed list is a rearrangement of the selected recipes. |
| Pipeline.DisplaySpec | app4.js:101-103 | The display holds each recipe that passes search and filter as often as the list holds it, and nothing else. So it never adds a recipe, is no longer than the list, and is duplicate-free when the list is. |
| Pipeline.UnsortedDisplayKeepsOrder | app4.js:101-103 | Without a sort, the display is an order-preserving subsequence of the list. |
| Sorting.SortByPermutes | app4.js:71-74 | Sorting rearranges the list without adding or dropping elements. |
| Sorting.SortBySorted | app4.js:71-74 | For a total preorder, the sorted list is in order. |
| Sorting.SortByStable | app4.js:71-74 | Elements that compare equal keep their relative order. |
| Sorting.SortByIsStableSort | app4.js:71-74 | For a total preorder, `SortBy` is a stable sort. |
| Sorting.StableSortUnique | app4.js:71-74 | Two stable sorts of the same list by the same total preorder are equal. |
| Sorting.StableSortIsSortBy | app4.js:71-74 | Any stable sort of a list by a total preorder equals `SortBy`'s result. |
| App.ToggleSpec | app4.js:79-83 | Toggling flips whether the id is a favorite and changes no other id's membership. An absent id is appended at the end. A present id loses every copy, and the other favorites keep their order and their number of copies. |
| App.ToggleTwice | app4.js:81-83 | Toggling one id twice restores the membership of every id. |
| App.ToggleTwiceRestores | app4.js:81-83 | Starting from a list without the id, toggling it twice gives back the same list. |
| App.ToggleNoDuplicates | app4.js:81-83 | A duplicate-free favorites list stays duplicate-free. |
| App.ViewState.constructor | app4.js:33-36 | The page starts with filter `"all"`, sort `"none"` and an empty query. Favorites are the stored list, or none when nothing is stored. |
| App.ViewState.UpdateDisplay | app4.js:100-107 | Returns the cards the pipeline selects and the count line. A card is shown exactly when it is a catalog recipe that passes search and filter. No card is shown twice, and there are at most as many cards as catalog recipes. |
| App.ViewState.SetFilter | app4.js:134-139 | The button's value becomes the filter. The other state is unchanged, and the display is redrawn. |
| App.ViewState.SetSort | app4.js:143-148 | The button's value becomes the sort. The other state is unchanged, and the display is redrawn. |
| App.ViewState.CommitSearch | app4.js:112-116 | The trimmed input becomes the query. The clear button shows exactly when the query is non-empty, and the display is redrawn. |
| App.ViewState.ClearSearch | app4.js:119-124 | The query becomes empty and the clear button hides. The other state is unchanged, and the display is redrawn. |
| App.ViewState.ToggleFavorite | app4.js:79-86 | The favorites become the toggled list, and storage holds it. The id is a favorite afterwards exactly when it was not before, and a duplicate-free list stays duplicate-free. |
| Scenarios.EasyFilter | app4.js:5-30 | With filter `"easy"` and no query, ids 1 and 3 are shown, with "Showing 2 of 3 recipes". |
| Scenarios.TomatoNotInCarbonara | app4.js:8-12 | No text of Spaghetti Carbonara contains "tomato". |
| Scenarios.TomatoInTikkaMasala | app4.js:19 | The description of Chicken Tikka Masala contains "tomato". |
| Scenarios.TomatoInGreekSalad | app4.js:28 | The Greek Salad ingredient "Tomato" matches "tomato" regardless of case. |
| Scenarios.TomatoSearch | app4.js:51-59 | Searching the catalog for "tomato" keeps Chicken Tikka Masala and Greek Salad. |
| Scenarios.TomatoQuery | app4.js:5-30 | With query "tomato" and filter `"all"`, ids 2 and 3 are shown. |
| Scenarios.FavoritesFilter | app4.js:5-30 | With favorites [2] and filter `"favorites"`, only id 2 is shown. |
| Scenarios.SortThreeByTime | app4.js:74 | Three recipes whose times are ordered c < a < b sort to c, a, b. |
| Scenarios.TimeSort | app4.js:5-30 | Sorting the catalog by time shows ids 3, 1, 2 (15, 25 and 45 minutes). |
| Scenarios.FreshPage | app4.js:156-158 | A page with nothing stored shows ids 1, 2 and 3 with "Showing 3 of 3 recipes". |
| Scenarios.ChooseEasy | app4.js:134-139 | Choosing `"easy"` on a fresh page shows ids 1 and 3 with "Showing 2 of 3 recipes". |
| Scenarios.ToggleThenReload | app4.js:36 | After recipe 1 is marked as a favorite, a page loaded from the stored value has favorites [1]. |

## Left out

- Document and event wiring (app4.js:40-45, 126-154): the button, search-box and container lookups, the click routing and the `active` class changes are not modelled. Each handler body is a `ViewState` method. The search box's text is not part of `ViewState`, so `ClearSearch` does not model emptying it (app4.js:121); it returns the clear button's visibility as `showClear` (app4.js:122).
- Card markup (app4.js:89-98, 105): `UpdateDisplay` returns the cards to draw as recipes and does not build HTML. The code inserts titles and descriptions into HTML without escaping them.
- Storage and JSON (app4.js:36, 48-49): `stored` holds the already-decoded value, `None` when the key is absent. A malformed stored string makes `JSON.parse` throw at start-up, and that path is not modelled. No other stored JSON value is modelled either (a non-array, a falsy scalar, non-integer elements). Storage failures are not modelled: `getItem` and `setItem` may throw (storage disabled, quota exceeded), and a throw from `saveFavorites` inside `toggleFavorite` would leave the new favorites in memory, unsaved and not redrawn, whereas `ToggleFavorite` always stores and always redraws.
- Debounce timer (app4.js:110-117): `setTimeout` and `clearTimeout` are not modelled. `CommitSearch` is the body of the timer callback, run on the text present when the timer fires. `clearSearch` does not cancel a pending timer; because it empties the search box first, a callback that fires afterwards commits `Trim("")`, the empty query, as `ClearSearch` did.
- `id = Number(id)` (app4.js:80): ids arrive as integers, so the string-to-number conversion is not modelled.
- `console.log` at start-up (app4.js:159) is not modelled.
- Lower: lower-cases ASCII letters only; Unicode case mapping, which `toLowerCase` applies to every letter, is not modelled.
- TitleOrder: `localeCompare` is the parameter `collate`, because the locale's collation is not part of this model. The sortedness and stability of the `"name"` sort (`Pipeline.NameSortSpec`) are proved only for a collation that orders all strings consistently (`IsCollation`). The ECMA-262 definition of `String.prototype.localeCompare` requires `localeCompare` to be a consistent comparator on the set of all strings, and such a comparator satisfies `IsCollation`, so the requires of `NameSortSpec` holds for every conforming platform.
- Strings: a Dafny `string` is a sequence of Unicode scalar values, while JavaScript strings are sequences of UTF-16 code units that `includes`, `trim` and `toLowerCase` work on. The two agree on well-formed text; lone surrogates are not modelled.
- IsWhiteSpace: the space separators of Unicode (category Zs) are listed as fixed code points, not taken from a Unicode table.
- Recipe: `time` and `id` are mathematical integers, not JavaScript numbers. Fractional values and the double-precision rounding in `a.time - b.time` play no part for the catalog.
