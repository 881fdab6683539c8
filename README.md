# Cost-center inventory viewer: a Dafny model

The viewer loads an index of cost-center ids (`cc_index.json`), sorts it and
fills a selector with a placeholder followed by one option per id. Picking a
cost center fetches `por_centro_custo/<cc>.json` into the page's only state,
`inventarioData`. The results table then shows that data filtered by a
case-insensitive substring search on the equipment name ("Equipamentos").

The model has five modules:

- `Text` (text.dfy): lower-casing, restricted to ASCII letters, and substring
  containment (`includes`).
- `Decimal` (decimal.dfy): the decimal text an id gets as an option value, and
  reading it back.
- `Inventory` (inventory.dfy): the item record and the filter. It also holds
  the three-way view `NoData | NoMatch | Rows`, the five-cell row layout, the
  table rows a view renders to, and the data-file path with its inverse.
- `Selector` (selector.dfy): the option list and the in-place ascending sort
  of the index.
- `Page` (page.dfy): the class `Viewer`. Its fields are `data`
  (`inventarioData`), `body` (the table body rows) and `options` (the
  selector). Its methods are the handlers that reassign them.

Network fetches are parameters:

- The index load takes a `Fetch<seq<int>>` outcome.
- A cost-center load takes a function from path to `Fetch<seq<Item>>`. It
  stands for the server and is applied to the path the code builds.

The search box's current value is a `term` parameter.

## Model

| member | source | states |
|---|---|---|
| Text.LowerChar | script.js:88 | an ASCII capital maps to its small letter (32 code points up), every other character is kept, and the result is never an ASCII capital |
| Text.Lower | script.js:88 | lower-casing keeps the length and lower-cases each character independently |
| Text.LowerIdempotent | script.js:88 | lower-casing an already lower-cased term changes nothing |
| Text.Contains | script.js:100 | `includes`: the empty term is contained in every name, and a contained term is never longer than the name |
| Text.LowerPreservesContains | script.js:100 | a name that contains the term still contains it after both are lower-cased |
| Decimal.IntToString | script.js:39-40 | an id's option text is never empty and starts with '-' exactly for negative ids |
| Decimal.IntRoundTrip | script.js:39-40 | reading back an id's option text gives the id |
| Decimal.IntToStringInjective | script.js:39-40 | different ids get different option texts |
| Inventory.Matches | script.js:100 | the filter callback: the empty term matches every item, and a matching term is never longer than the equipment name |
| Inventory.Filter | script.js:99-101 | the filter keeps only loaded items whose lower-cased name contains the term, and never grows the list |
| Inventory.FilterIsSubsequence | script.js:99-101 | the filtered items are a subsequence of the loaded data, in their original relative order |
| Inventory.FilterComplete | script.js:99-101 | every loaded item whose lower-cased name contains the term is in the filtered result |
| Inventory.FilterCounts | script.js:99-101 | each matching item keeps all its copies and each non-matching item none |
| Inventory.FilterEmptyTerm | script.js:99-101 | the empty term keeps every loaded item, in order |
| Inventory.FilterIdempotent | script.js:99-101 | filtering the filtered result again with the same term returns it unchanged |
| Inventory.FilterEmptyIff | script.js:99-104 | the filtered result is empty exactly when no loaded item matches |
| Inventory.RowOf | script.js:111-116 | an item's row has five cells, with the equipment name in the third |
| Inventory.RowOfInjective | script.js:111-116 | the row keeps every field: different items give different rows |
| Inventory.ViewOf | script.js:88-108 | the three-way decision: "nothing loaded" exactly when no data is loaded, and item rows only when at least one and at most all loaded items survive |
| Inventory.Render | script.js:93-117 | "nothing loaded" and "no match" each render as one message row; otherwise one item row per view row, in order |
| Inventory.ViewNoData | script.js:93-96 | the view is "nothing loaded" exactly when no data is loaded, and then the table is that single message |
| Inventory.ViewNoMatch | script.js:104-108 | the view is "no match" exactly when data is loaded and no lower-cased name contains the lower-cased term, and then the table is exactly one message row |
| Inventory.ViewRows | script.js:110-117 | otherwise there is one row per filtered item; each row has five cells: cost center, inventory, equipment, area, inventory code; the table holds exactly those rows, in filter order |
| Inventory.ViewRowsSound | script.js:99-117 | every item row shown is the row of a loaded item whose name matches |
| Inventory.ViewEmptyTerm | script.js:88-117 | with data loaded, the empty term shows every loaded item, in load order |
| Inventory.ViewCaseInsensitive | script.js:88 | terms that are equal once lower-cased give the same view, and so do a term and its lower-case form |
| Inventory.MatchIgnoresCase | script.js:100 | an item whose name contains the term as typed always matches |
| Inventory.PathFor | script.js:59 | the path is the `por_centro_custo/` prefix, then the cost center, then `.json` |
| Inventory.PathRoundTrip | script.js:59 | the cost center can be read back from the path built for it |
| Inventory.PathOfCostCenterOf | script.js:59 | a path that reads back as a cost center is exactly the path built for it |
| Inventory.PathInjective | script.js:59 | different cost centers get different data-file paths |
| Selector.Value | script.js:35-40 | only the placeholder option has the empty value, which is the value that clears the data |
| Selector.ValueInjective | script.js:37-40 | different options have different values |
| Selector.OptionsFor | script.js:35-42 | the option list has one option more than the index; only its first option has the empty value |
| Selector.OptionsRoundTrip | script.js:35-42 | the option list is the placeholder followed by exactly one cost-center option per id, in order, and the ids read back from it are the index |
| Selector.SortIndex | script.js:20 | the index ends up in non-decreasing order and holds the same ids (a permutation) |
| Page.Viewer.constructor | script.js:2 | the page starts with no inventory loaded |
| Page.Viewer.LoadIndex | script.js:9-29 | a fetched index fills the selector with the placeholder and then the ids, sorted and as a permutation of the index, and shows the prompt; a failed fetch shows the index error and leaves the selector alone |
| Page.Viewer.PopulateSelector | script.js:33-43 | the selector is reset to the placeholder, then one option per id is appended, in order |
| Page.Viewer.LoadCostCenter | script.js:50-80 | the empty cost center clears the data; a failed load clears the data and shows the error with the cost center's path; a successful load sets the data to exactly the fetched items and renders the filtered view; the selector never changes; the table never shows a row of an unloaded item |
| Page.Viewer.ApplyFilters | script.js:86-118 | the table is rebuilt as the rendering of the view of the loaded data for the term; the data is not changed |

## Left out

- Network I/O, `await` and JSON parsing are not modelled. Each fetch is an
  abstract outcome: `Fetched(body)` or `Failed`. `Failed` covers a non-OK
  status, a network error and a body that is not JSON.
- The transient "loading" message (script.js:60) is not modelled. It is always
  overwritten once the awaited fetch ends, and the model has no await.
- Concurrent selections are not modelled. Two loads whose fetches resolve out
  of order are outside the model; each `LoadCostCenter` call is atomic.
- The DOM is not modelled: `innerHTML`, `insertRow`, `createElement` and
  `getElementById`. The table body is a sequence of `TableRow` values, and a
  message row is a `Notice` constructor rather than its text and inline style.
  The selector is a sequence of `SelectOption` values.
- The event listeners are not modelled (script.js:124-135). `Selector.Value`
  gives the value a selection passes on.
- `console.error` logging is not modelled.
- Text.Lower: covers ASCII letters only, not full Unicode `toLowerCase`.
  Accented capitals such as 'É' are left as they are.
- Item fields are strings. The source calls `toLowerCase` on "Equipamentos".
  An item without a string name makes that call throw. Inside a load, the
  catch would then clear the data. That path is not modelled.
- Selector.SortIndex: assumes integer ids. `(a, b) => a - b` on values that are
  not numbers (NaN comparisons) is out of scope.
- Decimal.IntToString: ids are mathematical integers. In the source they are
  JSON numbers, that is IEEE doubles. The model agrees with JavaScript only for
  ids of magnitude at most 2^53. Above that, parsing the JSON rounds the id,
  and `String` writes the shortest digits that read back to the same double.
  For example, 2^64 is written "18446744073709552000". Magnitudes of 10^21 and
  above are written in exponent notation.
