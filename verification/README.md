# Carpet boutique catalog page — a Dafny model

The repository is a single-page product catalog for a carpet boutique. Its
logic is small: everything apart from a few lines is page markup. This
project models those few lines and proves what they do.

- **The mock catalog** (`constants.ts`): a pure generator that maps index
  `i` in 0..59 to a record with id `i+1`, name base `i mod 6`, series number
  `i div 6 + 1`, material `i mod 5`, price `199 + 15i` and a picture seed
  `i + 123`, plus the fixed two-language label table. Module `Constants`
  (`constants.dfy`).
- **The catalog view** (`App.tsx`): three pieces of view state (language,
  a category/scenario/material filter selection starting at `'all'`, the
  current page starting at 1), the filtered list (a conjunction of three
  "`'all'` or equal" tests), the visible page (a slice of 8 taken with
  JavaScript's `Array.prototype.slice`), and the category and scenario
  buttons, which replace one filter field and reset the page to 1. Module
  `App` (`app.dfy`): the filter and the slice are functions, the state is
  both a value (`ViewState`, with the click effects as functions) and the
  class `CatalogView`, whose methods update its fields.
- **Types** (`types.ts`): mirrored as datatypes in module `Types`
  (`types.dfy`); `Wrappers` (`wrappers.dfy`) holds `Option`.

What the model shows about the code as written:

- The filter reads tag fields `category`, `scenario` and `materialKey`.
  The record type does not declare them and the generator never sets them.
  They are modelled as `Option<string>` fields that are `None` on every
  generated record. So any category or scenario other than `'all'` empties
  the list (`ShippedCatalogFilter`).
- No code sets the page to anything but 1, and no code changes the material
  selection. In every reachable state only the first 8 records of the
  filtered list are visible (`ReachableView`), although the 60 records
  would span 8 pages with 4 on the last one (`ShippedCatalogPages`). The
  comment at `constants.ts:33` speaks of "6 per page * 10 pages"; the slice
  at `App.tsx:19` uses 8 per page, and the model follows the code.
- `App.tsx` has no page navigation, no page clamping and no total-page
  count; `setLang` is declared but never called. `PageCount` is used only
  to state that the pages cover the list.

## Model

| member | source | states |
|---|---|---|
| `Constants.TranslationsComplete` | constants.ts:4-31 | the label table has exactly the keys zh and en, and each page-counter template holds both the `{current}` and `{total}` placeholders |
| `Constants.ZhPageTemplate` | constants.ts:16 | the Chinese page-counter template contains `{current}` and `{total}` |
| `Constants.EnPageTemplate` | constants.ts:29 | the English page-counter template contains `{current}` and `{total}` |
| `Constants.Carpet` | constants.ts:51-64 | the record for index i has an id in 1..60, a price in 199..1084, a series number in 1..10, a name base and material taken from the two tables, and no tag fields |
| `Constants.MockCarpets` | constants.ts:51-64 | the generated catalog has exactly 60 records |
| `Constants.CatalogShape` | constants.ts:51-63 | the generated catalog has 60 records, the record at position i is the one generated for index i, and none carries a category, scenario or material tag |
| `Constants.IdsAreOneToSixty` | constants.ts:55 | record i has id i+1; ids strictly ascend; the set of ids is exactly 1..60 |
| `Constants.RecordsDistinct` | constants.ts:55 | records at distinct positions differ |
| `Constants.PricesStepByFifteen` | constants.ts:61 | prices run from 199 to 1084, all within those bounds, each 15 above the previous one |
| `Constants.MaterialsRepeatEveryFive` | constants.ts:53-60 | record i has material `materials[i mod 5]`, so record i+5 has the same material as record i |
| `Constants.NameBaseAndSeries` | constants.ts:52-58 | record i is named after `carpetNames[i mod 6]` with number `i div 6 + 1`, in 1..10, the same base and number for both languages |
| `Constants.CarpetNamesDistinct` | constants.ts:42-49 | the six name bases differ pairwise in each language |
| `Constants.NamesDistinct` | constants.ts:52-58 | no two records share a (name base, series number) pair in either language, so no two share a name |
| `App.Admits` | App.tsx:13-15 | one filter dimension: `'all'` admits every record; a record without the tag is admitted only by `'all'` |
| `App.Matches` | App.tsx:13-15 | all three dimensions admit the record: the all-`'all'` selection admits every record, and a record without tags is admitted by that selection only |
| `App.Filtered` | App.tsx:11-17 | the filtered list is no longer than the catalog and holds only catalog records that pass all three tests |
| `App.FilteredMembers` | App.tsx:12-16 | a record is in the filtered list if and only if it is in the catalog and each dimension is `'all'` or equals the record's tag |
| `App.FilteredInOrder` | App.tsx:12 | the filtered list is a subsequence of the catalog: filtering never reorders |
| `App.FilteredCounts` | App.tsx:12-16 | each passing record occurs in the filtered list as often as in the catalog, and each failing record not at all |
| `App.FilteredDistinct` | App.tsx:12-16 | filtering a list without repetitions yields a list without repetitions |
| `App.FilteredDefault` | App.tsx:13-15 | with every selection `'all'` the filtered list is the whole catalog |
| `App.FilteredUntagged` | App.tsx:13-15 | on records without tags, the all-`'all'` selection keeps everything and any other selection keeps nothing |
| `App.ShippedCatalogFilter` | App.tsx:12-16 | on the generated catalog, any selection other than all-`'all'` yields an empty list |
| `App.SliceBound` | App.tsx:19 | a slice bound resolves into 0..len and an in-range bound is taken as given |
| `App.JsSlice` | App.tsx:19 | `slice(start, end)` yields at most `end - start` items, and exactly `s[start..end]` when both bounds are in range |
| `App.PageSlice` | App.tsx:19 | page p holds at most 8 items; for p >= 1 it is the contiguous run from index (p-1)*8, clipped to the list, and it is empty exactly when (p-1)*8 >= the list length |
| `App.FirstPage` | App.tsx:19 | page 1 is the first up-to-8 items of the list |
| `App.PageCount` | App.tsx:19 | ceil(n/8) pages are the fewest whose slices reach the end of a list of n items |
| `App.PagesArePrefix` | App.tsx:19 | pages 1..k laid end to end are the first min(8k, n) items |
| `App.PagesCoverList` | App.tsx:19 | pages 1..ceil(n/8) laid end to end give back the whole list |
| `App.PagesDisjoint` | App.tsx:19 | two distinct pages of a list without repetitions share no item |
| `App.ShippedCatalogPages` | App.tsx:19 | the unfiltered catalog spans 8 pages, pages 1..7 hold 8 items, page 8 holds the last 4, page 9 is empty |
| `App.ClickCategory` | App.tsx:27-28 | a category click sets the category and page 1 and leaves scenario, material and language as they were |
| `App.ClickScenario` | App.tsx:33-34 | a scenario click sets the scenario and page 1 and leaves category, material and language as they were |
| `App.FilteredItems` | App.tsx:11-17 | the filtered list of a state holds exactly the catalog records that pass its selection |
| `App.CurrentItems` | App.tsx:19 | the visible items of a state are at most 8 and all come from its filtered list |
| `App.ClickIdempotent` | App.tsx:27-34 | clicking the same category (or scenario) button twice gives the same state as clicking it once |
| `App.ClicksCommute` | App.tsx:27-34 | a category click and a scenario click give the same state in either order |
| `App.ReachableInvariant` | App.tsx:6-34 | the initial state, and every state after button clicks, has category and scenario among the button values, material `'all'` and page 1 |
| `App.InitialView` | App.tsx:6-19 | initially the filtered list is the whole catalog and the first 8 records are visible |
| `App.ReachableView` | App.tsx:7-19 | in every reachable state the filtered list is the whole catalog or empty, the visible items are its first page, and no record past position 8 is ever visible |
| `App.LanguageIrrelevant` | App.tsx:11-19 | the filtered list and the visible items do not depend on the language |
| `App.CatalogView.constructor` | App.tsx:6-8 | the view starts in Chinese, with all three selections `'all'` and page 1 |
| `App.CatalogView.SetCategory` | App.tsx:27-28 | a category button replaces the category, resets the page to 1, changes nothing else and keeps the state reachable |
| `App.CatalogView.SetScenario` | App.tsx:33-34 | a scenario button replaces the scenario, resets the page to 1, changes nothing else and keeps the state reachable |
| `App.CatalogView.Labels` | App.tsx:9 | the lookup returns the Chinese labels when the language is zh and the English ones when it is en, and the page-counter template has both placeholders |
| `App.CatalogView.VisibleItems` | App.tsx:19 | the visible items are the first up-to-8 records of the filtered catalog |

## Left out

- Page markup, CSS classes, the footer contact links and image rendering (`App.tsx:21-68`): presentation only.
- Framework state cells and memoisation (`useState`, `useMemo`): modelled as plain fields and functions; re-rendering is not modelled.
- Label lookups with keys outside the label record (`t[v]`, `t[item.scenario]`, `App.tsx:28`, `34`, `46`): they only yield display text (undefined at run time).
- Formatting of names and picture URLs (`constants.ts:57-58`, `62`): a name is kept as its base label and series number, a URL as its seed number.
- Language switching: `setLang` (`App.tsx:6`) is never called, so no operation changes the language.
- Page navigation, page clamping, a total-page display and `{current}`/`{total}` substitution: absent from the source.
- `Constants.NamesDistinct`: states distinctness of the (base label, number) pairs; distinctness of the formatted strings also depends on the string formatting, which is not modelled.
