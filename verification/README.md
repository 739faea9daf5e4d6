# Lead grid and mock lead store — a Dafny model

This project models the two pieces of state logic in the alma-ui lead dashboard.

- **The editable lead grid** (`src/components/LeadsTable.tsx`, module `LeadsTable`).
  Class `Table` holds the component's state:
  - `data`: the rows shown;
  - `originalData`: the last committed rows;
  - `editedRows`: the per-row edit flags;
  - `searchQuery`;
  - `drafts`: the value each `TableCell` keeps in its own state until it writes it back.

  One method per event replaces that state: `updateData`, `revertData`, an EditCell
  button press, typing in a text cell, blurring it, choosing from the select, and
  entering a search query with the effect it triggers. The per-event row
  transformations are functions over `seq<Lead>` (`Replace`, `UpdateRow`, `Filter`,
  `Toggle`, `Resync`). Each method's contract ties the new state to those functions
  of the old state and names every field it keeps.
- **The mock lead store** (`src/mock/api/mockApi.ts`, module `MockApi`). Class
  `LeadStore` holds:
  - `ids`: the record ids in seeding order, which is the order GET lists them in;
  - `leads`: `map<string, Lead>`, the records' fields by id.

  GET returns the collection and changes nothing. PATCH merges the body over the
  stored record, stamps `submitted` with the server time, and returns the stored
  record. The function `PatchedStore` gives the new table.

`LeadRecord` holds the `Lead` record the two files share. A `Column` selects one of
its four fields, which is how `{ ...row, [columnId]: value }` and a PATCH body
address them.

Four behaviours of the code worth stating:
- Pressing Done does not send a PATCH or re-fetch. The grid never calls the store;
  it edits its local copy of `defaultData`.
- `revertData(i, false)` is not a no-op. It copies the shown row into `originalData`.
- A non-empty search filters `defaultData`, not the committed rows. Edits committed
  with Done therefore do not show in search results (`Table.SetSearchQuery`).
- `status` is a free string, not an enumeration.

Two more quirks of the code are kept. Row indices are positions in the shown,
possibly filtered, list. `originalData` is always the full list. So Done or Cancel
while a search is active exchanges rows at the wrong position
(`DoneWhileSearchingMary`). Also, toggling an absent flag twice leaves the flag
present and `false`; it does not remove the key (`ToggleTwice`).

A row's id in `@tanstack/react-table` defaults to its index, so `editedRows` and
the cell drafts are keyed by the shown row index.

## Model

| member | source | states |
|---|---|---|
| `LeadRecord.Lead.With` | src/components/LeadsTable.tsx:237-240 | the spread copy takes the new value in the written column and keeps every other column |
| `LeadsTable.DefaultData` | src/components/LeadsTable.tsx:27-76 | the grid starts from eight default rows |
| `LeadsTable.LowerChar` | src/components/LeadsTable.tsx:172 | one character of `toLowerCase`: an upper-case ASCII letter becomes its lower-case letter, any other character is kept, and the result is never upper-case |
| `LeadsTable.Lower` | src/components/LeadsTable.tsx:172 | `toLowerCase` keeps the length, lower-cases character by character, and leaves no upper-case ASCII letter |
| `LeadsTable.IncludesIff` | src/components/LeadsTable.tsx:172 | `Includes`, the left-to-right `includes` scan, succeeds exactly when the query occurs at some position of the name (so the empty query is always found) |
| `LeadsTable.MatchesIff` | src/components/LeadsTable.tsx:171-172 | the `filter` callback accepts a row exactly when the lower-cased query occurs somewhere in the lower-cased name; the empty query accepts every row and a longer query none |
| `LeadsTable.Filter` | src/components/LeadsTable.tsx:171-173 | the search result holds only rows of the input whose lower-cased name contains the lower-cased query, holds every such row, and is no longer than the input |
| `LeadsTable.FilterIsSubsequence` | src/components/LeadsTable.tsx:171-173 | the search result is a subsequence of the searched rows (original order kept) |
| `LeadsTable.FilterAppend` | src/components/LeadsTable.tsx:171-173 | filtering works row by row: the filter of a concatenation is the concatenation of the filters |
| `LeadsTable.FilterSingle` | src/components/LeadsTable.tsx:171-173 | one row is kept exactly when it matches |
| `LeadsTable.Replace` | src/components/LeadsTable.tsx:222-230 | the index-guarded `map` keeps the length, puts the new row at the index when it is in range, and keeps every other row |
| `LeadsTable.UpdateRow` | src/components/LeadsTable.tsx:233-245 | `updateData` keeps the length, sets the column of the row to the value, keeps the row's other columns and every other row; an out-of-range index changes nothing |
| `LeadsTable.ApplyEdits` | src/components/LeadsTable.tsx:233-245 | a sequence of `updateData` calls never changes the number of rows |
| `LeadsTable.ApplyEditsElsewhere` | src/components/LeadsTable.tsx:233-245 | `updateData` calls on other rows leave a row untouched |
| `LeadsTable.CancelAfterDoneRestores` | src/components/LeadsTable.tsx:220-245 | Done, then any `updateData` calls, then Cancel on the same row returns that row to its value at Done and keeps the other rows' edits |
| `LeadsTable.IsEditing` | src/components/LeadsTable.tsx:93 | a row is in edit mode only when its flag is present and true; a missing flag reads as off, as `editedRows[row.id]` is falsy when undefined |
| `LeadsTable.Toggle` | src/components/LeadsTable.tsx:117-120 | the edit flag of the pressed row flips (a missing flag counts as off), and no other row's flag changes |
| `LeadsTable.ToggleTwice` | src/components/LeadsTable.tsx:117-120 | toggling twice restores every row's edit mode, and restores the very map when the row already had a flag |
| `LeadsTable.Resync` | src/components/LeadsTable.tsx:82-85 | a cell keeps its draft exactly while its row is shown and its value in `data` is unchanged; a kept draft keeps its text, and a draft whose value changed or whose row disappeared is dropped |
| `LeadsTable.Table.constructor` | src/components/LeadsTable.tsx:148-151 | at mount both row lists are copies of `defaultData`, there are no flags, and the query is empty |
| `LeadsTable.Table.Shown` | src/components/LeadsTable.tsx:103 | a cell shows its draft when it has one and otherwise its value in `data` |
| `LeadsTable.Table.UpdateData` | src/components/LeadsTable.tsx:233-245 | only the written cell of `data` changes; `originalData`, the flags and the query are untouched |
| `LeadsTable.Table.RevertData` | src/components/LeadsTable.tsx:220-232 | Cancel copies `originalData[i]` into `data[i]` and leaves `originalData` alone; Done copies `data[i]` into `originalData[i]` and leaves `data` alone; no other row changes |
| `LeadsTable.Table.PressButton` | src/components/LeadsTable.tsx:115-140 | each button flips only its row's flag; "edit" never reverts, while "cancel" and "done" revert exactly once with `revert` true only for "cancel" |
| `LeadsTable.Table.TypeText` | src/components/LeadsTable.tsx:101-105 | typing in a text cell changes its draft and nothing in `data` |
| `LeadsTable.Table.Blur` | src/components/LeadsTable.tsx:86-88 | leaving a text cell writes its shown value into that cell of `data`, the cell keeps showing it, the other drafts are resynchronised with the new `data`, and the committed rows, flags and query are untouched |
| `LeadsTable.Table.SelectOption` | src/components/LeadsTable.tsx:89-92 | choosing a country writes it into `data` at once and the cell shows it; the drafts, with the choice as this cell's draft, are resynchronised with the new `data`; the committed rows, flags and query are untouched |
| `LeadsTable.Table.SetSearchQuery` | src/components/LeadsTable.tsx:161-175 | a new empty query shows `originalData`; a new non-empty query shows `Filter(defaultData, query)`; the same query changes nothing; committed rows and flags are kept |
| `LeadsTable.SearchMary` | src/components/LeadsTable.tsx:171-173 | "mary" in any letter case finds exactly Mary Lopez's default row |
| `LeadsTable.DoneWhileSearchingMary` | src/components/LeadsTable.tsx:227-230 | Done on the only row shown for "mary" writes Mary Lopez's row over Jorge Ruiz's committed row at index 0 |
| `MockApi.SeedLeads` | src/mock/api/mockApi.ts:16-73 | the seed list holds eight records, each submitted "02/02/2024 2:45 PM" |
| `MockApi.SeedIds` | src/mock/api/mockApi.ts:15-73 | the seed has eight records with the pairwise-distinct ids "001" to "008" |
| `MockApi.Index` | src/mock/api/mockApi.ts:15 | the table `loadData` builds has exactly the ids of the records, and the first record is found under its id |
| `MockApi.IndexFinds` | src/mock/api/mockApi.ts:15-74 | loading records with distinct ids gives a table with exactly those ids that finds each record's fields |
| `MockApi.Merge` | src/mock/api/mockApi.ts:94 | every field in the body takes the body's value and every other field keeps the stored value |
| `MockApi.PatchedStore` | src/mock/api/mockApi.ts:84-94 | after PATCH the record's `submitted` is the server time even when the body carries one; other fields are merged from the body; the id set and every other record are unchanged |
| `MockApi.MergeIdempotent` | src/mock/api/mockApi.ts:94 | merging the same body twice equals merging it once |
| `MockApi.PatchIdempotent` | src/mock/api/mockApi.ts:94 | the same PATCH twice at the same time leaves the same table as once |
| `MockApi.PatchesCommute` | src/mock/api/mockApi.ts:94 | PATCHes to two different ids give the same table in either order, so both persist with no cross-record bleed |
| `MockApi.ReachedOutPatch` | src/mock/api/mockApi.ts:83-94 | a `{status: "Reached Out"}` PATCH keeps the name and country and changes only the status and the stamp |
| `MockApi.LeadStore.Collection` | src/mock/api/mockApi.ts:77-79 | the collection lists each id once, in order, with its stored fields |
| `MockApi.LeadStore.Load` | src/mock/api/mockApi.ts:14-75 | a store loaded from records with distinct ids lists exactly those records in order |
| `MockApi.SeedStore` | src/mock/api/mockApi.ts:14-75 | the server starts with the eight seed records, ids "001" to "008" |
| `MockApi.LeadStore.GetAll` | src/mock/api/mockApi.ts:77-79 | GET returns every stored record in order and does not change the store |
| `MockApi.LeadStore.Patch` | src/mock/api/mockApi.ts:81-97 | a known id: the table becomes `PatchedStore` and the stored record is returned; an unknown id: nothing changes and the handler fails |

## Left out

- React rendering, `useState`/`useEffect` scheduling and the `@tanstack/react-table` row model are not modelled. Each event is one atomic method on the state it changes. The TableCell resync effect is folded into the methods that change `data` (`Resync`).
- The country options come from `filterCountries` and `country-region-data`, which are not part of this model. `Table.SelectOption` accepts any string, where the page only offers the listed country names.
- `toLowerCase` is modelled for ASCII letters only; JavaScript's Unicode case mapping is not.
- `Date` and `toLocaleString` are not modelled. PATCH takes the formatted server time as the parameter `now`.
- miragejs routing, JSON parsing of the request body and the one-second `timing` are not modelled. A PATCH body is a map from the four lead fields to strings. Keys outside those four, such as `id`, are not modelled.
- On an unknown id, `schema.find` yields null and the `.update` call throws. miragejs turns that into an error response. The model returns `Err(UnknownId(id))` and leaves the store unchanged; the response status is not modelled.
- The login form, the intake form (`src/app/page.tsx`, `src/app/login/LoginForm.tsx`), the sidebar and the dashboard page are layout or library validation, not state logic.
- The grid never calls the mock API, so no commit-then-refetch transaction is modelled.
