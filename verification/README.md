# AOI map: a Dafny model of the Areas-of-Interest store

This project models the state logic of a one-screen map application. The user clicks a point on the map, names it, and keeps it as an Area of Interest (AOI). AOIs are listed in a sidebar, can be selected and deleted, and are kept in browser storage across reloads.

Modules, one per source file:

- `AoiTypes` (`src/types/aoi.ts`) defines the records: `Aoi`, `Geometry` (`Point | Polygon` with a sequence of `(lat, lng)` pairs), the `addAoi` argument `NewAoi`, and the `updateAoi` argument `AoiPatch`. It also defines the shared predicates `HasId`, `UniqueIds` and `AllHaveCoordinates`.
- `AoiStore` (`src/hooks/useAoiStore.ts`) holds the store state (the AOI list and the selected id). It models `addAoi`, `updateAoi`, `removeAoi`, `setSelectedId` and the derived `selectedAoi`. It also models `loadFromStorage` and the effect that writes the encoded list under `"aoi-map::aois"` after every list change.
- `Text` models `String.prototype.trim` as the form uses it. Whitespace is the ECMAScript WhiteSpace and LineTerminator character set.
- `Sidebar` (`src/components/Sidebar.tsx`) models the submit rule, the save button's `disabled` predicate, the rendered list (count, empty hint, highlight, shown description, first coordinate) and the entry/delete click rule.
- `App` (`src/App.tsx`) models the draft point, the creation of a point AOI from it, and the WMS layer switch. It also defines the whole page as a state machine over user events, with an invariant that every event preserves.

Every operation is a pure function from state to state. The fresh id (`crypto.randomUUID`) and the time (`new Date().toISOString()`) are inputs to the operation. The storage is a `map<string, string>`. The JSON codec is a pair of total functions (`Codec`), and the lemma about reloading assumes only that the codec round-trips the one list being kept (`RoundTrips`).

Two facts about the code shape the model:

- The patch type of `updateAoi` is `Partial<Omit<Aoi, "id">>` (src/hooks/useAoiStore.ts:36). An update can therefore overwrite `createdAt` (`AoiStore.UpdateStampsTime`). Only `id` is protected. A supplied `updatedAt` is always replaced by the time of the update.
- The write at src/hooks/useAoiStore.ts:21 has no `try` around it, so the model treats writes as always succeeding.

## Model

| member | source | states |
|---|---|---|
| `AoiStore.AddAoi` | src/hooks/useAoiStore.ts:24-34 | The list grows by one and the old records are an unchanged prefix in the same order. The new last record has the given name, description and geometry, the supplied id, and `createdAt == updatedAt == now`. The new id is selected. |
| `AoiStore.AddSelectsNewRecord` | src/hooks/useAoiStore.ts:24-51 | After adding a record whose id was not in use, `selectedAoi` is exactly that record. |
| `AoiStore.AddKeepsIdsUnique` | src/hooks/useAoiStore.ts:24-34 | Adding with a fresh id keeps the ids pairwise distinct. |
| `AoiStore.AddsAppendInOrder` | src/hooks/useAoiStore.ts:24-34 | Any run of adds appends its records in call order, and the last one added is selected. |
| `AoiStore.AddsKeepIdsUnique` | src/hooks/useAoiStore.ts:24-34 | A run of adds whose ids are distinct and not in use leaves all ids pairwise distinct. |
| `AoiStore.Merge` | src/hooks/useAoiStore.ts:40 | A merged record keeps its id whatever the patch says. Its `updatedAt` is the time of the update, even when the patch supplies one. |
| `AoiStore.UpdateAll` | src/hooks/useAoiStore.ts:36-44 | Mapping over the list keeps its length. Records with another id stay identical, and each matching record becomes the merge of itself with the patch. |
| `AoiStore.UpdateAoi` | src/hooks/useAoiStore.ts:36-44 | An update keeps the selection, the length and every id. It leaves non-matching records identical and stamps matching ones with `now`. An unknown id changes nothing. |
| `AoiStore.UpdateKeepsIdsUnique` | src/hooks/useAoiStore.ts:36-44 | Because an update cannot change ids, it keeps them pairwise distinct. |
| `AoiStore.UpdateIdempotent` | src/hooks/useAoiStore.ts:36-44 | Applying the same patch twice at the same time equals applying it once. |
| `AoiStore.RenameChangesOnlyName` | src/hooks/useAoiStore.ts:36-44 | A name-only patch changes only `name` and `updatedAt` of the matching records. |
| `AoiStore.UpdateStampsTime` | src/hooks/useAoiStore.ts:36-40 | A patch may overwrite `createdAt`. A patch's own `updatedAt` loses to the time of the update. |
| `AoiStore.Without` | src/hooks/useAoiStore.ts:47 | A record is kept exactly when it was in the list and its id differs from the removed id. If no record has that id, the list is unchanged. |
| `AoiStore.WithoutConcat` | src/hooks/useAoiStore.ts:47 | Filtering distributes over concatenation, so the kept records stay in their original order. |
| `AoiStore.WithoutKeepsIdsUnique` | src/hooks/useAoiStore.ts:47 | Removal only filters, so it keeps the ids pairwise distinct. |
| `AoiStore.RemoveAoi` | src/hooks/useAoiStore.ts:46-49 | After a remove, no record has the removed id. The selection is cleared exactly when it was that id and is otherwise unchanged. An unknown id that is not selected leaves the state unchanged. |
| `AoiStore.FirstIndexOf` | src/hooks/useAoiStore.ts:51 | Returns the position of the first record with the id, or the list length if no record has it. |
| `AoiStore.FindById` | src/hooks/useAoiStore.ts:51 | The lookup finds nothing exactly when no record has the id. Otherwise it returns the first record carrying the id. |
| `AoiStore.SelectedAoi` | src/hooks/useAoiStore.ts:51 | The selected AOI is a record of the list carrying the selected id. It is absent exactly when nothing is selected or the selected id is dangling. Otherwise it is the first record carrying the selected id. |
| `AoiStore.SelectedIsTheOnlyMatch` | src/hooks/useAoiStore.ts:51 | With distinct ids, a record is the selected AOI exactly when its id is the selection. |
| `AoiStore.SetSelectedId` | src/hooks/useAoiStore.ts:18 | Selecting accepts any id or none without a lookup and leaves the list untouched. |
| `AoiStore.DanglingSelectionShowsNothing` | src/hooks/useAoiStore.ts:51-57 | Selecting an id that no record has is accepted, and then no AOI is selected. |
| `AoiStore.ApplyKeepsSelectionValid` | src/hooks/useAoiStore.ts:24-49 | Add, update, remove, and selection of a listed id all keep the selection pointing at a record. |
| `AoiStore.LoadFromStorage` | src/hooks/useAoiStore.ts:6-14 | Loading yields the empty list when the key is absent, the value is empty, or decoding fails. When the stored value is non-empty and decodes, the result is exactly the decoded list. Any non-empty result is what the stored value decodes to. |
| `AoiStore.Mount` | src/hooks/useAoiStore.ts:17-22 | Mounting selects nothing and starts from the loaded list. It writes the encoding of that list under the key and leaves every other key alone. |
| `AoiStore.Dispatch` | src/hooks/useAoiStore.ts:20-22 | Each command changes the state as the operation does. A selection writes nothing. Other keys of the storage are never touched. |
| `AoiStore.DispatchKeepsInSync` | src/hooks/useAoiStore.ts:20-22 | After every command, the stored value is still the encoding of the current list. |
| `AoiStore.SelectionNeverStored` | src/hooks/useAoiStore.ts:18-22 | What is stored depends only on the list: two stores that differ only in their selection store the same thing. |
| `AoiStore.ReloadRestoresList` | src/hooks/useAoiStore.ts:6-22 | When the codec round-trips the kept list, a reload restores the kept list in order with every field, and the selection is unset. |
| `AoiStore.AddThenRemoveScenario` | src/hooks/useAoiStore.ts:24-51 | Start empty, add "Field 1" and remove it: first one record is selected under that name, then the list is empty and nothing is selected. |
| `Text.SkipLeading` | src/components/Sidebar.tsx:30 | Returns the first position at or after the start point that is not whitespace, or the string length. Every character skipped is whitespace. |
| `Text.SkipTrailing` | src/components/Sidebar.tsx:30 | Returns the end of a range once its trailing whitespace is dropped. Every character dropped is whitespace, and the last character kept is not. |
| `Text.Trim` | src/components/Sidebar.tsx:30-31 | The result is an infix of the input with no whitespace at either end and only whitespace around it. It is empty exactly when the input is all whitespace. |
| `Text.TrimIdempotent` | src/components/Sidebar.tsx:30-31 | Trimming twice equals trimming once. |
| `Text.TrimOfTrimmed` | src/components/Sidebar.tsx:30-31 | A string with no whitespace at either end is its own trim. |
| `Sidebar.HandleSubmit` | src/components/Sidebar.tsx:28-34 | A submit is turned away exactly when there is no draft point or the name is all whitespace, and then the fields are unchanged. An accepted submit passes on the trimmed non-blank name and the trimmed description (absent when blank), then resets both fields to empty. |
| `Sidebar.SaveDisabled` | src/components/Sidebar.tsx:111 | The save button is disabled exactly when a submit would be turned away, that is, with no draft point or an all-whitespace name. |
| `Sidebar.SubmitClearsForm` | src/components/Sidebar.tsx:30-33 | After an accepted submit, submitting the cleared form is turned away. |
| `Sidebar.Entries` | src/components/Sidebar.tsx:127-152 | There is one entry per record, in list order. |
| `Sidebar.RenderList` | src/components/Sidebar.tsx:121-171 | The header count equals the list length and the number of entries. The empty hint shows exactly when there are no entries. Each entry carries its record's id, name, geometry tag and first coordinate. An entry shows a description exactly when its record's description is a non-empty string, and is highlighted exactly when its id is the selection. |
| `Sidebar.HandleListClick` | src/components/Sidebar.tsx:136-158 | A click on an entry selects its id and leaves the list alone. A click on the delete control only removes that entry and never leaves it selected. |
| `Sidebar.AtMostOneHighlighted` | src/components/Sidebar.tsx:132-134 | With distinct ids, at most one entry is highlighted. |
| `Sidebar.HighlightIsSelectedAoi` | src/components/Sidebar.tsx:132-134 | With distinct ids, the highlighted entry is exactly the selected AOI. |
| `App.InitialApp` | src/App.tsx:12-17 | The page starts with no draft point, the WMS layer shown and no selected AOI. |
| `App.HandleMapClick` | src/App.tsx:19-21 | A map click makes the draft point exactly the clicked `(lat, lng)` and replaces any earlier draft. Nothing else changes. |
| `App.HandleCreateAoi` | src/App.tsx:23-31 | With no draft point, nothing changes. With a draft point, exactly one AOI is appended and selected: a point geometry whose single coordinate is the draft, with the given name and description. The draft is then cleared. |
| `App.ToggleWms` | src/App.tsx:43 | Each toggle negates the layer's visibility and changes nothing else. |
| `App.ToggleParity` | src/App.tsx:17-43 | From the initial page, the layer is shown after `n` toggles exactly when `n` is even. |
| `App.SubmitCreatesPointAoi` | src/App.tsx:23-41 | When the save button is disabled, a submit changes nothing. Otherwise it appends one selected point AOI at the draft point with the trimmed non-blank name, clears the draft and resets the form. |
| `App.StepKeepsInvariant` | src/App.tsx:19-50 | Every user event keeps the ids distinct, the selection valid and a coordinate on every record. This requires a submit to use a fresh id and a click to refer to a listed AOI. |
| `App.InitialPageInvariant` | src/hooks/useAoiStore.ts:17-18 | The page starts in the invariant whenever the loaded list has distinct ids and coordinates everywhere. |

## Left out

- React rendering, hooks and state batching are left out. Each operation is one atomic transition. `removeAoi` reads the selection current at render time, and the model assumes that value is up to date.
- `localStorage`, `JSON.stringify` and `JSON.parse` are abstract. The codec is a pair of functions. `JSON.parse` is an unchecked cast, so a stored value that parses to something other than an AOI array is not modelled. Nothing about the shape of stored data is validated.
- `App.InitialPageInvariant`: the load does not check ids or coordinates, so distinct ids and coordinates on loaded data are a hypothesis, not a guarantee.
- Storage write failures (such as an exceeded quota) are left out. Every write succeeds.
- `crypto.randomUUID` and `new Date().toISOString()` are left out, because they are randomness and a clock. The id and the time are inputs. Freshness of the id is a lemma hypothesis, because the code never checks it.
- `AoiPatch`: an explicit `undefined` for a required field (`name`, `geometry`, the timestamps) is not modelled, because it would break the record type. An explicit `undefined` for `description` is modelled and clears it.
- `AoiStore.UpdateAll`: the time is sampled once per `updateAoi` call. The source reads the clock inside the map callback, once per matching record (src/hooks/useAoiStore.ts:40). The two agree when ids are distinct, which the store keeps. `AoiStore.UpdateIdempotent` relies on the single time.
- `updateAoi` has no caller in the user interface, so the page's event machine does not include it. The store models it in full.
- `src/components/MapView.tsx` (map widget, tiles, WMS layer, markers, camera movement) is a third-party widget and is left out. A marker click becomes a selection event in `App.Step`.
- `src/utils/geocoding.ts` (a network search that nothing calls) and `src/components/Header.tsx` (static markup) are left out.
- Coordinate display with `toFixed(4)` is floating-point formatting and is left out. The entry carries the first coordinate itself. Coordinates are reals, because they are only copied.
- `Text.Trim` works on Unicode scalar values rather than UTF-16 code units. Every character it strips is in the Basic Multilingual Plane, so the results agree. The space-separator set is the one of the current Unicode version.
- `e.preventDefault()` and browser form submission are left out. The submit handler is modelled from the point where it checks its guard.
