# FastTab bookmark dashboard: a Dafny model

FastTab is a browser new-tab page that shows the user's bookmarks as folder
sections. It also has a search box, a themed background, and a dialog for
editing and moving bookmarks. This project models the logic behind those
views and proves properties of it:

- **Bookmark cache** (`bookmark_tree.dfy`, `bookmark_store.dfy`,
  `use_bookmarks.dfy`):
  - Loading finds the bookmarks bar (id `"1"`) in the browser's tree.
  - It copies each of the bar's children and keeps the folders as the top
    level.
  - It flattens every bookmark below those folders into one list.
  - The same cache also holds the permission flags and the `loading` flag.
  - The create, update, remove and move commands each reload after a
    successful browser call and rethrow on a rejected one.
  - The global store and the component hook are one class,
    `BookmarkStore.BookmarkCache`. A constant tells the two copies apart.
- **Optimistic drag reorder** (`reorder.dfy`):
  - The two records are fetched and checked.
  - The index sent to `chrome.bookmarks.move` is computed.
  - After a successful move the cached lists are patched locally.
  - On any failure the cache is reloaded in full.
  - The store and the hook patch the lists differently. Lemmas state exactly
    where each one puts the dragged entry and how that compares with the
    index sent to the browser.
- **Small state machines**:
  - The UI store (`ui_store.dfy`).
  - The drag gesture (`drag_drop.dfy`).
  - A folder section's display filter and collapse toggle
    (`bookmark_folder.dfy`).
  - The bookmark manager's checkbox selection, batch move, per-row busy flag
    and date column (`management_modal.dfy`).
- **Decisions**:
  - The dark-colour classifier `isDarkColor`, built on models of the
    ECMAScript `parseInt`, `trim`, `substring` and the regular expression
    `/rgba?\((\d+),\s*(\d+),\s*(\d+)/` (`js_text.dfy`, `theme.dfy`).
  - The theme and overlay classes each background version writes
    (`theme.dfy`, `background_store.dfy`, `use_background.dfy`).
  - The search target URL and the restoring of the saved engine
    (`search.dfy`, `search_store.dfy`, `use_search.dfy`).
  - The favicon provider waterfall and its loader (`favicon.dfy`).
  - The edit dialogs' blank check and trim (`edit_form.dfy`,
    `edit_modal_dialog.dfy`, `edit_modal_legacy.dfy`).

The browser APIs are parameters of the operations:

- Each bookmark, permission and storage call is a `Result` or an `Outcome`
  that resolves or rejects.
- Each cache operation returns the list of browser calls it issued, in order.
- The page's style properties, class list and text-colour variables are a
  record, `Theme.Page`.
- Navigation (`window.location.href`, `window.open`) becomes the URL the
  operation returns.
- These are uninterpreted function parameters:
  - `encodeURIComponent`;
  - `toLocaleString`;
  - whether a favicon image loads;
  - whether a URL parses, and to which host name.

Where logic appears word for word in two source files, one module models it
and both files cite it:

- the normaliser in `bookmarkStore.ts` and `useBookmarks.ts`;
- `isDarkColor` in `backgroundStore.ts` and `useBackground.ts`;
- the save handling of the two `EditModal.tsx` files.

`isDarkColor` computes `(r * 299 + g * 587 + b * 114) / 1000 < 128` in
floating point. The model states it as `299r + 587g + 114b < 128000` on
integers, which gives the same answer:

- Every channel is an integer.
- Rounding the quotient cannot move it across 128, because 128 is exactly
  representable.
- A channel that parses to NaN makes the source's test false. The model
  does the same.

A Dafny `string` is a sequence of Unicode characters, while an ECMAScript
string is a sequence of UTF-16 code units. `substring` counts code units, so
the `#` branch of `isDarkColor` first encodes the colour
(`JsText.Utf16`). `parseInt` reads each surrogate as U+FFFD, which changes
nothing it reads: it only looks for white space, signs, `0x` and digits, and
each of those is a single code unit outside the surrogate range. `trim`,
`startsWith` and the `rgb` pattern are read on characters. This gives the
same result on code units, because every character they match is a single
unit outside the surrogate range.

## Behaviour of the code worth knowing

- **No favicon cache.** `src/hooks/useFavicon.ts` keeps no cache, so every
  load probes the services afresh.
  - The services are tried in the order DuckDuckGo, Google, then
    `chrome://favicon/`.
  - Each service, the `chrome://` one included, gets the host name. It gets
    the whole URL only when the host name is empty.
- **Nested folders are kept.** `processNode` keeps nested folders,
  recursively, inside `children`.
  - Only the flat `bookmarks` list and the folder section's filter drop them.
  - `BookmarkFolder.OnlySubfoldersShowsEmpty` states the visible effect.
- **The no-op guard never fires.** The `dragged.index === newIndex` guard of
  `moveBookmarkOptimized` can never be true (`Reorder.NewIndex`).
  - Dropping a bookmark on itself still reaches `chrome.bookmarks.move`, with
    its own index plus one (`Reorder.SelfDropCallsMove`).
- **A cross-folder drag reloads.** It throws a plain `Error`, which the
  code's own `catch` turns into a reload.
  - `Reorder.PlanMove` records why the move was abandoned.
  - `BookmarkStore.BookmarkCache.MoveBookmarkOptimized` states that any
    failure ends in the reload.
- **The two patches differ.** Dragging `C` onto `A` in `[A, B, C]` gives
  `[C, A, B]` in the store (`Reorder.StoreReorderUpward`) and `[A, C, B]` in
  the hook (`Reorder.HookReorderUpward`).

## Model

| member | source | states |
|---|---|---|
| BookmarkTree.FindBookmarksBarIsFirstInPreOrder | src/store/bookmarkStore.ts:74-85 | The bar search returns exactly the first node with id "1" in pre-order: each node comes before its children, and the children come before the node's later siblings. It returns nothing when no node has that id. |
| BookmarkTree.FindInNodeIsFirstInPreOrder | src/hooks/useBookmarks.ts:62-73 | The same for one node and its subtree: the node itself if it is the bar, otherwise the first match among its descendants. |
| BookmarkTree.FindBookmarksBar | src/store/bookmarkStore.ts:74-85 | `findBookmarksBar` over a list of nodes: whatever it finds has id "1". That it is the first such node in pre-order is `FindBookmarksBarIsFirstInPreOrder`. |
| BookmarkTree.FindInNode | src/hooks/useBookmarks.ts:62-73 | The search in one node and its subtree: whatever it finds has id "1". `FindInNodeIsFirstInPreOrder` states which node it is. |
| BookmarkTree.ProcessAll | src/store/bookmarkStore.ts:114-121 | Copying a list of raw children never drops one: there are exactly as many copies as children. |
| BookmarkTree.ProcessNode | src/store/bookmarkStore.ts:91-124 | `processNode`: the copy keeps the id, title, url and index. Its full shape is `ProcessNodeShape`, its normal form `ProcessNodeWellFormed`, and its idempotence `ProcessNodeIdempotent`. |
| BookmarkTree.ProcessNodeShape | src/store/bookmarkStore.ts:91-124 | A copy keeps the id, title, url, parent, dates and index. It has no children array exactly when it has a url. A folder copy holds the copy of each raw child at that child's own position. |
| BookmarkTree.ProcessNodeWellFormed | src/hooks/useBookmarks.ts:80-117 | Every copy is normalised at every depth: no node with a url carries a children array. |
| BookmarkTree.ProcessAllWellFormed | src/hooks/useBookmarks.ts:106-113 | All copies of a list of children are normalised. |
| BookmarkTree.ProcessNodeIdempotent | src/store/bookmarkStore.ts:91-124 | Copying a copy gives the copy back, so normalising the same tree twice gives the same result. |
| BookmarkTree.ProcessAllIdempotent | src/hooks/useBookmarks.ts:105-113 | The same for a list of children. |
| BookmarkTree.FoldersOf | src/store/bookmarkStore.ts:126-129 | The top level has no more entries than the bar has children, and none of them has a url. |
| BookmarkTree.CollectRootFolders | src/hooks/useBookmarks.ts:79-123 | The push loop over the bar's children builds exactly the reference top level: the copies of the url-less children, in order. |
| BookmarkTree.FoldersOfWellFormed | src/hooks/useBookmarks.ts:119-122 | Every top-level folder is normalised. |
| BookmarkTree.RootFoldersOfBar | src/store/bookmarkStore.ts:87-131 | `folders` is exactly the copies of the url-less children of the first pre-order node with id "1", in source order, so bare bookmarks under the bar are dropped. It is empty when there is no such node. The result is normalised. |
| BookmarkTree.FlattenChildrenHasUrls | src/hooks/useBookmarks.ts:131-137 | Only nodes with a url are pushed onto the flat list, whatever the input. |
| BookmarkTree.FlattenFoldersHasUrls | src/store/bookmarkStore.ts:133-146 | Every element of `bookmarks` has a non-empty url. |
| BookmarkTree.FlattenFolders | src/store/bookmarkStore.ts:133-146 | `flattenBookmarks` on the root folders. Its contract is stated by `FlattenFoldersHasUrls` and `FlattenFoldersIsUrlDescendants`: every entry has a url, and on normalised folders the result is exactly their url-bearing descendants in pre-order. |
| BookmarkTree.FlattenChildren | src/hooks/useBookmarks.ts:131-137 | The inner loop over one folder's children, recursing into url-less children. Its contract is stated by `FlattenChildrenHasUrls` and `FlattenChildrenIsUrlPreOrder`. |
| BookmarkTree.UrlNodes | src/components/Bookmark/BookmarkFolder.tsx:30 | The reference filter: a node is kept exactly when it is in the input and has a url. |
| BookmarkTree.FlattenChildrenIsUrlPreOrder | src/hooks/useBookmarks.ts:128-140 | On normalised children, the flatten is exactly the pre-order list of the url-bearing nodes below them. |
| BookmarkTree.FlattenFoldersIsUrlDescendants | src/store/bookmarkStore.ts:133-147 | On normalised folders, `bookmarks` is exactly their url-bearing descendants, in pre-order, folder by folder. |
| BookmarkTree.FlattenInto | src/store/bookmarkStore.ts:134-146 | The recursive closure, run on the shared accumulator, appends exactly the reference flatten of the folders to what was already collected. |
| BookmarkTree.FlattenChildrenInto | src/store/bookmarkStore.ts:137-143 | The inner loop over a folder's children appends exactly the reference flatten of those children. |
| BookmarkTree.FlattenBookmarks | src/hooks/useBookmarks.ts:127-141 | `allBookmarks` is the reference flatten of the root folders, and every entry has a url. |
| BookmarkTree.Normalize | src/store/bookmarkStore.ts:72-147 | The whole normalisation of a fetched tree yields the reference top level and its flatten. |
| Reorder.NewIndex | src/store/bookmarkStore.ts:227-231 | The index sent is the target's index on an upward drag and one past it otherwise. It never equals the dragged index, so the early return can never be taken. |
| Reorder.PlanMove | src/store/bookmarkStore.ts:207-228 | The optimistic path proceeds exactly when all of these hold: both fetches resolve, both answers are non-empty, the two records share a parent, and both have an index. It then carries the dragged record's parent, both indexes, and the index `NewIndex` computes from them, which differs from the dragged one. |
| Reorder.SelfDropCallsMove | src/store/bookmarkStore.ts:216-236 | Dropping a record on itself passes every check, and the index sent is one past its own, so `move` is called. |
| Reorder.FindIndex | src/store/bookmarkStore.ts:240-241 | The result is -1 or a position holding the id. |
| Reorder.FindIndexSpec | src/hooks/useBookmarks.ts:256-259 | The position found is the first one holding the id, and -1 means that no entry holds it. |
| Reorder.SpliceRemove | src/store/bookmarkStore.ts:244 | Removing one element makes the list one shorter. |
| Reorder.SpliceInsert | src/store/bookmarkStore.ts:246 | Inserting makes the list one longer. |
| Reorder.SpliceRemoveCount | src/store/bookmarkStore.ts:244 | Removal takes out exactly the element at the given position, as a multiset. |
| Reorder.SpliceInsertCount | src/store/bookmarkStore.ts:246 | Insertion adds exactly the inserted element, wherever it goes. |
| Reorder.LocalSplice | src/store/bookmarkStore.ts:238-249 | The patched list has the same length, and it is unchanged when either id is absent. |
| Reorder.LocalSplicePermutes | src/hooks/useBookmarks.ts:254-270 | The patched list is a permutation of the old one: nothing is lost or duplicated. |
| Reorder.ReorderDownward | src/store/bookmarkStore.ts:243-247 | On a downward drag, in either copy, the entries after the dragged one up to and including the target move up one place. The dragged entry lands immediately after the target. |
| Reorder.StoreReorderUpward | src/store/bookmarkStore.ts:243-247 | On an upward drag the store's patch puts the dragged entry at the target's old position, immediately before the target. |
| Reorder.HookReorderUpward | src/hooks/useBookmarks.ts:261-267 | On an upward drag the hook's patch puts the dragged entry immediately after the target. |
| Reorder.StoreReorderPlacement | src/store/bookmarkStore.ts:238-249 | For distinct ids, the store puts the dragged entry immediately after the target if it started before it, and immediately before it if it started after it. |
| Reorder.HookReorderAfterTarget | src/hooks/useBookmarks.ts:263-266 | For distinct ids, the hook always puts the dragged entry immediately after the target, whichever way it was dragged. |
| Reorder.StoreReorderOntoItself | src/store/bookmarkStore.ts:243-246 | Patching with the dragged id as the target leaves the store's list unchanged. |
| Reorder.HookReorderOntoItself | src/hooks/useBookmarks.ts:263-266 | Patching with the dragged id as the target swaps the entry with its successor in the hook's list; the last entry stays put. |
| Reorder.VariantsDisagreeUpward | src/hooks/useBookmarks.ts:264-265 | The store and the hook produce different lists on every upward drag. |
| Reorder.UpwardDragVersusApiIndex | src/hooks/useBookmarks.ts:239-266 | Reading list positions as sibling indices, which holds for one folder's children but not for the flat `bookmarks` list: on an upward drag the index sent is the target's index. The store's list then holds the dragged entry at that index. The hook's list holds the target there and the dragged entry one further on. |
| Reorder.DownwardDragVersusApiIndex | src/store/bookmarkStore.ts:227-246 | Reading list positions as sibling indices, which holds for one folder's children but not for the flat `bookmarks` list: on a downward drag the index sent is one past the target, and both copies put the dragged entry one below it. |
| Reorder.PatchFolder | src/store/bookmarkStore.ts:253-276 | Only the children of a folder change, and they are a permutation of the old children. A folder without a child holding the dragged id is returned untouched. |
| Reorder.PatchFolders | src/store/bookmarkStore.ts:251-279 | The map keeps the number and order of the folders and patches each folder on its own. |
| Reorder.PatchFoldersFrame | src/hooks/useBookmarks.ts:273-297 | Every folder keeps its id, title and url, and its children are a permutation of what they were. A folder not containing the dragged id is unchanged. |
| BookmarkStore.AfterLoadSpec | src/store/bookmarkStore.ts:65-155 | A load never changes the permission flags. Without permission it changes nothing at all. With permission `loading` ends false. A failed fetch keeps both lists. A successful one installs the normalised bar folders and their url-bearing descendants in pre-order, every one with a url. |
| BookmarkStore.AfterLoad | src/store/bookmarkStore.ts:65-155 | The state a load leaves: it never touches the permission flags. The rest of its contract is stated by `AfterLoadSpec`. |
| BookmarkStore.AfterLoadIdempotent | src/store/bookmarkStore.ts:87-149 | Loading the same tree twice is the same as loading it once. |
| BookmarkStore.BookmarkCache.constructor | src/store/bookmarkStore.ts:24-31 | The cache starts with no bookmarks or folders, `loading` true, and no permission requested or granted. |
| BookmarkStore.BookmarkCache.CheckPermission | src/hooks/useBookmarks.ts:14-25 | The result is true only for a resolved `true`. A resolved answer is stored in `hasPermission`, with `isRequesting` kept. A rejected query changes nothing. Exactly one permission query is issued. |
| BookmarkStore.BookmarkCache.RequestPermission | src/store/bookmarkStore.ts:48-63 | The flags pass through "requesting, not granted", then end as the answer with `isRequesting` cleared. A rejected request counts as not granted. Nothing else changes. |
| BookmarkStore.BookmarkCache.Load | src/hooks/useBookmarks.ts:53-150 | The load body, run with the flag its closure read, issues `getTree` only with permission and leaves the state `AfterLoad` describes. |
| BookmarkStore.BookmarkCache.LoadBookmarks | src/store/bookmarkStore.ts:65-155 | The store's load reads the current flag and has exactly the effect `AfterLoad` describes. |
| BookmarkStore.BookmarkCache.CreateBookmark | src/store/bookmarkStore.ts:157-170 | The browser's answer is returned or rethrown as is. On success the create is followed by a full reload, run with the given reload flag: in the store that is the current flag, in the hook the flag its callback captured. On a rejection nothing is reloaded and the state is unchanged. |
| BookmarkStore.BookmarkCache.UpdateBookmark | src/store/bookmarkStore.ts:172-180 | The same reload-or-rethrow policy for an update, with the reload run on the given flag. |
| BookmarkStore.BookmarkCache.RemoveBookmark | src/store/bookmarkStore.ts:182-190 | The same reload-or-rethrow policy for a removal, with the reload run on the given flag. |
| BookmarkStore.BookmarkCache.MoveBookmark | src/store/bookmarkStore.ts:192-203 | The same reload-or-rethrow policy for a move, with the reload run on the given flag; the destination is passed through unchanged. |
| BookmarkStore.BookmarkCache.MoveBookmarkOptimized | src/store/bookmarkStore.ts:205-284 | Both records are always fetched. A failed check means no move and a full reload. A rejected move means a full reload after it. Each reload runs with the given flag: in the store the current one, in the hook the one its callback captured. A successful move sends `NewIndex` and patches both lists locally, touching nothing else. Nothing is rethrown. |
| BookmarkStore.InvalidDragNeverMoves | src/store/bookmarkStore.ts:212-225 | A missing record, a different parent or a missing index aborts before `move`. |
| BookmarkStore.OptimisticMovePermutes | src/store/bookmarkStore.ts:238-279 | After the local patch the flat list is a permutation of the old one. Every folder keeps its place and id, and its children are a permutation. |
| UseBookmarks.EffectRun | src/hooks/useBookmarks.ts:309-317 | One run of the mount effect. It issues one permission query, then loads with the flag of the render that started it, only if the answer was yes. It runs again exactly when the check left the flag different from that render's. |
| UseBookmarks.Init | src/hooks/useBookmarks.ts:309-317 | The mount effect's first run loads nothing, since its closure still sees no permission. A granted check re-runs the effect, which checks again and loads only if that second check also says yes. A second answer of no flips the flag back, and the result then reports that a third run starts. |
| BookmarkFolder.DisplayedBookmarks | src/components/Bookmark/BookmarkFolder.tsx:30 | A card is shown for a child exactly when the child has a url. A folder without a children array shows none. |
| BookmarkFolder.UrlNodesIsSubsequence | src/components/Bookmark/BookmarkFolder.tsx:30 | The filter keeps the children's order. |
| BookmarkFolder.DisplayedInOrder | src/components/Bookmark/BookmarkFolder.tsx:30-43 | The displayed cards are a subsequence of the children, and the header count equals the number of url-bearing children. |
| BookmarkFolder.Body | src/components/Bookmark/BookmarkFolder.tsx:47-70 | A collapsed section shows nothing. An expanded one shows the empty message exactly when the count is zero, and otherwise the filtered cards. |
| BookmarkFolder.OnlySubfoldersShowsEmpty | src/components/Bookmark/BookmarkFolder.tsx:66-70 | A folder whose children are all folders shows the empty message: nested folders never appear as cards. |
| BookmarkFolder.FolderView.constructor | src/components/Bookmark/BookmarkFolder.tsx:23 | A section starts expanded. |
| BookmarkFolder.FolderView.ToggleExpanded | src/components/Bookmark/BookmarkFolder.tsx:25-27 | Each toggle negates `isExpanded`. |
| DragDrop.DragDropState.constructor | src/hooks/useDragDrop.ts:5-6 | Nothing is dragged and nothing is hovered. |
| DragDrop.DragDropState.HandleDragStart | src/hooks/useDragDrop.ts:8-15 | The dragged bookmark is remembered. `effectAllowed` is set to "move" and the id is put on the transfer as text; `dropEffect` is untouched, as is the hover cell. |
| DragDrop.DragDropState.HandleDragOver | src/hooks/useDragDrop.ts:17-24 | The hovered id is set and `dropEffect` is "move"; `effectAllowed`, the data and the dragged cell are untouched. |
| DragDrop.DragDropState.HandleDragLeave | src/hooks/useDragDrop.ts:26-28 | The hover cell is cleared and the dragged cell is untouched. |
| DragDrop.DragDropState.HandleDrop | src/hooks/useDragDrop.ts:30-51 | The move branch is taken exactly when something is dragged and the drop target is not the dragged item. Both cells end cleared either way. |
| DragDrop.DragDropState.HandleDragEnd | src/hooks/useDragDrop.ts:53-56 | Both cells are cleared. |
| UiStore.UiState.constructor | src/store/uiStore.ts:17-20 | Everything is closed and nothing is selected; the dialog is open exactly when a bookmark is being edited. |
| UiStore.UiState.OpenEditModal | src/store/uiStore.ts:22-23 | The dialog opens on the given bookmark and the manager fields are untouched, keeping the invariant. |
| UiStore.UiState.CloseEditModal | src/store/uiStore.ts:25 | The dialog closes and forgets the bookmark; the manager fields are untouched. |
| UiStore.UiState.OpenBookmarkManager | src/store/uiStore.ts:27 | The manager opens and the selection is kept; the dialog fields are untouched. |
| UiStore.UiState.CloseBookmarkManager | src/store/uiStore.ts:29-30 | The manager closes and the selection is cleared; the dialog fields are untouched. |
| UiStore.UiState.SetSelectedBookmarkIds | src/store/uiStore.ts:32-33 | The selection is replaced as given, duplicates and all; nothing else changes. |
| ManagementModal.Without | src/components/Bookmark/BookmarkManagementModal.tsx:117 | Every copy of the id is removed, and every other id keeps its number of occurrences. |
| ManagementModal.OnCheckboxChange | src/components/Bookmark/BookmarkManagementModal.tsx:112-119 | Checking appends one copy of the id to the end, even if it is already there. Unchecking leaves the id unchecked. Other ids keep their counts. |
| ManagementModal.CheckThenUncheck | src/components/Bookmark/BookmarkManagementModal.tsx:112-119 | Checking then unchecking removes every copy of the id, earlier ones included. It restores the selection exactly when the id was not selected before. |
| ManagementModal.HandleBatchMove | src/components/Bookmark/BookmarkManagementModal.tsx:85-100 | An empty selection moves nothing and warns. Otherwise the selected ids are moved to the folder one by one, in selection order, stopping at the first rejection. The selection is cleared, with the success count shown, exactly when every move succeeded. |
| ManagementModal.ButtonStates | src/components/Bookmark/BookmarkManagementModal.tsx:180-181 | A spinning move button is always disabled, and at most one row spins. |
| ManagementModal.MoveMenu.constructor | src/components/Bookmark/BookmarkManagementModal.tsx:36 | No row is busy. |
| ManagementModal.MoveMenu.HandleMoveToFolder | src/components/Bookmark/BookmarkManagementModal.tsx:69-79 | The row is busy while its move runs and idle afterwards, on success and failure alike. The request goes to that folder, and the notice reflects the outcome. |
| ManagementModal.ReplaceSlashes | src/components/Bookmark/BookmarkManagementModal.tsx:53 | Every slash becomes a dash and every other character is kept, position by position. |
| ManagementModal.FormatDate | src/components/Bookmark/BookmarkManagementModal.tsx:43-54 | A missing or zero date shows "-". Any other date shows the locale text with slashes turned into dashes. No slash remains. |
| JsText.TrimStartSpec | src/components/UI/EditModal/EditModal.tsx:30 | What `trim` drops at the front is white space, and what remains does not start with any. |
| JsText.TrimEnd | src/components/UI/EditModal/EditModal.tsx:30 | What is dropped at the end is white space, and what remains is a prefix that does not end with any. |
| JsText.TrimEmptyIffBlank | src/store/searchStore.ts:54 | The trimmed text is empty exactly when the text is all white space. |
| JsText.TrimIdempotent | src/components/UI/EditModal/EditModal.tsx:37-38 | Trimming a trimmed text changes nothing. |
| JsText.Trim | src/components/UI/EditModal/EditModal.tsx:30-38 | `trim`: the result is never longer than the input. The rest of its contract is stated by `TrimStartSpec`, `TrimEnd`, `TrimEmptyIffBlank` and `TrimIdempotent`. |
| JsText.Substring | src/store/backgroundStore.ts:30-32 | `substring` on code units: the result is never longer than the units, and within bounds it is exactly the slice. |
| JsText.CharUnits | src/store/backgroundStore.ts:30-32 | A character of the Basic Multilingual Plane is one code unit, itself. Any other character is a pair of surrogate units. |
| JsText.Utf16 | src/store/backgroundStore.ts:29-32 | The code units of a string, which number at least its characters. |
| JsText.Utf16Append | src/store/backgroundStore.ts:29-32 | Encoding a concatenation is concatenating the encodings. |
| JsText.BmpUnits | src/store/backgroundStore.ts:30-32 | A string of Basic Multilingual Plane characters has one unit per character, and reading its units back gives the string. |
| JsText.AstralTakesTwoUnits | src/store/backgroundStore.ts:30-32 | A character outside the Basic Multilingual Plane takes two code units. |
| JsText.UnitsText | src/store/backgroundStore.ts:30-32 | Code units read as `parseInt` reads them: unit by unit, with every surrogate read as U+FFFD. |
| JsText.HexDigitValue | src/store/backgroundStore.ts:30 | A character's hex value is in 0..15, or -1 when it is not a hex digit. |
| JsText.HexDigitRunSpec | src/store/backgroundStore.ts:30 | `parseInt` reads a run of hex digits that is not followed by another one. |
| JsText.ParseIntHex | src/store/backgroundStore.ts:30-32 | `parseInt(s, 16)`: blank text gives NaN. The rest of its contract is stated by `ParseTwoHexDigits`, `ParsePairAfter` and `ParseEmptyIsNaN`. |
| JsText.ParseTwoHexDigits | src/store/backgroundStore.ts:30 | Two hex digits parse, in base 16, to their two-digit value. |
| JsText.ParsePairAfter | src/store/backgroundStore.ts:30-32 | The two hex digits at a channel's position parse to their value. |
| JsText.ParseEmptyIsNaN | src/store/backgroundStore.ts:32 | An empty channel substring parses to NaN. |
| JsText.DigitRunEndSpec | src/store/backgroundStore.ts:38 | A `\d+` capture is a maximal run of digits. |
| JsText.SpaceRunEndSpec | src/store/backgroundStore.ts:38 | A `\s*` run is a maximal run of white space. |
| Theme.FirstRgbMatchSpec | src/store/backgroundStore.ts:38 | `match` finds the leftmost position where the pattern matches, and finds nothing only when it matches nowhere. |
| Theme.SixDigitHexChannels | src/hooks/useBackground.ts:61-64 | When the six characters after `#` are hex digits, the channels are the three two-digit values. |
| Theme.SixDigitHexDarkness | src/store/backgroundStore.ts:28-35 | A `#RRGGBB` colour is dark exactly when `299R + 587G + 114B < 128000`. |
| Theme.ShortHexIsLight | src/store/backgroundStore.ts:29-34 | A `#` colour with at most four code units after the `#` (so `#000`, `#fff`) has a NaN channel, so it is never dark. |
| Theme.SubstringOfHex | src/store/backgroundStore.ts:30-32 | When the six characters after `#` lie in the Basic Multilingual Plane, each channel is two of those characters. |
| Theme.SurrogateChannelIsLight | src/store/backgroundStore.ts:32-34 | A `#` colour whose third channel starts with half of a surrogate pair is light. |
| Theme.AstralCharSplitsChannel | src/store/backgroundStore.ts:28-34 | `#000😀00` is light: the emoji takes two code units, so the third channel starts with a surrogate. |
| Theme.OtherFormatsAreLight | src/hooks/useBackground.ts:58-83 | A colour starting with neither `#` nor `rgb` is never dark. |
| Theme.UnmatchedRgbIsLight | src/store/backgroundStore.ts:37-47 | An `rgb` colour the pattern matches nowhere is never dark. |
| Theme.RgbMatchesAtStart | src/store/backgroundStore.ts:38 | On `rgb(R,<spaces>G,<spaces>B` the pattern matches at the start and captures the three decimal values. |
| Theme.RgbDarkness | src/store/backgroundStore.ts:37-46 | Such an `rgb` colour is dark exactly when `299R + 587G + 114B < 128000`, the same threshold as hex. |
| Theme.RgbColorDarkness | src/hooks/useBackground.ts:70-78 | An `rgb` colour matching at its start is judged by the matched channels. |
| Theme.IsDarkColor | src/store/backgroundStore.ts:27-47 | `isDarkColor`: only a `#` or `rgb` colour can be dark. Each branch is stated by `SixDigitHexDarkness`, `ShortHexIsLight`, `SurrogateChannelIsLight`, `RgbDarkness` and the other light-colour lemmas. |
| Theme.DefaultIsLight | src/store/backgroundStore.ts:9-12 | The default `#f5f5f5` is light: every channel is 245. |
| Theme.ApplyStoreTheme | src/store/backgroundStore.ts:83-133 | A dark colour gives `dark-theme`, `hide-overlay` and white text. A light colour gives no `dark-theme`, `show-overlay` and dark text. An image gives `dark-theme`, `show-overlay` and white text. Exactly one overlay class remains, and no other class is touched. |
| Theme.ApplyStore | src/store/backgroundStore.ts:83-133 | The store's `applyBackground`: `dark-theme` is set exactly for an image or a dark colour. The rest of its contract is stated by `ApplyStoreTheme` and `LastApplyWinsStore`. |
| Theme.StoreThemeSpec | src/store/backgroundStore.ts:94-131 | The same decision once darkness is known, on a page whose overlay classes were removed. |
| Theme.ApplyHookTheme | src/hooks/useBackground.ts:88-124 | `dark-theme` is present exactly for a dark colour or an image, and then the text is white. No other class, the overlays included, changes. |
| Theme.ApplyHook | src/hooks/useBackground.ts:88-124 | The hook's `applyBackground` touches no class but `dark-theme`. The rest of its contract is stated by `ApplyHookTheme` and `LastApplyWinsHook`. |
| Theme.LastApplyWinsStore | src/store/backgroundStore.ts:83-133 | Applying two settings in a row in the store gives the same page as applying the second alone. |
| Theme.LastApplyWinsHook | src/hooks/useBackground.ts:88-124 | Applying two settings in a row in the hook gives the same page as applying the second alone. |
| Theme.ApplyLightColor | src/store/backgroundStore.ts:87-119 | A light colour is written as the background, with no dark theme and dark text. The store also shows the overlay. |
| Theme.ApplyDefault | src/hooks/useBackground.ts:13-16 | Applying the default gives the `#f5f5f5` background, no dark theme and dark text. The store also shows the overlay. |
| Theme.ApplyVersionsAgree | src/hooks/useBackground.ts:88-124 | On a page without overlay classes, the store's and the hook's apply agree on everything but the overlay classes. |
| BackgroundStore.Store.constructor | src/store/backgroundStore.ts:50-52 | The store starts with the default settings and not loaded. |
| BackgroundStore.Store.SetSettings | src/store/backgroundStore.ts:54 | The settings are replaced and nothing is applied. |
| BackgroundStore.Store.ApplyBackground | src/store/backgroundStore.ts:83-133 | The page becomes the store's apply of the settings, and nothing else changes. |
| BackgroundStore.Store.LoadSettings | src/store/backgroundStore.ts:56-71 | The state becomes `Loaded` of the read: a saved record is adopted and applied; no record applies the default; an error applies nothing. |
| BackgroundStore.Store.SaveSettings | src/store/backgroundStore.ts:73-81 | The settings are adopted and applied only when the write succeeds. |
| BackgroundStore.Store.ClearBackground | src/store/backgroundStore.ts:135-144 | The save of the default is awaited, then the background properties and both overlay classes are reset. |
| BackgroundStore.LoadedSpec | src/store/backgroundStore.ts:56-71 | After a load the store is loaded whatever the read gave. The settings change only to a saved record. Without one, the page shows the default's light theme with `show-overlay`. A read error leaves the page as it was. |
| BackgroundStore.SavedSpec | src/store/backgroundStore.ts:73-81 | A failed write changes nothing. A successful one adopts the settings without touching `isLoaded`. A second successful save overrides the first entirely. |
| BackgroundStore.ClearedSpec | src/store/backgroundStore.ts:135-144 | After a clear the background is empty and neither overlay class is present. A successful write leaves the default settings, no dark theme and dark text. A failed write keeps the settings, the theme class and the text colour. |
| BackgroundStore.LoadedTwice | src/store/backgroundStore.ts:56-71 | Loading the same record twice is the same as loading it once. |
| BackgroundStore.Loaded | src/store/backgroundStore.ts:56-71 | The store's load always ends loaded. The rest of its contract is stated by `LoadedSpec` and `LoadedTwice`. |
| BackgroundStore.Saved | src/store/backgroundStore.ts:73-81 | The store's save changes nothing when the write fails. The rest of its contract is stated by `SavedSpec`. |
| BackgroundStore.Cleared | src/store/backgroundStore.ts:135-144 | The store's clear always ends with an empty background and no overlay class. The rest of its contract is stated by `ClearedSpec`. |
| UseBackground.BackgroundHook.constructor | src/hooks/useBackground.ts:19-20 | The hook starts with the default settings and not loaded. |
| UseBackground.BackgroundHook.ApplyBackground | src/hooks/useBackground.ts:88-124 | The page becomes the hook's apply of the settings, and nothing else changes. |
| UseBackground.BackgroundHook.LoadSettings | src/hooks/useBackground.ts:25-38 | The state becomes `Loaded` of the read: only a saved record is adopted and applied. |
| UseBackground.BackgroundHook.SaveSettings | src/hooks/useBackground.ts:43-51 | The settings are adopted and applied only when the write succeeds. |
| UseBackground.BackgroundHook.ClearBackground | src/hooks/useBackground.ts:129-136 | The resets run before the un-awaited save's apply. |
| UseBackground.LoadedSpec | src/hooks/useBackground.ts:25-38 | The hook is loaded after any read. A saved record is adopted and applied. No record or a read error leaves the settings and the page as they were. |
| UseBackground.SavedSpec | src/hooks/useBackground.ts:43-51 | A failed write changes nothing. A successful one adopts the settings. The last successful save wins. |
| UseBackground.ClearedSpec | src/hooks/useBackground.ts:129-136 | A successful clear ends with the `#f5f5f5` background and the light theme, because the apply runs after the resets. A failed one ends with an empty background and the classes untouched. |
| UseBackground.Loaded | src/hooks/useBackground.ts:25-38 | The hook's load always ends loaded. The rest of its contract is stated by `LoadedSpec`. |
| UseBackground.Saved | src/hooks/useBackground.ts:43-51 | The hook's save changes nothing when the write fails. The rest of its contract is stated by `SavedSpec`. |
| UseBackground.Cleared | src/hooks/useBackground.ts:129-136 | The hook's clear leaves the loaded flag alone. The rest of its contract is stated by `ClearedSpec`. |
| Search.FindEngine | src/store/searchStore.ts:65 | The result is the first engine with that value, and none exactly when no engine has it. |
| Search.SearchTarget | src/store/searchStore.ts:53-56 | There is no target exactly when the query is blank. Otherwise the target is the engine's URL followed by the encoding of the untrimmed query. |
| Search.EnginesDistinct | src/store/searchStore.ts:14-39 | The first engine is Google, and no two engines share a value. |
| Search.FindStoredEngine | src/store/searchStore.ts:63-67 | Looking up a listed engine's value gives back that engine. |
| SearchStore.RestoredEngine | src/store/searchStore.ts:60-73 | The restored engine is the current one or a listed engine. It differs from the current one only when a saved value was read, and then it carries that value. |
| SearchStore.SearchState.constructor | src/store/searchStore.ts:37-40 | The store starts with an empty query, Google selected, and the three engines. |
| SearchStore.SearchState.SetSearchQuery | src/store/searchStore.ts:42 | The query is replaced and the engine kept. |
| SearchStore.SearchState.SetSelectedEngine | src/store/searchStore.ts:44-51 | The engine is selected whether or not the write succeeds, and its value is what is written. |
| SearchStore.SearchState.PerformSearch | src/store/searchStore.ts:53-58 | A blank query navigates nowhere; otherwise the store navigates to the selected engine's URL plus the encoded query. |
| SearchStore.SearchState.LoadSettings | src/store/searchStore.ts:60-73 | The selected engine becomes the restored one and the query is kept. |
| SearchStore.SaveThenLoad | src/store/searchStore.ts:44-73 | A saved listed engine is restored by a later load. An unknown value, no record or a read error keeps the current engine. |
| UseSearch.SearchHook.constructor | src/hooks/useSearch.ts:5-32 | The hook starts with an empty query, Google selected, and the same three engines. |
| UseSearch.SearchHook.SetSearchQuery | src/hooks/useSearch.ts:5 | The query is replaced and the engine kept. |
| UseSearch.SearchHook.SetSelectedEngine | src/hooks/useSearch.ts:6-11 | The engine is replaced and the query kept. |
| UseSearch.SearchHook.PerformSearch | src/hooks/useSearch.ts:34-42 | The tab opened is the search target of the selected engine, and none for a blank query. |
| UseSearch.SearchHook.HandleSearch | src/hooks/useSearch.ts:44-46 | The current query is searched: no tab when it is blank, otherwise the engine's URL plus its encoding. |
| UseSearch.SearchHook.HandleKeyPress | src/hooks/useSearch.ts:48-55 | Only Enter searches, and then it searches the current query. |
| Favicon.ProbeKey | src/hooks/useFavicon.ts:69 | A non-empty host name is the key; with an empty host name the whole URL is. |
| Favicon.TryService | src/hooks/useFavicon.ts:50-88 | A probe yields a URL exactly when the image loads, and then it is the service's icon URL for the key. It never rejects. |
| Favicon.FetchFavicon | src/hooks/useFavicon.ts:91-113 | The services probed are a prefix of DuckDuckGo, Google, Chrome, and every one but the last failed. A found icon is the last service's URL, and no later service is probed. No icon means all three were probed and all failed. |
| Favicon.FaviconLoader.constructor | src/hooks/useFavicon.ts:24-29 | No icon, not loading, mounted, no timer. |
| Favicon.FaviconLoader.LoadFavicon | src/hooks/useFavicon.ts:116-149 | An unmounted loader does nothing. An invalid URL clears the icon and the loading flag at once, without a probe. A valid URL sets the timer. |
| Favicon.FaviconLoader.UrlChanged | src/hooks/useFavicon.ts:161-165 | An empty URL changes nothing but the URL. A non-empty one runs `loadFavicon`: once unmounted nothing else changes; an invalid URL clears the icon and the loading flag and sets no timer; a valid one sets the timer and leaves the icon and the loading flag as they were. |
| Favicon.FaviconLoader.TimerFires | src/hooks/useFavicon.ts:125-128 | A pending timer starts the probes and sets the loading flag. |
| Favicon.FaviconLoader.ProbesEnd | src/hooks/useFavicon.ts:130-144 | While mounted, the result (or "" for none) is shown and loading ends. After unmount nothing changes. |
| Favicon.FaviconLoader.Unmount | src/hooks/useFavicon.ts:152-158 | The mounted flag drops and a pending timer is cleared. |
| EditForm.SavePayload | src/components/UI/EditModal/EditModal.tsx:29-39 | No changes are sent exactly when the title or the url is blank. Otherwise both are sent trimmed. |
| EditForm.HandleSave | src/components/UI/EditModal/EditModal.tsx:29-44 | A blank field gives the incomplete-form alert and no call. A rejected save gives the failure alert and is not propagated. A successful save gives no alert. |
| EditForm.KeyPress | src/components/UI/EditModal/EditModal.tsx:46-52 | Enter saves, Escape cancels, and any other key does nothing. |
| EditForm.SavePayloadStable | src/components/UI/EditModal.tsx:28-38 | The values sent are non-blank and already trimmed, so sending them through the form again sends the same changes. |
| EditModalDialog.Rendered | src/components/UI/EditModal/EditModal.tsx:20-27 | After a render the fields are reset from the bookmark exactly when `isOpen` or the bookmark changed and the bookmark is present; otherwise they keep their text. |
| EditModalDialog.Mounted | src/components/UI/EditModal/EditModal.tsx:17-27 | On mount the fields show the bookmark, or are empty without one. |
| EditModalDialog.EditModal.constructor | src/components/UI/EditModal/EditModal.tsx:17-27 | The component starts in the mounted state. |
| EditModalDialog.EditModal.Render | src/components/UI/EditModal/EditModal.tsx:20-27 | A render with new props runs the reset effect as `Rendered` describes. |
| EditModalDialog.EditModal.SetTitle | src/components/UI/EditModal/EditModal.tsx:17 | Only the title changes. |
| EditModalDialog.EditModal.SetUrl | src/components/UI/EditModal/EditModal.tsx:18 | Only the url changes. |
| EditModalDialog.EditModal.HandleSave | src/components/UI/EditModal/EditModal.tsx:29-44 | The save uses the current fields. |
| EditModalDialog.EditModal.HandleKeyPress | src/components/UI/EditModal/EditModal.tsx:46-52 | The key handling uses the current fields. |
| EditModalDialog.ReopenResets | src/components/UI/EditModal/EditModal.tsx:20-27 | Closing and reopening on the same bookmark discards unsaved edits, and the dialog is rendered again. |
| EditModalLegacy.Rendered | src/components/UI/EditModal.tsx:21-26 | After a render the fields are reset from the bookmark exactly when the bookmark changed and is present; opening and closing alone never reset them. |
| EditModalLegacy.Mounted | src/components/UI/EditModal.tsx:18-26 | On mount the fields show the bookmark, or are empty without one. |
| EditModalLegacy.EditModal.constructor | src/components/UI/EditModal.tsx:18-26 | The component starts in the mounted state. |
| EditModalLegacy.EditModal.Render | src/components/UI/EditModal.tsx:21-26 | A render runs the reset effect as `Rendered` describes. |
| EditModalLegacy.EditModal.SetTitle | src/components/UI/EditModal.tsx:18 | Only the title changes. |
| EditModalLegacy.EditModal.SetUrl | src/components/UI/EditModal.tsx:19 | Only the url changes. |
| EditModalLegacy.EditModal.HandleSave | src/components/UI/EditModal.tsx:28-43 | The save uses the current fields. |
| EditModalLegacy.EditModal.HandleKeyPress | src/components/UI/EditModal.tsx:45-51 | The key handling uses the current fields. |
| EditModalLegacy.ReopenKeepsEdits | src/components/UI/EditModal.tsx:21-26 | Unlike the newer dialog, closing and reopening on the same bookmark keeps whatever was typed. |

## Left out

- Browser APIs: `chrome.bookmarks`, `chrome.permissions` and `chrome.storage.sync` are outcome parameters. What the browser does with a move, in particular how it reads the index it is sent, is not stated in the code and is not asserted.
- Concurrency and timing:
  - The two `chrome.bookmarks.get` calls of `Promise.all` are read in sequence.
  - Only the 100 ms favicon timer is modelled, and only as a pending flag.
  - The probe timeouts and `Image` loading are folded into whether each probe loads.
- DOM and React machinery:
  - The style and class writes are modelled as the record they produce.
  - Rendering, `alert`, `message` and console logging are left out.
  - State cells and store `set` calls become class fields.
  - React's identity checks on effect dependencies are modelled as value equality.
- `window.location.href` and `window.open` are modelled as the URL the search returns.
- `encodeURIComponent`, `toLocaleString` and WHATWG `URL` parsing are function parameters, with no properties assumed.
- `handleRowSelectionChange` in `src/components/Bookmark/BookmarkManagementModal.tsx`: not modelled separately, because it passes the table's keys straight to `onSelectionChange`, which is `UiStore.UiState.SetSelectedBookmarkIds`.
- The manager's own `useBookmarks()` instance, the favicon `<img>` column and the batch delete button are left out because they are rendering only.
- Stored background settings whose `type` is neither `color` nor `image` are not representable, because `BackgroundKind` has only those two cases (the source's apply would write nothing for them).
- The `catch` branch of `loadFaviconAsync` is left out. The URL has already been validated, and `fetchFavicon` never rejects, so the branch cannot run.
- UseBookmarks.Init: models the first two runs of the mount effect only. When the second answer is no, the flag flips back and a third run starts. `Init` reports that run but does not perform it; `UseBookmarks.EffectRun` models any single later run.
- Favicon.FaviconLoader.UrlChanged: a single pending-timer flag stands for `timeoutRef`. A second URL change before the timer fires replaces the pending load rather than leaving the first timer running, as the source does, because the source does not clear the old timer.
- The `preventDefault` calls of the drag-over and drop handlers are left out, because they are DOM event effects that no state records.
- JsText.DecimalValue gives 0 for a non-digit character. Its callers only pass digit runs, so that case never arises.
- Numbers above 2^53, where `parseInt` itself rounds, are read exactly. Such a channel makes the colour light under both readings.
