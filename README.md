# Kanban board core, modelled and proved in Dafny

This project models the local-first state core of a kanban board web application and proves
properties of it. The board holds lists and cards. Every card names the list it belongs to and
carries an `order` within that list, a `version` and a last-modified time. The core has five parts:

- **The board reducer** (`Board`, `BoardEdits`, `BoardMove`, `BoardHistory`). A total function
  `Reduce(state, action, env)` over the sixteen action kinds plus any unrecognised type. Every
  editing action pushes the pre-image state onto a history that is cut at `historyIndex`; UNDO and
  REDO move along that history. The clock and the next generated id are the `Env` parameter.
- **The three-way merge** (`Helpers`). `mergeObjects(base, local, server)` over JavaScript values
  (`Value`: undefined, null, booleans, integers, strings, arrays, objects). `Merge3` is the
  specification. `MergeObjects`/`MergeKeys` are the recursive method with the `for...in` loop,
  proved equal to it. `getContrastColor` sits alongside, with `parseInt(…, 16)` and `slice`
  written out.
- **The validators** (`Validators`). `validateCard`, `validateList` and `validateTag` as chains
  of guards. The first failing guard names the error. `trim` uses the ECMAScript whitespace set,
  and `length` counts UTF-16 code units.
- **The in-memory remote store** (`Api`). A class `RemoteStore` whose fields the methods
  update, as `serverData` is mutated in place. `serverData.lists` is a sequence of records.
  `serverData.cards` is an array of card objects: `cardRefs` holds references into `heap`, the
  objects' current fields, so an array handed out by `fetchCards` shares the objects with the
  store. `createCard`, `updateCard` and `syncAll` allocate new objects; `moveCard` writes onto the
  stored objects themselves, in its two `forEach` passes, kept as a loop (`RenumberInPlace`) over
  the positions the sorted, spliced copies hold. `simulateRequest` is a step that may fail,
  chosen nondeterministically.
- **Offline sync** (`OfflineSync`, `Reconcile`, `SyncMerge`).
  - `syncWithServer` replays the pending queue against a `RemoteStore`, entry by entry. An entry
    whose replay succeeds is removed; an entry that fails is skipped and stays queued.
  - It then reconciles the board with the records fetched from the server: by id, by timestamp
    and through `mergeObjects`. Server-only records are appended.
  - `queueAction` queues offline and syncs online.
  - The pending queue is a class `PendingQueue` with auto-incremented keys. The hook's
    dispatches and its save to local storage are returned as a list of `Effect`s.
  - `Dispatched` applies those effects to a board through `Reduce`.

Modules: `Wrappers` (Option), `JsArray` (`slice`, `splice`, `indexOf`, `sort`),
`Entities` (lists, cards, payloads, queue entries), then one module per part as named above.

### Where the model follows the code rather than the design description

- `syncWithServer` fetches the server's lists and cards *before* draining the queue. The
  reconciliation therefore uses the lists as they were before the replay (`old(store.lists)`).
  The fetched cards are the store's own objects, so it sees them as the replay left them
  (`Deref(store.heap, old(store.cardRefs))`). `OfflineSync.SyncWithServer` states what that is:
  - each fetched card differs from the card as fetched at most in its order, list and time,
    the fields `moveCard` writes onto an object;
  - when no replayed `moveCard` succeeded, the fetched cards are exactly the cards as fetched;
  - a fetched object still in the store's array reads as the store's card at that position;
  - when every successful replay kept the store's array (list edits, moves, unknown types),
    the fetched cards are exactly the store's cards after the drain.

  A card the replay updated, deleted or created is therefore seen as it was fetched, or not at
  all; `updateCard` puts a new object in the array and leaves the fetched one alone.
- `saveToStorage` is the callback of the same render. It saves the lists and cards the hook
  started from, not the reconciled ones (`SaveLocal(lists, cards)` in `SuccessEffects`).
- A queued entry whose replay succeeded but whose removal failed stays queued and is replayed
  again by the next sync. An entry of an unknown type replays as a no-op and is removed.
- Online, `queueAction` only calls `syncWithServer`, which swallows every error, so the action
  is never queued.
- MOVE_CARD gives the moved card `order = newIndex` as passed. It does not clamp, although the
  `splice` it also performs does clamp.
- In a same-list move, the source renumbering takes precedence, so two cards of the list can end
  up with the same order (`BoardMove.SameListMoveCanRepeatOrder`).
- Archiving does not bump the version.
- UNDO restores `history[historyIndex - 1]`. The history stores pre-images only, so UNDO right
  after the first edit from the initial board does nothing (`BoardHistory.FirstEditCannotBeUndone`).
- UNDO followed by REDO lands on the pre-image of the latest edit, not on the state before the
  UNDO (`BoardHistory.UndoThenRedoLosesLatestEdit`). These are the reducer's behaviour as
  written and are kept.

## Model

| member | source | states |
|---|---|---|
| Board.Reduce | src/context/boardReducer.js:22-275 | the reducer's `switch`, one case per action type and the state unchanged for any other; each case is stated by the `BoardEdits`, `BoardMove` and `BoardHistory` lemmas below |
| Board.PushHistory | src/context/boardReducer.js:42-46 | an editing case's result: its new lists and cards, the other fields of the state kept, the history cut after `historyIndex` with the pre-image appended, the index one further |
| Board.Restore | src/context/boardReducer.js:240-257 | UNDO/REDO's spread of a history entry: that entry's lists, cards, queue, sync time and conflicts, with the current history and the new index |
| Board.NewList | src/context/boardReducer.js:33-41 | the list ADD_LIST builds: defaults, then the payload's keys over them; `BoardEdits.AddListAppends` states each field |
| Board.NewCard | src/context/boardReducer.js:105-115 | the card ADD_CARD builds; `BoardEdits.AddCardAppends` states each field |
| Board.MoveCardIn | src/context/boardReducer.js:153-199 | MOVE_CARD's case, with both not-found returns; `BoardMove.MoveCardShape` and the lemmas after it state its result |
| Board.MapLists | src/context/boardReducer.js:54-63 | each list with the id becomes `f(list)`, every other list is kept, same length and positions |
| Board.MapCards | src/context/boardReducer.js:128-137 | each card with the id becomes `f(card)`, every other card is kept, same length and positions |
| Board.MoveCards | src/context/boardReducer.js:172-191 | the `map` of MOVE_CARD keeps the length and treats every card independently |
| Board.ReorderCardsIn | src/context/boardReducer.js:203-215 | the `map` of REORDER_CARDS keeps the length and treats every card independently |
| Entities.UpdatedList | src/context/boardReducer.js:56-61 | `{ ...list, ...updates, version, lastModifiedAt }`: each field the update's if present, else the list's; a larger version; the time now |
| Entities.UpdatedCard | src/context/boardReducer.js:130-135 | the same for cards |
| Entities.BumpVersion | src/context/boardReducer.js:59 | `(version \|\| 1) + 1` is always larger than the old version, and is `version + 1` unless the version is missing |
| Entities.ListIndex | src/services/api.js:52 | `findIndex`: -1 exactly when no list has the id; otherwise the first list with it |
| Entities.CardIndex | src/context/boardReducer.js:155 | `find`/`findIndex` on cards: -1 exactly when no card has the id; otherwise the first card with it |
| JsArray.RelativeIndex | src/context/boardReducer.js:169-170 | `slice`/`splice` clamp an index into `0..len`; an in-range index is kept |
| JsArray.IndexOf | src/context/boardReducer.js:205 | `indexOf`: -1 exactly when the id is absent; otherwise the first position holding it |
| JsArray.SortBy | src/context/boardReducer.js:159-164 | the `sort` by `order` returns a permutation of its input, sorted by the key |
| JsArray.InsertByKey | src/context/boardReducer.js:159-161 | one insertion step of the sort: adds exactly one element and keeps a sorted input sorted |
| BoardEdits.AddListAppends | src/context/boardReducer.js:32-47 | ADD_LIST appends one list after the others; each field is the payload's if present, else the default (fresh id, title, `order = \|lists\|`, not archived, version 1, now) |
| BoardEdits.AddCardAppends | src/context/boardReducer.js:104-122 | ADD_CARD appends one card; each field is the payload's if present, else the default (fresh id, the action's list, `New Card`, empty description and tags, order = number of cards in its list, version 1, time now) |
| BoardEdits.CountIsFilterLength | src/context/boardReducer.js:111 | the count ADD_CARD uses is the length of the list filter |
| BoardEdits.UpdateListChangesOnlyTarget | src/context/boardReducer.js:50-67 | UPDATE_LIST overlays the updates on each list with the id, with a larger version and the new time; other lists are untouched; an unknown id changes no list (that it still pushes history is `BoardHistory.EditPushesPreImage`) |
| BoardEdits.UpdateCardChangesOnlyTarget | src/context/boardReducer.js:124-141 | UPDATE_CARD: the same for cards, history again by `BoardHistory.EditPushesPreImage` |
| BoardEdits.ArchiveSetsOnlyFlag | src/context/boardReducer.js:80-102 | ARCHIVE_LIST/UNARCHIVE_LIST set only `archived` on the lists with the id; no version changes; history pushed |
| BoardEdits.CardsOutsideListConcat | src/context/boardReducer.js:74 | the cascade filter splits over concatenation, so the remaining cards keep their order |
| BoardEdits.CardsOutsideListMembers | src/context/boardReducer.js:74 | the cascade keeps exactly the cards of other lists, and drops as many as the list held |
| BoardEdits.ListsWithoutMembers | src/context/boardReducer.js:73 | the list filter keeps exactly the lists with another id |
| BoardEdits.CardsWithoutIdMembers | src/context/boardReducer.js:147 | the card filter keeps exactly the cards with another id |
| BoardEdits.DeleteListCascades | src/context/boardReducer.js:69-78 | DELETE_LIST leaves the two filters: exactly the lists with another id and exactly the cards of other lists, in their order, as many cards fewer as the list held; a board whose cards all name existing lists keeps that property; history pushed |
| BoardEdits.ListsWithoutConcat | src/context/boardReducer.js:73 | the list filter splits over concatenation, so the remaining lists keep their order |
| BoardEdits.DeleteCardRemovesExactly | src/context/boardReducer.js:143-151 | DELETE_CARD removes exactly the cards with the id (one, when ids are unique) and keeps the lists |
| BoardEdits.DropUniqueCard | src/context/boardReducer.js:147 | with unique ids, deleting a present card shortens the cards by one |
| BoardEdits.NoCardWithId | src/context/boardReducer.js:147 | deleting an absent id leaves the cards as they are |
| BoardEdits.ReorderSetsIndex | src/context/boardReducer.js:201-223 | REORDER_CARDS gives each card of the list listed in `cardIds` its index there and the new time; every other card is unchanged |
| BoardEdits.ReorderWithPermutationIsDense | src/context/boardReducer.js:201-223 | given a permutation of the list's ids, the list's orders become exactly `0..n-1`, each once |
| BoardEdits.ReorderTwoCards | src/context/boardReducer.js:201-215 | reordering `[c2, c1]` gives c1 order 1 and c2 order 0 |
| BoardEdits.ClearAllEmpties | src/context/boardReducer.js:260-270 | CLEAR_ALL empties lists, cards, queue and conflicts as one undoable step, and keeps the last sync time |
| BoardHistory.MovedCardIsInItsSourceList | src/context/boardReducer.js:159-167 | a present card is always found in its list sorted by order, so the second not-found return never fires |
| BoardHistory.CardsInListHas | src/context/boardReducer.js:160 | every card of the list other than the excluded one passes the filter |
| BoardHistory.EditPushesPreImage | src/context/boardReducer.js:45-46 | every history-pushing action keeps `history[..historyIndex+1]`, appends the pre-image and increments the index |
| BoardHistory.NonEditsKeepHistory | src/context/boardReducer.js:24-30 | SET_INITIAL_STATE, SYNC_SUCCESS, SYNC_FAILURE and unknown actions keep the history and index; SET_INITIAL_STATE replaces lists and cards, SYNC_SUCCESS clears the queue and stamps the sync time, SYNC_FAILURE keeps the queue unless one is given |
| BoardHistory.ReducePreservesHistoryBounds | src/context/boardReducer.js:240-258 | every action keeps `-1 <= historyIndex < \|history\|` |
| BoardHistory.ReachableStatesBounded | src/context/boardReducer.js:22-275 | every state reached by a run of actions from a bounded state is bounded |
| BoardHistory.UndoRestoresPreviousEntry | src/context/boardReducer.js:240-248 | UNDO is a no-op while `historyIndex <= 0`; otherwise it restores `history[historyIndex-1]`, keeps the history and decrements the index |
| BoardHistory.RedoRestoresNextEntry | src/context/boardReducer.js:250-258 | REDO is a no-op at the end of the history; otherwise it restores `history[historyIndex+1]` and increments the index |
| BoardHistory.FirstEditCannotBeUndone | src/context/boardReducer.js:241 | after one edit from the initial board the history is `[initial]` and UNDO changes nothing |
| BoardHistory.UndoThenRedo | src/context/boardReducer.js:240-258 | UNDO then REDO lands on `history[historyIndex]`, the pre-image of the latest edit |
| BoardHistory.UndoThenRedoLosesLatestEdit | src/context/boardReducer.js:240-258 | two ADD_LISTs, UNDO, REDO: two lists, then none, then one; the second list is not restored |
| BoardMove.MoveCardShape | src/context/boardReducer.js:153-199 | unknown card: state unchanged, no history; otherwise history pushed, lists kept, every card keeps its id, title, description and tags, and the moved card gets `newListId`, order `newIndex` unclamped, a bumped version and the new time |
| BoardMove.FoundCardMoves | src/context/boardReducer.js:172-198 | the found-card half of MoveCardShape |
| BoardMove.MoveRecordsHistory | src/context/boardReducer.js:193-198 | a move of a present card keeps the lists and pushes the pre-image |
| BoardMove.MoveOnlyRenumbers | src/context/boardReducer.js:172-191 | the move's `map` changes only list, order, version and time; the moved card's values are exactly those of lines 173-181 |
| BoardMove.ReduceMove | src/context/boardReducer.js:153 | the reducer delegates MOVE_CARD to `MoveCardIn` |
| BoardMove.MoveCardCards | src/context/boardReducer.js:158-191 | the cards after a move are the `map` over the spliced source and target copies |
| BoardMove.CardsInListFrom | src/context/boardReducer.js:159-164 | the filtered copies hold only cards of the list, each at most as often as on the board |
| BoardMove.SortedList | src/context/boardReducer.js:159-164 | with unique ids, the sorted filter holds exactly the list's cards, once each |
| BoardMove.TakesPosition | src/context/boardReducer.js:182-189 | a renumbered card takes its position in the source copy, or in the target copy when it is not in the source |
| BoardMove.MoveKeepsIds | src/context/boardReducer.js:172-191 | every card keeps its id; only the moved card changes list |
| BoardMove.SourceNumbering | src/context/boardReducer.js:182-185 | the source list's remaining cards are numbered by position in the spliced source |
| BoardMove.SourceRenumbered | src/context/boardReducer.js:166-185 | with unique ids, after any move the source list's other cards carry the orders `0..n-2`, each once |
| BoardMove.SourceFacts | src/context/boardReducer.js:159-169 | the spliced source is the list's other cards, unique, one fewer than the list held |
| BoardMove.TargetFacts | src/context/boardReducer.js:162-170 | in a cross-list move within bounds, the spliced target holds the target list's cards plus the moved card at `newIndex` |
| BoardMove.CrossListMoveIsDense | src/context/boardReducer.js:153-199 | cross-list move with `0 <= newIndex <= m`: the target list gains the card and is numbered `0..m`, the source list loses it and is numbered `0..n-2` |
| BoardMove.CrossListCounts | src/context/boardReducer.js:172-181 | only the moved card changes list: target count +1, source count -1 |
| BoardMove.TargetNumbering | src/context/boardReducer.js:186-189 | the target list is numbered by position in the spliced target |
| BoardMove.NoOtherCardNamed | src/context/boardReducer.js:163 | excluding the moved id from another list's filter changes nothing |
| BoardMove.MoveLeavesOtherListsAlone | src/context/boardReducer.js:190 | cards of lists other than the source and the target are untouched |
| BoardMove.TargetMembers | src/context/boardReducer.js:162-170 | the spliced target holds only cards of the new list and the moved card |
| BoardMove.OthersUntouched | src/context/boardReducer.js:182-190 | cards in neither copy keep their value |
| BoardMove.SameListMoveCanRepeatOrder | src/context/boardReducer.js:182-189 | moving b before a in their own list leaves both with order 0 |
| Helpers.Merge3 | src/utils/helpers.js:46-79 | `mergeObjects` as a function: the early returns, then the server record with the written local keys over it; `MergeFalsyInputs` and `MergeKeyRule` state its cases, and `MergeObjects` is proved to compute it |
| Helpers.MergeObjects | src/utils/helpers.js:46-79 | the method (early returns, copy of server, loop, recursion) computes exactly `Merge3` |
| Helpers.MergeKeys | src/utils/helpers.js:60-76 | the `for...in` loop yields the server record with the written local keys over it |
| Helpers.MergeStep | src/utils/helpers.js:62-75 | visiting one more key writes that key's merged value exactly when the key is written |
| Helpers.WrittenStep | src/utils/helpers.js:62-75 | the same for the written keys alone |
| Helpers.MergeFalsyInputs | src/utils/helpers.js:47-58 | all falsy gives `{}`; a falsy base gives local overlaid by server; a falsy local gives server (or base); a falsy server gives base overlaid by local |
| Helpers.MergeKeyRule | src/utils/helpers.js:60-76 | per key: absent locally keeps server's; scalar takes local iff it differs from base and server; array takes local iff it differs from base; object recurses on `(base[k], local[k], server[k] \|\| {})` |
| Helpers.MergeAt | src/utils/helpers.js:60-76 | key k of the merge is the written value when the loop writes k, else the server's |
| Helpers.MergePresent | src/utils/helpers.js:60-78 | with all three present, the merge is the server record with the written keys over it |
| Helpers.FlatUnchangedLocalTakesServer | src/utils/helpers.js:60-76 | for flat records, a local record equal to the base yields the server record |
| Helpers.MergeScalarExample | src/utils/__tests__/helpers.test.js:101-108 | `a` changed on the server and `b` changed locally both win |
| Helpers.MergeConflictExample | src/utils/__tests__/helpers.test.js:133-139 | a title changed on both sides keeps the local one |
| Helpers.MergeArrayExample | src/utils/__tests__/helpers.test.js:125-131 | a locally extended array replaces the server's |
| Helpers.MergeNestedExample | src/utils/__tests__/helpers.test.js:116-123 | nested objects merge key by key |
| Helpers.ParseHex | src/utils/helpers.js:12-14 | `parseInt(…, 16)`: leading whitespace, a sign and `0x` skipped, then the longest run of hexadecimal digits, NaN when there is none; `ParseTwoDigits` states its value on two digits |
| Helpers.TrimStart | src/utils/helpers.js:12-14 | leading whitespace as `parseInt` skips it: a suffix, all whitespace before it, none at its start |
| Helpers.HexPrefix | src/utils/helpers.js:12-14 | the longest run of hexadecimal digits `parseInt(…, 16)` reads |
| Helpers.ContrastColor | src/utils/helpers.js:11-17 | the answer is always `#000000` or `#ffffff`; its channels are `slice`s over UTF-16 units (`Slice`), and `ContrastOfWellFormedColor` and `ContrastOfSplitPair` state which answer |
| Helpers.Utf16Units | src/utils/helpers.js:12-14 | the UTF-16 units `slice` indexes: at least one per character; `Utf16UnitsOfBasicPlane` and `Validators.Utf16LengthCountsUnits` state how many |
| Helpers.Utf16UnitsConcat | src/utils/helpers.js:12-14 | the units of a concatenation are the units of its parts |
| Helpers.Utf16UnitsOfBasicPlane | src/utils/helpers.js:12-14 | a basic-plane string is its own units |
| Helpers.Utf16UnitsPrefix | src/utils/helpers.js:12-14 | up to a point before which every character is in the basic plane, the units are the characters |
| Helpers.SliceOfChannel | src/utils/helpers.js:12-14 | when the characters up to a channel are in the basic plane, `slice(i, i + 2)` is the channel's two characters |
| Helpers.ContrastOfSplitPair | src/utils/helpers.js:11-17 | a colour whose third character lies beyond the basic plane has its green slice start with a surrogate half, so green is NaN and the text is white |
| Helpers.ContrastSplitPairExample | src/utils/helpers.js:11-17 | `getContrastColor("#0😀ffffff")` is `#ffffff` |
| Helpers.HalfIsNaN | src/utils/helpers.js:12-14 | `parseInt(…, 16)` of a text that starts with a surrogate half is NaN |
| Helpers.ParseTwoDigits | src/utils/helpers.js:12-14 | two hex digits parse to `16 a + b` |
| Helpers.ChannelParses | src/utils/helpers.js:12-14 | when the characters up to a channel are in the basic plane, its two-character slice parses to its value |
| Helpers.ContrastOfWellFormedColor | src/utils/helpers.js:11-17 | for `#rrggbb` with a basic-plane first character: `#000000` when `299 r + 587 g + 114 b > 128000`, else `#ffffff` |
| Helpers.ContrastWhiteExample | src/utils/__tests__/helpers.test.js:39 | white gets black text |
| Helpers.ContrastYellowExample | src/utils/__tests__/helpers.test.js:40 | yellow gets black text |
| Helpers.ContrastBlackExample | src/utils/__tests__/helpers.test.js:44 | black gets white text |
| Helpers.ContrastNavyExample | src/utils/__tests__/helpers.test.js:45 | navy gets white text |
| Helpers.ContrastRedExample | src/utils/__tests__/helpers.test.js:46 | red gets white text |
| Helpers.ContrastEmptyExample | src/utils/helpers.js:12-16 | an empty string has NaN channels, so the comparison is false and the text is white |
| Validators.Trim | src/utils/validators.js:5 | `trim()`: `TrimStart` then `TrimEnd`; `TrimEmptyIffBlank` states when it is empty |
| Validators.Blank | src/utils/validators.js:5 | the required-title guard `!v \|\| typeof v !== 'string' \|\| v.trim().length === 0`; `BlankIff` states it |
| Validators.LongerThan | src/utils/validators.js:8-11 | `v.length > limit`: UTF-16 units for strings, elements for arrays, an object's `length` property converted by `ToNumber` (absent is `undefined`, so NaN, so false), false for numbers and booleans; `TextLimit`, `LengthProperty` and `LengthCoerced` state it |
| Validators.ToNumber | src/utils/validators.js:11 | the conversion `>` applies to a `length` property: `undefined` NaN, `null` 0, booleans 0 or 1, texts through `StringToNumber`, arrays through their `join(",")` text, plain objects NaN; `NumberTextRoundTrip` and `LengthCoerced` state it |
| Validators.StringToNumber | src/utils/validators.js:11 | `Number(text)`: trimmed; empty is 0; `0x`/`0o`/`0b` digits; a signed decimal with optional fraction and exponent, or `Infinity`; NaN otherwise; `DigitsRead`, `NumberTextRoundTrip` and `TextWithUnitIsNaN` state it |
| Validators.DecimalText | src/utils/validators.js:11 | `String(n)` of a natural number: non-empty, all digits, and reading back as `n` |
| Validators.DigitsRead | src/utils/validators.js:11 | a run of decimal digits converts to its value |
| Validators.NegativeText | src/utils/validators.js:11 | a minus sign before a run of digits converts to minus its value |
| Validators.NumberTextRoundTrip | src/utils/validators.js:11 | the text of any integer converts back to it: `Number(String(n)) === n` |
| Validators.LengthProperty | src/utils/validators.js:11 | an object with `length` v is longer than the limit exactly when `ToNumber(v)` exceeds it |
| Validators.LengthCoerced | src/utils/validators.js:11 | `{ length: "n" }` and `{ length: [n] }` are longer than the limit exactly when `n` exceeds it |
| Validators.DescriptionLengthExamples | src/utils/validators.js:11-13 | descriptions `{ length: "3000" }` and `{ length: [3000] }` are rejected as too long |
| Validators.DescriptionNaNLengthExample | src/utils/validators.js:11-17 | description `{ length: "3000px" }` converts to NaN, so the card is valid |
| Validators.TextWithUnitIsNaN | src/utils/validators.js:11 | `"3000px"` converts to NaN |
| Validators.Utf16LengthCountsUnits | src/utils/validators.js:8 | `length` counts exactly the units `slice` indexes |
| Validators.NotAnObject | src/utils/validators.js:2 | `!v \|\| typeof v !== 'object'`: objects and arrays pass; `ValidCardIff` and `ValidListIff` state it |
| Validators.TrimEnd | src/utils/validators.js:5 | trailing whitespace removed: a prefix, all whitespace after it, none at its end |
| Validators.TrimEmptyIffBlank | src/utils/validators.js:5 | `trim()` is empty exactly when the string has no non-whitespace character |
| Validators.Utf16Length | src/utils/validators.js:8 | `length` counts UTF-16 units, between one and two per character |
| Validators.Utf16LengthOfBasicPlane | src/utils/validators.js:8 | in the basic plane `length` is the character count |
| Validators.BlankIff | src/utils/validators.js:5 | a value is blank exactly when it is not a string with a non-whitespace character |
| Validators.ValidateCard | src/utils/validators.js:1-18 | the card is valid exactly when no error is given; the description guard compares through `LongerThan`, with `ToNumber` on an object's `length` |
| Validators.ValidateList | src/utils/validators.js:20-31 | the list is valid exactly when no error is given |
| Validators.ValidateTag | src/utils/validators.js:33-41 | the tag is valid exactly when no error is given |
| Validators.CardChecksInOrder | src/utils/validators.js:1-13 | the first failing guard names the error: not an object, then title required, then title too long, then description too long |
| Validators.TagsCheckedLast | src/utils/validators.js:14-17 | past the first four guards, the card is rejected with "Tags must be an array" exactly when its tags are truthy and not an array, and is valid otherwise |
| Validators.ValidCardIff | src/utils/validators.js:1-18 | valid iff: an object, a string title with a non-whitespace character, at most 200 UTF-16 units, a description that is falsy or not longer than 2000 (`LongerThan`: UTF-16 units, elements, or an object's `length` converted by `ToNumber`), tags falsy or an array |
| Validators.ValidCardGuards | src/utils/validators.js:1-18 | a card is valid exactly when it passes each of the five guards |
| Validators.TitleGuards | src/utils/validators.js:5-10 | the two title guards pass exactly for a string with a non-whitespace character of at most `limit` UTF-16 units |
| Validators.ValidListIff | src/utils/validators.js:20-31 | valid iff an object with a string title with a non-whitespace character of at most 100 UTF-16 units |
| Validators.ValidTagIff | src/utils/validators.js:33-41 | valid iff a string with a non-whitespace character of at most 30 UTF-16 units |
| Validators.CardTitleLimit | src/utils/validators.js:8-10 | a card whose only key is a non-blank basic-plane title is valid iff the title has at most 200 characters, and otherwise rejected as too long |
| Validators.ListTitleLimit | src/utils/validators.js:27-29 | the same for lists with 100 characters |
| Validators.TagLengthLimit | src/utils/validators.js:37-39 | a non-blank basic-plane tag is valid iff it has at most 30 characters, and otherwise rejected as too long |
| Validators.BlankTagRejected | src/utils/validators.js:34-36 | an empty or whitespace-only tag is rejected as not a non-empty string |
| Validators.NotBlank | src/utils/validators.js:5 | a string with a non-whitespace character passes the required-title guard |
| Validators.TextLimit | src/utils/validators.js:8 | for a non-blank basic-plane string, the length guard fires exactly when the character count exceeds the limit |
| Validators.CardExamples | src/utils/__tests__/validators.test.js:5-16 | a card with a non-blank title of at most 200 characters, a description and tags is valid; a card with only a description is rejected for its title |
| Validators.ListExamples | src/utils/__tests__/validators.test.js:25-37 | a list with a non-blank title of at most 100 characters is valid; `{}` is rejected for its title |
| Validators.TagExample | src/utils/__tests__/validators.test.js:40-43 | `test` is a valid tag |
| Api.NewList | src/services/api.js:40-45 | the list `createList` stores; `ApiProps.NewListFromPayload` states its fields |
| Api.NewCard | src/services/api.js:79-84 | the card `createCard` stores; `ApiProps.NewCardFromPayload` states its fields |
| Api.ResyncedLists | src/services/api.js:148-152 | one record per input list |
| Api.ResyncedCards | src/services/api.js:153-157 | one record per input card |
| Api.ListPositions | src/services/api.js:123-127 | the filter: in store order, exactly the positions of the list's cards other than the excluded id |
| Api.FirstWithId | src/services/api.js:130 | `findIndex` over positions: -1 iff no visited card has the id |
| Api.MoveSourceAt | src/services/api.js:122-125 | `oldListCards` visits only positions in the store |
| Api.MoveTargetAt | src/services/api.js:126-131 | `newListCards` visits only positions in the store |
| Api.Renumbered | src/services/api.js:133-141 | the `forEach` keeps the number of cards |
| Api.MovedCards | src/services/api.js:115-144 | a move keeps the number of cards |
| Api.TwoPasses | src/services/api.js:133-141 | the two passes keep the number of cards |
| Api.RemoteStore.constructor | src/services/api.js:1-4 | the store starts with no lists and no cards |
| Api.RemoteStore.FetchLists | src/services/api.js:28-31 | returns the stored lists, or fails with the server error |
| Api.RemoteStore.FetchCards | src/services/api.js:33-36 | returns a new array of the stored card objects themselves, showing the stored cards, or fails with the server error |
| Api.RemoteStore.Allocate | src/services/api.js:79-85 | `{ ...record }` makes a new object: the heap gains exactly it, under a reference no array holds, and the stored cards read as before |
| Api.RefsOutside | src/services/api.js:73 | `deleteList`'s filter over card objects keeps objects of the array, distinct ones stay distinct, and they show exactly `CardsOutside` of what the array showed |
| Api.WriteThrough | src/services/api.js:133-141 | writing a field onto one of distinct stored objects changes what the array shows at that position only |
| Api.FreshObject | src/services/api.js:79-85 | a new object changes no existing array |
| Api.SpliceOut | src/services/api.js:111 | splicing an object out of the array splices its record out of what the array shows |
| Api.RemoteStore.CreateList | src/services/api.js:38-48 | on success appends exactly the new list and returns it; on failure nothing changes; cards never change |
| Api.RemoteStore.UpdateList | src/services/api.js:50-64 | not found (or server error) leaves the store unchanged; otherwise the first list with the id is replaced by the updated record, which is returned; cards never change |
| Api.RemoteStore.DeleteList | src/services/api.js:66-75 | not found leaves the store unchanged; otherwise the first list with the id is spliced out and the card array is filtered to the objects of other lists; no object changes |
| Api.RemoteStore.CreateCard | src/services/api.js:77-87 | on success appends exactly the new card and returns it, as a new object pushed after the old array; no existing object changes; lists never change |
| Api.RemoteStore.UpdateCard | src/services/api.js:89-103 | not found leaves the store unchanged; otherwise the slot of the first card with the id, and only it, gets a new object holding the updated record, which is returned; no existing object changes |
| Api.RemoteStore.DeleteCard | src/services/api.js:105-113 | not found leaves the store unchanged; otherwise exactly the first card with the id is spliced out of the array; no object changes |
| Api.RemoteStore.MoveCard | src/services/api.js:115-144 | unknown card: unchanged, not-found error; otherwise the stored objects are rewritten in place so that the cards become `MovedCards` (source pass then target pass); only objects of the array are written, and only their order, list and time; the array and the lists never change |
| Api.RemoteStore.RenumberInPlace | src/services/api.js:133-141 | the `forEach` loop writes exactly `Renumbered`, onto objects of the array only, and only their order, list and time |
| Api.RemoteStore.SyncAll | src/services/api.js:146-162 | replaces both collections by new objects holding the resynced inputs and returns them; no existing object changes, and no new card object was live before; on failure nothing changes |
| Api.Renumbers | src/services/api.js:133-141 | a card object rewritten only where `moveCard` writes: id, title, description, tags and version kept |
| Api.KeptFrames | src/services/api.js:77-113 | objects that keep their records are at most renumbered, and kept outside any array |
| Api.KeptDeref | src/services/api.js:33-36 | an array handed out earlier reads the same while its objects keep their records |
| Api.RenumberedDeref | src/services/api.js:33-36 | while its objects are at most renumbered, an array handed out earlier reads as records each at most renumbered |
| Api.RenumberedTwice | src/services/api.js:133-141 | two rounds of renumbering are one |
| Api.RemoteStore.ResetServerData | src/services/api.js:164-166 | empties both collections |
| ApiProps.CardsOutsideCascade | src/services/api.js:73 | `deleteList`'s filter keeps exactly the other lists' cards and drops as many as the list held |
| ApiProps.CreateThenDeleteCard | src/services/api.js:77-113 | a card created under a new id is the one `deleteCard` then removes, leaving the store as before |
| ApiProps.AppendThenRemove | src/services/api.js:85-111 | appending a record with a new id and splicing out the first record with that id is the identity |
| ApiProps.CardIndexAppend | src/services/api.js:107 | `findIndex` after appending a card finds the old match when there is one, else the appended card if its id matches, else -1 |
| ApiProps.NewListFromPayload | src/services/api.js:40-45 | a created list keeps a non-empty payload id, else takes the generated one; version 1; time now; payload title and order kept |
| ApiProps.NewCardFromPayload | src/services/api.js:79-84 | the same for cards, with payload title and list kept |
| ApiProps.ResyncKeepsRecords | src/services/api.js:146-157 | `syncAll` keeps every record but version and time, and the version grows by one |
| ApiProps.RenumberedOutside | src/services/api.js:133-141 | a card the `forEach` does not visit is untouched |
| ApiProps.RenumberedInside | src/services/api.js:133-141 | the card at the p-th visited position gets order p, the time, and the new list when given |
| ApiProps.RenumberedKeepsRecords | src/services/api.js:133-141 | renumbering changes only order, list and time |
| ApiProps.PassesNumberTarget | src/services/api.js:137-141 | the target pass gives its p-th card order p and the target list |
| ApiProps.PassesNumberSource | src/services/api.js:133-136 | a source card the target pass skips keeps its source position as order and its list |
| ApiProps.PassesOutside | src/services/api.js:133-141 | a card neither pass visits is untouched |
| ApiProps.PassesKeepList | src/services/api.js:133-141 | a card the target pass skips keeps its list |
| ApiProps.PassesKeepRecords | src/services/api.js:133-141 | both passes change only order, list and time |
| ApiProps.TargetShape | src/services/api.js:126-131 | `newListCards` has distinct positions, holds the moved card at the clamped `newIndex`, and otherwise only other cards of the target list |
| ApiProps.SourceShape | src/services/api.js:122-130 | `oldListCards` has distinct positions, all in the moved card's list |
| ApiProps.SourceWithoutMoved | src/services/api.js:122-130 | with unique ids, `oldListCards` loses exactly the moved card |
| ApiProps.PositionsCount | src/services/api.js:123-124 | the list filter visits as many positions as the list has cards |
| ApiProps.MoveNumbersTarget | src/services/api.js:115-144 | after a move the target sequence is numbered `0..m-1` in the target list, with the moved card at the clamped `newIndex` |
| ApiProps.MoveKeepsRecords | src/services/api.js:133-141 | a move changes only order, list and time of any card |
| ApiProps.MoveLeavesOtherLists | src/services/api.js:115-144 | cards of other lists are untouched |
| ApiProps.CrossListMoveRenumbersSource | src/services/api.js:130-136 | in a cross-list move the remaining source cards are numbered `0..n-2` and keep their list |
| ApiProps.MoveTargetIsTheNewList | src/services/api.js:126-141 | with unique ids, a card ends in the target list iff the target sequence visits it |
| ApiProps.InTargetList | src/services/api.js:126-128 | every other card of the target list is visited |
| ApiProps.CreateListExample | src/services/__tests__/api.test.js:15-19 | `createList({ title: 'Test List' })` answers with that title and an id |
| Reconcile.ReconcileOne | src/hooks/useOfflineSync.js:76-85 | one local record: kept without a server copy or with one not strictly newer, otherwise merged with it; `ReconcileOneIsFixed` and `OfflineSync.ReconciledListAt` state it |
| Reconcile.ServerOnly | src/hooks/useOfflineSync.js:98-103 | the server records whose id no local record carries, in server order; `ServerOnlyMembers` states it |
| Reconcile.Reconciled | src/hooks/useOfflineSync.js:108-109 | `[...merged, ...newServer]`; `ReconciledShape`, `ReconciledIds` and `ReconcileIdempotent` state it |
| Reconcile.FindIndex | src/hooks/useOfflineSync.js:77 | `find` by id: -1 iff no record has the id, else the first with it |
| Reconcile.MergedLocals | src/hooks/useOfflineSync.js:76-85 | one reconciled record per local record |
| Reconcile.ServerOnlyMembers | src/hooks/useOfflineSync.js:98-103 | the server-only records are exactly the server records whose id no local record carries |
| Reconcile.ServerOnlyUnique | src/hooks/useOfflineSync.js:98-103 | server-only records of a server with unique ids have unique ids |
| Reconcile.ReconciledTail | src/hooks/useOfflineSync.js:108-109 | the records after the merged locals are server records of unseen ids |
| Reconcile.ReconciledShape | src/hooks/useOfflineSync.js:76-111 | `\|local\| + \|serverOnly\|` records, the local ids in place, and no id twice when both inputs have unique ids |
| Reconcile.ReconciledIds | src/hooks/useOfflineSync.js:76-111 | the result carries an id iff the local or the server records carry it |
| Reconcile.ReconcileIdempotent | src/hooks/useOfflineSync.js:76-111 | reconciling again with the same server records changes nothing |
| Reconcile.ReconcileOneIsFixed | src/hooks/useOfflineSync.js:80-84 | a reconciled record is its own reconciliation |
| SyncMerge.BaseVersion | src/hooks/useOfflineSync.js:81 | `(version \|\| 1) - 1` is one less than a present version, and 0 for a missing one |
| SyncMerge.MergeDiffersOnlyAt | src/utils/helpers.js:60-76 | when local agrees with base except at one scalar key, the merge is the server record with that key taken from local iff it differs from base |
| SyncMerge.MergeListIsServerWithLocalVersion | src/hooks/useOfflineSync.js:80-82 | `mergeObjects({...local, version: v-1}, local, server)` on lists is the server list with the local version |
| SyncMerge.MergeCardIsServerWithLocalVersion | src/hooks/useOfflineSync.js:91-93 | the same for cards |
| SyncMerge.EncodeListInjective | src/hooks/useOfflineSync.js:82 | different lists are different objects, so the typed merge is the only list with the merged encoding |
| SyncMerge.EncodeCardInjective | src/hooks/useOfflineSync.js:93 | the same for cards |
| OfflineSync.WithoutKeys | src/services/storage.js:141-150 | the entries left after deleting keys: exactly those with other keys |
| OfflineSync.WithoutKeysIncreasing | src/services/storage.js:39-42 | deleting keys keeps the auto-incremented keys rising |
| OfflineSync.WithoutNoKeys | src/services/storage.js:141-150 | deleting no key keeps the queue |
| OfflineSync.WithoutKeysTwice | src/services/storage.js:141-150 | deleting keys a then b deletes a and b |
| OfflineSync.PendingQueue.constructor | src/services/storage.js:38-45 | a fresh queue store is empty with the key generator at 1 |
| OfflineSync.PendingQueue.GetAll | src/services/storage.js:130-139 | `getSyncQueue` returns every entry in key order |
| OfflineSync.PendingQueue.Add | src/services/storage.js:116-128 | adds `{...action, timestamp}` under the next key and returns it; on failure nothing changes |
| OfflineSync.PendingQueue.Remove | src/services/storage.js:141-150 | deletes the entry under the key; on failure nothing changes |
| OfflineSync.Replayed | src/services/api.js:38-144 | the transition one replayed action makes: none on failure, otherwise what the store call it stands for does on success; `Replay` is proved to make it |
| OfflineSync.Replay | src/hooks/useOfflineSync.js:42-68 | the store call each queued type stands for: on failure the store is unchanged; on success the store changes as that call does; unknown types change nothing; only a successful move writes onto existing objects, and then only their order, list and time, of objects in the array; only a successful list delete or card create, update or delete changes the array |
| OfflineSync.ReplayList | src/hooks/useOfflineSync.js:43-51 | the list cases: the `Replayed` transition, with no card object written and the array changed only by a successful delete |
| OfflineSync.ReplayCard | src/hooks/useOfflineSync.js:52-67 | the card cases: the `Replayed` transition, with existing objects rewritten only by a successful move, and then only renumbered within the array |
| OfflineSync.DroppedKeysMembers | src/hooks/useOfflineSync.js:69 | a key is dropped iff some entry marked as removed carries it |
| OfflineSync.DrainOne | src/hooks/useOfflineSync.js:41-72 | one turn: replay, then on success remove the entry; a failure keeps it; errors do not escape; the object frame of `Replay` |
| OfflineSync.DrainQueue | src/hooks/useOfflineSync.js:39-73 | the loop replays the queue read at the start in order, each step a `Replayed` transition; only succeeded entries are removed, and the queue is what remains; card objects are at most renumbered, kept exactly when no move succeeded, and the array kept when every success kept it |
| OfflineSync.DrainStepFrames | src/hooks/useOfflineSync.js:40-73 | "no move succeeded so far" and "every success so far kept the array" extend by one step exactly when that step's replay qualifies |
| OfflineSync.FramesExtended | src/hooks/useOfflineSync.js:40-73 | the drain's object frames, extended by one more replay |
| OfflineSync.FailedEntryStays | src/hooks/useOfflineSync.js:70-72 | an entry whose replay failed is still queued after the drain |
| OfflineSync.SyncWithServer | src/hooks/useOfflineSync.js:28-119 | offline: no effect; fetch/queue failure: SYNC_FAILURE only, nothing changes; otherwise the drain trace over the old queue, failed entries kept, then SET_INITIAL_STATE with the records reconciled against the lists fetched before the drain and the card objects fetched before the drain as they read after it, the local save, SYNC_SUCCESS; those cards differ from the cards as fetched at most in order, list and time, equal them when no move succeeded, read as the store's card where the object is still in its array, and equal the store's cards when every success kept the array |
| OfflineSync.QueueAction | src/hooks/useOfflineSync.js:121-134 | offline: the action is appended to the queue and the store is untouched; online: never queued, the effects of a sync, a failed sync changing nothing; the cards the sync fetched differ from the store's cards at most in order, list and time |
| OfflineSync.Dispatched | src/hooks/useOfflineSync.js:105-117 | the board after the hook's dispatches in order, through `Reduce`; `SyncSuccessBoard` and `SyncFailureBoard` state it |
| OfflineSync.SyncSuccessBoard | src/hooks/useOfflineSync.js:105-114 | after a successful sync the board holds the reconciled lists and cards, an empty queue and the sync time; history untouched |
| OfflineSync.SyncFailureBoard | src/hooks/useOfflineSync.js:115-118 | a failed sync leaves the board as it was |
| OfflineSync.MergeListKeepsIdAndStamp | src/hooks/useOfflineSync.js:82 | the list merge keeps the local id and takes the server time |
| OfflineSync.MergeCardKeepsIdAndStamp | src/hooks/useOfflineSync.js:93 | the card merge keeps the local id and takes the server time |
| OfflineSync.ReconciledListAt | src/hooks/useOfflineSync.js:76-85 | a local list without server copy, or with a copy not strictly newer, is kept; a strictly newer copy gives the `mergeObjects` result, which is the server list with the local version |
| OfflineSync.ReconciledCardAt | src/hooks/useOfflineSync.js:87-96 | the same for cards |
| OfflineSync.ReconciledListsShape | src/hooks/useOfflineSync.js:98-111 | merged locals then server-only lists: length, ids in place, unique ids preserved, exactly the union of ids, idempotent |
| OfflineSync.ReconciledCardsShape | src/hooks/useOfflineSync.js:98-111 | the same for cards |

## Left out

- The React components, `BoardProvider`, `useBoardState` and `useUndoRedo`: rendering and thin
  wrappers over the reducer.
- `src/services/storage.js` as an IndexedDB wrapper. Only its sync-queue store is modelled
  (`PendingQueue`); opening the database and running a transaction is a step that may fail.
  `saveList`/`saveCard` appear only as the `SaveLocal` effect, whose failure the hook swallows.
- The online/offline listeners, the interval timer and `isOnlineRef`. Being online is a
  parameter of `SyncWithServer` and `QueueAction`.
- Concurrency: the model runs one sync at a time. Interleaving with other dispatches, or with a
  second sync, is not modelled.
- Clock and randomness. `new Date()` is an integer parameter (one `now` per reducer step, per
  queued entry and per sync). `generateId()` is `Env.freshId`. The ids `api.js` builds from
  `Date.now()` and `Math.random()` are arbitrary strings. The request delay, `setRequestDelay`
  and `setFailureRate` are left out; a request simply may fail.
- JavaScript values are approximated:
  - Numbers are integers and ISO timestamps are integers.
  - A list or card carries every field; a missing field is not distinguished from its default.
  - Payloads are records of optional fields.
- Board.Reduce: an out-of-range UNDO/REDO target (unreachable from the initial board, as
  `ReachableStatesBounded` shows) is read as an empty board, where JavaScript spreads `undefined`.
- Api.ResyncedLists, Api.ResyncedCards, Api.Renumbered, Api.MovedCards, Api.TwoPasses: their own
  contracts state only the length. Their content is stated by the lemmas in `ApiProps`.
- OfflineSync.PendingQueue.Add: a queued action is modelled without a top-level `id`, so the
  store always assigns the next key. The object store's key path is `id`, so an action that
  carried its own `id` would be stored under that key instead (a numeric one also advancing the
  generator, a taken one failing the add); that case is not modelled.
- OfflineSync.SyncWithServer: the board's records are values. The server-only cards the source
  hands to the board are the store's own objects, which a later `moveCard` on the store would
  rewrite under the board; the model hands the board copies.
- Helpers.MergeFalsyInputs: `Props` gives strings and arrays no keys, while a spread
  `{ ...v }` of a truthy string or array copies its index keys; the overlays stated for a
  string or array input are therefore weaker than the source's.
- Helpers.MergeKeyRule: the `for...in` loop over a string local visits its index keys, and
  `base[k]`/`server[k]` on a string or array read its characters, elements or `length`; the
  model reads `undefined` there. Arrays are compared with `!=` on values where the source
  compares `JSON.stringify` texts, which differ for arrays holding `undefined` (written as
  `null`) or objects with the same keys in another order.
- OfflineSync.SyncWithServer: for a successful sync it states which entries may remain, not that
  every succeeded entry was removed, because a removal may itself fail.
- Validators.LongerThan: a `length` that is an object, or an array whose element is one, is
  read as NaN. The source converts it through its `valueOf` and `toString` keys, and throws a
  TypeError when they hold data rather than functions; that throw is not modelled. Numeric texts
  are converted exactly, not rounded to a double, so a text such as `"1e400"` is a large finite
  number here and `Infinity` in the source, and a text differing from 2000 beyond double
  precision compares as written.
- Helpers.ContrastColor: a `char` is a Unicode scalar value, so a string holding a lone
  surrogate cannot be given. The two halves of a character beyond the basic plane are both
  represented as U+FFFD, which `parseInt` treats as it treats a surrogate half.
- OfflineSync.SyncWithServer: a fetched card object that a replayed `moveCard` rewrote and a
  later replayed entry then removed from the store's array is stated only to differ from the
  card as fetched in order, list and time, not to hold the values that move wrote.
- JsArray.SortBy: its contract states a sorted permutation, not that cards with equal `order`
  keep their relative order, which the ECMAScript 2019 `sort` guarantees.
- `formatDate`, `debounce`, `throttle`, `deepClone`, `generateId` and the msw request handlers:
  locale formatting, timers, a JSON copy, uuid, and HTTP wrappers around the store.
