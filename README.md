# Kanban board store

This project models the state store of a single-user kanban board. The board is one
state cell `lists`: a sequence of lists in display order. Each list has an id, a title
and a sequence of cards. Each card has an id, a title, a description and a due date.
The store replaces the cell with a new board on every operation:

- `addList`
- `removeList`
- `addCard`
- `moveCard`
- `moveList`
- `updateListTitle`
- `updateCard`
- the reset button
- the title commit of a list header, which throws away a title made only of white space

The files:

- `wrappers.dfy` (module `Wrappers`): `Option`.
- `kanban.dfy` (module `Kanban`):
  - the data model (`Card`, `List`, `Patch`, `Board`);
  - the queries the laws use: list ids, all cards in display order, card ids;
  - the board invariant `WellFormed`: list ids are distinct, card ids are distinct across the whole board, and no list shares its id with a card;
  - the array combinators the store is built from: `map` over the lists that carry an id, `find`, `filter`, and the object spread of a card edit.
- `operations.dfy` (module `Operations`):
  - every operation as a function from the old board to the new one;
  - `String.prototype.trim`;
  - the title-commit policy.
- `moves.dfy` (module `Moves`): the two operations the source computes step by step, as methods proved equal to their functions:
  - `moveCard`, whose first pass assigns the captured `cardToMove` inside the `map` callback;
  - `moveList`, which copies the array and edits the copy with two `splice` calls, here on an `array`.
- `properties.dfy` (module `Properties`): the laws of the operations, as lemmas. Each lemma says which list or card an operation touches and that nothing else changes. The lemmas also prove:
  - moves neither lose nor duplicate cards;
  - `moveList` is a permutation, and moving a list back undoes the move;
  - a repeated `moveCard` is a no-op;
  - with fresh ids, every operation keeps the board well-formed.
- `store.dfy` (module `Store`): the class `BoardStore`.
  - Its field `lists` is replaced by every method.
  - Each method is proved to compute its operation's function.
  - Each method keeps `Valid()`, which is well-formedness.

Ids come from `uuidv4()` in the source. Here they are a parameter, with the precondition `Fresh`: no list and no card of the board uses the id yet. `addCard` takes one such id, which stands for the single `uuidv4()` call made when exactly one list carries the target id (see `Operations.AddCard` under "## Left out"). Titles come from `prompt()` in the source and are parameters here. A cancelled prompt (`null`) is falsy like the empty string, so both are modelled as `""`.

Behaviour of the code the model keeps as written:

- `moveCard` takes no target index. It always appends the card to the end of the destination list, so a move within one list puts the card last, not at a chosen index.
- A move within one list does not duplicate the card. The second `map` runs over the already filtered `updatedLists`. `MoveCardWithin` proves that the card's id occurs exactly once afterwards.
- `addList` and `addCard` accept a title made only of white space: `" "` is truthy. Only the header's title commit trims.
- The title commit stores the edited text untrimmed.
- If `toListId` names no list, `moveCard` filters the card out of its source list and appends it nowhere, so the card is lost (`MoveCardNoDestination`).

## Model

| member | source | states |
|---|---|---|
| Kanban.ApplyPatch | src/App.js:88 | `{ ...card, ...patch }`: the id stays; each field the patch carries replaces the card's, and each field it lacks keeps the card's |
| Kanban.MapWhereAt | src/App.js:74-94 | on distinct list ids, mapping an edit over the lists with a given id rewrites exactly the one list carrying it |
| Kanban.MapWhereAbsent | src/App.js:74-94 | mapping an edit for an id no list carries leaves the board unchanged |
| Kanban.Find | src/App.js:52 | `find` returns nothing exactly when no card has the id; otherwise it returns a card with that id, and no earlier card has it |
| Kanban.WithoutSpec | src/App.js:53 | `filter` keeps exactly the cards whose id differs, removes every card with the id, and never adds or repeats a card |
| Kanban.WithoutAt | src/App.js:53 | on distinct card ids, the filter removes exactly the card at the matching position and keeps the order of the rest |
| Kanban.WithoutAbsent | src/App.js:53 | filtering by an id no card has changes nothing |
| Kanban.MapWhere | src/App.js:39-43 | definition of the `lists.map(list => list.id === id ? edit(list) : list)` shape shared by addCard, moveCard, updateListTitle and updateCard (also lines 50-56, 60-62, 76-78, 83-92); its laws are `Kanban.MapWhereAt` and `Kanban.MapWhereAbsent` |
| Kanban.ApplyEdit | src/App.js:41 | definition of the four list edits the maps apply (append a card, drop a card, retitle, patch a card; also lines 53, 61, 77, 86-89); it keeps the list's id, and `Kanban.MapWhereAt` states its effect in place |
| Kanban.Without | src/App.js:53 | definition of `cards.filter(card => card.id !== cardId)`; its laws are `Kanban.WithoutSpec`, `Kanban.WithoutAt` and `Kanban.WithoutAbsent` |
| Kanban.PatchCards | src/App.js:87-89 | definition of `cards.map(card => card.id === cardId ? { ...card, ...patch } : card)`; its laws are `Properties.PatchCardsAt` and `Properties.PatchCardsAbsent` |
| Kanban.ListCardsDistinct | src/App.js:15 | on a well-formed board, the cards of every single list have distinct ids |
| Operations.AddList | src/App.js:26-29 | definition of addList; its law is `Properties.AddListSpec` |
| Operations.RemoveList | src/App.js:31-33 | definition of removeList; its laws are `Properties.RemoveListKeeps`, `Properties.RemoveListOnly`, `Properties.RemoveListAt`, `Properties.RemoveListUnknown` and `Properties.RemoveListKeepsWellFormed` |
| Operations.NewCard | src/App.js:41 | definition of the new card `{ id, title, description: "", dueDate: "" }`; `Properties.AddCardAt` states what it appends |
| Operations.AddCard | src/App.js:35-46 | definition of addCard; its laws are `Properties.AddCardAt` and `Properties.AddCardNoop` |
| Operations.MoveCard | src/App.js:48-65 | definition of moveCard; its laws are `Properties.MoveCardAcross`, `Properties.MoveCardWithin`, `Properties.MoveCardNoDestination`, `Properties.MoveCardAbsent`, `Properties.MoveCardIdempotent` and `Properties.MoveCardKeepsWellFormed`, and `Moves.MoveCard` computes it step by step |
| Operations.MoveList | src/App.js:67-72 | definition of moveList; its laws are `Properties.MoveListSpec`, `Properties.MoveListUndo` and `Properties.MoveListKeepsWellFormed`, and `Moves.MoveList` computes it on an array |
| Operations.UpdateListTitle | src/App.js:74-80 | definition of updateListTitle; its laws are `Properties.UpdateListTitleAt` and `Properties.UpdateListTitleAbsent` |
| Operations.UpdateCard | src/App.js:81-94 | definition of updateCard; its laws are `Properties.UpdateCardAt`, `Properties.UpdateCardAbsent` and `Properties.UpdateCardKeepsIds` |
| Operations.CommitTitle | src/App.js:148-155 | definition of handleTitleBlur's effect on the board and the editor text; its laws are `Properties.CommitTitleCases` and `Properties.CommitTitleNeverBlanks` |
| Operations.CardToMove | src/App.js:49-53 | the captured card, if any, has the requested id and lies in a list carrying the source id |
| Operations.RemoveAt | src/App.js:69 | `splice(i, 1)` shortens by one: the elements before `i` stay in place and those after it move one to the left |
| Operations.InsertAt | src/App.js:70 | `splice(i, 0, x)` lengthens by one and puts `x` at `i`: the elements before `i` stay in place and the rest move one to the right |
| Operations.TrimStart | src/App.js:149 | leading trim: a suffix, every removed character is white space, and the result does not start with white space |
| Operations.TrimEnd | src/App.js:149 | trailing trim: a prefix, every removed character is white space, and the result does not end with white space |
| Operations.Trim | src/App.js:149 | `trim()` is the slice of the text outside which there is only white space; it is empty exactly when the text is all white space, and otherwise neither starts nor ends with white space |
| Moves.MoveCard | src/App.js:48-65 | the loop with the captured `cardToMove`, then the conditional second pass, computes `Operations.MoveCard` |
| Moves.MoveList | src/App.js:67-72 | the array copy and its two splices compute `Operations.MoveList` |
| Moves.SpliceOut | src/App.js:69 | shifting the tail left over the live prefix gives that prefix without element `i` |
| Moves.SpliceIn | src/App.js:70 | shifting the tail right and storing `x` gives the live prefix with `x` inserted at `i` |
| Properties.AddListSpec | src/App.js:26-29 | a non-empty title gives the old lists followed by exactly one new empty list with that id and title; an empty title changes nothing; a fresh id keeps the board well-formed with the same cards |
| Properties.RemoveListKeeps | src/App.js:31-33 | the result holds exactly the lists whose id differs, none more often than before |
| Properties.RemoveListOnly | src/App.js:31-33 | when only position `k` carries the id, exactly that list is removed |
| Properties.RemoveListAt | src/App.js:31-33 | on distinct list ids, the other lists keep their order; exactly the removed list's cards leave the board, and the card count drops by its card count |
| Properties.RemoveListUnknown | src/App.js:31-33 | an id no list carries leaves the board unchanged |
| Properties.RemoveListKeepsWellFormed | src/App.js:31-33 | removing lists keeps list ids and card ids distinct and apart from each other |
| Properties.AddCardAt | src/App.js:35-46 | a non-empty title on an existing list appends exactly one card `{id, title, "", ""}` to that list and touches no other list; the card count grows by one, and a fresh id keeps the board well-formed |
| Properties.AddCardNoop | src/App.js:35-46 | an empty title or a list id that names no list leaves the board unchanged |
| Properties.CardToMoveOnly | src/App.js:49-53 | when one list carries the source id, the captured card is what `find` returns in that list |
| Properties.CardToMoveNone | src/App.js:49-53 | when no list carries the source id, nothing is captured |
| Properties.FindAt | src/App.js:52 | on distinct card ids, `find` returns the one card with that id |
| Properties.DroppedCardGone | src/App.js:53 | on distinct card ids, removing a card removes its id from the list |
| Properties.MoveCardFirstPass | src/App.js:49-56 | on a well-formed board, the first pass captures the card and removes exactly it from its list |
| Properties.MoveCardShape | src/App.js:48-65 | on a well-formed board, a move to an existing list removes the card from its source and appends it to the destination |
| Properties.MoveCardAcross | src/App.js:48-65 | between two different existing lists, the card becomes the destination's last card; the other lists and the list order stay; the board keeps the same multiset of cards and the same count, and stays well-formed |
| Properties.MoveCardWithin | src/App.js:48-65 | with source equal to destination, the card moves to the end of its list; the list keeps its length and multiset of cards; the card's id occurs once |
| Properties.MoveCardNoDestination | src/App.js:48-65 | with an unknown destination, the card leaves its source list and is appended nowhere, so the count drops by one |
| Properties.MoveCardAbsent | src/App.js:58-64 | when the source list does not hold the card, the board is unchanged |
| Properties.MoveCardGone | src/App.js:48-65 | once the card has left its source list, moving it out of that list again changes nothing |
| Properties.MoveCardIdempotent | src/App.js:48-65 | repeating a move with the same arguments changes nothing more |
| Properties.MoveCardIdempotentWithin | src/App.js:48-65 | a card moved to the end of its own list stays there when moved again |
| Properties.TransferKeepsWellFormed | src/App.js:53-61 | removing a card from one list and appending it to a list keeps a well-formed board well-formed |
| Properties.CardOnceOnBoard | src/App.js:15 | on a well-formed board, every card's id occurs exactly once among the card ids |
| Properties.MoveCardKeepsWellFormed | src/App.js:48-65 | every move, whatever its arguments, keeps a well-formed board well-formed |
| Properties.AppendCounts | src/App.js:41 | appending a card to one list adds exactly that card and its id to the board, and leaves the list ids alone |
| Properties.DropCounts | src/App.js:53 | removing a card from one list removes exactly that card and its id from the board |
| Properties.TransferCounts | src/App.js:53-61 | removing a card and appending it elsewhere leaves the board with the same cards and card ids |
| Properties.RemoveAtMultiset | src/App.js:69 | `splice(i, 1)` takes out exactly the element at `i`, as a multiset |
| Properties.InsertAtMultiset | src/App.js:70 | `splice(i, 0, x)` adds exactly `x`, as a multiset |
| Properties.RemoveInsert | src/App.js:69-70 | removing what was just inserted at the same index gives back the sequence |
| Properties.InsertRemove | src/App.js:69-70 | inserting back what was just removed at the same index gives back the sequence |
| Properties.MoveListSpec | src/App.js:67-72 | the result has the same length; the moved list is at `toIndex`; the other lists keep their relative order (the result without `toIndex` is the board without `fromIndex`); it is a permutation; equal indices change nothing |
| Properties.MoveListUndo | src/App.js:67-72 | moving the list back from `toIndex` to `fromIndex` restores the board |
| Properties.MoveListKeepsWellFormed | src/App.js:67-72 | list ids and cards are the same multisets, so the card count is unchanged and the board stays well-formed |
| Properties.UpdateListTitleAt | src/App.js:74-80 | exactly the targeted list gets the new title; the cards stay and the board stays well-formed |
| Properties.UpdateListTitleAbsent | src/App.js:74-80 | an id no list carries leaves the board unchanged |
| Properties.TrimIdempotent | src/App.js:149 | trimming twice is trimming once |
| Properties.TrimFixed | src/App.js:149 | a text with no white space at either end is its own trim |
| Properties.CommitTitleCases | src/App.js:148-155 | a white-space-only edit leaves the board unchanged and the editor reverts to the list's title; any other edit goes, untrimmed, to updateListTitle |
| Properties.CommitTitleNeverBlanks | src/App.js:148-155 | a title commit never turns a list title with text into a blank one; the cards stay and the board stays well-formed |
| Properties.PatchCardsAt | src/App.js:87-89 | on distinct card ids, the card map rewrites exactly the card with the id |
| Properties.PatchCardsAbsent | src/App.js:87-89 | an id no card has leaves the cards unchanged |
| Properties.UpdateCardAt | src/App.js:81-94 | on a well-formed board, exactly the one card in the one list is patched; every other card and list stays |
| Properties.UpdateCardAbsent | src/App.js:81-94 | a list that does not hold the card, or an unknown list, leaves the board unchanged |
| Properties.UpdateCardKeepsIds | src/App.js:81-94 | list ids, card ids (in order) and the card count never change, so well-formedness is kept |
| Properties.CountIds | src/App.js:15 | a board has exactly as many card ids as cards |
| Store.BoardStore.constructor | src/App.js:15 | the board starts empty and valid |
| Store.BoardStore.AddList | src/App.js:26-29 | the new board is `AddList` of the old one, and it stays valid |
| Store.BoardStore.RemoveList | src/App.js:31-33 | the new board is `RemoveList` of the old one, and it stays valid |
| Store.BoardStore.AddCard | src/App.js:35-46 | the new board is `AddCard` of the old one, and it stays valid |
| Store.BoardStore.MoveCard | src/App.js:48-65 | the new board is `MoveCard` of the old one, computed by the step-by-step method, and it stays valid |
| Store.BoardStore.DropCardOn | src/App.js:136-141 | a card dropped on its own list is not moved; otherwise it is moved to the list it was dropped on |
| Store.BoardStore.MoveList | src/App.js:67-72 | the new board is `MoveList` of the old one, computed on an array, and it stays valid |
| Store.BoardStore.UpdateListTitle | src/App.js:74-80 | the new board is `UpdateListTitle` of the old one, and it stays valid |
| Store.BoardStore.UpdateCard | src/App.js:81-94 | the new board is `UpdateCard` of the old one, and it stays valid |
| Store.BoardStore.Reset | src/App.js:102 | the board becomes empty, which is valid |
| Store.BoardStore.CommitTitle | src/App.js:148-155 | the board and the editor's text are what `CommitTitle` prescribes, and the board stays valid |

## Left out

- Persistence is not modelled. `localStorage` and the JSON round trip (src/App.js:17-24) are browser storage and a foreign serialiser. `src/context/BoardContext.js` is not part of this model.
- The React machinery is not modelled: hooks, rendering, the modal and editing state of the components, icons and CSS. This includes `setIsEditing(false)` at the end of the title commit, which is UI state only.
- The drag-and-drop wiring is not modelled, apart from the one decision the drop handler makes (`Store.BoardStore.DropCardOn`). The wiring is gesture plumbing with no logic of its own.
- `prompt()` and `uuidv4()` are not modelled. Their results are parameters.
- Store.BoardStore.AddList: requires a fresh id. The source relies on `uuidv4()` for this and never checks it.
- Store.BoardStore.AddCard: requires a fresh id, for the same reason.
- Operations.AddCard: takes one fresh id, which stands for one `uuidv4()` call. The source calls `uuidv4()` once per list that carries `listId` (src/App.js:39-41), so on a board where several lists carry that id it appends cards with different ids, while the model gives them all the same id. The model agrees with the source when at most one list carries `listId`, which `Valid()` guarantees for the store.
- Store.BoardStore.MoveList: requires both indices to be valid positions. JavaScript's `splice` with negative or out-of-range indices is not modelled.
- Properties.MoveCardAcross: assumes a well-formed board (distinct ids). With duplicate ids the source captures the card from the last matching list but filters every match. `Operations.MoveCard` models that case as written, but no count law is stated for it.
- Properties.UpdateCardAt: assumes a well-formed board. With duplicate card ids, `Operations.UpdateCard` patches every matching card, as the source does.
- The card edit cannot carry an `id`. The card dialog only ever passes title, description and due date, so `Patch` has just those three fields.
- The commented-out earlier copy of the component (src/App.js:256-489) is dead code.
