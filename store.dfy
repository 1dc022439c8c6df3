/**
  The board store itself: the component state cell `lists` (src/App.js:15)
  as a field that every operation replaces, as `setLists` does.  Each method
  computes the new board with the function of the same name in Operations
  (moveCard and moveList with the step-by-step methods of Moves) and keeps
  the board well-formed: list ids distinct, card ids distinct across the
  board, and no list sharing its id with a card.
*/
module Store {
  import opened Kanban
  import Operations
  import Moves
  import opened Properties

  class BoardStore {
    /** The lists of the board, in display order. */
    var lists: Board

    /** List ids and card ids are distinct across the whole board, and apart from each other. */
    ghost predicate Valid()
      reads this
    {
      WellFormed(lists)
    }

    /** `useState([])`: the board starts empty. */
    constructor()
      ensures lists == [] && Valid()
    {
      lists := [];
    }

    /** addList, with the prompted title and a fresh id as parameters. */
    method AddList(title: string, freshId: Id)
      requires Valid() && Fresh(lists, freshId)
      modifies this
      ensures lists == Operations.AddList(old(lists), title, freshId)
      ensures Valid()
    {
      AddListSpec(lists, title, freshId);
      lists := Operations.AddList(lists, title, freshId);
    }

    /** removeList. */
    method RemoveList(listId: Id)
      requires Valid()
      modifies this
      ensures lists == Operations.RemoveList(old(lists), listId)
      ensures Valid()
    {
      RemoveListKeepsWellFormed(lists, listId);
      lists := Operations.RemoveList(lists, listId);
    }

    /** addCard, with the prompted title and a fresh id as parameters. */
    method AddCard(listId: Id, title: string, freshId: Id)
      requires Valid() && Fresh(lists, freshId)
      modifies this
      ensures lists == Operations.AddCard(old(lists), listId, title, freshId)
      ensures Valid()
    {
      if title != "" && listId in ListIds(lists) {
        var k :| 0 <= k < |lists| && ListIds(lists)[k] == listId;
        AddCardAt(lists, k, title, freshId);
      } else {
        AddCardNoop(lists, listId, title, freshId);
      }
      lists := Operations.AddCard(lists, listId, title, freshId);
    }

    /** moveCard; when no card is found the board is left as it is. */
    method MoveCard(cardId: Id, fromListId: Id, toListId: Id)
      requires Valid()
      modifies this
      ensures lists == Operations.MoveCard(old(lists), cardId, fromListId, toListId)
      ensures Valid()
    {
      MoveCardKeepsWellFormed(lists, cardId, fromListId, toListId);
      lists := Moves.MoveCard(lists, cardId, fromListId, toListId);
    }

    /**
      The drop handler of a list (src/App.js:136-141): a card dropped on the
      list it came from is not moved; otherwise it moves to this list.
    */
    method DropCardOn(cardId: Id, fromListId: Id, listId: Id)
      requires Valid()
      modifies this
      ensures fromListId == listId ==> lists == old(lists)
      ensures fromListId != listId ==> lists == Operations.MoveCard(old(lists), cardId, fromListId, listId)
      ensures Valid()
    {
      if fromListId != listId {
        MoveCard(cardId, fromListId, listId);
      }
    }

    /** moveList, for two valid positions. */
    method MoveList(fromIndex: int, toIndex: int)
      requires Valid() && 0 <= fromIndex < |lists| && 0 <= toIndex < |lists|
      modifies this
      ensures lists == Operations.MoveList(old(lists), fromIndex, toIndex)
      ensures Valid()
    {
      MoveListKeepsWellFormed(lists, fromIndex, toIndex);
      lists := Moves.MoveList(lists, fromIndex, toIndex);
    }

    /** updateListTitle. */
    method UpdateListTitle(listId: Id, newTitle: string)
      requires Valid()
      modifies this
      ensures lists == Operations.UpdateListTitle(old(lists), listId, newTitle)
      ensures Valid()
    {
      if listId in ListIds(lists) {
        var k :| 0 <= k < |lists| && ListIds(lists)[k] == listId;
        UpdateListTitleAt(lists, k, newTitle);
      } else {
        UpdateListTitleAbsent(lists, listId, newTitle);
      }
      lists := Operations.UpdateListTitle(lists, listId, newTitle);
    }

    /** updateCard, with the edited fields as a patch. */
    method UpdateCard(listId: Id, cardId: Id, p: Patch)
      requires Valid()
      modifies this
      ensures lists == Operations.UpdateCard(old(lists), listId, cardId, p)
      ensures Valid()
    {
      UpdateCardKeepsIds(lists, listId, cardId, p);
      lists := Operations.UpdateCard(lists, listId, cardId, p);
    }

    /** The reset button: `setLists([])`. */
    method Reset()
      modifies this
      ensures lists == [] && Valid()
    {
      lists := [];
    }

    /**
      handleTitleBlur on the header of list `l`, whose editor holds `edited`:
      returns what the editor holds afterwards.
    */
    method CommitTitle(l: List, edited: string) returns (editedTitle: string)
      requires Valid()
      modifies this
      ensures Operations.TitleCommit(lists, editedTitle) == Operations.CommitTitle(old(lists), l, edited)
      ensures Valid()
    {
      CommitTitleNeverBlanks(lists, l, edited);
      if Operations.Trim(edited) == "" {
        editedTitle := l.title;
      } else {
        UpdateListTitle(l.id, edited);
        editedTitle := edited;
      }
    }
  }
}
