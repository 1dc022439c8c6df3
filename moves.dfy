/**
  The two operations of the store that compute their new board step by step:
  moveCard, whose first pass assigns the captured variable `cardToMove` from
  inside its `map` callback (src/App.js:48-65), and moveList, which copies the
  array and edits the copy in place with two `splice` calls
  (src/App.js:67-72).  Each is proved to compute the function of the same
  name in Operations.
*/
module Moves {
  import opened Wrappers
  import opened Kanban
  import Operations

  /** moveCard: one pass that strips the card and remembers it, then the append. */
  method MoveCard(lists: Board, cardId: Id, fromListId: Id, toListId: Id) returns (r: Board)
    ensures r == Operations.MoveCard(lists, cardId, fromListId, toListId)
  {
    var cardToMove: Option<Card> := None;
    var updatedLists: Board := [];
    var i := 0;
    while i < |lists|
      invariant 0 <= i <= |lists|
      invariant cardToMove == Operations.CardToMove(lists[..i], fromListId, cardId)
      invariant updatedLists == MapWhere(lists[..i], fromListId, DropCard(cardId))
    {
      var list := lists[i];
      if list.id == fromListId {
        cardToMove := Find(list.cards, cardId);
        updatedLists := updatedLists + [list.(cards := Without(list.cards, cardId))];
      } else {
        updatedLists := updatedLists + [list];
      }
      assert lists[..i + 1][..i] == lists[..i];
      i := i + 1;
    }
    assert lists[..i] == lists;
    if cardToMove.Some? {
      r := MapWhere(updatedLists, toListId, AppendCard(cardToMove.value));
    } else {
      r := lists;
    }
  }

  /**
    moveList: `[...lists]`, then `splice(fromIndex, 1)` takes the moved list
    out and `splice(toIndex, 0, movedList)` puts it back.  The copy is an
    array of fixed length: between the two splices its last slot is not part
    of the JavaScript array.
  */
  method MoveList(lists: Board, fromIndex: int, toIndex: int) returns (r: Board)
    requires 0 <= fromIndex < |lists| && 0 <= toIndex < |lists|
    ensures r == Operations.MoveList(lists, fromIndex, toIndex)
  {
    var n := |lists|;
    var a := new List[n](k requires 0 <= k < n => lists[k]);
    assert a[..n] == lists;
    var movedList := a[fromIndex];
    SpliceOut(a, n, fromIndex);
    SpliceIn(a, n - 1, toIndex, movedList);
    assert a[..] == a[..n];
    r := a[..];
  }

  /** `a.splice(i, 1)` on the live prefix `a[..len]`: the tail moves left by one. */
  method SpliceOut(a: array<List>, len: int, i: int)
    requires 0 <= i < len <= a.Length
    modifies a
    ensures a[..len - 1] == Operations.RemoveAt(old(a[..len]), i)
  {
    ghost var s := a[..len];
    var k := i;
    while k < len - 1
      invariant i <= k <= len - 1
      invariant forall t :: 0 <= t < i ==> a[t] == s[t]
      invariant forall t :: i <= t < k ==> a[t] == s[t + 1]
      invariant forall t :: k <= t < len ==> a[t] == s[t]
    {
      assert a[k + 1] == s[k + 1];
      a[k] := a[k + 1];
      k := k + 1;
    }
    ghost var out := Operations.RemoveAt(s, i);
    forall t | 0 <= t < len - 1
      ensures a[..len - 1][t] == out[t]
    {
    }
    assert a[..len - 1] == out;
  }

  /** `a.splice(i, 0, x)` on the live prefix `a[..len]`: the tail from `i` moves right by one. */
  method SpliceIn(a: array<List>, len: int, i: int, x: List)
    requires 0 <= i <= len < a.Length
    modifies a
    ensures a[..len + 1] == Operations.InsertAt(old(a[..len]), i, x)
  {
    ghost var s := a[..len];
    var k := len;
    while k > i
      invariant i <= k <= len
      invariant forall t :: 0 <= t < k ==> a[t] == s[t]
      invariant forall t :: k < t <= len ==> a[t] == s[t - 1]
    {
      assert a[k - 1] == s[k - 1];
      a[k] := a[k - 1];
      k := k - 1;
    }
    a[i] := x;
    ghost var into := Operations.InsertAt(s, i, x);
    forall t | 0 <= t <= len
      ensures a[..len + 1][t] == into[t]
    {
    }
    assert a[..len + 1] == into;
  }
}
