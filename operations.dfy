/**
  The store's operations as functions from the old value of `lists` to the
  new one (src/App.js:26-94), and the title-commit policy of a list's header
  (src/App.js:148-155).  Input that the source obtains from prompt() and ids
  it obtains from uuidv4() are parameters here.
*/
module Operations {
  import opened Wrappers
  import opened Kanban

  // ---------------------------------------------------------------------
  // Lists
  // ---------------------------------------------------------------------

  /**
    addList: a non-empty title appends a new empty list; an empty title (the
    prompt was cancelled or left blank) leaves the board as it is.
  */
  function AddList(b: Board, title: string, freshId: Id): Board {
    if title != "" then b + [List(freshId, title, [])] else b
  }

  /** removeList: keep the lists whose id differs from `listId`, in order. */
  function RemoveList(b: Board, listId: Id): Board {
    if b == [] then []
    else if b[0].id == listId then RemoveList(b[1..], listId)
    else [b[0]] + RemoveList(b[1..], listId)
  }

  /** updateListTitle: the list carrying `listId` gets `newTitle`. */
  function UpdateListTitle(b: Board, listId: Id, newTitle: string): Board {
    MapWhere(b, listId, Retitle(newTitle))
  }

  // ---------------------------------------------------------------------
  // Cards
  // ---------------------------------------------------------------------

  /** A card as addCard creates it: empty description, empty due date. */
  function NewCard(id: Id, title: string): Card {
    Card(id, title, "", "")
  }

  /**
    addCard: a non-empty title appends a new card to the list carrying
    `listId`; an empty title changes nothing.
  */
  function AddCard(b: Board, listId: Id, title: string, freshId: Id): Board {
    if title != "" then MapWhere(b, listId, AppendCard(NewCard(freshId, title))) else b
  }

  /** updateCard: patch the card `cardId` inside the list `listId`. */
  function UpdateCard(b: Board, listId: Id, cardId: Id, p: Patch): Board {
    MapWhere(b, listId, PatchCard(cardId, p))
  }

  /**
    The value `cardToMove` holds after moveCard's first pass: the first pass
    assigns it in every list whose id is `fromListId`, so the LAST such list
    decides, and within it `find` picks the first card with id `cardId`.
  */
  function CardToMove(b: Board, fromListId: Id, cardId: Id): (r: Option<Card>)
    ensures r.Some? ==> r.value.id == cardId
    ensures r.Some? ==> exists k :: 0 <= k < |b| && b[k].id == fromListId && r.value in b[k].cards
  {
    if b == [] then None
    else
      var last := |b| - 1;
      if b[last].id == fromListId then Find(b[last].cards, cardId)
      else
        var r := CardToMove(b[..last], fromListId, cardId);
        if r.Some? then
          var k :| 0 <= k < last && b[..last][k].id == fromListId && r.value in b[..last][k].cards;
          assert b[k] == b[..last][k];
          r
        else r
  }

  /**
    moveCard: take the card out of the source list and append it to the
    destination list.  There is no target index: the card always becomes the
    last card of the destination.  When no card was found, `setLists` is not
    called and the board stays as it was.
  */
  function MoveCard(b: Board, cardId: Id, fromListId: Id, toListId: Id): Board {
    match CardToMove(b, fromListId, cardId)
    case None => b
    case Some(c) => MapWhere(MapWhere(b, fromListId, DropCard(cardId)), toListId, AppendCard(c))
  }

  // ---------------------------------------------------------------------
  // moveList
  // ---------------------------------------------------------------------

  /** `s.splice(i, 1)` on a copy: the sequence without its element `i`. */
  function RemoveAt<T>(s: seq<T>, i: int): (r: seq<T>)
    requires 0 <= i < |s|
    ensures |r| == |s| - 1
    ensures forall t :: 0 <= t < |r| ==> r[t] == if t < i then s[t] else s[t + 1]
  {
    s[..i] + s[i + 1..]
  }

  /** `s.splice(i, 0, x)`: `x` inserted so that it lands at position `i`. */
  function InsertAt<T>(s: seq<T>, i: int, x: T): (r: seq<T>)
    requires 0 <= i <= |s|
    ensures |r| == |s| + 1 && r[i] == x
    ensures forall t :: 0 <= t < |r| && t != i ==> r[t] == if t < i then s[t] else s[t - 1]
  {
    s[..i] + [x] + s[i..]
  }

  /** moveList: lift out the list at `fromIndex`, put it back at `toIndex`. */
  function MoveList(b: Board, fromIndex: int, toIndex: int): Board
    requires 0 <= fromIndex < |b| && 0 <= toIndex < |b|
  {
    InsertAt(RemoveAt(b, fromIndex), toIndex, b[fromIndex])
  }

  // ---------------------------------------------------------------------
  // The title commit of a list header
  // ---------------------------------------------------------------------

  /**
    The characters String.prototype.trim removes: ECMAScript's WhiteSpace
    (tab, vertical tab, form feed, space, no-break space, the byte order mark
    and the Unicode space separators) and LineTerminator (line feed, carriage
    return, line and paragraph separators).
  */
  predicate IsSpace(ch: char) {
    ch == '\t' || ch == '\n' || ch == '\U{B}' || ch == '\U{C}' || ch == '\r' || ch == ' '
    || ch == '\U{A0}' || ch == '\U{1680}' || '\U{2000}' <= ch <= '\U{200A}'
    || ch == '\U{2028}' || ch == '\U{2029}' || ch == '\U{202F}' || ch == '\U{205F}'
    || ch == '\U{3000}' || ch == '\U{FEFF}'
  }

  /** `s` with its leading white space removed: a suffix of `s`. */
  function TrimStart(s: string): (r: string)
    ensures |r| <= |s| && r == s[|s| - |r|..]
    ensures forall i :: 0 <= i < |s| - |r| ==> IsSpace(s[i])
    ensures r == [] || !IsSpace(r[0])
  {
    if s != [] && IsSpace(s[0]) then TrimStart(s[1..]) else s
  }

  /** `s` with its trailing white space removed: a prefix of `s`. */
  function TrimEnd(s: string): (r: string)
    ensures |r| <= |s| && r == s[..|r|]
    ensures forall i :: |r| <= i < |s| ==> IsSpace(s[i])
    ensures r == [] || !IsSpace(r[|r| - 1])
  {
    if s != [] && IsSpace(s[|s| - 1]) then TrimEnd(s[..|s| - 1]) else s
  }

  /** `s` holds white space only (the empty string included). */
  predicate Blank(s: string) {
    forall i :: 0 <= i < |s| ==> IsSpace(s[i])
  }

  /** `r` is a slice of `s` outside which `s` holds only white space. */
  predicate CutsSpaceOnly(s: string, r: string) {
    exists a, z ::
      && 0 <= a <= z <= |s| && r == s[a..z]
      && (forall i :: 0 <= i < a ==> IsSpace(s[i]))
      && (forall i :: z <= i < |s| ==> IsSpace(s[i]))
  }

  /**
    Cutting white space off the front of `s` (leaving `t`) and then off the
    back of `t` (leaving `r`) leaves the middle slice of `s`, with only white
    space outside it; it is empty exactly when `s` is white space only.
  */
  lemma MiddleSlice(s: string, t: string, r: string)
    requires |t| <= |s| && t == s[|s| - |t|..]
    requires forall i :: 0 <= i < |s| - |t| ==> IsSpace(s[i])
    requires t == [] || !IsSpace(t[0])
    requires |r| <= |t| && r == t[..|r|]
    requires forall i :: |r| <= i < |t| ==> IsSpace(t[i])
    requires r == [] || !IsSpace(r[|r| - 1])
    ensures CutsSpaceOnly(s, r)
    ensures r == "" <==> Blank(s)
    ensures r != "" ==> !IsSpace(r[0]) && !IsSpace(r[|r| - 1])
  {
    var a := |s| - |t|;
    forall i | a + |r| <= i < |s| ensures IsSpace(s[i]) {
      assert s[i] == t[i - a];
    }
    assert r == s[a..a + |r|];
    if t != [] {
      assert s[a] == t[0];
    }
    if r != [] {
      assert r[0] == t[0];
    }
  }

  /**
    String.prototype.trim: the result is the slice of `s` left once the white
    space at both ends is cut off; it is empty exactly when `s` is white
    space only, and otherwise neither starts nor ends with white space.
  */
  function Trim(s: string): (r: string)
    ensures CutsSpaceOnly(s, r)
    ensures r == "" <==> Blank(s)
    ensures r != "" ==> !IsSpace(r[0]) && !IsSpace(r[|r| - 1])
  {
    MiddleSlice(s, TrimStart(s), TrimEnd(TrimStart(s)));
    TrimEnd(TrimStart(s))
  }

  /** What handleTitleBlur leaves behind: the board and the editor's text. */
  datatype TitleCommit = TitleCommit(lists: Board, editedTitle: string)

  /**
    handleTitleBlur for the header of list `l`: a title that trims to nothing
    is discarded (the editor reverts to the list's title and the store is not
    called); any other title, untrimmed, goes to updateListTitle.
  */
  function CommitTitle(b: Board, l: List, edited: string): TitleCommit {
    if Trim(edited) == "" then TitleCommit(b, l.title)
    else TitleCommit(UpdateListTitle(b, l.id, edited), edited)
  }
}
