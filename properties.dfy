/**
  What the store's operations promise, proved about the functions of
  Operations: which lists and cards each one touches, that every other list
  and card stays as it was, that moves neither lose nor duplicate cards, and
  that ids stay distinct across the board when new ids are fresh.
*/
module Properties {
  import opened Wrappers
  import opened Kanban
  import opened Operations

  // ---------------------------------------------------------------------
  // Helpers: ids and flattening under the splice shapes
  // ---------------------------------------------------------------------

  lemma ListIdsConcat(a: Board, c: Board)
    ensures ListIds(a + c) == ListIds(a) + ListIds(c)
  {
    assert forall i :: 0 <= i < |a + c| ==> ListIds(a + c)[i] == (ListIds(a) + ListIds(c))[i];
  }

  lemma IdsRemoveAt(cs: seq<Card>, j: int)
    requires 0 <= j < |cs|
    ensures Ids(RemoveAt(cs, j)) == RemoveAt(Ids(cs), j)
  {
    assert forall i :: 0 <= i < |cs| - 1 ==> Ids(RemoveAt(cs, j))[i] == RemoveAt(Ids(cs), j)[i];
  }

  lemma ListIdsRemoveAt(b: Board, k: int)
    requires 0 <= k < |b|
    ensures ListIds(RemoveAt(b, k)) == RemoveAt(ListIds(b), k)
  {
    assert forall i :: 0 <= i < |b| - 1 ==> ListIds(RemoveAt(b, k))[i] == RemoveAt(ListIds(b), k)[i];
  }

  lemma ListIdsInsertAt(b: Board, k: int, l: List)
    requires 0 <= k <= |b|
    ensures ListIds(InsertAt(b, k, l)) == InsertAt(ListIds(b), k, l.id)
  {
    assert forall i :: 0 <= i <= |b| ==> ListIds(InsertAt(b, k, l))[i] == InsertAt(ListIds(b), k, l.id)[i];
  }

  lemma FlattenRemoveAt<T>(b: Board, k: int, part: List -> seq<T>)
    requires 0 <= k < |b|
    ensures Flatten(RemoveAt(b, k), part) == Flatten(b[..k], part) + Flatten(b[k + 1..], part)
    ensures multiset(Flatten(RemoveAt(b, k), part)) + multiset(part(b[k])) == multiset(Flatten(b, part))
  {
    FlattenConcat(b[..k], b[k + 1..], part);
    FlattenSplit(b, k, part);
  }

  lemma FlattenInsertAt<T>(b: Board, k: int, l: List, part: List -> seq<T>)
    requires 0 <= k <= |b|
    ensures multiset(Flatten(InsertAt(b, k, l), part)) == multiset(Flatten(b, part)) + multiset(part(l))
  {
    FlattenInsertAtSeq(b, k, l, part);
    FlattenCut(b, k, part);
    MultisetMiddle(Flatten(b[..k], part), part(l), Flatten(b[k..], part));
  }

  /** The flattening of a board cut in two at `k`. */
  lemma FlattenCut<T>(b: Board, k: int, part: List -> seq<T>)
    requires 0 <= k <= |b|
    ensures Flatten(b, part) == Flatten(b[..k], part) + Flatten(b[k..], part)
  {
    assert b == b[..k] + b[k..];
    FlattenConcat(b[..k], b[k..], part);
  }

  /** A piece in the middle of a sequence counts like a piece at its end. */
  lemma MultisetMiddle<T>(f: seq<T>, p: seq<T>, g: seq<T>)
    ensures multiset(f + p + g) == multiset(f + g) + multiset(p)
  {
    forall y ensures multiset(f + p + g)[y] == (multiset(f + g) + multiset(p))[y] {
      assert multiset(f + p + g) == multiset(f) + multiset(p) + multiset(g);
      assert multiset(f + g) == multiset(f) + multiset(g);
    }
  }

  lemma FlattenInsertAtSeq<T>(b: Board, k: int, l: List, part: List -> seq<T>)
    requires 0 <= k <= |b|
    ensures Flatten(InsertAt(b, k, l), part) == Flatten(b[..k], part) + part(l) + Flatten(b[k..], part)
  {
    var pre, post := b[..k], b[k..];
    assert InsertAt(b, k, l) == pre + ([l] + post);
    FlattenConcat(pre, [l] + post, part);
    assert ([l] + post)[1..] == post;
  }

  /** With distinct list ids, list `k` is the only list carrying its id. */
  lemma OnlyListWith(b: Board, k: int)
    requires Distinct(ListIds(b)) && 0 <= k < |b|
    ensures forall i :: 0 <= i < |b| && i != k ==> b[i].id != b[k].id
  {
    forall i | 0 <= i < |b| && i != k ensures b[i].id != b[k].id {
      if b[i].id == b[k].id {
        DistinctAt(ListIds(b), i, k);
      }
    }
  }

  /** A part that grew by `x` makes the whole grow by `x`. */
  lemma CancelGain<T>(a: multiset<T>, b: multiset<T>, p: multiset<T>, x: multiset<T>)
    requires a + p == b + (p + x)
    ensures a == b + x
  {
    forall y ensures a[y] == (b + x)[y] {
      assert (a + p)[y] == (b + (p + x))[y];
    }
  }

  /** A part that shrank by `x` makes the whole shrink by `x`. */
  lemma CancelLoss<T>(a: multiset<T>, b: multiset<T>, q: multiset<T>, x: multiset<T>)
    requires a + (q + x) == b + q
    ensures a + x == b
  {
    forall y ensures (a + x)[y] == b[y] {
      assert (a + (q + x))[y] == (b + q)[y];
    }
  }

  /** `splice(i, 1)` takes out exactly the element at `i`. */
  lemma RemoveAtMultiset<T>(s: seq<T>, i: int)
    requires 0 <= i < |s|
    ensures multiset(RemoveAt(s, i)) + multiset{s[i]} == multiset(s)
  {
    assert s == s[..i] + [s[i]] + s[i + 1..];
  }

  /** `splice(i, 0, x)` adds exactly `x`. */
  lemma InsertAtMultiset<T>(s: seq<T>, i: int, x: T)
    requires 0 <= i <= |s|
    ensures multiset(InsertAt(s, i, x)) == multiset(s) + multiset{x}
  {
    assert s == s[..i] + s[i..];
  }

  /** A list whose part grew by `x` makes the board's flattening grow by `x`. */
  lemma GainPart<T>(b: Board, k: int, l: List, part: List -> seq<T>, x: multiset<T>)
    requires 0 <= k < |b| && multiset(part(l)) == multiset(part(b[k])) + x
    ensures multiset(Flatten(b[k := l], part)) == multiset(Flatten(b, part)) + x
  {
    FlattenUpdate(b, k, l, part);
    CancelGain(multiset(Flatten(b[k := l], part)), multiset(Flatten(b, part)), multiset(part(b[k])), x);
  }

  /** A list whose part shrank by `x` makes the board's flattening shrink by `x`. */
  lemma LosePart<T>(b: Board, k: int, l: List, part: List -> seq<T>, x: multiset<T>)
    requires 0 <= k < |b| && multiset(part(l)) + x == multiset(part(b[k]))
    ensures multiset(Flatten(b[k := l], part)) + x == multiset(Flatten(b, part))
  {
    FlattenUpdate(b, k, l, part);
    CancelLoss(multiset(Flatten(b[k := l], part)), multiset(Flatten(b, part)), multiset(part(l)), x);
  }

  // ---------------------------------------------------------------------
  // addList (src/App.js:26-29)
  // ---------------------------------------------------------------------

  /**
    A non-empty title gives the old lists followed by exactly one new list
    with no cards; an empty title leaves the board unchanged.  With a fresh
    id the board stays well-formed, and no card appears or disappears.
  */
  lemma AddListSpec(b: Board, title: string, freshId: Id)
    requires WellFormed(b) && Fresh(b, freshId)
    ensures var r := AddList(b, title, freshId);
      && (title == "" ==> r == b)
      && (title != "" ==> |r| == |b| + 1 && r[..|b|] == b && r[|b|] == List(freshId, title, []))
      && WellFormed(r)
      && AllCards(r) == AllCards(b)
  {
    if title != "" {
      var l := List(freshId, title, []);
      ListIdsConcat(b, [l]);
      DistinctExtend(ListIds(b), ListIds(b + [l]), freshId);
      ApartAdd(ListIds(b), CardIds(b), ListIds(b + [l]), freshId);
      FlattenConcat(b, [l], CardIdsOf);
      FlattenConcat(b, [l], CardsOf);
      assert Flatten([l], CardIdsOf) == [] by {
        assert [l][1..] == [];
      }
      assert Flatten([l], CardsOf) == [] by {
        assert [l][1..] == [];
      }
    }
  }

  // ---------------------------------------------------------------------
  // removeList (src/App.js:31-33)
  // ---------------------------------------------------------------------

  /**
    removeList keeps exactly the lists whose id differs from `listId`, each
    no more often than before.
  */
  lemma {:induction false} RemoveListKeeps(b: Board, listId: Id)
    ensures forall l :: l in RemoveList(b, listId) <==> l in b && l.id != listId
    ensures multiset(RemoveList(b, listId)) <= multiset(b)
  {
    if b != [] {
      RemoveListKeeps(b[1..], listId);
      assert b == [b[0]] + b[1..];
    }
  }

  /** An id that names no list leaves the board unchanged. */
  lemma {:induction false} RemoveListUnknown(b: Board, listId: Id)
    requires listId !in ListIds(b)
    ensures RemoveList(b, listId) == b
  {
    if b != [] {
      assert ListIds(b) == [b[0].id] + ListIds(b[1..]);
      RemoveListUnknown(b[1..], listId);
      assert b == [b[0]] + b[1..];
    }
  }

  /** When only list `k` carries `listId`, removeList drops exactly that list. */
  lemma {:induction false} RemoveListOnly(b: Board, listId: Id, k: int)
    requires 0 <= k < |b| && b[k].id == listId
    requires forall i :: 0 <= i < |b| && i != k ==> b[i].id != listId
    ensures RemoveList(b, listId) == RemoveAt(b, k)
  {
    if k == 0 {
      var tail := b[1..];
      assert listId !in ListIds(tail) by {
        forall i | 0 <= i < |tail| ensures ListIds(tail)[i] != listId {
          assert tail[i] == b[i + 1];
        }
      }
      RemoveListUnknown(tail, listId);
      assert RemoveList(b, listId) == RemoveList(b[1..], listId);
      assert RemoveAt(b, 0) == b[1..];
    } else {
      RemoveListOnly(b[1..], listId, k - 1);
      assert b[1..][..k - 1] == b[1..k];
      assert b[1..][k..] == b[k + 1..];
      assert b[..k] == [b[0]] + b[1..k];
    }
  }

  /**
    On a board with distinct list ids, removing the list at position `k`
    keeps the other lists in their order and takes away exactly that list's
    cards, and no other card.
  */
  lemma RemoveListAt(b: Board, k: int)
    requires Distinct(ListIds(b)) && 0 <= k < |b|
    ensures var r := RemoveList(b, b[k].id);
      && r == b[..k] + b[k + 1..]
      && multiset(AllCards(r)) + multiset(b[k].cards) == multiset(AllCards(b))
      && CardCount(r) == CardCount(b) - |b[k].cards|
  {
    OnlyListWith(b, k);
    RemoveListOnly(b, b[k].id, k);
    FlattenRemoveAt(b, k, CardsOf);
    FlattenSplit(b, k, CardsOf);
  }

  /** removeList keeps a board well-formed. */
  lemma RemoveListKeepsWellFormed(b: Board, listId: Id)
    requires WellFormed(b)
    ensures WellFormed(RemoveList(b, listId))
  {
    if listId in ListIds(b) {
      var k :| 0 <= k < |b| && ListIds(b)[k] == listId;
      OnlyListWith(b, k);
      RemoveListOnly(b, listId, k);
      var r := RemoveAt(b, k);
      FlattenRemoveAt(b, k, CardIdsOf);
      ListIdsRemoveAt(b, k);
      RemoveAtMultiset(ListIds(b), k);
      DistinctSub(ListIds(b), ListIds(r));
      DistinctSub(CardIds(b), CardIds(r));
      ApartSub(ListIds(b), CardIds(b), ListIds(r), CardIds(r));
    } else {
      RemoveListUnknown(b, listId);
    }
  }

  // ---------------------------------------------------------------------
  // The two shapes addCard and moveCard produce, and their card bookkeeping
  // ---------------------------------------------------------------------

  /** Board `b` with card `c` appended to list `k`. */
  function Appended(b: Board, k: int, c: Card): Board
    requires 0 <= k < |b|
  {
    b[k := b[k].(cards := b[k].cards + [c])]
  }

  /** Board `b` with card `j` taken out of list `k`. */
  function Dropped(b: Board, k: int, j: int): Board
    requires 0 <= k < |b| && 0 <= j < |b[k].cards|
  {
    b[k := b[k].(cards := RemoveAt(b[k].cards, j))]
  }

  /** Appending card `c`: one card (and one card id) more, list ids as before. */
  lemma AppendCounts(b: Board, k: int, c: Card)
    requires 0 <= k < |b|
    ensures var r := Appended(b, k, c);
      && ListIds(r) == ListIds(b)
      && multiset(AllCards(r)) == multiset(AllCards(b)) + multiset{c}
      && multiset(CardIds(r)) == multiset(CardIds(b)) + multiset{c.id}
  {
    var l := b[k].(cards := b[k].cards + [c]);
    assert ListIds(b[k := l]) == ListIds(b);
    assert multiset(CardsOf(l)) == multiset(CardsOf(b[k])) + multiset{c};
    GainPart(b, k, l, CardsOf, multiset{c});
    assert multiset(CardIdsOf(l)) == multiset(CardIdsOf(b[k])) + multiset{c.id} by {
      IdsConcat(b[k].cards, [c]);
    }
    GainPart(b, k, l, CardIdsOf, multiset{c.id});
  }

  /** Taking out card `j` of list `k`: exactly that card (and its id) less, list ids as before. */
  lemma DropCounts(b: Board, k: int, j: int)
    requires 0 <= k < |b| && 0 <= j < |b[k].cards|
    ensures var c, r := b[k].cards[j], Dropped(b, k, j);
      && ListIds(r) == ListIds(b)
      && multiset(AllCards(r)) + multiset{c} == multiset(AllCards(b))
      && multiset(CardIds(r)) + multiset{c.id} == multiset(CardIds(b))
  {
    var c := b[k].cards[j];
    var l := b[k].(cards := RemoveAt(b[k].cards, j));
    assert ListIds(b[k := l]) == ListIds(b);
    RemoveAtMultiset(b[k].cards, j);
    LosePart(b, k, l, CardsOf, multiset{c});
    assert multiset(CardIdsOf(l)) + multiset{c.id} == multiset(CardIdsOf(b[k])) by {
      IdsRemoveAt(b[k].cards, j);
      RemoveAtMultiset(Ids(b[k].cards), j);
      assert Ids(b[k].cards)[j] == c.id;
    }
    LosePart(b, k, l, CardIdsOf, multiset{c.id});
  }

  /** Taking out card `j` of list `k` and appending it to list `m`: the same cards and ids. */
  lemma TransferCounts(b: Board, k: int, m: int, j: int)
    requires 0 <= k < |b| && 0 <= m < |b| && 0 <= j < |b[k].cards|
    ensures var r := Appended(Dropped(b, k, j), m, b[k].cards[j]);
      && ListIds(r) == ListIds(b)
      && multiset(AllCards(r)) == multiset(AllCards(b))
      && multiset(CardIds(r)) == multiset(CardIds(b))
  {
    DropCounts(b, k, j);
    AppendCounts(Dropped(b, k, j), m, b[k].cards[j]);
  }

  /** Moving a card within a well-formed board keeps it well-formed. */
  lemma TransferKeepsWellFormed(b: Board, k: int, m: int, j: int)
    requires WellFormed(b) && 0 <= k < |b| && 0 <= m < |b| && 0 <= j < |b[k].cards|
    ensures WellFormed(Appended(Dropped(b, k, j), m, b[k].cards[j]))
  {
    var r := Appended(Dropped(b, k, j), m, b[k].cards[j]);
    TransferCounts(b, k, m, j);
    DistinctSub(CardIds(b), CardIds(r));
    ApartSub(ListIds(b), CardIds(b), ListIds(r), CardIds(r));
  }

  /** The number of cards is the size of their multiset. */
  lemma CountByMultiset(b: Board)
    ensures CardCount(b) == |multiset(AllCards(b))|
  {
  }

  // ---------------------------------------------------------------------
  // addCard (src/App.js:35-46)
  // ---------------------------------------------------------------------

  /**
    addCard on an existing list with a non-empty title: that list gains one
    card at its end, with the given title and an empty description and due
    date, and every other list is unchanged.  With a fresh id the board
    stays well-formed and holds exactly that one card more.
  */
  lemma AddCardAt(b: Board, k: int, title: string, freshId: Id)
    requires WellFormed(b) && Fresh(b, freshId) && 0 <= k < |b| && title != ""
    ensures var r := AddCard(b, b[k].id, title, freshId);
      && r == b[k := b[k].(cards := b[k].cards + [Card(freshId, title, "", "")])]
      && multiset(AllCards(r)) == multiset(AllCards(b)) + multiset{Card(freshId, title, "", "")}
      && CardCount(r) == CardCount(b) + 1
      && WellFormed(r)
  {
    var c := NewCard(freshId, title);
    MapWhereAt(b, b[k].id, AppendCard(c), k);
    AppendCounts(b, k, c);
    var r := Appended(b, k, c);
    CountByMultiset(r);
    CountByMultiset(b);
    DistinctExtend(CardIds(b), CardIds(r), freshId);
    ApartAdd(CardIds(b), ListIds(b), CardIds(r), freshId);
  }

  /** addCard with an empty title or an id that names no list changes nothing. */
  lemma AddCardNoop(b: Board, listId: Id, title: string, freshId: Id)
    requires title == "" || listId !in ListIds(b)
    ensures AddCard(b, listId, title, freshId) == b
  {
    if title != "" {
      MapWhereAbsent(b, listId, AppendCard(NewCard(freshId, title)));
    }
  }

  // ---------------------------------------------------------------------
  // moveCard (src/App.js:48-65)
  // ---------------------------------------------------------------------

  /** With list `k` the only one carrying `fromListId`, cardToMove is what find returns there. */
  lemma {:induction false} CardToMoveOnly(b: Board, fromListId: Id, cardId: Id, k: int)
    requires 0 <= k < |b| && b[k].id == fromListId
    requires forall i :: 0 <= i < |b| && i != k ==> b[i].id != fromListId
    ensures CardToMove(b, fromListId, cardId) == Find(b[k].cards, cardId)
  {
    var last := |b| - 1;
    if k != last {
      CardToMoveOnly(b[..last], fromListId, cardId, k);
    }
  }

  /** With no list carrying `fromListId`, nothing is found to move. */
  lemma {:induction false} CardToMoveNone(b: Board, fromListId: Id, cardId: Id)
    requires forall i :: 0 <= i < |b| ==> b[i].id != fromListId
    ensures CardToMove(b, fromListId, cardId) == None
  {
    if b != [] {
      CardToMoveNone(b[..|b| - 1], fromListId, cardId);
    }
  }

  /** With distinct card ids, find returns the one card carrying the id. */
  lemma FindAt(cs: seq<Card>, j: int)
    requires Distinct(Ids(cs)) && 0 <= j < |cs|
    ensures Find(cs, cs[j].id) == Some(cs[j])
  {
    var r := Find(cs, cs[j].id);
    assert Ids(cs)[j] == cs[j].id;
    var j' :| 0 <= j' < |cs| && cs[j'] == r.value && r.value.id == cs[j].id
              && forall i :: 0 <= i < j' ==> cs[i].id != cs[j].id;
    assert Ids(cs)[j'] == Ids(cs)[j];
    DistinctAt(Ids(cs), j', j);
  }

  /** With distinct card ids, taking out a card takes out its id. */
  lemma DroppedCardGone(cs: seq<Card>, j: int)
    requires Distinct(Ids(cs)) && 0 <= j < |cs|
    ensures cs[j].id !in Ids(RemoveAt(cs, j))
  {
    IdsRemoveAt(cs, j);
    RemoveAtMultiset(Ids(cs), j);
    assert Ids(cs)[j] == cs[j].id;
    assert multiset(Ids(cs))[cs[j].id] == 1;
  }

  /**
    The first pass of moveCard on a well-formed board: the card at position
    `j` of list `k` is found, and list `k` loses exactly that card.
  */
  lemma MoveCardFirstPass(b: Board, k: int, j: int)
    requires WellFormed(b) && 0 <= k < |b| && 0 <= j < |b[k].cards|
    ensures var c := b[k].cards[j];
      && CardToMove(b, b[k].id, c.id) == Some(c)
      && MapWhere(b, b[k].id, DropCard(c.id)) == Dropped(b, k, j)
      && ListIds(Dropped(b, k, j)) == ListIds(b)
  {
    var c := b[k].cards[j];
    ListCardsDistinct(b, k);
    FindAt(b[k].cards, j);
    OnlyListWith(b, k);
    CardToMoveOnly(b, b[k].id, c.id, k);
    MapWhereAt(b, b[k].id, DropCard(c.id), k);
    WithoutAt(b[k].cards, c.id, j);
    MapWhereIds(b, b[k].id, DropCard(c.id));
  }

  /** moveCard to list `m` of a well-formed board: the card found is appended there. */
  lemma MoveCardShape(b: Board, k: int, m: int, j: int)
    requires WellFormed(b) && 0 <= k < |b| && 0 <= m < |b| && 0 <= j < |b[k].cards|
    ensures MoveCard(b, b[k].cards[j].id, b[k].id, b[m].id) == Appended(Dropped(b, k, j), m, b[k].cards[j])
  {
    MoveCardFirstPass(b, k, j);
    var b1 := Dropped(b, k, j);
    assert b1[m].id == b[m].id;
    MapWhereAt(b1, b[m].id, AppendCard(b[k].cards[j]), m);
  }

  /**
    moveCard between two different lists of a well-formed board: the card
    leaves the source list and becomes the last card of the destination;
    every other list, the list order and the ids are unchanged; no card is
    lost or duplicated, and the board stays well-formed.
  */
  lemma MoveCardAcross(b: Board, k: int, m: int, j: int)
    requires WellFormed(b) && 0 <= k < |b| && 0 <= m < |b| && k != m && 0 <= j < |b[k].cards|
    ensures var c := b[k].cards[j];
      var r := MoveCard(b, c.id, b[k].id, b[m].id);
      && r == b[k := b[k].(cards := RemoveAt(b[k].cards, j))][m := b[m].(cards := b[m].cards + [c])]
      && ListIds(r) == ListIds(b)
      && multiset(AllCards(r)) == multiset(AllCards(b))
      && CardCount(r) == CardCount(b)
      && WellFormed(r)
  {
    var r := Appended(Dropped(b, k, j), m, b[k].cards[j]);
    MoveCardShape(b, k, m, j);
    TransferCounts(b, k, m, j);
    CountByMultiset(r);
    CountByMultiset(b);
    DistinctSub(CardIds(b), CardIds(r));
  }

  /**
    moveCard within one list of a well-formed board: the card moves to the
    end of that list, which keeps its length and its multiset of cards; the
    card occurs once, and no other list changes.
  */
  lemma MoveCardWithin(b: Board, k: int, j: int)
    requires WellFormed(b) && 0 <= k < |b| && 0 <= j < |b[k].cards|
    ensures var c := b[k].cards[j];
      var r := MoveCard(b, c.id, b[k].id, b[k].id);
      && r == b[k := b[k].(cards := RemoveAt(b[k].cards, j) + [c])]
      && |r[k].cards| == |b[k].cards|
      && multiset(r[k].cards) == multiset(b[k].cards)
      && r[k].cards[|r[k].cards| - 1] == c
      && multiset(AllCards(r)) == multiset(AllCards(b))
      && multiset(CardIds(r))[c.id] == 1
      && WellFormed(r)
  {
    var c := b[k].cards[j];
    var r := Appended(Dropped(b, k, j), k, c);
    MoveCardShape(b, k, k, j);
    assert multiset(r[k].cards) == multiset(b[k].cards) by {
      RemoveAtMultiset(b[k].cards, j);
    }
    TransferKeepsWellFormed(b, k, k, j);
    assert multiset(AllCards(r)) == multiset(AllCards(b)) by {
      TransferCounts(b, k, k, j);
    }
    CardOnceOnBoard(r, k, |r[k].cards| - 1);
  }

  /** On a well-formed board, every card's id occurs exactly once. */
  lemma CardOnceOnBoard(b: Board, k: int, j: int)
    requires WellFormed(b) && 0 <= k < |b| && 0 <= j < |b[k].cards|
    ensures multiset(CardIds(b))[b[k].cards[j].id] == 1
  {
    FlattenSplit(b, k, CardIdsOf);
    assert Ids(b[k].cards)[j] == b[k].cards[j].id;
  }

  /**
    As written, a destination id that names no list loses the card: it is
    filtered out of the source list and appended nowhere.
  */
  lemma MoveCardNoDestination(b: Board, k: int, j: int, toListId: Id)
    requires WellFormed(b) && 0 <= k < |b| && 0 <= j < |b[k].cards| && toListId !in ListIds(b)
    ensures var c := b[k].cards[j];
      var r := MoveCard(b, c.id, b[k].id, toListId);
      && r == b[k := b[k].(cards := RemoveAt(b[k].cards, j))]
      && multiset(AllCards(r)) + multiset{c} == multiset(AllCards(b))
      && CardCount(r) == CardCount(b) - 1
  {
    var c := b[k].cards[j];
    var r := Dropped(b, k, j);
    MoveCardFirstPass(b, k, j);
    MapWhereAbsent(r, toListId, AppendCard(c));
    DropCounts(b, k, j);
    CountByMultiset(r);
    CountByMultiset(b);
  }

  /**
    When the source list does not exist or does not hold the card, moveCard
    leaves the board unchanged.
  */
  lemma MoveCardAbsent(b: Board, cardId: Id, fromListId: Id, toListId: Id)
    requires Distinct(ListIds(b))
    requires forall k :: 0 <= k < |b| && b[k].id == fromListId ==> cardId !in Ids(b[k].cards)
    ensures MoveCard(b, cardId, fromListId, toListId) == b
  {
    if fromListId in ListIds(b) {
      var k :| 0 <= k < |b| && ListIds(b)[k] == fromListId;
      OnlyListWith(b, k);
      CardToMoveOnly(b, fromListId, cardId, k);
    } else {
      forall i | 0 <= i < |b| ensures b[i].id != fromListId {
        assert ListIds(b)[i] == b[i].id;
      }
      CardToMoveNone(b, fromListId, cardId);
    }
  }

  /** After the card has left list `k`, moving it out of `k` again changes nothing. */
  lemma MoveCardGone(b: Board, k: int, j: int, toListId: Id, r: Board)
    requires WellFormed(b) && 0 <= k < |b| && 0 <= j < |b[k].cards|
    requires |r| == |b| && ListIds(r) == ListIds(b) && r[k] == Dropped(b, k, j)[k]
    ensures MoveCard(r, b[k].cards[j].id, b[k].id, toListId) == r
  {
    ListCardsDistinct(b, k);
    DroppedCardGone(b[k].cards, j);
    assert ListIds(r)[k] == b[k].id;
    OnlyListWith(r, k);
    MoveCardAbsent(r, b[k].cards[j].id, b[k].id, toListId);
  }

  /**
    Repeating a moveCard call with the same arguments changes nothing more:
    once the card has arrived, the call is a no-op.
  */
  lemma MoveCardIdempotent(b: Board, cardId: Id, fromListId: Id, toListId: Id)
    requires WellFormed(b)
    ensures var r := MoveCard(b, cardId, fromListId, toListId);
      MoveCard(r, cardId, fromListId, toListId) == r
  {
    var r := MoveCard(b, cardId, fromListId, toListId);
    if k :| 0 <= k < |b| && b[k].id == fromListId && cardId in Ids(b[k].cards) {
      var j :| 0 <= j < |b[k].cards| && Ids(b[k].cards)[j] == cardId;
      if toListId == fromListId {
        MoveCardIdempotentWithin(b, k, j);
      } else if toListId in ListIds(b) {
        var m :| 0 <= m < |b| && ListIds(b)[m] == toListId;
        MoveCardAcross(b, k, m, j);
        MoveCardGone(b, k, j, toListId, r);
      } else {
        MoveCardNoDestination(b, k, j, toListId);
        MoveCardFirstPass(b, k, j);
        MoveCardGone(b, k, j, toListId, r);
      }
    } else {
      MoveCardAbsent(b, cardId, fromListId, toListId);
    }
  }

  /** A card moved to the end of its own list stays there when moved again. */
  lemma MoveCardIdempotentWithin(b: Board, k: int, j: int)
    requires WellFormed(b) && 0 <= k < |b| && 0 <= j < |b[k].cards|
    ensures var c := b[k].cards[j];
      var r := MoveCard(b, c.id, b[k].id, b[k].id);
      MoveCard(r, c.id, b[k].id, b[k].id) == r
  {
    var c := b[k].cards[j];
    var r := Appended(Dropped(b, k, j), k, c);
    MoveCardShape(b, k, k, j);
    TransferKeepsWellFormed(b, k, k, j);
    var n := |r[k].cards| - 1;
    assert r[k].cards[n] == c && r[k].id == b[k].id;
    MoveCardShape(r, k, k, n);
    RemoveLast(RemoveAt(b[k].cards, j), c);
    assert Appended(Dropped(r, k, n), k, c) == r;
  }

  /** Taking out the last element of `s + [x]` gives back `s`. */
  lemma RemoveLast<T>(s: seq<T>, x: T)
    ensures RemoveAt(s + [x], |s|) == s
  {
  }

  /**
    Every moveCard call keeps a well-formed board well-formed, whatever its
    arguments: a move takes a card out and puts at most that card back.
  */
  lemma MoveCardKeepsWellFormed(b: Board, cardId: Id, fromListId: Id, toListId: Id)
    requires WellFormed(b)
    ensures WellFormed(MoveCard(b, cardId, fromListId, toListId))
  {
    if k :| 0 <= k < |b| && b[k].id == fromListId && cardId in Ids(b[k].cards) {
      var j :| 0 <= j < |b[k].cards| && Ids(b[k].cards)[j] == cardId;
      if toListId in ListIds(b) {
        var m :| 0 <= m < |b| && ListIds(b)[m] == toListId;
        MoveCardShape(b, k, m, j);
        TransferKeepsWellFormed(b, k, m, j);
      } else {
        var r := Dropped(b, k, j);
        MoveCardNoDestination(b, k, j, toListId);
        DropCounts(b, k, j);
        DistinctSub(CardIds(b), CardIds(r));
        ApartSub(ListIds(b), CardIds(b), ListIds(r), CardIds(r));
      }
    } else {
      MoveCardAbsent(b, cardId, fromListId, toListId);
    }
  }

  // ---------------------------------------------------------------------
  // moveList (src/App.js:67-72)
  // ---------------------------------------------------------------------

  /** Taking out what was just put in gives back the sequence. */
  lemma RemoveInsert<T>(s: seq<T>, i: int, x: T)
    requires 0 <= i <= |s|
    ensures RemoveAt(InsertAt(s, i, x), i) == s
  {
    var t := InsertAt(s, i, x);
    assert t[..i] == s[..i] && t[i + 1..] == s[i..];
  }

  /** Putting back what was just taken out gives back the sequence. */
  lemma InsertRemove<T>(s: seq<T>, i: int)
    requires 0 <= i < |s|
    ensures InsertAt(RemoveAt(s, i), i, s[i]) == s
  {
    var t := RemoveAt(s, i);
    assert t[..i] == s[..i] && t[i..] == s[i + 1..];
  }

  /**
    moveList puts the list from `fromIndex` at `toIndex` and keeps the other
    lists in their relative order: the result without position `toIndex` is
    the old board without position `fromIndex`.  It is a permutation of the
    board, and moving a list onto its own position changes nothing.
  */
  lemma MoveListSpec(b: Board, fromIndex: int, toIndex: int)
    requires 0 <= fromIndex < |b| && 0 <= toIndex < |b|
    ensures var r := MoveList(b, fromIndex, toIndex);
      && |r| == |b|
      && r[toIndex] == b[fromIndex]
      && RemoveAt(r, toIndex) == RemoveAt(b, fromIndex)
      && multiset(r) == multiset(b)
      && (fromIndex == toIndex ==> r == b)
  {
    RemoveInsert(RemoveAt(b, fromIndex), toIndex, b[fromIndex]);
    RemoveAtMultiset(b, fromIndex);
    InsertAtMultiset(RemoveAt(b, fromIndex), toIndex, b[fromIndex]);
    if fromIndex == toIndex {
      InsertRemove(b, fromIndex);
    }
  }

  /** Moving the list back from `toIndex` to `fromIndex` undoes moveList. */
  lemma MoveListUndo(b: Board, fromIndex: int, toIndex: int)
    requires 0 <= fromIndex < |b| && 0 <= toIndex < |b|
    ensures MoveList(MoveList(b, fromIndex, toIndex), toIndex, fromIndex) == b
  {
    MoveListSpec(b, fromIndex, toIndex);
    InsertRemove(b, fromIndex);
  }

  /**
    moveList keeps a board well-formed and keeps every card: the list ids and
    the cards of the board are the same multisets as before.
  */
  lemma MoveListKeepsWellFormed(b: Board, fromIndex: int, toIndex: int)
    requires WellFormed(b) && 0 <= fromIndex < |b| && 0 <= toIndex < |b|
    ensures var r := MoveList(b, fromIndex, toIndex);
      && multiset(ListIds(r)) == multiset(ListIds(b))
      && multiset(AllCards(r)) == multiset(AllCards(b))
      && CardCount(r) == CardCount(b)
      && WellFormed(r)
  {
    var l := b[fromIndex];
    var t := RemoveAt(b, fromIndex);
    var r := InsertAt(t, toIndex, l);
    ListIdsRemoveAt(b, fromIndex);
    ListIdsInsertAt(t, toIndex, l);
    RemoveAtMultiset(ListIds(b), fromIndex);
    InsertAtMultiset(ListIds(t), toIndex, l.id);
    assert ListIds(b)[fromIndex] == l.id;
    FlattenRemoveAt(b, fromIndex, CardsOf);
    FlattenInsertAt(t, toIndex, l, CardsOf);
    FlattenRemoveAt(b, fromIndex, CardIdsOf);
    FlattenInsertAt(t, toIndex, l, CardIdsOf);
    CountByMultiset(r);
    CountByMultiset(b);
    DistinctSub(ListIds(b), ListIds(r));
    DistinctSub(CardIds(b), CardIds(r));
    ApartSub(ListIds(b), CardIds(b), ListIds(r), CardIds(r));
  }

  // ---------------------------------------------------------------------
  // updateListTitle (src/App.js:74-80)
  // ---------------------------------------------------------------------

  /**
    On a board with distinct list ids, updateListTitle retitles the list at
    position `k` and nothing else; ids and cards stay, so the board stays
    well-formed.
  */
  lemma UpdateListTitleAt(b: Board, k: int, newTitle: string)
    requires WellFormed(b) && 0 <= k < |b|
    ensures var r := UpdateListTitle(b, b[k].id, newTitle);
      && r == b[k := b[k].(title := newTitle)]
      && AllCards(r) == AllCards(b)
      && WellFormed(r)
  {
    var l := b[k].(title := newTitle);
    MapWhereAt(b, b[k].id, Retitle(newTitle), k);
    assert ListIds(b[k := l]) == ListIds(b);
    FlattenUpdate(b, k, l, CardsOf);
    FlattenSplit(b, k, CardsOf);
    FlattenUpdate(b, k, l, CardIdsOf);
    FlattenSplit(b, k, CardIdsOf);
  }

  /** updateListTitle with an id that names no list changes nothing. */
  lemma UpdateListTitleAbsent(b: Board, listId: Id, newTitle: string)
    requires listId !in ListIds(b)
    ensures UpdateListTitle(b, listId, newTitle) == b
  {
    MapWhereAbsent(b, listId, Retitle(newTitle));
  }

  // ---------------------------------------------------------------------
  // The title commit (src/App.js:148-155)
  // ---------------------------------------------------------------------

  /** Trimming twice is trimming once. */
  lemma TrimIdempotent(s: string)
    ensures Trim(Trim(s)) == Trim(s)
  {
    TrimFixed(Trim(s));
  }

  /** A string with no white space at either end is its own trim. */
  lemma TrimFixed(t: string)
    requires t == [] || (!IsSpace(t[0]) && !IsSpace(t[|t| - 1]))
    ensures Trim(t) == t
  {
    assert TrimStart(t) == t;
    assert TrimEnd(t) == t;
  }

  /**
    Blurring a header whose text is white space only discards the edit: the
    board is not touched and the editor shows the list's title again.
    Otherwise the untrimmed text becomes the title of the list.
  */
  lemma CommitTitleCases(b: Board, l: List, edited: string)
    ensures Blank(edited) ==> CommitTitle(b, l, edited) == TitleCommit(b, l.title)
    ensures !Blank(edited) ==> CommitTitle(b, l, edited) == TitleCommit(UpdateListTitle(b, l.id, edited), edited)
  {
  }

  /**
    A title commit on a well-formed board never gives a list a blank title:
    every list whose title had text still has text, and the board stays
    well-formed with the same cards.
  */
  lemma CommitTitleNeverBlanks(b: Board, l: List, edited: string)
    requires WellFormed(b)
    ensures var r := CommitTitle(b, l, edited).lists;
      && |r| == |b|
      && (forall i :: 0 <= i < |b| && !Blank(b[i].title) ==> !Blank(r[i].title))
      && AllCards(r) == AllCards(b)
      && WellFormed(r)
  {
    CommitTitleCases(b, l, edited);
    if !Blank(edited) {
      if l.id in ListIds(b) {
        var k :| 0 <= k < |b| && ListIds(b)[k] == l.id;
        UpdateListTitleAt(b, k, edited);
        var r := b[k := b[k].(title := edited)];
        forall i | 0 <= i < |b| && !Blank(b[i].title)
          ensures !Blank(r[i].title)
        {
          if i != k {
            assert r[i] == b[i];
          }
        }
      } else {
        UpdateListTitleAbsent(b, l.id, edited);
      }
    }
  }

  // ---------------------------------------------------------------------
  // updateCard (src/App.js:81-94)
  // ---------------------------------------------------------------------

  /** With distinct card ids, patching by id rewrites exactly card `j`. */
  lemma PatchCardsAt(cs: seq<Card>, j: int, p: Patch)
    requires Distinct(Ids(cs)) && 0 <= j < |cs|
    ensures PatchCards(cs, cs[j].id, p) == cs[j := ApplyPatch(cs[j], p)]
  {
    forall i | 0 <= i < |cs| && i != j ensures cs[i].id != cs[j].id {
      if cs[i].id == cs[j].id {
        DistinctAt(Ids(cs), i, j);
      }
    }
  }

  /** Patching by an id no card carries changes nothing. */
  lemma PatchCardsAbsent(cs: seq<Card>, id: Id, p: Patch)
    requires id !in Ids(cs)
    ensures PatchCards(cs, id, p) == cs
  {
    forall i | 0 <= i < |cs| ensures cs[i].id != id {
      assert Ids(cs)[i] == cs[i].id;
    }
  }

  /**
    On a well-formed board, updateCard rewrites card `j` of list `k` with the
    patch and changes nothing else: the card keeps its id and takes each
    field the patch carries, and every other card and list stays.
  */
  lemma UpdateCardAt(b: Board, k: int, j: int, p: Patch)
    requires WellFormed(b) && 0 <= k < |b| && 0 <= j < |b[k].cards|
    ensures var c := b[k].cards[j];
      UpdateCard(b, b[k].id, c.id, p) == b[k := b[k].(cards := b[k].cards[j := ApplyPatch(c, p)])]
  {
    ListCardsDistinct(b, k);
    PatchCardsAt(b[k].cards, j, p);
    MapWhereAt(b, b[k].id, PatchCard(b[k].cards[j].id, p), k);
  }

  /** updateCard for a list that does not hold the card changes nothing. */
  lemma UpdateCardAbsent(b: Board, listId: Id, cardId: Id, p: Patch)
    requires Distinct(ListIds(b))
    requires forall k :: 0 <= k < |b| && b[k].id == listId ==> cardId !in Ids(b[k].cards)
    ensures UpdateCard(b, listId, cardId, p) == b
  {
    if listId in ListIds(b) {
      var k :| 0 <= k < |b| && ListIds(b)[k] == listId;
      PatchCardsAbsent(b[k].cards, cardId, p);
      MapWhereAt(b, listId, PatchCard(cardId, p), k);
      assert b[k := b[k]] == b;
    } else {
      MapWhereAbsent(b, listId, PatchCard(cardId, p));
    }
  }

  /** Patching keeps the ids of the cards, in order. */
  lemma PatchCardsIds(cs: seq<Card>, id: Id, p: Patch)
    ensures Ids(PatchCards(cs, id, p)) == Ids(cs)
  {
  }

  /**
    updateCard never changes which card ids are on the board, in which
    order, nor which lists there are: the card ids and the list ids are the
    same sequences as before, and a well-formed board stays well-formed.
  */
  lemma {:induction false} UpdateCardKeepsIds(b: Board, listId: Id, cardId: Id, p: Patch)
    ensures var r := UpdateCard(b, listId, cardId, p);
      && ListIds(r) == ListIds(b)
      && CardIds(r) == CardIds(b)
      && CardCount(r) == CardCount(b)
      && (WellFormed(b) ==> WellFormed(r))
  {
    var r := UpdateCard(b, listId, cardId, p);
    MapWhereIds(b, listId, PatchCard(cardId, p));
    if b != [] {
      assert r[1..] == UpdateCard(b[1..], listId, cardId, p);
      UpdateCardKeepsIds(b[1..], listId, cardId, p);
      PatchCardsIds(b[0].cards, cardId, p);
      assert CardIdsOf(r[0]) == CardIdsOf(b[0]);
    }
    CountIds(r);
    CountIds(b);
  }

  /** A board has as many card ids as cards. */
  lemma {:induction false} CountIds(b: Board)
    ensures |CardIds(b)| == CardCount(b)
  {
    if b != [] {
      CountIds(b[1..]);
    }
  }
}
