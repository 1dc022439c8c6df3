/**
  The board's data model (src/App.js:15, 28, 41): a board is a sequence of
  lists, a list has an id, a title and a sequence of cards, and a card has an
  id, a title, a description and a due date, all strings.  This module also
  holds the queries the operations and their laws are stated with: the ids on
  a board, the board's cards in display order, and "ids are distinct".
*/
module Kanban {
  import opened Wrappers

  /** An identifier as produced by uuidv4(); the model treats it as an opaque string. */
  type Id = string

  datatype Card = Card(id: Id, title: string, description: string, dueDate: string)

  datatype List = List(id: Id, title: string, cards: seq<Card>)

  /**
    The fields a card edit may overwrite; `None` keeps the card's own value
    (the object spread `{ ...card, ...updatedCardData }`).
  */
  datatype Patch = Patch(title: Option<string>, description: Option<string>, dueDate: Option<string>)

  /** The single state cell `lists` of the store, in display order. */
  type Board = seq<List>

  // ---------------------------------------------------------------------
  // Distinctness, stated through multiplicities
  // ---------------------------------------------------------------------

  /** No element occurs twice in `s`. */
  predicate Distinct<T(==)>(s: seq<T>) {
    forall x | x in multiset(s) :: multiset(s)[x] == 1
  }

  /** Dropping elements (as a multiset) never creates a duplicate. */
  lemma DistinctSub<T>(s: seq<T>, t: seq<T>)
    requires Distinct(s) && multiset(t) <= multiset(s)
    ensures Distinct(t)
  {
    forall x | x in multiset(t) ensures multiset(t)[x] == 1 {
      assert multiset(t)[x] <= multiset(s)[x];
    }
  }

  /** In a distinct sequence, equal elements sit at the same position. */
  lemma DistinctAt<T>(s: seq<T>, i: int, j: int)
    requires Distinct(s)
    requires 0 <= i < |s| && 0 <= j < |s| && s[i] == s[j]
    ensures i == j
  {
    if i < j {
      RepeatedCount(s, i, j);
    } else if j < i {
      RepeatedCount(s, j, i);
    }
  }

  /** An element found at two positions occurs at least twice. */
  lemma RepeatedCount<T>(s: seq<T>, lo: int, hi: int)
    requires 0 <= lo < hi < |s| && s[lo] == s[hi]
    ensures multiset(s)[s[lo]] >= 2
  {
    assert s == s[..lo] + [s[lo]] + (s[lo + 1..hi] + [s[hi]] + s[hi + 1..]);
    assert s[lo..] == [s[lo]] + (s[lo + 1..hi] + [s[hi]] + s[hi + 1..]);
    assert s[hi] in multiset(s[lo + 1..hi] + [s[hi]] + s[hi + 1..]);
  }

  /** Adding one element that is not yet present keeps a sequence distinct. */
  lemma DistinctExtend<T>(s: seq<T>, t: seq<T>, x: T)
    requires Distinct(s) && x !in s && multiset(t) == multiset(s) + multiset{x}
    ensures Distinct(t)
  {
    assert x !in multiset(s);
  }

  // ---------------------------------------------------------------------
  // Ids and flattening
  // ---------------------------------------------------------------------

  /** The ids of a sequence of cards, in order. */
  function Ids(cs: seq<Card>): seq<Id> {
    seq(|cs|, i requires 0 <= i < |cs| => cs[i].id)
  }

  lemma IdsConcat(a: seq<Card>, c: seq<Card>)
    ensures Ids(a + c) == Ids(a) + Ids(c)
  {
    assert forall i :: 0 <= i < |a + c| ==> Ids(a + c)[i] == (Ids(a) + Ids(c))[i];
  }

  /** The ids of the lists of a board, in order. */
  function ListIds(b: Board): seq<Id> {
    seq(|b|, i requires 0 <= i < |b| => b[i].id)
  }

  /** Concatenation of `part(l)` over the lists `l` of `b`, in board order. */
  function Flatten<T>(b: Board, part: List -> seq<T>): seq<T> {
    if b == [] then [] else part(b[0]) + Flatten(b[1..], part)
  }

  function CardsOf(l: List): seq<Card> { l.cards }

  function CardIdsOf(l: List): seq<Id> { Ids(l.cards) }

  /** Every card of the board, list by list, in display order. */
  function AllCards(b: Board): seq<Card> { Flatten(b, CardsOf) }

  /** The ids of every card of the board. */
  function CardIds(b: Board): seq<Id> { Flatten(b, CardIdsOf) }

  /** The total number of cards on the board. */
  function CardCount(b: Board): nat { |AllCards(b)| }

  lemma {:induction false} FlattenConcat<T>(a: Board, c: Board, part: List -> seq<T>)
    ensures Flatten(a + c, part) == Flatten(a, part) + Flatten(c, part)
  {
    if a == [] {
      assert a + c == c;
    } else {
      assert (a + c)[1..] == a[1..] + c;
      FlattenConcat(a[1..], c, part);
    }
  }

  /** The flattening of a board seen around its list number `k`. */
  lemma {:induction false} FlattenSplit<T>(b: Board, k: int, part: List -> seq<T>)
    requires 0 <= k < |b|
    ensures Flatten(b, part) == Flatten(b[..k], part) + part(b[k]) + Flatten(b[k + 1..], part)
  {
    if k == 0 {
      assert b[..0] == [];
    } else {
      var tail := b[1..];
      FlattenSplit(tail, k - 1, part);
      assert tail[..k - 1] == b[1..k] && tail[k - 1] == b[k] && tail[k..] == b[k + 1..];
      assert b[..k][1..] == b[1..k];
    }
  }

  /** Replacing list number `k` replaces exactly its part of the flattening. */
  lemma FlattenUpdate<T>(b: Board, k: int, l: List, part: List -> seq<T>)
    requires 0 <= k < |b|
    ensures Flatten(b[k := l], part) == Flatten(b[..k], part) + part(l) + Flatten(b[k + 1..], part)
    ensures multiset(Flatten(b[k := l], part)) + multiset(part(b[k]))
         == multiset(Flatten(b, part)) + multiset(part(l))
  {
    FlattenSplit(b, k, part);
    FlattenSplit(b[k := l], k, part);
    assert b[k := l][..k] == b[..k];
    assert b[k := l][k + 1..] == b[k + 1..];
  }

  // ---------------------------------------------------------------------
  // Board invariant and freshness
  // ---------------------------------------------------------------------

  /**
    Every id on the board names one thing: list ids are distinct, card ids
    are distinct across the whole board, and no list shares its id with a
    card.
  */
  predicate WellFormed(b: Board) {
    Distinct(ListIds(b)) && Distinct(CardIds(b)) && multiset(ListIds(b)) !! multiset(CardIds(b))
  }

  /** `id` is used by no list and no card of `b` (what uuidv4() is relied on for). */
  predicate Fresh(b: Board, id: Id) {
    id !in ListIds(b) && id !in CardIds(b)
  }

  /** Two collections with nothing in common stay so when both shrink. */
  lemma ApartSub<T>(l: seq<T>, c: seq<T>, l': seq<T>, c': seq<T>)
    requires multiset(l) !! multiset(c)
    requires multiset(l') <= multiset(l) && multiset(c') <= multiset(c)
    ensures multiset(l') !! multiset(c')
  {
    forall x | x in multiset(l') ensures x !in multiset(c') {
      assert x in multiset(l);
    }
  }

  /** Adding to one side an element the other side lacks keeps them apart. */
  lemma ApartAdd<T>(l: seq<T>, c: seq<T>, l': seq<T>, x: T)
    requires multiset(l) !! multiset(c) && x !in c
    requires multiset(l') == multiset(l) + multiset{x}
    ensures multiset(l') !! multiset(c)
  {
    assert x !in multiset(c);
  }

  /** On a well-formed board, the cards of any one list have distinct ids. */
  lemma ListCardsDistinct(b: Board, k: int)
    requires WellFormed(b) && 0 <= k < |b|
    ensures Distinct(Ids(b[k].cards))
  {
    FlattenSplit(b, k, CardIdsOf);
    DistinctSub(CardIds(b), Ids(b[k].cards));
  }

  // ---------------------------------------------------------------------
  // The array combinators the operations are built from
  // ---------------------------------------------------------------------

  /**
    The callbacks the store passes to `lists.map` for the list it targets:
    append a card, filter one out, retitle, or patch one card.
  */
  datatype ListEdit =
    | AppendCard(card: Card)
    | DropCard(cardId: Id)
    | Retitle(title: string)
    | PatchCard(cardId: Id, patch: Patch)

  /** `{ ...card, ...patch }` for the fields the patch carries. */
  function ApplyPatch(c: Card, p: Patch): (r: Card)
    ensures r.id == c.id
    ensures r.title == (if p.title.Some? then p.title.value else c.title)
    ensures r.description == (if p.description.Some? then p.description.value else c.description)
    ensures r.dueDate == (if p.dueDate.Some? then p.dueDate.value else c.dueDate)
  {
    Card(c.id, p.title.GetOr(c.title), p.description.GetOr(c.description), p.dueDate.GetOr(c.dueDate))
  }

  /** `cards.map(card => card.id === id ? { ...card, ...patch } : card)`. */
  function PatchCards(cs: seq<Card>, id: Id, p: Patch): seq<Card> {
    seq(|cs|, i requires 0 <= i < |cs| => if cs[i].id == id then ApplyPatch(cs[i], p) else cs[i])
  }

  /** One list after an edit; no edit touches the list's id. */
  function ApplyEdit(l: List, e: ListEdit): (r: List)
    ensures r.id == l.id
  {
    match e
    case AppendCard(c) => l.(cards := l.cards + [c])
    case DropCard(id) => l.(cards := Without(l.cards, id))
    case Retitle(t) => l.(title := t)
    case PatchCard(id, p) => l.(cards := PatchCards(l.cards, id, p))
  }

  /** `lists.map(list => list.id === id ? edit(list) : list)`. */
  function MapWhere(b: Board, id: Id, e: ListEdit): Board {
    seq(|b|, i requires 0 <= i < |b| => if b[i].id == id then ApplyEdit(b[i], e) else b[i])
  }

  /** The map never changes which ids the lists carry, nor their order. */
  lemma MapWhereIds(b: Board, id: Id, e: ListEdit)
    ensures ListIds(MapWhere(b, id, e)) == ListIds(b)
  {
  }

  /** With distinct list ids, only the one list carrying `id` is rewritten. */
  lemma MapWhereAt(b: Board, id: Id, e: ListEdit, k: int)
    requires Distinct(ListIds(b)) && 0 <= k < |b| && b[k].id == id
    ensures MapWhere(b, id, e) == b[k := ApplyEdit(b[k], e)]
  {
    forall i | 0 <= i < |b| && i != k ensures b[i].id != id {
      if b[i].id == id {
        DistinctAt(ListIds(b), i, k);
      }
    }
  }

  /** An id that names no list leaves the board as it is. */
  lemma MapWhereAbsent(b: Board, id: Id, e: ListEdit)
    requires id !in ListIds(b)
    ensures MapWhere(b, id, e) == b
  {
    forall i | 0 <= i < |b| ensures b[i].id != id {
      assert ListIds(b)[i] == b[i].id;
    }
  }

  /**
    `cards.find(card => card.id === id)`: the first card with that id, if any.
  */
  function Find(cs: seq<Card>, id: Id): (r: Option<Card>)
    ensures r.None? <==> id !in Ids(cs)
    ensures r.Some? ==> exists j :: 0 <= j < |cs| && cs[j] == r.value && r.value.id == id
                                   && forall i :: 0 <= i < j ==> cs[i].id != id
  {
    if cs == [] then None
    else
      assert Ids(cs) == [cs[0].id] + Ids(cs[1..]);
      if cs[0].id == id then Some(cs[0])
      else
      var r := Find(cs[1..], id);
      if r.Some? then
        var j :| 0 <= j < |cs[1..]| && cs[1..][j] == r.value && r.value.id == id
                 && forall i :: 0 <= i < j ==> cs[1..][i].id != id;
        assert cs[j + 1] == r.value;
        r
      else r
  }

  /** `cards.filter(card => card.id !== id)`. */
  function Without(cs: seq<Card>, id: Id): seq<Card> {
    if cs == [] then []
    else if cs[0].id == id then Without(cs[1..], id)
    else [cs[0]] + Without(cs[1..], id)
  }

  /**
    The filter keeps every card whose id is not `id`, drops every card whose
    id is, and never adds or repeats a card.
  */
  lemma {:induction false} WithoutSpec(cs: seq<Card>, id: Id)
    ensures id !in Ids(Without(cs, id))
    ensures forall c :: c in Without(cs, id) <==> c in cs && c.id != id
    ensures multiset(Without(cs, id)) <= multiset(cs)
  {
    if cs != [] {
      var rest := Without(cs[1..], id);
      WithoutSpec(cs[1..], id);
      assert cs == [cs[0]] + cs[1..];
      if cs[0].id != id {
        IdsConcat([cs[0]], rest);
      }
    }
  }

  /** With distinct card ids, filtering removes exactly the one matching card. */
  lemma WithoutAt(cs: seq<Card>, id: Id, j: int)
    requires Distinct(Ids(cs)) && 0 <= j < |cs| && cs[j].id == id
    ensures Without(cs, id) == cs[..j] + cs[j + 1..]
  {
    forall i | 0 <= i < |cs| && i != j ensures cs[i].id != id {
      if cs[i].id == id {
        DistinctAt(Ids(cs), i, j);
      }
    }
    assert id !in Ids(cs[..j]) by {
      forall i | 0 <= i < j ensures Ids(cs[..j])[i] != id {
        assert Ids(cs[..j])[i] == cs[i].id;
      }
    }
    var tail := cs[j + 1..];
    assert id !in Ids(tail) by {
      forall i | 0 <= i < |tail| ensures Ids(tail)[i] != id {
        assert tail[i] == cs[j + 1 + i];
      }
    }
    WithoutOnly(cs, id, j);
  }

  /** When only position `j` carries `id`, the filter drops exactly that card. */
  lemma {:induction false} WithoutOnly(cs: seq<Card>, id: Id, j: int)
    requires 0 <= j < |cs| && cs[j].id == id
    requires id !in Ids(cs[..j]) && id !in Ids(cs[j + 1..])
    ensures Without(cs, id) == cs[..j] + cs[j + 1..]
  {
    if j == 0 {
      WithoutAbsent(cs[1..], id);
    } else {
      var rest := cs[1..];
      assert rest[..j - 1] == cs[1..j];
      assert rest[j..] == cs[j + 1..];
      assert Ids(cs[..j]) == [cs[0].id] + Ids(cs[1..j]);
      WithoutOnly(rest, id, j - 1);
      assert cs[..j] == [cs[0]] + cs[1..j];
    }
  }

  /** Filtering out an id no card carries changes nothing. */
  lemma {:induction false} WithoutAbsent(cs: seq<Card>, id: Id)
    requires id !in Ids(cs)
    ensures Without(cs, id) == cs
  {
    if cs != [] {
      assert Ids(cs) == [cs[0].id] + Ids(cs[1..]);
      WithoutAbsent(cs[1..], id);
      assert cs == [cs[0]] + cs[1..];
    }
  }
}
