/** The in-memory remote store of `src/services/api.js`: the `serverData` lists and cards that
    every request may fail on before touching, and that successful requests change in place. */
module Api {
  import opened Wrappers
  import opened Entities
  import JsArray

  /** Why a request was rejected. */
  datatype ApiError = ServerError | ListNotFound | CardNotFound

  /** The message of the `Error` each rejection throws. */
  function Message(e: ApiError): string {
    match e
    case ServerError => "Simulated server error"
    case ListNotFound => "List not found"
    case CardNotFound => "Card not found"
  }

  /** A settled request: its value, or the error it was rejected with. */
  datatype Response<T> = Ok(value: T) | Failed(error: ApiError)

  /** `payload.id || generated`: a missing or empty id is replaced. */
  function IdOr(id: Option<string>, generated: string): string {
    if id.Some? && id.value != "" then id.value else generated
  }

  /** `{ ...list, id: list.id || generated, version: 1, lastModifiedAt: now }`; keys the
      payload lacks take blank values. */
  function NewList(list: ListPatch, generated: string, now: int): List {
    OverlayList(List("", "", 0, false, 0, 0), list).(id := IdOr(list.id, generated), version := 1, lastModifiedAt := now)
  }

  /** `{ ...card, id: card.id || generated, version: 1, lastModifiedAt: now }` */
  function NewCard(card: CardPatch, generated: string, now: int): Card {
    OverlayCard(Card("", "", "", "", [], 0, 0, 0), card).(id := IdOr(card.id, generated), version := 1, lastModifiedAt := now)
  }

  /** `cards.filter((c) => c.listId !== listId)` */
  function CardsOutside(cards: seq<Card>, listId: string): seq<Card> {
    if cards == [] then []
    else
      var rest := CardsOutside(cards[..|cards| - 1], listId);
      if cards[|cards| - 1].listId != listId then rest + [cards[|cards| - 1]] else rest
  }

  /** `{ ...r, version: (r.version || 0) + 1, lastModifiedAt: now }` over a whole list. */
  function ResyncedLists(lists: seq<List>, now: int): (r: seq<List>)
    ensures |r| == |lists|
  {
    seq(|lists|, i requires 0 <= i < |lists| => lists[i].(version := lists[i].version + 1, lastModifiedAt := now))
  }

  function ResyncedCards(cards: seq<Card>, now: int): (r: seq<Card>)
    ensures |r| == |cards|
  {
    seq(|cards|, i requires 0 <= i < |cards| => cards[i].(version := cards[i].version + 1, lastModifiedAt := now))
  }

  ghost predicate Distinct<T>(s: seq<T>) {
    forall i, j :: 0 <= i < j < |s| ==> s[i] != s[j]
  }

  ghost predicate InBounds(positions: seq<nat>, n: nat) {
    forall p :: 0 <= p < |positions| ==> positions[p] < n
  }

  /** The positions in the store of the cards of `listId` (other than those named `except`),
      in store order: the store's cards as `filter` hands them out. */
  function ListPositions(cards: seq<Card>, listId: string, except: Option<string>): (r: seq<nat>)
    ensures InBounds(r, |cards|)
    ensures forall p :: 0 <= p < |r| ==> cards[r[p]].listId == listId && Some(cards[r[p]].id) != except
    ensures forall i :: 0 <= i < |cards| && cards[i].listId == listId && Some(cards[i].id) != except ==> i in r
    ensures forall p, q :: 0 <= p < q < |r| ==> r[p] < r[q]
  {
    if cards == [] then []
    else
      var prev := ListPositions(cards[..|cards| - 1], listId, except);
      if cards[|cards| - 1].listId == listId && Some(cards[|cards| - 1].id) != except
      then prev + [|cards| - 1] else prev
  }

  /** The sort key `(c.order || 0)` of the card at a position. */
  function OrderAt(cards: seq<Card>): nat -> int {
    (i: nat) => if i < |cards| then cards[i].order else 0
  }

  /** `positions.findIndex((c) => c.id === id)` over cards given by their positions. */
  function FirstWithId(cards: seq<Card>, positions: seq<nat>, id: string): (r: int)
    ensures -1 <= r < |positions|
    ensures r == -1 <==> forall p :: 0 <= p < |positions| ==> !(positions[p] < |cards| && cards[positions[p]].id == id)
    ensures 0 <= r ==> positions[r] < |cards| && cards[positions[r]].id == id
  {
    if positions == [] then -1
    else if positions[0] < |cards| && cards[positions[0]].id == id then 0
    else
      var r := FirstWithId(cards, positions[1..], id);
      if r == -1 then -1 else r + 1
  }

  /** `oldListCards`: the moved card's list sorted by order, with the first card carrying the
      moved id spliced out. */
  function MoveSourceAt(cards: seq<Card>, at: nat, cardId: string): (r: seq<nat>)
    requires at < |cards|
    ensures InBounds(r, |cards|)
  {
    var all := ListPositions(cards, cards[at].listId, None);
    var sorted := JsArray.SortBy(all, OrderAt(cards));
    SortedInBounds(all, OrderAt(cards), |cards|);
    SpliceRemoveInBounds(sorted, FirstWithId(cards, sorted, cardId), |cards|);
    JsArray.SpliceRemove(sorted, FirstWithId(cards, sorted, cardId))
  }

  /** `newListCards`: the target list without any card carrying the moved id, sorted by order,
      with the moved card spliced in at `newIndex`. */
  function MoveTargetAt(cards: seq<Card>, at: nat, cardId: string, newListId: string, newIndex: int): (r: seq<nat>)
    requires at < |cards|
    ensures InBounds(r, |cards|)
  {
    var others := ListPositions(cards, newListId, Some(cardId));
    var sorted := JsArray.SortBy(others, OrderAt(cards));
    SortedInBounds(others, OrderAt(cards), |cards|);
    SpliceInsertInBounds(sorted, newIndex, at, |cards|);
    JsArray.SpliceInsert(sorted, newIndex, at)
  }

  /** The cards after the `forEach` that gives the i-th card of `positions` the order `i`
      (and, when `newList` is given, that list). */
  function Renumbered(cards: seq<Card>, positions: seq<nat>, newList: Option<string>, now: int): (r: seq<Card>)
    requires InBounds(positions, |cards|)
    ensures |r| == |cards|
  {
    if positions == [] then cards
    else
      var k := |positions| - 1;
      var prev := Renumbered(cards, positions[..k], newList, now);
      var c := prev[positions[k]];
      prev[positions[k] := c.(order := k, listId := newList.GetOr(c.listId), lastModifiedAt := now)]
  }

  /** What a successful `moveCard` leaves in the store: the source pass, then the target pass. */
  function MovedCards(cards: seq<Card>, at: nat, cardId: string, newListId: string, newIndex: int, now: int): (r: seq<Card>)
    requires at < |cards|
    ensures |r| == |cards|
  {
    TwoPasses(cards, MoveSourceAt(cards, at, cardId), MoveTargetAt(cards, at, cardId, newListId, newIndex), newListId, now)
  }

  /** The two `forEach` passes of `moveCard` over given positions. */
  function TwoPasses(cards: seq<Card>, source: seq<nat>, target: seq<nat>, newListId: string, now: int): (r: seq<Card>)
    requires InBounds(source, |cards|) && InBounds(target, |cards|)
    ensures |r| == |cards|
  {
    Renumbered(Renumbered(cards, source, None, now), target, Some(newListId), now)
  }

  /** Sorting keeps positions in bounds. */
  lemma SortedInBounds(s: seq<nat>, key: nat -> int, n: nat)
    requires InBounds(s, n)
    ensures InBounds(JsArray.SortBy(s, key), n)
  {
    var t := JsArray.SortBy(s, key);
    forall p | 0 <= p < |t| ensures t[p] < n {
      assert t[p] in multiset(s);
    }
  }

  lemma SpliceRemoveInBounds(s: seq<nat>, start: int, n: nat)
    requires InBounds(s, n)
    ensures InBounds(JsArray.SpliceRemove(s, start), n)
  {
    var r := JsArray.SpliceRemove(s, start);
    forall p | 0 <= p < |r| ensures r[p] < n {
      assert r[p] in s;
    }
  }

  lemma SpliceInsertInBounds(s: seq<nat>, start: int, x: nat, n: nat)
    requires InBounds(s, n) && x < n
    ensures InBounds(JsArray.SpliceInsert(s, start, x), n)
  {
    var r := JsArray.SpliceInsert(s, start, x);
    forall p | 0 <= p < |r| ensures r[p] < n {
      assert r[p] in s || r[p] == x;
    }
  }

  /** The identity of a card object in the store's memory. `moveCard` writes onto the object a
      reference names, so every array holding that reference, the store's own and one
      `fetchCards` handed out earlier, sees the write. */
  type CardRef = nat

  /** Every reference of `refs` names a live object. */
  ghost predicate Held(heap: map<CardRef, Card>, refs: seq<CardRef>) {
    forall p :: 0 <= p < |refs| ==> refs[p] in heap
  }

  /** The records an array of card objects shows, read through the objects' current fields. */
  function Deref(heap: map<CardRef, Card>, refs: seq<CardRef>): (r: seq<Card>)
    requires Held(heap, refs)
    ensures |r| == |refs| && forall p :: 0 <= p < |refs| ==> r[p] == heap[refs[p]]
  {
    seq(|refs|, p requires 0 <= p < |refs| => heap[refs[p]])
  }

  /** `cards.filter((c) => c.listId !== listId)` over the stored objects: the objects it keeps,
      which show exactly the records `CardsOutside` keeps. */
  function RefsOutside(heap: map<CardRef, Card>, refs: seq<CardRef>, listId: string): (r: seq<CardRef>)
    requires Held(heap, refs)
    ensures Held(heap, r) && Deref(heap, r) == CardsOutside(Deref(heap, refs), listId)
    ensures forall ref :: ref in r ==> ref in refs
    ensures Distinct(refs) ==> Distinct(r)
  {
    if refs == [] then []
    else
      var last := refs[|refs| - 1];
      var rest := RefsOutside(heap, refs[..|refs| - 1], listId);
      assert Deref(heap, refs)[..|refs| - 1] == Deref(heap, refs[..|refs| - 1]);
      assert Distinct(refs) ==> last !in refs[..|refs| - 1];
      if heap[last].listId != listId then rest + [last] else rest
  }

  /** Writing onto one object of an array of distinct objects changes that entry alone. */
  lemma WriteThrough(heap: map<CardRef, Card>, refs: seq<CardRef>, p: nat, c: Card)
    requires Held(heap, refs) && Distinct(refs) && p < |refs|
    ensures Held(heap[refs[p] := c], refs)
    ensures Deref(heap[refs[p] := c], refs) == Deref(heap, refs)[p := c]
  {
  }

  /** Splicing an object out of an array of distinct objects splices its record out of what
      the array shows, and leaves the rest distinct. */
  lemma SpliceOut(heap: map<CardRef, Card>, refs: seq<CardRef>, i: nat)
    requires Held(heap, refs) && Distinct(refs) && i < |refs|
    ensures var rest := refs[..i] + refs[i + 1..];
      && Held(heap, rest) && Distinct(rest)
      && Deref(heap, rest) == Deref(heap, refs)[..i] + Deref(heap, refs)[i + 1..]
  {
    var rest := refs[..i] + refs[i + 1..];
    assert forall p :: 0 <= p < |rest| ==> rest[p] == if p < i then refs[p] else refs[p + 1];
  }

  /** A new object, under a reference no array holds yet, changes no array. */
  lemma FreshObject(heap: map<CardRef, Card>, refs: seq<CardRef>, ref: CardRef, c: Card)
    requires Held(heap, refs) && ref !in refs
    ensures Held(heap[ref := c], refs) && Deref(heap[ref := c], refs) == Deref(heap, refs)
  {
  }

  /** `b` is `a` with at most its order, list and time rewritten: all that `moveCard` writes
      onto a card object. */
  predicate Renumbers(a: Card, b: Card) {
    b.id == a.id && b.title == a.title && b.description == a.description && b.tags == a.tags && b.version == a.version
  }

  /** Every object of `before` is still live in `after` and holds the same record. */
  ghost predicate Kept(before: map<CardRef, Card>, after: map<CardRef, Card>) {
    forall ref :: ref in before ==> ref in after && after[ref] == before[ref]
  }

  /** Every object of `before` is still live in `after`, at most renumbered. */
  ghost predicate OnlyRenumbered(before: map<CardRef, Card>, after: map<CardRef, Card>) {
    forall ref :: ref in before ==> ref in after && Renumbers(before[ref], after[ref])
  }

  /** Every object of `before` that `refs` does not hold is live in `after` with the same
      record: a write through `refs` reaches no other object. */
  ghost predicate KeptOutside(before: map<CardRef, Card>, after: map<CardRef, Card>, refs: seq<CardRef>) {
    forall ref :: ref in before && ref !in refs ==> ref in after && after[ref] == before[ref]
  }

  /** Objects that keep their records are at most renumbered, inside any array or outside it. */
  lemma KeptFrames(before: map<CardRef, Card>, after: map<CardRef, Card>, refs: seq<CardRef>)
    requires Kept(before, after)
    ensures OnlyRenumbered(before, after) && KeptOutside(before, after, refs)
  {
  }

  /** Objects that keep their records show an array the same way. */
  lemma KeptDeref(before: map<CardRef, Card>, after: map<CardRef, Card>, refs: seq<CardRef>)
    requires Held(before, refs) && Kept(before, after)
    ensures Held(after, refs) && Deref(after, refs) == Deref(before, refs)
  {
  }

  /** Objects that are at most renumbered show an array whose records are at most renumbered. */
  lemma RenumberedDeref(before: map<CardRef, Card>, after: map<CardRef, Card>, refs: seq<CardRef>)
    requires Held(before, refs) && OnlyRenumbered(before, after)
    ensures Held(after, refs)
    ensures var was, now := Deref(before, refs), Deref(after, refs);
      |now| == |was| && forall p :: 0 <= p < |was| ==> Renumbers(was[p], now[p])
  {
  }

  /** Renumbering twice is renumbering once. */
  lemma RenumberedTwice(h0: map<CardRef, Card>, h1: map<CardRef, Card>, h2: map<CardRef, Card>)
    requires OnlyRenumbered(h0, h1) && OnlyRenumbered(h1, h2)
    ensures OnlyRenumbered(h0, h2)
  {
    forall ref | ref in h0 ensures ref in h2 && Renumbers(h0[ref], h2[ref]) {
      assert Renumbers(h0[ref], h1[ref]) && Renumbers(h1[ref], h2[ref]);
    }
  }

  /** The remote store: `serverData.lists`, and `serverData.cards` as an array of card
      objects. Objects are never freed: one dropped from the store lives on in any array that
      still holds it. */
  class RemoteStore {
    var lists: seq<List>
    var cardRefs: seq<CardRef>
    var heap: map<CardRef, Card>
    /** Where the next new object goes: every allocated reference is below it. */
    var nextRef: CardRef

    /** Each stored card is its own live object. */
    ghost predicate Valid()
      reads this
    {
      && Held(heap, cardRefs) && Distinct(cardRefs)
      && forall ref :: ref in heap ==> ref < nextRef
    }

    /** The records `serverData.cards` shows. */
    function Cards(): seq<Card>
      reads this
      requires Valid()
    {
      Deref(heap, cardRefs)
    }

    /** `serverData` starts with no lists and no cards. */
    constructor()
      ensures Valid() && lists == [] && Cards() == []
    {
      lists := [];
      cardRefs := [];
      heap := map[];
      nextRef := 0;
    }

    /** `{ ...record }`: a new object holding `c`. */
    method Allocate(c: Card) returns (ref: CardRef)
      requires Valid()
      modifies this
      ensures Valid() && ref !in old(heap) && heap == old(heap)[ref := c]
      ensures lists == old(lists) && cardRefs == old(cardRefs) && Cards() == old(Cards())
    {
      ref := nextRef;
      FreshObject(heap, cardRefs, ref, c);
      heap := heap[ref := c];
      nextRef := nextRef + 1;
    }

    /** `simulateRequest`: after the delay, the request may fail with "Simulated server error";
        whether it does is not determined by anything the model sees. */
    method SimulateRequest() returns (ok: bool)
    {
      ok :| true;
    }

    /** `fetchLists()`: a copy of the stored lists. */
    method FetchLists() returns (r: Response<seq<List>>)
      ensures r.Ok? ==> r.value == lists
      ensures r.Failed? ==> r.error == ServerError
    {
      var ok := SimulateRequest();
      if !ok {
        return Failed(ServerError);
      }
      r := Ok(lists);
    }

    /** `fetchCards()`: a new array holding the stored card objects themselves. */
    method FetchCards() returns (r: Response<seq<CardRef>>)
      requires Valid()
      ensures r.Ok? ==> r.value == cardRefs && Deref(heap, r.value) == Cards()
      ensures r.Failed? ==> r.error == ServerError
    {
      var ok := SimulateRequest();
      if !ok {
        return Failed(ServerError);
      }
      r := Ok(cardRefs);
    }

    /** `createList(list)`: appends the new record and returns a copy of it. */
    method CreateList(list: ListPatch, generated: string, now: int) returns (r: Response<List>)
      requires Valid()
      modifies this
      ensures r.Failed? ==> r.error == ServerError && lists == old(lists)
      ensures r.Ok? ==> r.value == NewList(list, generated, now) && lists == old(lists) + [r.value]
      ensures cardRefs == old(cardRefs) && heap == old(heap) && nextRef == old(nextRef)
      ensures Valid() && Cards() == old(Cards())
    {
      var ok := SimulateRequest();
      if !ok {
        return Failed(ServerError);
      }
      var newList := NewList(list, generated, now);
      lists := lists + [newList];
      r := Ok(newList);
    }

    /** `updateList(listId, updates)`: replaces the first list with that id by the updated record. */
    method UpdateList(listId: string, updates: ListPatch, now: int) returns (r: Response<List>)
      requires Valid()
      modifies this
      ensures r.Failed? ==> lists == old(lists)
      ensures r.Failed? ==> r.error == ServerError || (r.error == ListNotFound && ListIndex(lists, listId) == -1)
      ensures r.Ok? ==>
        var i := ListIndex(old(lists), listId);
        0 <= i && r.value == UpdatedList(old(lists)[i], updates, now) && lists == old(lists)[i := r.value]
      ensures cardRefs == old(cardRefs) && heap == old(heap) && nextRef == old(nextRef)
      ensures Valid() && Cards() == old(Cards())
    {
      var ok := SimulateRequest();
      if !ok {
        return Failed(ServerError);
      }
      var index := ListIndex(lists, listId);
      if index == -1 {
        return Failed(ListNotFound);
      }
      var updated := UpdatedList(lists[index], updates, now);
      lists := lists[index := updated];
      r := Ok(updated);
    }

    /** `deleteList(listId)`: removes the first list with that id, and makes `serverData.cards`
        a new array of the objects of the other lists. */
    method DeleteList(listId: string) returns (r: Response<bool>)
      requires Valid()
      modifies this
      ensures Valid() && heap == old(heap)
      ensures r.Failed? ==> lists == old(lists) && cardRefs == old(cardRefs) && Cards() == old(Cards())
      ensures r.Failed? ==> r.error == ServerError || (r.error == ListNotFound && ListIndex(lists, listId) == -1)
      ensures r.Ok? ==>
        var i := ListIndex(old(lists), listId);
        && 0 <= i && lists == old(lists)[..i] + old(lists)[i + 1..] && Cards() == CardsOutside(old(Cards()), listId)
        && cardRefs == RefsOutside(old(heap), old(cardRefs), listId)
    {
      var ok := SimulateRequest();
      if !ok {
        return Failed(ServerError);
      }
      var index := ListIndex(lists, listId);
      if index == -1 {
        return Failed(ListNotFound);
      }
      lists := lists[..index] + lists[index + 1..];
      cardRefs := RefsOutside(heap, cardRefs, listId);
      r := Ok(true);
    }

    /** `createCard(card)`: pushes a new object holding the new record and returns a copy of it. */
    method CreateCard(card: CardPatch, generated: string, now: int) returns (r: Response<Card>)
      requires Valid()
      modifies this
      ensures Valid() && Kept(old(heap), heap)
      ensures r.Failed? ==> r.error == ServerError && cardRefs == old(cardRefs) && heap == old(heap) && Cards() == old(Cards())
      ensures r.Ok? ==> r.value == NewCard(card, generated, now) && Cards() == old(Cards()) + [r.value]
      ensures r.Ok? ==>
        && |cardRefs| == |old(cardRefs)| + 1 && cardRefs[..|old(cardRefs)|] == old(cardRefs)
        && cardRefs[|old(cardRefs)|] !in old(heap)
      ensures lists == old(lists)
    {
      var ok := SimulateRequest();
      if !ok {
        return Failed(ServerError);
      }
      var newCard := NewCard(card, generated, now);
      var ref := Allocate(newCard);
      cardRefs := cardRefs + [ref];
      r := Ok(newCard);
    }

    /** `updateCard(cardId, updates)`: puts a new object holding the updated record in the slot
        of the first card with that id; the replaced object itself is left as it was. */
    method UpdateCard(cardId: string, updates: CardPatch, now: int) returns (r: Response<Card>)
      requires Valid()
      modifies this
      ensures Valid() && Kept(old(heap), heap)
      ensures r.Failed? ==> cardRefs == old(cardRefs) && heap == old(heap) && Cards() == old(Cards())
      ensures r.Failed? ==> r.error == ServerError || (r.error == CardNotFound && CardIndex(Cards(), cardId) == -1)
      ensures r.Ok? ==>
        var i := CardIndex(old(Cards()), cardId);
        && 0 <= i && r.value == UpdatedCard(old(Cards())[i], updates, now) && Cards() == old(Cards())[i := r.value]
        && |cardRefs| == |old(cardRefs)| && cardRefs == old(cardRefs)[i := cardRefs[i]] && cardRefs[i] !in old(heap)
      ensures lists == old(lists)
    {
      var ok := SimulateRequest();
      if !ok {
        return Failed(ServerError);
      }
      var index := CardIndex(Cards(), cardId);
      if index == -1 {
        return Failed(CardNotFound);
      }
      var updated := UpdatedCard(heap[cardRefs[index]], updates, now);
      var ref := Allocate(updated);
      cardRefs := cardRefs[index := ref];
      r := Ok(updated);
    }

    /** `deleteCard(cardId)`: splices out the first card with that id. */
    method DeleteCard(cardId: string) returns (r: Response<bool>)
      requires Valid()
      modifies this
      ensures Valid() && heap == old(heap)
      ensures r.Failed? ==> cardRefs == old(cardRefs) && Cards() == old(Cards())
      ensures r.Failed? ==> r.error == ServerError || (r.error == CardNotFound && CardIndex(Cards(), cardId) == -1)
      ensures r.Ok? ==>
        var i := CardIndex(old(Cards()), cardId);
        && 0 <= i && Cards() == old(Cards())[..i] + old(Cards())[i + 1..]
        && cardRefs == old(cardRefs)[..i] + old(cardRefs)[i + 1..]
      ensures lists == old(lists)
    {
      var ok := SimulateRequest();
      if !ok {
        return Failed(ServerError);
      }
      var index := CardIndex(Cards(), cardId);
      if index == -1 {
        return Failed(CardNotFound);
      }
      SpliceOut(heap, cardRefs, index);
      cardRefs := cardRefs[..index] + cardRefs[index + 1..];
      r := Ok(true);
    }

    /** `moveCard(cardId, newListId, newIndex)`: renumbers the moved card's old list without it,
        then the target list with it, writing onto the stored card objects themselves. */
    method MoveCard(cardId: string, newListId: string, newIndex: int, now: int) returns (r: Response<bool>)
      requires Valid()
      modifies this
      ensures Valid() && cardRefs == old(cardRefs) && heap.Keys == old(heap.Keys)
      ensures OnlyRenumbered(old(heap), heap) && KeptOutside(old(heap), heap, cardRefs)
      ensures r.Failed? ==> heap == old(heap) && Cards() == old(Cards())
      ensures r.Failed? ==> r.error == ServerError || (r.error == CardNotFound && CardIndex(Cards(), cardId) == -1)
      ensures r.Ok? ==>
        var at := CardIndex(old(Cards()), cardId);
        0 <= at && Cards() == MovedCards(old(Cards()), at, cardId, newListId, newIndex, now)
      ensures lists == old(lists)
    {
      var ok := SimulateRequest();
      if !ok {
        return Failed(ServerError);
      }
      var at := CardIndex(Cards(), cardId);
      if at == -1 {
        return Failed(CardNotFound);
      }
      var source := MoveSourceAt(Cards(), at, cardId);
      var target := MoveTargetAt(Cards(), at, cardId, newListId, newIndex);
      RenumberInPlace(source, None, now);
      RenumberInPlace(target, Some(newListId), now);
      r := Ok(true);
    }

    /** A `forEach` over stored card objects given by position: the i-th gets the order `i`, the
        time `now` and, when `newList` is given, that list. */
    method RenumberInPlace(positions: seq<nat>, newList: Option<string>, now: int)
      requires Valid() && InBounds(positions, |cardRefs|)
      modifies this
      ensures Valid() && Cards() == Renumbered(old(Cards()), positions, newList, now)
      ensures lists == old(lists) && cardRefs == old(cardRefs) && heap.Keys == old(heap.Keys)
      ensures OnlyRenumbered(old(heap), heap) && KeptOutside(old(heap), heap, cardRefs)
    {
      ghost var before := Cards();
      var i := 0;
      while i < |positions|
        invariant 0 <= i <= |positions|
        invariant Valid() && lists == old(lists) && cardRefs == old(cardRefs) && heap.Keys == old(heap.Keys)
        invariant Cards() == Renumbered(before, positions[..i], newList, now)
        invariant OnlyRenumbered(old(heap), heap) && KeptOutside(old(heap), heap, cardRefs)
      {
        assert positions[..i + 1][..i] == positions[..i];
        var ref := cardRefs[positions[i]];
        var c := heap[ref];
        var written := c.(order := i, listId := newList.GetOr(c.listId), lastModifiedAt := now);
        WriteThrough(heap, cardRefs, positions[i], written);
        heap := heap[ref := written];
        i := i + 1;
      }
      assert positions[..i] == positions;
    }

    /** `syncAll(lists, cards)`: replaces both collections by new objects holding the given
        records, each one version further, and returns new arrays of them. */
    method SyncAll(newLists: seq<List>, newCards: seq<Card>, now: int) returns (r: Response<(seq<List>, seq<CardRef>)>)
      requires Valid()
      modifies this
      ensures Valid() && Kept(old(heap), heap)
      ensures r.Failed? ==> r.error == ServerError && lists == old(lists) && cardRefs == old(cardRefs) && heap == old(heap)
      ensures r.Ok? ==>
        && lists == ResyncedLists(newLists, now) && Cards() == ResyncedCards(newCards, now)
        && r.value == (lists, cardRefs) && forall p :: 0 <= p < |cardRefs| ==> cardRefs[p] !in old(heap)
    {
      var ok := SimulateRequest();
      if !ok {
        return Failed(ServerError);
      }
      var records := ResyncedCards(newCards, now);
      var refs := [];
      while |refs| < |records|
        invariant Valid() && lists == old(lists) && cardRefs == old(cardRefs)
        invariant Held(heap, refs) && Distinct(refs) && |refs| <= |records|
        invariant Deref(heap, refs) == records[..|refs|]
        invariant Kept(old(heap), heap)
        invariant forall p :: 0 <= p < |refs| ==> refs[p] !in old(heap)
      {
        ghost var before := heap;
        var ref := Allocate(records[|refs|]);
        FreshObject(before, refs, ref, records[|refs|]);
        assert records[..|refs| + 1] == records[..|refs|] + [records[|refs|]];
        refs := refs + [ref];
      }
      lists := ResyncedLists(newLists, now);
      cardRefs := refs;
      r := Ok((lists, cardRefs));
    }

    /** `resetServerData()`: empties the store; this one never fails. */
    method ResetServerData()
      requires Valid()
      modifies this
      ensures Valid() && lists == [] && Cards() == [] && heap == old(heap)
    {
      lists := [];
      cardRefs := [];
    }
  }
}
