/** Properties of the remote store's operations: the cascade of `deleteList`, the round trip of
    `createCard` and `deleteCard`, the version bump of `syncAll`, and the renumbering `moveCard`
    performs through the shared card objects. */
module ApiProps {
  import opened Wrappers
  import opened Entities
  import opened Api
  import JsArray

  /** `deleteList`'s filter keeps exactly the cards of other lists, in their order. */
  lemma {:induction false} CardsOutsideCascade(cards: seq<Card>, listId: string)
    ensures var r := CardsOutside(cards, listId);
      && |r| == |cards| - CountInList(cards, listId)
      && (forall c :: c in r ==> c.listId != listId)
      && (forall i :: 0 <= i < |cards| && cards[i].listId != listId ==> cards[i] in r)
  {
    if cards != [] {
      var init := cards[..|cards| - 1];
      CardsOutsideCascade(init, listId);
      forall i | 0 <= i < |cards| - 1 && cards[i].listId != listId
        ensures cards[i] in CardsOutside(cards, listId)
      {
        assert cards[i] == init[i];
      }
    }
  }

  /** A card created under an id the store does not hold yet is the one `deleteCard` then
      removes, and the store is back to what it was. */
  lemma CreateThenDeleteCard(cards: seq<Card>, card: CardPatch, generated: string, now: int)
    requires CardIndex(cards, IdOr(card.id, generated)) == -1
    ensures var created := cards + [NewCard(card, generated, now)];
      var i := CardIndex(created, IdOr(card.id, generated));
      i == |cards| && created[..i] + created[i + 1..] == cards
  {
    AppendThenRemove(cards, NewCard(card, generated, now));
  }

  lemma AppendThenRemove(cards: seq<Card>, c: Card)
    requires CardIndex(cards, c.id) == -1
    ensures var i := CardIndex(cards + [c], c.id);
      i == |cards| && (cards + [c])[..i] + (cards + [c])[i + 1..] == cards
  {
    var created := cards + [c];
    CardIndexAppend(cards, c, c.id);
    assert created[..|cards|] == cards;
  }

  /** Looking an id up after an append finds the earlier card if there is one, and the
      appended card otherwise. */
  lemma {:induction false} CardIndexAppend(cards: seq<Card>, c: Card, id: string)
    ensures CardIndex(cards + [c], id) ==
      if CardIndex(cards, id) != -1 then CardIndex(cards, id) else if c.id == id then |cards| else -1
  {
    if cards != [] && cards[0].id != id {
      assert (cards + [c])[1..] == cards[1..] + [c];
      CardIndexAppend(cards[1..], c, id);
    }
  }

  /** A created record keeps a non-empty id from the payload and takes the generated one
      otherwise; it starts at version 1 and the payload's other keys carry over. */
  lemma NewListFromPayload(list: ListPatch, generated: string, now: int)
    ensures var l := NewList(list, generated, now);
      && (list.id.Some? && list.id.value != "" ==> l.id == list.id.value)
      && (list.id.None? || list.id == Some("") ==> l.id == generated)
      && l.version == 1 && l.lastModifiedAt == now
      && (list.title.Some? ==> l.title == list.title.value)
      && (list.order.Some? ==> l.order == list.order.value)
  {
  }

  lemma NewCardFromPayload(card: CardPatch, generated: string, now: int)
    ensures var c := NewCard(card, generated, now);
      && (card.id.Some? && card.id.value != "" ==> c.id == card.id.value)
      && (card.id.None? || card.id == Some("") ==> c.id == generated)
      && c.version == 1 && c.lastModifiedAt == now
      && (card.title.Some? ==> c.title == card.title.value)
      && (card.listId.Some? ==> c.listId == card.listId.value)
  {
  }

  /** `syncAll` keeps every record but its version, which grows by one, and its time. */
  lemma ResyncKeepsRecords(lists: seq<List>, cards: seq<Card>, now: int)
    ensures forall i :: 0 <= i < |lists| ==>
      ResyncedLists(lists, now)[i].(version := lists[i].version, lastModifiedAt := lists[i].lastModifiedAt) == lists[i]
      && ResyncedLists(lists, now)[i].version == lists[i].version + 1
    ensures forall i :: 0 <= i < |cards| ==>
      ResyncedCards(cards, now)[i].(version := cards[i].version, lastModifiedAt := cards[i].lastModifiedAt) == cards[i]
      && ResyncedCards(cards, now)[i].version == cards[i].version + 1
  {
  }

  // ---------------------------------------------------------------------------------------
  // Distinct positions

  /** A sequence has no repeated element exactly when no element occurs twice in its multiset. */
  lemma {:induction false} DistinctIffSingleOccurrences<T>(s: seq<T>)
    ensures Distinct(s) <==> forall x :: multiset(s)[x] <= 1
  {
    if s != [] {
      var init := s[..|s| - 1];
      var y := s[|s| - 1];
      assert s == init + [y];
      DistinctIffSingleOccurrences(init);
      if Distinct(s) {
        assert y !in init by {
          forall j | 0 <= j < |init| ensures init[j] != y {
            assert init[j] == s[j];
          }
        }
        assert Distinct(init) by {
          forall i, j | 0 <= i < j < |init| ensures init[i] != init[j] {
            assert init[i] == s[i] && init[j] == s[j];
          }
        }
      }
      if forall x :: multiset(s)[x] <= 1 {
        assert forall x :: multiset(init)[x] <= multiset(s)[x];
        assert multiset(init)[y] == 0;
        forall i, j | 0 <= i < j < |s| ensures s[i] != s[j] {
          if j < |s| - 1 {
            assert s[i] == init[i] && s[j] == init[j];
          } else {
            assert s[i] in init;
          }
        }
      }
    }
  }

  /** Sorting a sequence of distinct positions leaves them distinct. */
  lemma SortKeepsDistinct(s: seq<nat>, key: nat -> int)
    requires Distinct(s)
    ensures Distinct(JsArray.SortBy(s, key))
  {
    DistinctIffSingleOccurrences(s);
    DistinctIffSingleOccurrences(JsArray.SortBy(s, key));
  }

  lemma SpliceRemoveKeepsDistinct(s: seq<nat>, start: int)
    requires Distinct(s)
    ensures Distinct(JsArray.SpliceRemove(s, start))
    ensures forall x :: x in JsArray.SpliceRemove(s, start) ==> x in s
  {
    var p := JsArray.RelativeIndex(start, |s|);
    var r := JsArray.SpliceRemove(s, start);
    if p < |s| {
      forall i | 0 <= i < |r| ensures r[i] == s[if i < p then i else i + 1] {
      }
    }
  }

  lemma SpliceInsertKeepsDistinct(s: seq<nat>, start: int, x: nat)
    requires Distinct(s) && x !in s
    ensures Distinct(JsArray.SpliceInsert(s, start, x))
    ensures forall y :: y in JsArray.SpliceInsert(s, start, x) ==> y in s || y == x
    ensures JsArray.SpliceInsert(s, start, x)[JsArray.RelativeIndex(start, |s|)] == x
  {
    var p := JsArray.RelativeIndex(start, |s|);
    var r := JsArray.SpliceInsert(s, start, x);
    forall i | 0 <= i < |r| ensures r[i] == if i < p then s[i] else if i == p then x else s[i - 1] {
    }
  }

  // ---------------------------------------------------------------------------------------
  // Renumbering through positions

  /** A card whose position the `forEach` does not visit is untouched. */
  lemma {:induction false} RenumberedOutside(cards: seq<Card>, positions: seq<nat>, newList: Option<string>, now: int, i: nat)
    requires InBounds(positions, |cards|)
    requires i < |cards| && i !in positions
    ensures Renumbered(cards, positions, newList, now)[i] == cards[i]
  {
    if positions != [] {
      var k := |positions| - 1;
      assert positions[..k] + [positions[k]] == positions;
      RenumberedOutside(cards, positions[..k], newList, now, i);
    }
  }

  /** The card at the p-th visited position gets order `p`, the time `now` and, when given,
      the new list; when positions are distinct nothing later overwrites it. */
  lemma {:induction false} RenumberedInside(cards: seq<Card>, positions: seq<nat>, newList: Option<string>, now: int, p: nat)
    requires InBounds(positions, |cards|) && Distinct(positions)
    requires p < |positions|
    ensures var c := cards[positions[p]];
      Renumbered(cards, positions, newList, now)[positions[p]]
        == c.(order := p, listId := newList.GetOr(c.listId), lastModifiedAt := now)
  {
    var k := |positions| - 1;
    var init := positions[..k];
    if p < k {
      assert positions[p] == init[p] && positions[p] != positions[k];
      RenumberedInside(cards, init, newList, now, p);
    } else {
      assert positions[k] !in init by {
        forall q | 0 <= q < k ensures init[q] != positions[k] {
          assert init[q] == positions[q];
        }
      }
      RenumberedOutside(cards, init, newList, now, positions[k]);
    }
  }

  /** Renumbering changes a card's order, list and time, and nothing else. */
  lemma {:induction false} RenumberedKeepsRecords(cards: seq<Card>, positions: seq<nat>, newList: Option<string>, now: int)
    requires InBounds(positions, |cards|)
    ensures var r := Renumbered(cards, positions, newList, now);
      forall i :: 0 <= i < |cards| ==>
        && r[i] == cards[i].(order := r[i].order, listId := r[i].listId, lastModifiedAt := r[i].lastModifiedAt)
        && (newList.None? ==> r[i].listId == cards[i].listId)
  {
    if positions != [] {
      RenumberedKeepsRecords(cards, positions[..|positions| - 1], newList, now);
    }
  }

  // ---------------------------------------------------------------------------------------
  // moveCard

  /** The target pass gives the p-th visited card order `p` and the target list. */
  lemma PassesNumberTarget(cards: seq<Card>, source: seq<nat>, target: seq<nat>, newListId: string, now: int, p: nat)
    requires InBounds(source, |cards|) && InBounds(target, |cards|) && Distinct(target)
    requires p < |target|
    ensures TwoPasses(cards, source, target, newListId, now)[target[p]].order == p
    ensures TwoPasses(cards, source, target, newListId, now)[target[p]].listId == newListId
  {
    RenumberedInside(Renumbered(cards, source, None, now), target, Some(newListId), now, p);
  }

  /** A card the source pass visits and the target pass does not keeps its place in the source
      pass and its list. */
  lemma PassesNumberSource(cards: seq<Card>, source: seq<nat>, target: seq<nat>, newListId: string, now: int, p: nat)
    requires InBounds(source, |cards|) && InBounds(target, |cards|) && Distinct(source)
    requires p < |source| && source[p] !in target
    ensures TwoPasses(cards, source, target, newListId, now)[source[p]].order == p
    ensures TwoPasses(cards, source, target, newListId, now)[source[p]].listId == cards[source[p]].listId
  {
    RenumberedInside(cards, source, None, now, p);
    RenumberedOutside(Renumbered(cards, source, None, now), target, Some(newListId), now, source[p]);
  }

  /** A card neither pass visits is untouched. */
  lemma PassesOutside(cards: seq<Card>, source: seq<nat>, target: seq<nat>, newListId: string, now: int, i: nat)
    requires InBounds(source, |cards|) && InBounds(target, |cards|)
    requires i < |cards| && i !in source && i !in target
    ensures TwoPasses(cards, source, target, newListId, now)[i] == cards[i]
  {
    RenumberedOutside(cards, source, None, now, i);
    RenumberedOutside(Renumbered(cards, source, None, now), target, Some(newListId), now, i);
  }

  /** A card the target pass does not visit keeps its list. */
  lemma PassesKeepList(cards: seq<Card>, source: seq<nat>, target: seq<nat>, newListId: string, now: int, i: nat)
    requires InBounds(source, |cards|) && InBounds(target, |cards|)
    requires i < |cards| && i !in target
    ensures TwoPasses(cards, source, target, newListId, now)[i].listId == cards[i].listId
  {
    RenumberedKeepsRecords(cards, source, None, now);
    RenumberedOutside(Renumbered(cards, source, None, now), target, Some(newListId), now, i);
  }

  /** Both passes change a card's order, list and time, and nothing else. */
  lemma PassesKeepRecords(cards: seq<Card>, source: seq<nat>, target: seq<nat>, newListId: string, now: int)
    requires InBounds(source, |cards|) && InBounds(target, |cards|)
    ensures var r := TwoPasses(cards, source, target, newListId, now);
      forall i :: 0 <= i < |cards| ==>
        r[i] == cards[i].(order := r[i].order, listId := r[i].listId, lastModifiedAt := r[i].lastModifiedAt)
  {
    RenumberedKeepsRecords(cards, source, None, now);
    RenumberedKeepsRecords(Renumbered(cards, source, None, now), target, Some(newListId), now);
  }

  /** The positions `newListCards` visits are distinct, the moved card is among them at the
      clamped `newIndex`, and every other one held a card of the target list. */
  lemma TargetShape(cards: seq<Card>, at: nat, cardId: string, newListId: string, newIndex: int)
    requires at < |cards| && cards[at].id == cardId
    ensures var target := MoveTargetAt(cards, at, cardId, newListId, newIndex);
      && Distinct(target)
      && target[JsArray.RelativeIndex(newIndex, |target| - 1)] == at
      && forall y :: y in target && y != at ==> y < |cards| && cards[y].listId == newListId && cards[y].id != cardId
  {
    var others := ListPositions(cards, newListId, Some(cardId));
    var sorted := JsArray.SortBy<nat>(others, OrderAt(cards));
    SortKeepsDistinct(others, OrderAt(cards));
    SortSameMembers(others, OrderAt(cards));
    assert at !in others;
    SpliceInsertKeepsDistinct(sorted, newIndex, at);
  }

  /** Sorting keeps the same members. */
  lemma SortSameMembers(s: seq<nat>, key: nat -> int)
    ensures forall y :: y in JsArray.SortBy(s, key) <==> y in s
  {
    forall y ensures y in JsArray.SortBy(s, key) <==> y in s {
      assert y in JsArray.SortBy(s, key) <==> y in multiset(s);
    }
  }

  /** The positions `oldListCards` visits are distinct and held cards of the moved card's list. */
  lemma SourceShape(cards: seq<Card>, at: nat, cardId: string)
    requires at < |cards|
    ensures var source := MoveSourceAt(cards, at, cardId);
      && Distinct(source)
      && forall y :: y in source ==> y < |cards| && cards[y].listId == cards[at].listId
  {
    var all := ListPositions(cards, cards[at].listId, None);
    var sorted := JsArray.SortBy<nat>(all, OrderAt(cards));
    SortKeepsDistinct(all, OrderAt(cards));
    SpliceRemoveKeepsDistinct(sorted, FirstWithId(cards, sorted, cardId));
    forall y | y in sorted ensures y < |cards| && cards[y].listId == cards[at].listId {
      assert y in multiset(all);
    }
  }

  /** With unique ids, `oldListCards` loses exactly the moved card: it is every other card of
      the moved card's list. */
  lemma SourceWithoutMoved(cards: seq<Card>, at: nat, cardId: string)
    requires UniqueCardIds(cards)
    requires at < |cards| && cards[at].id == cardId
    ensures at !in MoveSourceAt(cards, at, cardId)
    ensures |MoveSourceAt(cards, at, cardId)| == CountInList(cards, cards[at].listId) - 1
  {
    var all := ListPositions(cards, cards[at].listId, None);
    var sorted := JsArray.SortBy<nat>(all, OrderAt(cards));
    SortKeepsDistinct(all, OrderAt(cards));
    PositionsCount(cards, cards[at].listId);
    assert at in multiset(sorted) by {
      assert at in all;
    }
    var f := FirstWithId(cards, sorted, cardId);
    assert f != -1;
    assert sorted[f] == at;
    RemovedOnce(sorted, f);
  }

  /** Splicing out a position of a distinct sequence removes its element for good. */
  lemma RemovedOnce(s: seq<nat>, f: nat)
    requires Distinct(s) && f < |s|
    ensures s[f] !in JsArray.SpliceRemove(s, f)
    ensures |JsArray.SpliceRemove(s, f)| == |s| - 1
  {
    var r := JsArray.SpliceRemove(s, f);
    assert r == s[..f] + s[f + 1..];
    forall q | 0 <= q < |r| ensures r[q] != s[f] {
      if q < f {
        assert r[q] == s[q];
      } else {
        assert r[q] == s[q + 1];
      }
    }
  }

  /** The list's positions are as many as its cards. */
  lemma {:induction false} PositionsCount(cards: seq<Card>, listId: string)
    ensures |ListPositions(cards, listId, None)| == CountInList(cards, listId)
  {
    if cards != [] {
      PositionsCount(cards[..|cards| - 1], listId);
    }
  }

  /** After a move, every card visited by `newListCards` sits in the target list with order
      equal to its place there, and the moved card is at the clamped `newIndex`. */
  lemma MoveNumbersTarget(cards: seq<Card>, at: nat, cardId: string, newListId: string, newIndex: int, now: int)
    requires at < |cards| && cards[at].id == cardId
    ensures var target := MoveTargetAt(cards, at, cardId, newListId, newIndex);
      var moved := MovedCards(cards, at, cardId, newListId, newIndex, now);
      && (forall p :: 0 <= p < |target| ==> moved[target[p]].order == p && moved[target[p]].listId == newListId)
      && moved[at].order == JsArray.RelativeIndex(newIndex, |target| - 1)
      && moved[at].listId == newListId
  {
    var source := MoveSourceAt(cards, at, cardId);
    var target := MoveTargetAt(cards, at, cardId, newListId, newIndex);
    TargetShape(cards, at, cardId, newListId, newIndex);
    forall p | 0 <= p < |target|
      ensures TwoPasses(cards, source, target, newListId, now)[target[p]].order == p
      ensures TwoPasses(cards, source, target, newListId, now)[target[p]].listId == newListId
    {
      PassesNumberTarget(cards, source, target, newListId, now, p);
    }
    PassesNumberTarget(cards, source, target, newListId, now, JsArray.RelativeIndex(newIndex, |target| - 1));
  }

  /** A move changes no card's id, title, description, tags or version, and keeps the store's
      order of cards. */
  lemma MoveKeepsRecords(cards: seq<Card>, at: nat, cardId: string, newListId: string, newIndex: int, now: int)
    requires at < |cards|
    ensures var moved := MovedCards(cards, at, cardId, newListId, newIndex, now);
      forall i :: 0 <= i < |cards| ==>
        moved[i] == cards[i].(order := moved[i].order, listId := moved[i].listId, lastModifiedAt := moved[i].lastModifiedAt)
  {
    PassesKeepRecords(cards, MoveSourceAt(cards, at, cardId), MoveTargetAt(cards, at, cardId, newListId, newIndex), newListId, now);
  }

  /** Cards of neither the moved card's list nor the target list are untouched. */
  lemma MoveLeavesOtherLists(cards: seq<Card>, at: nat, cardId: string, newListId: string, newIndex: int, now: int, i: nat)
    requires at < |cards| && cards[at].id == cardId
    requires i < |cards| && cards[i].listId != cards[at].listId && cards[i].listId != newListId
    ensures MovedCards(cards, at, cardId, newListId, newIndex, now)[i] == cards[i]
  {
    SourceShape(cards, at, cardId);
    TargetShape(cards, at, cardId, newListId, newIndex);
    PassesOutside(cards, MoveSourceAt(cards, at, cardId), MoveTargetAt(cards, at, cardId, newListId, newIndex), newListId, now, i);
  }

  /** In a move to another list with unique card ids, the cards left behind are renumbered
      `0 .. n-2` in their sorted order and stay in their list. */
  lemma CrossListMoveRenumbersSource(cards: seq<Card>, at: nat, cardId: string, newListId: string, newIndex: int, now: int)
    requires UniqueCardIds(cards)
    requires at < |cards| && cards[at].id == cardId && cards[at].listId != newListId
    ensures var source := MoveSourceAt(cards, at, cardId);
      var moved := MovedCards(cards, at, cardId, newListId, newIndex, now);
      && |source| == CountInList(cards, cards[at].listId) - 1
      && forall p :: 0 <= p < |source| ==> moved[source[p]].order == p && moved[source[p]].listId == cards[at].listId
  {
    var source := MoveSourceAt(cards, at, cardId);
    var target := MoveTargetAt(cards, at, cardId, newListId, newIndex);
    SourceShape(cards, at, cardId);
    SourceWithoutMoved(cards, at, cardId);
    TargetShape(cards, at, cardId, newListId, newIndex);
    forall p | 0 <= p < |source|
      ensures TwoPasses(cards, source, target, newListId, now)[source[p]].order == p
      ensures TwoPasses(cards, source, target, newListId, now)[source[p]].listId == cards[at].listId
    {
      assert source[p] in source;
      PassesNumberSource(cards, source, target, newListId, now, p);
    }
  }

  /** With unique card ids, the cards in the target list after a move are exactly those
      `newListCards` visited, so their orders are exactly `0 .. m`. */
  lemma MoveTargetIsTheNewList(cards: seq<Card>, at: nat, cardId: string, newListId: string, newIndex: int, now: int, i: nat)
    requires UniqueCardIds(cards)
    requires at < |cards| && cards[at].id == cardId && i < |cards|
    ensures var target := MoveTargetAt(cards, at, cardId, newListId, newIndex);
      MovedCards(cards, at, cardId, newListId, newIndex, now)[i].listId == newListId <==> i in target
  {
    var source := MoveSourceAt(cards, at, cardId);
    var target := MoveTargetAt(cards, at, cardId, newListId, newIndex);
    TargetShape(cards, at, cardId, newListId, newIndex);
    if i in target {
      var p :| 0 <= p < |target| && target[p] == i;
      PassesNumberTarget(cards, source, target, newListId, now, p);
    } else {
      PassesKeepList(cards, source, target, newListId, now, i);
      if cards[i].listId == newListId {
        assert i != at;
        assert cards[i].id != cardId;
        InTargetList(cards, at, cardId, newListId, newIndex, i);
      }
    }
  }

  /** A card of the target list with another id is visited by `newListCards`. */
  lemma InTargetList(cards: seq<Card>, at: nat, cardId: string, newListId: string, newIndex: int, i: nat)
    requires at < |cards| && i < |cards| && cards[i].listId == newListId && cards[i].id != cardId
    ensures i in MoveTargetAt(cards, at, cardId, newListId, newIndex)
  {
    var others := ListPositions(cards, newListId, Some(cardId));
    assert i in others;
    SortKeepsMember(others, OrderAt(cards), i);
    SpliceInsertKeepsMember(JsArray.SortBy<nat>(others, OrderAt(cards)), newIndex, at, i);
  }

  lemma SortKeepsMember(s: seq<nat>, key: nat -> int, y: nat)
    requires y in s
    ensures y in JsArray.SortBy(s, key)
  {
    assert y in multiset(s);
  }

  lemma SpliceInsertKeepsMember(s: seq<nat>, start: int, x: nat, y: nat)
    requires y in s
    ensures y in JsArray.SpliceInsert(s, start, x)
  {
    var p := JsArray.RelativeIndex(start, |s|);
    var k :| 0 <= k < |s| && s[k] == y;
    if k < p {
      assert JsArray.SpliceInsert(s, start, x)[k] == y;
    } else {
      assert JsArray.SpliceInsert(s, start, x)[k + 1] == y;
    }
  }

  /** `createList({ title: 'Test List' })` answers with that title under the generated id. */
  lemma CreateListExample(generated: string, now: int)
    ensures var l := NewList(EmptyListPatch.(title := Some("Test List")), generated, now);
      l.title == "Test List" && l.id == generated && l.version == 1
  {
  }
}
