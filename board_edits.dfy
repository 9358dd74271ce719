/** What the reducer's adding, updating, archiving, deleting, reordering and clearing
    actions do to the lists and cards of the board. */
module BoardEdits {
  import opened Wrappers
  import opened Entities
  import opened Board
  import JsArray

  /** ADD_LIST appends exactly one list after the existing ones; its defaults are a fresh id,
      `order = |lists|`, `archived = false` and `version = 1`, and every key of the payload
      overrides the matching default. */
  lemma AddListAppends(s: BoardState, title: string, data: ListPatch, env: Env)
    ensures var r := Reduce(s, AddList(title, data), env);
      && |r.lists| == |s.lists| + 1
      && r.lists[..|s.lists|] == s.lists
      && r.cards == s.cards
      && r.lists[|s.lists|].id == data.id.GetOr(env.freshId)
      && r.lists[|s.lists|].title == data.title.GetOr(title)
      && r.lists[|s.lists|].order == data.order.GetOr(|s.lists|)
      && r.lists[|s.lists|].archived == data.archived.GetOr(false)
      && r.lists[|s.lists|].version == data.version.GetOr(1)
      && r.lists[|s.lists|].lastModifiedAt == data.lastModifiedAt.GetOr(env.now)
  {
  }

  /** ADD_CARD appends exactly one card. Its `order` defaults to the number of cards already
      in its list, its title to "New Card", its description to "" and its tags to []; the
      payload `{ listId, ...data }` overrides every default it has a key for. */
  lemma AddCardAppends(s: BoardState, listId: string, data: CardPatch, env: Env)
    ensures var r := Reduce(s, AddCard(listId, data), env);
      var target := data.listId.GetOr(listId);
      && |r.cards| == |s.cards| + 1
      && r.cards[..|s.cards|] == s.cards
      && r.lists == s.lists
      && r.cards[|s.cards|].id == data.id.GetOr(env.freshId)
      && r.cards[|s.cards|].listId == target
      && r.cards[|s.cards|].title == data.title.GetOr("New Card")
      && r.cards[|s.cards|].description == data.description.GetOr("")
      && r.cards[|s.cards|].tags == data.tags.GetOr([])
      && r.cards[|s.cards|].order == data.order.GetOr(|CardsInList(s.cards, target, None)|)
      && r.cards[|s.cards|].lastModifiedAt == data.lastModifiedAt.GetOr(env.now)
      && r.cards[|s.cards|].version == data.version.GetOr(1)
  {
    CountIsFilterLength(s.cards, data.listId.GetOr(listId));
  }

  /** The count the reducer takes is the length of the list's filter. */
  lemma {:induction false} CountIsFilterLength(cards: seq<Card>, listId: string)
    ensures CountInList(cards, listId) == |CardsInList(cards, listId, None)|
  {
    if cards != [] {
      CountIsFilterLength(cards[..|cards| - 1], listId);
    }
  }

  /** UPDATE_LIST merges the updates into every list with the id, bumps its version to
      `(version || 1) + 1` and stamps it; no other list changes, nor the number of lists, nor
      any card. The history is pushed even when no list has the id. */
  lemma UpdateListChangesOnlyTarget(s: BoardState, listId: string, updates: ListPatch, env: Env)
    ensures var r := Reduce(s, UpdateList(listId, updates), env);
      && |r.lists| == |s.lists|
      && r.cards == s.cards
      && (forall i :: 0 <= i < |s.lists| && s.lists[i].id != listId ==> r.lists[i] == s.lists[i])
      && (forall i :: 0 <= i < |s.lists| && s.lists[i].id == listId ==>
            r.lists[i] == OverlayList(s.lists[i], updates).(version := BumpVersion(s.lists[i].version), lastModifiedAt := env.now)
            && r.lists[i].version > s.lists[i].version)
      && ((forall i :: 0 <= i < |s.lists| ==> s.lists[i].id != listId) ==> r.lists == s.lists)
      && r.historyIndex == s.historyIndex + 1
      && r.history == JsArray.SliceTo(s.history, s.historyIndex + 1) + [s]
  {
    var r := Reduce(s, UpdateList(listId, updates), env);
    if forall i :: 0 <= i < |s.lists| ==> s.lists[i].id != listId {
      assert r.lists == s.lists;
    }
  }

  /** UPDATE_CARD: the same for cards. */
  lemma UpdateCardChangesOnlyTarget(s: BoardState, cardId: string, updates: CardPatch, env: Env)
    ensures var r := Reduce(s, UpdateCard(cardId, updates), env);
      && |r.cards| == |s.cards|
      && r.lists == s.lists
      && (forall i :: 0 <= i < |s.cards| && s.cards[i].id != cardId ==> r.cards[i] == s.cards[i])
      && (forall i :: 0 <= i < |s.cards| && s.cards[i].id == cardId ==>
            r.cards[i] == OverlayCard(s.cards[i], updates).(version := BumpVersion(s.cards[i].version), lastModifiedAt := env.now)
            && r.cards[i].version > s.cards[i].version)
      && ((forall i :: 0 <= i < |s.cards| ==> s.cards[i].id != cardId) ==> r.cards == s.cards)
      && r.historyIndex == s.historyIndex + 1
  {
    var r := Reduce(s, UpdateCard(cardId, updates), env);
    if forall i :: 0 <= i < |s.cards| ==> s.cards[i].id != cardId {
      assert r.cards == s.cards;
    }
  }

  /** ARCHIVE_LIST and UNARCHIVE_LIST set `archived` on the lists with the id and change
      nothing else: in particular neither version nor timestamp moves. */
  lemma ArchiveSetsOnlyFlag(s: BoardState, listId: string, archive: bool, env: Env)
    ensures var r := Reduce(s, if archive then ArchiveList(listId) else UnarchiveList(listId), env);
      && |r.lists| == |s.lists|
      && r.cards == s.cards
      && (forall i :: 0 <= i < |s.lists| ==>
            r.lists[i] == if s.lists[i].id == listId then s.lists[i].(archived := archive) else s.lists[i])
      && (forall i :: 0 <= i < |s.lists| ==> r.lists[i].version == s.lists[i].version)
      && r.historyIndex == s.historyIndex + 1
  {
  }

  /** Deleting by a key keeps the order of what remains: filtering a concatenation is
      concatenating the filtered parts. */
  lemma {:induction false} CardsOutsideListConcat(a: seq<Card>, b: seq<Card>, listId: string)
    ensures CardsOutsideList(a + b, listId) == CardsOutsideList(a, listId) + CardsOutsideList(b, listId)
    decreases |b|
  {
    if b == [] {
      assert a + b == a;
    } else {
      assert (a + b)[..|a + b| - 1] == a + b[..|b| - 1];
      CardsOutsideListConcat(a, b[..|b| - 1], listId);
    }
  }

  /** The same for lists. */
  lemma {:induction false} ListsWithoutConcat(a: seq<List>, b: seq<List>, id: string)
    ensures ListsWithout(a + b, id) == ListsWithout(a, id) + ListsWithout(b, id)
    decreases |b|
  {
    if b == [] {
      assert a + b == a;
    } else {
      assert (a + b)[..|a + b| - 1] == a + b[..|b| - 1];
      ListsWithoutConcat(a, b[..|b| - 1], id);
    }
  }

  lemma {:induction false} CardsOutsideListMembers(cards: seq<Card>, listId: string)
    ensures forall c :: c in CardsOutsideList(cards, listId) <==> c in cards && c.listId != listId
    ensures |CardsOutsideList(cards, listId)| + CountInList(cards, listId) == |cards|
  {
    if cards != [] {
      CardsOutsideListMembers(cards[..|cards| - 1], listId);
      assert cards == cards[..|cards| - 1] + [cards[|cards| - 1]];
    }
  }

  lemma {:induction false} ListsWithoutMembers(lists: seq<List>, id: string)
    ensures forall l :: l in ListsWithout(lists, id) <==> l in lists && l.id != id
  {
    if lists != [] {
      ListsWithoutMembers(lists[..|lists| - 1], id);
      assert lists == lists[..|lists| - 1] + [lists[|lists| - 1]];
    }
  }

  lemma {:induction false} CardsWithoutIdMembers(cards: seq<Card>, id: string)
    ensures forall c :: c in CardsWithoutId(cards, id) <==> c in cards && c.id != id
    ensures |CardsWithoutId(cards, id)| <= |cards|
  {
    if cards != [] {
      CardsWithoutIdMembers(cards[..|cards| - 1], id);
      assert cards == cards[..|cards| - 1] + [cards[|cards| - 1]];
    }
  }

  /** Every card names a list of the board. */
  ghost predicate CardsReferenceLists(s: BoardState) {
    forall c :: c in s.cards ==> exists l :: l in s.lists && l.id == c.listId
  }

  /** DELETE_LIST removes exactly the lists with the id and, cascading, exactly the cards of
      that list; all other lists and cards stay, in their order (the two filters, which split
      over concatenation by `ListsWithoutConcat` and `CardsOutsideListConcat`), and a board
      whose cards all name existing lists keeps that property. */
  lemma DeleteListCascades(s: BoardState, listId: string, env: Env)
    ensures var r := Reduce(s, DeleteList(listId), env);
      && r.lists == ListsWithout(s.lists, listId) && r.cards == CardsOutsideList(s.cards, listId)
      && (forall l :: l in r.lists <==> l in s.lists && l.id != listId)
      && (forall c :: c in r.cards <==> c in s.cards && c.listId != listId)
      && |r.cards| == |s.cards| - CountInList(s.cards, listId)
      && (CardsReferenceLists(s) ==> CardsReferenceLists(r))
      && r.historyIndex == s.historyIndex + 1
  {
    var r := Reduce(s, DeleteList(listId), env);
    ListsWithoutMembers(s.lists, listId);
    CardsOutsideListMembers(s.cards, listId);
    if CardsReferenceLists(s) {
      forall c | c in r.cards ensures exists l :: l in r.lists && l.id == c.listId {
        var l :| l in s.lists && l.id == c.listId;
        assert l in r.lists;
      }
    }
  }

  /** DELETE_CARD removes exactly the cards with the id and keeps the others; with unique
      ids, a present card makes the board exactly one card shorter. */
  lemma DeleteCardRemovesExactly(s: BoardState, cardId: string, env: Env)
    ensures var r := Reduce(s, DeleteCard(cardId), env);
      && (forall c :: c in r.cards <==> c in s.cards && c.id != cardId)
      && r.lists == s.lists
      && (UniqueCardIds(s.cards) && CardIndex(s.cards, cardId) != -1 ==> |r.cards| == |s.cards| - 1)
      && (CardsReferenceLists(s) ==> CardsReferenceLists(r))
  {
    CardsWithoutIdMembers(s.cards, cardId);
    if UniqueCardIds(s.cards) && CardIndex(s.cards, cardId) != -1 {
      DropUniqueCard(s.cards, cardId);
    }
  }

  lemma {:induction false} DropUniqueCard(cards: seq<Card>, id: string)
    requires UniqueCardIds(cards) && CardIndex(cards, id) != -1
    ensures |CardsWithoutId(cards, id)| == |cards| - 1
  {
    var last := cards[|cards| - 1];
    var init := cards[..|cards| - 1];
    assert UniqueCardIds(init);
    if last.id == id {
      NoCardWithId(init, id);
    } else {
      assert CardIndex(init, id) != -1 by {
        var k := CardIndex(cards, id);
        assert k < |cards| - 1 && init[k].id == id;
      }
      DropUniqueCard(init, id);
    }
  }

  lemma {:induction false} NoCardWithId(cards: seq<Card>, id: string)
    requires forall i :: 0 <= i < |cards| ==> cards[i].id != id
    ensures CardsWithoutId(cards, id) == cards
  {
    if cards != [] {
      NoCardWithId(cards[..|cards| - 1], id);
    }
  }

  /** REORDER_CARDS gives each card of the list whose id occurs in `cardIds` the index of its
      first occurrence as `order`, stamps it, and leaves every other card as it was. */
  lemma ReorderSetsIndex(s: BoardState, listId: string, cardIds: seq<string>, env: Env)
    ensures var r := Reduce(s, ReorderCards(listId, cardIds), env);
      && |r.cards| == |s.cards|
      && r.lists == s.lists
      && (forall i :: 0 <= i < |s.cards| && s.cards[i].listId == listId && s.cards[i].id in cardIds ==>
            r.cards[i] == s.cards[i].(order := JsArray.IndexOf(cardIds, s.cards[i].id), lastModifiedAt := env.now)
            && cardIds[r.cards[i].order] == s.cards[i].id)
      && (forall i :: 0 <= i < |s.cards| && (s.cards[i].listId != listId || s.cards[i].id !in cardIds) ==>
            r.cards[i] == s.cards[i])
      && r.historyIndex == s.historyIndex + 1
  {
  }

  /** `cardIds` names the cards of list `listId` once each, and nothing else. */
  ghost predicate NamesListOnce(cards: seq<Card>, listId: string, cardIds: seq<string>) {
    && (forall a, b :: 0 <= a < b < |cardIds| ==> cardIds[a] != cardIds[b])
    && (forall k :: 0 <= k < |cardIds| ==>
          exists i :: 0 <= i < |cards| && cards[i].listId == listId && cards[i].id == cardIds[k])
    && (forall i :: 0 <= i < |cards| && cards[i].listId == listId ==> cards[i].id in cardIds)
  }

  /** The cards of list `listId` carry pairwise different orders in `[0, |cardIds|)`, and the
      card named at position k has order k. */
  ghost predicate NumberedAsNamed(cards: seq<Card>, listId: string, cardIds: seq<string>) {
    && (forall i :: 0 <= i < |cards| && cards[i].listId == listId ==> 0 <= cards[i].order < |cardIds|)
    && (forall i, j ::
          (0 <= i < |cards| && 0 <= j < |cards| && i != j && cards[i].listId == listId && cards[j].listId == listId)
          ==> cards[i].order != cards[j].order)
    && (forall k :: 0 <= k < |cardIds| ==> HasCardAt(cards, listId, cardIds[k], k))
  }

  /** Some card of list `listId` has id `id` and order `order`. */
  ghost predicate HasCardAt(cards: seq<Card>, listId: string, id: string, order: int) {
    exists i :: 0 <= i < |cards| && cards[i].listId == listId && cards[i].id == id && cards[i].order == order
  }

  /** When `cardIds` lists the ids of the list's cards once each (and card ids are unique),
      REORDER_CARDS numbers that list densely: the cards get pairwise different orders in
      `[0, |cardIds|)`, and the card named at position k gets order k. */
  lemma ReorderWithPermutationIsDense(s: BoardState, listId: string, cardIds: seq<string>, env: Env)
    requires UniqueCardIds(s.cards) && NamesListOnce(s.cards, listId, cardIds)
    ensures NumberedAsNamed(Reduce(s, ReorderCards(listId, cardIds), env).cards, listId, cardIds)
  {
    assert Reduce(s, ReorderCards(listId, cardIds), env).cards == ReorderCardsIn(s.cards, listId, cardIds, env.now);
    ReorderDense(s.cards, listId, cardIds, env.now);
  }

  /** The card-level statement of `ReorderWithPermutationIsDense`. */
  lemma ReorderDense(cards: seq<Card>, listId: string, cardIds: seq<string>, now: int)
    requires UniqueCardIds(cards) && NamesListOnce(cards, listId, cardIds)
    ensures NumberedAsNamed(ReorderCardsIn(cards, listId, cardIds, now), listId, cardIds)
  {
    var rc := ReorderCardsIn(cards, listId, cardIds, now);
    forall i | 0 <= i < |rc| && rc[i].listId == listId
      ensures 0 <= rc[i].order < |cardIds|
    {
      ReorderListCard(cards, listId, cardIds, now, i);
    }
    forall i, j | 0 <= i < |rc| && 0 <= j < |rc| && i != j && rc[i].listId == listId && rc[j].listId == listId
      ensures rc[i].order != rc[j].order
    {
      ReorderListCard(cards, listId, cardIds, now, i);
      ReorderListCard(cards, listId, cardIds, now, j);
      assert cards[i].id != cards[j].id;
    }
    forall k | 0 <= k < |cardIds| ensures HasCardAt(rc, listId, cardIds[k], k) {
      var i :| 0 <= i < |cards| && cards[i].listId == listId && cards[i].id == cardIds[k];
      ReorderNamedCard(cards, listId, cardIds, now, k, i);
      assert rc[i].listId == listId && rc[i].id == cardIds[k] && rc[i].order == k;
    }
  }

  /** A card of list `listId` whose id `cardIds` names is given the position of that id. */
  lemma ReorderListCard(cards: seq<Card>, listId: string, cardIds: seq<string>, now: int, i: nat)
    requires i < |cards| && (cards[i].listId == listId ==> cards[i].id in cardIds)
    ensures var c := ReorderCardsIn(cards, listId, cardIds, now)[i];
      && c.listId == cards[i].listId && c.id == cards[i].id
      && (c.listId == listId ==> 0 <= c.order < |cardIds| && cardIds[c.order] == c.id)
  {
    assert ReorderCardsIn(cards, listId, cardIds, now)[i] == ReorderOne(cards[i], listId, cardIds, now);
  }

  /** The card named at position `k` of a repetition-free `cardIds` gets order `k`. */
  lemma ReorderNamedCard(cards: seq<Card>, listId: string, cardIds: seq<string>, now: int, k: nat, i: nat)
    requires forall a, b :: 0 <= a < b < |cardIds| ==> cardIds[a] != cardIds[b]
    requires k < |cardIds| && i < |cards| && cards[i].listId == listId && cards[i].id == cardIds[k]
    ensures var rc := ReorderCardsIn(cards, listId, cardIds, now);
      rc[i].listId == listId && rc[i].id == cardIds[k] && rc[i].order == k
  {
    var p := JsArray.IndexOf(cardIds, cardIds[k]);
    assert p == k by {
      assert cardIds[p] == cardIds[k];
    }
    assert ReorderCardsIn(cards, listId, cardIds, now)[i] == ReorderOne(cards[i], listId, cardIds, now);
  }

  /** The two-card example: cards c1 (order 0) and c2 (order 1) in one list, reordered as
      [c2, c1], end with c2 at order 0 and c1 at order 1. */
  lemma ReorderTwoCards(c1: Card, c2: Card, listId: string, env: Env)
    requires c1.listId == listId && c2.listId == listId && c1.id != c2.id
    requires c1.order == 0 && c2.order == 1
    ensures var r := Reduce(Initial().(cards := [c1, c2]), ReorderCards(listId, [c2.id, c1.id]), env);
      r.cards[0].id == c1.id && r.cards[0].order == 1 && r.cards[1].id == c2.id && r.cards[1].order == 0
  {
    assert JsArray.IndexOf([c2.id, c1.id], c1.id) == 1;
    assert JsArray.IndexOf([c2.id, c1.id], c2.id) == 0;
  }

  /** CLEAR_ALL empties lists, cards, the pending queue and the conflicts, as one undoable step. */
  lemma ClearAllEmpties(s: BoardState, env: Env)
    ensures var r := Reduce(s, ClearAll, env);
      r.lists == [] && r.cards == [] && r.syncQueue == [] && r.conflicts == []
      && r.lastSyncTime == s.lastSyncTime
      && r.history == JsArray.SliceTo(s.history, s.historyIndex + 1) + [s]
      && r.historyIndex == s.historyIndex + 1
  {
  }
}
