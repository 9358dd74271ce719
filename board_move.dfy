/** What MOVE_CARD does to the board: which card changes and how, which cards are renumbered,
    and which numbering the source and target lists end up with. */
module BoardMove {
  import opened Wrappers
  import opened Entities
  import opened Board
  import JsArray
  import BoardHistory
  import BoardEdits

  /** The orders carried by the cards of `listId`, leaving out the card `except`. */
  ghost function OrdersOf(cards: seq<Card>, listId: string, except: Option<string>): set<int> {
    set i | 0 <= i < |cards| && cards[i].listId == listId && Some(cards[i].id) != except :: cards[i].order
  }

  /** The cards of `listId` (other than `except`) carry the orders `0 .. n-1`, each exactly once. */
  ghost predicate Numbered(cards: seq<Card>, listId: string, except: Option<string>, n: int) {
    && (forall i :: 0 <= i < |cards| && cards[i].listId == listId && Some(cards[i].id) != except ==>
          0 <= cards[i].order < n)
    && (forall i, j ::
          (0 <= i < |cards| && 0 <= j < |cards| && i != j
           && cards[i].listId == listId && Some(cards[i].id) != except
           && cards[j].listId == listId && Some(cards[j].id) != except) ==>
          cards[i].order != cards[j].order)
    && (forall p :: 0 <= p < n ==> p in OrdersOf(cards, listId, except))
  }

  /** MOVE_CARD of an unknown card changes nothing (and records no history). Otherwise the
      move is recorded in the history, the lists and the number of cards stay, every card keeps
      its id, title, description and tags, and the moved card goes to the new list with
      `order = newIndex` (as given, not clamped), its version bumped to `(version || 1) + 1`
      and a fresh timestamp. */
  lemma MoveCardShape(s: BoardState, cardId: string, newListId: string, newIndex: int, env: Env)
    ensures var r := Reduce(s, MoveCard(cardId, newListId, newIndex), env);
      && (CardIndex(s.cards, cardId) == -1 ==> r == s)
      && (CardIndex(s.cards, cardId) != -1 ==>
            && r.lists == s.lists
            && r.history == JsArray.SliceTo(s.history, s.historyIndex + 1) + [s]
            && r.historyIndex == s.historyIndex + 1
            && |r.cards| == |s.cards|
            && (forall i :: 0 <= i < |s.cards| ==>
                  r.cards[i] == s.cards[i].(listId := r.cards[i].listId, order := r.cards[i].order,
                                            version := r.cards[i].version,
                                            lastModifiedAt := r.cards[i].lastModifiedAt))
            && (forall i :: 0 <= i < |s.cards| && s.cards[i].id == cardId ==>
                  r.cards[i] == s.cards[i].(listId := newListId, order := newIndex,
                                            version := BumpVersion(s.cards[i].version),
                                            lastModifiedAt := env.now)))
  {
    ReduceMove(s, MoveCard(cardId, newListId, newIndex), env);
    var i0 := CardIndex(s.cards, cardId);
    if i0 != -1 {
      FoundCardMoves(s, cardId, newListId, newIndex, env);
    }
  }

  lemma FoundCardMoves(s: BoardState, cardId: string, newListId: string, newIndex: int, env: Env)
    requires CardIndex(s.cards, cardId) != -1
    ensures var r := Reduce(s, MoveCard(cardId, newListId, newIndex), env);
            && r.lists == s.lists
            && r.history == JsArray.SliceTo(s.history, s.historyIndex + 1) + [s]
            && r.historyIndex == s.historyIndex + 1
            && |r.cards| == |s.cards|
            && (forall i :: 0 <= i < |s.cards| ==>
                  r.cards[i] == s.cards[i].(listId := r.cards[i].listId, order := r.cards[i].order,
                                            version := r.cards[i].version,
                                            lastModifiedAt := r.cards[i].lastModifiedAt))
            && (forall i :: 0 <= i < |s.cards| && s.cards[i].id == cardId ==>
                  r.cards[i] == s.cards[i].(listId := newListId, order := newIndex,
                                            version := BumpVersion(s.cards[i].version),
                                            lastModifiedAt := env.now))
  {
    MoveRecordsHistory(s, cardId, newListId, newIndex, env);
    MoveCardCards(s, cardId, newListId, newIndex, env);
    var card := s.cards[CardIndex(s.cards, cardId)];
    MoveOnlyRenumbers(s.cards, cardId, newListId, newIndex, MoveSource(s.cards, card, cardId),
                      MoveTarget(s.cards, card, cardId, newListId, newIndex), env.now);
  }

  lemma MoveRecordsHistory(s: BoardState, cardId: string, newListId: string, newIndex: int, env: Env)
    requires CardIndex(s.cards, cardId) != -1
    ensures var r := Reduce(s, MoveCard(cardId, newListId, newIndex), env);
            && r.lists == s.lists
            && r.history == JsArray.SliceTo(s.history, s.historyIndex + 1) + [s]
            && r.historyIndex == s.historyIndex + 1
  {
    ReduceMove(s, MoveCard(cardId, newListId, newIndex), env);
    MoveCardInPushes(s, cardId, newListId, newIndex, env);
  }

  /** A move of a card the board holds pushes the board with the moved cards. */
  lemma MoveCardInPushes(s: BoardState, cardId: string, newListId: string, newIndex: int, env: Env)
    requires CardIndex(s.cards, cardId) != -1
    ensures var card := s.cards[CardIndex(s.cards, cardId)];
      MoveCardIn(s, cardId, newListId, newIndex, env)
        == PushHistory(s, s.(cards := MoveCards(s.cards, cardId, newListId, newIndex, MoveSource(s.cards, card, cardId),
                                                MoveTarget(s.cards, card, cardId, newListId, newIndex), env.now)))
  {
    BoardHistory.MovedCardIsInItsSourceList(s.cards, CardIndex(s.cards, cardId));
  }

  /** MOVE_CARD changes only a card's list, order, version and timestamp. */
  lemma MoveOnlyRenumbers(cards: seq<Card>, cardId: string, newListId: string, newIndex: int,
                          src: seq<Card>, tgt: seq<Card>, now: int)
    ensures var rc := MoveCards(cards, cardId, newListId, newIndex, src, tgt, now);
      && |rc| == |cards|
      && (forall i :: 0 <= i < |cards| ==>
            rc[i] == cards[i].(listId := rc[i].listId, order := rc[i].order,
                               version := rc[i].version, lastModifiedAt := rc[i].lastModifiedAt))
      && (forall i :: 0 <= i < |cards| && cards[i].id == cardId ==>
            rc[i] == cards[i].(listId := newListId, order := newIndex,
                               version := BumpVersion(cards[i].version), lastModifiedAt := now))
  {
  }

  /** The reducer hands MOVE_CARD to `MoveCardIn`. */
  lemma ReduceMove(s: BoardState, a: Action, env: Env)
    requires a.MoveCard?
    ensures Reduce(s, a, env) == MoveCardIn(s, a.cardId, a.newListId, a.newIndex, env)
  {
  }

  /** The cards MOVE_CARD computes, once the card is found. */
  lemma MoveCardCards(s: BoardState, cardId: string, newListId: string, newIndex: int, env: Env)
    requires CardIndex(s.cards, cardId) != -1
    ensures var card := s.cards[CardIndex(s.cards, cardId)];
      Reduce(s, MoveCard(cardId, newListId, newIndex), env).cards
        == MoveCards(s.cards, cardId, newListId, newIndex, MoveSource(s.cards, card, cardId),
                     MoveTarget(s.cards, card, cardId, newListId, newIndex), env.now)
  {
    ReduceMove(s, MoveCard(cardId, newListId, newIndex), env);
    MoveCardInPushes(s, cardId, newListId, newIndex, env);
  }

  /** Every card the list filter keeps is a card of the list, and the filter takes no card
      more often than the board holds it. */
  lemma {:induction false} CardsInListFrom(cards: seq<Card>, listId: string, except: Option<string>)
    ensures forall c :: c in CardsInList(cards, listId, except) ==>
      c in cards && c.listId == listId && Some(c.id) != except
    ensures multiset(CardsInList(cards, listId, except)) <= multiset(cards)
  {
    if cards != [] {
      var init := cards[..|cards| - 1];
      CardsInListFrom(init, listId, except);
      assert cards == init + [cards[|cards| - 1]];
    }
  }

  /** A board with unique ids holds each card at most once. */
  lemma {:induction false} UniqueIdsOnce(cards: seq<Card>, x: Card)
    requires UniqueCardIds(cards)
    ensures multiset(cards)[x] <= 1
  {
    if cards != [] {
      var init := cards[..|cards| - 1];
      var last := cards[|cards| - 1];
      assert cards == init + [last];
      assert UniqueCardIds(init);
      UniqueIdsOnce(init, x);
      if x == last {
        forall k | 0 <= k < |init| ensures init[k] != x {
          assert cards[k].id != cards[|cards| - 1].id;
        }
        assert x !in init;
      }
    }
  }

  /** A card at two positions of a sequence occurs in it at least twice. */
  lemma TwiceAtTwoPositions(t: seq<Card>, a: nat, b: nat)
    requires a < b < |t| && t[a] == t[b]
    ensures multiset(t)[t[a]] >= 2
  {
    assert t == t[..b] + [t[b]] + t[b + 1..];
    assert t[..b][a] == t[a];
    assert t[a] in multiset(t[..b]);
  }

  /** Part of a board with unique ids (as a multiset) has unique ids. */
  lemma UniqueSub(t: seq<Card>, cards: seq<Card>)
    requires multiset(t) <= multiset(cards) && UniqueCardIds(cards)
    ensures UniqueCardIds(t)
  {
    forall a, b | 0 <= a < |t| && 0 <= b < |t| && t[a].id == t[b].id ensures a == b {
      assert t[a] in multiset(cards) && t[b] in multiset(cards);
      var i :| 0 <= i < |cards| && cards[i] == t[a];
      var j :| 0 <= j < |cards| && cards[j] == t[b];
      if a != b {
        UniqueIdsOnce(cards, t[a]);
        if a < b { TwiceAtTwoPositions(t, a, b); } else { TwiceAtTwoPositions(t, b, a); }
      }
    }
  }

  /** The sorted list filter: unique ids, only cards of the list, and every such card. */
  lemma SortedList(cards: seq<Card>, listId: string, except: Option<string>)
    requires UniqueCardIds(cards)
    ensures var t := SortByOrder(CardsInList(cards, listId, except));
      && UniqueCardIds(t)
      && |t| == |CardsInList(cards, listId, except)|
      && (forall q :: 0 <= q < |t| ==> t[q] in cards && t[q].listId == listId && Some(t[q].id) != except)
      && (forall i :: 0 <= i < |cards| && cards[i].listId == listId && Some(cards[i].id) != except ==>
            cards[i] in t)
  {
    var f := CardsInList(cards, listId, except);
    CardsInListFrom(cards, listId, except);
    UniqueSub(SortByOrder(f), cards);
    SortSameCards(f);
    forall i | 0 <= i < |cards| && cards[i].listId == listId && Some(cards[i].id) != except
      ensures cards[i] in f
    {
      BoardHistory.CardsInListHas(cards, i, listId, except);
    }
  }

  /** Sorting by order keeps the same cards. */
  lemma SortSameCards(f: seq<Card>)
    ensures multiset(SortByOrder(f)) == multiset(f)
    ensures forall c :: c in SortByOrder(f) <==> c in f
  {
    forall c ensures c in SortByOrder(f) <==> c in f {
      assert c in SortByOrder(f) <==> c in multiset(f);
    }
  }

  /** In a sequence with unique ids, looking up the id at position `p` finds `p`. */
  lemma IndexOfOwnId(t: seq<Card>, p: nat)
    requires UniqueCardIds(t) && p < |t|
    ensures CardIndex(t, t[p].id) == p
  {
  }

  /** Orders that name positions of a sequence with unique ids are distinct; if every position
      is named, the list is numbered `0 .. |t|-1`. */
  lemma NumberedByPositions(cards: seq<Card>, listId: string, except: Option<string>, t: seq<Card>)
    requires UniqueCardIds(cards)
    requires forall i :: 0 <= i < |cards| && cards[i].listId == listId && Some(cards[i].id) != except ==>
      0 <= cards[i].order < |t| && t[cards[i].order].id == cards[i].id
    requires forall q :: 0 <= q < |t| ==> q in OrdersOf(cards, listId, except)
    ensures Numbered(cards, listId, except, |t|)
  {
  }

  /** Changing membership at one position changes the count by at most that position. */
  lemma {:induction false} CountDiffersAt(a: seq<Card>, b: seq<Card>, listId: string, k: nat)
    requires |a| == |b| && k < |a|
    requires forall i :: 0 <= i < |a| && i != k ==> (a[i].listId == listId <==> b[i].listId == listId)
    ensures CountInList(b, listId) + (if a[k].listId == listId then 1 else 0)
         == CountInList(a, listId) + (if b[k].listId == listId then 1 else 0)
  {
    var n := |a| - 1;
    if k == n {
      CountSame(a[..n], b[..n], listId);
    } else {
      CountDiffersAt(a[..n], b[..n], listId, k);
    }
  }

  lemma {:induction false} CountSame(a: seq<Card>, b: seq<Card>, listId: string)
    requires |a| == |b|
    requires forall i :: 0 <= i < |a| ==> (a[i].listId == listId <==> b[i].listId == listId)
    ensures CountInList(b, listId) == CountInList(a, listId)
  {
    if a != [] {
      CountSame(a[..|a| - 1], b[..|b| - 1], listId);
    }
  }

  /** A card MOVE_CARD does not move, found at position `q` of the source list (or of the
      target list while absent from the source), takes `q` as its order and keeps its list. */
  lemma TakesPosition(c: Card, cardId: string, newListId: string, newIndex: int,
                      src: seq<Card>, tgt: seq<Card>, now: int, t: seq<Card>, q: nat)
    requires c.id != cardId && UniqueCardIds(t) && q < |t| && t[q] == c
    requires t == src || (t == tgt && forall k :: 0 <= k < |src| ==> src[k].id != c.id)
    ensures MoveOne(c, cardId, newListId, newIndex, src, tgt, now) == c.(order := q, lastModifiedAt := now)
  {
    IndexOfOwnId(t, q);
  }

  /** MOVE_CARD keeps every card's id, and moves only the card named `cardId` to another list. */
  lemma MoveKeepsIds(cards: seq<Card>, cardId: string, newListId: string, newIndex: int,
                     src: seq<Card>, tgt: seq<Card>, now: int)
    ensures var rc := MoveCards(cards, cardId, newListId, newIndex, src, tgt, now);
      && (forall i :: 0 <= i < |cards| ==> rc[i].id == cards[i].id)
      && (forall i :: 0 <= i < |cards| && cards[i].id != cardId ==> rc[i].listId == cards[i].listId)
      && (forall i :: 0 <= i < |cards| && cards[i].id == cardId ==> rc[i].listId == newListId)
  {
  }

  /** The source list's remaining cards, numbered by their position in `src`. */
  lemma SourceNumbering(cards: seq<Card>, cardId: string, newListId: string, newIndex: int,
                        src: seq<Card>, tgt: seq<Card>, now: int, listId: string)
    requires UniqueCardIds(cards) && UniqueCardIds(src)
    requires forall q :: 0 <= q < |src| ==> src[q] in cards && src[q].listId == listId && src[q].id != cardId
    requires forall i :: 0 <= i < |cards| && cards[i].listId == listId && cards[i].id != cardId ==> cards[i] in src
    ensures Numbered(MoveCards(cards, cardId, newListId, newIndex, src, tgt, now), listId, Some(cardId), |src|)
  {
    var rc := MoveCards(cards, cardId, newListId, newIndex, src, tgt, now);
    MoveKeepsIds(cards, cardId, newListId, newIndex, src, tgt, now);
    forall i | 0 <= i < |rc| && rc[i].listId == listId && Some(rc[i].id) != Some(cardId)
      ensures 0 <= rc[i].order < |src| && src[rc[i].order].id == rc[i].id
    {
      var q :| 0 <= q < |src| && src[q] == cards[i];
      TakesPosition(cards[i], cardId, newListId, newIndex, src, tgt, now, src, q);
    }
    forall q | 0 <= q < |src| ensures q in OrdersOf(rc, listId, Some(cardId)) {
      var j :| 0 <= j < |cards| && cards[j] == src[q];
      TakesPosition(cards[j], cardId, newListId, newIndex, src, tgt, now, src, q);
      assert rc[j].listId == listId && rc[j].id != cardId && rc[j].order == q;
    }
    NumberedByPositions(rc, listId, Some(cardId), src);
  }

  /** The cards the source list keeps after a move are renumbered by their position in the
      sorted source list, so they carry `0 .. n-2` exactly once, where `n` is the number of
      cards the list held. This holds whether or not the card leaves the list. */
  lemma SourceRenumbered(s: BoardState, cardId: string, newListId: string, newIndex: int, env: Env)
    requires UniqueCardIds(s.cards) && CardIndex(s.cards, cardId) != -1
    ensures var oldListId := s.cards[CardIndex(s.cards, cardId)].listId;
      Numbered(Reduce(s, MoveCard(cardId, newListId, newIndex), env).cards, oldListId, Some(cardId),
               CountInList(s.cards, oldListId) - 1)
  {
    MoveCardCards(s, cardId, newListId, newIndex, env);
    SourceRenumberedCards(s.cards, cardId, newListId, newIndex, env.now);
  }

  lemma SourceRenumberedCards(cards: seq<Card>, cardId: string, newListId: string, newIndex: int, now: int)
    requires UniqueCardIds(cards) && CardIndex(cards, cardId) != -1
    ensures var card := cards[CardIndex(cards, cardId)];
      Numbered(MoveCards(cards, cardId, newListId, newIndex, MoveSource(cards, card, cardId),
                         MoveTarget(cards, card, cardId, newListId, newIndex), now),
               card.listId, Some(cardId), CountInList(cards, card.listId) - 1)
  {
    var card := cards[CardIndex(cards, cardId)];
    SourceFacts(cards, cardId);
    BoardEdits.CountIsFilterLength(cards, card.listId);
    SourceNumbering(cards, cardId, newListId, newIndex, MoveSource(cards, card, cardId),
                    MoveTarget(cards, card, cardId, newListId, newIndex), now, card.listId);
  }

  /** Removing the element at `ci` from a sequence with unique ids. */
  lemma RemoveAt(t: seq<Card>, ci: nat)
    requires ci < |t| && UniqueCardIds(t)
    ensures var r := t[..ci] + t[ci + 1..];
      && UniqueCardIds(r)
      && |r| == |t| - 1
      && (forall q :: 0 <= q < |r| ==> r[q] in t && r[q].id != t[ci].id)
      && (forall c :: c in t && c.id != t[ci].id ==> c in r)
  {
    var r := t[..ci] + t[ci + 1..];
    forall a, b | 0 <= a < |r| && 0 <= b < |r| && r[a].id == r[b].id ensures a == b {
      var a' := if a < ci then a else a + 1;
      var b' := if b < ci then b else b + 1;
      assert r[a] == t[a'] && r[b] == t[b'];
    }
    forall q | 0 <= q < |r| ensures r[q] in t && r[q].id != t[ci].id {
      var q' := if q < ci then q else q + 1;
      assert r[q] == t[q'];
    }
    forall c | c in t && c.id != t[ci].id ensures c in r {
      var q :| 0 <= q < |t| && t[q] == c;
      var q' := if q < ci then q else q - 1;
      assert r[q'] == c;
    }
  }

  /** Inserting `x`, whose id is new, at `p` into a sequence with unique ids. */
  lemma InsertAt(t: seq<Card>, p: nat, x: Card)
    requires p <= |t| && UniqueCardIds(t)
    requires forall q :: 0 <= q < |t| ==> t[q].id != x.id
    ensures var r := t[..p] + [x] + t[p..];
      && UniqueCardIds(r)
      && |r| == |t| + 1
      && r[p] == x
      && (forall q :: 0 <= q < |r| && q != p ==> r[q] in t)
      && (forall c :: c in t ==> c in r)
  {
    var r := t[..p] + [x] + t[p..];
    forall a, b | 0 <= a < |r| && 0 <= b < |r| && r[a].id == r[b].id ensures a == b {
      var a' := if a < p then a else a - 1;
      var b' := if b < p then b else b - 1;
      if a != p { assert r[a] == t[a']; }
      if b != p { assert r[b] == t[b']; }
    }
    forall q | 0 <= q < |r| && q != p ensures r[q] in t {
      var q' := if q < p then q else q - 1;
      assert r[q] == t[q'];
    }
    forall c | c in t ensures c in r {
      var q :| 0 <= q < |t| && t[q] == c;
      var q' := if q < p then q else q + 1;
      assert r[q'] == c;
    }
  }

  /** The sorted source list without the moved card: unique ids, only the other cards of the
      old list, and all of them. */
  lemma SourceFacts(cards: seq<Card>, cardId: string)
    requires UniqueCardIds(cards) && CardIndex(cards, cardId) != -1
    ensures var card := cards[CardIndex(cards, cardId)];
      var src := MoveSource(cards, card, cardId);
      && UniqueCardIds(src)
      && |src| == |CardsInList(cards, card.listId, None)| - 1
      && (forall q :: 0 <= q < |src| ==> src[q] in cards && src[q].listId == card.listId && src[q].id != cardId)
      && (forall i :: 0 <= i < |cards| && cards[i].listId == card.listId && cards[i].id != cardId ==> cards[i] in src)
  {
    var i0 := CardIndex(cards, cardId);
    var card := cards[i0];
    var lid := card.listId;
    var s0 := SortByOrder(CardsInList(cards, lid, None));
    SortedList(cards, lid, None);
    BoardHistory.MovedCardIsInItsSourceList(cards, i0);
    var ci := CardIndex(s0, cardId);
    assert MoveSource(cards, card, cardId) == s0[..ci] + s0[ci + 1..];
    RemoveAt(s0, ci);
  }

  /** The sorted target list with the moved card spliced in, for a move to another list at an
      index inside it: unique ids, the moved card at `newIndex`, the other cards all of the new list. */
  lemma TargetFacts(cards: seq<Card>, cardId: string, newListId: string, newIndex: int)
    requires UniqueCardIds(cards) && CardIndex(cards, cardId) != -1
    requires cards[CardIndex(cards, cardId)].listId != newListId
    requires 0 <= newIndex <= CountInList(cards, newListId)
    ensures var card := cards[CardIndex(cards, cardId)];
      var tgt := MoveTarget(cards, card, cardId, newListId, newIndex);
      && UniqueCardIds(tgt)
      && |tgt| == CountInList(cards, newListId) + 1
      && tgt[newIndex] == card
      && (forall q :: 0 <= q < |tgt| && q != newIndex ==> tgt[q] in cards && tgt[q].listId == newListId)
      && (forall i :: 0 <= i < |cards| && cards[i].listId == newListId ==> cards[i] in tgt)
  {
    var i0 := CardIndex(cards, cardId);
    var card := cards[i0];
    var t0 := SortByOrder(CardsInList(cards, newListId, Some(cardId)));
    SortedList(cards, newListId, Some(cardId));
    BoardEdits.CountIsFilterLength(cards, newListId);
    NoOtherCardNamed(cards, newListId, cardId);
    assert |t0| == CountInList(cards, newListId);
    assert MoveTarget(cards, card, cardId, newListId, newIndex) == t0[..newIndex] + [card] + t0[newIndex..];
    InsertAt(t0, newIndex, card);
  }

  /** After moving card `cardId` from list `oldListId` to list `newListId`: the target list holds
      one card more, carrying `0 .. m` exactly once, and the source list one card less, carrying
      `0 .. n-2` exactly once, and the moved card is no longer in the source list. */
  ghost predicate CrossMoveDense(before: seq<Card>, after: seq<Card>, cardId: string, oldListId: string, newListId: string) {
    && CountInList(after, newListId) == CountInList(before, newListId) + 1
    && Numbered(after, newListId, None, CountInList(before, newListId) + 1)
    && CountInList(after, oldListId) == CountInList(before, oldListId) - 1
    && (forall i :: 0 <= i < |after| && after[i].listId == oldListId ==> after[i].id != cardId)
    && Numbered(after, oldListId, Some(cardId), CountInList(before, oldListId) - 1)
  }

  /** A card moved to another list at an index inside that list (`0 <= newIndex <= m`, with `m`
      the number of cards the target list held) leaves both lists densely numbered: the target
      list now holds `m + 1` cards carrying `0 .. m` exactly once, the source list holds
      `n - 1` cards carrying `0 .. n-2` exactly once, and the moved card is no longer in it. */
  lemma CrossListMoveIsDense(s: BoardState, cardId: string, newListId: string, newIndex: int, env: Env)
    requires UniqueCardIds(s.cards) && CardIndex(s.cards, cardId) != -1
    requires s.cards[CardIndex(s.cards, cardId)].listId != newListId
    requires 0 <= newIndex <= CountInList(s.cards, newListId)
    ensures CrossMoveDense(s.cards, Reduce(s, MoveCard(cardId, newListId, newIndex), env).cards, cardId,
                           s.cards[CardIndex(s.cards, cardId)].listId, newListId)
  {
    MoveCardCards(s, cardId, newListId, newIndex, env);
    CrossListMoveCards(s.cards, cardId, newListId, newIndex, env.now);
  }

  /** The same, on the cards `MoveCards` computes. */
  lemma CrossListMoveCards(cards: seq<Card>, cardId: string, newListId: string, newIndex: int, now: int)
    requires UniqueCardIds(cards) && CardIndex(cards, cardId) != -1
    requires cards[CardIndex(cards, cardId)].listId != newListId
    requires 0 <= newIndex <= CountInList(cards, newListId)
    ensures var card := cards[CardIndex(cards, cardId)];
      CrossMoveDense(cards, MoveCards(cards, cardId, newListId, newIndex, MoveSource(cards, card, cardId),
                                      MoveTarget(cards, card, cardId, newListId, newIndex), now),
                     cardId, card.listId, newListId)
  {
    var i0 := CardIndex(cards, cardId);
    var card := cards[i0];
    SourceRenumberedCards(cards, cardId, newListId, newIndex, now);
    CrossListTargetNumbered(cards, cardId, newListId, newIndex, now);
    CrossListCounts(cards, cardId, newListId, newIndex, MoveSource(cards, card, cardId),
                    MoveTarget(cards, card, cardId, newListId, newIndex), now, i0);
  }

  /** In a cross-list move the target list, one card longer, is numbered by position. */
  lemma CrossListTargetNumbered(cards: seq<Card>, cardId: string, newListId: string, newIndex: int, now: int)
    requires UniqueCardIds(cards) && CardIndex(cards, cardId) != -1
    requires cards[CardIndex(cards, cardId)].listId != newListId
    requires 0 <= newIndex <= CountInList(cards, newListId)
    ensures var card := cards[CardIndex(cards, cardId)];
      Numbered(MoveCards(cards, cardId, newListId, newIndex, MoveSource(cards, card, cardId),
                         MoveTarget(cards, card, cardId, newListId, newIndex), now),
               newListId, None, CountInList(cards, newListId) + 1)
  {
    var i0 := CardIndex(cards, cardId);
    var card := cards[i0];
    SourceFacts(cards, cardId);
    TargetFacts(cards, cardId, newListId, newIndex);
    TargetNumbering(cards, cardId, newListId, newIndex, MoveSource(cards, card, cardId),
                    MoveTarget(cards, card, cardId, newListId, newIndex), now, i0);
  }

  /** Only the moved card changes list, so the target list gains one card and the source list
      loses exactly the moved card. */
  lemma CrossListCounts(cards: seq<Card>, cardId: string, newListId: string, newIndex: int,
                        src: seq<Card>, tgt: seq<Card>, now: int, i0: nat)
    requires UniqueCardIds(cards) && i0 < |cards| && cards[i0].id == cardId
    requires cards[i0].listId != newListId
    ensures var rc := MoveCards(cards, cardId, newListId, newIndex, src, tgt, now);
      && CountInList(rc, newListId) == CountInList(cards, newListId) + 1
      && CountInList(rc, cards[i0].listId) == CountInList(cards, cards[i0].listId) - 1
      && (forall i :: 0 <= i < |rc| && rc[i].listId == cards[i0].listId ==> rc[i].id != cardId)
  {
    var rc := MoveCards(cards, cardId, newListId, newIndex, src, tgt, now);
    MoveKeepsIds(cards, cardId, newListId, newIndex, src, tgt, now);
    CountDiffersAt(cards, rc, newListId, i0);
    CountDiffersAt(cards, rc, cards[i0].listId, i0);
  }

  /** The target list of a cross-list move is numbered by position in the spliced target. */
  lemma TargetNumbering(cards: seq<Card>, cardId: string, newListId: string, newIndex: nat,
                        src: seq<Card>, tgt: seq<Card>, now: int, i0: nat)
    requires UniqueCardIds(cards) && i0 < |cards| && cards[i0].id == cardId
    requires cards[i0].listId != newListId
    requires UniqueCardIds(tgt) && newIndex < |tgt| && tgt[newIndex] == cards[i0]
    requires forall q :: 0 <= q < |tgt| && q != newIndex ==> tgt[q] in cards && tgt[q].listId == newListId
    requires forall i :: 0 <= i < |cards| && cards[i].listId == newListId ==> cards[i] in tgt
    requires forall q :: 0 <= q < |src| ==> src[q] in cards && src[q].listId == cards[i0].listId
    ensures Numbered(MoveCards(cards, cardId, newListId, newIndex, src, tgt, now), newListId, None, |tgt|)
  {
    var rc := MoveCards(cards, cardId, newListId, newIndex, src, tgt, now);
    MoveKeepsIds(cards, cardId, newListId, newIndex, src, tgt, now);
    forall i | 0 <= i < |rc| && rc[i].listId == newListId
      ensures 0 <= rc[i].order < |tgt| && tgt[rc[i].order].id == rc[i].id
    {
      if cards[i].id != cardId {
        NotInSource(cards, src, i, cards[i0].listId);
        var q :| 0 <= q < |tgt| && tgt[q] == cards[i];
        TakesPosition(cards[i], cardId, newListId, newIndex, src, tgt, now, tgt, q);
      }
    }
    forall q | 0 <= q < |tgt| ensures q in OrdersOf(rc, newListId, None) {
      if q == newIndex {
        assert rc[i0].listId == newListId && rc[i0].order == q;
      } else {
        var j :| 0 <= j < |cards| && cards[j] == tgt[q];
        NotInSource(cards, src, j, cards[i0].listId);
        TakesPosition(cards[j], cardId, newListId, newIndex, src, tgt, now, tgt, q);
        assert rc[j].listId == newListId && rc[j].order == q;
      }
    }
    NumberedByPositions(rc, newListId, None, tgt);
  }

  /** With unique ids, a card of another list shares its id with no card of the source list. */
  lemma NotInSource(cards: seq<Card>, src: seq<Card>, i: nat, listId: string)
    requires UniqueCardIds(cards) && i < |cards| && cards[i].listId != listId
    requires forall q :: 0 <= q < |src| ==> src[q] in cards && src[q].listId == listId
    ensures forall k :: 0 <= k < |src| ==> src[k].id != cards[i].id
  {
    forall k | 0 <= k < |src| ensures src[k].id != cards[i].id {
      var j :| 0 <= j < |cards| && cards[j] == src[k];
    }
  }

  /** With unique ids, the only card named `cardId` sits in another list, so excluding it
      from the new list's filter excludes nothing. */
  lemma NoOtherCardNamed(cards: seq<Card>, listId: string, cardId: string)
    requires UniqueCardIds(cards) && CardIndex(cards, cardId) != -1
    requires cards[CardIndex(cards, cardId)].listId != listId
    ensures CardsInList(cards, listId, Some(cardId)) == CardsInList(cards, listId, None)
  {
    ExceptMissesNothing(cards, listId, cardId);
  }

  lemma {:induction false} ExceptMissesNothing(cards: seq<Card>, listId: string, cardId: string)
    requires forall i :: 0 <= i < |cards| && cards[i].listId == listId ==> cards[i].id != cardId
    ensures CardsInList(cards, listId, Some(cardId)) == CardsInList(cards, listId, None)
  {
    if cards != [] {
      ExceptMissesNothing(cards[..|cards| - 1], listId, cardId);
    }
  }

  /** Cards of lists other than the source and the target are not touched at all. */
  lemma MoveLeavesOtherListsAlone(s: BoardState, cardId: string, newListId: string, newIndex: int, env: Env)
    requires UniqueCardIds(s.cards) && CardIndex(s.cards, cardId) != -1
    ensures var oldListId := s.cards[CardIndex(s.cards, cardId)].listId;
      var r := Reduce(s, MoveCard(cardId, newListId, newIndex), env);
      forall i :: 0 <= i < |s.cards| && s.cards[i].listId != oldListId && s.cards[i].listId != newListId ==>
        r.cards[i] == s.cards[i]
  {
    var cs := s.cards;
    var i0 := CardIndex(cs, cardId);
    var card := cs[i0];
    MoveCardCards(s, cardId, newListId, newIndex, env);
    SourceFacts(cs, cardId);
    TargetMembers(cs, cardId, newListId, newIndex);
    OthersUntouched(cs, cardId, newListId, newIndex, MoveSource(cs, card, cardId),
                    MoveTarget(cs, card, cardId, newListId, newIndex), env.now, i0);
  }

  /** Every card of the spliced target list is a card of the new list or the moved card. */
  lemma TargetMembers(cards: seq<Card>, cardId: string, newListId: string, newIndex: int)
    requires UniqueCardIds(cards) && CardIndex(cards, cardId) != -1
    ensures var card := cards[CardIndex(cards, cardId)];
      var tgt := MoveTarget(cards, card, cardId, newListId, newIndex);
      forall q :: 0 <= q < |tgt| ==> tgt[q] in cards && (tgt[q].listId == newListId || tgt[q].id == cardId)
  {
    var card := cards[CardIndex(cards, cardId)];
    var t0 := SortByOrder(CardsInList(cards, newListId, Some(cardId)));
    SortedList(cards, newListId, Some(cardId));
    var p := JsArray.RelativeIndex(newIndex, |t0|);
    assert MoveTarget(cards, card, cardId, newListId, newIndex) == t0[..p] + [card] + t0[p..];
    InsertAt(t0, p, card);
  }

  lemma OthersUntouched(cards: seq<Card>, cardId: string, newListId: string, newIndex: int,
                        src: seq<Card>, tgt: seq<Card>, now: int, i0: nat)
    requires UniqueCardIds(cards) && i0 < |cards| && cards[i0].id == cardId
    requires forall q :: 0 <= q < |src| ==> src[q] in cards && src[q].listId == cards[i0].listId
    requires forall q :: 0 <= q < |tgt| ==> tgt[q] in cards && (tgt[q].listId == newListId || tgt[q].id == cardId)
    ensures var rc := MoveCards(cards, cardId, newListId, newIndex, src, tgt, now);
      forall i :: 0 <= i < |cards| && cards[i].listId != cards[i0].listId && cards[i].listId != newListId ==>
        rc[i] == cards[i]
  {
    forall i | 0 <= i < |cards| && cards[i].listId != cards[i0].listId && cards[i].listId != newListId
      ensures CardIndex(src, cards[i].id) == -1 && CardIndex(tgt, cards[i].id) == -1
    {
      NotInSource(cards, src, i, cards[i0].listId);
      forall q | 0 <= q < |tgt| ensures tgt[q].id != cards[i].id {
        var j :| 0 <= j < |cards| && cards[j] == tgt[q];
      }
    }
  }

  /** Moving a card within its own list renumbers the other cards by their position without
      it, and gives the moved card `newIndex` as is: moving the second of two cards of a list
      (in order) to index 0 leaves both with order 0. */
  lemma SameListMoveCanRepeatOrder(a: Card, b: Card, env: Env)
    requires a.listId == b.listId && a.id != b.id && a.order <= b.order
    ensures var r := Reduce(Initial().(cards := [a, b]), MoveCard(b.id, b.listId, 0), env);
      |r.cards| == 2 && r.cards[0].order == 0 && r.cards[1].order == 0
  {
    var cards := [a, b];
    var s := Initial().(cards := cards);
    assert CardIndex(cards, b.id) == 1;
    assert CardsInList(cards, b.listId, None) == cards by {
      assert cards[..1] == [a];
      assert CardsInList([a], b.listId, None) == [a] by {
        assert [a][..0] == [];
      }
    }
    assert SortByOrder(cards) == cards by {
      assert cards[1..] == [b];
      assert JsArray.SortBy([b], CardOrder) == [b] by {
        assert [b][1..] == [];
      }
    }
    var src := MoveSource(cards, b, b.id);
    assert src == [a];
    assert CardIndex(src, a.id) == 0;
    var tgt := MoveTarget(cards, b, b.id, b.listId, 0);
    MoveCardCards(s, b.id, b.listId, 0, env);
    var rc := MoveCards(cards, b.id, b.listId, 0, src, tgt, env.now);
    assert rc[0] == MoveOne(a, b.id, b.listId, 0, src, tgt, env.now) == a.(order := 0, lastModifiedAt := env.now);
    assert rc[1] == MoveOne(b, b.id, b.listId, 0, src, tgt, env.now);
  }
}
