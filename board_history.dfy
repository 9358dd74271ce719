/** Properties of the reducer's undo/redo history: which actions push the pre-image, the
    bounds `-1 <= historyIndex < |history|` every reachable state keeps, and what UNDO and
    REDO restore, including the off-by-one the source exhibits. */
module BoardHistory {
  import opened Wrappers
  import opened Entities
  import opened Board
  import JsArray

  /** The actions that record an undo step. MOVE_CARD does so only when the card exists. */
  predicate PushesHistory(s: BoardState, a: Action) {
    match a
    case AddList(_, _) => true
    case UpdateList(_, _) => true
    case DeleteList(_) => true
    case ArchiveList(_) => true
    case UnarchiveList(_) => true
    case AddCard(_, _) => true
    case UpdateCard(_, _) => true
    case DeleteCard(_) => true
    case MoveCard(cardId, _, _) => CardIndex(s.cards, cardId) != -1
    case ReorderCards(_, _) => true
    case ClearAll => true
    case _ => false
  }

  /** `historyIndex` points into the history, or is -1 before the first edit. */
  ghost predicate HistoryBounded(s: BoardState) {
    -1 <= s.historyIndex < |s.history|
  }

  /** The state after running `actions` from `s`, the i-th action seeing `envs[i]`. */
  function Run(s: BoardState, actions: seq<Action>, envs: seq<Env>): BoardState
    requires |envs| == |actions|
    decreases actions
  {
    if actions == [] then s
    else Run(Reduce(s, actions[0], envs[0]), actions[1..], envs[1..])
  }

  /** A card that sits in the list it names is found again in that list sorted by order. */
  lemma MovedCardIsInItsSourceList(cards: seq<Card>, i: nat)
    requires i < |cards|
    ensures CardIndex(SortByOrder(CardsInList(cards, cards[i].listId, None)), cards[i].id) != -1
  {
    var filtered := CardsInList(cards, cards[i].listId, None);
    CardsInListHas(cards, i, cards[i].listId, None);
    var sorted := SortByOrder(filtered);
    assert cards[i] in multiset(filtered);
    assert cards[i] in multiset(sorted);
    var k :| 0 <= k < |sorted| && sorted[k] == cards[i];
    assert sorted[k].id == cards[i].id;
  }

  /** Every card of the list, other than `except`, survives the filter. */
  lemma {:induction false} CardsInListHas(cards: seq<Card>, i: nat, listId: string, except: Option<string>)
    requires i < |cards| && cards[i].listId == listId && Some(cards[i].id) != except
    ensures cards[i] in CardsInList(cards, listId, except)
  {
    if i < |cards| - 1 {
      CardsInListHas(cards[..|cards| - 1], i, listId, except);
    }
  }

  /** A history-pushing action stores the pre-image `s` after the kept prefix
      `history[0..historyIndex]` and advances the index by one. */
  lemma EditPushesPreImage(s: BoardState, a: Action, env: Env)
    requires PushesHistory(s, a)
    ensures Reduce(s, a, env).history == JsArray.SliceTo(s.history, s.historyIndex + 1) + [s]
    ensures Reduce(s, a, env).historyIndex == s.historyIndex + 1
    ensures HistoryBounded(s) ==> Reduce(s, a, env).history == s.history[..s.historyIndex + 1] + [s]
  {
    ReduceIsPush(s, a, env);
    var r := Reduce(s, a, env);
    assert r.history == PushHistory(s, r).history;
  }

  /** A history-pushing action's result is a `PushHistory` from `s`. */
  lemma ReduceIsPush(s: BoardState, a: Action, env: Env)
    requires PushesHistory(s, a)
    ensures Reduce(s, a, env) == PushHistory(s, Reduce(s, a, env))
  {
    if a.MoveCard? {
      MovedCardIsInItsSourceList(s.cards, CardIndex(s.cards, a.cardId));
    }
  }

  /** SET_INITIAL_STATE, SYNC_SUCCESS, SYNC_FAILURE and unknown actions leave the history
      alone; SET_INITIAL_STATE replaces lists and cards (missing ones by empty arrays). */
  lemma NonEditsKeepHistory(s: BoardState, a: Action, env: Env)
    requires a.SetInitialState? || a.SyncSuccess? || a.SyncFailure? || a.Unrecognized?
    ensures Reduce(s, a, env).history == s.history
    ensures Reduce(s, a, env).historyIndex == s.historyIndex
    ensures a.SetInitialState? ==>
      Reduce(s, a, env).lists == a.initLists.GetOr([]) && Reduce(s, a, env).cards == a.initCards.GetOr([])
    ensures a.SyncSuccess? ==> Reduce(s, a, env).syncQueue == [] && Reduce(s, a, env).lastSyncTime == Some(env.now)
    ensures a.SyncFailure? ==> Reduce(s, a, env).syncQueue == if a.queue.Some? then a.queue.value else s.syncQueue
  {
  }

  /** Every action keeps `-1 <= historyIndex < |history|`. */
  lemma ReducePreservesHistoryBounds(s: BoardState, a: Action, env: Env)
    requires HistoryBounded(s)
    ensures HistoryBounded(Reduce(s, a, env))
  {
    if PushesHistory(s, a) {
      EditPushesPreImage(s, a, env);
    } else if a.MoveCard? {
      assert Reduce(s, a, env) == s;
    }
  }

  /** Every state reachable from a bounded one (the initial board, whose index is -1, is
      one) keeps the history bounds, so the out-of-range branches of UNDO and REDO are never
      taken. */
  lemma {:induction false} ReachableStatesBounded(s: BoardState, actions: seq<Action>, envs: seq<Env>)
    requires |envs| == |actions|
    requires HistoryBounded(s)
    ensures HistoryBounded(Run(s, actions, envs))
    decreases actions
  {
    if actions != [] {
      ReducePreservesHistoryBounds(s, actions[0], envs[0]);
      ReachableStatesBounded(Reduce(s, actions[0], envs[0]), actions[1..], envs[1..]);
    }
  }

  /** UNDO does nothing while `historyIndex <= 0`; otherwise it restores `history[historyIndex - 1]`
      together with the unchanged history array and the decremented index. */
  lemma UndoRestoresPreviousEntry(s: BoardState, env: Env)
    ensures s.historyIndex <= 0 ==> Reduce(s, Undo, env) == s
    ensures HistoryBounded(s) && s.historyIndex > 0 ==>
      Reduce(s, Undo, env) == s.history[s.historyIndex - 1].(history := s.history, historyIndex := s.historyIndex - 1)
  {
  }

  /** REDO does nothing while `historyIndex >= |history| - 1`; otherwise it restores
      `history[historyIndex + 1]` and increments the index. */
  lemma RedoRestoresNextEntry(s: BoardState, env: Env)
    ensures s.historyIndex >= |s.history| - 1 ==> Reduce(s, Redo, env) == s
    ensures HistoryBounded(s) && s.historyIndex < |s.history| - 1 ==>
      Reduce(s, Redo, env) == s.history[s.historyIndex + 1].(history := s.history, historyIndex := s.historyIndex + 1)
  {
  }

  /** After the very first edit from the initial board, UNDO is a no-op: the index is 0. */
  lemma FirstEditCannotBeUndone(a: Action, env: Env, undoEnv: Env)
    requires PushesHistory(Initial(), a)
    ensures Reduce(Initial(), a, env).history == [Initial()]
    ensures Reduce(Reduce(Initial(), a, env), Undo, undoEnv) == Reduce(Initial(), a, env)
  {
    EditPushesPreImage(Initial(), a, env);
  }

  /** UNDO followed by REDO lands on the history entry at `historyIndex` (the pre-image of
      the last edit), with history and index as before the UNDO. */
  lemma UndoThenRedo(s: BoardState, env: Env, env2: Env)
    requires HistoryBounded(s) && s.historyIndex > 0
    ensures Reduce(Reduce(s, Undo, env), Redo, env2)
         == s.history[s.historyIndex].(history := s.history, historyIndex := s.historyIndex)
  {
    var u := Reduce(s, Undo, env);
    assert u.history == s.history && u.historyIndex == s.historyIndex - 1;
  }

  /** The history entry UNDO then REDO returns to is not the state before the UNDO: after two
      ADD_LISTs from the initial board, UNDO shows no list at all and REDO shows one, while the
      board before the UNDO had two. */
  lemma UndoThenRedoLosesLatestEdit(env: Env)
    ensures var s2 := Run(Initial(), [AddList("a", EmptyListPatch), AddList("b", EmptyListPatch)], [env, env]);
            |s2.lists| == 2
            && |Reduce(s2, Undo, env).lists| == 0
            && |Reduce(Reduce(s2, Undo, env), Redo, env).lists| == 1
  {
    var s2 := TwoListsAdded(env);
    var u := Reduce(s2, Undo, env);
    assert u == Initial().(history := s2.history, historyIndex := 0);
    assert Reduce(u, Redo, env) == s2.history[1].(history := s2.history, historyIndex := 1);
  }

  /** Two ADD_LISTs from the initial board: two lists, and a history of the initial board and
      the board with one list, the index on the latter. */
  lemma TwoListsAdded(env: Env) returns (s2: BoardState)
    ensures s2 == Run(Initial(), [AddList("a", EmptyListPatch), AddList("b", EmptyListPatch)], [env, env])
    ensures |s2.lists| == 2 && s2.historyIndex == 1 && |s2.history| == 2
    ensures s2.history[0] == Initial() && |s2.history[1].lists| == 1
  {
    var s1 := Reduce(Initial(), AddList("a", EmptyListPatch), env);
    s2 := Reduce(s1, AddList("b", EmptyListPatch), env);
    assert s1.history == [Initial()] && s1.historyIndex == 0;
    assert s2.history == [Initial(), s1] && s2.historyIndex == 1;
    var actions := [AddList("a", EmptyListPatch), AddList("b", EmptyListPatch)];
    assert actions[1..] == [AddList("b", EmptyListPatch)] && [env, env][1..] == [env];
    assert Run(s1, actions[1..], [env, env][1..]) == Run(s2, [], []);
  }
}
