/** `syncWithServer` and `queueAction` of `src/hooks/useOfflineSync.js`: replaying the pending
    actions against the remote store, reconciling the board with what the server held, and
    queueing actions while offline.
    The pending-action queue of `src/services/storage.js` is the class `PendingQueue`; the
    hook's `dispatch` and `saveToStorage` calls are returned as a sequence of effects. */
module OfflineSync {
  import opened Wrappers
  import opened Entities
  import opened Api
  import Reconcile
  import SyncMerge
  import Helpers
  import Board

  /** The keys of the queued entries rise strictly from first to last: the store hands out
      auto-incremented keys and `getAll` lists entries in key order. */
  ghost predicate IncreasingKeys(entries: seq<QueuedAction>) {
    forall i, j :: 0 <= i < j < |entries| ==> entries[i].id < entries[j].id
  }

  /** The entries whose key is not in `keys`, in queue order. */
  function WithoutKeys(entries: seq<QueuedAction>, keys: set<int>): (r: seq<QueuedAction>)
    ensures |r| <= |entries|
    ensures forall e :: e in r <==> e in entries && e.id !in keys
  {
    if entries == [] then []
    else
      var rest := WithoutKeys(entries[..|entries| - 1], keys);
      var last := entries[|entries| - 1];
      if last.id in keys then rest else rest + [last]
  }

  /** Removing entries keeps the remaining keys in rising order. */
  lemma {:induction false} WithoutKeysIncreasing(entries: seq<QueuedAction>, keys: set<int>)
    requires IncreasingKeys(entries)
    ensures IncreasingKeys(WithoutKeys(entries, keys))
  {
    if entries != [] {
      var init := entries[..|entries| - 1];
      var last := entries[|entries| - 1];
      WithoutKeysIncreasing(init, keys);
      var rest := WithoutKeys(init, keys);
      forall x | x in rest ensures x.id < last.id {
        var k :| 0 <= k < |init| && init[k] == x;
        assert entries[k] == x;
      }
    }
  }

  /** Removing no key keeps every entry. */
  lemma {:induction false} WithoutNoKeys(entries: seq<QueuedAction>)
    ensures WithoutKeys(entries, {}) == entries
  {
    if entries != [] {
      WithoutNoKeys(entries[..|entries| - 1]);
    }
  }

  /** Removing the keys `a` and then the keys `b` removes the keys of both. */
  lemma {:induction false} WithoutKeysTwice(entries: seq<QueuedAction>, a: set<int>, b: set<int>)
    ensures WithoutKeys(WithoutKeys(entries, a), b) == WithoutKeys(entries, a + b)
  {
    if entries != [] {
      var init := entries[..|entries| - 1];
      var last := entries[|entries| - 1];
      WithoutKeysTwice(init, a, b);
      var rest := WithoutKeys(init, a);
      if last.id !in a {
        assert (rest + [last])[..|rest + [last]| - 1] == rest;
      }
    }
  }

  /** The object store `syncQueue` of the local database: entries with auto-incremented keys. */
  class PendingQueue {
    var entries: seq<QueuedAction>
    var nextKey: int

    ghost predicate Valid()
      reads this
    {
      IncreasingKeys(entries) && forall i :: 0 <= i < |entries| ==> entries[i].id < nextKey
    }

    /** A freshly created store: empty, the key generator at 1. */
    constructor()
      ensures entries == [] && nextKey == 1 && Valid()
    {
      entries := [];
      nextKey := 1;
    }

    /** Opening the database and running a transaction may fail; what decides it is not
        visible to the model. */
    method Transaction() returns (ok: bool)
    {
      ok :| true;
    }

    /** `getSyncQueue()`: every entry, in key order. */
    method GetAll() returns (r: Option<seq<QueuedAction>>)
      ensures r.Some? ==> r.value == entries
    {
      var ok := Transaction();
      if !ok {
        return None;
      }
      r := Some(entries);
    }

    /** `addToSyncQueue(action)`: stores `{ ...action, timestamp: now }` under the next key and
        answers with that key. */
    method Add(op: QueuedOp, now: int) returns (r: Option<int>)
      requires Valid()
      modifies this
      ensures Valid()
      ensures r.Some? ==>
        r.value == old(nextKey) && nextKey == old(nextKey) + 1 && entries == old(entries) + [QueuedAction(r.value, op, now)]
      ensures r.None? ==> entries == old(entries) && nextKey == old(nextKey)
    {
      var ok := Transaction();
      if !ok {
        return None;
      }
      entries := entries + [QueuedAction(nextKey, op, now)];
      r := Some(nextKey);
      nextKey := nextKey + 1;
    }

    /** `removeFromSyncQueue(id)`: deletes the entry stored under that key, if any. */
    method Remove(key: int) returns (ok: bool)
      requires Valid()
      modifies this
      ensures Valid() && nextKey == old(nextKey)
      ensures ok ==> entries == WithoutKeys(old(entries), {key})
      ensures !ok ==> entries == old(entries)
    {
      ok := Transaction();
      if ok {
        WithoutKeysIncreasing(entries, {key});
        entries := WithoutKeys(entries, {key});
      }
    }
  }

  /** The contents of the remote store at one moment. */
  datatype ServerData = ServerData(lists: seq<List>, cards: seq<Card>)

  /** What replaying one queued action may do to the remote store: nothing when it fails;
      otherwise what the matching store operation does on success. An action type the replay
      does not know succeeds without a request. */
  ghost predicate Replayed(op: QueuedOp, before: ServerData, after: ServerData, ok: bool, now: int) {
    if !ok then after == before
    else match op
      case CreateListOp(p) =>
        exists generated :: after == ServerData(before.lists + [NewList(p, generated, now)], before.cards)
      case UpdateListOp(p) =>
        p.id.Some? && var i := ListIndex(before.lists, p.id.value);
        0 <= i && after == ServerData(before.lists[i := UpdatedList(before.lists[i], p, now)], before.cards)
      case DeleteListOp(target) =>
        target.Some? && var i := ListIndex(before.lists, target.value);
        0 <= i && after == ServerData(before.lists[..i] + before.lists[i + 1..], CardsOutside(before.cards, target.value))
      case CreateCardOp(p) =>
        exists generated :: after == ServerData(before.lists, before.cards + [NewCard(p, generated, now)])
      case UpdateCardOp(p) =>
        p.id.Some? && var i := CardIndex(before.cards, p.id.value);
        0 <= i && after == ServerData(before.lists, before.cards[i := UpdatedCard(before.cards[i], p, now)])
      case DeleteCardOp(target) =>
        target.Some? && var i := CardIndex(before.cards, target.value);
        0 <= i && after == ServerData(before.lists, before.cards[..i] + before.cards[i + 1..])
      case MoveCardOp(cardId, newListId, newIndex) =>
        var at := CardIndex(before.cards, cardId);
        0 <= at && after == ServerData(before.lists, MovedCards(before.cards, at, cardId, newListId, newIndex, now))
      case OtherOp(_) => after == before
  }

  /** The actions whose replay leaves the store's array of card objects as it was: the list
      actions, `moveCard`, which writes onto the objects themselves, and unknown actions. */
  predicate KeepsCardArray(op: QueuedOp) {
    op.CreateListOp? || op.UpdateListOp? || op.MoveCardOp? || op.OtherOp?
  }

  /** No replay among the first `n` that succeeded was a `moveCard`. */
  ghost predicate NoMoveReplayed(queue: seq<QueuedAction>, outcomes: seq<bool>, n: nat)
    requires n <= |queue| && n <= |outcomes|
  {
    forall j :: 0 <= j < n && outcomes[j] ==> !queue[j].op.MoveCardOp?
  }

  /** Every replay among the first `n` that succeeded kept the store's array of card objects. */
  ghost predicate ArrayKept(queue: seq<QueuedAction>, outcomes: seq<bool>, n: nat)
    requires n <= |queue| && n <= |outcomes|
  {
    forall j :: 0 <= j < n && outcomes[j] ==> KeepsCardArray(queue[j].op)
  }

  /** The `switch` on `action.type`: the store call the action stands for. A payload without an
      `id` names no record, so the update or delete fails. */
  method Replay(op: QueuedOp, store: RemoteStore, now: int) returns (ok: bool)
    requires store.Valid()
    modifies store
    ensures store.Valid() && OnlyRenumbered(old(store.heap), store.heap)
    ensures KeptOutside(old(store.heap), store.heap, old(store.cardRefs))
    ensures !(ok && op.MoveCardOp?) ==> Kept(old(store.heap), store.heap)
    ensures !ok || KeepsCardArray(op) ==> store.cardRefs == old(store.cardRefs)
    ensures Replayed(op, old(ServerData(store.lists, store.Cards())), ServerData(store.lists, store.Cards()), ok, now)
  {
    if op.CreateListOp? || op.UpdateListOp? || op.DeleteListOp? {
      ok := ReplayList(op, store, now);
      KeptFrames(old(store.heap), store.heap, old(store.cardRefs));
    } else if op.OtherOp? {
      ok := true;
    } else {
      ok := ReplayCard(op, store, now);
    }
  }

  /** The list cases of the `switch`: they leave the card objects and the array alone. */
  method ReplayList(op: QueuedOp, store: RemoteStore, now: int) returns (ok: bool)
    requires store.Valid() && (op.CreateListOp? || op.UpdateListOp? || op.DeleteListOp?)
    modifies store
    ensures store.Valid() && store.heap == old(store.heap)
    ensures !ok || !op.DeleteListOp? ==> store.cardRefs == old(store.cardRefs)
    ensures Replayed(op, old(ServerData(store.lists, store.Cards())), ServerData(store.lists, store.Cards()), ok, now)
  {
    match op
    case CreateListOp(p) =>
      var generated: string :| true;
      var r := store.CreateList(p, generated, now);
      ok := r.Ok?;
    case UpdateListOp(p) =>
      if p.id.None? {
        ok := false;
      } else {
        var r := store.UpdateList(p.id.value, p, now);
        ok := r.Ok?;
      }
    case DeleteListOp(target) =>
      if target.None? {
        ok := false;
      } else {
        var r := store.DeleteList(target.value);
        ok := r.Ok?;
      }
  }

  /** The card cases of the `switch`: only `moveCard` writes onto existing card objects. */
  method ReplayCard(op: QueuedOp, store: RemoteStore, now: int) returns (ok: bool)
    requires store.Valid() && (op.CreateCardOp? || op.UpdateCardOp? || op.DeleteCardOp? || op.MoveCardOp?)
    modifies store
    ensures store.Valid() && OnlyRenumbered(old(store.heap), store.heap)
    ensures KeptOutside(old(store.heap), store.heap, old(store.cardRefs))
    ensures !(ok && op.MoveCardOp?) ==> Kept(old(store.heap), store.heap)
    ensures !ok || op.MoveCardOp? ==> store.cardRefs == old(store.cardRefs)
    ensures Replayed(op, old(ServerData(store.lists, store.Cards())), ServerData(store.lists, store.Cards()), ok, now)
  {
    match op
    case CreateCardOp(p) =>
      var generated: string :| true;
      var r := store.CreateCard(p, generated, now);
      KeptFrames(old(store.heap), store.heap, old(store.cardRefs));
      ok := r.Ok?;
    case UpdateCardOp(p) =>
      if p.id.None? {
        ok := false;
      } else {
        var r := store.UpdateCard(p.id.value, p, now);
        KeptFrames(old(store.heap), store.heap, old(store.cardRefs));
        ok := r.Ok?;
      }
    case DeleteCardOp(target) =>
      if target.None? {
        ok := false;
      } else {
        var r := store.DeleteCard(target.value);
        KeptFrames(old(store.heap), store.heap, old(store.cardRefs));
        ok := r.Ok?;
      }
    case MoveCardOp(cardId, newListId, newIndex) =>
      var r := store.MoveCard(cardId, newListId, newIndex, now);
      ok := r.Ok?;
  }

  /** The keys of the entries marked as dropped. */
  function DroppedKeys(queue: seq<QueuedAction>, dropped: seq<bool>): set<int>
    requires |queue| == |dropped|
  {
    if queue == [] then {}
    else
      var last: set<int> := if dropped[|dropped| - 1] then {queue[|queue| - 1].id} else {};
      DroppedKeys(queue[..|queue| - 1], dropped[..|dropped| - 1]) + last
  }

  /** A key is dropped exactly when some entry marked as dropped carries it. */
  lemma {:induction false} DroppedKeysMembers(queue: seq<QueuedAction>, dropped: seq<bool>, key: int)
    requires |queue| == |dropped|
    ensures key in DroppedKeys(queue, dropped) <==> exists i :: 0 <= i < |queue| && dropped[i] && queue[i].id == key
  {
    if queue != [] {
      var n := |queue| - 1;
      DroppedKeysMembers(queue[..n], dropped[..n], key);
      if exists i :: 0 <= i < |queue| && dropped[i] && queue[i].id == key {
        var i :| 0 <= i < |queue| && dropped[i] && queue[i].id == key;
        if i < n {
          assert queue[..n][i] == queue[i] && dropped[..n][i] == dropped[i];
        }
      }
    }
  }

  /** One turn of the loop: replay the action; if that succeeds, remove its entry. */
  method DrainOne(action: QueuedAction, store: RemoteStore, pending: PendingQueue, now: int)
      returns (ok: bool, removed: bool)
    requires pending.Valid() && store.Valid()
    modifies store, pending
    ensures pending.Valid() && pending.nextKey == old(pending.nextKey)
    ensures store.Valid() && OnlyRenumbered(old(store.heap), store.heap)
    ensures KeptOutside(old(store.heap), store.heap, old(store.cardRefs))
    ensures !(ok && action.op.MoveCardOp?) ==> Kept(old(store.heap), store.heap)
    ensures !ok || KeepsCardArray(action.op) ==> store.cardRefs == old(store.cardRefs)
    ensures Replayed(action.op, old(ServerData(store.lists, store.Cards())), ServerData(store.lists, store.Cards()), ok, now)
    ensures removed ==> ok
    ensures pending.entries == if removed then WithoutKeys(old(pending.entries), {action.id}) else old(pending.entries)
  {
    ok := Replay(action.op, store, now);
    removed := false;
    if ok {
      removed := pending.Remove(action.id);
    }
  }

  /** Marking one more entry extends the dropped keys by its key when it is dropped. */
  lemma DroppedKeysStep(queue: seq<QueuedAction>, dropped: seq<bool>, removed: bool)
    requires |dropped| < |queue|
    ensures var n := |dropped|;
      DroppedKeys(queue[..n + 1], dropped + [removed]) ==
        DroppedKeys(queue[..n], dropped) + if removed then {queue[n].id} else {}
  {
    var n := |dropped|;
    var q := queue[..n + 1];
    var d := dropped + [removed];
    assert q[..n] == queue[..n] && q[n] == queue[n];
    assert d[..n] == dropped && d[n] == removed;
  }

  /** After one more turn, the queue is the original one without the keys dropped so far. */
  lemma DrainStepEntries(entries: seq<QueuedAction>, queue: seq<QueuedAction>, dropped: seq<bool>,
                         before: seq<QueuedAction>, after: seq<QueuedAction>, removed: bool)
    requires |dropped| < |queue|
    requires before == WithoutKeys(entries, DroppedKeys(queue[..|dropped|], dropped))
    requires after == if removed then WithoutKeys(before, {queue[|dropped|].id}) else before
    ensures after == WithoutKeys(entries, DroppedKeys(queue[..|dropped| + 1], dropped + [removed]))
  {
    var keys := DroppedKeys(queue[..|dropped|], dropped);
    DroppedKeysStep(queue, dropped, removed);
    if removed {
      WithoutKeysTwice(entries, keys, {queue[|dropped|].id});
    } else {
      assert keys + {} == keys;
    }
  }

  /** The `for...of` loop over the queue read at the start: each action is replayed in turn;
      after a successful replay its entry is removed, and a failing replay or removal is
      swallowed. `outcomes[i]` says whether the i-th replay succeeded, `dropped[i]` whether its
      entry was then removed, and `trace` is the remote store before and after each replay. */
  method DrainQueue(queue: seq<QueuedAction>, store: RemoteStore, pending: PendingQueue, now: int)
      returns (ghost outcomes: seq<bool>, ghost dropped: seq<bool>, ghost trace: seq<ServerData>)
    requires pending.Valid() && store.Valid()
    modifies store, pending
    ensures pending.Valid() && pending.nextKey == old(pending.nextKey)
    ensures store.Valid() && OnlyRenumbered(old(store.heap), store.heap)
    ensures |outcomes| == |queue| && |dropped| == |queue| && |trace| == |queue| + 1
    ensures NoMoveReplayed(queue, outcomes, |queue|) ==> Kept(old(store.heap), store.heap)
    ensures ArrayKept(queue, outcomes, |queue|) ==> store.cardRefs == old(store.cardRefs)
    ensures trace[0] == old(ServerData(store.lists, store.Cards()))
    ensures trace[|queue|] == ServerData(store.lists, store.Cards())
    ensures forall i :: 0 <= i < |queue| ==> Replayed(queue[i].op, trace[i], trace[i + 1], outcomes[i], now)
    ensures forall i :: 0 <= i < |queue| && dropped[i] ==> outcomes[i]
    ensures pending.entries == WithoutKeys(old(pending.entries), DroppedKeys(queue, dropped))
  {
    outcomes, dropped, trace := [], [], [ServerData(store.lists, store.Cards())];
    WithoutNoKeys(pending.entries);
    ghost var heap0, refs0 := store.heap, store.cardRefs;
    var i := 0;
    while i < |queue|
      invariant 0 <= i <= |queue|
      invariant |outcomes| == i && |dropped| == i && |trace| == i + 1
      invariant store.Valid() && OnlyRenumbered(heap0, store.heap)
      invariant NoMoveReplayed(queue, outcomes, i) ==> Kept(heap0, store.heap)
      invariant ArrayKept(queue, outcomes, i) ==> store.cardRefs == refs0
      invariant trace[0] == old(ServerData(store.lists, store.Cards()))
      invariant trace[i] == ServerData(store.lists, store.Cards())
      invariant forall j :: 0 <= j < i ==> Replayed(queue[j].op, trace[j], trace[j + 1], outcomes[j], now)
      invariant forall j :: 0 <= j < i && dropped[j] ==> outcomes[j]
      invariant pending.Valid() && pending.nextKey == old(pending.nextKey)
      invariant pending.entries == WithoutKeys(old(pending.entries), DroppedKeys(queue[..i], dropped))
    {
      ghost var before := pending.entries;
      ghost var heapBefore, refsBefore := store.heap, store.cardRefs;
      var ok, removed := DrainOne(queue[i], store, pending, now);
      FramesExtended(queue, outcomes, ok, heap0, heapBefore, store.heap, refs0, refsBefore, store.cardRefs);
      DrainStepEntries(old(pending.entries), queue, dropped, before, pending.entries, removed);
      ReplayedExtended(queue, trace, outcomes, dropped, ServerData(store.lists, store.Cards()), ok, removed, now);
      outcomes, dropped, trace := outcomes + [ok], dropped + [removed], trace + [ServerData(store.lists, store.Cards())];
      i := i + 1;
    }
    assert queue[..i] == queue;
  }

  /** With one more replay, the replays so far kept the heap (or the array) exactly when the
      earlier ones did and the new one did. */
  lemma DrainStepFrames(queue: seq<QueuedAction>, outcomes: seq<bool>, ok: bool)
    requires |outcomes| < |queue|
    ensures var n, o := |outcomes|, outcomes + [ok];
      && (NoMoveReplayed(queue, o, n + 1) <==> NoMoveReplayed(queue, outcomes, n) && !(ok && queue[n].op.MoveCardOp?))
      && (ArrayKept(queue, o, n + 1) <==> ArrayKept(queue, outcomes, n) && (!ok || KeepsCardArray(queue[n].op)))
  {
    var n, o := |outcomes|, outcomes + [ok];
    assert forall j :: 0 <= j < n ==> o[j] == outcomes[j];
  }

  /** The frames of the replays so far, extended by one more replay. */
  lemma FramesExtended(queue: seq<QueuedAction>, outcomes: seq<bool>, ok: bool,
                       h0: map<CardRef, Card>, h1: map<CardRef, Card>, h2: map<CardRef, Card>,
                       refs0: seq<CardRef>, refs1: seq<CardRef>, refs2: seq<CardRef>)
    requires |outcomes| < |queue|
    requires OnlyRenumbered(h0, h1) && OnlyRenumbered(h1, h2)
    requires NoMoveReplayed(queue, outcomes, |outcomes|) ==> Kept(h0, h1)
    requires !(ok && queue[|outcomes|].op.MoveCardOp?) ==> Kept(h1, h2)
    requires ArrayKept(queue, outcomes, |outcomes|) ==> refs1 == refs0
    requires !ok || KeepsCardArray(queue[|outcomes|].op) ==> refs2 == refs1
    ensures OnlyRenumbered(h0, h2)
    ensures NoMoveReplayed(queue, outcomes + [ok], |outcomes| + 1) ==> Kept(h0, h2)
    ensures ArrayKept(queue, outcomes + [ok], |outcomes| + 1) ==> refs2 == refs0
  {
    RenumberedTwice(h0, h1, h2);
    DrainStepFrames(queue, outcomes, ok);
  }

  /** One more replay extends the trace, the outcomes and the dropped marks. */
  lemma ReplayedExtended(queue: seq<QueuedAction>, trace: seq<ServerData>, outcomes: seq<bool>, dropped: seq<bool>,
                         next: ServerData, ok: bool, removed: bool, now: int)
    requires |outcomes| == |dropped| < |queue| && |trace| == |outcomes| + 1
    requires forall j :: 0 <= j < |outcomes| ==> Replayed(queue[j].op, trace[j], trace[j + 1], outcomes[j], now)
    requires forall j :: 0 <= j < |outcomes| && dropped[j] ==> outcomes[j]
    requires Replayed(queue[|outcomes|].op, trace[|outcomes|], next, ok, now)
    requires removed ==> ok
    ensures var t, o, d := trace + [next], outcomes + [ok], dropped + [removed];
      && (forall j :: 0 <= j < |o| ==> Replayed(queue[j].op, t[j], t[j + 1], o[j], now))
      && (forall j :: 0 <= j < |o| && d[j] ==> o[j])
  {
    var t, o, d := trace + [next], outcomes + [ok], dropped + [removed];
    forall j | 0 <= j < |o| ensures Replayed(queue[j].op, t[j], t[j + 1], o[j], now) && (d[j] ==> o[j]) {
      if j < |outcomes| {
        assert t[j] == trace[j] && t[j + 1] == trace[j + 1] && o[j] == outcomes[j] && d[j] == dropped[j];
      }
    }
  }

  /** Only entries whose replay succeeded can leave the queue: with distinct keys, the entry of
      a failing replay is still there afterwards. */
  lemma FailedEntryStays(queue: seq<QueuedAction>, dropped: seq<bool>, outcomes: seq<bool>, entries: seq<QueuedAction>, i: nat)
    requires |queue| == |dropped| == |outcomes| && i < |queue|
    requires IncreasingKeys(queue) && queue[i] in entries
    requires forall j :: 0 <= j < |queue| && dropped[j] ==> outcomes[j]
    requires !outcomes[i]
    ensures queue[i] in WithoutKeys(entries, DroppedKeys(queue, dropped))
  {
    DroppedKeysMembers(queue, dropped, queue[i].id);
  }

  /** What the hook does besides changing the remote store and the queue. */
  datatype Effect =
    | Dispatch(action: Board.Action)
    | SaveLocal(lists: seq<List>, cards: seq<Card>)

  function ListId(l: List): string { l.id }
  function ListStamp(l: List): int { l.lastModifiedAt }
  function CardId(c: Card): string { c.id }
  function CardStamp(c: Card): int { c.lastModifiedAt }

  /** `[...mergedLists, ...newServerLists]` */
  function ReconciledLists(local: seq<List>, server: seq<List>): seq<List> {
    Reconcile.Reconciled(local, server, ListId, ListStamp, SyncMerge.MergeList)
  }

  /** `[...mergedCards, ...newServerCards]` */
  function ReconciledCards(local: seq<Card>, server: seq<Card>): seq<Card> {
    Reconcile.Reconciled(local, server, CardId, CardStamp, SyncMerge.MergeCard)
  }

  /** The effects of a sync that fails before the drain: `SYNC_FAILURE` without a payload. */
  function FailureEffects(): seq<Effect> {
    [Dispatch(Board.SyncFailure(None))]
  }

  /** The effects of a sync that reached the reconciliation: the board is replaced by the
      reconciled records, the records the hook started from are saved locally, and
      `SYNC_SUCCESS` is dispatched. */
  function SuccessEffects(lists: seq<List>, cards: seq<Card>, serverLists: seq<List>, serverCards: seq<Card>): seq<Effect> {
    [Dispatch(Board.SetInitialState(Some(ReconciledLists(lists, serverLists)), Some(ReconciledCards(cards, serverCards)))),
     SaveLocal(lists, cards),
     Dispatch(Board.SyncSuccess)]
  }

  /** `syncWithServer()` with the board's `lists` and `cards`. Offline it does nothing. Online
      it fetches the server's lists and cards and reads the queue; a failure there dispatches
      `SYNC_FAILURE` and changes nothing. Otherwise it drains the queue and reconciles the board
      with the lists fetched before the drain and with the card objects fetched before the
      drain as they read after it: a replayed `moveCard` writes onto those very objects.
      `trace` and `outcomes` are those of the drain. */
  method SyncWithServer(online: bool, lists: seq<List>, cards: seq<Card>, store: RemoteStore, pending: PendingQueue, now: int)
      returns (effects: seq<Effect>, ghost outcomes: seq<bool>, ghost trace: seq<ServerData>)
    requires pending.Valid() && store.Valid()
    modifies store, pending
    ensures pending.Valid() && pending.nextKey == old(pending.nextKey)
    ensures store.Valid() && OnlyRenumbered(old(store.heap), store.heap) && Held(store.heap, old(store.cardRefs))
    ensures !online ==> effects == []
    ensures online ==> effects == FailureEffects() || effects == SuccessEffects(lists, cards, old(store.lists), Deref(store.heap, old(store.cardRefs)))
    ensures var seen := Deref(store.heap, old(store.cardRefs));
      |seen| == |old(store.Cards())| && forall i :: 0 <= i < |seen| ==> Renumbers(old(store.Cards())[i], seen[i])
    ensures effects == [] || effects == FailureEffects() ==>
      store.lists == old(store.lists) && store.cardRefs == old(store.cardRefs) && store.heap == old(store.heap)
      && pending.entries == old(pending.entries)
    ensures effects == SuccessEffects(lists, cards, old(store.lists), Deref(store.heap, old(store.cardRefs))) ==>
      var queue := old(pending.entries);
      && |outcomes| == |queue| && |trace| == |queue| + 1
      && trace[0] == old(ServerData(store.lists, store.Cards()))
      && trace[|queue|] == ServerData(store.lists, store.Cards())
      && (forall i :: 0 <= i < |queue| ==> Replayed(queue[i].op, trace[i], trace[i + 1], outcomes[i], now))
      && (forall i :: 0 <= i < |queue| && !outcomes[i] ==> queue[i] in pending.entries)
      && (forall e :: e in pending.entries ==> e in queue)
      && var seen := Deref(store.heap, old(store.cardRefs));
      && (forall p, q :: 0 <= p < |seen| && 0 <= q < |store.cardRefs| && old(store.cardRefs)[p] == store.cardRefs[q] ==>
            seen[p] == store.Cards()[q])
      && (NoMoveReplayed(queue, outcomes, |queue|) ==> seen == old(store.Cards()))
      && (ArrayKept(queue, outcomes, |queue|) ==> seen == trace[|queue|].cards)
  {
    outcomes, trace := [], [];
    if !online {
      return [], outcomes, trace;
    }
    var serverLists := store.FetchLists();
    if serverLists.Failed? {
      return FailureEffects(), outcomes, trace;
    }
    var serverCards := store.FetchCards();
    if serverCards.Failed? {
      return FailureEffects(), outcomes, trace;
    }
    var queue := pending.GetAll();
    if queue.None? {
      return FailureEffects(), outcomes, trace;
    }
    ghost var dropped;
    outcomes, dropped, trace := DrainQueue(queue.value, store, pending, now);
    forall i | 0 <= i < |queue.value| && !outcomes[i] ensures queue.value[i] in pending.entries {
      FailedEntryStays(queue.value, dropped, outcomes, queue.value, i);
    }
    RenumberedDeref(old(store.heap), store.heap, serverCards.value);
    if NoMoveReplayed(queue.value, outcomes, |queue.value|) {
      KeptDeref(old(store.heap), store.heap, serverCards.value);
    }
    var seen := Deref(store.heap, serverCards.value);
    effects := SuccessEffects(lists, cards, serverLists.value, seen);
  }

  /** `queueAction(action)`: offline, the action is added to the queue (a failing add rejects
      the call, and nothing is queued); online, a sync runs instead, and since a sync never
      throws, the action is never queued. */
  method QueueAction(online: bool, op: QueuedOp, lists: seq<List>, cards: seq<Card>, store: RemoteStore, pending: PendingQueue, now: int)
      returns (effects: seq<Effect>, queued: Option<int>)
    requires pending.Valid() && store.Valid()
    modifies store, pending
    ensures pending.Valid() && store.Valid() && Held(store.heap, old(store.cardRefs))
    ensures !online ==> effects == [] && store.lists == old(store.lists) && store.cardRefs == old(store.cardRefs) && store.heap == old(store.heap)
    ensures !online && queued.Some? ==> pending.entries == old(pending.entries) + [QueuedAction(queued.value, op, now)]
    ensures !online && queued.None? ==> pending.entries == old(pending.entries)
    ensures online ==> queued.None?
    ensures online ==> effects == FailureEffects() || effects == SuccessEffects(lists, cards, old(store.lists), Deref(store.heap, old(store.cardRefs)))
    ensures online && effects == FailureEffects() ==>
      store.lists == old(store.lists) && store.cardRefs == old(store.cardRefs) && store.heap == old(store.heap)
      && pending.entries == old(pending.entries)
    ensures var seen := Deref(store.heap, old(store.cardRefs));
      |seen| == |old(store.Cards())| && forall i :: 0 <= i < |seen| ==> Renumbers(old(store.Cards())[i], seen[i])
  {
    if online {
      ghost var outcomes, trace;
      effects, outcomes, trace := SyncWithServer(online, lists, cards, store, pending, now);
      queued := None;
    } else {
      effects := [];
      queued := pending.Add(op, now);
    }
  }

  /** The board after the dispatched effects, in order; saving locally leaves it as it is. */
  function Dispatched(s: Board.BoardState, effects: seq<Effect>, env: Board.Env): Board.BoardState
    decreases |effects|
  {
    if effects == [] then s
    else
      var next := if effects[0].Dispatch? then Board.Reduce(s, effects[0].action, env) else s;
      Dispatched(next, effects[1..], env)
  }

  /** A successful sync leaves the board holding the reconciled lists and cards, an empty sync
      queue and the time of the sync; its history and everything else are as they were. */
  lemma SyncSuccessBoard(s: Board.BoardState, serverLists: seq<List>, serverCards: seq<Card>, env: Board.Env)
    ensures Dispatched(s, SuccessEffects(s.lists, s.cards, serverLists, serverCards), env) ==
      s.(lists := ReconciledLists(s.lists, serverLists), cards := ReconciledCards(s.cards, serverCards),
         syncQueue := [], lastSyncTime := Some(env.now))
  {
    var e := SuccessEffects(s.lists, s.cards, serverLists, serverCards);
    var s1 := Board.Reduce(s, e[0].action, env);
    var s2 := Board.Reduce(s1, e[2].action, env);
    assert Dispatched(s, e, env) == Dispatched(s1, e[1..], env);
    assert Dispatched(s1, e[1..], env) == Dispatched(s1, e[2..], env);
    assert Dispatched(s1, e[2..], env) == Dispatched(s2, e[3..], env);
    assert e[3..] == [];
  }

  /** A failed sync leaves the board exactly as it was. */
  lemma SyncFailureBoard(s: Board.BoardState, env: Board.Env)
    ensures Dispatched(s, FailureEffects(), env) == s
  {
    assert FailureEffects()[1..] == [];
  }

  /** The merge keeps the id of the local list and takes the server's time. */
  lemma MergeListKeepsIdAndStamp()
    ensures Reconcile.MergeKeepsIdAndTakesStamp(ListId, ListStamp, SyncMerge.MergeList)
  {
  }

  lemma MergeCardKeepsIdAndStamp()
    ensures Reconcile.MergeKeepsIdAndTakesStamp(CardId, CardStamp, SyncMerge.MergeCard)
  {
  }

  /** The i-th reconciled list: the local list when the server has no list of its id or the
      server's copy is not strictly newer; otherwise the merge of the two, which is the server's
      list carrying the local version. */
  lemma ReconciledListAt(local: seq<List>, server: seq<List>, i: nat)
    requires i < |local|
    ensures var r := ReconciledLists(local, server);
      var j := Reconcile.FindIndex(server, ListId, local[i].id);
      && |r| >= |local|
      && (j == -1 ==> r[i] == local[i])
      && (j >= 0 && server[j].lastModifiedAt <= local[i].lastModifiedAt ==> r[i] == local[i])
      && (j >= 0 && server[j].lastModifiedAt > local[i].lastModifiedAt ==>
            && Helpers.Merge3(SyncMerge.EncodeList(SyncMerge.BaseList(local[i])), SyncMerge.EncodeList(local[i]), SyncMerge.EncodeList(server[j]))
               == SyncMerge.EncodeList(r[i])
            && r[i] == server[j].(version := if local[i].version == 0 then server[j].version else local[i].version))
  {
    var j := Reconcile.FindIndex(server, ListId, local[i].id);
    if j >= 0 {
      SyncMerge.MergeListIsServerWithLocalVersion(local[i], server[j]);
    }
  }

  /** The i-th reconciled card, by the same rule. */
  lemma ReconciledCardAt(local: seq<Card>, server: seq<Card>, i: nat)
    requires i < |local|
    ensures var r := ReconciledCards(local, server);
      var j := Reconcile.FindIndex(server, CardId, local[i].id);
      && |r| >= |local|
      && (j == -1 ==> r[i] == local[i])
      && (j >= 0 && server[j].lastModifiedAt <= local[i].lastModifiedAt ==> r[i] == local[i])
      && (j >= 0 && server[j].lastModifiedAt > local[i].lastModifiedAt ==>
            && Helpers.Merge3(SyncMerge.EncodeCard(SyncMerge.BaseCard(local[i])), SyncMerge.EncodeCard(local[i]), SyncMerge.EncodeCard(server[j]))
               == SyncMerge.EncodeCard(r[i])
            && r[i] == server[j].(version := if local[i].version == 0 then server[j].version else local[i].version))
  {
    var j := Reconcile.FindIndex(server, CardId, local[i].id);
    if j >= 0 {
      SyncMerge.MergeCardIsServerWithLocalVersion(local[i], server[j]);
    }
  }

  /** The reconciled lists: the merged locals, then the server-only lists; with unique ids on
      both sides no id occurs twice; the ids are those of either side; and reconciling again
      with the same server lists changes nothing. */
  lemma ReconciledListsShape(local: seq<List>, server: seq<List>)
    ensures var r := ReconciledLists(local, server);
      && |r| == |local| + |Reconcile.ServerOnly(server, local, ListId)|
      && (forall i :: 0 <= i < |local| ==> r[i].id == local[i].id)
      && (UniqueListIds(local) && UniqueListIds(server) ==> UniqueListIds(r))
      && (forall key :: Reconcile.Carries(r, ListId, key) <==> Reconcile.Carries(local, ListId, key) || Reconcile.Carries(server, ListId, key))
      && (UniqueListIds(server) ==> ReconciledLists(r, server) == r)
  {
    MergeListKeepsIdAndStamp();
    Reconcile.ReconciledShape(local, server, ListId, ListStamp, SyncMerge.MergeList);
    var r := ReconciledLists(local, server);
    assert UniqueListIds(local) && UniqueListIds(server) ==> Reconcile.UniqueIds(r, ListId) by {
      if UniqueListIds(local) && UniqueListIds(server) {
        assert Reconcile.UniqueIds(local, ListId) && Reconcile.UniqueIds(server, ListId);
      }
    }
    forall key ensures Reconcile.Carries(r, ListId, key) <==> Reconcile.Carries(local, ListId, key) || Reconcile.Carries(server, ListId, key) {
      Reconcile.ReconciledIds(local, server, ListId, ListStamp, SyncMerge.MergeList, key);
    }
    if UniqueListIds(server) {
      assert Reconcile.UniqueIds(server, ListId);
      Reconcile.ReconcileIdempotent(local, server, ListId, ListStamp, SyncMerge.MergeList);
    }
  }

  /** The same for cards. */
  lemma ReconciledCardsShape(local: seq<Card>, server: seq<Card>)
    ensures var r := ReconciledCards(local, server);
      && |r| == |local| + |Reconcile.ServerOnly(server, local, CardId)|
      && (forall i :: 0 <= i < |local| ==> r[i].id == local[i].id)
      && (UniqueCardIds(local) && UniqueCardIds(server) ==> UniqueCardIds(r))
      && (forall key :: Reconcile.Carries(r, CardId, key) <==> Reconcile.Carries(local, CardId, key) || Reconcile.Carries(server, CardId, key))
      && (UniqueCardIds(server) ==> ReconciledCards(r, server) == r)
  {
    MergeCardKeepsIdAndStamp();
    Reconcile.ReconciledShape(local, server, CardId, CardStamp, SyncMerge.MergeCard);
    var r := ReconciledCards(local, server);
    assert UniqueCardIds(local) && UniqueCardIds(server) ==> Reconcile.UniqueIds(r, CardId) by {
      if UniqueCardIds(local) && UniqueCardIds(server) {
        assert Reconcile.UniqueIds(local, CardId) && Reconcile.UniqueIds(server, CardId);
      }
    }
    forall key ensures Reconcile.Carries(r, CardId, key) <==> Reconcile.Carries(local, CardId, key) || Reconcile.Carries(server, CardId, key) {
      Reconcile.ReconciledIds(local, server, CardId, CardStamp, SyncMerge.MergeCard, key);
    }
    if UniqueCardIds(server) {
      assert Reconcile.UniqueIds(server, CardId);
      Reconcile.ReconcileIdempotent(local, server, CardId, CardStamp, SyncMerge.MergeCard);
    }
  }
}
