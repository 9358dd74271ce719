/** The board reducer of `src/context/boardReducer.js`: a total function from a board state
    and an action to the next board state, with the linear undo/redo history it keeps. */
module Board {
  import opened Wrappers
  import opened Entities
  import JsArray

  /** The whole board. `history` holds full earlier states (each with its own history);
      `historyIndex` is -1 on a fresh board. */
  datatype BoardState = BoardState(
    lists: seq<List>,
    cards: seq<Card>,
    history: seq<BoardState>,
    historyIndex: int,
    syncQueue: seq<QueuedAction>,
    lastSyncTime: Option<int>,
    conflicts: seq<Conflict>)

  /** What the reducer reads from outside: the clock (`new Date()`) and the next `generateId()`. */
  datatype Env = Env(now: int, freshId: string)

  /** The action kinds of `ACTION_TYPES`, each with its payload, plus any other type string. */
  datatype Action =
    | SetInitialState(initLists: Option<seq<List>>, initCards: Option<seq<Card>>)
    | AddList(title: string, listData: ListPatch)
    | UpdateList(listId: string, listUpdates: ListPatch)
    | DeleteList(listId: string)
    | ArchiveList(listId: string)
    | UnarchiveList(listId: string)
    | AddCard(listId: string, cardData: CardPatch)
    | UpdateCard(cardId: string, cardUpdates: CardPatch)
    | DeleteCard(cardId: string)
    | MoveCard(cardId: string, newListId: string, newIndex: int)
    | ReorderCards(listId: string, cardIds: seq<string>)
    | SyncSuccess
    | SyncFailure(queue: Option<seq<QueuedAction>>)
    | Undo
    | Redo
    | ClearAll
    | Unrecognized(kind: string)

  /** The state `BoardProvider` starts from. */
  function Initial(): BoardState {
    BoardState([], [], [], -1, [], None, [])
  }

  /** `next` with the pre-image `s` pushed onto the history, dropping any redo tail:
      `history: [...s.history.slice(0, s.historyIndex + 1), s]`. */
  function PushHistory(s: BoardState, next: BoardState): (r: BoardState)
    ensures r.historyIndex == s.historyIndex + 1 && r.history == JsArray.SliceTo(s.history, s.historyIndex + 1) + [s]
    ensures r.lists == next.lists && r.cards == next.cards && r.syncQueue == next.syncQueue
    ensures r.lastSyncTime == next.lastSyncTime && r.conflicts == next.conflicts
  {
    next.(history := JsArray.SliceTo(s.history, s.historyIndex + 1) + [s],
          historyIndex := s.historyIndex + 1)
  }

  /** `{ ...target, history: s.history, historyIndex: index }`. Spreading an out-of-range
      entry (`undefined`) contributes no field; the model reads the missing fields as empty. */
  function Restore(s: BoardState, index: int): (r: BoardState)
    ensures r.history == s.history && r.historyIndex == index
    ensures 0 <= index < |s.history| ==>
      var target := s.history[index];
      && r.lists == target.lists && r.cards == target.cards && r.syncQueue == target.syncQueue
      && r.lastSyncTime == target.lastSyncTime && r.conflicts == target.conflicts
  {
    if 0 <= index < |s.history| then
      s.history[index].(history := s.history, historyIndex := index)
    else
      BoardState([], [], s.history, index, [], None, [])
  }

  /** The list ADD_LIST appends: defaults, then every key of the payload over them. */
  function NewList(s: BoardState, title: string, data: ListPatch, env: Env): List {
    OverlayList(List(env.freshId, title, |s.lists|, false, 1, env.now), data)
  }

  /** The card ADD_CARD appends, for the payload `{ listId, ...data }`. */
  function NewCard(s: BoardState, listId: string, data: CardPatch, env: Env): Card {
    var payloadListId := data.listId.GetOr(listId);
    OverlayCard(
      Card(env.freshId, payloadListId, "New Card", "", [], CountInList(s.cards, payloadListId), 1, env.now),
      data.(listId := Some(payloadListId)))
  }

  function MapLists(lists: seq<List>, id: string, f: List -> List): (r: seq<List>)
    ensures |r| == |lists|
    ensures forall i :: 0 <= i < |lists| ==> r[i] == if lists[i].id == id then f(lists[i]) else lists[i]
  {
    seq(|lists|, i requires 0 <= i < |lists| => if lists[i].id == id then f(lists[i]) else lists[i])
  }

  function MapCards(cards: seq<Card>, id: string, f: Card -> Card): (r: seq<Card>)
    ensures |r| == |cards|
    ensures forall i :: 0 <= i < |cards| ==> r[i] == if cards[i].id == id then f(cards[i]) else cards[i]
  {
    seq(|cards|, i requires 0 <= i < |cards| => if cards[i].id == id then f(cards[i]) else cards[i])
  }

  /** `lists.filter((l) => l.id !== id)` */
  function ListsWithout(lists: seq<List>, id: string): seq<List> {
    if lists == [] then []
    else ListsWithout(lists[..|lists| - 1], id) + if lists[|lists| - 1].id != id then [lists[|lists| - 1]] else []
  }

  /** `cards.filter((c) => c.id !== id)` */
  function CardsWithoutId(cards: seq<Card>, id: string): seq<Card> {
    if cards == [] then []
    else CardsWithoutId(cards[..|cards| - 1], id) + if cards[|cards| - 1].id != id then [cards[|cards| - 1]] else []
  }

  /** `cards.filter((c) => c.listId !== listId)` */
  function CardsOutsideList(cards: seq<Card>, listId: string): seq<Card> {
    if cards == [] then []
    else CardsOutsideList(cards[..|cards| - 1], listId) + if cards[|cards| - 1].listId != listId then [cards[|cards| - 1]] else []
  }

  /** `cards.filter((c) => c.listId === listId && c.id !== except)`; with `except` matching
      no card this is the filter on the list alone. */
  function CardsInList(cards: seq<Card>, listId: string, except: Option<string>): seq<Card> {
    if cards == [] then []
    else
      var c := cards[|cards| - 1];
      CardsInList(cards[..|cards| - 1], listId, except) + if c.listId == listId && Some(c.id) != except then [c] else []
  }

  function CardOrder(c: Card): int { c.order }

  /** `.sort((a, b) => (a.order || 0) - (b.order || 0))` on a filtered copy. */
  function SortByOrder(cards: seq<Card>): seq<Card> {
    JsArray.SortBy(cards, CardOrder)
  }

  /** What MOVE_CARD's `map` makes of one card, given the spliced source and target arrays. */
  function MoveOne(c: Card, cardId: string, newListId: string, newIndex: int,
                   source: seq<Card>, target: seq<Card>, now: int): Card
  {
    if c.id == cardId then
      c.(listId := newListId, order := newIndex, version := BumpVersion(c.version), lastModifiedAt := now)
    else if CardIndex(source, c.id) != -1 then
      c.(order := CardIndex(source, c.id), lastModifiedAt := now)
    else if CardIndex(target, c.id) != -1 then
      c.(order := CardIndex(target, c.id), lastModifiedAt := now)
    else c
  }

  function MoveCards(cards: seq<Card>, cardId: string, newListId: string, newIndex: int,
                     source: seq<Card>, target: seq<Card>, now: int): (r: seq<Card>)
    ensures |r| == |cards|
    ensures forall i :: 0 <= i < |cards| ==> r[i] == MoveOne(cards[i], cardId, newListId, newIndex, source, target, now)
  {
    seq(|cards|, i requires 0 <= i < |cards| => MoveOne(cards[i], cardId, newListId, newIndex, source, target, now))
  }

  /** The source list sorted by order, without the moved card. */
  function MoveSource(cards: seq<Card>, card: Card, cardId: string): seq<Card> {
    var source := SortByOrder(CardsInList(cards, card.listId, None));
    JsArray.SpliceRemove(source, CardIndex(source, cardId))
  }

  /** The target list sorted by order, with the moved card spliced in at `newIndex`. */
  function MoveTarget(cards: seq<Card>, card: Card, cardId: string, newListId: string, newIndex: int): seq<Card> {
    JsArray.SpliceInsert(SortByOrder(CardsInList(cards, newListId, Some(cardId))), newIndex, card)
  }

  /** MOVE_CARD */
  function MoveCardIn(s: BoardState, cardId: string, newListId: string, newIndex: int, env: Env): BoardState {
    var i := CardIndex(s.cards, cardId);
    if i == -1 then s
    else
      var card := s.cards[i];
      if CardIndex(SortByOrder(CardsInList(s.cards, card.listId, None)), cardId) == -1 then s
      else
        var source := MoveSource(s.cards, card, cardId);
        var target := MoveTarget(s.cards, card, cardId, newListId, newIndex);
        PushHistory(s, s.(cards := MoveCards(s.cards, cardId, newListId, newIndex, source, target, env.now)))
  }

  /** What REORDER_CARDS makes of one card. */
  function ReorderOne(c: Card, listId: string, cardIds: seq<string>, now: int): Card {
    if c.listId == listId && JsArray.IndexOf(cardIds, c.id) != -1 then
      c.(order := JsArray.IndexOf(cardIds, c.id), lastModifiedAt := now)
    else c
  }

  function ReorderCardsIn(cards: seq<Card>, listId: string, cardIds: seq<string>, now: int): (r: seq<Card>)
    ensures |r| == |cards|
    ensures forall i :: 0 <= i < |cards| ==> r[i] == ReorderOne(cards[i], listId, cardIds, now)
  {
    seq(|cards|, i requires 0 <= i < |cards| => ReorderOne(cards[i], listId, cardIds, now))
  }

  function SetArchived(archived: bool): List -> List {
    (l: List) => l.(archived := archived)
  }

  /** `boardReducer(state, action)` */
  function Reduce(s: BoardState, a: Action, env: Env): BoardState {
    match a
    case SetInitialState(lists, cards) =>
      s.(lists := lists.GetOr([]), cards := cards.GetOr([]))
    case AddList(title, data) =>
      PushHistory(s, s.(lists := s.lists + [NewList(s, title, data, env)]))
    case UpdateList(listId, updates) =>
      PushHistory(s, s.(lists := MapLists(s.lists, listId, (l: List) => UpdatedList(l, updates, env.now))))
    case DeleteList(listId) =>
      PushHistory(s, s.(lists := ListsWithout(s.lists, listId), cards := CardsOutsideList(s.cards, listId)))
    case ArchiveList(listId) =>
      PushHistory(s, s.(lists := MapLists(s.lists, listId, SetArchived(true))))
    case UnarchiveList(listId) =>
      PushHistory(s, s.(lists := MapLists(s.lists, listId, SetArchived(false))))
    case AddCard(listId, data) =>
      PushHistory(s, s.(cards := s.cards + [NewCard(s, listId, data, env)]))
    case UpdateCard(cardId, updates) =>
      PushHistory(s, s.(cards := MapCards(s.cards, cardId, (c: Card) => UpdatedCard(c, updates, env.now))))
    case DeleteCard(cardId) =>
      PushHistory(s, s.(cards := CardsWithoutId(s.cards, cardId)))
    case MoveCard(cardId, newListId, newIndex) =>
      MoveCardIn(s, cardId, newListId, newIndex, env)
    case ReorderCards(listId, cardIds) =>
      PushHistory(s, s.(cards := ReorderCardsIn(s.cards, listId, cardIds, env.now)))
    case SyncSuccess =>
      s.(lastSyncTime := Some(env.now), syncQueue := [])
    case SyncFailure(queue) =>
      s.(syncQueue := queue.GetOr(s.syncQueue))
    case Undo =>
      if s.historyIndex <= 0 then s else Restore(s, s.historyIndex - 1)
    case Redo =>
      if s.historyIndex >= |s.history| - 1 then s else Restore(s, s.historyIndex + 1)
    case ClearAll =>
      PushHistory(s, s.(lists := [], cards := [], syncQueue := [], conflicts := []))
    case Unrecognized(_) =>
      s
  }
}
