/** The records the kanban core manipulates: lists, cards, the partial records that update
    and create payloads carry, and the entries of the pending-action queue.
    Every entity carries every field; a field a payload may leave out is an `Option`. */
module Entities {
  import opened Wrappers

  datatype List = List(
    id: string,
    title: string,
    order: int,
    archived: bool,
    version: int,
    lastModifiedAt: int)

  datatype Card = Card(
    id: string,
    listId: string,
    title: string,
    description: string,
    tags: seq<string>,
    order: int,
    version: int,
    lastModifiedAt: int)

  /** The keys a list payload may carry; `None` is a key the payload does not have. */
  datatype ListPatch = ListPatch(
    id: Option<string>,
    title: Option<string>,
    order: Option<int>,
    archived: Option<bool>,
    version: Option<int>,
    lastModifiedAt: Option<int>)

  /** The keys a card payload may carry. */
  datatype CardPatch = CardPatch(
    id: Option<string>,
    listId: Option<string>,
    title: Option<string>,
    description: Option<string>,
    tags: Option<seq<string>>,
    order: Option<int>,
    version: Option<int>,
    lastModifiedAt: Option<int>)

  const EmptyListPatch := ListPatch(None, None, None, None, None, None)
  const EmptyCardPatch := CardPatch(None, None, None, None, None, None, None, None)

  /** `{ ...l, ...p }` */
  function OverlayList(l: List, p: ListPatch): List {
    List(p.id.GetOr(l.id), p.title.GetOr(l.title), p.order.GetOr(l.order),
         p.archived.GetOr(l.archived), p.version.GetOr(l.version),
         p.lastModifiedAt.GetOr(l.lastModifiedAt))
  }

  /** `{ ...c, ...p }` */
  function OverlayCard(c: Card, p: CardPatch): Card {
    Card(p.id.GetOr(c.id), p.listId.GetOr(c.listId), p.title.GetOr(c.title),
         p.description.GetOr(c.description), p.tags.GetOr(c.tags), p.order.GetOr(c.order),
         p.version.GetOr(c.version), p.lastModifiedAt.GetOr(c.lastModifiedAt))
  }

  /** `(version || 1) + 1`: a missing (zero) version counts as 1. */
  function BumpVersion(v: int): (r: int)
    ensures r > v
    ensures v != 0 ==> r == v + 1
  {
    (if v == 0 then 1 else v) + 1
  }

  /** The record an update produces: `{ ...l, ...updates, version: (l.version || 1) + 1, lastModifiedAt: now }`. */
  function UpdatedList(l: List, updates: ListPatch, now: int): (r: List)
    ensures r.id == updates.id.GetOr(l.id) && r.title == updates.title.GetOr(l.title)
    ensures r.order == updates.order.GetOr(l.order) && r.archived == updates.archived.GetOr(l.archived)
    ensures r.version > l.version && r.lastModifiedAt == now
  {
    OverlayList(l, updates).(version := BumpVersion(l.version), lastModifiedAt := now)
  }

  function UpdatedCard(c: Card, updates: CardPatch, now: int): (r: Card)
    ensures r.id == updates.id.GetOr(c.id) && r.listId == updates.listId.GetOr(c.listId)
    ensures r.title == updates.title.GetOr(c.title) && r.description == updates.description.GetOr(c.description)
    ensures r.tags == updates.tags.GetOr(c.tags) && r.order == updates.order.GetOr(c.order)
    ensures r.version > c.version && r.lastModifiedAt == now
  {
    OverlayCard(c, updates).(version := BumpVersion(c.version), lastModifiedAt := now)
  }

  /** `lists.findIndex((l) => l.id === id)` */
  function ListIndex(lists: seq<List>, id: string): (r: int)
    ensures -1 <= r < |lists|
    ensures r == -1 <==> forall i :: 0 <= i < |lists| ==> lists[i].id != id
    ensures 0 <= r ==> lists[r].id == id && forall i :: 0 <= i < r ==> lists[i].id != id
  {
    if |lists| == 0 then -1
    else if lists[0].id == id then 0
    else
      var r := ListIndex(lists[1..], id);
      if r == -1 then -1 else r + 1
  }

  /** `cards.findIndex((c) => c.id === id)` */
  function CardIndex(cards: seq<Card>, id: string): (r: int)
    ensures -1 <= r < |cards|
    ensures r == -1 <==> forall i :: 0 <= i < |cards| ==> cards[i].id != id
    ensures 0 <= r ==> cards[r].id == id && forall i :: 0 <= i < r ==> cards[i].id != id
  {
    if |cards| == 0 then -1
    else if cards[0].id == id then 0
    else
      var r := CardIndex(cards[1..], id);
      if r == -1 then -1 else r + 1
  }

  /** `cards.filter((c) => c.listId === listId).length` */
  function CountInList(cards: seq<Card>, listId: string): nat {
    if cards == [] then 0
    else CountInList(cards[..|cards| - 1], listId) + if cards[|cards| - 1].listId == listId then 1 else 0
  }

  ghost predicate UniqueCardIds(cards: seq<Card>) {
    forall i, j :: 0 <= i < |cards| && 0 <= j < |cards| && cards[i].id == cards[j].id ==> i == j
  }

  ghost predicate UniqueListIds(lists: seq<List>) {
    forall i, j :: 0 <= i < |lists| && 0 <= j < |lists| && lists[i].id == lists[j].id ==> i == j
  }

  /** What a pending action asks the remote store to do; its payload as the queue stores it. */
  datatype QueuedOp =
    | CreateListOp(list: ListPatch)
    | UpdateListOp(list: ListPatch)
    | DeleteListOp(target: Option<string>)
    | CreateCardOp(card: CardPatch)
    | UpdateCardOp(card: CardPatch)
    | DeleteCardOp(target: Option<string>)
    | MoveCardOp(movedId: string, newListId: string, newIndex: int)
    | OtherOp(kind: string)

  /** An entry of the pending-action queue, with the key the local store gave it. */
  datatype QueuedAction = QueuedAction(id: int, op: QueuedOp, timestamp: int)

  /** A conflict surfaced for the user; the core only ever clears the list of them. */
  datatype Conflict =
    | ListConflict(name: string, localList: List, serverList: List)
    | CardConflict(name: string, localCard: Card, serverCard: Card)
}
