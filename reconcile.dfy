/** The reconciliation step of `syncWithServer` (`src/hooks/useOfflineSync.js`), stated once for
    lists and cards: each local record is matched with the first server record of the same id
    and merged when the server's copy is strictly newer; server records no local record knows
    are appended in server order. */
module Reconcile {
  import opened Wrappers

  /** `records.findIndex((r) => r.id === key)` */
  function FindIndex<T>(records: seq<T>, id: T -> string, key: string): (r: int)
    ensures -1 <= r < |records|
    ensures r == -1 <==> forall i :: 0 <= i < |records| ==> id(records[i]) != key
    ensures 0 <= r ==> id(records[r]) == key && forall j :: 0 <= j < r ==> id(records[j]) != key
  {
    if records == [] then -1
    else if id(records[0]) == key then 0
    else
      var r := FindIndex(records[1..], id, key);
      if r == -1 then -1 else r + 1
  }

  /** `records.find((r) => r.id === key)`: the first record with that id, if any. */
  function Find<T>(records: seq<T>, id: T -> string, key: string): Option<T> {
    var i := FindIndex(records, id, key);
    if i == -1 then None else Some(records[i])
  }

  /** What the `map` over the local records makes of one of them. */
  function ReconcileOne<T>(local: T, server: seq<T>, id: T -> string, stamp: T -> int, merge: (T, T) -> T): T {
    match Find(server, id, id(local))
    case None => local
    case Some(s) => if stamp(s) > stamp(local) then merge(local, s) else local
  }

  function MergedLocals<T>(local: seq<T>, server: seq<T>, id: T -> string, stamp: T -> int, merge: (T, T) -> T): (r: seq<T>)
    ensures |r| == |local|
  {
    seq(|local|, i requires 0 <= i < |local| => ReconcileOne(local[i], server, id, stamp, merge))
  }

  /** `server.filter((s) => !local.some((l) => l.id === s.id))` */
  function ServerOnly<T>(server: seq<T>, local: seq<T>, id: T -> string): seq<T> {
    if server == [] then []
    else
      var rest := ServerOnly(server[..|server| - 1], local, id);
      var s := server[|server| - 1];
      if Find(local, id, id(s)).None? then rest + [s] else rest
  }

  /** `[...mergedLocals, ...serverOnly]` */
  function Reconciled<T>(local: seq<T>, server: seq<T>, id: T -> string, stamp: T -> int, merge: (T, T) -> T): seq<T> {
    MergedLocals(local, server, id, stamp, merge) + ServerOnly(server, local, id)
  }

  ghost predicate UniqueIds<T>(records: seq<T>, id: T -> string) {
    forall i, j :: 0 <= i < |records| && 0 <= j < |records| && id(records[i]) == id(records[j]) ==> i == j
  }

  /** The merge answers with the local record's id when both share it, and with the server's
      time. */
  ghost predicate MergeKeepsIdAndTakesStamp<T(!new)>(id: T -> string, stamp: T -> int, merge: (T, T) -> T) {
    forall l, s :: id(l) == id(s) ==> id(merge(l, s)) == id(l) && stamp(merge(l, s)) == stamp(s)
  }

  /** Some record carries the id `key`. */
  ghost predicate Carries<T>(records: seq<T>, id: T -> string, key: string) {
    exists j :: 0 <= j < |records| && id(records[j]) == key
  }

  /** The server-only records are exactly the server records whose id no local record has, in
      server order. */
  lemma {:induction false} ServerOnlyMembers<T>(server: seq<T>, local: seq<T>, id: T -> string)
    ensures forall x :: x in ServerOnly(server, local, id) ==> x in server && !Carries(local, id, id(x))
    ensures forall x :: x in server && !Carries(local, id, id(x)) ==> x in ServerOnly(server, local, id)
    ensures |ServerOnly(server, local, id)| <= |server|
  {
    if server != [] {
      var init := server[..|server| - 1];
      ServerOnlyMembers(init, local, id);
      assert server == init + [server[|server| - 1]];
    }
  }

  /** A server-only record list drawn from server records with unique ids has unique ids. */
  lemma {:induction false} ServerOnlyUnique<T>(server: seq<T>, local: seq<T>, id: T -> string)
    requires UniqueIds(server, id)
    ensures UniqueIds(ServerOnly(server, local, id), id)
  {
    if server != [] {
      var init := server[..|server| - 1];
      var last := server[|server| - 1];
      assert UniqueIds(init, id) by {
        forall i, j | 0 <= i < |init| && 0 <= j < |init| && id(init[i]) == id(init[j]) ensures i == j {
          assert init[i] == server[i] && init[j] == server[j];
        }
      }
      ServerOnlyUnique(init, local, id);
      ServerOnlyMembers(init, local, id);
      var rest := ServerOnly(init, local, id);
      forall x | x in rest ensures id(x) != id(last) {
        assert x in init;
        var k :| 0 <= k < |init| && init[k] == x;
        assert server[k] == x;
      }
    }
  }

  /** The records from position `|local|` on are the server-only ones. */
  lemma ReconciledTail<T>(local: seq<T>, server: seq<T>, id: T -> string, stamp: T -> int, merge: (T, T) -> T, p: nat)
    requires |local| <= p < |Reconciled(local, server, id, stamp, merge)|
    ensures Reconciled(local, server, id, stamp, merge)[p] in server
    ensures !Carries(local, id, id(Reconciled(local, server, id, stamp, merge)[p]))
  {
    var o := ServerOnly(server, local, id);
    ServerOnlyMembers(server, local, id);
    assert Reconciled(local, server, id, stamp, merge)[p] == o[p - |local|];
  }

  /** Reconciling keeps every local record in its place, or replaces it by its merge with a
      newer server copy, and appends exactly the server records of unseen ids: the result has
      `|local| + |serverOnly|` records, and with unique ids on both sides and a merge that keeps
      the id, no id occurs twice. */
  lemma ReconciledShape<T(!new)>(local: seq<T>, server: seq<T>, id: T -> string, stamp: T -> int, merge: (T, T) -> T)
    requires MergeKeepsIdAndTakesStamp(id, stamp, merge)
    ensures var r := Reconciled(local, server, id, stamp, merge);
      && |r| == |local| + |ServerOnly(server, local, id)|
      && forall i :: 0 <= i < |local| ==> id(r[i]) == id(local[i])
    ensures UniqueIds(local, id) && UniqueIds(server, id) ==> UniqueIds(Reconciled(local, server, id, stamp, merge), id)
  {
    var m := MergedLocals(local, server, id, stamp, merge);
    var o := ServerOnly(server, local, id);
    var r := m + o;
    forall i | 0 <= i < |local| ensures id(r[i]) == id(local[i]) {
      assert r[i] == m[i];
      var f := Find(server, id, id(local[i]));
    }
    if UniqueIds(local, id) && UniqueIds(server, id) {
      ServerOnlyUnique(server, local, id);
      forall p | |local| <= p < |r| ensures !Carries(local, id, id(r[p])) {
        ReconciledTail(local, server, id, stamp, merge, p);
      }
      forall i, j | 0 <= i < |r| && 0 <= j < |r| && id(r[i]) == id(r[j]) ensures i == j {
        if i >= |local| && j >= |local| {
          assert r[i] == o[i - |local|] && r[j] == o[j - |local|];
        }
      }
    }
  }

  /** Every id the local or server records carry is carried by the result, and no other. */
  lemma ReconciledIds<T(!new)>(local: seq<T>, server: seq<T>, id: T -> string, stamp: T -> int, merge: (T, T) -> T, key: string)
    requires MergeKeepsIdAndTakesStamp(id, stamp, merge)
    ensures Carries(Reconciled(local, server, id, stamp, merge), id, key)
        <==> Carries(local, id, key) || Carries(server, id, key)
  {
    var r := Reconciled(local, server, id, stamp, merge);
    var o := ServerOnly(server, local, id);
    ReconciledShape(local, server, id, stamp, merge);
    if Carries(r, id, key) {
      var i :| 0 <= i < |r| && id(r[i]) == key;
      if i >= |local| {
        ReconciledTail(local, server, id, stamp, merge, i);
        var j :| 0 <= j < |server| && server[j] == r[i];
      }
    }
    if Carries(local, id, key) {
      var i :| 0 <= i < |local| && id(local[i]) == key;
      assert id(r[i]) == key;
    } else if Carries(server, id, key) {
      var j :| 0 <= j < |server| && id(server[j]) == key;
      ServerOnlyMembers(server, local, id);
      assert server[j] in o;
      var p :| 0 <= p < |o| && o[p] == server[j];
      assert r[|local| + p] == server[j];
    }
  }

  /** Reconciling again against the same server snapshot changes nothing, when the server's ids
      are unique and the merge keeps the id and takes the server's time. */
  lemma ReconcileIdempotent<T(!new)>(local: seq<T>, server: seq<T>, id: T -> string, stamp: T -> int, merge: (T, T) -> T)
    requires MergeKeepsIdAndTakesStamp(id, stamp, merge)
    requires UniqueIds(server, id)
    ensures var r := Reconciled(local, server, id, stamp, merge);
      Reconciled(r, server, id, stamp, merge) == r
  {
    var r := Reconciled(local, server, id, stamp, merge);
    ReconciledShape(local, server, id, stamp, merge);
    forall i | 0 <= i < |r| ensures ReconcileOne(r[i], server, id, stamp, merge) == r[i] {
      if i < |local| {
        ReconcileOneIsFixed(local[i], server, id, stamp, merge);
      } else {
        ReconciledTail(local, server, id, stamp, merge, i);
        var k :| 0 <= k < |server| && server[k] == r[i];
        FindUnique(server, id, k);
      }
    }
    forall k | 0 <= k < |server| ensures Carries(r, id, id(server[k])) {
      ReconciledIds(local, server, id, stamp, merge, id(server[k]));
    }
    ServerOnlyEmpty(server, r, id);
  }

  /** Once reconciled, a local record is its own reconciliation. */
  lemma ReconcileOneIsFixed<T(!new)>(l: T, server: seq<T>, id: T -> string, stamp: T -> int, merge: (T, T) -> T)
    requires MergeKeepsIdAndTakesStamp(id, stamp, merge)
    ensures var once := ReconcileOne(l, server, id, stamp, merge);
      ReconcileOne(once, server, id, stamp, merge) == once
  {
    var f := Find(server, id, id(l));
    if f.Some? && stamp(f.value) > stamp(l) {
      assert id(merge(l, f.value)) == id(l) && stamp(merge(l, f.value)) == stamp(f.value);
    }
  }

  /** With unique ids, the record found for the id of `records[k]` is `records[k]`. */
  lemma FindUnique<T>(records: seq<T>, id: T -> string, k: nat)
    requires UniqueIds(records, id) && k < |records|
    ensures Find(records, id, id(records[k])) == Some(records[k])
  {
    var i := FindIndex(records, id, id(records[k]));
    assert i != -1;
  }

  /** Local records that already carry every server id leave no server-only record. */
  lemma {:induction false} ServerOnlyEmpty<T>(server: seq<T>, local: seq<T>, id: T -> string)
    requires forall k :: 0 <= k < |server| ==> Carries(local, id, id(server[k]))
    ensures ServerOnly(server, local, id) == []
  {
    if server != [] {
      var init := server[..|server| - 1];
      forall k | 0 <= k < |init| ensures Carries(local, id, id(init[k])) {
        assert init[k] == server[k];
      }
      ServerOnlyEmpty(init, local, id);
      var j :| 0 <= j < |local| && id(local[j]) == id(server[|server| - 1]);
    }
  }
}
