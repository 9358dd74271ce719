/** How `syncWithServer` (`src/hooks/useOfflineSync.js`) merges a local record with a newer
    server copy: `mergeObjects({ ...local, version: (local.version || 1) - 1 }, local, server)`.
    Lists and cards are encoded as the plain JavaScript objects they are, so that the merge is
    the generic `Helpers.Merge3`; for these flat records it comes down to the server record
    carrying the local version. */
module SyncMerge {
  import opened Helpers
  import opened Entities

  /** A list as the plain object it is in the store and on the wire. */
  function EncodeList(l: List): Value {
    Obj(map[
      "id" := Str(l.id),
      "title" := Str(l.title),
      "order" := Num(l.order),
      "archived" := Bool(l.archived),
      "lastModifiedAt" := Num(l.lastModifiedAt),
      "version" := Num(l.version)])
  }

  /** A card as the plain object it is; its tags are an array of strings. */
  function EncodeCard(c: Card): Value {
    Obj(map[
      "id" := Str(c.id),
      "listId" := Str(c.listId),
      "title" := Str(c.title),
      "description" := Str(c.description),
      "tags" := Arr(seq(|c.tags|, i requires 0 <= i < |c.tags| => Str(c.tags[i]))),
      "order" := Num(c.order),
      "lastModifiedAt" := Num(c.lastModifiedAt),
      "version" := Num(c.version)])
  }

  /** `(version || 1) - 1`: the version the merge pretends the common ancestor had. */
  function BaseVersion(v: int): (r: int)
    ensures v != 0 ==> r == v - 1 && r != v
    ensures v == 0 ==> r == v
  {
    (if v == 0 then 1 else v) - 1
  }

  /** `{ ...localList, version: (localList.version || 1) - 1 }` */
  function BaseList(l: List): List {
    l.(version := BaseVersion(l.version))
  }

  function BaseCard(c: Card): Card {
    c.(version := BaseVersion(c.version))
  }

  /** The typed outcome of the merge: the server's list, with the local version unless that is
      0 (a missing version). */
  function MergeList(local: List, server: List): List {
    server.(version := if local.version == 0 then server.version else local.version)
  }

  function MergeCard(local: Card, server: Card): Card {
    server.(version := if local.version == 0 then server.version else local.version)
  }

  /** The generic fact behind both record kinds: when a flat local record agrees with the base
      on every key but `key`, and the server record has the same keys, the merge is the server
      record with `key` taken from the local record if the local value differs from the base's. */
  lemma MergeDiffersOnlyAt(base: Value, local: Value, server: Value, key: string)
    requires base.Obj? && local.Obj? && server.Obj? && Flat(local)
    requires local.fields.Keys == server.fields.Keys
    requires key in local.fields && Scalar(local.fields[key])
    requires forall k :: k in local.fields && k != key ==> Get(base, k) == local.fields[k]
    ensures Merge3(base, local, server) ==
      Obj(server.fields[key := if local.fields[key] != Get(base, key) then local.fields[key] else server.fields[key]])
  {
    var lv := local.fields[key];
    var expected := server.fields[key := if lv != Get(base, key) then lv else server.fields[key]];
    MergeAt(base, local, server, key);
    var r := Merge3(base, local, server);
    forall k ensures k in r.fields <==> k in expected {
      MergeAt(base, local, server, k);
    }
    forall k | k in r.fields ensures r.fields[k] == expected[k] {
      MergeAt(base, local, server, k);
      if k != key && k in local.fields {
        assert !Writes(base, local, server, k);
      }
    }
    assert r.fields == expected;
  }

  /** The merge `syncWithServer` makes of a local list and a newer server list is the server's
      list with the local version (unless the local version is 0). */
  lemma MergeListIsServerWithLocalVersion(local: List, server: List)
    ensures Merge3(EncodeList(BaseList(local)), EncodeList(local), EncodeList(server)) == EncodeList(MergeList(local, server))
  {
    ListMergeInputs(local, server);
    MergeDiffersOnlyAt(EncodeList(BaseList(local)), EncodeList(local), EncodeList(server), "version");
    ListMergeOutput(local, server);
  }

  /** An encoded list and its base agree on every key but the version, and the server's
      encoding has the same keys. */
  lemma ListMergeInputs(local: List, server: List)
    ensures var b := EncodeList(BaseList(local));
      var l := EncodeList(local);
      var s := EncodeList(server);
      && b.Obj? && l.Obj? && s.Obj? && Flat(l) && l.fields.Keys == s.fields.Keys
      && "version" in l.fields && Scalar(l.fields["version"])
      && forall k :: k in l.fields && k != "version" ==> Get(b, k) == l.fields[k]
  {
    var l := EncodeList(local);
    assert Flat(l) by {
      forall k | k in Props(l) ensures !Props(l)[k].Obj? {
      }
    }
  }

  /** Writing the local version over the server's encoding when it differs from the base's
      encodes the typed merge. */
  lemma ListMergeOutput(local: List, server: List)
    ensures var b := EncodeList(BaseList(local));
      var lv := Num(local.version);
      var s := EncodeList(server);
      Obj(s.fields["version" := if lv != Get(b, "version") then lv else s.fields["version"]])
        == EncodeList(MergeList(local, server))
  {
    var s := EncodeList(server).fields;
    assert Get(EncodeList(BaseList(local)), "version") == Num(BaseVersion(local.version));
    if local.version == 0 {
      assert s["version" := s["version"]] == s;
    } else {
      assert s["version" := Num(local.version)] == EncodeList(server.(version := local.version)).fields;
    }
  }

  /** The same for cards. */
  lemma MergeCardIsServerWithLocalVersion(local: Card, server: Card)
    ensures Merge3(EncodeCard(BaseCard(local)), EncodeCard(local), EncodeCard(server)) == EncodeCard(MergeCard(local, server))
  {
    CardMergeInputs(local, server);
    MergeDiffersOnlyAt(EncodeCard(BaseCard(local)), EncodeCard(local), EncodeCard(server), "version");
    CardMergeOutput(local, server);
  }

  lemma CardMergeInputs(local: Card, server: Card)
    ensures var b := EncodeCard(BaseCard(local));
      var l := EncodeCard(local);
      var s := EncodeCard(server);
      && b.Obj? && l.Obj? && s.Obj? && Flat(l) && l.fields.Keys == s.fields.Keys
      && "version" in l.fields && Scalar(l.fields["version"])
      && forall k :: k in l.fields && k != "version" ==> Get(b, k) == l.fields[k]
  {
    var l := EncodeCard(local);
    assert Flat(l) by {
      forall k | k in Props(l) ensures !Props(l)[k].Obj? {
      }
    }
  }

  lemma CardMergeOutput(local: Card, server: Card)
    ensures var b := EncodeCard(BaseCard(local));
      var lv := Num(local.version);
      var s := EncodeCard(server);
      Obj(s.fields["version" := if lv != Get(b, "version") then lv else s.fields["version"]])
        == EncodeCard(MergeCard(local, server))
  {
    var s := EncodeCard(server).fields;
    assert Get(EncodeCard(BaseCard(local)), "version") == Num(BaseVersion(local.version));
    if local.version == 0 {
      assert s["version" := s["version"]] == s;
    } else {
      assert s["version" := Num(local.version)] == EncodeCard(server.(version := local.version)).fields;
    }
  }

  /** Different lists encode to different objects, so the typed merge is the only list whose
      encoding is the merged object. */
  lemma EncodeListInjective(a: List, b: List)
    requires EncodeList(a) == EncodeList(b)
    ensures a == b
  {
    assert EncodeList(a).fields["id"] == EncodeList(b).fields["id"];
    assert EncodeList(a).fields["title"] == EncodeList(b).fields["title"];
    assert EncodeList(a).fields["order"] == EncodeList(b).fields["order"];
    assert EncodeList(a).fields["archived"] == EncodeList(b).fields["archived"];
    assert EncodeList(a).fields["version"] == EncodeList(b).fields["version"];
    assert EncodeList(a).fields["lastModifiedAt"] == EncodeList(b).fields["lastModifiedAt"];
  }

  lemma EncodeCardInjective(a: Card, b: Card)
    requires EncodeCard(a) == EncodeCard(b)
    ensures a == b
  {
    var ea := EncodeCard(a).fields;
    var eb := EncodeCard(b).fields;
    assert ea["id"] == eb["id"] && ea["listId"] == eb["listId"] && ea["title"] == eb["title"];
    assert ea["description"] == eb["description"] && ea["order"] == eb["order"];
    assert ea["version"] == eb["version"] && ea["lastModifiedAt"] == eb["lastModifiedAt"];
    assert ea["tags"] == eb["tags"];
    assert |a.tags| == |ea["tags"].items| == |eb["tags"].items| == |b.tags|;
    forall i | 0 <= i < |a.tags| ensures a.tags[i] == b.tags[i] {
      assert ea["tags"].items[i] == eb["tags"].items[i];
    }
  }
}
