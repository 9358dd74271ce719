/** The JavaScript values the generic helpers of `src/utils/helpers.js` work on, the three-way
    record merge `mergeObjects` used by offline synchronisation, and `getContrastColor`. */
module Helpers {
  import opened Wrappers
  import JsArray

  /** A JSON-like JavaScript value. Numbers are integers; objects are maps from keys to values. */
  datatype Value =
    | Undefined
    | Null
    | Bool(b: bool)
    | Num(n: int)
    | Str(s: string)
    | Arr(items: seq<Value>)
    | Obj(fields: map<string, Value>)

  /** The values `!v` holds for. */
  predicate Falsy(v: Value) {
    v.Undefined? || v.Null? || v == Bool(false) || v == Num(0) || (v.Str? && |v.s| == 0)
  }

  /** The own keys a spread `{ ...v }` or a `for...in` loop sees on a plain object. A string or
      an array would show its index keys as well; the model gives every value other than an
      object no keys. */
  function Props(v: Value): map<string, Value> {
    if v.Obj? then v.fields else map[]
  }

  /** `v[k]` on a plain object: `undefined` when it has no such key. The index and `length`
      keys of strings and arrays are not modelled, so on any value other than an object this is
      `undefined`. */
  function Get(v: Value, k: string): Value {
    if v.Obj? && k in v.fields then v.fields[k] else Undefined
  }

  /** `v || {}` */
  function OrEmpty(v: Value): Value {
    if Falsy(v) then Obj(map[]) else v
  }

  /** A value the loop treats as a scalar: neither a plain object nor an array. */
  predicate Scalar(v: Value) {
    !v.Obj? && !v.Arr?
  }

  /** Whether the loop writes the local value of key `k` (or the merge of it) into the result:
      always for a plain object, for an array when it differs from the base's, and for a scalar
      when it differs from both the base's and the server's. */
  predicate Replaces(base: Value, lv: Value, server: Value, k: string) {
    if lv.Obj? then true
    else if lv.Arr? then lv != Get(base, k)
    else lv != Get(base, k) && lv != Get(server, k)
  }

  /** `mergeObjects(base, local, server)`: the three-way merge, key by key over `local`. */
  function Merge3(base: Value, local: Value, server: Value): Value
    decreases local, 3
  {
    if Falsy(base) && Falsy(local) && Falsy(server) then Obj(map[])
    else if Falsy(base) then Obj(Props(local) + Props(server))
    else if Falsy(local) then (if !Falsy(server) then server else base)
    else if Falsy(server) then Obj(Props(base) + Props(local))
    else Obj(MergedSoFar(base, local, server, Props(local).Keys))
  }

  /** Whether the loop writes key `k` of the local record into the result. */
  predicate Writes(base: Value, local: Value, server: Value, k: string) {
    k in Props(local) && Replaces(base, Props(local)[k], server, k)
  }

  /** The server record with the keys in `done` of the local record written over it, as the
      loop writes them. */
  function MergedSoFar(base: Value, local: Value, server: Value, done: set<string>): map<string, Value>
    decreases local, 2
  {
    Props(server) + Written(base, local, server, done)
  }

  /** The keys in `done` the loop writes, with the values it writes for them. */
  function Written(base: Value, local: Value, server: Value, done: set<string>): map<string, Value>
    decreases local, 1
  {
    map k | k in done && Writes(base, local, server, k) :: LocalMerged(base, local, server, k)
  }

  /** The value the loop writes for key `k` of the local record: the merge of a nested plain
      object with the base's value and the server's value (or `{}`), any other value as is. */
  function LocalMerged(base: Value, local: Value, server: Value, k: string): Value
    decreases local, 0
  {
    if k in Props(local) then MergedValue(base, Props(local)[k], server, k) else Undefined
  }

  function MergedValue(base: Value, lv: Value, server: Value, k: string): Value
    decreases lv, 4
  {
    if lv.Obj? then Merge3(Get(base, k), lv, OrEmpty(Get(server, k))) else lv
  }

  /** Visiting one more key writes that key's merged value when the key is written. */
  lemma MergeStep(base: Value, local: Value, server: Value, done: set<string>, k: string)
    ensures MergedSoFar(base, local, server, done + {k}) ==
      if Writes(base, local, server, k)
      then MergedSoFar(base, local, server, done)[k := LocalMerged(base, local, server, k)]
      else MergedSoFar(base, local, server, done)
  {
    WrittenStep(base, local, server, done, k);
    if Writes(base, local, server, k) {
      UpdateAfterUnion(Props(server), Written(base, local, server, done), k, LocalMerged(base, local, server, k));
    }
  }

  /** Updating the right operand of a union updates the union. */
  lemma UpdateAfterUnion<K, V>(a: map<K, V>, w: map<K, V>, k: K, v: V)
    ensures a + w[k := v] == (a + w)[k := v]
  {
  }

  lemma WrittenStep(base: Value, local: Value, server: Value, done: set<string>, k: string)
    ensures Written(base, local, server, done + {k}) ==
      if Writes(base, local, server, k)
      then Written(base, local, server, done)[k := LocalMerged(base, local, server, k)]
      else Written(base, local, server, done)
  {
  }

  /** The merge as the source computes it: early returns for falsy inputs, then a copy of the
      server record updated key by key in a loop over the local record's keys. */
  method MergeObjects(base: Value, local: Value, server: Value) returns (r: Value)
    ensures r == Merge3(base, local, server)
    decreases local, 1
  {
    MergeCases(base, local, server);
    if Falsy(base) && Falsy(local) && Falsy(server) {
      return Obj(map[]);
    }
    if Falsy(base) {
      return Obj(Props(local) + Props(server));
    }
    if Falsy(local) {
      return if !Falsy(server) then server else base;
    }
    if Falsy(server) {
      return Obj(Props(base) + Props(local));
    }
    var merged := MergeKeys(base, local, server);
    r := Obj(merged);
  }

  /** The five cases of the merge, one per early return of the source and the loop. */
  lemma MergeCases(base: Value, local: Value, server: Value)
    ensures Falsy(base) && Falsy(local) && Falsy(server) ==> Merge3(base, local, server) == Obj(map[])
    ensures Falsy(base) && !(Falsy(local) && Falsy(server)) ==>
      Merge3(base, local, server) == Obj(Props(local) + Props(server))
    ensures !Falsy(base) && Falsy(local) ==>
      Merge3(base, local, server) == if !Falsy(server) then server else base
    ensures !Falsy(base) && !Falsy(local) && Falsy(server) ==>
      Merge3(base, local, server) == Obj(Props(base) + Props(local))
    ensures !Falsy(base) && !Falsy(local) && !Falsy(server) ==>
      Merge3(base, local, server) == Obj(MergedSoFar(base, local, server, Props(local).Keys))
  {
  }

  /** The `for...in` loop: starting from a copy of the server record, each own key of the
      local record is written as the merge rules say. */
  method MergeKeys(base: Value, local: Value, server: Value) returns (merged: map<string, Value>)
    ensures merged == MergedSoFar(base, local, server, Props(local).Keys)
    decreases local, 0
  {
    var l := Props(local);
    merged := Props(server);
    var keys := l.Keys;
    ghost var done: set<string> := {};
    while keys != {}
      invariant keys + done == l.Keys && keys !! done
      invariant merged == MergedSoFar(base, local, server, done)
      decreases keys
    {
      var k :| k in keys;
      var lv := l[k];
      var v := lv;
      if lv.Obj? {
        v := MergeObjects(Get(base, k), lv, OrEmpty(Get(server, k)));
      }
      WriteKey(base, local, server, done, k, v);
      if Replaces(base, lv, server, k) {
        merged := merged[k := v];
      }
      keys := keys - {k};
      done := done + {k};
    }
  }

  /** Whether and what the loop writes for a key of the local record, by the kind of its value. */
  lemma WriteRule(base: Value, local: Value, server: Value, k: string)
    requires k in Props(local)
    ensures Writes(base, local, server, k) == Replaces(base, Props(local)[k], server, k)
    ensures LocalMerged(base, local, server, k) == MergedValue(base, Props(local)[k], server, k)
  {
  }

  /** One iteration of the loop: key `k`, whose merged value is `v`, is written when the merge
      rules say so. */
  lemma WriteKey(base: Value, local: Value, server: Value, done: set<string>, k: string, v: Value)
    requires k in Props(local)
    requires Props(local)[k].Obj? ==> v == Merge3(Get(base, k), Props(local)[k], OrEmpty(Get(server, k)))
    requires !Props(local)[k].Obj? ==> v == Props(local)[k]
    ensures MergedSoFar(base, local, server, done + {k}) ==
      if Replaces(base, Props(local)[k], server, k)
      then MergedSoFar(base, local, server, done)[k := v]
      else MergedSoFar(base, local, server, done)
  {
    MergeStep(base, local, server, done, k);
    WriteRule(base, local, server, k);
  }

  /** The early returns: all three falsy gives `{}`; a falsy base gives the local record
      overlaid by the server record; a falsy local gives the server record (or the base when the
      server is falsy too); a falsy server gives the base overlaid by the local record. */
  lemma MergeFalsyInputs(base: Value, local: Value, server: Value)
    ensures var r := Merge3(base, local, server);
      && (Falsy(base) && Falsy(local) && Falsy(server) ==> r == Obj(map[]))
      && (Falsy(base) && !(Falsy(local) && Falsy(server)) ==>
            r.Obj? && forall k :: Get(r, k) == if k in Props(server) then Props(server)[k] else Get(local, k))
      && (!Falsy(base) && Falsy(local) ==> r == if Falsy(server) then base else server)
      && (!Falsy(base) && !Falsy(local) && Falsy(server) ==>
            r.Obj? && forall k :: Get(r, k) == if k in Props(local) then Props(local)[k] else Get(base, k))
  {
  }

  /** With all three inputs present, the result starts from the server record, key by key: a
      key the local record lacks keeps the server's value; a scalar key takes the local value
      exactly when it differs from both the base's and the server's, and otherwise the server's;
      an array key takes the local array exactly when it differs from the base's, and otherwise
      the server's; a nested object is merged recursively with the base's value and the server's
      value (or `{}`); and no key comes from anywhere but the server and local records. */
  lemma MergeKeyRule(base: Value, local: Value, server: Value, k: string)
    requires !Falsy(base) && !Falsy(local) && !Falsy(server)
    ensures Merge3(base, local, server).Obj?
    ensures var r := Merge3(base, local, server);
      k in r.fields ==> k in Props(server) || k in Props(local)
    ensures var r := Merge3(base, local, server);
      k !in Props(local) ==> (k in r.fields <==> k in Props(server)) && Get(r, k) == Get(server, k)
    ensures var r := Merge3(base, local, server);
      var lv := Get(local, k);
      k in Props(local) && Scalar(lv) ==>
        Get(r, k) == if lv != Get(base, k) && lv != Get(server, k) then lv else Get(server, k)
    ensures var r := Merge3(base, local, server);
      var lv := Get(local, k);
      k in Props(local) && lv.Arr? ==>
        Get(r, k) == if lv != Get(base, k) then lv else Get(server, k)
    ensures var r := Merge3(base, local, server);
      var lv := Get(local, k);
      k in Props(local) && lv.Obj? ==>
        k in r.fields && r.fields[k] == Merge3(Get(base, k), lv, OrEmpty(Get(server, k)))
  {
    MergeAt(base, local, server, k);
    if k in Props(local) {
      assert Get(local, k) == Props(local)[k];
    }
  }

  /** Key `k` of the merge: the written value when the loop writes `k`, the server's otherwise. */
  lemma MergeAt(base: Value, local: Value, server: Value, k: string)
    requires !Falsy(base) && !Falsy(local) && !Falsy(server)
    ensures Merge3(base, local, server).Obj?
    ensures k in Merge3(base, local, server).fields <==> k in Props(server) || Writes(base, local, server, k)
    ensures Get(Merge3(base, local, server), k) ==
      if Writes(base, local, server, k) then LocalMerged(base, local, server, k) else Get(server, k)
  {
    MergePresent(base, local, server);
    var w := Written(base, local, server, Props(local).Keys);
    if k in w {
      assert w[k] == LocalMerged(base, local, server, k);
    }
  }

  /** With all three inputs present, the merge is the server record with the written keys over it. */
  lemma MergePresent(base: Value, local: Value, server: Value)
    requires !Falsy(base) && !Falsy(local) && !Falsy(server)
    ensures Merge3(base, local, server) == Obj(Props(server) + Written(base, local, server, Props(local).Keys))
    ensures forall k :: k in Written(base, local, server, Props(local).Keys) <==> Writes(base, local, server, k)
  {
  }

  /** A record made of scalars and arrays only. */
  predicate Flat(v: Value) {
    forall k :: k in Props(v) ==> !Props(v)[k].Obj?
  }

  /** For flat records, when the local record still equals the base the merge is the server
      record: no local key differs from the base, so none is written. */
  lemma FlatUnchangedLocalTakesServer(base: Value, local: Value, server: Value)
    requires local.Obj? && server.Obj? && Flat(local)
    requires local == base
    ensures Merge3(base, local, server) == server
  {
    assert Written(base, local, server, Props(local).Keys) == map[] by {
      forall k | k in Props(local) ensures !Writes(base, local, server, k) {
        assert Get(base, k) == Props(local)[k];
      }
    }
    assert Props(server) + map[] == server.fields;
  }

  /** A scalar changed only locally wins and a scalar changed only on the server wins. */
  lemma MergeScalarExample()
    ensures var m := Merge3(Obj(map["a" := Num(1), "b" := Num(2)]),
                            Obj(map["a" := Num(1), "b" := Num(3)]),
                            Obj(map["a" := Num(2), "b" := Num(2)]));
      Get(m, "a") == Num(2) && Get(m, "b") == Num(3)
  {
    var base := Obj(map["a" := Num(1), "b" := Num(2)]);
    var local := Obj(map["a" := Num(1), "b" := Num(3)]);
    var server := Obj(map["a" := Num(2), "b" := Num(2)]);
    MergeKeyRule(base, local, server, "a");
    MergeKeyRule(base, local, server, "b");
  }

  /** A title changed on both sides keeps the local value. */
  lemma MergeConflictExample()
    ensures var m := Merge3(Obj(map["title" := Str("Base")]), Obj(map["title" := Str("Local")]),
                            Obj(map["title" := Str("Server")]));
      Get(m, "title") == Str("Local")
  {
    MergeKeyRule(Obj(map["title" := Str("Base")]), Obj(map["title" := Str("Local")]),
                 Obj(map["title" := Str("Server")]), "title");
  }

  /** An array extended locally replaces the server's. */
  lemma MergeArrayExample()
    ensures var m := Merge3(Obj(map["tags" := Arr([Str("a"), Str("b")])]),
                            Obj(map["tags" := Arr([Str("a"), Str("b"), Str("c")])]),
                            Obj(map["tags" := Arr([Str("a"), Str("b")])]));
      Get(m, "tags") == Arr([Str("a"), Str("b"), Str("c")])
  {
    var base := Obj(map["tags" := Arr([Str("a"), Str("b")])]);
    var local := Obj(map["tags" := Arr([Str("a"), Str("b"), Str("c")])]);
    var server := Obj(map["tags" := Arr([Str("a"), Str("b")])]);
    assert Get(local, "tags") != Get(base, "tags") by {
      assert |Get(local, "tags").items| == 3;
    }
    MergeKeyRule(base, local, server, "tags");
  }

  /** Nested objects merge key by key. */
  lemma MergeNestedExample()
    ensures var m := Merge3(Obj(map["a" := Obj(map["x" := Num(1), "y" := Num(2)])]),
                            Obj(map["a" := Obj(map["x" := Num(1), "y" := Num(3)])]),
                            Obj(map["a" := Obj(map["x" := Num(2), "y" := Num(2)])]));
      Get(Get(m, "a"), "x") == Num(2) && Get(Get(m, "a"), "y") == Num(3)
  {
    var b := Obj(map["x" := Num(1), "y" := Num(2)]);
    var l := Obj(map["x" := Num(1), "y" := Num(3)]);
    var s := Obj(map["x" := Num(2), "y" := Num(2)]);
    NestedKey(b, l, s, "a");
    MergeScalarPoints(b, l, s);
  }

  /** A key holding a nested object on all three sides takes the merge of the three objects. */
  lemma NestedKey(b: Value, l: Value, s: Value, key: string)
    requires b.Obj? && l.Obj? && s.Obj?
    ensures Get(Merge3(Obj(map[key := b]), Obj(map[key := l]), Obj(map[key := s])), key) == Merge3(b, l, s)
  {
    var base, local, server := Obj(map[key := b]), Obj(map[key := l]), Obj(map[key := s]);
    MergeAt(base, local, server, key);
    assert Writes(base, local, server, key);
    assert LocalMerged(base, local, server, key) == Merge3(b, l, OrEmpty(s));
  }

  /** The inner merge of the nested example. */
  lemma MergeScalarPoints(b: Value, l: Value, s: Value)
    requires b == Obj(map["x" := Num(1), "y" := Num(2)])
    requires l == Obj(map["x" := Num(1), "y" := Num(3)])
    requires s == Obj(map["x" := Num(2), "y" := Num(2)])
    ensures Get(Merge3(b, l, s), "x") == Num(2) && Get(Merge3(b, l, s), "y") == Num(3)
  {
    MergeKeyRule(b, l, s, "x");
    MergeKeyRule(b, l, s, "y");
  }

  /** The characters `String.prototype.trim` and `parseInt` skip: the ECMAScript WhiteSpace
      and LineTerminator code points. */
  predicate IsJsWhitespace(c: char) {
    if c <= ' ' then '\t' <= c <= '\r' || c == ' '
    else if c < '\U{00A0}' then false
    else
      || c == '\U{00A0}' || c == '\U{1680}' || ('\U{2000}' <= c <= '\U{200A}')
      || c == '\U{2028}' || c == '\U{2029}' || c == '\U{202F}' || c == '\U{205F}'
      || c == '\U{3000}' || c == '\U{FEFF}'
  }

  function TrimStart(s: string): (r: string)
    ensures |r| <= |s| && r == s[|s| - |r|..]
    ensures r == [] || !IsJsWhitespace(r[0])
    ensures forall i :: 0 <= i < |s| - |r| ==> IsJsWhitespace(s[i])
  {
    if s != [] && IsJsWhitespace(s[0]) then TrimStart(s[1..]) else s
  }

  function HexDigit(c: char): Option<nat> {
    if '0' <= c <= '9' then Some(c as nat - '0' as nat)
    else if 'a' <= c <= 'f' then Some(c as nat - 'a' as nat + 10)
    else if 'A' <= c <= 'F' then Some(c as nat - 'A' as nat + 10)
    else None
  }

  /** The number of leading hexadecimal digits of `s`. */
  function HexPrefix(s: string): (n: nat)
    ensures n <= |s|
    ensures forall i :: 0 <= i < n ==> HexDigit(s[i]).Some?
    ensures n == |s| || HexDigit(s[n]).None?
  {
    if s != [] && HexDigit(s[0]).Some? then 1 + HexPrefix(s[1..]) else 0
  }

  /** The value of a string of hexadecimal digits, most significant first. */
  function HexValue(s: string): nat {
    if s == [] then 0 else HexValue(s[..|s| - 1]) * 16 + HexDigit(s[|s| - 1]).GetOr(0)
  }

  /** What follows an optional leading sign. */
  function SkipSign(t: string): string {
    if t != [] && (t[0] == '-' || t[0] == '+') then t[1..] else t
  }

  /** What follows an optional `0x` or `0X` prefix, which radix 16 allows. */
  function SkipHexPrefix(u: string): string {
    if |u| >= 2 && u[0] == '0' && (u[1] == 'x' || u[1] == 'X') then u[2..] else u
  }

  /** `parseInt(s, 16)`; `None` stands for `NaN`. Leading whitespace, a sign and a `0x`/`0X`
      prefix are skipped, then the longest run of hexadecimal digits is read. */
  function ParseHex(s: string): Option<int> {
    var t := TrimStart(s);
    var w := SkipHexPrefix(SkipSign(t));
    var n := HexPrefix(w);
    if n == 0 then None
    else if t[0] == '-' then Some(-(HexValue(w[..n]) as int))
    else Some(HexValue(w[..n]))
  }

  /** The UTF-16 code units of `s`, one character each. A character of the basic plane is its
      own unit; one beyond it is two surrogate halves, which no `char` can hold and which are
      both read as U+FFFD here: like a surrogate half, U+FFFD is no digit, sign or whitespace,
      which is all `parseInt` tells apart. */
  function Utf16Units(s: string): (u: string)
    ensures |u| >= |s|
  {
    if s == [] then []
    else Utf16Units(s[..|s| - 1]) + if s[|s| - 1] <= '\U{FFFF}' then [s[|s| - 1]] else ['\U{FFFD}', '\U{FFFD}']
  }

  /** Units of a concatenation are the units of its parts. */
  lemma {:induction false} Utf16UnitsConcat(a: string, b: string)
    ensures Utf16Units(a + b) == Utf16Units(a) + Utf16Units(b)
  {
    if b != [] {
      var b' := b[..|b| - 1];
      Utf16UnitsConcat(a, b');
      assert (a + b)[..|a + b| - 1] == a + b';
      assert (a + b)[|a + b| - 1] == b[|b| - 1];
    } else {
      assert a + b == a;
    }
  }

  /** In the basic plane every character is one unit. */
  lemma {:induction false} Utf16UnitsOfBasicPlane(s: string)
    requires forall i :: 0 <= i < |s| ==> s[i] <= '\U{FFFF}'
    ensures Utf16Units(s) == s
  {
    if s != [] {
      Utf16UnitsOfBasicPlane(s[..|s| - 1]);
    }
  }

  /** Up to a point before which every character is in the basic plane, units and characters
      coincide. */
  lemma {:induction false} Utf16UnitsPrefix(s: string, n: nat)
    requires n <= |s| && forall i :: 0 <= i < n ==> s[i] <= '\U{FFFF}'
    ensures Utf16Units(s)[..n] == s[..n]
  {
    if n == |s| {
      assert s[..n] == s;
      Utf16UnitsOfBasicPlane(s);
    } else {
      var init := s[..|s| - 1];
      Utf16UnitsPrefix(init, n);
      assert init[..n] == s[..n];
      var units := Utf16Units(init);
      assert |units| >= n;
      assert Utf16Units(s)[..|units|] == units;
    }
  }

  /** `s.slice(start, end)`, which counts UTF-16 units. */
  function Slice(s: string, start: int, end: int): string {
    var units := Utf16Units(s);
    var from := JsArray.RelativeIndex(start, |units|);
    var to := JsArray.RelativeIndex(end, |units|);
    if from < to then units[from..to] else []
  }

  /** `getContrastColor(hexColor)`: black text on colours whose perceived brightness
      `(299 r + 587 g + 114 b) / 1000` exceeds 128, white otherwise. A channel that does not
      parse is `NaN`, and a comparison with `NaN` is false. */
  function ContrastColor(hexColor: string): (r: string)
    ensures r == "#000000" || r == "#ffffff"
  {
    if IsBright(ParseHex(Slice(hexColor, 1, 3)), ParseHex(Slice(hexColor, 3, 5)), ParseHex(Slice(hexColor, 5, 7)))
    then "#000000" else "#ffffff"
  }

  /** `(r * 299 + g * 587 + b * 114) / 1000 > 128`, false when a channel is `NaN`. */
  predicate IsBright(red: Option<int>, green: Option<int>, blue: Option<int>) {
    red.Some? && green.Some? && blue.Some? && red.value * 299 + green.value * 587 + blue.value * 114 > 128000
  }

  /** Two hexadecimal digits parse to their value `16 a + b`. */
  lemma ParseTwoDigits(a: char, b: char)
    requires HexDigit(a).Some? && HexDigit(b).Some?
    ensures ParseHex([a, b]) == Some(16 * HexDigit(a).value + HexDigit(b).value)
  {
    var s := [a, b];
    assert !IsJsWhitespace(s[0]);
    assert TrimStart(s) == s;
    assert HexPrefix(s) == 2 by {
      assert s[1..][1..] == [];
    }
    assert s[..2] == s;
    assert s[..1] == [s[0]];
    assert HexValue([s[0]]) == HexDigit(s[0]).value by {
      assert [s[0]][..0] == [];
    }
  }

  /** The value of the channel written by the two digits at `i` and `i + 1` of `#rrggbb`. */
  function ChannelAt(hexColor: string, i: nat): nat
    requires i + 1 < |hexColor| && HexDigit(hexColor[i]).Some? && HexDigit(hexColor[i + 1]).Some?
  {
    16 * HexDigit(hexColor[i]).value + HexDigit(hexColor[i + 1]).value
  }

  /** The slice of the channel at `i` parses to its value. */
  lemma ChannelParses(hexColor: string, i: nat)
    requires i + 1 < |hexColor| && HexDigit(hexColor[i]).Some? && HexDigit(hexColor[i + 1]).Some?
    requires forall k :: 0 <= k < i ==> hexColor[k] <= '\U{FFFF}'
    ensures ParseHex(Slice(hexColor, i, i + 2)) == Some(ChannelAt(hexColor, i) as int)
  {
    assert hexColor[i] <= '\U{FFFF}' && hexColor[i + 1] <= '\U{FFFF}';
    SliceOfChannel(hexColor, i);
    ParseTwoDigits(hexColor[i], hexColor[i + 1]);
  }

  /** The slice of the channel at `i` is its two digits. */
  lemma SliceOfChannel(hexColor: string, i: nat)
    requires i + 1 < |hexColor| && forall k :: 0 <= k < i + 2 ==> hexColor[k] <= '\U{FFFF}'
    ensures Slice(hexColor, i, i + 2) == [hexColor[i], hexColor[i + 1]]
  {
    Utf16UnitsPrefix(hexColor, i + 2);
    var units := Utf16Units(hexColor);
    assert units[i..i + 2] == units[..i + 2][i..];
    assert hexColor[..i + 2][i..] == [hexColor[i], hexColor[i + 1]];
  }

  /** A well-formed `#rrggbb` colour: seven characters, the first a single UTF-16 unit and
      the last six hexadecimal digits. */
  predicate WellFormedColor(hexColor: string) {
    |hexColor| == 7 && hexColor[0] <= '\U{FFFF}' && forall i :: 1 <= i < 7 ==> HexDigit(hexColor[i]).Some?
  }

  /** A well-formed colour is seven UTF-16 units. */
  lemma WellFormedIsBasic(hexColor: string)
    requires WellFormedColor(hexColor)
    ensures forall k :: 0 <= k < 7 ==> hexColor[k] <= '\U{FFFF}'
  {
    forall k | 1 <= k < 7 ensures hexColor[k] <= '\U{FFFF}' {
      assert HexDigit(hexColor[k]).Some?;
    }
  }

  /** The brightness of a well-formed `#rrggbb` colour, scaled by 1000. */
  function Brightness(hexColor: string): int
    requires WellFormedColor(hexColor)
  {
    ChannelAt(hexColor, 1) * 299 + ChannelAt(hexColor, 3) * 587 + ChannelAt(hexColor, 5) * 114
  }

  /** For a well-formed `#rrggbb` colour the text is black exactly when
      `299 r + 587 g + 114 b > 128000`. */
  lemma ContrastOfWellFormedColor(hexColor: string)
    requires WellFormedColor(hexColor)
    ensures ContrastColor(hexColor) == if Brightness(hexColor) > 128000 then "#000000" else "#ffffff"
  {
    var red, green, blue := ParseHex(Slice(hexColor, 1, 3)), ParseHex(Slice(hexColor, 3, 5)), ParseHex(Slice(hexColor, 5, 7));
    WellFormedIsBasic(hexColor);
    ChannelParses(hexColor, 1);
    ChannelParses(hexColor, 3);
    ChannelParses(hexColor, 5);
    BrightOfChannels(red, green, blue, ChannelAt(hexColor, 1), ChannelAt(hexColor, 3), ChannelAt(hexColor, 5));
  }

  /** `IsBright` on three parsed channels is the brightness test on their values. */
  lemma BrightOfChannels(red: Option<int>, green: Option<int>, blue: Option<int>, r: int, g: int, b: int)
    requires red == Some(r) && green == Some(g) && blue == Some(b)
    ensures IsBright(red, green, blue) <==> r * 299 + g * 587 + b * 114 > 128000
  {
  }

  /** The colours `src/utils/__tests__/helpers.test.js` checks: white and yellow get black
      text; black, navy and red get white text. */
  lemma ContrastWhiteExample()
    ensures ContrastColor("#FFFFFF") == "#000000"
  {
    var c := "#FFFFFF";
    assert WellFormedColor(c);
    assert ChannelAt(c, 1) == 255 && ChannelAt(c, 3) == 255 && ChannelAt(c, 5) == 255;
    ContrastOfWellFormedColor(c);
  }

  lemma ContrastYellowExample()
    ensures ContrastColor("#FFFF00") == "#000000"
  {
    var c := "#FFFF00";
    assert WellFormedColor(c);
    assert ChannelAt(c, 1) == 255 && ChannelAt(c, 3) == 255 && ChannelAt(c, 5) == 0;
    ContrastOfWellFormedColor(c);
  }

  lemma ContrastBlackExample()
    ensures ContrastColor("#000000") == "#ffffff"
  {
    var c := "#000000";
    assert WellFormedColor(c);
    assert ChannelAt(c, 1) == 0 && ChannelAt(c, 3) == 0 && ChannelAt(c, 5) == 0;
    ContrastOfWellFormedColor(c);
  }

  lemma ContrastNavyExample()
    ensures ContrastColor("#000080") == "#ffffff"
  {
    var c := "#000080";
    assert WellFormedColor(c);
    assert ChannelAt(c, 1) == 0 && ChannelAt(c, 3) == 0 && ChannelAt(c, 5) == 128;
    ContrastOfWellFormedColor(c);
  }

  lemma ContrastRedExample()
    ensures ContrastColor("#FF0000") == "#ffffff"
  {
    var c := "#FF0000";
    assert WellFormedColor(c);
    assert ChannelAt(c, 1) == 255 && ChannelAt(c, 3) == 0 && ChannelAt(c, 5) == 0;
    ContrastOfWellFormedColor(c);
  }

  /** A character beyond the basic plane is two units, so when it stands third the green
      slice starts with its second half: `NaN`, and the text is white. */
  lemma ContrastOfSplitPair(hexColor: string)
    requires |hexColor| >= 3 && hexColor[0] <= '\U{FFFF}' && hexColor[1] <= '\U{FFFF}' && hexColor[2] > '\U{FFFF}'
    ensures ContrastColor(hexColor) == "#ffffff"
  {
    SecondHalfAtThree(hexColor);
    var units := Utf16Units(hexColor);
    var green := Slice(hexColor, 3, 5);
    assert green == [units[3]] + green[1..];
    HalfIsNaN(green[1..]);
  }

  /** The unit at index 3 is the second half of the third character. */
  lemma SecondHalfAtThree(hexColor: string)
    requires |hexColor| >= 3 && hexColor[0] <= '\U{FFFF}' && hexColor[1] <= '\U{FFFF}' && hexColor[2] > '\U{FFFF}'
    ensures |Utf16Units(hexColor)| >= 4 && Utf16Units(hexColor)[3] == '\U{FFFD}'
  {
    var head, pair, rest := hexColor[..2], [hexColor[2]], hexColor[3..];
    assert hexColor == head + (pair + rest);
    Utf16UnitsConcat(head, pair + rest);
    Utf16UnitsConcat(pair, rest);
    Utf16UnitsOfBasicPlane(head);
    assert Utf16Units(pair) == ['\U{FFFD}', '\U{FFFD}'] by {
      assert pair[..0] == [];
    }
  }

  /** "#0😀ffffff": the source gives white, since its green slice is "\uDE00f". */
  lemma ContrastSplitPairExample()
    ensures ContrastColor("#0\U{1F600}ffffff") == "#ffffff"
  {
    var c := "#0\U{1F600}ffffff";
    assert c[0] == '#' && c[1] == '0' && c[2] == '\U{1F600}';
    ContrastOfSplitPair(c);
  }

  /** A text that starts with a surrogate half does not parse. */
  lemma HalfIsNaN(rest: string)
    ensures ParseHex(['\U{FFFD}'] + rest) == None
  {
    var t := ['\U{FFFD}'] + rest;
    assert TrimStart(t) == t;
  }

  /** An empty colour string has `NaN` channels and gets white text. */
  lemma ContrastEmptyExample()
    ensures ContrastColor("") == "#ffffff"
  {
    assert Slice("", 1, 3) == [];
    assert TrimStart([]) == [];
  }
}
