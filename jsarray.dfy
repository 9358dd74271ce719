/** The JavaScript array primitives the kanban core relies on: `slice`, `splice`, `indexOf`
    and `sort`, stated over Dafny sequences. */
module JsArray {

  /** How `slice` and `splice` resolve an index: a negative index counts back from the end,
      and the result is clamped to `[0, len]`. */
  function RelativeIndex(i: int, len: nat): (r: nat)
    ensures r <= len
    ensures 0 <= i <= len ==> r == i
    ensures i > len ==> r == len
  {
    if i < 0 then (if len + i < 0 then 0 else len + i)
    else if i > len then len
    else i
  }

  /** `s.slice(0, end)` */
  function SliceTo<T>(s: seq<T>, end: int): seq<T> {
    s[..RelativeIndex(end, |s|)]
  }

  /** The array left behind by `s.splice(start, 1)`. */
  function SpliceRemove<T>(s: seq<T>, start: int): seq<T> {
    var p := RelativeIndex(start, |s|);
    if p < |s| then s[..p] + s[p + 1..] else s
  }

  /** The array left behind by `s.splice(start, 0, x)`. */
  function SpliceInsert<T>(s: seq<T>, start: int, x: T): seq<T> {
    var p := RelativeIndex(start, |s|);
    s[..p] + [x] + s[p..]
  }

  /** `s.indexOf(x)`: the first index holding `x`, or -1. */
  function IndexOf<T(==)>(s: seq<T>, x: T): (r: int)
    ensures -1 <= r < |s|
    ensures r == -1 <==> x !in s
    ensures 0 <= r ==> s[r] == x && x !in s[..r]
  {
    if |s| == 0 then -1
    else if s[0] == x then 0
    else
      var r := IndexOf(s[1..], x);
      assert s[1..][..if r < 0 then 0 else r] == s[1..1 + if r < 0 then 0 else r];
      if r == -1 then -1 else r + 1
  }

  ghost predicate SortedBy<T>(s: seq<T>, key: T -> int) {
    forall i, j :: 0 <= i < j < |s| ==> key(s[i]) <= key(s[j])
  }

  /** Puts `x` in front of the first element whose key is not smaller than its own. */
  function InsertByKey<T>(x: T, s: seq<T>, key: T -> int): (r: seq<T>)
    ensures |r| == |s| + 1
    ensures multiset(r) == multiset(s) + multiset{x}
    ensures SortedBy(s, key) ==> SortedBy(r, key)
  {
    if s == [] then [x]
    else if key(x) <= key(s[0]) then [x] + s
    else
      var rest := InsertByKey(x, s[1..], key);
      assert s == [s[0]] + s[1..];
      ConsSorted(s, rest, x, key);
      [s[0]] + rest
  }

  /** Putting the head of a sorted `s` in front of a sorted permutation of its tail and `x`, where
      `x` does not go first, keeps the result sorted. */
  lemma ConsSorted<T>(s: seq<T>, rest: seq<T>, x: T, key: T -> int)
    requires s != [] && key(s[0]) < key(x)
    requires multiset(rest) == multiset(s[1..]) + multiset{x}
    ensures SortedBy(s, key) && SortedBy(rest, key) ==> SortedBy([s[0]] + rest, key)
  {
    if SortedBy(s, key) && SortedBy(rest, key) {
      forall e | e in s[1..] ensures key(s[0]) <= key(e) {
        var k :| 0 <= k < |s[1..]| && s[1..][k] == e;
        assert s[k + 1] == e;
      }
      BoundedBelow(s[0], rest, s[1..], x, key);
      var r := [s[0]] + rest;
      forall i, j | 0 <= i < j < |r| ensures key(r[i]) <= key(r[j]) {
        assert r[j] == rest[j - 1];
        if i > 0 {
          assert r[i] == rest[i - 1];
        }
      }
    }
  }

  /** A lower bound on every element of `xs` and on `x` bounds every element of a permutation of `xs + [x]`. */
  lemma BoundedBelow<T>(y: T, rest: seq<T>, xs: seq<T>, x: T, key: T -> int)
    requires multiset(rest) == multiset(xs) + multiset{x}
    ensures (key(y) <= key(x) && forall e :: e in xs ==> key(y) <= key(e)) ==>
            forall k :: 0 <= k < |rest| ==> key(y) <= key(rest[k])
  {
    if key(y) <= key(x) && forall e :: e in xs ==> key(y) <= key(e) {
      forall k | 0 <= k < |rest| ensures key(y) <= key(rest[k]) {
        assert rest[k] in multiset(rest);
        if rest[k] != x {
          assert rest[k] in multiset(xs);
        }
      }
    }
  }

  /** `s.slice().sort((a, b) => key(a) - key(b))`, as an insertion sort: a permutation of `s`
      sorted by the key. */
  function SortBy<T>(s: seq<T>, key: T -> int): (r: seq<T>)
    ensures |r| == |s|
    ensures multiset(r) == multiset(s)
    ensures SortedBy(r, key)
  {
    if s == [] then []
    else
      assert s == [s[0]] + s[1..];
      InsertByKey(s[0], SortBy(s[1..], key), key)
  }
}
