/** The JavaScript array operations the handlers use on embedded arrays:
    `indexOf`, `push` (sequence append) and `splice(start, 1)`. */
module JsArray {

  /** `s.indexOf(x)`: the first position holding `x`, or -1 when there is none. */
  function IndexOf<T(==)>(s: seq<T>, x: T): (r: int)
    ensures -1 <= r < |s|
    ensures r == -1 <==> x !in s
    ensures r >= 0 ==> s[r] == x && x !in s[..r]
    decreases |s|
  {
    if s == [] then -1
    else if s[0] == x then 0
    else
      var k := IndexOf(s[1..], x);
      if k < 0 then -1 else k + 1
  }

  /** The position `splice` starts at: a negative start counts back from the end
      (clamped at 0), a start past the end is clamped to the length. */
  function SpliceStart(len: nat, start: int): (k: nat)
    ensures k <= len
    ensures start < 0 && len + start >= 0 ==> k == len + start
    ensures 0 <= start <= len ==> k == start
  {
    if start < 0 then (if len + start < 0 then 0 else len + start)
    else if start < len then start
    else len
  }

  /** `s.splice(start, 1)` applied in place: deletes the element at the
      normalised start position when there is one. */
  function Splice1<T>(s: seq<T>, start: int): (r: seq<T>)
    ensures 0 <= start < |s| ==> r == s[..start] + s[start + 1..]
    ensures start == -1 && s != [] ==> r == s[..|s| - 1]
    ensures start == -1 && s == [] ==> r == []
    ensures start >= |s| ==> r == s
  {
    var k := SpliceStart(|s|, start);
    if k < |s| then s[..k] + s[k + 1..] else s
  }

  /** An independent definition of "remove the first occurrence of `x`". */
  function RemoveFirst<T(==)>(s: seq<T>, x: T): seq<T>
  {
    if s == [] then []
    else if s[0] == x then s[1..]
    else [s[0]] + RemoveFirst(s[1..], x)
  }

  /** Removing at the position `indexOf` found is removing the first occurrence. */
  lemma SpliceAtIndexOfRemovesFirst<T>(s: seq<T>, x: T)
    requires x in s
    ensures Splice1(s, IndexOf(s, x)) == RemoveFirst(s, x)
  {
    var k := IndexOf(s, x);
    assert 0 <= k < |s| && s[k] == x;
    forall j | 0 <= j < k ensures s[j] != x {
      assert s[..k][j] == s[j];
    }
    RemoveFirstAt(s, x, k);
    assert Splice1(s, k) == s[..k] + s[k + 1..];
  }

  /** Removing the first occurrence of `x`, found at `k`, cuts out position `k`. */
  lemma {:induction false} RemoveFirstAt<T>(s: seq<T>, x: T, k: nat)
    requires k < |s| && s[k] == x
    requires forall j :: 0 <= j < k ==> s[j] != x
    ensures RemoveFirst(s, x) == s[..k] + s[k + 1..]
  {
    if k > 0 {
      var t := s[1..];
      RemoveFirstAt(t, x, k - 1);
      assert s[..k] == [s[0]] + t[..k - 1];
      assert s[k + 1..] == t[k..];
    }
  }

  /** `push(x)` followed by a splice at `indexOf(x)` restores the array when
      `x` was not in it before. */
  lemma PushThenSpliceRestores<T>(s: seq<T>, x: T)
    requires x !in s
    ensures IndexOf(s + [x], x) == |s|
    ensures Splice1(s + [x], IndexOf(s + [x], x)) == s
  {
    var t := s + [x];
    assert t[..|s|] == s;
  }

  /** `s.map(f)`. */
  function Map<T, U>(s: seq<T>, f: T -> U): (r: seq<U>)
    ensures |r| == |s|
    ensures forall i :: 0 <= i < |s| ==> r[i] == f(s[i])
  {
    seq(|s|, i requires 0 <= i < |s| => f(s[i]))
  }

  /** Searching the keys of `items` (`items.map(key).indexOf(x)`) finds the
      first item whose key is `x`. */
  lemma KeyIndexIsFirst<T, K>(items: seq<T>, key: T -> K, x: K)
    ensures x in Map(items, key) ==>
      var k := IndexOf(Map(items, key), x);
      key(items[k]) == x && forall j :: 0 <= j < k ==> key(items[j]) != x
  {
    var keys := Map(items, key);
    var k := IndexOf(keys, x);
    forall j | 0 <= j < k ensures key(items[j]) != x {
      assert keys[..k][j] == keys[j];
    }
  }

  /** No two elements of `s` share a key. */
  predicate DistinctBy<T, K(==)>(s: seq<T>, key: T -> K) {
    forall i, j :: 0 <= i < j < |s| ==> key(s[i]) != key(s[j])
  }

  /** Deleting one element keeps the keys distinct. */
  lemma DistinctByRemoveAt<T, K>(s: seq<T>, key: T -> K, k: nat)
    requires DistinctBy(s, key) && k < |s|
    ensures DistinctBy(s[..k] + s[k + 1..], key)
  {
    var r := s[..k] + s[k + 1..];
    forall i, j | 0 <= i < j < |r| ensures key(r[i]) != key(r[j]) {
      var i' := if i < k then i else i + 1;
      var j' := if j < k then j else j + 1;
      assert r[i] == s[i'] && r[j] == s[j'];
    }
  }

  /** Appending an element whose key is new keeps the keys distinct. */
  lemma DistinctByAppend<T, K>(s: seq<T>, key: T -> K, x: T)
    requires DistinctBy(s, key)
    requires forall i :: 0 <= i < |s| ==> key(s[i]) != key(x)
    ensures DistinctBy(s + [x], key)
  {
  }

  /** Every element left by a splice was there before, and the keys stay distinct. */
  lemma SpliceKeeps<T, K>(s: seq<T>, key: T -> K, start: int)
    requires DistinctBy(s, key)
    ensures forall y :: y in Splice1(s, start) ==> y in s
    ensures DistinctBy(Splice1(s, start), key)
  {
    var k := SpliceStart(|s|, start);
    if k < |s| {
      assert Splice1(s, start) == s[..k] + s[k + 1..];
      DistinctByRemoveAt(s, key, k);
      forall y | y in s[..k] + s[k + 1..] ensures y in s {
        if y in s[..k] { assert y in s; } else { assert y in s[k + 1..]; }
      }
    }
  }
}
