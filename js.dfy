/** The JavaScript array built-ins the server relies on, with the semantics
    ECMAScript gives them: `Array.prototype.indexOf` and
    `Array.prototype.splice(start, 1)`. */
module Js {

  /** The outcome of a call that either returns a value or throws a
      TypeError (a property read on `undefined`, a call of `undefined`). */
  datatype Result<T> = Ok(value: T) | TypeError

  /** No element occurs twice. */
  predicate NoDup<T(==)>(s: seq<T>) {
    forall i, j :: 0 <= i < j < |s| ==> s[i] != s[j]
  }

  /** Strictly ascending. */
  predicate Increasing(s: seq<int>) {
    forall i, j :: 0 <= i < j < |s| ==> s[i] < s[j]
  }

  /** `s.indexOf(x)`: the first position of x, or -1. */
  function IndexOf<T(==)>(s: seq<T>, x: T): (r: int)
    ensures -1 <= r < |s|
    ensures r == -1 <==> x !in s
    ensures r >= 0 ==> s[r] == x && x !in s[..r]
  {
    if |s| == 0 then -1
    else if s[0] == x then 0
    else
      var k := IndexOf(s[1..], x);
      assert s[1..][..if k < 0 then 0 else k] == s[1..1 + if k < 0 then 0 else k];
      if k == -1 then -1 else k + 1
  }

  /** The position `splice(start, 1)` actually starts at: a negative start counts
      from the end and is clamped at 0, a start past the end is clamped to the length. */
  function SpliceStart(len: nat, start: int): (k: nat)
    ensures k <= len
  {
    if start < 0 then (if len + start < 0 then 0 else len + start)
    else if start > len then len
    else start
  }

  /** `s.splice(start, 1)`: the array without the one element at the relative
      start, or unchanged when that start is the end. */
  function SpliceOne<T>(s: seq<T>, start: int): (r: seq<T>)
    ensures var k := SpliceStart(|s|, start);
            if k < |s| then |r| == |s| - 1 && r[..k] == s[..k] && r[k..] == s[k + 1..]
            else r == s
  {
    var k := SpliceStart(|s|, start);
    if k < |s| then s[..k] + s[k + 1..] else s
  }

  /** `splice(-1, 1)` after a `push(x)` takes the pushed element off again. */
  lemma SplicePushed<T>(s: seq<T>, x: T)
    ensures SpliceOne(s + [x], -1) == s
  {
    assert (s + [x])[..|s|] == s;
  }

  /** Splicing out the position `indexOf` reports, in an array without duplicates,
      leaves every other element and only removes x. */
  lemma SpliceIndexOf<T>(s: seq<T>, x: T)
    requires NoDup(s) && x in s
    ensures var r := SpliceOne(s, IndexOf(s, x));
            NoDup(r) && x !in r && forall y :: y != x ==> (y in r <==> y in s)
  {
    var k := IndexOf(s, x);
    var r := SpliceOne(s, k);
    assert r == s[..k] + s[k + 1..];
    forall y | y != x ensures y in r <==> y in s {
      if y in s {
        var j :| 0 <= j < |s| && s[j] == y;
        if j < k { assert r[j] == y; } else { assert j > k; assert r[j - 1] == y; }
      }
    }
    forall i, j | 0 <= i < j < |r| ensures r[i] != r[j] {
      var i' := if i < k then i else i + 1;
      var j' := if j < k then j else j + 1;
      assert r[i] == s[i'] && r[j] == s[j'];
    }
  }

  /** A strictly ascending sequence has no duplicates. */
  lemma IncreasingNoDup(s: seq<int>)
    requires Increasing(s)
    ensures NoDup(s)
  {
  }

  /** Removing one element keeps a sequence strictly ascending. */
  lemma SpliceIncreasing(s: seq<int>, start: int)
    requires Increasing(s)
    ensures Increasing(SpliceOne(s, start))
  {
    var k := SpliceStart(|s|, start);
    var r := SpliceOne(s, start);
    if k < |s| {
      forall i, j | 0 <= i < j < |r| ensures r[i] < r[j] {
        var i' := if i < k then i else i + 1;
        var j' := if j < k then j else j + 1;
        assert r[i] == s[i'] && r[j] == s[j'];
      }
    }
  }
}
