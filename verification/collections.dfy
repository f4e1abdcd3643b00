/** Small value types shared by every module of the model. */
module Collections {

  /** A value that may be missing: JavaScript's `undefined`/`null` next to a real value. */
  datatype Option<T> = None | Some(value: T) {
    function GetOr(default: T): T {
      match this
      case Some(v) => v
      case None => default
    }
  }

  /** JavaScript truthiness of an optional string: `undefined`, `null` and `''` are falsy. */
  predicate Truthy(s: Option<string>) {
    s.Some? && s.value != ""
  }

  /** JavaScript's `||` on optional strings: the first operand when it is truthy, the second otherwise. */
  function OrElse(a: Option<string>, b: Option<string>): (r: Option<string>)
    ensures Truthy(a) ==> r == a
    ensures !Truthy(a) ==> r == b
  {
    if Truthy(a) then a else b
  }

  /** True when no value occurs twice in `s`. */
  predicate Distinct<T(==)>(s: seq<T>) {
    forall i, j :: 0 <= i < j < |s| ==> s[i] != s[j]
  }

  /** `s` is obtained from `t` by deleting elements, keeping the order of the rest. */
  ghost predicate IsSubsequence<T>(s: seq<T>, t: seq<T>) {
    exists idx: seq<nat> ::
      |idx| == |s| &&
      (forall k :: 0 <= k < |idx| ==> idx[k] < |t| && s[k] == t[idx[k]]) &&
      (forall k, l :: 0 <= k < l < |idx| ==> idx[k] < idx[l])
  }

  /** `Array.prototype.filter`: the elements of `s` that satisfy `p`, in their original order. */
  function Filter<T>(s: seq<T>, p: T -> bool): (r: seq<T>)
    ensures |r| <= |s|
    ensures forall i :: 0 <= i < |r| ==> p(r[i])
    ensures forall i :: 0 <= i < |s| && p(s[i]) ==> s[i] in r
  {
    if s == [] then [] else (if p(s[0]) then [s[0]] else []) + Filter(s[1..], p)
  }

  /** Every kept element comes from `s`. */
  lemma FilterSubset<T>(s: seq<T>, p: T -> bool)
    ensures forall i :: 0 <= i < |Filter(s, p)| ==> Filter(s, p)[i] in s
  {
    forall i | 0 <= i < |Filter(s, p)| ensures Filter(s, p)[i] in s {
      FilterPositionAt(s, p, 0, i);
    }
  }

  /** `filter(p).length`. */
  function Count<T>(s: seq<T>, p: T -> bool): nat {
    |Filter(s, p)|
  }

  /** Counting peels off the first element. */
  lemma CountStep<T>(s: seq<T>, p: T -> bool)
    requires s != []
    ensures Count(s, p) == (if p(s[0]) then 1 else 0) + Count(s[1..], p)
  {
    assert Filter(s, p) == (if p(s[0]) then [s[0]] else []) + Filter(s[1..], p);
  }

  /**
   * Three mutually exclusive tests together count at most every element, and
   * exactly every element when each element passes one of them.
   */
  lemma {:induction false} CountThree<T>(s: seq<T>, p: T -> bool, q: T -> bool, r: T -> bool)
    requires forall x :: !(p(x) && q(x)) && !(p(x) && r(x)) && !(q(x) && r(x))
    ensures Count(s, p) + Count(s, q) + Count(s, r) <= |s|
    ensures Count(s, p) + Count(s, q) + Count(s, r) == |s| <==>
      forall k :: 0 <= k < |s| ==> p(s[k]) || q(s[k]) || r(s[k])
  {
    if s != [] {
      CountThree(s[1..], p, q, r);
      CountStep(s, p);
      CountStep(s, q);
      CountStep(s, r);
      if p(s[0]) || q(s[0]) || r(s[0]) {
        if forall k :: 0 <= k < |s[1..]| ==> p(s[1..][k]) || q(s[1..][k]) || r(s[1..][k]) {
          forall k | 0 <= k < |s| ensures p(s[k]) || q(s[k]) || r(s[k]) {
            if k > 0 {
              assert s[k] == s[1..][k - 1];
            }
          }
        } else {
          var j :| 0 <= j < |s[1..]| && !(p(s[1..][j]) || q(s[1..][j]) || r(s[1..][j]));
          assert s[j + 1] == s[1..][j];
        }
      }
    }
  }

  /** The positions of `s` whose elements satisfy `p`, shifted by `offset`, in increasing order. */
  function FilterPositions<T>(s: seq<T>, p: T -> bool, offset: nat): (idx: seq<nat>)
    ensures |idx| == |Filter(s, p)|
    ensures forall k :: 0 <= k < |idx| ==> offset <= idx[k] < offset + |s|
    ensures forall k, l :: 0 <= k < l < |idx| ==> idx[k] < idx[l]
  {
    if s == [] then []
    else (if p(s[0]) then [offset] else []) + FilterPositions(s[1..], p, offset + 1)
  }

  /** The `k`-th kept element sits at the `k`-th listed position. */
  lemma {:induction false} FilterPositionAt<T>(s: seq<T>, p: T -> bool, offset: nat, k: nat)
    requires k < |FilterPositions(s, p, offset)|
    ensures Filter(s, p)[k] == s[FilterPositions(s, p, offset)[k] - offset]
  {
    var h := if p(s[0]) then 1 else 0;
    var kept, idx := Filter(s, p), FilterPositions(s, p, offset);
    var tail, rest := Filter(s[1..], p), FilterPositions(s[1..], p, offset + 1);
    assert kept == (if p(s[0]) then [s[0]] else []) + tail;
    assert idx == (if p(s[0]) then [offset] else []) + rest;
    if k >= h {
      FilterPositionAt(s[1..], p, offset + 1, k - h);
      assert kept[k] == tail[k - h] && idx[k] == rest[k - h];
    }
  }

  /** Filtering never reorders: the result is a subsequence of the input. */
  lemma FilterIsSubsequence<T>(s: seq<T>, p: T -> bool)
    ensures IsSubsequence(Filter(s, p), s)
  {
    var idx := FilterPositions(s, p, 0);
    forall k | 0 <= k < |idx| ensures idx[k] < |s| && Filter(s, p)[k] == s[idx[k]] {
      FilterPositionAt(s, p, 0, k);
    }
  }

  /** A filter whose test every element passes returns its input. */
  lemma {:induction false} FilterKeepsAll<T>(s: seq<T>, p: T -> bool)
    requires forall i :: 0 <= i < |s| ==> p(s[i])
    ensures Filter(s, p) == s
  {
    if s != [] {
      FilterKeepsAll(s[1..], p);
    }
  }

  /** A filter whose test no element passes returns nothing. */
  lemma {:induction false} FilterKeepsNone<T>(s: seq<T>, p: T -> bool)
    requires forall i :: 0 <= i < |s| ==> !p(s[i])
    ensures Filter(s, p) == []
  {
    if s != [] {
      FilterKeepsNone(s[1..], p);
    }
  }

  /** Two tests that agree on every element of `s` keep the same elements. */
  lemma {:induction false} FilterAgree<T>(s: seq<T>, p: T -> bool, q: T -> bool)
    requires forall i :: 0 <= i < |s| ==> p(s[i]) == q(s[i])
    ensures Filter(s, p) == Filter(s, q)
  {
    if s != [] {
      FilterAgree(s[1..], p, q);
    }
  }

  /** No two elements of `s` share a key. */
  ghost predicate DistinctKeys<T, K>(s: seq<T>, key: T -> K) {
    forall i, j :: 0 <= i < j < |s| ==> key(s[i]) != key(s[j])
  }

  /** Filtering keeps the keys distinct. */
  lemma {:induction false} FilterDistinctKeys<T, K>(s: seq<T>, p: T -> bool, key: T -> K)
    requires DistinctKeys(s, key)
    ensures DistinctKeys(Filter(s, p), key)
  {
    if s != [] {
      var rest := s[1..];
      assert DistinctKeys(rest, key) by {
        forall i, j | 0 <= i < j < |rest| ensures key(rest[i]) != key(rest[j]) {
          assert rest[i] == s[i + 1] && rest[j] == s[j + 1];
        }
      }
      FilterDistinctKeys(rest, p, key);
      var kept := Filter(rest, p);
      if p(s[0]) {
        var r := [s[0]] + kept;
        assert Filter(s, p) == r;
        forall k | 0 <= k < |kept| ensures key(kept[k]) != key(s[0]) {
          FilterPositionAt(rest, p, 0, k);
          var j := FilterPositions(rest, p, 0)[k];
          assert rest[j] == s[j + 1];
        }
        forall i, j | 0 <= i < j < |r| ensures key(r[i]) != key(r[j]) {
          assert r[j] == kept[j - 1];
          if i > 0 {
            assert r[i] == kept[i - 1];
          }
        }
      } else {
        assert Filter(s, p) == kept;
      }
    }
  }

  /** Dropping the last value keeps the rest distinct, and the last value is not among them. */
  lemma DistinctInit<T>(s: seq<T>)
    requires Distinct(s) && s != []
    ensures Distinct(s[..|s| - 1]) && s[|s| - 1] !in s[..|s| - 1]
  {
  }

  /** A value not yet present extends a sequence of distinct values. */
  lemma DistinctSnoc<T>(s: seq<T>, x: T)
    requires Distinct(s) && x !in s
    ensures Distinct(s + [x])
  {
  }

  /** How many elements satisfy `p`, counted from the last element back. */
  function CountWhere<T>(s: seq<T>, p: T -> bool): nat {
    if s == [] then 0 else CountWhere(s[..|s| - 1], p) + (if p(s[|s| - 1]) then 1 else 0)
  }

  /** The sum of `f` over the elements that satisfy `p`, summed from the last element back. */
  function SumWhere<T>(s: seq<T>, p: T -> bool, f: T -> int): int {
    if s == [] then 0 else SumWhere(s[..|s| - 1], p, f) + (if p(s[|s| - 1]) then f(s[|s| - 1]) else 0)
  }

  /** When no element satisfies `p`, the sum over those that do is zero. */
  lemma {:induction false} NoneCountedSumsZero<T>(s: seq<T>, p: T -> bool, f: T -> int)
    requires CountWhere(s, p) == 0
    ensures SumWhere(s, p, f) == 0
  {
    if s != [] {
      NoneCountedSumsZero(s[..|s| - 1], p, f);
    }
  }

  /** Counting and summing in place agree with filtering first. */
  lemma {:induction false} WhereIsFilter<T>(s: seq<T>, p: T -> bool, f: T -> int)
    ensures CountWhere(s, p) == Count(s, p)
    ensures SumWhere(s, p, f) == SumOf(Filter(s, p), f)
  {
    if s != [] {
      var init := s[..|s| - 1];
      WhereIsFilter(init, p, f);
      assert s == init + [s[|s| - 1]];
      FilterSnocSums(init, s[|s| - 1], p, f);
    }
  }

  /** A stricter test keeps no more elements. */
  lemma {:induction false} FilterNarrower<T>(s: seq<T>, p: T -> bool, q: T -> bool)
    requires forall x :: q(x) ==> p(x)
    ensures Count(s, q) <= Count(s, p)
  {
    if s != [] {
      FilterNarrower(s[1..], p, q);
    }
  }

  /** Filtering distributes over concatenation. */
  lemma {:induction false} FilterAppend<T>(s: seq<T>, t: seq<T>, p: T -> bool)
    ensures Filter(s + t, p) == Filter(s, p) + Filter(t, p)
  {
    if s == [] {
      assert s + t == t;
    } else {
      assert (s + t)[1..] == s[1..] + t;
      FilterAppend(s[1..], t, p);
    }
  }

  /** Filtering a sequence extended by one element. */
  lemma FilterSnoc<T>(s: seq<T>, x: T, p: T -> bool)
    ensures Filter(s + [x], p) == Filter(s, p) + (if p(x) then [x] else [])
  {
    FilterAppend(s, [x], p);
    assert Filter([x], p) == (if p(x) then [x] else []) + Filter([], p);
  }

  /** Counting and summing the kept elements of a sequence extended by one element. */
  lemma FilterSnocSums<T>(s: seq<T>, x: T, p: T -> bool, f: T -> int)
    ensures Count(s + [x], p) == Count(s, p) + (if p(x) then 1 else 0)
    ensures SumOf(Filter(s + [x], p), f) == SumOf(Filter(s, p), f) + (if p(x) then f(x) else 0)
  {
    FilterSnoc(s, x, p);
    var kept := Filter(s, p);
    if p(x) {
      assert Filter(s + [x], p) == kept + [x];
      assert (kept + [x])[..|kept|] == kept;
      assert SumOf(kept + [x], f) == SumOf(kept, f) + f(x);
    } else {
      assert Filter(s + [x], p) == kept + [];
      assert kept + [] == kept;
    }
  }

  /** The sum of `f` over the elements, starting from zero. */
  function SumOf<T>(s: seq<T>, f: T -> int): int {
    if s == [] then 0 else SumOf(s[..|s| - 1], f) + f(s[|s| - 1])
  }

  /** A sum peels off its first term. */
  lemma SumOfCons<T>(s: seq<T>, f: T -> int)
    requires s != []
    ensures SumOf(s, f) == f(s[0]) + SumOf(s[1..], f)
  {
    assert s == [s[0]] + s[1..];
    SumOfAppend([s[0]], s[1..], f);
    assert [s[0]][..0] == [];
  }

  /** A sum over a concatenation is the sum of the two sums. */
  lemma {:induction false} SumOfAppend<T>(s: seq<T>, t: seq<T>, f: T -> int)
    ensures SumOf(s + t, f) == SumOf(s, f) + SumOf(t, f)
  {
    if t != [] {
      assert (s + t)[..|s + t| - 1] == s + t[..|t| - 1];
      SumOfAppend(s, t[..|t| - 1], f);
    } else {
      assert s + t == s;
    }
  }

  /** `Array.prototype.map`. */
  function MapSeq<T, U>(s: seq<T>, f: T -> U): (r: seq<U>)
    ensures |r| == |s|
    ensures forall i :: 0 <= i < |s| ==> r[i] == f(s[i])
  {
    seq(|s|, i requires 0 <= i < |s| => f(s[i]))
  }
  /** Filtering a mapped list keeps exactly the images that pass the test. */
  lemma FilterMapSeq<T, U>(s: seq<T>, f: T -> U, p: U -> bool)
    ensures forall k :: 0 <= k < |Filter(MapSeq(s, f), p)| ==>
      p(Filter(MapSeq(s, f), p)[k]) && exists x :: x in s && Filter(MapSeq(s, f), p)[k] == f(x)
    ensures forall x :: x in s && p(f(x)) ==> f(x) in Filter(MapSeq(s, f), p)
  {
    var m := MapSeq(s, f);
    FilterSubset(m, p);
    forall k | 0 <= k < |Filter(m, p)| ensures exists x :: x in s && Filter(m, p)[k] == f(x) {
      var i :| 0 <= i < |m| && m[i] == Filter(m, p)[k];
      assert s[i] in s;
    }
    forall x | x in s && p(f(x)) ensures f(x) in Filter(m, p) {
      var i :| 0 <= i < |s| && s[i] == x;
      assert m[i] == f(x);
    }
  }

  /** Summing `f` over a mapped sequence is summing the composition `h` over the original. */
  lemma {:induction false} SumOfMapSeq<T, U>(s: seq<T>, g: T -> U, f: U -> int, h: T -> int)
    requires forall x :: h(x) == f(g(x))
    ensures SumOf(MapSeq(s, g), f) == SumOf(s, h)
  {
    if s != [] {
      var init := s[..|s| - 1];
      assert MapSeq(s, g)[..|s| - 1] == MapSeq(init, g);
      SumOfMapSeq(init, g, f, h);
    }
  }
  /** `findIndex` on a list of keys: the first position holding `x`, or -1. */
  function IndexOf<T(==)>(s: seq<T>, x: T): (i: int)
    ensures -1 <= i < |s|
    ensures i == -1 <==> x !in s
    ensures 0 <= i ==> s[i] == x && x !in s[..i]
  {
    if s == [] then -1
    else if s[0] == x then 0
    else
      var j := IndexOf(s[1..], x);
      assert j >= 0 ==> s[1..][..j] == s[1..j + 1];
      if j == -1 then -1 else j + 1
  }

  /** In a list without repeats, the first position of an element is its only position. */
  lemma IndexOfDistinct<T>(s: seq<T>, k: nat)
    requires Distinct(s) && k < |s|
    ensures IndexOf(s, s[k]) == k
  {
  }
}
