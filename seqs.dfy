/**
 * Sequence operations the JavaScript source gets from `Array.prototype`
 * (`filter`, de-duplication through a keyed `Map`), with the facts the
 * rest of the model needs about them.
 */
module Seqs {

  /** `s.filter(f)`: the elements of `s` satisfying `f`, in their order. */
  function Filter<T>(s: seq<T>, f: T -> bool): seq<T>
  {
    if s == [] then [] else (if f(s[0]) then [s[0]] else []) + Filter(s[1..], f)
  }

  /** A filter that every element passes returns its input. */
  lemma {:induction false} FilterAll<T>(s: seq<T>, f: T -> bool)
    requires forall i :: 0 <= i < |s| ==> f(s[i])
    ensures Filter(s, f) == s
  {
    if s != [] {
      FilterAll(s[1..], f);
      assert s == [s[0]] + s[1..];
    }
  }

  /** Filtering a concatenation filters each part. */
  lemma {:induction false} FilterAppend<T>(a: seq<T>, b: seq<T>, f: T -> bool)
    ensures Filter(a + b, f) == Filter(a, f) + Filter(b, f)
  {
    if a == [] {
      assert a + b == b;
    } else {
      FilterAppend(a[1..], b, f);
      assert (a + b)[1..] == a[1..] + b;
      assert (a + b)[0] == a[0];
      var h, x, y := (if f(a[0]) then [a[0]] else []), Filter(a[1..], f), Filter(b, f);
      assert Filter(a + b, f) == h + (x + y);
      assert h + (x + y) == (h + x) + y;
    }
  }

  /** Filtering twice with the same predicate changes nothing more. */
  lemma {:induction false} FilterIdempotent<T>(s: seq<T>, f: T -> bool)
    ensures Filter(Filter(s, f), f) == Filter(s, f)
  {
    if s != [] {
      FilterIdempotent(s[1..], f);
      var r := Filter(s[1..], f);
      if f(s[0]) {
        assert Filter(s, f) == [s[0]] + r;
        assert (Filter(s, f))[0] == s[0] && (Filter(s, f))[1..] == r;
        assert Filter(Filter(s, f), f) == [s[0]] + Filter(r, f);
      } else {
        assert Filter(s, f) == r;
      }
    }
  }

  /** Filtering by `f` and then by `g` is filtering by `h`, the conjunction of both. */
  lemma {:induction false} FilterFilter<T>(s: seq<T>, f: T -> bool, g: T -> bool, h: T -> bool)
    requires forall x :: h(x) == (f(x) && g(x))
    ensures Filter(Filter(s, f), g) == Filter(s, h)
  {
    if s != [] {
      FilterFilter(s[1..], f, g, h);
      var r := Filter(s[1..], f);
      if f(s[0]) {
        assert Filter(s, f) == [s[0]] + r;
        assert (Filter(s, f))[0] == s[0] && (Filter(s, f))[1..] == r;
      } else {
        assert Filter(s, f) == r;
      }
    }
  }

  /** The last element a filter keeps is the last element of the input that passes. */
  lemma {:induction false} FilterLast<T>(s: seq<T>, f: T -> bool) returns (k: nat)
    requires Filter(s, f) != []
    ensures k < |s| && f(s[k]) && Filter(s, f)[|Filter(s, f)| - 1] == s[k]
    ensures forall j :: k < j < |s| ==> !f(s[j])
  {
    var r := Filter(s[1..], f);
    FilterSpec(s[1..], f);
    if r == [] {
      k := 0;
      forall j | 0 < j < |s| ensures !f(s[j]) {
        assert s[j] == s[1..][j - 1] && s[j] in s[1..];
      }
    } else {
      var k' := FilterLast(s[1..], f);
      k := k' + 1;
      forall j | k < j < |s| ensures !f(s[j]) {
        assert s[j] == s[1..][j - 1];
      }
    }
  }

  /** `a` can be obtained from `b` by deleting elements (order is kept). */
  predicate IsSubsequence<T(==)>(a: seq<T>, b: seq<T>)
    decreases |b|
  {
    a == [] ||
    (b != [] && ((a[0] == b[0] && IsSubsequence(a[1..], b[1..])) || IsSubsequence(a, b[1..])))
  }

  /** The filter keeps every copy of each satisfying element and no copy of any other. */
  lemma {:induction false} FilterCount<T>(s: seq<T>, f: T -> bool)
    ensures forall x :: multiset(Filter(s, f))[x] == (if f(x) then multiset(s)[x] else 0)
  {
    if s != [] {
      FilterCount(s[1..], f);
      assert s == [s[0]] + s[1..];
      var h := if f(s[0]) then [s[0]] else [];
      assert multiset(Filter(s, f)) == multiset(h) + multiset(Filter(s[1..], f));
    }
  }

  /** The filter keeps exactly the satisfying elements, each as often as it occurs, in input order. */
  lemma {:induction false} FilterSpec<T>(s: seq<T>, f: T -> bool)
    ensures forall x :: x in Filter(s, f) <==> x in s && f(x)
    ensures forall x :: multiset(Filter(s, f))[x] == (if f(x) then multiset(s)[x] else 0)
    ensures IsSubsequence(Filter(s, f), s)
    ensures |Filter(s, f)| <= |s|
  {
    FilterCount(s, f);
    if s != [] {
      FilterSpec(s[1..], f);
      assert s == [s[0]] + s[1..];
      var r := Filter(s[1..], f);
      if f(s[0]) {
        assert Filter(s, f) == [s[0]] + r;
        assert (Filter(s, f))[1..] == r;
      } else {
        assert Filter(s, f) == r;
      }
    }
  }

  /** Appending the same element to both sides keeps a subsequence relation. */
  lemma {:induction false} SubsequenceSnoc<T>(a: seq<T>, b: seq<T>, x: T)
    requires IsSubsequence(a, b)
    ensures IsSubsequence(a + [x], b + [x])
    decreases |b|
  {
    if a == [] {
      if b == [] {
      } else {
        SubsequenceSnoc(a, b[1..], x);
        assert (b + [x])[1..] == b[1..] + [x];
      }
    } else if a[0] == b[0] && IsSubsequence(a[1..], b[1..]) {
      SubsequenceSnoc(a[1..], b[1..], x);
      assert (a + [x])[1..] == a[1..] + [x];
      assert (b + [x])[1..] == b[1..] + [x];
    } else {
      SubsequenceSnoc(a, b[1..], x);
      assert (b + [x])[1..] == b[1..] + [x];
    }
  }

  /** A subsequence of `b` is still one after `b` grows at the end. */
  lemma {:induction false} SubsequenceExtend<T>(a: seq<T>, b: seq<T>, x: T)
    requires IsSubsequence(a, b)
    ensures IsSubsequence(a, b + [x])
    decreases |b|
  {
    if a != [] {
      if a[0] == b[0] && IsSubsequence(a[1..], b[1..]) {
        SubsequenceExtend(a[1..], b[1..], x);
        assert (b + [x])[1..] == b[1..] + [x];
      } else {
        SubsequenceExtend(a, b[1..], x);
        assert (b + [x])[1..] == b[1..] + [x];
      }
    }
  }

  /** Every element of a subsequence occurs in the sequence. */
  lemma {:induction false} SubsequenceElements<T>(a: seq<T>, b: seq<T>)
    requires IsSubsequence(a, b)
    ensures forall x :: x in a ==> x in b
    decreases |b|
  {
    if a != [] {
      if a[0] == b[0] && IsSubsequence(a[1..], b[1..]) {
        SubsequenceElements(a[1..], b[1..]);
        assert a == [a[0]] + a[1..];
        assert b == [b[0]] + b[1..];
      } else {
        SubsequenceElements(a, b[1..]);
        assert b == [b[0]] + b[1..];
      }
    }
  }

  /** Some element of `s` has key `k`. */
  predicate HasKey<T, K(==)>(s: seq<T>, key: T -> K, k: K)
  {
    exists i :: 0 <= i < |s| && key(s[i]) == k
  }

  /**
   * The elements of `s` whose key was not seen before, in first-seen
   * order: what inserting every element into a JavaScript `Map` keyed by
   * `key` with "insert only if absent", then reading `values()`, yields.
   */
  function DedupBy<T, K(==)>(s: seq<T>, key: T -> K): seq<T>
    decreases |s|
  {
    if s == [] then []
    else
      var d := DedupBy(s[..|s| - 1], key);
      if HasKey(d, key, key(s[|s| - 1])) then d else d + [s[|s| - 1]]
  }

  /** DedupBy keeps one element per key. */
  lemma {:induction false} DedupByDistinct<T, K>(s: seq<T>, key: T -> K)
    ensures forall i, j :: 0 <= i < j < |DedupBy(s, key)| ==>
      key(DedupBy(s, key)[i]) != key(DedupBy(s, key)[j])
    decreases |s|
  {
    if s != [] {
      DedupByDistinct(s[..|s| - 1], key);
    }
  }

  /** Every key of the input is the key of some element of DedupBy. */
  lemma {:induction false} DedupByCovers<T, K>(s: seq<T>, key: T -> K)
    ensures forall i :: 0 <= i < |s| ==> HasKey(DedupBy(s, key), key, key(s[i]))
    decreases |s|
  {
    if s != [] {
      var init, last := s[..|s| - 1], s[|s| - 1];
      var d := DedupBy(init, key);
      DedupByCovers(init, key);
      if !HasKey(d, key, key(last)) {
        var d' := d + [last];
        forall i | 0 <= i < |s| ensures HasKey(d', key, key(s[i])) {
          if i < |s| - 1 {
            assert s[i] == init[i];
            var m :| 0 <= m < |d| && key(d[m]) == key(init[i]);
            assert d'[m] == d[m];
          } else {
            assert d'[|d|] == last;
          }
        }
      }
    }
  }

  /** DedupBy keeps input order. */
  lemma {:induction false} DedupByOrder<T, K>(s: seq<T>, key: T -> K)
    ensures IsSubsequence(DedupBy(s, key), s)
    decreases |s|
  {
    if s != [] {
      var init, last := s[..|s| - 1], s[|s| - 1];
      var d := DedupBy(init, key);
      DedupByOrder(init, key);
      assert s == init + [last];
      if HasKey(d, key, key(last)) {
        SubsequenceExtend(d, init, last);
      } else {
        SubsequenceSnoc(d, init, last);
      }
    }
  }

  /** The element DedupBy keeps for a key is the first input element with that key. */
  lemma {:induction false} DedupByFirstSeen<T, K>(s: seq<T>, key: T -> K)
    ensures forall i :: 0 <= i < |s| && (forall j :: 0 <= j < i ==> key(s[j]) != key(s[i])) ==>
      s[i] in DedupBy(s, key)
    decreases |s|
  {
    if s != [] {
      var init, last := s[..|s| - 1], s[|s| - 1];
      var d := DedupBy(init, key);
      DedupByFirstSeen(init, key);
      if HasKey(d, key, key(last)) {
        DedupByOrder(init, key);
        SubsequenceElements(d, init);
        var m :| 0 <= m < |d| && key(d[m]) == key(last);
        assert d[m] in init;
        var w :| 0 <= w < |init| && init[w] == d[m];
        assert key(s[w]) == key(last);
        forall i | 0 <= i < |s| && (forall j :: 0 <= j < i ==> key(s[j]) != key(s[i]))
          ensures s[i] in d
        {
          if i < |s| - 1 {
            assert s[i] == init[i];
          } else {
            assert false;
          }
        }
      } else {
        forall i | 0 <= i < |s| && (forall j :: 0 <= j < i ==> key(s[j]) != key(s[i]))
          ensures s[i] in d + [last]
        {
          if i < |s| - 1 {
            assert s[i] == init[i];
          }
        }
      }
    }
  }

  /** The position of the first element of `s` with key `k`: `findIndex` on the key. */
  function FirstIndex<T, K(==)>(s: seq<T>, key: T -> K, k: K): (i: nat)
    requires HasKey(s, key, k)
    ensures i < |s| && key(s[i]) == k
    ensures forall j :: 0 <= j < i ==> key(s[j]) != k
    decreases |s|
  {
    if key(s[0]) == k then 0
    else
      assert HasKey(s[1..], key, k) by {
        var i :| 0 <= i < |s| && key(s[i]) == k;
        assert s[1..][i - 1] == s[i];
      }
      var r := FirstIndex(s[1..], key, k);
      assert forall j :: 0 < j <= r ==> s[j] == s[1..][j - 1];
      1 + r
  }

  /** Appending an element does not move the first position of a key already present. */
  lemma FirstIndexSnoc<T, K>(s: seq<T>, key: T -> K, x: T, k: K)
    requires HasKey(s, key, k)
    ensures HasKey(s + [x], key, k) && FirstIndex(s + [x], key, k) == FirstIndex(s, key, k)
  {
    var t := s + [x];
    var i := FirstIndex(s, key, k);
    assert t[i] == s[i];
  }

  /** An appended element whose key is new is the first with that key. */
  lemma FirstIndexNew<T, K>(s: seq<T>, key: T -> K, x: T)
    requires !HasKey(s, key, key(x))
    ensures HasKey(s + [x], key, key(x)) && FirstIndex(s + [x], key, key(x)) == |s|
  {
    var t := s + [x];
    assert t[|s|] == x;
  }

  /**
   * DedupBy is the first occurrences of the keys of `s`, in the order of
   * those occurrences: each kept element sits at the first position of
   * its key, and the positions strictly increase along the result.
   */
  lemma {:induction false} DedupByFirstOccurrences<T, K>(s: seq<T>, key: T -> K)
    ensures forall m :: 0 <= m < |DedupBy(s, key)| ==>
      HasKey(s, key, key(DedupBy(s, key)[m])) &&
      DedupBy(s, key)[m] == s[FirstIndex(s, key, key(DedupBy(s, key)[m]))]
    ensures forall m, n :: 0 <= m < n < |DedupBy(s, key)| ==>
      FirstIndex(s, key, key(DedupBy(s, key)[m])) < FirstIndex(s, key, key(DedupBy(s, key)[n]))
    decreases |s|
  {
    if s != [] {
      var init, last := s[..|s| - 1], s[|s| - 1];
      var d := DedupBy(init, key);
      DedupByFirstOccurrences(init, key);
      assert s == init + [last];
      forall m | 0 <= m < |d|
        ensures HasKey(s, key, key(d[m])) && FirstIndex(s, key, key(d[m])) == FirstIndex(init, key, key(d[m]))
        ensures d[m] == s[FirstIndex(s, key, key(d[m]))]
      {
        FirstIndexSnoc(init, key, last, key(d[m]));
        assert s[FirstIndex(init, key, key(d[m]))] == init[FirstIndex(init, key, key(d[m]))];
      }
      if !HasKey(d, key, key(last)) {
        DedupByCovers(init, key);
        FirstIndexNew(init, key, last);
        var d' := d + [last];
        assert d'[|d|] == last;
        assert forall m :: 0 <= m < |d| ==> d'[m] == d[m];
      }
    }
  }
}
