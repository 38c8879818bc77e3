/**
 * Small collection helpers shared by the whole model: an optional value,
 * order-preserving filtering, summation and a key-ordered insertion sort.
 */
module Prelude {

  /** Swift's `Optional`: `nil` is `None`. */
  datatype Option<T> = None | Some(value: T) {
    /** Swift's `x ?? default`. */
    function GetOr(default: T): T {
      if Some? then value else default
    }
  }

  /** The elements of `s` that satisfy `p`, in their original order (Swift's `filter`). */
  function Filter<T(!new)>(s: seq<T>, p: T -> bool): (r: seq<T>)
    ensures |r| <= |s|
    ensures forall x :: x in r <==> x in s && p(x)
  {
    if s == [] then []
    else
      var init := s[..|s| - 1];
      assert s == init + [s[|s| - 1]];
      Filter(init, p) + (if p(s[|s| - 1]) then [s[|s| - 1]] else [])
  }

  lemma {:induction false} FilterAppend<T(!new)>(a: seq<T>, b: seq<T>, p: T -> bool)
    ensures Filter(a + b, p) == Filter(a, p) + Filter(b, p)
    decreases |b|
  {
    if b == [] {
      assert a + b == a;
    } else {
      var b' := b[..|b| - 1];
      assert (a + b)[..|a + b| - 1] == a + b';
      assert b[..|b| - 1] == b';
      FilterAppend(a, b', p);
    }
  }

  /** Filtering twice keeps exactly what both predicates keep. */
  lemma {:induction false} FilterFilter<T(!new)>(s: seq<T>, p: T -> bool, q: T -> bool)
    ensures Filter(Filter(s, p), q) == Filter(s, x => p(x) && q(x))
  {
    if s != [] {
      var init := s[..|s| - 1];
      var last := s[|s| - 1];
      FilterFilter(init, p, q);
      FilterAppend(Filter(init, p), if p(last) then [last] else [], q);
      if p(last) {
        assert Filter([last], q) == Filter([], q) + (if q(last) then [last] else []) by {
          assert [last][..0] == [];
        }
      }
    }
  }

  /** Filtering with a predicate that keeps everything changes nothing. */
  lemma {:induction false} FilterAll<T(!new)>(s: seq<T>, p: T -> bool)
    requires forall x :: x in s ==> p(x)
    ensures Filter(s, p) == s
  {
    if s != [] {
      var init := s[..|s| - 1];
      assert s == init + [s[|s| - 1]];
      FilterAll(init, p);
    }
  }

  /** Filtering with two predicates that agree on every element gives the same result. */
  lemma {:induction false} FilterSame<T(!new)>(s: seq<T>, p: T -> bool, q: T -> bool)
    requires forall x :: x in s ==> (p(x) <==> q(x))
    ensures Filter(s, p) == Filter(s, q)
  {
    if s != [] {
      var init := s[..|s| - 1];
      assert forall x :: x in init ==> x in s;
      FilterSame(init, p, q);
    }
  }

  /** Filtering by `p` and then by `q` is filtering once by any `r` that agrees with both together. */
  lemma FilterFilterSame<T(!new)>(s: seq<T>, p: T -> bool, q: T -> bool, r: T -> bool)
    requires forall x :: x in s ==> (p(x) && q(x) <==> r(x))
    ensures Filter(Filter(s, p), q) == Filter(s, r)
  {
    FilterFilter(s, p, q);
    FilterSame(s, x => p(x) && q(x), r);
  }

  /** Filtering with a predicate that keeps nothing gives the empty sequence. */
  lemma {:induction false} FilterNone<T(!new)>(s: seq<T>, p: T -> bool)
    requires forall x :: x in s ==> !p(x)
    ensures Filter(s, p) == []
  {
    if s != [] {
      var init := s[..|s| - 1];
      assert forall x :: x in init ==> x in s;
      FilterNone(init, p);
    }
  }

  /** The position of the first element of `s` that satisfies `p`, or `|s|` when there is none. */
  function FirstIndex<T>(s: seq<T>, p: T -> bool): (i: nat)
    ensures i <= |s|
    ensures i < |s| ==> p(s[i])
    ensures forall j :: 0 <= j < i ==> !p(s[j])
  {
    if s == [] then 0
    else if p(s[0]) then 0
    else 1 + FirstIndex(s[1..], p)
  }

  /** Swift's `first(where:)`. */
  function FirstWhere<T>(s: seq<T>, p: T -> bool): (r: Option<T>)
    ensures r.None? <==> forall x :: x in s ==> !p(x)
    ensures r.Some? ==> r.value in s && p(r.value)
  {
    var i := FirstIndex(s, p);
    if i < |s| then Some(s[i]) else None
  }

  /** `s` with `f` applied to the elements that satisfy `p`, the others kept, in place. */
  function MapWhere<T>(s: seq<T>, p: T -> bool, f: T -> T): (r: seq<T>)
    ensures |r| == |s|
    ensures forall i :: 0 <= i < |s| ==> r[i] == (if p(s[i]) then f(s[i]) else s[i])
  {
    if s == [] then []
    else MapWhere(s[..|s| - 1], p, f) + [if p(s[|s| - 1]) then f(s[|s| - 1]) else s[|s| - 1]]
  }

  /** No two positions of `s` hold elements with the same `key`. */
  ghost predicate DistinctBy<T>(s: seq<T>, key: T -> int) {
    forall i, j :: 0 <= i < j < |s| ==> key(s[i]) != key(s[j])
  }

  /** In a sequence with distinct keys, an element is identified by its key. */
  lemma DistinctByMembers<T>(s: seq<T>, key: T -> int, a: T, b: T)
    requires DistinctBy(s, key) && a in s && b in s && key(a) == key(b)
    ensures a == b
  {
    var i :| 0 <= i < |s| && s[i] == a;
    var j :| 0 <= j < |s| && s[j] == b;
    assert !(i < j) && !(j < i);
  }

  /** An element whose key is new keeps the keys distinct. */
  lemma AppendDistinct<T>(s: seq<T>, x: T, key: T -> int)
    requires DistinctBy(s, key)
    requires forall y :: y in s ==> key(y) != key(x)
    ensures DistinctBy(s + [x], key)
  {
    forall i, j | 0 <= i < j < |s + [x]| ensures key((s + [x])[i]) != key((s + [x])[j]) {
      assert (s + [x])[i] == s[i];
      if j == |s| {
        assert s[i] in s;
      }
    }
  }

  /** Filtering keeps the keys distinct. */
  lemma {:induction false} FilterDistinct<T(!new)>(s: seq<T>, p: T -> bool, key: T -> int)
    requires DistinctBy(s, key)
    ensures DistinctBy(Filter(s, p), key)
  {
    if s != [] {
      var init := s[..|s| - 1];
      var last := s[|s| - 1];
      FilterDistinct(init, p, key);
      if p(last) {
        var r := Filter(init, p);
        forall y | y in r ensures key(y) != key(last) {
          var k :| 0 <= k < |init| && init[k] == y;
          assert s[k] == y;
        }
        AppendDistinct(r, last, key);
      }
    }
  }

  /** Rewriting elements without changing their keys keeps the keys distinct. */
  lemma MapWhereDistinct<T>(s: seq<T>, p: T -> bool, f: T -> T, key: T -> int)
    requires DistinctBy(s, key)
    requires forall x :: key(f(x)) == key(x)
    ensures DistinctBy(MapWhere(s, p, f), key)
  {
    var r := MapWhere(s, p, f);
    forall i, j | 0 <= i < j < |r| ensures key(r[i]) != key(r[j]) {
      assert key(r[i]) == key(s[i]) && key(r[j]) == key(s[j]);
    }
  }

  /** The sum of `f` over `s` (Swift's `reduce(0) { $0 + f($1) }`). */
  function SumOf<T>(s: seq<T>, f: T -> int): int {
    if s == [] then 0 else SumOf(s[..|s| - 1], f) + f(s[|s| - 1])
  }

  lemma {:induction false} SumOfAppend<T>(a: seq<T>, b: seq<T>, f: T -> int)
    ensures SumOf(a + b, f) == SumOf(a, f) + SumOf(b, f)
    decreases |b|
  {
    if b == [] {
      assert a + b == a;
    } else {
      var b' := b[..|b| - 1];
      assert (a + b)[..|a + b| - 1] == a + b';
      SumOfAppend(a, b', f);
    }
  }

  /** A sum of terms that are all zero is zero. */
  lemma {:induction false} SumOfZero<T>(s: seq<T>, f: T -> int)
    requires forall x :: x in s ==> f(x) == 0
    ensures SumOf(s, f) == 0
  {
    if s != [] {
      var init := s[..|s| - 1];
      assert forall x :: x in init ==> x in s;
      SumOfZero(init, f);
    }
  }

  /** `s` is in ascending order of `key` (ties in any order). */
  ghost predicate SortedBy<T>(s: seq<T>, key: T -> int) {
    forall i, j :: 0 <= i < j < |s| ==> key(s[i]) <= key(s[j])
  }

  /** A sorted sequence stays sorted without its head, whose key bounds all the rest. */
  lemma SortedTail<T>(s: seq<T>, key: T -> int)
    requires SortedBy(s, key) && s != []
    ensures SortedBy(s[1..], key)
    ensures forall y :: y in s[1..] ==> key(s[0]) <= key(y)
  {
    forall i, j | 0 <= i < j < |s[1..]| ensures key(s[1..][i]) <= key(s[1..][j]) {
      assert s[1..][i] == s[i + 1] && s[1..][j] == s[j + 1];
    }
    forall y | y in s[1..] ensures key(s[0]) <= key(y) {
      var k :| 0 <= k < |s[1..]| && s[1..][k] == y;
      assert s[k + 1] == y;
    }
  }

  /** A head whose key bounds a sorted tail makes a sorted sequence. */
  lemma SortedCons<T>(h: T, t: seq<T>, key: T -> int)
    requires SortedBy(t, key)
    requires forall y :: y in t ==> key(h) <= key(y)
    ensures SortedBy([h] + t, key)
  {
    forall i, j | 0 <= i < j < |[h] + t| ensures key(([h] + t)[i]) <= key(([h] + t)[j]) {
      assert ([h] + t)[j] == t[j - 1];
      if i > 0 {
        assert ([h] + t)[i] == t[i - 1];
      } else {
        assert t[j - 1] in t;
      }
    }
  }

  /** Inserts `x` into the sorted `s` before the first element with a larger-or-equal key. */
  function Insert<T>(x: T, s: seq<T>, key: T -> int): (r: seq<T>)
    requires SortedBy(s, key)
    ensures SortedBy(r, key)
    ensures multiset(r) == multiset(s) + multiset{x}
    ensures forall y :: y in r ==> y == x || y in s
  {
    if s == [] then [x]
    else
      SortedTail(s, key);
      assert s == [s[0]] + s[1..];
      if key(x) <= key(s[0]) then
        SortedCons(x, s, key);
        [x] + s
      else
        var rest := Insert(x, s[1..], key);
        SortedCons(s[0], rest, key);
        [s[0]] + rest
  }

  /** Insertion sort by ascending `key`: a sorted permutation of `s` (SwiftData's `SortDescriptor`). */
  function SortBy<T>(s: seq<T>, key: T -> int): (r: seq<T>)
    ensures SortedBy(r, key)
    ensures multiset(r) == multiset(s)
  {
    if s == [] then []
    else
      assert s == [s[0]] + s[1..];
      Insert(s[0], SortBy(s[1..], key), key)
  }

  /** Sorting a sequence that is already in order leaves it as it is. */
  lemma {:induction false} SortBySorted<T>(s: seq<T>, key: T -> int)
    requires SortedBy(s, key)
    ensures SortBy(s, key) == s
  {
    if s != [] {
      SortBySorted(s[1..], key);
    }
  }

  // ---------------------------------------------------------------
  // Trimming (`trimmingCharacters(in:)`)
  // ---------------------------------------------------------------

  /** How many leading elements of `s` satisfy `strip`. */
  function LeadingCount<T>(s: seq<T>, strip: T -> bool): (n: nat)
    ensures n <= |s|
    ensures forall k :: 0 <= k < n ==> strip(s[k])
    ensures n < |s| ==> !strip(s[n])
  {
    if s != [] && strip(s[0]) then 1 + LeadingCount(s[1..], strip) else 0
  }

  /** How many trailing elements of `s` satisfy `strip`. */
  function TrailingCount<T>(s: seq<T>, strip: T -> bool): (n: nat)
    ensures n <= |s|
    ensures forall k :: |s| - n <= k < |s| ==> strip(s[k])
    ensures n < |s| ==> !strip(s[|s| - 1 - n])
  {
    if s != [] && strip(s[|s| - 1]) then 1 + TrailingCount(s[..|s| - 1], strip) else 0
  }

  /**
   * `s` without the elements that satisfy `strip` at either end: a slice of
   * `s` that is empty exactly when every element is stripped, and that
   * otherwise begins and ends with kept elements.
   */
  function Trim<T>(s: seq<T>, strip: T -> bool): (r: seq<T>)
    ensures r == [] <==> forall k :: 0 <= k < |s| ==> strip(s[k])
    ensures r != [] ==> !strip(r[0]) && !strip(r[|r| - 1])
    ensures |r| <= |s| && forall x :: x in r ==> x in s
  {
    var i := LeadingCount(s, strip);
    if i == |s| then []
    else
      var j := |s| - TrailingCount(s, strip);
      assert i < j;
      var r := s[i..j];
      assert forall x :: x in r ==> x in s by {
        forall x | x in r ensures x in s {
          var k :| 0 <= k < |r| && r[k] == x;
          assert s[i + k] == x;
        }
      }
      r
  }

  /** Padding of stripped elements around a sequence with kept ends is trimmed away, and nothing more. */
  lemma TrimPadded<T>(before: seq<T>, s: seq<T>, after: seq<T>, strip: T -> bool)
    requires forall x :: x in before ==> strip(x)
    requires forall x :: x in after ==> strip(x)
    requires s != [] && !strip(s[0]) && !strip(s[|s| - 1])
    ensures Trim(before + s + after, strip) == s
  {
    var w := before + s + after;
    var i, n := LeadingCount(w, strip), TrailingCount(w, strip);
    assert w[|before|] == s[0];
    assert w[|before| + |s| - 1] == s[|s| - 1];
    assert forall k :: 0 <= k < |before| ==> strip(w[k]) by {
      forall k | 0 <= k < |before| ensures strip(w[k]) {
        assert w[k] == before[k];
      }
    }
    assert forall k :: |w| - |after| <= k < |w| ==> strip(w[k]) by {
      forall k | |w| - |after| <= k < |w| ensures strip(w[k]) {
        assert w[k] == after[k - (|w| - |after|)];
      }
    }
    assert i == |before| && n == |after|;
    assert w[i..|w| - n] == s;
  }
}
