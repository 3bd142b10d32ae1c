/**
 * Sequence helpers shared by several parts of the model. `Filter` is the
 * order-preserving selection that the plugin writes out as "append each element
 * that passes" loops, as reverse `RemoveAt` loops, and as `TArray::Remove`.
 */
module Seqs {
  import opened Wrappers

  /** The elements of `s` that satisfy `keep`, in their original order. */
  function Filter<T>(s: seq<T>, keep: T -> bool): seq<T>
  {
    if s == [] then [] else (if keep(s[0]) then [s[0]] else []) + Filter(s[1..], keep)
  }

  /**
   * The index a strict running minimum ends with, over the first `n` entries of `ds`
   * (`None` entries are skipped): a least entry, and the first of several equal least
   * ones, since only a strictly smaller entry replaces the current best.
   */
  function FirstMinimum(ds: seq<Option<nat>>, n: nat): (r: Option<nat>)
    requires n <= |ds|
    ensures r.Some? ==> r.value < n && ds[r.value].Some?
    ensures r.Some? ==> forall j :: 0 <= j < n && ds[j].Some? ==> ds[r.value].value <= ds[j].value
    ensures r.Some? ==> forall j :: 0 <= j < r.value && ds[j].Some? ==> ds[r.value].value < ds[j].value
    ensures r.None? <==> forall j :: 0 <= j < n ==> ds[j].None?
  {
    if n == 0 then None
    else
      var best := FirstMinimum(ds, n - 1);
      if ds[n - 1].Some? && (best.None? || ds[n - 1].value < ds[best.value].value) then Some(n - 1) else best
  }

  /** `a` is obtained from `b` by deleting elements (it keeps their order). */
  predicate IsSubsequence<T(==)>(a: seq<T>, b: seq<T>)
  {
    if a == [] then true
    else if b == [] then false
    else if a[0] == b[0] then IsSubsequence(a[1..], b[1..])
    else IsSubsequence(a, b[1..])
  }

  /** Every element not equal to `x`: what `TArray::Remove(x)` leaves (it removes all occurrences). */
  function RemoveAll<T(==)>(s: seq<T>, x: T): seq<T>
  {
    Filter(s, y => y != x)
  }

  /** `n` copies of `x`. */
  function Repeat<T>(x: T, n: nat): (r: seq<T>)
    ensures |r| == n && forall i :: 0 <= i < n ==> r[i] == x
  {
    seq(n, _ => x)
  }

  lemma RepeatSnoc<T>(x: T, n: nat)
    ensures Repeat(x, n + 1) == Repeat(x, n) + [x]
  {
  }

  /**
   * The plugin's clean-up loop: walk the array from the back and `RemoveAt` every element
   * that fails `keep`. What remains is `Filter(s, keep)`.
   */
  method RemoveRejected<T>(s: seq<T>, keep: T -> bool) returns (r: seq<T>)
    ensures r == Filter(s, keep)
  {
    r := s;
    var i := |s|;
    assert s[|s|..] == [];
    while i > 0
      invariant 0 <= i <= |s|
      invariant r == s[..i] + Filter(s[i..], keep)
    {
      i := i - 1;
      assert r[i] == s[i];
      assert s[i..][1..] == s[i + 1..];
      assert s[..i + 1] == s[..i] + [s[i]];
      if !keep(r[i]) {
        r := r[..i] + r[i + 1..];
        assert r == s[..i] + Filter(s[i..], keep);
      }
    }
    assert s[..0] == [] && s[0..] == s;
  }

  lemma {:induction false} FilterAppend<T>(a: seq<T>, b: seq<T>, keep: T -> bool)
    ensures Filter(a + b, keep) == Filter(a, keep) + Filter(b, keep)
  {
    if a == [] {
      assert a + b == b;
    } else {
      var head := if keep(a[0]) then [a[0]] else [];
      assert (a + b)[0] == a[0] && (a + b)[1..] == a[1..] + b;
      assert Filter(a + b, keep) == head + Filter(a[1..] + b, keep);
      FilterAppend(a[1..], b, keep);
      assert Filter(a, keep) == head + Filter(a[1..], keep);
    }
  }

  /** Appending one element extends the filtered prefix by that element when it passes. */
  lemma FilterSnoc<T>(s: seq<T>, x: T, keep: T -> bool)
    ensures Filter(s + [x], keep) == Filter(s, keep) + (if keep(x) then [x] else [])
  {
    FilterAppend(s, [x], keep);
    assert Filter([x], keep) == (if keep(x) then [x] else []) + Filter([x][1..], keep);
  }

  /** Everything the filter keeps passes the test and comes from the input. */
  lemma {:induction false} FilterSound<T>(s: seq<T>, keep: T -> bool)
    ensures forall x :: x in Filter(s, keep) ==> keep(x) && x in s
  {
    if s != [] {
      FilterSound(s[1..], keep);
    }
  }

  /** Nothing that passes the test is lost. */
  lemma {:induction false} FilterComplete<T>(s: seq<T>, keep: T -> bool)
    ensures forall x :: x in s && keep(x) ==> x in Filter(s, keep)
  {
    if s != [] {
      FilterComplete(s[1..], keep);
      assert s == [s[0]] + s[1..];
    }
  }

  /** Multiplicities: a passing element keeps every one of its copies, a failing one has none. */
  lemma {:induction false} FilterMultiset<T>(s: seq<T>, keep: T -> bool, x: T)
    ensures multiset(Filter(s, keep))[x] == if keep(x) then multiset(s)[x] else 0
  {
    if s != [] {
      FilterMultiset(s[1..], keep, x);
      assert s == [s[0]] + s[1..];
      assert multiset(s) == multiset([s[0]]) + multiset(s[1..]);
    }
  }

  /** The filter keeps the input order: its result is a subsequence of the input. */
  lemma {:induction false} FilterIsSubsequence<T>(s: seq<T>, keep: T -> bool)
    ensures IsSubsequence(Filter(s, keep), s)
  {
    if s != [] {
      FilterIsSubsequence(s[1..], keep);
      if keep(s[0]) {
        assert Filter(s, keep) == [s[0]] + Filter(s[1..], keep);
        assert Filter(s, keep)[1..] == Filter(s[1..], keep);
      } else {
        assert Filter(s, keep) == Filter(s[1..], keep);
        SubsequenceDropHead(Filter(s, keep), s);
      }
    }
  }

  lemma {:induction false} SubsequenceDropHead<T>(a: seq<T>, b: seq<T>)
    requires b != [] && IsSubsequence(a, b[1..])
    ensures IsSubsequence(a, b)
  {
    if a != [] && a[0] == b[0] {
      SubsequenceTail(a, b[1..]);
    }
  }

  lemma {:induction false} SubsequenceTail<T>(a: seq<T>, b: seq<T>)
    requires a != [] && IsSubsequence(a, b)
    ensures IsSubsequence(a[1..], b)
  {
    if b != [] {
      if a[0] == b[0] {
        if a[1..] != [] {
          SubsequenceTail(a[1..], b[1..]);
          SubsequenceDropHead(a[1..], b);
        }
      } else {
        SubsequenceTail(a, b[1..]);
        if a[1..] != [] {
          SubsequenceDropHead(a[1..], b);
        }
      }
    }
  }

  /** A filter whose test passes every element changes nothing. */
  lemma {:induction false} FilterAll<T>(s: seq<T>, keep: T -> bool)
    requires forall x :: x in s ==> keep(x)
    ensures Filter(s, keep) == s
  {
    if s != [] {
      FilterAll(s[1..], keep);
      assert s == [s[0]] + s[1..];
    }
  }

  /** `RemoveAll` leaves no copy of the removed value and every copy of every other value. */
  lemma RemoveAllSpec<T>(s: seq<T>, x: T)
    ensures x !in RemoveAll(s, x)
    ensures forall y :: y != x ==> multiset(RemoveAll(s, x))[y] == multiset(s)[y]
    ensures IsSubsequence(RemoveAll(s, x), s)
  {
    FilterSound(s, y => y != x);
    forall y | y != x ensures multiset(RemoveAll(s, x))[y] == multiset(s)[y] {
      FilterMultiset(s, y => y != x, y);
    }
    FilterIsSubsequence(s, y => y != x);
  }

  // ----- sorting by an integer key -----

  predicate SortedByKey<T>(s: seq<T>, key: T -> int)
  {
    forall i, j :: 0 <= i < j < |s| ==> key(s[i]) <= key(s[j])
  }

  function Insert<T>(x: T, s: seq<T>, key: T -> int): seq<T>
  {
    if s == [] then [x]
    else if key(x) <= key(s[0]) then [x] + s
    else [s[0]] + Insert(x, s[1..], key)
  }

  /** An insertion sort: one particular sorted arrangement of `s`. */
  function SortByKey<T>(s: seq<T>, key: T -> int): seq<T>
  {
    if s == [] then [] else Insert(s[0], SortByKey(s[1..], key), key)
  }

  lemma {:induction false} InsertPermutes<T>(x: T, s: seq<T>, key: T -> int)
    ensures multiset(Insert(x, s, key)) == multiset(s) + multiset{x}
  {
    if s != [] && key(x) > key(s[0]) {
      InsertPermutes(x, s[1..], key);
      assert s == [s[0]] + s[1..];
    }
  }

  /** A sorted sequence stays sorted with an element in front that is no greater than any of its elements. */
  lemma SortedCons<T>(h: T, r: seq<T>, key: T -> int)
    requires SortedByKey(r, key)
    requires forall y :: y in r ==> key(h) <= key(y)
    ensures SortedByKey([h] + r, key)
  {
    forall i, j | 0 <= i < j < |[h] + r|
      ensures key(([h] + r)[i]) <= key(([h] + r)[j])
    {
      assert ([h] + r)[j] == r[j - 1];
      if i == 0 {
        assert r[j - 1] in r;
      } else {
        assert ([h] + r)[i] == r[i - 1];
      }
    }
  }

  /** The head of a sorted sequence is no greater than any element of its tail. */
  lemma SortedHead<T>(s: seq<T>, key: T -> int)
    requires s != [] && SortedByKey(s, key)
    ensures forall y :: y in s[1..] ==> key(s[0]) <= key(y)
  {
    forall y | y in s[1..]
      ensures key(s[0]) <= key(y)
    {
      var k :| 0 <= k < |s[1..]| && s[1..][k] == y;
      assert s[k + 1] == y;
    }
  }

  lemma {:induction false} InsertSorted<T>(x: T, s: seq<T>, key: T -> int)
    requires SortedByKey(s, key)
    ensures SortedByKey(Insert(x, s, key), key)
  {
    if s != [] && key(x) > key(s[0]) {
      var r := Insert(x, s[1..], key);
      assert SortedByKey(s[1..], key) by {
        forall i, j | 0 <= i < j < |s[1..]|
          ensures key(s[1..][i]) <= key(s[1..][j])
        {
          assert s[1..][i] == s[i + 1] && s[1..][j] == s[j + 1];
        }
      }
      InsertSorted(x, s[1..], key);
      InsertPermutes(x, s[1..], key);
      SortedHead(s, key);
      forall y | y in r
        ensures key(s[0]) <= key(y)
      {
        assert y in multiset(r);
        assert y == x || y in multiset(s[1..]);
      }
      SortedCons(s[0], r, key);
    }
  }

  /** The sort yields a sorted permutation of its input. */
  lemma {:induction false} SortByKeySpec<T>(s: seq<T>, key: T -> int)
    ensures SortedByKey(SortByKey(s, key), key)
    ensures multiset(SortByKey(s, key)) == multiset(s)
  {
    if s != [] {
      SortByKeySpec(s[1..], key);
      InsertSorted(s[0], SortByKey(s[1..], key), key);
      InsertPermutes(s[0], SortByKey(s[1..], key), key);
      assert s == [s[0]] + s[1..];
    }
  }

  /** A permutation of a sequence has the same elements. */
  lemma SameElements<T>(a: seq<T>, b: seq<T>)
    requires multiset(a) == multiset(b)
    ensures forall x :: x in a <==> x in b
  {
    forall x
      ensures x in a <==> x in b
    {
      assert x in a <==> x in multiset(a);
      assert x in b <==> x in multiset(b);
    }
  }
}
