/**
 * Whole-table operations shared by the cleaners: a column-wise map, a row
 * filter (a boolean mask) and pandas `drop_duplicates()` (keep the first
 * occurrence of every row, in input order).  Each is defined as a function
 * over the rows and computed by a method with a loop over the rows.
 */
module Seqs {

  /** `f` applied to every row, in order. */
  function Map<A, B>(f: A -> B, s: seq<A>): (r: seq<B>)
    ensures |r| == |s|
    ensures forall i :: 0 <= i < |s| ==> r[i] == f(s[i])
  {
    if s == [] then [] else Map(f, s[..|s| - 1]) + [f(s[|s| - 1])]
  }

  /** The two values `f` gives each element, laid end to end. */
  function FlatPairs<A, B>(f: A -> (B, B), s: seq<A>): (r: seq<B>)
    ensures |r| == 2 * |s|
    ensures forall j :: 0 <= j < |s| ==> r[2 * j] == f(s[j]).0 && r[2 * j + 1] == f(s[j]).1
  {
    if s == [] then []
    else
      var rest := FlatPairs(f, s[1..]);
      assert forall j :: 1 <= j < |s| ==> s[1..][j - 1] == s[j];
      [f(s[0]).0, f(s[0]).1] + rest
  }

  /** An element of the second of four sequences laid end to end. */
  lemma IndexSecond<T>(a: seq<T>, b: seq<T>, c: seq<T>, d: seq<T>, i: nat)
    requires |a| <= i < |a| + |b|
    ensures (a + b + c + d)[i] == b[i - |a|]
  {
  }

  /** An element of the last of four sequences laid end to end. */
  lemma IndexFourth<T>(a: seq<T>, b: seq<T>, c: seq<T>, d: seq<T>, i: nat)
    requires |a| + |b| + |c| <= i < |a| + |b| + |c| + |d|
    ensures (a + b + c + d)[i] == d[i - |a| - |b| - |c|]
  {
  }

  /** The rows that satisfy `p`, in order. */
  function Filter<T>(p: T -> bool, s: seq<T>): (r: seq<T>)
    ensures |r| <= |s|
    ensures forall i :: 0 <= i < |r| ==> r[i] in s && p(r[i])
    ensures forall i :: 0 <= i < |s| && p(s[i]) ==> s[i] in r
  {
    if s == [] then []
    else Filter(p, s[..|s| - 1]) + (if p(s[|s| - 1]) then [s[|s| - 1]] else [])
  }

  /** No element occurs twice. */
  predicate NoDups<T(==)>(s: seq<T>) {
    forall i, j :: 0 <= i < j < |s| ==> s[i] != s[j]
  }

  /** The first occurrence of every element of `s`, in input order. */
  function Dedup<T(==)>(s: seq<T>): (r: seq<T>)
    ensures NoDups(r)
    ensures forall i :: 0 <= i < |r| ==> r[i] in s
    ensures forall i :: 0 <= i < |s| ==> s[i] in r
    ensures |r| <= |s|
  {
    if s == [] then []
    else
      var init := Dedup(s[..|s| - 1]);
      init + (if s[|s| - 1] in s[..|s| - 1] then [] else [s[|s| - 1]])
  }

  /** The position of the first occurrence of `x` in `s`. */
  function FirstIndex<T(==)>(s: seq<T>, x: T): (k: nat)
    requires x in s
    ensures k < |s| && s[k] == x && x !in s[..k]
  {
    if s[0] == x then 0 else 1 + FirstIndex(s[1..], x)
  }

  lemma {:induction false} FirstIndexOfPrefix<T>(s: seq<T>, n: nat, x: T)
    requires n <= |s| && x in s[..n]
    ensures FirstIndex(s, x) == FirstIndex(s[..n], x)
  {
    if s[0] != x {
      assert s[..n][1..] == s[1..][..n - 1];
      FirstIndexOfPrefix(s[1..], n - 1, x);
    }
  }

  /**
   * drop_duplicates keeps first occurrences in input order: the rows of
   * `Dedup(s)` appear in the order of their first positions in `s`.
   */
  lemma {:induction false} DedupKeepsFirstOrder<T>(s: seq<T>)
    ensures forall i, j :: 0 <= i < j < |Dedup(s)| ==>
      FirstIndex(s, Dedup(s)[i]) < FirstIndex(s, Dedup(s)[j])
  {
    if s != [] {
      var n := |s| - 1;
      var init := s[..n];
      DedupKeepsFirstOrder(init);
      var d := Dedup(init);
      var r := Dedup(s);
      forall x | x in d ensures FirstIndex(s, x) == FirstIndex(init, x) {
        FirstIndexOfPrefix(s, n, x);
      }
      forall i, j | 0 <= i < j < |r|
        ensures FirstIndex(s, r[i]) < FirstIndex(s, r[j])
      {
        assert r[i] == d[i];
        if j < |d| {
          assert r[j] == d[j];
        } else {
          assert r[j] == s[n] && s[n] !in init;
          assert forall k :: 0 <= k < n ==> init[k] == s[k];
        }
      }
    }
  }

  /** Dropping duplicates from a table that has none changes nothing. */
  lemma {:induction false} DedupOfDistinct<T>(s: seq<T>)
    requires NoDups(s)
    ensures Dedup(s) == s
  {
    if s != [] {
      var n := |s| - 1;
      var init := s[..n];
      assert NoDups(init) by {
        forall i, j | 0 <= i < j < |init| ensures init[i] != init[j] {
          assert init[i] == s[i] && init[j] == s[j];
        }
      }
      DedupOfDistinct(init);
      assert s[n] !in init by {
        forall k | 0 <= k < n ensures init[k] != s[n] {
          assert init[k] == s[k];
        }
      }
      assert s == init + [s[n]];
    }
  }

  /** `drop_duplicates` is idempotent. */
  lemma DedupIdempotent<T>(s: seq<T>)
    ensures Dedup(Dedup(s)) == Dedup(s)
  {
    DedupOfDistinct(Dedup(s));
  }

  /** Deduplicating two elements keeps both when they differ, one when they are equal. */
  lemma DedupOfTwo<T>(a: T, b: T)
    ensures Dedup([a, b]) == if a == b then [a] else [a, b]
  {
    assert [a, b][..1] == [a];
    assert Dedup([a]) == [a] by { assert [a][..0] == []; }
  }

  /** A filter keeps a table free of duplicates. */
  lemma {:induction false} FilterOfDistinct<T>(p: T -> bool, s: seq<T>)
    requires NoDups(s)
    ensures NoDups(Filter(p, s))
  {
    if s != [] {
      var n := |s| - 1;
      assert NoDups(s[..n]);
      FilterOfDistinct(p, s[..n]);
      var f := Filter(p, s[..n]);
      assert forall k :: 0 <= k < n ==> s[..n][k] == s[k] != s[n];
      assert s[n] !in s[..n];
    }
  }

  /** Filtering twice by the same predicate is filtering once. */
  lemma {:induction false} FilterIdempotent<T>(p: T -> bool, s: seq<T>)
    ensures Filter(p, Filter(p, s)) == Filter(p, s)
  {
    if s != [] {
      var n := |s| - 1;
      FilterIdempotent(p, s[..n]);
      var f := Filter(p, s[..n]);
      if p(s[n]) {
        var g := f + [s[n]];
        assert g[..|g| - 1] == f;
        assert Filter(p, g) == Filter(p, f) + [s[n]];
        assert Filter(p, s) == g;
      } else {
        assert Filter(p, s) == f;
      }
    }
  }

  /** Pandas `df[col] = f(df[col])`: compute `Map(f, s)` row by row. */
  method MapRows<A, B>(f: A -> B, s: seq<A>) returns (r: seq<B>)
    ensures r == Map(f, s)
  {
    r := [];
    for i := 0 to |s|
      invariant r == Map(f, s[..i])
    {
      assert s[..i + 1][..i] == s[..i];
      r := r + [f(s[i])];
    }
    assert s[..|s|] == s;
  }

  /** Pandas `df = df[mask]`: keep the rows that satisfy `p`. */
  method FilterRows<T>(p: T -> bool, s: seq<T>) returns (r: seq<T>)
    ensures r == Filter(p, s)
  {
    r := [];
    for i := 0 to |s|
      invariant r == Filter(p, s[..i])
    {
      assert s[..i + 1][..i] == s[..i];
      if p(s[i]) {
        r := r + [s[i]];
      }
    }
    assert s[..|s|] == s;
  }

  /** Pandas `drop_duplicates()`: one pass with the set of rows already seen. */
  method DropDuplicates<T(==)>(s: seq<T>) returns (r: seq<T>)
    ensures r == Dedup(s)
  {
    r := [];
    var seen: set<T> := {};
    for i := 0 to |s|
      invariant r == Dedup(s[..i])
      invariant forall x :: x in seen <==> x in s[..i]
    {
      assert s[..i + 1][..i] == s[..i];
      assert s[..i + 1] == s[..i] + [s[i]];
      if s[i] !in seen {
        r := r + [s[i]];
        seen := seen + {s[i]};
      }
    }
    assert s[..|s|] == s;
  }
}
