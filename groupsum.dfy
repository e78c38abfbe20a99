/**
 * The aggregation step of `clean_student_vle`:
 * `groupby([id_student, code_module, code_presentation, id_site, date])['sum_click'].sum()`.
 * Groups come out sorted by key (pandas' default `sort=True`); a row whose
 * `date` is null is left out of every group (pandas' default `dropna=True`;
 * the other four key columns are not nullable in this model); a null click
 * count adds nothing to its group's sum.
 */
module GroupSum {
  import opened Wrappers
  import Seqs

  /** A raw row of studentVle.csv. */
  datatype StudentVleRaw = StudentVleRaw(
    codeModule: string, codePresentation: string, idStudent: int, idSite: int,
    date: Option<int>, sumClick: Option<int>)

  /** The grouping key, in the order of the `groupby` column list. */
  datatype VleKey = VleKey(
    idStudent: int, codeModule: string, codePresentation: string, idSite: int, date: int)

  /** One output row of the aggregation. */
  datatype StudentVle = StudentVle(key: VleKey, sumClick: int)

  /** Python's `<` on strings: lexicographic by code point. */
  predicate StrLess(a: string, b: string) {
    if a == [] then b != []
    else if b == [] then false
    else a[0] < b[0] || (a[0] == b[0] && StrLess(a[1..], b[1..]))
  }

  lemma {:induction false} StrLessIrreflexive(a: string)
    ensures !StrLess(a, a)
  {
    if a != [] { StrLessIrreflexive(a[1..]); }
  }

  lemma {:induction false} StrLessTransitive(a: string, b: string, c: string)
    requires StrLess(a, b) && StrLess(b, c)
    ensures StrLess(a, c)
  {
    if a != [] && b != [] && c != [] && a[0] == b[0] == c[0] {
      StrLessTransitive(a[1..], b[1..], c[1..]);
    }
  }

  lemma {:induction false} StrLessTotal(a: string, b: string)
    ensures a == b || StrLess(a, b) || StrLess(b, a)
  {
    if a != [] && b != [] && a[0] == b[0] {
      StrLessTotal(a[1..], b[1..]);
      if a[1..] == b[1..] {
        assert a == [a[0]] + a[1..] && b == [b[0]] + b[1..];
      }
    }
  }

  /** Tuple order on keys, as pandas sorts the groups. */
  predicate KeyLess(a: VleKey, b: VleKey) {
    a.idStudent < b.idStudent ||
    (a.idStudent == b.idStudent &&
      (StrLess(a.codeModule, b.codeModule) ||
      (a.codeModule == b.codeModule &&
        (StrLess(a.codePresentation, b.codePresentation) ||
        (a.codePresentation == b.codePresentation &&
          (a.idSite < b.idSite || (a.idSite == b.idSite && a.date < b.date)))))))
  }

  lemma KeyLessIrreflexive(a: VleKey)
    ensures !KeyLess(a, a)
  {
    StrLessIrreflexive(a.codeModule);
    StrLessIrreflexive(a.codePresentation);
  }

  lemma KeyLessTransitive(a: VleKey, b: VleKey, c: VleKey)
    requires KeyLess(a, b) && KeyLess(b, c)
    ensures KeyLess(a, c)
  {
    if StrLess(a.codeModule, b.codeModule) && StrLess(b.codeModule, c.codeModule) {
      StrLessTransitive(a.codeModule, b.codeModule, c.codeModule);
    }
    if StrLess(a.codePresentation, b.codePresentation) && StrLess(b.codePresentation, c.codePresentation) {
      StrLessTransitive(a.codePresentation, b.codePresentation, c.codePresentation);
    }
  }

  lemma KeyLessTotal(a: VleKey, b: VleKey)
    ensures a == b || KeyLess(a, b) || KeyLess(b, a)
  {
    StrLessTotal(a.codeModule, b.codeModule);
    StrLessTotal(a.codePresentation, b.codePresentation);
  }

  /** Strictly increasing keys: sorted, and so at most one row per key. */
  predicate Sorted(acc: seq<StudentVle>) {
    forall i, j :: 0 <= i < j < |acc| ==> KeyLess(acc[i].key, acc[j].key)
  }

  /** Every key of `acc` is above `b`. */
  predicate AllAbove(b: VleKey, acc: seq<StudentVle>) {
    forall i :: 0 <= i < |acc| ==> KeyLess(b, acc[i].key)
  }

  /** The keys of the groups in `acc`. */
  function Keys(acc: seq<StudentVle>): (r: set<VleKey>)
    ensures forall i :: 0 <= i < |acc| ==> acc[i].key in r
    ensures forall key :: key in r ==> exists i :: 0 <= i < |acc| && acc[i].key == key
  {
    if acc == [] then {}
    else
      var rest := Keys(acc[1..]);
      assert forall i :: 0 < i < |acc| ==> acc[i] == acc[1..][i - 1];
      {acc[0].key} + rest
  }

  /** The clicks recorded for `key` in `acc` (summed over its rows). */
  function Lookup(acc: seq<StudentVle>, key: VleKey): int {
    if acc == [] then 0
    else (if acc[0].key == key then acc[0].sumClick else 0) + Lookup(acc[1..], key)
  }

  /**
   * Add `c` clicks to group `k` of the sorted groups `acc`: merge into the
   * group when it exists, otherwise insert a new group at its sorted place.
   */
  function AddClicks(acc: seq<StudentVle>, k: VleKey, c: int): (r: seq<StudentVle>)
    ensures Keys(r) == Keys(acc) + {k}
    ensures forall key :: Lookup(r, key) == Lookup(acc, key) + (if key == k then c else 0)
  {
    if acc == [] then
      [StudentVle(k, c)]
    else if acc[0].key == k then
      var r := [StudentVle(k, acc[0].sumClick + c)] + acc[1..];
      assert r[1..] == acc[1..];
      r
    else if KeyLess(k, acc[0].key) then
      var r := [StudentVle(k, c)] + acc;
      assert r[1..] == acc;
      r
    else
      var tail := AddClicks(acc[1..], k, c);
      var r := [acc[0]] + tail;
      assert r[1..] == tail;
      r
  }

  /** Adding clicks keeps the groups sorted by key. */
  lemma {:induction false} AddClicksSorted(acc: seq<StudentVle>, k: VleKey, c: int)
    requires Sorted(acc)
    ensures Sorted(AddClicks(acc, k, c))
    ensures forall b :: AllAbove(b, acc) && KeyLess(b, k) ==> AllAbove(b, AddClicks(acc, k, c))
  {
    var r := AddClicks(acc, k, c);
    if acc == [] {
    } else if acc[0].key == k {
      var x := StudentVle(k, acc[0].sumClick + c);
      assert r == [x] + acc[1..];
      SortedTail(acc);
      ConsSorted(x, acc[1..]);
      forall b | AllAbove(b, acc) && KeyLess(b, k) ensures AllAbove(b, r) {
        AboveTail(b, acc);
        ConsAbove(b, x, acc[1..]);
      }
    } else if KeyLess(k, acc[0].key) {
      var x := StudentVle(k, c);
      assert r == [x] + acc;
      SortedAbove(k, acc);
      ConsSorted(x, acc);
      forall b | AllAbove(b, acc) && KeyLess(b, k) ensures AllAbove(b, r) {
        ConsAbove(b, x, acc);
      }
    } else {
      var tail := AddClicks(acc[1..], k, c);
      assert r == [acc[0]] + tail;
      SortedTail(acc);
      AddClicksSorted(acc[1..], k, c);
      KeyLessTotal(k, acc[0].key);
      ConsSorted(acc[0], tail);
      forall b | AllAbove(b, acc) && KeyLess(b, k) ensures AllAbove(b, r) {
        AboveTail(b, acc);
        ConsAbove(b, acc[0], tail);
      }
    }
  }

  /** The rows after the first of a sorted table are sorted and above the first. */
  lemma SortedTail(acc: seq<StudentVle>)
    requires Sorted(acc) && acc != []
    ensures Sorted(acc[1..]) && AllAbove(acc[0].key, acc[1..])
  {
    forall i, j | 0 <= i < j < |acc[1..]| ensures KeyLess(acc[1..][i].key, acc[1..][j].key) {
      assert acc[1..][i] == acc[i + 1] && acc[1..][j] == acc[j + 1];
    }
    forall i | 0 <= i < |acc[1..]| ensures KeyLess(acc[0].key, acc[1..][i].key) {
      assert acc[1..][i] == acc[i + 1];
    }
  }

  /** A row below every row of a sorted table can go in front of it. */
  lemma ConsSorted(x: StudentVle, s: seq<StudentVle>)
    requires Sorted(s) && AllAbove(x.key, s)
    ensures Sorted([x] + s)
  {
    forall i, j | 0 <= i < j < |[x] + s| ensures KeyLess(([x] + s)[i].key, ([x] + s)[j].key) {
      assert ([x] + s)[j] == s[j - 1];
      if i > 0 { assert ([x] + s)[i] == s[i - 1]; }
    }
  }

  /** A key below the new front row and below the rest is below them all. */
  lemma ConsAbove(b: VleKey, x: StudentVle, s: seq<StudentVle>)
    requires KeyLess(b, x.key) && AllAbove(b, s)
    ensures AllAbove(b, [x] + s)
  {
    forall i | 0 <= i < |[x] + s| ensures KeyLess(b, ([x] + s)[i].key) {
      if i > 0 { assert ([x] + s)[i] == s[i - 1]; }
    }
  }

  /** A key below every row is below the first and below the rest. */
  lemma AboveTail(b: VleKey, acc: seq<StudentVle>)
    requires AllAbove(b, acc) && acc != []
    ensures KeyLess(b, acc[0].key) && AllAbove(b, acc[1..])
  {
    forall i | 0 <= i < |acc[1..]| ensures KeyLess(b, acc[1..][i].key) {
      assert acc[1..][i] == acc[i + 1];
    }
  }

  /** A key below the first row of a sorted table is below all of it. */
  lemma SortedAbove(b: VleKey, acc: seq<StudentVle>)
    requires Sorted(acc) && acc != [] && KeyLess(b, acc[0].key)
    ensures AllAbove(b, acc)
  {
    forall j | 0 < j < |acc| ensures KeyLess(b, acc[j].key) {
      KeyLessTransitive(b, acc[0].key, acc[j].key);
    }
  }

  /** The clicks of a raw row; a null count adds nothing. */
  function Clicks(row: StudentVleRaw): int {
    row.sumClick.GetOr(0)
  }

  /** The group of a raw row, if its key has no null. */
  function KeyOf(row: StudentVleRaw): Option<VleKey> {
    match row.date
    case None => None
    case Some(d) => Some(VleKey(row.idStudent, row.codeModule, row.codePresentation, row.idSite, d))
  }

  /** The keys of the raw rows (rows with a null key excluded). */
  function RawKeys(df: seq<StudentVleRaw>): set<VleKey> {
    set i | 0 <= i < |df| && KeyOf(df[i]).Some? :: KeyOf(df[i]).value
  }

  /** The sum of the clicks of the raw rows of group `key`. */
  function Total(df: seq<StudentVleRaw>, key: VleKey): int {
    if df == [] then 0
    else Total(df[..|df| - 1], key) + (if KeyOf(df[|df| - 1]) == Some(key) then Clicks(df[|df| - 1]) else 0)
  }

  /** The groups of `df` with their click sums, sorted by key. */
  function Grouped(df: seq<StudentVleRaw>): (r: seq<StudentVle>)
    ensures Sorted(r)
    ensures Keys(r) == RawKeys(df)
    ensures forall key :: Lookup(r, key) == Total(df, key)
  {
    if df == [] then []
    else
      var init := df[..|df| - 1];
      var last := df[|df| - 1];
      var g := Grouped(init);
      RawKeysSnoc(df);
      match KeyOf(last)
      case None => g
      case Some(k) => AddClicksSorted(g, k, Clicks(last)); AddClicks(g, k, Clicks(last))
  }

  /** The keys of the raw rows, one row at a time. */
  lemma RawKeysSnoc(df: seq<StudentVleRaw>)
    requires df != []
    ensures var last := df[|df| - 1];
      RawKeys(df) == RawKeys(df[..|df| - 1]) + (if KeyOf(last).Some? then {KeyOf(last).value} else {})
  {
    var init := df[..|df| - 1];
    assert forall i :: 0 <= i < |init| ==> init[i] == df[i];
  }

  lemma {:induction false} LookupAbsent(acc: seq<StudentVle>, key: VleKey)
    requires key !in Keys(acc)
    ensures Lookup(acc, key) == 0
  {
    if acc != [] {
      assert acc[0].key in Keys(acc);
      assert Keys(acc[1..]) <= Keys(acc) by {
        assert forall i :: 0 <= i < |acc[1..]| ==> acc[1..][i] == acc[i + 1];
      }
      LookupAbsent(acc[1..], key);
    }
  }

  /** In sorted groups, a key's lookup is the click count of its one row. */
  lemma {:induction false} LookupSorted(acc: seq<StudentVle>, i: nat)
    requires Sorted(acc) && i < |acc|
    ensures Lookup(acc, acc[i].key) == acc[i].sumClick
  {
    var rest := acc[1..];
    assert Sorted(rest);
    if i == 0 {
      forall j | 0 <= j < |rest| ensures rest[j].key != acc[0].key {
        assert KeyLess(acc[0].key, acc[j + 1].key);
        KeyLessIrreflexive(acc[0].key);
      }
      LookupAbsent(rest, acc[0].key);
    } else {
      assert KeyLess(acc[0].key, acc[i].key);
      KeyLessIrreflexive(acc[0].key);
      LookupSorted(rest, i - 1);
    }
  }

  /** Only groups with a positive click total are kept. */
  function Positive(g: StudentVle): bool { g.sumClick > 0 }

  lemma {:induction false} FilterSorted(acc: seq<StudentVle>)
    requires Sorted(acc)
    ensures Sorted(Seqs.Filter(Positive, acc))
  {
    if acc != [] {
      var n := |acc| - 1;
      var init := acc[..n];
      SortedInit(acc);
      FilterSorted(init);
      var f := Seqs.Filter(Positive, init);
      assert acc == init + [acc[n]];
      if Positive(acc[n]) {
        forall i | 0 <= i < |f| ensures KeyLess(f[i].key, acc[n].key) {
          assert f[i] in init;
          var j :| 0 <= j < |init| && init[j] == f[i];
          assert init[j] == acc[j];
        }
        assert Seqs.Filter(Positive, acc) == f + [acc[n]];
        SnocSorted(f, acc[n]);
      } else {
        assert Seqs.Filter(Positive, acc) == f;
      }
    }
  }

  /** All rows but the last of a sorted table are sorted. */
  lemma SortedInit(acc: seq<StudentVle>)
    requires Sorted(acc) && acc != []
    ensures Sorted(acc[..|acc| - 1])
  {
    var init := acc[..|acc| - 1];
    forall i, j | 0 <= i < j < |init| ensures KeyLess(init[i].key, init[j].key) {
      assert init[i] == acc[i] && init[j] == acc[j];
    }
  }

  /** A row above every row of a sorted table can go at its end. */
  lemma SnocSorted(f: seq<StudentVle>, x: StudentVle)
    requires Sorted(f)
    requires forall i :: 0 <= i < |f| ==> KeyLess(f[i].key, x.key)
    ensures Sorted(f + [x])
  {
    var r := f + [x];
    forall i, j | 0 <= i < j < |r| ensures KeyLess(r[i].key, r[j].key) {
      assert r[i] == f[i];
      if j < |f| { assert r[j] == f[j]; }
    }
  }

  /**
   * The cleaned interaction log: one row per group, in key order, whose
   * click count is the sum of the group's raw clicks; groups whose sum is
   * not positive are dropped.
   */
  function Aggregated(df: seq<StudentVleRaw>): (r: seq<StudentVle>) {
    Seqs.Filter(Positive, Grouped(df))
  }

  /** The output of the aggregation is sorted by key, so no key occurs twice. */
  lemma AggregatedSorted(df: seq<StudentVleRaw>)
    ensures Sorted(Aggregated(df))
    ensures forall i, j :: 0 <= i < j < |Aggregated(df)| ==> Aggregated(df)[i].key != Aggregated(df)[j].key
  {
    FilterSorted(Grouped(df));
    var r := Aggregated(df);
    forall i, j | 0 <= i < j < |r| ensures r[i].key != r[j].key {
      KeyLessIrreflexive(r[i].key);
    }
  }

  /**
   * Each output row carries the total of its group, that total is positive,
   * and every group of the input whose total is positive has its row.
   */
  lemma AggregatedSums(df: seq<StudentVleRaw>)
    ensures forall i :: 0 <= i < |Aggregated(df)| ==>
      Aggregated(df)[i].key in RawKeys(df) &&
      Aggregated(df)[i].sumClick == Total(df, Aggregated(df)[i].key) > 0
    ensures forall key :: key in RawKeys(df) && Total(df, key) > 0 ==>
      exists i :: 0 <= i < |Aggregated(df)| && Aggregated(df)[i].key == key
  {
    var g := Grouped(df);
    var r := Aggregated(df);
    forall i | 0 <= i < |r|
      ensures r[i].key in RawKeys(df) && r[i].sumClick == Total(df, r[i].key) > 0
    {
      var j :| 0 <= j < |g| && g[j] == r[i];
      LookupSorted(g, j);
    }
    forall key | key in RawKeys(df) && Total(df, key) > 0
      ensures exists i :: 0 <= i < |r| && r[i].key == key
    {
      assert key in Keys(g);
      var j :| 0 <= j < |g| && g[j].key == key;
      LookupSorted(g, j);
      assert g[j] in r;
    }
  }

  /** A cleaned row read back as a raw row: the same columns, none of them null. */
  function ToRaw(v: StudentVle): (r: StudentVleRaw)
    ensures KeyOf(r) == Some(v.key) && Clicks(r) == v.sumClick
  {
    StudentVleRaw(v.key.codeModule, v.key.codePresentation, v.key.idStudent, v.key.idSite,
                  Some(v.key.date), Some(v.sumClick))
  }

  /** Clicks for a key above every group open a new group at the end. */
  lemma {:induction false} AddClicksAbove(acc: seq<StudentVle>, k: VleKey, c: int)
    requires forall i :: 0 <= i < |acc| ==> KeyLess(acc[i].key, k)
    ensures AddClicks(acc, k, c) == acc + [StudentVle(k, c)]
  {
    if acc != [] {
      var rest := acc[1..];
      KeyLessIrreflexive(k);
      if KeyLess(k, acc[0].key) {
        KeyLessTransitive(k, acc[0].key, k);
      }
      assert acc[0].key != k && !KeyLess(k, acc[0].key);
      assert AddClicks(acc, k, c) == [acc[0]] + AddClicks(rest, k, c);
      forall i | 0 <= i < |rest| ensures KeyLess(rest[i].key, k) {
        assert rest[i] == acc[i + 1];
      }
      AddClicksAbove(rest, k, c);
      assert acc == [acc[0]] + rest;
    }
  }

  /** Grouping rows that are already distinct groups in key order gives them back. */
  lemma {:induction false} GroupedOfSorted(acc: seq<StudentVle>)
    requires Sorted(acc)
    ensures Grouped(Seqs.Map(ToRaw, acc)) == acc
  {
    if acc != [] {
      var n := |acc| - 1;
      var raw := Seqs.Map(ToRaw, acc);
      assert raw[..n] == Seqs.Map(ToRaw, acc[..n]);
      SortedInit(acc);
      GroupedOfSorted(acc[..n]);
      AddClicksAbove(acc[..n], acc[n].key, acc[n].sumClick);
      assert acc == acc[..n] + [acc[n]];
    }
  }

  /**
   * Cleaning the cleaned interaction log again, read back as raw rows, gives
   * it back unchanged: the student_vle cleaner is idempotent.
   */
  lemma AggregatedIdempotent(df: seq<StudentVleRaw>)
    ensures Aggregated(Seqs.Map(ToRaw, Aggregated(df))) == Aggregated(df)
  {
    AggregatedSorted(df);
    GroupedOfSorted(Aggregated(df));
    Seqs.FilterIdempotent(Positive, Grouped(df));
  }
}
