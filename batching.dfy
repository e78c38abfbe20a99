/**
 * The batch slicing of the large fact tables:
 * `for i in range(0, len(data), batch_size): batch = data[i:i + batch_size]`.
 */
module Batching {

  function Min(a: int, b: int): int { if a <= b then a else b }

  /** The slices `data[i:i + size]` for `i` in `range(0, len(data), size)`, in order. */
  function Batches<T>(data: seq<T>, size: nat): (r: seq<seq<T>>)
    requires size > 0
    ensures forall k :: 0 <= k < |r| ==> 0 < |r[k]| <= size
    ensures data == [] <==> r == []
    decreases |data|
  {
    if data == [] then []
    else
      var k := Min(size, |data|);
      [data[..k]] + Batches(data[k..], size)
  }

  /** The concatenation of a list of batches. */
  function Concat<T>(bs: seq<seq<T>>): seq<T> {
    if bs == [] then [] else bs[0] + Concat(bs[1..])
  }

  /** Sending every batch sends every row exactly once, in order. */
  lemma {:induction false} BatchesConcat<T>(data: seq<T>, size: nat)
    requires size > 0
    ensures Concat(Batches(data, size)) == data
    decreases |data|
  {
    if data != [] {
      var k := Min(size, |data|);
      BatchesConcat(data[k..], size);
      var r := Batches(data, size);
      assert r[1..] == Batches(data[k..], size);
      assert data[..k] + data[k..] == data;
    }
  }

  /**
   * There are ceil(len / size) batches: the fewest batches of `size` rows that
   * can hold all of `data`.
   */
  lemma {:induction false} BatchesCount<T>(data: seq<T>, size: nat)
    requires size > 0
    ensures (|Batches(data, size)| - 1) * size < |data| <= |Batches(data, size)| * size
    decreases |data|
  {
    if data != [] {
      var k := Min(size, |data|);
      BatchesCount(data[k..], size);
      var m := |Batches(data[k..], size)|;
      assert |Batches(data, size)| == m + 1;
      assert (m + 1) * size == m * size + size;
    }
  }

  /** Batch number `j` is the slice `data[j * size : j * size + size]`. */
  lemma {:induction false} BatchAt<T>(data: seq<T>, size: nat, j: nat)
    requires size > 0
    ensures j < |Batches(data, size)| <==> j * size < |data|
    ensures j < |Batches(data, size)| ==>
      Batches(data, size)[j] == data[j * size..Min(j * size + size, |data|)]
    decreases |data|
  {
    if data != [] {
      var k := Min(size, |data|);
      var rest := data[k..];
      var r := Batches(data, size);
      var tail := Batches(rest, size);
      assert r == [data[..k]] + tail;
      if j > 0 {
        var j' := j - 1;
        BatchAt(rest, size, j');
        var i := j' * size;
        MulStep(j', size);
        assert |r| == 1 + |tail|;
        if j < |r| {
          assert r[j] == tail[j'];
        }
        if k < size {
          assert rest == [];
        } else {
          assert |rest| == |data| - size;
          if j * size < |data| {
            assert rest[i..Min(i + size, |rest|)] == data[j * size..Min(j * size + size, |data|)];
          }
        }
      }
    }
  }

  /**
   * One turn of `for i in range(0, len(data), size)`: the slice taken at
   * `i == j * size` is batch `j`, and the next `i` is in range exactly when
   * there is a batch `j + 1`.
   */
  lemma BatchNext<T>(data: seq<T>, size: nat, j: nat)
    requires size > 0 && j < |Batches(data, size)|
    ensures j * size < |data| && j * size + size == (j + 1) * size
    ensures Batches(data, size)[j] == data[j * size..Min(j * size + size, |data|)]
    ensures j + 1 < |Batches(data, size)| <==> j * size + size < |data|
  {
    BatchAt(data, size, j);
    BatchAt(data, size, j + 1);
    MulStep(j, size);
  }

  /** The first `j + 1` batches are the first `j` and then batch `j`. */
  lemma TakeNext<T>(bs: seq<seq<T>>, j: nat)
    requires j < |bs|
    ensures bs[..j + 1] == bs[..j] + [bs[j]]
  {
  }

  /** `(a + 1) * b` is `a * b + b`. */
  lemma MulStep(a: nat, b: nat)
    ensures a * b + b == (a + 1) * b
    ensures a * b >= 0
  {
  }

  /** Every batch but the last is full. */
  lemma {:induction false} BatchesFull<T>(data: seq<T>, size: nat)
    requires size > 0
    ensures forall k :: 0 <= k < |Batches(data, size)| - 1 ==> |Batches(data, size)[k]| == size
    decreases |data|
  {
    if data != [] {
      var k := Min(size, |data|);
      BatchesFull(data[k..], size);
      var r := Batches(data, size);
      assert r[1..] == Batches(data[k..], size);
      assert |r| > 1 ==> k == size;
    }
  }

  /** Appending one more batch appends its rows. */
  lemma {:induction false} ConcatSnoc<T>(bs: seq<seq<T>>)
    requires bs != []
    ensures Concat(bs) == Concat(bs[..|bs| - 1]) + bs[|bs| - 1]
    decreases |bs|
  {
    if |bs| > 1 {
      ConcatSnoc(bs[1..]);
      assert bs[1..][..|bs| - 2] == bs[..|bs| - 1][1..];
    }
  }

  /** Every row of every batch is a row of the data. */
  lemma {:induction false} BatchRowsFrom<T>(data: seq<T>, size: nat)
    requires size > 0
    ensures forall k, i :: 0 <= k < |Batches(data, size)| && 0 <= i < |Batches(data, size)[k]| ==>
      Batches(data, size)[k][i] in data
    decreases |data|
  {
    if data != [] {
      var n := Min(size, |data|);
      BatchRowsFrom(data[n..], size);
      var r := Batches(data, size);
      forall k, i | 0 <= k < |r| && 0 <= i < |r[k]| ensures r[k][i] in data {
        if k == 0 {
          assert r[0][i] == data[i];
        } else {
          assert r[k] == Batches(data[n..], size)[k - 1];
          assert r[k][i] in data[n..];
        }
      }
    }
  }
}
