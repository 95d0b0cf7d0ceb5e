/**
  Where an element of a multi-dimensional wave lives in memory
  (GetWaveIndexInMemory in HelperFunctions.cpp).
 */
module ColumnMajor {
  import opened Wrappers

  const MAX_DIMENSIONS: nat := 4

  datatype IndexError = NoWave | AssertionFailed | NotConvertible

  function Product(dims: seq<nat>): nat {
    if dims == [] then 1 else dims[0] * Product(dims[1..])
  }

  /** Number of points of a wave; a wave without dimensions has none. */
  function WavePoints(dims: seq<nat>): nat {
    if dims == [] then 0 else Product(dims)
  }

  predicate InRange(dims: seq<nat>, idx: seq<nat>) {
    |idx| == |dims| && forall i :: 0 <= i < |dims| ==> idx[i] < dims[i]
  }

  /** The first dimension varies fastest. */
  function Linear(dims: seq<nat>, idx: seq<nat>): nat
    requires |idx| == |dims|
  {
    if dims == [] then 0 else idx[0] + dims[0] * Linear(dims[1..], idx[1..])
  }

  /** Recovers the index tuple by repeated division. */
  function Delinear(dims: seq<nat>, k: nat): (idx: seq<nat>)
    requires k < Product(dims)
    ensures InRange(dims, idx)
  {
    if dims == [] then
      []
    else
      DivBelow(k, dims[0], Product(dims[1..]));
      [k % dims[0]] + Delinear(dims[1..], k / dims[0])
  }

  lemma {:induction false} MulMono(d: nat, a: nat, b: nat)
    requires a <= b
    ensures d * a <= d * b
  {
  }

  lemma {:induction false} DivBelow(k: nat, d: nat, p: nat)
    requires k < d * p
    ensures d > 0 && k / d < p
  {
    MulMono(d, p, if d > 0 && k / d >= p then k / d else p);
  }

  lemma {:induction false} LinearBelowProduct(dims: seq<nat>, idx: seq<nat>)
    requires InRange(dims, idx)
    ensures Linear(dims, idx) < Product(dims)
  {
    if dims != [] {
      LinearBelowProduct(dims[1..], idx[1..]);
      var l, p := Linear(dims[1..], idx[1..]), Product(dims[1..]);
      assert dims[0] * (l + 1) <= dims[0] * p;
      assert dims[0] * (l + 1) == dims[0] * l + dims[0];
    }
  }

  lemma {:induction false} DelinearLinear(dims: seq<nat>, idx: seq<nat>)
    requires InRange(dims, idx)
    ensures Linear(dims, idx) < Product(dims) && Delinear(dims, Linear(dims, idx)) == idx
  {
    LinearBelowProduct(dims, idx);
    if dims != [] {
      DelinearLinear(dims[1..], idx[1..]);
      var d, r, l := dims[0], idx[0], Linear(dims[1..], idx[1..]);
      DivModUnique(d, r, l);
      assert idx == [idx[0]] + idx[1..];
    }
  }

  lemma {:induction false} DivModUnique(d: nat, r: nat, l: nat)
    requires r < d
    ensures (r + d * l) % d == r && (r + d * l) / d == l
  {
    var q := (r + d * l) / d;
    assert r + d * l == d * q + (r + d * l) % d;
    MulMono(d, l + 1, if q > l then q else l + 1);
    MulMono(d, q, if q < l then l - 1 else q);
    assert d * (l + 1) == d * l + d;
    assert l > 0 ==> d * (l - 1) == d * l - d;
  }

  lemma {:induction false} LinearDelinear(dims: seq<nat>, k: nat)
    requires k < Product(dims)
    ensures Linear(dims, Delinear(dims, k)) == k
  {
    if dims != [] {
      DivBelow(k, dims[0], Product(dims[1..]));
      LinearDelinear(dims[1..], k / dims[0]);
      var rest := Delinear(dims[1..], k / dims[0]);
      assert Delinear(dims, k)[1..] == rest;
    }
  }

  /** Main result: in-range tuples and memory positions correspond one to one. */
  lemma {:induction false} ColumnMajorBijection(dims: seq<nat>)
    ensures forall idx :: InRange(dims, idx) ==> Linear(dims, idx) < Product(dims)
    ensures forall a, b :: InRange(dims, a) && InRange(dims, b) && Linear(dims, a) == Linear(dims, b) ==> a == b
    ensures forall k: nat :: k < Product(dims) ==>
      InRange(dims, Delinear(dims, k)) && Linear(dims, Delinear(dims, k)) == k
  {
    forall idx | InRange(dims, idx)
      ensures Linear(dims, idx) < Product(dims)
    {
      LinearBelowProduct(dims, idx);
    }
    forall a, b | InRange(dims, a) && InRange(dims, b) && Linear(dims, a) == Linear(dims, b)
      ensures a == b
    {
      DelinearLinear(dims, a);
      DelinearLinear(dims, b);
    }
    forall k: nat | k < Product(dims)
      ensures InRange(dims, Delinear(dims, k)) && Linear(dims, Delinear(dims, k)) == k
    {
      LinearDelinear(dims, k);
    }
  }

  lemma {:induction false} ProductSplit(dims: seq<nat>, k: nat)
    requires k <= |dims|
    ensures Product(dims) == Product(dims[..k]) * Product(dims[k..])
  {
    if k == 0 {
      assert dims[0..] == dims;
    } else {
      ProductSplit(dims[1..], k - 1);
      assert dims[..k][1..] == dims[1..][..k - 1];
      assert dims[k..] == dims[1..][k - 1..];
      MulAssoc(dims[0], Product(dims[1..][..k - 1]), Product(dims[k..]));
    }
  }

  lemma {:induction false} MulAssoc(a: nat, b: nat, c: nat)
    ensures a * (b * c) == (a * b) * c
  {
  }

  lemma {:induction false} ProductPositive(dims: seq<nat>)
    requires forall i :: 0 <= i < |dims| ==> dims[i] > 0
    ensures Product(dims) > 0
  {
    if dims != [] {
      ProductPositive(dims[1..]);
    }
  }

  /**
    Neither accumulator of the loop in GetWaveIndexInMemory ever exceeds the number of points,
    so no intermediate value wraps when the number of points fits into size_t.
   */
  lemma {:induction false} PartialProductsBounded(dims: seq<nat>, idx: seq<nat>, k: nat)
    requires InRange(dims, idx) && k <= |dims|
    ensures Product(dims[..k]) <= Product(dims)
    ensures Linear(dims[..k], idx[..k]) < Product(dims)
  {
    ProductPositive(dims[k..]);
    ProductSplit(dims, k);
    LinearBelowProduct(dims[..k], idx[..k]);
    MulMono(Product(dims[..k]), 1, Product(dims[k..]));
  }

  lemma {:induction false} LinearSnoc(dims: seq<nat>, idx: seq<nat>, d: nat, x: nat)
    requires |dims| == |idx|
    ensures Linear(dims + [d], idx + [x]) == Linear(dims, idx) + Product(dims) * x
    ensures Product(dims + [d]) == Product(dims) * d
  {
    if dims == [] {
      assert [] + [d] == [d] && [] + [x] == [x] && [d][1..] == [] && [x][1..] == [];
    } else {
      LinearSnoc(dims[1..], idx[1..], d, x);
      assert (dims + [d])[1..] == dims[1..] + [d] && (idx + [x])[1..] == idx[1..] + [x];
      MulAssoc(dims[0], Product(dims[1..]), x);
      MulAssoc(dims[0], Product(dims[1..]), d);
      Distribute(dims[0], Linear(dims[1..], idx[1..]), Product(dims[1..]) * x);
    }
  }

  lemma {:induction false} Distribute(a: nat, b: nat, c: nat)
    ensures a * (b + c) == a * b + a * c
  {
  }

  /** The index by numbers of dimensions: rows lie next to each other, then columns, layers and chunks. */
  lemma {:induction false} IndexFormula(a: nat, b: nat, c: nat, d: nat, i: nat, j: nat, k: nat, l: nat)
    ensures Linear([a], [i]) == i && Product([a]) == a
    ensures Linear([a, b], [i, j]) == i + a * j && Product([a, b]) == a * b
    ensures Linear([a, b, c], [i, j, k]) == i + a * j + a * b * k && Product([a, b, c]) == a * b * c
    ensures Linear([a, b, c, d], [i, j, k, l]) == i + a * j + a * b * k + a * b * c * l
    ensures Product([a, b, c, d]) == a * b * c * d
    ensures WavePoints([]) == 0 && WavePoints([a]) == a && WavePoints([a, b]) == a * b
  {
    LinearSnoc([], [], a, i);
    LinearSnoc([a], [i], b, j);
    LinearSnoc([a, b], [i, j], c, k);
    LinearSnoc([a, b, c], [i, j, k], d, l);
    assert [] + [a] == [a] && [] + [i] == [i] && [a] + [b] == [a, b] && [i] + [j] == [i, j];
    assert [a, b] + [c] == [a, b, c] && [i, j] + [k] == [i, j, k];
    assert [a, b, c] + [d] == [a, b, c, d] && [i, j, k] + [l] == [i, j, k, l];
  }

  /** The tuple the first |sizes| entries of `dims` denote, once they are known to be in range. */
  function Tuple(dims: seq<int>, n: nat): (idx: seq<nat>)
    requires n <= |dims| && forall i :: 0 <= i < n ==> 0 <= dims[i]
    ensures |idx| == n && forall i :: 0 <= i < n ==> idx[i] == dims[i]
  {
    seq(n, i requires 0 <= i < n => dims[i] as nat)
  }

  /** `wave` is None for a null wave handle and holds the dimension sizes otherwise. */
  method GetWaveIndexInMemory(wave: Option<seq<nat>>, dims: seq<int>) returns (r: Result<nat, IndexError>)
    requires wave.Some? ==> |wave.value| <= MAX_DIMENSIONS
    ensures r.Success? <==>
      && wave.Some? && |dims| == MAX_DIMENSIONS
      && forall i :: 0 <= i < |wave.value| ==> 0 <= dims[i] < wave.value[i]
    ensures r.Success? ==>
      && r.value == Linear(wave.value, Tuple(dims, |wave.value|))
      && r.value < Product(wave.value)
    ensures wave.None? ==> r == Failure(NoWave)
    ensures wave.Some? && r == Failure(NotConvertible) ==> exists i :: 0 <= i < |dims| && dims[i] < 0
  {
    if wave.None? {
      return Failure(NoWave);
    }
    if |dims| != MAX_DIMENSIONS {
      return Failure(AssertionFailed);
    }
    var dimSizes := wave.value;
    var index, i, block := 0, 0, 1;
    while i < |dimSizes|
      invariant 0 <= i <= |dimSizes|
      invariant forall j :: 0 <= j < i ==> 0 <= dims[j] < dimSizes[j]
      invariant block == Product(dimSizes[..i])
      invariant index == Linear(dimSizes[..i], Tuple(dims, i))
    {
      if dims[i] < 0 {
        return Failure(NotConvertible);
      }
      var dimIndex: nat := dims[i];
      if dimIndex >= dimSizes[i] {
        return Failure(AssertionFailed);
      }
      LinearSnoc(dimSizes[..i], Tuple(dims, i), dimSizes[i], dimIndex);
      assert dimSizes[..i] + [dimSizes[i]] == dimSizes[..i + 1];
      assert Tuple(dims, i) + [dimIndex] == Tuple(dims, i + 1);
      index := index + block * dimIndex;
      block := block * dimSizes[i];
      i := i + 1;
    }
    assert dimSizes[..i] == dimSizes;
    LinearBelowProduct(dimSizes, Tuple(dims, i));
    r := Success(index);
  }
}
