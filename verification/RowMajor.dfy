/** Dense tensors as candle lays them out: a shape and one row-major buffer. A reshape keeps the buffer, a
    permutation of the axes moves every element to the place its permuted index names. */
module RowMajor {
  import opened Division

  function Product(shape: seq<nat>): nat {
    if shape == [] then 1 else Product(shape[..|shape| - 1]) * shape[|shape| - 1]
  }

  predicate InShape(shape: seq<nat>, index: seq<nat>) {
    |index| == |shape| && forall d | 0 <= d < |shape| :: index[d] < shape[d]
  }

  /** Where the buffer holds the element at `index`. */
  function Encode(shape: seq<nat>, index: seq<nat>): nat
    requires |index| == |shape|
  {
    if shape == [] then 0
    else
      var n := |shape| - 1;
      Encode(shape[..n], index[..n]) * shape[n] + index[n]
  }

  /** The index of the buffer's k-th element. */
  function Decode(shape: seq<nat>, k: nat): (index: seq<nat>)
    ensures |index| == |shape|
  {
    if shape == [] then []
    else
      var n := |shape| - 1;
      if shape[n] == 0 then seq(n + 1, _ => 0)
      else Decode(shape[..n], Quotient(k, shape[n])) + [k % shape[n]]
  }

  function Quotient(k: nat, b: nat): (q: nat)
    requires b > 0
    ensures k == q * b + k % b
  {
    k / b
  }

  lemma {:induction false} EncodedWithin(shape: seq<nat>, index: seq<nat>)
    requires InShape(shape, index)
    ensures Encode(shape, index) < Product(shape)
  {
    if shape != [] {
      var n := |shape| - 1;
      EncodedWithin(shape[..n], index[..n]);
      Monotone(Encode(shape[..n], index[..n]) + 1, Product(shape[..n]), shape[n]);
      Distribute(Encode(shape[..n], index[..n]), 1, shape[n]);
    }
  }

  /** Decoding undoes encoding. */
  lemma {:induction false} DecodeOfEncode(shape: seq<nat>, index: seq<nat>)
    requires InShape(shape, index)
    ensures Decode(shape, Encode(shape, index)) == index
  {
    if shape != [] {
      var n := |shape| - 1;
      DecodeOfEncode(shape[..n], index[..n]);
      QuotientIsUnique(Encode(shape, index), shape[n], Encode(shape[..n], index[..n]), index[n]);
    }
  }

  lemma QuotientWithin(k: nat, p: nat, b: nat)
    requires k < p * b
    ensures b > 0 && k / b < p
  {
    assert b == 0 ==> p * b == 0;
    if k / b >= p {
      Monotone(p, k / b, b);
    }
  }

  /** Encoding undoes decoding, and every element's index lies in the shape. */
  lemma {:induction false} EncodeOfDecode(shape: seq<nat>, k: nat)
    requires k < Product(shape)
    ensures InShape(shape, Decode(shape, k))
    ensures Encode(shape, Decode(shape, k)) == k
  {
    if shape != [] {
      var n := |shape| - 1;
      QuotientWithin(k, Product(shape[..n]), shape[n]);
      EncodeOfDecode(shape[..n], k / shape[n]);
      assert Decode(shape, k)[..n] == Decode(shape[..n], k / shape[n]);
    }
  }

  // ---------- one axis at a time ----------

  /** One more innermost axis: every element becomes a run of `b`. */
  lemma InnerAxis(shape: seq<nat>, index: seq<nat>, b: nat, i: nat)
    requires |index| == |shape|
    ensures Product(shape + [b]) == Product(shape) * b
    ensures Encode(shape + [b], index + [i]) == Encode(shape, index) * b + i
  {
    assert (shape + [b])[..|shape|] == shape;
    assert (index + [i])[..|shape|] == index;
  }

  lemma DecodeInnerAxis(shape: seq<nat>, b: nat, q: nat, r: nat)
    requires r < b
    ensures Decode(shape + [b], q * b + r) == Decode(shape, q) + [r]
  {
    QuotientIsUnique(q * b + r, b, q, r);
    assert (shape + [b])[..|shape|] == shape;
  }

  lemma NoAxes()
    ensures Product([]) == 1 && Encode([], []) == 0
  {
  }

  lemma OneAxis(a: nat, i: nat)
    ensures Product([a]) == a && Encode([a], [i]) == i
  {
    hide Product, Encode;
    NoAxes();
    InnerAxis([], [], a, i);
    assert [] + [a] == [a] && [] + [i] == [i];
  }

  lemma TwoAxes(a: nat, b: nat, i: nat, j: nat)
    ensures Product([a, b]) == a * b && Encode([a, b], [i, j]) == i * b + j
  {
    hide Product, Encode;
    OneAxis(a, i);
    InnerAxis([a], [i], b, j);
    assert [a] + [b] == [a, b] && [i] + [j] == [i, j];
  }

  lemma ThreeAxes(a: nat, b: nat, c: nat, i: nat, j: nat, k: nat)
    ensures Product([a, b, c]) == a * b * c && Encode([a, b, c], [i, j, k]) == (i * b + j) * c + k
  {
    hide Product, Encode;
    TwoAxes(a, b, i, j);
    InnerAxis([a, b], [i, j], c, k);
    assert [a, b] + [c] == [a, b, c] && [i, j] + [k] == [i, j, k];
  }

  /** A new leading axis numbers whole copies of the rest. */
  lemma {:induction false} DecodeLeading(t: nat, rest: seq<nat>, a: nat, j: nat)
    requires j < Product(rest) && a < t
    ensures Decode([t] + rest, a * Product(rest) + j) == [a] + Decode(rest, j)
  {
    if rest == [] {
      DecodeAlone(t, a, j);
    } else {
      hide Product, Decode;
      var init, b := rest[..|rest| - 1], rest[|rest| - 1];
      ProductUnrolls(rest);
      var q, r := Split(j, Product(init), b);
      DecodeLeading(t, init, a, q);
      DecodeLeadingStep(t, init, b, a * Product(init) + q, a, q, r);
      CopiesOfRows(a, Product(init), b, q, r);
      assert rest == init + [b];
    }
  }

  lemma DecodeAlone(t: nat, a: nat, j: nat)
    requires j < Product([]) && a < t
    ensures Decode([t] + [], a * Product([]) + j) == [a] + Decode([], j)
  {
    QuotientIsUnique(a, t, 0, a);
    assert ([t] + [])[..0] == [];
  }

  lemma DecodeLeadingStep(t: nat, init: seq<nat>, b: nat, k: nat, a: nat, q: nat, r: nat)
    requires r < b && Decode([t] + init, k) == [a] + Decode(init, q)
    ensures Decode([t] + (init + [b]), k * b + r) == [a] + Decode(init + [b], q * b + r)
  {
    hide Decode;
    DecodeInnerAxis([t] + init, b, k, r);
    DecodeInnerAxis(init, b, q, r);
    assert [t] + init + [b] == [t] + (init + [b]);
  }

  lemma Split(j: nat, p: nat, b: nat) returns (q: nat, r: nat)
    requires j < p * b
    ensures r < b && q < p && j == q * b + r
  {
    QuotientWithin(j, p, b);
    q, r := j / b, j % b;
  }

  lemma ProductUnrolls(shape: seq<nat>)
    requires shape != []
    ensures Product(shape) == Product(shape[..|shape| - 1]) * shape[|shape| - 1]
  {
  }

  lemma CopiesOfRows(a: nat, p: nat, b: nat, q: nat, r: nat)
    ensures a * (p * b) + (q * b + r) == (a * p + q) * b + r
  {
    Distribute(a * p, q, b);
    Associate(a, p, b);
  }

  lemma Associate(a: int, p: int, b: int)
    ensures a * (p * b) == a * p * b
  {
  }

  datatype Tensor<+T> = Tensor(shape: seq<nat>, data: seq<T>)

  predicate Whole<T>(x: Tensor<T>) {
    |x.data| == Product(x.shape)
  }

  function Reshaped<T>(x: Tensor<T>, shape: seq<nat>): Tensor<T> {
    Tensor(shape, x.data)
  }

  /** Every axis is named exactly once. */
  ghost predicate IsPermutation(axes: seq<nat>) {
    && (forall d | 0 <= d < |axes| :: axes[d] < |axes|)
    && (forall d, e | 0 <= d < e < |axes| :: axes[d] != axes[e])
    && (forall e: nat | e < |axes| :: e in axes)
  }

  /** The shape after putting old axis `axes[d]` at place `d`. */
  function Along(axes: seq<nat>, shape: seq<nat>): seq<nat>
    requires forall d | 0 <= d < |axes| :: axes[d] < |shape|
  {
    seq(|axes|, d requires 0 <= d < |axes| => shape[axes[d]])
  }

  /** The place axis `e` was moved to. */
  function PlaceOf(axes: seq<nat>, e: nat): (d: nat)
    requires e in axes
    ensures d < |axes| && axes[d] == e
  {
    if axes[0] == e then 0 else 1 + PlaceOf(axes[1..], e)
  }

  /** The old index of the element now at `index`. */
  function Back(axes: seq<nat>, index: seq<nat>): seq<nat>
    requires IsPermutation(axes) && |index| == |axes|
  {
    seq(|axes|, e requires 0 <= e < |axes| => index[PlaceOf(axes, e)])
  }

  /** Where the old buffer holds what the permuted buffer holds at `k`. */
  function Source(shape: seq<nat>, axes: seq<nat>, k: nat): (r: nat)
    requires IsPermutation(axes) && |axes| == |shape| && k < Product(Along(axes, shape))
    ensures r < Product(shape)
  {
    EncodeOfDecode(Along(axes, shape), k);
    var index := Back(axes, Decode(Along(axes, shape), k));
    EncodedWithin(shape, index);
    Encode(shape, index)
  }

  function Permuted<T>(x: Tensor<T>, axes: seq<nat>): Tensor<T>
    requires Whole(x) && IsPermutation(axes) && |axes| == |x.shape|
  {
    Tensor(Along(axes, x.shape),
           seq(Product(Along(axes, x.shape)),
               k requires 0 <= k < Product(Along(axes, x.shape)) => x.data[Source(x.shape, axes, k)]))
  }
}
