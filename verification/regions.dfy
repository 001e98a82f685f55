/** N-dimensional image regions: the index of the first pixel and the extent
    along each axis, the raster order in which a region iterator visits the
    pixels (axis 0 fastest), and the linear offset of a pixel in a buffer laid
    out over the region. */
module Regions {

  /** An N-dimensional pixel index. */
  type Index = seq<int>

  /** An image region: its first index and its size along each axis. */
  datatype Region = Region(start: Index, size: seq<nat>) {

    /** Index and size have the same dimension. */
    predicate Valid() {
      |start| == |size|
    }
  }

  /** Product of the extents; 1 for the zero-dimensional region. */
  function Product(s: seq<nat>): nat
  {
    if |s| == 0 then 1 else s[0] * Product(s[1..])
  }

  /** Number of pixels of a region. */
  function NumberOfPixels(r: Region): nat
  {
    Product(r.size)
  }

  /** The region dropped of its first axis. */
  function Tail(r: Region): (t: Region)
    requires r.Valid() && |r.size| > 0
    ensures t.Valid() && |t.size| == |r.size| - 1
  {
    Region(r.start[1..], r.size[1..])
  }

  /** The index lies inside the region on every axis. */
  predicate Contains(r: Region, idx: Index)
    requires r.Valid()
  {
    |idx| == |r.size| &&
    forall d :: 0 <= d < |idx| ==> r.start[d] <= idx[d] < r.start[d] + r.size[d]
  }

  /** Dividing a position within a product by its first factor stays within the rest. */
  lemma DivBelowProduct(k: nat, s: nat, p: nat)
    requires k < s * p
    ensures s > 0 && k / s < p
  {
  }

  /** A mixed-radix digit pair stays within the product. */
  lemma MixedRadixBound(a: nat, s: nat, o: nat, p: nat)
    requires a < s && o < p
    ensures a + s * o < s * p
  {
    assert s * o <= s * (p - 1);
  }

  /** A multiple of a positive s strictly between -s and s is zero. */
  lemma SmallMultipleIsZero(s: int, x: int)
    requires s > 0 && -s < s * x < s
    ensures x == 0
  {
  }

  /** Euclidean division recovers both digits of a mixed-radix pair. */
  lemma DivModMixedRadix(a: nat, s: nat, q: nat)
    requires a < s
    ensures (a + s * q) / s == q && (a + s * q) % s == a
  {
    var k := a + s * q;
    var q', a' := k / s, k % s;
    assert s * q' + a' == s * q + a;
    assert s * (q' - q) == a - a';
    SmallMultipleIsZero(s, q' - q);
  }

  /** The index of the k-th pixel a region iterator visits. */
  function IndexAt(r: Region, k: nat): (idx: Index)
    requires r.Valid() && k < NumberOfPixels(r)
    ensures Contains(r, idx)
    decreases |r.size|
  {
    if |r.size| == 0 then []
    else
      DivBelowProduct(k, r.size[0], Product(r.size[1..]));
      var rest := IndexAt(Tail(r), k / r.size[0]);
      var idx := [r.start[0] + k % r.size[0]] + rest;
      assert forall d :: 1 <= d < |idx| ==> idx[d] == rest[d - 1];
      idx
  }

  /** The linear offset of an index in a buffer laid out over the region. */
  function OffsetOf(r: Region, idx: Index): (k: nat)
    requires r.Valid() && Contains(r, idx)
    ensures k < NumberOfPixels(r)
    decreases |r.size|
  {
    if |r.size| == 0 then 0
    else
      assert Contains(Tail(r), idx[1..]) by {
        forall d | 0 <= d < |idx| - 1
          ensures r.start[d + 1] <= idx[1..][d] < r.start[d + 1] + r.size[d + 1]
        {
          assert idx[1..][d] == idx[d + 1];
        }
      }
      var rest := OffsetOf(Tail(r), idx[1..]);
      MixedRadixBound(idx[0] - r.start[0], r.size[0], rest, Product(r.size[1..]));
      (idx[0] - r.start[0]) + r.size[0] * rest
  }

  /** Visiting order and buffer layout agree: the k-th visited pixel sits at offset k. */
  lemma {:induction false} OffsetOfIndexAt(r: Region, k: nat)
    requires r.Valid() && k < NumberOfPixels(r)
    ensures OffsetOf(r, IndexAt(r, k)) == k
    decreases |r.size|
  {
    if |r.size| > 0 {
      DivBelowProduct(k, r.size[0], Product(r.size[1..]));
      var idx := IndexAt(r, k);
      assert idx[1..] == IndexAt(Tail(r), k / r.size[0]);
      OffsetOfIndexAt(Tail(r), k / r.size[0]);
    }
  }

  /** Every pixel of the region is visited: the pixel at offset OffsetOf(idx) is idx. */
  lemma {:induction false} IndexAtOffsetOf(r: Region, idx: Index)
    requires r.Valid() && Contains(r, idx)
    ensures IndexAt(r, OffsetOf(r, idx)) == idx
    decreases |r.size|
  {
    if |r.size| > 0 {
      var k := OffsetOf(r, idx);
      var s := r.size[0];
      var a := idx[0] - r.start[0];
      assert Contains(Tail(r), idx[1..]) by {
        forall d | 0 <= d < |idx| - 1
          ensures r.start[d + 1] <= idx[1..][d] < r.start[d + 1] + r.size[d + 1]
        {
          assert idx[1..][d] == idx[d + 1];
        }
      }
      var rest := OffsetOf(Tail(r), idx[1..]);
      assert k == a + s * rest;
      DivModMixedRadix(a, s, rest);
      IndexAtOffsetOf(Tail(r), idx[1..]);
      assert IndexAt(r, k) == [r.start[0] + a] + IndexAt(Tail(r), rest);
    }
  }
}
