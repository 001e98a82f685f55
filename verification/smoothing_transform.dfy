/** The displacement-field transform that Gaussian-smooths its update field
    and its total field. The convolution passes and the pixel-buffer swaps
    between them are external; what is modelled is the variance gating, the
    order of the update steps, the blend weight and the zeroing of the
    boundary. A field is one displacement vector per pixel of its region, in
    the order a region iterator visits the pixels. */
module SmoothingTransform {
  import opened Regions
  import opened RealArith

  /** A displacement vector, one component per image axis. */
  type Vector = seq<real>

  /** A displacement field: one vector per pixel of its region, in raster order. */
  type Field = seq<Vector>

  /** The transform's state: its total displacement field over a region and the two variances. */
  datatype SmoothingTransform = SmoothingTransform(
    displacementField: Field,
    region: Region,
    varianceForTheUpdateField: real,
    varianceForTheTotalField: real)

  /** The variance below which the smoothed value is blended with the field's value. */
  const FullWeightVariance: real := 0.5

  /** A fresh transform over a field, with the default variances. */
  function NewSmoothingTransform(field: Field, region: Region): (t: SmoothingTransform)
    ensures t.varianceForTheUpdateField == 3.0 && t.varianceForTheTotalField == 0.5
    ensures t.displacementField == field && t.region == region
  {
    SmoothingTransform(field, region, 3.0, 0.5)
  }

  /** The field has one vector per pixel and every vector has one component per axis. */
  predicate IsField(f: Field, region: Region)
    requires region.Valid()
  {
    |f| == NumberOfPixels(region) && forall k :: 0 <= k < |f| ==> |f[k]| == |region.size|
  }

  /** The zero vector of dimension n. */
  function Zero(n: nat): (v: Vector)
    ensures |v| == n && forall j :: 0 <= j < n ==> v[j] == 0.0
  {
    seq(n, j => 0.0)
  }

  /** A vector times a scalar. */
  function Scale(v: Vector, w: real): (r: Vector)
    ensures |r| == |v|
  {
    seq(|v|, j requires 0 <= j < |v| => v[j] * w)
  }

  /** The component-wise sum of two vectors of the same dimension. */
  function Add(a: Vector, b: Vector): (r: Vector)
    requires |a| == |b|
    ensures |r| == |a|
  {
    seq(|a|, j requires 0 <= j < |a| => a[j] + b[j])
  }

  /** The blend `a * w + b * (1 - w)`. */
  function Blend(a: Vector, b: Vector, w: real): (r: Vector)
    requires |a| == |b|
    ensures |r| == |a|
  {
    Add(Scale(a, w), Scale(b, 1.0 - w))
  }

  /** The weight of the smoothed value: 1 from a variance of 0.5 up, and
      falling linearly to 1 - variance / 0.5 below it. */
  function Weight(variance: real): (w: real)
    ensures variance >= FullWeightVariance ==> w == 1.0
    ensures 0.0 < variance < FullWeightVariance ==> 0.0 < w < 1.0
    ensures 0.0 < variance ==> 0.0 <= w <= 1.0 && 0.0 <= 1.0 - w <= 1.0
  {
    if variance < FullWeightVariance then 1.0 - 1.0 * (variance / FullWeightVariance) else 1.0
  }

  /** With full weight the blend is the smoothed value itself. */
  lemma {:induction false} FullWeightBlendIsSmoothed(a: Vector, b: Vector)
    requires |a| == |b|
    ensures Blend(a, b, 1.0) == a
  {
    var r := Blend(a, b, 1.0);
    forall j | 0 <= j < |a|
      ensures r[j] == a[j]
    {
      assert Scale(a, 1.0)[j] == a[j] * 1.0;
      assert Scale(b, 0.0)[j] == b[j] * 0.0;
    }
  }

  /** Each component of a blend with a weight in [0, 1] lies between the two
      inputs' components: it is the second moved towards the first by w, and
      the first moved towards the second by 1 - w. */
  lemma BlendIsConvex(a: Vector, b: Vector, w: real, j: nat)
    requires |a| == |b| && j < |a| && 0.0 <= w <= 1.0
    ensures a[j] <= b[j] ==> a[j] <= Blend(a, b, w)[j] <= b[j]
    ensures b[j] <= a[j] ==> b[j] <= Blend(a, b, w)[j] <= a[j]
  {
    var r := Blend(a, b, w);
    var x, y := a[j], b[j];
    assert r[j] == x * w + y * (1.0 - w);
    assert x * w + y * (1.0 - w) == y + (x - y) * w;
    assert x * w + y * (1.0 - w) == x - (x - y) * (1.0 - w);
    if x <= y {
      NonNegativeProduct(y - x, w);
      NonNegativeProduct(y - x, 1.0 - w);
    }
    if y <= x {
      NonNegativeProduct(x - y, w);
      NonNegativeProduct(x - y, 1.0 - w);
    }
  }

  /** A pixel is on the boundary when some coordinate is below 1 or at least its extent minus 1. */
  predicate OnBoundary(idx: Index, size: seq<nat>)
    requires |idx| == |size|
  {
    exists i :: 0 <= i < |size| && (idx[i] < 1 || idx[i] >= size[i] as int - 1)
  }

  /** The source's flag loop over the axes decides the boundary predicate. */
  method BoundaryFlag(idx: Index, size: seq<nat>) returns (onBoundary: bool)
    requires |idx| == |size|
    ensures onBoundary <==> OnBoundary(idx, size)
  {
    onBoundary := false;
    for i := 0 to |size|
      invariant onBoundary <==> exists d :: 0 <= d < i && (idx[d] < 1 || idx[d] >= size[d] as int - 1)
    {
      if idx[i] < 1 || idx[i] >= size[i] as int - 1 {
        onBoundary := true;
      }
    }
  }

  /** The external convolution, as functions of the field and the variance:
      the smoother's output image after the last directional pass, and the
      contents of the field's own pixel buffer after the container swaps. */
  datatype Smoother = Smoother(output: (Field, real) -> Field, current: (Field, real) -> Field)

  /** The smoother turns fields over the region into fields over the region. */
  ghost predicate SmootherPreservesShape(sm: Smoother, region: Region)
    requires region.Valid()
  {
    forall f, v :: IsField(f, region) ==> IsField(sm.output(f, v), region) && IsField(sm.current(f, v), region)
  }

  /** Smooth a field in place: unchanged for a non-positive variance; otherwise
      every boundary pixel becomes the zero vector and every interior pixel the
      blend of the smoother's output with the field buffer's current value. */
  function GaussianSmoothDisplacementField(field: Field, region: Region, variance: real, sm: Smoother): (r: Field)
    requires region.Valid() && IsField(field, region) && SmootherPreservesShape(sm, region)
    ensures IsField(r, region)
    ensures variance <= 0.0 ==> r == field
    ensures variance > 0.0 ==> forall k :: 0 <= k < |r| && OnBoundary(IndexAt(region, k), region.size) ==>
      r[k] == Zero(|region.size|)
    ensures variance > 0.0 ==> forall k :: 0 <= k < |r| && !OnBoundary(IndexAt(region, k), region.size) ==>
      r[k] == Blend(sm.output(field, variance)[k], sm.current(field, variance)[k], Weight(variance))
  {
    if variance <= 0.0 then field
    else
      var out := sm.output(field, variance);
      var current := sm.current(field, variance);
      var weight := Weight(variance);
      seq(|field|, k requires 0 <= k < |field| =>
        if OnBoundary(IndexAt(region, k), region.size) then Zero(|region.size|)
        else Blend(out[k], current[k], weight))
  }

  /** From a variance of 0.5 up an interior pixel takes the smoother's output
      exactly; below it, each component lies between that output and the
      buffer's current value. */
  lemma InteriorTakesSmoothedValue(field: Field, region: Region, variance: real, sm: Smoother, k: nat)
    requires region.Valid() && IsField(field, region) && SmootherPreservesShape(sm, region)
    requires k < |field| && !OnBoundary(IndexAt(region, k), region.size) && variance > 0.0
    ensures variance >= FullWeightVariance ==>
      GaussianSmoothDisplacementField(field, region, variance, sm)[k] == sm.output(field, variance)[k]
    ensures forall j :: 0 <= j < |region.size| ==>
      var s := sm.output(field, variance)[k][j];
      var c := sm.current(field, variance)[k][j];
      var r := GaussianSmoothDisplacementField(field, region, variance, sm)[k][j];
      (s <= c ==> s <= r <= c) && (c <= s ==> c <= r <= s)
  {
    var s := sm.output(field, variance)[k];
    var c := sm.current(field, variance)[k];
    if variance >= FullWeightVariance {
      FullWeightBlendIsSmoothed(s, c);
    }
    forall j | 0 <= j < |region.size|
      ensures var r := GaussianSmoothDisplacementField(field, region, variance, sm)[k][j];
        (s[j] <= c[j] ==> s[j] <= r <= c[j]) && (c[j] <= s[j] ==> c[j] <= r <= s[j])
    {
      BlendIsConvex(s, c, Weight(variance), j);
    }
  }

  /** The external superclass step that adds `factor` times the update to the total field. */
  type Adder = (Field, Field, real) -> Field

  /** The superclass step turns fields over the region into a field over the region. */
  ghost predicate AdderPreservesShape(add: Adder, region: Region)
    requires region.Valid()
  {
    forall a, b, factor :: IsField(a, region) && IsField(b, region) ==> IsField(add(a, b, factor), region)
  }

  /** The transform after an update, and the update buffer as the caller sees it afterwards. */
  datatype UpdateOutcome = UpdateOutcome(transform: SmoothingTransform, update: Field)

  /** Update the transform: smooth the update field if its variance is
      positive (overwriting the caller's update), add it to the total field
      with the superclass step, then smooth the total field if its variance is
      positive. */
  function UpdateTransformParameters(t: SmoothingTransform, update: Field, factor: real, sm: Smoother, add: Adder)
    : (r: UpdateOutcome)
    requires t.region.Valid() && IsField(t.displacementField, t.region) && IsField(update, t.region)
    requires SmootherPreservesShape(sm, t.region) && AdderPreservesShape(add, t.region)
    ensures IsField(r.update, t.region) && IsField(r.transform.displacementField, t.region)
    ensures r.transform == t.(displacementField := r.transform.displacementField)
    ensures r.update == GaussianSmoothDisplacementField(update, t.region, t.varianceForTheUpdateField, sm)
    ensures t.varianceForTheTotalField <= 0.0 ==>
      r.transform.displacementField == add(t.displacementField, r.update, factor)
    ensures t.varianceForTheTotalField > 0.0 ==>
      r.transform.displacementField ==
        GaussianSmoothDisplacementField(add(t.displacementField, r.update, factor), t.region,
                                        t.varianceForTheTotalField, sm)
  {
    var smoothUpdateField := t.varianceForTheUpdateField > 0.0;
    var u := if smoothUpdateField then GaussianSmoothDisplacementField(update, t.region, t.varianceForTheUpdateField, sm)
             else update;
    var total := add(t.displacementField, u, factor);
    var smoothTotalField := t.varianceForTheTotalField > 0.0;
    var total' := if smoothTotalField then GaussianSmoothDisplacementField(total, t.region, t.varianceForTheTotalField, sm)
                  else total;
    UpdateOutcome(t.(displacementField := total'), u)
  }

  /** With both variances non-positive an update is the superclass step alone. */
  lemma UnsmoothedUpdateIsPlainAdd(t: SmoothingTransform, update: Field, factor: real, sm: Smoother, add: Adder)
    requires t.region.Valid() && IsField(t.displacementField, t.region) && IsField(update, t.region)
    requires SmootherPreservesShape(sm, t.region) && AdderPreservesShape(add, t.region)
    requires t.varianceForTheUpdateField <= 0.0 && t.varianceForTheTotalField <= 0.0
    ensures UpdateTransformParameters(t, update, factor, sm, add) ==
      UpdateOutcome(t.(displacementField := add(t.displacementField, update, factor)), update)
  {
  }

  /** With a positive total-field variance (the default) the displacement
      field is zero on the boundary after every update, whatever the update. */
  lemma UpdatedFieldIsZeroOnBoundary(t: SmoothingTransform, update: Field, factor: real, sm: Smoother, add: Adder, k: nat)
    requires t.region.Valid() && IsField(t.displacementField, t.region) && IsField(update, t.region)
    requires SmootherPreservesShape(sm, t.region) && AdderPreservesShape(add, t.region)
    requires t.varianceForTheTotalField > 0.0
    requires k < NumberOfPixels(t.region) && OnBoundary(IndexAt(t.region, k), t.region.size)
    ensures UpdateTransformParameters(t, update, factor, sm, add).transform.displacementField[k] == Zero(|t.region.size|)
  {
  }

  /** The pixel is the first or the last of its line along axis d. */
  predicate LineEnd(idx: Index, region: Region, d: nat)
    requires region.Valid() && |idx| == |region.size| && d < |region.size|
  {
    idx[d] == region.start[d] || idx[d] == region.start[d] + region.size[d] as int - 1
  }

  /** Zero the first and the last pixel of every line along axis d. */
  function ZeroLineEndsAlong(f: Field, region: Region, d: nat): (r: Field)
    requires region.Valid() && |f| == NumberOfPixels(region) && d < |region.size|
    ensures |r| == |f|
  {
    seq(|f|, k requires 0 <= k < |f| =>
      if LineEnd(IndexAt(region, k), region, d) then Zero(|region.size|) else f[k])
  }

  /** Zero the line ends along axes 0, 1, ..., n - 1 in turn. */
  function ZeroLineEnds(f: Field, region: Region, n: nat): (r: Field)
    requires region.Valid() && |f| == NumberOfPixels(region) && n <= |region.size|
    ensures |r| == |f|
  {
    if n == 0 then f else ZeroLineEndsAlong(ZeroLineEnds(f, region, n - 1), region, n - 1)
  }

  /** Some axis below n has the pixel at a line end. */
  predicate AtSomeLineEnd(idx: Index, region: Region, n: nat)
    requires region.Valid() && |idx| == |region.size| && n <= |region.size|
  {
    exists d :: 0 <= d < n && LineEnd(idx, region, d)
  }

  /** Zeroing along axis d zeroes the k-th pixel exactly when it is a line end along d. */
  lemma ZeroedAlongAt(f: Field, region: Region, d: nat, k: nat)
    requires region.Valid() && |f| == NumberOfPixels(region) && d < |region.size| && k < |f|
    ensures ZeroLineEndsAlong(f, region, d)[k] == if LineEnd(IndexAt(region, k), region, d) then Zero(|region.size|) else f[k]
  {
  }

  /** A line end along some axis below n + 1 is one along some axis below n or along axis n. */
  lemma AtSomeLineEndStep(idx: Index, region: Region, n: nat)
    requires region.Valid() && |idx| == |region.size| && n < |region.size|
    ensures AtSomeLineEnd(idx, region, n + 1) <==> AtSomeLineEnd(idx, region, n) || LineEnd(idx, region, n)
  {
    if AtSomeLineEnd(idx, region, n + 1) && !LineEnd(idx, region, n) {
      var d :| 0 <= d < n + 1 && LineEnd(idx, region, d);
      assert d < n;
    }
  }

  /** After zeroing along the first n axes a pixel is zero exactly when it is a
      line end along one of them, and keeps its value otherwise. */
  lemma {:induction false} ZeroLineEndsMeaning(f: Field, region: Region, n: nat, k: nat)
    requires region.Valid() && |f| == NumberOfPixels(region) && n <= |region.size| && k < |f|
    ensures ZeroLineEnds(f, region, n)[k] == if AtSomeLineEnd(IndexAt(region, k), region, n) then Zero(|region.size|) else f[k]
    decreases n
  {
    if n > 0 {
      var previous := ZeroLineEnds(f, region, n - 1);
      ZeroLineEndsMeaning(f, region, n - 1, k);
      AtSomeLineEndStep(IndexAt(region, k), region, n - 1);
      ZeroedAlongAt(previous, region, n - 1, k);
    }
  }

  /** The alternative smoother: a fresh copy of the input is convolved (the
      convolution is external), blended with the untouched input with the same
      weight rule, and the first and last pixel of every line along every axis
      is set to zero. */
  function GaussianSmoothDisplacementFieldNick(input: Field, region: Region, variance: real, smooth: (Field, real) -> Field)
    : (r: Field)
    requires region.Valid() && IsField(input, region) && IsField(smooth(input, variance), region)
    ensures |r| == |input|
  {
    var smoothed := smooth(input, variance);
    var weight1 := Weight(variance);
    var blended := seq(|input|, k requires 0 <= k < |input| => Blend(smoothed[k], input[k], weight1));
    ZeroLineEnds(blended, region, |region.size|)
  }

  /** The alternative smoother's output: zero at every line end along any
      axis, and elsewhere the weighted sum of the smoothed copy and the
      original input. */
  lemma NickOutputMeaning(input: Field, region: Region, variance: real, smooth: (Field, real) -> Field, k: nat)
    requires region.Valid() && IsField(input, region) && IsField(smooth(input, variance), region)
    requires k < |input|
    ensures AtSomeLineEnd(IndexAt(region, k), region, |region.size|) ==>
      GaussianSmoothDisplacementFieldNick(input, region, variance, smooth)[k] == Zero(|region.size|)
    ensures !AtSomeLineEnd(IndexAt(region, k), region, |region.size|) ==>
      GaussianSmoothDisplacementFieldNick(input, region, variance, smooth)[k] ==
        Blend(smooth(input, variance)[k], input[k], Weight(variance))
  {
    var smoothed := smooth(input, variance);
    var blended := seq(|input|, k requires 0 <= k < |input| => Blend(smoothed[k], input[k], Weight(variance)));
    ZeroLineEndsMeaning(blended, region, |region.size|, k);
  }

  /** For a region starting at the origin, the pixels the alternative smoother
      zeroes are exactly the boundary pixels of the in-place smoother. */
  lemma LineEndsAreTheBoundary(region: Region, k: nat)
    requires region.Valid() && k < NumberOfPixels(region)
    requires forall d :: 0 <= d < |region.start| ==> region.start[d] == 0
    ensures AtSomeLineEnd(IndexAt(region, k), region, |region.size|) <==> OnBoundary(IndexAt(region, k), region.size)
  {
    var idx := IndexAt(region, k);
    if OnBoundary(idx, region.size) {
      var i :| 0 <= i < |region.size| && (idx[i] < 1 || idx[i] >= region.size[i] as int - 1);
      assert LineEnd(idx, region, i);
    }
    if AtSomeLineEnd(idx, region, |region.size|) {
      var d :| 0 <= d < |region.size| && LineEnd(idx, region, d);
      assert idx[d] < 1 || idx[d] >= region.size[d] as int - 1;
    }
  }
}
