/** The registration parameter-scale estimator base: input validation,
    selection of the transform whose scales are estimated, squared Jacobian
    column norms, and the three strategies for sampling the virtual image
    domain. Transforms, images and their geometry are external and enter as
    the opaque functions of a `Geometry`. */
module ScaleEstimator {
  import opened Wrappers
  import opened Regions

  /** A double-precision value: a number, or not-a-number. */
  datatype Float = Number(value: real) | NaN

  /** The source's `x != x` test, which holds exactly for NaN. */
  predicate IsNaN(x: Float)
  {
    x.NaN?
  }

  /** Some parameter of the vector is NaN. */
  predicate HasNaN(parameters: seq<Float>)
  {
    exists p :: 0 <= p < |parameters| && IsNaN(parameters[p])
  }

  /** A physical point. */
  type Point = seq<real>

  /** A continuous (sub-pixel) index. */
  type ContinuousIndex = seq<real>

  /** An image, as far as the estimator looks at it: its identity and its largest possible region. */
  datatype Image = Image(id: nat, largest: Region)

  /** A transform: its identity and its parameter vector. */
  datatype Transform = Transform(id: nat, parameters: seq<Float>)

  /** The metric the estimator reads its images and transforms from; a null pointer is `None`. */
  datatype Metric = Metric(
    fixedImage: Option<Image>,
    movingImage: Option<Image>,
    virtualDomainImage: Option<Image>,
    movingTransform: Option<Transform>,
    fixedTransform: Option<Transform>)

  /** How the virtual domain is sampled. */
  datatype SamplingStrategy = SamplingWithCorners | SamplingWithRandom | SamplingWithFullDomain

  /** The estimator's state. The two image dimensions are template constants.
      `randomSamplings` counts the random samplings made so far: it stands for
      the state of the random number generator the random iterator draws
      from, which each random sampling advances. */
  datatype Estimator = Estimator(
    metric: Option<Metric>,
    transformForward: bool,
    samplingStrategy: SamplingStrategy,
    numberOfRandomSamples: nat,
    fixedImage: Option<Image>,
    movingImage: Option<Image>,
    virtualImage: Option<Image>,
    movingTransform: Option<Transform>,
    fixedTransform: Option<Transform>,
    imageSamples: seq<Point>,
    movingImageDimension: nat,
    fixedImageDimension: nat,
    randomSamplings: nat)

  /** The external toolkit's geometry, taken as given functions:
      index to physical point of an image, a transform followed by the
      physical-point-to-continuous-index conversion of an image, the Euclidean
      distance of two continuous indices, the Jacobian of a transform with
      respect to its parameters at a point (rows are output dimensions), the
      index a random iterator yields at its i-th step given the generator's
      state (the number of random samplings made before it), and the natural
      logarithm. */
  datatype Geometry = Geometry(
    indexToPoint: (Image, Index) -> Point,
    mapToIndex: (Transform, Image, Point) -> ContinuousIndex,
    distance: (ContinuousIndex, ContinuousIndex) -> real,
    jacobian: (Transform, Point) -> seq<seq<real>>,
    randomIndex: (nat, nat) -> Index,
    log: real -> real)

  /** The exceptions the estimator throws. */
  datatype EstimatorError = MetricIsNull | ImageIsNull | TransformIsNull | ParameterIsNaN

  /** Below this many pixels a random sampling takes every pixel (the estimator's class constant). */
  const SizeOfSmallDomain: nat := 1000

  /** A fresh estimator, with the sampling strategy its subclass chooses:
      forward (moving-transform) estimation, a random-sample count of 0 and
      every pointer null. */
  function NewEstimator(strategy: SamplingStrategy, movingDimension: nat, fixedDimension: nat): (e: Estimator)
    ensures e.transformForward && e.numberOfRandomSamples == 0 && e.samplingStrategy == strategy
    ensures e.metric.None? && e.fixedImage.None? && e.movingImage.None? && e.virtualImage.None?
    ensures e.movingTransform.None? && e.fixedTransform.None?
  {
    Estimator(None, true, strategy, 0, None, None, None, None, None, [], movingDimension, fixedDimension, 0)
  }

  /** The transform whose scales are estimated: the moving one when estimating forward. */
  function GetTransform(e: Estimator): Option<Transform>
  {
    if e.transformForward then e.movingTransform else e.fixedTransform
  }

  /** The image the selected transform maps into. */
  function SelectedImage(e: Estimator): Option<Image>
  {
    if e.transformForward then e.movingImage else e.fixedImage
  }

  /** The dimension of the image the selected transform maps into. */
  function GetImageDimension(e: Estimator): nat
  {
    if e.transformForward then e.movingImageDimension else e.fixedImageDimension
  }

  /** The transform, its target image and its dimension are chosen from the same side. */
  lemma SelectionIsOneSided(e: Estimator)
    ensures e.transformForward ==>
      GetTransform(e) == e.movingTransform && SelectedImage(e) == e.movingImage &&
      GetImageDimension(e) == e.movingImageDimension
    ensures !e.transformForward ==>
      GetTransform(e) == e.fixedTransform && SelectedImage(e) == e.fixedImage &&
      GetImageDimension(e) == e.fixedImageDimension
  {
  }

  /** Every input the estimation needs is present and the selected parameters are numbers. */
  predicate InputsComplete(m: Metric, forward: bool)
  {
    && m.fixedImage.Some? && m.movingImage.Some? && m.virtualDomainImage.Some?
    && m.movingTransform.Some? && m.fixedTransform.Some?
    && !HasNaN(if forward then m.movingTransform.value.parameters else m.fixedTransform.value.parameters)
  }

  /** Copy images and transforms out of the metric, throwing on the first
      missing input or NaN parameter. The images are copied before the image
      check and the transforms before the transform check, so a throw leaves
      what was copied so far in the state. */
  function CheckAndSetInputs(e: Estimator): (r: (Estimator, Result<bool, EstimatorError>))
    ensures r.1.Success? <==> e.metric.Some? && InputsComplete(e.metric.value, e.transformForward)
    ensures r.1.Success? ==> r.1.value
    ensures r.1 == Failure(MetricIsNull) <==> e.metric.None?
    ensures r.1 == Failure(ImageIsNull) <==>
      e.metric.Some? &&
      (e.metric.value.fixedImage.None? || e.metric.value.movingImage.None? || e.metric.value.virtualDomainImage.None?)
    ensures r.1 == Failure(TransformIsNull) <==>
      e.metric.Some? &&
      e.metric.value.fixedImage.Some? && e.metric.value.movingImage.Some? && e.metric.value.virtualDomainImage.Some? &&
      (e.metric.value.movingTransform.None? || e.metric.value.fixedTransform.None?)
    ensures r.1.Success? ==>
      var m := e.metric.value;
      r.0 == e.(fixedImage := m.fixedImage, movingImage := m.movingImage, virtualImage := m.virtualDomainImage,
                movingTransform := m.movingTransform, fixedTransform := m.fixedTransform)
    ensures r.0.metric == e.metric && r.0.transformForward == e.transformForward
    ensures r.0.samplingStrategy == e.samplingStrategy && r.0.imageSamples == e.imageSamples
    ensures r.0.numberOfRandomSamples == e.numberOfRandomSamples
  {
    if e.metric.None? then (e, Failure(MetricIsNull))
    else
      var m := e.metric.value;
      var e1 := e.(fixedImage := m.fixedImage, movingImage := m.movingImage, virtualImage := m.virtualDomainImage);
      if e1.fixedImage.None? || e1.movingImage.None? || e1.virtualImage.None? then (e1, Failure(ImageIsNull))
      else
        var e2 := e1.(movingTransform := m.movingTransform, fixedTransform := m.fixedTransform);
        if e2.movingTransform.None? || e2.fixedTransform.None? then (e2, Failure(TransformIsNull))
        else
          var parameters := GetTransform(e2).value.parameters;
          if HasNaN(parameters) then (e2, Failure(ParameterIsNaN))
          else (e2, Success(true))
  }

  /** A successful check makes the selected transform the metric's moving
      transform when estimating forward, its fixed transform otherwise. */
  lemma CheckedTransformComesFromMetric(e: Estimator)
    requires CheckAndSetInputs(e).1.Success?
    ensures GetTransform(CheckAndSetInputs(e).0) ==
      (if e.transformForward then e.metric.value.movingTransform else e.metric.value.fixedTransform)
    ensures GetTransform(CheckAndSetInputs(e).0).Some? && SelectedImage(CheckAndSetInputs(e).0).Some?
    ensures CheckAndSetInputs(e).0.virtualImage == e.metric.value.virtualDomainImage
  {
  }

  /** A fresh estimator given a complete metric estimates the moving transform's scales. */
  lemma FreshEstimatorSelectsMovingTransform(strategy: SamplingStrategy, md: nat, fd: nat, m: Metric)
    requires InputsComplete(m, true)
    ensures var r := CheckAndSetInputs(NewEstimator(strategy, md, fd).(metric := Some(m)));
      r.1.Success? && GetTransform(r.0) == m.movingTransform && GetImageDimension(r.0) == md
  {
  }

  /** Sum over the first `dim` rows of the squared entries of column p. */
  function ColumnSquaredNorm(jacobian: seq<seq<real>>, p: nat, dim: nat): (s: real)
    requires dim <= |jacobian| && forall d :: 0 <= d < dim ==> p < |jacobian[d]|
    ensures s >= 0.0
  {
    if dim == 0 then 0.0
    else ColumnSquaredNorm(jacobian, p, dim - 1) + jacobian[dim - 1][p] * jacobian[dim - 1][p]
  }

  /** The Jacobian has at least `dim` rows of at least `numPara` entries. */
  predicate JacobianShape(jacobian: seq<seq<real>>, dim: nat, numPara: nat)
  {
    dim <= |jacobian| && forall d :: 0 <= d < dim ==> numPara <= |jacobian[d]|
  }

  /** The squared norm of each Jacobian column of the selected transform at a point. */
  method ComputeSquaredJacobianNorms(e: Estimator, g: Geometry, point: Point) returns (squareNorms: seq<real>)
    requires GetTransform(e).Some?
    requires JacobianShape(g.jacobian(GetTransform(e).value, point), GetImageDimension(e),
                           |GetTransform(e).value.parameters|)
    ensures |squareNorms| == |GetTransform(e).value.parameters|
    ensures forall p :: 0 <= p < |squareNorms| ==>
      squareNorms[p] == ColumnSquaredNorm(g.jacobian(GetTransform(e).value, point), p, GetImageDimension(e))
    ensures forall p :: 0 <= p < |squareNorms| ==> squareNorms[p] >= 0.0
  {
    var transform := GetTransform(e).value;
    var numPara := |transform.parameters|;
    var dim := GetImageDimension(e);
    var jacobian := g.jacobian(transform, point);
    squareNorms := [];
    for p := 0 to numPara
      invariant |squareNorms| == p
      invariant forall q :: 0 <= q < p ==> squareNorms[q] == ColumnSquaredNorm(jacobian, q, dim)
    {
      var norm := 0.0;
      for d := 0 to dim
        invariant norm == ColumnSquaredNorm(jacobian, p, d)
      {
        norm := norm + jacobian[d][p] * jacobian[d][p];
      }
      squareNorms := squareNorms + [norm];
    }
  }

  /** 2 to the n: the number of corners of an n-dimensional region. */
  function Pow2(n: nat): (r: nat)
    ensures r >= 1
  {
    if n == 0 then 1 else 2 * Pow2(n - 1)
  }

  /** Bit d of i, the source's `(i & (1 << d)) != 0`. */
  function Bit(i: nat, d: nat): (b: nat)
    ensures b == 0 || b == 1
  {
    if d == 0 then i % 2 else Bit(i / 2, d - 1)
  }

  /** Two distinct numbers below 2^n differ in one of their n low bits. */
  lemma {:induction false} BitsDistinguish(i: nat, j: nat, n: nat)
    requires i != j && i < Pow2(n) && j < Pow2(n)
    ensures exists d :: 0 <= d < n && Bit(i, d) != Bit(j, d)
  {
    if i % 2 != j % 2 {
      assert Bit(i, 0) != Bit(j, 0);
    } else {
      assert i / 2 != j / 2;
      BitsDistinguish(i / 2, j / 2, n - 1);
      var d :| 0 <= d < n - 1 && Bit(i / 2, d) != Bit(j / 2, d);
      assert Bit(i, d + 1) != Bit(j, d + 1);
    }
  }

  /** Corner i: along axis d the first index, or the last one when bit d of i is set. */
  function CornerIndex(r: Region, i: nat): (idx: Index)
    requires r.Valid()
    ensures |idx| == |r.size|
  {
    seq(|r.size|, d requires 0 <= d < |r.size| => r.start[d] + Bit(i, d) * (r.size[d] as int - 1))
  }

  /** Each coordinate of a corner is the region's first or last index on that axis
      (one before the first when the extent is 0); the corner lies in the region
      when no extent is 0, and distinct corner numbers give distinct corners when
      every extent is at least 2. */
  lemma {:induction false} CornersAreDistinctExtremes(r: Region, i: nat, j: nat)
    requires r.Valid() && i < Pow2(|r.size|) && j < Pow2(|r.size|)
    ensures forall d :: 0 <= d < |r.size| ==>
      CornerIndex(r, i)[d] == r.start[d] || CornerIndex(r, i)[d] == r.start[d] + r.size[d] - 1
    ensures (forall d :: 0 <= d < |r.size| ==> r.size[d] >= 1) ==> Contains(r, CornerIndex(r, i))
    ensures (forall d :: 0 <= d < |r.size| ==> r.size[d] >= 2) && i != j ==>
      CornerIndex(r, i) != CornerIndex(r, j)
  {
    if (forall d :: 0 <= d < |r.size| ==> r.size[d] >= 2) && i != j {
      BitsDistinguish(i, j, |r.size|);
      var d :| 0 <= d < |r.size| && Bit(i, d) != Bit(j, d);
      assert CornerIndex(r, i)[d] != CornerIndex(r, j)[d];
    }
  }

  /** The random-sample count: a stored non-zero count is reused; otherwise the
      whole domain when it is small, else SizeOfSmallDomain times the natural
      logarithm of the pixel count clamped below at 1, truncated to an integer. */
  function RandomSampleCount(current: nat, total: nat, log: real -> real): (n: nat)
    ensures current != 0 ==> n == current
    ensures current == 0 && total <= SizeOfSmallDomain ==> n == total
    ensures current == 0 && total > SizeOfSmallDomain ==>
      n >= SizeOfSmallDomain &&
      n as real <= SizeOfSmallDomain as real * (if log(total as real) < 1.0 then 1.0 else log(total as real)) <
        n as real + 1.0
  {
    if current != 0 then current
    else if total <= SizeOfSmallDomain then total
    else
      var ratio := if log(total as real) < 1.0 then 1.0 else log(total as real);
      assert SizeOfSmallDomain as real * ratio >= SizeOfSmallDomain as real;
      (SizeOfSmallDomain as real * ratio).Floor
  }

  /** The virtual image is present and its region well formed. */
  predicate CanSample(e: Estimator)
  {
    e.virtualImage.Some? && e.virtualImage.value.largest.Valid()
  }

  /** Replace the samples by the physical points of the virtual region's 2^D corners, in corner order. */
  function SampleImageDomainWithCorners(e: Estimator, g: Geometry): (r: Estimator)
    requires CanSample(e)
    ensures var region := e.virtualImage.value.largest;
      && |r.imageSamples| == Pow2(|region.size|)
      && (forall i :: 0 <= i < |r.imageSamples| ==>
            r.imageSamples[i] == g.indexToPoint(e.virtualImage.value, CornerIndex(region, i)))
      && r == e.(imageSamples := r.imageSamples)
  {
    var image := e.virtualImage.value;
    var region := image.largest;
    e.(imageSamples := seq(Pow2(|region.size|), i requires 0 <= i => g.indexToPoint(image, CornerIndex(region, i))))
  }

  /** Replace the samples by the physical points of every pixel of the virtual
      region, in the order a region iterator visits them. */
  function SampleImageDomainFully(e: Estimator, g: Geometry): (r: Estimator)
    requires CanSample(e)
    ensures var region := e.virtualImage.value.largest;
      && |r.imageSamples| == NumberOfPixels(region)
      && (forall k :: 0 <= k < |r.imageSamples| ==>
            r.imageSamples[k] == g.indexToPoint(e.virtualImage.value, IndexAt(region, k)))
      && r == e.(imageSamples := r.imageSamples)
  {
    var image := e.virtualImage.value;
    var region := image.largest;
    e.(imageSamples := seq(NumberOfPixels(region), k requires 0 <= k < NumberOfPixels(region) =>
                             g.indexToPoint(image, IndexAt(region, k))))
  }

  /** Some step of a region iterator visits the index. */
  ghost predicate Visited(region: Region, idx: Index)
    requires region.Valid()
  {
    exists k: nat :: k < NumberOfPixels(region) && IndexAt(region, k) == idx
  }

  /** Full sampling takes every pixel of a region exactly once: each index of
      the region is visited, and no two visits share an index. */
  lemma FullSamplingVisitsEachPixelOnce(region: Region)
    requires region.Valid()
    ensures forall idx :: Contains(region, idx) ==> Visited(region, idx)
    ensures forall j, k :: 0 <= j < k < NumberOfPixels(region) ==> IndexAt(region, j) != IndexAt(region, k)
  {
    forall idx | Contains(region, idx)
      ensures Visited(region, idx)
    {
      IndexAtOffsetOf(region, idx);
      var k := OffsetOf(region, idx);
      assert IndexAt(region, k) == idx;
    }
    forall j, k | 0 <= j < k < NumberOfPixels(region)
      ensures IndexAt(region, j) != IndexAt(region, k)
    {
      OffsetOfIndexAt(region, j);
      OffsetOfIndexAt(region, k);
    }
  }

  /** Fix the random-sample count (stored for later calls) and replace the
      samples by the physical points of that many draws of a fresh random
      iterator, which advances the generator. */
  function SampleImageDomainRandomly(e: Estimator, g: Geometry): (r: Estimator)
    requires CanSample(e)
    ensures var image := e.virtualImage.value;
      && r.numberOfRandomSamples ==
           RandomSampleCount(e.numberOfRandomSamples, NumberOfPixels(image.largest), g.log)
      && |r.imageSamples| == r.numberOfRandomSamples
      && (forall i :: 0 <= i < |r.imageSamples| ==>
            r.imageSamples[i] == g.indexToPoint(image, g.randomIndex(e.randomSamplings, i)))
      && r.randomSamplings == e.randomSamplings + 1
      && r == e.(imageSamples := r.imageSamples, numberOfRandomSamples := r.numberOfRandomSamples,
                 randomSamplings := r.randomSamplings)
  {
    var image := e.virtualImage.value;
    var count := RandomSampleCount(e.numberOfRandomSamples, NumberOfPixels(image.largest), g.log);
    e.(numberOfRandomSamples := count,
       imageSamples := seq(count, i requires 0 <= i => g.indexToPoint(image, g.randomIndex(e.randomSamplings, i))),
       randomSamplings := e.randomSamplings + 1)
  }

  /** Sample with corners, randomly, or (any other strategy) the full domain. */
  function SampleImageDomain(e: Estimator, g: Geometry): (r: Estimator)
    requires CanSample(e)
    ensures e.samplingStrategy == SamplingWithCorners ==> r == SampleImageDomainWithCorners(e, g)
    ensures e.samplingStrategy == SamplingWithRandom ==> r == SampleImageDomainRandomly(e, g)
    ensures e.samplingStrategy == SamplingWithFullDomain ==> r == SampleImageDomainFully(e, g)
    ensures r == e.(imageSamples := r.imageSamples, numberOfRandomSamples := r.numberOfRandomSamples,
                    randomSamplings := r.randomSamplings)
  {
    match e.samplingStrategy
    case SamplingWithCorners => SampleImageDomainWithCorners(e, g)
    case SamplingWithRandom => SampleImageDomainRandomly(e, g)
    case _ => SampleImageDomainFully(e, g)
  }

  /** Sampling again reproduces the samples for corners and the full domain.
      A second random sampling reuses the stored count, so it draws as many
      points, but from a fresh iterator: the generator has moved on. */
  lemma SamplingAgain(e: Estimator, g: Geometry)
    requires CanSample(e)
    ensures CanSample(SampleImageDomain(e, g))
    ensures e.samplingStrategy != SamplingWithRandom ==>
      SampleImageDomain(SampleImageDomain(e, g), g) == SampleImageDomain(e, g)
    ensures e.samplingStrategy == SamplingWithRandom ==>
      var s := SampleImageDomain(e, g);
      var t := SampleImageDomain(s, g);
      && t.numberOfRandomSamples == s.numberOfRandomSamples
      && |t.imageSamples| == |s.imageSamples|
      && t.randomSamplings == s.randomSamplings + 1
      && t == s.(imageSamples := t.imageSamples, randomSamplings := t.randomSamplings)
  {
    if e.samplingStrategy == SamplingWithRandom {
      var image := e.virtualImage.value;
      var total := NumberOfPixels(image.largest);
      var n := RandomSampleCount(e.numberOfRandomSamples, total, g.log);
      assert RandomSampleCount(n, total, g.log) == n;
    }
  }
}
