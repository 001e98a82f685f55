/** Parameter scales from voxel shifts: each transform parameter is nudged
    on its own, the largest resulting shift of a mapped sample index is its raw
    scale, and the raw scales are squared with zero shifts back-filled so that
    an optimizer never divides by zero. */
module ScalesFromShift {
  import opened Wrappers
  import opened Regions
  import opened ScaleEstimator
  import opened RealArith

  /** Machine epsilon of a double, 2^-52. */
  const Epsilon: real := 1.0 / 4503599627370496.0

  /** The largest finite double, (2 - 2^-52) * 2^1023. */
  const FloatMax: real := 179769313486231570814527423731704356798070567525844996598917476803157260780028538760589558632766878171540458953514382464234321326889464182768467546703537516986049910576551282076245490090389328944075868508455133942304583236903222948165808559332123348274797826204144723168738177180919299881250404026184124858368.0

  /** The step the probe takes per unit of delta. */
  const ProbeStep: real := 0.01

  /** A fresh shift-based estimator: the base defaults, sampling the full domain. */
  function NewScalesFromShift(movingDimension: nat, fixedDimension: nat): (e: Estimator)
    ensures e.samplingStrategy == SamplingWithFullDomain && e.transformForward
    ensures e.numberOfRandomSamples == 0 && e.metric.None?
  {
    NewEstimator(SamplingWithFullDomain, movingDimension, fixedDimension)
  }

  /** One parameter moved by delta times the probe step; NaN stays NaN. */
  function Perturb(x: Float, delta: real): Float
  {
    if x.NaN? then NaN else Number(x.value + delta * ProbeStep)
  }

  /** The probe's new parameters, element by element. */
  function PerturbedParameters(current: seq<Float>, delta: seq<real>): (r: seq<Float>)
    requires |delta| >= |current|
    ensures |r| == |current|
  {
    seq(|current|, p requires 0 <= p < |current| => Perturb(current[p], delta[p]))
  }

  /** The delta vector with a one at position i and zeros elsewhere. */
  function UnitDelta(n: nat, i: nat): (d: seq<real>)
    ensures |d| == n
  {
    seq(n, p => if p == i then 1.0 else 0.0)
  }

  /** The all-zero delta vector of length n. */
  function Zeros(n: nat): (z: seq<real>)
    ensures |z| == n && forall p :: 0 <= p < n ==> z[p] == 0.0
  {
    seq(n, p => 0.0)
  }

  /** Setting entry i of the zero delta to one gives the unit delta, and
      setting it back to zero gives the zero delta again. */
  lemma UnitResetIsZero(n: nat, i: nat)
    requires i < n
    ensures Zeros(n)[i := 1.0] == UnitDelta(n, i)
    ensures Zeros(n)[i := 1.0][i := 0.0] == Zeros(n)
  {
  }

  /** A unit delta moves parameter i by exactly the probe step and leaves every other parameter alone. */
  lemma UnitProbeMovesOneParameter(current: seq<Float>, i: nat)
    requires i < |current|
    ensures var moved := PerturbedParameters(current, UnitDelta(|current|, i));
      && (forall p :: 0 <= p < |current| && p != i ==> moved[p] == current[p])
      && (current[i].Number? ==> moved[i] == Number(current[i].value + ProbeStep))
      && (current[i].NaN? ==> moved[i].NaN?)
  {
  }

  /** The selected transform and the image it maps into are both present. */
  predicate Ready(e: Estimator)
  {
    GetTransform(e).Some? && SelectedImage(e).Some?
  }

  /** Set the parameters of the selected transform. */
  function SetTransformParameters(e: Estimator, parameters: seq<Float>): (r: Estimator)
    requires GetTransform(e).Some?
    ensures GetTransform(r) == Some(GetTransform(e).value.(parameters := parameters))
    ensures r.transformForward == e.transformForward && SelectedImage(r) == SelectedImage(e)
    ensures r.imageSamples == e.imageSamples
  {
    var t := GetTransform(e).value.(parameters := parameters);
    if e.transformForward then e.(movingTransform := Some(t)) else e.(fixedTransform := Some(t))
  }

  /** Setting parameters and then setting back the current ones restores the whole state. */
  lemma RestoringParametersRestoresState(e: Estimator, parameters: seq<Float>)
    requires GetTransform(e).Some?
    ensures SetTransformParameters(SetTransformParameters(e, parameters), GetTransform(e).value.parameters) == e
  {
  }

  /** For each sample, the distance between its index mapped by the perturbed
      transform and its index mapped by the current one. */
  function ShiftDistances(e: Estimator, g: Geometry, delta: seq<real>): (d: seq<real>)
    requires Ready(e) && |delta| >= |GetTransform(e).value.parameters|
    ensures |d| == |e.imageSamples|
  {
    var t := GetTransform(e).value;
    var image := SelectedImage(e).value;
    var moved := t.(parameters := PerturbedParameters(t.parameters, delta));
    seq(|e.imageSamples|, c requires 0 <= c < |e.imageSamples| =>
      g.distance(g.mapToIndex(moved, image, e.imageSamples[c]), g.mapToIndex(t, image, e.imageSamples[c])))
  }

  /** The running maximum of a sequence, starting from zero. */
  function MaxOrZero(s: seq<real>): (m: real)
    ensures m >= 0.0
    ensures forall c :: 0 <= c < |s| ==> s[c] <= m
    ensures m == 0.0 || exists c :: 0 <= c < |s| && s[c] == m
  {
    if |s| == 0 then 0.0
    else
      var m := MaxOrZero(s[..|s| - 1]);
      if m < s[|s| - 1] then s[|s| - 1] else m
  }

  /** Probe the selected transform: the largest shift of a mapped sample when
      its parameters move by delta times the probe step. The parameters are
      set to the perturbed values for the second pass and restored afterwards. */
  method ComputeMaximumVoxelShiftTemplated(e: Estimator, g: Geometry, delta: seq<real>)
    returns (e': Estimator, voxelShift: real)
    requires Ready(e) && |delta| >= |GetTransform(e).value.parameters|
    ensures e' == e
    ensures voxelShift == MaxOrZero(ShiftDistances(e, g, delta))
  {
    var transform := GetTransform(e).value;
    var image := SelectedImage(e).value;
    var oldParameters := transform.parameters;
    var newParameters: seq<Float> := [];
    for p := 0 to |oldParameters|
      invariant newParameters == PerturbedParameters(oldParameters[..p], delta)
    {
      newParameters := newParameters + [Perturb(oldParameters[p], delta[p])];
    }
    assert oldParameters[..|oldParameters|] == oldParameters;
    var samples := e.imageSamples;
    var numSamples := |samples|;
    var oldMappedIndices: seq<ContinuousIndex> := [];
    for c := 0 to numSamples
      invariant |oldMappedIndices| == c
      invariant forall k :: 0 <= k < c ==> oldMappedIndices[k] == g.mapToIndex(transform, image, samples[k])
    {
      oldMappedIndices := oldMappedIndices + [g.mapToIndex(transform, image, samples[c])];
    }
    var state := SetTransformParameters(e, newParameters);
    var moved := GetTransform(state).value;
    ghost var distances := ShiftDistances(e, g, delta);
    voxelShift := 0.0;
    for c := 0 to numSamples
      invariant voxelShift == MaxOrZero(distances[..c])
    {
      var newMappedIndex := g.mapToIndex(moved, image, samples[c]);
      var distance := g.distance(newMappedIndex, oldMappedIndices[c]);
      assert distances[..c + 1][..c] == distances[..c];
      if voxelShift < distance {
        voxelShift := distance;
      }
    }
    assert distances[..numSamples] == distances;
    RestoringParametersRestoresState(e, newParameters);
    e' := SetTransformParameters(state, oldParameters);
  }

  /** Resample the domain, then probe the selected transform. */
  method ComputeMaximumVoxelShift(e: Estimator, g: Geometry, delta: seq<real>)
    returns (e': Estimator, shift: real)
    requires CanSample(e) && Ready(e) && |delta| >= |GetTransform(e).value.parameters|
    ensures e' == SampleImageDomain(e, g) && Ready(e')
    ensures GetTransform(e') == GetTransform(e)
    ensures shift == MaxOrZero(ShiftDistances(e', g, delta))
  {
    var sampled := SampleImageDomain(e, g);
    e', shift := ComputeMaximumVoxelShiftTemplated(sampled, g, delta);
  }

  /** The smallest shift above epsilon and below the largest double, or the
      largest double when there is none: the source's running minimum. */
  function MinNonZeroShift(raw: seq<real>): (m: real)
    ensures Epsilon < m <= FloatMax
    ensures m == FloatMax <==> forall i :: 0 <= i < |raw| ==> !(Epsilon < raw[i] < FloatMax)
    ensures m < FloatMax ==> exists i :: 0 <= i < |raw| && raw[i] == m
    ensures forall i :: 0 <= i < |raw| && Epsilon < raw[i] < FloatMax ==> m <= raw[i]
  {
    if |raw| == 0 then FloatMax
    else
      var m := MinNonZeroShift(raw[..|raw| - 1]);
      var shift := raw[|raw| - 1];
      assert forall i :: 0 <= i < |raw| - 1 ==> raw[..|raw| - 1][i] == raw[i];
      if shift > Epsilon && shift < m then shift else m
  }

  /** One more shift updates the running minimum as the source's loop does. */
  lemma MinNonZeroShiftAppend(raw: seq<real>, x: real)
    ensures MinNonZeroShift(raw + [x]) ==
      if x > Epsilon && x < MinNonZeroShift(raw) then x else MinNonZeroShift(raw)
  {
    assert (raw + [x])[..|raw|] == raw;
  }

  /** x squared. */
  function Square(x: real): real
  {
    x * x
  }

  /** The optimizer scale of one raw shift, given the smallest shift above epsilon. */
  function ScaleOf(shift: real, minNonZeroShift: real): real
  {
    if minNonZeroShift == FloatMax then 1.0
    else if shift <= Epsilon then Square(minNonZeroShift)
    else Square(shift)
  }

  /** The optimizer scales for given raw shifts. */
  function ScalesFromShifts(raw: seq<real>): (scales: seq<real>)
    ensures |scales| == |raw|
  {
    var m := MinNonZeroShift(raw);
    seq(|raw|, i requires 0 <= i < |raw| => ScaleOf(raw[i], m))
  }

  /** With no shift above epsilon every scale is exactly 1. */
  lemma NoShiftGivesUnitScales(raw: seq<real>)
    requires forall i :: 0 <= i < |raw| ==> raw[i] <= Epsilon
    ensures |ScalesFromShifts(raw)| == |raw|
    ensures forall i :: 0 <= i < |raw| ==> ScalesFromShifts(raw)[i] == 1.0
  {
  }

  /** Scale i is the scale of shift i. */
  lemma ScaleAt(raw: seq<real>, i: nat)
    requires i < |raw|
    ensures ScalesFromShifts(raw)[i] == ScaleOf(raw[i], MinNonZeroShift(raw))
  {
  }

  /** Otherwise shifts above epsilon are squared and the others become the
      square of the smallest shift above epsilon. */
  lemma ShiftsAreSquaredOrBackfilled(raw: seq<real>, i: nat)
    requires i < |raw| && MinNonZeroShift(raw) < FloatMax
    ensures raw[i] > Epsilon ==> ScalesFromShifts(raw)[i] == Square(raw[i])
    ensures raw[i] <= Epsilon ==> ScalesFromShifts(raw)[i] == Square(MinNonZeroShift(raw))
  {
    ScaleAt(raw, i);
  }

  /** The arithmetic behind the scale bounds, for one shift x and a minimum m
      that is not above any shift between epsilon and the largest double. */
  lemma ScaleOfBounds(x: real, m: real)
    requires Epsilon < m <= FloatMax
    requires m < FloatMax && x > Epsilon ==> m <= x
    ensures ScaleOf(x, m) > 0.0
    ensures m < FloatMax ==> ScaleOf(x, m) >= Square(m)
  {
    if m < FloatMax {
      SquarePositive(m);
      if x > Epsilon {
        SquareMonotone(m, x);
      }
    }
  }

  /** The arithmetic behind order preservation, for two shifts x <= y. */
  lemma ScaleOfMonotone(x: real, y: real, m: real)
    requires Epsilon < m <= FloatMax && x <= y
    requires m < FloatMax && x > Epsilon ==> m <= x
    requires m < FloatMax && y > Epsilon ==> m <= y
    ensures ScaleOf(x, m) <= ScaleOf(y, m)
  {
    if m < FloatMax {
      if x > Epsilon {
        SquareMonotone(x, y);
      } else if y > Epsilon {
        SquareMonotone(m, y);
      }
    }
  }

  /** The minimum is not above any shift beyond epsilon. */
  lemma MinNotAboveShift(raw: seq<real>, i: nat)
    requires i < |raw|
    ensures MinNonZeroShift(raw) < FloatMax && raw[i] > Epsilon ==> MinNonZeroShift(raw) <= raw[i]
  {
  }

  /** Every scale is strictly positive and none is below the square of the
      smallest shift above epsilon, so an optimizer dividing by a scale never
      divides by zero. */
  lemma ScalesArePositive(raw: seq<real>, i: nat)
    requires i < |raw|
    ensures ScalesFromShifts(raw)[i] > 0.0
    ensures MinNonZeroShift(raw) < FloatMax ==>
      ScalesFromShifts(raw)[i] >= Square(MinNonZeroShift(raw))
  {
    ScaleAt(raw, i);
    MinNotAboveShift(raw, i);
    ScaleOfBounds(raw[i], MinNonZeroShift(raw));
  }

  /** A larger raw shift never gets a smaller scale. */
  lemma ScalesPreserveOrder(raw: seq<real>, i: nat, j: nat)
    requires i < |raw| && j < |raw| && raw[i] <= raw[j]
    ensures ScalesFromShifts(raw)[i] <= ScalesFromShifts(raw)[j]
  {
    ScaleAt(raw, i);
    ScaleAt(raw, j);
    MinNotAboveShift(raw, i);
    MinNotAboveShift(raw, j);
    ScaleOfMonotone(raw[i], raw[j], MinNonZeroShift(raw));
  }

  /** A positive real has a positive square. */
  lemma SquarePositive(x: real)
    requires x > 0.0
    ensures Square(x) > 0.0
  {
    calc {
      Square(x);
    ==
      x * x;
    > { PositiveProduct(x, x); }
      0.0;
    }
  }

  /** Squaring is monotone on non-negative reals. */
  lemma SquareMonotone(x: real, y: real)
    requires 0.0 <= x <= y
    ensures Square(x) <= Square(y)
  {
  }

  /** n samplings of the domain in a row. Only the samples, the random count
      and the generator's state can change. */
  function SampleRepeatedly(e: Estimator, g: Geometry, n: nat): (r: Estimator)
    requires CanSample(e)
    ensures CanSample(r) && GetTransform(r) == GetTransform(e) && SelectedImage(r) == SelectedImage(e)
    ensures r == e.(imageSamples := r.imageSamples, numberOfRandomSamples := r.numberOfRandomSamples,
                    randomSamplings := r.randomSamplings)
  {
    if n == 0 then e else SampleImageDomain(SampleRepeatedly(e, g, n - 1), g)
  }

  /** The raw shift of parameter i: the probe with a unit delta on that
      parameter alone, over the samples of the probe's own sampling. Starting
      from state e, the probe of parameter i is preceded by i + 1 samplings. */
  function ProbeShift(e: Estimator, g: Geometry, i: nat): (shift: real)
    requires CanSample(e) && Ready(e) && i < |GetTransform(e).value.parameters|
    ensures shift >= 0.0
  {
    var n := |GetTransform(e).value.parameters|;
    MaxOrZero(ShiftDistances(SampleRepeatedly(e, g, i + 1), g, UnitDelta(n, i)))
  }

  /** The raw shifts of the first i parameters, in parameter order. */
  function ShiftsUpTo(e: Estimator, g: Geometry, i: nat): (raw: seq<real>)
    requires CanSample(e) && Ready(e) && i <= |GetTransform(e).value.parameters|
    ensures |raw| == i
  {
    if i == 0 then [] else ShiftsUpTo(e, g, i - 1) + [ProbeShift(e, g, i - 1)]
  }

  /** Entry j of the first i raw shifts is the probe of parameter j. */
  lemma {:induction false} ShiftsUpToAt(e: Estimator, g: Geometry, i: nat, j: nat)
    requires CanSample(e) && Ready(e) && j < i <= |GetTransform(e).value.parameters|
    ensures ShiftsUpTo(e, g, i)[j] == ProbeShift(e, g, j)
  {
    var previous := ShiftsUpTo(e, g, i - 1);
    assert ShiftsUpTo(e, g, i) == previous + [ProbeShift(e, g, i - 1)];
    if j < i - 1 {
      ShiftsUpToAt(e, g, i - 1, j);
    }
  }

  /** The raw shift of each parameter, in parameter order. */
  function RawShifts(e: Estimator, g: Geometry): (raw: seq<real>)
    requires CanSample(e) && Ready(e)
    ensures |raw| == |GetTransform(e).value.parameters|
  {
    ShiftsUpTo(e, g, |GetTransform(e).value.parameters|)
  }

  /** Raw shift i is the probe of parameter i alone, and is not negative. */
  lemma RawShiftAt(e: Estimator, g: Geometry, i: nat)
    requires CanSample(e) && Ready(e) && i < |GetTransform(e).value.parameters|
    ensures RawShifts(e, g)[i] == ProbeShift(e, g, i) >= 0.0
  {
    ShiftsUpToAt(e, g, |GetTransform(e).value.parameters|, i);
  }

  /** Repeated sampling from a fixpoint of sampling stays there. */
  lemma {:induction false} FixpointSamplesRepeatedly(e: Estimator, g: Geometry, n: nat)
    requires CanSample(e) && SampleImageDomain(e, g) == e
    ensures SampleRepeatedly(e, g, n) == e
  {
    if n > 0 {
      FixpointSamplesRepeatedly(e, g, n - 1);
    }
  }

  /** Corner and full-domain sampling draw the same samples every time, so
      after one sampling every probe runs over that one sample set. */
  lemma FixedSamplingProbesOneSampleSet(e: Estimator, g: Geometry)
    requires CanSample(e) && Ready(e) && e.samplingStrategy != SamplingWithRandom
    ensures var s := SampleImageDomain(e, g);
      var n := |GetTransform(s).value.parameters|;
      && Ready(s)
      && (forall i :: 0 <= i < n ==>
            RawShifts(s, g)[i] == MaxOrZero(ShiftDistances(s, g, UnitDelta(n, i))))
  {
    var s := SampleImageDomain(e, g);
    SamplingAgain(e, g);
    forall j | 1 <= j <= |GetTransform(s).value.parameters|
      ensures SampleRepeatedly(s, g, j) == s
    {
      FixpointSamplesRepeatedly(s, g, j);
    }
    forall i | 0 <= i < |GetTransform(s).value.parameters|
      ensures RawShifts(s, g)[i] == MaxOrZero(ShiftDistances(s, g, UnitDelta(|GetTransform(s).value.parameters|, i)))
    {
      RawShiftAt(s, g, i);
      assert SampleRepeatedly(s, g, i + 1) == s;
    }
  }

  /** Present images have well-formed regions. */
  predicate MetricRegionsValid(e: Estimator)
  {
    e.metric.Some? && e.metric.value.virtualDomainImage.Some? ==>
      e.metric.value.virtualDomainImage.value.largest.Valid()
  }

  /** The first pass of the estimation: probe each parameter with a unit
      delta, resetting the delta entry after each probe, and keep the running
      minimum of the shifts above epsilon. Each probe samples the domain again. */
  method ProbeEachParameter(sampled: Estimator, g: Geometry)
    returns (state: Estimator, raw: seq<real>, minNonZeroShift: real)
    requires CanSample(sampled) && Ready(sampled)
    ensures state == SampleRepeatedly(sampled, g, |GetTransform(sampled).value.parameters|)
    ensures raw == RawShifts(sampled, g)
    ensures minNonZeroShift == MinNonZeroShift(raw)
  {
    var numPara := |GetTransform(sampled).value.parameters|;
    raw := [];
    var delta: seq<real> := Zeros(numPara);
    minNonZeroShift := FloatMax;
    state := sampled;
    for i := 0 to numPara
      invariant state == SampleRepeatedly(sampled, g, i)
      invariant delta == Zeros(numPara)
      invariant raw == ShiftsUpTo(sampled, g, i)
      invariant minNonZeroShift == MinNonZeroShift(raw)
    {
      delta := delta[i := 1.0];
      var maxShift;
      state, maxShift := ProbeParameter(sampled, g, state, delta, i);
      delta := delta[i := 0.0];
      UnitResetIsZero(numPara, i);
      MinNonZeroShiftAppend(raw, maxShift);
      raw := raw + [maxShift];
      if maxShift > Epsilon && maxShift < minNonZeroShift {
        minNonZeroShift := maxShift;
      }
    }
  }

  /** The probe of parameter i, the i + 1-th sampling after state `sampled`:
      its shift is raw shift i. */
  method ProbeParameter(sampled: Estimator, g: Geometry, state: Estimator, delta: seq<real>, i: nat)
    returns (state': Estimator, maxShift: real)
    requires CanSample(sampled) && Ready(sampled) && i < |GetTransform(sampled).value.parameters|
    requires state == SampleRepeatedly(sampled, g, i)
    requires delta == Zeros(|GetTransform(sampled).value.parameters|)[i := 1.0]
    ensures state' == SampleRepeatedly(sampled, g, i + 1)
    ensures maxShift == ProbeShift(sampled, g, i)
  {
    UnitResetIsZero(|GetTransform(sampled).value.parameters|, i);
    state', maxShift := ComputeMaximumVoxelShift(state, g, delta);
    assert state' == SampleRepeatedly(sampled, g, i + 1);
  }

  /** The second pass: all ones when no shift was above epsilon, otherwise
      square each shift in place, back-filling the small ones. */
  method SquareShifts(raw: seq<real>, minNonZeroShift: real) returns (scales: seq<real>)
    requires minNonZeroShift == MinNonZeroShift(raw)
    ensures scales == ScalesFromShifts(raw)
  {
    var numPara := |raw|;
    scales := raw;
    if minNonZeroShift == FloatMax {
      scales := seq(numPara, i => 1.0);
    } else {
      for i := 0 to numPara
        invariant |scales| == numPara
        invariant forall j :: 0 <= j < i ==> scales[j] == ScalesFromShifts(raw)[j]
        invariant forall j :: i <= j < numPara ==> scales[j] == raw[j]
      {
        ScaleAt(raw, i);
        if scales[i] <= Epsilon {
          scales := scales[i := Square(minNonZeroShift)];
        } else {
          scales := scales[i := Square(scales[i])];
        }
      }
    }
  }

  /** Estimate one scale per parameter of the selected transform: validate the
      inputs, sample the domain, probe each parameter with a unit delta (each
      probe samples again), then turn the raw shifts into scales. */
  method EstimateScales(e: Estimator, g: Geometry) returns (e': Estimator, r: Result<seq<real>, EstimatorError>)
    requires MetricRegionsValid(e)
    ensures CheckAndSetInputs(e).1.Failure? ==>
      e' == CheckAndSetInputs(e).0 && r == Failure(CheckAndSetInputs(e).1.error)
    ensures CheckAndSetInputs(e).1.Success? ==>
      var checked := CheckAndSetInputs(e).0;
      && CanSample(checked)
      && Ready(SampleImageDomain(checked, g))
      && e' == SampleRepeatedly(SampleImageDomain(checked, g), g, |GetTransform(checked).value.parameters|)
      && r.Success?
      && |r.value| == |GetTransform(checked).value.parameters|
      && r.value == ScalesFromShifts(RawShifts(SampleImageDomain(checked, g), g))
  {
    var checked := CheckAndSetInputs(e);
    if checked.1.Failure? {
      return checked.0, Failure(checked.1.error);
    }
    CheckedTransformComesFromMetric(e);
    var sampled := SampleImageDomain(checked.0, g);
    var raw, minNonZeroShift;
    e', raw, minNonZeroShift := ProbeEachParameter(sampled, g);
    var scales := SquareShifts(raw, minNonZeroShift);
    r := Success(scales);
  }
}
