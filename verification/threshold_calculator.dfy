/** The robust automatic threshold calculator: the gradient-weighted mean of
    the input intensities over the pixels a mask selects, with a validity
    flag that the image setters clear, Compute sets and GetOutput checks.
    Images are handles with an identity, so a setter can tell a new image
    from the one it already holds. */
module ThresholdCalculator {
  import opened Wrappers
  import opened Regions
  import opened RealArith

  /** An image: its identity, its largest possible region, its requested
      region and its pixel buffer laid out over the largest region. */
  datatype Image = Image(id: nat, largest: Region, requested: Region, pixels: seq<real>)

  /** Every axis of the inner region lies within the outer one. */
  predicate Inside(inner: Region, outer: Region)
    requires inner.Valid() && outer.Valid()
  {
    |inner.size| == |outer.size| &&
    forall d :: 0 <= d < |inner.size| ==>
      outer.start[d] <= inner.start[d] && inner.start[d] + inner.size[d] <= outer.start[d] + outer.size[d]
  }

  /** The regions are well formed, the buffer covers the largest region and
      the requested region lies within it. */
  predicate WellFormed(img: Image)
  {
    img.largest.Valid() && img.requested.Valid() &&
    |img.pixels| == NumberOfPixels(img.largest) && Inside(img.requested, img.largest)
  }

  /** An index inside the inner region is inside the outer one. */
  lemma InsideContains(inner: Region, outer: Region, idx: Index)
    requires inner.Valid() && outer.Valid() && Inside(inner, outer) && Contains(inner, idx)
    ensures Contains(outer, idx)
  {
  }

  /** The pixel value at an index of the buffer. */
  function PixelAt(img: Image, idx: Index): real
    requires WellFormed(img) && Contains(img.largest, idx)
  {
    img.pixels[OffsetOf(img.largest, idx)]
  }

  /** The value of the k-th pixel a region iterator over the requested region visits. */
  function RequestedPixel(img: Image, k: nat): real
    requires WellFormed(img) && k < NumberOfPixels(img.requested)
  {
    InsideContains(img.requested, img.largest, IndexAt(img.requested, k));
    PixelAt(img, IndexAt(img.requested, k))
  }

  /** The calculator's state. `modified` counts the calls that marked the object modified. */
  datatype Calculator = Calculator(
    valid: bool,
    input: Option<Image>,
    gradient: Option<Image>,
    mask: Option<Image>,
    maskValue: real,
    pow: real,
    output: real,
    modified: nat)

  /** The error GetOutput throws. */
  datatype CalculatorError = OutputNotComputed

  /** A fresh calculator: not valid, no images, mask value the largest mask
      pixel value, output zero, exponent 1. */
  function NewCalculator(maskPixelMax: real): (c: Calculator)
    ensures !c.valid && c.input.None? && c.gradient.None? && c.mask.None?
    ensures c.maskValue == maskPixelMax && c.output == 0.0 && c.pow == 1.0
    ensures GetOutput(c).Failure?
  {
    Calculator(false, None, None, None, maskPixelMax, 1.0, 0.0, 0)
  }

  /** The pointer test the image setters make: both null, or the same image
      object. An image's identity stands for its address; its pixels may have
      changed since the calculator last saw it. */
  predicate SameHandle(a: Option<Image>, b: Option<Image>)
  {
    (a.None? && b.None?) || (a.Some? && b.Some? && a.value.id == b.value.id)
  }

  /** Store the input image; a different handle marks modified and
      invalidates, the same handle (whatever its contents now) does neither. */
  function SetInput(c: Calculator, image: Option<Image>): (r: Calculator)
    ensures r.input == image
    ensures !SameHandle(image, c.input) ==> !r.valid && r.modified == c.modified + 1
    ensures SameHandle(image, c.input) ==> r.valid == c.valid && r.modified == c.modified
    ensures r.(input := c.input, valid := c.valid, modified := c.modified) == c
  {
    if SameHandle(c.input, image) then c.(input := image)
    else c.(input := image, modified := c.modified + 1, valid := false)
  }

  /** Store the gradient image, with the same handle test as SetInput. */
  function SetGradient(c: Calculator, image: Option<Image>): (r: Calculator)
    ensures r.gradient == image
    ensures !SameHandle(image, c.gradient) ==> !r.valid && r.modified == c.modified + 1
    ensures SameHandle(image, c.gradient) ==> r.valid == c.valid && r.modified == c.modified
    ensures r.(gradient := c.gradient, valid := c.valid, modified := c.modified) == c
  {
    if SameHandle(c.gradient, image) then c.(gradient := image)
    else c.(gradient := image, modified := c.modified + 1, valid := false)
  }

  /** Store the mask image, with the same handle test as SetInput. */
  function SetMask(c: Calculator, image: Option<Image>): (r: Calculator)
    ensures r.mask == image
    ensures !SameHandle(image, c.mask) ==> !r.valid && r.modified == c.modified + 1
    ensures SameHandle(image, c.mask) ==> r.valid == c.valid && r.modified == c.modified
    ensures r.(mask := c.mask, valid := c.valid, modified := c.modified) == c
  {
    if SameHandle(c.mask, image) then c.(mask := image)
    else c.(mask := image, modified := c.modified + 1, valid := false)
  }

  /** Store a different mask value and mark modified; validity is kept. */
  function SetMaskValue(c: Calculator, value: real): (r: Calculator)
    ensures r.maskValue == value && r.valid == c.valid && r.output == c.output
    ensures r.(maskValue := c.maskValue, modified := c.modified) == c
    ensures r.modified == if value != c.maskValue then c.modified + 1 else c.modified
  {
    if c.maskValue != value then c.(maskValue := value, modified := c.modified + 1) else c
  }

  /** Store a different exponent and mark modified; validity is kept. */
  function SetPow(c: Calculator, value: real): (r: Calculator)
    ensures r.pow == value && r.valid == c.valid && r.output == c.output
    ensures r.(pow := c.pow, modified := c.modified) == c
    ensures r.modified == if value != c.pow then c.modified + 1 else c.modified
  {
    if c.pow != value then c.(pow := value, modified := c.modified + 1) else c
  }

  /** Setting the same image twice is setting it once. */
  lemma ImageSettersAreIdempotent(c: Calculator, image: Option<Image>)
    ensures SetInput(SetInput(c, image), image) == SetInput(c, image)
    ensures SetGradient(SetGradient(c, image), image) == SetGradient(c, image)
    ensures SetMask(SetMask(c, image), image) == SetMask(c, image)
  {
  }

  /** Both the input and the gradient are present. */
  predicate Ready(c: Calculator)
  {
    c.input.Some? && c.gradient.Some?
  }

  /** The images are well formed, the gradient's requested region has at
      least as many pixels as the input's (the two iterators advance in
      lockstep until the input's ends), and the mask's buffer covers the
      input's requested region (the mask is read at the input's index). */
  predicate Consistent(c: Calculator)
  {
    (c.input.Some? ==> WellFormed(c.input.value)) &&
    (c.gradient.Some? ==> WellFormed(c.gradient.value)) &&
    (c.mask.Some? ==> WellFormed(c.mask.value)) &&
    (Ready(c) ==> NumberOfPixels(c.input.value.requested) <= NumberOfPixels(c.gradient.value.requested)) &&
    (c.input.Some? && c.mask.Some? ==> Inside(c.input.value.requested, c.mask.value.largest))
  }

  /** The number of pixels the input iterator visits. */
  function PixelCount(c: Calculator): nat
    requires c.input.Some?
  {
    NumberOfPixels(c.input.value.requested)
  }

  /** A one-pixel zero-dimensional image, the witness that the subset types below are inhabited. */
  const Dot := Image(0, Region([], []), Region([], []), [0.0])

  /** A calculator with consistent images and an input to scan. */
  type Loaded = c: Calculator | Consistent(c) && c.input.Some?
    witness Calculator(false, Some(Dot), None, None, 0.0, 1.0, 0.0, 0)

  /** The k-th input pixel is included: there is no mask, or the mask at its index equals the mask value. */
  predicate Included(c: Loaded, k: nat)
    requires k < PixelCount(c)
  {
    var idx := IndexAt(c.input.value.requested, k);
    c.mask.None? ||
    (InsideContains(c.input.value.requested, c.mask.value.largest, idx);
     PixelAt(c.mask.value, idx) == c.maskValue)
  }

  /** The k-th input intensity. */
  function Intensity(c: Loaded, k: nat): real
    requires k < PixelCount(c)
  {
    RequestedPixel(c.input.value, k)
  }

  /** A calculator Compute scans: consistent images, input and gradient both present. */
  type Scan = c: Calculator | Consistent(c) && Ready(c)
    witness Calculator(false, Some(Dot), Some(Dot), None, 0.0, 1.0, 0.0, 0)

  /** The weight of the k-th pixel: the k-th gradient value raised to the exponent. */
  function GradientWeight(c: Scan, power: (real, real) -> real, k: nat): real
    requires k < PixelCount(c)
  {
    power(RequestedPixel(c.gradient.value, k), c.pow)
  }

  /** The k-th pixel's contribution to the denominator: its weight if included, else nothing. */
  function WeightOf(c: Scan, power: (real, real) -> real, k: nat): real
    requires k < PixelCount(c)
  {
    if Included(c, k) then GradientWeight(c, power, k) else 0.0
  }

  /** The k-th pixel's contribution to the numerator: intensity times weight if included, else nothing. */
  function TermOf(c: Scan, power: (real, real) -> real, k: nat): real
    requires k < PixelCount(c)
  {
    if Included(c, k) then Intensity(c, k) * GradientWeight(c, power, k) else 0.0
  }

  /** The denominator's contributions, in the order the iterators visit the pixels. */
  function Weights(c: Scan, power: (real, real) -> real): (w: seq<real>)
    ensures |w| == PixelCount(c)
    ensures forall k :: 0 <= k < |w| ==> w[k] == WeightOf(c, power, k)
  {
    seq(PixelCount(c), k requires 0 <= k < PixelCount(c) => WeightOf(c, power, k))
  }

  /** The numerator's contributions, in the same order. */
  function Terms(c: Scan, power: (real, real) -> real): (t: seq<real>)
    ensures |t| == PixelCount(c)
    ensures forall k :: 0 <= k < |t| ==> t[k] == TermOf(c, power, k)
  {
    seq(PixelCount(c), k requires 0 <= k < PixelCount(c) => TermOf(c, power, k))
  }

  /** The sum of a sequence, accumulated from the front. */
  function Sum(s: seq<real>): real
  {
    if |s| == 0 then 0.0 else Sum(s[..|s| - 1]) + s[|s| - 1]
  }

  /** Extending a prefix by one element adds that element to its sum. */
  lemma SumOfLongerPrefix(s: seq<real>, k: nat)
    requires k < |s|
    ensures Sum(s[..k + 1]) == Sum(s[..k]) + s[k]
  {
    assert s[..k + 1][..k] == s[..k];
  }

  /** The denominator: the weights of the included pixels, summed. */
  function WeightSum(c: Scan, power: (real, real) -> real): real
  {
    Sum(Weights(c, power))
  }

  /** The numerator: the weighted intensities of the included pixels, summed. */
  function WeightedSum(c: Scan, power: (real, real) -> real): real
  {
    Sum(Terms(c, power))
  }

  /** Compute may run: the images are consistent and, with both images
      present, the weights of the included pixels do not sum to zero. */
  predicate Computable(c: Calculator, power: (real, real) -> real)
  {
    Consistent(c) && (Ready(c) ==> WeightSum(c, power) != 0.0)
  }

  /** The mean of the terms per unit of weight: the number that the total
      weight multiplies to the total of the terms. */
  function Mean(weights: seq<real>, terms: seq<real>): (m: real)
    requires Sum(weights) != 0.0
    ensures m * Sum(weights) == Sum(terms)
  {
    Quotient(Sum(terms), Sum(weights))
  }

  /** Compute: without an input or a gradient nothing changes; otherwise the
      output becomes the weighted mean over the included pixels and the
      calculator becomes valid. */
  function Compute(c: Calculator, power: (real, real) -> real): (r: Calculator)
    requires Computable(c, power)
    ensures !Ready(c) ==> r == c
    ensures Ready(c) ==> r.valid && r.(valid := c.valid, output := c.output) == c
    ensures Ready(c) ==> r.output == Mean(Weights(c, power), Terms(c, power))
  {
    if !Ready(c) then c else c.(output := Mean(Weights(c, power), Terms(c, power)), valid := true)
  }

  /** Compute as the source does it: one pass of the input and gradient
      iterators in lockstep, accumulating numerator and denominator. */
  method ComputeByScan(c: Calculator, power: (real, real) -> real) returns (r: Calculator)
    requires Computable(c, power)
    ensures r == Compute(c, power)
  {
    if !Ready(c) {
      return c;
    }
    var n, d := ScanSums(c, power);
    r := c.(output := n / d, valid := true);
  }

  /** The accumulation loop of Compute: numerator and denominator over every pixel. */
  method ScanSums(c: Scan, power: (real, real) -> real) returns (n: real, d: real)
    ensures n == WeightedSum(c, power) && d == WeightSum(c, power)
  {
    n, d := 0.0, 0.0;
    for k := 0 to PixelCount(c)
      invariant n == Sum(Terms(c, power)[..k]) && d == Sum(Weights(c, power)[..k])
    {
      var selected, g, term := ScanPixel(c, power, k);
      SumOfLongerPrefix(Terms(c, power), k);
      SumOfLongerPrefix(Weights(c, power), k);
      if selected {
        n, d := n + term, d + g;
      }
    }
    assert Terms(c, power)[..PixelCount(c)] == Terms(c, power);
    assert Weights(c, power)[..PixelCount(c)] == Weights(c, power);
  }

  /** One step of the scan: whether the mask selects the k-th input pixel,
      and if so its weight and its intensity times that weight. */
  method ScanPixel(c: Scan, power: (real, real) -> real, k: nat) returns (selected: bool, g: real, term: real)
    requires k < PixelCount(c)
    ensures selected == Included(c, k)
    ensures selected ==> g == WeightOf(c, power, k) && term == TermOf(c, power, k)
    ensures !selected ==> WeightOf(c, power, k) == 0.0 && TermOf(c, power, k) == 0.0
  {
    var idx := IndexAt(c.input.value.requested, k);
    selected := c.mask.None?;
    if c.mask.Some? {
      InsideContains(c.input.value.requested, c.mask.value.largest, idx);
      selected := PixelAt(c.mask.value, idx) == c.maskValue;
    }
    g, term := 0.0, 0.0;
    if selected {
      g := power(RequestedPixel(c.gradient.value, k), c.pow);
      term := RequestedPixel(c.input.value, k) * g;
    }
  }

  /** GetOutput throws unless the output has been computed since the last image change. */
  function GetOutput(c: Calculator): (r: Result<real, CalculatorError>)
    ensures r.Success? <==> c.valid
    ensures r.Success? ==> r.value == c.output
  {
    if !c.valid then Failure(OutputNotComputed) else Success(c.output)
  }

  /** The validity state machine: Compute with both images makes the output
      retrievable, and handing over a different image handle makes it
      unretrievable. Handing over the same handle, even with new pixels, or
      changing the mask value or the exponent keeps whatever GetOutput
      returned, so a stale output stays readable. */
  lemma ValidityStateMachine(c: Calculator, power: (real, real) -> real, image: Option<Image>, value: real)
    ensures Computable(c, power) && Ready(c) ==> GetOutput(Compute(c, power)).Success?
    ensures !SameHandle(image, c.input) ==> GetOutput(SetInput(c, image)).Failure?
    ensures !SameHandle(image, c.gradient) ==> GetOutput(SetGradient(c, image)).Failure?
    ensures !SameHandle(image, c.mask) ==> GetOutput(SetMask(c, image)).Failure?
    ensures SameHandle(image, c.input) ==> GetOutput(SetInput(c, image)) == GetOutput(c)
    ensures SameHandle(image, c.gradient) ==> GetOutput(SetGradient(c, image)) == GetOutput(c)
    ensures SameHandle(image, c.mask) ==> GetOutput(SetMask(c, image)) == GetOutput(c)
    ensures GetOutput(SetMaskValue(c, value)) == GetOutput(c)
    ensures GetOutput(SetPow(c, value)) == GetOutput(c)
  {
  }

  /** Without a mask every pixel is included. */
  lemma UnmaskedIncludesEveryPixel(c: Calculator, k: nat)
    requires Consistent(c) && c.input.Some? && k < PixelCount(c) && c.mask.None?
    ensures Included(c, k)
  {
  }

  /** The calculator with its mask removed. */
  function Unmasked(c: Scan): (u: Scan)
    ensures u.mask.None? && u.input == c.input && u.gradient == c.gradient && u.pow == c.pow
    ensures u.(mask := c.mask) == c
  {
    c.(mask := None)
  }

  /** A pixel the mask includes contributes to the sums as it would with no mask. */
  lemma IncludedPixelIsUnmasked(c: Scan, power: (real, real) -> real, k: nat)
    requires k < PixelCount(c) && Included(c, k)
    ensures WeightOf(c, power, k) == WeightOf(Unmasked(c), power, k)
    ensures TermOf(c, power, k) == TermOf(Unmasked(c), power, k)
  {
    assert Included(Unmasked(c), k);
  }

  /** A mask that carries the mask value at every index the input visits
      gives the same contributions, and so the same sums and threshold, as no mask. */
  lemma FullMaskIsNoMask(c: Scan, power: (real, real) -> real)
    requires c.mask.Some?
    requires forall k :: 0 <= k < PixelCount(c) ==> Included(c, k)
    ensures Weights(c, power) == Weights(Unmasked(c), power) && Terms(c, power) == Terms(Unmasked(c), power)
    ensures WeightedSum(c, power) == WeightedSum(Unmasked(c), power)
    ensures WeightSum(c, power) == WeightSum(Unmasked(c), power)
  {
    var u := Unmasked(c);
    forall k | 0 <= k < PixelCount(c)
      ensures Weights(c, power)[k] == Weights(u, power)[k] && Terms(c, power)[k] == Terms(u, power)[k]
    {
      IncludedPixelIsUnmasked(c, power, k);
    }
    assert Weights(c, power) == Weights(u, power);
    assert Terms(c, power) == Terms(u, power);
  }

  /** Lower and upper products: a non-negative weight keeps the order of intensities. */
  lemma WeightedTermBounds(lo: real, x: real, hi: real, g: real)
    requires lo <= x <= hi && g >= 0.0
    ensures lo * g <= x * g <= hi * g
  {
    NonNegativeProduct(x - lo, g);
    NonNegativeProduct(hi - x, g);
  }

  /** The weights sum to a non-negative total and the weighted sum lies
      between lo and hi times it. */
  predicate Bracketed(lo: real, hi: real, weights: real, sum: real)
  {
    weights >= 0.0 && lo * weights <= sum <= hi * weights
  }

  /** Pairwise bracketing adds up: if every weight is non-negative and every
      term lies between lo and hi times its weight, so do the sums. */
  lemma {:induction false} SumsBracketed(w: seq<real>, t: seq<real>, lo: real, hi: real)
    requires |w| == |t|
    requires forall k :: 0 <= k < |w| ==> Bracketed(lo, hi, w[k], t[k])
    ensures Bracketed(lo, hi, Sum(w), Sum(t))
  {
    if |w| > 0 {
      var n := |w| - 1;
      SumsBracketed(w[..n], t[..n], lo, hi);
      AccumulationStep(lo, hi, Sum(w[..n]), Sum(t[..n]), w[n], t[n]);
    }
  }

  /** Bracketed pairs add up. */
  lemma AccumulationStep(lo: real, hi: real, weights: real, sum: real, w: real, t: real)
    requires Bracketed(lo, hi, weights, sum) && Bracketed(lo, hi, w, t)
    ensures Bracketed(lo, hi, weights + w, sum + t)
  {
    assert lo * (weights + w) == lo * weights + lo * w;
    assert hi * (weights + w) == hi * weights + hi * w;
  }

  /** A bracketed sum over a non-zero weight total has its ratio in [lo, hi]. */
  lemma BracketedRatio(lo: real, hi: real, weights: real, sum: real)
    requires Bracketed(lo, hi, weights, sum) && weights != 0.0
    ensures lo <= sum / weights <= hi
  {
    RatioBounds(sum, weights, lo, hi);
  }

  /** A ratio of a sum bounded by lo and hi times a positive weight lies in [lo, hi]. */
  lemma RatioBounds(s: real, w: real, lo: real, hi: real)
    requires w > 0.0 && lo * w <= s <= hi * w
    ensures lo <= s / w <= hi
  {
    var q := s / w;
    assert q * w == s;
    if q < lo {
      PositiveProduct(lo - q, w);
    }
    if q > hi {
      PositiveProduct(q - hi, w);
    }
  }

  /** A non-negative weight and an intensity within [lo, hi] bracket each pixel's contribution. */
  lemma PixelsBracketed(c: Scan, power: (real, real) -> real, lo: real, hi: real)
    requires forall k :: 0 <= k < PixelCount(c) && Included(c, k) ==>
      GradientWeight(c, power, k) >= 0.0 && lo <= Intensity(c, k) <= hi
    ensures forall k :: 0 <= k < PixelCount(c) ==> Bracketed(lo, hi, WeightOf(c, power, k), TermOf(c, power, k))
  {
    forall k | 0 <= k < PixelCount(c)
      ensures Bracketed(lo, hi, WeightOf(c, power, k), TermOf(c, power, k))
    {
      PixelBracketed(c, power, k, lo, hi);
    }
  }

  /** One pixel's contribution is bracketed when it is excluded, or has a
      non-negative weight and an intensity within [lo, hi]. */
  lemma PixelBracketed(c: Scan, power: (real, real) -> real, k: nat, lo: real, hi: real)
    requires k < PixelCount(c)
    requires Included(c, k) ==> GradientWeight(c, power, k) >= 0.0 && lo <= Intensity(c, k) <= hi
    ensures Bracketed(lo, hi, WeightOf(c, power, k), TermOf(c, power, k))
  {
    if Included(c, k) {
      WeightedTermBounds(lo, Intensity(c, k), hi, GradientWeight(c, power, k));
    }
  }

  /** With non-negative weights (a non-negative gradient, say, and exponent 1)
      the threshold is a weighted mean: it lies between the least and the
      greatest included intensity. */
  lemma ThresholdIsWeightedMean(c: Calculator, power: (real, real) -> real, lo: real, hi: real)
    requires Computable(c, power) && Ready(c)
    requires forall k :: 0 <= k < PixelCount(c) && Included(c, k) ==>
      GradientWeight(c, power, k) >= 0.0 && lo <= Intensity(c, k) <= hi
    ensures lo <= Compute(c, power).output <= hi
  {
    var numerator, denominator := WeightedSum(c, power), WeightSum(c, power);
    PixelsBracketed(c, power, lo, hi);
    SumsBracketed(Weights(c, power), Terms(c, power), lo, hi);
    BracketedRatio(lo, hi, denominator, numerator);
    assert Compute(c, power).output == numerator / denominator;
  }
}
