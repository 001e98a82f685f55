/** The robust automatic threshold image filter: numbered input slots for
    the input, gradient and mask images, the inside/outside output values,
    and GenerateData, which runs the calculator on the slots and configures a
    binary threshold with the result as its lower bound. */
module ThresholdFilter {
  import opened Wrappers
  import opened Regions
  import C = ThresholdCalculator

  /** The filter's state. `maskPixelMax` is the largest value of the mask
      pixel type; `modified` counts the calls that marked the filter modified. */
  datatype Filter = Filter(
    inputs: map<nat, C.Image>,
    outsideValue: real,
    insideValue: real,
    threshold: real,
    maskValue: real,
    pow: real,
    numberOfRequiredInputs: nat,
    maskPixelMax: real,
    modified: nat)

  /** The largest value of an unsigned char, the default mask pixel type. */
  const UnsignedCharMax: real := 255.0

  /** A fresh filter: outside value zero, inside value the largest output
      pixel value, threshold zero, exponent 1, mask value the largest mask
      pixel value, two required inputs and no images. */
  function NewFilter(outputPixelMax: real, maskPixelMax: real): (f: Filter)
    ensures f.outsideValue == 0.0 && f.insideValue == outputPixelMax && f.threshold == 0.0
    ensures f.pow == 1.0 && f.maskValue == maskPixelMax && f.numberOfRequiredInputs == 2
    ensures forall n :: Slot(f, n).None?
  {
    Filter(map[], 0.0, outputPixelMax, 0.0, maskPixelMax, 1.0, 2, maskPixelMax, 0)
  }

  /** The image in input slot n, if any. */
  function Slot(f: Filter, n: nat): Option<C.Image>
  {
    if n in f.inputs then Some(f.inputs[n]) else None
  }

  /** Put an image (or nothing) into input slot n; a different handle marks
      the filter modified, the same handle is stored as it now is. */
  function SetNthInput(f: Filter, n: nat, image: Option<C.Image>): (r: Filter)
    ensures Slot(r, n) == image
    ensures forall m :: m != n ==> Slot(r, m) == Slot(f, m)
    ensures r.(inputs := f.inputs, modified := f.modified) == f
    ensures r.modified == if C.SameHandle(image, Slot(f, n)) then f.modified else f.modified + 1
  {
    var inputs := if image.Some? then f.inputs[n := image.value] else f.inputs - {n};
    if C.SameHandle(Slot(f, n), image) then f.(inputs := inputs)
    else f.(inputs := inputs, modified := f.modified + 1)
  }

  /** The input image lives in slot 0. */
  function SetInput(f: Filter, image: Option<C.Image>): (r: Filter)
    ensures GetInput(r) == image && GetGradientImage(r) == GetGradientImage(f) && GetMaskImage(r) == GetMaskImage(f)
  {
    SetNthInput(f, 0, image)
  }

  /** The image in slot 0. */
  function GetInput(f: Filter): Option<C.Image>
  {
    Slot(f, 0)
  }

  /** The gradient image goes into slot 1. */
  function SetGradientImage(f: Filter, image: Option<C.Image>): (r: Filter)
    ensures GetGradientImage(r) == image && GetInput(r) == GetInput(f) && GetMaskImage(r) == GetMaskImage(f)
  {
    SetNthInput(f, 1, image)
  }

  /** The gradient image is read from slot 1. */
  function GetGradientImage(f: Filter): Option<C.Image>
  {
    Slot(f, 1)
  }

  /** The mask setter as written: it also writes slot 1, so the mask replaces
      the gradient and the mask slot is left as it was. */
  function SetMaskImage(f: Filter, image: Option<C.Image>): (r: Filter)
    ensures GetGradientImage(r) == image && GetMaskImage(r) == GetMaskImage(f) && GetInput(r) == GetInput(f)
  {
    SetNthInput(f, 1, image)
  }

  /** The mask image is read from slot 2. */
  function GetMaskImage(f: Filter): Option<C.Image>
  {
    Slot(f, 2)
  }

  /** The mask setter as evidently intended: it writes slot 2, the slot GetMaskImage reads. */
  function SetMaskImageIntended(f: Filter, image: Option<C.Image>): (r: Filter)
    ensures GetMaskImage(r) == image && GetGradientImage(r) == GetGradientImage(f) && GetInput(r) == GetInput(f)
  {
    SetNthInput(f, 2, image)
  }

  /** The numbered setters delegate to the input, gradient and mask setters. */
  function SetInput1(f: Filter, image: Option<C.Image>): (r: Filter)
    ensures r == SetInput(f, image) && GetInput(r) == image
  {
    SetInput(f, image)
  }

  /** The second numbered setter sets the gradient. */
  function SetInput2(f: Filter, image: Option<C.Image>): (r: Filter)
    ensures r == SetGradientImage(f, image) && GetGradientImage(r) == image
  {
    SetGradientImage(f, image)
  }

  /** The third numbered setter sets the mask, and so inherits its slot. */
  function SetInput3(f: Filter, image: Option<C.Image>): (r: Filter)
    ensures r == SetMaskImage(f, image) && GetGradientImage(r) == image
  {
    SetMaskImage(f, image)
  }

  /** Store a different outside value and mark modified. */
  function SetOutsideValue(f: Filter, value: real): (r: Filter)
    ensures r.outsideValue == value && r.(outsideValue := f.outsideValue, modified := f.modified) == f
  {
    if f.outsideValue != value then f.(outsideValue := value, modified := f.modified + 1) else f
  }

  /** Store a different inside value and mark modified. */
  function SetInsideValue(f: Filter, value: real): (r: Filter)
    ensures r.insideValue == value && r.(insideValue := f.insideValue, modified := f.modified) == f
  {
    if f.insideValue != value then f.(insideValue := value, modified := f.modified + 1) else f
  }

  /** Store a different mask value and mark modified. */
  function SetMaskValue(f: Filter, value: real): (r: Filter)
    ensures r.maskValue == value && r.(maskValue := f.maskValue, modified := f.modified) == f
  {
    if f.maskValue != value then f.(maskValue := value, modified := f.modified + 1) else f
  }

  /** Store a different exponent and mark modified. */
  function SetPow(f: Filter, value: real): (r: Filter)
    ensures r.pow == value && r.(pow := f.pow, modified := f.modified) == f
  {
    if f.pow != value then f.(pow := value, modified := f.modified + 1) else f
  }

  /** The gradient round-trips through its setter and getter. */
  lemma GradientRoundTrips(f: Filter, g: C.Image)
    ensures GetGradientImage(SetGradientImage(f, Some(g))) == Some(g)
    ensures GetGradientImage(SetInput2(f, Some(g))) == Some(g)
  {
  }

  /** Setting a mask after the gradient replaces the gradient, and the mask
      is not returned by GetMaskImage. */
  lemma MaskReplacesGradient(f: Filter, g: C.Image, m: C.Image)
    requires g != m && GetMaskImage(f).None?
    ensures GetGradientImage(SetMaskImage(SetGradientImage(f, Some(g)), Some(m))) == Some(m)
    ensures GetMaskImage(SetMaskImage(SetGradientImage(f, Some(g)), Some(m))) == None
  {
  }

  /** A concrete case: on a fresh filter, the mask set through the setter
      does not come back from the getter. */
  lemma MaskSetterLosesMask(m: C.Image)
    ensures GetMaskImage(SetMaskImage(NewFilter(UnsignedCharMax, UnsignedCharMax), Some(m))) == None
    ensures GetMaskImage(SetMaskImage(NewFilter(UnsignedCharMax, UnsignedCharMax), Some(m))) != Some(m)
  {
  }

  /** With the intended setter the mask round-trips and the gradient stays. */
  lemma IntendedMaskRoundTrips(f: Filter, g: C.Image, m: C.Image)
    ensures GetMaskImage(SetMaskImageIntended(f, Some(m))) == Some(m)
    ensures GetGradientImage(SetMaskImageIntended(SetGradientImage(f, Some(g)), Some(m))) == Some(g)
  {
  }

  /** A call a client can make on the filter. */
  datatype Call =
    | SetInputCall(image: Option<C.Image>)
    | SetGradientImageCall(image: Option<C.Image>)
    | SetMaskImageCall(image: Option<C.Image>)
    | SetInput1Call(image: Option<C.Image>)
    | SetInput2Call(image: Option<C.Image>)
    | SetInput3Call(image: Option<C.Image>)
    | SetOutsideValueCall(value: real)
    | SetInsideValueCall(value: real)
    | SetMaskValueCall(value: real)
    | SetPowCall(value: real)

  /** The filter after one call. */
  function Apply(f: Filter, call: Call): Filter
  {
    match call
    case SetInputCall(image) => SetInput(f, image)
    case SetGradientImageCall(image) => SetGradientImage(f, image)
    case SetMaskImageCall(image) => SetMaskImage(f, image)
    case SetInput1Call(image) => SetInput1(f, image)
    case SetInput2Call(image) => SetInput2(f, image)
    case SetInput3Call(image) => SetInput3(f, image)
    case SetOutsideValueCall(value) => SetOutsideValue(f, value)
    case SetInsideValueCall(value) => SetInsideValue(f, value)
    case SetMaskValueCall(value) => SetMaskValue(f, value)
    case SetPowCall(value) => SetPow(f, value)
  }

  /** The filter after a sequence of calls, in order. */
  function ApplyAll(f: Filter, calls: seq<Call>): Filter
    decreases |calls|
  {
    if |calls| == 0 then f else ApplyAll(Apply(f, calls[0]), calls[1..])
  }

  /** No public setter writes slot 2 or the threshold: whatever a client
      calls, an empty mask slot stays empty and the threshold keeps its value. */
  lemma {:induction false} SettersLeaveMaskSlotAndThreshold(f: Filter, calls: seq<Call>)
    ensures GetMaskImage(ApplyAll(f, calls)) == GetMaskImage(f)
    ensures ApplyAll(f, calls).threshold == f.threshold
    decreases |calls|
  {
    if |calls| > 0 {
      SettersLeaveMaskSlotAndThreshold(Apply(f, calls[0]), calls[1..]);
    }
  }

  /** The calculator as GenerateData wires it: a fresh one given the input,
      the gradient slot, the mask slot, the mask value and the exponent. */
  function Wiring(f: Filter): (c: C.Calculator)
    ensures c.input == GetInput(f) && c.gradient == GetGradientImage(f) && c.mask == GetMaskImage(f)
    ensures c.maskValue == f.maskValue && c.pow == f.pow && !c.valid
  {
    var c := C.NewCalculator(f.maskPixelMax);
    var c := C.SetInput(c, GetInput(f));
    var c := C.SetGradient(c, GetGradientImage(f));
    var c := C.SetMask(c, GetMaskImage(f));
    var c := C.SetMaskValue(c, f.maskValue);
    C.SetPow(c, f.pow)
  }

  /** The binary threshold GenerateData configures: its input, its lower
      bound and its inside and outside values. */
  datatype BinaryThreshold = BinaryThreshold(input: C.Image, lower: real, inside: real, outside: real)

  /** What GenerateData leaves: the filter with its threshold set, and the binary threshold it ran. */
  datatype Generated = Generated(filter: Filter, binary: BinaryThreshold)

  /** GenerateData: compute the threshold with the wired calculator (which
      throws without an input or a gradient), store it and configure the
      binary threshold with it as lower bound and the filter's inside and
      outside values. */
  function GenerateData(f: Filter, power: (real, real) -> real): (r: Result<Generated, C.CalculatorError>)
    requires C.Computable(Wiring(f), power)
    ensures r.Success? <==> GetInput(f).Some? && GetGradientImage(f).Some?
    ensures r.Success? ==> r.value.filter == f.(threshold := r.value.filter.threshold)
    ensures r.Success? ==>
      r.value.binary == BinaryThreshold(GetInput(f).value, r.value.filter.threshold, f.insideValue, f.outsideValue)
    ensures r.Success? ==> C.GetOutput(C.Compute(Wiring(f), power)) == Success(r.value.filter.threshold)
  {
    var c := C.Compute(Wiring(f), power);
    match C.GetOutput(c)
    case Failure(e) => Failure(e)
    case Success(t) =>
      var f' := f.(threshold := t);
      Success(Generated(f', BinaryThreshold(GetInput(f).value, t, f'.insideValue, f'.outsideValue)))
  }

  /** A filter configured only through its public setters never hands the
      calculator a mask: every input pixel takes part in the threshold. */
  lemma ConfiguredFilterIsUnmasked(outputPixelMax: real, maskPixelMax: real, calls: seq<Call>, k: nat)
    requires var c := Wiring(ApplyAll(NewFilter(outputPixelMax, maskPixelMax), calls));
      C.Consistent(c) && c.input.Some? && k < C.PixelCount(c)
    ensures Wiring(ApplyAll(NewFilter(outputPixelMax, maskPixelMax), calls)).mask.None?
    ensures C.Included(Wiring(ApplyAll(NewFilter(outputPixelMax, maskPixelMax), calls)), k)
  {
    SettersLeaveMaskSlotAndThreshold(NewFilter(outputPixelMax, maskPixelMax), calls);
  }

  /** With the intended mask setter the mask reaches the calculator. */
  lemma IntendedMaskReachesCalculator(f: Filter, m: C.Image)
    ensures Wiring(SetMaskImageIntended(f, Some(m))).mask == Some(m)
  {
  }

  /** An image whose requested region is its largest possible region. */
  function RequestLargest(img: C.Image): (r: C.Image)
    ensures r.requested == img.largest
    ensures r.(requested := img.requested) == img
  {
    img.(requested := img.largest)
  }

  /** Request the largest possible region of the input and the gradient, and
      of the mask when there is one; the caller guarantees the input and the
      gradient are present. */
  function GenerateInputRequestedRegion(f: Filter): (r: Filter)
    requires GetInput(f).Some? && GetGradientImage(f).Some?
    ensures r.(inputs := f.inputs) == f
    ensures r.inputs.Keys == f.inputs.Keys
    ensures r.inputs[0].requested == f.inputs[0].largest && r.inputs[1].requested == f.inputs[1].largest
    ensures 2 in f.inputs ==> r.inputs[2].requested == f.inputs[2].largest
    ensures forall n :: n in f.inputs ==> r.inputs[n].(requested := f.inputs[n].requested) == f.inputs[n]
    ensures forall n :: n in f.inputs && n > 2 ==> r.inputs[n] == f.inputs[n]
  {
    var inputs := f.inputs[0 := RequestLargest(f.inputs[0])][1 := RequestLargest(f.inputs[1])];
    var inputs := if 2 in f.inputs then inputs[2 := RequestLargest(f.inputs[2])] else inputs;
    f.(inputs := inputs)
  }

  /** For an input and a gradient with equally many pixels (the same size),
      requesting the largest regions lets the two iterators run in lockstep
      over the whole input, and a mask of that size covers every index the
      input visits. */
  lemma RequestedRegionsAlign(f: Filter)
    requires GetInput(f).Some? && GetGradientImage(f).Some?
    requires NumberOfPixels(f.inputs[0].largest) <= NumberOfPixels(f.inputs[1].largest)
    requires 2 in f.inputs ==> f.inputs[2].largest == f.inputs[0].largest
    requires forall n :: n in f.inputs ==> C.WellFormed(f.inputs[n])
    ensures C.Consistent(Wiring(GenerateInputRequestedRegion(f)))
  {
    var r := GenerateInputRequestedRegion(f);
    forall n | n in r.inputs
      ensures C.WellFormed(r.inputs[n])
    {
      assert r.inputs[n].requested == f.inputs[n].largest || r.inputs[n] == f.inputs[n];
    }
  }
}
