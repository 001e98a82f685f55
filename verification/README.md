# Parameter scales, smoothed displacement fields and a robust threshold, in Dafny

This project models the self-contained logic of three pieces of an ITK-based
teaching repository and proves properties of the model.

- **Registration parameter-scale estimation.** The base estimator validates its
  inputs and chooses the moving or the fixed transform. It samples the virtual
  image domain at its corners, at every pixel, or at random. It also computes
  squared Jacobian column norms. The shift-based estimator probes each
  transform parameter with a small step. It takes the largest shift of a
  mapped sample index as the parameter's raw scale. It then squares the raw
  scales, back-filling the zero ones with the square of the least non-zero
  shift, and falls back to all ones when no parameter moves anything. Modules
  `ScaleEstimator` and `ScalesFromShift`. The region iteration order and buffer
  layout they rely on are in `Regions`.
- **Gaussian smoothing on update of a displacement field transform.** This
  covers the variance gating and the order of an update (smooth the update,
  add it, smooth the total). It also covers the blend weight, and the zeroing
  of boundary pixels or of line ends. Module `SmoothingTransform`.
- **Robust automatic threshold.** The calculator computes the gradient-weighted
  mean intensity over the pixels a mask selects. Its validity flag is cleared
  by the image setters, set by Compute and checked by GetOutput. The image
  filter wires numbered input slots into the calculator and configures a
  binary threshold. Modules `ThresholdCalculator` and `ThresholdFilter`.

Everything external is a parameter:

- **Geometry.** Index to physical point, transform plus physical point to
  continuous index, Euclidean distance, Jacobian, the random iterator's draws
  (a function of the generator's state and the draw number) and the logarithm are fields of `ScaleEstimator.Geometry`.
- **Smoothing.** The Gaussian convolution is `SmoothingTransform.Smoother`.
  The superclass's add step is `SmoothingTransform.Adder`.
- **Threshold calculator.** The power function is a `(real, real) -> real`
  argument.

Images and transforms carry an identity (`id`) that stands for the object's
address. A setter compares identities the way the source compares pointers,
and stores the new value either way. A NaN transform parameter is the `NaN`
case of `ScaleEstimator.Float`. An operation that stores some state and then
throws returns the state together with a `Wrappers.Result`.

Numeric choices:

- Reals are unbounded.
- Machine epsilon is 2^-52, and the largest double is written out exactly, as
  for the double `FloatType` of the estimator.
- `SizeOfSmallDomain` is 1000, ITK's value. The header that declares it is not
  part of this model.

## Model

| member | source | states |
|---|---|---|
| ScaleEstimator.NewEstimator | Exercises/Registration/include/itkRegistrationParameterScaleEstimator.hxx:26-44 | A fresh estimator estimates forward (moving transform), has random-sample count 0, and has no metric, images or transforms. |
| ScaleEstimator.SelectionIsOneSided | Exercises/Registration/include/itkRegistrationParameterScaleEstimator.hxx:89-142 | When estimating forward, GetTransform returns the moving transform, GetImageDimension the moving image dimension, and SelectedImage (the image a point's continuous index is taken in) the moving image. Otherwise all three come from the fixed side. |
| ScaleEstimator.CheckAndSetInputs | Exercises/Registration/include/itkRegistrationParameterScaleEstimator.hxx:46-87 | Succeeds (returning true) exactly when the metric, its three images and its two transforms are present and the selected transform has no NaN parameter. Each error is raised exactly when its check is the first to fail. On success the images and transforms are those of the metric. Strategy, samples, count and direction are never touched. |
| ScaleEstimator.CheckedTransformComesFromMetric | Exercises/Registration/include/itkRegistrationParameterScaleEstimator.hxx:67-103 | After a successful check, the selected transform is the metric's moving transform (forward) or fixed transform (otherwise). The selected transform and image are present, and the virtual image is the metric's. |
| ScaleEstimator.FreshEstimatorSelectsMovingTransform | Exercises/Registration/include/itkRegistrationParameterScaleEstimator.hxx:89-119 | By default, after a successful check, the transform and image dimension are the moving ones. |
| ScaleEstimator.ComputeSquaredJacobianNorms | Exercises/Registration/include/itkRegistrationParameterScaleEstimator.hxx:143-181 | There is one entry per parameter of the selected transform. Entry p is the sum over the selected image dimension of the squared Jacobian entries of column p, and so is non-negative. |
| ScaleEstimator.BitsDistinguish | Exercises/Registration/include/itkRegistrationParameterScaleEstimator.hxx:226-233 | Two different corner numbers below 2^n differ in one of their first n bits. |
| ScaleEstimator.CornersAreDistinctExtremes | Exercises/Registration/include/itkRegistrationParameterScaleEstimator.hxx:218-233 | Every coordinate of corner i is the first index of its axis or the first plus the extent minus 1. The corner lies in the region when no extent is 0. Distinct corner numbers give distinct corners when every extent is at least 2. |
| ScaleEstimator.SampleImageDomainWithCorners | Exercises/Registration/include/itkRegistrationParameterScaleEstimator.hxx:210-238 | The old samples are replaced by exactly 2^D points, where D is the region's dimension. Sample i is the physical point of corner i. Nothing else changes. |
| ScaleEstimator.RandomSampleCount | Exercises/Registration/include/itkRegistrationParameterScaleEstimator.hxx:250-266 | A non-zero count is kept. A zero count becomes the pixel total when the total is at most 1000. Otherwise it becomes 1000 times the log of the total, clamped below at 1 and truncated, hence at least 1000. |
| ScaleEstimator.SampleImageDomainRandomly | Exercises/Registration/include/itkRegistrationParameterScaleEstimator.hxx:243-284 | Stores the count rule's result. The old samples are replaced by exactly that many points; sample i is the physical point of the i-th draw of a fresh iterator, which depends on the generator's state. The call advances that state by one. Nothing else changes. |
| ScaleEstimator.SampleImageDomainFully | Exercises/Registration/include/itkRegistrationParameterScaleEstimator.hxx:289-313 | The old samples are replaced by one point per pixel of the largest region, in region-iterator order. Nothing else changes. |
| ScaleEstimator.FullSamplingVisitsEachPixelOnce | Exercises/Registration/include/itkRegistrationParameterScaleEstimator.hxx:300-312 | The full sampling visits every index of the region, and no index twice. |
| ScaleEstimator.SampleImageDomain | Exercises/Registration/include/itkRegistrationParameterScaleEstimator.hxx:186-204 | Dispatches to corner, random or (any other strategy) full sampling. Only the samples, the random count and the generator's state can change. |
| ScaleEstimator.SamplingAgain | Exercises/Registration/include/itkRegistrationParameterScaleEstimator.hxx:186-284 | Sampling again after a corner or full sampling reproduces it. After a random sampling, sampling again reuses the stored count, so it draws as many points. Those points come from a generator one step further on, and nothing else changes. |
| Regions.IndexAt | Exercises/Registration/include/itkRegistrationParameterScaleEstimator.hxx:300-312 | The k-th index a region iterator visits lies inside the region. |
| Regions.OffsetOf | Exercises/Modularization/nothingtoseehere/RAT/include/itkRobustAutomaticThresholdCalculator.hxx:85 | The buffer offset of an index inside a region is below the region's pixel count. |
| Regions.OffsetOfIndexAt | Exercises/Registration/include/itkRegistrationParameterScaleEstimator.hxx:300-312 | The k-th visited index sits at buffer offset k. |
| Regions.IndexAtOffsetOf | Exercises/Registration/include/itkRegistrationParameterScaleEstimator.hxx:300-312 | Every index in the region is the visit whose number is its buffer offset. |
| ScalesFromShift.NewScalesFromShift | Exercises/Registration/include/itkRegistrationParameterScalesFromShift.hxx:26-31 | The shift-based estimator samples the full domain and otherwise has the base defaults. |
| ScalesFromShift.UnitProbeMovesOneParameter | Exercises/Registration/include/itkRegistrationParameterScalesFromShift.hxx:133-139 | With a unit delta on parameter i, the probe's parameters equal the old ones except parameter i. That parameter grows by 0.01, or stays NaN. |
| ScalesFromShift.SetTransformParameters | Exercises/Registration/include/itkRegistrationParameterScalesFromShift.hxx:162 | Setting parameters changes only the selected transform's parameters. Direction, target image and samples are kept. |
| ScalesFromShift.RestoringParametersRestoresState | Exercises/Registration/include/itkRegistrationParameterScalesFromShift.hxx:162-179 | Setting new parameters and then the old ones gives back the same estimator state. |
| ScalesFromShift.MaxOrZero | Exercises/Registration/include/itkRegistrationParameterScalesFromShift.hxx:164-176 | The maximum starting from 0 is non-negative and bounds every distance. It is 0 or one of the distances, so it is 0 with no samples. |
| ScalesFromShift.ComputeMaximumVoxelShiftTemplated | Exercises/Registration/include/itkRegistrationParameterScalesFromShift.hxx:122-182 | Returns the largest distance, over the samples, between the index mapped with the perturbed parameters and the one mapped with the old ones. The estimator state afterwards equals the state before. |
| ScalesFromShift.ComputeMaximumVoxelShift | Exercises/Registration/include/itkRegistrationParameterScalesFromShift.hxx:97-116 | Samples the domain first, then probes the selected transform. The transform is left as it was. |
| ScalesFromShift.RawShiftAt | Exercises/Registration/include/itkRegistrationParameterScalesFromShift.hxx:54-60 | There is one raw shift per parameter. Raw shift i is the largest sample shift when only parameter i moves by one probe step. It is taken over the samples of the probe's own sampling, the (i+1)-th since the first, and it is non-negative. |
| ScalesFromShift.SampleRepeatedly | Exercises/Registration/include/itkRegistrationParameterScalesFromShift.hxx:97-104 | Sampling repeatedly before each probe changes only the samples, the random count and the generator's state. The selected transform and its image stay. |
| ScalesFromShift.FixedSamplingProbesOneSampleSet | Exercises/Registration/include/itkRegistrationParameterScalesFromShift.hxx:40-104 | With corner or full-domain sampling, every probe after the first sampling runs over that one sample set. |
| ScalesFromShift.ProbeEachParameter | Exercises/Registration/include/itkRegistrationParameterScalesFromShift.hxx:47-66 | Returns the raw shifts in parameter order and the estimator after one sampling per probe. The running minimum kept alongside is the least raw shift above epsilon. |
| ScalesFromShift.ProbeParameter | Exercises/Registration/include/itkRegistrationParameterScalesFromShift.hxx:56-58 | With the delta zero except a 1 at entry i, probing gives raw shift i and one more sampling of the domain. |
| ScalesFromShift.UnitResetIsZero | Exercises/Registration/include/itkRegistrationParameterScalesFromShift.hxx:47-58 | Setting delta entry i to 1 gives the unit delta of parameter i. Setting it back to 0 restores the all-zero delta, so each probe moves one parameter only. |
| ScalesFromShift.MinNonZeroShiftAppend | Exercises/Registration/include/itkRegistrationParameterScalesFromShift.hxx:60-64 | Each new shift replaces the running minimum exactly when it lies above epsilon and below the minimum so far. |
| ScalesFromShift.MinNonZeroShift | Exercises/Registration/include/itkRegistrationParameterScalesFromShift.hxx:51-64 | The result lies above epsilon and at most at the largest double. It is the largest double exactly when no shift lies strictly between the two. Otherwise it is one of the shifts and no larger than any shift in that range. |
| ScalesFromShift.NoShiftGivesUnitScales | Exercises/Registration/include/itkRegistrationParameterScalesFromShift.hxx:68-75 | If no raw shift exceeds epsilon, every scale is exactly 1. |
| ScalesFromShift.ShiftsAreSquaredOrBackfilled | Exercises/Registration/include/itkRegistrationParameterScalesFromShift.hxx:76-90 | Otherwise a shift above epsilon becomes its square, and any other becomes the square of the least non-zero shift. |
| ScalesFromShift.ScalesArePositive | Exercises/Registration/include/itkRegistrationParameterScalesFromShift.hxx:68-90 | Every scale is strictly positive. When some shift moved, every scale is at least the square of the least non-zero shift. |
| ScalesFromShift.ScalesPreserveOrder | Exercises/Registration/include/itkRegistrationParameterScalesFromShift.hxx:68-90 | A parameter with a larger raw shift never gets a smaller scale. |
| ScalesFromShift.SquareShifts | Exercises/Registration/include/itkRegistrationParameterScalesFromShift.hxx:68-90 | The in-place second pass yields exactly the all-ones fallback or the squared, back-filled shifts. |
| ScalesFromShift.EstimateScales | Exercises/Registration/include/itkRegistrationParameterScalesFromShift.hxx:34-92 | A failed input check is rethrown with the state it left. Otherwise the domain is sampled once up front and again before every probe. There is exactly one scale per transform parameter: the squared, back-filled raw shift of that parameter. The estimator ends with one sampling per parameter after the first. |
| SmoothingTransform.NewSmoothingTransform | Exercises/Registration/include/itkGaussianSmoothingOnUpdateDisplacementFieldTransform2.hxx:37-43 | The default variances are 3.0 for the update field and 0.5 for the total field. |
| SmoothingTransform.Weight | Exercises/Registration/include/itkGaussianSmoothingOnUpdateDisplacementFieldTransform2.hxx:233-239 | The weight is 1 from a variance of 0.5 up, and strictly between 0 and 1 below it. For any positive variance, both the weight and 1 minus it lie in [0, 1]. |
| SmoothingTransform.BoundaryFlag | Exercises/Registration/include/itkGaussianSmoothingOnUpdateDisplacementFieldTransform2.hxx:246-254 | The flag loop is true exactly when some coordinate is below 1 or at least its extent minus 1. |
| SmoothingTransform.GaussianSmoothDisplacementField | Exercises/Registration/include/itkGaussianSmoothingOnUpdateDisplacementFieldTransform2.hxx:136-271 | With a non-positive variance the field is returned unchanged. Otherwise every boundary pixel becomes the zero vector, and every interior pixel blends the smoother's output with the field buffer's current value. |
| SmoothingTransform.FullWeightBlendIsSmoothed | Exercises/Registration/include/itkGaussianSmoothingOnUpdateDisplacementFieldTransform2.hxx:263-265 | With weight 1 the blend is the smoothed vector itself. |
| SmoothingTransform.BlendIsConvex | Exercises/Registration/include/itkGaussianSmoothingOnUpdateDisplacementFieldTransform2.hxx:263-265 | With a weight in [0, 1], each blended component lies between the two blended components. |
| SmoothingTransform.InteriorTakesSmoothedValue | Exercises/Registration/include/itkGaussianSmoothingOnUpdateDisplacementFieldTransform2.hxx:233-266 | From a variance of 0.5 up, an interior pixel equals the smoother's output. Below it, each component lies between that output and the buffer's current value. |
| SmoothingTransform.UpdateTransformParameters | Exercises/Registration/include/itkGaussianSmoothingOnUpdateDisplacementFieldTransform2.hxx:54-134 | The update is smoothed only when its variance is positive, and the caller sees the smoothed update. The superclass step adds that update. The sum is smoothed only when the total variance is positive. Nothing but the field changes. |
| SmoothingTransform.UnsmoothedUpdateIsPlainAdd | Exercises/Registration/include/itkGaussianSmoothingOnUpdateDisplacementFieldTransform2.hxx:70-114 | With both variances non-positive, an update is the superclass add alone. |
| SmoothingTransform.UpdatedFieldIsZeroOnBoundary | Exercises/Registration/include/itkGaussianSmoothingOnUpdateDisplacementFieldTransform2.hxx:106-133 | With a positive total variance, the field is zero at every boundary pixel after any update. |
| SmoothingTransform.ZeroedAlongAt | Exercises/Registration/include/itkGaussianSmoothingOnUpdateDisplacementFieldTransform2.hxx:340-353 | One pass along axis d zeroes a pixel exactly when it is the first or the last of its line along d, and keeps every other pixel. |
| SmoothingTransform.ZeroLineEndsMeaning | Exercises/Registration/include/itkGaussianSmoothingOnUpdateDisplacementFieldTransform2.hxx:337-354 | After the line passes along the first n axes, a pixel is zero exactly when it is the first or last of its line along one of them. Every other pixel keeps its value. |
| SmoothingTransform.NickOutputMeaning | Exercises/Registration/include/itkGaussianSmoothingOnUpdateDisplacementFieldTransform2.hxx:274-357 | The alternative smoother's output is zero at every line end along every axis. Elsewhere it is the weighted sum of the smoothed copy and the original, untouched input. |
| SmoothingTransform.LineEndsAreTheBoundary | Exercises/Registration/include/itkGaussianSmoothingOnUpdateDisplacementFieldTransform2.hxx:244-260 | For a region starting at the origin, the line ends are exactly the boundary pixels of the in-place smoother. |
| ThresholdCalculator.NewCalculator | Exercises/Modularization/nothingtoseehere/RAT/include/itkRobustAutomaticThresholdCalculator.hxx:29-40 | A fresh calculator is not valid, holds no images, has the largest mask pixel value as mask value, output 0 and exponent 1, and GetOutput on it throws. |
| ThresholdCalculator.SetInput | Exercises/Modularization/IJ-submission-rat/itkRobustAutomaticThresholdCalculator.h:72-80 | Stores the input image. A different handle, compared by identity, marks the object modified and clears valid. The same handle, whatever its pixels now, changes neither. |
| ThresholdCalculator.SetGradient | Exercises/Modularization/IJ-submission-rat/itkRobustAutomaticThresholdCalculator.h:82-90 | Stores the gradient image. A different handle, compared by identity, marks the object modified and clears valid. The same handle, whatever its pixels now, changes neither. |
| ThresholdCalculator.SetMask | Exercises/Modularization/IJ-submission-rat/itkRobustAutomaticThresholdCalculator.h:92-100 | Stores the mask image. A different handle, compared by identity, marks the object modified and clears valid. The same handle, whatever its pixels now, changes neither. |
| ThresholdCalculator.SetMaskValue | Exercises/Modularization/IJ-submission-rat/itkRobustAutomaticThresholdCalculator.h:102-103 | Stores the mask value and marks modified only when it differs. Validity and output are kept. |
| ThresholdCalculator.SetPow | Exercises/Modularization/IJ-submission-rat/itkRobustAutomaticThresholdCalculator.h:105-106 | Stores the exponent and marks modified only when it differs. Validity and output are kept. |
| ThresholdCalculator.ImageSettersAreIdempotent | Exercises/Modularization/IJ-submission-rat/itkRobustAutomaticThresholdCalculator.h:72-100 | Setting the same image twice is setting it once. |
| ThresholdCalculator.Compute | Exercises/Modularization/nothingtoseehere/RAT/include/itkRobustAutomaticThresholdCalculator.hxx:59-99 | Without an input or a gradient nothing changes. Otherwise the calculator becomes valid and the output is `Mean` of the included weights and the included intensity-weight products. Nothing else changes. |
| ThresholdCalculator.Mean | Exercises/Modularization/nothingtoseehere/RAT/include/itkRobustAutomaticThresholdCalculator.hxx:96 | The output times the sum of the weights equals the sum of the terms. |
| ThresholdCalculator.ComputeByScan | Exercises/Modularization/nothingtoseehere/RAT/include/itkRobustAutomaticThresholdCalculator.hxx:72-97 | The lockstep scan of the input and gradient iterators, dividing numerator by denominator, yields exactly Compute's state. |
| ThresholdCalculator.ScanSums | Exercises/Modularization/nothingtoseehere/RAT/include/itkRobustAutomaticThresholdCalculator.hxx:80-93 | The accumulated numerator is the sum of the terms of all pixels, and the denominator the sum of their weights; an excluded pixel contributes 0 to both. |
| ThresholdCalculator.ScanPixel | Exercises/Modularization/nothingtoseehere/RAT/include/itkRobustAutomaticThresholdCalculator.hxx:85-90 | Input pixel k is selected exactly when there is no mask or the mask at its index equals the mask value. A selected pixel contributes gradient pixel k raised to the exponent, times its intensity; an unselected one contributes nothing. |
| ThresholdCalculator.GetOutput | Exercises/Modularization/nothingtoseehere/RAT/include/itkRobustAutomaticThresholdCalculator.hxx:103-113 | Throws exactly when not valid; otherwise returns the stored output. |
| ThresholdCalculator.ValidityStateMachine | Exercises/Modularization/nothingtoseehere/RAT/include/itkRobustAutomaticThresholdCalculator.hxx:97-112 | Compute with both images makes GetOutput succeed. A different image handle makes it throw. The same handle, a new mask value or a new exponent leaves GetOutput's answer as it was. |
| ThresholdCalculator.UnmaskedIncludesEveryPixel | Exercises/Modularization/nothingtoseehere/RAT/include/itkRobustAutomaticThresholdCalculator.hxx:85 | Without a mask every pixel is included. |
| ThresholdCalculator.IncludedPixelIsUnmasked | Exercises/Modularization/nothingtoseehere/RAT/include/itkRobustAutomaticThresholdCalculator.hxx:85-90 | A pixel the mask selects contributes the same weight and term as it would with no mask. |
| ThresholdCalculator.FullMaskIsNoMask | Exercises/Modularization/nothingtoseehere/RAT/include/itkRobustAutomaticThresholdCalculator.hxx:83-93 | A mask that selects every visited pixel gives the same weights, terms and sums as no mask. |
| ThresholdCalculator.PixelBracketed | Exercises/Modularization/nothingtoseehere/RAT/include/itkRobustAutomaticThresholdCalculator.hxx:85-89 | A pixel that is excluded, or has a non-negative weight and an intensity in [lo, hi], has a non-negative weight and a term between lo and hi times that weight. |
| ThresholdCalculator.PixelsBracketed | Exercises/Modularization/nothingtoseehere/RAT/include/itkRobustAutomaticThresholdCalculator.hxx:85-89 | Given non-negative weights and intensities in [lo, hi], each pixel's weight is non-negative and its term lies between lo and hi times that weight. |
| ThresholdCalculator.SumsBracketed | Exercises/Modularization/nothingtoseehere/RAT/include/itkRobustAutomaticThresholdCalculator.hxx:83-93 | Pairwise bracketing of weights and terms carries over to their sums, the numerator and denominator. |
| ThresholdCalculator.ThresholdIsWeightedMean | Exercises/Modularization/nothingtoseehere/RAT/include/itkRobustAutomaticThresholdCalculator.hxx:80-96 | With non-negative weights, the threshold lies between the least and the greatest included intensity. |
| ThresholdFilter.NewFilter | Exercises/Modularization/nothingtoseehere/RAT/include/itkRobustAutomaticThresholdImageFilter.hxx:26-36 | The defaults are: outside 0, inside the largest output pixel value, threshold 0, exponent 1, mask value the largest mask pixel value, two required inputs and every slot empty. |
| ThresholdFilter.SetInput | Exercises/Modularization/IJ-submission-rat/itkRobustAutomaticThresholdImageFilter.h:153-157 | The input goes into slot 0, where GetInput reads it. The gradient and mask getters keep their answers. |
| ThresholdFilter.SetGradientImage | Exercises/Modularization/IJ-submission-rat/itkRobustAutomaticThresholdImageFilter.h:139-149 | The gradient goes into slot 1, where the gradient getter reads it. The input and mask slots are kept. |
| ThresholdFilter.SetMaskImage | Exercises/Modularization/IJ-submission-rat/itkRobustAutomaticThresholdImageFilter.h:125-135 | As written, the mask goes into slot 1. The gradient getter then returns it, and the mask getter (slot 2) is unchanged. |
| ThresholdFilter.SetMaskImageIntended | Exercises/Modularization/IJ-submission-rat/itkRobustAutomaticThresholdImageFilter.h:125-135 | The corrected setter writes slot 2, so the mask getter returns the mask. The input and gradient are kept. |
| ThresholdFilter.SetInput1 | Exercises/Modularization/IJ-submission-rat/itkRobustAutomaticThresholdImageFilter.h:153-157 | Delegates to SetInput, so the input getter returns the image. |
| ThresholdFilter.SetInput2 | Exercises/Modularization/IJ-submission-rat/itkRobustAutomaticThresholdImageFilter.h:159-163 | Delegates to SetGradientImage, so the gradient getter returns the image. |
| ThresholdFilter.SetInput3 | Exercises/Modularization/IJ-submission-rat/itkRobustAutomaticThresholdImageFilter.h:165-169 | Delegates to SetMaskImage, so the image lands in the gradient slot. |
| ThresholdFilter.SetOutsideValue | Exercises/Modularization/IJ-submission-rat/itkRobustAutomaticThresholdImageFilter.h:92-94 | Stores the outside value; nothing but the modified count changes besides. |
| ThresholdFilter.SetInsideValue | Exercises/Modularization/IJ-submission-rat/itkRobustAutomaticThresholdImageFilter.h:99-101 | Stores the inside value; nothing but the modified count changes besides. |
| ThresholdFilter.SetMaskValue | Exercises/Modularization/IJ-submission-rat/itkRobustAutomaticThresholdImageFilter.h:109 | Stores the mask value; nothing but the modified count changes besides. |
| ThresholdFilter.SetPow | Exercises/Modularization/IJ-submission-rat/itkRobustAutomaticThresholdImageFilter.h:112 | Stores the exponent; nothing but the modified count changes besides. |
| ThresholdFilter.GradientRoundTrips | Exercises/Modularization/IJ-submission-rat/itkRobustAutomaticThresholdImageFilter.h:139-149 | GetGradientImage reads slot 1, so a gradient set through SetGradientImage or SetInput2 is returned by it. |
| ThresholdFilter.MaskReplacesGradient | Exercises/Modularization/IJ-submission-rat/itkRobustAutomaticThresholdImageFilter.h:125-149 | A mask set after a gradient replaces the gradient, and GetMaskImage still returns nothing. |
| ThresholdFilter.MaskSetterLosesMask | Exercises/Modularization/IJ-submission-rat/itkRobustAutomaticThresholdImageFilter.h:125-135 | GetMaskImage reads slot 2, so on a fresh filter a mask set through SetMaskImage is not returned by it. |
| ThresholdFilter.IntendedMaskRoundTrips | Exercises/Modularization/IJ-submission-rat/itkRobustAutomaticThresholdImageFilter.h:125-135 | With the corrected setter, GetMaskImage returns the mask and the gradient stays. |
| ThresholdFilter.SettersLeaveMaskSlotAndThreshold | Exercises/Modularization/IJ-submission-rat/itkRobustAutomaticThresholdImageFilter.h:92-169 | None of the class's own setters (the `Call` cases), in any sequence, changes the mask slot or the threshold; the threshold has a getter only. |
| ThresholdFilter.Wiring | Exercises/Modularization/nothingtoseehere/RAT/include/itkRobustAutomaticThresholdImageFilter.hxx:47-52 | The calculator receives the input, the gradient slot, the mask slot, the mask value and the exponent, and is not yet valid. |
| ThresholdFilter.GenerateData | Exercises/Modularization/nothingtoseehere/RAT/include/itkRobustAutomaticThresholdImageFilter.hxx:38-69 | Succeeds exactly when the input and the gradient are present. Otherwise the calculator's Compute returns early and its GetOutput throws. The stored threshold is the calculator's output, and nothing else in the filter changes. The binary threshold runs on the input with that lower bound and the filter's inside and outside values. |
| ThresholdFilter.ConfiguredFilterIsUnmasked | Exercises/Modularization/nothingtoseehere/RAT/include/itkRobustAutomaticThresholdImageFilter.hxx:47-53 | A filter configured only through its setters never hands the calculator a mask, so every input pixel is included. |
| ThresholdFilter.IntendedMaskReachesCalculator | Exercises/Modularization/nothingtoseehere/RAT/include/itkRobustAutomaticThresholdImageFilter.hxx:50 | With the corrected setter, the mask reaches the calculator. |
| ThresholdFilter.GenerateInputRequestedRegion | Exercises/Modularization/nothingtoseehere/RAT/include/itkRobustAutomaticThresholdImageFilter.hxx:71-82 | The input and gradient request their largest region, and so does the mask when present. Nothing else changes. |
| ThresholdFilter.RequestedRegionsAlign | Exercises/Modularization/nothingtoseehere/RAT/include/itkRobustAutomaticThresholdImageFilter.hxx:71-82 | Suppose the gradient has at least as many pixels as the input and a mask shares the input's region. Then after the requests the calculator's lockstep and mask-lookup requirements hold. |

## Left out

- Random generator. The random iterator's draws are a function of the generator's state and the draw number (`Geometry.randomIndex`). The state is the number of random samplings made so far; the generator's algorithm is not modelled.
- Debug output. Printing, warnings and debug macros are not modelled.
- Exceptions. An exception is a `Failure` value; the stack unwinding is not modelled.
- Double rounding. `0.01` is exact, whereas the source's `1.e-2` is a double.
- `ScaleEstimator.RandomSampleCount`: the logarithm is a parameter. The conversion of the product to an unsigned integer is modelled as truncation (`Floor`) of a non-negative real.
- `ScaleEstimator.ComputeSquaredJacobianNorms`: requires a Jacobian with at least the selected dimension's rows and one column per parameter. The source reads out of bounds otherwise.
- `ScalesFromShift.EstimateScales`: requires the virtual image's region to be well formed, as an ITK region always is.
- `SmoothingTransform.GaussianSmoothDisplacementField`: the Gaussian convolution, the pixel-container swaps and the temporary-field allocation are one external function. That function gives the smoother's output and the buffer's current contents after the swaps. After those swaps the blended "current" value is not the pre-smoothing field, and no contract says it is.
- `SmoothingTransform.UpdateTransformParameters`: the superclass step that adds the scaled update is an external function. The import filters and the `memcpy` copies are value passing in the model.
- `SmoothingTransform.GaussianSmoothDisplacementFieldNick`: the duplicator and the directional convolution passes are one external function applied to the input. The line passes run over the same region as the field.
- Boundary test. The in-place smoother's boundary test compares raw indices with the extent, ignoring the region's start index. This matches the line ends only for a region starting at the origin (`SmoothingTransform.LineEndsAreTheBoundary`).
- Pixel casts. The threshold and the output values are reals; the casts to the pixel types are not modelled.
- `ThresholdCalculator.Compute`: requires the included weights not to sum to zero. The source divides unguarded, so a mask that selects no pixel gives 0/0 there.
- `ThresholdCalculator.Compute`: requires the gradient's requested region to have at least as many pixels as the input's. It also requires the mask's buffer to cover the input's requested region. The source reads past its iterators or buffers otherwise.
- `ThresholdCalculator.GetOutput`: returns the output by value, not by reference.
- `ThresholdFilter.GenerateData`: the pixel-wise binary threshold, the progress accumulator and the output grafting are external. The model records the binary threshold's configuration.
- `ThresholdFilter.GenerateInputRequestedRegion`: requires the input and the gradient, which the source dereferences unchecked.
- `ThresholdFilter.SetNthInput`: follows the process object's slot semantics. A null image empties the slot; the required-input count is a stored number and is not enforced.
- Print functions. `PrintSelf` and the printing functions of every class are not modelled.

## Findings

| source | as written | input that shows it | evidently intended | confidence | as-written member | corrected member |
|---|---|---|---|---|---|---|
| Exercises/Modularization/IJ-submission-rat/itkRobustAutomaticThresholdImageFilter.h:125-135 | `SetMaskImage` writes input slot 1, the gradient's slot, while `GetMaskImage` reads slot 2 | A fresh filter given a mask through `SetMaskImage` (or `SetInput3`): `GetMaskImage` returns null and `GetGradientImage` returns the mask, so `GenerateData` runs unmasked with the mask as gradient | `SetMaskImage` writes slot 2 | high; not executed | ThresholdFilter.MaskSetterLosesMask | ThresholdFilter.IntendedMaskRoundTrips |
