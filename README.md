# Mantid core: a verified Dafny model

This project models a selection of Mantid, the neutron and muon data
reduction framework, and proves properties of that model. Each module
follows one source file of the repository, or a pair of closely related ones:

- the multi-dimensional (MD) histogram and event layer:
  - the squared-distance coordinate transform (`CoordTransformDistance`);
  - the product fit function over MD histograms (`MDProduct`);
  - histogram to event conversion (`ConvertMDHistoToMDEventWorkspace`);
  - peak integration with background subtraction on normalised histograms (`IntegrateNormalizedMDHistoWorkspace`);
  - flattening an MD histogram to a matrix workspace (`ConvertMDHistoToMatrixWorkspace`);
  - the smoothing driver (`SmoothMDHisto`);
- one-dimensional reduction:
  - small-angle scattering binning in Q (`Q1D2`);
  - stitching of two reflectometry spectra (`Stitch1D`);
- instrument and workflow helpers:
  - the SPICE table loader of the HFIR powder diffractometer (`LoadHFIRPDD`);
  - space-group peak classification (`CheckSpaceGroup`);
  - the muon TF asymmetry function builder (`MuonTFAsymmetry`);
  - the run bookkeeping of direct-geometry MD accumulation (`MDReductionWrapper`);
  - the ILL indirect reduction (`IndirectILLReduction`);
  - the JumpFit interface's width selection and naming (`JumpFit`);
  - the POLDI detector adapter and factory (`PoldiDetectorAdapter`, `PoldiDetectorFactory`);
  - the HB2A instrument generator (`HB2AGenerator`);
  - catalog publishing and downloading (`CatalogPath`, `CatalogPublish`, `CatalogDownloadDataFiles`);
  - the GEM advanced configuration (`GemAdvancedConfig`).

Shared modules:

- `Wrappers` holds `Option`/`Result`, the error kinds the source raises, and string helpers with Python's and C++'s search semantics.
- `MDHisto` holds dimensions, MD histogram workspaces, strides and the linear/multi-index round trip.
- `MDEvents` holds the event workspace that conversions fill.
- `MatrixWorkspaces` holds the 2-D workspace.

Some code changes objects in place, such as the coordinate transform, the product function's caches, the Q1D2 accumulators, the HB2A generator, the ILL workspaces, the POLDI adapter and the catalog downloader. That code is modelled with classes, arrays and loops. Each method is proved against a specification function, and lemmas state what the source promises about that function. Pure code is modelled with datatypes, functions and lemmas.

Floating-point numbers are modelled as `real`; integer widths are modelled where they matter (`size_t` wrap-around in POLDI's central element and in Muon tie rewriting). Child algorithms, the function factory, the space-group reflection rule, square roots, string-to-number conversion, the network and the file system are parameters of the operations that use them.

## Model

| member | source | states |
|---|---|---|
| CoordTransformDistance.CoordTransformDistance.constructor | Code/Mantid/Framework/MDEvents/src/CoordTransformDistance.cpp:29-40 | the transform owns fresh copies of the first inD entries of the centre and of the dimension flags, and has one output dimension |
| CoordTransformDistance.CoordTransformDistance.Clone | Code/Mantid/Framework/MDEvents/src/CoordTransformDistance.cpp:45-49 | the clone is a new object with new arrays holding the same dimension count, centre and flags |
| CoordTransformDistance.CoordTransformDistance.Apply | Code/Mantid/Framework/MDEvents/src/CoordTransformDistance.cpp:71-84 | output[0] becomes the squared distance from the centre over the used dimensions; the rest of the output is untouched |
| CoordTransformDistance.CoordTransformDistance.Id | Code/Mantid/Framework/MDEvents/src/CoordTransformDistance.cpp:140-143 | the type tag is "CoordTransformDistance" |
| CoordTransformDistance.CloneAppliesAlike | Code/Mantid/Framework/MDEvents/src/CoordTransformDistance.cpp:45-49 | a transform and its clone give the same output for the same input |
| CoordTransformDistance.DistanceNonNegative | Code/Mantid/Framework/MDEvents/src/CoordTransformDistance.cpp:73-83 | the squared distance is never negative |
| CoordTransformDistance.DistanceZeroAtCentre | Code/Mantid/Framework/MDEvents/src/CoordTransformDistance.cpp:73-83 | the centre itself is at squared distance 0 |
| CoordTransformDistance.DistanceZeroWhenNoneUsed | Code/Mantid/Framework/MDEvents/src/CoordTransformDistance.cpp:73-83 | with no dimension used, every input is at squared distance 0 |
| CoordTransformDistance.DistanceIgnoresUnused | Code/Mantid/Framework/MDEvents/src/CoordTransformDistance.cpp:76-80 | inputs that agree on the used dimensions have the same squared distance |
| CoordTransformDistance.DistanceExample | Code/Mantid/Framework/MDEvents/src/CoordTransformDistance.cpp:73-83 | centre (1,2,3) with the third dimension unused maps (4,6,100) to 25 |
| MDHisto.MDIndexRoundTrip | Code/Mantid/Framework/CurveFitting/src/MDProduct.cpp:133-142 | a linear index below the cell count decomposes into bin indexes each below its dimension's bin count, and the strides recombine them into the same linear index |
| MDHisto.LinearRoundTrip | Code/Mantid/Framework/CurveFitting/src/MDProduct.cpp:133-142 | a multi-index within the bin counts has a linear index below the cell count, and decomposing that index gives the multi-index back |
| MDHisto.CentreInsideBox | Code/Mantid/Framework/MDAlgorithms/src/ConvertMDHistoToMDEventWorkspace.cpp:80-83 | every cell centre lies strictly inside the workspace's range along every dimension |
| MDProduct.NonIntegrated | Code/Mantid/Framework/CurveFitting/src/MDProduct.cpp:55 | the non-integrated dimensions are dimensions of the workspace with more than one bin, no more of them than dimensions |
| MDProduct.IndexById | Code/Mantid/Framework/CurveFitting/src/MDProduct.cpp:63 | the index of the first dimension with the id, or none exactly when no dimension has it |
| MDProduct.SamplePointsAreBinCentres | Code/Mantid/Framework/CurveFitting/src/MDProduct.cpp:64-73 | sample point j is minimum + (j + 1/2) * bin width, strictly inside bin j |
| MDProduct.MDProduct.constructor | Code/Mantid/Framework/CurveFitting/src/MDProduct.cpp:21-23 | a product function starts with no cache, no dimension indexes and no strides |
| MDProduct.MDProduct.SetWorkspace | Code/Mantid/Framework/CurveFitting/src/MDProduct.cpp:48-87 | anything but a histogram workspace is refused with "Expected IMDHistoWorkspace"; fewer member functions than non-integrated dimensions is an out-of-range error; otherwise each member is cached at its dimension's bin centres, the index of the first dimension with that dimension's id is recorded and the strides of all dimensions are set; with unique ids every cache covers the bins of the dimension at its recorded index |
| MDProduct.MDProduct.CalcMDIndex | Code/Mantid/Framework/CurveFitting/src/MDProduct.cpp:133-142 | the loop dividing by the strides from the last dimension down computes the multi-index of the linear index |
| MDProduct.MDProduct.Function | Code/Mantid/Framework/CurveFitting/src/MDProduct.cpp:89-131 | the three errors in order (not 2 dimensions, member count differs, not an MD domain); otherwise one value per cell, the product of the cached member values at the cell's bins |
| MDProduct.MDProduct.EvaluateCells | Code/Mantid/Framework/CurveFitting/src/MDProduct.cpp:108-130 | the loop over the domain's cells yields one evaluated product per cell, in order |
| MDProduct.BuildCache | Code/Mantid/Framework/CurveFitting/src/MDProduct.cpp:56-78 | fails exactly when members run out; otherwise member k cached at the bin centres of non-integrated dimension k, and the recorded index is the first workspace dimension with its id |
| MDProduct.EvaluateAtBinCentres | Code/Mantid/Framework/CurveFitting/src/MDProduct.cpp:64-77 | the x loop fills the bin centres and the member is evaluated there |
| MDProduct.BuildStrides | Code/Mantid/Framework/CurveFitting/src/MDProduct.cpp:80-85 | the stride of every dimension is the product of the bin counts before it |
| MDProduct.CellValue | Code/Mantid/Framework/CurveFitting/src/MDProduct.cpp:114-127 | the value of a cell is the product over members of the cached value at the cell's bin along the member's dimension |
| MDProduct.CalcStride | Code/Mantid/Framework/CurveFitting/src/MDProduct.cpp:35-44 | the stride of dimension dim is the product of the bin counts of the dimensions before it |
| MDProduct.TwoMemberValue | Code/Mantid/Framework/CurveFitting/src/MDProduct.cpp:114-127 | with two members a cell's value is the first member's cached value times the second's |
| MDProduct.CacheReadsCellCentre | Code/Mantid/Framework/CurveFitting/src/MDProduct.cpp:121-126 | the cache entry a cell reads is its member at the cell's own centre coordinate along the member's dimension |
| ConvertMDHistoToMDEventWorkspace.AddEventsData | Code/Mantid/Framework/MDAlgorithms/src/ConvertMDHistoToMDEventWorkspace.cpp:68-88 | appends, in cell order, one event per cell with the cell's signal, squared error, run 0, detector 0 and centre; nothing else of the workspace changes |
| ConvertMDHistoToMDEventWorkspace.Exec | Code/Mantid/Framework/MDAlgorithms/src/ConvertMDHistoToMDEventWorkspace.cpp:93-131 | fails exactly when the input is not a histogram workspace; otherwise a new lean-event workspace with the first experiment info (if any), the coordinate system, every dimension in order and one event per cell |
| ConvertMDHistoToMDEventWorkspace.SignalConserved | Code/Mantid/Framework/MDAlgorithms/src/ConvertMDHistoToMDEventWorkspace.cpp:75-87 | as many events as cells, their signals are the cells' signals in order, and the total signal is conserved |
| ConvertMDHistoToMDEventWorkspace.EventsInsideBox | Code/Mantid/Framework/MDAlgorithms/src/ConvertMDHistoToMDEventWorkspace.cpp:76-86 | each event carries its cell's squared error, run 0, detector 0 and a centre strictly inside the box |
| ConvertMDHistoToMDEventWorkspace.DimensionsKeepRanges | Code/Mantid/Framework/MDAlgorithms/src/ConvertMDHistoToMDEventWorkspace.cpp:115-125 | every output dimension keeps its input's range and bin count, in order |
| ConvertMDHistoToMDEventWorkspace.ElevenCubed | Code/Mantid/Framework/MDAlgorithms/src/ConvertMDHistoToMDEventWorkspace.cpp:103-104 | three dimensions of 11 bins give 1331 events |
| IntegrateNormalizedMDHistoWorkspace.AddEventsData | Code/Mantid/Framework/MDAlgorithms/src/IntegrateNormalizedMDHistoWorkspace.cpp:94-115 | appends one event per cell whose absolute signal reaches 1e-15, in cell order, with the cell's signal, squared error, run 0, detector 0 and centre; the workspace's dimensions, experiment infos and coordinate system are unchanged |
| IntegrateNormalizedMDHistoWorkspace.ConvertToMDEvents | Code/Mantid/Framework/MDAlgorithms/src/IntegrateNormalizedMDHistoWorkspace.cpp:208-241 | refuses anything but a histogram workspace with "InputWorkspace is not a MDHistoWorkspace"; otherwise a new lean-event workspace with the first experiment info, the coordinate system, the dimensions (name, id, units, range, bins) in order and the kept cells' events |
| IntegrateNormalizedMDHistoWorkspace.KeptEventsCountAndSignal | Code/Mantid/Framework/MDAlgorithms/src/IntegrateNormalizedMDHistoWorkspace.cpp:101-114 | the events are as many as the cells at or above the threshold, each event's absolute signal reaches the threshold, and they carry exactly the kept cells' total signal |
| IntegrateNormalizedMDHistoWorkspace.NoSkipMatchesPlainConversion | Code/Mantid/Framework/MDAlgorithms/src/IntegrateNormalizedMDHistoWorkspace.cpp:101-114 | when no cell is below the threshold the events are exactly those of ConvertMDHistoToMDEventWorkspace, one per cell |
| IntegrateNormalizedMDHistoWorkspace.GridGeometry | Code/Mantid/Framework/MDAlgorithms/src/IntegrateNormalizedMDHistoWorkspace.cpp:127-177 | for non-zero Steps the grid has 2·MaxHKL·Steps + 1 bins; the interior radius is half a box and the interior-to-shell volume ratio is 1/26 |
| IntegrateNormalizedMDHistoWorkspace.CubeRatio | Code/Mantid/Framework/MDAlgorithms/src/IntegrateNormalizedMDHistoWorkspace.cpp:169-177 | a background radius three times the interior radius gives a volume ratio of 1/26 |
| IntegrateNormalizedMDHistoWorkspace.DefaultGrid | Code/Mantid/Framework/MDAlgorithms/src/IntegrateNormalizedMDHistoWorkspace.cpp:74-78 | the default MaxHKL 10 and Steps 4 give box size 0.25, 81 bins and edges at ±10.125 |
| IntegrateNormalizedMDHistoWorkspace.SubtractBackground | Code/Mantid/Framework/MDAlgorithms/src/IntegrateNormalizedMDHistoWorkspace.cpp:176-194 | every peak with both norms non-zero gets the background-subtracted intensity and its propagated sigma from the same peak of the four integrations; the other peaks are unchanged |
| IntegrateNormalizedMDHistoWorkspace.FlatBackground | Code/Mantid/Framework/MDAlgorithms/src/IntegrateNormalizedMDHistoWorkspace.cpp:188 | with a flat background (shell and interior have the same signal per norm) the intensity is (1 − ratio)·sample/norm·1e6 |
| IntegrateNormalizedMDHistoWorkspace.SigmaAsWrittenCounterexample | Code/Mantid/Framework/MDAlgorithms/src/IntegrateNormalizedMDHistoWorkspace.cpp:189-190 | the written sigma argument gives 1 where the propagated variance gives 1/4 (sample error² 1, norm 2, all else 0) |
| IntegrateNormalizedMDHistoWorkspace.RatioVarianceScaleInvariant | Code/Mantid/Framework/MDAlgorithms/src/IntegrateNormalizedMDHistoWorkspace.cpp:189 | the propagated variance of s/n is unchanged when s and n are scaled by c ≠ 0 and their squared errors by c² |
| IntegrateNormalizedMDHistoWorkspace.IntendedSigmaScaleInvariant | Code/Mantid/Framework/MDAlgorithms/src/IntegrateNormalizedMDHistoWorkspace.cpp:189-190 | the corrected sigma argument is unchanged when the interior sample and its norm are rescaled together with their squared sigmas |
| ConvertMDHistoToMatrixWorkspace.AlongDim | Code/Mantid/Framework/Algorithms/src/ConvertMDHistoToMatrixWorkspace.cpp:59-64 | the profile axis is the first non-integrated dimension's name, dimension 0's name when all are integrated, and an out-of-range error exactly when there are no dimensions |
| ConvertMDHistoToMatrixWorkspace.LastIdMatch | Code/Mantid/Framework/Algorithms/src/ConvertMDHistoToMatrixWorkspace.cpp:69-79 | the recorded index is the last dimension whose id equals the profile name, and 0 when none does |
| ConvertMDHistoToMatrixWorkspace.LineEnds | Code/Mantid/Framework/Algorithms/src/ConvertMDHistoToMatrixWorkspace.cpp:66-86 | the dimension whose id is the profile name runs from its minimum to its maximum; every other dimension starts and ends at its midpoint; the index is the last match |
| ConvertMDHistoToMatrixWorkspace.LineEndsDiffer | Code/Mantid/Framework/Algorithms/src/ConvertMDHistoToMatrixWorkspace.cpp:70-86 | on valid dimensions the line advances exactly along the dimensions whose id is the profile name and is degenerate along all others |
| ConvertMDHistoToMatrixWorkspace.ProfileAlongFirstNonIntegrated | Code/Mantid/Framework/Algorithms/src/ConvertMDHistoToMatrixWorkspace.cpp:59-79 | when ids coincide with names, some non-integrated dimension matches the profile name, so the line runs along it |
| ConvertMDHistoToMatrixWorkspace.NormalizationOf | Code/Mantid/Framework/Algorithms/src/ConvertMDHistoToMatrixWorkspace.cpp:93-111 | "VolumeNormalization" and "NumEventsNormalization" select their policies, each if and only if; every other string means no normalization |
| ConvertMDHistoToMatrixWorkspace.NormalizationNameRoundTrip | Code/Mantid/Framework/Algorithms/src/ConvertMDHistoToMatrixWorkspace.cpp:43-50 | each allowed property value maps back to its own policy |
| ConvertMDHistoToMatrixWorkspace.ChooseTransform | Code/Mantid/Framework/Algorithms/src/ConvertMDHistoToMatrixWorkspace.cpp:124-131 | with no transforms to the original workspace the null transform of the workspace's dimensionality; otherwise the last transform |
| ConvertMDHistoToMatrixWorkspace.ProfileX | Code/Mantid/Framework/Algorithms/src/ConvertMDHistoToMatrixWorkspace.cpp:133-141 | output X i is the coordinate along the profile dimension of the transformed point start + dir·X[i] |
| ConvertMDHistoToMatrixWorkspace.NullTransformProfile | Code/Mantid/Framework/Algorithms/src/ConvertMDHistoToMatrixWorkspace.cpp:134-141 | with the identity transform and the line along the profile dimension, X is the start plus the plotted position, and the other coordinates stay at the start |
| ConvertMDHistoToMatrixWorkspace.Exec | Code/Mantid/Framework/Algorithms/src/ConvertMDHistoToMatrixWorkspace.cpp:54-151 | fails exactly when the workspace has no dimensions; otherwise the line ends, the chosen normalization, the line plot's Y and E, "Signal" as Y label and the profile name as X label; X i is NonFinite (0/0) when the line has zero length, and otherwise the coordinate along the profile dimension of the transformed point start + X[i]·(end − start)/length, length being the square root of the sum of squares of end − start; the transform need only give a coordinate at the profile dimension's position |
| ConvertMDHistoToMatrixWorkspace.UnitDirectionReachesEnd | Code/Mantid/Framework/Algorithms/src/ConvertMDHistoToMatrixWorkspace.cpp:89-90 | the normalised direction walked for the line's length from start arrives at end |
| ConvertMDHistoToMatrixWorkspace.NoAndVolumeNormalization | Code/Mantid/Framework/Algorithms/src/ConvertMDHistoToMatrixWorkspace.cpp:227-233 | without normalization a cell is copied; volume normalization is undone by dividing by the inverse volume |
| ConvertMDHistoToMatrixWorkspace.NumEventsNormalizationInverse | Code/Mantid/Framework/Algorithms/src/ConvertMDHistoToMatrixWorkspace.cpp:234-240 | event-count normalization is undone by multiplying back by the count; a cell with no events is left unchanged |
| ConvertMDHistoToMatrixWorkspace.BinEdges | Code/Mantid/Framework/Algorithms/src/ConvertMDHistoToMatrixWorkspace.cpp:204-211 | nbins + 1 x values, the k-th being minimum + k·bin width |
| ConvertMDHistoToMatrixWorkspace.EdgesSpanDimension | Code/Mantid/Framework/Algorithms/src/ConvertMDHistoToMatrixWorkspace.cpp:204-211 | the first x value is the dimension's minimum and the last its maximum |
| ConvertMDHistoToMatrixWorkspace.LinearOfPlaneIndex | Code/Mantid/Framework/Algorithms/src/ConvertMDHistoToMatrixWorkspace.cpp:220-223 | i·yStride + j·xStride is the linear index of the cell at i along y, j along x and 0 elsewhere |
| ConvertMDHistoToMatrixWorkspace.CellIndexInRange | Code/Mantid/Framework/Algorithms/src/ConvertMDHistoToMatrixWorkspace.cpp:220-224 | every image cell's linear index is below the workspace's cell count |
| ConvertMDHistoToMatrixWorkspace.PlanOf | Code/Mantid/Framework/Algorithms/src/ConvertMDHistoToMatrixWorkspace.cpp:164-178 | x and y are the first two non-integrated dimensions, with the first positions holding their ids and those positions' strides |
| ConvertMDHistoToMatrixWorkspace.PlanOfUniqueIds | Code/Mantid/Framework/Algorithms/src/ConvertMDHistoToMatrixWorkspace.cpp:164-178 | with unique ids the two positions are distinct and hold the x and y dimensions themselves |
| ConvertMDHistoToMatrixWorkspace.UniqueIdsImageInside | Code/Mantid/Framework/Algorithms/src/ConvertMDHistoToMatrixWorkspace.cpp:214-224 | with unique ids every cell the image reads, i·yStride + j·xStride, is a cell of the workspace |
| ConvertMDHistoToMatrixWorkspace.Make2DWorkspace | Code/Mantid/Framework/Algorithms/src/ConvertMDHistoToMatrixWorkspace.cpp:159-272 | x edges of the first non-integrated dimension; ny rows of nx cells, cell (i, j) the normalized signal and the square root of the normalized squared error at i·yStride + j·xStride; axis labels and the y axis values. make2DWorkspace exists only on one side of an unresolved merge conflict, and exec never calls it |
| ConvertMDHistoToMatrixWorkspace.PlanImage | Code/Mantid/Framework/Algorithms/src/ConvertMDHistoToMatrixWorkspace.cpp:164-178 | the set-up computes the plan that PlanOf specifies |
| ConvertMDHistoToMatrixWorkspace.FillRow | Code/Mantid/Framework/Algorithms/src/ConvertMDHistoToMatrixWorkspace.cpp:214-245 | row i is filled with the normalized cells and no other row changes |
| ConvertMDHistoToMatrixWorkspace.DimensionIndexById | Code/Mantid/Framework/Algorithms/src/ConvertMDHistoToMatrixWorkspace.cpp:174-177 | the index found by id is a position of a dimension with that id |
| ConvertMDHistoToMatrixWorkspace.NonIntegratedIsSubsequence | Code/Mantid/Framework/Algorithms/src/ConvertMDHistoToMatrixWorkspace.cpp:165-169 | in a workspace with unique ids the non-integrated dimensions have pairwise different ids, so x and y are distinct |
| SmoothMDHisto.SignOf | Code/Mantid/Framework/MDAlgorithms/src/SmoothMDHisto.cpp:91-98 | the sign is +1 or −1 and times the absolute value gives the value back |
| SmoothMDHisto.FindMaxAbsValuePos | Code/Mantid/Framework/MDAlgorithms/src/SmoothMDHisto.cpp:68-106 | on an all-zero matrix the sentinel position (rows, blocksize) and √0; otherwise the first cell in row-major order of largest absolute value, and sign·√\|Y\| there |
| SmoothMDHisto.ScanRow | Code/Mantid/Framework/MDAlgorithms/src/SmoothMDHisto.cpp:79-103 | scanning one more row keeps the first largest cell seen so far (or the sentinel while all cells seen are zero) |
| SmoothMDHisto.FirstMaxUnique | Code/Mantid/Framework/MDAlgorithms/src/SmoothMDHisto.cpp:84 | the strict comparison makes the first largest cell unique: two cells that both qualify are the same |
| SmoothMDHisto.FirstMaxExists | Code/Mantid/Framework/MDAlgorithms/src/SmoothMDHisto.cpp:79-103 | a matrix that is not all zero has a first largest cell, so the scan's position is always defined |
| SmoothMDHisto.StopIffAllZero | Code/Mantid/Framework/MDAlgorithms/src/SmoothMDHisto.cpp:205-209 | on a rectangular matrix iterate stops early exactly when every cell of the difference is zero |
| SmoothMDHisto.Fit1 | Code/Mantid/Framework/MDAlgorithms/src/SmoothMDHisto.cpp:140-159 | a spline with blocksize − 1 break points over the first spectrum's x range, parameter i being Y[i] of the chosen spectrum divided by the scale |
| SmoothMDHisto.GetColumn | Code/Mantid/Framework/MDAlgorithms/src/SmoothMDHisto.cpp:161-177 | a one-spectrum workspace whose X is the vertical axis and whose Y and E are column col of every spectrum |
| SmoothMDHisto.FirstMaxOfRowAndColumn | Code/Mantid/Framework/MDAlgorithms/src/SmoothMDHisto.cpp:211-212 | the largest cell of the matrix is also the first largest cell of its row and of its column, so both fits are anchored on it |
| SmoothMDHisto.PeakReproduced | Code/Mantid/Framework/MDAlgorithms/src/SmoothMDHisto.cpp:105 | with s = sign(Y)·√\|Y\| the row parameter Y/s times the column parameter Y/\|s\| at the peak gives Y back |
| SmoothMDHisto.Step | Code/Mantid/Framework/MDAlgorithms/src/SmoothMDHisto.cpp:211-261 | the evaluated product of the row and column fits becomes the sum or is added to it, the difference is the input minus the new sum, and a non-histogram result of either is the "Wrong workspace type found." error |
| SmoothMDHisto.Iterate | Code/Mantid/Framework/MDAlgorithms/src/SmoothMDHisto.cpp:179-262 | the scan and the step compute exactly what IterateOf specifies, so iterate stops as IterateOfSteps states and keeps difference == input − sum on success |
| SmoothMDHisto.IterateOf | Code/Mantid/Framework/MDAlgorithms/src/SmoothMDHisto.cpp:179-262 | a successful iterate keeps difference == input − sum |
| SmoothMDHisto.IterateOfSteps | Code/Mantid/Framework/MDAlgorithms/src/SmoothMDHisto.cpp:179-262 | an all-zero difference (the input when no difference is given) gives (input, no sum); otherwise the result is the step taken at the first largest cell of the difference |
| SmoothMDHisto.StepAt | Code/Mantid/Framework/MDAlgorithms/src/SmoothMDHisto.cpp:211-261 | the fits, evaluation, sum and difference computed after the early stop are those Step specifies |
| SmoothMDHisto.Exec | Code/Mantid/Framework/MDAlgorithms/src/SmoothMDHisto.cpp:269-282 | the result is ExecOf: the first iterate from nothing, then, while no step fails, one more iterate fed the previous (difference, sum) until NIterations steps are done (at least one); a success keeps difference == input − sum |
| SmoothMDHisto.ExecOf | Code/Mantid/Framework/MDAlgorithms/src/SmoothMDHisto.cpp:269-282 | the result of any number of iterations, when it succeeds, keeps difference == input − sum |
| SmoothMDHisto.ExecErrPersists | Code/Mantid/Framework/MDAlgorithms/src/SmoothMDHisto.cpp:269-282 | once a step fails, that error is exec's result whatever the number of further iterations asked for |
| Q1D2.WaveAdjCheck | Code/Mantid/Framework/Algorithms/src/Q1D2.cpp:190-218 | the wavelength-adjustment guards pass exactly when the adjustment has one spectrum with the data's bin count and boundaries, or, with no adjustment, the data is a distribution; a failure is an invalid-argument error |
| Q1D2.ExamineInput | Code/Mantid/Framework/Algorithms/src/Q1D2.cpp:181-234 | accepts exactly the compatible inputs and then yields the data's bin count; an empty data workspace is the "Empty data workspace passed" error; every rejection is an invalid-argument error |
| Q1D2.PixelAdjCheck | Code/Mantid/Framework/Algorithms/src/Q1D2.cpp:220-231 | the pixel-adjustment guards pass exactly when there is no adjustment, or it has single-bin spectra, one per data spectrum |
| Q1D2.SameBoundaries | Code/Mantid/Framework/Algorithms/src/Q1D2.cpp:200-208 | the boundary walk finds no mismatch exactly when the two boundary lists are equal |
| Q1D2.PixelWeight | Code/Mantid/Framework/Algorithms/src/Q1D2.cpp:304-323 | a solid angle below 1e-200 raises the logic error, and only then; otherwise the solid angle times the pixel adjustment's value with its error, or the solid angle with error 0 |
| Q1D2.PixelWeightPositive | Code/Mantid/Framework/Algorithms/src/Q1D2.cpp:308-318 | an accepted weight is positive when the pixel adjustment is |
| Q1D2.AddWaveAdj | Code/Mantid/Framework/Algorithms/src/Q1D2.cpp:331-351 | as written: each normalisation b becomes b·c, and its squared error keeps its old value plus (e²·c² + Dc²·b²); nothing changes without the adjustment |
| Q1D2.WaveAdjusted | Code/Mantid/Framework/Algorithms/src/Q1D2.cpp:337-338 | the normalisations times the adjustment, with squared errors propagated for a product, Da² = (Db·c)² + (Dc·b)² |
| Q1D2.AddWaveAdjPropagated | Code/Mantid/Framework/Algorithms/src/Q1D2.cpp:331-351 | the in-place loop with the squared error assigned leaves exactly the values WaveAdjusted specifies |
| Q1D2.AddWaveAdjDoublesError | Code/Mantid/Framework/Algorithms/src/Q1D2.cpp:346 | scaling by exactly 1 with no error keeps the squared error under propagation but doubles it as written |
| Q1D2.ProductError2Relative | Code/Mantid/Framework/Algorithms/src/Q1D2.cpp:337-338 | under propagation relative squared errors add: (rb + rc)·(b·c)² |
| Q1D2.UnmaskedFractionFresh | Code/Mantid/Framework/Algorithms/src/Q1D2.cpp:371-385 | a bin absent from the masked-bin list keeps factor 1 |
| Q1D2.UnmaskedFractionListed | Code/Mantid/Framework/Algorithms/src/Q1D2.cpp:380-381 | a listed bin gets factor 1 − its masked fraction |
| Q1D2.NormToBinWidth | Code/Mantid/Framework/Algorithms/src/Q1D2.cpp:358-386 | each masked bin's normalisation is multiplied by its unmasked fraction and its squared error by that fraction squared; the other bins are unchanged |
| Q1D2.MaskScaled | Code/Mantid/Framework/Algorithms/src/Q1D2.cpp:378-384 | the scaled normalisations and squared errors keep the spectrum's length |
| Q1D2.MaskAppliedIsScaled | Code/Mantid/Framework/Algorithms/src/Q1D2.cpp:378-384 | the state the masking loop leaves is MaskScaled of the original values |
| Q1D2.MaskStep | Code/Mantid/Framework/Algorithms/src/Q1D2.cpp:378-384 | applying one more entry of the list scales only that entry's bin |
| Q1D2.UpperBound | Code/Mantid/Framework/Algorithms/src/Q1D2.cpp:131 | the first position below the bound whose boundary is above v: everything before it is at most v |
| Q1D2.BinOf | Code/Mantid/Framework/Algorithms/src/Q1D2.cpp:133-135 | the bin holding v is the k with q[k] ≤ v < q[k+1]; there is none exactly when v is below the first boundary or at or above the last |
| Q1D2.Binned | Code/Mantid/Framework/Algorithms/src/Q1D2.cpp:128-147 | every value is added to the bin its Q falls in, and out-of-range values are dropped |
| Q1D2.BinnedConserves | Code/Mantid/Framework/Algorithms/src/Q1D2.cpp:133-143 | the bins gain exactly the sum of the values whose Q is in range |
| Q1D2.PlacementFindsBin | Code/Mantid/Framework/Algorithms/src/Q1D2.cpp:130-135 | upper_bound limited by the previous position still finds the right bin, and finds none exactly for out-of-range values |
| Q1D2.AddSpectrum | Code/Mantid/Framework/Algorithms/src/Q1D2.cpp:128-147 | adding one spectrum keeps one sum per output bin for counts, normalisation and both squared errors |
| Q1D2.PlaceValue | Code/Mantid/Framework/Algorithms/src/Q1D2.cpp:131-145 | the value goes into its bin of all four sums, an out-of-range value changes nothing, and the new search bound lies above v |
| Q1D2.BinnedStep | Code/Mantid/Framework/Algorithms/src/Q1D2.cpp:138-142 | the next value changes only the bin it falls in |
| Q1D2.PlaceSpectrum | Code/Mantid/Framework/Algorithms/src/Q1D2.cpp:126-147 | for Q falling along the spectrum, the narrowing search places every value in its bin: the sums become AddSpectrum of the old sums |
| Q1D2.Run.BinNorms | Code/Mantid/Framework/Algorithms/src/Q1D2.cpp:65 | the wavelength adjustment's values, present exactly when the adjustment is, one per input bin |
| Q1D2.Run.BinNormEs | Code/Mantid/Framework/Algorithms/src/Q1D2.cpp:67 | the wavelength adjustment's errors, present exactly when the adjustment is, one per input bin |
| Q1D2.SpectrumNorms | Code/Mantid/Framework/Algorithms/src/Q1D2.cpp:120-124 | every bin's normalisation starts at the pixel weight and its squared error, then gets the wavelength adjustment, with the error propagated as for a product, and the unmasked fractions |
| Q1D2.AddOne | Code/Mantid/Framework/Algorithms/src/Q1D2.cpp:95-147 | a spectrum with a usable detector adds its counts; a rejected solid angle is an error |
| Q1D2.Accumulate | Code/Mantid/Framework/Algorithms/src/Q1D2.cpp:91-156 | the sums after the first spectra stay one per output bin |
| Q1D2.BinError | Code/Mantid/Framework/Algorithms/src/Q1D2.cpp:159-169 | a bin's error is infinite or NaN exactly when its normalisation is 0 |
| Q1D2.Normalised | Code/Mantid/Framework/Algorithms/src/Q1D2.cpp:159-171 | one output value and error per output bin |
| Q1D2.Reduction | Code/Mantid/Framework/Algorithms/src/Q1D2.cpp:55-174 | a successful reduction has one value and one error per output Q bin |
| Q1D2.SpectrumWeights | Code/Mantid/Framework/Algorithms/src/Q1D2.cpp:116-124 | the weights filled in place are those SpectrumNorms specifies |
| Q1D2.Normalise | Code/Mantid/Framework/Algorithms/src/Q1D2.cpp:159-171 | the final loop yields Normalised of the four sums |
| Q1D2.Exec | Code/Mantid/Framework/Algorithms/src/Q1D2.cpp:55-174 | exec yields exactly the Reduction of its inputs, error or output |
| Q1D2.AccumulateSpectrum | Code/Mantid/Framework/Algorithms/src/Q1D2.cpp:93-150 | from arrays holding the sums after the first i spectra, the arrays come to hold the sums after i + 1, or the error spectrum i raises is returned |
| Q1D2.AccumulateErrPersists | Code/Mantid/Framework/Algorithms/src/Q1D2.cpp:90-157 | once a spectrum raises, the whole run raises that error |
| Q1D2.AccumulateErrIff | Code/Mantid/Framework/Algorithms/src/Q1D2.cpp:105-117 | the spectra raise exactly when a usable detector has a solid angle below 1e-200 |
| Q1D2.ReductionFails | Code/Mantid/Framework/Algorithms/src/Q1D2.cpp:55-174 | exec raises exactly when examineInput rejects the inputs or a usable detector's solid angle is rejected |
| Q1D2.AccumulateConservesCounts | Code/Mantid/Framework/Algorithms/src/Q1D2.cpp:128-147 | the output counts add up to the in-range counts of the usable spectra |
| Q1D2.BinErrorFormula | Code/Mantid/Framework/Algorithms/src/Q1D2.cpp:161-168 | with a = b/c, Da²·c² = Db² + (Dc·a)² |
| Q1D2.BinErrorRelative | Code/Mantid/Framework/Algorithms/src/Q1D2.cpp:164-168 | relative squared errors add under division: (rb + rc)·a² |
| Stitch1D.XIntersection | Code/Mantid/Framework/Algorithms/src/Stitch1D.cpp:32-37 | the intersection runs from the RHS's first x boundary to the LHS's last |
| Stitch1D.StartOverlap | Code/Mantid/Framework/Algorithms/src/Stitch1D.cpp:94-117 | an unset StartOverlap gives the intersection minimum; a set one less 1e-9 is kept when inside the intersection and replaced by the minimum otherwise |
| Stitch1D.EndOverlap | Code/Mantid/Framework/Algorithms/src/Stitch1D.cpp:124-147 | an unset EndOverlap gives the intersection maximum; a set one plus 1e-9 is kept when inside the intersection and replaced by the maximum otherwise |
| Stitch1D.OverlapWithinIntersection | Code/Mantid/Framework/Algorithms/src/Stitch1D.cpp:94-147 | whatever the properties say, both overlap ends lie inside a non-empty intersection |
| Stitch1D.MinElement | Code/Mantid/Framework/Algorithms/src/Stitch1D.cpp:161-162 | the smallest LHS boundary: one of them, at most every other |
| Stitch1D.MaxElement | Code/Mantid/Framework/Algorithms/src/Stitch1D.cpp:165-166 | the largest RHS boundary: one of them, at least every other |
| Stitch1D.RebinParams | Code/Mantid/Framework/Algorithms/src/Stitch1D.cpp:154-195 | default Params give [min LHS x, (max RHS x − min LHS x)/100, max RHS x]; a single value is the step over that range; otherwise the given Params |
| Stitch1D.RebinParamsCoverData | Code/Mantid/Framework/Algorithms/src/Stitch1D.cpp:168-188 | computed parameters start at or below every LHS boundary and end at or above every RHS boundary |
| Stitch1D.RangeCheck | Code/Mantid/Framework/Algorithms/src/Stitch1D.cpp:345-379 | no error exactly when the overlap is ordered and lies inside the rebin range; each failure is a runtime error, in the source's order |
| Stitch1D.StartEndIndexes | Code/Mantid/Framework/Algorithms/src/Stitch1D.cpp:299-309 | the bins of the two overlap ends, and a runtime error exactly when they are the same bin |
| Stitch1D.HasNonzeroErrors | Code/Mantid/Framework/Algorithms/src/Stitch1D.cpp:315-328 | true exactly when some error of some spectrum is non-zero |
| Stitch1D.ScaleFactor | Code/Mantid/Framework/Algorithms/src/Stitch1D.cpp:388-425 | the manual factor when requested; otherwise LHS over RHS integral when the RHS is scaled and RHS over LHS when the LHS is |
| Stitch1D.ScaleFactorsReciprocal | Code/Mantid/Framework/Algorithms/src/Stitch1D.cpp:413-424 | the two automatic factors are reciprocal, and the scaled side's integral then matches the other side's |
| Stitch1D.OverlapMean | Code/Mantid/Framework/Algorithms/src/Stitch1D.cpp:447-458 | the weighted mean exactly when both overlap regions carry a non-zero error, the plain mean otherwise |
| Stitch1D.Exec | Code/Mantid/Framework/Algorithms/src/Stitch1D.cpp:333-465 | a successful plan uses the computed rebin parameters and reports the chosen scale factor; its overlap ends are the requested or intersection ends, shifted and clamped; its bins are the rebinned LHS bins of those ends; its mean is the weighted mean exactly when both overlap regions carry a non-zero error |
| Stitch1D.ExecSucceeds | Code/Mantid/Framework/Algorithms/src/Stitch1D.cpp:333-465 | exec succeeds exactly when the overlap is ordered, inside the rebin range and spans two different bins; every failure is a runtime error; a successful overlap lies inside a non-empty intersection |
| LoadHFIRPDD.LastTerm | Code/Mantid/Framework/MDAlgorithms/src/LoadHFIRPDD.cpp:316-317 | the last term of the split is the longest suffix holding none of the letters a, n, o, d, e, and is preceded by one of them unless it is the whole name |
| LoadHFIRPDD.LeadingSpaces | Code/Mantid/Framework/MDAlgorithms/src/LoadHFIRPDD.cpp:318 | the white space atoi skips: a prefix of white space followed by a non-space or the end |
| LoadHFIRPDD.LeadingDigits | Code/Mantid/Framework/MDAlgorithms/src/LoadHFIRPDD.cpp:318 | the digits atoi reads: a prefix of digits followed by a non-digit or the end |
| LoadHFIRPDD.Atoi | Code/Mantid/Framework/MDAlgorithms/src/LoadHFIRPDD.cpp:318 | a string of only white space reads as 0 |
| LoadHFIRPDD.ToSizeT | Code/Mantid/Framework/MDAlgorithms/src/LoadHFIRPDD.cpp:318 | the cast to size_t keeps a non-negative value and wraps a negative one around 2^64 |
| LoadHFIRPDD.NatToStringValue | Code/Mantid/Framework/MDAlgorithms/src/LoadHFIRPDD.cpp:318 | reading the decimal digits of n gives n back |
| LoadHFIRPDD.AnodeIdOfNumberedColumn | Code/Mantid/Framework/MDAlgorithms/src/LoadHFIRPDD.cpp:314-319 | a column named "anode" followed by the decimal digits of n gets anode number n |
| LoadHFIRPDD.AtoiOfDigits | Code/Mantid/Framework/MDAlgorithms/src/LoadHFIRPDD.cpp:318 | atoi of a non-empty digit string is the string's decimal value |
| LoadHFIRPDD.LastTermOfSuffix | Code/Mantid/Framework/MDAlgorithms/src/LoadHFIRPDD.cpp:317 | after a delimiter, a suffix without delimiters is the last term |
| LoadHFIRPDD.AnodeColumns | Code/Mantid/Framework/MDAlgorithms/src/LoadHFIRPDD.cpp:311-323 | every entry of the anode list names a column whose name starts with "anode" |
| LoadHFIRPDD.AnodeColumnsNumbers | Code/Mantid/Framework/MDAlgorithms/src/LoadHFIRPDD.cpp:311-323 | each entry carries the anode number its column name ends with |
| LoadHFIRPDD.AnodeColumnsInColumnOrder | Code/Mantid/Framework/MDAlgorithms/src/LoadHFIRPDD.cpp:311-323 | the anode list follows column order, so no column appears twice |
| LoadHFIRPDD.AnodeColumnsComplete | Code/Mantid/Framework/MDAlgorithms/src/LoadHFIRPDD.cpp:314-319 | every column whose name starts with "anode" is in the anode list |
| LoadHFIRPDD.SampleIndex | Code/Mantid/Framework/MDAlgorithms/src/LoadHFIRPDD.cpp:320-322 | every other column name is indexed, and each indexed name maps to a column carrying that name |
| LoadHFIRPDD.SampleIndexFirst | Code/Mantid/Framework/MDAlgorithms/src/LoadHFIRPDD.cpp:321 | a repeated log name keeps its first column, as std::map::insert does |
| LoadHFIRPDD.InsertPair | Code/Mantid/Framework/MDAlgorithms/src/LoadHFIRPDD.cpp:355 | inserting into a sorted list keeps it sorted and adds exactly the new pair |
| LoadHFIRPDD.SortPairs | Code/Mantid/Framework/MDAlgorithms/src/LoadHFIRPDD.cpp:355 | std::sort of the anode list: sorted by (anode, column) and a permutation of its input |
| LoadHFIRPDD.TableInfoOf | Code/Mantid/Framework/MDAlgorithms/src/LoadHFIRPDD.cpp:300-358 | on success the anode list is sorted and a permutation of the anode columns, the sample index is complete, and Pt., 2theta and time are valid columns |
| LoadHFIRPDD.ReadTableInfo | Code/Mantid/Framework/MDAlgorithms/src/LoadHFIRPDD.cpp:300-358 | the one-pass loop, the three lookups and the sort compute TableInfoOf of the column names |
| LoadHFIRPDD.TableInfoFails | Code/Mantid/Framework/MDAlgorithms/src/LoadHFIRPDD.cpp:349-352 | fails, with a runtime error, exactly when one of "Pt.", "2theta" and "time" is missing |
| LoadHFIRPDD.RunStart | Code/Mantid/Framework/MDAlgorithms/src/LoadHFIRPDD.cpp:79-91 | the parent's run_start when present; otherwise the RunStart property, and an error exactly when that is empty too |
| LoadHFIRPDD.StartTimesOf | Code/Mantid/Framework/MDAlgorithms/src/LoadHFIRPDD.cpp:176-183 | one start time per row: the run start plus the durations of the earlier rows, in whole nanoseconds |
| LoadHFIRPDD.StartTimes | Code/Mantid/Framework/MDAlgorithms/src/LoadHFIRPDD.cpp:176-183 | the loop over the rows computes StartTimesOf |
| LoadHFIRPDD.ElapsedMonotone | Code/Mantid/Framework/MDAlgorithms/src/LoadHFIRPDD.cpp:182 | with non-negative durations the start times never go back |
| LoadHFIRPDD.IdStep | Code/Mantid/Framework/MDAlgorithms/src/LoadHFIRPDD.cpp:430-433 | after each run the detector-ID offset moves on by at least 100 and at least the run's spectrum count |
| LoadHFIRPDD.RunEvents | Code/Mantid/Framework/MDAlgorithms/src/LoadHFIRPDD.cpp:407-427 | one event per spectrum of the run, with its count (or the run's monitor value), its error, its ID plus the running offset, the run index and the run's relative time |
| LoadHFIRPDD.WriteEvents | Code/Mantid/Framework/MDAlgorithms/src/LoadHFIRPDD.cpp:402-442 | the file loop writes the events of every run in order, as RunEvents specifies |
| LoadHFIRPDD.MonitorEvents | Code/Mantid/Framework/MDAlgorithms/src/LoadHFIRPDD.cpp:494-540 | fails exactly when there are runs and no "monitor" log |
| LoadHFIRPDD.CreateMonitorMDWorkspace | Code/Mantid/Framework/MDAlgorithms/src/LoadHFIRPDD.cpp:471-561 | the monitor loop computes MonitorEvents |
| LoadHFIRPDD.DetOffsetGrows | Code/Mantid/Framework/MDAlgorithms/src/LoadHFIRPDD.cpp:406-433 | each run's offset lies past the IDs of every earlier run |
| LoadHFIRPDD.DetectorIdsSeparateRuns | Code/Mantid/Framework/MDAlgorithms/src/LoadHFIRPDD.cpp:418-433 | when a run's IDs stay below its ID step, every event of an earlier run has a smaller detector ID than every event of a later one |
| LoadHFIRPDD.MonitorMirrorsData | Code/Mantid/Framework/MDAlgorithms/src/LoadHFIRPDD.cpp:494-538 | the monitor events are the data events, one for one, with the signal replaced by their run's monitor value |
| LoadHFIRPDD.Column | Code/Mantid/Framework/MDAlgorithms/src/LoadHFIRPDD.cpp:217-221 | one value per row, the row's cell in that column |
| LoadHFIRPDD.ParseSampleLogs | Code/Mantid/Framework/MDAlgorithms/src/LoadHFIRPDD.cpp:202-227 | the loop over the index produces every indexed column as a log vector |
| LoadHFIRPDD.TimeSeries | Code/Mantid/Framework/MDAlgorithms/src/LoadHFIRPDD.cpp:592-594 | a time series pairs each start time with its value |
| LoadHFIRPDD.AppendSampleLogs | Code/Mantid/Framework/MDAlgorithms/src/LoadHFIRPDD.cpp:569-604 | the loop adds every log with one value per start time as a time series and skips the others |
| LoadHFIRPDD.ParsedLogsAllAppended | Code/Mantid/Framework/MDAlgorithms/src/LoadHFIRPDD.cpp:576-598 | logs read from the table have one value per row, so none is skipped |
| LoadHFIRPDD.Runs | Code/Mantid/Framework/MDAlgorithms/src/LoadHFIRPDD.cpp:242-288 | one workspace per row, spectrum i holding the row's value in the column of the i-th sorted anode with error 1 |
| LoadHFIRPDD.Exec | Code/Mantid/Framework/MDAlgorithms/src/LoadHFIRPDD.cpp:65-126 | the part of exec before reducePowderData computes Load of its inputs: error or output |
| LoadHFIRPDD.LoadFails | Code/Mantid/Framework/MDAlgorithms/src/LoadHFIRPDD.cpp:65-126 | the part of exec before reducePowderData fails exactly when no run start is known, a required column is missing, or there are rows but no "monitor" column |
| LoadHFIRPDD.LoadKeepsLogs | Code/Mantid/Framework/MDAlgorithms/src/LoadHFIRPDD.cpp:93-107 | on success every sample log of the table is kept and there is one start time per row |
| CheckSpaceGroup.Round | Code/Mantid/Framework/Crystal/src/CheckSpaceGroup.cpp:27-28 | the nearest integer, within one half, with halves rounded away from zero |
| CheckSpaceGroup.VerdictOf | Code/Mantid/Framework/Crystal/src/CheckSpaceGroup.cpp:81-88 | an absence violation exactly when the peak is observed and not allowed; an additional absence exactly when it is allowed and not observed |
| CheckSpaceGroup.Select | Code/Mantid/Framework/Crystal/src/CheckSpaceGroup.cpp:78-89 | a peak is in an output exactly when it is an input peak with that verdict |
| CheckSpaceGroup.Exec | Code/Mantid/Framework/Crystal/src/CheckSpaceGroup.cpp:62-93 | the loop puts exactly the absence violations in one output and exactly the additional absences in the other, in input order |
| CheckSpaceGroup.OutputsDisjoint | Code/Mantid/Framework/Crystal/src/CheckSpaceGroup.cpp:84-88 | no peak lands in both outputs |
| CheckSpaceGroup.VerdictsPartition | Code/Mantid/Framework/Crystal/src/CheckSpaceGroup.cpp:78-89 | the two outputs and the consistent peaks together account for every input peak once |
| CheckSpaceGroup.SelectKeepsOrder | Code/Mantid/Framework/Crystal/src/CheckSpaceGroup.cpp:78-89 | each output is a subsequence of the input, taken at increasing positions |
| CheckSpaceGroup.ObservedMonotone | Code/Mantid/Framework/Crystal/src/CheckSpaceGroup.cpp:18-21 | for a non-negative sigma, a peak observed at a higher threshold is observed at a lower one |
| MuonTFAsymmetry.LastNorm | Framework/Muon/src/ConvertFitFunctionForMuonTFAsymmetry.cpp:130-137 | a workspace that no table row names keeps the norm 0 |
| MuonTFAsymmetry.LastNormIsLastMatch | Framework/Muon/src/ConvertFitFunctionForMuonTFAsymmetry.cpp:132-137 | when rows name the workspace, the last of them decides its norm, since later rows overwrite earlier ones |
| MuonTFAsymmetry.GetNorms | Framework/Muon/src/ConvertFitFunctionForMuonTFAsymmetry.cpp:127-141 | the nested loops give each workspace of the list the norm of the last table row bearing its name, 0 when none does |
| MuonTFAsymmetry.RewriteTie | Framework/Muon/src/ConvertFitFunctionForMuonTFAsymmetry.cpp:189-195 | the rewritten tie is the original with two copies of the prefix f0.f1.f1. inserted |
| MuonTFAsymmetry.RewriteTieSides | Framework/Muon/src/ConvertFitFunctionForMuonTFAsymmetry.cpp:189-195 | a tie a.x=b.y becomes a.f0.f1.f1.x=b.f0.f1.f1.y: each side's parameter is moved under the user function's new path |
| MuonTFAsymmetry.RewriteTieWithoutDot | Framework/Muon/src/ConvertFitFunctionForMuonTFAsymmetry.cpp:190-195 | a tie with no dot gets both prefixes at its start, because a not-found position plus one wraps to 0 |
| MuonTFAsymmetry.RewrittenTies | Framework/Muon/src/ConvertFitFunctionForMuonTFAsymmetry.cpp:183-198 | there are never more output ties than original parameters |
| MuonTFAsymmetry.AddTies | Framework/Muon/src/ConvertFitFunctionForMuonTFAsymmetry.cpp:183-198 | the loop over the parameters adds exactly the rewritten tie of each tied parameter, in parameter order |
| MuonTFAsymmetry.RewrittenTiesCount | Framework/Muon/src/ConvertFitFunctionForMuonTFAsymmetry.cpp:186-197 | the number of ties added equals the number of tied parameters of the original |
| MuonTFAsymmetry.GetTFAsymmFitFunction | Framework/Muon/src/ConvertFitFunctionForMuonTFAsymmetry.cpp:147-201 | one domain function per domain with that domain's norm; a single-domain function is wrapped itself, a multi-domain one member by member with domain indexes set; ties are carried over only for several domains |
| MuonTFAsymmetry.Exec | Framework/Muon/src/ConvertFitFunctionForMuonTFAsymmetry.cpp:103-118 | Construct always sets an output whose domain j has the norm of the j-th listed workspace and the original's domain-j member as user function (the original itself for a single domain); the output is domain-indexed exactly for several domains, and then carries every tie of the original rewritten onto the user-function prefix, otherwise none; Extract sets none |
| MuonTFAsymmetry.ValidateInputs | Framework/Muon/src/ConvertFitFunctionForMuonTFAsymmetry.cpp:79-98 | no input is ever reported invalid, as every check is commented out |
| MDReductionWrapper.FloorDiv | Code/Mantid/scripts/Inelastic/Direct/MDReductionWrapper.py:47 | Python's `//`: the quotient rounded towards minus infinity, bracketing the dividend for either sign of divisor |
| MDReductionWrapper.GetFileNumber | Code/Mantid/scripts/Inelastic/Direct/MDReductionWrapper.py:35-39 | the loop answers as the first range holding the run, or (-1, -1, -1) |
| MDReductionWrapper.FirstEnclosingIsFirst | Code/Mantid/scripts/Inelastic/Direct/MDReductionWrapper.py:33-39 | with an end for every start: (-1, -1, -1) exactly when no range holds the run; otherwise the file number is the first range that holds it and the reported start and end are that range's |
| MDReductionWrapper.FirstCoveringRange | Code/Mantid/scripts/Inelastic/Direct/MDReductionWrapper.py:50-58 | the loop answers as the first range `[start, start + count)` holding the run, reported with its last run, or (-1, -1, -1) |
| MDReductionWrapper.CoveringIsEnclosing | Code/Mantid/scripts/Inelastic/Direct/MDReductionWrapper.py:50-58 | a range given by a start and a number of runs answers as get_file_number would with the end `start + count - 1` |
| MDReductionWrapper.SingleRangeAsWritten | Code/Mantid/scripts/Inelastic/Direct/MDReductionWrapper.py:44-48 | the single-range branch as written: (-1, -1, -1) before the start; division by zero for a block size of 0 |
| MDReductionWrapper.SingleRangeAsWrittenCounterexample | Code/Mantid/scripts/Inelastic/Direct/MDReductionWrapper.py:47-48 | run 105 of a range starting at 100 in tens is filed as number 1 under the range 0..10, which does not hold it |
| MDReductionWrapper.SingleRange | Code/Mantid/scripts/Inelastic/Direct/MDReductionWrapper.py:41-48 | the documented single-range branch: (-1, -1, -1) before the start; division by zero for a block size of 0 |
| MDReductionWrapper.SingleRangeHoldsRun | Code/Mantid/scripts/Inelastic/Direct/MDReductionWrapper.py:41-48 | for a positive block size, a run at or after the start gets a file number from 0 (0 for the start itself) whose range of n runs holds it |
| MDReductionWrapper.GetFileNumberAlternative | Code/Mantid/scripts/Inelastic/Direct/MDReductionWrapper.py:43-61 | the method answers as the alternative's branch chosen by the list sizes, the single-range branch numbering files from 0 as documented |
| MDReductionWrapper.FileNumberAlternativeFails | Code/Mantid/scripts/Inelastic/Direct/MDReductionWrapper.py:43-61 | the alternative raises exactly for incompatible list sizes, or for one range merged in blocks of 0 once the run reaches it; two empty lists give (-1, -1, -1) |
| MDReductionWrapper.DefaultFileName | Code/Mantid/scripts/Inelastic/Direct/MDReductionWrapper.py:67 | the default name is the range's start, an underscore, its end and then _SQW.nxs, read back piece by piece |
| MDReductionWrapper.GetFileName | Code/Mantid/scripts/Inelastic/Direct/MDReductionWrapper.py:64-69 | a missing or empty name list gives the name built from the range; otherwise the listed name at the file number, with Python's indexing and its IndexError |
| MDReductionWrapper.DefaultFileNameInjective | Code/Mantid/scripts/Inelastic/Direct/MDReductionWrapper.py:67 | different ranges get different default names |
| MDReductionWrapper.GetPsi | Code/Mantid/scripts/Inelastic/Direct/MDReductionWrapper.py:79-91 | one start and increment serve every file; equal lists or several starts with one increment give each file its own start (and increment); other sizes raise |
| MDReductionWrapper.PsiSteps | Code/Mantid/scripts/Inelastic/Direct/MDReductionWrapper.py:84-88 | psi is the file's start at its first run and grows by the increment from one run to the next |
| IndirectILLReduction.CheckQENS | Framework/PythonInterface/plugins/algorithms/WorkflowAlgorithms/IndirectILLReduction.py:49-88 | a run is skipped as not QENS exactly when its maximum delta energy is recorded as 0 or its velocity profile is recorded as non-zero; missing logs count as QENS |
| IndirectILLReduction.ArgMax | Framework/PythonInterface/plugins/algorithms/WorkflowAlgorithms/IndirectILLReduction.py:42-44 | numpy's argmax: a position of the largest value, and the first such position |
| IndirectILLReduction.Slice | Framework/PythonInterface/plugins/algorithms/WorkflowAlgorithms/IndirectILLReduction.py:42-44 | Python's slice: its length is the clipped bounds' difference and its elements are those of the sequence from the lower bound on |
| IndirectILLReduction.MonitorRangeOfHistogram | Framework/PythonInterface/plugins/algorithms/WorkflowAlgorithms/IndirectILLReduction.py:28-45 | on histogram data with at least three x values the range is found; its upper end is the x value after the first largest count of the upper half, its lower end the x value before the first largest count of the lower half, wrapping to the last x value when that count is the first |
| IndirectILLReduction.MonitorRangeValue | Framework/PythonInterface/plugins/algorithms/WorkflowAlgorithms/IndirectILLReduction.py:40-45 | the pair returned is read at one before the left maximum and one after the right maximum |
| IndirectILLReduction.ArgMaxOfSlice | Framework/PythonInterface/plugins/algorithms/WorkflowAlgorithms/IndirectILLReduction.py:42-44 | the maximum of a slice, shifted by the slice's start, is the first largest value of y within those bounds |
| IndirectILLReduction.MaskRanges | Framework/PythonInterface/plugins/algorithms/WorkflowAlgorithms/IndirectILLReduction.py:91-115 | the leading bins up to x[xstart] are masked exactly for a positive xstart and the trailing bins from x[xend + 1] exactly when xend is before the last x value; the call fails exactly when one of those indexes is out of Python's range |
| IndirectILLReduction.MaskNothingForFullRange | Framework/PythonInterface/plugins/algorithms/WorkflowAlgorithms/IndirectILLReduction.py:101-111 | limits spanning the whole axis mask nothing |
| IndirectILLReduction.DeltaEnergy | Framework/PythonInterface/plugins/algorithms/WorkflowAlgorithms/IndirectILLReduction.py:143-153 | the Doppler energy is the maximum delta energy when logged, else the delta energy, else 0 |
| IndirectILLReduction.EnergyFormula | Framework/PythonInterface/plugins/algorithms/WorkflowAlgorithms/IndirectILLReduction.py:131-158 | the formula fails, by division by zero, exactly for a single x value |
| IndirectILLReduction.EnergyFormulaSpansDelta | Framework/PythonInterface/plugins/algorithms/WorkflowAlgorithms/IndirectILLReduction.py:139-154 | the formula sends the middle channel to 0 and the first and last channels to minus and plus the Doppler energy in milli eV |
| IndirectILLReduction.HalfSum | Framework/PythonInterface/plugins/algorithms/WorkflowAlgorithms/IndirectILLReduction.py:246-249 | Plus then Scale by 0.5 succeed exactly for wings of equal size and give their bin-by-bin mean |
| IndirectILLReduction.ShiftOption5AsWritten | Framework/PythonInterface/plugins/algorithms/WorkflowAlgorithms/IndirectILLReduction.py:198-205 | option 5 as written stores the right wing shifted onto the vanadium's right wing in the left workspace, leaving the right wing and the reduced workspace as they were |
| IndirectILLReduction.Option5AsWrittenIgnoresLeft | Framework/PythonInterface/plugins/algorithms/WorkflowAlgorithms/IndirectILLReduction.py:198-205 | as written, option 5's sum is the same whatever the left wing holds |
| IndirectILLReduction.Unmirror | Framework/PythonInterface/plugins/algorithms/WorkflowAlgorithms/IndirectILLReduction.py:161-251 | options 0 to 3 keep the whole bin range: 0 keeps the workspaces, 2 and 3 take the left or right wing; option 1 and the options above 3 succeed exactly when the shifted wings have equal sizes, keep the shifted wings and make the reduced data their bin-by-bin mean (left + right)/2; negative options keep everything and options above 7 shift nothing and keep the whole bin range; option 5 averages the left wing with the shifted right wing, as intended |
| IndirectILLReduction.Option5AveragesBothWings | Framework/PythonInterface/plugins/algorithms/WorkflowAlgorithms/IndirectILLReduction.py:198-205 | option 5 as intended averages the left wing with the right wing shifted onto the vanadium, bin by bin |
| IndirectILLReduction.UnmirrorBinsIntersect | Framework/PythonInterface/plugins/algorithms/WorkflowAlgorithms/IndirectILLReduction.py:207-218 | option 6 keeps the intersection of the two bin ranges MatchPeaks reports |
| IndirectILLReduction.UnmirrorOption7Intersects | Framework/PythonInterface/plugins/algorithms/WorkflowAlgorithms/IndirectILLReduction.py:220-244 | option 7 keeps a range inside all four bin ranges MatchPeaks reports |
| IndirectILLReduction.Workspaces.PerformUnmirror | Framework/PythonInterface/plugins/algorithms/WorkflowAlgorithms/IndirectILLReduction.py:161-251 | the workspaces end as the unmirroring gives them, with its bin range; for option 1 and the options above 3 the reduced workspace is the bin-by-bin mean of the two wings; when the sum fails the wings are left shifted |
| IndirectILLReduction.FinalMaskRange | Framework/PythonInterface/plugins/algorithms/WorkflowAlgorithms/IndirectILLReduction.py:680-704 | after a shift the range is the overlap of both monitor ranges and the kept bins; unmirrored two-wing data take the overlap of the monitor ranges; two wings with unmirror option 0 span from the left wing's start to the right wing's end moved by half the last X value, truncated; one wing (mirror sense 16) takes the monitor's own range; otherwise the whole block |
| IndirectILLReduction.FinalRangeWithinAll | Framework/PythonInterface/plugins/algorithms/WorkflowAlgorithms/IndirectILLReduction.py:685-690 | after a shift the final range lies within both monitor ranges and the kept bin range |
| IndirectILLReduction.ValidateInputs | Framework/PythonInterface/plugins/algorithms/WorkflowAlgorithms/IndirectILLReduction.py:391-400 | the only issue reported is a missing vanadium run, exactly for options 5 and 7 |
| IndirectILLReduction.CommasToPluses | Framework/PythonInterface/plugins/algorithms/WorkflowAlgorithms/IndirectILLReduction.py:425-427 | every comma becomes a plus and every other character stays |
| IndirectILLReduction.RunString | Framework/PythonInterface/plugins/algorithms/WorkflowAlgorithms/IndirectILLReduction.py:425-427 | with runs summed no comma is left; otherwise the run string is unchanged |
| IndirectILLReduction.CommasToPlusesIdempotent | Framework/PythonInterface/plugins/algorithms/WorkflowAlgorithms/IndirectILLReduction.py:425-427 | rewriting a rewritten run string changes nothing, and characters other than commas are kept |
| JumpFit.FindAxisLabelsWithSubstrings | qt/scientific_interfaces/Indirect/JumpFit.cpp:192-210 | the nested loops keep exactly the labels the axis-by-axis rule keeps: a label containing a substring is kept under its axis index while fewer than the maximum are kept |
| JumpFit.LabelsCapped | qt/scientific_interfaces/Indirect/JumpFit.cpp:202-204 | never more than the maximum number of labels is kept |
| JumpFit.KeptLabelsMatch | qt/scientific_interfaces/Indirect/JumpFit.cpp:197-208 | every kept label contains one of the substrings and maps to an axis index carrying that label |
| JumpFit.LabelsGrow | qt/scientific_interfaces/Indirect/JumpFit.cpp:197-208 | kept labels are never dropped, so the set of kept labels only grows along the axis |
| JumpFit.FullIsFinal | qt/scientific_interfaces/Indirect/JumpFit.cpp:202-208 | once the maximum is reached later axis entries change nothing, not even the index of a label kept already |
| JumpFit.UnfilledKeepsLastIndex | qt/scientific_interfaces/Indirect/JumpFit.cpp:197-208 | while the cap is not reached every matching label is kept, under the last axis index that carries it |
| JumpFit.FindAllWidths | qt/scientific_interfaces/Indirect/JumpFit.cpp:174-190 | a text axis gives the labels holding ".Width" or ".FWHM", at most 3; any other axis gives no widths |
| JumpFit.AtMostThreeWidths | qt/scientific_interfaces/Indirect/JumpFit.cpp:181 | at most three width spectra are offered |
| JumpFit.BaseName | qt/scientific_interfaces/Indirect/JumpFit.cpp:277-280 | the name is cut at its last '_', so the part kept is a prefix and no '_' follows the cut; a name without '_' is kept whole |
| JumpFit.OutputNameDeterminesParts | qt/scientific_interfaces/Indirect/JumpFit.cpp:274-282 | output names built from base names of one length agree only for the same base name and fit type |
| JumpFit.OutputNameOfReducedSample | qt/scientific_interfaces/Indirect/JumpFit.cpp:277-281 | "irs26176_red" with fit type HallRoss gives "irs26176_HallRoss_JumpFit" |
| JumpFit.SingleFitInput | qt/scientific_interfaces/Indirect/JumpFit.cpp:285-291 | the fit input names the sample and the index of the selected width; a width not in the list throws, as map::at does |
| JumpFit.FitInputDeterminesWidth | qt/scientific_interfaces/Indirect/JumpFit.cpp:291 | for one sample, different width spectra give different fit inputs |
| PoldiDetectorAdapter.GetNonMaskedDetectorIds | Code/Mantid/Framework/SINQ/src/PoldiUtilities/PoldiDetectorAdapter.cpp:69-81 | the loop pushes exactly the indexes of the unmasked detectors, in order |
| PoldiDetectorAdapter.NonMaskedExactly | Code/Mantid/Framework/SINQ/src/PoldiUtilities/PoldiDetectorAdapter.cpp:74-78 | the available elements are exactly the unmasked indexes, strictly ascending and below the number of detectors |
| PoldiDetectorAdapter.NonMaskedCount | Code/Mantid/Framework/SINQ/src/PoldiUtilities/PoldiDetectorAdapter.cpp:69-81 | there are never more available elements than detectors, and as many exactly when none is masked |
| PoldiDetectorAdapter.Adapter.constructor | Code/Mantid/Framework/SINQ/src/PoldiUtilities/PoldiDetectorAdapter.cpp:10-33 | the children, grouped by id as a detector group keeps them, become the elements; the available elements are the unmasked ones, the efficiency is the first efficiency parameter, the sample sits at the origin and the beam points along +z |
| PoldiDetectorAdapter.AddByIdKeepsOrder | Code/Mantid/Framework/SINQ/src/PoldiUtilities/PoldiDetectorAdapter.cpp:26 | adding a detector to a group keeps its ids ascending, and adds the detector exactly when its id is new |
| PoldiDetectorAdapter.GroupOfAscending | Code/Mantid/Framework/SINQ/src/PoldiUtilities/PoldiDetectorAdapter.cpp:26-27 | the group's detectors come back in strictly ascending id order |
| PoldiDetectorAdapter.GroupOfFirst | Code/Mantid/Framework/SINQ/src/PoldiUtilities/PoldiDetectorAdapter.cpp:26-27 | each detector of the group is the first child with its id |
| PoldiDetectorAdapter.GroupOfComplete | Code/Mantid/Framework/SINQ/src/PoldiUtilities/PoldiDetectorAdapter.cpp:26-27 | every child's id is in the group |
| PoldiDetectorAdapter.Adapter.ElementCount | Code/Mantid/Framework/SINQ/src/PoldiUtilities/PoldiDetectorAdapter.cpp:46-48 | the element count is at most the number of all elements, and equal to it exactly when no element is masked |
| PoldiDetectorAdapter.Adapter.CentralElement | Code/Mantid/Framework/SINQ/src/PoldiUtilities/PoldiDetectorAdapter.cpp:54-56 | the central element is the middle index of a non-empty row; an empty row wraps to 2^63 - 1 in size_t |
| PoldiDetectorAdapter.Adapter.DistanceFromSample | Code/Mantid/Framework/SINQ/src/PoldiUtilities/PoldiDetectorAdapter.cpp:42-44 | given a true square root, the distance is non-negative and its square is the element's squared distance from the origin times 10^6 (m to mm) |
| PoldiDetectorAdapter.AvailableBelowCount | Code/Mantid/Framework/SINQ/src/PoldiUtilities/PoldiDetectorAdapter.cpp:46-60 | every available element is a valid element index, and the central element lies inside a non-empty row |
| PoldiDetectorFactory.CreateDetectorByName | Code/Mantid/Framework/SINQ/src/PoldiUtilities/PoldiDetectorFactory.cpp:12-17 | every detector type name gives the helium detector |
| PoldiDetectorFactory.CreateDetector | Code/Mantid/Framework/SINQ/src/PoldiUtilities/PoldiDetectorFactory.cpp:19-26 | the helium detector exactly for experiments before 2016-01-01, a null pointer from then on |
| PoldiDetectorFactory.BeforeIsStrictTotal | Code/Mantid/Framework/SINQ/src/PoldiUtilities/PoldiDetectorFactory.cpp:21 | the date order is irreflexive, transitive and total |
| PoldiDetectorFactory.NullStaysNull | Code/Mantid/Framework/SINQ/src/PoldiUtilities/PoldiDetectorFactory.cpp:19-26 | once the factory returns null for a date, it does for every later date |
| PoldiDetectorFactory.CutoffDays | Code/Mantid/Framework/SINQ/src/PoldiUtilities/PoldiDetectorFactory.cpp:9-10 | 2015-12-31 still gets the helium detector, 2016-01-01 does not |
| HB2AGenerator.LastWordEnd | Code/Mantid/instrument/hb2a_generator.py:246-251 | the last word ends at a character that is not whitespace, with only whitespace after it |
| HB2AGenerator.LastField | Code/Mantid/instrument/hb2a_generator.py:246-251 | `terms[-1]` of a non-blank line: a non-empty word without whitespace, preceded by whitespace or the line's start and followed only by whitespace |
| HB2AGenerator.TrailingWord | Code/Mantid/instrument/hb2a_generator.py:250-251 | the word ending at a position is the whole run of non-whitespace characters before it |
| HB2AGenerator.GapsOf | Code/Mantid/instrument/hb2a_generator.py:244-256 | a parsed file never has more gaps than lines |
| HB2AGenerator.ParseGapFile | Code/Mantid/instrument/hb2a_generator.py:234-256 | the loop answers as the gaps of the non-blank lines in file order, or ValueError at the first last field that is not a number |
| HB2AGenerator.GapErrorPersists | Code/Mantid/instrument/hb2a_generator.py:251 | once a line fails to convert, the whole file fails with that error |
| HB2AGenerator.OneGapPerLine | Code/Mantid/instrument/hb2a_generator.py:245-253 | a parsed file holds one gap per line that is not blank |
| HB2AGenerator.Positions | Code/Mantid/instrument/hb2a_generator.py:35-39 | one position per gap |
| HB2AGenerator.Generator.ImportDetInfo | Code/Mantid/instrument/hb2a_generator.py:25-45 | a detector count other than the number of gaps raises NotImplementedError and changes nothing; otherwise the count is stored and each tube position is the running sum of the gaps on the given radius |
| HB2AGenerator.Generator.SetSourceDistance | Code/Mantid/instrument/hb2a_generator.py:48-53 | only the source distance changes |
| HB2AGenerator.Generator.SourceZ | Code/Mantid/instrument/hb2a_generator.py:119-129 | the source sits at minus the source distance on the beam axis; before any distance is set the attribute is missing |
| HB2AGenerator.Tubes | Code/Mantid/instrument/hb2a_generator.py:196-200 | tubes 1 to 44 take the first 44 positions, as radius and angle; fewer positions raise IndexError |
| HB2AGenerator.SumGrows | Code/Mantid/instrument/hb2a_generator.py:35-39 | with no negative gap, angles never decrease along the bank |
| HB2AGenerator.PositionsStepByGap | Code/Mantid/instrument/hb2a_generator.py:36-39 | consecutive tubes are one gap apart and share the radius |
| HB2AGenerator.RunScript | Code/Mantid/instrument/hb2a_generator.py:259-284 | fewer than three arguments give the usage text; without distances both default to 2 m; given distances are converted with float, and a distance float cannot read raises ValueError; the instrument is then the one built from the gap file |
| HB2AGenerator.Build | Code/Mantid/instrument/hb2a_generator.py:277-282 | an instrument is built exactly when the gap file parses with at least 44 gaps, with the source at minus its distance and the detectors on the given radius |
| HB2AGenerator.BuiltTubesFollowGaps | Code/Mantid/instrument/hb2a_generator.py:196-200 | in a built instrument tube k + 1 sits at the sum of the first k + 1 gaps, on the detector radius |
| CatalogPath.FileName | Code/Mantid/Framework/ICat/src/CatalogPublish.cpp:89 | Poco's file name: the part of the path after its last separator, holding no separator |
| CatalogPath.Extension | Code/Mantid/Framework/ICat/src/CatalogPublish.cpp:160 | Poco's extension: the end of the name after its last '.', holding no '.' |
| CatalogPath.BaseName | Code/Mantid/Framework/ICat/src/CatalogPublish.cpp:199-202 | Poco's base name: the name up to its last '.', with no '.' after it; a name without '.' is kept whole |
| CatalogPath.ToLower | Code/Mantid/Framework/ICat/src/CatalogPublish.cpp:161-162 | each character lower-cased in the C locale, the length kept |
| CatalogPath.Join | Code/Mantid/Framework/ICat/src/CatalogDownloadDataFiles.cpp:135-136 | the name joined into a directory ends the path, after a separator when the directory is not empty |
| CatalogPath.JoinKeepsFileName | Code/Mantid/Framework/ICat/src/CatalogDownloadDataFiles.cpp:135-136 | a name without a separator is the file name of the path it is joined into |
| CatalogPath.ExtensionAfterLastDot | Code/Mantid/Framework/ICat/src/CatalogPublish.cpp:160 | the extension of stem.ext is ext when ext holds no '.' or separator |
| CatalogPath.DataFileByExtension | Code/Mantid/Framework/ICat/src/CatalogPublish.cpp:159-164 | a path ending in .ext is a data file exactly when ext, lower-cased, is raw or nxs |
| CatalogPath.DataFileInCapitals | Code/Mantid/Framework/ICat/src/CatalogDownloadDataFiles.cpp:118-123 | an upper-case .RAW extension still marks a data file |
| CatalogPath.CompressedIsNotDataFile | Code/Mantid/Framework/ICat/src/CatalogPublish.cpp:159-164 | only the last extension counts: a .raw.gz file is not a data file |
| CatalogPublish.Publish | Code/Mantid/Framework/ICat/src/CatalogPublish.cpp:59-134 | a name outside [a-zA-Z0-9_.] is refused first, then a request with neither or both of a workspace and a file; a success needs a catalog that publishes and a file that opens, is read in binary exactly for data files, defaults its catalog name to the file name or the workspace name, and publishes a history script only for a workspace, saved as a NeXus file in the default save directory |
| CatalogPublish.WorkspaceUploadIsBinary | Code/Mantid/Framework/ICat/src/CatalogPublish.cpp:106-117 | a published workspace is always read in binary mode, as it is saved as a NeXus file |
| CatalogPublish.SavedWorkspaceIsDataFile | Code/Mantid/Framework/ICat/src/CatalogPublish.cpp:110-112 | the file a workspace is saved to is a data file |
| CatalogPublish.HistoryOfValidName | Code/Mantid/Framework/ICat/src/CatalogPublish.cpp:199-202 | a name that passes the check is its own file name, and the history of run.nxs is run.py |
| CatalogPublish.HistoryOfStemAndExtension | Code/Mantid/Framework/ICat/src/CatalogPublish.cpp:199-202 | the history of a bare file name stem.ext is stem.py: the extension after the last dot is replaced |
| CatalogPublish.DefaultedNameIsNotChecked | Code/Mantid/Framework/ICat/src/CatalogPublish.cpp:63-96 | a catalog name defaulted from the file name, such as "my run.txt", is never checked against the allowed characters |
| CatalogDownloadDataFiles.Location | Code/Mantid/Framework/ICat/src/CatalogDownloadDataFiles.cpp:88-106 | a file that opens in the archive is located there; otherwise at the download path of its name, or "" when the download fails |
| CatalogDownloadDataFiles.Locations | Code/Mantid/Framework/ICat/src/CatalogDownloadDataFiles.cpp:70-107 | one location per file id, each that file's location |
| CatalogDownloadDataFiles.Downloader.Exec | Code/Mantid/Framework/ICat/src/CatalogDownloadDataFiles.cpp:41-111 | without a downloading catalog it throws and changes nothing; otherwise the output holds each file's location in id order, the progress counter ends at 0.1 per file, and the algorithm ends cancelled exactly when it was before or some download failed |
| CatalogDownloadDataFiles.Downloader.DownloadAndSave | Code/Mantid/Framework/ICat/src/CatalogDownloadDataFiles.cpp:132-168 | the saved file's path in the download directory, or "" and a cancelled algorithm when the download fails |
| CatalogDownloadDataFiles.ProgressFraction | Code/Mantid/Framework/ICat/src/CatalogDownloadDataFiles.cpp:71-72 | the progress reported after the k-th of n files is k/n, never above 1 |
| CatalogDownloadDataFiles.LocationKinds | Code/Mantid/Framework/ICat/src/CatalogDownloadDataFiles.cpp:88-106 | every entry is an archive path that opens, a downloaded path keeping its file name, or empty after a failed download |
| GemAdvancedConfig.GetModeSpecificVariables | scripts/Diffraction/isis_powder/gem_routines/gem_advanced_config.py:113-120 | the dictionary holds exactly the mode keys and save_all; save_all is the flag given and every other key takes the value of the texture-on or texture-off table |
| GemAdvancedConfig.GetAllAdvVariables | scripts/Diffraction/isis_powder/gem_routines/gem_advanced_config.py:106-110 | the advanced variables are the GSAS calibration file, the MAUD grouping and, under raw_tof_cropping_values, the whole table of GEM parameters, whose own cropping range is 500 to 20000 |
| GemAdvancedConfig.TextureModeSettings | scripts/Diffraction/isis_powder/gem_routines/gem_advanced_config.py:92-97 | texture mode has one cropping range per texture group (160), the texture grouping file and every save flag on |
| GemAdvancedConfig.StandardModeSettings | scripts/Diffraction/isis_powder/gem_routines/gem_advanced_config.py:99-104 | texture mode off has the six banks' cropping ranges, the instrument grouping file and every save flag off |
| GemAdvancedConfig.BankCroppingRangesWellFormed | scripts/Diffraction/isis_powder/gem_routines/gem_advanced_config.py:19-62 | each bank's cropping range starts before it ends, and the vanadium range starts before the focused one |
| GemAdvancedConfig.MaudGroupingInBankOrder | scripts/Diffraction/isis_powder/gem_routines/gem_advanced_config.py:108 | the MAUD grouping gives each of the 160 texture groups a bank from 1 to 6, in bank order, one per texture cropping range |

## Left out

- Concurrency: the OpenMP loop of Q1D2 `exec` is modelled as a plain sequential loop; thread pools are not part of this model.
- Floating point: every double is a `real`. Rounding, NaN and float casts are not modelled. IEEE division by zero appears as a `NonFinite` value where the C++ divides without a guard.
- Square roots, trigonometry and Q conversion are left out. Q1D2's `convertWavetoQ`, POLDI's `twoTheta` and `qLimits`, and the spherical geometry are not modelled. A square root is a parameter, and the contracts hold for any function that returns a true square root.
- Child algorithms are parameters or given values: Fit/BSpline, EvaluateMDFunction, PlusMD/MinusMD/DivideMD, MDNormSCD, SliceMD, PredictPeaks, IntegratePeaksMD, Rebin, Integration, MultiplyRange, WeightedMean, MatchPeaks, MaskBins, SaveNexus, GeneratePythonScript and ImportMDEventWorkspace.
- File I/O, the network, XML and logging are not modelled. This covers:
  - `CoordTransformDistance::toXMLString`;
  - the temporary files of LoadHFIRPDD;
  - the upload, download and save calls of the catalog algorithms;
  - the XML text written by hb2a_generator;
  - the lock files of MDReductionWrapper;
  - progress messages, warnings and log text.
- GUI code is not modelled: the JumpFit widgets, signals and plots.
- SmoothMDHisto: the diagnostic output and the unused `fit` with a real Fit are not modelled. Before the stop check, `iterate` reads X values at the sentinel position, which is out of range; that read is not modelled.
- Stitch1D: error messages that embed values are shortened to fixed text, and the empty default of Params is the only default modelled.
- LoadHFIRPDD: detector positions are left out. `atoi` reads a number of any length, because its `int` overflow is not modelled. Table cells are reals, and the parsing of the RunStart text into a time is a parameter.
- CheckSpaceGroup: the space group's reflection condition is a parameter.
- MuonTFAsymmetry: the function factory, function strings, `std::to_string` and the muon lifetime constant are not modelled. A user function is a value of a type parameter.
- MuonTFAsymmetry.GetTFAsymmFitFunction requires at least one norm per domain, because the source indexes `norms` without a check.
- MuonTFAsymmetry.Exec requires at least as many listed workspaces as domains in Construct mode, for the same reason.
- MDReductionWrapper: Python's bare `Exception` is modelled as a `RuntimeError`.
- IndirectILLReduction: each workspace holds one spectrum. Monitor ranges are bin indexes, where the script passes x values that equal the channel numbers before energy conversion. The `%f` formatting of the energy formula is not modelled.
- IndirectILLReduction.FinalMaskRange: the extra masking of the middle bins, between the two wings' monitor ranges, for unmirror option 0 with mirror sense 14 (IndirectILLReduction.py:694-698) is not modelled, because MaskBins is a child algorithm; the model gives only the range the run is finally masked to.
- PoldiDetectorAdapter: a child that is not a detector, which the cast would turn into a null pointer, is not modelled.
- PoldiDetectorAdapter.Adapter.constructor requires a non-empty efficiency parameter list, since `front()` on an empty vector is undefined.
- LoadHFIRPDD.Exec, LoadHFIRPDD.LoadFails: the model stops where exec calls `reducePowderData` (LoadHFIRPDD.cpp:109). As written, that function throws "FROM HERE!" on every call (LoadHFIRPDD.cpp:638), so exec never reaches `setProperty`; the file also does not compile as written, since `mditer` is declared twice (LoadHFIRPDD.cpp:616, 637) and `twotheta0` is undefined (LoadHFIRPDD.cpp:634). "Fails exactly when" covers only the part of exec before that call.
- LoadHFIRPDD.Exec, LoadHFIRPDD.LoadFails: each run workspace copies the parent workspace's logs, and the MD conversion reads its "time" log (LoadHFIRPDD.cpp:437, 535). The model takes that value as the parent's run time; a parent without a "time" log, where `getProperty` throws, is not modelled.
- Q1D2.SpectrumNorms, Q1D2.SpectrumWeights: the wavelength adjustment uses the corrected error propagation (`AddWaveAdjPropagated`), not the `+=` of Q1D2.cpp:346, which counts the old squared error twice; see the findings below. Output values are the same, output errors differ wherever a wavelength adjustment is given.
- Q1D2.AddOne, Q1D2.Accumulate, Q1D2.AccumulateSpectrum: inherit the corrected propagation of Q1D2.SpectrumNorms, so the accumulated normalisation errors are not those of Q1D2.cpp:346 as written.
- Q1D2.Reduction, Q1D2.Exec: inherit the corrected propagation, so the output errors are not those exec computes as written when a wavelength adjustment is given; values, bin counts and the error cases are as written.
- MDReductionWrapper.FileNumberAlternative, MDReductionWrapper.GetFileNumberAlternative: the single-range branch uses the documented `SingleRange` (file numbers from 0, the block of n runs that holds the run), not the code of MDReductionWrapper.py:44-48 as written, which `SingleRangeAsWritten` models; for run 105, start 100 and blocks of 10 the script answers (1, 0, 10) and the model (0, 100, 109). See the findings below.
- IndirectILLReduction.ShiftWings, IndirectILLReduction.Unmirror, IndirectILLReduction.Workspaces.PerformUnmirror: option 5 writes MatchPeaks' output into the right wing, as intended, not into `left` as IndirectILLReduction.py:201 does, which `ShiftOption5AsWritten` models; as written, the result is the mean of the shifted right wing and the unshifted right wing. See the findings below.
- MDProduct.MDProduct.Function, MDProduct.MDProduct.EvaluateCells: require every cache to cover the bins of the dimension at its recorded index (`CacheCoversShape`). With repeated dimension ids the first-match lookup can record another dimension's index, and the C++ then reads past the end of a cache, which is undefined; `SetWorkspace` proves the requirement for unique ids.
- ConvertMDHistoToMatrixWorkspace.Make2DWorkspace, ConvertMDHistoToMatrixWorkspace.FillRow: require every image cell to read inside the workspace (`ImageReadsInside`), for the same reason: with repeated ids the strides may be another dimension's and the loop reads past the signal array. `UniqueIdsImageInside` proves it for unique ids.
- PoldiDetectorAdapter: the detector group class is not part of this model. `GroupOf` follows its documented behaviour, a map keyed by detector id in which the first detector of an id is kept and detectors come back in id order.
- PoldiDetectorFactory: dates are year, month and day triples, not boost dates.
- HB2AGenerator: `float` is a parameter, and blanks are the whitespace characters of Python 2's `str.split`. The console output of `importDetInfo` and `main` is not modelled. Attributes the script reads before setting are modelled as initial values, except the source distance, which raises as in the script.
- CatalogPath: paths use '/' as the only separator, and Poco's normalisation of `..`, `.` and drive letters is not modelled. The workspace name is the InputWorkspace property's value.
- CatalogDownloadDataFiles.Downloader.Exec requires at least as many file names as file ids, because the source walks both lists together without a bound check.
- GemAdvancedConfig: `absorption_correction_params` is not modelled, since no function of the module reads it. Values are immutable, so the model cannot express aliasing of the shared tables; a fresh dictionary per call is automatic.
- ConvertMDHistoToMatrixWorkspace: the display normalisation and the line plot (`getLinePlot`) are given values.
- IntegrateNormalizedMDHistoWorkspace: float casts are not modelled.
- IntegrateNormalizedMDHistoWorkspace.SubtractBackground: the peak sigma uses the propagated variance, not the expression as written at IntegrateNormalizedMDHistoWorkspace.cpp:189-190; see the findings below.

## Findings

| source | as written | input that shows it | evidently intended | confidence | as-written member | corrected member |
|---|---|---|---|---|---|---|
| Code/Mantid/Framework/MDAlgorithms/src/IntegrateNormalizedMDHistoWorkspace.cpp:189-190 | `e2sample/norm*norm` parses as `(e2sample/norm)*norm`, i.e. e2sample, so the interior variance is not divided by norm² | sample error² 1, norm 2, every other term 0: the sigma argument is 1 | the first-order variance of sample/norm − ratio·bkgSample/bkgNorm, which gives 0.25 there | not executed | IntegrateNormalizedMDHistoWorkspace.SigmaAsWrittenCounterexample | IntegrateNormalizedMDHistoWorkspace.IntendedSigmaScaleInvariant |
| Code/Mantid/Framework/Algorithms/src/Q1D2.cpp:346 | `normETo2 += ...` adds the propagated error to the old squared error, so the old error counts twice | b = 1, e2 = 1, c = 1, Dc = 0: the new squared error is 2 | the squared error of the product b·c, e2·c² + Dc²·b², which is 1 there | not executed | Q1D2.AddWaveAdjDoublesError | Q1D2.AddWaveAdjPropagated |
| Code/Mantid/scripts/Inelastic/Direct/MDReductionWrapper.py:44-48 | the single-range branch numbers files from 1 and reports the range (fn·n, (fn+1)·n) without the start offset | run 105, start 100, n 10: (1, 0, 10), a range that does not hold run 105 | file numbers from 0, as the comment documents, and the block of n runs that holds the run | not executed | MDReductionWrapper.SingleRangeAsWrittenCounterexample | MDReductionWrapper.SingleRangeHoldsRun |
| Framework/PythonInterface/plugins/algorithms/WorkflowAlgorithms/IndirectILLReduction.py:198-205 | option 5 writes MatchPeaks' output into `left`, so the result is the mean of the shifted right wing and the unshifted right wing, and the left wing is lost | left = [1], right = [0], MatchPeaks the identity: the result is 0 | the left wing averaged with the right wing shifted onto the vanadium's right wing, 0.5 there | not executed | IndirectILLReduction.Option5AsWrittenIgnoresLeft | IndirectILLReduction.Option5AveragesBothWings |
