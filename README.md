# PyMca ROI reduction and advanced-fit helpers in Dafny

This project models two parts of PyMca, the X-ray fluorescence toolkit.

**ROI batch reduction** (`roi_statistics.dfy`, `stack_roi_batch.dfy`). A region of
interest (ROI) is an interval `[from, to]` on the spectrum axis. For every spectrum
the batch engine reports, for each ROI:

- the *raw* count: the sum of the samples whose axis value lies in the interval;
- the *net* count: raw minus a straight-line background through the first and last
  selected samples;
- optionally, the axis coordinates of the minimal and maximal selected samples
  ("channel at min/max").

The engine itself (`StackROIBatch`) is not part of this model. This model specifies
it by the reference computation in `PyMca5/tests/ROIBatchTest.py`:

- `RoiStatistics` holds that computation as pure functions over `seq<real>`: window,
  raw sum, linear baseline, the two fallbacks, and the extremum locations.
- `StackRoiBatch.Batch` holds the engine's result: the named images, one value per
  spectrum, built from those functions.
- The loop of the test that stores the expected counts into the configuration
  dictionary is the method `RoiConfiguration.StoreReferenceCounts`.

**Advanced-fit helpers** (`mca_advanced_fit.dfy`, from
`PyMca5/PyMcaGui/physics/xrf/McaAdvancedFit.py`):

- `array2SpecMca` writes an array as a Spec MCA `@A` block: 16 values per line,
  with a backslash continuation.
- The `Top` widget encodes its fit-function combo box and tail check boxes into the
  `hypermetflag` integer, and decodes them again. The widget is reduced to the state
  its two methods read and write.
- `peaksSpectrum` builds one parameter vector per peak group.
- `_saveGraph` applies a rule for appending the file suffix.

Counts are `real`, so there is no rounding. Rendering one number with `"%.4f"` is
the function parameter `fmt`.

`wrappers.dfy` holds the `Option` and `Result` datatypes.

## Model

| member | source | states |
|---|---|---|
| RoiStatistics.WindowFrom | PyMca5/tests/ROIBatchTest.py:96 | The indices it selects are in range, lie inside the axis and are strictly increasing. |
| RoiStatistics.WindowExactly | PyMca5/tests/ROIBatchTest.py:96 | A position is selected if and only if it is on the axis and `from <= x[k] <= to` (both directions). |
| RoiStatistics.WindowContiguous | PyMca5/tests/ROIBatchTest.py:96 | On a monotonic axis, increasing or decreasing, the selected positions form one contiguous run. |
| RoiStatistics.RawIsMaskedSum | PyMca5/tests/ROIBatchTest.py:96-100 | The raw count equals an independent definition: the masked sum of y over every in-range position, 0 elsewhere. |
| RoiStatistics.RawNonNegative | PyMca5/tests/ROIBatchTest.py:224-226 | Non-negative samples give a non-negative raw count. |
| RoiStatistics.EmptyWindowCounts | PyMca5/tests/ROIBatchTest.py:110-112 | A ROI that selects nothing yields raw 0 and net 0. |
| RoiStatistics.ZeroWidthNet | PyMca5/tests/ROIBatchTest.py:101-109 | If the first and last selected axis values are equal, net is 0 and no division happens. |
| RoiStatistics.SingleSampleNet | PyMca5/tests/ROIBatchTest.py:97-109 | A one-sample window has net 0 and raw equal to that sample. |
| RoiStatistics.Baseline | PyMca5/tests/ROIBatchTest.py:101-105 | The baseline has one value per selected sample and passes through the first and last selected samples. |
| RoiStatistics.NetIsResidualSum | PyMca5/tests/ROIBatchTest.py:101-107 | In a window of positive width, net equals the sum of each sample's height above the chord `y0 + slope*(x - x0)`. |
| RoiStatistics.NetNonNegative | PyMca5/tests/ROIBatchTest.py:227-229 | Samples on or above the chord give a non-negative net count. |
| RoiStatistics.BaselineOfLine | PyMca5/tests/ROIBatchTest.py:101-105 | For samples on a straight line, the baseline is the samples themselves. |
| RoiStatistics.StraightLineNet | PyMca5/tests/ROIBatchTest.py:101-107 | Samples on any straight line `y = a + b*x` give net 0 for every ROI. |
| RoiStatistics.ArgMax | PyMca5/tests/ROIBatchTest.py:141-145 | Returns the first index of a maximal element: nothing is larger, and everything before it is smaller. |
| RoiStatistics.ArgMin | PyMca5/tests/ROIBatchTest.py:141-142 | Returns the first index of a minimal element. |
| RoiStatistics.ChannelAtMaxOfPeak | PyMca5/tests/ROIBatchTest.py:141-145 | The channel at max is the axis value of a selected sample that no selected sample exceeds, provided every earlier selected sample is strictly smaller: ties go to the first index. |
| RoiStatistics.ChannelAtMinOfTrough | PyMca5/tests/ROIBatchTest.py:141-142 | The channel at min is the axis value of a selected sample that no selected sample undercuts, provided every earlier selected sample is strictly larger: ties go to the first index. |
| RoiStatistics.ChannelAtMaxIsMaximal | PyMca5/tests/ROIBatchTest.py:141-145 | For a non-empty window, the channel at max is the axis value of a selected sample that no selected sample exceeds and that every earlier selected sample is strictly below. |
| RoiStatistics.ChannelAtMinIsMinimal | PyMca5/tests/ROIBatchTest.py:141-142 | For a non-empty window, the channel at min is the axis value of a selected sample that no selected sample undercuts and that every earlier selected sample is strictly above. |
| RoiStatistics.TiedPeakGoesToFirst | PyMca5/tests/ROIBatchTest.py:143-145 | Two selected samples of equal height at 500 and 600 put the channel at max at 500: the first of the tie. This is how the maximum at 500 is reached when the window's last sample matches the peak height in floating point. |
| RoiStatistics.MirroredWindowFrom | PyMca5/tests/ROIBatchTest.py:193 | Negating the axis and swapping the bounds to `(-to, -from)` selects the same positions. |
| RoiStatistics.MirroredBaseline | PyMca5/tests/ROIBatchTest.py:198-202 | Negating the axis leaves the baseline unchanged. |
| RoiStatistics.MirrorInvariance | PyMca5/tests/ROIBatchTest.py:188-247 | On the mirrored axis, raw and net are unchanged and both extremum locations are negated (max at -500 for max at 500). |
| StackRoiBatch.Quantities | PyMca5/tests/ROIBatchTest.py:115-116 | Raw is always requested, Net exactly when `net` is set, and Min and Max exactly when `xAtMinMax` is set. No quantity is listed twice. |
| StackRoiBatch.FirstMissing | PyMca5/tests/ROIBatchTest.py:93-95 | The ROI reported as missing is in the list and has no definition. |
| StackRoiBatch.BatchFailsExactly | PyMca5/tests/ROIBatchTest.py:82-86 | The call fails if and only if a spectrum's length differs from the axis or a listed ROI has no definition. It reports a shape mismatch exactly when the lengths differ. |
| StackRoiBatch.BatchShape | PyMca5/tests/ROIBatchTest.py:87-88 | There are as many names as images: `|roilist|` times the number of requested quantities. Every image has one value per spectrum. |
| StackRoiBatch.CollectLength | PyMca5/tests/ROIBatchTest.py:87-88 | The images come in blocks of `|qs|` per ROI. |
| StackRoiBatch.CollectNames | PyMca5/tests/ROIBatchTest.py:115-118 | A name occurs if and only if it is the name of a requested quantity of a listed ROI. |
| StackRoiBatch.CollectImages | PyMca5/tests/ROIBatchTest.py:117-118 | For each listed ROI and requested quantity, returns a position holding that name and the reference image. |
| StackRoiBatch.RequestedQuantity | PyMca5/tests/ROIBatchTest.py:115-116 | The requested names of a ROI are exactly the image names of the requested quantities. |
| StackRoiBatch.BatchNames | PyMca5/tests/ROIBatchTest.py:133-150 | A name is in the output if and only if it is one of: "ROI r"; "ROI r Net" when `net` is set; "ROI r Channel at Min." or "ROI r Channel at Max." when `xAtMinMax` is set. |
| StackRoiBatch.BatchImages | PyMca5/tests/ROIBatchTest.py:117-131 | Every requested image exists under its name and holds, spectrum by spectrum, the reference value. |
| StackRoiBatch.BatchLookup | PyMca5/tests/ROIBatchTest.py:117-118 | When the names are distinct, `images[names.index(name)]` is the reference image of that ROI and quantity. |
| StackRoiBatch.ImageNameEqual | PyMca5/tests/ROIBatchTest.py:115-116 | Two image names coincide if and only if they name the same quantity of the same ROI, or one is the raw image of a ROI named like the other ROI followed by that quantity's suffix. |
| StackRoiBatch.NamesOfOneRoiDiffer | PyMca5/tests/ROIBatchTest.py:115-116 | The images of one ROI have pairwise different names. |
| StackRoiBatch.EqualLengthNoClash | PyMca5/tests/ROIBatchTest.py:65 | ROI names that all have one length, such as "roi1", "roi2" and "roi3", never clash with a suffixed name. |
| StackRoiBatch.BatchNamesDistinct | PyMca5/tests/ROIBatchTest.py:115-118 | With distinct ROI names, none of them another's name followed by " Net", " Channel at Min." or " Channel at Max.", every output name occurs exactly once. There is then exactly one raw image and one net image per ROI, and `names.index` finds them. |
| StackRoiBatch.ThreeRoiNamesDistinct | PyMca5/tests/ROIBatchTest.py:65-118 | For the ROI list `["roi1", "roi2", "roi3"]` the output names are distinct, for any stack and flags, so each lookup by name is the one the test intends. |
| StackRoiBatch.RoiConfiguration.StoreReferenceCounts | PyMca5/tests/ROIBatchTest.py:93-114 | Every entry of the ROI dictionary gets its reference raw and net counts. The key set and the ROI list are unchanged. |
| StackRoiBatch.StoredMatchesBatch | PyMca5/tests/ROIBatchTest.py:113-131 | For a 1x1 stack, the engine's "ROI r" and "ROI r Net" images hold exactly the counts the reference loop stored. |
| McaAdvancedFit.Array2SpecMca | PyMca5/PyMcaGui/physics/xrf/McaAdvancedFit.py:2206-2222 | The nested appending loops produce exactly the block `SpecMca(fmt, data)`. |
| McaAdvancedFit.AppendFullChunk | PyMca5/PyMcaGui/physics/xrf/McaAdvancedFit.py:2214-2215 | Appends the 16 cells of a full chunk, in index order. |
| McaAdvancedFit.AppendLastChunk | PyMca5/PyMcaGui/physics/xrf/McaAdvancedFit.py:2219-2220 | Appends the cells of the short last chunk, in index order. |
| McaAdvancedFit.LineAppended | PyMca5/PyMcaGui/physics/xrf/McaAdvancedFit.py:2216-2221 | Cells, then the optional backslash, then a newline form exactly one line of the block. |
| McaAdvancedFit.LineCounts | PyMca5/PyMcaGui/physics/xrf/McaAdvancedFit.py:2213-2221 | Each line has one newline. It has one backslash exactly when a full chunk ends before the last value, and none otherwise. |
| McaAdvancedFit.LineStrip | PyMca5/PyMcaGui/physics/xrf/McaAdvancedFit.py:2213-2221 | Without separators, a line is its chunk's cells. |
| McaAdvancedFit.LinesCounts | PyMca5/PyMcaGui/physics/xrf/McaAdvancedFit.py:2212-2221 | The lines from `idx` on have `ceil((n - idx)/16)` newlines and `(n - idx - 1)/16` backslashes. |
| McaAdvancedFit.LinesStrip | PyMca5/PyMcaGui/physics/xrf/McaAdvancedFit.py:2212-2221 | Without separators, the lines from `idx` on are the cells from `idx` to the end. |
| McaAdvancedFit.SpecMcaHeader | PyMca5/PyMcaGui/physics/xrf/McaAdvancedFit.py:2210-2222 | The block starts with "@A ". It is exactly "@A " if and only if the array is empty. |
| McaAdvancedFit.SpecMcaContents | PyMca5/PyMcaGui/physics/xrf/McaAdvancedFit.py:2210-2222 | The block has `ceil(n/16)` newlines and one backslash per chunk boundary. With separators removed it is "@A " followed by every value once, in index order. |
| McaAdvancedFit.SpecMcaEnding | PyMca5/PyMcaGui/physics/xrf/McaAdvancedFit.py:2218-2221 | The last chunk's line is its cells and a newline, with no backslash. |
| McaAdvancedFit.CellsSplit | PyMca5/PyMcaGui/physics/xrf/McaAdvancedFit.py:2214-2220 | Cells of adjacent ranges concatenate to the cells of the union. |
| McaAdvancedFit.HypermetFlag | PyMca5/PyMcaGui/physics/xrf/McaAdvancedFit.py:2420-2438 | The flag lies in 0..15. Bit 0 is set exactly for the Hypermet function, and bits 1, 2 and 3 exactly for the short-tail, long-tail and step-tail boxes. |
| McaAdvancedFit.HypermetFlagDecodes | PyMca5/PyMcaGui/physics/xrf/McaAdvancedFit.py:2358-2364 | Every flag in 0..15 is the encoding of the index and boxes its bits decode to. |
| McaAdvancedFit.BoxFlagRoundTrip | PyMca5/PyMcaGui/physics/xrf/McaAdvancedFit.py:2385-2404 | A box read back from its flag is checked exactly when the flag is 1. Any other value unchecks it. |
| McaAdvancedFit.Parameters | PyMca5/PyMcaGui/physics/xrf/McaAdvancedFit.py:2413-2458 | Every key is present. `fitfunction` and `continuum` give the two combo-box indices. The flag bits and the 0/1 flags match the function and the boxes, in both directions. |
| McaAdvancedFit.ReapplyKeepsWidgets | PyMca5/PyMcaGui/physics/xrf/McaAdvancedFit.py:2344-2458 | Feeding the dictionary from `getParameters` back into `setParameters` changes no widget and adds no key. |
| McaAdvancedFit.SetParametersIdempotent | PyMca5/PyMcaGui/physics/xrf/McaAdvancedFit.py:2344-2411 | A second `setParameters` with the dictionary the first one completed changes no widget and adds no key. |
| McaAdvancedFit.GetParametersStable | PyMca5/PyMcaGui/physics/xrf/McaAdvancedFit.py:2413-2458 | A second `getParameters` returns the same dictionary and changes no further widget. |
| McaAdvancedFit.SetThenGet | PyMca5/PyMcaGui/physics/xrf/McaAdvancedFit.py:2344-2458 | After `setParameters(ddict)`, `getParameters` reads back the function `setParameters` selected. Under Hypermet with a flag given, it reads back bit 0 set and bits 1..3 of that flag. Each given 0/1 flag comes back as 1 exactly when it was 1, and a given background index comes back unchanged. |
| McaAdvancedFit.Top.GetParameters | PyMca5/PyMcaGui/physics/xrf/McaAdvancedFit.py:2413-2458 | Returns `Parameters` of the prior widget state: every key, the flag whose bits are the Hypermet choice and the three tail boxes, and 0/1 for each box. It enables the tail boxes exactly for Hypermet and changes no other widget. |
| McaAdvancedFit.Top.SetParameters | PyMca5/PyMcaGui/physics/xrf/McaAdvancedFit.py:2344-2411 | The new widget state is `Applied(old state, ddict)`: a missing `fitfunction` is derived from a `hypermetflag` defaulting to 1, and the function is selected. Under Hypermet, a given flag enables the tail boxes and checks them from bits 1..3; under another function it disables them and keeps their checks. Each given 0/1 flag checks its box exactly when it is 1, a given `continuum` selects the background, and every absent key leaves its widget unchanged. The caller's dictionary comes back as `Completed(ddict)`: the derived `fitfunction` is added and nothing else changes. |
| McaAdvancedFit.Top.SelectFunction | PyMca5/PyMcaGui/physics/xrf/McaAdvancedFit.py:2346-2356 | Derives a missing `fitfunction` and selects it in the function combo box. |
| McaAdvancedFit.Top.SetTailBoxes | PyMca5/PyMcaGui/physics/xrf/McaAdvancedFit.py:2358-2383 | Under Hypermet, enables the tail boxes and checks them from bits 1..3. Otherwise it disables them and keeps their checks. |
| McaAdvancedFit.Top.SetFlagBoxes | PyMca5/PyMcaGui/physics/xrf/McaAdvancedFit.py:2385-2411 | Each present flag checks its box exactly when it is 1, and `continuum` selects the background. |
| McaAdvancedFit.PeaksParameters | PyMca5/PyMcaGui/physics/xrf/McaAdvancedFit.py:1150-1175 | Without a finished fit it computes nothing. Otherwise it gives one vector per group: the fitted global parameters, group g's fitted area, and 0 at every other group position. |
| McaAdvancedFit.GroupAreasAddUp | PyMca5/PyMcaGui/physics/xrf/McaAdvancedFit.py:1169-1175 | Summed over all groups, the vectors give back each fitted group area. |
| McaAdvancedFit.ColumnSumSingle | PyMca5/PyMcaGui/physics/xrf/McaAdvancedFit.py:1169-1175 | A column with one non-zero entry sums to that entry. |
| McaAdvancedFit.LastFour | PyMca5/PyMcaGui/physics/xrf/McaAdvancedFit.py:1939 | Python's `s[-4:]` is the last `min(4, |s|)` characters of `s`. |
| McaAdvancedFit.ApplySuffix | PyMca5/PyMcaGui/physics/xrf/McaAdvancedFit.py:1937-1940 | The reassigned name is `SuffixedName(outputFile, extension)`. |
| McaAdvancedFit.SuffixedNameEnds | PyMca5/PyMcaGui/physics/xrf/McaAdvancedFit.py:1937-1940 | With a 4-character suffix, the result ends with the suffix. The name is unchanged if and only if it already ends with it; otherwise the suffix is appended. |
| McaAdvancedFit.SuffixedNameIdempotent | PyMca5/PyMcaGui/physics/xrf/McaAdvancedFit.py:1937-1940 | With a 4-character suffix, applying the rule twice is the same as applying it once. |
| McaAdvancedFit.SuffixRuleNeedsFourCharacters | PyMca5/PyMcaGui/physics/xrf/McaAdvancedFit.py:1939 | The rule compares the last four characters, so a suffix of another length is appended even to a name already ending with it. |

## Left out

- The `StackROIBatch` engine is not part of this model. `StackRoiBatch.Batch` is what the reference computation requires of it.
  - The order of the names (raw, net, min, max, ROI after ROI) is an assumption; every property above is about membership and lookup by name.
  - The channel at min/max of an empty window is taken to be 0.
- Floating-point arithmetic is left out: counts are `real`. The test's `==` and `1e-8` comparisons become exact equalities, and `abs(deltaX) > 0.0` becomes `deltaX != 0`.
- One consequence for the test's roi2: in exact arithmetic its data peaks at x = 600.0, not 500. There y = 1200 + 200·e^-5000, strictly above y(500) = 1200. The asserted maximum at 500 holds only because that exponential underflows to 0 in double precision, so the two samples tie and the tie goes to the first index. `TiedPeakGoesToFirst` models that tie, not the exact-arithmetic data.
- `numpy` array shapes are reduced: the stack is a sequence of spectra, and an image is one value per spectrum.
- `"%.4f"` rendering is the parameter `fmt`. The block's structure is proved for any `fmt` that writes no newline or backslash.
- All Qt widgets, signals, dialogs, the `QTVERSION` branches and Qt's handling of an out-of-range combo-box index are left out. A combo-box index is stored as given.
- `peaksSpectrum` does more after building each vector. The calls into `mcatheory`, the strip background, the plotting and the `groupsList` normalisation are left out. The number of groups is a parameter.
- `_saveGraph` does more than apply the suffix rule. The file dialog, the file writing and the directory handling are left out.
- `__htmlheader`, `htmlReport`, the threads, the Monte Carlo and concentration tools, and every other GUI routine of `McaAdvancedFit.py` are left out. They are UI, I/O or calls into modules that are not part of this model.
- The reversed-axis test has a decreasing axis. The model proves mirror invariance for any axis instead of evaluating that concrete one.
- StackRoiBatch.BatchFailsExactly: a ROI entry lacking `from` or `to`, or with non-numeric bounds, cannot be represented, because `RoiEntry` always carries two real bounds. The only modelled definition error is a listed ROI with no entry.
- StackRoiBatch.Batch selects each ROI's samples by the mask `from <= x <= to`. The engine is described as taking the index span between the first and last in-range samples instead. The two agree on monotonic axes, increasing or decreasing (`WindowContiguous`), but are not proved equal on other axes.
- McaAdvancedFit.PeaksParameters takes the length of `fittedpar` as `len(fitresult['result']['parameters'])`. It assumes the fitted values and the parameter names have the same length.
- The ROI mask follows the code, `from <= x <= to`. A ROI with `from > to` selects nothing; it is not normalised to `[min, max]`.
