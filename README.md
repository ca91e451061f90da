# Exam photo and signature compliance engine, modelled in Dafny

The application prepares two uploads for an exam form: a 600x800 candidate photo and a 400x500
sheet holding three specimen signatures. It samples the canvas pixels to judge the background,
sharpness, shadows and glare. For the signature sheet it also counts ink per row and column and
segments the profile into signature bands. It compresses the canvas into a size window, assembles
a checklist of pass / warn / fail verdicts, and refuses to download a signature image while any
hard failure is raised.

The model covers that compliance engine:

- **Utils** and **Config** (`src/utils.js`, `src/config.js`): the helpers and the two threshold
  profiles. The profiles are constants; their relationships are proved.
- **Pixels**: luminance, saturation and the RGBA buffer, which is row-major with four bytes per
  pixel.
- **ImageAnalysis**: the four region analyzers and the face-landmark lookup
  (`src/imageAnalysis.js`). Each analyzer is a loop method proved equal to a fold over its scan
  order, and that fold is then characterised by lemmas.
- **Structure** and **Bands**: the signature structure analysis (smoothing, band detection, band
  centres, the report).
- **Compression**: the export-size search `compressCanvasToRange`.
- **FaceGeometry**: the face verdicts derived from a detector result.
- **Checklist**, **PhotoChecks** and **SignatureChecks**: the two evaluators with their de-duplicated
  warning and hard-failure lists, and the checklist tally.
- **Session**: the page state the buttons update, that is the cover scale, the transform, the
  rotation, the final blob and the download gate.

In `evaluateRecency` (src/app.js:481-489) a photo passes whenever `dateDiffInDays(start, capture) <= 10`.
The code has no lower bound, so a capture date after the application start date gives a negative
difference and always passes. `PhotoChecks.EvaluateRecency` and `PhotoChecks.CaptureAfterStartPasses`
state exactly that.

Numbers are exact: `real` for luminances, ratios and quality, and unbounded `int` for pixel counts,
byte sizes and milliseconds. `Math.floor` is Dafny's `.Floor` on reals and Euclidean division on
integers, which both round towards minus infinity. JavaScript's `%` appears once, in the rotation
counter, on a non-negative operand.

Several things outside the model become parameters:

- **The JPEG encoder** (`canvasToBlob`) is a function from quality to an optional size.
- **Date-string parsing** (`new Date(...)`) is a function from string to optional milliseconds.
- **The face detector** is an input record.
- **Each signature evaluation** runs against a fixed canvas. The session is handed a function from
  (include output checks, final blob) to the evaluation. `SignatureChecks.EvaluateSignatureChecks`
  produces that function and proves it equal to the analysis of that canvas.

## Model

| member | source | states |
|---|---|---|
| Utils.MakeStatusRoundTrip | src/utils.js:72-74 | every status record is the one built from its own status and detail, and two records built from different fields differ |
| Utils.MakeStatus | src/utils.js:72-74 | the record of a verdict and its detail text; what it means is stated by MakeStatusRoundTrip |
| Utils.Clamp | src/utils.js:12-14 | with min <= max the result lies in [min, max]; a value already in range is returned unchanged; below min gives min, above max gives max; with max < min the result is min, as `Math.max(min, Math.min(max, v))` gives |
| Utils.ClampIdempotent | src/utils.js:12-14 | clamping twice is clamping once |
| Utils.DateDiffInDays | src/utils.js:27-30 | the result is the floor of the millisecond difference over a day: days*86400000 <= diff < (days+1)*86400000, for negative differences too |
| Utils.FloorDaysUnique | src/utils.js:27-30 | only one whole number of days satisfies that floor characterisation |
| Utils.DaysAtMost | src/utils.js:27-30 | the day count is at most k exactly when the difference is below (k+1) days, which is the test recency relies on |
| Utils.DateDiffSameInstant | src/utils.js:27-30 | the same instant is zero days apart |
| Utils.DateDiffWholeDays | src/utils.js:27-30 | a difference of exactly k days gives k, for every integer k |
| Utils.DateDiffOneMsShort | src/utils.js:27-30 | one millisecond short of k days gives k-1, for negative k too because the floor rounds down |
| Utils.ParseDateConsultsParserIffNonEmpty | src/utils.js:16-25 | a field gives no date under every parser exactly when it is empty; any non-empty field is dated by some parser |
| Utils.ParseDate | src/utils.js:16-25 | the empty-field guard in front of the platform parser; what it means is stated by ParseDateConsultsParserIffNonEmpty and PrefilledDateParses |
| Utils.PrefilledDateParses | src/utils.js:1-25 | a value written by `toDateInputValue` is never empty, so parsing it yields a date exactly when the platform parser accepts it with the midnight suffix |
| Utils.NatToString | src/utils.js:3-4 | `String(n)` of a natural: at least one character, all decimal digits, one digit exactly below 10 and two exactly for 10..99 |
| Utils.NatToStringRoundTrip | src/utils.js:3-4 | reading the digits back gives n |
| Utils.IntToString | src/utils.js:2 | `String(year)`: non-negative years are their digits, negative years carry a leading minus |
| Utils.PadStart | src/utils.js:3-4 | `padStart`: the length is the larger of the length of s and the target, s is the suffix and every character before it is the pad |
| Utils.TwoDigits | src/utils.js:3-4 | a value below 100 pads to exactly two decimal digits |
| Utils.TwoDigitsRoundTrip | src/utils.js:3-4 | the two padded digits read back as the value |
| Utils.DashJoinLayout | src/utils.js:5 | joining with dashes puts each part at its fixed offset |
| Utils.ToDateInputValue | src/utils.js:1-6 | year, then '-', then the month index plus one as two digits, then '-', then the day as two digits, six characters longer than the year |
| Config.ProfilesConsistent | src/config.js:1-123 | both size windows are ordered; face coverage min <= max; severe contrast 42 < minimum contrast 65; the 400x500 signature output lies within 350..500 px; recency is 10 days; band gap 3; byte windows 20480..204800 and 20480..102400 |
| Config.PhotoLabelTable | src/config.js:54-71 | the photo checklist labels exactly the sixteen check keys the photo evaluator builds |
| Config.SignatureLabelTable | src/config.js:125-137 | the signature checklist labels exactly the eleven check keys the signature evaluator builds |
| Pixels.Luminance | src/imageAnalysis.js:62-64 | a grey pixel (r = g = b) has its own value as luminance, since the weights sum to 1; byte channels give a luminance in [0, 255] |
| Pixels.Saturation | src/imageAnalysis.js:66-73 | lies in [0, 1]; is 0 exactly for black or when max = min; every grey is 0 |
| Pixels.Max3 | src/imageAnalysis.js:67 | `Math.max` of three: an upper bound attained by one argument |
| Pixels.Min3 | src/imageAnalysis.js:68 | `Math.min` of three: a lower bound attained by one argument |
| Pixels.LumAt | src/imageAnalysis.js:92-96 | the luminance read at a cell is in [0, 255] |
| Pixels.SatAt | src/imageAnalysis.js:92-97 | the saturation read at a cell is in [0, 1] |
| Pixels.OffsetInBuffer | src/imageAnalysis.js:86-92 | for a cell inside the frame, the four bytes at `(y*width + x)*4` lie inside the buffer |
| Pixels.PixelRead | src/imageAnalysis.js:92-96 | the luminance of a cell is that of the three bytes at its offset |
| Pixels.PixelSatRead | src/imageAnalysis.js:92-97 | the saturation of a cell is that of the three bytes at its offset |
| Pixels.RowOffsetIndex | src/imageAnalysis.js:86-92 | `rowOffset + x*4` is the cell's offset |
| Pixels.RowFromMembers | src/imageAnalysis.js:87 | a stride row holds exactly the cells of that row from x0 below xEnd at a multiple of the stride |
| Pixels.ScanRowsMembers | src/imageAnalysis.js:85-87 | the nested stride scan visits exactly the cells on the stride grid inside the rows and columns |
| Pixels.RowFromStep | src/imageAnalysis.js:87 | one more cell of a stride row is the next cell followed by the rest of the row |
| Pixels.ScanRowsStep | src/imageAnalysis.js:85 | one more row of a scan is that row followed by the remaining rows |
| Pixels.ShadePixel | src/imageAnalysis.js:62-73 | in a single-shade grey image every pixel has luminance v and saturation 0 |
| Pixels.CropRow | src/imageAnalysis.js:230 | one row of the `getImageData` crop holds four bytes per column |
| Pixels.CropRows | src/imageAnalysis.js:230 | the crop is whole pixels, with at least one row's bytes when the rectangle is non-empty |
| Pixels.CropRowsLength | src/imageAnalysis.js:230 | the crop has 4*width*height bytes |
| Pixels.CropRowsShade | src/imageAnalysis.js:230 | a crop of a single-shade image holds only that byte |
| Pixels.CropRowsAll | src/imageAnalysis.js:230 | a crop whose every row holds only one byte holds only that byte |
| ImageAnalysis.ScanInFrame | src/imageAnalysis.js:85-87 | every cell a stride scan visits lies inside the frame |
| ImageAnalysis.FindKind | src/imageAnalysis.js:19 | `find`: the index of the first landmark of that type, or none when no landmark has it |
| ImageAnalysis.LandmarkPoint | src/imageAnalysis.js:15-30 | an absent or empty list gives none, as does no entry of that type; otherwise the first match's `locations[0]` when it has locations, else its `location` |
| ImageAnalysis.LandmarkFirstMatchWins | src/imageAnalysis.js:19-25 | an earlier entry of another type does not hide the first match, and its first location is returned |
| ImageAnalysis.EdgeMargin | src/imageAnalysis.js:77-78 | the edge margin is never below 2 |
| ImageAnalysis.EdgeSamplesMembers | src/imageAnalysis.js:88-91 | a cell is kept exactly when it lies in the edge band |
| ImageAnalysis.BackgroundSampleMembers | src/imageAnalysis.js:85-91 | the background samples are exactly the even-x, even-y pixels in the frame that lie in the edge band |
| ImageAnalysis.BackgroundSums | src/imageAnalysis.js:80-101 | the sample count equals the number of sampled cells |
| ImageAnalysis.BackgroundSumsStep | src/imageAnalysis.js:96-101 | one more sample adds its luminance, its squared luminance and its saturation |
| ImageAnalysis.BackgroundVerdict | src/imageAnalysis.js:105-130 | no samples gives warn with no metrics; otherwise the metrics are the averages and the variance, the verdict passes iff brightness, saturation and variance are all within the limits, and it never fails |
| ImageAnalysis.BackgroundEvaluated | src/imageAnalysis.js:85-110 | the metrics are missing exactly when the frame has no pixels |
| ImageAnalysis.BackgroundSumsInRange | src/imageAnalysis.js:96-101 | the sums stay within the byte ranges and satisfy sum² <= count · sum of squares |
| ImageAnalysis.VarianceNonNegative | src/imageAnalysis.js:112-114 | that inequality makes the variance non-negative |
| ImageAnalysis.BackgroundMetricsInRange | src/imageAnalysis.js:112-114 | average luminance in [0, 255], average saturation in [0, 1], variance >= 0 |
| ImageAnalysis.UniformSums | src/imageAnalysis.js:96-101 | samples of one shade sum to that shade repeated |
| ImageAnalysis.UniformVerdict | src/imageAnalysis.js:112-114 | for such sums the metrics are that luminance and saturation with zero variance |
| ImageAnalysis.WhiteBackgroundPasses | src/imageAnalysis.js:75-131 | an all-white frame passes with average 255, saturation 0 and variance 0 |
| ImageAnalysis.BackgroundRow | src/imageAnalysis.js:86-102 | the inner loop adds exactly the edge-band cells of its row to the sums |
| ImageAnalysis.BackgroundScan | src/imageAnalysis.js:85-103 | the nested loops compute the sums over the edge-band samples of the stride-2 scan |
| ImageAnalysis.AnalyzeBackground | src/imageAnalysis.js:75-131 | the analyzer returns the background verdict of the frame |
| ImageAnalysis.EdgeContrastRange | src/imageAnalysis.js:145-148 | one sample's contrast to its right and lower neighbours lies in [0, 510] |
| ImageAnalysis.BlurSumsOf | src/imageAnalysis.js:137-150 | the sample count equals the number of sampled cells |
| ImageAnalysis.BlurSumsStep | src/imageAnalysis.js:148-149 | one more sample adds its contrast and one to the count |
| ImageAnalysis.BlurVerdict | src/imageAnalysis.js:153-163 | the edge score is score/count, or 0 with no samples; it warns when below the minimum and passes otherwise |
| ImageAnalysis.BlurSampleMembers | src/imageAnalysis.js:140-141 | the samples are exactly the even cells whose right and lower neighbours two away lie in the frame |
| ImageAnalysis.BlurEdgeScoreInRange | src/imageAnalysis.js:153 | the edge score is in [0, 510] |
| ImageAnalysis.BlurTinyFrame | src/imageAnalysis.js:140-158 | a frame at most 2 wide or high has no samples, so it scores 0 and is reported blurry |
| ImageAnalysis.SingleShadeIsBlurry | src/imageAnalysis.js:133-164 | a uniform image scores 0 and is reported blurry |
| ImageAnalysis.ZeroScoreIsBlurry | src/imageAnalysis.js:153-158 | a zero score warns whenever the minimum is positive |
| ImageAnalysis.ShadeBlurScore | src/imageAnalysis.js:140-151 | a uniform image accumulates no contrast |
| ImageAnalysis.ContrastAt | src/imageAnalysis.js:142-148 | the three reads give the sample's contrast |
| ImageAnalysis.BlurRow | src/imageAnalysis.js:141-150 | the inner loop adds exactly the cells of its row to the sums |
| ImageAnalysis.RowSumsFold | src/imageAnalysis.js:141-150 | what the rest of the row adds from column x equals the fold over those cells |
| ImageAnalysis.BlurScan | src/imageAnalysis.js:140-151 | the nested loops compute the sums over the blur samples |
| ImageAnalysis.AnalyzeBlur | src/imageAnalysis.js:133-164 | the analyzer returns the blur verdict of the frame |
| ImageAnalysis.LeftHalfExact | src/imageAnalysis.js:182 | `x < width / 2` with real division is 2x < width |
| ImageAnalysis.ShadowSumsOf | src/imageAnalysis.js:168-190 | the total equals the number of sampled cells |
| ImageAnalysis.ShadowSumsStep | src/imageAnalysis.js:178-189 | one more sample counts as dark below 70 and adds to its side |
| ImageAnalysis.ShadowVerdict | src/imageAnalysis.js:193-207 | darkRatio is dark/total, or 0 with no samples; sideDiff is the distance between the side averages; it warns iff either exceeds its limit, and never fails |
| ImageAnalysis.ShadowSampleMembers | src/imageAnalysis.js:175-176 | the samples are exactly the in-frame cells on the stride-3 grid |
| ImageAnalysis.ShadowMetricsInRange | src/imageAnalysis.js:193-196 | darkRatio in [0, 1] and sideDiff in [0, 255] |
| ImageAnalysis.ShadowSideCounted | src/imageAnalysis.js:182-188 | a sampled cell makes its side's count positive |
| ImageAnalysis.BothSidesSampled | src/imageAnalysis.js:175-188 | a frame at least 4 wide samples both halves |
| ImageAnalysis.ShadowVerdictUniform | src/imageAnalysis.js:193-207 | uniform sums with both sides counted pass at ratio 0 when light and warn at ratio 1 when dark, with zero side difference |
| ImageAnalysis.SingleShadeShadows | src/imageAnalysis.js:166-208 | a uniform image passes when its shade is at least 70 and warns below 70 |
| ImageAnalysis.ShadeAt | src/imageAnalysis.js:177-178 | the luminance read at the sample |
| ImageAnalysis.ShadowRow | src/imageAnalysis.js:176-190 | the inner loop adds exactly the cells of its row |
| ImageAnalysis.ShadowScan | src/imageAnalysis.js:175-191 | the nested loops compute the sums over the shadow samples |
| ImageAnalysis.AnalyzeShadows | src/imageAnalysis.js:166-208 | the analyzer returns the shadow verdict of the frame |
| ImageAnalysis.GlareRegion | src/imageAnalysis.js:218-221 | the clipped eye band lies within [0, width] x [0, height] |
| ImageAnalysis.Region.IsEmpty | src/imageAnalysis.js:223 | the empty-band test; Glare and GlareRegionHasPixels state what an empty or non-empty band gives |
| ImageAnalysis.GlareRegionInsideBox | src/imageAnalysis.js:218-221 | for a box of non-negative size, the band starts no earlier than the box (unless clipped to 0) and ends within it |
| ImageAnalysis.BrightCount | src/imageAnalysis.js:234-244 | at most one bright pixel is counted per pixel |
| ImageAnalysis.Bright | src/imageAnalysis.js:240 | the bright-pixel test; CountBright, ShadeBrightCount and GlareVerdictAllBright state what it counts |
| ImageAnalysis.GlareVerdict | src/imageAnalysis.js:246-256 | brightRatio in [0, 1]; warns iff it exceeds the maximum; never fails |
| ImageAnalysis.Glare | src/imageAnalysis.js:210-228 | without a face box, and with an empty clipped band, the result is warn with no metrics |
| ImageAnalysis.GlareMetricsMeaning | src/imageAnalysis.js:230-256 | when metrics exist the ratio is in [0, 1], the verdict warns iff it exceeds the maximum, and it never fails |
| ImageAnalysis.GlareRegionHasPixels | src/imageAnalysis.js:223-232 | a non-empty band yields at least one row of pixels |
| ImageAnalysis.ShadeBrightCount | src/imageAnalysis.js:234-244 | a crop of one shade counts all or none of its pixels as bright |
| ImageAnalysis.GlareVerdictAllBright | src/imageAnalysis.js:246-252 | an all-bright band has ratio 1 and warns |
| ImageAnalysis.WhiteFrameShowsGlare | src/imageAnalysis.js:210-257 | an all-white frame warns of glare whenever the band is non-empty |
| ImageAnalysis.CountBright | src/imageAnalysis.js:231-244 | the loop counts every pixel and exactly the bright ones |
| ImageAnalysis.AnalyzeGlare | src/imageAnalysis.js:210-257 | the analyzer returns the glare verdict of the frame and the face box |
| Structure.Smoothed | src/app.js:823-837 | the smoothed profile has the input's length |
| Structure.WindowSum | src/app.js:826-833 | the inner loop sums exactly the clipped window max(0, i-r) .. min(n-1, i+r) and counts its length |
| Structure.SmoothArray | src/app.js:823-837 | the loop computes the clipped-window mean at every index |
| Structure.SmoothSingleton | src/app.js:823-837 | a one-element profile is returned unchanged |
| Structure.SmoothConstant | src/app.js:823-837 | a constant profile is returned unchanged |
| Structure.SmoothNonNegative | src/app.js:823-837 | smoothing a non-negative profile keeps it non-negative |
| Structure.InkAt | src/app.js:884-890 | the pixel read gives its luminance and whether it is ink (dark enough and unsaturated enough) |
| Structure.CenterSumsStep | src/app.js:890-893 | one more pixel adds its column and one to the count exactly when it is ink |
| Structure.BandCenterInRange | src/app.js:896 | a band's centre lies in [0, width], including the width/2 fallback |
| Structure.CenterRow | src/app.js:885-894 | the inner loop adds the ink columns of its row |
| Structure.BandSums | src/app.js:881-895 | the loops sum the ink columns over every row of the band |
| Structure.BandCenterX | src/app.js:879-897 | the mean ink column of the band, or width/2 without ink |
| Structure.BandCenters | src/app.js:954 | one centre per band |
| Structure.CentersOf | src/app.js:954 | the `map` computes each band's centre |
| Structure.InkTotalsStep | src/app.js:918-927 | one more pixel adds its luminance, and counts as ink with its luminance when it is ink |
| Structure.RowProfile | src/app.js:905 | one ink count per row |
| Structure.ColProfile | src/app.js:906 | one ink count per column |
| Structure.CountPixel | src/app.js:922-927 | counting one ink pixel increases just its row and its column |
| Structure.InkRow | src/app.js:912-928 | one row of the counting loop updates the totals and finishes that row's counts |
| Structure.CountInk | src/app.js:905-929 | the nested loops leave every row and column count and the totals over all pixels |
| Structure.InkScan | src/app.js:905-929 | the profiles are the per-row and per-column ink counts |
| Structure.Gaps | src/app.js:946-949 | one gap per adjacent band pair |
| Structure.BandGaps | src/app.js:946-949 | the loop pushes `next.start - end - 1` for each adjacent pair |
| Structure.MinOf | src/app.js:950 | `Math.min(...)`: a lower bound attained by an element |
| Structure.MaxOf | src/app.js:957 | `Math.max(...)`: an upper bound attained by an element |
| Structure.AllAtLeastMeans | src/app.js:952 | `every(v >= bound)` holds exactly when each element is at least the bound |
| Structure.CenterDeviation | src/app.js:955-958 | the largest distance of a centre from their mean, attained by some centre; 0 without centres |
| Structure.InkRatio | src/app.js:934 | the ratio lies in [0, 1] and is 0 exactly when there is no ink |
| Structure.Contrast | src/app.js:931-933 | without ink the contrast is 0, because the ink average falls back to the overall average |
| Structure.Report | src/app.js:931-977 | the count is the number of row bands; minGap is the least gap (0 with fewer than 2 bands); spacing and alignment hold only with exactly 3 bands; rotated iff >= 3 column bands and <= 2 row bands; ink ratio in [0, 1] |
| Structure.InkPixelsBound | src/app.js:922-923 | there are at most width*height ink pixels |
| Structure.FindBands | src/app.js:936-944 | the smoothed profiles are segmented with the row and column thresholds; the band width reuses the band-height ratio |
| Structure.MinRowCount | src/app.js:938 | the row activity threshold; FindBands states its use in the row segmentation |
| Structure.MinColCount | src/app.js:939 | the column activity threshold; FindBands states its use in the column segmentation |
| Structure.MinBandHeight | src/app.js:940 | the least row-band span; FindBands and AnalyzeSignatureStructure state its use |
| Structure.MinBandWidth | src/app.js:941 | the least column-band span, from the band-height ratio; FindBands states its use |
| Structure.MinGapRequired | src/app.js:951 | the least spacing between signatures; Report states how the spacing flag uses it |
| Structure.SpacingOk | src/app.js:952 | the spacing flag; Report and AllAtLeastMeans state that it holds only with exactly 3 bands, each gap at least the required one |
| Structure.AnalyzeSignatureStructure | src/app.js:899-978 | the report of the sheet, with both band lists the detected bands of the smoothed profiles and an ink ratio in [0, 1] |
| Structure.Summarize | src/app.js:931-977 | the report from the totals and the two band lists |
| Structure.MinGapExceedsMaxGap | src/app.js:946-950 | with two or more detected bands the smallest gap exceeds the tolerated band gap |
| Structure.BlankRow | src/app.js:922-926 | a white row holds no ink |
| Structure.BlankSheetHasNoSignatures | src/app.js:936-943 | a white sheet yields no row bands |
| Bands.BandPeak | src/app.js:852 | the running peak is non-negative (its value: BandPeakIsMaximum) |
| Bands.BandPeakIsMaximum | src/app.js:852 | the peak is the largest active value in the band, attained when any is active |
| Bands.DetectBands | src/app.js:839-877 | the loop's result satisfies the band characterisation: each band is a maximal cluster of active entries bridged by at most maxGap inactive ones, with span end-start+1 >= minSpan, active ends and its peak; the bands are in order, more than maxGap apart, and every long enough cluster is listed |
| Bands.DetectedBands | src/app.js:839-877 | the declarative characterisation of `detectBands`; DetectBands proves the loop meets it and BandsDetermined that it fixes the list |
| Bands.ExtendOpen | src/app.js:846-853 | an active entry opens or extends the current run and raises the peak |
| Bands.CloseOpen | src/app.js:856-865 | an inactive entry more than maxGap past the last active one closes the run and keeps it when long enough |
| Bands.ReadEntry | src/app.js:845-866 | one step of the loop keeps the scan invariant |
| Bands.CloseLast | src/app.js:868-874 | the run still open at the end is closed the same way |
| Bands.BandsDetermined | src/app.js:839-877 | only one band list satisfies the characterisation, so it is the specification |
| Bands.OrderedListsAgree | src/app.js:839-877 | two ordered lists that list each other's bands agree element by element |
| Bands.GapsExceedMaxGap | src/app.js:856 | consecutive bands are separated by more than maxGap inactive entries |
| Bands.SeparatedAt | src/app.js:856 | every later band starts more than maxGap after an earlier one ends |
| Bands.DetectedAt | src/app.js:859-860 | every detected band satisfies the band conditions |
| Bands.LoneRun | src/app.js:845-874 | a lone active run yields exactly one band with span L when L >= minSpan and none otherwise |
| Bands.RunsMerge | src/app.js:845-874 | two runs separated by at most maxGap inactive entries merge into one band spanning the gap |
| Bands.RunsStaySeparate | src/app.js:845-874 | two long enough runs separated by more than maxGap yield two bands |
| Bands.NoActiveNoBands | src/app.js:845-874 | a profile with no active entry yields no band |
| Compression.BisectLoop | src/app.js:391-403 | the fourteen-step loop computes the bisection specification: low, high, the best blob under the limit, or the failure of the first call that gave no blob |
| Compression.CompressCanvasToRange | src/app.js:386-434 | the method computes the whole search: bisection, then the lowest-quality fallback, then the maximum-quality pass when below range, and the warning |
| Compression.Compress | src/app.js:386-434 | the search as a function; CompressCanvasToRange computes it, and FailsIffEncoderFails, WarningIffOutOfRange, FitsWhenBisectionFits and FirstQuery state what it returns |
| Compression.BestUnderFits | src/app.js:397-401 | a remembered best blob never exceeds the upper limit |
| Compression.FitsWhenBisectionFits | src/app.js:391-431 | when some iteration fit, the returned size is at most maxBytes |
| Compression.WarningIffOutOfRange | src/app.js:413-431 | with minBytes <= maxBytes there is no warning exactly when the returned size is in range |
| Compression.BisectQueriesFail | src/app.js:393-396 | the bisection fails exactly when one of its encoder calls gives nothing, and that call is its last |
| Compression.FailsIffEncoderFails | src/app.js:386-434 | the search fails exactly when a call the search makes gives no blob; every earlier call succeeded |
| Compression.ReliableEncoderSucceeds | src/app.js:386-434 | an encoder that always answers never makes the search fail |
| Compression.FirstQuery | src/app.js:387-392 | the first quality tried is the midpoint of 0.05 and the clamped preferred quality |
| FaceGeometry.DetectorUnavailable | src/app.js:526-533 | all four verdicts warn and there is no face box |
| FaceGeometry.FaceNotFound | src/app.js:534-541 | all four verdicts warn and there is no face box |
| FaceGeometry.CoverageCheck | src/app.js:543-571 | passes iff the area ratio lies in [0.75, 0.95]; never fails |
| FaceGeometry.CenteringCheck | src/app.js:545-574 | passes iff both centre offsets are within 12% of the frame; never fails |
| FaceGeometry.FrontalCheck | src/app.js:553-566 | passes iff both eyes are found and their heights differ by at most 20 px |
| FaceGeometry.EyesCheck | src/app.js:554-566 | passes iff both eye landmarks are present |
| FaceGeometry.DeriveFaceChecks | src/app.js:525-579 | no detector or no detection gives four warnings and no box; otherwise the box is passed on and each verdict passes under its condition; no verdict ever fails |
| FaceGeometry.CentredBoxIsCentred | src/app.js:543-574 | a box centred in the frame is centred, and is covered iff its area is 75..95% of the frame |
| FaceGeometry.ShiftedBoxIsOffCentre | src/app.js:545-551 | a box shifted more than 12% of the width is off centre |
| FaceGeometry.TiltTolerance | src/app.js:556-561 | level eyes are frontal, eyes 21 px apart in height are not |
| Checklist.Dedup | src/app.js:659 | `Array.from(new Set(xs))`: keeps exactly the elements of xs, once each, and is no longer |
| Checklist.DedupOfDistinct | src/app.js:1086-1087 | a list without repetitions is unchanged |
| Checklist.DedupIdempotent | src/app.js:1086-1087 | de-duplicating twice is de-duplicating once |
| Checklist.DedupAbsorbsRepeat | src/app.js:1086-1087 | pushing a message already present changes nothing |
| Checklist.DedupKeepsFirstOrder | src/app.js:1086-1087 | the kept elements appear in the order of their first occurrence, as a `Set` iterates |
| Checklist.Filter | src/app.js:1042-1083 | the kept elements are exactly those of xs the test accepts, and a distinct list stays distinct |
| Checklist.JpegMimeTypes | src/app.js:994 | `includes("jpeg")` accepts `image/jpeg` and rejects `image/png` and the empty type |
| Checklist.StatusOf | src/app.js:263 | only a recorded check can pass or fail, and a recorded check reads its own status |
| Checklist.MissingCheckIsNotCompliant | src/app.js:256-285 | a label whose check is missing from the record is tallied as a warning, so the compliance line is not PASS |
| Checklist.TallyOf | src/app.js:262-271 | every label is counted once |
| Checklist.TallyCounts | src/app.js:262-271 | no fail counted iff no label fails; no warn iff none warns; all passes iff every label passes |
| Checklist.ComplianceText | src/app.js:280-284 | the line reads "PASS" exactly when nothing warns or fails, and otherwise starts with the pass count |
| Checklist.RenderChecklist | src/app.js:256-285 | the loop produces each label's badge in order, the counters, and the compliance line |
| Checklist.CompliantIffAllPass | src/app.js:256-285 | the line reads "PASS" exactly when every label passes |
| PhotoChecks.CaptureField | src/app.js:474 | one of the two fields, the capture field taking precedence, and empty only when both are |
| PhotoChecks.EvaluateRecency | src/app.js:472-494 | a missing date warns; otherwise passes iff the day difference is at most 10, with no lower bound; never fails |
| PhotoChecks.CaptureAfterStartPasses | src/app.js:481-488 | a capture on or after the start date always passes |
| PhotoChecks.ElevenDaysIsStale | src/app.js:481-493 | a photo taken 11 days before the start warns |
| PhotoChecks.PassOrWarn | src/app.js:603-614 | a manual confirmation passes iff ticked |
| PhotoChecks.FrontalEntry | src/app.js:595-598 | passes iff the automatic check passes and the box is ticked |
| PhotoChecks.EyesEntry | src/app.js:599-602 | passes iff the automatic check passes and the box is ticked |
| PhotoChecks.ManualEntries | src/app.js:603-614 | ears, expression and hair pass iff their boxes are ticked |
| PhotoChecks.GlareEntry | src/app.js:615-617 | the glasses box makes glare pass whatever the analyzer says; otherwise the analyzer's verdict is used |
| PhotoChecks.RestrictedEntry | src/app.js:618-621 | passes iff neither restricted-item flag is set |
| PhotoChecks.NameDateEntry | src/app.js:622-625 | passes iff the trimmed name is non-empty and a date is given |
| PhotoChecks.OutputEntries | src/app.js:627-635 | format passes iff output checks are on; size passes iff they are on, a blob exists and its size is within 20..200 KB |
| PhotoChecks.PhotoCheckRecord | src/app.js:592-636 | each of the sixteen entries is as its source line decides, the analyzer and face verdicts pass through, and no entry of the evaluator's own can fail |
| PhotoChecks.AsRecord | src/app.js:592-636 | the record's keys are exactly the sixteen photo check keys |
| PhotoChecks.PhotoWarningList | src/app.js:638-659 | each warning is listed exactly when its condition holds, without repetitions |
| PhotoChecks.PhotoEvaluationOf | src/app.js:592-659 | the record and its de-duplicated warnings |
| PhotoChecks.AllPassNoWarnings | src/app.js:638-659 | a record whose entries all pass raises no warning |
| PhotoChecks.PhotoOnCanvas | src/app.js:584-590 | the face entries come from the detector result, the background, shadow and sharpness entries are the analyzers' verdicts on the canvas, the glare entry (glasses box unticked) is the glare analysis of the detected face box, and the warnings are those of the record |
| PhotoChecks.EvaluatePhotoChecks | src/app.js:581-663 | the evaluation of the canvas with the recency verdict of the form's dates |
| PhotoChecks.AnalyzersNeverFail | src/imageAnalysis.js:75-257 | the four analyzers never return a failure |
| PhotoChecks.PhotoNeverFails | src/app.js:592-636 | no photo check key ever reads fail |
| PhotoChecks.RecordNeverFails | src/app.js:592-636 | with non-failing inputs no key of the record fails |
| SignatureChecks.OutputEntry | src/app.js:993-1007 | without output checks the entry warns; with them it passes iff the condition holds and fails otherwise |
| SignatureChecks.CountEntry | src/app.js:1008-1011 | passes iff exactly 3 bands; otherwise fails with "Detected n signature band(s)." |
| SignatureChecks.PassElse | src/app.js:1012-1039 | passes when its condition holds, otherwise takes the given verdict |
| SignatureChecks.OutputEntries | src/app.js:987-1007 | format, size and dimensions warn without output checks; with them each passes iff its condition (JPEG type, 20..100 KB, both sides 350..500 px) holds and fails otherwise |
| SignatureChecks.SignatureCheckRecord | src/app.js:992-1040 | each of the eleven entries as its source line decides |
| SignatureChecks.AsRecord | src/app.js:992-1040 | the record's keys are exactly the eleven signature check keys |
| SignatureChecks.HardFailList | src/app.js:1042-1087 | each hard failure is listed exactly when its condition holds, without repetitions |
| SignatureChecks.HardFailRaised | src/app.js:1043-1063 | when each hard failure is pushed; HardFailList, NoneRaisedIff and ReadyIffAllHardChecksHold state what follows |
| SignatureChecks.WarningList | src/app.js:1065-1086 | each warning is listed exactly when its entry warns, without repetitions |
| SignatureChecks.SignatureEvaluationOf | src/app.js:992-1087 | the record and its two de-duplicated lists |
| SignatureChecks.EvaluateSignatureChecks | src/app.js:980-1099 | analyses the sheet once and returns the structure report and the evaluation for every (include output checks, final blob) pair |
| SignatureChecks.ReadyIffAllHardChecksHold | src/app.js:1042-1063 | with output checks, no hard failure exactly when the output is JPEG, in the size window and in the pixel window, there are 3 bands, the image is sharp, and ink ratio and contrast reach their hard floors |
| SignatureChecks.NoneRaisedIff | src/app.js:1042-1063 | no hard condition is raised exactly when all those requirements hold |
| SignatureChecks.NothingRaisedMeansEmpty | src/app.js:1042-1063 | the list is empty exactly when no condition is raised |
| SignatureChecks.NotGeneratedOnlyWarns | src/app.js:993-1051 | without output checks, format, size and dimensions warn and raise no hard failure |
| SignatureChecks.WrongCountBlocks | src/app.js:1008-1054 | the band-count hard failure is raised exactly when the count is not 3, and the entry then fails with the count |
| SignatureChecks.NonJpegOutputBlocks | src/app.js:993-1045 | a generated blob whose type does not name JPEG fails the format entry and raises the not-JPEG hard failure |
| SignatureChecks.SevereContrastWarnsAndBlocks | src/app.js:1024-1074 | contrast below the severe floor is both a warning and a hard failure |
| SignatureChecks.OutputCanvasHasValidDimensions | src/app.js:987-1006 | the 400x500 output always passes the dimensions check |
| SignatureChecks.BlankSheetIsBlocked | src/app.js:980-1063 | a white sheet raises the band-count hard failure |
| Session.LoadProblem | src/app.js:1113-1124 | a file is accepted exactly when its type starts with `image/`, it is within the input limit and it decodes to two non-zero sides; the type is tested first, then the size |
| Session.CoverScale | src/app.js:1128 | the scale covers the frame in both directions and fits it exactly in one |
| Session.CoverScaleFillsFrame | src/app.js:448-462 | with zoom >= 1 and offsets within the overhang the drawn image covers the frame |
| Session.Place | src/app.js:448-462 | where the source is drawn; CoverScaleFillsFrame and LoadedSourceCoversFrame state that it covers the frame |
| Session.LoadedSourceCoversFrame | src/app.js:692-693 | right after loading the drawn image covers the whole frame |
| Session.NextRotation | src/app.js:805 | the rotation stays in [0, 360) and a multiple of 90 |
| Session.FourTurnsIsIdentity | src/app.js:805 | four quarter turns return the rotation to where it started |
| Session.PhotoState.ResetFinalState | src/app.js:363-372 | drops the output and disables the download; the transform is unchanged |
| Session.PhotoState.LoadSource | src/app.js:676-702 | a refused file changes nothing; an accepted one sets the cover scale, resets the transform, and through `resetPhotoForNewSource` and `resetPhotoFinalState` (src/app.js:665-674 and 363-372) drops the output and disables the download |
| Session.PhotoState.SetTransform | src/app.js:464-470 | the zoom is the slider percentage over 100, the offsets are set and the output is dropped |
| Session.SignatureState.ResetFinalState | src/app.js:374-384 | drops the output and disables the download; everything else is unchanged |
| Session.SignatureState.ResetForNewSource | src/app.js:1101-1110 | forgets the crop, the findings and the output |
| Session.SignatureState.LoadSource | src/app.js:1112-1134 | a refused file changes no field; an accepted one sets the cover scale, resets the transform and rotation, and forgets the crop, the findings, the blob and its URL |
| Session.SignatureState.Retake | src/app.js:1401-1409 | the source is dropped with the crop, the findings, the blob and its URL; the cover scale, transform and rotation are unchanged |
| Session.SignatureState.SetTransform | src/app.js:796-802 | the zoom is the slider percentage over 100, the offsets are set and the output is dropped |
| Session.SignatureState.Rotate | src/app.js:804-808 | a quarter turn that keeps the rotation invariant and drops the blob and its URL; scale, zoom, offsets, crop and findings are unchanged |
| Session.SignatureState.Crop | src/app.js:1411-1421 | refused without a source; otherwise marks the crop, disables the download and stores the hard failures and warnings of the evaluation without output checks; the source, blob, URL, scale, transform and rotation are unchanged |
| Session.SignatureState.RunChecks | src/app.js:1427-1438 | without a crop nothing changes; otherwise stores the hard failures and warnings of the evaluation without output checks and reports whether any hard failure remains; the blob, URL, download button, scale and transform are unchanged |
| Session.SignatureState.Generate | src/app.js:1440-1488 | a failed compression changes nothing; otherwise stores the blob with the type the encoder gave it, re-runs every check and enables the download exactly when no hard failure remains; scale and transform are unchanged |
| Session.SignatureState.Download | src/app.js:1490-1499 | starts exactly when an output and its URL exist and no hard failure is raised |
| Session.GeneratedOutputDownloadable | src/app.js:1440-1499 | a generated JPEG is downloadable exactly when its size is in the window, there are 3 bands, it is sharp and the ink floors are met |

## Left out

- Face detection (`getFaceDetector`, `detectFace`, src/imageAnalysis.js:5-60): a wrapper around the
  browser's `FaceDetector` with lazy module state. The detector's answer is an input record; the
  landmark lookup is modelled.
- Canvas, DOM and drawing. This covers `getImageData`, `drawImage`, `drawPhotoGuide`,
  `drawSignatureGuide`, `drawRoundedRectPath`, the canvas transforms of `renderAdjustedPhoto` and
  `renderAdjustedSignature`, and `annotatePhotoCanvas`, whose font-fitting loop depends on
  `measureText`. The pixel buffer is given as a sequence of bytes; `Session.Place` keeps only
  the placement `renderAdjustedPhoto` computes, and the signature's rotation transform is not
  drawn.
- Encoding and decoding (`canvasToBlob`, `loadBitmapFromBlob`, object URLs): the encoder is a
  function parameter from quality to an optional size, and a decoded bitmap is its two sides in
  `Session.SourceFile`.
- Date parsing (`new Date(value + "T00:00:00")`): a function parameter from string to optional
  milliseconds. Time zones and daylight-saving shifts are inside that parameter.
- `formatKB`, `toFixed`, `setRecencyPill`, and the text of the recency, warning and status messages
  built with template literals. Verdicts are modelled exactly; message text is modelled only where
  a contract names it (the band-count detail, the analyzers' fixed messages).
- IEEE-754 rounding: luminances, ratios, averages and qualities are exact reals. The stepped quality
  `quality ± 0.01` is therefore exact too.
- Camera streams and capture (`startPhotoCamera`, `capturePhotoFromCamera`, their signature twins,
  `stopMediaStream`). These are device I/O.
- Event registration, `activateMode`, `initialize`, `setBanner`, `setSectionEnabled`,
  `renderTextWarnings` and `renderSignatureWarnings`. These are pure UI.
- The photo's generate, download and accept handlers, and the parts of `resetPhotoForNewSource`
  other than its call of `resetPhotoFinalState` (the photo's accepted flag, checks and warnings
  are not fields of `Session.PhotoState`). Only the signature's download is gated on hard
  failures; the photo side has no gate in the core.
- The signature's check record (`state.signature.checks`, set at src/app.js:1085 and cleared at
  src/app.js:1103) is not a field of `Session.SignatureState`; the state keeps only the hard
  failures and warnings of each evaluation.
- Session.SignatureState.Download: a link click that throws (the handler's `catch` at
  src/app.js:1506-1508) is not modelled; the method reports a started download whenever the gate
  opens.
- Asynchrony: every `await` is treated as a sequential call.
- `String.prototype.trim`: the stripped characters are ECMAScript's white space and line
  terminators, with the space separators (category Zs) fixed at the list of current Unicode; a
  character a later Unicode version adds to Zs is not stripped.
- Session.SignatureState.Generate: does not keep the compression warning, which the handler only
  shows in a status banner.
- Session.PhotoState.LoadSource: the bitmap itself is not kept, only its two sides.
- Session.SignatureState.Generate: the encoder's blob type is one parameter for the whole
  compression run, since the browser answers every quality with the same type.
- Config.PhotoLabelTable and Config.SignatureLabelTable: the label objects are maps, so the
  order in which `Object.entries` walks them is not held by the tables; the checklist renders
  the keys in the order of the list it is given.
