/**
 * The signature-sheet structure analysis (src/app.js:823-978): count ink pixels per row and
 * per column, smooth both projection profiles with a clipped moving average, find bands of
 * ink rows and columns, and derive the spacing, alignment and rotation flags from them.
 * Loops are methods proved against the folds and profiles defined here; the flags are a
 * function (Report) of the ink totals, the bands and the band centres.
 */
module Structure {
  import opened Utils
  import opened Pixels
  import opened Bands
  import Config
  import ImageAnalysis

  // ---------------------------------------------------------------- smoothArray

  function SeqSum(s: seq<real>): real
  {
    if s == [] then 0.0 else SeqSum(s[..|s| - 1]) + s[|s| - 1]
  }

  function Mean(s: seq<real>): real
    requires |s| > 0
  {
    SeqSum(s) / |s| as real
  }

  /**
   * Entry `i` of `smoothArray(values, radius)`: the mean of the window
   * `values[max(0, i - radius) .. min(n - 1, i + radius)]`, and `values[i]` itself when that
   * window is empty (a negative radius).
   */
  function SmoothedAt(values: seq<real>, i: int, radius: int): real
    requires 0 <= i < |values|
  {
    var lo, hi := MaxInt(0, i - radius), MinInt(|values|, i + radius + 1);
    if lo < hi then Mean(values[lo..hi]) else values[i]
  }

  function Smoothed(values: seq<real>, radius: int): (r: seq<real>)
    ensures |r| == |values|
  {
    seq(|values|, i requires 0 <= i < |values| => SmoothedAt(values, i, radius))
  }

  lemma SeqSumSnoc(s: seq<real>, lo: int, c: int)
    requires 0 <= lo <= c < |s|
    ensures SeqSum(s[lo..c + 1]) == SeqSum(s[lo..c]) + s[c]
  {
    assert s[lo..c + 1][..c - lo] == s[lo..c];
  }

  /** Where the window loop of `smoothArray` has got to: `j` clipped to the window. */
  function Reached(lo: int, n: int, j: int): int
  {
    MaxInt(lo, MinInt(n, j))
  }

  /** The inner loop of `smoothArray`: the sum and count of the window entries inside the array. */
  method WindowSum(values: seq<real>, i: int, radius: int) returns (sum: real, count: nat)
    requires 0 <= i < |values|
    ensures var lo, hi := MaxInt(0, i - radius), MinInt(|values|, i + radius + 1);
            && (lo < hi ==> count == hi - lo && sum == SeqSum(values[lo..hi]))
            && (hi <= lo ==> count == 0)
  {
    var n := |values|;
    ghost var lo := MaxInt(0, i - radius);
    sum, count := 0.0, 0;
    var j := i - radius;
    while j <= i + radius
      invariant i - radius <= j && (radius >= 0 ==> j <= i + radius + 1)
      invariant radius >= 0 ==> sum == SeqSum(values[lo..Reached(lo, n, j)]) && count == Reached(lo, n, j) - lo
      invariant radius < 0 ==> count == 0
      decreases i + radius + 1 - j
    {
      if j >= 0 && j < n {
        SeqSumSnoc(values, lo, j);
        sum := sum + values[j];
        count := count + 1;
      }
      j := j + 1;
    }
  }

  /** `smoothArray(values, radius)`. */
  method SmoothArray(values: seq<real>, radius: int) returns (output: seq<real>)
    ensures output == Smoothed(values, radius)
  {
    var n := |values|;
    var out := new real[n](_ => 0.0);
    var i := 0;
    while i < n
      invariant 0 <= i <= n
      invariant forall k :: 0 <= k < i ==> out[k] == SmoothedAt(values, k, radius)
      decreases n - i
    {
      var sum, count := WindowSum(values, i, radius);
      out[i] := if count > 0 then sum / count as real else values[i];
      i := i + 1;
    }
    output := out[..];
    assert forall k :: 0 <= k < n ==> output[k] == Smoothed(values, radius)[k];
  }

  /** A one-entry profile is returned unchanged, whatever the radius. */
  lemma SmoothSingleton(values: seq<real>, radius: int)
    requires |values| == 1
    ensures Smoothed(values, radius) == values
  {
    if radius >= 0 {
      assert values[0..1] == values;
      assert values[..0] == [];
      assert SeqSum(values) == values[0];
    }
    assert Smoothed(values, radius)[0] == values[0];
  }

  lemma {:induction false} SeqSumConstant(s: seq<real>, c: real)
    requires forall k :: 0 <= k < |s| ==> s[k] == c
    ensures SeqSum(s) == Repeated(|s|, c)
  {
    if s != [] {
      SeqSumConstant(s[..|s| - 1], c);
    }
  }

  lemma {:induction false} SeqSumNonNegative(s: seq<real>)
    requires forall k :: 0 <= k < |s| ==> s[k] >= 0.0
    ensures SeqSum(s) >= 0.0
  {
    if s != [] {
      SeqSumNonNegative(s[..|s| - 1]);
    }
  }

  /** The mean of a window of equal values is that value. */
  lemma MeanConstant(w: seq<real>, c: real)
    requires |w| > 0 && forall k :: 0 <= k < |w| ==> w[k] == c
    ensures Mean(w) == c
  {
    SeqSumConstant(w, c);
    RepeatedIsProduct(|w|, c);
    var n := |w| as real;
    assert SeqSum(w) == n * c;
    assert (n * c) / n == c;
  }

  /** A constant profile is a fixed point of the smoothing. */
  lemma SmoothConstant(values: seq<real>, radius: int, c: real)
    requires forall k :: 0 <= k < |values| ==> values[k] == c
    ensures forall k :: 0 <= k < |values| ==> Smoothed(values, radius)[k] == c
  {
    forall k | 0 <= k < |values|
      ensures Smoothed(values, radius)[k] == c
    {
      var lo, hi := MaxInt(0, k - radius), MinInt(|values|, k + radius + 1);
      if lo < hi {
        MeanConstant(values[lo..hi], c);
      }
    }
  }

  /** Smoothing a non-negative profile (an ink count) keeps it non-negative. */
  lemma SmoothNonNegative(values: seq<real>, radius: int)
    requires forall k :: 0 <= k < |values| ==> values[k] >= 0.0
    ensures forall k :: 0 <= k < |values| ==> Smoothed(values, radius)[k] >= 0.0
  {
    forall k | 0 <= k < |values|
      ensures Smoothed(values, radius)[k] >= 0.0
    {
      var lo, hi := MaxInt(0, k - radius), MinInt(|values|, k + radius + 1);
      if lo < hi {
        SeqSumNonNegative(values[lo..hi]);
      }
    }
  }

  // ---------------------------------------------------------------- ink pixels

  /** The ink test of the structure analysis: dark enough and close enough to grey. */
  predicate IsInk(img: Image, c: Cell, d: Config.DetectConfig)
  {
    InFrame(img, c) && LumAt(img, c) < d.inkLuminanceThreshold && SatAt(img, c) <= d.maxInkSaturation
  }

  /**
   * Reads the pixel `(x, y)` and applies the ink test. A row outside the frame lies outside
   * the pixel buffer, whose reads are undefined and fail every comparison, so it holds no ink.
   */
  method InkAt(img: Image, x: int, y: int, d: Config.DetectConfig) returns (lum: real, ink: bool)
    requires img.Valid() && 0 <= x < img.width
    ensures InFrame(img, Cell(x, y)) ==> lum == LumAt(img, Cell(x, y))
    ensures ink == IsInk(img, Cell(x, y), d)
  {
    if y < 0 || y >= img.height {
      return 0.0, false;
    }
    var rowOffset := y * img.width * 4;
    RowOffsetIndex(img, Cell(x, y), rowOffset);
    var index := rowOffset + x * 4;
    PixelRead(img, Cell(x, y), index);
    PixelSatRead(img, Cell(x, y), index);
    var r, g, b := img.data[index], img.data[index + 1], img.data[index + 2];
    lum := Luminance(r, g, b);
    var sat := Saturation(r, g, b);
    ink := lum < d.inkLuminanceThreshold && sat <= d.maxInkSaturation;
  }

  // ---------------------------------------------------------------- bandCenterX

  datatype CenterSums = CenterSums(sumX: int, count: nat)

  function AddInkX(s: CenterSums, x: int, ink: bool): CenterSums
  {
    if ink then CenterSums(s.sumX + x, s.count + 1) else s
  }

  /** The sum of the columns of the ink pixels among `cells`, and how many there are. */
  function CenterSumsOf(img: Image, cells: seq<Cell>, d: Config.DetectConfig): CenterSums
  {
    if cells == [] then CenterSums(0, 0)
    else
      var c := cells[|cells| - 1];
      AddInkX(CenterSumsOf(img, cells[..|cells| - 1], d), c.x, IsInk(img, c, d))
  }

  lemma CenterSumsStep(img: Image, e: seq<Cell>, c: Cell, d: Config.DetectConfig)
    ensures CenterSumsOf(img, e + [c], d) == AddInkX(CenterSumsOf(img, e, d), c.x, IsInk(img, c, d))
  {
    assert (e + [c])[..|e|] == e;
  }

  /** Every pixel of the rows `band.start .. band.end`, row by row. */
  function BandRows(img: Image, band: Band): seq<Cell>
  {
    ScanRows(band.start, band.end + 1, 1, img.width, 1)
  }

  /** `bandCenterX`: the mean column of the band's ink pixels, or the middle column without ink. */
  function BandCenter(img: Image, band: Band, d: Config.DetectConfig): real
  {
    var s := CenterSumsOf(img, BandRows(img, band), d);
    if s.count > 0 then s.sumX as real / s.count as real else img.width as real / 2.0
  }

  lemma {:induction false} CenterSumsBound(img: Image, cells: seq<Cell>, d: Config.DetectConfig)
    ensures var s := CenterSumsOf(img, cells, d);
            0 <= s.sumX <= (img.width - 1) * s.count
  {
    if cells != [] {
      var e, c := cells[..|cells| - 1], cells[|cells| - 1];
      CenterSumsBound(img, e, d);
      var s := CenterSumsOf(img, e, d);
      assert CenterSumsOf(img, cells, d) == AddInkX(s, c.x, IsInk(img, c, d));
      if IsInk(img, c, d) {
        assert 0 <= c.x <= img.width - 1;
        SumStepBound(s.sumX, s.count, c.x, img.width - 1);
      }
    }
  }

  /** Adding one column no larger than `hi` keeps the total within `hi` per counted column. */
  lemma SumStepBound(sumX: int, count: nat, x: int, hi: int)
    requires sumX <= hi * count && x <= hi
    ensures sumX + x <= hi * (count + 1)
  {
    assert hi * (count + 1) == hi * count + hi;
  }

  /** A band centre lies within the frame's columns. */
  lemma BandCenterInRange(img: Image, band: Band, d: Config.DetectConfig)
    ensures 0.0 <= BandCenter(img, band, d) <= img.width as real
  {
    var s := CenterSumsOf(img, BandRows(img, band), d);
    CenterSumsBound(img, BandRows(img, band), d);
    MeanColumnInRange(s.sumX, s.count, img.width);
  }

  lemma MeanColumnInRange(sumX: int, count: nat, w: nat)
    requires 0 <= sumX <= (w - 1) * count
    ensures 0.0 <= (if count > 0 then sumX as real / count as real else w as real / 2.0) <= w as real
  {
    if count > 0 {
      assert ((w - 1) * count) as real == (w as real - 1.0) * count as real;
      ImageAnalysis.AverageInRange(sumX as real, count as real, w as real - 1.0);
    }
  }

  lemma CenterRowStep(img: Image, y: int, x: int, done: seq<Cell>, row: seq<Cell>)
    requires x < img.width && RowFrom(y, 0, img.width, 1) == row + RowFrom(y, x, img.width, 1)
    ensures RowFrom(y, 0, img.width, 1) == (row + [Cell(x, y)]) + RowFrom(y, x + 1, img.width, 1)
    ensures done + row + [Cell(x, y)] == done + (row + [Cell(x, y)])
  {
    RowFromStep(y, x, img.width, 1, row);
  }

  /** The inner loop of `bandCenterX` over one row. */
  method CenterRow(img: Image, y: int, d: Config.DetectConfig, sums: CenterSums, ghost done: seq<Cell>)
    returns (sums': CenterSums)
    requires img.Valid() && sums == CenterSumsOf(img, done, d)
    ensures sums' == CenterSumsOf(img, done + RowFrom(y, 0, img.width, 1), d)
  {
    var w: int := img.width;
    sums' := sums;
    ghost var prefix := done;
    var x := 0;
    while x < w
      invariant CenterRowScanned(img, y, x, d, done, prefix, sums')
      decreases w - x
    {
      var _, ink := InkAt(img, x, y, d);
      CenterRowAdvance(img, y, x, d, done, prefix, sums', ink);
      if ink {
        sums' := CenterSums(sums'.sumX + x, sums'.count + 1);
      }
      prefix := prefix + [Cell(x, y)];
      x := x + 1;
    }
    assert prefix + [] == prefix;
  }

  /** The invariant of the inner loop of `bandCenterX`: the cells before column `x` of row `y` are folded. */
  ghost predicate CenterRowScanned(img: Image, y: int, x: int, d: Config.DetectConfig, done: seq<Cell>,
                                   prefix: seq<Cell>, sums: CenterSums)
  {
    && 0 <= x
    && done + RowFrom(y, 0, img.width, 1) == prefix + RowFrom(y, x, img.width, 1)
    && sums == CenterSumsOf(img, prefix, d)
  }

  lemma CenterRowAdvance(img: Image, y: int, x: int, d: Config.DetectConfig, done: seq<Cell>, prefix: seq<Cell>,
                         sums: CenterSums, ink: bool)
    requires x < img.width && CenterRowScanned(img, y, x, d, done, prefix, sums)
    requires ink == IsInk(img, Cell(x, y), d)
    ensures CenterRowScanned(img, y, x + 1, d, done, prefix + [Cell(x, y)], AddInkX(sums, x, ink))
  {
    RowFromStep(y, x, img.width, 1, prefix);
    CenterSumsStep(img, prefix, Cell(x, y), d);
  }

  /** The two loops of `bandCenterX`: the ink column total and count over the band's rows. */
  method BandSums(img: Image, band: Band, d: Config.DetectConfig) returns (sums: CenterSums)
    requires img.Valid()
    ensures sums == CenterSumsOf(img, BandRows(img, band), d)
  {
    sums := CenterSums(0, 0);
    ghost var done: seq<Cell> := [];
    assert done + ScanRows(band.start, band.end + 1, 1, img.width, 1) == BandRows(img, band);
    var y := band.start;
    while y <= band.end
      invariant BandRowsScanned(img, band, d, y, done, sums)
      decreases band.end - y
    {
      sums := CenterRow(img, y, d, sums, done);
      BandRowsAdvance(img, band, d, y, done, sums);
      done := done + RowFrom(y, 0, img.width, 1);
      y := y + 1;
    }
    BandRowsDone(img, band, d, y, done, sums);
  }

  /** The invariant of the outer loop of `bandCenterX`: the band's rows before `y` are folded. */
  ghost predicate BandRowsScanned(img: Image, band: Band, d: Config.DetectConfig, y: int, done: seq<Cell>,
                                  sums: CenterSums)
  {
    && band.start <= y
    && done + ScanRows(y, band.end + 1, 1, img.width, 1) == BandRows(img, band)
    && sums == CenterSumsOf(img, done, d)
  }

  lemma BandRowsAdvance(img: Image, band: Band, d: Config.DetectConfig, y: int, done: seq<Cell>, sums: CenterSums)
    requires y <= band.end && band.start <= y
    requires done + ScanRows(y, band.end + 1, 1, img.width, 1) == BandRows(img, band)
    requires sums == CenterSumsOf(img, done + RowFrom(y, 0, img.width, 1), d)
    ensures BandRowsScanned(img, band, d, y + 1, done + RowFrom(y, 0, img.width, 1), sums)
  {
    ScanRowsStep(y, band.end + 1, 1, img.width, 1, done);
  }

  lemma BandRowsDone(img: Image, band: Band, d: Config.DetectConfig, y: int, done: seq<Cell>, sums: CenterSums)
    requires y > band.end && BandRowsScanned(img, band, d, y, done, sums)
    ensures sums == CenterSumsOf(img, BandRows(img, band), d)
  {
    assert done == done + ScanRows(y, band.end + 1, 1, img.width, 1);
  }

  /** `bandCenterX(imageData, width, band, thresholdLum, maxSat)`. */
  method BandCenterX(img: Image, band: Band, d: Config.DetectConfig) returns (cx: real)
    requires img.Valid()
    ensures cx == BandCenter(img, band, d)
  {
    var sums := BandSums(img, band, d);
    cx := if sums.count > 0 then sums.sumX as real / sums.count as real else img.width as real / 2.0;
  }

  function BandCenters(img: Image, bands: seq<Band>, d: Config.DetectConfig): (r: seq<real>)
    ensures |r| == |bands|
  {
    seq(|bands|, k requires 0 <= k < |bands| => BandCenter(img, bands[k], d))
  }

  /** `rowBands.map(band => bandCenterX(...))`. */
  method CentersOf(img: Image, bands: seq<Band>, d: Config.DetectConfig) returns (centers: seq<real>)
    requires img.Valid()
    ensures centers == BandCenters(img, bands, d)
  {
    centers := [];
    var k := 0;
    while k < |bands|
      invariant 0 <= k <= |bands|
      invariant centers == BandCenters(img, bands[..k], d)
      decreases |bands| - k
    {
      var c := BandCenterX(img, bands[k], d);
      centers := centers + [c];
      k := k + 1;
    }
    assert bands[..k] == bands;
  }

  // ---------------------------------------------------------------- projection counts

  datatype InkTotals = InkTotals(totalLum: real, inkLum: real, inkPixels: nat)

  function AddPixel(t: InkTotals, lum: real, ink: bool): InkTotals
  {
    InkTotals(t.totalLum + lum, if ink then t.inkLum + lum else t.inkLum,
              if ink then t.inkPixels + 1 else t.inkPixels)
  }

  /** The luminance total, the ink luminance total and the ink count over `cells`. */
  function InkTotalsOf(img: Image, cells: seq<Cell>, d: Config.DetectConfig): InkTotals
  {
    if cells == [] then InkTotals(0.0, 0.0, 0)
    else
      var c := cells[|cells| - 1];
      AddPixel(InkTotalsOf(img, cells[..|cells| - 1], d), LumAt(img, c), IsInk(img, c, d))
  }

  lemma InkTotalsStep(img: Image, e: seq<Cell>, c: Cell, d: Config.DetectConfig)
    ensures InkTotalsOf(img, e + [c], d) == AddPixel(InkTotalsOf(img, e, d), LumAt(img, c), IsInk(img, c, d))
  {
    assert (e + [c])[..|e|] == e;
  }

  /** Every pixel of the frame, in the loop order of the analysis. */
  function AllPixels(img: Image): seq<Cell>
  {
    ScanRows(0, img.height, 1, img.width, 1)
  }

  /** The ink pixels among the first `xEnd` pixels of row `y`. */
  function RowInk(img: Image, y: int, xEnd: int, d: Config.DetectConfig): nat
    decreases xEnd
  {
    if xEnd <= 0 then 0
    else RowInk(img, y, xEnd - 1, d) + (if IsInk(img, Cell(xEnd - 1, y), d) then 1 else 0)
  }

  /** The ink pixels among the first `yEnd` pixels of column `x`. */
  function ColInk(img: Image, x: int, yEnd: int, d: Config.DetectConfig): nat
    decreases yEnd
  {
    if yEnd <= 0 then 0
    else ColInk(img, x, yEnd - 1, d) + (if IsInk(img, Cell(x, yEnd - 1), d) then 1 else 0)
  }

  /** `rowInk`: ink pixels per row. */
  function RowProfile(img: Image, d: Config.DetectConfig): (p: seq<real>)
    ensures |p| == img.height
  {
    seq(img.height, y requires 0 <= y < img.height => RowInk(img, y, img.width, d) as real)
  }

  /** `colInk`: ink pixels per column. */
  function ColProfile(img: Image, d: Config.DetectConfig): (p: seq<real>)
    ensures |p| == img.width
  {
    seq(img.width, x requires 0 <= x < img.width => ColInk(img, x, img.height, d) as real)
  }

  /** `rowInk[y] += 1; colInk[x] += 1` for an ink pixel: both counters move one cell on. */
  method CountPixel(img: Image, x: int, y: int, d: Config.DetectConfig, ink: bool, rowInk: array<nat>, colInk: array<nat>)
    requires 0 <= y < rowInk.Length == img.height && 0 <= x < colInk.Length == img.width && rowInk != colInk
    requires ink == IsInk(img, Cell(x, y), d)
    requires forall y' :: 0 <= y' < img.height ==>
               rowInk[y'] == if y' < y then RowInk(img, y', img.width, d) else if y' == y then RowInk(img, y, x, d) else 0
    requires forall x' :: 0 <= x' < img.width ==> colInk[x'] == ColInk(img, x', if x' < x then y + 1 else y, d)
    modifies rowInk, colInk
    ensures forall y' :: 0 <= y' < img.height ==>
              rowInk[y'] == if y' < y then RowInk(img, y', img.width, d) else if y' == y then RowInk(img, y, x + 1, d) else 0
    ensures forall x' :: 0 <= x' < img.width ==> colInk[x'] == ColInk(img, x', if x' < x + 1 then y + 1 else y, d)
  {
    if ink {
      rowInk[y] := rowInk[y] + 1;
      colInk[x] := colInk[x] + 1;
    }
  }

  /** The inner loop of the projection count over row `y`. */
  method InkRow(img: Image, y: int, d: Config.DetectConfig, totals: InkTotals,
                rowInk: array<nat>, colInk: array<nat>, ghost done: seq<Cell>)
    returns (totals': InkTotals)
    requires img.Valid() && 0 <= y < img.height
    requires rowInk.Length == img.height && colInk.Length == img.width && rowInk != colInk
    requires totals == InkTotalsOf(img, done, d)
    requires forall y' :: 0 <= y' < img.height ==> rowInk[y'] == if y' < y then RowInk(img, y', img.width, d) else 0
    requires forall x' :: 0 <= x' < img.width ==> colInk[x'] == ColInk(img, x', y, d)
    modifies rowInk, colInk
    ensures totals' == InkTotalsOf(img, done + RowFrom(y, 0, img.width, 1), d)
    ensures forall y' :: 0 <= y' < img.height ==> rowInk[y'] == if y' < y + 1 then RowInk(img, y', img.width, d) else 0
    ensures forall x' :: 0 <= x' < img.width ==> colInk[x'] == ColInk(img, x', y + 1, d)
  {
    var w: int := img.width;
    totals' := totals;
    ghost var row: seq<Cell> := [];
    assert done + row == done;
    var x := 0;
    while x < w
      invariant 0 <= x <= w
      invariant RowFrom(y, 0, w, 1) == row + RowFrom(y, x, w, 1)
      invariant totals' == InkTotalsOf(img, done + row, d)
      invariant forall y' :: 0 <= y' < img.height ==>
                  rowInk[y'] == if y' < y then RowInk(img, y', w, d) else if y' == y then RowInk(img, y, x, d) else 0
      invariant forall x' :: 0 <= x' < w ==> colInk[x'] == ColInk(img, x', if x' < x then y + 1 else y, d)
      decreases w - x
    {
      CenterRowStep(img, y, x, done, row);
      InkTotalsStep(img, done + row, Cell(x, y), d);
      var lum, ink := InkAt(img, x, y, d);
      totals' := AddPixel(totals', lum, ink);
      CountPixel(img, x, y, d, ink, rowInk, colInk);
      row := row + [Cell(x, y)];
      x := x + 1;
    }
    assert row == RowFrom(y, 0, w, 1);
  }

  /** The invariant of the outer loop of the projection count, after the first `y` rows. */
  ghost predicate RowsCounted(img: Image, d: Config.DetectConfig, y: int, done: seq<Cell>, totals: InkTotals,
                              rowInk: array<nat>, colInk: array<nat>)
    reads rowInk, colInk
  {
    && img.Valid() && 0 <= y <= img.height
    && rowInk.Length == img.height && colInk.Length == img.width && rowInk != colInk
    && done + ScanRows(y, img.height, 1, img.width, 1) == AllPixels(img)
    && totals == InkTotalsOf(img, done, d)
    && (forall y' :: 0 <= y' < img.height ==> rowInk[y'] == if y' < y then RowInk(img, y', img.width, d) else 0)
    && (forall x' :: 0 <= x' < img.width ==> colInk[x'] == ColInk(img, x', y, d))
  }

  /** One pass of the outer loop: row `y` is counted. */
  method CountRow(img: Image, d: Config.DetectConfig, y: int, ghost done: seq<Cell>, totals: InkTotals,
                  rowInk: array<nat>, colInk: array<nat>)
    returns (ghost done': seq<Cell>, totals': InkTotals)
    requires RowsCounted(img, d, y, done, totals, rowInk, colInk) && y < img.height
    modifies rowInk, colInk
    ensures RowsCounted(img, d, y + 1, done', totals', rowInk, colInk)
  {
    totals' := InkRow(img, y, d, totals, rowInk, colInk, done);
    ScanRowsStep(y, img.height, 1, img.width, 1, done);
    done' := done + RowFrom(y, 0, img.width, 1);
  }

  /** The nested loops of `analyzeSignatureStructure`, counting into `rowInk` and `colInk`. */
  method CountInk(img: Image, d: Config.DetectConfig, rowInk: array<nat>, colInk: array<nat>) returns (totals: InkTotals)
    requires img.Valid() && rowInk.Length == img.height && colInk.Length == img.width && rowInk != colInk
    requires forall y' :: 0 <= y' < img.height ==> rowInk[y'] == 0
    requires forall x' :: 0 <= x' < img.width ==> colInk[x'] == 0
    modifies rowInk, colInk
    ensures totals == InkTotalsOf(img, AllPixels(img), d)
    ensures forall y' :: 0 <= y' < img.height ==> rowInk[y'] == RowInk(img, y', img.width, d)
    ensures forall x' :: 0 <= x' < img.width ==> colInk[x'] == ColInk(img, x', img.height, d)
  {
    totals := InkTotals(0.0, 0.0, 0);
    ghost var done: seq<Cell> := [];
    assert done + ScanRows(0, img.height, 1, img.width, 1) == AllPixels(img);
    var y := 0;
    while y < img.height
      invariant RowsCounted(img, d, y, done, totals, rowInk, colInk)
      decreases img.height - y
    {
      done, totals := CountRow(img, d, y, done, totals, rowInk, colInk);
      y := y + 1;
    }
    assert done == done + ScanRows(y, img.height, 1, img.width, 1);
  }

  /** The scan of `analyzeSignatureStructure`: the totals and both projection profiles. */
  method InkScan(img: Image, d: Config.DetectConfig) returns (totals: InkTotals, rows: seq<real>, cols: seq<real>)
    requires img.Valid()
    ensures totals == InkTotalsOf(img, AllPixels(img), d)
    ensures rows == RowProfile(img, d) && cols == ColProfile(img, d)
  {
    var rowInk := new nat[img.height](_ => 0);
    var colInk := new nat[img.width](_ => 0);
    totals := CountInk(img, d, rowInk, colInk);
    rows := seq(img.height, k requires 0 <= k < img.height reads rowInk => rowInk[k] as real);
    cols := seq(img.width, k requires 0 <= k < img.width reads colInk => colInk[k] as real);
    assert forall k :: 0 <= k < img.height ==> rows[k] == RowProfile(img, d)[k];
    assert forall k :: 0 <= k < img.width ==> cols[k] == ColProfile(img, d)[k];
  }

  // ---------------------------------------------------------------- thresholds and flags

  /** `Math.max(2, Math.floor(width * minRowInkRatio))`. */
  function MinRowCount(img: Image, d: Config.DetectConfig): int
  {
    MaxInt(2, (img.width as real * d.minRowInkRatio).Floor)
  }

  function MinColCount(img: Image, d: Config.DetectConfig): int
  {
    MaxInt(2, (img.height as real * d.minColInkRatio).Floor)
  }

  function MinBandHeight(img: Image, d: Config.DetectConfig): int
  {
    MaxInt(6, (img.height as real * d.minBandHeightRatio).Floor)
  }

  /** The minimum column-band width; the source derives it from `minBandHeightRatio` too. */
  function MinBandWidth(img: Image, d: Config.DetectConfig): int
  {
    MaxInt(6, (img.width as real * d.minBandHeightRatio).Floor)
  }

  function MinGapRequired(img: Image, d: Config.DetectConfig): int
  {
    (img.height as real * d.minGapRatio).Floor
  }
  /** The inactive rows between band `k` and band `k + 1`. */
  function Gap(bands: seq<Band>, k: int): int
    requires 0 <= k < |bands| - 1
  {
    bands[k + 1].start - bands[k].end - 1
  }

  /** `rowGaps`: one gap per pair of consecutive bands. */
  function Gaps(bands: seq<Band>): (g: seq<int>)
    ensures |g| == if |bands| > 0 then |bands| - 1 else 0
  {
    if |bands| == 0 then [] else seq(|bands| - 1, k requires 0 <= k < |bands| - 1 => Gap(bands, k))
  }

  /** The gap loop of the analysis. */
  method BandGaps(bands: seq<Band>) returns (gaps: seq<int>)
    ensures gaps == Gaps(bands)
  {
    gaps := [];
    var i := 0;
    while i < |bands| - 1
      invariant 0 <= i <= |Gaps(bands)| && |gaps| == i
      invariant forall k :: 0 <= k < i ==> gaps[k] == Gap(bands, k)
      decreases |bands| - i
    {
      gaps := gaps + [bands[i + 1].start - bands[i].end - 1];
      i := i + 1;
    }
    assert forall k :: 0 <= k < |gaps| ==> gaps[k] == Gaps(bands)[k];
  }

  /** `Math.min(...s)`. */
  function MinOf(s: seq<int>): (m: int)
    requires |s| > 0
    ensures forall k :: 0 <= k < |s| ==> m <= s[k]
    ensures exists k :: 0 <= k < |s| && s[k] == m
  {
    if |s| == 1 then s[0] else MinInt(MinOf(s[..|s| - 1]), s[|s| - 1])
  }

  /** `Math.max(...s)`. */
  function MaxOf(s: seq<real>): (m: real)
    requires |s| > 0
    ensures forall k :: 0 <= k < |s| ==> s[k] <= m
    ensures exists k :: 0 <= k < |s| && s[k] == m
  {
    if |s| == 1 then s[0] else Max(MaxOf(s[..|s| - 1]), s[|s| - 1])
  }

  /** `minGap`: the smallest gap, 0 when there is none. */
  function MinGap(gaps: seq<int>): int
  {
    if |gaps| > 0 then MinOf(gaps) else 0
  }

  /** `s.every((value) => value >= bound)`. */
  function AllAtLeast(s: seq<int>, bound: int): bool
  {
    s == [] || (s[0] >= bound && AllAtLeast(s[1..], bound))
  }

  lemma {:induction false} AllAtLeastMeans(s: seq<int>, bound: int)
    ensures AllAtLeast(s, bound) <==> forall k :: 0 <= k < |s| ==> s[k] >= bound
  {
    if s != [] {
      AllAtLeastMeans(s[1..], bound);
      assert forall k :: 1 <= k < |s| ==> s[k] == s[1..][k - 1];
    }
  }

  /** `spacingOk`: exactly three bands and no gap below the required one. */
  function SpacingOk(count: nat, gaps: seq<int>, required: int): bool
  {
    if count == 3 then AllAtLeast(gaps, required) else false
  }

  function Deviations(centers: seq<real>, mean: real): (r: seq<real>)
    ensures |r| == |centers|
  {
    seq(|centers|, k requires 0 <= k < |centers| => Abs(centers[k] - mean))
  }

  /** `maxCenterDeviation`: how far the band centre furthest from their mean lies from it. */
  function CenterDeviation(centers: seq<real>): (m: real)
    ensures |centers| > 0 ==> m >= 0.0
    ensures forall k :: 0 <= k < |centers| ==> Abs(centers[k] - Mean(centers)) <= m
    ensures |centers| > 0 ==> exists k :: 0 <= k < |centers| && Abs(centers[k] - Mean(centers)) == m
    ensures |centers| == 0 ==> m == 0.0
  {
    if |centers| > 0 then
      var devs := Deviations(centers, Mean(centers));
      assert devs[0] >= 0.0;
      assert forall k :: 0 <= k < |centers| ==> devs[k] == Abs(centers[k] - Mean(centers));
      MaxOf(devs)
    else 0.0
  }

  /** `inkRatio`: the share of the frame's pixels that are ink. */
  function InkRatio(img: Image, t: InkTotals): (q: real)
    requires img.width > 0 && img.height > 0
    ensures t.inkPixels <= img.width * img.height ==> 0.0 <= q <= 1.0
    ensures q == 0.0 <==> t.inkPixels == 0
  {
    var area := (img.width * img.height) as real;
    assert area > 0.0 by { PositiveArea(img.width, img.height); }
    if t.inkPixels <= img.width * img.height then
      ImageAnalysis.AverageInRange(t.inkPixels as real, area, 1.0);
      t.inkPixels as real / area
    else t.inkPixels as real / area
  }

  lemma PositiveArea(w: int, h: int)
    requires w > 0 && h > 0
    ensures (w * h) as real > 0.0
  {
    assert w * h >= w * 1;
  }

  /**
   * `contrast`: the mean luminance of the frame minus the mean luminance of its ink pixels
   * (the frame's own mean when there is no ink).
   */
  function Contrast(img: Image, t: InkTotals): (c: real)
    requires img.width > 0 && img.height > 0
    ensures t.inkPixels == 0 ==> c == 0.0
  {
    var avgLum := t.totalLum / (img.width * img.height) as real;
    var avgInkLum := if t.inkPixels > 0 then t.inkLum / t.inkPixels as real else avgLum;
    avgLum - avgInkLum
  }

  datatype StructureReport = StructureReport(
    signatureCount: nat, rowBands: seq<Band>, colBands: seq<Band>,
    minGap: int, minGapRequired: int, spacingOk: bool, alignmentOk: bool,
    maxCenterDeviation: real, rotatedLikely: bool, contrast: real, inkRatio: real)

  /**
   * The report of `analyzeSignatureStructure` from the scan totals, the row and column bands,
   * the gaps between the row bands and their centres.
   */
  function Report(img: Image, d: Config.DetectConfig, t: InkTotals, rowBands: seq<Band>, colBands: seq<Band>,
                  gaps: seq<int>, centers: seq<real>): (r: StructureReport)
    requires img.width > 0 && img.height > 0 && gaps == Gaps(rowBands)
    ensures r.signatureCount == |rowBands| && r.rowBands == rowBands && r.colBands == colBands
    ensures r.minGapRequired == MinGapRequired(img, d)
    ensures |rowBands| >= 2 ==>
              (forall k :: 0 <= k < |rowBands| - 1 ==> r.minGap <= Gap(rowBands, k))
              && (exists k :: 0 <= k < |rowBands| - 1 && Gap(rowBands, k) == r.minGap)
    ensures |rowBands| < 2 ==> r.minGap == 0
    ensures r.spacingOk <==>
              |rowBands| == 3 && Gap(rowBands, 0) >= r.minGapRequired && Gap(rowBands, 1) >= r.minGapRequired
    ensures r.alignmentOk <==>
              |rowBands| == 3 && r.maxCenterDeviation <= img.width as real * d.maxAlignmentDeviationRatio
    ensures r.maxCenterDeviation == CenterDeviation(centers)
    ensures r.rotatedLikely <==> |colBands| >= 3 && |rowBands| <= 2
    ensures t.inkPixels <= img.width * img.height ==> 0.0 <= r.inkRatio <= 1.0
    ensures t.inkPixels == 0 ==> r.inkRatio == 0.0 && r.contrast == 0.0
  {
    var required := MinGapRequired(img, d);
    var deviation := CenterDeviation(centers);
    assert |rowBands| >= 2 ==> forall k :: 0 <= k < |rowBands| - 1 ==> gaps[k] == Gap(rowBands, k);
    AllAtLeastMeans(gaps, required);
    StructureReport(|rowBands|, rowBands, colBands, MinGap(gaps), required, SpacingOk(|rowBands|, gaps, required),
                    if |rowBands| == 3 then deviation <= img.width as real * d.maxAlignmentDeviationRatio else false,
                    deviation, |colBands| >= 3 && |rowBands| <= 2, Contrast(img, t), InkRatio(img, t))
  }

  // ---------------------------------------------------------------- analyzeSignatureStructure

  lemma {:induction false} RowFromLength(y: int, x0: int, xEnd: int)
    requires x0 <= xEnd
    ensures |RowFrom(y, x0, xEnd, 1)| == xEnd - x0
    decreases xEnd - x0
  {
    if x0 < xEnd {
      RowFromLength(y, x0 + 1, xEnd);
    }
  }

  lemma {:induction false} ScanAllLength(y0: int, yEnd: int, w: nat)
    requires y0 <= yEnd
    ensures |ScanRows(y0, yEnd, 1, w, 1)| == (yEnd - y0) * w
    decreases yEnd - y0
  {
    if y0 < yEnd {
      ScanAllLength(y0 + 1, yEnd, w);
      RowFromLength(y0, 0, w);
      assert (yEnd - y0) * w == (yEnd - (y0 + 1)) * w + w;
    }
  }

  lemma {:induction false} InkCountBound(img: Image, cells: seq<Cell>, d: Config.DetectConfig)
    ensures InkTotalsOf(img, cells, d).inkPixels <= |cells|
  {
    if cells != [] {
      InkCountBound(img, cells[..|cells| - 1], d);
    }
  }

  /** No more pixels are ink than the frame has. */
  lemma InkPixelsBound(img: Image, d: Config.DetectConfig)
    ensures InkTotalsOf(img, AllPixels(img), d).inkPixels <= img.width * img.height
  {
    var cells := AllPixels(img);
    ScanAllLength(0, img.height, img.width);
    assert |cells| == img.height * img.width;
    InkCountBound(img, cells, d);
  }

  /**
   * The row bands and the column bands of the sheet: exactly the bands of the smoothed row
   * profile and of the smoothed column profile at the analysis's thresholds.
   */
  ghost predicate SignatureBands(img: Image, d: Config.DetectConfig, rowBands: seq<Band>, colBands: seq<Band>)
  {
    && DetectedBands(Smoothed(RowProfile(img, d), 2), MinRowCount(img, d) as real,
                     MinBandHeight(img, d), d.maxBandGapPx, rowBands)
    && DetectedBands(Smoothed(ColProfile(img, d), 2), MinColCount(img, d) as real,
                     MinBandWidth(img, d), d.maxBandGapPx, colBands)
  }

  /** The smoothing of both profiles and the search for row and column bands. */
  method FindBands(img: Image, d: Config.DetectConfig, rowInk: seq<real>, colInk: seq<real>)
    returns (rowBands: seq<Band>, colBands: seq<Band>)
    requires rowInk == RowProfile(img, d) && colInk == ColProfile(img, d)
    ensures SignatureBands(img, d, rowBands, colBands)
  {
    var smoothedRows := SmoothArray(rowInk, 2);
    var smoothedCols := SmoothArray(colInk, 2);
    rowBands := DetectBands(smoothedRows, MinRowCount(img, d) as real, MinBandHeight(img, d), d.maxBandGapPx);
    colBands := DetectBands(smoothedCols, MinColCount(img, d) as real, MinBandWidth(img, d), d.maxBandGapPx);
  }

  /**
   * `analyzeSignatureStructure(context, width, height, config)`. The signature canvas is
   * never empty (it has the fixed output size), which the source's divisions by
   * `width * height` rely on.
   */
  method AnalyzeSignatureStructure(img: Image, cfg: Config.SignatureProfile) returns (r: StructureReport)
    requires img.Valid() && img.width > 0 && img.height > 0
    ensures SignatureBands(img, cfg.detect, r.rowBands, r.colBands)
    ensures r == Report(img, cfg.detect, InkTotalsOf(img, AllPixels(img), cfg.detect), r.rowBands, r.colBands,
                        Gaps(r.rowBands), BandCenters(img, r.rowBands, cfg.detect))
    ensures 0.0 <= r.inkRatio <= 1.0
  {
    var totals, rowInk, colInk := InkScan(img, cfg.detect);
    var rowBands, colBands := FindBands(img, cfg.detect, rowInk, colInk);
    r := Summarize(img, cfg.detect, totals, rowBands, colBands);
    InkPixelsBound(img, cfg.detect);
  }

  /** The gaps, centres and flags of the analysis, once the bands are known. */
  method Summarize(img: Image, d: Config.DetectConfig, totals: InkTotals, rowBands: seq<Band>, colBands: seq<Band>)
    returns (r: StructureReport)
    requires img.Valid() && img.width > 0 && img.height > 0
    ensures r == Report(img, d, totals, rowBands, colBands, Gaps(rowBands), BandCenters(img, rowBands, d))
  {
    var rowGaps := BandGaps(rowBands);
    var centers := CentersOf(img, rowBands, d);
    r := Report(img, d, totals, rowBands, colBands, rowGaps, centers);
  }

  /**
   * Between two consecutive row bands lie more than `maxBandGapPx` quiet rows, so a reported
   * `minGap` always exceeds that setting.
   */
  lemma MinGapExceedsMaxGap(img: Image, d: Config.DetectConfig, t: InkTotals, values: seq<real>, minCount: real,
                            minSpan: int, rowBands: seq<Band>, colBands: seq<Band>, centers: seq<real>)
    requires img.width > 0 && img.height > 0 && |rowBands| >= 2
    requires DetectedBands(values, minCount, minSpan, d.maxBandGapPx, rowBands)
    ensures Report(img, d, t, rowBands, colBands, Gaps(rowBands), centers).minGap > d.maxBandGapPx
  {
    var r := Report(img, d, t, rowBands, colBands, Gaps(rowBands), centers);
    GapsExceedMaxGap(values, minCount, minSpan, d.maxBandGapPx, rowBands);
    var k :| 0 <= k < |rowBands| - 1 && Gap(rowBands, k) == r.minGap;
  }

  // ---------------------------------------------------------------- a blank sheet

  lemma {:induction false} BlankRow(img: Image, y: int, xEnd: int, d: Config.DetectConfig)
    requires img.Valid() && SingleShade(img, 255) && d.inkLuminanceThreshold <= 255.0 && xEnd <= img.width
    ensures RowInk(img, y, xEnd, d) == 0
    decreases xEnd
  {
    if xEnd > 0 {
      BlankRow(img, y, xEnd - 1, d);
      if InFrame(img, Cell(xEnd - 1, y)) {
        ShadePixel(img, Cell(xEnd - 1, y), 255);
      }
    }
  }

  /** A plain white sheet has no ink, so no row band: the analysis finds no signature. */
  lemma BlankSheetHasNoSignatures(img: Image, d: Config.DetectConfig, bands: seq<Band>)
    requires img.Valid() && SingleShade(img, 255) && d.inkLuminanceThreshold <= 255.0
    requires DetectedBands(Smoothed(RowProfile(img, d), 2), MinRowCount(img, d) as real,
                           MinBandHeight(img, d), d.maxBandGapPx, bands)
    ensures bands == []
  {
    var p := RowProfile(img, d);
    forall y | 0 <= y < |p|
      ensures p[y] == 0.0
    {
      BlankRow(img, y, img.width, d);
    }
    SmoothConstant(p, 2, 0.0);
    NoActiveNoBands(Smoothed(p, 2), MinRowCount(img, d) as real, MinBandHeight(img, d), d.maxBandGapPx, bands);
  }
}
