/**
 * The four region analyzers and the landmark lookup of src/imageAnalysis.js. Each analyzer
 * is a method whose nested stride loops accumulate counts and sums exactly as the source
 * does; its result is proved equal to a specification function that folds the same
 * per-pixel contribution over the scan order (Pixels.ScanRows), and the promised
 * properties are lemmas about those functions.
 */
module ImageAnalysis {
  import opened Utils
  import opened Pixels
  import Config

  /** The `{status, metrics}` record every analyzer returns; `metrics` is `null` when absent. */
  datatype Analysis<M> = Analysis(status: StatusRecord, metrics: Option<M>)

  predicate AllInFrame(img: Image, cells: seq<Cell>)
  {
    forall i :: 0 <= i < |cells| ==> InFrame(img, cells[i])
  }

  /** Every cell of a full-frame stride scan is in frame. */
  lemma ScanInFrame(img: Image, dy: nat, dx: nat)
    requires dy > 0 && dx > 0
    ensures AllInFrame(img, ScanRows(0, img.height, dy, img.width, dx))
  {
    var cells := ScanRows(0, img.height, dy, img.width, dx);
    forall i | 0 <= i < |cells|
      ensures InFrame(img, cells[i])
    {
      ScanRowsMembers(0, img.height, dy, img.width, dx, cells[i]);
    }
  }

  // ================================================================ landmarks

  datatype Point = Point(x: real, y: real)

  /** One face landmark: its type and the optional `locations` list and `location` point. */
  datatype Landmark = Landmark(kind: string, locations: Option<seq<Point>>, location: Option<Point>)

  /** `Array.prototype.find` by type: the index of the first landmark of that type. */
  function FindKind(landmarks: seq<Landmark>, kind: string): (r: Option<nat>)
    ensures r.Some? ==> r.value < |landmarks| && landmarks[r.value].kind == kind
                        && forall j :: 0 <= j < r.value ==> landmarks[j].kind != kind
    ensures r.None? ==> forall j :: 0 <= j < |landmarks| ==> landmarks[j].kind != kind
  {
    if landmarks == [] then None
    else if landmarks[0].kind == kind then Some(0)
    else match FindKind(landmarks[1..], kind)
      case None => None
      case Some(i) => Some(i + 1)
  }

  /**
   * `landmarkPoint`: no point for an absent or empty list or when no landmark has the type;
   * otherwise the first of the match's `locations` when there is one, else its `location`.
   */
  function LandmarkPoint(landmarks: Option<seq<Landmark>>, kind: string): (p: Option<Point>)
    ensures landmarks.None? || landmarks.value == [] ==> p.None?
    ensures landmarks.Some? && (forall j :: 0 <= j < |landmarks.value| ==> landmarks.value[j].kind != kind)
            ==> p.None?
    ensures landmarks.Some? && FindKind(landmarks.value, kind).Some? ==>
              var m := landmarks.value[FindKind(landmarks.value, kind).value];
              p == if m.locations.Some? && |m.locations.value| > 0 then Some(m.locations.value[0])
                   else m.location
  {
    if landmarks.None? || landmarks.value == [] then None
    else match FindKind(landmarks.value, kind)
      case None => None
      case Some(i) =>
        var m := landmarks.value[i];
        if m.locations.Some? && |m.locations.value| > 0 then Some(m.locations.value[0])
        else m.location
  }

  /** The lookup answers with the first landmark of the type, whatever follows it. */
  lemma {:induction false} LandmarkFirstMatchWins(prefix: seq<Landmark>, m: Landmark, rest: seq<Landmark>)
    requires forall j :: 0 <= j < |prefix| ==> prefix[j].kind != m.kind
    requires m.locations.Some? && |m.locations.value| > 0
    ensures LandmarkPoint(Some(prefix + [m] + rest), m.kind) == Some(m.locations.value[0])
  {
    var s := prefix + [m] + rest;
    assert s[|prefix|] == m;
  }

  // ================================================================ background

  datatype BackgroundMetrics = BackgroundMetrics(avgLum: real, avgSat: real, variance: real)

  /** Running totals of the background loop: `count`, `sumLum`, `sumLumSq`, `sumSat`. */
  datatype BgSums = BgSums(count: nat, sumLum: real, sumLumSq: real, sumSat: real)

  /** `Math.max(2, Math.floor(extent * edgeSampleRatio))`. */
  function EdgeMargin(extent: nat, ratio: real): (m: int)
    ensures m >= 2
  {
    MaxInt(2, (extent as real * ratio).Floor)
  }

  /** The edge test of the background loop (margins `ex`, `ey`). */
  predicate OnEdge(img: Image, ex: int, ey: int, c: Cell)
  {
    c.x < ex || c.x > img.width - ex || c.y < ey || c.y > img.height - ey
  }

  /** The cells of `cells` that pass the edge test, in order. */
  function EdgeSamples(img: Image, ex: int, ey: int, cells: seq<Cell>): (r: seq<Cell>)
    ensures |r| <= |cells|
  {
    if cells == [] then []
    else
      var last := cells[|cells| - 1];
      EdgeSamples(img, ex, ey, cells[..|cells| - 1]) + (if OnEdge(img, ex, ey, last) then [last] else [])
  }

  lemma {:induction false} EdgeSamplesMembers(img: Image, ex: int, ey: int, cells: seq<Cell>, c: Cell)
    ensures c in EdgeSamples(img, ex, ey, cells) <==> c in cells && OnEdge(img, ex, ey, c)
  {
    if cells != [] {
      var init := cells[..|cells| - 1];
      EdgeSamplesMembers(img, ex, ey, init, c);
      assert cells == init + [cells[|cells| - 1]];
    }
  }

  lemma EdgeSamplesStep(img: Image, ex: int, ey: int, done: seq<Cell>, c: Cell)
    ensures EdgeSamples(img, ex, ey, done + [c]) ==
            EdgeSamples(img, ex, ey, done) + (if OnEdge(img, ex, ey, c) then [c] else [])
  {
    assert (done + [c])[..|done|] == done;
  }

  /** The totals after one more sample with luminance `lum` and saturation `sat` (one loop step). */
  function AddSample(s: BgSums, lum: real, sat: real): (r: BgSums)
    ensures r.count == s.count + 1
  {
    BgSums(s.count + 1, s.sumLum + lum, s.sumLumSq + lum * lum, s.sumSat + sat)
  }

  /** The background totals over a list of sampled cells: count, sum of Y, sum of Y², sum of S. */
  function BackgroundSums(img: Image, cells: seq<Cell>): (s: BgSums)
    ensures s.count == |cells|
  {
    if cells == [] then BgSums(0, 0.0, 0.0, 0.0)
    else AddSample(BackgroundSums(img, cells[..|cells| - 1]), LumAt(img, cells[|cells| - 1]), SatAt(img, cells[|cells| - 1]))
  }

  lemma BackgroundSumsStep(img: Image, e: seq<Cell>, c: Cell)
    ensures BackgroundSums(img, e + [c]) == AddSample(BackgroundSums(img, e), LumAt(img, c), SatAt(img, c))
  {
    assert (e + [c])[..|e|] == e;
  }

  /** One step of the background loop: the new cell contributes exactly when it is on the edge. */
  lemma BackgroundStep(img: Image, ex: int, ey: int, done: seq<Cell>, c: Cell)
    ensures BackgroundSums(img, EdgeSamples(img, ex, ey, done + [c])) ==
            if OnEdge(img, ex, ey, c)
            then AddSample(BackgroundSums(img, EdgeSamples(img, ex, ey, done)), LumAt(img, c), SatAt(img, c))
            else BackgroundSums(img, EdgeSamples(img, ex, ey, done))
  {
    EdgeSamplesStep(img, ex, ey, done, c);
    var e := EdgeSamples(img, ex, ey, done);
    if OnEdge(img, ex, ey, c) {
      BackgroundSumsStep(img, e, c);
    } else {
      assert e + [] == e;
    }
  }

  /** The background samples: the even-stride scan of the frame, restricted to the edge margin. */
  function BackgroundSamples(img: Image, cfg: Config.BackgroundConfig): seq<Cell>
  {
    EdgeSamples(img, EdgeMargin(img.width, cfg.edgeSampleRatio), EdgeMargin(img.height, cfg.edgeSampleRatio),
                ScanRows(0, img.height, 2, img.width, 2))
  }

  /** The verdict on the background totals. */
  function BackgroundVerdict(s: BgSums, cfg: Config.BackgroundConfig): (res: Analysis<BackgroundMetrics>)
    ensures s.count == 0 ==>
              res == Analysis(MakeStatus(Warn, "Background could not be evaluated."), None)
    ensures s.count > 0 ==>
              var n := s.count as real;
              var m := BackgroundMetrics(s.sumLum / n, s.sumSat / n, s.sumLumSq / n - (s.sumLum / n) * (s.sumLum / n));
              && res.metrics == Some(m)
              && (res.status.status == Pass <==>
                    m.avgLum >= cfg.minBrightness && m.avgSat <= cfg.maxSaturation && m.variance <= cfg.maxVariance)
              && res.status.status != Fail
  {
    if s.count == 0 then Analysis(MakeStatus(Warn, "Background could not be evaluated."), None)
    else
      var n := s.count as real;
      var avgLum := s.sumLum / n;
      var avgSat := s.sumSat / n;
      var variance := s.sumLumSq / n - avgLum * avgLum;
      var pass := avgLum >= cfg.minBrightness && avgSat <= cfg.maxSaturation && variance <= cfg.maxVariance;
      Analysis(if pass then MakeStatus(Pass, "Background appears plain white.")
               else MakeStatus(Warn, "Background may be dark, colored, or patterned."),
               Some(BackgroundMetrics(avgLum, avgSat, variance)))
  }

  /** What `analyzeBackground` computes. */
  function Background(img: Image, cfg: Config.BackgroundConfig): Analysis<BackgroundMetrics>
  {
    BackgroundVerdict(BackgroundSums(img, BackgroundSamples(img, cfg)), cfg)
  }

  /** A cell is sampled exactly when it is an in-frame cell with even coordinates that passes the edge test. */
  lemma BackgroundSampleMembers(img: Image, cfg: Config.BackgroundConfig, c: Cell)
    ensures c in BackgroundSamples(img, cfg) <==>
              && InFrame(img, c) && c.x % 2 == 0 && c.y % 2 == 0
              && OnEdge(img, EdgeMargin(img.width, cfg.edgeSampleRatio), EdgeMargin(img.height, cfg.edgeSampleRatio), c)
  {
    var ex, ey := EdgeMargin(img.width, cfg.edgeSampleRatio), EdgeMargin(img.height, cfg.edgeSampleRatio);
    EdgeSamplesMembers(img, ex, ey, ScanRows(0, img.height, 2, img.width, 2), c);
    ScanRowsMembers(0, img.height, 2, img.width, 2, c);
  }

  /** The "could not be evaluated" answer is given exactly for an empty frame. */
  lemma BackgroundEvaluated(img: Image, cfg: Config.BackgroundConfig)
    ensures Background(img, cfg).metrics.None? <==> img.width == 0 || img.height == 0
  {
    var samples := BackgroundSamples(img, cfg);
    if img.width > 0 && img.height > 0 {
      BackgroundSampleMembers(img, cfg, Cell(0, 0));
    } else if samples != [] {
      BackgroundSampleMembers(img, cfg, samples[0]);
    }
  }

  /** The range facts of the totals that keep the averages in range and the variance non-negative. */
  predicate SumsInRange(s: BgSums)
  {
    var n := s.count as real;
    && 0.0 <= s.sumLum <= 255.0 * n
    && 0.0 <= s.sumSat <= n
    && 0.0 <= s.sumLumSq
    && s.sumLum * s.sumLum <= n * s.sumLumSq
  }

  /** A product with a positive factor keeps the sign of the other factor. */
  lemma PositiveFactor(n: real, t: real)
    requires n > 0.0 && n * t >= 0.0
    ensures t >= 0.0
  {
  }

  /** One more sample keeps `sumLum² <= count * sumLumSq` (the discrete Cauchy-Schwarz step). */
  lemma {:induction false} SpreadStep(n: real, sumLum: real, sumLumSq: real, y: real)
    requires n >= 0.0 && sumLumSq >= 0.0 && sumLum * sumLum <= n * sumLumSq
    requires n == 0.0 ==> sumLum == 0.0
    ensures (sumLum + y) * (sumLum + y) <= (n + 1.0) * (sumLumSq + y * y)
  {
    var S, Q := sumLum, sumLumSq;
    if n > 0.0 {
      var u := n * y;
      var t := Q + n * y * y - 2.0 * S * y;
      assert n * t == n * Q + u * u - 2.0 * S * u;
      assert (S - u) * (S - u) == S * S - 2.0 * S * u + u * u;
      assert (S - u) * (S - u) >= 0.0;
      PositiveFactor(n, t);
      assert (n + 1.0) * (Q + y * y) - (S + y) * (S + y) == (n * Q - S * S) + t;
    }
  }

  lemma AddSampleInRange(s: BgSums, lum: real, sat: real)
    requires SumsInRange(s) && 0.0 <= lum <= 255.0 && 0.0 <= sat <= 1.0
    ensures SumsInRange(AddSample(s, lum, sat))
  {
    SpreadStep(s.count as real, s.sumLum, s.sumLumSq, lum);
  }

  lemma {:induction false} BackgroundSumsInRange(img: Image, cells: seq<Cell>)
    ensures SumsInRange(BackgroundSums(img, cells))
  {
    if cells != [] {
      var c := cells[|cells| - 1];
      BackgroundSumsInRange(img, cells[..|cells| - 1]);
      AddSampleInRange(BackgroundSums(img, cells[..|cells| - 1]), LumAt(img, c), SatAt(img, c));
    }
  }

  /** An average of values in [0, hi]: `sum / n` with `0 <= sum <= hi * n` lies in [0, hi]. */
  lemma AverageInRange(sum: real, n: real, hi: real)
    requires n > 0.0 && 0.0 <= sum <= hi * n
    ensures 0.0 <= sum / n <= hi
  {
    var a := sum / n;
    assert sum == a * n;
    PositiveFactor(n, a);
    assert n * (hi - a) == hi * n - sum;
    PositiveFactor(n, hi - a);
  }

  /** `sumLumSq / n - (sumLum / n)²` is not negative once `sumLum² <= n * sumLumSq`. */
  lemma {:induction false} VarianceNonNegative(n: real, sumLum: real, sumLumSq: real)
    requires n > 0.0 && sumLum * sumLum <= n * sumLumSq
    ensures sumLumSq / n - (sumLum / n) * (sumLum / n) >= 0.0
  {
    var a := sumLum / n;
    var q := sumLumSq / n;
    assert sumLum == a * n && sumLumSq == q * n;
    assert n * (n * (q - a * a)) == n * sumLumSq - sumLum * sumLum;
    PositiveFactor(n, n * (q - a * a));
    PositiveFactor(n, q - a * a);
  }

  /** The metrics of in-range totals are in range. */
  lemma VerdictInRange(s: BgSums, cfg: Config.BackgroundConfig)
    requires SumsInRange(s)
    ensures BackgroundVerdict(s, cfg).metrics.Some? ==>
              var m := BackgroundVerdict(s, cfg).metrics.value;
              0.0 <= m.avgLum <= 255.0 && 0.0 <= m.avgSat <= 1.0 && m.variance >= 0.0
  {
    if s.count > 0 {
      var n := s.count as real;
      AverageInRange(s.sumLum, n, 255.0);
      AverageInRange(s.sumSat, n, 1.0);
      VarianceNonNegative(n, s.sumLum, s.sumLumSq);
    }
  }

  /** Average luminance lies in [0, 255], average saturation in [0, 1], the variance is not negative. */
  lemma BackgroundMetricsInRange(img: Image, cfg: Config.BackgroundConfig)
    ensures Background(img, cfg).metrics.Some? ==>
              var m := Background(img, cfg).metrics.value;
              0.0 <= m.avgLum <= 255.0 && 0.0 <= m.avgSat <= 1.0 && m.variance >= 0.0
  {
    BackgroundSumsInRange(img, BackgroundSamples(img, cfg));
    VerdictInRange(BackgroundSums(img, BackgroundSamples(img, cfg)), cfg);
  }

  /** Totals over cells that all have the same luminance and saturation. */
  lemma {:induction false} UniformSums(img: Image, cells: seq<Cell>, lum: real, sat: real)
    requires forall i | 0 <= i < |cells| :: LumAt(img, cells[i]) == lum && SatAt(img, cells[i]) == sat
    ensures var s := BackgroundSums(img, cells);
            s.sumLum == Repeated(|cells|, lum) && s.sumLumSq == Repeated(|cells|, lum * lum)
            && s.sumSat == Repeated(|cells|, sat)
  {
    if cells != [] {
      var init, last := cells[..|cells| - 1], cells[|cells| - 1];
      assert forall i | 0 <= i < |init| :: init[i] == cells[i];
      UniformSums(img, init, lum, sat);
      UniformStep(BackgroundSums(img, init), |init|, lum, sat);
      assert BackgroundSums(img, cells) == AddSample(BackgroundSums(img, init), LumAt(img, last), SatAt(img, last));
    }
  }

  /** One more sample of the same luminance and saturation. */
  lemma UniformStep(s: BgSums, k: nat, lum: real, sat: real)
    requires s.sumLum == Repeated(k, lum) && s.sumLumSq == Repeated(k, lum * lum) && s.sumSat == Repeated(k, sat)
    ensures var r := AddSample(s, lum, sat);
            r.sumLum == Repeated(k + 1, lum) && r.sumLumSq == Repeated(k + 1, lum * lum) && r.sumSat == Repeated(k + 1, sat)
  {
  }

  /** Every in-frame cell of a single-shade frame has luminance `v` and no saturation. */
  lemma ShadeCells(img: Image, cells: seq<Cell>, v: Byte)
    requires img.Valid() && SingleShade(img, v)
    requires forall c | c in cells :: InFrame(img, c)
    ensures forall i | 0 <= i < |cells| :: LumAt(img, cells[i]) == v as real && SatAt(img, cells[i]) == 0.0
  {
    forall i | 0 <= i < |cells|
      ensures LumAt(img, cells[i]) == v as real && SatAt(img, cells[i]) == 0.0
    {
      ShadePixel(img, cells[i], v);
    }
  }

  /** The verdict on `n > 0` samples of one luminance and saturation: those values and no variance. */
  lemma UniformVerdict(s: BgSums, lum: real, sat: real, cfg: Config.BackgroundConfig)
    requires s.count > 0
    requires s.sumLum == Repeated(s.count, lum) && s.sumLumSq == Repeated(s.count, lum * lum)
             && s.sumSat == Repeated(s.count, sat)
    ensures BackgroundVerdict(s, cfg).metrics == Some(BackgroundMetrics(lum, sat, 0.0))
  {
    var n := s.count as real;
    var sq := lum * lum;
    RepeatedIsProduct(s.count, lum);
    RepeatedIsProduct(s.count, sq);
    RepeatedIsProduct(s.count, sat);
    assert s.sumLum / n == lum;
    assert s.sumLumSq / n == sq;
    assert s.sumSat / n == sat;
    var v := BackgroundVerdict(s, cfg);
    assert v.metrics.Some?;
    assert v.metrics.value.avgLum == lum;
    assert v.metrics.value.avgSat == sat;
    assert v.metrics.value.variance == s.sumLumSq / n - (s.sumLum / n) * (s.sumLum / n);
    assert v.metrics.value.variance == sq - lum * lum;
    assert v.metrics.value.variance == 0.0;
  }

  /**
   * An all-white frame passes with average luminance 255, no saturation and no variance,
   * under any thresholds that admit pure white.
   */
  lemma WhiteBackgroundPasses(img: Image, cfg: Config.BackgroundConfig)
    requires img.Valid() && SingleShade(img, 255) && img.width > 0 && img.height > 0
    requires cfg.minBrightness <= 255.0 && cfg.maxSaturation >= 0.0 && cfg.maxVariance >= 0.0
    ensures Background(img, cfg) ==
              Analysis(MakeStatus(Pass, "Background appears plain white."), Some(BackgroundMetrics(255.0, 0.0, 0.0)))
  {
    var samples := BackgroundSamples(img, cfg);
    forall c | c in samples
      ensures InFrame(img, c)
    {
      BackgroundSampleMembers(img, cfg, c);
    }
    ShadeCells(img, samples, 255);
    UniformSums(img, samples, 255.0, 0.0);
    BackgroundEvaluated(img, cfg);
    UniformVerdict(BackgroundSums(img, samples), 255.0, 0.0, cfg);
  }

  /** One step of the background row loop: the cell at `x` joins the folded prefix. */
  lemma BackgroundRowStep(img: Image, ex: int, ey: int, y: int, x: int, done: seq<Cell>, row: seq<Cell>)
    requires x < img.width && RowFrom(y, 0, img.width, 2) == row + RowFrom(y, x, img.width, 2)
    ensures RowFrom(y, 0, img.width, 2) == (row + [Cell(x, y)]) + RowFrom(y, x + 2, img.width, 2)
    ensures BackgroundSums(img, EdgeSamples(img, ex, ey, done + (row + [Cell(x, y)]))) ==
            if OnEdge(img, ex, ey, Cell(x, y))
            then AddSample(BackgroundSums(img, EdgeSamples(img, ex, ey, done + row)), LumAt(img, Cell(x, y)), SatAt(img, Cell(x, y)))
            else BackgroundSums(img, EdgeSamples(img, ex, ey, done + row))
  {
    RowFromStep(y, x, img.width, 2, row);
    assert done + row + [Cell(x, y)] == done + (row + [Cell(x, y)]);
    BackgroundStep(img, ex, ey, done + row, Cell(x, y));
  }

  /**
   * The inner loop of `analyzeBackground` for row `y`: every second column, accumulating
   * the pixels that pass the edge test. `done` is the part of the scan already folded.
   */
  method BackgroundRow(img: Image, edgeX: int, edgeY: int, y: int, sums: BgSums, ghost done: seq<Cell>)
    returns (sums': BgSums)
    requires img.Valid() && 0 <= y < img.height
    requires sums == BackgroundSums(img, EdgeSamples(img, edgeX, edgeY, done))
    ensures sums' == BackgroundSums(img, EdgeSamples(img, edgeX, edgeY, done + RowFrom(y, 0, img.width, 2)))
  {
    var rowOffset := y * img.width * 4;
    sums' := sums;
    ghost var row: seq<Cell> := [];
    assert done + row == done;
    var x := 0;
    while x < img.width
      invariant BackgroundRowScanned(img, edgeX, edgeY, y, x, done, row, sums')
      decreases img.width - x
    {
      sums', row := BackgroundStepAt(img, edgeX, edgeY, y, x, rowOffset, done, row, sums');
      x := x + 2;
    }
    assert row == RowFrom(y, 0, img.width, 2);
  }

  /** The invariant of the inner background loop: the cells before column `x` of row `y` are folded. */
  ghost predicate BackgroundRowScanned(img: Image, edgeX: int, edgeY: int, y: int, x: int, done: seq<Cell>,
                                       row: seq<Cell>, sums: BgSums)
  {
    && 0 <= x
    && RowFrom(y, 0, img.width, 2) == row + RowFrom(y, x, img.width, 2)
    && sums == BackgroundSums(img, EdgeSamples(img, edgeX, edgeY, done + row))
  }

  /** One pass of the inner background loop: the pixel at `(x, y)` is added when it is on the edge band. */
  method BackgroundStepAt(img: Image, edgeX: int, edgeY: int, y: int, x: int, rowOffset: int,
                          ghost done: seq<Cell>, ghost row: seq<Cell>, sums: BgSums)
    returns (sums': BgSums, ghost row': seq<Cell>)
    requires img.Valid() && 0 <= y < img.height && x < img.width && rowOffset == y * img.width * 4
    requires BackgroundRowScanned(img, edgeX, edgeY, y, x, done, row, sums)
    ensures BackgroundRowScanned(img, edgeX, edgeY, y, x + 2, done, row', sums')
  {
    var width, height := img.width, img.height;
    var c := Cell(x, y);
    sums' := sums;
    var onEdge := x < edgeX || x > width - edgeX || y < edgeY || y > height - edgeY;
    if onEdge {
      var index := rowOffset + x * 4;
      RowOffsetIndex(img, c, rowOffset);
      PixelRead(img, c, index);
      PixelSatRead(img, c, index);
      var r, g, b := img.data[index], img.data[index + 1], img.data[index + 2];
      var lum := Luminance(r, g, b);
      var sat := Saturation(r, g, b);
      sums' := AddSample(sums', lum, sat);
    }
    BackgroundRowAdvance(img, edgeX, edgeY, y, x, done, row, sums, sums');
    row' := row + [c];
  }

  lemma BackgroundRowAdvance(img: Image, edgeX: int, edgeY: int, y: int, x: int, done: seq<Cell>,
                             row: seq<Cell>, sums: BgSums, sums': BgSums)
    requires x < img.width && BackgroundRowScanned(img, edgeX, edgeY, y, x, done, row, sums)
    requires sums' == if OnEdge(img, edgeX, edgeY, Cell(x, y))
                      then AddSample(sums, LumAt(img, Cell(x, y)), SatAt(img, Cell(x, y))) else sums
    ensures BackgroundRowScanned(img, edgeX, edgeY, y, x + 2, done, row + [Cell(x, y)], sums')
  {
    BackgroundRowStep(img, edgeX, edgeY, y, x, done, row);
  }

  /** The two nested loops of `analyzeBackground`: the totals over the edge samples. */
  method BackgroundScan(img: Image, edgeX: int, edgeY: int) returns (sums: BgSums)
    requires img.Valid()
    ensures sums == BackgroundSums(img, EdgeSamples(img, edgeX, edgeY, ScanRows(0, img.height, 2, img.width, 2)))
  {
    var width: int, height: int := img.width, img.height;
    sums := BgSums(0, 0.0, 0.0, 0.0);
    ghost var scan := ScanRows(0, height, 2, width, 2);
    ghost var done: seq<Cell> := [];
    assert done + scan == scan;
    var y := 0;
    while y < height
      invariant 0 <= y
      invariant done + ScanRows(y, height, 2, width, 2) == scan
      invariant sums == BackgroundSums(img, EdgeSamples(img, edgeX, edgeY, done))
      decreases height - y
    {
      sums := BackgroundRow(img, edgeX, edgeY, y, sums, done);
      ScanRowsStep(y, height, 2, width, 2, done);
      done := done + RowFrom(y, 0, width, 2);
      y := y + 2;
    }
    assert done == done + ScanRows(y, height, 2, width, 2);
  }

  /** `analyzeBackground`: the even-stride scan of the whole frame, keeping edge pixels only. */
  method AnalyzeBackground(img: Image, cfg: Config.BackgroundConfig) returns (res: Analysis<BackgroundMetrics>)
    requires img.Valid()
    ensures res == Background(img, cfg)
  {
    var edgeX := EdgeMargin(img.width, cfg.edgeSampleRatio);
    var edgeY := EdgeMargin(img.height, cfg.edgeSampleRatio);
    var sums := BackgroundScan(img, edgeX, edgeY);
    res := BackgroundVerdict(sums, cfg);
  }

  // ================================================================ blur

  datatype BlurMetrics = BlurMetrics(edgeScore: real)

  /** Running totals of the blur loop: `count` and the summed `score`. */
  datatype BlurSums = BlurSums(count: nat, score: real)

  /** The luminance differences between a pixel and the pixels two to its right and two below it. */
  function EdgeContrast(img: Image, c: Cell): real
  {
    var lum := LumAt(img, c);
    Abs(lum - LumAt(img, Cell(c.x + 2, c.y))) + Abs(lum - LumAt(img, Cell(c.x, c.y + 2)))
  }

  /** Two luminance differences of at most 255 each. */
  lemma EdgeContrastRange(img: Image, c: Cell)
    ensures 0.0 <= EdgeContrast(img, c) <= 510.0
  {
  }

  /** The totals after one more pixel with contrast `d` (one loop step). */
  function AddContrast(s: BlurSums, d: real): (r: BlurSums)
    ensures r.count == s.count + 1
  {
    BlurSums(s.count + 1, s.score + d)
  }

  /** The blur totals over a list of sampled cells. */
  function BlurSumsOf(img: Image, cells: seq<Cell>): (s: BlurSums)
    ensures s.count == |cells|
  {
    if cells == [] then BlurSums(0, 0.0)
    else AddContrast(BlurSumsOf(img, cells[..|cells| - 1]), EdgeContrast(img, cells[|cells| - 1]))
  }

  lemma BlurSumsStep(img: Image, e: seq<Cell>, c: Cell)
    ensures BlurSumsOf(img, e + [c]) == AddContrast(BlurSumsOf(img, e), EdgeContrast(img, c))
  {
    assert (e + [c])[..|e|] == e;
  }

  /** The blur samples: even cells with two more columns to the right and two more rows below. */
  function BlurSamples(img: Image): seq<Cell>
  {
    ScanRows(0, img.height - 2, 2, img.width - 2, 2)
  }

  /** The verdict on the blur totals. */
  function BlurVerdict(s: BlurSums, cfg: Config.BlurConfig): (res: Analysis<BlurMetrics>)
    ensures var edgeScore := if s.count == 0 then 0.0 else s.score / s.count as real;
            && res.metrics == Some(BlurMetrics(edgeScore))
            && (edgeScore < cfg.minEdgeScore ==> res.status == MakeStatus(Warn, "Photo appears blurry."))
            && (edgeScore >= cfg.minEdgeScore ==> res.status == MakeStatus(Pass, "Photo sharpness looks acceptable."))
  {
    var edgeScore := if s.count == 0 then 0.0 else s.score / s.count as real;
    var blurry := edgeScore < cfg.minEdgeScore;
    Analysis(if blurry then MakeStatus(Warn, "Photo appears blurry.")
             else MakeStatus(Pass, "Photo sharpness looks acceptable."),
             Some(BlurMetrics(edgeScore)))
  }

  /** What `analyzeBlur` computes. */
  function Blur(img: Image, cfg: Config.BlurConfig): Analysis<BlurMetrics>
  {
    BlurVerdict(BlurSumsOf(img, BlurSamples(img)), cfg)
  }

  /** A cell is sampled exactly when it is even and its right and lower neighbours are in frame. */
  lemma BlurSampleMembers(img: Image, c: Cell)
    ensures c in BlurSamples(img) <==>
              && 0 <= c.x && c.x + 2 < img.width && 0 <= c.y && c.y + 2 < img.height
              && c.x % 2 == 0 && c.y % 2 == 0
  {
    ScanRowsMembers(0, img.height - 2, 2, img.width - 2, 2, c);
  }

  lemma {:induction false} BlurScoreInRange(img: Image, cells: seq<Cell>)
    ensures 0.0 <= BlurSumsOf(img, cells).score <= 510.0 * BlurSumsOf(img, cells).count as real
  {
    if cells != [] {
      BlurScoreInRange(img, cells[..|cells| - 1]);
      EdgeContrastRange(img, cells[|cells| - 1]);
    }
  }

  /** The edge score is an average pixel contrast: it lies in [0, 510]. */
  lemma BlurEdgeScoreInRange(img: Image, cfg: Config.BlurConfig)
    ensures 0.0 <= Blur(img, cfg).metrics.value.edgeScore <= 510.0
  {
    BlurScoreInRange(img, BlurSamples(img));
    BlurAverageInRange(BlurSumsOf(img, BlurSamples(img)));
  }

  lemma BlurAverageInRange(s: BlurSums)
    requires 0.0 <= s.score <= 510.0 * s.count as real
    ensures 0.0 <= (if s.count == 0 then 0.0 else s.score / s.count as real) <= 510.0
  {
    if s.count > 0 {
      AverageInRange(s.score, s.count as real, 510.0);
    }
  }

  /** A frame smaller than 3 x 3 pixels has no samples: its score is 0 and it counts as blurry. */
  lemma BlurTinyFrame(img: Image, cfg: Config.BlurConfig)
    requires img.width <= 2 || img.height <= 2
    requires cfg.minEdgeScore > 0.0
    ensures Blur(img, cfg) == Analysis(MakeStatus(Warn, "Photo appears blurry."), Some(BlurMetrics(0.0)))
  {
    var samples := BlurSamples(img);
    if samples != [] {
      BlurSampleMembers(img, samples[0]);
    }
  }

  /** In a single-shade frame every sampled contrast is 0. */
  lemma {:induction false} ShadeContrast(img: Image, cells: seq<Cell>)
    requires forall i | 0 <= i < |cells| :: EdgeContrast(img, cells[i]) == 0.0
    ensures BlurSumsOf(img, cells).score == 0.0
  {
    if cells != [] {
      var init, last := cells[..|cells| - 1], cells[|cells| - 1];
      assert forall i | 0 <= i < |init| :: init[i] == cells[i];
      ShadeContrast(img, init);
      assert EdgeContrast(img, last) == 0.0;
    }
  }

  lemma ShadeCellContrast(img: Image, c: Cell, v: Byte)
    requires img.Valid() && SingleShade(img, v)
    requires InFrame(img, c) && InFrame(img, Cell(c.x + 2, c.y)) && InFrame(img, Cell(c.x, c.y + 2))
    ensures EdgeContrast(img, c) == 0.0
  {
    ShadePixel(img, c, v);
    ShadePixel(img, Cell(c.x + 2, c.y), v);
    ShadePixel(img, Cell(c.x, c.y + 2), v);
  }

  /** A frame of one shade has edge score 0: it is reported blurry under any positive threshold. */
  lemma SingleShadeIsBlurry(img: Image, v: Byte, cfg: Config.BlurConfig)
    requires img.Valid() && SingleShade(img, v) && cfg.minEdgeScore > 0.0
    ensures Blur(img, cfg) == Analysis(MakeStatus(Warn, "Photo appears blurry."), Some(BlurMetrics(0.0)))
  {
    ShadeBlurScore(img, v);
    ZeroScoreIsBlurry(BlurSumsOf(img, BlurSamples(img)), cfg);
  }

  /** Totals with no contrast at all give the score 0, which is below any positive minimum. */
  lemma ZeroScoreIsBlurry(s: BlurSums, cfg: Config.BlurConfig)
    requires s.score == 0.0 && cfg.minEdgeScore > 0.0
    ensures BlurVerdict(s, cfg) == Analysis(MakeStatus(Warn, "Photo appears blurry."), Some(BlurMetrics(0.0)))
  {
    if s.count > 0 {
      assert s.score / s.count as real == 0.0;
    }
  }

  lemma ShadeBlurScore(img: Image, v: Byte)
    requires img.Valid() && SingleShade(img, v)
    ensures BlurSumsOf(img, BlurSamples(img)).score == 0.0
  {
    var samples := BlurSamples(img);
    forall i | 0 <= i < |samples|
      ensures EdgeContrast(img, samples[i]) == 0.0
    {
      BlurSampleMembers(img, samples[i]);
      ShadeCellContrast(img, samples[i], v);
    }
    ShadeContrast(img, samples);
  }

  /** The body of the blur loop at `(x, y)`: three pixel reads and the two absolute differences. */
  method ContrastAt(img: Image, x: int, y: int) returns (d: real)
    requires img.Valid() && 0 <= x && x + 2 < img.width && 0 <= y && y + 2 < img.height
    ensures d == EdgeContrast(img, Cell(x, y))
  {
    var w: int := img.width;
    var i := (y * w + x) * 4;
    var right := (y * w + (x + 2)) * 4;
    var down := ((y + 2) * w + x) * 4;
    PixelRead(img, Cell(x, y), i);
    PixelRead(img, Cell(x + 2, y), right);
    PixelRead(img, Cell(x, y + 2), down);
    var lum := Luminance(img.data[i], img.data[i + 1], img.data[i + 2]);
    var lumRight := Luminance(img.data[right], img.data[right + 1], img.data[right + 2]);
    var lumDown := Luminance(img.data[down], img.data[down + 1], img.data[down + 2]);
    d := Abs(lum - lumRight) + Abs(lum - lumDown);
  }

  /**
   * The inner loop of `analyzeBlur` for row `y`: every second column with two more columns
   * to its right, adding the contrast with the right and lower neighbours.
   */
  method BlurRow(img: Image, y: int, sums: BlurSums, ghost done: seq<Cell>) returns (sums': BlurSums)
    requires img.Valid() && 0 <= y && y + 2 < img.height
    requires sums == BlurSumsOf(img, done)
    ensures sums' == BlurSumsOf(img, done + RowFrom(y, 0, img.width - 2, 2))
  {
    var w: int := img.width;
    RowSumsFold(img, y, 0, w - 2, done, sums);
    sums' := sums;
    var x := 0;
    while x < w - 2
      invariant 0 <= x
      invariant RowSums(img, y, x, w - 2, sums') == RowSums(img, y, 0, w - 2, sums)
      decreases w - x
    {
      var d := ContrastAt(img, x, y);
      sums' := AddContrast(sums', d);
      x := x + 2;
    }
  }

  /** What the inner blur loop still adds to `sums` from column `x` of row `y` on. */
  function RowSums(img: Image, y: int, x: int, xEnd: int, sums: BlurSums): BlurSums
    decreases xEnd - x
  {
    if x >= xEnd then sums else RowSums(img, y, x + 2, xEnd, AddContrast(sums, EdgeContrast(img, Cell(x, y))))
  }

  /** Finishing a row from column `x` on continues the blur totals over the row's remaining samples. */
  lemma {:induction false} RowSumsFold(img: Image, y: int, x: int, xEnd: int, prefix: seq<Cell>, sums: BlurSums)
    requires sums == BlurSumsOf(img, prefix)
    ensures RowSums(img, y, x, xEnd, sums) == BlurSumsOf(img, prefix + RowFrom(y, x, xEnd, 2))
    decreases xEnd - x
  {
    if x >= xEnd {
      assert prefix + RowFrom(y, x, xEnd, 2) == prefix;
    } else {
      var c := Cell(x, y);
      BlurSumsNext(img, prefix, c, sums);
      RowSumsFold(img, y, x + 2, xEnd, prefix + [c], AddContrast(sums, EdgeContrast(img, c)));
      RowFromStep(y, x, xEnd, 2, prefix);
    }
  }

  lemma BlurSumsNext(img: Image, e: seq<Cell>, c: Cell, s: BlurSums)
    requires s == BlurSumsOf(img, e)
    ensures AddContrast(s, EdgeContrast(img, c)) == BlurSumsOf(img, e + [c])
  {
    BlurSumsStep(img, e, c);
  }

  /** The two nested loops of `analyzeBlur`: the totals over the blur samples. */
  method BlurScan(img: Image) returns (sums: BlurSums)
    requires img.Valid()
    ensures sums == BlurSumsOf(img, BlurSamples(img))
  {
    var w: int, h: int := img.width, img.height;
    sums := BlurSums(0, 0.0);
    ghost var done: seq<Cell> := [];
    assert done + ScanRows(0, h - 2, 2, w - 2, 2) == BlurSamples(img);
    var y := 0;
    while y < h - 2
      invariant 0 <= y
      invariant done + ScanRows(y, h - 2, 2, w - 2, 2) == BlurSamples(img)
      invariant sums == BlurSumsOf(img, done)
      decreases h - y
    {
      sums := BlurRow(img, y, sums, done);
      ScanRowsStep(y, h - 2, 2, w - 2, 2, done);
      done := done + RowFrom(y, 0, w - 2, 2);
      y := y + 2;
    }
    assert done == done + ScanRows(y, h - 2, 2, w - 2, 2);
  }

  /** `analyzeBlur`: the mean neighbour contrast over the even-stride scan, against `minEdgeScore`. */
  method AnalyzeBlur(img: Image, cfg: Config.BlurConfig) returns (res: Analysis<BlurMetrics>)
    requires img.Valid()
    ensures res == Blur(img, cfg)
  {
    var sums := BlurScan(img);
    res := BlurVerdict(sums, cfg);
  }

  // ================================================================ shadows

  datatype ShadowMetrics = ShadowMetrics(darkRatio: real, sideDiff: real)

  /** Running totals of the shadow loop. */
  datatype ShadowSums = ShadowSums(
    total: nat, dark: nat, leftLum: real, rightLum: real, leftCount: nat, rightCount: nat)

  /** The luminance below which a sampled pixel counts as dark. */
  const DarkLuminance: real := 70.0

  /** The side test of the shadow loop, `x < width / 2` on the real line. */
  predicate LeftHalf(img: Image, c: Cell)
  {
    (c.x as real) < (img.width as real) / 2.0
  }

  /** The same test on integers. */
  lemma LeftHalfExact(img: Image, c: Cell)
    ensures LeftHalf(img, c) <==> 2 * c.x < img.width
  {
  }

  /** The totals after one more pixel of luminance `lum` on the given side (one loop step). */
  function AddShade(s: ShadowSums, lum: real, left: bool): (r: ShadowSums)
    ensures r.total == s.total + 1
  {
    var dark := if lum < DarkLuminance then s.dark + 1 else s.dark;
    if left then ShadowSums(s.total + 1, dark, s.leftLum + lum, s.rightLum, s.leftCount + 1, s.rightCount)
    else ShadowSums(s.total + 1, dark, s.leftLum, s.rightLum + lum, s.leftCount, s.rightCount + 1)
  }

  /** The shadow totals over a list of sampled cells. */
  function ShadowSumsOf(img: Image, cells: seq<Cell>): (s: ShadowSums)
    ensures s.total == |cells|
  {
    if cells == [] then ShadowSums(0, 0, 0.0, 0.0, 0, 0)
    else
      var last := cells[|cells| - 1];
      AddShade(ShadowSumsOf(img, cells[..|cells| - 1]), LumAt(img, last), LeftHalf(img, last))
  }

  lemma ShadowSumsStep(img: Image, e: seq<Cell>, c: Cell)
    ensures ShadowSumsOf(img, e + [c]) == AddShade(ShadowSumsOf(img, e), LumAt(img, c), LeftHalf(img, c))
  {
    assert (e + [c])[..|e|] == e;
  }

  /** The shadow samples: every third column of every third row of the frame. */
  function ShadowSamples(img: Image): seq<Cell>
  {
    ScanRows(0, img.height, 3, img.width, 3)
  }

  /** `leftCount ? leftLum / leftCount : 0`. */
  function SideAverage(sum: real, count: nat): real
  {
    if count == 0 then 0.0 else sum / count as real
  }

  /** The verdict on the shadow totals: a warning exactly when either ratio exceeds its bound. */
  function ShadowVerdict(s: ShadowSums, cfg: Config.ShadowConfig): (res: Analysis<ShadowMetrics>)
    ensures res.metrics.Some?
    ensures var m := res.metrics.value;
            && m.darkRatio == (if s.total == 0 then 0.0 else s.dark as real / s.total as real)
            && m.sideDiff == Abs(SideAverage(s.leftLum, s.leftCount) - SideAverage(s.rightLum, s.rightCount))
            && (res.status.status == Warn <==> m.darkRatio > cfg.maxDarkPixelRatio || m.sideDiff > cfg.maxSideDifference)
            && res.status.status != Fail
  {
    var darkRatio := if s.total == 0 then 0.0 else s.dark as real / s.total as real;
    var sideDiff := Abs(SideAverage(s.leftLum, s.leftCount) - SideAverage(s.rightLum, s.rightCount));
    var hasShadows := darkRatio > cfg.maxDarkPixelRatio || sideDiff > cfg.maxSideDifference;
    Analysis(if hasShadows then MakeStatus(Warn, "Shadows detected on face or background.")
             else MakeStatus(Pass, "Shadow levels look acceptable."),
             Some(ShadowMetrics(darkRatio, sideDiff)))
  }

  /** What `analyzeShadows` computes. */
  function Shadows(img: Image, cfg: Config.ShadowConfig): Analysis<ShadowMetrics>
  {
    ShadowVerdict(ShadowSumsOf(img, ShadowSamples(img)), cfg)
  }

  /** A cell is sampled exactly when it is in frame and both coordinates are multiples of 3. */
  lemma ShadowSampleMembers(img: Image, c: Cell)
    ensures c in ShadowSamples(img) <==> InFrame(img, c) && c.x % 3 == 0 && c.y % 3 == 0
  {
    ScanRowsMembers(0, img.height, 3, img.width, 3, c);
  }

  /** The counting facts of the totals: dark pixels are among all, the two sides partition all. */
  predicate ShadowSumsInRange(s: ShadowSums)
  {
    && s.dark <= s.total
    && s.leftCount + s.rightCount == s.total
    && 0.0 <= s.leftLum <= 255.0 * s.leftCount as real
    && 0.0 <= s.rightLum <= 255.0 * s.rightCount as real
  }

  lemma {:induction false} ShadowSumsOfInRange(img: Image, cells: seq<Cell>)
    ensures ShadowSumsInRange(ShadowSumsOf(img, cells))
  {
    if cells != [] {
      ShadowSumsOfInRange(img, cells[..|cells| - 1]);
    }
  }

  lemma SideAverageInRange(sum: real, count: nat)
    requires 0.0 <= sum <= 255.0 * count as real
    ensures 0.0 <= SideAverage(sum, count) <= 255.0
  {
    if count > 0 {
      AverageInRange(sum, count as real, 255.0);
    }
  }

  lemma ShadowVerdictInRange(s: ShadowSums, cfg: Config.ShadowConfig)
    requires ShadowSumsInRange(s)
    ensures var m := ShadowVerdict(s, cfg).metrics.value;
            0.0 <= m.darkRatio <= 1.0 && 0.0 <= m.sideDiff <= 255.0
  {
    if s.total > 0 {
      AverageInRange(s.dark as real, s.total as real, 1.0);
    }
    SideAverageInRange(s.leftLum, s.leftCount);
    SideAverageInRange(s.rightLum, s.rightCount);
  }

  /** The dark ratio lies in [0, 1] and the side difference in [0, 255]. */
  lemma ShadowMetricsInRange(img: Image, cfg: Config.ShadowConfig)
    ensures var m := Shadows(img, cfg).metrics.value;
            0.0 <= m.darkRatio <= 1.0 && 0.0 <= m.sideDiff <= 255.0
  {
    ShadowSumsOfInRange(img, ShadowSamples(img));
    ShadowVerdictInRange(ShadowSumsOf(img, ShadowSamples(img)), cfg);
  }

  /** A sampled cell on a side makes that side's count positive. */
  lemma {:induction false} ShadowSideCounted(img: Image, cells: seq<Cell>, c: Cell)
    requires c in cells
    ensures LeftHalf(img, c) ==> ShadowSumsOf(img, cells).leftCount > 0
    ensures !LeftHalf(img, c) ==> ShadowSumsOf(img, cells).rightCount > 0
  {
    var init, last := cells[..|cells| - 1], cells[|cells| - 1];
    assert cells == init + [last];
    if c != last {
      ShadowSideCounted(img, init, c);
    }
  }

  /** Totals over in-frame cells of a single-shade frame. */
  lemma {:induction false} ShadeShadowSums(img: Image, cells: seq<Cell>, lum: real)
    requires forall i | 0 <= i < |cells| :: LumAt(img, cells[i]) == lum
    ensures var s := ShadowSumsOf(img, cells);
            && s.dark == (if lum < DarkLuminance then |cells| else 0)
            && s.leftLum == Repeated(s.leftCount, lum) && s.rightLum == Repeated(s.rightCount, lum)
  {
    if cells != [] {
      var init, last := cells[..|cells| - 1], cells[|cells| - 1];
      assert forall i | 0 <= i < |init| :: init[i] == cells[i];
      ShadeShadowSums(img, init, lum);
      assert LumAt(img, last) == lum;
      UniformShadeStep(ShadowSumsOf(img, init), |init|, lum, LeftHalf(img, last));
    }
  }

  /** One more sample of luminance `lum` keeps the totals those of `k + 1` such samples. */
  lemma UniformShadeStep(s: ShadowSums, k: nat, lum: real, left: bool)
    requires s.dark == (if lum < DarkLuminance then k else 0)
    requires s.leftLum == Repeated(s.leftCount, lum) && s.rightLum == Repeated(s.rightCount, lum)
    ensures var r := AddShade(s, lum, left);
            && r.dark == (if lum < DarkLuminance then k + 1 else 0)
            && r.leftLum == Repeated(r.leftCount, lum) && r.rightLum == Repeated(r.rightCount, lum)
  {
  }

  /** Sampled columns on both sides of the middle exist once the frame is at least 4 pixels wide. */
  lemma BothSidesSampled(img: Image)
    requires img.width >= 4 && img.height >= 1
    ensures Cell(0, 0) in ShadowSamples(img) && LeftHalf(img, Cell(0, 0))
    ensures exists x :: Cell(x, 0) in ShadowSamples(img) && !LeftHalf(img, Cell(x, 0))
  {
    ShadowSampleMembers(img, Cell(0, 0));
    var w := img.width;
    var x := if w < 6 then 3 else 3 * ((w - 1) / 3);
    ModOfMultiple(if w < 6 then 1 else (w - 1) / 3, 3);
    ShadowSampleMembers(img, Cell(x, 0));
    LeftHalfExact(img, Cell(x, 0));
  }

  /** The average of `k > 0` copies of `v` is `v`. */
  lemma SideAverageOfRepeated(k: nat, v: real)
    requires k > 0
    ensures SideAverage(Repeated(k, v), k) == v
  {
    RepeatedIsProduct(k, v);
    assert (k as real * v) / k as real == v;
  }

  /** The verdict on totals of one shade `v` with samples on both sides. */
  lemma ShadowVerdictUniform(s: ShadowSums, v: real, cfg: Config.ShadowConfig)
    requires s.leftCount > 0 && s.rightCount > 0 && s.total > 0
    requires s.dark == (if v < DarkLuminance then s.total else 0)
    requires s.leftLum == Repeated(s.leftCount, v) && s.rightLum == Repeated(s.rightCount, v)
    requires 0.0 <= cfg.maxDarkPixelRatio < 1.0 && 0.0 <= cfg.maxSideDifference
    ensures v >= DarkLuminance ==>
              ShadowVerdict(s, cfg) == Analysis(MakeStatus(Pass, "Shadow levels look acceptable."), Some(ShadowMetrics(0.0, 0.0)))
    ensures v < DarkLuminance ==>
              ShadowVerdict(s, cfg) == Analysis(MakeStatus(Warn, "Shadows detected on face or background."), Some(ShadowMetrics(1.0, 0.0)))
  {
    SideAverageOfRepeated(s.leftCount, v);
    SideAverageOfRepeated(s.rightCount, v);
    if v < DarkLuminance {
      var t := s.total as real;
      assert t > 0.0 && s.dark as real == t;
      assert t / t * t == t;
    } else {
      assert s.dark as real / s.total as real == 0.0;
    }
  }

  /**
   * A single-shade frame at least 4 pixels wide has equal side averages; it passes when the
   * shade is not dark, and it is flagged for its dark ratio of 1 when it is.
   */
  lemma SingleShadeShadows(img: Image, v: Byte, cfg: Config.ShadowConfig)
    requires img.Valid() && SingleShade(img, v) && img.width >= 4 && img.height >= 1
    requires 0.0 <= cfg.maxDarkPixelRatio < 1.0 && 0.0 <= cfg.maxSideDifference
    ensures (v as real) >= DarkLuminance ==>
              Shadows(img, cfg) == Analysis(MakeStatus(Pass, "Shadow levels look acceptable."), Some(ShadowMetrics(0.0, 0.0)))
    ensures (v as real) < DarkLuminance ==>
              Shadows(img, cfg) == Analysis(MakeStatus(Warn, "Shadows detected on face or background."), Some(ShadowMetrics(1.0, 0.0)))
  {
    var samples := ShadowSamples(img);
    forall c | c in samples
      ensures InFrame(img, c)
    {
      ShadowSampleMembers(img, c);
    }
    ShadeCells(img, samples, v);
    ShadeShadowSums(img, samples, v as real);
    BothSidesSampled(img);
    var x :| Cell(x, 0) in samples && !LeftHalf(img, Cell(x, 0));
    ShadowSideCounted(img, samples, Cell(0, 0));
    ShadowSideCounted(img, samples, Cell(x, 0));
    ShadowVerdictUniform(ShadowSumsOf(img, samples), v as real, cfg);
  }

  /** The body of the shadow loop at `(x, y)`: one pixel read. */
  method ShadeAt(img: Image, x: int, y: int) returns (lum: real)
    requires img.Valid() && InFrame(img, Cell(x, y))
    ensures lum == LumAt(img, Cell(x, y))
  {
    var width: int := img.width;
    var i := (y * width + x) * 4;
    PixelRead(img, Cell(x, y), i);
    lum := Luminance(img.data[i], img.data[i + 1], img.data[i + 2]);
  }

  /** One step of the shadow row loop: the cell at `x` joins the folded prefix. */
  lemma ShadowRowStep(img: Image, y: int, x: int, done: seq<Cell>, row: seq<Cell>)
    requires x < img.width && RowFrom(y, 0, img.width, 3) == row + RowFrom(y, x, img.width, 3)
    ensures RowFrom(y, 0, img.width, 3) == (row + [Cell(x, y)]) + RowFrom(y, x + 3, img.width, 3)
    ensures ShadowSumsOf(img, done + (row + [Cell(x, y)])) ==
            AddShade(ShadowSumsOf(img, done + row), LumAt(img, Cell(x, y)), LeftHalf(img, Cell(x, y)))
  {
    RowFromStep(y, x, img.width, 3, row);
    assert done + row + [Cell(x, y)] == done + (row + [Cell(x, y)]);
    ShadowSumsStep(img, done + row, Cell(x, y));
  }

  /** The inner loop of `analyzeShadows` for row `y`: every third column. */
  method ShadowRow(img: Image, y: int, sums: ShadowSums, ghost done: seq<Cell>) returns (sums': ShadowSums)
    requires img.Valid() && 0 <= y < img.height
    requires sums == ShadowSumsOf(img, done)
    ensures sums' == ShadowSumsOf(img, done + RowFrom(y, 0, img.width, 3))
  {
    var width: int := img.width;
    sums' := sums;
    ghost var row: seq<Cell> := [];
    assert done + row == done;
    var x := 0;
    while x < width
      invariant ShadowRowScanned(img, y, x, done, row, sums')
      decreases width - x
    {
      var lum := ShadeAt(img, x, y);
      var left := (x as real) < (width as real) / 2.0;
      ShadowRowAdvance(img, y, x, done, row, sums', lum, left);
      sums' := AddShade(sums', lum, left);
      row := row + [Cell(x, y)];
      x := x + 3;
    }
    assert row == RowFrom(y, 0, width, 3);
  }

  /** The invariant of the inner shadow loop: the cells before column `x` of row `y` are folded. */
  ghost predicate ShadowRowScanned(img: Image, y: int, x: int, done: seq<Cell>, row: seq<Cell>, sums: ShadowSums)
  {
    && 0 <= x
    && RowFrom(y, 0, img.width, 3) == row + RowFrom(y, x, img.width, 3)
    && sums == ShadowSumsOf(img, done + row)
  }

  lemma ShadowRowAdvance(img: Image, y: int, x: int, done: seq<Cell>, row: seq<Cell>, sums: ShadowSums,
                         lum: real, left: bool)
    requires x < img.width && ShadowRowScanned(img, y, x, done, row, sums)
    requires lum == LumAt(img, Cell(x, y)) && left == LeftHalf(img, Cell(x, y))
    ensures ShadowRowScanned(img, y, x + 3, done, row + [Cell(x, y)], AddShade(sums, lum, left))
  {
    ShadowRowStep(img, y, x, done, row);
  }

  /** The two nested loops of `analyzeShadows`: the totals over the shadow samples. */
  method ShadowScan(img: Image) returns (sums: ShadowSums)
    requires img.Valid()
    ensures sums == ShadowSumsOf(img, ShadowSamples(img))
  {
    var width: int, height: int := img.width, img.height;
    sums := ShadowSums(0, 0, 0.0, 0.0, 0, 0);
    ghost var done: seq<Cell> := [];
    assert done + ScanRows(0, height, 3, width, 3) == ShadowSamples(img);
    var y := 0;
    while y < height
      invariant 0 <= y
      invariant done + ScanRows(y, height, 3, width, 3) == ShadowSamples(img)
      invariant sums == ShadowSumsOf(img, done)
      decreases height - y
    {
      sums := ShadowRow(img, y, sums, done);
      ScanRowsStep(y, height, 3, width, 3, done);
      done := done + RowFrom(y, 0, width, 3);
      y := y + 3;
    }
    assert done == done + ScanRows(y, height, 3, width, 3);
  }

  /** `analyzeShadows`: the dark-pixel ratio and the left/right luminance difference of a stride-3 scan. */
  method AnalyzeShadows(img: Image, cfg: Config.ShadowConfig) returns (res: Analysis<ShadowMetrics>)
    requires img.Valid()
    ensures res == Shadows(img, cfg)
  {
    var sums := ShadowScan(img);
    res := ShadowVerdict(sums, cfg);
  }

  // ================================================================ glare

  /** The detected face's bounding box, in canvas pixels. */
  datatype FaceBox = FaceBox(x: real, y: real, width: real, height: real)

  datatype GlareMetrics = GlareMetrics(brightRatio: real)

  /** A pixel rectangle `[xStart, xEnd) x [yStart, yEnd)`. */
  datatype Region = Region(xStart: int, yStart: int, xEnd: int, yEnd: int)
  {
    predicate IsEmpty()
    {
      xEnd <= xStart || yEnd <= yStart
    }
  }

  /**
   * The eye band of a face box: columns 15% to 85% and rows 18% to 42% of the box, each
   * bound rounded down and clipped to the frame.
   */
  function GlareRegion(width: nat, height: nat, box: FaceBox): (r: Region)
    ensures r.xStart >= 0 && r.yStart >= 0 && r.xEnd <= width && r.yEnd <= height
  {
    Region(MaxInt(0, (box.x + box.width * 0.15).Floor),
           MaxInt(0, (box.y + box.height * 0.18).Floor),
           MinInt(width, (box.x + box.width * 0.85).Floor),
           MinInt(height, (box.y + box.height * 0.42).Floor))
  }

  /** For a box of non-negative size the band lies inside the box (rounded down) as well as the frame. */
  lemma GlareRegionInsideBox(width: nat, height: nat, box: FaceBox)
    requires box.width >= 0.0 && box.height >= 0.0
    ensures var r := GlareRegion(width, height, box);
            && (box.x.Floor <= r.xStart || r.xStart == 0)
            && r.xEnd <= (box.x + box.width).Floor
            && (box.y.Floor <= r.yStart || r.yStart == 0)
            && r.yEnd <= (box.y + box.height).Floor
  {
  }

  /** `lum > 245 && sat < 0.2`: a near-white, unsaturated pixel. */
  predicate Bright(r: Byte, g: Byte, b: Byte)
  {
    Luminance(r, g, b) > 245.0 && Saturation(r, g, b) < 0.2
  }

  /** The number of bright pixels among the first `k` pixels of an RGBA byte sequence. */
  function BrightCount(d: seq<Byte>, k: nat): (n: nat)
    requires 4 * k <= |d|
    ensures n <= k
  {
    if k == 0 then 0
    else
      var i := 4 * (k - 1);
      BrightCount(d, k - 1) + (if Bright(d[i], d[i + 1], d[i + 2]) then 1 else 0)
  }

  /** The verdict on `bright` of `total` pixels: glare exactly when their share exceeds the bound. */
  function GlareVerdict(bright: nat, total: nat, cfg: Config.GlareConfig): (res: Analysis<GlareMetrics>)
    requires bright <= total
    ensures res.metrics.Some? && 0.0 <= res.metrics.value.brightRatio <= 1.0
    ensures res.status.status == Warn <==> res.metrics.value.brightRatio > cfg.maxBrightRatio
    ensures res.status.status != Fail
  {
    var brightRatio := if total == 0 then 0.0 else bright as real / total as real;
    assert 0.0 <= brightRatio <= 1.0 by {
      if total > 0 {
        AverageInRange(bright as real, total as real, 1.0);
      }
    }
    Analysis(if brightRatio > cfg.maxBrightRatio then MakeStatus(Warn, "Possible glare detected near eye area.")
             else MakeStatus(Pass, "No obvious glare detected."),
             Some(GlareMetrics(brightRatio)))
  }

  /** What `analyzeGlare` computes. */
  function Glare(img: Image, box: Option<FaceBox>, cfg: Config.GlareConfig): (res: Analysis<GlareMetrics>)
    ensures box.None? ==> res == Analysis(MakeStatus(Warn, "Glare check unavailable without face detection."), None)
    ensures box.Some? && GlareRegion(img.width, img.height, box.value).IsEmpty() ==>
              res == Analysis(MakeStatus(Warn, "Glare region could not be evaluated."), None)
  {
    if box.None? then Analysis(MakeStatus(Warn, "Glare check unavailable without face detection."), None)
    else
      var r := GlareRegion(img.width, img.height, box.value);
      if r.IsEmpty() then Analysis(MakeStatus(Warn, "Glare region could not be evaluated."), None)
      else
        var d := CropRows(img, r.xStart, r.xEnd, r.yStart, r.yEnd);
        GlareVerdict(BrightCount(d, |d| / 4), |d| / 4, cfg)
  }

  /** Whenever the glare check is evaluated, the bright share lies in [0, 1] and decides the verdict. */
  lemma GlareMetricsMeaning(img: Image, box: Option<FaceBox>, cfg: Config.GlareConfig)
    ensures var res := Glare(img, box, cfg);
            res.metrics.Some? ==>
              && 0.0 <= res.metrics.value.brightRatio <= 1.0
              && (res.status.status == Warn <==> res.metrics.value.brightRatio > cfg.maxBrightRatio)
              && res.status.status != Fail
  {
  }

  /** The evaluated eye band is never empty of pixels. */
  lemma GlareRegionHasPixels(img: Image, box: FaceBox)
    requires !GlareRegion(img.width, img.height, box).IsEmpty()
    ensures var r := GlareRegion(img.width, img.height, box);
            |CropRows(img, r.xStart, r.xEnd, r.yStart, r.yEnd)| / 4 >= r.xEnd - r.xStart > 0
  {
  }

  /** In bytes of one shade, either every pixel is bright or none is. */
  lemma {:induction false} ShadeBrightCount(d: seq<Byte>, k: nat, v: Byte)
    requires 4 * k <= |d| && AllBytes(d, v)
    ensures BrightCount(d, k) == if Bright(v, v, v) then k else 0
  {
    if k > 0 {
      ShadeBrightCount(d, k - 1, v);
    }
  }

  /** Every pixel bright: the verdict is glare with a bright share of 1 under any bound below 1. */
  lemma GlareVerdictAllBright(total: nat, cfg: Config.GlareConfig)
    requires total > 0 && cfg.maxBrightRatio < 1.0
    ensures GlareVerdict(total, total, cfg) ==
              Analysis(MakeStatus(Warn, "Possible glare detected near eye area."), Some(GlareMetrics(1.0)))
  {
    var t := total as real;
    assert t / t == 1.0;
  }

  /** An all-white eye band is reported as glare under any bound below 1. */
  lemma WhiteEyeBandIsGlare(img: Image, box: FaceBox, cfg: Config.GlareConfig)
    requires !GlareRegion(img.width, img.height, box).IsEmpty()
    requires var r := GlareRegion(img.width, img.height, box);
             AllBytes(CropRows(img, r.xStart, r.xEnd, r.yStart, r.yEnd), 255)
    requires cfg.maxBrightRatio < 1.0
    ensures Glare(img, Some(box), cfg) ==
              Analysis(MakeStatus(Warn, "Possible glare detected near eye area."), Some(GlareMetrics(1.0)))
  {
    var r := GlareRegion(img.width, img.height, box);
    var d := CropRows(img, r.xStart, r.xEnd, r.yStart, r.yEnd);
    assert Bright(255, 255, 255);
    ShadeBrightCount(d, |d| / 4, 255);
    GlareRegionHasPixels(img, box);
    GlareVerdictAllBright(|d| / 4, cfg);
  }

  /** In particular, an all-white frame shows glare wherever the face box puts the band. */
  lemma WhiteFrameShowsGlare(img: Image, box: FaceBox, cfg: Config.GlareConfig)
    requires img.Valid() && SingleShade(img, 255)
    requires !GlareRegion(img.width, img.height, box).IsEmpty()
    requires cfg.maxBrightRatio < 1.0
    ensures Glare(img, Some(box), cfg) ==
              Analysis(MakeStatus(Warn, "Possible glare detected near eye area."), Some(GlareMetrics(1.0)))
  {
    var r := GlareRegion(img.width, img.height, box);
    CropRowsShade(img, r.xStart, r.xEnd, r.yStart, r.yEnd, 255);
    WhiteEyeBandIsGlare(img, box, cfg);
  }

  /** The loop of `analyzeGlare` over the cut-out bytes, four at a time. */
  method CountBright(d: seq<Byte>) returns (bright: nat, total: nat)
    requires |d| % 4 == 0
    ensures total == |d| / 4 && bright == BrightCount(d, total) && bright <= total
  {
    bright, total := 0, 0;
    var pixels := |d| / 4;
    assert 4 * pixels == |d|;
    var i := 0;
    while i < |d|
      invariant i == 4 * total && total <= pixels
      invariant bright == BrightCount(d, total)
      decreases |d| - i
    {
      var r, g, b := d[i], d[i + 1], d[i + 2];
      var lum := Luminance(r, g, b);
      var sat := Saturation(r, g, b);
      if lum > 245.0 && sat < 0.2 {
        bright := bright + 1;
      }
      total := total + 1;
      i := i + 4;
    }
  }

  /** `analyzeGlare`: the share of near-white pixels in the eye band of the face box. */
  method AnalyzeGlare(img: Image, box: Option<FaceBox>, cfg: Config.GlareConfig) returns (res: Analysis<GlareMetrics>)
    ensures res == Glare(img, box, cfg)
  {
    if box.None? {
      return Analysis(MakeStatus(Warn, "Glare check unavailable without face detection."), None);
    }
    var face := box.value;
    var r := GlareRegion(img.width, img.height, face);
    var xStart, yStart, xEnd, yEnd := r.xStart, r.yStart, r.xEnd, r.yEnd;
    if xEnd <= xStart || yEnd <= yStart {
      return Analysis(MakeStatus(Warn, "Glare region could not be evaluated."), None);
    }
    var data := CropRows(img, xStart, xEnd, yStart, yEnd);
    var bright, total := CountBright(data);
    res := GlareVerdict(bright, total, cfg);
  }
}
