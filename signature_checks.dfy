/**
 * The signature evaluator (`evaluateSignatureChecks`, src/app.js:980-1087): the eleven-entry
 * check record, the hard failures that block the download and the warnings. The image
 * analyzers and the structure analysis are the ones modelled in `ImageAnalysis` and `Structure`.
 */
module SignatureChecks {
  import opened Utils
  import Config
  import opened Pixels
  import opened ImageAnalysis
  import opened Bands
  import opened Structure
  import opened Checklist

  /** The generated output, as far as the evaluator looks at it. */
  datatype Blob = Blob(mimeType: string, size: nat)

  /** The signature profile's detection thresholds. */
  const Detect: Config.DetectConfig := Config.SignatureConfig.detect

  /** `width` lies within the permitted pixel range of 350 to 500. */
  predicate InDimensionRange(n: nat)
  {
    Config.SignatureConfig.dimensionPx.min <= n <= Config.SignatureConfig.dimensionPx.max
  }

  predicate IsJpeg(blob: Option<Blob>)
  {
    blob.Some? && Includes(blob.value.mimeType, "jpeg")
  }

  predicate SizeInRange(blob: Option<Blob>)
  {
    blob.Some? && Config.SigMinBytes <= blob.value.size <= Config.SigMaxBytes
  }

  // ---------------------------------------------------------------- the check record

  datatype SignatureCheckSet = SignatureCheckSet(
    fileFormat: StatusRecord, fileSize: StatusRecord, dimensions: StatusRecord, threeSignatures: StatusRecord,
    sharpness: StatusRecord, plainWhiteBackground: StatusRecord, noShadows: StatusRecord, contrast: StatusRecord,
    spacing: StatusRecord, alignment: StatusRecord, orientation: StatusRecord)

  /** The detail texts of the record's entries. */
  datatype SignatureTexts = SignatureTexts(
    formatOk: string, formatBad: string, formatAsk: string, sizeOk: string, sizeBad: string, sizeAsk: string,
    dimsOk: string, dimsBad: string, dimsAsk: string, threeOk: string, countPrefix: string, countSuffix: string,
    sharpOk: string, sharpBad: string, backgroundOk: string, backgroundAsk: string, shadowsOk: string,
    shadowsAsk: string, contrastOk: string, contrastAsk: string, spacingOkText: string, spacingAsk: string,
    alignOk: string, alignAsk: string, tilted: string, upright: string)

  const SignatureCheckTexts: SignatureTexts := SignatureTexts(
    "JPG format generated.", "Output is not JPG/JPEG.", "Generate output to verify format.",
    "File size is within 20KB to 100KB.", "File size is outside 20KB to 100KB.", "Generate output to verify file size.",
    "Dimensions are within 350px to 500px.", "Dimensions are outside 350px to 500px.",
    "Generate output to verify dimensions.",
    "Exactly 3 signature bands detected.", "Detected ", " signature band(s).",
    "Image sharpness looks acceptable.", "Image appears blurry or unreadable.",
    "Background appears plain white.", "Background may not be pure white.",
    "No major shadows detected.", "Shadow detected on paper.",
    "Ink contrast is acceptable.", "Low contrast or faint ink detected.",
    "Spacing between signatures looks good.", "Signatures may be too close together.",
    "Signatures look vertically aligned.", "Signatures may not be vertically aligned.",
    "Image may be tilted or rotated.", "Orientation appears acceptable.")

  /**
   * An output check: a warning until the output is generated, then a pass or a hard failure.
   */
  function OutputEntry(generated: bool, ok: bool, passText: string, failText: string, askText: string)
    : (r: StatusRecord)
    ensures !generated ==> r.status == Warn
    ensures generated ==> (r.status == Pass <==> ok) && (r.status == Fail <==> !ok)
  {
    if !generated then MakeStatus(Warn, askText)
    else if ok then MakeStatus(Pass, passText)
    else MakeStatus(Fail, failText)
  }

  /** A check that passes on a condition and otherwise reports `otherwise`. */
  function PassElse(ok: bool, otherwise: Verdict, passText: string, elseText: string): (r: StatusRecord)
    ensures ok ==> r.status == Pass
    ensures !ok ==> r.status == otherwise
  {
    if ok then MakeStatus(Pass, passText) else MakeStatus(otherwise, elseText)
  }

  /** The band-count entry, whose failure text quotes the count. */
  function CountEntry(count: nat, t: SignatureTexts): (r: StatusRecord)
    ensures r.status == Pass <==> count == 3
    ensures count != 3 ==> r == MakeStatus(Fail, t.countPrefix + NatToString(count) + t.countSuffix)
  {
    if count == 3 then MakeStatus(Pass, t.threeOk)
    else MakeStatus(Fail, t.countPrefix + NatToString(count) + t.countSuffix)
  }

  function OutputEntries(generated: bool, blob: Option<Blob>, width: nat, height: nat, t: SignatureTexts)
    : (r: (StatusRecord, StatusRecord, StatusRecord))
    ensures !generated ==> r.0.status == Warn && r.1.status == Warn && r.2.status == Warn
    ensures generated ==> (r.0.status == Pass <==> IsJpeg(blob)) && (r.0.status == Fail <==> !IsJpeg(blob))
    ensures generated ==> (r.1.status == Pass <==> SizeInRange(blob)) && (r.1.status == Fail <==> !SizeInRange(blob))
    ensures generated ==>
              (r.2.status == Pass <==> InDimensionRange(width) && InDimensionRange(height))
              && (r.2.status == Fail <==> !(InDimensionRange(width) && InDimensionRange(height)))
  {
    (OutputEntry(generated, IsJpeg(blob), t.formatOk, t.formatBad, t.formatAsk),
     OutputEntry(generated, SizeInRange(blob), t.sizeOk, t.sizeBad, t.sizeAsk),
     OutputEntry(generated, InDimensionRange(width) && InDimensionRange(height), t.dimsOk, t.dimsBad, t.dimsAsk))
  }

  /** The check record. */
  function SignatureCheckRecord(generated: bool, blob: Option<Blob>, width: nat, height: nat, blur: Verdict,
                                background: Verdict, shadows: Verdict, s: StructureReport, t: SignatureTexts)
    : (c: SignatureCheckSet)
    ensures !generated ==> c.fileFormat.status == Warn && c.fileSize.status == Warn && c.dimensions.status == Warn
    ensures generated ==> (c.fileFormat.status == Pass <==> IsJpeg(blob)) && (c.fileFormat.status == Fail <==> !IsJpeg(blob))
    ensures generated ==>
              (c.fileSize.status == Pass <==> SizeInRange(blob)) && (c.fileSize.status == Fail <==> !SizeInRange(blob))
    ensures generated ==>
              (c.dimensions.status == Pass <==> InDimensionRange(width) && InDimensionRange(height))
              && (c.dimensions.status == Fail <==> !(InDimensionRange(width) && InDimensionRange(height)))
    ensures c.threeSignatures == CountEntry(s.signatureCount, t)
    ensures c.sharpness.status == if blur == Pass then Pass else Fail
    ensures c.plainWhiteBackground.status == if background == Pass then Pass else Warn
    ensures c.noShadows.status == if shadows == Pass then Pass else Warn
    ensures c.contrast.status == if s.contrast >= Detect.minContrast then Pass else Warn
    ensures c.spacing.status == if s.spacingOk then Pass else Warn
    ensures c.alignment.status == if s.alignmentOk then Pass else Warn
    ensures c.orientation.status == if s.rotatedLikely then Warn else Pass
  {
    var out := OutputEntries(generated, blob, width, height, t);
    SignatureCheckSet(
      out.0, out.1, out.2, CountEntry(s.signatureCount, t),
      PassElse(blur == Pass, Fail, t.sharpOk, t.sharpBad),
      PassElse(background == Pass, Warn, t.backgroundOk, t.backgroundAsk),
      PassElse(shadows == Pass, Warn, t.shadowsOk, t.shadowsAsk),
      PassElse(s.contrast >= Detect.minContrast, Warn, t.contrastOk, t.contrastAsk),
      PassElse(s.spacingOk, Warn, t.spacingOkText, t.spacingAsk),
      PassElse(s.alignmentOk, Warn, t.alignOk, t.alignAsk),
      PassElse(!s.rotatedLikely, Warn, t.upright, t.tilted))
  }

  /** The record as the checklist reads it, keyed by check name. */
  function AsRecord(c: SignatureCheckSet): (r: map<string, StatusRecord>)
    ensures r.Keys == Config.SignatureCheckKeys
    ensures r["threeSignatures"] == c.threeSignatures && r["contrast"] == c.contrast
  {
    map[
      "fileFormat" := c.fileFormat, "fileSize" := c.fileSize, "dimensions" := c.dimensions,
      "threeSignatures" := c.threeSignatures, "sharpness" := c.sharpness,
      "plainWhiteBackground" := c.plainWhiteBackground, "noShadows" := c.noShadows, "contrast" := c.contrast,
      "spacing" := c.spacing, "alignment" := c.alignment, "orientation" := c.orientation]
  }

  // ---------------------------------------------------------------- hard failures

  /** The reasons that block the download. */
  datatype HardFail = NotJpeg | SizeOutOfRange | DimensionsOutOfRange | WrongSignatureCount | Unreadable
                    | InkTooLow | ContrastTooLow

  function HardFailText(f: HardFail): string
  {
    match f
    case NotJpeg => "Not JPG/JPEG output."
    case SizeOutOfRange => "File size not within 20KB to 100KB."
    case DimensionsOutOfRange => "Dimensions not within 350px to 500px."
    case WrongSignatureCount => "Less than 3 or more than 3 signatures detected."
    case Unreadable => "Signature image is blurry or unreadable."
    case InkTooLow => "Signature ink coverage is too low and unreadable."
    case ContrastTooLow => "Signature contrast is too low for reliable readability."
  }

  const HardFailOrder: seq<HardFail> :=
    [NotJpeg, SizeOutOfRange, DimensionsOutOfRange, WrongSignatureCount, Unreadable, InkTooLow, ContrastTooLow]

  function HardFailPosition(f: HardFail): (i: nat)
    ensures i < |HardFailOrder| && HardFailOrder[i] == f
  {
    match f
    case NotJpeg => 0
    case SizeOutOfRange => 1
    case DimensionsOutOfRange => 2
    case WrongSignatureCount => 3
    case Unreadable => 4
    case InkTooLow => 5
    case ContrastTooLow => 6
  }

  /** When each hard failure is pushed. */
  predicate HardFailRaised(c: SignatureCheckSet, generated: bool, s: StructureReport, f: HardFail)
  {
    match f
    case NotJpeg => c.fileFormat.status == Fail
    case SizeOutOfRange => c.fileSize.status == Fail && generated
    case DimensionsOutOfRange => c.dimensions.status == Fail && generated
    case WrongSignatureCount => c.threeSignatures.status == Fail
    case Unreadable => c.sharpness.status == Fail
    case InkTooLow => s.inkRatio < Detect.minInkRatioHard
    case ContrastTooLow => s.contrast < Detect.severeContrast
  }

  /** The hard failures pushed, in order: exactly the raised ones, each once. */
  function HardFailList(c: SignatureCheckSet, generated: bool, s: StructureReport): (fs: seq<HardFail>)
    ensures forall f :: f in fs <==> HardFailRaised(c, generated, s, f)
    ensures Distinct(fs)
  {
    assert Distinct(HardFailOrder);
    var fs := Filter(HardFailOrder, f => HardFailRaised(c, generated, s, f));
    forall f | HardFailRaised(c, generated, s, f) ensures f in fs {
      assert HardFailOrder[HardFailPosition(f)] == f;
    }
    fs
  }

  // ---------------------------------------------------------------- warnings

  datatype SignatureWarning = BackgroundNotWhite | ShadowsOnPaper | LowContrast | TooClose | NotAligned | Tilted

  function SignatureWarningText(w: SignatureWarning): string
  {
    match w
    case BackgroundNotWhite => "Background is not pure white."
    case ShadowsOnPaper => "Shadows detected on paper."
    case LowContrast => "Low contrast or faint ink."
    case TooClose => "Signatures are too close together."
    case NotAligned => "Signatures are not vertically aligned."
    case Tilted => "Image appears tilted or rotated."
  }

  const WarningOrder: seq<SignatureWarning> :=
    [BackgroundNotWhite, ShadowsOnPaper, LowContrast, TooClose, NotAligned, Tilted]

  function WarningPosition(w: SignatureWarning): (i: nat)
    ensures i < |WarningOrder| && WarningOrder[i] == w
  {
    match w
    case BackgroundNotWhite => 0
    case ShadowsOnPaper => 1
    case LowContrast => 2
    case TooClose => 3
    case NotAligned => 4
    case Tilted => 5
  }

  predicate WarningRaised(c: SignatureCheckSet, w: SignatureWarning)
  {
    match w
    case BackgroundNotWhite => c.plainWhiteBackground.status == Warn
    case ShadowsOnPaper => c.noShadows.status == Warn
    case LowContrast => c.contrast.status == Warn
    case TooClose => c.spacing.status == Warn
    case NotAligned => c.alignment.status == Warn
    case Tilted => c.orientation.status == Warn
  }

  function WarningList(c: SignatureCheckSet): (ws: seq<SignatureWarning>)
    ensures forall w :: w in ws <==> WarningRaised(c, w)
    ensures Distinct(ws)
  {
    assert Distinct(WarningOrder);
    var ws := Filter(WarningOrder, w => WarningRaised(c, w));
    forall w | WarningRaised(c, w) ensures w in ws {
      assert WarningOrder[WarningPosition(w)] == w;
    }
    ws
  }

  // ---------------------------------------------------------------- the evaluation

  datatype SignatureEvaluation = SignatureEvaluation(
    checks: SignatureCheckSet, hardFails: seq<HardFail>, warnings: seq<SignatureWarning>)

  /** The record, its de-duplicated hard failures and its de-duplicated warnings. */
  function SignatureEvaluationOf(generated: bool, blob: Option<Blob>, width: nat, height: nat, blur: Verdict,
                                 background: Verdict, shadows: Verdict, s: StructureReport, t: SignatureTexts)
    : (e: SignatureEvaluation)
    ensures e.checks == SignatureCheckRecord(generated, blob, width, height, blur, background, shadows, s, t)
    ensures e.hardFails == HardFailList(e.checks, generated, s)
    ensures e.warnings == WarningList(e.checks)
  {
    var c := SignatureCheckRecord(generated, blob, width, height, blur, background, shadows, s, t);
    var fs := HardFailList(c, generated, s);
    var ws := WarningList(c);
    DedupOfDistinct(fs);
    DedupOfDistinct(ws);
    SignatureEvaluation(c, Dedup(fs), Dedup(ws))
  }

  /**
   * `evaluateSignatureChecks(includeOutputChecks)` on the current signature canvas, as a function
   * of the flag and of the final blob it reads from the state.
   */
  type Evaluator = (bool, Option<Blob>) -> SignatureEvaluation

  /**
   * `evaluateSignatureChecks`: runs the three analyzers and the structure analysis on the
   * signature canvas, and returns the evaluator that builds the record, the hard failures and
   * the warnings from their results with the detail texts `t` (the page uses
   * `SignatureCheckTexts`). The page redraws the canvas on every rotation, transform change or
   * new source, so a fresh evaluator stands for each redrawn canvas.
   */
  method EvaluateSignatureChecks(img: Image, t: SignatureTexts) returns (structure: StructureReport, evaluate: Evaluator)
    requires img.Valid() && img.width > 0 && img.height > 0
    ensures SignatureBands(img, Detect, structure.rowBands, structure.colBands)
    ensures structure == Report(img, Detect, InkTotalsOf(img, AllPixels(img), Detect), structure.rowBands,
                                structure.colBands, Gaps(structure.rowBands), BandCenters(img, structure.rowBands, Detect))
    ensures forall generated, blob :: evaluate(generated, blob) ==
              SignatureEvaluationOf(generated, blob, img.width, img.height,
                                    Blur(img, Config.SignatureConfig.blur).status.status,
                                    Background(img, Config.SignatureConfig.background).status.status,
                                    Shadows(img, Config.SignatureConfig.shadow).status.status, structure, t)
  {
    var background := AnalyzeBackground(img, Config.SignatureConfig.background);
    var shadows := AnalyzeShadows(img, Config.SignatureConfig.shadow);
    var blur := AnalyzeBlur(img, Config.SignatureConfig.blur);
    structure := AnalyzeSignatureStructure(img, Config.SignatureConfig);
    var s := structure;
    evaluate := (generated, blob) => SignatureEvaluationOf(generated, blob, img.width, img.height, blur.status.status,
                                                          background.status.status, shadows.status.status, s, t);
  }

  // ---------------------------------------------------------------- properties

  /**
   * Once the output is generated, nothing blocks the download exactly when the output is a
   * JPEG of 20 KB to 100 KB within 350 to 500 px, exactly three signatures were found, the
   * image is sharp, and the ink is neither too sparse nor too faint.
   */
  lemma ReadyIffAllHardChecksHold(blob: Option<Blob>, width: nat, height: nat, blur: Verdict,
                                  background: Verdict, shadows: Verdict, s: StructureReport, t: SignatureTexts)
    ensures SignatureEvaluationOf(true, blob, width, height, blur, background, shadows, s, t).hardFails == [] <==>
              && IsJpeg(blob) && SizeInRange(blob) && InDimensionRange(width) && InDimensionRange(height)
              && s.signatureCount == 3 && blur == Pass
              && s.inkRatio >= Detect.minInkRatioHard && s.contrast >= Detect.severeContrast
  {
    var c := SignatureCheckRecord(true, blob, width, height, blur, background, shadows, s, t);
    NothingRaisedMeansEmpty(c, true, s);
    assert c.threeSignatures.status == Fail <==> s.signatureCount != 3;
    NoneRaisedIff(c, s, blob, width, height, blur);
  }

  /** On a generated output, what each raised hard failure says about the inputs. */
  lemma NoneRaisedIff(c: SignatureCheckSet, s: StructureReport, blob: Option<Blob>, width: nat, height: nat,
                      blur: Verdict)
    requires c.fileFormat.status == Fail <==> !IsJpeg(blob)
    requires c.fileSize.status == Fail <==> !SizeInRange(blob)
    requires c.dimensions.status == Fail <==> !(InDimensionRange(width) && InDimensionRange(height))
    requires c.threeSignatures.status == Fail <==> s.signatureCount != 3
    requires c.sharpness.status == Fail <==> blur != Pass
    ensures (forall f :: !HardFailRaised(c, true, s, f)) <==>
              && IsJpeg(blob) && SizeInRange(blob) && InDimensionRange(width) && InDimensionRange(height)
              && s.signatureCount == 3 && blur == Pass
              && s.inkRatio >= Detect.minInkRatioHard && s.contrast >= Detect.severeContrast
  {
    if forall f :: !HardFailRaised(c, true, s, f) {
      assert !HardFailRaised(c, true, s, NotJpeg) && !HardFailRaised(c, true, s, SizeOutOfRange);
      assert !HardFailRaised(c, true, s, DimensionsOutOfRange) && !HardFailRaised(c, true, s, WrongSignatureCount);
      assert !HardFailRaised(c, true, s, Unreadable) && !HardFailRaised(c, true, s, InkTooLow);
      assert !HardFailRaised(c, true, s, ContrastTooLow);
    }
  }

  /** The hard-failure list is empty exactly when no reason is raised. */
  lemma NothingRaisedMeansEmpty(c: SignatureCheckSet, generated: bool, s: StructureReport)
    ensures HardFailList(c, generated, s) == [] <==> forall f :: !HardFailRaised(c, generated, s, f)
  {
    var fs := HardFailList(c, generated, s);
    assert fs != [] ==> fs[0] in fs;
  }

  /**
   * Before the output is generated, the three output checks only warn and none of them is a
   * hard failure.
   */
  lemma NotGeneratedOnlyWarns(blob: Option<Blob>, width: nat, height: nat, blur: Verdict, background: Verdict,
                              shadows: Verdict, s: StructureReport, t: SignatureTexts)
    ensures var e := SignatureEvaluationOf(false, blob, width, height, blur, background, shadows, s, t);
            && e.checks.fileFormat.status == Warn && e.checks.fileSize.status == Warn
            && e.checks.dimensions.status == Warn
            && NotJpeg !in e.hardFails && SizeOutOfRange !in e.hardFails && DimensionsOutOfRange !in e.hardFails
  {
  }

  /**
   * A generated blob whose type does not name JPEG (a browser that could not encode JPEG hands
   * back another type) fails the format entry and blocks the download.
   */
  lemma NonJpegOutputBlocks(blob: Option<Blob>, width: nat, height: nat, blur: Verdict, background: Verdict,
                            shadows: Verdict, s: StructureReport, t: SignatureTexts)
    requires blob.Some? && !Includes(blob.value.mimeType, "jpeg")
    ensures var e := SignatureEvaluationOf(true, blob, width, height, blur, background, shadows, s, t);
            e.checks.fileFormat.status == Fail && NotJpeg in e.hardFails
  {
  }

  /** A band count other than three fails its entry, quotes the count, and blocks the download. */
  lemma WrongCountBlocks(generated: bool, blob: Option<Blob>, width: nat, height: nat, blur: Verdict,
                         background: Verdict, shadows: Verdict, s: StructureReport)
    ensures var e := SignatureEvaluationOf(generated, blob, width, height, blur, background, shadows, s,
                                           SignatureCheckTexts);
            && (WrongSignatureCount in e.hardFails <==> s.signatureCount != 3)
            && (s.signatureCount != 3 ==>
                  e.checks.threeSignatures.status == Fail
                  && e.checks.threeSignatures.detail == "Detected " + NatToString(s.signatureCount) + " signature band(s).")
  {
  }

  /** Ink below the severe contrast both warns in the checklist and blocks the download. */
  lemma SevereContrastWarnsAndBlocks(generated: bool, blob: Option<Blob>, width: nat, height: nat, blur: Verdict,
                                     background: Verdict, shadows: Verdict, s: StructureReport, t: SignatureTexts)
    requires s.contrast < Detect.severeContrast
    ensures var e := SignatureEvaluationOf(generated, blob, width, height, blur, background, shadows, s, t);
            && LowContrast in e.warnings && ContrastTooLow in e.hardFails
            && e.checks.contrast.status == Warn
  {
    assert Detect.severeContrast < Detect.minContrast;
    var e := SignatureEvaluationOf(generated, blob, width, height, blur, background, shadows, s, t);
    assert WarningRaised(e.checks, LowContrast);
    assert HardFailRaised(e.checks, generated, s, ContrastTooLow);
  }

  /** The generated 400 x 500 canvas always satisfies the dimension range. */
  lemma OutputCanvasHasValidDimensions(blob: Option<Blob>, blur: Verdict, background: Verdict, shadows: Verdict,
                                       s: StructureReport, t: SignatureTexts)
    ensures var e := SignatureEvaluationOf(true, blob, Config.SignatureConfig.output.width,
                                           Config.SignatureConfig.output.height, blur, background, shadows, s, t);
            e.checks.dimensions.status == Pass && DimensionsOutOfRange !in e.hardFails
  {
  }

  /** A blank white sheet finds no signature, so its evaluation is always blocked. */
  lemma BlankSheetIsBlocked(img: Image, generated: bool, blob: Option<Blob>, structure: StructureReport,
                            e: SignatureEvaluation)
    requires img.Valid() && img.width > 0 && img.height > 0 && SingleShade(img, 255)
    requires SignatureBands(img, Detect, structure.rowBands, structure.colBands)
    requires structure.signatureCount == |structure.rowBands|
    requires e == SignatureEvaluationOf(generated, blob, img.width, img.height,
                                        Blur(img, Config.SignatureConfig.blur).status.status,
                                        Background(img, Config.SignatureConfig.background).status.status,
                                        Shadows(img, Config.SignatureConfig.shadow).status.status, structure,
                                        SignatureCheckTexts)
    ensures WrongSignatureCount in e.hardFails
  {
    BlankSheetHasNoSignatures(img, Detect, structure.rowBands);
    WrongCountBlocks(generated, blob, img.width, img.height, Blur(img, Config.SignatureConfig.blur).status.status,
                     Background(img, Config.SignatureConfig.background).status.status,
                     Shadows(img, Config.SignatureConfig.shadow).status.status, structure);
  }
}
