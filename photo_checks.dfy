/**
 * The photo evaluator: the recency check (`evaluateRecency`, src/app.js:472-494) and the
 * sixteen-entry check record with its do-not-upload warnings (`evaluatePhotoChecks`,
 * src/app.js:581-659). The manual confirmations and form fields are inputs; the image
 * analyzers and the face checks are the ones modelled in `ImageAnalysis` and `FaceGeometry`.
 */
module PhotoChecks {
  import opened Utils
  import Config
  import opened Pixels
  import opened ImageAnalysis
  import opened FaceGeometry
  import opened Checklist

  // ---------------------------------------------------------------- recency

  /**
   * `elements.captureDate.value || elements.photoDate.value`: one of the two fields, the capture
   * field taking precedence, and empty only when both are.
   */
  function CaptureField(captureValue: string, photoDateValue: string): (v: string)
    ensures v == captureValue || v == photoDateValue
    ensures v == "" <==> captureValue == "" && photoDateValue == ""
    ensures captureValue != "" ==> v == captureValue
  {
    if captureValue != "" then captureValue else photoDateValue
  }

  function RecencyPass(daysOld: int): (r: StatusRecord)
    ensures r.status == Pass
  {
    if daysOld < 0 then MakeStatus(Pass, "Within 10 days: capture date is after application start date.")
    else MakeStatus(Pass, "Within 10 days: photo is " + IntToString(daysOld) + " day(s) older than application start date.")
  }

  function RecencyWarn(daysOld: int): (r: StatusRecord)
    ensures r.status == Warn
  {
    MakeStatus(Warn, "Not within 10 days: photo is " + IntToString(daysOld) + " day(s) older than application start date.")
  }

  /**
   * `evaluateRecency`. The check passes when the capture day is at most ten whole days before
   * the application start, and also whenever the capture is after the start.
   */
  function EvaluateRecency(startValue: string, captureValue: string, photoDateValue: string,
                           parseInstant: string -> Option<int>): (r: StatusRecord)
    ensures r.status != Fail
    ensures var start := ParseDate(startValue, parseInstant);
            var capture := ParseDate(CaptureField(captureValue, photoDateValue), parseInstant);
            && (start.None? || capture.None? ==> r == MakeStatus(Warn, "Recency could not be calculated."))
            && (r.status == Pass <==>
                  start.Some? && capture.Some?
                  && start.value - capture.value < (Config.UpscConfig.recencyDays + 1) * MsPerDay)
  {
    var start := ParseDate(startValue, parseInstant);
    var capture := ParseDate(CaptureField(captureValue, photoDateValue), parseInstant);
    if start.None? || capture.None? then MakeStatus(Warn, "Recency could not be calculated.")
    else
      var daysOld := DateDiffInDays(start.value, capture.value);
      DaysAtMost(start.value, capture.value, Config.UpscConfig.recencyDays);
      if daysOld <= Config.UpscConfig.recencyDays then RecencyPass(daysOld) else RecencyWarn(daysOld)
  }

  /** A capture date on or after the application start always passes (the days are not negative-checked). */
  lemma CaptureAfterStartPasses(startValue: string, captureValue: string, photoDateValue: string,
                                parseInstant: string -> Option<int>)
    requires ParseDate(startValue, parseInstant).Some?
    requires ParseDate(CaptureField(captureValue, photoDateValue), parseInstant).Some?
    requires ParseDate(CaptureField(captureValue, photoDateValue), parseInstant).value
             >= ParseDate(startValue, parseInstant).value
    ensures EvaluateRecency(startValue, captureValue, photoDateValue, parseInstant).status == Pass
  {
  }

  /** A photo taken eleven whole days before the start date is no longer recent. */
  lemma ElevenDaysIsStale(startValue: string, captureValue: string, photoDateValue: string,
                          parseInstant: string -> Option<int>)
    requires ParseDate(startValue, parseInstant).Some?
    requires ParseDate(CaptureField(captureValue, photoDateValue), parseInstant).Some?
    requires ParseDate(startValue, parseInstant).value
             == ParseDate(CaptureField(captureValue, photoDateValue), parseInstant).value + 11 * MsPerDay
    ensures EvaluateRecency(startValue, captureValue, photoDateValue, parseInstant).status == Warn
  {
  }

  // ---------------------------------------------------------------- form fields

  /** The characters `String.prototype.trim` removes: white space and line terminators. */
  predicate IsTrimmed(c: char)
  {
    c == '\t' || c == '\n' || c == '\U{000B}' || c == '\U{000C}' || c == '\r' || c == ' '
    || c == '\U{00A0}' || c == '\U{1680}' || ('\U{2000}' <= c <= '\U{200A}')
    || c == '\U{2028}' || c == '\U{2029}' || c == '\U{202F}' || c == '\U{205F}'
    || c == '\U{3000}' || c == '\U{FEFF}'
  }

  /** `value.trim()` is a non-empty string: some character survives trimming. */
  predicate HasText(value: string)
  {
    exists i :: 0 <= i < |value| && !IsTrimmed(value[i])
  }

  /** The eight boxes of the manual checklist (`getPhotoManualChecks`, src/app.js:435-446). */
  datatype ManualChecks = ManualChecks(
    frontal: bool, eyesOpen: bool, earsVisible: bool, naturalExpression: bool, hairClear: bool,
    glassesNoGlare: bool, flagUniformHeadwear: bool, flagSignedPhoto: bool)

  /** Everything `evaluatePhotoChecks` reads besides the canvas. */
  datatype PhotoForm = PhotoForm(
    manual: ManualChecks, candidateName: string, photoDate: string, includeOutputChecks: bool,
    finalBlobSize: Option<nat>)

  // ---------------------------------------------------------------- the check record

  datatype PhotoCheckSet = PhotoCheckSet(
    faceCoverage: StatusRecord, headCentered: StatusRecord, frontal: StatusRecord, eyesOpen: StatusRecord,
    earsVisible: StatusRecord, plainWhiteBackground: StatusRecord, noShadows: StatusRecord,
    sharpness: StatusRecord, naturalExpression: StatusRecord, hairClear: StatusRecord, noGlare: StatusRecord,
    noRestrictedItems: StatusRecord, nameDatePrinted: StatusRecord, recency: StatusRecord,
    fileFormat: StatusRecord, fileSize: StatusRecord)

  /** A check that passes on a condition and otherwise asks for attention. */
  function PassOrWarn(ok: bool, passText: string, warnText: string): (r: StatusRecord)
    ensures r.status == Pass <==> ok
    ensures r.status != Fail
  {
    if ok then MakeStatus(Pass, passText) else MakeStatus(Warn, warnText)
  }

  /** The detail texts of the entries the evaluator writes itself. */
  datatype PhotoTexts = PhotoTexts(
    frontalOk: string, frontalAsk: string, eyesOk: string, eyesAsk: string, earsOk: string, earsAsk: string,
    expressionOk: string, expressionAsk: string, hairOk: string, hairAsk: string, glareOk: string,
    restrictedOk: string, restrictedAsk: string, nameDateOk: string, nameDateAsk: string,
    formatOk: string, formatAsk: string, sizeOk: string, sizeOutside: string, sizeAsk: string)

  const PhotoCheckTexts: PhotoTexts := PhotoTexts(
    "Frontal alignment confirmed.", "Confirm full frontal view.",
    "Eyes appear open and visible.", "Eyes open/visible confirmation is required.",
    "Both ears manually confirmed visible.", "Confirm both ears are clearly visible.",
    "Natural expression manually confirmed.", "Confirm natural expression.",
    "Hair clearance manually confirmed.", "Confirm hair is not covering eyes.",
    "No glare manually confirmed.",
    "No restricted items flagged.", "Restricted item flags are active.",
    "Name and date fields are ready.", "Candidate Name and Date are required.",
    "Output format is JPG/JPEG.", "Generate output to verify format.",
    "File size is within 20KB to 200KB.", "File size is outside 20KB to 200KB.",
    "Generate output to verify file size.")

  function FrontalEntry(frontalAuto: StatusRecord, confirmed: bool, t: PhotoTexts): (r: StatusRecord)
    ensures r.status == Pass <==> frontalAuto.status == Pass && confirmed
    ensures r.status != Fail
  {
    PassOrWarn(frontalAuto.status == Pass && confirmed, t.frontalOk, t.frontalAsk)
  }

  function EyesEntry(eyesAuto: StatusRecord, confirmed: bool, t: PhotoTexts): (r: StatusRecord)
    ensures r.status == Pass <==> eyesAuto.status == Pass && confirmed
    ensures r.status != Fail
  {
    PassOrWarn(eyesAuto.status == Pass && confirmed, t.eyesOk, t.eyesAsk)
  }

  /** The three entries that only the manual confirmations decide. */
  function ManualEntries(m: ManualChecks, t: PhotoTexts): (r: (StatusRecord, StatusRecord, StatusRecord))
    ensures r.0.status == Pass <==> m.earsVisible
    ensures r.1.status == Pass <==> m.naturalExpression
    ensures r.2.status == Pass <==> m.hairClear
    ensures r.0.status != Fail && r.1.status != Fail && r.2.status != Fail
  {
    (PassOrWarn(m.earsVisible, t.earsOk, t.earsAsk),
     PassOrWarn(m.naturalExpression, t.expressionOk, t.expressionAsk),
     PassOrWarn(m.hairClear, t.hairOk, t.hairAsk))
  }

  /** A manual "no glare" confirmation overrides the glare analyzer. */
  function GlareEntry(glare: StatusRecord, confirmed: bool, t: PhotoTexts): (r: StatusRecord)
    ensures confirmed ==> r.status == Pass
    ensures !confirmed ==> r == glare
  {
    if confirmed then MakeStatus(Pass, t.glareOk) else glare
  }

  function RestrictedEntry(m: ManualChecks, t: PhotoTexts): (r: StatusRecord)
    ensures r.status == Pass <==> !m.flagUniformHeadwear && !m.flagSignedPhoto
    ensures r.status != Fail
  {
    PassOrWarn(!m.flagUniformHeadwear && !m.flagSignedPhoto, t.restrictedOk, t.restrictedAsk)
  }

  function NameDateEntry(name: string, date: string, t: PhotoTexts): (r: StatusRecord)
    ensures r.status == Pass <==> HasText(name) && date != ""
    ensures r.status != Fail
  {
    PassOrWarn(HasText(name) && date != "", t.nameDateOk, t.nameDateAsk)
  }

  /** The two output checks; before an output exists both ask for it to be generated. */
  function OutputEntries(generated: bool, size: Option<nat>, t: PhotoTexts): (r: (StatusRecord, StatusRecord))
    ensures r.0.status == Pass <==> generated
    ensures r.1.status == Pass <==>
              generated && size.Some? && Config.PhotoMinBytes <= size.value <= Config.PhotoMaxBytes
    ensures r.0.status != Fail && r.1.status != Fail
  {
    var format := PassOrWarn(generated, t.formatOk, t.formatAsk);
    var fileSize :=
      if generated && size.Some? then
        PassOrWarn(Config.PhotoMinBytes <= size.value <= Config.PhotoMaxBytes, t.sizeOk, t.sizeOutside)
      else MakeStatus(Warn, t.sizeAsk);
    (format, fileSize)
  }

  /**
   * The check record, from the face checks, the analyzers' verdicts, the recency check and the
   * form. Only the analyzers and the recency check can contribute anything but a pass or a warning.
   */
  function PhotoCheckRecord(face: FaceChecks, background: StatusRecord, shadows: StatusRecord, blur: StatusRecord,
                            glare: StatusRecord, recency: StatusRecord, form: PhotoForm, t: PhotoTexts)
    : (c: PhotoCheckSet)
    ensures c.faceCoverage == face.faceCoverage && c.headCentered == face.headCentered
    ensures c.frontal.status == Pass <==> face.frontalAuto.status == Pass && form.manual.frontal
    ensures c.eyesOpen.status == Pass <==> face.eyesAuto.status == Pass && form.manual.eyesOpen
    ensures c.earsVisible.status == Pass <==> form.manual.earsVisible
    ensures c.naturalExpression.status == Pass <==> form.manual.naturalExpression
    ensures c.hairClear.status == Pass <==> form.manual.hairClear
    ensures c.plainWhiteBackground == background && c.noShadows == shadows && c.sharpness == blur
    ensures form.manual.glassesNoGlare ==> c.noGlare.status == Pass
    ensures !form.manual.glassesNoGlare ==> c.noGlare == glare
    ensures c.noRestrictedItems.status == Pass <==> !form.manual.flagUniformHeadwear && !form.manual.flagSignedPhoto
    ensures c.nameDatePrinted.status == Pass <==> HasText(form.candidateName) && form.photoDate != ""
    ensures c.recency == recency
    ensures c.fileFormat.status == Pass <==> form.includeOutputChecks
    ensures c.fileSize.status == Pass <==>
              form.includeOutputChecks && form.finalBlobSize.Some?
              && Config.PhotoMinBytes <= form.finalBlobSize.value <= Config.PhotoMaxBytes
    ensures c.frontal.status != Fail && c.eyesOpen.status != Fail && c.earsVisible.status != Fail
    ensures c.naturalExpression.status != Fail && c.hairClear.status != Fail
    ensures c.noRestrictedItems.status != Fail && c.nameDatePrinted.status != Fail
    ensures c.fileFormat.status != Fail && c.fileSize.status != Fail
  {
    var m := form.manual;
    var manual := ManualEntries(m, t);
    var output := OutputEntries(form.includeOutputChecks, form.finalBlobSize, t);
    PhotoCheckSet(
      face.faceCoverage, face.headCentered, FrontalEntry(face.frontalAuto, m.frontal, t),
      EyesEntry(face.eyesAuto, m.eyesOpen, t), manual.0, background, shadows, blur, manual.1, manual.2,
      GlareEntry(glare, m.glassesNoGlare, t), RestrictedEntry(m, t), NameDateEntry(form.candidateName, form.photoDate, t),
      recency, output.0, output.1)
  }

  /** The record as the checklist reads it, keyed by check name. */
  function AsRecord(c: PhotoCheckSet): (r: map<string, StatusRecord>)
    ensures r.Keys == Config.PhotoCheckKeys
  {
    map[
      "faceCoverage" := c.faceCoverage, "headCentered" := c.headCentered, "frontal" := c.frontal,
      "eyesOpen" := c.eyesOpen, "earsVisible" := c.earsVisible,
      "plainWhiteBackground" := c.plainWhiteBackground, "noShadows" := c.noShadows,
      "sharpness" := c.sharpness, "naturalExpression" := c.naturalExpression, "hairClear" := c.hairClear,
      "noGlare" := c.noGlare, "noRestrictedItems" := c.noRestrictedItems,
      "nameDatePrinted" := c.nameDatePrinted, "recency" := c.recency, "fileFormat" := c.fileFormat,
      "fileSize" := c.fileSize]
  }

  /** Every entry of the record, in the order the source lists them. */
  function Entries(c: PhotoCheckSet): seq<StatusRecord>
  {
    [c.faceCoverage, c.headCentered, c.frontal, c.eyesOpen, c.earsVisible, c.plainWhiteBackground,
     c.noShadows, c.sharpness, c.naturalExpression, c.hairClear, c.noGlare, c.noRestrictedItems,
     c.nameDatePrinted, c.recency, c.fileFormat, c.fileSize]
  }

  /** The entries of the keyed record are exactly the entries of the check set. */
  lemma AsRecordValues(c: PhotoCheckSet, key: string)
    requires key in Config.PhotoCheckKeys
    ensures AsRecord(c)[key] in Entries(c)
  {
  }

  // ---------------------------------------------------------------- warnings

  /** The do-not-upload warnings of the photo. */
  datatype PhotoWarning = FaceSize | DarkBackground | Headwear | SignedPhoto | Blurry | ShadowsFound

  function PhotoWarningText(w: PhotoWarning): string
  {
    match w
    case FaceSize => "Face too small or too close."
    case DarkBackground => "Dark/colored/patterned background detected."
    case Headwear => "Uniform/sunglasses/headwear flagged."
    case SignedPhoto => "Signed photo flagged."
    case Blurry => "Blurry photo detected."
    case ShadowsFound => "Shadows detected on face/background."
  }

  /** The order in which the evaluator pushes its warnings. */
  const PhotoWarningOrder: seq<PhotoWarning> := [FaceSize, DarkBackground, Headwear, SignedPhoto, Blurry, ShadowsFound]

  /** When each warning is raised. */
  predicate Raised(c: PhotoCheckSet, m: ManualChecks, w: PhotoWarning)
  {
    match w
    case FaceSize => c.faceCoverage.status == Warn
    case DarkBackground => c.plainWhiteBackground.status == Warn
    case Headwear => m.flagUniformHeadwear
    case SignedPhoto => m.flagSignedPhoto
    case Blurry => c.sharpness.status == Warn
    case ShadowsFound => c.noShadows.status == Warn
  }

  /** The warnings pushed, in order, before de-duplication: exactly the raised ones, each once. */
  function PhotoWarningList(c: PhotoCheckSet, m: ManualChecks): (ws: seq<PhotoWarning>)
    ensures forall w :: w in ws <==> Raised(c, m, w)
    ensures Distinct(ws)
  {
    assert Distinct(PhotoWarningOrder);
    var ws := Filter(PhotoWarningOrder, w => Raised(c, m, w));
    forall w | Raised(c, m, w) ensures w in ws {
      assert PhotoWarningOrder[Position(w)] == w;
    }
    ws
  }

  /** Where each warning sits in the push order. */
  function Position(w: PhotoWarning): (i: nat)
    ensures i < |PhotoWarningOrder| && PhotoWarningOrder[i] == w
  {
    match w
    case FaceSize => 0
    case DarkBackground => 1
    case Headwear => 2
    case SignedPhoto => 3
    case Blurry => 4
    case ShadowsFound => 5
  }

  datatype PhotoEvaluation = PhotoEvaluation(checks: PhotoCheckSet, warnings: seq<PhotoWarning>)

  /** The whole evaluation: the record and its de-duplicated warnings. */
  function PhotoEvaluationOf(face: FaceChecks, background: StatusRecord, shadows: StatusRecord, blur: StatusRecord,
                             glare: StatusRecord, recency: StatusRecord, form: PhotoForm): (e: PhotoEvaluation)
    ensures e.checks == PhotoCheckRecord(face, background, shadows, blur, glare, recency, form, PhotoCheckTexts)
    ensures e.warnings == PhotoWarningList(e.checks, form.manual)
  {
    var checks := PhotoCheckRecord(face, background, shadows, blur, glare, recency, form, PhotoCheckTexts);
    var ws := PhotoWarningList(checks, form.manual);
    DedupOfDistinct(ws);
    PhotoEvaluation(checks, Dedup(ws))
  }

  /** A record whose every entry passes raises no warnings. */
  lemma AllPassNoWarnings(face: FaceChecks, background: StatusRecord, shadows: StatusRecord, blur: StatusRecord,
                          glare: StatusRecord, recency: StatusRecord, form: PhotoForm)
    requires var c := PhotoCheckRecord(face, background, shadows, blur, glare, recency, form, PhotoCheckTexts);
             forall i :: 0 <= i < |Entries(c)| ==> Entries(c)[i].status == Pass
    ensures PhotoEvaluationOf(face, background, shadows, blur, glare, recency, form).warnings == []
  {
    var c := PhotoCheckRecord(face, background, shadows, blur, glare, recency, form, PhotoCheckTexts);
    assert Entries(c)[0].status == Pass && Entries(c)[5].status == Pass && Entries(c)[6].status == Pass;
    assert Entries(c)[7].status == Pass && Entries(c)[11].status == Pass;
    forall w ensures !Raised(c, form.manual, w) {
    }
  }

  // ---------------------------------------------------------------- on the canvas

  /**
   * The analyzers run on the adjusted photo canvas with the photo profile's thresholds: the
   * face entries come from the detector's result, the background, shadow and sharpness entries
   * are the analyzers' verdicts on the canvas, and unless the glasses box is ticked the glare
   * entry is the glare analysis of the detected face box.
   */
  function PhotoOnCanvas(img: Image, face: FaceResult, recency: StatusRecord, form: PhotoForm): (e: PhotoEvaluation)
    ensures var f := DeriveFaceChecks(face);
            && e.checks.faceCoverage == f.faceCoverage && e.checks.headCentered == f.headCentered
            && (e.checks.frontal.status == Pass <==> f.frontalAuto.status == Pass && form.manual.frontal)
            && (e.checks.eyesOpen.status == Pass <==> f.eyesAuto.status == Pass && form.manual.eyesOpen)
    ensures e.checks.plainWhiteBackground == Background(img, Config.UpscConfig.background).status
    ensures e.checks.noShadows == Shadows(img, Config.UpscConfig.shadow).status
    ensures e.checks.sharpness == Blur(img, Config.UpscConfig.blur).status
    ensures !form.manual.glassesNoGlare ==>
              e.checks.noGlare == Glare(img, DeriveFaceChecks(face).faceBox, Config.UpscConfig.glare).status
    ensures e.checks.recency == recency
    ensures e.warnings == PhotoWarningList(e.checks, form.manual)
  {
    var faceChecks := DeriveFaceChecks(face);
    PhotoEvaluationOf(faceChecks, Background(img, Config.UpscConfig.background).status,
                      Shadows(img, Config.UpscConfig.shadow).status, Blur(img, Config.UpscConfig.blur).status,
                      Glare(img, faceChecks.faceBox, Config.UpscConfig.glare).status, recency, form)
  }

  /** `evaluatePhotoChecks`: runs the face checks and the four analyzers, then builds the record. */
  method EvaluatePhotoChecks(img: Image, face: FaceResult, startValue: string, captureValue: string,
                             parseInstant: string -> Option<int>, form: PhotoForm)
    returns (e: PhotoEvaluation)
    requires img.Valid()
    ensures e == PhotoOnCanvas(img, face, EvaluateRecency(startValue, captureValue, form.photoDate, parseInstant), form)
  {
    var recency := EvaluateRecency(startValue, captureValue, form.photoDate, parseInstant);
    var faceChecks := DeriveFaceChecks(face);
    var background := AnalyzeBackground(img, Config.UpscConfig.background);
    var blur := AnalyzeBlur(img, Config.UpscConfig.blur);
    var shadows := AnalyzeShadows(img, Config.UpscConfig.shadow);
    var glare := AnalyzeGlare(img, faceChecks.faceBox, Config.UpscConfig.glare);
    e := PhotoEvaluationOf(faceChecks, background.status, shadows.status, blur.status, glare.status, recency, form);
  }

  /** Only the entries passed through from the face checks, the analyzers or the recency check can fail. */
  lemma RecordFailsOnlyThroughInputs(face: FaceChecks, background: StatusRecord, shadows: StatusRecord,
                                     blur: StatusRecord, glare: StatusRecord, recency: StatusRecord,
                                     form: PhotoForm, t: PhotoTexts)
    requires face.faceCoverage.status != Fail && face.headCentered.status != Fail
    requires background.status != Fail && shadows.status != Fail && blur.status != Fail
    requires glare.status != Fail && recency.status != Fail
    ensures var c := PhotoCheckRecord(face, background, shadows, blur, glare, recency, form, t);
            forall i :: 0 <= i < |Entries(c)| ==> Entries(c)[i].status != Fail
  {
  }

  /** The four analyzers report a pass or a warning, never a failure. */
  lemma AnalyzersNeverFail(img: Image, box: Option<FaceBox>)
    ensures Background(img, Config.UpscConfig.background).status.status != Fail
    ensures Shadows(img, Config.UpscConfig.shadow).status.status != Fail
    ensures Blur(img, Config.UpscConfig.blur).status.status != Fail
    ensures Glare(img, box, Config.UpscConfig.glare).status.status != Fail
  {
    GlareMetricsMeaning(img, box, Config.UpscConfig.glare);
  }

  /**
   * No photo check ever fails: every entry is a pass or a warning, so the photo checklist's
   * compliance line never reports failures.
   */
  lemma PhotoNeverFails(img: Image, face: FaceResult, recency: StatusRecord, form: PhotoForm, key: string)
    requires recency.status != Fail
    ensures StatusOf(AsRecord(PhotoOnCanvas(img, face, recency, form).checks), key) != Fail
  {
    var faceChecks := DeriveFaceChecks(face);
    AnalyzersNeverFail(img, faceChecks.faceBox);
    RecordNeverFails(faceChecks, Background(img, Config.UpscConfig.background).status,
                     Shadows(img, Config.UpscConfig.shadow).status, Blur(img, Config.UpscConfig.blur).status,
                     Glare(img, faceChecks.faceBox, Config.UpscConfig.glare).status, recency, form, key);
  }

  /** The same, for any inputs none of which fails. */
  lemma RecordNeverFails(face: FaceChecks, background: StatusRecord, shadows: StatusRecord, blur: StatusRecord,
                         glare: StatusRecord, recency: StatusRecord, form: PhotoForm, key: string)
    requires face.faceCoverage.status != Fail && face.headCentered.status != Fail
    requires background.status != Fail && shadows.status != Fail && blur.status != Fail
    requires glare.status != Fail && recency.status != Fail
    ensures StatusOf(AsRecord(PhotoEvaluationOf(face, background, shadows, blur, glare, recency, form).checks), key) != Fail
  {
    var c := PhotoEvaluationOf(face, background, shadows, blur, glare, recency, form).checks;
    RecordFailsOnlyThroughInputs(face, background, shadows, blur, glare, recency, form, PhotoCheckTexts);
    if key in AsRecord(c) {
      AsRecordValues(c, key);
    }
  }
}
