/**
 * `deriveFaceChecks` (src/app.js:525-579): the four automatic face verdicts derived from the
 * detector's result. The detector itself is not part of this model; its result is an input.
 */
module FaceGeometry {
  import opened Utils
  import Config
  import opened ImageAnalysis

  /** What `detectFace` reports: whether a detector exists, whether it saw a face, and where. */
  datatype FaceResult = FaceResult(
    available: bool, detected: bool, box: Option<FaceBox>, leftEye: Option<Point>, rightEye: Option<Point>)

  datatype FaceChecks = FaceChecks(
    faceCoverage: StatusRecord, headCentered: StatusRecord, frontalAuto: StatusRecord, eyesAuto: StatusRecord,
    faceBox: Option<FaceBox>)

  /** The photo canvas, 600 x 800. */
  const PhotoWidth: real := Config.UpscConfig.output.width as real
  const PhotoHeight: real := Config.UpscConfig.output.height as real

  /** The share of the canvas the face box covers. */
  function AreaRatio(box: FaceBox): real
  {
    (box.width * box.height) / (PhotoWidth * PhotoHeight)
  }

  /** The horizontal distance of the box centre from the canvas centre, as a share of the width. */
  function OffsetX(box: FaceBox): real
  {
    Abs(box.x + box.width / 2.0 - PhotoWidth / 2.0) / PhotoWidth
  }

  /** The vertical distance of the box centre from the canvas centre, as a share of the height. */
  function OffsetY(box: FaceBox): real
  {
    Abs(box.y + box.height / 2.0 - PhotoHeight / 2.0) / PhotoHeight
  }

  predicate NoFaceVerdicts(r: FaceChecks)
  {
    r.faceCoverage.status == Warn && r.headCentered.status == Warn
    && r.frontalAuto.status == Warn && r.eyesAuto.status == Warn && r.faceBox.None?
  }

  /** The verdicts when no detector is available. */
  function DetectorUnavailable(): (r: FaceChecks)
    ensures NoFaceVerdicts(r)
  {
    FaceChecks(MakeStatus(Warn, "Face detection unavailable. Use guide and manual checks."),
               MakeStatus(Warn, "Centering check unavailable without face detection."),
               MakeStatus(Warn, "Frontal auto-check unavailable."),
               MakeStatus(Warn, "Eye detection unavailable."), None)
  }

  /** The verdicts when the detector ran but found no face box. */
  function FaceNotFound(): (r: FaceChecks)
    ensures NoFaceVerdicts(r)
  {
    FaceChecks(MakeStatus(Warn, "Face not detected. Ensure full frontal face and better light."),
               MakeStatus(Warn, "Head centering could not be verified."),
               MakeStatus(Warn, "Frontal alignment could not be verified."),
               MakeStatus(Warn, "Eye visibility could not be verified."), None)
  }

  /** The photo profile's face thresholds. */
  const Face: Config.FaceConfig := Config.UpscConfig.face

  /** The coverage verdict: passes exactly when the box covers between the two ratios of the canvas. */
  function CoverageCheck(box: FaceBox): (r: StatusRecord)
    ensures r.status == Pass <==> Face.minCoverageRatio <= AreaRatio(box) <= Face.maxCoverageRatio
    ensures r.status != Fail
  {
    if AreaRatio(box) >= Face.minCoverageRatio && AreaRatio(box) <= Face.maxCoverageRatio
    then MakeStatus(Pass, "Face area appears within UPSC range.")
    else MakeStatus(Warn, "Face appears too small or too close.")
  }

  /** The centring verdict: passes exactly when both offsets are within the tolerance. */
  function CenteringCheck(box: FaceBox): (r: StatusRecord)
    ensures r.status == Pass <==> OffsetX(box) <= Face.centerToleranceRatio && OffsetY(box) <= Face.centerToleranceRatio
    ensures r.status != Fail
  {
    if OffsetX(box) <= Face.centerToleranceRatio && OffsetY(box) <= Face.centerToleranceRatio
    then MakeStatus(Pass, "Head appears centered.")
    else MakeStatus(Warn, "Head appears off-center.")
  }

  /** The tilt verdict: passes exactly when both eyes are found at heights within the tolerance. */
  function FrontalCheck(leftEye: Option<Point>, rightEye: Option<Point>): (r: StatusRecord)
    ensures r.status == Pass <==>
              leftEye.Some? && rightEye.Some? && Abs(leftEye.value.y - rightEye.value.y) <= Face.tiltTolerancePx
    ensures r.status != Fail
  {
    if leftEye.None? || rightEye.None? then MakeStatus(Warn, "Eye landmarks unavailable for tilt check.")
    else if Abs(leftEye.value.y - rightEye.value.y) <= Face.tiltTolerancePx then MakeStatus(Pass, "Face appears straight.")
    else MakeStatus(Warn, "Face appears tilted.")
  }

  /** The eye verdict: passes exactly when both eyes are found. */
  function EyesCheck(leftEye: Option<Point>, rightEye: Option<Point>): (r: StatusRecord)
    ensures r.status == Pass <==> leftEye.Some? && rightEye.Some?
    ensures r.status != Fail
  {
    if leftEye.Some? && rightEye.Some? then MakeStatus(Pass, "Eyes landmarks detected.")
    else MakeStatus(Warn, "Eyes not clearly detected.")
  }

  /** `deriveFaceChecks(faceResult)`. */
  function DeriveFaceChecks(face: FaceResult): (r: FaceChecks)
    ensures !face.available ==> NoFaceVerdicts(r)
    ensures face.available && (!face.detected || face.box.None?) ==> NoFaceVerdicts(r)
    ensures face.available && face.detected && face.box.Some? ==>
              && r.faceBox == face.box
              && (r.faceCoverage.status == Pass <==>
                    Face.minCoverageRatio <= AreaRatio(face.box.value) <= Face.maxCoverageRatio)
              && (r.headCentered.status == Pass <==>
                    OffsetX(face.box.value) <= Face.centerToleranceRatio
                    && OffsetY(face.box.value) <= Face.centerToleranceRatio)
              && (r.eyesAuto.status == Pass <==> face.leftEye.Some? && face.rightEye.Some?)
              && (r.frontalAuto.status == Pass <==>
                    face.leftEye.Some? && face.rightEye.Some?
                    && Abs(face.leftEye.value.y - face.rightEye.value.y) <= Face.tiltTolerancePx)
    ensures r.faceCoverage.status != Fail && r.headCentered.status != Fail
    ensures r.frontalAuto.status != Fail && r.eyesAuto.status != Fail
  {
    if !face.available then DetectorUnavailable()
    else if !face.detected || face.box.None? then FaceNotFound()
    else
      FaceChecks(CoverageCheck(face.box.value), CenteringCheck(face.box.value),
                 FrontalCheck(face.leftEye, face.rightEye), EyesCheck(face.leftEye, face.rightEye),
                 face.box)
  }

  /**
   * A box centred on the canvas passes the centring check, and it passes the coverage check
   * exactly when its area is between 75% and 95% of the canvas.
   */
  lemma CentredBoxIsCentred(face: FaceResult, w: real, h: real)
    requires face.available && face.detected
    requires face.box == Some(FaceBox((PhotoWidth - w) / 2.0, (PhotoHeight - h) / 2.0, w, h))
    ensures DeriveFaceChecks(face).headCentered.status == Pass
    ensures DeriveFaceChecks(face).faceCoverage.status == Pass <==>
              0.75 * (PhotoWidth * PhotoHeight) <= w * h <= 0.95 * (PhotoWidth * PhotoHeight)
  {
    CentredBox(face.box.value, w, h);
  }

  /** The geometry of a centred box: no offset, and its area ratio is its area over the canvas's. */
  lemma CentredBox(box: FaceBox, w: real, h: real)
    requires box == FaceBox((PhotoWidth - w) / 2.0, (PhotoHeight - h) / 2.0, w, h)
    ensures OffsetX(box) == 0.0 && OffsetY(box) == 0.0
    ensures Face.minCoverageRatio <= AreaRatio(box) <= Face.maxCoverageRatio <==>
              0.75 * (PhotoWidth * PhotoHeight) <= w * h <= 0.95 * (PhotoWidth * PhotoHeight)
  {
    assert box.x + box.width / 2.0 - PhotoWidth / 2.0 == 0.0;
    assert box.y + box.height / 2.0 - PhotoHeight / 2.0 == 0.0;
    var area := PhotoWidth * PhotoHeight;
    assert area == 480000.0;
    assert AreaRatio(box) == (w * h) / area;
  }

  /** A face box shifted more than 12% of the width off centre fails the centring check. */
  lemma ShiftedBoxIsOffCentre(face: FaceResult, box: FaceBox)
    requires face.available && face.detected && face.box == Some(box)
    requires box.x + box.width / 2.0 > PhotoWidth / 2.0 + 0.12 * PhotoWidth
    ensures DeriveFaceChecks(face).headCentered.status == Warn
  {
    assert OffsetX(box) > 0.12;
  }

  /** Level eyes pass the automatic frontal check; eyes 21 px apart vertically do not. */
  lemma TiltTolerance(face: FaceResult, left: Point, right: Point)
    requires face.available && face.detected && face.box.Some?
    requires face.leftEye == Some(left) && face.rightEye == Some(right)
    ensures left.y == right.y ==> DeriveFaceChecks(face).frontalAuto.status == Pass
    ensures left.y == right.y + 21.0 ==> DeriveFaceChecks(face).frontalAuto.status == Warn
  {
  }
}
