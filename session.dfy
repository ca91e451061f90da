/**
 * The parts of the page state that the compliance logic depends on (`state.photo`,
 * `state.signature`, src/app.js:127-161): the cover scale and transform of each source image,
 * the signature's quarter-turn rotation, and the signature's final output with the hard
 * failures that gate its download.
 */
module Session {
  import opened Utils
  import Config
  import opened Structure
  import opened Compression
  import Checklist
  import opened SignatureChecks

  // ---------------------------------------------------------------- loading a source file

  /** What a loader knows about a chosen file once the browser has tried to decode it. */
  datatype SourceFile = SourceFile(mimeType: string, size: nat, width: nat, height: nat)

  /** Why a file is refused, in the order the loader tests. */
  datatype LoadError = NotAnImage | TooLarge(maxInputMB: nat) | Undecodable

  /**
   * The guards at the top of `loadPhotoSourceFromBlob` and `loadSignatureSourceFromBlob`: the
   * type must start with `image/`, the size must not exceed the input limit, and the decoded
   * bitmap must have two non-zero sides.
   */
  function LoadProblem(file: SourceFile, maxInputMB: nat): (e: Option<LoadError>)
    ensures e.None? <==> "image/" <= file.mimeType && file.size <= maxInputMB * 1024 * 1024
                         && file.width > 0 && file.height > 0
    ensures e == Some(NotAnImage) <==> !("image/" <= file.mimeType)
    ensures e == Some(TooLarge(maxInputMB)) <==> "image/" <= file.mimeType && file.size > maxInputMB * 1024 * 1024
  {
    if !("image/" <= file.mimeType) then Some(NotAnImage)
    else if file.size > maxInputMB * 1024 * 1024 then Some(TooLarge(maxInputMB))
    else if file.width == 0 || file.height == 0 then Some(Undecodable)
    else None
  }

  // ---------------------------------------------------------------- cover scale and drawing

  /** `Math.max(frameWidth / width, frameHeight / height)`: the scale at which a source covers the frame. */
  function CoverScale(frameWidth: nat, frameHeight: nat, width: nat, height: nat): (s: real)
    requires width > 0 && height > 0
    ensures s * width as real >= frameWidth as real && s * height as real >= frameHeight as real
    ensures s * width as real == frameWidth as real || s * height as real == frameHeight as real
  {
    var sx := frameWidth as real / width as real;
    var sy := frameHeight as real / height as real;
    assert sx * width as real == frameWidth as real;
    assert sy * height as real == frameHeight as real;
    if sx >= sy then
      assert sx * height as real >= sy * height as real;
      sx
    else
      assert sy * width as real >= sx * width as real;
      sy
  }

  /** Where a source is drawn: centred in the frame, scaled, then shifted by the offsets. */
  datatype Placement = Placement(x: real, y: real, width: real, height: real)

  /** The placement `renderAdjustedPhoto` computes (src/app.js:449-462). */
  function Place(frameWidth: nat, frameHeight: nat, width: nat, height: nat, baseScale: real, zoom: real,
                 offsetX: real, offsetY: real): Placement
  {
    var scale := baseScale * zoom;
    var w := width as real * scale;
    var h := height as real * scale;
    Placement((frameWidth as real - w) / 2.0 + offsetX, (frameHeight as real - h) / 2.0 + offsetY, w, h)
  }

  /**
   * At the cover scale, any zoom of at least 1 with offsets no larger than the overhang leaves
   * no part of the frame uncovered; just after loading (zoom 1, no offsets) this always holds.
   */
  lemma CoverScaleFillsFrame(frameWidth: nat, frameHeight: nat, width: nat, height: nat, zoom: real,
                             offsetX: real, offsetY: real)
    requires width > 0 && height > 0 && zoom >= 1.0
    requires var p := Place(frameWidth, frameHeight, width, height, CoverScale(frameWidth, frameHeight, width, height),
                            zoom, 0.0, 0.0);
             Abs(offsetX) <= (p.width - frameWidth as real) / 2.0 && Abs(offsetY) <= (p.height - frameHeight as real) / 2.0
    ensures var p := Place(frameWidth, frameHeight, width, height, CoverScale(frameWidth, frameHeight, width, height),
                           zoom, offsetX, offsetY);
            p.x <= 0.0 && p.y <= 0.0 && p.x + p.width >= frameWidth as real && p.y + p.height >= frameHeight as real
  {
  }

  /** Directly after loading, the placement covers the whole frame. */
  lemma LoadedSourceCoversFrame(frameWidth: nat, frameHeight: nat, width: nat, height: nat)
    requires width > 0 && height > 0
    ensures var p := Place(frameWidth, frameHeight, width, height, CoverScale(frameWidth, frameHeight, width, height),
                           1.0, 0.0, 0.0);
            p.x <= 0.0 && p.y <= 0.0 && p.x + p.width >= frameWidth as real && p.y + p.height >= frameHeight as real
  {
    var s := CoverScale(frameWidth, frameHeight, width, height);
    assert s * 1.0 == s;
  }

  // ---------------------------------------------------------------- rotation

  /** `(rotation + 90) % 360`. */
  function NextRotation(rotation: int): (r: int)
    requires 0 <= rotation
    ensures 0 <= r < 360
    ensures rotation % 90 == 0 ==> r % 90 == 0
  {
    (rotation + 90) % 360
  }

  /** Four quarter turns bring a valid rotation back to where it started. */
  lemma FourTurnsIsIdentity(rotation: int)
    requires 0 <= rotation < 360 && rotation % 90 == 0
    ensures NextRotation(NextRotation(NextRotation(NextRotation(rotation)))) == rotation
  {
    assert rotation == 0 || rotation == 90 || rotation == 180 || rotation == 270;
  }

  // ---------------------------------------------------------------- the photo state

  class PhotoState {
    var sourceSize: Option<(nat, nat)>
    var baseScale: real
    var zoom: real
    var offsetX: real
    var offsetY: real
    var hasFinalBlob: bool
    var downloadDisabled: bool

    /** A loaded source is drawn at its cover scale; the download needs a final blob. */
    ghost predicate Valid()
      reads this
    {
      && (sourceSize.Some? ==>
            sourceSize.value.0 > 0 && sourceSize.value.1 > 0
            && baseScale == CoverScale(Config.UpscConfig.output.width, Config.UpscConfig.output.height,
                                       sourceSize.value.0, sourceSize.value.1))
      && (!downloadDisabled ==> hasFinalBlob)
    }

    constructor()
      ensures Valid()
      ensures sourceSize.None? && zoom == 1.0 && offsetX == 0.0 && offsetY == 0.0
      ensures !hasFinalBlob && downloadDisabled
    {
      sourceSize := None;
      baseScale := 1.0;
      zoom := 1.0;
      offsetX := 0.0;
      offsetY := 0.0;
      hasFinalBlob := false;
      downloadDisabled := true;
    }

    /** `resetPhotoFinalState` (src/app.js:363-372): drops the output and disables the download. */
    method ResetFinalState()
      requires Valid()
      modifies this
      ensures Valid()
      ensures !hasFinalBlob && downloadDisabled
      ensures sourceSize == old(sourceSize) && baseScale == old(baseScale) && zoom == old(zoom)
      ensures offsetX == old(offsetX) && offsetY == old(offsetY)
    {
      hasFinalBlob := false;
      downloadDisabled := true;
    }

    /**
     * The guards and state updates of `loadPhotoSourceFromBlob` (src/app.js:678-702): a refused
     * file leaves the state as it was; an accepted one is drawn at its cover scale with the
     * transform reset, and `resetPhotoForNewSource` drops any earlier output.
     */
    method LoadSource(file: SourceFile) returns (error: Option<LoadError>)
      requires Valid()
      modifies this
      ensures Valid()
      ensures error == LoadProblem(file, Config.UpscConfig.maxInputMB)
      ensures error.Some? ==> sourceSize == old(sourceSize) && baseScale == old(baseScale) && zoom == old(zoom)
                              && offsetX == old(offsetX) && offsetY == old(offsetY)
                              && hasFinalBlob == old(hasFinalBlob) && downloadDisabled == old(downloadDisabled)
      ensures error.None? ==> sourceSize == Some((file.width, file.height)) && zoom == 1.0 && offsetX == 0.0 && offsetY == 0.0
      ensures error.None? ==>
                baseScale == CoverScale(Config.UpscConfig.output.width, Config.UpscConfig.output.height, file.width, file.height)
      ensures error.None? ==> !hasFinalBlob && downloadDisabled
    {
      error := LoadProblem(file, Config.UpscConfig.maxInputMB);
      if error.Some? {
        return;
      }
      sourceSize := Some((file.width, file.height));
      baseScale := CoverScale(Config.UpscConfig.output.width, Config.UpscConfig.output.height, file.width, file.height);
      zoom := 1.0;
      offsetX := 0.0;
      offsetY := 0.0;
      ResetFinalState();
    }

    /**
     * `handlePhotoTransformChange` (src/app.js:464-470): the zoom slider is a percentage, and
     * any earlier output is dropped.
     */
    method SetTransform(zoomPercent: real, x: real, y: real)
      requires Valid()
      modifies this
      ensures Valid()
      ensures zoom == zoomPercent / 100.0 && offsetX == x && offsetY == y
      ensures sourceSize == old(sourceSize) && baseScale == old(baseScale)
      ensures !hasFinalBlob && downloadDisabled
    {
      zoom := zoomPercent / 100.0;
      offsetX := x;
      offsetY := y;
      ResetFinalState();
    }
  }

  // ---------------------------------------------------------------- the signature state

  class SignatureState {
    var sourceLoaded: bool
    var baseScale: real
    var zoom: real
    var offsetX: real
    var offsetY: real
    var rotation: int
    var cropped: bool
    var finalBlob: Option<Blob>
    var hasFinalUrl: bool
    var hardFails: seq<HardFail>
    var warnings: seq<SignatureWarning>
    var downloadDisabled: bool

    /**
     * The rotation is a quarter turn below a full turn, a crop needs a source, and the download
     * button is enabled only while a final blob and its URL exist.
     */
    ghost predicate Valid()
      reads this
    {
      && 0 <= rotation < 360 && rotation % 90 == 0
      && (cropped ==> sourceLoaded)
      && (!downloadDisabled ==> finalBlob.Some? && hasFinalUrl)
    }

    constructor()
      ensures Valid()
      ensures !sourceLoaded && rotation == 0 && zoom == 1.0 && offsetX == 0.0 && offsetY == 0.0
      ensures !cropped && finalBlob.None? && !hasFinalUrl && hardFails == [] && warnings == [] && downloadDisabled
    {
      sourceLoaded := false;
      baseScale := 1.0;
      zoom := 1.0;
      offsetX := 0.0;
      offsetY := 0.0;
      rotation := 0;
      cropped := false;
      finalBlob := None;
      hasFinalUrl := false;
      hardFails := [];
      warnings := [];
      downloadDisabled := true;
    }

    /** `resetSignatureFinalState` (src/app.js:374-384): drops the output and disables the download. */
    method ResetFinalState()
      requires Valid()
      modifies this
      ensures Valid()
      ensures finalBlob.None? && !hasFinalUrl && downloadDisabled
      ensures sourceLoaded == old(sourceLoaded) && baseScale == old(baseScale) && zoom == old(zoom)
      ensures offsetX == old(offsetX) && offsetY == old(offsetY) && rotation == old(rotation)
      ensures cropped == old(cropped) && hardFails == old(hardFails) && warnings == old(warnings)
    {
      finalBlob := None;
      hasFinalUrl := false;
      downloadDisabled := true;
    }

    /**
     * `resetSignatureForNewSource` (src/app.js:1101-1110): forgets the crop, the findings and
     * the output.
     */
    method ResetForNewSource()
      requires Valid()
      modifies this
      ensures Valid()
      ensures !cropped && hardFails == [] && warnings == [] && finalBlob.None? && !hasFinalUrl && downloadDisabled
      ensures sourceLoaded == old(sourceLoaded) && baseScale == old(baseScale) && zoom == old(zoom)
      ensures offsetX == old(offsetX) && offsetY == old(offsetY) && rotation == old(rotation)
    {
      cropped := false;
      hardFails := [];
      warnings := [];
      ResetFinalState();
    }

    /**
     * The guards and state updates of `loadSignatureSourceFromBlob` (src/app.js:1112-1135): a
     * refused file leaves the state as it was; an accepted one is drawn at its cover scale,
     * unrotated, and everything derived from the previous source is forgotten.
     */
    method LoadSource(file: SourceFile) returns (error: Option<LoadError>)
      requires Valid()
      modifies this
      ensures Valid()
      ensures error == LoadProblem(file, Config.SignatureConfig.maxInputMB)
      ensures error.Some? ==> sourceLoaded == old(sourceLoaded) && rotation == old(rotation) && cropped == old(cropped)
                              && finalBlob == old(finalBlob) && hardFails == old(hardFails)
                              && warnings == old(warnings) && downloadDisabled == old(downloadDisabled)
                              && hasFinalUrl == old(hasFinalUrl) && baseScale == old(baseScale) && zoom == old(zoom)
                              && offsetX == old(offsetX) && offsetY == old(offsetY)
      ensures error.None? ==> sourceLoaded && rotation == 0 && zoom == 1.0 && offsetX == 0.0 && offsetY == 0.0
      ensures error.None? ==> baseScale == CoverScale(Config.SignatureConfig.output.width,
                                                      Config.SignatureConfig.output.height, file.width, file.height)
      ensures error.None? ==> !cropped && hardFails == [] && warnings == [] && finalBlob.None? && !hasFinalUrl
                              && downloadDisabled
    {
      error := LoadProblem(file, Config.SignatureConfig.maxInputMB);
      if error.Some? {
        return;
      }
      sourceLoaded := true;
      baseScale := CoverScale(Config.SignatureConfig.output.width, Config.SignatureConfig.output.height,
                              file.width, file.height);
      zoom := 1.0;
      offsetX := 0.0;
      offsetY := 0.0;
      rotation := 0;
      ResetForNewSource();
    }

    /** The retake button (src/app.js:1401-1409): the source is dropped along with everything derived from it. */
    method Retake()
      requires Valid()
      modifies this
      ensures Valid()
      ensures !sourceLoaded && !cropped && hardFails == [] && warnings == [] && finalBlob.None? && !hasFinalUrl
      ensures downloadDisabled
      ensures rotation == old(rotation) && baseScale == old(baseScale) && zoom == old(zoom)
      ensures offsetX == old(offsetX) && offsetY == old(offsetY)
    {
      ResetForNewSource();
      sourceLoaded := false;
    }

    /**
     * `handleSignatureTransformChange` (src/app.js:796-802): the zoom slider is a percentage,
     * and any earlier output is dropped.
     */
    method SetTransform(zoomPercent: real, x: real, y: real)
      requires Valid()
      modifies this
      ensures Valid()
      ensures zoom == zoomPercent / 100.0 && offsetX == x && offsetY == y
      ensures finalBlob.None? && !hasFinalUrl && downloadDisabled
      ensures sourceLoaded == old(sourceLoaded) && baseScale == old(baseScale) && rotation == old(rotation)
      ensures cropped == old(cropped) && hardFails == old(hardFails) && warnings == old(warnings)
    {
      zoom := zoomPercent / 100.0;
      offsetX := x;
      offsetY := y;
      ResetFinalState();
    }

    /** `rotateSignature` (src/app.js:804-808): a quarter turn, after which the old output is stale. */
    method Rotate()
      requires Valid()
      modifies this
      ensures Valid()
      ensures rotation == NextRotation(old(rotation))
      ensures finalBlob.None? && !hasFinalUrl && downloadDisabled
      ensures sourceLoaded == old(sourceLoaded) && zoom == old(zoom) && offsetX == old(offsetX)
      ensures offsetY == old(offsetY) && cropped == old(cropped) && hardFails == old(hardFails)
      ensures baseScale == old(baseScale) && warnings == old(warnings)
    {
      rotation := (rotation + 90) % 360;
      ResetFinalState();
    }

    /**
     * The crop button (src/app.js:1411-1421): refused without a source; otherwise the source is
     * marked cropped, the download is disabled and the checks without output checks run.
     */
    method Crop(evaluate: Evaluator) returns (done: bool)
      requires Valid()
      modifies this
      ensures Valid()
      ensures done <==> old(sourceLoaded)
      ensures !done ==> cropped == old(cropped) && hardFails == old(hardFails) && warnings == old(warnings)
                        && downloadDisabled == old(downloadDisabled)
      ensures done ==> cropped && downloadDisabled
      ensures done ==> hardFails == evaluate(false, finalBlob).hardFails && warnings == evaluate(false, finalBlob).warnings
      ensures sourceLoaded == old(sourceLoaded) && rotation == old(rotation) && finalBlob == old(finalBlob)
      ensures hasFinalUrl == old(hasFinalUrl) && baseScale == old(baseScale) && zoom == old(zoom)
      ensures offsetX == old(offsetX) && offsetY == old(offsetY)
    {
      if !sourceLoaded {
        return false;
      }
      cropped := true;
      downloadDisabled := true;
      var e := evaluate(false, finalBlob);
      hardFails := e.hardFails;
      warnings := e.warnings;
      done := true;
    }

    /**
     * The "run checks" button (src/app.js:1427-1438): without a crop nothing happens; otherwise
     * the checks without output checks refresh the warnings and hard failures. The download
     * button is left as it was.
     */
    method RunChecks(evaluate: Evaluator) returns (blocked: bool)
      requires Valid()
      modifies this
      ensures Valid()
      ensures !old(cropped) ==> !blocked && hardFails == old(hardFails) && warnings == old(warnings)
      ensures old(cropped) ==> hardFails == evaluate(false, finalBlob).hardFails
                               && warnings == evaluate(false, finalBlob).warnings
      ensures blocked <==> old(cropped) && hardFails != []
      ensures finalBlob == old(finalBlob) && downloadDisabled == old(downloadDisabled) && rotation == old(rotation)
      ensures cropped == old(cropped) && sourceLoaded == old(sourceLoaded)
      ensures hasFinalUrl == old(hasFinalUrl) && baseScale == old(baseScale) && zoom == old(zoom)
      ensures offsetX == old(offsetX) && offsetY == old(offsetY)
    {
      if !cropped {
        return false;
      }
      var e := evaluate(false, finalBlob);
      hardFails := e.hardFails;
      warnings := e.warnings;
      blocked := hardFails != [];
    }

    /**
     * The generate button (src/app.js:1440-1488): compresses the canvas into the size range,
     * keeps the blob, re-runs every check including the output checks, and enables the download
     * only when no hard failure remains. Without a crop, or when compression fails, nothing
     * changes. `encodedType` is the type the browser gave the encoded blob: the page asks for
     * JPEG, but a browser without a JPEG encoder hands back another type, which the format
     * check then refuses.
     */
    method Generate(evaluate: Evaluator, encode: Encoder, encodedType: string, preferredQuality: real)
      returns (outcome: Option<Outcome>)
      requires Valid()
      modifies this
      ensures Valid()
      ensures rotation == old(rotation) && cropped == old(cropped) && sourceLoaded == old(sourceLoaded)
      ensures baseScale == old(baseScale) && zoom == old(zoom) && offsetX == old(offsetX) && offsetY == old(offsetY)
      ensures !old(cropped) ==> outcome.None?
      ensures old(cropped) ==>
                outcome == Some(Compress(encode, preferredQuality, Config.SigMinBytes, Config.SigMaxBytes,
                                         Config.SignatureConfig.fileSizeKB.max))
      ensures outcome.None? || outcome.value.Failure? ==>
                finalBlob == old(finalBlob) && hasFinalUrl == old(hasFinalUrl) && hardFails == old(hardFails)
                && warnings == old(warnings) && downloadDisabled == old(downloadDisabled)
      ensures outcome.Some? && outcome.value.Compressed? ==>
                && finalBlob == Some(Blob(encodedType, outcome.value.size))
                && hasFinalUrl
                && hardFails == evaluate(true, finalBlob).hardFails
                && warnings == evaluate(true, finalBlob).warnings
                && (downloadDisabled <==> hardFails != [])
    {
      if !cropped || !sourceLoaded {
        return None;
      }
      var r := CompressCanvasToRange(encode, preferredQuality, Config.SigMinBytes, Config.SigMaxBytes,
                                     Config.SignatureConfig.fileSizeKB.max);
      outcome := Some(r);
      if r.Failure? {
        return;
      }
      finalBlob := Some(Blob(encodedType, r.size));
      hasFinalUrl := true;
      var e := evaluate(true, finalBlob);
      hardFails := e.hardFails;
      warnings := e.warnings;
      downloadDisabled := hardFails != [];
    }

    /** The download button (src/app.js:1490-1508): refused without an output or with any hard failure. */
    method Download() returns (started: bool)
      ensures started <==> finalBlob.Some? && hasFinalUrl && hardFails == []
    {
      if finalBlob.None? || !hasFinalUrl {
        return false;
      }
      if hardFails != [] {
        return false;
      }
      started := true;
    }
  }

  /**
   * A JPEG the generator produced is downloadable exactly when its size is in range, three
   * signatures were found, the image is sharp, and the ink is dense and dark enough.
   */
  lemma GeneratedOutputDownloadable(size: nat, blur: Verdict, background: Verdict, shadows: Verdict,
                                    s: StructureReport, t: SignatureTexts)
    ensures var blob := Some(Blob(Config.SignatureConfig.output.mimeType, size));
            SignatureEvaluationOf(true, blob, Config.SignatureConfig.output.width, Config.SignatureConfig.output.height,
                                  blur, background, shadows, s, t).hardFails == [] <==>
              && Config.SigMinBytes <= size <= Config.SigMaxBytes && s.signatureCount == 3 && blur == Pass
              && s.inkRatio >= Detect.minInkRatioHard && s.contrast >= Detect.severeContrast
  {
    var blob := Some(Blob(Config.SignatureConfig.output.mimeType, size));
    assert Config.SignatureConfig.output.mimeType == "image/jpeg";
    Checklist.JpegMimeTypes();
    ReadyIffAllHardChecksHold(blob, Config.SignatureConfig.output.width, Config.SignatureConfig.output.height,
                              blur, background, shadows, s, t);
  }
}
