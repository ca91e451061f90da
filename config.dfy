/**
 * The two fixed threshold profiles (photo and signature) and the two checklist label
 * tables (src/config.js). Ratios are exact rationals; pixel and byte sizes are integers.
 */
module Config {

  datatype OutputConfig = OutputConfig(width: nat, height: nat, mimeType: string, filename: string)
  datatype SizeRange = SizeRange(min: nat, max: nat)
  datatype FaceConfig = FaceConfig(
    minCoverageRatio: real, maxCoverageRatio: real, centerToleranceRatio: real, tiltTolerancePx: real)
  datatype BackgroundConfig = BackgroundConfig(
    edgeSampleRatio: real, minBrightness: real, maxSaturation: real, maxVariance: real)
  datatype BlurConfig = BlurConfig(minEdgeScore: real)
  datatype ShadowConfig = ShadowConfig(maxDarkPixelRatio: real, maxSideDifference: real)
  datatype GlareConfig = GlareConfig(maxBrightRatio: real)
  datatype DetectConfig = DetectConfig(
    inkLuminanceThreshold: real, maxInkSaturation: real,
    minRowInkRatio: real, minColInkRatio: real, minBandHeightRatio: real,
    maxBandGapPx: nat, minGapRatio: real,
    minContrast: real, severeContrast: real, minInkRatioHard: real,
    maxAlignmentDeviationRatio: real)

  /** The photo profile (`UPSC_CONFIG`). */
  datatype PhotoProfile = PhotoProfile(
    output: OutputConfig, fileSizeKB: SizeRange, maxInputMB: nat, face: FaceConfig,
    background: BackgroundConfig, blur: BlurConfig, shadow: ShadowConfig, glare: GlareConfig,
    recencyDays: int)

  /** The signature profile (`SIGNATURE_CONFIG`). */
  datatype SignatureProfile = SignatureProfile(
    output: OutputConfig, fileSizeKB: SizeRange, dimensionPx: SizeRange, maxInputMB: nat,
    background: BackgroundConfig, blur: BlurConfig, shadow: ShadowConfig, detect: DetectConfig)

  const UpscConfig: PhotoProfile := PhotoProfile(
    OutputConfig(600, 800, "image/jpeg", "photo.jpg"),
    SizeRange(20, 200),
    15,
    FaceConfig(0.75, 0.95, 0.12, 20.0),
    BackgroundConfig(0.1, 224.0, 0.12, 980.0),
    BlurConfig(12.0),
    ShadowConfig(0.06, 24.0),
    GlareConfig(0.028),
    10)

  const SignatureConfig: SignatureProfile := SignatureProfile(
    OutputConfig(400, 500, "image/jpeg", "signature.jpg"),
    SizeRange(20, 100),
    SizeRange(350, 500),
    15,
    BackgroundConfig(0.1, 228.0, 0.08, 820.0),
    BlurConfig(9.0),
    ShadowConfig(0.09, 30.0),
    DetectConfig(145.0, 0.5, 0.015, 0.015, 0.04, 3, 0.05, 65.0, 42.0, 0.002, 0.18))

  /** Byte bounds of the output file: the KB bounds times 1024. */
  const PhotoMinBytes: nat := UpscConfig.fileSizeKB.min * 1024
  const PhotoMaxBytes: nat := UpscConfig.fileSizeKB.max * 1024
  const SigMinBytes: nat := SignatureConfig.fileSizeKB.min * 1024
  const SigMaxBytes: nat := SignatureConfig.fileSizeKB.max * 1024

  /** `CHECKLIST_LABELS`: photo check key to its label. */
  const ChecklistLabels: map<string, string> := map[
    "faceCoverage" := "Face coverage at least 75%",
    "headCentered" := "Head centered in frame",
    "frontal" := "Frontal alignment",
    "eyesOpen" := "Eyes open and visible",
    "earsVisible" := "Both ears visible",
    "plainWhiteBackground" := "Plain white background",
    "noShadows" := "No major shadows",
    "sharpness" := "Photo is not blurry",
    "naturalExpression" := "Natural expression",
    "hairClear" := "No hair over eyes",
    "noGlare" := "No glare on glasses",
    "noRestrictedItems" := "No restricted items or marks",
    "nameDatePrinted" := "Name and Date printed clearly",
    "recency" := "Photo recency within 10 days",
    "fileFormat" := "JPG/JPEG format",
    "fileSize" := "File size 20KB to 200KB"
  ]

  /** `SIGNATURE_CHECKLIST_LABELS`: signature check key to its label. */
  const SignatureChecklistLabels: map<string, string> := map[
    "fileFormat" := "Format is JPG/JPEG",
    "fileSize" := "File size is 20KB to 100KB",
    "dimensions" := "Dimensions are between 350 and 500 px",
    "threeSignatures" := "Exactly 3 signatures present",
    "sharpness" := "Signature image is sharp and readable",
    "plainWhiteBackground" := "Plain white paper background",
    "noShadows" := "No major shadows",
    "contrast" := "Ink contrast is acceptable",
    "spacing" := "Signatures have enough spacing",
    "alignment" := "Signatures are vertically aligned",
    "orientation" := "Image is properly oriented (not tilted)"
  ]

  /** The keys the photo evaluator writes into its check record. */
  const PhotoCheckKeys: set<string> := {
    "faceCoverage", "headCentered", "frontal", "eyesOpen", "earsVisible",
    "plainWhiteBackground", "noShadows", "sharpness", "naturalExpression", "hairClear",
    "noGlare", "noRestrictedItems", "nameDatePrinted", "recency", "fileFormat",
    "fileSize"
  }

  /** The keys the signature evaluator writes into its check record. */
  const SignatureCheckKeys: set<string> := {
    "fileFormat", "fileSize", "dimensions", "threeSignatures", "sharpness",
    "plainWhiteBackground", "noShadows", "contrast", "spacing", "alignment",
    "orientation"
  }

  /** The photo label table's keys are exactly the photo check keys. */
  lemma PhotoLabelTable()
    ensures ChecklistLabels.Keys == PhotoCheckKeys
  {
  }

  /** The signature label table's keys are exactly the signature check keys. */
  lemma SignatureLabelTable()
    ensures SignatureChecklistLabels.Keys == SignatureCheckKeys
  {
  }

  /** Relationships between the constants that the evaluators rely on. */
  lemma ProfilesConsistent()
    ensures UpscConfig.fileSizeKB.min <= UpscConfig.fileSizeKB.max
    ensures SignatureConfig.fileSizeKB.min <= SignatureConfig.fileSizeKB.max
    ensures UpscConfig.face.minCoverageRatio <= UpscConfig.face.maxCoverageRatio
    ensures SignatureConfig.detect.severeContrast < SignatureConfig.detect.minContrast
    ensures SignatureConfig.dimensionPx.min <= SignatureConfig.output.width <= SignatureConfig.dimensionPx.max
    ensures SignatureConfig.dimensionPx.min <= SignatureConfig.output.height <= SignatureConfig.dimensionPx.max
    ensures UpscConfig.recencyDays == 10
    ensures SignatureConfig.detect.maxBandGapPx == 3
    ensures PhotoMinBytes == 20480 && PhotoMaxBytes == 204800
    ensures SigMinBytes == 20480 && SigMaxBytes == 102400
  {
  }
}
