/**
 * What the later application version (update.py) adds to the shared
 * pieces: its `detect_skin` error, the grey-level "cancer" heuristic with its
 * intensity buckets and not-detected override, where the history list's band
 * departs from the analysis-time risk, and its registration messages.
 */
module UpdateApp {
  import opened Primitives
  import opened Screening
  import opened Accounts

  /**
   * The `cancer_type` strings `detect_cancer` can return: "No Cancer Detected",
   * "Basal Cell Carcinoma", "Squamous Cell Carcinoma", "Melanoma" and
   * "Merkel Cell Carcinoma".
   */
  datatype CancerType =
    | NoCancerDetected
    | BasalCellCarcinoma
    | SquamousCellCarcinoma
    | Melanoma
    | MerkelCellCarcinoma

  /** The four label fields `detect_cancer` assigns in each branch, before the note is appended. */
  datatype Label = Label(cancerType: CancerType, prevalence: string, advice: string, risk: Risk)

  /** The tuple `(probability, cancer_type, prevalence, advice, risk_level, cancer_detected)`. */
  datatype Diagnosis = Diagnosis(
    probability: real,
    cancerType: CancerType,
    prevalence: string,
    advice: string,
    risk: Risk,
    detected: bool)

  // ---------------------------------------------------------------------
  // detect_skin
  // ---------------------------------------------------------------------

  /** The message of the `ValueError` this version's `detect_skin` raises. */
  const SkinLoadError := "Couldn\U{2019}t load the image file."

  /** This version's `detect_skin`: the shared skin ratio, or its own load error. */
  function DetectSkin(image: Option<HsvImage>): (r: Result<real, ValueError>)
    ensures image.None? ==> r == Err(ValueError("Couldn\U{2019}t load the image file."))
    ensures image.Some? ==> r == Ok(SkinRatio(image.value))
  {
    Screening.DetectSkin(image, SkinLoadError)
  }

  // ---------------------------------------------------------------------
  // detect_cancer
  // ---------------------------------------------------------------------

  /** The note appended to the advice in every branch. */
  const Note := "\n\nNote: This is an automated analysis. Please consult a dermatologist for a professional review."

  /** The override used when nothing is detected. */
  const NotDetectedLabel :=
    Label(NoCancerDetected, "N/A", "No signs of malignancy. Continue with annual skin checks.", Low)

  const BasalLabel := Label(BasalCellCarcinoma, "~80% of skin cancers",
    "Basal Cell Carcinoma detected. Common but less severe. Consult a dermatologist for removal options.", Low)
  const SquamousLabel := Label(SquamousCellCarcinoma, "~16% of skin cancers",
    "Squamous Cell Carcinoma detected. Moderate risk. See a dermatologist soon for a possible biopsy.", Moderate)
  const MelanomaLabel := Label(Melanoma, "~4% of skin cancers",
    "Melanoma detected. High risk. Urgently consult an oncologist within 48 hours.", High)
  const MerkelLabel := Label(MerkelCellCarcinoma, "<1% of skin cancers",
    "Merkel Cell Carcinoma detected. Rare and aggressive. Seek immediate medical attention.", High)

  /** The first-match chain on the mean grey level. */
  function IntensityBucket(mean: real): (b: Label)
    ensures b.cancerType == BasalCellCarcinoma <==> mean <= 100.0
    ensures b.cancerType == SquamousCellCarcinoma <==> 100.0 < mean <= 150.0
    ensures b.cancerType == Melanoma <==> 150.0 < mean <= 200.0
    ensures b.cancerType == MerkelCellCarcinoma <==> mean > 200.0
    ensures b.risk == Low <==> mean <= 100.0
    ensures b.risk == High <==> mean > 150.0
    ensures b in {BasalLabel, SquamousLabel, MelanomaLabel, MerkelLabel}
  {
    if mean <= 100.0 then BasalLabel
    else if mean <= 150.0 then SquamousLabel
    else if mean <= 200.0 then MelanomaLabel
    else MerkelLabel
  }

  /** Everything `detect_cancer` does once the mean grey level is known. */
  function Classify(mean: real): (d: Diagnosis)
    ensures 0.0 <= d.probability <= 1.0
    ensures d.detected <==> d.probability >= DetectionThreshold
    ensures d.detected <==> mean >= 146.5
    ensures d.detected <==> d.risk != Low
    ensures d.detected <==> d.cancerType != NoCancerDetected
    ensures d.cancerType != BasalCellCarcinoma
    ensures d.probability == Probability(mean)
    ensures EndsWith(d.advice, Note)
  {
    var probability := Probability(mean);
    var detected := probability >= DetectionThreshold;
    DetectedIffBright(mean);
    var bucket := IntensityBucket(mean);
    var chosen := if !detected then NotDetectedLabel else bucket;
    Diagnosis(probability, chosen.cancerType, chosen.prevalence, chosen.advice + Note, chosen.risk, detected)
  }

  /** `detect_cancer`: the heuristic on the grayscale decode, or the error raised when it fails. */
  function DetectCancer(image: Option<GrayImage>): (r: Result<Diagnosis, ValueError>)
    ensures image.None? ==> r == Err(ValueError("Failed to load image for cancer detection."))
    ensures image.Some? ==> r == Ok(Classify(Mean(image.value)))
    ensures image.Some? ==> r.Ok? && 0.0 <= r.value.probability <= 1.0
    ensures image.Some? ==>
      (r.value.detected <==> 2 * Sum(image.value.pixels) >= 293 * |image.value.pixels|)
    ensures image.Some? ==>
      (r.value.probability == 1.0 <==> forall i :: 0 <= i < |image.value.pixels| ==> image.value.pixels[i] == 255)
    ensures image.Some? ==> r.value.cancerType != BasalCellCarcinoma
    ensures image.Some? ==> EndsWith(r.value.advice, Note)
  {
    match image
    case None => Err(ValueError("Failed to load image for cancer detection."))
    case Some(img) =>
      var mean := Mean(img);
      var d := Classify(mean);
      DetectedIffBright(mean);
      BrightIffTotal(img);
      assert d.probability == 1.0 ==> mean >= 255.0 by {
        if mean < 255.0 && 100.0 <= mean {
          assert Probability(mean) * 155.0 == mean - 100.0;
        }
      }
      Ok(d)
  }

  /** When nothing is detected, the bucket chosen first is discarded entirely. */
  lemma NotDetectedOverride(mean: real)
    requires !Classify(mean).detected
    ensures Classify(mean) == Diagnosis(Probability(mean), NoCancerDetected, "N/A",
      "No signs of malignancy. Continue with annual skin checks." + Note, Low, false)
  {
  }

  /** When something is detected, type, prevalence, risk and advice come from the intensity bucket. */
  lemma DetectedFollowsBucket(mean: real)
    requires Classify(mean).detected
    ensures var b := IntensityBucket(mean);
      var d := Classify(mean);
      d.cancerType == b.cancerType && d.prevalence == b.prevalence && d.risk == b.risk
      && d.advice == b.advice + Note
  {
  }

  /** The returned cancer type as a function of the mean grey level: Basal Cell Carcinoma is unreachable. */
  lemma TypeByIntensity(mean: real)
    ensures Classify(mean).cancerType == NoCancerDetected <==> mean < 146.5
    ensures Classify(mean).cancerType == SquamousCellCarcinoma <==> 146.5 <= mean <= 150.0
    ensures Classify(mean).cancerType == Melanoma <==> 150.0 < mean <= 200.0
    ensures Classify(mean).cancerType == MerkelCellCarcinoma <==> mean > 200.0
  {
    if mean >= 146.5 {
      DetectedFollowsBucket(mean);
    }
  }

  /** The analysis-time risk never decreases as the image gets brighter. */
  lemma RiskMonotone(m1: real, m2: real)
    requires m1 <= m2
    ensures Classify(m1).risk.Rank() <= Classify(m2).risk.Rank()
  {
    DetectedIffBright(m1);
    DetectedIffBright(m2);
  }

  // ---------------------------------------------------------------------
  // HistoryPage.load_history
  // ---------------------------------------------------------------------

  /**
   * The history band is recomputed from the probability with thresholds 0.2
   * and 0.5, while the analysis took its risk from the intensity buckets: the
   * two agree exactly outside the grey-level ranges [131, 146.5) and (150, 177.5).
   */
  lemma HistoryRiskAgreement(mean: real)
    ensures HistoryRisk(Classify(mean).probability) == Classify(mean).risk
      <==> mean < 131.0 || 146.5 <= mean <= 150.0 || mean >= 177.5
  {
    var p := Probability(mean);
    DetectedIffBright(mean);
    if 100.0 <= mean <= 255.0 {
      assert p * 155.0 == mean - 100.0;
      assert p >= 0.5 <==> mean >= 177.5;
      assert p >= 0.2 <==> mean >= 131.0;
    }
  }

  // ---------------------------------------------------------------------
  // RegistrationPage.register
  // ---------------------------------------------------------------------

  /** The status-label text `register` shows for each outcome. */
  function RegistrationMessage(r: Registration): (m: string)
    ensures m == "All fields required" <==> r == AllFieldsRequired
    ensures m == "Invalid email format" <==> r == InvalidEmailFormat
    ensures m == "Registration successful!" <==> r.Registered?
    ensures m == "Username or email already taken" <==> r == Duplicate
  {
    match r
    case AllFieldsRequired => "All fields required"
    case InvalidEmailFormat => "Invalid email format"
    case Registered(_) => "Registration successful!"
    case Duplicate => "Username or email already taken"
  }
}
