/**
 * What the earlier application version (main.py) adds to the shared
 * pieces: its `detect_skin` error, the grey-level heuristic whose risk level
 * and advice are a band of the probability alone, the agreement of that band
 * with the history list and the dashboard, and its registration messages.
 */
module MainApp {
  import opened Primitives
  import opened Screening
  import opened Accounts

  /** The tuple `(probability, advice, risk_level, cancer_detected)`. */
  datatype Diagnosis = Diagnosis(probability: real, advice: string, risk: Risk, detected: bool)

  // ---------------------------------------------------------------------
  // detect_skin
  // ---------------------------------------------------------------------

  /** The message of the `ValueError` this version's `detect_skin` raises. */
  const SkinLoadError := "Failed to load image"

  /** This version's `detect_skin`: the shared skin ratio, or its own load error. */
  function DetectSkin(image: Option<HsvImage>): (r: Result<real, ValueError>)
    ensures image.None? ==> r == Err(ValueError("Failed to load image"))
    ensures image.Some? ==> r == Ok(SkinRatio(image.value))
  {
    Screening.DetectSkin(image, SkinLoadError)
  }

  // ---------------------------------------------------------------------
  // detect_cancer
  // ---------------------------------------------------------------------

  /** The sentence appended to the advice in every branch. */
  const Note := "\n\nThis automated analysis must be reviewed by a qualified dermatologist."

  const LowAdvice := "Low risk: No malignant features detected. Recommend annual screening."
  const ModerateAdvice :=
    "Moderate risk: Suspicious features observed. Recommend biopsy and dermatologist consultation within 2 weeks."
  const HighAdvice :=
    "High risk: Potential malignancy detected. Urgent referral to oncologist required within 48 hours."

  /** The `if probability < 0.2 / elif < 0.5 / else` chain of `detect_cancer`. */
  function RiskBand(p: real): (r: Risk)
    ensures r == Low <==> p < 0.2
    ensures r == Moderate <==> 0.2 <= p < 0.5
    ensures r == High <==> p >= 0.5
  {
    if p < 0.2 then Low else if p < 0.5 then Moderate else High
  }

  /** The advice text of each band. */
  function BandAdvice(r: Risk): (a: string)
    ensures a == LowAdvice <==> r == Low
    ensures a == ModerateAdvice <==> r == Moderate
    ensures a == HighAdvice <==> r == High
  {
    match r
    case Low => LowAdvice
    case Moderate => ModerateAdvice
    case High => HighAdvice
  }

  /** Everything `detect_cancer` does once the mean grey level is known. */
  function Classify(mean: real): (d: Diagnosis)
    ensures 0.0 <= d.probability <= 1.0
    ensures d.detected <==> d.probability >= DetectionThreshold
    ensures d.detected ==> d.risk != Low
    ensures d.risk == Low <==> d.probability < 0.2
    ensures d.risk == High <==> d.probability >= 0.5
    ensures d.probability == Probability(mean)
    ensures d.advice == BandAdvice(d.risk) + Note
    ensures EndsWith(d.advice, Note)
  {
    var probability := Probability(mean);
    var detected := probability >= DetectionThreshold;
    var risk := RiskBand(probability);
    Diagnosis(probability, BandAdvice(risk) + Note, risk, detected)
  }

  /** `detect_cancer`: the heuristic on the grayscale decode, or the error raised when it fails. */
  function DetectCancer(image: Option<GrayImage>): (r: Result<Diagnosis, ValueError>)
    ensures image.None? ==> r == Err(ValueError("Failed to load image for cancer detection"))
    ensures image.Some? ==> r == Ok(Classify(Mean(image.value)))
    ensures image.Some? ==> r.Ok? && 0.0 <= r.value.probability <= 1.0
    ensures image.Some? ==>
      (r.value.detected <==> 2 * Sum(image.value.pixels) >= 293 * |image.value.pixels|)
    ensures image.Some? ==> (r.value.probability == 0.0 <==> Mean(image.value) <= 100.0)
    ensures image.Some? ==> r.value.risk == RiskBand(r.value.probability)
    ensures image.Some? ==> EndsWith(r.value.advice, Note)
  {
    match image
    case None => Err(ValueError("Failed to load image for cancer detection"))
    case Some(img) =>
      var mean := Mean(img);
      var d := Classify(mean);
      DetectedIffBright(mean);
      assert d.detected <==> mean >= 146.5;
      BrightIffTotal(img);
      assert d.probability == 0.0 ==> mean <= 100.0 by {
        if 100.0 < mean <= 255.0 {
          assert Probability(mean) * 155.0 == mean - 100.0;
        }
      }
      Ok(d)
  }

  /** The advice differs between two analyses only when their risk levels differ. */
  lemma AdviceDeterminedByRisk(m1: real, m2: real)
    requires Classify(m1).risk == Classify(m2).risk
    ensures Classify(m1).advice == Classify(m2).advice
  {
  }

  /** The risk level never decreases as the probability rises. */
  lemma RiskBandMonotone(p: real, q: real)
    requires p <= q
    ensures RiskBand(p).Rank() <= RiskBand(q).Rank()
  {
  }

  /** The risk level as a function of the mean grey level. */
  lemma RiskByIntensity(mean: real)
    ensures Classify(mean).risk == Low <==> mean < 131.0
    ensures Classify(mean).risk == Moderate <==> 131.0 <= mean < 177.5
    ensures Classify(mean).risk == High <==> mean >= 177.5
  {
    var p := Probability(mean);
    if 100.0 <= mean <= 255.0 {
      assert p * 155.0 == mean - 100.0;
    }
  }

  /** Detection implies at least a moderate risk, but a detected image may still be only moderate. */
  lemma DetectedModerateExists()
    ensures Classify(162.0).detected && Classify(162.0).risk == Moderate
  {
    RiskByIntensity(162.0);
  }

  // ---------------------------------------------------------------------
  // HistoryPage.load_history
  // ---------------------------------------------------------------------

  /** Re-deriving the band from the stored probability gives back the level returned at analysis time. */
  lemma HistoryMatchesAnalysis(image: GrayImage)
    ensures DetectCancer(Some(image)).Ok?
    ensures HistoryRisk(DetectCancer(Some(image)).value.probability) == DetectCancer(Some(image)).value.risk
  {
  }

  // ---------------------------------------------------------------------
  // DashboardPage.update_risk_indicator
  // ---------------------------------------------------------------------

  /** No analysis result ever shows "LOW RISK - CANCER DETECTED". */
  lemma IndicatorNeverLowAndDetected(mean: real)
    ensures RiskIndicator(Classify(mean).risk, Classify(mean).detected).text != "LOW RISK" + DetectedSuffix
  {
    var d := Classify(mean);
    var text := RiskIndicator(d.risk, d.detected).text;
    assert d.detected ==> |text| != |"LOW RISK" + DetectedSuffix|;
  }

  // ---------------------------------------------------------------------
  // RegistrationPage.register
  // ---------------------------------------------------------------------

  /** The status-label text `register` shows for each outcome. */
  function RegistrationMessage(r: Registration): (m: string)
    ensures m == "All fields required" <==> r == AllFieldsRequired
    ensures m == "Invalid email format" <==> r == InvalidEmailFormat
    ensures m == "Registration successful!" <==> r.Registered?
    ensures m == "Username/email already exists" <==> r == Duplicate
  {
    match r
    case AllFieldsRequired => "All fields required"
    case InvalidEmailFormat => "Invalid email format"
    case Registered(_) => "Registration successful!"
    case Duplicate => "Username/email already exists"
  }
}
