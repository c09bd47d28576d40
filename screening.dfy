/**
 * The image-analysis pieces both application versions share unchanged: the
 * HSV skin mask and its coverage ratio, the rescaling of the mean grey level
 * into a probability with its 0.3 detection threshold, and the dashboard's
 * risk indicator.
 */
module Screening {
  import opened Primitives

  /** Python's `ValueError` raised when an image cannot be read. */
  datatype ValueError = ValueError(message: string)

  /** The risk level strings "low", "moderate", "high". */
  datatype Risk = Low | Moderate | High {
    /** Position in the order low < moderate < high. */
    function Rank(): nat
    {
      match this
      case Low => 0
      case Moderate => 1
      case High => 2
    }
  }

  // ---------------------------------------------------------------------
  // detect_skin
  // ---------------------------------------------------------------------

  const LowerSkin := Hsv(0, 20, 70)
  const UpperSkin := Hsv(20, 255, 255)

  /** A pixel is skin when H is in [0,20], S in [20,255] and V in [70,255], each bound inclusive. */
  predicate IsSkin(p: Hsv)
  {
    Within(p, LowerSkin, UpperSkin)
  }

  /** Positions of the skin pixels of an image. */
  ghost function SkinPixels(img: HsvImage): set<int>
  {
    set i | 0 <= i < |img.pixels| && IsSkin(img.pixels[i])
  }

  /**
   * `skin_pixels / total_pixels` of `detect_skin`: the `inRange` mask is
   * counted with `countNonZero` and divided by height times width.
   */
  function SkinRatio(img: HsvImage): (ratio: real)
    ensures 0.0 <= ratio <= 1.0
    ensures ratio == (|SkinPixels(img)| as real) / ((img.rows * img.cols) as real)
    ensures ratio == 0.0 <==> forall i :: 0 <= i < |img.pixels| ==> !IsSkin(img.pixels[i])
    ensures ratio == 1.0 <==> forall i :: 0 <= i < |img.pixels| ==> IsSkin(img.pixels[i])
  {
    var mask := InRange(img.pixels, LowerSkin, UpperSkin);
    var skinPixels := CountNonZero(mask);
    var totalPixels := img.rows * img.cols;
    CountInRange(img.pixels, LowerSkin, UpperSkin);
    assert WithinIndices(img.pixels, LowerSkin, UpperSkin) == SkinPixels(img);
    RatioBounds(skinPixels, totalPixels);
    (skinPixels as real) / (totalPixels as real)
  }

  /**
   * `detect_skin`: the fraction of pixels classified as skin, or the
   * `ValueError` raised when the file cannot be read, whose message each
   * version words differently. The masked display image it also returns is
   * not modelled.
   */
  function DetectSkin(image: Option<HsvImage>, loadError: string): (r: Result<real, ValueError>)
    ensures image.None? ==> r == Err(ValueError(loadError))
    ensures image.Some? ==> r == Ok(SkinRatio(image.value)) && 0.0 <= r.value <= 1.0
  {
    match image
    case None => Err(ValueError(loadError))
    case Some(img) => Ok(SkinRatio(img))
  }

  // ---------------------------------------------------------------------
  // detect_cancer: the probability
  // ---------------------------------------------------------------------

  const DetectionThreshold: real := 0.3

  /** `min(max((avg_intensity - 100) / 155, 0), 1)`: the mean grey level rescaled onto [0,1]. */
  function Probability(mean: real): (p: real)
    ensures 0.0 <= p <= 1.0
    ensures mean <= 100.0 ==> p == 0.0
    ensures mean >= 255.0 ==> p == 1.0
    ensures 100.0 <= mean <= 255.0 ==> p * 155.0 == mean - 100.0
  {
    Min(Max((mean - 100.0) / 155.0, 0.0), 1.0)
  }

  /** A brighter image never gets a lower probability. */
  lemma ProbabilityMonotone(m1: real, m2: real)
    requires m1 <= m2
    ensures Probability(m1) <= Probability(m2)
  {
    assert (m1 - 100.0) / 155.0 <= (m2 - 100.0) / 155.0;
  }

  /** The 0.3 threshold on the probability is the grey-level threshold 146.5 on the mean. */
  lemma DetectedIffBright(mean: real)
    ensures Probability(mean) >= DetectionThreshold <==> mean >= 146.5
  {
    if 100.0 <= mean <= 255.0 {
      assert Probability(mean) * 155.0 == mean - 100.0;
    }
  }

  /** On an image, the detection threshold is a bound on the total grey level: 146.5 per pixel. */
  lemma BrightIffTotal(img: GrayImage)
    ensures Mean(img) >= 146.5 <==> 2 * Sum(img.pixels) >= 293 * |img.pixels|
  {
    var t := Sum(img.pixels);
    var n := |img.pixels|;
    MeanAtLeast(img, 146.5);
    assert (2 * t) as real == 2.0 * (t as real);
    assert (293 * n) as real == 293.0 * (n as real);
  }

  // ---------------------------------------------------------------------
  // HistoryPage.load_history
  // ---------------------------------------------------------------------

  /** The band the history list derives from a stored probability. */
  function HistoryRisk(p: real): (r: Risk)
    ensures r == High <==> p >= 0.5
    ensures r == Moderate <==> 0.2 <= p < 0.5
    ensures r == Low <==> p < 0.2
  {
    if p >= 0.5 then High else if p >= 0.2 then Moderate else Low
  }

  /** A higher stored probability never shows a lower band. */
  lemma HistoryRiskMonotone(p: real, q: real)
    requires p <= q
    ensures HistoryRisk(p).Rank() <= HistoryRisk(q).Rank()
  {
  }

  // ---------------------------------------------------------------------
  // DashboardPage.update_risk_indicator
  // ---------------------------------------------------------------------

  /** The indicator's colour, text and font size. */
  datatype Indicator = Indicator(color: string, text: string, fontSize: nat)

  const DetectedSuffix := " - CANCER DETECTED"

  function RiskIndicator(risk: Risk, detected: bool): (ind: Indicator)
    ensures EndsWith(ind.text, DetectedSuffix) <==> detected
    ensures ind.fontSize == (if detected then 20 else 24)
    ensures ind.color == (match risk case Low => "#2AA876" case Moderate => "#FFC107" case High => "#DC3545")
    ensures ind.text ==
      (match risk case Low => "LOW RISK" case Moderate => "MODERATE RISK" case High => "HIGH RISK")
      + (if detected then DetectedSuffix else "")
  {
    var (color, text) :=
      match risk
      case Low => ("#2AA876", "LOW RISK")
      case Moderate => ("#FFC107", "MODERATE RISK")
      case High => ("#DC3545", "HIGH RISK");
    if detected then Indicator(color, text + DetectedSuffix, 20) else Indicator(color, text, 24)
  }

  /** The indicator text alone tells which risk level and detection flag produced it. */
  lemma IndicatorTextInjective(r1: Risk, d1: bool, r2: Risk, d2: bool)
    requires RiskIndicator(r1, d1).text == RiskIndicator(r2, d2).text
    ensures r1 == r2 && d1 == d2
  {
    assert |RiskIndicator(r1, d1).text| == |RiskIndicator(r2, d2).text|;
  }
}
