# Skin cancer detection: the decision layer, modelled in Dafny

The application is a desktop patient-record tool (customtkinter GUI,
PostgreSQL, bcrypt, Fernet, FPDF) with one small piece of actual logic: the
`SkinDetector` class, which turns a photograph into a skin-coverage ratio and a
grey-level "cancer probability" with a risk level, a lesion-type label and
advice text. Beside it sit a few total functions of strings and thresholds: the
risk band that the history list derives from a stored probability, the text of
the dashboard's risk indicator, and the field checks of the registration and
login pages.

Two versions of the program exist side by side. What they share unchanged is
modelled once; where their classification rules or messages differ, each has
its own module:

- `Screening` (`screening.dfy`) holds what both versions compute alike: `detect_skin` and its
  skin ratio (each version passes its own error message), the probability with its 0.3 detection threshold, the history
  list's band, and the dashboard's risk indicator.
- `Accounts` (`accounts.dfy`) holds the registration and login field checks,
  identical in both versions apart from one status message.
- `UpdateApp` (`update_app.dfy`) models what is particular to `update.py`. The
  label (cancer type, prevalence, advice, risk) comes from first-match buckets
  on the mean grey level, and a "not detected" override replaces all of it
  when the probability is below 0.3.
- `MainApp` (`main_app.dfy`) models what is particular to `main.py`. The risk
  level and advice are a band of the probability alone (below 0.2, below 0.5,
  otherwise).
- `Primitives` (`primitives.dfy`) models the library calls both versions are
  built from. These are OpenCV's `inRange` and `countNonZero`, NumPy's `mean` on
  an 8-bit image, Python's `min`/`max`, and `str.strip`. Python's `str.strip` is
  modelled with the full set of characters for which `str.isspace()` holds.

Images arrive already decoded. `Option<HsvImage>` stands for the result of
`cv2.imread` followed by the BGR-to-HSV conversion, and `Option<GrayImage>` for
the grayscale `cv2.imread`. `None` is the unreadable file, for which the source
raises `ValueError`; the model returns `Err(ValueError(message))` with the
source's message. A decoded raster always has positive height and width and
one entry per pixel (`WellFormed`). `np.mean` and the divisions are modelled
with exact `real` arithmetic.

Properties proved, in brief:

- The skin ratio is the number of pixels with H in [0,20], S in [20,255] and
  V in [70,255] (each bound inclusive, each channel checked on its own) divided
  by height × width. It lies in [0,1]. It is 0 exactly when no pixel is in
  range and 1 exactly when all are.
- The probability `min(max((mean - 100) / 155, 0), 1)` lies in [0,1] and is
  monotone in the mean. It is 0 for a mean up to 100 and 1 for a mean of 255.
  Detection (`probability >= 0.3`) holds exactly when the mean is at least
  146.5, that is, when twice the grey-level total is at least 293 per pixel.
- `update.py`: the not-detected override replaces the bucket entirely. A
  detected result takes its fields from the first matching bucket. Basal Cell
  Carcinoma is never returned. Squamous Cell Carcinoma is returned exactly for
  a mean in [146.5, 150]. The advice always ends with the fixed note.
- `update.py`: the history list recomputes a band from the stored probability
  (thresholds 0.2 and 0.5), while the analysis took its risk from the intensity
  buckets. The two agree exactly when the mean is below 131, in
  [146.5, 150], or at least 177.5 (`UpdateApp.HistoryRiskAgreement`). For a
  mean in [131, 146.5) the history shows "moderate" for an analysis that said
  "low". For a mean in (150, 177.5) it shows "moderate" for an analysis that
  said "high".
- `main.py`: the risk bands partition the probabilities and never regress.
  Detection implies a risk other than low, and a detected image can still be
  only moderate (mean 162). The history band always equals the risk returned
  at analysis time. The advice always ends with the fixed review sentence.
- Registration answers "All fields required" exactly when the username or the
  email is all whitespace or the password is empty. This check comes before
  the email check, which rejects an email without '@' or without '.'. Login
  answers "Please fill all fields" exactly when the username is all whitespace
  or the password is empty.

## Model

| member | source | states |
|---|---|---|
| `Primitives.InRange` | update.py:291 | the mask has one entry per pixel, non-zero exactly where every channel lies within its closed bounds |
| `Primitives.CountNonZero` | update.py:292 | the count of non-zero mask entries never exceeds the number of entries |
| `Primitives.CountNonZeroIsCardinality` | update.py:292 | the count equals the size of the set of non-zero positions |
| `Primitives.CountNonZeroNone` | update.py:292 | the count is 0 exactly when every entry is 0 |
| `Primitives.CountNonZeroAll` | update.py:292 | the count is the length exactly when every entry is non-zero |
| `Primitives.CountInRange` | update.py:291-292 | counting an `inRange` mask gives the number of in-bounds pixels; 0 iff none is in bounds, all iff every one is |
| `Primitives.Sum` | update.py:302 | the grey-level total of n 8-bit pixels is at most 255·n |
| `Primitives.SumZero` | update.py:302 | the total is 0 exactly when every pixel is 0 |
| `Primitives.SumFull` | update.py:302 | the total is 255·n exactly when every pixel is 255 |
| `Primitives.AverageBounds` | update.py:302 | an average of 0..255 values lies in [0,255] and hits 0 or 255 exactly when the total does |
| `Primitives.Mean` | update.py:302 | `np.mean` of a grayscale image lies in [0,255]; it is 0 iff the image is all black and 255 iff it is all white |
| `Primitives.MeanAtLeast` | update.py:302 | the mean is at least c exactly when the total is at least c times the pixel count |
| `Primitives.RatioBounds` | update.py:295 | k/n for 0 ≤ k ≤ n, n > 0 lies in [0,1], is 0 iff k = 0 and 1 iff k = n |
| `Primitives.Max` | update.py:303 | `max(a, b)` is one of its arguments and at least both |
| `Primitives.Min` | update.py:303 | `min(a, b)` is one of its arguments and at most both |
| `Primitives.StripLeft` | update.py:499 | the result is a suffix of the input, everything removed is whitespace, and it does not start with whitespace |
| `Primitives.StripRight` | update.py:499 | the result is a prefix of the input, everything removed is whitespace, and it does not end with whitespace |
| `Primitives.Strip` | update.py:499-500 | `strip()` is a contiguous slice of the input with only whitespace cut off before and after it; it is empty iff the input is all whitespace, and a non-empty result has no whitespace at either end |
| `Primitives.StripKeeps` | update.py:500-506 | stripping never adds or removes a non-whitespace character such as `@` or `.`, so the e-mail check may look at the stripped or the raw address alike |
| `Screening.SkinRatio` | update.py:289-295 | ratio = skin pixels / (height·width), in [0,1], 0 iff no pixel is skin, 1 iff every pixel is; main.py:186-191 computes the same |
| `Screening.DetectSkin` | update.py:282-295 | unreadable file → `ValueError` with the version's message ("Couldn’t load the image file." here, "Failed to load image" at main.py:182); otherwise `Ok` of the skin ratio, in [0,1] |
| `Screening.Probability` | update.py:303 | the probability is in [0,1], 0 for mean ≤ 100, 1 for mean ≥ 255, and (mean − 100)/155 in between; main.py:199 is the same formula |
| `Screening.ProbabilityMonotone` | update.py:303 | a larger mean never gives a smaller probability |
| `Screening.DetectedIffBright` | update.py:303-304 | probability ≥ 0.3 exactly when mean ≥ 146.5 (main.py:199-200 alike) |
| `Screening.BrightIffTotal` | update.py:302-304 | mean ≥ 146.5 exactly when 2·total ≥ 293·pixels |
| `Screening.HistoryRisk` | update.py:787 | the history band is high iff p ≥ 0.5, moderate iff 0.2 ≤ p < 0.5, low iff p < 0.2; main.py:629 is the same line |
| `Screening.HistoryRiskMonotone` | update.py:787 | a larger stored probability never shows a lower band |
| `Screening.RiskIndicator` | update.py:595-606 | the text is "LOW RISK", "MODERATE RISK" or "HIGH RISK" by level, followed by " - CANCER DETECTED" exactly when detected; font 20 if detected else 24; colour per level (main.py:448-458 alike) |
| `Screening.IndicatorTextInjective` | update.py:595-606 | the indicator text determines both the risk level and the detection flag |
| `Accounts.Register` | update.py:497-512 | "All fields required" iff username or email all whitespace or password empty; otherwise "Invalid email format" iff '@' or '.' missing; registered iff checks pass and the insert returns a non-zero id, and then with that id (main.py:354-370 alike) |
| `Accounts.Login.Message` | update.py:457-465 | "Please fill all fields" exactly for the empty-field outcome, "Invalid credentials" exactly for a failed lookup or password, no error text exactly on success (main.py:321-329 alike) |
| `Accounts.LogIn` | update.py:453-464 | "Please fill all fields" iff username all whitespace or password empty; logged in iff the stripped username is found and the password verifies, with that user (main.py:318-329 alike) |
| `UpdateApp.DetectSkin` | update.py:282-295 | unreadable file → `ValueError("Couldn’t load the image file.")`; otherwise `Ok` of the shared skin ratio |
| `UpdateApp.IntensityBucket` | update.py:307-326 | the first-match bucket: Basal exactly for mean ≤ 100, Squamous for (100,150], Melanoma for (150,200], Merkel above 200; its risk is low exactly for mean ≤ 100 and high exactly above 150; the whole label (prevalence and advice included) is one of the four fixed labels, so each type carries its own prevalence and advice |
| `UpdateApp.Classify` | update.py:302-335 | probability is `Probability(mean)`, in [0,1]; detected iff probability ≥ 0.3 iff mean ≥ 146.5 iff risk ≠ low iff a cancer type is named; never Basal Cell Carcinoma; advice ends with the note |
| `UpdateApp.DetectCancer` | update.py:297-335 | unreadable file → the `ValueError` message; otherwise exactly `Classify` of the image's mean, so probability in [0,1], detected iff 2·total ≥ 293·pixels, probability 1 iff all pixels are 255, never Basal, advice ends with the note |
| `UpdateApp.RegistrationMessage` | update.py:502-514 | each registration outcome shows its own status text, "Username or email already taken" for a failed insert, and each text identifies its outcome |
| `UpdateApp.NotDetectedOverride` | update.py:328-332 | not detected → exactly ("No Cancer Detected", "N/A", annual-check advice + note, low), whatever bucket was chosen |
| `UpdateApp.DetectedFollowsBucket` | update.py:307-326 | detected → type, prevalence, risk and advice come from the first matching intensity bucket |
| `UpdateApp.TypeByIntensity` | update.py:304-332 | the type is none below mean 146.5, Squamous for [146.5,150], Melanoma for (150,200], Merkel above 200 |
| `UpdateApp.RiskMonotone` | update.py:307-332 | the analysis-time risk never decreases as the mean grows |
| `UpdateApp.HistoryRiskAgreement` | update.py:787 | the history band equals the analysis risk exactly for mean < 131, 146.5 ≤ mean ≤ 150, or mean ≥ 177.5 |
| `MainApp.DetectSkin` | main.py:180-191 | unreadable file → `ValueError("Failed to load image")`; otherwise `Ok` of the shared skin ratio |
| `MainApp.RiskBand` | main.py:201-209 | low iff p < 0.2, moderate iff 0.2 ≤ p < 0.5, high iff p ≥ 0.5 |
| `MainApp.RiskBandMonotone` | main.py:201-209 | the band never regresses as the probability grows |
| `MainApp.BandAdvice` | main.py:201-209 | each risk level gets its own advice text, and each text belongs to exactly one level |
| `MainApp.Classify` | main.py:198-211 | probability is `Probability(mean)`, in [0,1]; advice is the band's advice followed by the review sentence; detected iff probability ≥ 0.3; detected implies risk ≠ low; low iff p < 0.2, high iff p ≥ 0.5; advice ends with the review sentence |
| `MainApp.DetectCancer` | main.py:193-211 | unreadable file → the `ValueError` message; otherwise exactly `Classify` of the image's mean, so probability in [0,1], detected iff 2·total ≥ 293·pixels, probability 0 iff mean ≤ 100, risk is the band of the probability, advice ends with the review sentence |
| `MainApp.RegistrationMessage` | main.py:358-370 | each registration outcome shows its own status text, "Username/email already exists" for a failed insert, and each text identifies its outcome |
| `MainApp.AdviceDeterminedByRisk` | main.py:201-210 | two analyses with the same risk level carry the same advice |
| `MainApp.RiskByIntensity` | main.py:199-209 | risk is low for mean < 131, moderate for [131,177.5), high from 177.5 |
| `MainApp.DetectedModerateExists` | main.py:200-209 | a detected result can be only moderate (mean 162) |
| `MainApp.HistoryMatchesAnalysis` | main.py:629 | for every readable image, the history band of the returned probability is the returned risk level |
| `MainApp.IndicatorNeverLowAndDetected` | main.py:448-458 | no analysis result shows "LOW RISK - CANCER DETECTED" |

## Left out

- Image decoding (`cv2.imread`) and the BGR-to-HSV conversion (`cv2.cvtColor`) are not modelled. They are OpenCV internals with their own rounding, so HSV triples and grey levels are taken as inputs.
- The masked display image (`cv2.bitwise_and`) that `detect_skin` also returns is not modelled. The ratio does not use it.
- Floating point is not modelled. `np.mean` and the divisions are exact `real` arithmetic, so results near a threshold may round differently in the program.
- `Primitives.IsSpace`: covers exactly the characters for which Python's `str.isspace()` holds. Surrogate code points are not in Dafny's `char` type.
- The `Database` class is not modelled (psycopg2 connections, SQL, commit and rollback). Inserting and looking up users are function parameters of `Register` and `LogIn`.
- bcrypt hashing and verification are function parameters, and Fernet encryption of image paths is not modelled. These are foreign cryptographic library calls.
- The PDF report (`MedicalReport`), date stamping and the `:.1%` formatting of the history text are not modelled. They are presentation over external libraries.
- GUI widgets, file dialogs, upload copying (uuid, shutil, os), `webbrowser` and logging are not modelled.
- `DashboardPage.analyze` (update.py:639-668, main.py:489-515) is not modelled as one operation. It refuses to run without an uploaded image, calls `detect_skin` and then `detect_cancer`, passes the returned risk level and detection flag to `update_risk_indicator`, stores the results and writes the result text. It also catches every error from either detector and shows it as "Analysis error: …" ("Analysis Error: …" in main.py). The model covers the detectors and the indicator separately; `MainApp.IndicatorNeverLowAndDetected` states what the indicator shows for a result handed over this way. The status bar, the stored dictionary, the result text and the caught-error message are not modelled.
- `Screening.HistoryRisk`: takes the stored probability as a number and assumes it is never NULL. The probability column is added to existing tables with `ALTER TABLE … ADD COLUMN` (update.py:121), so rows stored before that hold NULL. On such a row the unguarded `analysis[4] >= 0.5` (update.py:787, main.py:629) raises `TypeError`, and the history page fails to load; that error path is not modelled.
- The YCrCb segmentation, morphological opening/closing, and left/right asymmetry and colour-variance scoring are not modelled. Neither program contains them.
