# Icon localisation of the Notepad automation bot, in Dafny

The bot finds the Notepad icon on the desktop, double-clicks it, types a
fetched post into the editor and saves it as `post_<id>.txt`, once per post.
The only part of it with decision logic of its own is **icon localisation**:
turning the output of a text detector or of an image-correlation primitive into
one integer screen point, or "not found". This project models that logic and
the small pure pieces around it as immutable datatypes and pure functions, and
proves what the scripts promise about them.

- `OcrLocator` (`ocr_locator.dfy`): the text-matching locator of
  `vision_automation.py`. Given the detector's `(box, text, prob)` triples, it
  returns the centre of the **first** triple whose lower-cased text contains the
  lower-cased label `"Notepad"`. The centre is the truncated midpoint of box
  corners 0 and 2. Confidence is never consulted.
- `Detection` (`detection.py`): the same first-match rule reported as success or
  failure. It also computes the integer geometry of the diagnostic picture drawn
  around a match: circle radius, arrow, coordinate caption and "SUCCESS" banner.
- `TemplateLocator` (`vision_automation_template_matching.py`): the multi-scale
  template matcher. The scale list is 1.0, 0.8, 1.2, 0.6, 1.4. A scale is skipped
  when its resized template is under 10 px or larger than the screenshot. A
  running best starts at 0 and is replaced only by a strictly greater peak, so
  earlier scales win ties. The winner is accepted only at confidence at least
  0.7, and the result is the winner's location plus half the resized template.
- `Posts` and `Driver`: pieces shared by both drivers.
  - Fetch result: at most ten live posts, or exactly ten placeholders plus a
    fallback flag.
  - Note text: `"Title: <title>\n\n<body>"`.
  - File name: `post_<id>.txt`.
  - Per-post loop: the locator is called at most three times and stops at the
    first point found. A post whose icon is never found is skipped. The two
    drivers (`vision_automation.py:88-108`, `150-161`, `188`, `196` and
    `vision_automation_template_matching.py:117-137`, `179-190`, `217`, `225`)
    have identical logic here; they differ only in sleep durations.
- `Geometry`, `Text`, `Wrappers`: points, sizes and quadrilaterals; Python's
  truncating `int(a / b)`; ASCII lower-casing; the substring test; decimal
  rendering of integers; `Option`.

Foreign calls become inputs:
- The text detector's output is an `Option<seq<Triple>>`. `None` means that
  capturing or reading raised, and the script's handler returns "not found".
- `cv2.matchTemplate` followed by `cv2.minMaxLoc` is a function
  `correlate: Size -> Peak`. It gives the peak value and its location for the
  template resized to a given size. The screenshot is fixed for the call.
- The HTTP fetch is an `Option<seq<Post>>`.
- The locator's answer on each retry is a function of the attempt number.
- Whether the UI sequence raises is a boolean per post.
- The "SUCCESS" text size reported by `cv2.getTextSize` is a `Size` parameter.

All functions are pure, so calling a locator twice on the same inputs gives the
same answer by construction.

Two behaviours of the code are easy to miss, and the model follows the code:

- `detect_icon` can return `False` after finding a match. `save_debug_image`
  draws a circle of radius `int(max(w, h) * 0.8)`, and OpenCV raises on a
  negative radius. The handler then turns that into `False`. This happens for a
  box whose corner 2 lies at least two pixels above and at least two pixels left
  of corner 0. `Detection.DetectIcon` models it as `Crashed`. For boxes that are
  not inverted, `Detection.DetectIffSomeMatch` proves the plain rule "true iff
  some text contains the label".
- The centre is `int((a + b) / 2)`: exact division, then truncation toward zero.
  This is `Geometry.TruncDiv`, not Dafny's flooring `/`. It differs from
  flooring for negative sums.

## Model

| member | source | states |
|---|---|---|
| Geometry.TruncDiv | vision_automation.py:76-77 | `int(a / b)` truncates toward zero: for a non-negative numerator, q·b is at most a and within b of it; for a negative numerator, q·b is at least a and within b of it |
| Geometry.Midpoint | vision_automation.py:76-77 | the truncated midpoint of two coordinates lies between them, whatever their signs and order |
| Geometry.CentreBetweenCorners | vision_automation.py:74-77 | on each axis the box centre lies between corner 0 and corner 2 |
| Geometry.CentreExample | vision_automation.py:74-77 | the box (100,100),(150,100),(150,140),(100,140) has centre (125,120) |
| OcrLocator.FirstMatchFrom | vision_automation.py:72-79 | the scan from position `from` returns a matching index with no match between `from` and it, or None when nothing from `from` on matches |
| OcrLocator.FirstMatchUnique | vision_automation.py:72-79 | at most one index is a first match: the first-match rule picks a single triple |
| OcrLocator.FirstMatch | vision_automation.py:72-82 | the returned index matches and every earlier triple does not; None exactly when no triple's lower-cased text contains the lower-cased label |
| OcrLocator.LocateText | vision_automation.py:63-86 | a point is returned iff the detector ran and some text contains the label; the point is the centre of the first such triple in detector order; a raised exception gives None |
| OcrLocator.FirstMatchIgnoresCaseAndProb | vision_automation.py:73 | the first-match index is the same for detector outputs that agree on boxes and lower-cased texts, and for labels equal up to case |
| OcrLocator.LocateIgnoresCaseAndProb | vision_automation.py:73 | changing the letter case of any text or of the label, or any confidence, does not change the located point |
| OcrLocator.LocateIgnoresProb | vision_automation.py:72-79 | rewriting every confidence leaves the result unchanged, so a later higher-confidence match never displaces the first one |
| OcrLocator.LocateExample | vision_automation.py:72-79 | a region reading "Notepad Icon" in the box (100,100)-(150,140) is located at (125,120) with target "Notepad", whatever its confidence |
| Detection.RadiusNonNegative | detection.py:55-60 | `int(max(w, h) * 0.8)` is non-negative exactly when the larger side is at least -1 |
| Detection.Annotate | detection.py:52-95 | the circle is centred on the box centre; both arrow ends lie on the up-right diagonal through it; for a non-negative radius the arrow end lies between the centre and the arrow start on both axes; the caption is 20 px right of and 10 px above the arrow start; the banner baseline is strictly below the circle; the banner is horizontally centred on the centre to within one pixel |
| Detection.DetectIcon | detection.py:107-143 | no match is reported exactly when the detector ran and no text contains the label; success exactly when the first match's radius is non-negative; a success carries the first match and its annotation; any raised exception gives failure |
| Detection.DetectAgreesWithLocate | detection.py:117-127 | on success the annotated centre is the point the text locator returns for the same detector output |
| Detection.DetectIffSomeMatch | detection.py:117-139 | when no box is inverted on both axes, detection succeeds iff some recognised text contains the label |
| TemplateLocator.CandidatesFrom | vision_automation_template_matching.py:78-92 | from scale number k on, every candidate is a usable scale with its own resized size and peak, scales appear in list order, and every usable scale appears |
| TemplateLocator.Candidates | vision_automation_template_matching.py:76-92 | the candidates are exactly the usable scales' peaks, in scale-list order |
| TemplateLocator.CandidateIffUsable | vision_automation_template_matching.py:80-84 | a scale contributes a candidate iff both resized sides are between 10 px and the screenshot's size |
| TemplateLocator.Scan | vision_automation_template_matching.py:73-97 | the running-best fold, started in a consistent state, ends with None only if no candidate is positive, and otherwise with the index of a positive maximum that every earlier candidate is strictly below |
| TemplateLocator.SelectBest | vision_automation_template_matching.py:73-97 | from best 0 and no location: None iff no candidate exceeds 0; otherwise the first candidate with the maximum confidence, which is positive |
| TemplateLocator.BestCandidateWins | vision_automation_template_matching.py:73-97 | in a scale-ordered list holding exactly the usable scales' candidates, the best candidate's scale is the winning scale |
| TemplateLocator.ScaleWinsUnique | vision_automation_template_matching.py:94 | at most one scale wins |
| TemplateLocator.WinningScale | vision_automation_template_matching.py:73-97 | the selected scale is usable, positive, the maximum over usable scales and strictly above every earlier usable scale; None iff no usable scale is positive |
| TemplateLocator.LocateTemplate | vision_automation_template_matching.py:53-115 | a missing or unreadable template gives None; a point is returned iff some scale wins with confidence at least tau; the point is that scale's peak location plus half its resized size |
| TemplateLocator.LocateAtWinner | vision_automation_template_matching.py:99-109 | the result depends only on the winning scale: its centre if its confidence reaches tau, otherwise None |
| TemplateLocator.LocatedIffSomeScaleConfident | vision_automation_template_matching.py:99-109 | a point is found iff some usable scale's peak is positive and reaches the threshold |
| TemplateLocator.TieGoesToEarlierScale | vision_automation_template_matching.py:76-96 | when a usable scale ties with a later one, the later scale is never selected |
| TemplateLocator.LocatedPointOnScreen | vision_automation_template_matching.py:101-103 | if every peak lies inside its correlation map, a returned point lies inside the screenshot |
| TemplateLocator.ThresholdExample | vision_automation_template_matching.py:73-109 | with peaks 0.55, 0.72 and 0.40 at scales 1.0, 0.8 and 1.2, and 0.6 and 1.4 skipped, the 0.8 scale's centre is returned for any threshold up to 0.72, including 0.7, and nothing above it |
| TemplateLocator.ExampleWinner | vision_automation_template_matching.py:76-97 | in that example scale 0.8 wins, with confidence 0.72 |
| Posts.PlaceholdersUpTo | vision_automation_template_matching.py:129-135 | the fallback loop yields n placeholders, and the i-th is the placeholder for post i+1 with id i+1 |
| Posts.FetchPosts | vision_automation_template_matching.py:117-137 | the fallback flag is set iff the fetch failed; on success the posts are the response's first min(n, 10) items; on failure they are exactly the ten placeholders for posts 1..10 |
| Posts.PlaceholdersDistinct | vision_automation.py:100-108 | the ten placeholders have pairwise distinct ids and titles |
| Posts.NoteContentRoundTrip | vision_automation_template_matching.py:217 | the typed note `Title: <title>` + blank line + `<body>` reads back as its title and body |
| Posts.FileNameInjective | vision_automation_template_matching.py:225 | distinct post ids get distinct `post_<id>.txt` names |
| Text.IntToStringInjective | vision_automation.py:104-105 | distinct integers are rendered as distinct strings |
| Driver.RetryFrom | vision_automation_template_matching.py:179-185 | from attempt k: the locator is called at most three times in all; a found point is the last call's answer and every earlier call failed; giving up means the third call failed |
| Driver.LocateWithRetry | vision_automation.py:150-161 | between one and three calls; the result is the first successful answer, every earlier attempt failed, and None iff all three attempts failed |
| Driver.ProcessPost | vision_automation_template_matching.py:179-267 | a post is skipped iff all three attempts fail; it is saved iff some attempt succeeds and the UI steps do not raise; the click goes to the first point found; the saved note is `post_<id>.txt` holding `Title: …` + blank line + body |
| Driver.ProcessAutomation | vision_automation_template_matching.py:164-267 | one outcome per fetched post, in order; post i is saved iff one of its three attempts finds the icon and its UI steps succeed, under its own file name and content |
| Driver.FallbackFilesDistinct | vision_automation.py:100-108 | on the placeholder path no two saved notes share a file name |

## Left out

- Screen capture, mouse and keyboard simulation, window polling, the clipboard
  and every `time.sleep`. These are side effects with no decision logic. Their
  outcomes are parameters: the screenshot size, the locator's answer per
  attempt, and whether the UI steps raise.
- Text-detector and OpenCV internals (`readtext`, `resize`, `matchTemplate`,
  `minMaxLoc`, `circle`, `putText`, `getTextSize`, `imwrite`). These are foreign
  library calls. Their outputs are inputs, as listed above.
- Floating-point truncation of `int(x * 0.8)`, `int(r * 1.5)`, `int(r * 0.3)` and
  the scale products. The factors are exact fractions (4/5, 3/2, 3/10 and the
  scales as fifths). A float product that lands just below an integer is not
  modelled.
- Detector box coordinates are integers. Fractional coordinates of rotated boxes
  are not modelled.
- Text.Lower folds only the ASCII letters A-Z. Python's `str.lower` also maps
  non-ASCII letters, some of them to two characters.
- Posts.NoteContentRoundTrip holds only for titles without a line break. A title
  containing a blank line cannot be told apart from the separator.
- Detection.DetectIffSomeMatch assumes no box is inverted on both axes. The
  general case, including the negative-radius failure, is stated by
  Detection.DetectIcon.
- Driver.ProcessPost treats an exception in the UI steps as "nothing saved". A
  file saved before the exception is not modelled.
- NaN correlation peaks are not modelled. Confidences are exact reals.
- Post fields are modelled as integer ids and string titles and bodies. JSON
  values of other types are not modelled. A response that is not a list is
  folded into the failed fetch.
- Filesystem effects are not modelled: creating directories, deleting an
  existing `post_<id>.txt` before saving, and timestamped debug file names.
- The per-character typing fallback `write_text_safely_backup` is not modelled.
  Which branch it takes depends on an exception raised inside `pyautogui`.
- Constructors that initialise the text reader or print a warning for a missing
  template, the stdout re-encoding, and the `__main__` drivers are not modelled.
- `capture_template.py` is not part of this model. It is an interactive capture
  script with a two-line clamp.
