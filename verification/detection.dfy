/**
 The single-run detector: the same first-match rule as the text locator,
 reported as success or failure, plus the integer geometry of the diagnostic
 picture drawn around a match (circle, arrow, coordinate caption, banner).
 */
module Detection {
  import opened Wrappers
  import opened Text
  import opened Geometry
  import opened OcrLocator

  /** Pixels between the arrow start and the coordinate caption's anchor, to the right and upwards. */
  const CaptionOffsetX := 20
  const CaptionOffsetY := 10
  /** Pixels between the circle's bottom and the "SUCCESS" banner's text box. */
  const BannerGap := 30

  /** What is drawn over the screenshot around a detected icon. */
  datatype Annotation = Annotation(
    centre: Point,
    radius: int,
    arrowStart: Point,
    arrowEnd: Point,
    caption: string,
    captionAt: Point,
    bannerAt: Point)

  /**
   The outcome of one detection run: the match and its annotation, a run
   that found nothing, or a run whose handler caught an exception.
   */
  datatype Detection = Annotated(found: Triple, annotation: Annotation) | NoMatch | Crashed

  /** The boolean the detector returns. */
  function Succeeded(d: Detection): bool {
    d.Annotated?
  }

  /** `int(max(w, h) * 0.8)` for the box spanned by corners 0 and 2, with 0.8 taken as the exact fraction 4/5. */
  function Radius(box: Quad): int {
    TruncDiv(Max(box.c2.x - box.c0.x, box.c2.y - box.c0.y) * 4, 5)
  }

  /** The radius is non-negative exactly when the larger side is at least -1 (`int(-0.8)` is 0). */
  lemma RadiusNonNegative(box: Quad)
    ensures Radius(box) >= 0 <==> Max(box.c2.x - box.c0.x, box.c2.y - box.c0.y) >= -1
  {
  }

  /**
   The diagnostic geometry for a match with box `box`; `banner` is the size
   the font engine reports for the "SUCCESS" text.
   */
  function Annotate(box: Quad, banner: Size): (a: Annotation)
    ensures a.centre == Centre(box)
    ensures 0 <= a.radius ==> a.centre.x <= a.arrowEnd.x <= a.arrowStart.x && a.arrowStart.y <= a.arrowEnd.y <= a.centre.y
    ensures a.arrowStart.x - a.centre.x == a.centre.y - a.arrowStart.y
    ensures a.arrowEnd.x - a.centre.x == a.centre.y - a.arrowEnd.y
    ensures a.captionAt == Point(a.arrowStart.x + CaptionOffsetX, a.arrowStart.y - CaptionOffsetY)
    ensures a.bannerAt.y > a.centre.y + a.radius
    ensures banner.w - 1 <= 2 * (a.centre.x - a.bannerAt.x) <= banner.w
  {
    var c := Centre(box);
    var r := Radius(box);
    var far := TruncDiv(r * 3, 2);
    var near := TruncDiv(r * 3, 10);
    var start := Point(c.x + far, c.y - far);
    Annotation(
      c,
      r,
      start,
      Point(c.x + near, c.y - near),
      "Icon Detected: (" + IntToString(c.x) + ", " + IntToString(c.y) + ")",
      Point(start.x + CaptionOffsetX, start.y - CaptionOffsetY),
      Point(c.x - banner.w / 2, c.y + r + banner.h + BannerGap))
  }

  /**
   `detect_icon`. `ocr` is the detector's output, or None when capturing or
   reading raised. Drawing a circle of negative radius raises as well, so a
   match whose box is inverted by two or more pixels on both axes also ends
   in the exception handler.
   */
  function DetectIcon(ocr: Option<seq<Triple>>, target: string, banner: Size): (d: Detection)
    ensures d.NoMatch? <==> ocr.Some? && forall i :: 0 <= i < |ocr.value| ==> !Matches(target, ocr.value[i])
    ensures Succeeded(d) <==> ocr.Some? && exists i :: IsFirstMatch(ocr.value, target, i) && Radius(ocr.value[i].box) >= 0
    ensures d.Annotated? ==> exists i :: (IsFirstMatch(ocr.value, target, i)
      && d.found == ocr.value[i] && d.annotation == Annotate(ocr.value[i].box, banner))
  {
    match ocr
    case None => Crashed
    case Some(results) =>
      match FirstMatch(results, target)
      case None => NoMatch
      case Some(i) =>
        if Radius(results[i].box) < 0 then Crashed else Annotated(results[i], Annotate(results[i].box, banner))
  }

  /** The annotated point is the point the text locator returns for the same detector output. */
  lemma DetectAgreesWithLocate(ocr: Option<seq<Triple>>, target: string, banner: Size)
    requires Succeeded(DetectIcon(ocr, target, banner))
    ensures LocateText(ocr, target) == Some(DetectIcon(ocr, target, banner).annotation.centre)
  {
    var i :| IsFirstMatch(ocr.value, target, i) && DetectIcon(ocr, target, banner).found == ocr.value[i];
    var k :| IsFirstMatch(ocr.value, target, k) && LocateText(ocr, target).value == Centre(ocr.value[k].box);
    FirstMatchUnique(ocr.value, target, i, k);
  }

  /**
   For boxes whose corner 2 is not both above and left of corner 0, detection
   succeeds exactly when some recognised text contains the label.
   */
  lemma DetectIffSomeMatch(ocr: Option<seq<Triple>>, target: string, banner: Size)
    requires ocr.Some?
    requires forall i :: 0 <= i < |ocr.value| ==>
      ocr.value[i].box.c0.x <= ocr.value[i].box.c2.x || ocr.value[i].box.c0.y <= ocr.value[i].box.c2.y
    ensures Succeeded(DetectIcon(ocr, target, banner)) <==> exists i :: 0 <= i < |ocr.value| && Matches(target, ocr.value[i])
  {
  }
}
