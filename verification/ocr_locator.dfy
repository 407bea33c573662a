/**
 The text-matching icon locator: given the text detector's output for one
 screenshot, the centre of the first detected text region whose text contains
 the target label, compared case-insensitively, or None.
 */
module OcrLocator {
  import opened Wrappers
  import opened Text
  import opened Geometry

  /** The label the drivers search for; it is lower-cased before comparison. */
  const TargetIconName: string := "Notepad"

  /** One detector result: bounding quadrilateral, recognised text and recognition confidence. */
  datatype Triple = Triple(box: Quad, text: string, prob: real)

  /** `target.lower() in text.lower()`. */
  predicate Matches(target: string, t: Triple) {
    Contains(Lower(t.text), Lower(target))
  }

  /** Triple `i` matches and no earlier triple does. */
  predicate IsFirstMatch(results: seq<Triple>, target: string, i: int) {
    0 <= i < |results| && Matches(target, results[i]) && forall j :: 0 <= j < i ==> !Matches(target, results[j])
  }

  /** The index of the first triple at or after `from` that matches `target`, in detector order. */
  function FirstMatchFrom(results: seq<Triple>, target: string, from: nat): (r: Option<nat>)
    requires from <= |results|
    decreases |results| - from
    ensures r.Some? ==> from <= r.value < |results| && Matches(target, results[r.value])
    ensures r.Some? ==> forall j :: from <= j < r.value ==> !Matches(target, results[j])
    ensures r.None? ==> forall j :: from <= j < |results| ==> !Matches(target, results[j])
  {
    if from == |results| then None
    else if Matches(target, results[from]) then Some(from)
    else FirstMatchFrom(results, target, from + 1)
  }

  /** There is only one first match. */
  lemma FirstMatchUnique(results: seq<Triple>, target: string, i: int, k: int)
    requires IsFirstMatch(results, target, i) && IsFirstMatch(results, target, k)
    ensures i == k
  {
  }

  /** The index of the first matching triple: no earlier triple matches, and None only when none matches. */
  function FirstMatch(results: seq<Triple>, target: string): (r: Option<nat>)
    ensures r.Some? ==> r.value < |results| && Matches(target, results[r.value])
    ensures r.Some? ==> forall j :: 0 <= j < r.value ==> !Matches(target, results[j])
    ensures r.None? <==> forall j :: 0 <= j < |results| ==> !Matches(target, results[j])
  {
    FirstMatchFrom(results, target, 0)
  }

  /**
   `get_icon_coordinates` of the text-matching driver. `ocr` is the detector's
   output for the screenshot, or None when capturing or reading raised (the
   handler then returns None).
   */
  function LocateText(ocr: Option<seq<Triple>>, target: string): (r: Option<Point>)
    ensures r.Some? <==> ocr.Some? && exists i :: 0 <= i < |ocr.value| && Matches(target, ocr.value[i])
    ensures r.Some? ==> exists i :: IsFirstMatch(ocr.value, target, i) && r.value == Centre(ocr.value[i].box)
  {
    match ocr
    case None => None
    case Some(results) =>
      match FirstMatch(results, target)
      case None => None
      case Some(i) => Some(Centre(results[i].box))
  }

  /** Two detector outputs that agree on every box and on every text up to letter case. */
  predicate SameUpToCaseAndProb(a: seq<Triple>, b: seq<Triple>) {
    |a| == |b| && forall i :: 0 <= i < |a| ==> a[i].box == b[i].box && Lower(a[i].text) == Lower(b[i].text)
  }

  /** The first-match index depends only on the boxes and the lower-cased texts and target. */
  lemma FirstMatchIgnoresCaseAndProb(a: seq<Triple>, b: seq<Triple>, ta: string, tb: string)
    requires SameUpToCaseAndProb(a, b) && Lower(ta) == Lower(tb)
    ensures FirstMatch(a, ta) == FirstMatch(b, tb)
  {
    assert forall i :: 0 <= i < |a| ==> (Matches(ta, a[i]) <==> Matches(tb, b[i]));
  }

  /** Changing the letter case of any text or of the target, or any confidence, leaves the result unchanged. */
  lemma LocateIgnoresCaseAndProb(a: seq<Triple>, b: seq<Triple>, ta: string, tb: string)
    requires SameUpToCaseAndProb(a, b) && Lower(ta) == Lower(tb)
    ensures LocateText(Some(a), ta) == LocateText(Some(b), tb)
  {
    FirstMatchIgnoresCaseAndProb(a, b, ta, tb);
  }

  /**
   Confidence is never consulted: a higher-confidence later match does not
   displace the first one, and rewriting every `prob` changes nothing.
   */
  lemma LocateIgnoresProb(results: seq<Triple>, probs: seq<real>, target: string)
    requires |probs| == |results|
    ensures LocateText(Some(results), target)
         == LocateText(Some(seq(|results|, i requires 0 <= i < |results| => results[i].(prob := probs[i]))), target)
  {
    var other := seq(|results|, i requires 0 <= i < |results| => results[i].(prob := probs[i]));
    assert SameUpToCaseAndProb(results, other);
    LocateIgnoresCaseAndProb(results, other, target, target);
  }

  /** A single region reading "Notepad Icon" in the box ((100,100),(150,100),(150,140),(100,140)) is located at (125,120). */
  lemma LocateExample(prob: real)
    ensures LocateText(Some([Triple(Quad(Point(100, 100), Point(150, 100), Point(150, 140), Point(100, 140)),
                                    "Notepad Icon", prob)]), TargetIconName)
         == Some(Point(125, 120))
  {
    var t := Triple(Quad(Point(100, 100), Point(150, 100), Point(150, 140), Point(100, 140)), "Notepad Icon", prob);
    assert Lower(TargetIconName) == "notepad";
    assert Lower(t.text) == "notepad icon";
    assert OccursAt(Lower(t.text), Lower(TargetIconName), 0);
    assert Matches(TargetIconName, t);
  }
}
