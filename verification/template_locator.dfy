/**
 The template-matching icon locator: the reference icon is tried at five
 scales, each usable scale contributes the peak of its correlation map, the
 highest peak wins (earlier scales win ties), and the winner is accepted only
 when its confidence reaches the threshold.
 */
module TemplateLocator {
  import opened Wrappers
  import opened Geometry

  /** The scale factors 1.0, 0.8, 1.2, 0.6, 1.4, in search order, as numerators over `ScaleDenominator`. */
  const ScaleNumerators: seq<nat> := [5, 4, 6, 3, 7]
  const ScaleDenominator: nat := 5
  /** A resized template narrower or shorter than this is skipped. */
  const MinSide: nat := 10
  /** The default acceptance threshold for the winning confidence. */
  const Threshold: real := 0.7

  /** The reference image: absent from disk, present but unreadable, or loaded with its size. */
  datatype TemplateImage = Missing | Unreadable | Loaded(size: Size)

  /** The global maximum of one correlation map and where it lies (the map's top-left alignment). */
  datatype Peak = Peak(conf: real, loc: Point)

  /** One usable scale, identified by its position in the scale list, with the peak found at that scale. */
  datatype ScaleCandidate = ScaleCandidate(scale: nat, size: Size, conf: real, loc: Point)

  /** `int(n * factor)` for scale number `k`, with the factor taken as an exact fraction. */
  function ScaleSide(n: nat, k: nat): nat
    requires k < |ScaleNumerators|
  {
    n * ScaleNumerators[k] / ScaleDenominator
  }

  /** The size of the template resized by scale number `k`. */
  function ScaledSize(t: Size, k: nat): Size
    requires k < |ScaleNumerators|
  {
    Size(ScaleSide(t.w, k), ScaleSide(t.h, k))
  }

  /** A resized template is matched only if both sides are at least `MinSide` and fit in the screenshot. */
  predicate Usable(s: Size, screen: Size) {
    MinSide <= s.w <= screen.w && MinSide <= s.h <= screen.h
  }

  /** `c` is what scale number `c.scale` contributes for template `t`, screenshot `screen` and correlation `correlate`. */
  predicate Measured(c: ScaleCandidate, t: Size, screen: Size, correlate: Size -> Peak) {
    && c.scale < |ScaleNumerators|
    && c.size == ScaledSize(t, c.scale)
    && Usable(c.size, screen)
    && c.conf == correlate(c.size).conf
    && c.loc == correlate(c.size).loc
  }

  /** The candidates of the usable scales from number `k` on, in scale-list order. */
  function CandidatesFrom(t: Size, screen: Size, correlate: Size -> Peak, k: nat): (cs: seq<ScaleCandidate>)
    requires k <= |ScaleNumerators|
    decreases |ScaleNumerators| - k
    ensures forall i :: 0 <= i < |cs| ==> k <= cs[i].scale && Measured(cs[i], t, screen, correlate)
    ensures forall i, j :: 0 <= i < j < |cs| ==> cs[i].scale < cs[j].scale
    ensures forall s :: k <= s < |ScaleNumerators| && Usable(ScaledSize(t, s), screen) ==>
      exists c :: c in cs && c.scale == s
  {
    if k == |ScaleNumerators| then []
    else
      var size := ScaledSize(t, k);
      var rest := CandidatesFrom(t, screen, correlate, k + 1);
      if Usable(size, screen) then
        var peak := correlate(size);
        [ScaleCandidate(k, size, peak.conf, peak.loc)] + rest
      else
        rest
  }

  /** The candidates of all usable scales, in scale-list order. */
  function Candidates(t: Size, screen: Size, correlate: Size -> Peak): (cs: seq<ScaleCandidate>)
    ensures forall i :: 0 <= i < |cs| ==> Measured(cs[i], t, screen, correlate)
    ensures forall i, j :: 0 <= i < j < |cs| ==> cs[i].scale < cs[j].scale
    ensures forall s :: 0 <= s < |ScaleNumerators| && Usable(ScaledSize(t, s), screen) ==>
      exists c :: c in cs && c.scale == s
  {
    CandidatesFrom(t, screen, correlate, 0)
  }

  /** A scale number contributes a candidate exactly when its resized template is usable. */
  lemma CandidateIffUsable(t: Size, screen: Size, correlate: Size -> Peak, s: nat)
    ensures (exists c :: c in Candidates(t, screen, correlate) && c.scale == s)
        <==> s < |ScaleNumerators| && Usable(ScaledSize(t, s), screen)
  {
    var cs := Candidates(t, screen, correlate);
    if c :| c in cs && c.scale == s {
      var i :| 0 <= i < |cs| && cs[i] == c;
      assert Measured(cs[i], t, screen, correlate);
    }
  }

  /**
   Candidate `k` is the running best after the first `n` candidates: it is
   positive, nothing among them exceeds it, and everything before it is
   strictly below it.
   */
  predicate BestUpTo(cs: seq<ScaleCandidate>, n: int, k: int) {
    && 0 <= k < n <= |cs|
    && cs[k].conf > 0.0
    && (forall j :: 0 <= j < n ==> cs[j].conf <= cs[k].conf)
    && (forall j :: 0 <= j < k ==> cs[j].conf < cs[k].conf)
  }

  /**
   The running-best fold over candidates `n..`: starting from confidence 0
   and no location, a candidate replaces the best only if strictly greater.
   */
  function Scan(cs: seq<ScaleCandidate>, n: nat, best: real, bestIdx: Option<nat>): (r: Option<nat>)
    requires n <= |cs|
    requires bestIdx.None? ==> best == 0.0 && forall j :: 0 <= j < n ==> cs[j].conf <= 0.0
    requires bestIdx.Some? ==> BestUpTo(cs, n, bestIdx.value) && best == cs[bestIdx.value].conf
    decreases |cs| - n
    ensures r.None? ==> forall j :: 0 <= j < |cs| ==> cs[j].conf <= 0.0
    ensures r.Some? ==> BestUpTo(cs, |cs|, r.value)
  {
    if n == |cs| then bestIdx
    else if cs[n].conf > best then Scan(cs, n + 1, cs[n].conf, Some(n))
    else Scan(cs, n + 1, best, bestIdx)
  }

  /** The index of the winning candidate, or None when no candidate exceeds 0. */
  function SelectBest(cs: seq<ScaleCandidate>): (r: Option<nat>)
    ensures r.None? <==> forall j :: 0 <= j < |cs| ==> cs[j].conf <= 0.0
    ensures r.Some? ==> BestUpTo(cs, |cs|, r.value)
  {
    Scan(cs, 0, 0.0, None)
  }

  /** The confidence that scale number `k` yields. */
  function ScaleConf(t: Size, correlate: Size -> Peak, k: nat): real
    requires k < |ScaleNumerators|
  {
    correlate(ScaledSize(t, k)).conf
  }

  /**
   Scale number `k` wins: it is usable, its confidence is positive and the
   maximum over all usable scales, and every earlier usable scale is strictly
   below it.
   */
  predicate ScaleWins(t: Size, screen: Size, correlate: Size -> Peak, k: nat) {
    && k < |ScaleNumerators|
    && Usable(ScaledSize(t, k), screen)
    && ScaleConf(t, correlate, k) > 0.0
    && (forall s :: 0 <= s < |ScaleNumerators| && Usable(ScaledSize(t, s), screen) ==>
          ScaleConf(t, correlate, s) <= ScaleConf(t, correlate, k))
    && (forall s :: 0 <= s < k && Usable(ScaledSize(t, s), screen) ==>
          ScaleConf(t, correlate, s) < ScaleConf(t, correlate, k))
  }

  /** At most one scale wins. */
  lemma ScaleWinsUnique(t: Size, screen: Size, correlate: Size -> Peak, a: nat, b: nat)
    requires ScaleWins(t, screen, correlate, a) && ScaleWins(t, screen, correlate, b)
    ensures a == b
  {
  }

  /**
   In any scale-ordered list holding exactly the usable scales' candidates,
   the best candidate's scale is the winning scale.
   */
  lemma BestCandidateWins(cs: seq<ScaleCandidate>, t: Size, screen: Size, correlate: Size -> Peak, i: nat)
    requires forall j :: 0 <= j < |cs| ==> Measured(cs[j], t, screen, correlate)
    requires forall j, l :: 0 <= j < l < |cs| ==> cs[j].scale < cs[l].scale
    requires forall s :: 0 <= s < |ScaleNumerators| && Usable(ScaledSize(t, s), screen) ==>
      exists c :: c in cs && c.scale == s
    requires BestUpTo(cs, |cs|, i)
    ensures ScaleWins(t, screen, correlate, cs[i].scale)
  {
    var k := cs[i].scale;
    assert Measured(cs[i], t, screen, correlate);
    forall s | 0 <= s < |ScaleNumerators| && Usable(ScaledSize(t, s), screen)
      ensures ScaleConf(t, correlate, s) <= ScaleConf(t, correlate, k)
      ensures s < k ==> ScaleConf(t, correlate, s) < ScaleConf(t, correlate, k)
    {
      var c :| c in cs && c.scale == s;
      var j :| 0 <= j < |cs| && cs[j] == c;
      assert Measured(cs[j], t, screen, correlate);
      if s < k {
        assert j < i;
      }
    }
  }

  /** The scale the fold selects, or None when no usable scale has a positive peak. */
  function WinningScale(t: Size, screen: Size, correlate: Size -> Peak): (r: Option<nat>)
    ensures r.Some? ==> ScaleWins(t, screen, correlate, r.value)
    ensures r.None? <==> forall s :: 0 <= s < |ScaleNumerators| && Usable(ScaledSize(t, s), screen) ==>
      ScaleConf(t, correlate, s) <= 0.0
  {
    var cs := Candidates(t, screen, correlate);
    match SelectBest(cs)
    case None => None
    case Some(i) =>
      BestCandidateWins(cs, t, screen, correlate, i);
      Some(cs[i].scale)
  }

  /** The centre of the resized template of scale number `k` placed at its peak location. */
  function PeakCentre(t: Size, correlate: Size -> Peak, k: nat): Point
    requires k < |ScaleNumerators|
  {
    var size := ScaledSize(t, k);
    Point(correlate(size).loc.x + size.w / 2, correlate(size).loc.y + size.h / 2)
  }

  /**
   `get_icon_coordinates` of the template-matching driver. `screen` is the
   screenshot's size, or None when capturing raised; `correlate` gives the
   peak of the normalised correlation map of the screenshot against the
   template resized to a given size; `tau` is the acceptance threshold.
   */
  function LocateTemplate(template: TemplateImage, screen: Option<Size>, correlate: Size -> Peak, tau: real): (r: Option<Point>)
    ensures !template.Loaded? ==> r.None?
    ensures r.Some? <==> (template.Loaded? && screen.Some?
      && exists k :: ScaleWins(template.size, screen.value, correlate, k) && ScaleConf(template.size, correlate, k) >= tau)
    ensures r.Some? ==> exists k :: (ScaleWins(template.size, screen.value, correlate, k)
      && ScaleConf(template.size, correlate, k) >= tau && r.value == PeakCentre(template.size, correlate, k))
  {
    match template
    case Missing => None
    case Unreadable => None
    case Loaded(t) =>
      match screen
      case None => None
      case Some(sc) =>
        match WinningScale(t, sc, correlate)
        case None => None
        case Some(k) =>
          if ScaleConf(t, correlate, k) >= tau then Some(PeakCentre(t, correlate, k)) else None
  }

  /** The result is decided by the winning scale alone: its centre if its confidence reaches `tau`, else None. */
  lemma LocateAtWinner(t: Size, screen: Size, correlate: Size -> Peak, tau: real, k: nat)
    requires ScaleWins(t, screen, correlate, k)
    ensures LocateTemplate(Loaded(t), Some(screen), correlate, tau)
         == if ScaleConf(t, correlate, k) >= tau then Some(PeakCentre(t, correlate, k)) else None
  {
    ScaleWinsUnique(t, screen, correlate, WinningScale(t, screen, correlate).value, k);
  }

  /** A point is found exactly when some usable scale's peak is positive and reaches the threshold. */
  lemma LocatedIffSomeScaleConfident(t: Size, screen: Size, correlate: Size -> Peak, tau: real)
    ensures LocateTemplate(Loaded(t), Some(screen), correlate, tau).Some?
        <==> exists k :: 0 <= k < |ScaleNumerators| && Usable(ScaledSize(t, k), screen)
               && ScaleConf(t, correlate, k) > 0.0 && ScaleConf(t, correlate, k) >= tau
  {
    forall k | 0 <= k < |ScaleNumerators| && Usable(ScaledSize(t, k), screen)
               && ScaleConf(t, correlate, k) > 0.0 && ScaleConf(t, correlate, k) >= tau
      ensures LocateTemplate(Loaded(t), Some(screen), correlate, tau).Some?
    {
      var w := WinningScale(t, screen, correlate);
      assert w.Some?;
    }
  }

  /** When two usable scales tie for the best confidence, the later one in the scale list is never chosen. */
  lemma TieGoesToEarlierScale(t: Size, screen: Size, correlate: Size -> Peak, j: nat, k: nat)
    requires j < k < |ScaleNumerators|
    requires Usable(ScaledSize(t, j), screen)
    requires ScaleConf(t, correlate, j) == ScaleConf(t, correlate, k)
    ensures WinningScale(t, screen, correlate) != Some(k)
  {
  }

  /** The peak location lies inside the correlation map of a template of size `s` over the screenshot. */
  predicate InMap(p: Point, s: Size, screen: Size) {
    0 <= p.x <= screen.w - s.w && 0 <= p.y <= screen.h - s.h
  }

  /** When every peak lies inside its correlation map, a found point lies inside the screenshot. */
  lemma LocatedPointOnScreen(t: Size, screen: Size, correlate: Size -> Peak, tau: real)
    requires forall s: Size :: Usable(s, screen) ==> InMap(correlate(s).loc, s, screen)
    ensures LocateTemplate(Loaded(t), Some(screen), correlate, tau).Some? ==>
      var p := LocateTemplate(Loaded(t), Some(screen), correlate, tau).value;
      0 <= p.x < screen.w && 0 <= p.y < screen.h
  {
    var w := WinningScale(t, screen, correlate);
    if w.Some? {
      var size := ScaledSize(t, w.value);
      assert InMap(correlate(size).loc, size, screen);
    }
  }

  /** Peaks of 0.55 at 16 px wide, 0.72 at 12 px and 0.40 at any other width. */
  function ExampleCorrelation(s: Size): Peak {
    if s.w == 16 then Peak(0.55, Point(1, 1)) else if s.w == 12 then Peak(0.72, Point(3, 4)) else Peak(0.40, Point(0, 0))
  }

  /**
   A 16x16 template on a 20x20 screenshot: scale 0.6 gives 9 px and scale 1.4
   gives 22 px, so both are skipped; peaks 0.55 (1.0), 0.72 (0.8) and 0.40 (1.2)
   select scale 0.8, whose 12x12 template centre is reported whenever the
   threshold is at most 0.72 (so for the default 0.7), and nothing otherwise.
   */
  lemma ThresholdExample(tau: real)
    ensures LocateTemplate(Loaded(Size(16, 16)), Some(Size(20, 20)), ExampleCorrelation, tau)
         == if tau <= 0.72 then Some(Point(9, 10)) else None
  {
    ExampleWinner();
    ExampleCentre();
    LocateAtWinner(Size(16, 16), Size(20, 20), ExampleCorrelation, tau, 1);
  }

  /** In that example scale 0.8, the second in the list, wins with confidence 0.72. */
  lemma ExampleWinner()
    ensures ScaleWins(Size(16, 16), Size(20, 20), ExampleCorrelation, 1)
    ensures ScaleConf(Size(16, 16), ExampleCorrelation, 1) == 0.72
  {
    var t := Size(16, 16);
    assert ScaledSize(t, 0) == Size(16, 16);
    assert ScaledSize(t, 1) == Size(12, 12);
    assert ScaledSize(t, 2) == Size(19, 19);
    assert ScaledSize(t, 3) == Size(9, 9);
    assert ScaledSize(t, 4) == Size(22, 22);
  }

  /** ... and its 12x12 template placed at (3,4) has centre (9,10). */
  lemma ExampleCentre()
    ensures PeakCentre(Size(16, 16), ExampleCorrelation, 1) == Point(9, 10)
  {
  }
}
