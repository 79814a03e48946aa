/**
 * The GPS location manager: pixel offsets to geographic coordinates and back, the target-area
 * check, and locating the GPS icon in a screenshot from per-template match scores.
 */
module Location {
  import opened Wrappers
  import opened PyOps
  import opened Settings
  import Arith

  datatype GeoPoint = GeoPoint(lat: real, lng: real)

  /**
   * Geographic point of a pixel offset from the reference point, for a given size of a pixel in
   * degrees: screen y grows southward (latitude falls), screen x grows eastward (longitude rises).
   */
  function Shift(px: int, py: int, ref: GeoPoint, cpp: PerPixel): (g: GeoPoint)
    requires cpp.lat > 0.0 && cpp.lng > 0.0
    ensures px == 0 && py == 0 ==> g == ref
    ensures (py > 0 ==> g.lat < ref.lat) && (py < 0 ==> g.lat > ref.lat) && (py == 0 ==> g.lat == ref.lat)
    ensures (px > 0 ==> g.lng > ref.lng) && (px < 0 ==> g.lng < ref.lng) && (px == 0 ==> g.lng == ref.lng)
  {
    var latOffset := (-py) as real * cpp.lat;
    var lngOffset := px as real * cpp.lng;
    assert py > 0 ==> latOffset < 0.0 by { if py > 0 { Arith.MulLtRight(0.0, py as real, cpp.lat); } }
    assert py < 0 ==> latOffset > 0.0 by { if py < 0 { Arith.MulLtRight(0.0, (-py) as real, cpp.lat); } }
    assert px > 0 ==> lngOffset > 0.0 by { if px > 0 { Arith.MulLtRight(0.0, px as real, cpp.lng); } }
    assert px < 0 ==> lngOffset < 0.0 by { if px < 0 { Arith.MulLtRight(0.0, (-px) as real, cpp.lng); } }
    GeoPoint(ref.lat + latOffset, ref.lng + lngOffset)
  }

  /**
   * Pixel offset of a target from the reference point, each axis truncated toward zero; a target
   * north of the reference has a non-positive y.
   */
  function Steps(target: GeoPoint, ref: GeoPoint, cpp: PerPixel): (p: (int, int))
    requires cpp.lat > 0.0 && cpp.lng > 0.0
    ensures target.lat >= ref.lat ==> p.1 <= 0
    ensures target.lat <= ref.lat ==> p.1 >= 0
    ensures target.lng >= ref.lng ==> p.0 >= 0
    ensures target.lng <= ref.lng ==> p.0 <= 0
  {
    var latDiff := target.lat - ref.lat;
    var lngDiff := target.lng - ref.lng;
    assert latDiff >= 0.0 ==> latDiff / cpp.lat >= 0.0;
    assert latDiff <= 0.0 ==> latDiff / cpp.lat <= 0.0;
    assert lngDiff >= 0.0 ==> lngDiff / cpp.lng >= 0.0;
    assert lngDiff <= 0.0 ==> lngDiff / cpp.lng <= 0.0;
    (Trunc(lngDiff / cpp.lng), -Trunc(latDiff / cpp.lat))
  }

  /**
   * `convert_pixel_to_coords` at the configured zoom: the centre pixel is the reference, a pixel
   * below it lies south and one to its right lies east.
   */
  function PixelToCoords(cfg: Config, px: int, py: int, ref: GeoPoint): (g: GeoPoint)
    ensures px == 0 && py == 0 ==> g == ref
    ensures (py > 0 ==> g.lat < ref.lat) && (py < 0 ==> g.lat > ref.lat) && (py == 0 ==> g.lat == ref.lat)
    ensures (px > 0 ==> g.lng > ref.lng) && (px < 0 ==> g.lng < ref.lng) && (px == 0 ==> g.lng == ref.lng)
  {
    Shift(px, py, ref, CoordinatePerPixel(cfg, None))
  }

  /**
   * `convert_coords_to_pixel` at the configured zoom: a target north of the reference is not
   * below the centre pixel, and one east of it is not to its left.
   */
  function CoordsToPixel(cfg: Config, target: GeoPoint, ref: GeoPoint): (p: (int, int))
    ensures target.lat >= ref.lat ==> p.1 <= 0
    ensures target.lat <= ref.lat ==> p.1 >= 0
    ensures target.lng >= ref.lng ==> p.0 >= 0
    ensures target.lng <= ref.lng ==> p.0 <= 0
  {
    Steps(target, ref, CoordinatePerPixel(cfg, None))
  }

  /** One axis of the coordinate round trip: truncating to whole steps stays within one step. */
  lemma AxisNear(d: real, c: real)
    requires c > 0.0
    ensures -c < (Trunc(d / c) as real) * c - d < c
  {
    var a := d / c;
    var t := Trunc(a) as real;
    TruncTowardZero(a);
    Arith.DivMulCancel(d, c);
    var e := t - a;
    assert -1.0 < e < 1.0;
    Arith.MulLtRight(-1.0, e, c);
    Arith.MulLtRight(e, 1.0, c);
    assert -1.0 * c == -c && 1.0 * c == c;
    assert e * c == t * c - a * c;
    assert t * c - d == e * c;
    assert -c < t * c - d < c;
  }

  /** One axis of the coordinate round trip, measured from the reference coordinate `base`. */
  lemma AxisTrip(base: real, x: real, c: real, n: int)
    requires c > 0.0 && n == Trunc((x - base) / c)
    ensures -c < (base + (n as real) * c) - x < c
  {
    AxisNear(x - base, c);
  }

  /** From pixels to coordinates and back returns the same pixel, exactly. */
  lemma ShiftThenSteps(px: int, py: int, ref: GeoPoint, cpp: PerPixel)
    requires cpp.lat > 0.0 && cpp.lng > 0.0
    ensures Steps(Shift(px, py, ref, cpp), ref, cpp) == (px, py)
  {
    var g := Shift(px, py, ref, cpp);
    assert g.lat - ref.lat == (-py) as real * cpp.lat;
    assert g.lng - ref.lng == px as real * cpp.lng;
    Arith.DivMulCancel((-py) as real, cpp.lat);
    Arith.DivMulCancel(px as real, cpp.lng);
    assert (g.lat - ref.lat) / cpp.lat == (-py) as real;
    assert (g.lng - ref.lng) / cpp.lng == px as real;
    TruncOfInt(-py);
    TruncOfInt(px);
    assert Steps(g, ref, cpp) == (Trunc(px as real), -Trunc((-py) as real));
  }

  /** From coordinates to pixels and back lands less than one pixel away on each axis. */
  lemma StepsThenShift(target: GeoPoint, ref: GeoPoint, cpp: PerPixel)
    requires cpp.lat > 0.0 && cpp.lng > 0.0
    ensures var p := Steps(target, ref, cpp);
            var g := Shift(p.0, p.1, ref, cpp);
            -cpp.lat < g.lat - target.lat < cpp.lat && -cpp.lng < g.lng - target.lng < cpp.lng
  {
    StepsThenShiftLat(target, ref, cpp);
    StepsThenShiftLng(target, ref, cpp);
  }

  lemma StepsThenShiftLat(target: GeoPoint, ref: GeoPoint, cpp: PerPixel)
    requires cpp.lat > 0.0 && cpp.lng > 0.0
    ensures var p := Steps(target, ref, cpp);
            -cpp.lat < Shift(p.0, p.1, ref, cpp).lat - target.lat < cpp.lat
  {
    var p := Steps(target, ref, cpp);
    var n := -p.1;
    assert n == Trunc((target.lat - ref.lat) / cpp.lat);
    assert Shift(p.0, p.1, ref, cpp).lat == ref.lat + (n as real) * cpp.lat;
    AxisTrip(ref.lat, target.lat, cpp.lat, n);
  }

  lemma StepsThenShiftLng(target: GeoPoint, ref: GeoPoint, cpp: PerPixel)
    requires cpp.lat > 0.0 && cpp.lng > 0.0
    ensures var p := Steps(target, ref, cpp);
            -cpp.lng < Shift(p.0, p.1, ref, cpp).lng - target.lng < cpp.lng
  {
    var p := Steps(target, ref, cpp);
    assert p.0 == Trunc((target.lng - ref.lng) / cpp.lng);
    assert Shift(p.0, p.1, ref, cpp).lng == ref.lng + (p.0 as real) * cpp.lng;
    AxisTrip(ref.lng, target.lng, cpp.lng, p.0);
  }

  /** The pixel round trip at the configured zoom. */
  lemma PixelRoundTrip(cfg: Config, px: int, py: int, ref: GeoPoint)
    ensures CoordsToPixel(cfg, PixelToCoords(cfg, px, py, ref), ref) == (px, py)
  {
    ShiftThenSteps(px, py, ref, CoordinatePerPixel(cfg, None));
  }

  /** The coordinate round trip at the configured zoom: within one pixel's span of degrees. */
  lemma CoordsRoundTrip(cfg: Config, target: GeoPoint, ref: GeoPoint)
    ensures var p := CoordsToPixel(cfg, target, ref);
            var g := PixelToCoords(cfg, p.0, p.1, ref);
            var cpp := CoordinatePerPixel(cfg, None);
            -cpp.lat < g.lat - target.lat < cpp.lat && -cpp.lng < g.lng - target.lng < cpp.lng
  {
    StepsThenShift(target, ref, CoordinatePerPixel(cfg, None));
  }

  /** The target-area check, inclusive on all four edges. */
  predicate InTargetArea(cfg: Config, p: GeoPoint) {
    cfg.bounds.south <= p.lat <= cfg.bounds.north && cfg.bounds.west <= p.lng <= cfg.bounds.east
  }

  /** Every corner of an ordered box passes the check. */
  lemma TargetAreaInclusive(cfg: Config)
    requires cfg.bounds.Ordered()
    ensures InTargetArea(cfg, GeoPoint(cfg.bounds.north, cfg.bounds.west))
    ensures InTargetArea(cfg, GeoPoint(cfg.bounds.north, cfg.bounds.east))
    ensures InTargetArea(cfg, GeoPoint(cfg.bounds.south, cfg.bounds.west))
    ensures InTargetArea(cfg, GeoPoint(cfg.bounds.south, cfg.bounds.east))
  {
  }

  /**
   * What template matching reports for one template: the best normalised correlation score,
   * where it was found (top-left corner) and the template size.
   */
  datatype TemplateScan = TemplateScan(maxVal: real, maxLocX: int, maxLocY: int, templateWidth: nat, templateHeight: nat)

  datatype IconMatch = IconMatch(centerX: int, centerY: int, confidence: real)

  /** A template matches only with a score above 0.5; the match is centred on the template. */
  function MatchTemplate(scan: TemplateScan): (m: Option<IconMatch>)
    ensures m.Some? <==> scan.maxVal > 0.5
    ensures m.Some? ==> m.value.confidence == scan.maxVal
    ensures m.Some? ==> scan.maxLocX <= m.value.centerX <= scan.maxLocX + scan.templateWidth
    ensures m.Some? ==> scan.maxLocY <= m.value.centerY <= scan.maxLocY + scan.templateHeight
  {
    if scan.maxVal > 0.5 then
      Some(IconMatch(scan.maxLocX + scan.templateWidth / 2, scan.maxLocY + scan.templateHeight / 2, scan.maxVal))
    else None
  }

  function ConfidenceOf(m: Option<IconMatch>): real {
    if m.Some? then m.value.confidence else 0.0
  }

  /**
   * The running best match over the templates in order: a later template replaces the best one
   * only with a strictly higher score.
   */
  function BestMatch(scans: seq<TemplateScan>): Option<IconMatch>
    decreases |scans|
  {
    if scans == [] then None
    else
      var prev := BestMatch(scans[..|scans| - 1]);
      var m := MatchTemplate(scans[|scans| - 1]);
      if m.Some? && m.value.confidence > ConfidenceOf(prev) then m else prev
  }

  /** Template `k` scores strictly higher than every template before it. */
  predicate FirstToReach(scans: seq<TemplateScan>, k: int)
    requires 0 <= k < |scans|
  {
    forall j :: 0 <= j < k ==> scans[j].maxVal < scans[k].maxVal
  }

  /**
   * The best match is accepted exactly when some score exceeds 0.5, and its confidence is at
   * least every score above 0.5.
   */
  lemma {:induction false} BestMatchIsMaximum(scans: seq<TemplateScan>)
    ensures BestMatch(scans).Some? <==> exists i :: 0 <= i < |scans| && scans[i].maxVal > 0.5
    ensures BestMatch(scans).Some? ==> ConfidenceOf(BestMatch(scans)) > 0.5
    ensures forall j :: 0 <= j < |scans| && scans[j].maxVal > 0.5 ==> scans[j].maxVal <= ConfidenceOf(BestMatch(scans))
    decreases |scans|
  {
    if scans != [] {
      var n := |scans| - 1;
      BestMatchIsMaximum(scans[..n]);
      assert forall i :: 0 <= i < n ==> scans[..n][i] == scans[i];
    }
  }

  /** The best match is the match of the first template that reaches the best score. */
  lemma {:induction false} BestMatchIsFirst(scans: seq<TemplateScan>)
    ensures BestMatch(scans).Some? ==>
              exists k :: 0 <= k < |scans| && BestMatch(scans) == MatchTemplate(scans[k]) && FirstToReach(scans, k)
    decreases |scans|
  {
    if scans != [] {
      var n := |scans| - 1;
      var init := scans[..n];
      BestMatchIsFirst(init);
      BestMatchIsMaximum(init);
      var prev := BestMatch(init);
      var m := MatchTemplate(scans[n]);
      if m.Some? && m.value.confidence > ConfidenceOf(prev) {
        assert forall j :: 0 <= j < n ==> scans[j] == init[j];
        assert forall j :: 0 <= j < n ==> init[j].maxVal <= ConfidenceOf(prev) || init[j].maxVal <= 0.5;
        assert FirstToReach(scans, n);
      } else if prev.Some? {
        var k :| 0 <= k < n && prev == MatchTemplate(init[k]) && FirstToReach(init, k);
        assert forall j :: 0 <= j <= k ==> scans[j] == init[j];
        assert FirstToReach(scans, k);
      }
    }
  }

  /** The icon is accepted exactly when some template scores above 0.7. */
  lemma IconAcceptedIff(scans: seq<TemplateScan>)
    ensures (BestMatch(scans).Some? && ConfidenceOf(BestMatch(scans)) > 0.7)
              <==> exists i :: 0 <= i < |scans| && scans[i].maxVal > 0.7
  {
    BestMatchIsMaximum(scans);
    BestMatchIsFirst(scans);
    if BestMatch(scans).Some? {
      var k :| 0 <= k < |scans| && BestMatch(scans) == MatchTemplate(scans[k]) && FirstToReach(scans, k);
      assert ConfidenceOf(BestMatch(scans)) == scans[k].maxVal;
    }
  }

  /**
   * `find_gps_icon_in_screenshot` given the template scores: no templates or an unreadable
   * screenshot give `None`; otherwise the best match is kept and accepted above 0.7.
   */
  method FindGpsIcon(screenshotReadable: bool, scans: seq<TemplateScan>) returns (pos: Option<(int, int)>)
    ensures pos == if scans != [] && screenshotReadable && BestMatch(scans).Some? && ConfidenceOf(BestMatch(scans)) > 0.7
                   then Some((BestMatch(scans).value.centerX, BestMatch(scans).value.centerY))
                   else None
  {
    if scans == [] {
      return None;
    }
    if !screenshotReadable {
      return None;
    }
    var bestMatch: Option<IconMatch> := None;
    var bestConfidence := 0.0;
    var i := 0;
    while i < |scans|
      invariant 0 <= i <= |scans|
      invariant bestMatch == BestMatch(scans[..i])
      invariant bestConfidence == ConfidenceOf(bestMatch)
    {
      var matchResult := MatchTemplate(scans[i]);
      assert scans[..i + 1][..i] == scans[..i];
      if matchResult.Some? && matchResult.value.confidence > bestConfidence {
        bestConfidence := matchResult.value.confidence;
        bestMatch := matchResult;
      }
      i := i + 1;
    }
    assert scans[..|scans|] == scans;
    if bestMatch.Some? && bestConfidence > 0.7 {
      return Some((bestMatch.value.centerX, bestMatch.value.centerY));
    }
    return None;
  }

  /**
   * `calculate_location_from_image` given the icon position: the offset of the icon from the
   * screen centre is converted to degrees around the reference; the result is used only when it
   * lies in the target area, and the reference is returned otherwise.
   */
  function CalculateLocationFromImage(cfg: Config, icon: Option<(int, int)>, ref: GeoPoint): (loc: GeoPoint)
    ensures loc == ref || InTargetArea(cfg, loc)
    ensures icon.None? ==> loc == ref
    ensures icon.Some? ==>
              var moved := PixelToCoords(cfg, icon.value.0 - cfg.screenWidth / 2, icon.value.1 - cfg.screenHeight / 2, ref);
              loc == if InTargetArea(cfg, moved) then moved else ref
  {
    if icon.None? then ref
    else
      var offsetX := icon.value.0 - cfg.screenWidth / 2;
      var offsetY := icon.value.1 - cfg.screenHeight / 2;
      var actual := PixelToCoords(cfg, offsetX, offsetY, ref);
      if InTargetArea(cfg, actual) then actual else ref
  }
}
