/**
 * The hexagon detector: which colour contours are order-zone hexagons, how duplicate detections
 * are merged, how a detection is scored, and where it lies on the map's geographic box. OpenCV's
 * measurements of each contour are inputs.
 */
module Hexagons {
  import opened Wrappers
  import opened PyOps
  import opened Settings
  import Arith
  import Sorting
  import Stitcher

  datatype ColorType = DarkOrange | LightOrange

  /**
   * OpenCV's measurements of one contour: `contourArea`, the vertex count of `approxPolyDP`,
   * `boundingRect`, the area of `convexHull`, the moments `m00`, `m10`, `m01`, and `arcLength`.
   */
  datatype ContourFeatures = ContourFeatures(
    area: real, vertices: nat, x: int, y: int, w: nat, h: nat,
    hullArea: real, m00: real, m10: real, m01: real, perimeter: real)

  /** A detected hexagon: its centre, its measurements and the colour range it was found in. */
  datatype Hexagon = Hexagon(
    centerX: int, centerY: int, area: real, x: int, y: int, w: nat, h: nat, vertices: nat,
    aspectRatio: real, solidity: real, circularity: real, color: ColorType, perimeter: real)

  /** `np.pi` as a decimal constant. */
  const Pi: real := 3.141592653589793

  // ---------------------------------------------------------------------------------------------
  // Classifying one contour

  /** The centre of mass from the moments, or the centre of the bounding box when `m00` is zero. */
  function Centroid(f: ContourFeatures): (c: (int, int))
    ensures f.m00 == 0.0 ==> f.x <= c.0 <= f.x + f.w && f.y <= c.1 <= f.y + f.h
  {
    if f.m00 != 0.0 then (Trunc(f.m10 / f.m00), Trunc(f.m01 / f.m00))
    else (f.x + f.w / 2, f.y + f.h / 2)
  }

  /** `4 pi area / perimeter^2`, zero for a zero perimeter. */
  function Circularity(area: real, perimeter: real): real {
    if perimeter > 0.0 then 4.0 * Pi * area / (perimeter * perimeter) else 0.0
  }

  /** The shape tests a hexagon passes, as bounds on the measured ratios. */
  predicate Qualifies(h: Hexagon) {
    h.area >= 50.0 && 4 <= h.vertices <= 8 && 0.5 <= h.aspectRatio <= 2.0
    && h.solidity >= 0.7 && 0.3 <= h.circularity <= 1.0
  }

  /**
   * `_analyze_contour`: the guards in order (area, vertex count, aspect ratio, solidity when the
   * hull has area, circularity). Without a positive hull area `solidity` is never bound and
   * building the result raises, which the handler turns into `None`.
   */
  function AnalyzeContour(f: ContourFeatures, color: ColorType): (r: Option<Hexagon>)
    ensures r.Some? ==> Qualifies(r.value) && r.value.color == color
    ensures r.Some? ==> r.value.area == f.area && r.value.vertices == f.vertices
                        && (r.value.centerX, r.value.centerY) == Centroid(f)
                        && (r.value.x, r.value.y, r.value.w, r.value.h) == (f.x, f.y, f.w, f.h)
    ensures r.Some? ==> f.h > 0 && f.hullArea > 0.0
                        && r.value.aspectRatio == f.w as real / f.h as real
                        && r.value.solidity == f.area / f.hullArea
                        && r.value.circularity == Circularity(f.area, f.perimeter)
                        && r.value.perimeter == f.perimeter
    ensures f.h == 0 || f.hullArea <= 0.0 ==> r.None?
  {
    if f.area < 50.0 then None
    else if f.vertices < 4 || f.vertices > 8 then None
    else
      var aspectRatio := if f.h > 0 then f.w as real / f.h as real else 0.0;
      if aspectRatio < 0.5 || aspectRatio > 2.0 then None
      else if f.hullArea > 0.0 && f.area / f.hullArea < 0.7 then None
      else
        var c := Centroid(f);
        var circularity := Circularity(f.area, f.perimeter);
        if circularity < 0.3 || circularity > 1.0 then None
        else if f.hullArea <= 0.0 then None
        else Some(Hexagon(c.0, c.1, f.area, f.x, f.y, f.w, f.h, f.vertices, aspectRatio,
                          f.area / f.hullArea, circularity, color, f.perimeter))
  }

  /** The acceptance rule with the aspect and solidity ratios cross-multiplied. */
  predicate Acceptable(f: ContourFeatures) {
    f.area >= 50.0 && 4 <= f.vertices <= 8
    && f.h > 0 && 0.5 * (f.h as real) <= f.w as real <= 2.0 * (f.h as real)
    && f.hullArea > 0.0 && f.area >= 0.7 * f.hullArea
    && 0.3 <= Circularity(f.area, f.perimeter) <= 1.0
  }

  /** A contour is accepted exactly when all of its measurements are within the bounds. */
  lemma AnalyzeContourAccepts(f: ContourFeatures, color: ColorType)
    ensures AnalyzeContour(f, color).Some? <==> Acceptable(f)
  {
    if f.h > 0 {
      Arith.DivAtLeast(f.w as real, f.h as real, 0.5);
      Arith.DivAtMost(f.w as real, f.h as real, 2.0);
    }
    if f.hullArea > 0.0 {
      Arith.DivAtLeast(f.area, f.hullArea, 0.7);
    }
  }

  /** The contours of one colour that pass, in contour order. */
  function Accepted(contours: seq<ContourFeatures>, color: ColorType): (r: seq<Hexagon>)
    ensures |r| <= |contours|
    ensures forall i :: 0 <= i < |r| ==> Qualifies(r[i]) && r[i].color == color
    decreases |contours|
  {
    if contours == [] then []
    else
      var prev := Accepted(contours[..|contours| - 1], color);
      match AnalyzeContour(contours[|contours| - 1], color)
      case Some(h) => prev + [h]
      case None => prev
  }

  /** The contour loop of `_detect_color_hexagons`. */
  method DetectColorHexagons(contours: seq<ContourFeatures>, color: ColorType) returns (hexagons: seq<Hexagon>)
    ensures hexagons == Accepted(contours, color)
  {
    hexagons := [];
    for i := 0 to |contours|
      invariant hexagons == Accepted(contours[..i], color)
    {
      assert contours[..i + 1][..i] == contours[..i];
      var info := AnalyzeContour(contours[i], color);
      if info.Some? {
        hexagons := hexagons + [info.value];
      }
    }
    assert contours[..|contours|] == contours;
  }

  // ---------------------------------------------------------------------------------------------
  // Merging duplicates

  function AreaOf(h: Hexagon): real {
    h.area
  }

  function DistSq(a: Hexagon, b: Hexagon): int {
    (a.centerX - b.centerX) * (a.centerX - b.centerX) + (a.centerY - b.centerY) * (a.centerY - b.centerY)
  }

  /** Centre distance threshold in pixels. */
  const DistanceThreshold: int := 50

  /** `np.sqrt(d2) < 50`, decided on the squared distance. */
  predicate Near(a: Hexagon, b: Hexagon) {
    DistSq(a, b) < DistanceThreshold * DistanceThreshold
  }

  lemma NearSymmetric(a: Hexagon, b: Hexagon)
    ensures Near(a, b) <==> Near(b, a)
  {
    assert (a.centerX - b.centerX) * (a.centerX - b.centerX) == (b.centerX - a.centerX) * (b.centerX - a.centerX);
    assert (a.centerY - b.centerY) * (a.centerY - b.centerY) == (b.centerY - a.centerY) * (b.centerY - a.centerY);
  }

  /** Index of the first kept hexagon near `h`, or `|s|` when there is none. */
  function FirstNear(s: seq<Hexagon>, h: Hexagon): (k: nat)
    ensures k <= |s|
    ensures k < |s| ==> Near(h, s[k])
    ensures forall j :: 0 <= j < k ==> !Near(h, s[j])
  {
    if s == [] then 0
    else if Near(h, s[0]) then 0
    else
      var k := FirstNear(s[1..], h);
      assert forall j :: 1 <= j < k + 1 ==> s[j] == s[1..][j - 1];
      1 + k
  }

  /** `list.remove(x)`: drops the first element equal to `x` (the list is unchanged when there is none). */
  function RemoveFirst<T(==)>(s: seq<T>, x: T): (r: seq<T>)
    ensures x in s ==> |r| == |s| - 1
  {
    if s == [] then []
    else if s[0] == x then s[1..]
    else [s[0]] + RemoveFirst(s[1..], x)
  }

  /** One hexagon of the merge loop: kept when no kept one is near, replacing the first near one when strictly larger. */
  function MergeStep(filtered: seq<Hexagon>, h: Hexagon): seq<Hexagon> {
    var k := FirstNear(filtered, h);
    if k == |filtered| then filtered + [h]
    else if h.area > filtered[k].area then RemoveFirst(filtered, filtered[k]) + [h]
    else filtered
  }

  /** The merge loop over a list in the given order. */
  function Greedy(hs: seq<Hexagon>): seq<Hexagon>
    decreases |hs|
  {
    if hs == [] then [] else MergeStep(Greedy(hs[..|hs| - 1]), hs[|hs| - 1])
  }

  /** `_filter_and_merge_hexagons`: the merge loop over the hexagons sorted by area, largest first. */
  function Merged(hs: seq<Hexagon>): seq<Hexagon> {
    if hs == [] then [] else Greedy(Sorting.SortDesc(hs, AreaOf))
  }

  method FilterAndMerge(hexagons: seq<Hexagon>) returns (filtered: seq<Hexagon>)
    ensures filtered == Merged(hexagons)
  {
    if hexagons == [] {
      return [];
    }
    var sorted := Sorting.SortDesc(hexagons, AreaOf);
    filtered := [];
    for i := 0 to |sorted|
      invariant filtered == Greedy(sorted[..i])
    {
      filtered := MergeInto(filtered, sorted[i]);
      GreedySnoc(sorted, i);
    }
    assert sorted[..|sorted|] == sorted;
  }

  /** The body of the merge loop: look for a kept hexagon near `hexagon`, keep the larger of the two. */
  method MergeInto(kept: seq<Hexagon>, hexagon: Hexagon) returns (filtered: seq<Hexagon>)
    ensures filtered == MergeStep(kept, hexagon)
  {
    filtered := kept;
    var isDuplicate := false;
    var j := 0;
    while j < |filtered| && !isDuplicate
      invariant 0 <= j <= |filtered| == |kept|
      invariant !isDuplicate ==> filtered == kept && forall m :: 0 <= m < j ==> !Near(hexagon, kept[m])
      invariant isDuplicate ==> filtered == MergeStep(kept, hexagon)
      decreases |filtered| - j + (if isDuplicate then 0 else 1)
    {
      var existing := filtered[j];
      if Near(hexagon, existing) {
        MergeAt(kept, hexagon, j);
        isDuplicate := true;
        if hexagon.area > existing.area {
          filtered := RemoveFirst(filtered, existing) + [hexagon];
        }
      } else {
        j := j + 1;
      }
    }
    if !isDuplicate {
      MergeAppends(kept, hexagon);
      filtered := filtered + [hexagon];
    }
  }

  /** The merge of `h` when `s[j]` is the first kept hexagon near it. */
  lemma MergeAt(s: seq<Hexagon>, h: Hexagon, j: nat)
    requires j < |s| && Near(h, s[j]) && forall m :: 0 <= m < j ==> !Near(h, s[m])
    ensures FirstNear(s, h) == j
    ensures MergeStep(s, h) == if h.area > s[j].area then RemoveFirst(s, s[j]) + [h] else s
    ensures |MergeStep(s, h)| == |s|
  {
    assert s[j] in s;
  }

  /** The merge of `h` when no kept hexagon is near it. */
  lemma MergeAppends(s: seq<Hexagon>, h: Hexagon)
    requires forall m :: 0 <= m < |s| ==> !Near(h, s[m])
    ensures MergeStep(s, h) == s + [h]
  {
  }

  /** The merge loop over one more hexagon. */
  lemma GreedySnoc(s: seq<Hexagon>, i: nat)
    requires i < |s|
    ensures Greedy(s[..i + 1]) == MergeStep(Greedy(s[..i]), s[i])
  {
    assert s[..i + 1][..i] == s[..i];
  }

  /** No two kept centres are within the threshold of each other. */
  predicate Separated(s: seq<Hexagon>) {
    forall i, j :: 0 <= i < j < |s| ==> !Near(s[i], s[j])
  }

  /** `x` is kept or lies near a kept hexagon at least as large. */
  predicate Covered(x: Hexagon, out: seq<Hexagon>) {
    exists k :: 0 <= k < |out| && Near(x, out[k]) && out[k].area >= x.area
  }

  /** `s` is `t` with some elements left out, the rest in their order. */
  predicate SubList<T(==)>(s: seq<T>, t: seq<T>)
    decreases |t|
  {
    if t == [] then s == []
    else (s != [] && s[|s| - 1] == t[|t| - 1] && SubList(s[..|s| - 1], t[..|t| - 1])) || SubList(s, t[..|t| - 1])
  }

  /** What the merge loop keeps true over an area-sorted input. */
  predicate GreedyInv(out: seq<Hexagon>, hs: seq<Hexagon>) {
    (forall i :: 0 <= i < |out| ==> out[i] in hs)
    && Sorting.SortedDesc(out, AreaOf)
    && Separated(out)
    && (hs != [] ==> out != [] && out[0] == hs[0])
    && SubList(out, hs)
    && (forall i :: 0 <= i < |hs| ==> Covered(hs[i], out))
  }

  /** One step of the merge over a hexagon no larger than any before it: nothing is replaced. */
  lemma GreedyStep(hs: seq<Hexagon>, h: Hexagon, t: seq<Hexagon>)
    requires t == hs + [h]
    requires forall i :: 0 <= i < |hs| ==> hs[i].area >= h.area
    requires GreedyInv(Greedy(hs), hs)
    ensures GreedyInv(Greedy(t), t)
  {
    assert t[..|t| - 1] == hs;
    var out := Greedy(hs);
    assert Greedy(t) == MergeStep(out, h);
    if FirstNear(out, h) == |out| {
      StepAppends(hs, out, h);
    } else {
      StepKeeps(hs, out, h);
    }
  }

  /** No kept hexagon is near `h`: it is appended. */
  lemma StepAppends(hs: seq<Hexagon>, out: seq<Hexagon>, h: Hexagon)
    requires forall i :: 0 <= i < |hs| ==> hs[i].area >= h.area
    requires GreedyInv(out, hs)
    requires FirstNear(out, h) == |out|
    ensures MergeStep(out, h) == out + [h]
    ensures GreedyInv(out + [h], hs + [h])
  {
    AppendSeparated(out, h);
    AppendSorted(hs, out, h);
    SubListKeep(out, hs, h);
    AppendCovered(hs, out, h);
    AppendMembers(hs, out, h);
  }

  lemma AppendCovered(hs: seq<Hexagon>, out: seq<Hexagon>, h: Hexagon)
    requires forall i :: 0 <= i < |hs| ==> Covered(hs[i], out)
    ensures forall i :: 0 <= i < |hs| + 1 ==> Covered((hs + [h])[i], out + [h])
  {
    var t, n := hs + [h], out + [h];
    forall i | 0 <= i < |t| ensures Covered(t[i], n) {
      if i < |hs| {
        assert t[i] == hs[i];
        var w :| 0 <= w < |out| && Near(hs[i], out[w]) && out[w].area >= hs[i].area;
        assert n[w] == out[w];
      } else {
        assert Near(h, n[|out|]);
      }
    }
  }

  lemma AppendMembers(hs: seq<Hexagon>, out: seq<Hexagon>, h: Hexagon)
    requires forall i :: 0 <= i < |out| ==> out[i] in hs
    ensures forall i :: 0 <= i < |out| + 1 ==> (out + [h])[i] in hs + [h]
  {
    var t, n := hs + [h], out + [h];
    forall i | 0 <= i < |n| ensures n[i] in t {
      if i < |out| {
        assert n[i] == out[i];
      }
    }
  }

  lemma AppendSeparated(out: seq<Hexagon>, h: Hexagon)
    requires Separated(out)
    requires forall j :: 0 <= j < |out| ==> !Near(h, out[j])
    ensures Separated(out + [h])
  {
    var n := out + [h];
    forall i, j | 0 <= i < j < |n| ensures !Near(n[i], n[j]) {
      if j == |out| {
        NearSymmetric(out[i], h);
      }
    }
  }

  lemma AppendSorted(hs: seq<Hexagon>, out: seq<Hexagon>, h: Hexagon)
    requires forall i :: 0 <= i < |hs| ==> hs[i].area >= h.area
    requires forall i :: 0 <= i < |out| ==> out[i] in hs
    requires Sorting.SortedDesc(out, AreaOf)
    ensures Sorting.SortedDesc(out + [h], AreaOf)
  {
    var n := out + [h];
    forall i, j | 0 <= i < j < |n| ensures AreaOf(n[i]) >= AreaOf(n[j]) {
      if j == |out| {
        assert out[i] in hs;
      }
    }
  }

  /** A kept hexagon is near `h` and, the input being sorted, at least as large: nothing changes. */
  lemma StepKeeps(hs: seq<Hexagon>, out: seq<Hexagon>, h: Hexagon)
    requires forall i :: 0 <= i < |hs| ==> hs[i].area >= h.area
    requires GreedyInv(out, hs)
    requires FirstNear(out, h) < |out|
    ensures MergeStep(out, h) == out
    ensures GreedyInv(out, hs + [h])
  {
    var k := FirstNear(out, h);
    KeepsUnchanged(hs, out, h);
    KeepsMembers(hs, out, h);
    KeepsCovered(hs, out, h, k);
    SubListSkip(out, hs, h);
    assert out[0] == (hs + [h])[0];
  }

  /** Keeping one more element at the end of both keeps a sub-list. */
  lemma SubListKeep<T>(s: seq<T>, t: seq<T>, x: T)
    requires SubList(s, t)
    ensures SubList(s + [x], t + [x])
  {
    assert (t + [x])[..|t|] == t;
    assert (s + [x])[..|s|] == s;
  }

  /** Leaving out one more element at the end keeps a sub-list. */
  lemma SubListSkip<T>(s: seq<T>, t: seq<T>, x: T)
    requires SubList(s, t)
    ensures SubList(s, t + [x])
  {
    assert (t + [x])[..|t|] == t;
  }

  lemma KeepsUnchanged(hs: seq<Hexagon>, out: seq<Hexagon>, h: Hexagon)
    requires forall i :: 0 <= i < |hs| ==> hs[i].area >= h.area
    requires forall i :: 0 <= i < |out| ==> out[i] in hs
    requires FirstNear(out, h) < |out|
    ensures out[FirstNear(out, h)].area >= h.area
    ensures MergeStep(out, h) == out
  {
    var k := FirstNear(out, h);
    assert out[k] in hs;
  }

  lemma KeepsMembers(hs: seq<Hexagon>, out: seq<Hexagon>, h: Hexagon)
    requires forall i :: 0 <= i < |out| ==> out[i] in hs
    ensures forall i :: 0 <= i < |out| ==> out[i] in hs + [h]
  {
  }

  lemma KeepsCovered(hs: seq<Hexagon>, out: seq<Hexagon>, h: Hexagon, k: nat)
    requires forall i :: 0 <= i < |hs| ==> Covered(hs[i], out)
    requires k == FirstNear(out, h) < |out| && out[k].area >= h.area
    ensures forall i :: 0 <= i < |hs| + 1 ==> Covered((hs + [h])[i], out)
  {
    forall i | 0 <= i < |hs| + 1 ensures Covered((hs + [h])[i], out) {
      if i < |hs| {
        assert (hs + [h])[i] == hs[i];
      }
    }
  }


  /** Without its last element a sorted list stays sorted, and that element is the smallest. */
  lemma SortedInit(hs: seq<Hexagon>, init: seq<Hexagon>)
    requires hs != [] && init == hs[..|hs| - 1] && Sorting.SortedDesc(hs, AreaOf)
    ensures Sorting.SortedDesc(init, AreaOf)
    ensures forall i :: 0 <= i < |init| ==> init[i].area >= hs[|hs| - 1].area
  {
    assert forall i :: 0 <= i < |hs| - 1 ==> AreaOf(hs[i]) >= AreaOf(hs[|hs| - 1]);
  }

  /** The merge over an area-sorted list: a sorted, separated sub-list that keeps the first and covers the rest. */
  lemma {:induction false} GreedySorted(hs: seq<Hexagon>)
    requires Sorting.SortedDesc(hs, AreaOf)
    ensures GreedyInv(Greedy(hs), hs)
    decreases |hs|
  {
    if hs != [] {
      var init, last := hs[..|hs| - 1], hs[|hs| - 1];
      SortedInit(hs, init);
      GreedySorted(init);
      InitLast(hs);
      GreedyStep(init, last, hs);
    }
  }

  lemma InitLast<T>(s: seq<T>)
    requires s != []
    ensures s[..|s| - 1] + [s[|s| - 1]] == s
  {
  }

  /**
   * What `_filter_and_merge_hexagons` returns: nothing only for nothing; hexagons of the input,
   * by non-increasing area, pairwise at least the threshold apart; the largest input first; and
   * every input kept or near a kept hexagon at least as large.
   */
  lemma MergedProperties(hs: seq<Hexagon>)
    ensures Merged(hs) == [] <==> hs == []
    ensures forall i :: 0 <= i < |Merged(hs)| ==> Merged(hs)[i] in hs
    ensures hs != [] ==> SubList(Merged(hs), Sorting.SortDesc(hs, AreaOf))
    ensures Sorting.SortedDesc(Merged(hs), AreaOf)
    ensures Separated(Merged(hs))
    ensures hs != [] ==> forall i :: 0 <= i < |hs| ==> Merged(hs)[0].area >= hs[i].area
    ensures forall i :: 0 <= i < |hs| ==> Covered(hs[i], Merged(hs))
  {
    if hs != [] {
      var sorted := Sorting.SortDesc(hs, AreaOf);
      GreedySorted(sorted);
      MembersOfSorted(hs, sorted, Greedy(sorted));
      forall i | 0 <= i < |hs| ensures Covered(hs[i], Greedy(sorted)) && Greedy(sorted)[0].area >= hs[i].area {
        InputCovered(hs, sorted, Greedy(sorted), i);
      }
    }
  }

  lemma MembersOfSorted(hs: seq<Hexagon>, sorted: seq<Hexagon>, m: seq<Hexagon>)
    requires multiset(sorted) == multiset(hs)
    requires forall i :: 0 <= i < |m| ==> m[i] in sorted
    ensures forall i :: 0 <= i < |m| ==> m[i] in hs
  {
    forall i | 0 <= i < |m| ensures m[i] in hs {
      assert m[i] in multiset(sorted);
    }
  }

  lemma InputCovered(hs: seq<Hexagon>, sorted: seq<Hexagon>, m: seq<Hexagon>, i: nat)
    requires i < |hs| && multiset(sorted) == multiset(hs)
    requires Sorting.SortedDesc(sorted, AreaOf)
    requires sorted != [] && m != [] && m[0] == sorted[0]
    requires forall j :: 0 <= j < |sorted| ==> Covered(sorted[j], m)
    ensures Covered(hs[i], m) && m[0].area >= hs[i].area
  {
    assert hs[i] in multiset(sorted);
    var j :| 0 <= j < |sorted| && sorted[j] == hs[i];
    assert Covered(sorted[j], m);
    if j > 0 {
      assert AreaOf(sorted[0]) >= AreaOf(sorted[j]);
    }
  }

  /** A separated list passes the merge loop untouched. */
  lemma {:induction false} GreedyKeepsSeparated(s: seq<Hexagon>)
    requires Separated(s)
    ensures Greedy(s) == s
    decreases |s|
  {
    if s != [] {
      var init := s[..|s| - 1];
      var last := s[|s| - 1];
      assert Separated(init);
      GreedyKeepsSeparated(init);
      forall j | 0 <= j < |init| ensures !Near(last, init[j]) {
        NearSymmetric(last, init[j]);
      }
      assert FirstNear(init, last) == |init|;
      assert init + [last] == s;
    }
  }

  /** Merging is idempotent: the merged list is already sorted and separated. */
  lemma MergeIdempotent(hs: seq<Hexagon>)
    ensures Merged(Merged(hs)) == Merged(hs)
  {
    MergedProperties(hs);
    var m := Merged(hs);
    if m != [] {
      Sorting.SortSortedIsIdentity(m, AreaOf);
      GreedyKeepsSeparated(m);
    }
  }

  // ---------------------------------------------------------------------------------------------
  // Scoring

  function AreaBonus(area: real): real {
    if area > 500.0 then 0.2 else if area > 200.0 then 0.1 else 0.0
  }

  function VertexBonus(vertices: nat): real {
    if vertices == 6 then 0.2 else if vertices == 5 || vertices == 7 then 0.1 else 0.0
  }

  function AspectBonus(aspectRatio: real): real {
    if 0.8 <= aspectRatio <= 1.2 then 0.15 else if 0.6 <= aspectRatio <= 1.4 then 0.1 else 0.0
  }

  function SolidityBonus(solidity: real): real {
    if solidity > 0.9 then 0.15 else if solidity > 0.8 then 0.1 else 0.0
  }

  function CircularityBonus(circularity: real): real {
    if 0.7 <= circularity <= 0.9 then 0.1 else if 0.5 <= circularity <= 1.0 then 0.05 else 0.0
  }

  /** The base score plus one bonus per feature, clamped to [0, 1]. */
  function Confidence(h: Hexagon): (c: real)
    ensures 0.5 <= c <= 1.0
  {
    MaxReal(0.0, MinReal(1.0, 0.5 + AreaBonus(h.area) + VertexBonus(h.vertices) + AspectBonus(h.aspectRatio)
                                + SolidityBonus(h.solidity) + CircularityBonus(h.circularity)))
  }

  /** `_calculate_confidence`: the score accumulated feature by feature, then clamped. */
  method CalculateConfidence(h: Hexagon) returns (score: real)
    ensures score == Confidence(h)
    ensures 0.5 <= score <= 1.0
  {
    score := 0.5;
    if h.area > 500.0 {
      score := score + 0.2;
    } else if h.area > 200.0 {
      score := score + 0.1;
    }
    assert score == 0.5 + AreaBonus(h.area);
    if h.vertices == 6 {
      score := score + 0.2;
    } else if h.vertices == 5 || h.vertices == 7 {
      score := score + 0.1;
    }
    assert score == 0.5 + AreaBonus(h.area) + VertexBonus(h.vertices);
    if 0.8 <= h.aspectRatio <= 1.2 {
      score := score + 0.15;
    } else if 0.6 <= h.aspectRatio <= 1.4 {
      score := score + 0.1;
    }
    assert score == 0.5 + AreaBonus(h.area) + VertexBonus(h.vertices) + AspectBonus(h.aspectRatio);
    if h.solidity > 0.9 {
      score := score + 0.15;
    } else if h.solidity > 0.8 {
      score := score + 0.1;
    }
    assert score == 0.5 + AreaBonus(h.area) + VertexBonus(h.vertices) + AspectBonus(h.aspectRatio)
                   + SolidityBonus(h.solidity);
    if 0.7 <= h.circularity <= 0.9 {
      score := score + 0.1;
    } else if 0.5 <= h.circularity <= 1.0 {
      score := score + 0.05;
    }
    score := MaxReal(0.0, MinReal(1.0, score));
  }

  /** Top-tier features everywhere give exactly 1.0: the raw sum, 1.3, is clamped. */
  lemma TopTierConfidence(h: Hexagon)
    requires h.area > 500.0 && h.vertices == 6 && 0.8 <= h.aspectRatio <= 1.2
    requires h.solidity > 0.9 && 0.7 <= h.circularity <= 0.9
    ensures Confidence(h) == 1.0
  {
  }

  /** With no bonus at all the score is the base 0.5. */
  lemma NoBonusConfidence(h: Hexagon)
    requires h.area <= 200.0 && h.vertices !in {5, 6, 7} && !(0.6 <= h.aspectRatio <= 1.4)
    requires h.solidity <= 0.8 && !(0.5 <= h.circularity <= 1.0)
    ensures Confidence(h) == 0.5
  {
  }

  /** A larger area never lowers the score. */
  lemma ConfidenceMonotoneInArea(h: Hexagon, area: real)
    requires h.area <= area
    ensures Confidence(h) <= Confidence(h.(area := area))
  {
    assert AreaBonus(h.area) <= AreaBonus(area);
  }

  // ---------------------------------------------------------------------------------------------
  // Geographic placement

  /** The centre, bounds, area estimate and score added to a hexagon. */
  datatype GeoInfo = GeoInfo(latitude: real, longitude: real, bounds: GeoBox, areaM2: real, confidence: real)

  /** A hexagon and its geographic information (`None` when the image has no pixels to divide by). */
  datatype Detected = Detected(hexagon: Hexagon, geo: Option<GeoInfo>)

  /**
   * The image is taken to span the whole target box, north-west corner at pixel (0, 0).
   * `cosOfLat` stands for `cos(radians(latitude))` in the area estimate.
   */
  function GeoOf(cfg: Config, h: Hexagon, height: nat, width: nat, cosOfLat: real -> real): GeoInfo
    requires height > 0 && width > 0
  {
    var b := cfg.bounds;
    var latPerPixel := (b.north - b.south) / height as real;
    var lngPerPixel := (b.east - b.west) / width as real;
    var latitude := b.north - h.centerY as real * latPerPixel;
    var longitude := b.west + h.centerX as real * lngPerPixel;
    var north := b.north - h.y as real * latPerPixel;
    var south := b.north - (h.y + h.h) as real * latPerPixel;
    var west := b.west + h.x as real * lngPerPixel;
    var east := b.west + (h.x + h.w) as real * lngPerPixel;
    var latDistance := AbsReal(north - south) * MetersPerDegreeLat;
    var lngDistance := AbsReal(east - west) * MetersPerDegreeLat * cosOfLat(latitude);
    GeoInfo(latitude, longitude, GeoBox(north, south, east, west), latDistance * lngDistance, Confidence(h))
  }

  /** Pixel (0, 0) is the north-west corner of the target box. */
  lemma GeoOrigin(cfg: Config, h: Hexagon, height: nat, width: nat, cosOfLat: real -> real)
    requires height > 0 && width > 0 && h.centerX == 0 && h.centerY == 0
    ensures GeoOf(cfg, h, height, width, cosOfLat).latitude == cfg.bounds.north
    ensures GeoOf(cfg, h, height, width, cosOfLat).longitude == cfg.bounds.west
  {
  }

  /** `k` pixels of `n` along an axis of span `span >= 0` cover at most the whole span. */
  lemma PixelSpan(k: int, n: nat, span: real)
    requires 0 <= k <= n && n > 0 && span >= 0.0
    ensures 0.0 <= k as real * (span / n as real) <= span
  {
    Arith.DivMonotone(0.0, span, n as real);
    Arith.MulNonNeg(k as real, span / n as real);
    Arith.MulLeRight(k as real, n as real, span / n as real);
    Arith.DivMulCancel(span, n as real);
    assert n as real * (span / n as real) == span;
  }

  /** A centre inside the image lands inside the target box. */
  lemma GeoInsideBox(cfg: Config, h: Hexagon, height: nat, width: nat, cosOfLat: real -> real)
    requires height > 0 && width > 0 && cfg.bounds.Ordered()
    requires 0 <= h.centerX <= width && 0 <= h.centerY <= height
    ensures var g := GeoOf(cfg, h, height, width, cosOfLat);
            cfg.bounds.south <= g.latitude <= cfg.bounds.north && cfg.bounds.west <= g.longitude <= cfg.bounds.east
  {
    PixelSpan(h.centerY, height, cfg.bounds.north - cfg.bounds.south);
    PixelSpan(h.centerX, width, cfg.bounds.east - cfg.bounds.west);
  }

  /** The geographic bounds of a bounding box are ordered. */
  lemma GeoBoundsOrdered(cfg: Config, h: Hexagon, height: nat, width: nat, cosOfLat: real -> real)
    requires height > 0 && width > 0 && cfg.bounds.Ordered()
    ensures GeoOf(cfg, h, height, width, cosOfLat).bounds.Ordered()
  {
    var b := cfg.bounds;
    var latPerPixel := (b.north - b.south) / height as real;
    var lngPerPixel := (b.east - b.west) / width as real;
    Arith.DivMonotone(0.0, b.north - b.south, height as real);
    Arith.DivMonotone(0.0, b.east - b.west, width as real);
    Arith.MulLeRight(h.y as real, (h.y + h.h) as real, latPerPixel);
    Arith.MulLeRight(h.x as real, (h.x + h.w) as real, lngPerPixel);
  }

  /**
   * `_add_geographic_info`: one entry per hexagon, in order, each keeping the hexagon. An empty
   * image dimension raises a division by zero, and the handler returns the hexagons unchanged.
   */
  method AddGeographicInfo(cfg: Config, hexagons: seq<Hexagon>, height: nat, width: nat, cosOfLat: real -> real)
    returns (r: seq<Detected>)
    ensures |r| == |hexagons|
    ensures forall i :: 0 <= i < |r| ==> r[i].hexagon == hexagons[i]
    ensures height == 0 || width == 0 ==> forall i :: 0 <= i < |r| ==> r[i].geo.None?
    ensures height > 0 && width > 0 ==>
              forall i :: 0 <= i < |r| ==> r[i].geo == Some(GeoOf(cfg, hexagons[i], height, width, cosOfLat))
  {
    if hexagons == [] {
      return [];
    }
    if height == 0 || width == 0 {
      return seq(|hexagons|, i requires 0 <= i < |hexagons| => Detected(hexagons[i], None));
    }
    var b := cfg.bounds;
    var latPerPixel := (b.north - b.south) / height as real;
    var lngPerPixel := (b.east - b.west) / width as real;
    r := [];
    for i := 0 to |hexagons|
      invariant |r| == i
      invariant forall k :: 0 <= k < i ==>
                  r[k] == Detected(hexagons[k], Some(GeoOf(cfg, hexagons[k], height, width, cosOfLat)))
    {
      var h := hexagons[i];
      var latitude := b.north - h.centerY as real * latPerPixel;
      var longitude := b.west + h.centerX as real * lngPerPixel;
      var north := b.north - h.y as real * latPerPixel;
      var south := b.north - (h.y + h.h) as real * latPerPixel;
      var west := b.west + h.x as real * lngPerPixel;
      var east := b.west + (h.x + h.w) as real * lngPerPixel;
      var latDistance := AbsReal(north - south) * MetersPerDegreeLat;
      var lngDistance := AbsReal(east - west) * MetersPerDegreeLat * cosOfLat(latitude);
      var confidence := CalculateConfidence(h);
      var geo := GeoInfo(latitude, longitude, GeoBox(north, south, east, west), latDistance * lngDistance, confidence);
      ghost var g := GeoOf(cfg, h, height, width, cosOfLat);
      assert g.latitude == latitude;
      assert g.longitude == longitude;
      assert g.bounds == GeoBox(north, south, east, west);
      assert g.areaM2 == latDistance * lngDistance;
      assert g.confidence == confidence;
      assert geo == g;
      r := r + [Detected(h, Some(geo))];
    }
  }

  // ---------------------------------------------------------------------------------------------

  /**
   * `detect_hexagons`: no image gives nothing; otherwise the dark and then the light detections
   * are merged and placed on the map. `dark` and `light` are the contours OpenCV finds in the two
   * colour masks. An image with a zero side makes the HSV conversion raise inside
   * `_detect_color_hexagons`, whose handler gives `[]` for both colours, so nothing is detected.
   */
  method DetectHexagons(cfg: Config, image: Option<Stitcher.Image>, dark: seq<ContourFeatures>,
                        light: seq<ContourFeatures>, cosOfLat: real -> real) returns (r: seq<Detected>)
    ensures image.None? ==> r == []
    ensures image.Some? && (image.value.height == 0 || image.value.width == 0) ==> r == []
    ensures image.Some? && image.value.height > 0 && image.value.width > 0 ==>
              var merged := Merged(Accepted(dark, DarkOrange) + Accepted(light, LightOrange));
              |r| == |merged|
              && forall i :: 0 <= i < |r| ==>
                   r[i].hexagon == merged[i]
                   && r[i].geo == Some(GeoOf(cfg, r[i].hexagon, image.value.height, image.value.width, cosOfLat))
  {
    if image.None? || image.value.height == 0 || image.value.width == 0 {
      return [];
    }
    var darkHexagons := DetectColorHexagons(dark, DarkOrange);
    var lightHexagons := DetectColorHexagons(light, LightOrange);
    var filtered := FilterAndMerge(darkHexagons + lightHexagons);
    r := AddGeographicInfo(cfg, filtered, image.value.height, image.value.width, cosOfLat);
  }

  /** The detections of one map are pairwise separated and every one passed the shape tests. */
  lemma DetectionsSeparated(dark: seq<ContourFeatures>, light: seq<ContourFeatures>)
    ensures var merged := Merged(Accepted(dark, DarkOrange) + Accepted(light, LightOrange));
            Separated(merged) && forall i :: 0 <= i < |merged| ==> Qualifies(merged[i])
  {
    var all := Accepted(dark, DarkOrange) + Accepted(light, LightOrange);
    MergedProperties(all);
    var merged := Merged(all);
    forall i | 0 <= i < |merged| ensures Qualifies(merged[i]) {
      assert merged[i] in all;
    }
  }
}
