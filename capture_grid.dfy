/**
 * The capture plan: how many rows and columns of screenshots cover the target box, and the centre
 * and visible extent of each cell.
 */
module CaptureGrid {
  import opened Wrappers
  import opened PyOps
  import opened Settings
  import Arith

  /** One planned screenshot: its centre and the geographic extent the map area shows there. */
  datatype Cell = Cell(centerLat: real, centerLng: real, bounds: GeoBox)

  datatype GridPlan = GridPlan(grid: seq<seq<Cell>>, rows: nat, cols: nat, swipeWidthDegrees: real, swipeHeightDegrees: real)

  /** Degrees covered by one pan step and by one full map view, on each axis. */
  datatype Geometry = Geometry(swipeWidth: real, swipeHeight: real, mapWidth: real, mapHeight: real)

  /**
   * The extents for the pan steps `s` (`SwipeDistancePixels`) and a size of a pixel in degrees
   * `cpp` (`CoordinatePerPixel` at the configured zoom).
   */
  function GeometryOf(cfg: Config, s: SwipeSteps, cpp: PerPixel): (g: Geometry)
    requires cpp.lat > 0.0 && cpp.lng > 0.0
    ensures (g.swipeWidth == 0.0 <==> s.horizontal == 0) && (g.swipeHeight == 0.0 <==> s.vertical == 0)
    ensures (s.horizontal > 0 ==> g.swipeWidth > 0.0) && (s.vertical > 0 ==> g.swipeHeight > 0.0)
    ensures 0 <= s.horizontal <= cfg.displayWidth && 0 <= s.vertical <= cfg.displayHeight ==>
              0.0 <= g.swipeWidth <= g.mapWidth && 0.0 <= g.swipeHeight <= g.mapHeight
  {
    var g := Geometry(
      s.horizontal as real * cpp.lng,
      s.vertical as real * cpp.lat,
      cfg.displayWidth as real * cpp.lng,
      cfg.displayHeight as real * cpp.lat);
    ScaleSign(s.horizontal, cpp.lng);
    ScaleSign(s.vertical, cpp.lat);
    assert 0 <= s.horizontal <= cfg.displayWidth && 0 <= s.vertical <= cfg.displayHeight ==>
             0.0 <= g.swipeWidth <= g.mapWidth && 0.0 <= g.swipeHeight <= g.mapHeight by {
      if 0 <= s.horizontal <= cfg.displayWidth && 0 <= s.vertical <= cfg.displayHeight {
        ScaleBelow(s.horizontal, cfg.displayWidth, cpp.lng);
        ScaleBelow(s.vertical, cfg.displayHeight, cpp.lat);
      }
    }
    g
  }

  /** A pixel count scaled by a positive size keeps its sign. */
  lemma ScaleSign(n: int, u: real)
    requires u > 0.0
    ensures n > 0 ==> n as real * u > 0.0
    ensures n == 0 ==> n as real * u == 0.0
    ensures n < 0 ==> n as real * u < 0.0
  {
    if n > 0 { Arith.MulLtRight(0.0, n as real, u); }
    if n < 0 { Arith.MulLtRight(n as real, 0.0, u); }
  }

  /** Scaling by a positive size keeps the order of two non-negative pixel counts. */
  lemma ScaleBelow(n: int, m: int, u: real)
    requires 0 <= n <= m && u > 0.0
    ensures 0.0 <= n as real * u <= m as real * u
  {
    Arith.MulNonNeg(n as real, u);
    Arith.MulLeRight(n as real, m as real, u);
  }

  /** Whole steps below a non-negative distance: `int(x / step)` steps fit, one more does not. */
  lemma TruncSteps(x: real, step: real)
    requires 0.0 <= x && 0.0 < step
    ensures 0 <= Trunc(x / step)
    ensures Trunc(x / step) as real * step <= x < (Trunc(x / step) as real + 1.0) * step
  {
    Arith.DivMonotone(0.0, x, step);
    var t := x / step;
    var k := Trunc(t);
    Arith.DivMulCancel(x, step);
    Arith.MulLeRight(k as real, t, step);
    var k1 := k as real + 1.0;
    Arith.MulLtRight(t, k1, step);
    calc {
      x;
      == t * step;
      < k1 * step;
    }
  }

  /** `max(1, int(total / step) + 1)`: the number of steps along one axis. */
  function GridCount(total: real, step: real): (n: nat)
    requires step != 0.0
    ensures n >= 1
    ensures 0.0 <= total && 0.0 < step ==> (n - 1) as real * step <= total < n as real * step
  {
    var n := Max(1, Trunc(total / step) + 1);
    assert 0.0 <= total && 0.0 < step ==> (n - 1) as real * step <= total < n as real * step by {
      if 0.0 <= total && 0.0 < step {
        TruncSteps(total, step);
      }
    }
    n
  }

  /**
   * The cell in row `row` and column `col`: centres sit half a step in from the north-west corner
   * and one step apart; the extent is one map view centred there.
   */
  function CellAt(cfg: Config, geo: Geometry, row: int, col: int): Cell {
    var centerLng := cfg.bounds.west + (col as real + 0.5) * geo.swipeWidth;
    var centerLat := cfg.bounds.north - (row as real + 0.5) * geo.swipeHeight;
    Cell(centerLat, centerLng,
         GeoBox(centerLat + geo.mapHeight / 2.0, centerLat - geo.mapHeight / 2.0,
                centerLng + geo.mapWidth / 2.0, centerLng - geo.mapWidth / 2.0))
  }

  /**
   * `_calculate_capture_grid`: `None` exactly when a pan step is zero pixels (division by zero);
   * otherwise a `rows` by `cols` grid, both at least one, filled row by row.
   */
  function Plan(cfg: Config, steps: SwipeSteps, cpp: PerPixel): (p: Option<GridPlan>)
    requires cpp.lat > 0.0 && cpp.lng > 0.0
    ensures p.None? <==> steps.horizontal == 0 || steps.vertical == 0
    ensures p.Some? ==>
              var geo := GeometryOf(cfg, steps, cpp);
              p.value.rows >= 1 && p.value.cols >= 1
              && p.value.cols == GridCount(cfg.bounds.east - cfg.bounds.west, geo.swipeWidth)
              && p.value.rows == GridCount(cfg.bounds.north - cfg.bounds.south, geo.swipeHeight)
              && |p.value.grid| == p.value.rows
              && (forall r :: 0 <= r < p.value.rows ==> |p.value.grid[r]| == p.value.cols)
              && (forall r, c :: 0 <= r < p.value.rows && 0 <= c < p.value.cols ==>
                    p.value.grid[r][c] == CellAt(cfg, geo, r, c))
  {
    var geo := GeometryOf(cfg, steps, cpp);
    if geo.swipeWidth == 0.0 || geo.swipeHeight == 0.0 then None
    else
      var cols := GridCount(cfg.bounds.east - cfg.bounds.west, geo.swipeWidth);
      var rows := GridCount(cfg.bounds.north - cfg.bounds.south, geo.swipeHeight);
      Some(GridPlan(seq(rows, r => seq(cols, c => CellAt(cfg, geo, r, c))), rows, cols,
                    geo.swipeWidth, geo.swipeHeight))
  }

  /** `_calculate_capture_grid` as the source runs it: two nested loops appending cells. */
  method CalculateCaptureGrid(cfg: Config) returns (plan: Option<GridPlan>)
    ensures plan == Plan(cfg, SwipeDistancePixels(cfg), CoordinatePerPixel(cfg, None))
  {
    var cpp := CoordinatePerPixel(cfg, None);
    var steps := SwipeDistancePixels(cfg);
    var geo := GeometryOf(cfg, steps, cpp);
    if geo.swipeWidth == 0.0 || geo.swipeHeight == 0.0 {
      return None;
    }
    var cols := GridCount(cfg.bounds.east - cfg.bounds.west, geo.swipeWidth);
    var rows := GridCount(cfg.bounds.north - cfg.bounds.south, geo.swipeHeight);
    var grid: seq<seq<Cell>> := [];
    var row := 0;
    while row < rows
      invariant 0 <= row <= rows
      invariant |grid| == row
      invariant forall r :: 0 <= r < row ==> grid[r] == seq(cols, c => CellAt(cfg, geo, r, c))
    {
      var gridRow: seq<Cell> := [];
      var col := 0;
      while col < cols
        invariant 0 <= col <= cols
        invariant gridRow == seq(col, c => CellAt(cfg, geo, row, c))
      {
        gridRow := gridRow + [CellAt(cfg, geo, row, col)];
        col := col + 1;
      }
      grid := grid + [gridRow];
      row := row + 1;
    }
    assert grid == seq(rows, r => seq(cols, c => CellAt(cfg, geo, r, c)));
    return Some(GridPlan(grid, rows, cols, geo.swipeWidth, geo.swipeHeight));
  }

  /**
   * One axis of the coverage argument: steps of `step` from `lo`, counted by `GridCount`, each
   * seen through a window of `span >= step` centred on the step, cover every point of
   * `[lo, hi]`; `k` is the step whose window holds `x`.
   */
  lemma CoverAxis(lo: real, hi: real, x: real, step: real, span: real) returns (k: nat)
    requires lo <= x <= hi && 0.0 < step <= span
    ensures k < GridCount(hi - lo, step)
    ensures lo + (k as real + 0.5) * step - span / 2.0 <= x <= lo + (k as real + 0.5) * step + span / 2.0
  {
    Arith.DivMonotone(x - lo, hi - lo, step);
    TruncSteps(x - lo, step);
    var t := (x - lo) / step;
    k := Trunc(t);
    TruncMonotone(t, (hi - lo) / step);
    assert k < GridCount(hi - lo, step);
    var base := k as real * step;
    assert (k as real + 1.0) * step == base + step;
    var center := lo + (k as real + 0.5) * step;
    assert center == lo + base + step / 2.0;
    assert center - span / 2.0 <= lo + base <= x;
    assert x <= lo + base + step <= center + span / 2.0;
  }

  predicate InBox(b: GeoBox, lat: real, lng: real) {
    b.south <= lat <= b.north && b.west <= lng <= b.east
  }

  /**
   * Coverage: with pan steps no longer than a map view (an overlap ratio in [0, 1]), every point of an ordered
   * target box lies in the extent of some planned cell.
   */
  lemma PlanCoversBox(cfg: Config, steps: SwipeSteps, cpp: PerPixel, lat: real, lng: real) returns (row: nat, col: nat)
    requires cpp.lat > 0.0 && cpp.lng > 0.0
    requires cfg.bounds.Ordered()
    requires 0 < steps.horizontal <= cfg.displayWidth && 0 < steps.vertical <= cfg.displayHeight
    requires InBox(cfg.bounds, lat, lng)
    ensures row < Plan(cfg, steps, cpp).value.rows && col < Plan(cfg, steps, cpp).value.cols
    ensures InBox(Plan(cfg, steps, cpp).value.grid[row][col].bounds, lat, lng)
  {
    var geo := GeometryOf(cfg, steps, cpp);
    var p := Plan(cfg, steps, cpp);
    row, col := CoverBox(cfg, geo, lat, lng);
    assert p.value.grid[row][col] == CellAt(cfg, geo, row, col);
  }

  /** Coverage for one pan geometry: some cell of the `rows` by `cols` grid holds the point. */
  lemma CoverBox(cfg: Config, geo: Geometry, lat: real, lng: real) returns (row: nat, col: nat)
    requires 0.0 < geo.swipeWidth <= geo.mapWidth && 0.0 < geo.swipeHeight <= geo.mapHeight
    requires InBox(cfg.bounds, lat, lng)
    ensures row < GridCount(cfg.bounds.north - cfg.bounds.south, geo.swipeHeight)
    ensures col < GridCount(cfg.bounds.east - cfg.bounds.west, geo.swipeWidth)
    ensures InBox(CellAt(cfg, geo, row, col).bounds, lat, lng)
  {
    col := CoverAxis(cfg.bounds.west, cfg.bounds.east, lng, geo.swipeWidth, geo.mapWidth);
    // rows run southward: measure from the north edge
    row := CoverAxis(-cfg.bounds.north, -cfg.bounds.south, -lat, geo.swipeHeight, geo.mapHeight);
    assert -cfg.bounds.south - -cfg.bounds.north == cfg.bounds.north - cfg.bounds.south;
    CellHoldsPoint(cfg, geo, row, col, lat, lng);
  }

  /** A point within half a map view of a cell's centre on both axes lies in that cell's extent. */
  lemma CellHoldsPoint(cfg: Config, geo: Geometry, row: nat, col: nat, lat: real, lng: real)
    requires var w := cfg.bounds.west + (col as real + 0.5) * geo.swipeWidth;
             w - geo.mapWidth / 2.0 <= lng <= w + geo.mapWidth / 2.0
    requires var n := -cfg.bounds.north + (row as real + 0.5) * geo.swipeHeight;
             n - geo.mapHeight / 2.0 <= -lat <= n + geo.mapHeight / 2.0
    ensures InBox(CellAt(cfg, geo, row, col).bounds, lat, lng)
  {
  }

  /**
   * The pan bands overshoot the box: the last column's band ends east of the east edge and the
   * last row's band ends south of the south edge.
   */
  lemma PlanOvershootsBox(cfg: Config, steps: SwipeSteps, cpp: PerPixel)
    requires cpp.lat > 0.0 && cpp.lng > 0.0
    requires cfg.bounds.Ordered()
    requires steps.horizontal > 0 && steps.vertical > 0
    ensures Plan(cfg, steps, cpp).Some?
    ensures var p := Plan(cfg, steps, cpp).value;
            cfg.bounds.west + p.cols as real * p.swipeWidthDegrees > cfg.bounds.east
            && cfg.bounds.north - p.rows as real * p.swipeHeightDegrees < cfg.bounds.south
  {
  }

  /** As shipped, the target box is covered by one row of three screenshots. */
  lemma ShippedPlanSize()
    ensures Plan(Shipped, SwipeDistancePixels(Shipped), CoordinatePerPixel(Shipped, None)).Some?
    ensures var p := Plan(Shipped, SwipeDistancePixels(Shipped), CoordinatePerPixel(Shipped, None)).value;
            p.rows == 1 && p.cols == 3
  {
    ShippedSwipeDistance();
    ShippedPow2();
    var cpp := CoordinatePerPixel(Shipped, None);
    var m := EarthCircumference * CosRefLat / (256.0 * 16384.0);
    assert cpp == PerPixel(m / MetersPerDegreeLat, m / (MetersPerDegreeLat * CosRefLat));
    var geo := GeometryOf(Shipped, SwipeSteps(784, 1592), cpp);
    assert 2.0 < 0.15 / geo.swipeWidth < 3.0;
    assert 0.0 < 0.1 / geo.swipeHeight < 1.0;
  }

  lemma ShippedPow2()
    ensures Pow2(14) == 16384.0
  {
    assert Pow2Nat(4) == 16;
    assert Pow2Nat(8) == 256;
    assert Pow2Nat(12) == 4096;
  }
}
