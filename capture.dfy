/**
 * `capture_lhasa_area`: plan the grid, drive the map to its north-west corner, then walk the grid
 * row by row, requesting one screenshot per cell and panning between cells.
 */
module Capture {
  import opened Wrappers
  import opened PyOps
  import opened Settings
  import opened CaptureGrid
  import opened Location
  import opened Navigation
  import opened Seqs

  /** What is recorded for a successful screenshot: its grid position and its cell's geography. */
  datatype ScreenshotInfo = ScreenshotInfo(row: int, col: int, centerLat: real, centerLng: real, bounds: GeoBox)

  function ShotOf(cell: Cell, row: int, col: int): ScreenshotInfo {
    ScreenshotInfo(row, col, cell.centerLat, cell.centerLng, cell.bounds)
  }

  // ---------------------------------------------------------------------------------------------
  // The recorded screenshots

  /** The screenshots of the first `c` cells of row `r`: those whose request did not fail. */
  function RowShots(grid: seq<seq<Cell>>, failing: set<(int, int)>, r: nat, c: nat): seq<ScreenshotInfo>
    requires r < |grid| && c <= |grid[r]|
    decreases c
  {
    if c == 0 then []
    else RowShots(grid, failing, r, c - 1) + (if (r, c - 1) in failing then [] else [ShotOf(grid[r][c - 1], r, c - 1)])
  }

  /** The screenshots of the first `r` rows, row by row. */
  function ShotsUpTo(grid: seq<seq<Cell>>, failing: set<(int, int)>, r: nat): seq<ScreenshotInfo>
    requires r <= |grid|
    decreases r
  {
    if r == 0 then [] else ShotsUpTo(grid, failing, r - 1) + RowShots(grid, failing, r - 1, |grid[r - 1]|)
  }

  /** The screenshots of the whole grid. */
  function GridShots(grid: seq<seq<Cell>>, failing: set<(int, int)>): seq<ScreenshotInfo> {
    ShotsUpTo(grid, failing, |grid|)
  }

  /** Row-major order of grid positions. */
  predicate Before(a: ScreenshotInfo, b: ScreenshotInfo) {
    a.row < b.row || (a.row == b.row && a.col < b.col)
  }

  predicate StrictlyRowMajor(shots: seq<ScreenshotInfo>) {
    forall i, j :: 0 <= i < j < |shots| ==> Before(shots[i], shots[j])
  }

  /** A shot that belongs to a cell of the grid that did not fail, and carries that cell's data. */
  predicate ShotOfGrid(grid: seq<seq<Cell>>, failing: set<(int, int)>, s: ScreenshotInfo) {
    0 <= s.row < |grid| && 0 <= s.col < |grid[s.row]| && (s.row, s.col) !in failing
    && s == ShotOf(grid[s.row][s.col], s.row, s.col)
  }

  /** Within a row: shots of that row only, of its first `c` cells, in increasing column order. */
  lemma {:induction false} RowShotsFacts(grid: seq<seq<Cell>>, failing: set<(int, int)>, r: nat, c: nat)
    requires r < |grid| && c <= |grid[r]|
    ensures forall i :: 0 <= i < |RowShots(grid, failing, r, c)| ==>
              RowShots(grid, failing, r, c)[i].row == r && RowShots(grid, failing, r, c)[i].col < c
              && ShotOfGrid(grid, failing, RowShots(grid, failing, r, c)[i])
    ensures StrictlyRowMajor(RowShots(grid, failing, r, c))
    ensures |RowShots(grid, failing, r, c)| <= c
    decreases c
  {
    if c > 0 {
      RowShotsFacts(grid, failing, r, c - 1);
    }
  }

  /** The recorded shots of the first `r` rows all lie in those rows and are strictly row-major. */
  lemma {:induction false} ShotsUpToFacts(grid: seq<seq<Cell>>, failing: set<(int, int)>, r: nat)
    requires r <= |grid|
    ensures forall i :: 0 <= i < |ShotsUpTo(grid, failing, r)| ==>
              ShotsUpTo(grid, failing, r)[i].row < r && ShotOfGrid(grid, failing, ShotsUpTo(grid, failing, r)[i])
    ensures StrictlyRowMajor(ShotsUpTo(grid, failing, r))
    decreases r
  {
    if r > 0 {
      ShotsUpToFacts(grid, failing, r - 1);
      RowShotsFacts(grid, failing, r - 1, |grid[r - 1]|);
      var a := ShotsUpTo(grid, failing, r - 1);
      var b := RowShots(grid, failing, r - 1, |grid[r - 1]|);
      assert ShotsUpTo(grid, failing, r) == a + b;
      forall i, j | 0 <= i < j < |a + b|
        ensures Before((a + b)[i], (a + b)[j])
      {
        if j < |a| {
        } else if i < |a| {
          assert (a + b)[i] == a[i] && (a + b)[j] == b[j - |a|];
        } else {
          assert (a + b)[i] == b[i - |a|] && (a + b)[j] == b[j - |a|];
        }
      }
    }
  }

  /**
   * The recorded screenshots are strictly row-major (so no cell twice) and each is a
   * non-failing cell of the grid, carrying that cell's centre and bounds.
   */
  lemma GridShotsRowMajor(grid: seq<seq<Cell>>, failing: set<(int, int)>)
    ensures StrictlyRowMajor(GridShots(grid, failing))
    ensures forall i :: 0 <= i < |GridShots(grid, failing)| ==> ShotOfGrid(grid, failing, GridShots(grid, failing)[i])
  {
    ShotsUpToFacts(grid, failing, |grid|);
  }

  /** Every non-failing cell of the first `c` in row `r` is recorded. */
  lemma {:induction false} RowShotsComplete(grid: seq<seq<Cell>>, failing: set<(int, int)>, r: nat, c: nat, col: nat)
    returns (i: nat)
    requires r < |grid| && col < c <= |grid[r]| && (r, col) !in failing
    ensures i < |RowShots(grid, failing, r, c)| && RowShots(grid, failing, r, c)[i] == ShotOf(grid[r][col], r, col)
    decreases c
  {
    if col == c - 1 {
      i := |RowShots(grid, failing, r, c - 1)|;
    } else {
      i := RowShotsComplete(grid, failing, r, c - 1, col);
    }
  }

  /** Every non-failing cell of the grid is recorded. */
  lemma {:induction false} ShotsUpToComplete(grid: seq<seq<Cell>>, failing: set<(int, int)>, r: nat, row: nat, col: nat)
    returns (i: nat)
    requires r <= |grid| && row < r && col < |grid[row]| && (row, col) !in failing
    ensures i < |ShotsUpTo(grid, failing, r)| && ShotsUpTo(grid, failing, r)[i] == ShotOf(grid[row][col], row, col)
    decreases r
  {
    if row == r - 1 {
      var j := RowShotsComplete(grid, failing, row, |grid[row]|, col);
      i := |ShotsUpTo(grid, failing, r - 1)| + j;
    } else {
      i := ShotsUpToComplete(grid, failing, r - 1, row, col);
    }
  }

  /** A cell that did not fail is among the recorded screenshots. */
  lemma GridShotsComplete(grid: seq<seq<Cell>>, failing: set<(int, int)>, row: nat, col: nat) returns (i: nat)
    requires row < |grid| && col < |grid[row]| && (row, col) !in failing
    ensures i < |GridShots(grid, failing)| && GridShots(grid, failing)[i] == ShotOf(grid[row][col], row, col)
  {
    i := ShotsUpToComplete(grid, failing, |grid|, row, col);
  }

  /** A cell that failed is not among the recorded screenshots. */
  lemma GridShotsSkipFailed(grid: seq<seq<Cell>>, failing: set<(int, int)>, row: int, col: int)
    requires (row, col) in failing
    ensures forall i :: 0 <= i < |GridShots(grid, failing)| ==>
              GridShots(grid, failing)[i].row != row || GridShots(grid, failing)[i].col != col
  {
    ShotsUpToFacts(grid, failing, |grid|);
  }

  /** At most one screenshot per cell of the first `r` rows. */
  lemma {:induction false} ShotsUpToCount(grid: seq<seq<Cell>>, failing: set<(int, int)>, r: nat, n: nat)
    requires r <= |grid|
    requires forall k :: 0 <= k < |grid| ==> |grid[k]| == n
    ensures |ShotsUpTo(grid, failing, r)| <= r * n
    decreases r
  {
    if r > 0 {
      ShotsUpToCount(grid, failing, r - 1, n);
      RowShotsFacts(grid, failing, r - 1, n);
      assert r * n == (r - 1) * n + n;
    }
  }

  /** For a planned grid there are at most `rows * cols` screenshots. */
  lemma PlanShotsBounded(cfg: Config, steps: SwipeSteps, cpp: PerPixel, failing: set<(int, int)>)
    requires cpp.lat > 0.0 && cpp.lng > 0.0
    requires Plan(cfg, steps, cpp).Some?
    ensures |GridShots(Plan(cfg, steps, cpp).value.grid, failing)| <= Plan(cfg, steps, cpp).value.rows * Plan(cfg, steps, cpp).value.cols
  {
    var p := Plan(cfg, steps, cpp).value;
    ShotsUpToCount(p.grid, failing, p.rows, p.cols);
  }

  // ---------------------------------------------------------------------------------------------
  // The requests sent to the device

  /** The three grid pans: one step east, one step back west, one step south. */
  datatype Pans = Pans(right: SwipeCommand, left: SwipeCommand, down: SwipeCommand)

  function PansOf(cfg: Config): Pans {
    Pans(HorizontalSwipe(cfg, true), HorizontalSwipe(cfg, false), VerticalSwipe(cfg, true))
  }

  /** The requests for the first `c` of the `n` cells of row `r`: a screenshot, then a right pan
    * unless the cell is the last of its row. */
  function RowPrefixEvents(p: Pans, r: int, n: nat, c: nat): seq<Event>
    requires c <= n
    decreases c
  {
    if c == 0 then []
    else RowPrefixEvents(p, r, n, c - 1) + [Captured(r, c - 1)] + (if c < n then [Swiped(p.right)] else [])
  }

  /** The number of right pans among the requests for the first `c` of `n` cells of a row. */
  function RowPrefixSwipes(n: nat, c: nat): nat
    requires c <= n
  {
    if c < n then c else Max(0, n - 1)
  }

  /** Between two rows: return to the row start (stopping at a failed pan), then pan down once. */
  function RowTransition(p: Pans, script: seq<bool>, k: nat, n: nat): seq<SwipeCommand> {
    Attempted(script, k, Repeat(p.left, Max(0, n - 1))) + [p.down]
  }

  /**
   * The requests for row `r` when its first swipe is swipe number `k`: the row's cells, then,
   * unless it is the last row, the transition to the next row; and the number of the next swipe.
   */
  function RowStep(p: Pans, script: seq<bool>, grid: seq<seq<Cell>>, r: nat, k: nat): (seq<Event>, nat)
    requires r < |grid|
  {
    var n := |grid[r]|;
    var next := k + RowPrefixSwipes(n, n);
    if r + 1 < |grid| then
      var t := RowTransition(p, script, next, n);
      (RowPrefixEvents(p, r, n, n) + SwipeEvents(t), next + |t|)
    else (RowPrefixEvents(p, r, n, n), next)
  }

  /** The requests for the first `r` rows of the grid, and the number of the next swipe. */
  function GridPrefix(p: Pans, script: seq<bool>, grid: seq<seq<Cell>>, k0: nat, r: nat): (seq<Event>, nat)
    requires r <= |grid|
    decreases r
  {
    if r == 0 then ([], k0)
    else
      var prev := GridPrefix(p, script, grid, k0, r - 1);
      var step := RowStep(p, script, grid, r - 1, prev.1);
      (prev.0 + step.0, step.1)
  }

  /** The grid position a request asks to capture, if it is a screenshot request. */
  function CaptureOf(e: Event): seq<(int, int)> {
    match e
    case Captured(r, c) => [(r, c)]
    case Swiped(_) => []
  }

  /** The grid positions of the screenshot requests among `events`, in order. */
  function Captures(events: seq<Event>): seq<(int, int)>
    decreases |events|
  {
    if events == [] then [] else CaptureOf(events[0]) + Captures(events[1..])
  }

  lemma {:induction false} CapturesAppend(a: seq<Event>, b: seq<Event>)
    ensures Captures(a + b) == Captures(a) + Captures(b)
    decreases |a|
  {
    if a == [] {
      assert a + b == b;
    } else {
      assert (a + b)[0] == a[0];
      assert (a + b)[1..] == a[1..] + b;
      CapturesAppend(a[1..], b);
      AppendAssoc(CaptureOf(a[0]), Captures(a[1..]), Captures(b));
    }
  }

  lemma {:induction false} CapturesOfSwipes(cmds: seq<SwipeCommand>)
    ensures Captures(SwipeEvents(cmds)) == []
    decreases |cmds|
  {
    if cmds != [] {
      assert SwipeEvents(cmds)[1..] == SwipeEvents(cmds[1..]);
      CapturesOfSwipes(cmds[1..]);
    }
  }

  /** The positions of the first `c` cells of row `r`, and of the first `r` rows, in row-major order. */
  function RowCells(r: int, c: nat): seq<(int, int)>
    decreases c
  {
    if c == 0 then [] else RowCells(r, c - 1) + [(r, c - 1)]
  }

  function CellsUpTo(grid: seq<seq<Cell>>, r: nat): seq<(int, int)>
    requires r <= |grid|
    decreases r
  {
    if r == 0 then [] else CellsUpTo(grid, r - 1) + RowCells(r - 1, |grid[r - 1]|)
  }

  lemma {:induction false} RowPrefixCaptures(p: Pans, r: int, n: nat, c: nat)
    requires c <= n
    ensures Captures(RowPrefixEvents(p, r, n, c)) == RowCells(r, c)
    ensures |RowPrefixEvents(p, r, n, c)| == c + RowPrefixSwipes(n, c)
    decreases c
  {
    if c > 0 {
      RowPrefixCaptures(p, r, n, c - 1);
      var tail: seq<Event> := if c < n then [Swiped(p.right)] else [];
      assert Captures([Captured(r, c - 1)]) == [(r, c - 1)] by {
        assert [Captured(r, c - 1)][1..] == [];
      }
      assert Captures(tail) == [] by {
        if c < n { assert tail[1..] == []; }
      }
      CapturesOfParts(RowPrefixEvents(p, r, n, c - 1), [Captured(r, c - 1)], tail, RowCells(r, c - 1), [(r, c - 1)]);
    }
  }

  /**
   * Whatever the device answers, a screenshot is requested for every cell of the grid, exactly
   * once, in row-major order.
   */
  lemma {:induction false} GridCapturesAllCells(p: Pans, script: seq<bool>, grid: seq<seq<Cell>>, k0: nat, r: nat)
    requires r <= |grid|
    ensures Captures(GridPrefix(p, script, grid, k0, r).0) == CellsUpTo(grid, r)
    decreases r
  {
    if r > 0 {
      GridCapturesAllCells(p, script, grid, k0, r - 1);
      GridCapturesNextRow(p, script, grid, k0, r);
    }
  }

  /** Adding a row to the walk adds that row's cells to the requested screenshots. */
  lemma GridCapturesNextRow(p: Pans, script: seq<bool>, grid: seq<seq<Cell>>, k0: nat, r: nat)
    requires 0 < r <= |grid|
    requires Captures(GridPrefix(p, script, grid, k0, r - 1).0) == CellsUpTo(grid, r - 1)
    ensures Captures(GridPrefix(p, script, grid, k0, r).0) == CellsUpTo(grid, r)
  {
    var prev := GridPrefix(p, script, grid, k0, r - 1);
    var row, k := r - 1, prev.1;
    RowStepCaptures(p, script, grid, row, k);
    var step := RowStep(p, script, grid, row, k);
    assert Captures(step.0) == RowCells(row, |grid[row]|);
    assert GridPrefix(p, script, grid, k0, r).0 == prev.0 + step.0;
    CapturesAppend(prev.0, step.0);
  }

  /** A row's requests capture exactly the row's cells, in order. */
  lemma RowStepCaptures(p: Pans, script: seq<bool>, grid: seq<seq<Cell>>, r: nat, k: nat)
    requires r < |grid|
    ensures Captures(RowStep(p, script, grid, r, k).0) == RowCells(r, |grid[r]|)
  {
    var n := |grid[r]|;
    var tail := RowStepEvents(p, script, grid, r, k);
    RowPrefixCaptures(p, r, n, n);
    CapturesAppend(RowPrefixEvents(p, r, n, n), tail);
  }

  /** A row's requests are its cells' requests followed by pans only. */
  lemma RowStepEvents(p: Pans, script: seq<bool>, grid: seq<seq<Cell>>, r: nat, k: nat) returns (tail: seq<Event>)
    requires r < |grid|
    ensures RowStep(p, script, grid, r, k).0 == RowPrefixEvents(p, r, |grid[r]|, |grid[r]|) + tail
    ensures Captures(tail) == []
  {
    var n := |grid[r]|;
    var t := RowTransition(p, script, k + RowPrefixSwipes(n, n), n);
    CapturesOfSwipes(t);
    if r + 1 < |grid| {
      tail := SwipeEvents(t);
    } else {
      tail := [];
      assert RowPrefixEvents(p, r, n, n) + tail == RowPrefixEvents(p, r, n, n);
    }
  }

  lemma CapturesOfParts(before: seq<Event>, row: seq<Event>, tail: seq<Event>, x: seq<(int, int)>, y: seq<(int, int)>)
    requires Captures(before) == x
    requires Captures(row) == y
    requires Captures(tail) == []
    ensures Captures(before + row + tail) == x + y
  {
    CapturesAppend(before, row);
    CapturesAppend(before + row, tail);
  }

  /** Between rows `cols - 1` left pans are attempted and one down pan always follows. */
  lemma RowTransitionShape(p: Pans, script: seq<bool>, k: nat, n: nat)
    ensures |RowTransition(p, script, k, n)| <= Max(0, n - 1) + 1
    ensures RowTransition(p, script, k, n)[|RowTransition(p, script, k, n)| - 1] == p.down
    ensures forall i :: 0 <= i < |RowTransition(p, script, k, n)| - 1 ==> RowTransition(p, script, k, n)[i] == p.left
    ensures Succeeds(script, k, Repeat(p.left, Max(0, n - 1))) ==>
              RowTransition(p, script, k, n) == Repeat(p.left, Max(0, n - 1)) + [p.down]
  {
    AttemptedStopsAtFirstFailure(script, k, Repeat(p.left, Max(0, n - 1)));
  }

  // ---------------------------------------------------------------------------------------------
  // The capture loop

  /** What `_move_to_row_start` and one down pan log is the row transition. */
  lemma RowTransitionEvents(cfg: Config, script: seq<bool>, k: nat, n: nat)
    ensures SwipeEvents(Attempted(script, k, RowReturn(cfg, n))) + [Swiped(VerticalSwipe(cfg, true))]
            == SwipeEvents(RowTransition(PansOf(cfg), script, k, n))
  {
    var p := PansOf(cfg);
    var a := Attempted(script, k, RowReturn(cfg, n));
    assert RowReturn(cfg, n) == Repeat(p.left, Max(0, n - 1));
    SwipeEventsAppend(a, [p.down]);
    assert SwipeEvents([p.down]) == [Swiped(VerticalSwipe(cfg, true))];
  }

  /**
   * The inner loop of `capture_lhasa_area` over row `r`: request each cell's screenshot, record
   * it when the request succeeds, and pan right after each non-last column, ignoring the answer.
   */
  method CaptureRow(ctrl: FakeController, cfg: Config, grid: seq<seq<Cell>>, r: nat) returns (rowShots: seq<ScreenshotInfo>)
    requires r < |grid|
    modifies ctrl
    ensures rowShots == RowShots(grid, ctrl.failingCells, r, |grid[r]|)
    ensures ctrl.log == old(ctrl.log) + RowPrefixEvents(PansOf(cfg), r, |grid[r]|, |grid[r]|)
    ensures ctrl.swipes == old(ctrl.swipes) + RowPrefixSwipes(|grid[r]|, |grid[r]|)
  {
    ghost var p := PansOf(cfg);
    var row := grid[r];
    var n := |row|;
    rowShots := [];
    var c := 0;
    while c < n
      invariant 0 <= c <= n
      invariant rowShots == RowShots(grid, ctrl.failingCells, r, c)
      invariant ctrl.log == old(ctrl.log) + RowPrefixEvents(p, r, n, c)
      invariant ctrl.swipes == old(ctrl.swipes) + RowPrefixSwipes(n, c)
    {
      ghost var logBefore := ctrl.log;
      var captured := ctrl.CaptureScreenshot(r, c);
      if captured {
        rowShots := rowShots + [ShotOf(row[c], r, c)];
      }
      if c < n - 1 {
        var _ := MoveHorizontal(ctrl, cfg, true);
        assert ctrl.log == logBefore + [Captured(r, c)] + [Swiped(p.right)];
      }
      c := c + 1;
    }
  }

  /** Between two rows of `n` cells: `_move_to_row_start`, then one pan down; answers are ignored. */
  method ToNextRow(ctrl: FakeController, cfg: Config, n: nat)
    modifies ctrl
    ensures ctrl.log == old(ctrl.log) + SwipeEvents(RowTransition(PansOf(cfg), ctrl.swipeScript, old(ctrl.swipes), n))
    ensures ctrl.swipes == old(ctrl.swipes) + |RowTransition(PansOf(cfg), ctrl.swipeScript, old(ctrl.swipes), n)|
  {
    var _ := MoveToRowStart(ctrl, cfg, n);
    ghost var back := SwipeEvents(Attempted(ctrl.swipeScript, old(ctrl.swipes), RowReturn(cfg, n)));
    assert ctrl.log == old(ctrl.log) + back;
    var _ := MoveVertical(ctrl, cfg, true);
    RowTransitionEvents(cfg, ctrl.swipeScript, old(ctrl.swipes), n);
    AppendAssoc(old(ctrl.log), back, [Swiped(VerticalSwipe(cfg, true))]);
  }

  /** One pass of the outer loop: row `r`, then, unless it is the last row, on to the next row. */
  method WalkRow(ctrl: FakeController, cfg: Config, grid: seq<seq<Cell>>, r: nat) returns (rowShots: seq<ScreenshotInfo>)
    requires r < |grid|
    modifies ctrl
    ensures rowShots == RowShots(grid, ctrl.failingCells, r, |grid[r]|)
    ensures ctrl.log == old(ctrl.log) + RowStep(PansOf(cfg), ctrl.swipeScript, grid, r, old(ctrl.swipes)).0
    ensures ctrl.swipes == RowStep(PansOf(cfg), ctrl.swipeScript, grid, r, old(ctrl.swipes)).1
  {
    ghost var p := PansOf(cfg);
    var n := |grid[r]|;
    rowShots := CaptureRow(ctrl, cfg, grid, r);
    if r < |grid| - 1 {
      ghost var afterRow := ctrl.log;
      ghost var k := ctrl.swipes;
      ToNextRow(ctrl, cfg, n);
      AppendAssoc(old(ctrl.log), RowPrefixEvents(p, r, n, n), SwipeEvents(RowTransition(p, ctrl.swipeScript, k, n)));
    }
  }

  /**
   * The nested loop of `capture_lhasa_area` over a planned grid: each row's cells in turn, and
   * between rows a return to the row start and one pan down, whose answers are ignored.
   */
  method CaptureCells(ctrl: FakeController, cfg: Config, grid: seq<seq<Cell>>) returns (shots: seq<ScreenshotInfo>)
    modifies ctrl
    ensures shots == GridShots(grid, ctrl.failingCells)
    ensures ctrl.log == old(ctrl.log) + GridPrefix(PansOf(cfg), ctrl.swipeScript, grid, old(ctrl.swipes), |grid|).0
    ensures ctrl.swipes == GridPrefix(PansOf(cfg), ctrl.swipeScript, grid, old(ctrl.swipes), |grid|).1
  {
    ghost var p := PansOf(cfg);
    ghost var k0 := ctrl.swipes;
    ghost var log0 := ctrl.log;
    shots := [];
    var r := 0;
    while r < |grid|
      invariant 0 <= r <= |grid|
      invariant shots == ShotsUpTo(grid, ctrl.failingCells, r)
      invariant ctrl.log == log0 + GridPrefix(p, ctrl.swipeScript, grid, k0, r).0
      invariant ctrl.swipes == GridPrefix(p, ctrl.swipeScript, grid, k0, r).1
    {
      ghost var before := GridPrefix(p, ctrl.swipeScript, grid, k0, r);
      var rowShots := WalkRow(ctrl, cfg, grid, r);
      shots := shots + rowShots;
      AppendAssoc(log0, before.0, RowStep(p, ctrl.swipeScript, grid, r, before.1).0);
      r := r + 1;
    }
  }

  /**
   * `capture_lhasa_area`: no screenshots when the grid cannot be planned or the move to the
   * start fails; otherwise the screenshots of the grid walk. When the grid can be planned, a
   * screen shorter than 3 pixels on a side makes the start move loop forever, so such screens are
   * excluded there.
   */
  method CaptureLhasaArea(ctrl: FakeController, cfg: Config, current: GeoPoint) returns (shots: seq<ScreenshotInfo>)
    requires SwipeDistancePixels(cfg).horizontal == 0 || SwipeDistancePixels(cfg).vertical == 0
             || MaxSwipeDistance(cfg) >= 1
    modifies ctrl
    ensures Plan(cfg, SwipeDistancePixels(cfg), CoordinatePerPixel(cfg, None)).None? ==>
              shots == [] && ctrl.log == old(ctrl.log) && ctrl.swipes == old(ctrl.swipes)
    ensures Plan(cfg, SwipeDistancePixels(cfg), CoordinatePerPixel(cfg, None)).Some? ==>
              var grid := Plan(cfg, SwipeDistancePixels(cfg), CoordinatePerPixel(cfg, None)).value.grid;
              var start := Attempted(ctrl.swipeScript, old(ctrl.swipes), StartCommands(cfg, current));
              if Succeeds(ctrl.swipeScript, old(ctrl.swipes), StartCommands(cfg, current)) then
                shots == GridShots(grid, ctrl.failingCells)
                && ctrl.log == old(ctrl.log) + SwipeEvents(start)
                               + GridPrefix(PansOf(cfg), ctrl.swipeScript, grid, old(ctrl.swipes) + |start|, |grid|).0
              else
                shots == [] && ctrl.log == old(ctrl.log) + SwipeEvents(start)
  {
    var plan := CalculateCaptureGrid(cfg);
    if plan.None? {
      return [];
    }
    var moved := MoveToStartPosition(ctrl, cfg, current);
    if !moved {
      return [];
    }
    shots := CaptureCells(ctrl, cfg, plan.value.grid);
  }
}
