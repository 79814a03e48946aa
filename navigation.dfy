/**
 * Driving the map to the capture start and across the capture grid. The device is a recording
 * controller: it logs every swipe and screenshot request in order, answers the `k`-th swipe from a
 * script, and fails screenshots of a given set of cells.
 */
module Navigation {
  import opened Wrappers
  import opened PyOps
  import opened Settings
  import opened CaptureGrid
  import opened Location
  import opened Seqs

  /** An `input swipe` request: start and end point in screen pixels and a duration in ms. */
  datatype SwipeCommand = SwipeCommand(startX: int, startY: int, endX: int, endY: int, duration: int)

  datatype Event = Swiped(command: SwipeCommand) | Captured(row: int, col: int)

  /** The log entries of a list of swipes. */
  function SwipeEvents(cmds: seq<SwipeCommand>): (events: seq<Event>)
    ensures |events| == |cmds|
    ensures forall i :: 0 <= i < |cmds| ==> events[i] == Swiped(cmds[i])
  {
    seq(|cmds|, i requires 0 <= i < |cmds| => Swiped(cmds[i]))
  }

  /** The log entries of two lists of swipes are those of the first followed by those of the second. */
  lemma SwipeEventsAppend(a: seq<SwipeCommand>, b: seq<SwipeCommand>)
    ensures SwipeEvents(a + b) == SwipeEvents(a) + SwipeEvents(b)
  {
  }

  /** Logging one more command of a list extends the logged prefix by one. */
  lemma LogGrows(log: seq<Event>, cmds: seq<SwipeCommand>, i: nat)
    requires i < |cmds|
    ensures log + SwipeEvents(cmds[..i]) + [Swiped(cmds[i])] == log + SwipeEvents(cmds[..i + 1])
  {
    assert SwipeEvents(cmds[..i + 1]) == SwipeEvents(cmds[..i]) + [Swiped(cmds[i])];
  }

  /** The scripted answer to the `k`-th swipe; swipes past the end of the script succeed. */
  function SwipeOk(script: seq<bool>, k: nat): bool {
    k >= |script| || script[k]
  }

  /**
   * The swipes actually issued when `cmds` are sent in order, the first being swipe number `k`,
   * and sending stops after the first failure (which is itself issued).
   */
  function Attempted(script: seq<bool>, k: nat, cmds: seq<SwipeCommand>): (issued: seq<SwipeCommand>)
    ensures |issued| <= |cmds|
    decreases |cmds|
  {
    if cmds == [] then []
    else if SwipeOk(script, k) then [cmds[0]] + Attempted(script, k + 1, cmds[1..])
    else [cmds[0]]
  }

  /** Whether sending `cmds` from swipe number `k` on meets no failure. */
  predicate Succeeds(script: seq<bool>, k: nat, cmds: seq<SwipeCommand>)
    decreases |cmds|
  {
    cmds == [] || (SwipeOk(script, k) && Succeeds(script, k + 1, cmds[1..]))
  }

  /**
   * Stopping at the first failure: sending succeeds exactly when every swipe's answer is a
   * success, and then all are issued; otherwise exactly the swipes up to and including the first
   * failing one are issued.
   */
  lemma {:induction false} AttemptedStopsAtFirstFailure(script: seq<bool>, k: nat, cmds: seq<SwipeCommand>)
    ensures Succeeds(script, k, cmds) <==> forall i :: k <= i < k + |cmds| ==> SwipeOk(script, i)
    ensures Succeeds(script, k, cmds) ==> Attempted(script, k, cmds) == cmds
    ensures !Succeeds(script, k, cmds) ==>
              var n := |Attempted(script, k, cmds)|;
              0 < n && !SwipeOk(script, k + n - 1) && forall i :: k <= i < k + n - 1 ==> SwipeOk(script, i)
    ensures Attempted(script, k, cmds) == cmds[..|Attempted(script, k, cmds)|]
    decreases |cmds|
  {
    if cmds != [] {
      AttemptedStopsAtFirstFailure(script, k + 1, cmds[1..]);
      if SwipeOk(script, k) {
        var rest := Attempted(script, k + 1, cmds[1..]);
        assert cmds[1..][..|rest|] == cmds[1..|rest| + 1];
        assert cmds[..|rest| + 1] == [cmds[0]] + cmds[1..|rest| + 1];
      }
    }
  }

  /** When swipe `k + i` is the first to fail, exactly the first `i + 1` commands are issued. */
  lemma AttemptedFailsAt(script: seq<bool>, k: nat, cmds: seq<SwipeCommand>, i: nat)
    requires i < |cmds|
    requires forall j :: k <= j < k + i ==> SwipeOk(script, j)
    requires !SwipeOk(script, k + i)
    ensures Attempted(script, k, cmds) == cmds[..i + 1]
    ensures !Succeeds(script, k, cmds)
  {
    AttemptedStopsAtFirstFailure(script, k, cmds);
  }

  /** When no swipe fails, every command is issued. */
  lemma AttemptedAllOk(script: seq<bool>, k: nat, cmds: seq<SwipeCommand>)
    requires forall j :: k <= j < k + |cmds| ==> SwipeOk(script, j)
    ensures Attempted(script, k, cmds) == cmds
    ensures Succeeds(script, k, cmds)
  {
    AttemptedStopsAtFirstFailure(script, k, cmds);
  }

  /** Sending `a` and then `b` meets no failure exactly when neither part meets one. */
  lemma {:induction false} SucceedsAppend(script: seq<bool>, k: nat, a: seq<SwipeCommand>, b: seq<SwipeCommand>)
    ensures Succeeds(script, k, a + b) == (Succeeds(script, k, a) && Succeeds(script, k + |a|, b))
    decreases |a|
  {
    if a == [] {
      assert a + b == b;
    } else {
      assert (a + b)[1..] == a[1..] + b;
      SucceedsAppend(script, k + 1, a[1..], b);
    }
  }

  /**
   * Sending `a` and then `b` issues the attempted part of `a` and, only when all of `a` succeeded,
   * the attempted part of `b`, numbered on from where `a` ended.
   */
  lemma {:induction false} AttemptedAppend(script: seq<bool>, k: nat, a: seq<SwipeCommand>, b: seq<SwipeCommand>)
    ensures Succeeds(script, k, a) ==> Attempted(script, k, a + b) == a + Attempted(script, k + |a|, b)
    ensures !Succeeds(script, k, a) ==> Attempted(script, k, a + b) == Attempted(script, k, a)
    decreases |a|
  {
    if a == [] {
      assert a + b == b;
    } else if !SwipeOk(script, k) {
      assert (a + b)[0] == a[0];
      assert Attempted(script, k, a + b) == [a[0]] == Attempted(script, k, a);
    } else {
      AttemptedAppendPast(script, k, a, b);
    }
  }

  /** `AttemptedAppend` when the first swipe of `a` succeeds. */
  lemma {:induction false} AttemptedAppendPast(script: seq<bool>, k: nat, a: seq<SwipeCommand>, b: seq<SwipeCommand>)
    requires a != [] && SwipeOk(script, k)
    ensures Succeeds(script, k, a) ==> Attempted(script, k, a + b) == a + Attempted(script, k + |a|, b)
    ensures !Succeeds(script, k, a) ==> Attempted(script, k, a + b) == Attempted(script, k, a)
    decreases |a|, 0
  {
    var h, tail := a[0], a[1..];
    assert a == [h] + tail;
    assert a + b == [h] + (tail + b);
    AttemptedCons(script, k, h, tail + b);
    AttemptedCons(script, k, h, tail);
    AttemptedAppend(script, k + 1, tail, b);
    var rest := Attempted(script, k + 1, tail + b);
    if Succeeds(script, k + 1, tail) {
      AppendAssoc([h], tail, Attempted(script, k + 1 + |tail|, b));
      assert rest == tail + Attempted(script, k + 1 + |tail|, b);
      assert Attempted(script, k, a + b) == a + Attempted(script, k + |a|, b);
    } else {
      assert rest == Attempted(script, k + 1, tail);
      assert Attempted(script, k, a + b) == Attempted(script, k, a);
    }
  }

  /** `Attempted` and `Succeeds` of a list with a known first swipe that succeeds. */
  lemma AttemptedCons(script: seq<bool>, k: nat, h: SwipeCommand, rest: seq<SwipeCommand>)
    requires SwipeOk(script, k)
    ensures Attempted(script, k, [h] + rest) == [h] + Attempted(script, k + 1, rest)
    ensures Succeeds(script, k, [h] + rest) == Succeeds(script, k + 1, rest)
  {
    assert ([h] + rest)[0] == h && ([h] + rest)[1..] == rest;
  }

  /**
   * The device as the capture code sees it. `swipeScript[k]` answers swipe number `k` (counting
   * from 0; later ones succeed), and a screenshot of a cell in `failingCells` fails. `log` lists
   * every request in order and `swipes` counts the swipe requests.
   */
  class FakeController {
    const swipeScript: seq<bool>
    const failingCells: set<(int, int)>
    var log: seq<Event>
    var swipes: nat

    constructor (swipeScript: seq<bool>, failingCells: set<(int, int)>)
      ensures this.swipeScript == swipeScript && this.failingCells == failingCells
      ensures log == [] && swipes == 0
    {
      this.swipeScript := swipeScript;
      this.failingCells := failingCells;
      log := [];
      swipes := 0;
    }

    method Swipe(command: SwipeCommand) returns (ok: bool)
      modifies this
      ensures log == old(log) + [Swiped(command)] && swipes == old(swipes) + 1
      ensures ok == SwipeOk(swipeScript, old(swipes))
    {
      ok := SwipeOk(swipeScript, swipes);
      log := log + [Swiped(command)];
      swipes := swipes + 1;
    }

    /** A screenshot request for the cell in row `row` and column `col`. */
    method CaptureScreenshot(row: int, col: int) returns (ok: bool)
      modifies this
      ensures log == old(log) + [Captured(row, col)] && swipes == old(swipes)
      ensures ok == ((row, col) !in failingCells)
    {
      log := log + [Captured(row, col)];
      ok := (row, col) !in failingCells;
    }
  }

  /** The pan of one horizontal grid step, centred on the screen; `right` moves the view east. */
  function HorizontalSwipe(cfg: Config, right: bool): (s: SwipeCommand)
    ensures s.startY == s.endY == cfg.screenHeight / 2
    ensures s.startX + s.endX == 2 * (cfg.screenWidth / 2)
    ensures right ==> s.startX - s.endX == 2 * (SwipeDistancePixels(cfg).horizontal / 2)
    ensures !right ==> s.endX - s.startX == 2 * (SwipeDistancePixels(cfg).horizontal / 2)
    ensures s.duration == cfg.swipeDuration
  {
    var d := SwipeDistancePixels(cfg).horizontal;
    var cx, cy := cfg.screenWidth / 2, cfg.screenHeight / 2;
    if right then SwipeCommand(cx + d / 2, cy, cx - d / 2, cy, cfg.swipeDuration)
    else SwipeCommand(cx - d / 2, cy, cx + d / 2, cy, cfg.swipeDuration)
  }

  /** The pan of one vertical grid step, centred on the screen; `down` moves the view south. */
  function VerticalSwipe(cfg: Config, down: bool): (s: SwipeCommand)
    ensures s.startX == s.endX == cfg.screenWidth / 2
    ensures s.startY + s.endY == 2 * (cfg.screenHeight / 2)
    ensures down ==> s.endY - s.startY == 2 * (SwipeDistancePixels(cfg).vertical / 2)
    ensures !down ==> s.startY - s.endY == 2 * (SwipeDistancePixels(cfg).vertical / 2)
    ensures s.duration == cfg.swipeDuration
  {
    var d := SwipeDistancePixels(cfg).vertical;
    var cx, cy := cfg.screenWidth / 2, cfg.screenHeight / 2;
    if down then SwipeCommand(cx, cy - d / 2, cx, cy + d / 2, cfg.swipeDuration)
    else SwipeCommand(cx, cy + d / 2, cx, cy - d / 2, cfg.swipeDuration)
  }

  function Reversed(s: SwipeCommand): SwipeCommand {
    SwipeCommand(s.endX, s.endY, s.startX, s.startY, s.duration)
  }

  /** Opposite directions are the same stroke traced backwards. */
  lemma SwipesMirror(cfg: Config)
    ensures HorizontalSwipe(cfg, false) == Reversed(HorizontalSwipe(cfg, true))
    ensures VerticalSwipe(cfg, false) == Reversed(VerticalSwipe(cfg, true))
  {
  }

  /** As shipped a right pan strokes 784 pixels leftward across the centre (540, 1170). */
  lemma ShippedRightSwipe()
    ensures HorizontalSwipe(Shipped, true) == SwipeCommand(932, 1170, 148, 1170, 500)
    ensures VerticalSwipe(Shipped, true) == SwipeCommand(540, 374, 540, 1966, 500)
  {
    ShippedSwipeDistance();
  }

  /** `_move_horizontal`: one grid-step swipe. */
  method MoveHorizontal(ctrl: FakeController, cfg: Config, right: bool) returns (ok: bool)
    modifies ctrl
    ensures ctrl.log == old(ctrl.log) + [Swiped(HorizontalSwipe(cfg, right))] && ctrl.swipes == old(ctrl.swipes) + 1
    ensures ok == SwipeOk(ctrl.swipeScript, old(ctrl.swipes))
  {
    ok := ctrl.Swipe(HorizontalSwipe(cfg, right));
  }

  /** `_move_vertical`: one grid-step swipe. */
  method MoveVertical(ctrl: FakeController, cfg: Config, down: bool) returns (ok: bool)
    modifies ctrl
    ensures ctrl.log == old(ctrl.log) + [Swiped(VerticalSwipe(cfg, down))] && ctrl.swipes == old(ctrl.swipes) + 1
    ensures ok == SwipeOk(ctrl.swipeScript, old(ctrl.swipes))
  {
    ok := ctrl.Swipe(VerticalSwipe(cfg, down));
  }

  /** `n` copies of one swipe. */
  function Repeat(cmd: SwipeCommand, n: nat): (cmds: seq<SwipeCommand>)
    ensures |cmds| == n
    ensures forall i :: 0 <= i < n ==> cmds[i] == cmd
  {
    seq(n, _ => cmd)
  }

  /** The `cols - 1` left pans that return to the start of a row (none when `cols < 2`). */
  function RowReturn(cfg: Config, cols: int): seq<SwipeCommand> {
    Repeat(HorizontalSwipe(cfg, false), Max(0, cols - 1))
  }

  /** `_move_to_row_start`: left pans until all are done or the first one fails. */
  method MoveToRowStart(ctrl: FakeController, cfg: Config, colsInRow: int) returns (ok: bool)
    modifies ctrl
    ensures ctrl.log == old(ctrl.log) + SwipeEvents(Attempted(ctrl.swipeScript, old(ctrl.swipes), RowReturn(cfg, colsInRow)))
    ensures ctrl.swipes == old(ctrl.swipes) + |Attempted(ctrl.swipeScript, old(ctrl.swipes), RowReturn(cfg, colsInRow))|
    ensures ok == Succeeds(ctrl.swipeScript, old(ctrl.swipes), RowReturn(cfg, colsInRow))
  {
    ghost var cmds := RowReturn(cfg, colsInRow);
    ghost var k0 := ctrl.swipes;
    ghost var script := ctrl.swipeScript;
    var i := 0;
    while i < Max(0, colsInRow - 1)
      invariant 0 <= i <= |cmds|
      invariant ctrl.log == old(ctrl.log) + SwipeEvents(cmds[..i])
      invariant ctrl.swipes == k0 + i
      invariant forall j :: k0 <= j < k0 + i ==> SwipeOk(script, j)
    {
      var moved := MoveHorizontal(ctrl, cfg, false);
      LogGrows(old(ctrl.log), cmds, i);
      if !moved {
        AttemptedFailsAt(script, k0, cmds, i);
        return false;
      }
      assert SwipeOk(script, k0 + i);
      i := i + 1;
    }
    assert cmds[..i] == cmds;
    AttemptedAllOk(script, k0, cmds);
    return true;
  }

  /** One chunk of the approach: the remaining offset clamped to `[-cap, cap]`. */
  function Chunk(offset: int, cap: int): int {
    Max(-cap, Min(cap, offset))
  }

  /**
   * The chunks the approach loop moves by: while more than 50 pixels remain, move by the
   * remaining offset clamped to the largest swipe.
   */
  function ApproachMoves(offset: int, cap: int): seq<int>
    requires cap >= 1
    decreases Abs(offset)
  {
    if Abs(offset) <= 50 then [] else [Chunk(offset, cap)] + ApproachMoves(offset - Chunk(offset, cap), cap)
  }

  /** The offset left over once the approach loop stops. */
  function ApproachRest(offset: int, cap: int): int
    requires cap >= 1
    decreases Abs(offset)
  {
    if Abs(offset) <= 50 then offset else ApproachRest(offset - Chunk(offset, cap), cap)
  }

  function Sum(s: seq<int>): int
    decreases |s|
  {
    if s == [] then 0 else s[0] + Sum(s[1..])
  }

  /**
   * The approach loop: each move is between 1 and `cap` pixels and has the sign of the offset, the
   * loop stops within 50 pixels without crossing zero, and the moves plus what is left add up to
   * the initial offset.
   */
  lemma {:induction false} ApproachProperties(offset: int, cap: int)
    requires cap >= 1
    ensures forall i :: 0 <= i < |ApproachMoves(offset, cap)| ==>
              1 <= Abs(ApproachMoves(offset, cap)[i]) <= cap
              && (offset > 0 ==> ApproachMoves(offset, cap)[i] > 0)
              && (offset < 0 ==> ApproachMoves(offset, cap)[i] < 0)
    ensures Abs(ApproachRest(offset, cap)) <= 50
    ensures Abs(ApproachRest(offset, cap)) <= Abs(offset)
    ensures (offset >= 0 ==> ApproachRest(offset, cap) >= 0) && (offset <= 0 ==> ApproachRest(offset, cap) <= 0)
    ensures Sum(ApproachMoves(offset, cap)) + ApproachRest(offset, cap) == offset
    decreases Abs(offset)
  {
    if Abs(offset) > 50 {
      var m := Chunk(offset, cap);
      ApproachProperties(offset - m, cap);
      var rest := ApproachMoves(offset - m, cap);
      assert ApproachMoves(offset, cap) == [m] + rest;
      assert ApproachMoves(offset, cap)[1..] == rest;
      forall i | 0 <= i < |ApproachMoves(offset, cap)|
        ensures 1 <= Abs(ApproachMoves(offset, cap)[i]) <= cap
        ensures offset > 0 ==> ApproachMoves(offset, cap)[i] > 0
        ensures offset < 0 ==> ApproachMoves(offset, cap)[i] < 0
      {
        if i > 0 { assert ApproachMoves(offset, cap)[i] == rest[i - 1]; }
      }
    }
  }

  /** The approach moves no further than the offset asks for: `|sum| <= |offset|`, same sign. */
  lemma ApproachNeverOvershoots(offset: int, cap: int)
    requires cap >= 1
    ensures offset >= 0 ==> 0 <= Sum(ApproachMoves(offset, cap)) <= offset
    ensures offset <= 0 ==> offset <= Sum(ApproachMoves(offset, cap)) <= 0
  {
    ApproachProperties(offset, cap);
  }

  /** The largest single approach swipe: a third of the shorter screen side. */
  function MaxSwipeDistance(cfg: Config): int {
    Min(cfg.screenWidth, cfg.screenHeight) / 3
  }

  /** The offset in pixels from the capture start (the north-west corner) to the current point. */
  function StartOffset(cfg: Config, current: GeoPoint): (int, int) {
    var cpp := CoordinatePerPixel(cfg, None);
    (Trunc((current.lng - cfg.bounds.west) / cpp.lng), Trunc((current.lat - cfg.bounds.north) / cpp.lat))
  }

  /**
   * The approach swipe for a move of `m` pixels from the centre `(cx, cy)`: a horizontal swipe to
   * the left by `m`, or a vertical swipe down by `m`.
   */
  function ApproachSwipe(cx: int, cy: int, m: int, horizontal: bool): SwipeCommand {
    if horizontal then SwipeCommand(cx, cy, cx - m, cy, DefaultSwipeDuration)
    else SwipeCommand(cx, cy, cx, cy + m, DefaultSwipeDuration)
  }

  function AxisApproach(cx: int, cy: int, moves: seq<int>, horizontal: bool): (cmds: seq<SwipeCommand>)
    ensures |cmds| == |moves|
    ensures forall i :: 0 <= i < |moves| ==> cmds[i] == ApproachSwipe(cx, cy, moves[i], horizontal)
  {
    seq(|moves|, i requires 0 <= i < |moves| => ApproachSwipe(cx, cy, moves[i], horizontal))
  }

  /** The duration the controller's `swipe` uses when none is given. */
  const DefaultSwipeDuration: int := 500

  /**
   * The swipes that move the map by the pixel offset `(px, py)` from the screen centre `(cx, cy)`:
   * all horizontal approach swipes, then all vertical ones.
   */
  function ApproachCommands(cx: int, cy: int, px: int, py: int, cap: int): seq<SwipeCommand>
    requires cap >= 1
  {
    AxisApproach(cx, cy, ApproachMoves(px, cap), true) + AxisApproach(cx, cy, ApproachMoves(py, cap), false)
  }

  /** The swipes of the approach to the capture start, from the screen centre. */
  function StartCommands(cfg: Config, current: GeoPoint): seq<SwipeCommand>
    requires MaxSwipeDistance(cfg) >= 1
  {
    var (px, py) := StartOffset(cfg, current);
    ApproachCommands(cfg.screenWidth / 2, cfg.screenHeight / 2, px, py, MaxSwipeDistance(cfg))
  }

  /**
   * One approach loop of `_move_to_start_position`: while more than 50 pixels of `offset` remain,
   * swipe by the remainder clamped to `cap`; the first failing swipe ends the loop.
   */
  method ApproachAxis(ctrl: FakeController, cx: int, cy: int, offset: int, cap: int, horizontal: bool)
    returns (ok: bool)
    requires cap >= 1
    modifies ctrl
    ensures ctrl.log == old(ctrl.log) + SwipeEvents(Attempted(ctrl.swipeScript, old(ctrl.swipes), AxisApproach(cx, cy, ApproachMoves(offset, cap), horizontal)))
    ensures ctrl.swipes == old(ctrl.swipes) + |Attempted(ctrl.swipeScript, old(ctrl.swipes), AxisApproach(cx, cy, ApproachMoves(offset, cap), horizontal))|
    ensures ok == Succeeds(ctrl.swipeScript, old(ctrl.swipes), AxisApproach(cx, cy, ApproachMoves(offset, cap), horizontal))
  {
    ghost var k0 := ctrl.swipes;
    ghost var script := ctrl.swipeScript;
    ghost var moves := ApproachMoves(offset, cap);
    ghost var cmds := AxisApproach(cx, cy, moves, horizontal);
    var pixels := offset;
    ghost var i := 0;
    while Abs(pixels) > 50
      invariant 0 <= i <= |moves|
      invariant moves[i..] == ApproachMoves(pixels, cap)
      invariant ctrl.log == old(ctrl.log) + SwipeEvents(cmds[..i])
      invariant ctrl.swipes == k0 + i
      invariant forall m :: k0 <= m < k0 + i ==> SwipeOk(script, m)
      decreases Abs(pixels)
    {
      var move := Max(-cap, Min(cap, pixels));
      assert moves[i] == move && moves[i + 1..] == ApproachMoves(pixels - move, cap);
      var command := if horizontal then SwipeCommand(cx, cy, cx - move, cy, DefaultSwipeDuration)
                     else SwipeCommand(cx, cy, cx, cy + move, DefaultSwipeDuration);
      assert cmds[i] == command;
      var swiped := ctrl.Swipe(command);
      LogGrows(old(ctrl.log), cmds, i);
      if !swiped {
        AttemptedFailsAt(script, k0, cmds, i);
        return false;
      }
      assert SwipeOk(script, k0 + i);
      pixels := pixels - move;
      i := i + 1;
    }
    assert cmds[..i] == cmds;
    AttemptedAllOk(script, k0, cmds);
    return true;
  }

  /** Both approach loops: horizontally first, then, unless a swipe failed, vertically. */
  method Approach(ctrl: FakeController, cx: int, cy: int, px: int, py: int, cap: int) returns (ok: bool)
    requires cap >= 1
    modifies ctrl
    ensures ctrl.log == old(ctrl.log) + SwipeEvents(Attempted(ctrl.swipeScript, old(ctrl.swipes), ApproachCommands(cx, cy, px, py, cap)))
    ensures ctrl.swipes == old(ctrl.swipes) + |Attempted(ctrl.swipeScript, old(ctrl.swipes), ApproachCommands(cx, cy, px, py, cap))|
    ensures ok == Succeeds(ctrl.swipeScript, old(ctrl.swipes), ApproachCommands(cx, cy, px, py, cap))
  {
    ghost var script, k0, log0 := ctrl.swipeScript, ctrl.swipes, ctrl.log;
    ghost var a := AxisApproach(cx, cy, ApproachMoves(px, cap), true);
    ghost var b := AxisApproach(cx, cy, ApproachMoves(py, cap), false);
    ghost var cmds := ApproachCommands(cx, cy, px, py, cap);
    assert cmds == a + b;
    AttemptedAppend(script, k0, a, b);
    SucceedsAppend(script, k0, a, b);
    ok := ApproachAxis(ctrl, cx, cy, px, cap, true);
    if ok {
      AttemptedStopsAtFirstFailure(script, k0, a);
      ghost var log1 := ctrl.log;
      assert log1 == log0 + SwipeEvents(a);
      assert ctrl.swipes == k0 + |a|;
      ok := ApproachAxis(ctrl, cx, cy, py, cap, false);
      ghost var rest := Attempted(script, k0 + |a|, b);
      assert Attempted(script, k0, cmds) == a + rest;
      assert ctrl.log == log1 + SwipeEvents(rest);
      SwipeEventsAppend(a, rest);
      AppendAssoc(log0, SwipeEvents(a), SwipeEvents(rest));
    } else {
      assert Attempted(script, k0, cmds) == Attempted(script, k0, a);
    }
  }

  /**
   * `_move_to_start_position`: the pixel offset from the capture start (the north-west corner) to
   * the current point is approached by swipes from the screen centre, in order until one fails; the
   * move succeeds exactly when none failed. A screen shorter than 3 pixels on a side makes the
   * source loop forever, so such screens are excluded.
   */
  method MoveToStartPosition(ctrl: FakeController, cfg: Config, current: GeoPoint) returns (ok: bool)
    requires MaxSwipeDistance(cfg) >= 1
    modifies ctrl
    ensures ctrl.log == old(ctrl.log) + SwipeEvents(Attempted(ctrl.swipeScript, old(ctrl.swipes), StartCommands(cfg, current)))
    ensures ctrl.swipes == old(ctrl.swipes) + |Attempted(ctrl.swipeScript, old(ctrl.swipes), StartCommands(cfg, current))|
    ensures ok == Succeeds(ctrl.swipeScript, old(ctrl.swipes), StartCommands(cfg, current))
  {
    var cpp := CoordinatePerPixel(cfg, None);
    var latDiff := current.lat - cfg.bounds.north;
    var lngDiff := current.lng - cfg.bounds.west;
    var pixelX := Trunc(lngDiff / cpp.lng);
    var pixelY := Trunc(latDiff / cpp.lat);
    var centerX := cfg.screenWidth / 2;
    var centerY := cfg.screenHeight / 2;
    var maxSwipe := Min(cfg.screenWidth, cfg.screenHeight) / 3;
    assert StartCommands(cfg, current) == ApproachCommands(centerX, centerY, pixelX, pixelY, maxSwipe);
    ok := Approach(ctrl, centerX, centerY, pixelX, pixelY, maxSwipe);
  }
}
