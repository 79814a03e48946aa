# Lhasa ride-hailing heatmap monitor: a verified model of its core

The monitor drives an Android phone over ADB and pans a ride-hailing map across a fixed box
of central Lhasa. It captures a grid of screenshots and stitches them into one map. It then detects the
orange order-zone hexagons on that map, places them geographically and ranks historic hot zones
to predict where orders will appear. This project models, in Dafny, the deterministic part of that
pipeline:

- **Settings** (`settings.dfy`): the shipped constants, the display area, the projection
  (meters and degrees per pixel at a zoom level), the pan step, and how a parsed settings file
  updates the configuration class.
- **Location** (`location.dfy`): pixel offset ↔ geographic point around a reference, the inclusive
  target-area check, best-template selection for the GPS icon, and the location computed from an
  icon position.
- **CaptureGrid** (`capture_grid.dfy`): the capture plan (rows, columns, centre and extent of each
  cell), with a proof that the cells cover the target box.
- **Navigation** (`navigation.dfy`): the grid pans and the chunked approach to the capture start,
  run against a recording controller that answers each swipe from a script.
- **Capture** (`capture.dfy`): `capture_lhasa_area`, the row-major walk that requests one
  screenshot per cell, records the successful ones and pans between cells.
- **Stitcher** (`stitcher.dfy`): placing screenshots on their grid, cropping the UI margins,
  trimming the pan overlap and joining rows, then the column of rows. Images are their dimensions.
- **Hexagons** (`hexagons.dfy`): the contour acceptance rule, the greedy area-first de-duplication,
  the confidence score and the pixel → degree placement.
- **Adb** (`adb.dfy`): command lines, the `adb devices` and `wm size` parsers, device selection,
  and the `connected` flag guarding every device action. Process execution is a parameter.
- **Predictor** (`predictor.dfy`): zone counting, ranking and top-k selection, the prediction
  confidence table, the lag and moving-average features, multi-interval prediction and the
  data-count gate on training.
- Support modules: `PyOps` (Python's `int()` truncation, `min`/`max`, slicing), `Text` (the
  `str` methods the parsers use), `Sorting` (the stable `sorted(..., reverse=True)`), `Arith`
  and `Wrappers` (`Option`).

Python floats are modelled as exact `real`s and Python integers as `int`. `int(x)` on a float
truncates toward zero (`PyOps.Trunc`). cos(29.65°) and π are decimal constants, and the proofs use only
`0 < cos < 1`. Mutable objects keep their source form: the ADB controller, the predictor's trained
flag and the configuration class's attribute table are classes updated by methods, and loops
are `while`/`for` loops proved against the function that specifies them.

## Model

| member | source | states |
|---|---|---|
| Settings.ShippedDisplayArea | config/settings.py:31-40 | The display area is the screen minus the left/right and top/bottom margins: 980 × 1990 as shipped. The shipped target box is ordered. |
| Settings.Pow2 | config/settings.py:121 | `2 ** z` is positive for every integer zoom, including negative ones. |
| Settings.Pow2Succ | config/settings.py:121 | `2 ** (z + 1) == 2 · 2 ** z` for every integer `z`. |
| Settings.MetersPerPixel | config/settings.py:104-122 | Meters per pixel is positive at every zoom level. |
| Settings.MetersPerPixelHalves | config/settings.py:104-122 | One zoom level more halves the meters per pixel. |
| Settings.MetersPerPixelDecreasing | config/settings.py:104-122 | A higher zoom level always gives fewer meters per pixel. |
| Settings.MetersPerPixelDefaultZoom | config/settings.py:109-122 | A `None` zoom gives the meters per pixel of the configured zoom (14 as shipped) and of no other zoom level. |
| Settings.CoordinatePerPixel | config/settings.py:124-146 | `lat_per_pixel == lng_per_pixel · cos(29.65°)`, so `0 < lat_per_pixel < lng_per_pixel`. |
| Settings.SwipeStep | config/settings.py:155-156 | For a non-negative display and an overlap in [0, 1], the step is `floor(display · (1 − overlap))` and lies in [0, display], so consecutive frames overlap. |
| Settings.SwipeDistancePixels | config/settings.py:148-157 | Both pan steps lie in [0, display side] when the overlap is in [0, 1]. |
| Settings.ShippedSwipeDistance | config/settings.py:148-157 | As shipped the pan steps are 784 and 1592 pixels. |
| Settings.ConfigClass.constructor | config/settings.py:10-101 | The attribute table starts as the class's declared attributes. |
| Settings.ConfigClass.LoadFromParsed | config/settings.py:159-174 | An unreadable or missing file changes nothing; otherwise the attribute table becomes the `setattr` merge of the parsed items in file order. |
| Settings.MergeKeepsKeys | config/settings.py:169-171 | Loading never adds or removes an attribute: unknown keys are ignored. |
| Settings.MergeLeavesUnmentioned | config/settings.py:169-171 | An attribute the file does not mention keeps its value. |
| Settings.MergeLastMentionWins | config/settings.py:169-171 | An existing attribute mentioned in the file takes the value of its last mention. |
| Location.Shift | src/gps/location_manager.py:305-314 | Pixel (0, 0) is the reference itself. Positive y moves south and positive x moves east, and negative offsets move the other way. |
| Location.Steps | src/gps/location_manager.py:335-343 | A target north of the reference gives a pixel y ≤ 0 and one south a y ≥ 0. East gives x ≥ 0 and west x ≤ 0. |
| Location.PixelToCoords | src/gps/location_manager.py:291-318 | At the configured zoom, pixel (0, 0) is the reference. A pixel with y > 0 lies south and one with x > 0 east, and negative offsets lie the other way. |
| Location.CoordsToPixel | src/gps/location_manager.py:320-347 | At the configured zoom, a target north of the reference gets y ≤ 0 and one south y ≥ 0. A target east gets x ≥ 0 and one west x ≤ 0. |
| Location.AxisNear | src/gps/location_manager.py:340-341 | Truncating `d / c` to whole steps lands strictly within one step `c` of `d`. |
| Location.ShiftThenSteps | src/gps/location_manager.py:305-343 | Converting a pixel offset to coordinates and back returns the same pixel offset exactly. |
| Location.StepsThenShift | src/gps/location_manager.py:305-343 | Converting coordinates to pixels and back lands less than one pixel's span of degrees away on each axis. |
| Location.PixelRoundTrip | src/gps/location_manager.py:291-343 | `convert_coords_to_pixel(convert_pixel_to_coords(px, py, ref), ref) == (px, py)` at the configured zoom. |
| Location.CoordsRoundTrip | src/gps/location_manager.py:291-343 | The opposite round trip stays within one pixel's span of degrees at the configured zoom. |
| Location.TargetAreaInclusive | src/gps/location_manager.py:229-243 | All four corners of an ordered target box pass the area check (inclusive on every edge). |
| Location.MatchTemplate | src/gps/location_manager.py:128-163 | A template matches exactly when its score exceeds 0.5. The match carries that score and a centre inside the template's box at the found location. |
| Location.BestMatchIsMaximum | src/gps/location_manager.py:106-116 | A best match exists exactly when some template scores above 0.5, and its confidence is at least every such score. |
| Location.BestMatchIsFirst | src/gps/location_manager.py:113-115 | The best match is that of a template scoring strictly above every template before it: ties keep the earlier template. |
| Location.IconAcceptedIff | src/gps/location_manager.py:118-122 | The icon is accepted exactly when some template scores above 0.7. |
| Location.FindGpsIcon | src/gps/location_manager.py:85-126 | No templates or an unreadable screenshot give `None`. Otherwise the result is the best match's centre when its confidence exceeds 0.7, else `None`. |
| Location.CalculateLocationFromImage | src/gps/location_manager.py:165-214 | The result is the reference or a point inside the target area. No icon gives the reference. Otherwise the icon's offset from `(W // 2, H // 2)` is shifted from the reference, and that point is kept only when inside the area. |
| CaptureGrid.GeometryOf | src/image/screenshot_manager.py:118-127 | A pan step in degrees is zero exactly when it is zero pixels. With steps no larger than the display, each pan span is non-negative and no larger than the map view it belongs to. |
| CaptureGrid.GridCount | src/image/screenshot_manager.py:133-134 | At least one step. For a non-negative span and a positive step, `(n − 1) · step ≤ total < n · step`, so `n · step` exceeds the span. |
| CaptureGrid.Plan | src/image/screenshot_manager.py:106-173 | `None` exactly when a pan step is zero (the division raises). Otherwise `rows, cols ≥ 1` from `int(total / step) + 1`, and exactly `rows` rows of `cols` cells. Cell (r, c) is centred at `(north − (r + ½)·sh, west + (c + ½)·sw)` with a map-view extent around it. |
| CaptureGrid.CalculateCaptureGrid | src/image/screenshot_manager.py:139-161 | The nested loops build exactly the plan, from the configured pan steps and degrees per pixel. |
| CaptureGrid.CoverAxis | src/image/screenshot_manager.py:133-153 | On one axis, some counted step's window of width ≥ step holds any point of `[lo, hi]`. |
| CaptureGrid.PlanCoversBox | src/image/screenshot_manager.py:121-153 | With pan steps no longer than the display, every point of an ordered target box lies in the extent of some planned cell. |
| CaptureGrid.CoverBox | src/image/screenshot_manager.py:144-153 | For one pan geometry, some cell of the `rows × cols` grid holds any point of the box. |
| CaptureGrid.CellHoldsPoint | src/image/screenshot_manager.py:144-153 | A point within half a map view of a cell's centre on both axes lies in that cell's extent. |
| CaptureGrid.PlanOvershootsBox | src/image/screenshot_manager.py:133-134 | `cols · sw` reaches past the east edge and `rows · sh` past the south edge. |
| CaptureGrid.ShippedPlanSize | src/image/screenshot_manager.py:106-173 | As shipped the plan is one row of three screenshots. |
| Navigation.SwipeEvents | src/image/screenshot_manager.py:216 | One log entry per swipe, in order. |
| Navigation.AttemptedStopsAtFirstFailure | src/image/screenshot_manager.py:216-218 | Sending swipes in order succeeds exactly when every swipe succeeds, and then all are issued. Otherwise exactly the swipes up to and including the first failure are issued. |
| Navigation.AttemptedFailsAt | src/image/screenshot_manager.py:230-232 | When swipe `k + i` is the first to fail, exactly the first `i + 1` swipes are issued and the move fails. |
| Navigation.AttemptedAllOk | src/image/screenshot_manager.py:210-238 | When no swipe fails, every swipe is issued and the move succeeds. |
| Navigation.SucceedsAppend | src/image/screenshot_manager.py:209-238 | Two consecutive loops succeed exactly when each does. |
| Navigation.AttemptedAppend | src/image/screenshot_manager.py:209-238 | The second loop is entered only when the first succeeded; otherwise only the first loop's attempted swipes are issued. |
| Navigation.FakeController.constructor | src/image/screenshot_manager.py:25-26 | The recording controller starts with an empty log. |
| Navigation.FakeController.Swipe | src/adb/device_controller.py:171-207 | Each swipe is logged and counted; its answer is the script's answer for that swipe number. |
| Navigation.FakeController.CaptureScreenshot | src/adb/device_controller.py:125-169 | Each screenshot request is logged, and it fails exactly for the failing cells. |
| Navigation.HorizontalSwipe | src/image/screenshot_manager.py:244-275 | A right pan runs from `cx + d // 2` to `cx − d // 2` at the screen's centre row, and a left pan is the mirror. The duration is `SWIPE_DURATION`. |
| Navigation.VerticalSwipe | src/image/screenshot_manager.py:277-308 | A down pan runs from `cy − d // 2` to `cy + d // 2` at the centre column, and an up pan is the mirror. The duration is `SWIPE_DURATION`. |
| Navigation.SwipesMirror | src/image/screenshot_manager.py:261-266 | Opposite directions are the same stroke reversed, on both axes. |
| Navigation.ShippedRightSwipe | src/image/screenshot_manager.py:261-263 | As shipped a right pan is (932, 1170) → (148, 1170) in 500 ms, and a down pan (540, 374) → (540, 1966). |
| Navigation.MoveHorizontal | src/image/screenshot_manager.py:244-275 | Issues exactly the one horizontal pan and returns its answer. |
| Navigation.MoveVertical | src/image/screenshot_manager.py:277-308 | Issues exactly the one vertical pan and returns its answer. |
| Navigation.MoveToRowStart | src/image/screenshot_manager.py:310-332 | Issues `cols − 1` left pans, stopping after the first failure. Succeeds exactly when none failed. |
| Navigation.ApproachProperties | src/image/screenshot_manager.py:207-235 | Each approach move is 1 to `min(W, H) // 3` pixels with the sign of the offset. The loop stops with `|remaining| ≤ 50` without crossing zero, and `sum(moves) + remaining == offset`. |
| Navigation.ApproachNeverOvershoots | src/image/screenshot_manager.py:210-235 | The approach moves in total no further than the offset, in its direction. |
| Navigation.ApproachAxis | src/image/screenshot_manager.py:210-235 | One approach loop logs exactly the attempted swipes of the chunked moves, in order until the first failure. It succeeds exactly when none failed. |
| Navigation.Approach | src/image/screenshot_manager.py:209-238 | All horizontal approach swipes precede the vertical ones. The first failure ends the move with no further swipe. |
| Navigation.MoveToStartPosition | src/image/screenshot_manager.py:175-242 | Moves from the current point to the pixel offset of the north-west corner with exactly those swipes, and succeeds exactly when none failed. |
| Capture.RowShotsFacts | src/image/screenshot_manager.py:60-80 | Within a row, the shots are of that row only, at most one per cell, in increasing column order, each a non-failing cell with its data. |
| Capture.ShotsUpToFacts | src/image/screenshot_manager.py:59-97 | The shots of the first `r` rows are of those rows and strictly row-major. |
| Capture.GridShotsRowMajor | src/image/screenshot_manager.py:59-97 | The recorded screenshots are strictly increasing in (row, col), so no cell appears twice. Each is a non-failing cell carrying its centre and bounds. |
| Capture.GridShotsComplete | src/image/screenshot_manager.py:67-77 | Every cell whose capture succeeds is recorded, with its cell's data. |
| Capture.GridShotsSkipFailed | src/image/screenshot_manager.py:79-80 | A cell whose capture fails is not recorded. |
| Capture.ShotsUpToCount | src/image/screenshot_manager.py:59-97 | At most one screenshot per cell of the first `r` rows. |
| Capture.PlanShotsBounded | src/image/screenshot_manager.py:59-100 | There are at most `rows · cols` screenshots for a planned grid. |
| Capture.GridCapturesAllCells | src/image/screenshot_manager.py:59-97 | Whatever the device answers, a screenshot is requested for every cell, exactly once, in row-major order. |
| Capture.RowStepCaptures | src/image/screenshot_manager.py:60-89 | A row's requests capture exactly that row's cells, in order. |
| Capture.RowStepEvents | src/image/screenshot_manager.py:60-97 | A row's requests are its cells' requests (each followed by a right pan unless last) and then only pans. |
| Capture.RowTransitionShape | src/image/screenshot_manager.py:92-97 | Between rows, at most `cols − 1` left pans are attempted and one down pan always follows. When the left pans succeed, the transition is exactly those pans plus one down pan. |
| Capture.RowTransitionEvents | src/image/screenshot_manager.py:94-96 | `_move_to_row_start` followed by one down pan logs exactly the row transition. |
| Capture.CaptureRow | src/image/screenshot_manager.py:60-89 | The inner loop records the row's non-failing cells. It logs a screenshot request per cell and a right pan after each non-last column, and ignores pan answers. |
| Capture.ToNextRow | src/image/screenshot_manager.py:92-97 | The move between rows logs the return to the row start and then one down pan, and ignores their answers. |
| Capture.WalkRow | src/image/screenshot_manager.py:59-97 | One pass of the outer loop: a row's shots and requests, then the transition unless it is the last row. |
| Capture.CaptureCells | src/image/screenshot_manager.py:59-97 | The nested loop records exactly the grid's non-failing cells in row-major order and logs the grid walk. |
| Capture.CaptureLhasaArea | src/image/screenshot_manager.py:25-104 | No plan gives `[]` with nothing issued. A failed start move gives `[]` after the attempted start swipes. Otherwise the result is the grid's successful shots after the start swipes and the grid walk. |
| Stitcher.MaxRow | src/image/map_stitcher.py:81 | The largest row of a non-empty list, attained by some shot. |
| Stitcher.LastAtNoneIff | src/image/map_stitcher.py:85-103 | A cell stays empty exactly when no shot has its position; missing cells do not fail. |
| Stitcher.LastOccurrenceWins | src/image/map_stitcher.py:88-90 | A shot holds its cell when no later shot has the same position, so later duplicates overwrite earlier ones. |
| Stitcher.LastAtFromList | src/image/map_stitcher.py:88-90 | Whatever a cell holds is a shot of the list at that position. |
| Stitcher.SortByGrid | src/image/map_stitcher.py:69-107 | `None` exactly for an empty list (`max` of nothing raises). Otherwise the `(max_row + 1) × (max_col + 1)` grid with each shot written in list order. |
| Stitcher.GridHoldsEveryPosition | src/image/map_stitcher.py:81-85 | Every shot's position lies inside the grid. |
| Stitcher.CropMapArea | src/image/map_stitcher.py:154-183 | `None` exactly when `top ≥ height − bottom` or `left ≥ width − right`. Otherwise an image of `(H − top − bottom) × (W − left − right)`. |
| Stitcher.ShippedCrop | src/image/map_stitcher.py:164-179 | A full shipped screenshot crops to the 980 × 1990 display area. |
| Stitcher.ExtractMapRegions | src/image/map_stitcher.py:109-152 | The grid keeps its shape. Empty cells, unreadable files and failed crops become `None`, and every other cell its cropped image. |
| Stitcher.OverlapPixels | src/image/map_stitcher.py:327 | `int(display · overlap)` lies in [0, display] for an overlap in [0, 1]. |
| Stitcher.ShippedOverlap | src/image/map_stitcher.py:327-364 | As shipped the overlaps are 196 columns and 398 rows. |
| Stitcher.TrimLeading | src/image/map_stitcher.py:335-341 | An image loses `ov` leading pixels when `ov` is smaller than it, and otherwise `ov // 2` (Python slicing when negative). |
| Stitcher.Fit | src/image/map_stitcher.py:252-260 | An image of the target size is kept as is. Otherwise it is resized to the target with the other side `int(t · along / across)`, and a zero side is a failure. |
| Stitcher.HandleHorizontalOverlap | src/image/map_stitcher.py:312-347 | The list keeps its length. The first image is whole and each later one is trimmed at its left edge by `int(MAP_DISPLAY_WIDTH · SWIPE_OVERLAP)`. |
| Stitcher.HandleVerticalOverlap | src/image/map_stitcher.py:349-384 | The same rule on leading rows, by `int(MAP_DISPLAY_HEIGHT · SWIPE_OVERLAP)`. |
| Stitcher.StitchHorizontally | src/image/map_stitcher.py:234-271 | Resizes to the first image's height, trims, then joins: the stitch along the width. |
| Stitcher.StitchVertically | src/image/map_stitcher.py:273-310 | Resizes to the first image's width, trims, then joins: the stitch along the height. |
| Stitcher.StitchShape | src/image/map_stitcher.py:244-266 | A stitch fails only on an empty list or a failed resize. Otherwise the output height (width for vertical) is the first image's. Its length is the first image's plus the trimmed lengths of the resized others. |
| Stitcher.SumTrimmedCopies | src/image/map_stitcher.py:331-337 | `n` equal images trim to `n · (along − ov)` when `ov` is smaller than the image. |
| Stitcher.EqualImagesStitch | src/image/map_stitcher.py:266-343 | `n ≥ 1` equal W × H images with `ov < W` stitch to width `W + (n − 1)(W − ov)`. |
| Stitcher.PresentEmptyIff | src/image/map_stitcher.py:201-205 | A row is skipped exactly when every cell is `None`. |
| Stitcher.PresentFull | src/image/map_stitcher.py:201 | A row of only images keeps them all in order. |
| Stitcher.StitchedRows | src/image/map_stitcher.py:199-216 | At most one stitched image per grid row. |
| Stitcher.PerformStitching | src/image/map_stitcher.py:185-232 | Each row is stitched horizontally (a one-image row is used untrimmed) and failed rows are dropped. The surviving rows are then stitched vertically (a single row is used as is). |
| Stitcher.PerformMapShape | src/image/map_stitcher.py:218-228 | A map exists exactly when some row survives and every surviving row can be resized to the first one's width. The map then has the first surviving row's width. |
| Stitcher.NoRowSurvives | src/image/map_stitcher.py:199-216 | When no grid row stitches, the list of stitched rows is empty. |
| Stitcher.OneRowSurvives | src/image/map_stitcher.py:199-216 | When exactly one grid row stitches, its image is the only stitched row. |
| Stitcher.PerformSingleRow | src/image/map_stitcher.py:199-228 | When exactly one grid row stitches, its image is the map, untrimmed. |
| Stitcher.EmptyGridNoMap | src/image/map_stitcher.py:199-220 | A grid without any image gives no map. |
| Stitcher.FullRowImage | src/image/map_stitcher.py:208-214 | A row of `n` equal images stitches to width `W + (n − 1)(W − ov)`. |
| Stitcher.UniformRows | src/image/map_stitcher.py:199-216 | Rows that all stitch to one image each give one stitched row. |
| Stitcher.FullGridMosaic | src/image/map_stitcher.py:185-232 | A full `rows × cols` grid of equal H × W images gives a map of `H + (rows − 1)(H − ovV)` by `W + (cols − 1)(W − ovH)`. |
| Stitcher.ShippedMosaic | src/image/map_stitcher.py:185-232 | As shipped, one row of three cropped screenshots stitches to 1990 × 2548 pixels. |
| Stitcher.StitchScreenshots | src/image/map_stitcher.py:24-67 | No screenshots give `None`. Otherwise the result is sort, crop, then stitch. |
| Hexagons.Centroid | src/image/hexagon_detector.py:157-162 | With `m00 == 0` the centre falls back to `(x + w // 2, y + h // 2)`, inside the bounding box. |
| Hexagons.AnalyzeContour | src/image/hexagon_detector.py:110-190 | An accepted contour passes every shape test and keeps its colour, area, vertex count, centroid, bounding box and perimeter, and stores `w/h`, `area/hull` and the circularity formula as its ratios. Height 0 or a non-positive hull area gives `None`. |
| Hexagons.AnalyzeContourAccepts | src/image/hexagon_detector.py:123-173 | A contour is accepted exactly when: area ≥ 50, 4 ≤ vertices ≤ 8, 0.5 ≤ w/h ≤ 2, hull area > 0 with solidity ≥ 0.7, and 0.3 ≤ circularity ≤ 1. |
| Hexagons.Accepted | src/image/hexagon_detector.py:97-104 | The passing contours of one colour, each qualifying, no more than the contours. |
| Hexagons.DetectColorHexagons | src/image/hexagon_detector.py:67-108 | The contour loop keeps exactly the accepted contours, in order. |
| Hexagons.NearSymmetric | src/image/hexagon_detector.py:219-224 | Nearness of centres is symmetric. |
| Hexagons.FirstNear | src/image/hexagon_detector.py:217-230 | The inner loop stops at the first kept hexagon near the current one, or runs off the end when none is near. |
| Hexagons.MergeAt | src/image/hexagon_detector.py:224-230 | With a near kept hexagon, a strictly larger one replaces it (remove, then append) and the list is otherwise unchanged. |
| Hexagons.MergeAppends | src/image/hexagon_detector.py:232-233 | A hexagon near no kept one is appended. |
| Hexagons.FilterAndMerge | src/image/hexagon_detector.py:192-240 | The nested loops compute exactly the merge over the area-sorted list. |
| Hexagons.MergeInto | src/image/hexagon_detector.py:213-233 | One pass of the outer loop computes one merge step. |
| Hexagons.GreedySorted | src/image/hexagon_detector.py:207-233 | Over an area-sorted list, the merge keeps a sorted and separated sub-list that starts with the first element and covers the rest. |
| Hexagons.MergedProperties | src/image/hexagon_detector.py:192-240 | Empty only for empty input. A sub-list of the sorted input, non-increasing in area, with centres pairwise ≥ 50 apart. The largest input comes first, and every input is kept or near a kept hexagon at least as large. |
| Hexagons.GreedyKeepsSeparated | src/image/hexagon_detector.py:212-233 | A separated list passes the merge loop untouched. |
| Hexagons.MergeIdempotent | src/image/hexagon_detector.py:207-233 | Merging the merged output again returns it unchanged. |
| Hexagons.Confidence | src/image/hexagon_detector.py:322-376 | The score lies in [0.5, 1.0]. |
| Hexagons.CalculateConfidence | src/image/hexagon_detector.py:332-372 | The step-by-step accumulation equals the tiered score and lies in [0.5, 1.0]. |
| Hexagons.TopTierConfidence | src/image/hexagon_detector.py:334-372 | Top-tier features in every category give exactly 1.0 (the raw 1.3 is clamped). |
| Hexagons.NoBonusConfidence | src/image/hexagon_detector.py:334-372 | Without any bonus the score is the base 0.5. |
| Hexagons.ConfidenceMonotoneInArea | src/image/hexagon_detector.py:337-341 | A larger area never lowers the score. |
| Hexagons.GeoOrigin | src/image/hexagon_detector.py:279-280 | Pixel (0, 0) maps to (north, west). |
| Hexagons.PixelSpan | src/image/hexagon_detector.py:267-268 | `k` of `n` pixels cover at most the whole span. |
| Hexagons.GeoInsideBox | src/image/hexagon_detector.py:264-285 | A centre inside the image lands inside the target box. |
| Hexagons.GeoBoundsOrdered | src/image/hexagon_detector.py:288-300 | Geographic bounds satisfy `south ≤ north` and `west ≤ east`. |
| Hexagons.AddGeographicInfo | src/image/hexagon_detector.py:242-320 | One output per hexagon, in order, keeping the hexagon. An empty image side returns the hexagons without geography (the division raises); `detect_hexagons` never passes such an image, since it detects nothing there. Otherwise each output gets the linear pixel → degree placement. |
| Hexagons.DetectHexagons | src/image/hexagon_detector.py:22-108 | No image gives `[]`, and so does an image with a zero side (the HSV conversion raises in both colour passes, whose handler gives `[]`). Otherwise the dark then light detections are merged and each placed on the map, one output per merged hexagon, with its geography. |
| Hexagons.DetectionsSeparated | src/image/hexagon_detector.py:53-58 | Detections of one map are pairwise separated and all passed the shape tests. |
| Adb.ChooseId | src/adb/device_controller.py:20 | A set id (not `None`, not empty) is kept. Otherwise the configured one is used. |
| Adb.CommandLine | src/adb/device_controller.py:36-41 | `[adb_path] ++ ["-s", id]` (only when an id is set) `++ command`. |
| Adb.CommandLineRoundTrip | src/adb/device_controller.py:36-41 | A command line reads back to its device (none when unset) and its command. |
| Adb.Interpret | src/adb/device_controller.py:52-63 | Success exactly on exit code 0, with stripped stdout. A non-zero exit gives stderr. |
| Adb.IdsOf | src/adb/device_controller.py:92-95 | No more ids than lines. |
| Adb.IdsOfSource | src/adb/device_controller.py:92-95 | Every id found is the text before the first tab of an accepted line. |
| Adb.IdsOfComplete | src/adb/device_controller.py:92-95 | Every accepted line contributes its id. |
| Adb.IdsOfEmpty | src/adb/device_controller.py:92-97 | No id is found exactly when no line is accepted. |
| Adb.DeviceSource | src/adb/device_controller.py:91-95 | Every parsed device comes from a non-blank line after the header containing `device`. |
| Adb.DeviceComplete | src/adb/device_controller.py:91-95 | Every such line gives its device. |
| Adb.NoDeviceFound | src/adb/device_controller.py:91-99 | The device list is empty exactly when no line after the header is listed. |
| Adb.HeaderSkipped | src/adb/device_controller.py:92 | The header line is never read, although it contains `device`. |
| Adb.ParseDeviceList | src/adb/device_controller.py:90-95 | The loop computes exactly the parsed device list. |
| Adb.Select | src/adb/device_controller.py:97-109 | `None` exactly for an empty list or a set id that is not listed. With no id set, the first device. A set id is kept. The result is always listed. |
| Adb.DigitRunEnd | src/adb/device_controller.py:314 | The maximal run of digits from `i`. |
| Adb.FirstSizeAt | src/adb/device_controller.py:314 | The leftmost position where `(\d+)x(\d+)` matches, or the end when none does. |
| Adb.ParseScreenSize | src/adb/device_controller.py:311-322 | Without `Physical size:` in the output there is no size. |
| Adb.SizeMatch | src/adb/device_controller.py:314-318 | Two digit runs around `x` after the prefix match, with their values. |
| Adb.ScreenSizeRoundTrip | src/adb/device_controller.py:311-319 | `Physical size: WxH` is read back as `(W, H)`. |
| Adb.SwipeArgs | src/adb/device_controller.py:191-194 | Eight arguments starting `shell input swipe`. |
| Adb.SwipeArgsRoundTrip | src/adb/device_controller.py:191-194 | The coordinates and duration are written in decimal and read back exactly. |
| Adb.TapArgs | src/adb/device_controller.py:225-227 | Five arguments starting `shell input tap`. |
| Adb.TapArgsRoundTrip | src/adb/device_controller.py:225-227 | The tap coordinates are read back exactly. |
| Adb.ConnectSelects | src/adb/device_controller.py:65-123 | A connection succeeds only on the selected, listed device, after three commands. A set device is never replaced. |
| Adb.ConnectFails | src/adb/device_controller.py:97-109 | An empty device list or a set device missing from it fails without the test command. |
| Adb.ConnectAutoSelects | src/adb/device_controller.py:102-104 | With no device set and a readable non-empty list, the first listed device becomes the controller's. |
| Adb.AndroidController.constructor | src/adb/device_controller.py:19-22 | The device is the given id or the configured one. Not connected, nothing issued. |
| Adb.AndroidController.RunAdbCommand | src/adb/device_controller.py:24-63 | Issues exactly the built command line and returns its interpreted outcome. |
| Adb.AndroidController.ConnectDevice | src/adb/device_controller.py:65-123 | Does the `connect_device` steps. `connected` becomes true only when every check passes, and is otherwise unchanged. |
| Adb.AndroidController.AttachDevice | src/adb/device_controller.py:97-119 | Chooses, checks and tests the device. Sets `connected` only on success. |
| Adb.AndroidController.TestDevice | src/adb/device_controller.py:112-119 | Issues exactly the `shell echo test` line on the chosen device and answers its outcome. `connected` becomes true exactly when it succeeds, and the device is unchanged. |
| Adb.AndroidController.CaptureScreenshot | src/adb/device_controller.py:125-169 | Not connected: `False`, nothing issued. Connected: screencap, pull, then rm, each only after the previous one succeeds. Success exactly when all three are issued; the rm answer is ignored. |
| Adb.AndroidController.Swipe | src/adb/device_controller.py:171-207 | Not connected: `False`, nothing issued. Otherwise one `input swipe` (default duration 500) is issued. The result is its answer, except that a duration below −500 ms fails, because the pause after the swipe would be negative. |
| Adb.AndroidController.Tap | src/adb/device_controller.py:209-239 | Not connected: `False`, nothing issued. Otherwise one `input tap` and its answer. |
| Adb.AndroidController.GetScreenSize | src/adb/device_controller.py:295-326 | Not connected: `None`, nothing issued. Otherwise `wm size` parsed on success. |
| Adb.AndroidController.WaitForDevice | src/adb/device_controller.py:328-344 | Issues `wait-for-device` and returns its answer. |
| Adb.AndroidController.Disconnect | src/adb/device_controller.py:346-348 | Only `connected` changes, to false. |
| Adb.DisconnectedIsInert | src/adb/device_controller.py:135-348 | After `disconnect`, capture, swipe, tap and the screen-size query issue nothing. |
| Predictor.CellsOf | src/ml/predictor.py:467-471 | Only hexagons with a centre give a cell. |
| Predictor.CountIsOccurrences | src/ml/predictor.py:466-476 | Each hexagon with a centre adds exactly 1 to its bucket. The keys are the buckets seen, once each in first-seen order, and each count is that bucket's number of occurrences. |
| Predictor.CountTotal | src/ml/predictor.py:466-476 | The bucket totals add up to the number of hexagons with a centre. |
| Predictor.Items | src/ml/predictor.py:479 | Each key with its count, in dict order. |
| Predictor.ZonesOf | src/ml/predictor.py:481-488 | One zone per kept cell, numbered from 0. |
| Predictor.CountHexagons | src/ml/predictor.py:467-476 | The inner loop adds one record's hexagons to the tally. |
| Predictor.CountRecords | src/ml/predictor.py:466-476 | The outer loop tallies every record's hexagons. |
| Predictor.NumberZones | src/ml/predictor.py:481-488 | The zone loop builds exactly the numbered zones of the kept cells. |
| Predictor.GeneratePredictedZones | src/ml/predictor.py:446-494 | The step-by-step count, rank, top-k and numbering produce the predicted zones. |
| Predictor.ItemsFacts | src/ml/predictor.py:466-479 | The dict's items are distinct, each a cell seen with its count, and every cell seen is among them. |
| Predictor.RankedCounts | src/ml/predictor.py:479 | Each ranked entry is a cell seen, with how often it was seen. |
| Predictor.RankedFacts | src/ml/predictor.py:479 | The entries are ranked by non-increasing frequency. Each is a distinct cell seen with its count, and every cell seen is ranked. |
| Predictor.ZonesCount | src/ml/predictor.py:481 | `min(int(pc), #cells)` zones for `int(pc) ≥ 0`, so at most `pc`. For a negative `int(pc)`, all but the last `−int(pc)` cells (Python slicing). |
| Predictor.ZonesRanked | src/ml/predictor.py:481-488 | Zone `i` is the `i`-th ranked cell, with confidence `0.8 − 0.1·i` (unclamped) and intensity `min(1, freq / 10)`. |
| Predictor.ZonesOrdered | src/ml/predictor.py:479-488 | Intensities do not increase along the zones, no cell gives two zones, and every zone is a cell seen. |
| Predictor.ZonesAreHottest | src/ml/predictor.py:479-481 | A cell that made no zone was seen no more often than any zone's cell. |
| Predictor.RankedTotal | src/ml/predictor.py:466-479 | The ranked counts add up to the number of hexagons with a centre. |
| Predictor.CalculatePredictionConfidence | src/ml/predictor.py:416-444 | `0.7 + 0.1·[7 ≤ hour ≤ 19] + 0.1·[recent > 10]`, in [0.7, 0.9]. At least 0.8 exactly when either condition holds, and 0.9 exactly when both do. |
| Predictor.MeanBounds | src/ml/predictor.py:340-341 | A mean lies between the smallest and largest value. |
| Predictor.RecentCounts | src/ml/predictor.py:339 | The counts of the first six records, in order. |
| Predictor.ScalarFeaturesMeaning | src/ml/predictor.py:334-345 | lag1/lag2 are the first/second counts or 0. ma3/ma6 are the means of the first 3/6 counts when that many exist, else 0, and lie within the counts' bounds. `is_holiday` holds exactly on weekdays 5 and 6. |
| Predictor.HolidaysPerWeek | src/ml/predictor.py:345 | Two days in seven are holidays. |
| Predictor.Kept | src/ml/predictor.py:162-172 | No more predictions than intervals. |
| Predictor.PredictMultipleTimes | src/ml/predictor.py:148-172 | The loop computes exactly the kept, tagged predictions. |
| Predictor.KeptSound | src/ml/predictor.py:164-171 | Every kept prediction is what its interval produced, tagged with that interval. |
| Predictor.KeptComplete | src/ml/predictor.py:169-171 | Every interval that produced a prediction is kept. |
| Predictor.KeptAll | src/ml/predictor.py:162-172 | When every interval produces a prediction, all are kept in interval order. |
| Predictor.ShippedGate | src/ml/predictor.py:59-68 | With the shipped minimum of 100, training is reached exactly with records and at least 100 of them. |
| Predictor.HeatmapPredictor.constructor | src/ml/predictor.py:32-44 | Trained exactly when a saved model is loaded. |
| Predictor.HeatmapPredictor.UpdateModel | src/ml/predictor.py:46-91 | Succeeds exactly with enough records, prepared data and successful training. It becomes trained only on success. |
| PyOps.Trunc | src/gps/location_manager.py:340-341 | Python's `int()` on a float truncates toward zero. |
| PyOps.Take | src/ml/predictor.py:481 | `s[:n]` is a prefix of `min(n, len)` elements, or drops `|n|` from the end when `n < 0`. |
| Sorting.SortDesc | src/image/hexagon_detector.py:207 | `sorted(..., reverse=True)` gives a non-increasing permutation of its input. |
| Sorting.SortSortedIsIdentity | src/image/hexagon_detector.py:207 | An already sorted list is unchanged. |
| Sorting.InsertWithKey | src/image/hexagon_detector.py:207 | Inserting an element puts it ahead of the elements with its key and keeps their order. |
| Sorting.SortDescStable | src/ml/predictor.py:479 | The sort is stable: for every key, the elements with that key come out in their input order. |
| Text.Strip | src/adb/device_controller.py:93 | `strip()` is empty exactly for an all-white-space string, white space being every character `str.isspace()` accepts (ASCII controls 9-13 and 28-31, the space, and the Unicode spaces and separators). |
| Text.SplitJoin | src/adb/device_controller.py:92 | `split` loses nothing: joining the pieces gives the string back. |
| Text.BeforeFirst | src/adb/device_controller.py:94 | `split('\t')[0]` is the prefix before the first tab. |

## Left out

- Running processes, the file system, clocks and sleeps: `subprocess.run` is the `run` function
  parameter of the ADB controller. Whether the tool exists is a flag. `time.sleep` settle delays,
  logging and screenshot file names are left out. The one exception is the pause after a swipe:
  when it would be negative, `time.sleep` raises and the swipe fails.
- The device's answer depends only on the command line (`run` is a function). A device whose
  answers change over time is not modelled.
- OpenCV is replaced by what it returns. That takes in contour measurements (area, vertex count,
  bounding box, hull area, moments, perimeter), template-match scores, image dimensions and the
  contours of each colour mask. Colour conversion, masks, morphology, `imread`/`imwrite`,
  `enhance_map_quality` and `visualize_detection` are left out.
- Pixel contents: an image is its height and width. Stitching is proved about dimensions, not
  pixels. `cv2.resize` is modelled by the dimensions it yields and fails on an empty size.
- Floating point: all arithmetic is on exact reals. cos(29.65°) and π are decimal constants.
  `geo_area_m2` uses the `cosOfLat` parameter in place of `cos(radians(latitude))`.
  The `np.sqrt` distance test is decided on squared distances.
- Predictor.Ranked: Python's `round(x, 2)` bucketing and the `"lat,lng"` key string are the `bucket`
  function parameter. The keys are the cells themselves, so two centres share a key exactly when
  their cells are equal.
- sklearn/pandas/joblib training, prediction and persistence are inputs: the
  predictions of `predict_heatmap` are the `predict` parameter, and `_prepare_training_data` and
  `_train_model` outcomes are the `prepared` and `trained` flags. The sin/cos cyclic features
  and the distance-to-centre feature are not modelled.
- `predict_heatmap`, `_prepare_training_data`, `_train_model`, `_save_model` and
  `get_gps_location` (float regex parsing of GPS output) are not part of this model.
- `src/database/data_manager.py` (sqlite persistence, its duplicate holiday rule),
  `src/web/dashboard.py` (Flask routes) and `main.py` (orchestration loop, argparse) are not part
  of this model. The database reads become the `records`/`recent` inputs.
- Exception handlers that no modelled input can reach are not modelled: the `KeyError` fallback to `[]`
  in `_generate_predicted_zones`, the 0.5 fallback of both confidence functions, and the
  catch-alls of the conversions. Handlers that can fire are modelled as results: a zero
  pan step, an empty `max`, an empty image in the HSV conversion, an unbound `solidity`, a failed resize.
  The zero-side division handler of `_add_geographic_info` is modelled for that function on its own
  (`Hexagons.AddGeographicInfo`), although `detect_hexagons` cannot reach it.
- Predictor.PredictMultipleTimes: `if prediction:` is modelled as `Option`. An empty prediction dict,
  which `predict_heatmap` never returns, would also be dropped by the source.
- Text.IsDigit: Python's `\d` also matches non-ASCII digits; the model reads ASCII digits only.
- Capture.ScreenshotInfo: shots have natural `row`/`col` (the planner produces only these), and
  no timestamp or file path.
- Navigation.MoveToStartPosition: requires `min(W, H) // 3 ≥ 1`. With a screen side under 3 pixels the
  source's approach loop makes no progress and never ends.
- Capture.CaptureLhasaArea: requires `min(W, H) // 3 ≥ 1` whenever the grid can be planned, for the
  same reason, since it then calls the start move. A configuration whose grid cannot be planned is
  not restricted: it gives `[]` before any move, as in the source.
- Settings.Config: `coordinate_per_pixel`'s zoom argument is modelled only as the configured zoom
  where the callers use it. `get_meters_per_pixel`'s own `math.cos` is the constant above.
- Settings.ConfigClass: the attribute values are of a type parameter `V`. JSON parsing and
  `hasattr` on inherited attributes are not modelled; `hasattr` is key membership in the table.
- The helper methods `Adb.AndroidController.AttachDevice`, `Adb.AndroidController.TestDevice`, `Predictor.CountRecords`,
  `Predictor.NumberZones` and `Hexagons.MergeInto` split one source function into steps. They
  add no behaviour.

## Notes on the source's behaviour

- Stitcher.PerformMapShape: the stitched map is `None` when no row survives, and also when a row
  has width 0 or resizing a row to the first row's width yields zero height, because
  `_stitch_vertically` returns `None` in those cases.
- Hexagons.MergeIdempotent: `_filter_and_merge_hexagons` sorts by area before merging, so its
  strictly-larger replacement branch never fires (`Hexagons.KeepsUnchanged`). The branch is
  modelled, but it plays no part in the proved properties of the merge.
