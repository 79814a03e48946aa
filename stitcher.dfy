/**
 * The map stitcher: screenshots are placed on their capture grid, cropped to the map area,
 * stitched row by row with the pan overlap trimmed away, and the rows stitched top to bottom.
 * An image is modelled by its dimensions in pixels; pixel contents are not modelled.
 */
module Stitcher {
  import opened Wrappers
  import opened PyOps
  import opened Settings
  import Arith

  /** An image array of `height` rows and `width` columns. */
  datatype Image = Image(height: nat, width: nat)

  /** What stitching reads from a screenshot record: its grid position and the loaded image (`None` when unreadable). */
  datatype Shot = Shot(row: nat, col: nat, image: Option<Image>)

  // ---------------------------------------------------------------------------------------------
  // Placing the screenshots on the grid

  function MaxRow(shots: seq<Shot>): (m: nat)
    requires shots != []
    ensures forall i :: 0 <= i < |shots| ==> shots[i].row <= m
    ensures exists i :: 0 <= i < |shots| && shots[i].row == m
  {
    if |shots| == 1 then shots[0].row
    else
      var rest := MaxRow(shots[1..]);
      assert forall i :: 1 <= i < |shots| ==> shots[i] == shots[1..][i - 1];
      if shots[0].row >= rest then shots[0].row else rest
  }

  function MaxCol(shots: seq<Shot>): (m: nat)
    requires shots != []
    ensures forall i :: 0 <= i < |shots| ==> shots[i].col <= m
    ensures exists i :: 0 <= i < |shots| && shots[i].col == m
  {
    if |shots| == 1 then shots[0].col
    else
      var rest := MaxCol(shots[1..]);
      assert forall i :: 1 <= i < |shots| ==> shots[i] == shots[1..][i - 1];
      if shots[0].col >= rest then shots[0].col else rest
  }

  predicate At(s: Shot, r: int, c: int) {
    s.row == r && s.col == c
  }

  /** The cell `(r, c)` after the shots are written in list order: the last shot placed there, if any. */
  function LastAt(shots: seq<Shot>, r: int, c: int): Option<Shot>
    decreases |shots|
  {
    if shots == [] then None
    else if At(shots[|shots| - 1], r, c) then Some(shots[|shots| - 1])
    else LastAt(shots[..|shots| - 1], r, c)
  }

  /** A cell stays empty exactly when no shot has its position. */
  lemma {:induction false} LastAtNoneIff(shots: seq<Shot>, r: int, c: int)
    ensures LastAt(shots, r, c).None? <==> forall i :: 0 <= i < |shots| ==> !At(shots[i], r, c)
    decreases |shots|
  {
    if shots != [] {
      var init := shots[..|shots| - 1];
      LastAtNoneIff(init, r, c);
      assert forall i :: 0 <= i < |init| ==> init[i] == shots[i];
    }
  }

  /** A shot that no later shot displaces is the one found at its position: later duplicates win. */
  lemma {:induction false} LastOccurrenceWins(shots: seq<Shot>, i: nat)
    requires i < |shots|
    requires forall j :: i < j < |shots| ==> !At(shots[j], shots[i].row, shots[i].col)
    ensures LastAt(shots, shots[i].row, shots[i].col) == Some(shots[i])
    decreases |shots|
  {
    if i < |shots| - 1 {
      var init := shots[..|shots| - 1];
      assert init[i] == shots[i];
      assert forall j :: i < j < |init| ==> init[j] == shots[j];
      LastOccurrenceWins(init, i);
    }
  }

  /** What the cell holds comes from the list and sits at that cell's position. */
  lemma {:induction false} LastAtFromList(shots: seq<Shot>, r: int, c: int)
    ensures LastAt(shots, r, c).Some? ==>
              LastAt(shots, r, c).value in shots && At(LastAt(shots, r, c).value, r, c)
    decreases |shots|
  {
    if shots != [] && !At(shots[|shots| - 1], r, c) {
      LastAtFromList(shots[..|shots| - 1], r, c);
    }
  }

  /** The `(max_row + 1) x (max_col + 1)` grid of `_sort_screenshots_by_grid`. */
  function GridOf(shots: seq<Shot>): seq<seq<Option<Shot>>>
    requires shots != []
  {
    seq(MaxRow(shots) + 1, r => seq(MaxCol(shots) + 1, c => LastAt(shots, r, c)))
  }

  /**
   * `_sort_screenshots_by_grid`: `None` for an empty list (`max` of nothing raises); otherwise
   * every shot is written into its cell in order. Missing cells stay empty.
   */
  method SortByGrid(shots: seq<Shot>) returns (grid: Option<seq<seq<Option<Shot>>>>)
    ensures grid.None? <==> shots == []
    ensures grid.Some? ==> grid.value == GridOf(shots)
  {
    if shots == [] {
      return None;
    }
    var maxRow, maxCol := MaxRow(shots), MaxCol(shots);
    var g: seq<seq<Option<Shot>>> := seq(maxRow + 1, _ => seq(maxCol + 1, _ => None));
    var i := 0;
    while i < |shots|
      invariant 0 <= i <= |shots|
      invariant |g| == maxRow + 1
      invariant forall r :: 0 <= r < |g| ==> |g[r]| == maxCol + 1
      invariant forall r, c :: 0 <= r < |g| && 0 <= c <= maxCol ==> g[r][c] == LastAt(shots[..i], r, c)
    {
      var s := shots[i];
      g := g[s.row := g[s.row][s.col := Some(s)]];
      assert shots[..i + 1][..i] == shots[..i];
      i := i + 1;
    }
    assert shots[..|shots|] == shots;
    assert forall r :: 0 <= r < |g| ==> g[r] == GridOf(shots)[r];
    return Some(g);
  }

  /** Every shot's position lies inside the grid. */
  lemma GridHoldsEveryPosition(shots: seq<Shot>, i: nat)
    requires i < |shots|
    ensures shots[i].row < |GridOf(shots)| && shots[i].col < |GridOf(shots)[shots[i].row]|
  {
  }

  // ---------------------------------------------------------------------------------------------
  // Cropping the UI margins

  /**
   * `_crop_map_area`: `image[top:height - bottom, left:width - right]` for the configured margins,
   * `None` when that region is empty.
   */
  function CropMapArea(m: Margins, img: Image): (r: Option<Image>)
    ensures r.None? <==> m.top + m.bottom >= img.height || m.left + m.right >= img.width
    ensures r.Some? ==> r.value == Image(img.height - m.top - m.bottom, img.width - m.left - m.right)
    ensures r.Some? ==> 1 <= r.value.height <= img.height && 1 <= r.value.width <= img.width
  {
    var top: int := m.top;
    var bottom: int := img.height - m.bottom;
    var left: int := m.left;
    var right: int := img.width - m.right;
    if top >= bottom || left >= right then None
    else Some(Image(SliceLength(top, bottom, img.height), SliceLength(left, right, img.width)))
  }

  /** As shipped, a full 1080 x 2340 screenshot crops to the 980 x 1990 display area. */
  lemma ShippedCrop()
    ensures CropMapArea(Shipped.margins, Image(Shipped.screenHeight, Shipped.screenWidth))
            == Some(Image(Shipped.displayHeight, Shipped.displayWidth))
  {
  }

  /** One cell of `_extract_map_regions`: empty cells, unreadable files and failed crops give `None`. */
  function CropCell(m: Margins, cell: Option<Shot>): Option<Image> {
    match cell
    case None => None
    case Some(s) =>
      match s.image
      case None => None
      case Some(img) => CropMapArea(m, img)
  }

  function Extracted(m: Margins, grid: seq<seq<Option<Shot>>>): seq<seq<Option<Image>>> {
    seq(|grid|, i requires 0 <= i < |grid| => seq(|grid[i]|, j requires 0 <= j < |grid[i]| => CropCell(m, grid[i][j])))
  }

  /** `_extract_map_regions`: the grid keeps its shape, each cell replaced by its cropped image. */
  method ExtractMapRegions(cfg: Config, grid: seq<seq<Option<Shot>>>) returns (cropped: seq<seq<Option<Image>>>)
    ensures |cropped| == |grid|
    ensures forall i :: 0 <= i < |grid| ==> |cropped[i]| == |grid[i]|
    ensures forall i, j :: 0 <= i < |grid| && 0 <= j < |grid[i]| ==> cropped[i][j] == CropCell(cfg.margins, grid[i][j])
    ensures cropped == Extracted(cfg.margins, grid)
  {
    cropped := [];
    for i := 0 to |grid|
      invariant |cropped| == i
      invariant forall k :: 0 <= k < i ==> cropped[k] == Extracted(cfg.margins, grid)[k]
    {
      var row := grid[i];
      var croppedRow: seq<Option<Image>> := [];
      for j := 0 to |row|
        invariant |croppedRow| == j
        invariant forall k :: 0 <= k < j ==> croppedRow[k] == CropCell(cfg.margins, row[k])
      {
        var cell := row[j];
        if cell.None? {
          croppedRow := croppedRow + [None];
        } else if cell.value.image.None? {
          croppedRow := croppedRow + [None];
        } else {
          croppedRow := croppedRow + [CropMapArea(cfg.margins, cell.value.image.value)];
        }
      }
      assert croppedRow == Extracted(cfg.margins, grid)[i];
      cropped := cropped + [croppedRow];
    }
  }

  // ---------------------------------------------------------------------------------------------
  // One stitching axis. Horizontal stitching keeps the height (`across`) and joins along the
  // width (`along`); vertical stitching is the mirror image.

  function Across(img: Image, horizontal: bool): nat {
    if horizontal then img.height else img.width
  }

  function Along(img: Image, horizontal: bool): nat {
    if horizontal then img.width else img.height
  }

  function Make(across: nat, along: nat, horizontal: bool): (img: Image)
    ensures Across(img, horizontal) == across && Along(img, horizontal) == along
  {
    if horizontal then Image(across, along) else Image(along, across)
  }

  /** The overlap in pixels, `int(display * SWIPE_OVERLAP)`. */
  function OverlapPixels(display: int, overlap: real): (ov: int)
    ensures 0 <= display && 0.0 <= overlap <= 1.0 ==> 0 <= ov <= display
  {
    var x := display as real * overlap;
    assert 0 <= display && 0.0 <= overlap <= 1.0 ==> 0.0 <= x <= display as real by {
      if 0 <= display && 0.0 <= overlap <= 1.0 {
        Arith.MulNonNeg(display as real, overlap);
        Arith.MulLeRight(overlap, 1.0, display as real);
        assert overlap * display as real == x;
      }
    }
    Trunc(x)
  }

  /** As shipped the overlaps are 196 columns and 398 rows. */
  lemma ShippedOverlap()
    ensures OverlapPixels(Shipped.displayWidth, Shipped.overlap) == 196
    ensures OverlapPixels(Shipped.displayHeight, Shipped.overlap) == 398
  {
    assert 980.0 * 0.2 == 196.0;
    assert 1990.0 * 0.2 == 398.0;
  }

  /**
   * What remains of `n` pixels after the overlap trim: `img[ov:]` when the overlap is smaller
   * than the image, and only `img[ov // 2:]` otherwise.
   */
  function TrimLeading(n: nat, ov: int): (r: nat)
    ensures r <= n
    ensures 0 <= ov < n ==> r == n - ov
    ensures ov >= n ==> r == n - Min(ov / 2, n)
    ensures ov < 0 ==> r == Min(-ov, n)
  {
    n - SliceStart(if ov < n then ov else ov / 2, n)
  }

  function Trim(img: Image, ov: int, horizontal: bool): Image {
    Make(Across(img, horizontal), TrimLeading(Along(img, horizontal), ov), horizontal)
  }

  /** The overlap handling: the first image whole, every later one trimmed at its leading edge. */
  function TrimAll(imgs: seq<Image>, ov: int, horizontal: bool): seq<Image> {
    seq(|imgs|, i requires 0 <= i < |imgs| => if i == 0 then imgs[0] else Trim(imgs[i], ov, horizontal))
  }

  /**
   * The resize to the target `across` size `t`: nothing when the image already has it; otherwise
   * the other side becomes `int(t * along / across)`. A zero `across` (division by zero) or a
   * zero result (an empty size, which `cv2.resize` rejects) is a failure.
   */
  function Fit(img: Image, t: nat, horizontal: bool): (r: Option<Image>)
    ensures Across(img, horizontal) == t ==> r == Some(img)
    ensures r.Some? ==> Across(r.value, horizontal) == t
    ensures r.Some? && Across(img, horizontal) != t ==> Along(r.value, horizontal) >= 1
    ensures r.Some? && Across(img, horizontal) != t ==>
              Across(img, horizontal) > 0 &&
              var x := t as real * (Along(img, horizontal) as real / Across(img, horizontal) as real);
              Along(r.value, horizontal) as real <= x < Along(r.value, horizontal) as real + 1.0
  {
    var a := Across(img, horizontal);
    if a == t then Some(img)
    else if a == 0 then None
    else
      var aspect := Along(img, horizontal) as real / a as real;
      var n := Trunc(t as real * aspect);
      if n == 0 then None else Some(Make(t, n, horizontal))
  }

  predicate AllFit(imgs: seq<Image>, t: nat, horizontal: bool) {
    forall i :: 0 <= i < |imgs| ==> Fit(imgs[i], t, horizontal).Some?
  }

  function FitAll(imgs: seq<Image>, t: nat, horizontal: bool): (r: seq<Image>)
    requires AllFit(imgs, t, horizontal)
    ensures |r| == |imgs|
  {
    seq(|imgs|, i requires 0 <= i < |imgs| => Fit(imgs[i], t, horizontal).value)
  }

  function SumAlong(imgs: seq<Image>, horizontal: bool): nat {
    if imgs == [] then 0 else Along(imgs[0], horizontal) + SumAlong(imgs[1..], horizontal)
  }

  /** `np.hstack` / `np.vstack`: images of one `across` size joined end to end; a mismatch raises. */
  function Stack(imgs: seq<Image>, horizontal: bool): Option<Image>
    requires imgs != []
  {
    if forall i :: 0 <= i < |imgs| ==> Across(imgs[i], horizontal) == Across(imgs[0], horizontal)
    then Some(Make(Across(imgs[0], horizontal), SumAlong(imgs, horizontal), horizontal))
    else None
  }

  /** `_stitch_horizontally` (`horizontal`) and `_stitch_vertically` with overlap `ov`. */
  function Stitch(images: seq<Image>, ov: int, horizontal: bool): Option<Image> {
    if images == [] then None
    else
      var t := Across(images[0], horizontal);
      if !AllFit(images, t, horizontal) then None
      else Stack(TrimAll(FitAll(images, t, horizontal), ov, horizontal), horizontal)
  }

  /** `_handle_horizontal_overlap`: the trim along the width, by the configured width overlap. */
  method HandleHorizontalOverlap(cfg: Config, images: seq<Image>) returns (processed: seq<Image>)
    ensures |processed| == |images|
    ensures processed == TrimAll(images, OverlapPixels(cfg.displayWidth, cfg.overlap), true)
  {
    var ov := OverlapPixels(cfg.displayWidth, cfg.overlap);
    if |images| <= 1 {
      assert images == TrimAll(images, ov, true);
      return images;
    }
    processed := [images[0]];
    for i := 1 to |images|
      invariant |processed| == i
      invariant forall k :: 0 <= k < i ==> processed[k] == TrimAll(images, ov, true)[k]
    {
      var img := images[i];
      var start := if ov < img.width then ov else ov / 2;
      processed := processed + [Image(img.height, img.width - SliceStart(start, img.width))];
    }
  }

  /** `_handle_vertical_overlap`: the trim along the height, by the configured height overlap. */
  method HandleVerticalOverlap(cfg: Config, images: seq<Image>) returns (processed: seq<Image>)
    ensures |processed| == |images|
    ensures processed == TrimAll(images, OverlapPixels(cfg.displayHeight, cfg.overlap), false)
  {
    var ov := OverlapPixels(cfg.displayHeight, cfg.overlap);
    if |images| <= 1 {
      assert images == TrimAll(images, ov, false);
      return images;
    }
    processed := [images[0]];
    for i := 1 to |images|
      invariant |processed| == i
      invariant forall k :: 0 <= k < i ==> processed[k] == TrimAll(images, ov, false)[k]
    {
      var img := images[i];
      var start := if ov < img.height then ov else ov / 2;
      processed := processed + [Image(img.height - SliceStart(start, img.height), img.width)];
    }
  }

  /** `_stitch_horizontally`: every image resized to the first one's height, trimmed, joined. */
  method StitchHorizontally(cfg: Config, images: seq<Image>) returns (result: Option<Image>)
    ensures result == Stitch(images, OverlapPixels(cfg.displayWidth, cfg.overlap), true)
  {
    if images == [] {
      return None;
    }
    var targetHeight := images[0].height;
    var resized: seq<Image> := [];
    for i := 0 to |images|
      invariant |resized| == i
      invariant forall k :: 0 <= k < i ==> Fit(images[k], targetHeight, true) == Some(resized[k])
    {
      var img := images[i];
      if img.height != targetHeight {
        if img.height == 0 {
          assert Fit(images[i], targetHeight, true).None?;
          return None;
        }
        var aspectRatio := img.width as real / img.height as real;
        var newWidth := Trunc(targetHeight as real * aspectRatio);
        if newWidth == 0 {
          assert Fit(images[i], targetHeight, true).None?;
          return None;
        }
        assert Fit(img, targetHeight, true).value == Make(targetHeight, newWidth, true);
        assert Fit(img, targetHeight, true) == Some(Image(targetHeight, newWidth));
        resized := resized + [Image(targetHeight, newWidth)];
      } else {
        assert Fit(img, targetHeight, true) == Some(img);
        resized := resized + [img];
      }
    }
    assert resized == FitAll(images, targetHeight, true);
    var processed := HandleHorizontalOverlap(cfg, resized);
    result := Stack(processed, true);
  }

  /** `_stitch_vertically`: every image resized to the first one's width, trimmed, joined. */
  method StitchVertically(cfg: Config, images: seq<Image>) returns (result: Option<Image>)
    ensures result == Stitch(images, OverlapPixels(cfg.displayHeight, cfg.overlap), false)
  {
    if images == [] {
      return None;
    }
    var targetWidth := images[0].width;
    var resized: seq<Image> := [];
    for i := 0 to |images|
      invariant |resized| == i
      invariant forall k :: 0 <= k < i ==> Fit(images[k], targetWidth, false) == Some(resized[k])
    {
      var img := images[i];
      if img.width != targetWidth {
        if img.width == 0 {
          assert Fit(images[i], targetWidth, false).None?;
          return None;
        }
        var aspectRatio := img.height as real / img.width as real;
        var newHeight := Trunc(targetWidth as real * aspectRatio);
        if newHeight == 0 {
          assert Fit(images[i], targetWidth, false).None?;
          return None;
        }
        assert Fit(img, targetWidth, false).value == Make(targetWidth, newHeight, false);
        assert Fit(img, targetWidth, false) == Some(Image(newHeight, targetWidth));
        resized := resized + [Image(newHeight, targetWidth)];
      } else {
        assert Fit(img, targetWidth, false) == Some(img);
        resized := resized + [img];
      }
    }
    assert resized == FitAll(images, targetWidth, false);
    var processed := HandleVerticalOverlap(cfg, resized);
    result := Stack(processed, false);
  }

  /** Summing the trimmed sizes of the images after the first. */
  function SumTrimmed(imgs: seq<Image>, ov: int, horizontal: bool): nat {
    if imgs == [] then 0 else TrimLeading(Along(imgs[0], horizontal), ov) + SumTrimmed(imgs[1..], ov, horizontal)
  }

  lemma {:induction false} SumAlongTrimmed(imgs: seq<Image>, ov: int, horizontal: bool)
    requires imgs != []
    ensures SumAlong(TrimAll(imgs, ov, horizontal), horizontal)
            == Along(imgs[0], horizontal) + SumTrimmed(imgs[1..], ov, horizontal)
  {
    var t := TrimAll(imgs, ov, horizontal);
    assert t[1..] == seq(|imgs| - 1, i requires 0 <= i < |imgs| - 1 => Trim(imgs[1..][i], ov, horizontal));
    SumAlongTrims(imgs[1..], ov, horizontal);
  }

  lemma {:induction false} SumAlongTrims(imgs: seq<Image>, ov: int, horizontal: bool)
    ensures SumAlong(seq(|imgs|, i requires 0 <= i < |imgs| => Trim(imgs[i], ov, horizontal)), horizontal)
            == SumTrimmed(imgs, ov, horizontal)
  {
    var t := seq(|imgs|, i requires 0 <= i < |imgs| => Trim(imgs[i], ov, horizontal));
    if imgs != [] {
      SumAlongTrims(imgs[1..], ov, horizontal);
      assert t[1..] == seq(|imgs| - 1, i requires 0 <= i < |imgs| - 1 => Trim(imgs[1..][i], ov, horizontal));
    }
  }

  /**
   * The shape of a stitch: it fails only on an empty list or a failed resize; otherwise its
   * `across` size is the first image's and its `along` size is the first image's plus the trimmed
   * sizes of the resized others.
   */
  lemma StitchShape(images: seq<Image>, ov: int, horizontal: bool)
    ensures Stitch(images, ov, horizontal).Some? <==>
              images != [] && AllFit(images, Across(images[0], horizontal), horizontal)
    ensures Stitch(images, ov, horizontal).Some? ==>
              var t := Across(images[0], horizontal);
              var r := Stitch(images, ov, horizontal).value;
              Across(r, horizontal) == t
              && Along(r, horizontal) == Along(images[0], horizontal) + SumTrimmed(FitAll(images, t, horizontal)[1..], ov, horizontal)
  {
    if images != [] && AllFit(images, Across(images[0], horizontal), horizontal) {
      var t := Across(images[0], horizontal);
      var fitted := FitAll(images, t, horizontal);
      var trimmed := TrimAll(fitted, ov, horizontal);
      assert fitted[0] == images[0];
      assert forall i :: 0 <= i < |trimmed| ==> Across(trimmed[i], horizontal) == t;
      SumAlongTrimmed(fitted, ov, horizontal);
    }
  }

  /** `n` copies of one image trim to `n - 1` copies of the image less the overlap. */
  lemma {:induction false} SumTrimmedCopies(imgs: seq<Image>, img: Image, ov: int, horizontal: bool)
    requires forall i :: 0 <= i < |imgs| ==> imgs[i] == img
    requires 0 <= ov < Along(img, horizontal)
    ensures SumTrimmed(imgs, ov, horizontal) == |imgs| * (Along(img, horizontal) - ov)
  {
    if imgs != [] {
      SumTrimmedCopies(imgs[1..], img, ov, horizontal);
      assert imgs[0] == img;
      MulSucc(|imgs|, Along(img, horizontal) - ov);
    }
  }

  lemma MulSucc(n: int, d: int)
    ensures n * d == (n - 1) * d + d
  {
  }

  /**
   * `n >= 1` images of one size with an overlap smaller than the image: the stitch is
   * `along + (n - 1) * (along - ov)` long, the first image whole and each later one less the overlap.
   */
  lemma EqualImagesStitch(images: seq<Image>, img: Image, ov: int, horizontal: bool)
    requires images != [] && forall i :: 0 <= i < |images| ==> images[i] == img
    requires 0 <= ov < Along(img, horizontal)
    ensures Stitch(images, ov, horizontal)
            == Some(Make(Across(img, horizontal), Along(img, horizontal) + (|images| - 1) * (Along(img, horizontal) - ov), horizontal))
  {
    var t := Across(img, horizontal);
    assert AllFit(images, t, horizontal);
    var fitted := FitAll(images, t, horizontal);
    assert forall i :: 0 <= i < |fitted| ==> fitted[i] == img;
    StitchShape(images, ov, horizontal);
    SumTrimmedCopies(fitted[1..], img, ov, horizontal);
    var r := Stitch(images, ov, horizontal).value;
    assert r == Make(Across(r, horizontal), Along(r, horizontal), horizontal) by {
      if horizontal { assert r == Image(r.height, r.width); } else { assert r == Image(r.height, r.width); }
    }
  }

  // ---------------------------------------------------------------------------------------------
  // Rows, then the column of rows

  /** `[img for img in row if img is not None]`. */
  function Present(row: seq<Option<Image>>): (v: seq<Image>)
    ensures |v| <= |row|
    decreases |row|
  {
    if row == [] then []
    else
      var last := row[|row| - 1];
      Present(row[..|row| - 1]) + (if last.Some? then [last.value] else [])
  }

  /** A row has no image exactly when every cell is `None`. */
  lemma {:induction false} PresentEmptyIff(row: seq<Option<Image>>)
    ensures Present(row) == [] <==> forall j :: 0 <= j < |row| ==> row[j].None?
    decreases |row|
  {
    if row != [] {
      var init := row[..|row| - 1];
      PresentEmptyIff(init);
      assert forall j :: 0 <= j < |init| ==> init[j] == row[j];
    }
  }

  /** A row of only images keeps them all, in order. */
  lemma {:induction false} PresentFull(row: seq<Option<Image>>)
    requires forall j :: 0 <= j < |row| ==> row[j].Some?
    ensures Present(row) == seq(|row|, j requires 0 <= j < |row| => row[j].value)
    decreases |row|
  {
    if row != [] {
      var init := row[..|row| - 1];
      PresentFull(init);
    }
  }

  /** One row of `_perform_stitching`: no image skips it, one image is used untrimmed. */
  function RowImage(cfg: Config, row: seq<Option<Image>>): Option<Image> {
    var valid := Present(row);
    if valid == [] then None
    else if |valid| == 1 then Some(valid[0])
    else Stitch(valid, OverlapPixels(cfg.displayWidth, cfg.overlap), true)
  }

  /** The rows that stitched, in grid order. */
  function StitchedRows(cfg: Config, grid: seq<seq<Option<Image>>>): (rows: seq<Image>)
    ensures |rows| <= |grid|
    decreases |grid|
  {
    if grid == [] then []
    else
      var r := RowImage(cfg, grid[|grid| - 1]);
      StitchedRows(cfg, grid[..|grid| - 1]) + (if r.Some? then [r.value] else [])
  }

  function Perform(cfg: Config, grid: seq<seq<Option<Image>>>): Option<Image> {
    var rows := StitchedRows(cfg, grid);
    if rows == [] then None
    else if |rows| == 1 then Some(rows[0])
    else Stitch(rows, OverlapPixels(cfg.displayHeight, cfg.overlap), false)
  }

  /** `_perform_stitching`: each row stitched horizontally, then the surviving rows vertically. */
  method PerformStitching(cfg: Config, grid: seq<seq<Option<Image>>>) returns (result: Option<Image>)
    ensures result == Perform(cfg, grid)
  {
    var stitchedRows: seq<Image> := [];
    for i := 0 to |grid|
      invariant stitchedRows == StitchedRows(cfg, grid[..i])
    {
      var validImages := Present(grid[i]);
      assert grid[..i + 1][..i] == grid[..i];
      if validImages == [] {
        continue;
      }
      var rowStitched: Option<Image>;
      if |validImages| == 1 {
        rowStitched := Some(validImages[0]);
      } else {
        rowStitched := StitchHorizontally(cfg, validImages);
      }
      if rowStitched.Some? {
        stitchedRows := stitchedRows + [rowStitched.value];
      }
    }
    assert grid[..|grid|] == grid;
    if stitchedRows == [] {
      return None;
    }
    if |stitchedRows| == 1 {
      result := Some(stitchedRows[0]);
    } else {
      result := StitchVertically(cfg, stitchedRows);
    }
  }

  /**
   * The map exists exactly when some row survives and every surviving row can be resized to the
   * first one's width; it is then as wide as the first surviving row.
   */
  lemma PerformMapShape(cfg: Config, grid: seq<seq<Option<Image>>>)
    ensures var rows := StitchedRows(cfg, grid);
            Perform(cfg, grid).Some? <==> rows != [] && AllFit(rows, rows[0].width, false)
    ensures Perform(cfg, grid).Some? ==> Perform(cfg, grid).value.width == StitchedRows(cfg, grid)[0].width
  {
    var rows := StitchedRows(cfg, grid);
    if rows != [] {
      StitchShape(rows, OverlapPixels(cfg.displayHeight, cfg.overlap), false);
      if |rows| == 1 {
        assert Fit(rows[0], rows[0].width, false) == Some(rows[0]);
      }
    }
  }

  /** When no row of the grid stitches, no row survives. */
  lemma {:induction false} NoRowSurvives(cfg: Config, grid: seq<seq<Option<Image>>>)
    requires forall j :: 0 <= j < |grid| ==> RowImage(cfg, grid[j]).None?
    ensures StitchedRows(cfg, grid) == []
    decreases |grid|
  {
    if grid != [] {
      var init := grid[..|grid| - 1];
      assert forall j :: 0 <= j < |init| ==> init[j] == grid[j];
      NoRowSurvives(cfg, init);
    }
  }

  /** When exactly row `i` of the grid stitches, it is the only surviving row. */
  lemma {:induction false} OneRowSurvives(cfg: Config, grid: seq<seq<Option<Image>>>, i: nat)
    requires i < |grid| && RowImage(cfg, grid[i]).Some?
    requires forall j :: 0 <= j < |grid| && j != i ==> RowImage(cfg, grid[j]).None?
    ensures StitchedRows(cfg, grid) == [RowImage(cfg, grid[i]).value]
    decreases |grid|
  {
    var init := grid[..|grid| - 1];
    assert forall j :: 0 <= j < |init| ==> init[j] == grid[j];
    if i == |grid| - 1 {
      NoRowSurvives(cfg, init);
    } else {
      OneRowSurvives(cfg, init, i);
    }
  }

  /** A grid in which only row `i` holds a stitchable row gives that row's image as the map, untrimmed. */
  lemma PerformSingleRow(cfg: Config, grid: seq<seq<Option<Image>>>, i: nat)
    requires i < |grid| && RowImage(cfg, grid[i]).Some?
    requires forall j :: 0 <= j < |grid| && j != i ==> RowImage(cfg, grid[j]).None?
    ensures Perform(cfg, grid) == RowImage(cfg, grid[i])
  {
    OneRowSurvives(cfg, grid, i);
  }

  /** A grid with no image at all gives no map. */
  lemma {:induction false} EmptyGridNoMap(cfg: Config, grid: seq<seq<Option<Image>>>)
    requires forall i, j :: 0 <= i < |grid| && 0 <= j < |grid[i]| ==> grid[i][j].None?
    ensures StitchedRows(cfg, grid) == []
    ensures Perform(cfg, grid).None?
    decreases |grid|
  {
    if grid != [] {
      var init := grid[..|grid| - 1];
      assert forall i :: 0 <= i < |init| ==> init[i] == grid[i];
      EmptyGridNoMap(cfg, init);
      PresentEmptyIff(grid[|grid| - 1]);
    }
  }

  /** A grid with a row of equal images stitches that row to its exact width. */
  lemma FullRowImage(cfg: Config, row: seq<Option<Image>>, img: Image)
    requires row != [] && forall j :: 0 <= j < |row| ==> row[j] == Some(img)
    requires 0 <= OverlapPixels(cfg.displayWidth, cfg.overlap) < img.width
    ensures RowImage(cfg, row)
            == Some(Image(img.height, img.width + (|row| - 1) * (img.width - OverlapPixels(cfg.displayWidth, cfg.overlap))))
  {
    PresentFull(row);
    var valid := Present(row);
    assert forall j :: 0 <= j < |valid| ==> valid[j] == img;
    if |valid| > 1 {
      EqualImagesStitch(valid, img, OverlapPixels(cfg.displayWidth, cfg.overlap), true);
    }
  }

  /** Rows that all stitch to one image give one stitched row each. */
  lemma {:induction false} UniformRows(cfg: Config, grid: seq<seq<Option<Image>>>, rowImg: Image)
    requires forall i :: 0 <= i < |grid| ==> RowImage(cfg, grid[i]) == Some(rowImg)
    ensures |StitchedRows(cfg, grid)| == |grid|
    ensures forall i :: 0 <= i < |grid| ==> StitchedRows(cfg, grid)[i] == rowImg
    decreases |grid|
  {
    if grid != [] {
      var init := grid[..|grid| - 1];
      assert forall i :: 0 <= i < |init| ==> init[i] == grid[i];
      UniformRows(cfg, init, rowImg);
    }
  }

  /**
   * A full `rows x cols` grid of equal `H x W` images, with overlaps smaller than the image, gives
   * a map of `H + (rows - 1) * (H - ovV)` by `W + (cols - 1) * (W - ovH)` pixels.
   */
  lemma FullGridMosaic(cfg: Config, grid: seq<seq<Option<Image>>>, img: Image, cols: nat)
    requires grid != [] && cols >= 1
    requires forall i :: 0 <= i < |grid| ==> |grid[i]| == cols
    requires forall i, j :: 0 <= i < |grid| && 0 <= j < cols ==> grid[i][j] == Some(img)
    requires 0 <= OverlapPixels(cfg.displayWidth, cfg.overlap) < img.width
    requires 0 <= OverlapPixels(cfg.displayHeight, cfg.overlap) < img.height
    ensures Perform(cfg, grid)
            == Some(Image(img.height + (|grid| - 1) * (img.height - OverlapPixels(cfg.displayHeight, cfg.overlap)),
                          img.width + (cols - 1) * (img.width - OverlapPixels(cfg.displayWidth, cfg.overlap))))
  {
    var ovH, ovV := OverlapPixels(cfg.displayWidth, cfg.overlap), OverlapPixels(cfg.displayHeight, cfg.overlap);
    var extra := (cols - 1) * (img.width - ovH);
    MulNat(cols - 1, img.width - ovH);
    var rowImg := Image(img.height, img.width + extra);
    forall i | 0 <= i < |grid| ensures RowImage(cfg, grid[i]) == Some(rowImg) {
      FullRowImage(cfg, grid[i], img);
    }
    UniformRows(cfg, grid, rowImg);
    var rows := StitchedRows(cfg, grid);
    if |rows| > 1 {
      EqualImagesStitch(rows, rowImg, ovV, false);
    }
  }

  lemma MulNat(a: int, b: int)
    requires 0 <= a && 0 <= b
    ensures 0 <= a * b
  {
  }

  /** As shipped, the one row of three cropped screenshots stitches to a 1990 x 2548 map. */
  lemma ShippedMosaic(grid: seq<seq<Option<Image>>>)
    requires grid == [seq(3, _ => Some(Image(1990, 980)))]
    ensures Perform(Shipped, grid) == Some(Image(1990, 2548))
  {
    ShippedOverlap();
    FullGridMosaic(Shipped, grid, Image(1990, 980), 3);
  }

  // ---------------------------------------------------------------------------------------------

  /** `stitch_screenshots`: no screenshots give no map; otherwise sort, crop, stitch. */
  method StitchScreenshots(cfg: Config, shots: seq<Shot>) returns (result: Option<Image>)
    ensures shots == [] ==> result.None?
    ensures shots != [] ==> result == Perform(cfg, Extracted(cfg.margins, GridOf(shots)))
  {
    if shots == [] {
      return None;
    }
    var sorted := SortByGrid(shots);
    var cropped := ExtractMapRegions(cfg, sorted.value);
    result := PerformStitching(cfg, cropped);
  }
}
