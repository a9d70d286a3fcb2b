/**
 * Cutting a spritesheet into equal tiles and building one animation per row of tiles.
 *
 * Image pixels are not modelled: a slice is the rectangle of the sheet it is copied
 * from (left, top, width, height), and a sheet is known only by its size in pixels.
 */
module Spritesheet {
  import opened Common
  import opened Sprite

  /** A region of a sheet in pixels: left, top, width, height (an `sf::IntRect`). */
  datatype Rect = Rect(x: nat, y: nat, w: nat, h: nat)

  /** Pixel `(px, py)` lies inside rectangle `t`. */
  predicate Covers(t: Rect, px: nat, py: nat) {
    t.x <= px < t.x + t.w && t.y <= py < t.y + t.h
  }

  /** The first `cols` tiles of the row whose top edge is at pixel `top`, left to right. */
  function RowTiles(top: nat, cols: nat, width: nat, height: nat): (t: seq<Rect>)
    ensures |t| == cols
  {
    if cols == 0 then [] else RowTiles(top, cols - 1, width, height) + [Rect((cols - 1) * width, top, width, height)]
  }

  /** Tile `c` of a row is at pixel column `c * width`. */
  lemma {:induction false} RowTilesAt(top: nat, cols: nat, width: nat, height: nat, c: nat)
    requires c < cols
    ensures RowTiles(top, cols, width, height)[c] == Rect(c * width, top, width, height)
    decreases cols
  {
    if c < cols - 1 {
      RowTilesAt(top, cols - 1, width, height, c);
    }
  }

  /** The first `rows` full rows of `cols` tiles each, top to bottom: a row-major tiling. */
  function Tiles(rows: nat, cols: nat, width: nat, height: nat): (t: seq<Rect>)
    ensures |t| == rows * cols
  {
    if rows == 0 then []
    else Tiles(rows - 1, cols, width, height) + RowTiles((rows - 1) * height, cols, width, height)
  }

  /** The whole tiles of a sheet: `sheetHeight / height` rows of `sheetWidth / width` tiles. */
  function SheetTiles(sheetWidth: nat, sheetHeight: nat, width: nat, height: nat): seq<Rect>
    requires 0 < width && 0 < height
  {
    Tiles(sheetHeight / height, sheetWidth / width, width, height)
  }

  /** A tiling grows by one row at a time, top to bottom. */
  lemma TilesSnoc(rows: nat, cols: nat, width: nat, height: nat)
    ensures Tiles(rows + 1, cols, width, height) == Tiles(rows, cols, width, height) + RowTiles(rows * height, cols, width, height)
  {
  }

  /** Row `row` of a `rows`-row tiling ends no later than the tiling does. */
  lemma RowInside(rows: nat, cols: nat, row: nat)
    requires row < rows
    ensures row * cols + cols <= rows * cols
  {
    MulMono(row + 1, rows, cols);
  }

  /** Tile `c` of row `r` sits at index `r * cols + c`, at pixel `(c * width, r * height)`. */
  lemma {:induction false} TilesAt(rows: nat, cols: nat, width: nat, height: nat, r: nat, c: nat)
    requires r < rows && c < cols
    ensures r * cols + c < rows * cols
    ensures Tiles(rows, cols, width, height)[r * cols + c] == Rect(c * width, r * height, width, height)
    decreases rows
  {
    RowInside(rows, cols, r);
    if r < rows - 1 {
      TilesAt(rows - 1, cols, width, height, r, c);
      RowInside(rows - 1, cols, r);
    } else {
      RowTilesAt(r * height, cols, width, height, c);
    }
  }

  /** A row of at most `sheetWidth` pixels whose bottom edge is inside the sheet lies within it. */
  lemma {:induction false} RowTilesInside(top: nat, cols: nat, width: nat, height: nat, sheetWidth: nat, sheetHeight: nat)
    requires top + height <= sheetHeight && cols * width <= sheetWidth
    ensures forall t :: t in RowTiles(top, cols, width, height) ==>
      t.w == width && t.h == height && t.x + t.w <= sheetWidth && t.y + t.h <= sheetHeight
    decreases cols
  {
    if cols > 0 {
      assert (cols - 1) * width + width == cols * width;
      RowTilesInside(top, cols - 1, width, height, sheetWidth, sheetHeight);
    }
  }

  /** A tiling of at most `sheetHeight` by `sheetWidth` pixels lies within the sheet. */
  lemma {:induction false} TilesInside(rows: nat, cols: nat, width: nat, height: nat, sheetWidth: nat, sheetHeight: nat)
    requires rows * height <= sheetHeight && cols * width <= sheetWidth
    ensures forall t :: t in Tiles(rows, cols, width, height) ==>
      t.w == width && t.h == height && t.x + t.w <= sheetWidth && t.y + t.h <= sheetHeight
    decreases rows
  {
    if rows > 0 {
      assert (rows - 1) * height + height == rows * height;
      TilesInside(rows - 1, cols, width, height, sheetWidth, sheetHeight);
      RowTilesInside((rows - 1) * height, cols, width, height, sheetWidth, sheetHeight);
    }
  }

  /** Every slice of a sheet is a whole tile inside the sheet. */
  lemma SheetTilesInside(sheetWidth: nat, sheetHeight: nat, width: nat, height: nat)
    requires 0 < width && 0 < height
    ensures forall t :: t in SheetTiles(sheetWidth, sheetHeight, width, height) ==>
      t.w == width && t.h == height && t.x + t.w <= sheetWidth && t.y + t.h <= sheetHeight
  {
    var rows, cols := sheetHeight / height, sheetWidth / width;
    assert sheetHeight == rows * height + sheetHeight % height;
    assert sheetWidth == cols * width + sheetWidth % width;
    TilesInside(rows, cols, width, height, sheetWidth, sheetHeight);
  }

  /**
   * When the sheet's sides are multiples of the tile's, every pixel of the sheet lies in
   * some slice, and the slices' total area is the sheet's area.
   */
  lemma SheetTilesCover(sheetWidth: nat, sheetHeight: nat, width: nat, height: nat)
    requires 0 < width && 0 < height
    requires sheetWidth % width == 0 && sheetHeight % height == 0
    ensures forall px: nat, py: nat :: px < sheetWidth && py < sheetHeight ==>
      PixelCovered(SheetTiles(sheetWidth, sheetHeight, width, height), px, py)
    ensures |SheetTiles(sheetWidth, sheetHeight, width, height)| * (width * height) == sheetWidth * sheetHeight
  {
    var rows, cols := sheetHeight / height, sheetWidth / width;
    assert sheetHeight == rows * height + sheetHeight % height;
    assert sheetWidth == cols * width + sheetWidth % width;
    forall px: nat, py: nat | px < sheetWidth && py < sheetHeight
      ensures PixelCovered(SheetTiles(sheetWidth, sheetHeight, width, height), px, py)
    {
      TileOfPixel(rows, cols, width, height, px, py);
    }
  }

  /** Some slice of a tiling holds pixel `(px, py)`. */
  predicate PixelCovered(tiles: seq<Rect>, px: nat, py: nat) {
    exists t :: t in tiles && Covers(t, px, py)
  }

  /** The tile in row `py / height`, column `px / width` holds pixel `(px, py)`. */
  lemma TileOfPixel(rows: nat, cols: nat, width: nat, height: nat, px: nat, py: nat)
    requires 0 < width && 0 < height && px < cols * width && py < rows * height
    ensures PixelCovered(Tiles(rows, cols, width, height), px, py)
  {
    var r, c := py / height, px / width;
    TileIndex(py, rows, height);
    TileIndex(px, cols, width);
    TilesAt(rows, cols, width, height, r, c);
    var t := Tiles(rows, cols, width, height)[r * cols + c];
    assert Covers(t, px, py);
  }

  /** Pixel `p` below `n` whole tiles lies in tile `p / tile`, which is one of those `n`. */
  lemma TileIndex(p: nat, n: nat, tile: nat)
    requires 0 < tile && p < n * tile
    ensures p / tile < n
    ensures (p / tile) * tile <= p < (p / tile) * tile + tile
  {
    var q := p / tile;
    assert p == q * tile + p % tile;
    if n <= q {
      MulMono(n, q, tile);
    }
  }

  /**
   * The inner loop of `SliceSpritesheet`: the whole tiles of the row whose top edge is
   * at pixel `top`, left to right, skipping a partial last column.
   */
  method SliceRow(sheetWidth: nat, top: nat, width: nat, height: nat) returns (slices: seq<Rect>)
    requires 0 < width
    ensures slices == RowTiles(top, sheetWidth / width, width, height)
  {
    slices := [];
    var x := 0;
    ghost var col := 0;
    while x < sheetWidth - width + 1
      invariant x == col * width && x <= sheetWidth
      invariant slices == RowTiles(top, col, width, height)
    {
      slices := slices + [Rect(x, top, width, height)];
      x := x + width;
      col := col + 1;
    }
    DivModUnique(sheetWidth, col, sheetWidth - x, width);
  }

  /**
   * `SliceSpritesheet`: the whole tiles of the sheet, left to right and top to bottom,
   * skipping a partial last row or column. Each warning flag stands for the message
   * printed when that side of the sheet is not a multiple of the tile's.
   */
  method SliceSpritesheet(sheetWidth: nat, sheetHeight: nat, width: nat, height: nat)
    returns (slices: seq<Rect>, widthWarning: bool, heightWarning: bool)
    requires 0 < width && 0 < height
    ensures widthWarning <==> sheetWidth % width != 0
    ensures heightWarning <==> sheetHeight % height != 0
    ensures slices == SheetTiles(sheetWidth, sheetHeight, width, height)
  {
    widthWarning := sheetWidth % width != 0;
    heightWarning := sheetHeight % height != 0;
    ghost var cols := sheetWidth / width;
    slices := [];
    var y := 0;
    ghost var row := 0;
    while y < sheetHeight - height + 1
      invariant y == row * height && y <= sheetHeight
      invariant slices == Tiles(row, cols, width, height)
    {
      var rowSlices := SliceRow(sheetWidth, y, width, height);
      assert slices + rowSlices == Tiles(row + 1, cols, width, height) by {
        TilesSnoc(row, cols, width, height);
      }
      slices := slices + rowSlices;
      y := y + height;
      row := row + 1;
    }
    DivModUnique(sheetHeight, row, sheetHeight - y, height);
  }

  /** The animation of row `row`: the row's tiles in order, each with its own delay. */
  function RowAnimation(tiles: seq<Rect>, delays: seq<int>, rows: nat, cols: nat, row: nat): (a: Animation<Rect>)
    requires row < rows && |tiles| == rows * cols && rows * cols <= |delays|
    ensures WellFormed(a) && a.length == cols
  {
    RowInside(rows, cols, row);
    Animation(tiles[row * cols .. row * cols + cols], delays[row * cols .. row * cols + cols], cols)
  }

  /**
   * The inner loop of `AnimationsFromSpritesheet`: the `cols` frames of one row, starting
   * at slice `start`, each with the delay at the same position.
   */
  method RowFrames(textures: seq<Rect>, delays: seq<int>, start: nat, cols: nat)
    returns (frames: seq<Rect>, frameDelays: seq<int>)
    requires start + cols <= |textures| && start + cols <= |delays|
    ensures frames == textures[start .. start + cols]
    ensures frameDelays == delays[start .. start + cols]
  {
    frames, frameDelays := [], [];
    var x := 0;
    while x < cols
      invariant x <= cols
      invariant frames == textures[start .. start + x]
      invariant frameDelays == delays[start .. start + x]
    {
      frames := frames + [textures[start + x]];
      frameDelays := frameDelays + [delays[start + x]];
      x := x + 1;
    }
  }

  /** The outer loop of `AnimationsFromSpritesheet`: one animation per row of `cols` slices. */
  method BuildRows(textures: seq<Rect>, delays: seq<int>, rows: nat, cols: nat)
    returns (animations: seq<Animation<Rect>>)
    requires |textures| == rows * cols && rows * cols <= |delays|
    ensures |animations| == rows
    ensures forall row :: 0 <= row < rows ==> animations[row] == RowAnimation(textures, delays, rows, cols, row)
  {
    animations := [];
    var y := 0;
    while y < rows
      invariant y <= rows && |animations| == y
      invariant forall k :: 0 <= k < y ==> animations[k] == RowAnimation(textures, delays, rows, cols, k)
    {
      var start := y * cols;
      assert start + cols <= rows * cols by { RowInside(rows, cols, y); }
      var frames, frameDelays := RowFrames(textures, delays, start, cols);
      animations := animations + [Animation(frames, frameDelays, |frames|)];
      y := y + 1;
    }
  }

  /**
   * `AnimationsFromSpritesheet`: throws unless there is a delay for every slice; otherwise
   * one animation per full row, frame `x` of row `y` being slice `cols * y + x` with delay
   * `delays[cols * y + x]`.
   */
  method AnimationsFromSpritesheet(sheetWidth: nat, sheetHeight: nat, width: nat, height: nat, delays: seq<int>)
    returns (r: Result<seq<Animation<Rect>>>)
    requires 0 < width && 0 < height
    ensures var rows, cols := sheetHeight / height, sheetWidth / width;
      && (r.Err? <==> |delays| < rows * cols)
      && (r.Err? ==> r.error == NotEnoughDelays)
      && (r.Ok? ==> |r.value| == rows && forall row :: 0 <= row < rows ==>
            r.value[row] == RowAnimation(SheetTiles(sheetWidth, sheetHeight, width, height), delays, rows, cols, row))
  {
    var textures, _, _ := SliceSpritesheet(sheetWidth, sheetHeight, width, height);
    if |delays| < |textures| {
      return Err(NotEnoughDelays);
    }
    var animations := BuildRows(textures, delays, sheetHeight / height, sheetWidth / width);
    return Ok(animations);
  }

  /** The frames of a list of animations, one animation after the other. */
  function Frames<T>(animations: seq<Animation<T>>): seq<T>
  {
    if animations == [] then []
    else Frames(animations[..|animations| - 1]) + animations[|animations| - 1].textures
  }

  /** Row `row`'s animation shows the `cols` slices from index `row * cols` on. */
  lemma RowAnimationSlice(tiles: seq<Rect>, delays: seq<int>, rows: nat, cols: nat, row: nat)
    requires row < rows && |tiles| == rows * cols && rows * cols <= |delays|
    ensures row * cols + cols <= |tiles|
    ensures RowAnimation(tiles, delays, rows, cols, row).textures == tiles[row * cols .. row * cols + cols]
  {
    RowInside(rows, cols, row);
  }

  /** The first `n` row animations show the first `n` rows of slices. */
  lemma {:induction false} RowFramesPrefix(tiles: seq<Rect>, delays: seq<int>, rows: nat, cols: nat, animations: seq<Animation<Rect>>, n: nat)
    requires |tiles| == rows * cols && rows * cols <= |delays|
    requires |animations| == rows && n <= rows
    requires forall row :: 0 <= row < rows ==> animations[row] == RowAnimation(tiles, delays, rows, cols, row)
    ensures n * cols <= |tiles| && Frames(animations[..n]) == tiles[..n * cols]
    decreases n
  {
    if n > 0 {
      var done := (n - 1) * cols;
      assert done + cols == n * cols by { MulSucc(n - 1, cols); }
      RowFramesPrefix(tiles, delays, rows, cols, animations, n - 1);
      RowAnimationSlice(tiles, delays, rows, cols, n - 1);
      var prefix := animations[..n];
      assert prefix[..n - 1] == animations[..n - 1];
      assert tiles[..done + cols] == tiles[..done] + tiles[done .. done + cols];
    }
  }

  /** Playing the row animations one after another shows every slice of the sheet once, in order. */
  lemma RowAnimationsCoverSheet(tiles: seq<Rect>, delays: seq<int>, rows: nat, cols: nat, animations: seq<Animation<Rect>>)
    requires |tiles| == rows * cols && rows * cols <= |delays|
    requires |animations| == rows
    requires forall row :: 0 <= row < rows ==> animations[row] == RowAnimation(tiles, delays, rows, cols, row)
    ensures Frames(animations) == tiles
  {
    RowFramesPrefix(tiles, delays, rows, cols, animations, rows);
    assert animations[..rows] == animations;
  }

  /** Frame `x` of row `y` is the tile at pixel `(x * width, y * height)`, shown for `delays[y * cols + x]`. */
  lemma RowAnimationFrame(sheetWidth: nat, sheetHeight: nat, width: nat, height: nat, delays: seq<int>, y: nat, x: nat)
    requires 0 < width && 0 < height
    requires y < sheetHeight / height && x < sheetWidth / width
    requires (sheetHeight / height) * (sheetWidth / width) <= |delays|
    ensures var rows, cols := sheetHeight / height, sheetWidth / width;
      var a := RowAnimation(SheetTiles(sheetWidth, sheetHeight, width, height), delays, rows, cols, y);
      && y * cols + x < |delays|
      && a.textures[x] == Rect(x * width, y * height, width, height)
      && a.delays[x] == delays[y * cols + x]
  {
    var rows, cols := sheetHeight / height, sheetWidth / width;
    var tiles := SheetTiles(sheetWidth, sheetHeight, width, height);
    var start := y * cols;
    TilesAt(rows, cols, width, height, y, x);
    RowInside(rows, cols, y);
    assert RowAnimation(tiles, delays, rows, cols, y).textures[x] == tiles[start + x];
  }

  // ---------------------------------------------------------------------------
  // The source as written
  // ---------------------------------------------------------------------------

  /**
   * The bound `size - tile + 1` that the slicing loops compare their pixel position
   * against, computed as written in 32-bit unsigned arithmetic.
   */
  function LoopBoundAsWritten(size: nat, tile: nat): (bound: nat)
    requires size < U32 && 0 < tile < U32
    ensures size + 1 >= tile ==> bound == size + 1 - tile
    ensures size + 1 < tile ==> bound == U32 + size + 1 - tile
  {
    (size - tile + 1) % U32
  }

  /**
   * On a sheet 10 pixels tall cut into 16-pixel tiles the bound wraps to 4294967291,
   * so the row loop as written starts a row at y = 0 and copies 16 pixel rows of a
   * 10-pixel image, where the whole-tile slicing yields no slice at all.
   */
  lemma SliceBoundWraps()
    ensures LoopBoundAsWritten(10, 16) == 4294967291
    ensures 0 < LoopBoundAsWritten(10, 16) && 0 + 16 > 10
    ensures SheetTiles(64, 10, 16, 16) == []
  {
  }

  /** The per-frame delays of each row as written: every frame of every row gets `delays[cols]`. */
  function RowDelaysAsWritten(delays: seq<int>, cols: nat): (r: seq<int>)
    requires cols < |delays|
    ensures |r| == cols && forall i :: 0 <= i < cols ==> r[i] == delays[cols]
  {
    seq(cols, _ => delays[cols])
  }

  /**
   * With delays `[10, 20, 30, 40]` for a 2 by 2 sheet, every frame as written waits 30 ms,
   * where row 0 should wait 10 then 20 ms. For a sheet of one row of two tiles, two
   * delays pass the "enough delays" check, yet the read as written is `delays[2]`.
   */
  lemma DelaysAsWrittenMisread()
    ensures RowDelaysAsWritten([10, 20, 30, 40], 2) == [30, 30]
    ensures RowAnimation(SheetTiles(32, 32, 16, 16), [10, 20, 30, 40], 2, 2, 0).delays == [10, 20]
    ensures |SheetTiles(32, 16, 16, 16)| <= |[10, 20]| && !(2 < |[10, 20]|)
  {

  }
}
