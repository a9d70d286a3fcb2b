/**
 * The legacy game object: an integer position, a playing flag and a table of animations
 * keyed by name, filled one by one or one per row of a spritemap.
 *
 * `Animation::Load` and `SliceSpritemap` are not part of this model: an animation added
 * here is the record of what it was loaded from, and the slices of a spritemap are
 * passed in as a sequence of textures of the generic type `T`.
 */
module GameObjects {
  import opened Common

  /** The delays an animation is loaded with: one per frame, or one for every frame. */
  datatype FrameDelays = PerFrame(delays: seq<int>) | Uniform(delay: int)

  /** An animation as `Load` receives it: its frames and its delays. */
  datatype LoadedAnimation<T> = LoadedAnimation(textures: seq<T>, delays: FrameDelays)

  // ---------------------------------------------------------------------------
  // Row names: `to_string` of a row number
  // ---------------------------------------------------------------------------

  /** The character of decimal digit `d`. */
  function Digit(d: nat): (c: char)
    requires d < 10
    ensures '0' <= c <= '9'
  {
    ('0' as int + d) as char
  }

  /** `to_string` of an unsigned number: its decimal digits, most significant first. */
  function DecimalString(n: nat): (s: string)
    ensures |s| >= 1
    ensures forall i :: 0 <= i < |s| ==> '0' <= s[i] <= '9'
    ensures s[0] == '0' ==> n == 0
  {
    if n < 10 then [Digit(n)] else DecimalString(n / 10) + [Digit(n % 10)]
  }

  /** The number a string of decimal digits denotes. */
  function ParseDecimal(s: string): nat
    requires forall i :: 0 <= i < |s| ==> '0' <= s[i] <= '9'
  {
    if s == [] then 0
    else ParseDecimal(s[..|s| - 1]) * 10 + (s[|s| - 1] as int - '0' as int)
  }

  /** Reading a row's decimal name gives back the row number. */
  lemma {:induction false} ParseDecimalString(n: nat)
    ensures ParseDecimal(DecimalString(n)) == n
  {
    if n >= 10 {
      var s := DecimalString(n);
      assert s[..|s| - 1] == DecimalString(n / 10);
      ParseDecimalString(n / 10);
    }
  }

  /** Different rows get different decimal names. */
  lemma DecimalStringInjective(m: nat, n: nat)
    ensures DecimalString(m) == DecimalString(n) <==> m == n
  {
    if DecimalString(m) == DecimalString(n) {
      ParseDecimalString(m);
      ParseDecimalString(n);
    }
  }

  /** The key row `y` is stored under: the caller's name when there is one, otherwise its number. */
  function RowKey(names: seq<string>, y: nat): string {
    if y < |names| then names[y] else DecimalString(y)
  }

  /** The table after storing `anims[y]` under `RowKey(names, y)` for each row `y` in turn. */
  function WriteRows<A>(table: map<string, A>, names: seq<string>, anims: seq<A>): map<string, A>
    decreases |anims|
  {
    if anims == [] then table
    else
      var y := |anims| - 1;
      WriteRows(table, names, anims[..y])[RowKey(names, y) := anims[y]]
  }

  /**
   * After the row writes, a key is present exactly when it was before or some row used it;
   * a key no row used keeps its old animation, and a row's key holds that row's animation
   * unless a later row reused the key.
   */
  lemma {:induction false} WriteRowsAt<A>(table: map<string, A>, names: seq<string>, anims: seq<A>, key: string)
    ensures key in WriteRows(table, names, anims) <==>
      key in table || exists y :: 0 <= y < |anims| && RowKey(names, y) == key
    ensures (forall y :: 0 <= y < |anims| ==> RowKey(names, y) != key) && key in table ==>
      WriteRows(table, names, anims)[key] == table[key]
    ensures forall y ::
      (0 <= y < |anims| && RowKey(names, y) == key && (forall z :: y < z < |anims| ==> RowKey(names, z) != key)) ==>
        key in WriteRows(table, names, anims) && WriteRows(table, names, anims)[key] == anims[y]
    decreases |anims|
  {
    if anims != [] {
      var last := |anims| - 1;
      var init := anims[..last];
      WriteRowsAt(table, names, init, key);
      assert forall y :: 0 <= y < last ==> init[y] == anims[y];
    }
  }

  /** Distinct names, none of them the number of an unnamed row, give every row its own key. */
  lemma DistinctRowKeys(names: seq<string>, rows: nat)
    requires forall i, j :: 0 <= i < j < |names| ==> names[i] != names[j]
    requires forall i, j :: 0 <= i < |names| <= j < rows ==> names[i] != DecimalString(j)
    ensures forall y, z :: 0 <= y < z < rows ==> RowKey(names, y) != RowKey(names, z)
  {
    forall y, z | 0 <= y < z < rows
      ensures RowKey(names, y) != RowKey(names, z)
    {
      if |names| <= y {
        DecimalStringInjective(y, z);
      }
    }
  }

  /** When the rows' keys are distinct, every row's animation is stored under its own key. */
  lemma EveryRowStored<A>(table: map<string, A>, names: seq<string>, anims: seq<A>)
    requires forall y, z :: 0 <= y < z < |anims| ==> RowKey(names, y) != RowKey(names, z)
    ensures forall y :: 0 <= y < |anims| ==>
      RowKey(names, y) in WriteRows(table, names, anims) && WriteRows(table, names, anims)[RowKey(names, y)] == anims[y]
  {

  }

  // ---------------------------------------------------------------------------
  // The rows of a spritemap
  // ---------------------------------------------------------------------------

  /** An `int` converted to `unsigned int`, as it is when divided into an unsigned size. */
  function AsUnsigned(v: int): (u: nat)
    requires IsInt32(v) && v != 0
    ensures 0 < u < U32
    ensures 0 < v ==> u == v
  {
    v % U32
  }

  /** How many whole tiles of `tile` pixels fit in `size` pixels, in unsigned arithmetic. */
  function TileCount(size: nat, tile: int): nat
    requires IsInt32(tile) && tile != 0
  {
    size / AsUnsigned(tile)
  }

  /** The row animations as written: every row is loaded with all of the spritemap's slices. */
  function RowsAsWritten<T>(textures: seq<T>, rows: nat, delay: int): (r: seq<LoadedAnimation<T>>)
    ensures |r| == rows
    ensures forall y :: 0 <= y < rows ==> r[y] == LoadedAnimation(textures, Uniform(delay))
  {
    seq(rows, _ => LoadedAnimation(textures, Uniform(delay)))
  }

  /** The row animations as intended: row `y` is loaded with its own `cols` slices. */
  function RowsIntended<T>(textures: seq<T>, rows: nat, cols: nat, delay: int): (r: seq<LoadedAnimation<T>>)
    requires rows * cols <= |textures|
    ensures |r| == rows
  {
    if rows == 0 then []
    else
      MulSucc(rows - 1, cols);
      RowsIntended(textures, rows - 1, cols, delay)
        + [LoadedAnimation(textures[(rows - 1) * cols .. (rows - 1) * cols + cols], Uniform(delay))]
  }

  /** Row `y` as intended shows slices `y * cols` to `y * cols + cols - 1`, all with the same delay. */
  lemma {:induction false} RowsIntendedAt<T>(textures: seq<T>, rows: nat, cols: nat, delay: int, y: nat)
    requires rows * cols <= |textures| && y < rows
    ensures y * cols + cols <= |textures|
    ensures RowsIntended(textures, rows, cols, delay)[y] == LoadedAnimation(textures[y * cols .. y * cols + cols], Uniform(delay))
    decreases rows
  {
    MulSucc(y, cols);
    MulMono(y + 1, rows, cols);
    if y < rows - 1 {
      MulMono(rows - 1, rows, cols);
      RowsIntendedAt(textures, rows - 1, cols, delay, y);
    }
  }

  /**
   * On a 2 by 2 spritemap with slices 1, 2, 3, 4 the second row as written is loaded with
   * all four slices, where it should show slices 3 and 4.
   */
  lemma RowsAsWrittenIgnoreRows()
    ensures RowsAsWritten([1, 2, 3, 4], 2, 100)[1] == LoadedAnimation([1, 2, 3, 4], Uniform(100))
    ensures RowsIntended([1, 2, 3, 4], 2, 2, 100)[1] == LoadedAnimation([3, 4], Uniform(100))
  {

  }

  // ---------------------------------------------------------------------------
  // The game object
  // ---------------------------------------------------------------------------

  /** A `GameObject`: its animation table, flags, integer position and current texture. */
  class GameObject<T> {
    var animations: map<string, LoadedAnimation<T>>
    var enabled: bool
    var playingAnimation: bool
    var x: int
    var y: int
    var texture: T

    /** A new object shows `texture` at the origin, enabled, with no animations. */
    constructor(texture: T)
      ensures this.texture == texture && animations == map[]
      ensures enabled && !playingAnimation && x == 0 && y == 0
    {
      this.texture := texture;
      animations := map[];
      enabled := true;
      playingAnimation := false;
      x, y := 0, 0;
    }

    /** `setPosition`: the object is now at (`xPos`, `yPos`). */
    method SetPosition(xPos: int, yPos: int)
      modifies this`x, this`y
      ensures x == xPos && y == yPos
    {
      x := xPos;
      y := yPos;
    }

    /** `move`: the object is displaced by (`dx`, `dy`); the sums must fit an `int`. */
    method Move(dx: int, dy: int)
      requires IsInt32(x + dx) && IsInt32(y + dy)
      modifies this`x, this`y
      ensures x == old(x) + dx && y == old(y) + dy
    {
      x := x + dx;
      y := y + dy;
    }

    /** `stopAnimation`: clears the playing flag and nothing else. */
    method StopAnimation()
      modifies this`playingAnimation
      ensures !playingAnimation
    {
      playingAnimation := false;
    }

    /** `addAnimation` with one delay per frame: stores under `name`, replacing any animation there. */
    method AddAnimation(name: string, textures: seq<T>, delays: seq<int>)
      modifies this`animations
      ensures animations == old(animations)[name := LoadedAnimation(textures, PerFrame(delays))]
    {
      var newAnimation := LoadedAnimation(textures, PerFrame(delays));
      animations := animations[name := newAnimation];
    }

    /** `addAnimation` with one delay for every frame: stores under `name`, replacing any animation there. */
    method AddUniformAnimation(name: string, textures: seq<T>, delay: int)
      modifies this`animations
      ensures animations == old(animations)[name := LoadedAnimation(textures, Uniform(delay))]
    {
      var newAnimation := LoadedAnimation(textures, Uniform(delay));
      animations := animations[name := newAnimation];
    }

    /**
     * `autoAddAnimations` with one delay, as written: one table write per whole row of the
     * spritemap, each storing every slice of the map. The column loop reads `textures[x]`
     * into a buffer that is then discarded, so the first row's slices must exist.
     */
    method AutoAddAnimations(sheetWidth: nat, sheetHeight: nat, textures: seq<T>, width: int, height: int, delays: int, names: seq<string>)
      requires sheetWidth < U32 && sheetHeight < U32
      requires IsInt32(width) && width != 0 && IsInt32(height) && height != 0
      requires TileCount(sheetHeight, height) > 0 ==> TileCount(sheetWidth, width) <= |textures|
      modifies this`animations
      ensures animations == WriteRows(old(animations), names, RowsAsWritten(textures, TileCount(sheetHeight, height), delays))
    {
      var rows := TileCount(sheetHeight, height);
      var cols := TileCount(sheetWidth, width);
      var row := 0;
      while row < rows
        invariant row <= rows
        invariant animations == WriteRows(old(animations), names, RowsAsWritten(textures, row, delays))
      {
        var animationSlice: seq<T> := [];
        var col := 0;
        while col < cols
          invariant col <= cols && animationSlice == textures[..col]
        {
          animationSlice := animationSlice + [textures[col]];
          col := col + 1;
        }
        var newAnimation := LoadedAnimation(textures, Uniform(delays));
        assert RowsAsWritten(textures, row + 1, delays)[..row] == RowsAsWritten(textures, row, delays);
        if row < |names| {
          animations := animations[names[row] := newAnimation];
        } else {
          animations := animations[DecimalString(row) := newAnimation];
        }
        row := row + 1;
      }
    }

    /**
     * `autoAddAnimations` with one delay, as intended: row `y` is loaded with its own
     * slices `textures[cols * y + x]`, which the spritemap's slicing must supply.
     */
    method AutoAddRowAnimations(sheetWidth: nat, sheetHeight: nat, textures: seq<T>, width: int, height: int, delays: int, names: seq<string>)
      requires sheetWidth < U32 && sheetHeight < U32
      requires IsInt32(width) && width != 0 && IsInt32(height) && height != 0
      requires (TileCount(sheetHeight, height)) * (TileCount(sheetWidth, width)) <= |textures|
      modifies this`animations
      ensures animations == WriteRows(old(animations), names,
        RowsIntended(textures, TileCount(sheetHeight, height), TileCount(sheetWidth, width), delays))
    {
      AddRowAnimations(TileCount(sheetHeight, height), TileCount(sheetWidth, width), textures, delays, names);
    }

    /** The row loop of `AutoAddRowAnimations`, over `rows` rows of `cols` slices. */
    method AddRowAnimations(rows: nat, cols: nat, textures: seq<T>, delays: int, names: seq<string>)
      requires rows * cols <= |textures|
      modifies this`animations
      ensures animations == WriteRows(old(animations), names, RowsIntended(textures, rows, cols, delays))
    {
      var row := 0;
      while row < rows
        invariant row <= rows
        invariant animations == WriteRows(old(animations), names, RowsIntended(textures, row, cols, delays))
      {
        MulMono(row + 1, rows, cols);
        MulSucc(row, cols);
        var animationSlice := RowSlice(textures, row * cols, cols);
        var newAnimation := LoadedAnimation(animationSlice, Uniform(delays));
        assert RowsIntended(textures, row + 1, cols, delays)[..row] == RowsIntended(textures, row, cols, delays);
        if row < |names| {
          animations := animations[names[row] := newAnimation];
        } else {
          animations := animations[DecimalString(row) := newAnimation];
        }
        row := row + 1;
      }
    }
  }

  /** The column loop of a row as intended: the `cols` slices from index `start` on. */
  method RowSlice<T>(textures: seq<T>, start: nat, cols: nat) returns (slice: seq<T>)
    requires start + cols <= |textures|
    ensures slice == textures[start .. start + cols]
  {
    slice := [];
    var col := 0;
    while col < cols
      invariant col <= cols && slice == textures[start .. start + col]
    {
      slice := slice + [textures[start + col]];
      col := col + 1;
    }
  }

  /** Two moves add up: moving by (a, b) then (c, d) is moving by (a + c, b + d). */
  method MoveTwice<T>(g: GameObject<T>, a: int, b: int, c: int, d: int)
    requires IsInt32(g.x + a) && IsInt32(g.y + b) && IsInt32(g.x + a + c) && IsInt32(g.y + b + d)
    modifies g`x, g`y
    ensures g.x == old(g.x) + (a + c) && g.y == old(g.y) + (b + d)
    ensures g.animations == old(g.animations) && g.playingAnimation == old(g.playingAnimation)
  {
    g.Move(a, b);
    g.Move(c, d);
  }
}
