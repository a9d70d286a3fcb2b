# Sprite animation, spritesheet slicing, primitive meshes and the legacy game object

This project models four parts of a small 2D/3D game engine and proves properties of them:

- **The sprite animation system** (`sprite.dfy`, module `Sprite`). An `Animator` component holds named animations and the state of the one playing: current animation, frame, repeat flag, playing flag, and the frame timer. The animation system plays, stops, advances and adds animations, and on every update advances each playing animator whose current frame's delay has elapsed.
- **Spritesheet slicing** (`spritesheet.dfy`, module `Spritesheet`). A sheet is cut into whole tiles, left to right and top to bottom, skipping a partial last row or column. The tiles are then grouped into one animation per row.
- **Primitive meshes** (`primitive.dfy`, module `Primitives`). Lines, triangles, rectangles and polygons are built as a flat coordinate list plus an index list. The primitive render system picks line-loop or triangle drawing and skips disabled renderers.
- **The legacy `GameObject`** (`gameobject.dfy`, module `GameObjects`). It has an integer position, a playing flag and an animation table. The table is filled one name at a time, or one row of a spritemap at a time, under the caller's names or the row numbers.

`common.dfy` (module `Common`) holds the errors the engine throws (as a `Result`/`Outcome` value), the 32-bit bounds, and small arithmetic lemmas.

Modelling choices:

- **Abstract values.** Textures are values of a type parameter `T`, and coordinates of a type parameter `C`. A slice of a sheet is its rectangle `Rect(x, y, w, h)`.
- **The frame timer.** The `sf::Clock` frame timer becomes the time of its last restart (`timerStart`). Every operation that reads or restarts it takes the current time `now`, in milliseconds.
- **Undefined behaviour becomes preconditions.** Out-of-range vector reads, division by zero and signed overflow are excluded by `requires`.
- **Thrown strings become error values.** A thrown message is an `Err`/`Fail` value naming the error.
- **Components become direct references.** The entity-component registry is replaced by the components themselves: the animation system's update gets the animators and sprites in entity order, and the primitive render system gets the renderers.

## Model

| member | source | states |
|---|---|---|
| Sprite.CreateAnimation | include/engine/Sprite.h:260-271 | Succeeds exactly when there is one delay per frame. Then it keeps frames and delays and its length is the frame count; otherwise it fails with the not-enough-delays error. |
| Sprite.AdvanceFrameInRange | include/engine/Sprite.h:104-109 | Advancing sets the frame to the next one or back to 0, and for a non-empty animation the frame stays in `[0, length)`. |
| Sprite.AdvanceAtEnd | include/engine/Sprite.h:107-115 | At the last frame, advancing wraps to 0. A non-repeating animation then stops and clears the current name; a repeating one keeps playing the same animation. |
| Sprite.RepeatingCycles | include/engine/Sprite.h:104-115 | After `k` advances a repeating animation is at frame `(frame + k) mod length`, still playing the same animation. |
| Sprite.OneShotStops | include/engine/Sprite.h:104-115 | A non-repeating animation plays its remaining frames and stops on the advance past its last frame, leaving no current animation. |
| Sprite.TickAtMostOneFrame | include/engine/Sprite.h:82-88 | One update moves an animator by at most one frame, and changes it only when it is playing and its current frame's delay has elapsed. |
| Sprite.Sprite.constructor | include/engine/Sprite.h:15-20 | A new sprite component shows the given texture with no z override (0). |
| Sprite.Animator.constructor | include/engine/Sprite.h:31-41 | A new animator has no animations and nothing playing, with frame 0 and no current name. |
| Sprite.Animator.AdvanceFrame | include/engine/Sprite.h:94-116 | The sprite shows the frame at the pre-increment index, the timer restarts, and the playback fields step as `Advance` says (wrap, and stop unless repeating). |
| Sprite.Animator.AddAnimations | include/engine/Sprite.h:119-131 | Fails, leaving the table unchanged, exactly when there are more animations than names. Otherwise the keys grow by the names used, existing entries keep their animation, and a new name gets the animation at its first position. |
| Sprite.Animator.AddAnimation | include/engine/Sprite.h:134-141 | Inserts the animation under a new name. An existing name keeps its old animation. |
| Sprite.Animator.PlayAnimation | include/engine/Sprite.h:144-153 | Current becomes the given name, frame 0, repeat the given flag, playing true, and the timer restarts. The animation table is untouched. |
| Sprite.Animator.StopAnimation | include/engine/Sprite.h:156-168 | With a non-empty name other than the current one, nothing changes. Otherwise current becomes "", frame 0 and playing false. |
| Sprite.Update | include/engine/Sprite.h:73-91 | Each entity's animator ends in `Tick` of its old state, and its animation table is unchanged. Each sprite shows the old current frame when that frame was due, and keeps its texture otherwise. No sprite's z override changes. |
| Spritesheet.SliceSpritesheet | include/engine/Sprite.h:173-201 | The slices are exactly the whole tiles of the sheet in row-major order (`SheetTiles`). Each warning is raised exactly when that side is not a multiple of the tile's. |
| Spritesheet.SliceRow | include/engine/Sprite.h:186-197 | The inner loop yields the `sheetWidth / width` whole tiles of one row, left to right. |
| Spritesheet.TilesAt | include/engine/Sprite.h:184-198 | Tile `(row r, column c)` is slice number `r * cols + c` and covers the pixels from `(c * width, r * height)`. |
| Spritesheet.SheetTilesInside | include/engine/Sprite.h:183-191 | Every slice is one whole tile that lies inside the sheet. |
| Spritesheet.SheetTilesCover | include/engine/Sprite.h:175-198 | When neither warning is raised, every pixel of the sheet lies in some slice, and the slices' total area equals the sheet's area. |
| Spritesheet.RowAnimation | include/engine/Sprite.h:248-252 | A row's animation is well formed, and its length is the number of columns. |
| Spritesheet.RowFrames | include/engine/Sprite.h:240-246 | The column loop collects slices `start .. start + cols - 1`, each with the delay at the same position. |
| Spritesheet.BuildRows | include/engine/Sprite.h:233-255 | The row loop yields one animation per row, and row `y` is `RowAnimation` of row `y`. |
| Spritesheet.AnimationsFromSpritesheet | include/engine/Sprite.h:220-257 | Fails with the not-enough-delays error exactly when there are fewer delays than slices. Otherwise it returns one animation per whole row, each built from that row's slices and delays. |
| Spritesheet.RowAnimationsCoverSheet | include/engine/Sprite.h:232-255 | Playing the row animations one after another shows every slice of the sheet once, in order. |
| Spritesheet.RowAnimationFrame | include/engine/Sprite.h:242-245 | Frame `x` of row `y` is the tile at pixel `(x * width, y * height)`, shown for `delays[y * cols + x]`. |
| Spritesheet.LoopBoundAsWritten | include/engine/Sprite.h:184-186 | The loop bound `size - tile + 1`, as written in unsigned arithmetic, wraps to `2^32 + size + 1 - tile` when the tile is larger than the sheet plus one. |
| Spritesheet.SliceBoundWraps | include/engine/Sprite.h:184-186 | For a 10-pixel-tall sheet and 16-pixel tiles, the bound wraps to 4294967291 while no whole tile fits. |
| Spritesheet.RowDelaysAsWritten | include/engine/Sprite.h:245 | As written, every frame of every row gets `delays[cols]`. |
| Spritesheet.DelaysAsWrittenMisread | include/engine/Sprite.h:225-245 | For a 2 by 2 sheet, the delays as written are `[30, 30]` where `[10, 20]` is meant. For a one-row sheet the delay check passes, yet the read is past the end. |
| Primitives.Make | include/engine/Primitive.h:28-30 | `numVertices` is an unsigned 32-bit count, and it equals the number of indices whenever that number fits. |
| Primitives.PositionsFlatten | include/engine/Primitive.h:49 | Reading a flattened vertex list three coordinates at a time gives back the same vertices, in order. |
| Primitives.FlattenAt | include/engine/Primitive.h:139-143 | Vertex `i`'s x, y and z sit at coordinates `3i`, `3i + 1` and `3i + 2`. |
| Primitives.Line | include/engine/Primitive.h:67-84 | The corrected line's vertices are `p1` then `p2`, with indices `[0, 1]`, and it is well formed. |
| Primitives.LineAsWritten | include/engine/Primitive.h:70-80 | As written, the line's first vertex is `(p1.x, p1.y, p1.x)`, with indices `[0, 1]`. |
| Primitives.LineAsWrittenMisplacesStart | include/engine/Primitive.h:73 | The line as written equals the corrected one exactly when `p1.x == p1.z`. From (1, 2, 3) it starts at (1, 2, 1). |
| Primitives.Triangle | include/engine/Primitive.h:88-106 | The vertices are `v1, v2, v3` (9 coordinates), the indices are `[0, 1, 2]`, and it is well formed. |
| Primitives.Rectangle | include/engine/Primitive.h:110-130 | The vertices are `v1 .. v4` (12 coordinates), the indices are `[0, 1, 2, 2, 3, 0]`, and it is well formed. |
| Primitives.Polygon | include/engine/Primitive.h:133-149 | The coordinates are the vertices' x, y, z in input order (3n of them, reading back as the input), the indices are exactly `0 .. n-1`, and it is well formed. |
| Primitives.PolygonWellFormed | include/engine/Primitive.h:139-145 | Every polygon index names one of its vertices, and its draw count equals its index count. |
| Primitives.RangeAt | include/engine/Primitive.h:144 | Index `i` of the polygon's index list is `i`. |
| Primitives.ModeFor | include/engine/Primitive.h:262-266 | A primitive is drawn as triangles exactly when it is not a wireframe and has at least three indices; otherwise it is drawn as a line loop. |
| Primitives.ConstructorModes | include/engine/Primitive.h:263-266 | A line is always drawn as a line loop. A triangle or rectangle is drawn as triangles unless it is a wireframe. A two-vertex polygon is drawn as a line loop. |
| Primitives.Render | include/engine/Primitive.h:205-267 | The render loop issues exactly the draw calls `DrawCalls` prescribes: one per enabled renderer, in entity order, none for a disabled one. |
| Primitives.DrawCallsExactlyEnabled | include/engine/Primitive.h:214-266 | Every draw call belongs to an enabled renderer and carries its mode, count and camera choice. Every enabled renderer is drawn, in increasing entity order. |
| GameObjects.DecimalString | include/engine/GameObject.h:146 | A row's number name is a non-empty string of decimal digits, with no leading zero. |
| GameObjects.ParseDecimalString | include/engine/GameObject.h:146 | Reading a row's number name back gives the row number. |
| GameObjects.DecimalStringInjective | include/engine/GameObject.h:146 | Two rows get the same number name only if they are the same row. |
| GameObjects.WriteRowsAt | include/engine/GameObject.h:142-146 | After the row writes, a key is present exactly when it was before or some row used it. An unused key keeps its old animation. A row's key holds that row's animation unless a later row reused it. |
| GameObjects.DistinctRowKeys | include/engine/GameObject.h:142-146 | Distinct names, none equal to the number of an unnamed row, give every row its own key. |
| GameObjects.EveryRowStored | include/engine/GameObject.h:126-147 | With distinct row keys, every row's animation is stored under its own key. |
| GameObjects.AsUnsigned | include/engine/GameObject.h:126 | A non-zero `int` divided into an unsigned size acts as a positive unsigned value below 2^32, equal to itself when positive. |
| GameObjects.RowsAsWritten | include/engine/GameObject.h:129-139 | As written, every row is loaded with all of the spritemap's slices and the one delay. |
| GameObjects.RowsIntendedAt | include/engine/GameObject.h:129-139 | As intended, row `y` shows slices `y * cols .. y * cols + cols - 1`, all with the one delay. |
| GameObjects.RowsAsWrittenIgnoreRows | include/engine/GameObject.h:131-139 | For a 2 by 2 spritemap with slices 1..4, row 1 as written is loaded with all four slices, where slices 3 and 4 are meant. |
| GameObjects.GameObject.constructor | include/engine/GameObject.h:17-29 | A new object shows its texture at (0, 0), enabled, not playing, with no animations. |
| GameObjects.GameObject.SetPosition | include/engine/GameObject.h:31-36 | The position becomes `(xPos, yPos)`, and nothing else changes. |
| GameObjects.GameObject.Move | include/engine/GameObject.h:37-42 | The position moves by `(dx, dy)`, and nothing else changes. |
| GameObjects.MoveTwice | include/engine/GameObject.h:37-42 | Two moves add up. Only the position may change, so the animation table and playing flag are untouched. |
| GameObjects.GameObject.StopAnimation | include/engine/GameObject.h:94-97 | The playing flag is cleared, and nothing else changes. |
| GameObjects.GameObject.AddAnimation | include/engine/GameObject.h:100-106 | Stores the animation loaded with per-frame delays under the name, replacing any old one. Other names are untouched. |
| GameObjects.GameObject.AddUniformAnimation | include/engine/GameObject.h:108-114 | Stores the animation loaded with one delay under the name, replacing any old one. Other names are untouched. |
| GameObjects.GameObject.AutoAddAnimations | include/engine/GameObject.h:119-148 | As written: `rows` table writes in row order, row `y` under `names[y]` or its number, each storing all slices with the one delay. |
| GameObjects.GameObject.AutoAddRowAnimations | include/engine/GameObject.h:119-148 | As intended: the same writes, with row `y` storing only its own slices. |
| GameObjects.GameObject.AddRowAnimations | include/engine/GameObject.h:126-147 | The intended row loop performs the row writes of `RowsIntended`, in order. |
| GameObjects.RowSlice | include/engine/GameObject.h:131-135 | The intended column loop collects the `cols` slices from index `start` on. |

## Left out

- The entity-component registry (`ECSCore.h`) is not part of this model. Component lookup is replaced by the components themselves, passed in entity order.
- `RenderSystem::Update` (include/engine/Sprite.h:47-64) is not modelled: it places and draws sprites with float arithmetic.
- `CustomSlice` (include/engine/Sprite.h:205-215) is not modelled: it is only a pixel copy of a rectangle.
- Image pixel copies and texture loading are not modelled: a slice is its rectangle. `Animation::Load` and `SliceSpritemap` are not part of this model; an added animation records what it was loaded from.
- Wall-clock time is not modelled: the frame timer is its restart time, and the current time is a parameter. Truncation of elapsed time to milliseconds is left to the caller.
- Console output is not modelled. The two size warnings of `SliceSpritesheet` become result flags, and the row count that `AnimationsFromSpritesheet` prints is left out.
- Spritesheet.SliceSpritesheet: tile sizes are positive naturals. Negative `int` sizes, which the source converts to unsigned, are not modelled.
- Spritesheet.AnimationsFromSpritesheet: rows read the corrected per-frame delays (see Findings), not `delays[cols]`.
- OpenGL state is not modelled: buffers, vertex array objects, the destructor, the shader, the model matrix and colour scaling. A draw call records only its mode, count and camera choice.
- The default arguments of `Line`, `Triangle` and `Rectangle` are not modelled: callers pass every vertex.
- Primitives.Polygon: requires fewer than 2^31 vertices, because the source's `int` loop counter would overflow.
- Sprite.Update: requires every playing animator's current animation to exist and its frame to be in range. The source's map lookup would otherwise create an empty animation and read past its end.
- GameObjects.GameObject.Move: requires the new coordinates to fit an `int`, because signed overflow is undefined.
- `GameObject::draw` is not modelled: it only builds an `sf::Sprite`. The sprite's own position updates in `setPosition` and `move` are left out too, and so are the float scale fields.
- `GameObject::playAnimation` is not modelled: it busy-waits on a wall clock until the animation ends.
- The vector-delay `autoAddAnimations` overload (include/engine/GameObject.h:153-182) is not modelled: its outer loop never ends when a row has more than one column, because the inner loop stops at the slice count divided by the column count, below the slice count.

## Findings

| source | as written | input that shows it | evidently intended | confidence | as-written member | corrected member |
|---|---|---|---|---|---|---|
| include/engine/Primitive.h:73 | The first vertex's third coordinate is `p1.x`. | A line from (1, 2, 3) to (4, 5, 6) starts at (1, 2, 1). | `p1.z` | not executed | Primitives.LineAsWritten | Primitives.Line |
| include/engine/Sprite.h:184-186 | The loop bound `size - tile + 1` is computed in unsigned arithmetic. When the sheet is smaller than a tile it wraps, and a row or column starts at 0. | A 64 by 10 sheet with 16 by 16 tiles gives a row bound of 4294967291, though no whole tile fits. | No slice from a side shorter than a tile. | not executed | Spritesheet.LoopBoundAsWritten | Spritesheet.SliceSpritesheet |
| include/engine/Sprite.h:245 | Every frame's delay is `delays[cols]`. | Delays `[10, 20, 30, 40]` on a 2 by 2 sheet give `[30, 30]` for row 0. A one-row sheet of two tiles with two delays reads `delays[2]`. | `delays[cols * y + x]` | not executed | Spritesheet.RowDelaysAsWritten | Spritesheet.RowFrames |
| include/engine/GameObject.h:131-139 | Each row is loaded with all slices. The row buffer is discarded, and it is filled from `textures[x]`. | A 2 by 2 spritemap with slices 1, 2, 3, 4: row 1 gets `[1, 2, 3, 4]`. | Row `y` loaded with `textures[cols * y + x]` | not executed | GameObjects.GameObject.AutoAddAnimations | GameObjects.GameObject.AutoAddRowAnimations |
