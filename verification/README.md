# Matrix perspective portal: effect logic in Dafny

This project models the non-drawing logic of the two effect modules of a
head-tracked pseudo-3D "portal" display:

- **Falling-glyph rain** (`matrix_style.py`). A `MatrixColumn` is a column of
  glyph slots at a fixed `(x, z)`. The column moves down the screen by a
  per-column speed every tick (its head's y grows), and the trail follows
  rigidly at a spacing of 0.5. The head slot is at brightness 255 and the
  tail fades linearly toward 50. `MatrixRainSystem` places the columns and
  recycles a column in place. A column whose head has
  passed `max_y + 2` is reset to `min_y - 2`.
- **Data-plane tunnel** (`data_planes.py`). A `DataPlane` is a wireframe
  rectangle at one depth carrying 5 to 10 error messages. Each message has a
  re-label countdown and a small glitch offset that is re-drawn on a fixed
  cadence. `DataPlaneSystem` lays the scene out deterministically:
  - planes are evenly spaced in depth and kept sorted far to near;
  - 28 longitudinal lines run the full depth along the tunnel walls;
  - everything is rebuilt only when the x or y extent of the bounds changes
    by more than 20%, or when the old x or y extent is not positive.

The model is functional. Every entity is an immutable datatype, and every
operation is a pure function. Each random draw of the source
(`random.uniform`, `random.randint`, `random.choice`, `random.random() < p`)
is a parameter of the operation, constrained to the range the source draws it
from. `random.uniform(a, b)` is the predicate `Numeric.Uniform`, because
Python accepts `a > b`. Python's `int()` on a float is `Numeric.Trunc`, which
truncates toward zero. Floats are exact reals.

Modules:

- `Numeric`: truncation, clamping and the uniform-draw predicate.
- `Geometry`: points and bounds.
- `MatrixRain`: `matrix_style.py`.
- `DataPlane`: the `DataPlane` class.
- `PlaneOrder`: the built-ins `list.sort(key=z, reverse=True)` and
  `max(key=z)`, which the source uses on planes.
- `PlaneSystem`: the `DataPlaneSystem` class.

`_render_messages` normalises depth by the fixed range 0 to 40, whatever the
scene bounds are.

## Model

| member | source | states |
|---|---|---|
| Numeric.Trunc | matrix_style.py:38 | Python `int()` truncates toward zero: the result is within 1 of the argument on the zero side and keeps its sign |
| Numeric.Clamp01 | data_planes.py:163 | the normalised depth is forced into [0, 1], and values already inside are untouched |
| MatrixRain.Brightness | matrix_style.py:31-38 | the head is 255; a trail index i with 1 <= i <= L (L the trail length) gets exactly 50 + (150*(L-i)) div L, an integer form of the linear fade from 200 to 50; indices below L lie in [50, 200) and index L is exactly 50 |
| MatrixRain.IntegerFadeOnTrail | matrix_style.py:36-38 | on the trail, `int(50 + (1 - i/L) * 150)` equals the integer 50 + (150*(L-i)) div L |
| MatrixRain.BrightnessExamples | matrix_style.py:31-38 | for a trail of 8 the brightnesses at indices 0, 1, 3 and 8 are 255, 181, 143 and 50 |
| MatrixRain.BrightnessNonIncreasing | matrix_style.py:31-38 | brightness never increases along the trail, so the head is brightest and the tail dims toward 50 |
| MatrixRain.NewColumn | matrix_style.py:8-29 | construction gives exactly `trail_length` slots, slot i at `head_y - i*0.5` with brightness of index i, the drawn glyphs, head in [-10, 0] and speed in [0.08, 0.18] |
| MatrixRain.Update | matrix_style.py:40-50 | the column moves down the screen: the head's y grows by exactly `speed`, and every slot is re-aligned behind it; x, z, trail length, speed, slot count and each brightness are unchanged; a glyph either stays or becomes a palette glyph |
| MatrixRain.UpdateIsRigid | matrix_style.py:40-46 | on an aligned column every slot moves by exactly `speed`, and on a well-formed column the head strictly advances |
| MatrixRain.UpdatePreservesWellFormed | matrix_style.py:40-50 | slot count, speed range, alignment, brightness per index and palette glyphs survive an update |
| MatrixRain.Reset | matrix_style.py:52-61 | reset puts the head at `y_min - 2` with a new speed in range, realigns every slot, gives slot i the brightness of index i, and keeps the slot count, x, z and trail length |
| MatrixRain.ResetIdempotent | matrix_style.py:52-61 | resetting again to the same `y_min` leaves head, slot positions and brightnesses where the first reset put them |
| MatrixRain.GetCharacters | matrix_style.py:63-68 | one tuple per slot in slot order, each carrying the column's x and z and the slot's y, glyph and brightness |
| MatrixRain.GetCharactersOfWellFormed | matrix_style.py:63-68 | for a well-formed column the tuples step down from the head by 0.5, start at brightness 255 and never get brighter along the list |
| MatrixRain.PlaceColumn | matrix_style.py:81-85 | a placed column is well-formed, has trail length in [6, 12], and lies inside the x and z bounds when they are ordered |
| MatrixRain.NewRain | matrix_style.py:74-85 | construction creates `num_columns` well-formed columns with trail length in [6, 12]; x is in [min_x, max_x] and z in [min_z, max_z] when those bounds are ordered |
| MatrixRain.Tick | matrix_style.py:100-103 | a column is reset exactly when its moved head exceeds `max_y + 2`, otherwise it is the moved column; the head ends at or below `max_y + 2` when `min_y <= max_y`; well-formedness is kept |
| MatrixRain.RainUpdate | matrix_style.py:95-103 | every column is updated, a column past `max_y + 2` is reset to head `min_y - 2` and any other column is exactly the moved one; afterwards all heads are at or below `max_y + 2` when `min_y <= max_y`; well-formed columns stay well-formed |
| DataPlane.Corners | data_planes.py:36-41 | four corners at depth z in the order bottom-left, bottom-right, top-right, top-left, each at half the width and height from the axis |
| DataPlane.NewMessage | data_planes.py:46-68 | a message sits at the plane's depth, inside the plane inset by 0.5 along each axis whose extent is at least 1 (a narrower plane makes the `uniform` bounds cross, and the message may lie outside the inset); it has a palette colour, brightness in [0.5, 1], timer in [60, 180] and zero glitch timer and offset |
| DataPlane.NewPlane | data_planes.py:31-76 | construction gives the four corners in order, 5 to 10 messages with the properties above, and pulse time 0 |
| DataPlane.TickMessage | data_planes.py:84-94 | a timer that drops to 0 or below gets a new text and a new timer in the same tick, otherwise it decreases by 1; the glitch clock resets to 0 after passing 0.1, with a new offset or 0; position, colour and brightness are unchanged; the message invariant is kept |
| DataPlane.Update | data_planes.py:78-94 | pulse time advances by the pulse speed and the frame-colour time by 0.05; message i becomes message i after `TickMessage` with its own draws, so the countdown and the glitch clock both run; message count, position, colour and brightness are unchanged; a well-formed plane stays well-formed, so timers stay in [1, 180], glitch timers in [0, 0.1] and offsets in [-3, 3] |
| DataPlane.ChangeTimerStaysPositive | data_planes.py:84-88 | after a tick every timer is in [1, 180]; a timer at 1 is re-drawn from [60, 180] with a new text, and any other timer counts down by one |
| DataPlane.FrameColor | data_planes.py:105-115 | for a factor f in [0, 1], red is `int(255*f)` and green is `int(255*(1-f))`: each is within one unit below the interpolated value, so each channel is in [0, 255]; factor 0 gives cyan and factor 1 gives magenta; blue stays 255 |
| DataPlane.FrameColorMonotone | data_planes.py:105-115 | as the factor grows, red never falls and green never rises |
| DataPlane.FrameColorOnCyanMagentaEdge | data_planes.py:108-113 | for a factor in [0, 1], red plus green is 254 or 255, so the colour stays on the cyan-magenta edge up to truncation |
| DataPlane.RawFontSize | data_planes.py:161-164 | the unrounded size `20 * scale` is 20 at depth 0 or nearer, 20/3 at depth 40 or farther, and exactly 400 / (20 + z) in between |
| DataPlane.FontSize | data_planes.py:161-166 | the message font size is `int(400 / (20 + z))`, raised to 8, for a depth in [0, 40]; it is 20 at depth 0 or nearer and 8 at depth 40 or farther, so always in [8, 20] |
| DataPlane.FontSizeExamples | data_planes.py:161-166 | depths 0, 10, 20, 30 and 35 give font sizes 20, 13, 10, 8 and 8 |
| DataPlane.FontSizeNonIncreasing | data_planes.py:161-166 | a farther plane never gets a larger message font |
| PlaneOrder.Insert | data_planes.py:303 | inserting a plane adds exactly that plane to the multiset |
| PlaneOrder.InsertKeepsOrder | data_planes.py:303 | inserting into a far-to-near list keeps it far to near |
| PlaneOrder.InsertNearest | data_planes.py:303 | a plane no farther than all others goes last, after the planes of equal depth, which is what stability means |
| PlaneOrder.SortFarToNear | data_planes.py:302-303 | the sort is a permutation of its input and its result is ordered far to near |
| PlaneOrder.SortOfNearToFarIsReverse | data_planes.py:290-303 | planes created at strictly increasing depth come out of the sort exactly reversed |
| PlaneOrder.SortOfFarToNearIsIdentity | data_planes.py:302-303 | a list already far to near is left unchanged by the stable sort |
| PlaneOrder.FarthestIndex | data_planes.py:280 | `max(key=z)` picks a plane of greatest depth, and no earlier plane is as deep |
| PlaneOrder.FarthestOfSortedIsFirst | data_planes.py:277-282 | in a far-to-near list the farthest plane is the first |
| PlaneSystem.PlaneDepthInside | data_planes.py:290-293 | for a non-empty depth range every plane depth `min_z + (i+1)*step` lies strictly inside (min_z, max_z) |
| PlaneSystem.PlaneDepthIncreasing | data_planes.py:290-293 | depths grow strictly with the creation index when the depth range is non-empty |
| PlaneSystem.CreatedPlanes | data_planes.py:290-300 | the loop creates `num_planes` well-formed planes at depths `min_z + (i+1)*step`, each sized 0.95 of the x and y extents |
| PlaneSystem.InitPlanes | data_planes.py:284-303 | `_init_planes` yields exactly `num_planes` well-formed planes sized 0.95 of the extents, a permutation of the created ones, ordered far to near |
| PlaneSystem.CreatedNearToFar | data_planes.py:290-293 | in creation order the planes go strictly from near to far when the depth range is non-empty |
| PlaneSystem.InitPlanesDepths | data_planes.py:284-303 | with a non-empty depth range the planes are strictly descending in z; plane k is at `min_z + (n-k)*step`, strictly inside the range |
| PlaneSystem.InitPlanesDegenerateDepth | data_planes.py:290-303 | with an empty or reversed depth range the sort keeps the planes in creation order |
| PlaneSystem.GridCoordinate | data_planes.py:246-247 | division 0 is at `-extent/2`, the last division at `extent/2`, and every division lies between them when the extent is not negative |
| PlaneSystem.GridCoordinateSpacing | data_planes.py:246-247 | consecutive divisions are exactly `extent / divisions` apart, so the divisions split a side into equal parts |
| PlaneSystem.CornerLines | data_planes.py:228-240 | four corner lines from `min_z` to `max_z`, each with equal x and y at both ends, on the border of the 0.95-scaled rectangle |
| PlaneSystem.RowLines | data_planes.py:245-259 | fourteen grid lines, each a wall line: line k is on the left wall for even k and the right wall for odd k, at the height of inner horizontal division k div 2 + 1 of 8 |
| PlaneSystem.ColumnLines | data_planes.py:261-275 | ten grid lines, each a wall line: line k is on the bottom wall (y = -h/2) for even k and the top wall (y = +h/2) for odd k, at the width of inner vertical division k div 2 + 1 of 6; the source's comments label these two walls the other way round, while its corner labels agree with this naming |
| PlaneSystem.InitLines | data_planes.py:219-275 | 4 + 2*7 + 2*5 = 28 lines: the four corner lines in corner order, then the fourteen row lines in order, then the ten column lines in order, so the grid keeps its 8- and 6-part spacing; each runs from `min_z` to `max_z` with equal x and y at both ends, on the border of the 0.95-scaled rectangle, and inside it when the extents are not negative |
| PlaneSystem.CornerLinesThroughSizedPlanes | data_planes.py:225-240 | the four corner lines pass through the corresponding corners of any plane sized to the bounds |
| PlaneSystem.CornerLinesThroughPlaneCorners | data_planes.py:225-240 | the four corner lines pass through the corresponding corners of every plane, so the tunnel edges join the plane frames |
| PlaneSystem.NewScene | data_planes.py:212-217 | construction stores the bounds; the planes are exactly those of `_init_planes` (so `num_planes` far-to-near planes sized to the bounds, evenly spaced in depth) and the lines exactly the 28 of `_init_longitudinal_lines` |
| PlaneSystem.FarthestPlaneDimensions | data_planes.py:277-282 | returns nothing exactly when there are no planes; otherwise it returns the width and height of a plane of greatest depth |
| PlaneSystem.FarthestIsFirstPlane | data_planes.py:277-303 | with the planes kept far to near, the farthest-plane dimensions are those of the first plane |
| PlaneSystem.NeedsRelayoutIff | data_planes.py:310-318 | for positive old extents, a rebuild happens exactly when the x or y extent moved by more than a fifth of its old size |
| PlaneSystem.UpdateBounds | data_planes.py:305-320 | the new bounds are always stored; without a rebuild the planes and lines are unchanged; with a rebuild the planes are exactly those `_init_planes` builds for the new bounds (`num_planes` far-to-near planes sized to them) and the lines are rebuilt for them |
| PlaneSystem.RelayoutSpacesPlanes | data_planes.py:290-293 | after a rebuild with a non-empty depth range the planes are strictly far to near, plane k at `min_z + (n - k) * step` of the new range |
| PlaneSystem.SameExtentsKeepLayout | data_planes.py:310-318 | when the old x and y extents are positive, bounds that change only in depth, or move without resizing, never trigger a rebuild |
| PlaneSystem.DegenerateExtentRelayouts | data_planes.py:315-316 | an old x or y extent that is not positive counts as a full change and always triggers a rebuild |
| PlaneSystem.ResizeExamples | data_planes.py:315-318 | an x extent going from 20 to 23 keeps the layout, and from 20 to 25 rebuilds it |
| PlaneSystem.Update | data_planes.py:322-325 | plane i of the result is plane i after `DataPlane.update` with its own draws; bounds, lines, depths, sizes and corners are unchanged, so the far-to-near order and the plane invariants survive |

## Left out

- main.py: the webcam, OpenCV and MediaPipe capture loop is I/O and holds no effect logic.
- Drawing: all pygame drawing, font loading with its fallbacks, and blitting are foreign library calls. This covers `MatrixRainSystem.render`, `DataPlane.render`, the drawing part of `_render_messages`, `DataPlaneSystem.render` and `_render_longitudinal_lines`.
- Transcendental curves: `_calculate_depth_alpha` uses `math.exp`. The pulse factor and the frame-colour factor use `math.sin`, and the segment alpha uses `math.exp`. `DataPlane.FrameColor` takes the interpolation factor as an input instead.
- Wall-clock colour: the colour of `_render_longitudinal_lines` is driven by `time.time()`.
- `project_func` is passed in by callers and defined in no file of this model.
- Probabilities and distributions: the 3% glyph flip and the 20% glitch jump are choices passed in as parameters (`GlyphDraw`, `MessageTick.jump`). How often these events happen is not modelled.
- Floating point: all arithmetic is on exact reals. Python floats may differ at the boundaries of `int()`. For example, `DataPlane.FrameColor` proves blue is exactly 255, which a float computation could truncate to 254.
- `DataPlane.NewPlane`: the draws for `frame_color_time` and `pulse_offset` are bounded by the double value of `math.pi * 2` (`TwoPi`). `DataPlane.Update` advances `frame_color_time`, but both values are read only through `math.sin` in the drawing code, which is not modelled.
- Default arguments are parameters: `num_columns=40`, `num_planes=25` and the default bounds tuples.
- `MatrixRain.NewRain`: the column count is a natural number. Python's `range` treats a negative `num_columns` like 0, which the model covers by passing 0.
- `PlaneSystem.InitPlanes`: the plane count is a natural number. In Python, `num_planes = -1` raises ZeroDivisionError at data_planes.py:290, and any other negative count gives no planes. Neither case is modelled.
- `MatrixRain.NewColumn`: the trail length is a natural number. Python accepts a negative `trail_length` and builds an empty trail; such a column is not modelled.
- Glyph rendering: `char_spacing` is the constant 0.5 because nothing changes it, and the palette is the literal `CHARS` string.
