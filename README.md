# Sprite-sheet animation of the OpenGL engine, in Dafny

This project models `MyEngine::Animation` (src/Engine/Animation.cpp), the
engine's animated sprite: a unit quad that shows one frame of a sprite sheet
at a time.

- `setSpriteSheet` lays the sheet out as columns x rows frames, each
  1 / columns wide and 1 / rows high, and sets the playback duration.
- `update` advances a playback clock by the frame time and picks the frame
  the clock falls on: `fmod(elapsed, duration) / duration * frames`,
  truncated to an integer and multiplied by the X-mirror sign.
- `setFrame` jumps to a frame, but only to one strictly between 0 and the
  frame count (frame 0 is refused, as in the code); otherwise it prints a
  warning and keeps the frame.
- `setMirrorX` / `setMirrorY` store a sign: -1 when mirrored, 1 otherwise.
- `draw` builds the interleaved vertex array (position, colour, texture
  coordinate per corner) and the six indices of the quad's two triangles.

Files:

- `timing.dfy`, module `AnimationTiming`: C's `fmod` and C++'s
  `static_cast<int>`, both truncating toward zero for every sign, and the
  frame index `update` computes, with its range and its looping behaviour.
- `quad.dfy`, module `AnimationQuad`: the quad's corners, its texture
  coordinates, index list and vertex array.
- `animation.dfy`, module `MyEngine`: the class `Animation`, whose methods
  update its fields in place, plus lemmas that combine the two modules.

Time is an exact `real`; `int` fields, including the two mirror signs, are
the subset type `Int32`, the texture handle `UInt32`. The class invariant
`Valid()` says both mirror signs are 1 or -1, the quad is the unit quad, and
the frame layout is either unset or its sizes multiply out to area 1
(frames x width x height == 1).

Two consequences of the code as written are proved rather than corrected:

- With X-mirroring on, `update` stores -k for frame index k and `draw`
  multiplies by the mirror sign again, so the signs cancel. The quad then
  shows the strip between (k - 1) / columns and k / columns, flipped: the
  strip of frame k - 1 (`MirroredFrameStrip`).
- `draw` never uses `frameHeight`. The v coordinates are always mirrorY
  and 0, so every frame spans the sheet's full height (`TexCoordEdges`).
  Frames past the first row get u values beyond 1.

## Model

| member | source | states |
|---|---|---|
| AnimationTiming.Trunc | src/Engine/Animation.cpp:44 | `static_cast<int>` truncates toward zero: for x >= 0 the result is the largest integer <= x, for x <= 0 the smallest integer >= x |
| AnimationTiming.FMod | src/Engine/Animation.cpp:43 | C fmod, t - d * trunc(t / d) for every sign of t and d: divided by d it is exactly the part of t / d that truncation drops, and for a positive duration it has the sign of t and lies strictly within (-d, d) |
| AnimationTiming.RemainderRange | src/Engine/Animation.cpp:43 | a value whose quotient by d > 0 is the dropped fraction of t / d has the sign of t and lies strictly within (-d, d) |
| AnimationTiming.FrameIndex | src/Engine/Animation.cpp:44 | the truncated index fmod(t, d) / d * n is 0 when there are no frames, has magnitude below the frame count otherwise, and lies in [0, n) when time and duration have the same sign |
| AnimationTiming.FrameFor | src/Engine/Animation.cpp:44 | the stored frame is 0 with no frames, has magnitude below the frame count, lies in [0, n) unmirrored and in (-n, 0] mirrored |
| AnimationTiming.MirrorNegatesFrame | src/Engine/Animation.cpp:44 | X-mirroring negates the stored frame; unmirrored it is the frame index itself |
| AnimationTiming.TruncShift | src/Engine/Animation.cpp:44 | truncation of a non-negative value commutes with adding a whole number; the dropped fraction stays the same |
| AnimationTiming.FModLoops | src/Engine/Animation.cpp:43 | fmod(t + k * d, d) == fmod(t, d) for every whole number k of durations |
| AnimationTiming.FrameLoops | src/Engine/Animation.cpp:43-44 | the stored frame repeats after every whole number of durations |
| AnimationTiming.FullLoopRestarts | src/Engine/Animation.cpp:43-44 | after exactly one duration of playback the animation is back at frame 0 |
| AnimationQuad.QuadCorners | src/Engine/Animation.cpp:32-35 | the corners (1,1,0), (1,0,0), (0,0,0), (0,1,0): the four distinct corners of the unit square at z == 0, each joined to the next by an edge |
| AnimationQuad.TexCoords | src/Engine/Animation.cpp:76-79 | each corner's u is the current frame shifted by the corner's x, times the frame width and X-mirror sign; its v is the corner's y times the Y-mirror sign |
| AnimationQuad.TexCoordEdges | src/Engine/Animation.cpp:76-79 | right corners share a u one signed frame width beyond the left corners; top corners get v == mirrorY, bottom ones v == 0 |
| AnimationQuad.MirrorXFlipsU | src/Engine/Animation.cpp:76-79 | flipping the X-mirror sign negates every u and keeps every v |
| AnimationQuad.MirrorYFlipsV | src/Engine/Animation.cpp:76-79 | flipping the Y-mirror sign negates every v and keeps every u |
| AnimationQuad.FrameStrip | src/Engine/Animation.cpp:76-79 | unmirrored, frame k shows the strip from k * w (left corners) to (k + 1) * w (right corners), full height |
| AnimationQuad.MirroredFrameStrip | src/Engine/Animation.cpp:76-79 | the X-mirrored stored frame -k, drawn mirrored, shows the strip from k * w (left) to (k - 1) * w (right) |
| AnimationQuad.StripInsideSheet | src/Engine/Animation.cpp:76-79 | unmirrored, a frame whose strip ends within the sheet has every texture coordinate in [0, 1] |
| AnimationQuad.QuadIndices | src/Engine/Animation.cpp:81-84 | six indices, all below 4, covering all four corners, forming two triangles of distinct corners that share the diagonal 1-3 |
| AnimationQuad.VertexRecordKeepsAllButAlpha | src/Engine/Animation.cpp:76 | one vertex line of the array keeps the position, colour r g b and texture u v and drops only alpha: two records are equal exactly when all of those agree |
| AnimationQuad.VertexData | src/Engine/Animation.cpp:75-80 | the vertex array holds one eight-float record (helper `VertexRecord`) per corner, in corner order: position, colour r g b, texture u v |
| AnimationQuad.VertexDataFields | src/Engine/Animation.cpp:75-80 | field j of corner i sits at index 8 * i + j of the vertex array |
| MyEngine.MirrorSign | src/Engine/Animation.cpp:66-72 | the stored mirror sign is 1 or -1, and -1 exactly when mirrored |
| MyEngine.AcceptsFrame | src/Engine/Animation.cpp:58 | the guard of setFrame, 0 < frame < frame count: an accepted frame is a valid index other than 0, and with fewer than two frames nothing is accepted |
| MyEngine.FrameSizesMultiplyToOne | src/Engine/Animation.cpp:51-53 | for every non-zero column and row count, columns * rows times the frame width 1 / columns times the frame height 1 / rows is exactly 1 |
| MyEngine.PlayedStripInsideSheet | src/Engine/Animation.cpp:43-79 | playing a single-row sheet forward from time 0, unmirrored, every texture coordinate drawn lies in [0, 1] |
| MyEngine.QuarterSecondExample | src/Engine/Animation.cpp:43-44 | with four frames over one second, 0.26 s of playback shows frame 1 |
| MyEngine.Animation.constructor | src/Engine/Animation.cpp:8-24 | a new animation has no sheet, no frames, zero sizes, a zero clock and duration, both mirror signs 1, the unit quad, and the given position, scale and colour |
| MyEngine.Animation.SetVertex | src/Engine/Animation.cpp:30-37 | appends the four quad corners to whatever corners the list already holds, in order |
| MyEngine.Animation.Update | src/Engine/Animation.cpp:39-45 | the clock grows by the frame time and the stored frame is `FrameFor` of the new clock; the invariant is kept |
| MyEngine.Animation.SetSpriteSheet | src/Engine/Animation.cpp:47-55 | sets the texture, frame width 1 / columns, frame height 1 / rows, frame count columns * rows and the duration; keeps frame, clock and mirrors; the frame sizes multiply out to area 1 |
| MyEngine.Animation.SetFrame | src/Engine/Animation.cpp:57-64 | the frame changes to the requested one exactly when 0 < frame < frame count; otherwise it is unchanged and the warning is reported |
| MyEngine.Animation.SetMirrorX | src/Engine/Animation.cpp:66-68 | stores -1 when mirrored and 1 otherwise; the frame is unchanged |
| MyEngine.Animation.SetMirrorY | src/Engine/Animation.cpp:70-72 | stores -1 when mirrored and 1 otherwise; the frame is unchanged |
| MyEngine.Animation.Draw | src/Engine/Animation.cpp:74-84 | returns the 32-float vertex array of the quad with the colour and the current frame's texture coordinates, the indices of the two triangles and the sheet's texture |

## Left out

- The OpenGL state changes, the model matrix and the call into the renderer (src/Engine/Animation.cpp:85-109): `Draw` returns the vertex array, indices and texture it would hand over.
- The destructor, which unloads the sheet's image through the asset loader: image loading is not part of this model.
- `alignVertex` and `Color::normalize`, called from `setVertex`: the `Shape` base class is not part of this model, so the corners are kept as pushed and the colour as given.
- The rest of the `Shape` transform (rotation, direction vectors): only position, scale and colour are kept.
- The global frame clock `ETime::getDeltaTime`: its value is the parameter of `Update`.
- The text printed by `setFrame`: `SetFrame` returns whether it would be printed.
- Floating-point rounding, `float` versus `double` precision, infinities and NaN: all arithmetic is exact on reals.
- MyEngine.Animation.SetSpriteSheet: requires non-zero column and row counts, because 1.0f / 0 is an IEEE infinity that reals cannot hold; it also requires the frame count to fit in an `int`, since signed overflow is undefined.
- MyEngine.Animation.Update: requires a non-zero duration, because fmod by zero gives NaN and converting NaN to `int` is undefined.
- AnimationTiming.FModLoops: proved for a non-negative clock, a positive duration and a whole non-negative number of loops only.
- AnimationTiming.FrameLoops: proved for a non-negative clock, a positive duration and a whole non-negative number of loops only.
- MyEngine.PlayedStripInsideSheet: stated for single-row sheets only; for more rows the u values pass 1 and texture wrapping is not modelled.
