# Splash-screen layout and loading bar

A Dafny model of the computed core of the N.I.G.H.T.S. splash screen. The
core does two things.

1. **Scene layout.** From the window width and the natural sizes of the
   images, it places four elements:
   - the endoskeleton header, scaled to height 300, with its top at y = 50;
   - a row of character sprites, each scaled to height 150, 20 pixels apart,
     with the row centred;
   - the logo, scaled to width 400;
   - a 300×20 loading bar.

   Every element is centred horizontally. Each one sits a fixed margin
   (30, 20, 20) below the element above it.
2. **Loading-bar animation.** Each frame reads a 32-bit millisecond tick
   counter. The progress fraction grows by 0.2 per elapsed second and is
   clamped at 1. The yellow fill is the bar width times the fraction,
   truncated.

Modules:

- `Geometry` (`geometry.dfy`): `Size`, `Rect` and C++ truncating division.
  It also holds centring (`CenterX`, characterised by `CentredIn`) and
  aspect-preserving scaling (`ScaleToHeight`, `ScaleToWidth`).
- `Row` (`row.dfy`): sprite slots (`Texture`, with the 100×100 fallback for
  a texture that failed to load). It has a recursive reference placement
  `PlaceRow` and the row layout `RowLayout`. The program's two loops are
  the methods `ScaleSprites`, `PositionSprites` and `LayoutRow`, proved
  equal to the reference.
- `Scene` (`scene.dfy`): the header, logo and bar rectangles and the stacked
  composition `LayoutScene`.
- `Progress` (`progress.dfy`): the elapsed-time computation from wrapping
  32-bit ticks. It also has the clamped step `Step`, the frame loop
  (`Frame`, `Run`), the fill width and the foreground rectangle.

The window width, the constant 1200 in the program (src/main.cpp:86),
becomes the parameter `canvasWidth`; the program's value is
`Scene.WindowWidth`. The natural image sizes, whether each sprite texture
loaded, and the tick readings of successive frames come from the graphics
library and become parameters too.

How the model treats the code's edge cases:

- Division by a zero natural size is not guarded in the code. The model
  requires positive natural heights (header and sprites) and a positive
  natural width (logo). It does not return an error value.
- A sprite that failed to load is not skipped. It is laid out with a
  100×100 natural size, so it is 150 wide (`Row.RowItemsScaled`).
- Widths are truncated, not rounded. An image with a positive size can still
  get width 0 (`Row.ThinSpriteVanishes`). The fill width is truncated too.
- An empty row gives no rectangles. Its total width is computed as
  −20, exactly as the code computes it.
- Elapsed time cannot be negative: it is an unsigned tick difference.
  When the counter wraps, the elapsed time is the wrapped difference, not a
  negative number.
- The frame loop does not stop when the bar is full. It only stops when the
  user quits, so the model has no completion exit.

## Model

| member | source | states |
|---|---|---|
| Geometry.TruncDiv | src/main.cpp:144 | the quotient rounds toward zero: the remainder lies in [0, b) for a non-negative dividend and in (−b, 0] for a negative one |
| Geometry.CenterX | src/main.cpp:128 | an item at the returned x is centred: its left and right margins differ by at most one pixel, the odd pixel going right when the item fits and left when it is wider than the canvas |
| Geometry.CentredUnique | src/main.cpp:128 | centring has one solution: any rectangle whose margins are balanced that way has exactly the `(canvasWidth - w)/2` x of the program |
| Geometry.ScaleToHeight | src/main.cpp:127 | the scaled size has the target height and the largest whole width not exceeding the natural aspect ratio times that height |
| Geometry.ScaleToWidth | src/main.cpp:157 | the scaled size has the target width and the largest whole height not exceeding the inverse aspect ratio times that width |
| Row.NaturalSize | src/main.cpp:137-138 | no contract of its own: a slot's natural size is its queried size, or 100×100 for a texture that failed to load; `Row.RowItemsScaled` states the resulting 150 width of a missing slot |
| Row.RowWidth | src/main.cpp:141-143 | no contract of its own: the row's `totalWidth`, widths plus one gap per neighbouring pair; `Row.SpanIsRowWidth`, `Row.RowCentred` and `Row.LayoutRow` pin it down as the span of the placed row |
| Row.PlaceRow | src/main.cpp:146-151 | boxes placed by a running x keep input order and size; box i sits at the start x plus the widths of the boxes before it plus i gaps |
| Row.GapsExact | src/main.cpp:146-151 | every pair of neighbouring boxes is exactly one gap apart |
| Row.SpanIsRowWidth | src/main.cpp:143-151 | the last box's right edge is the start x plus the total width (sum of widths plus gap × (n − 1)) |
| Row.RowLayout | src/main.cpp:134-151 | no contract of its own: the reference row layout; `Row.RowItemsScaled`, `Row.RowSpacing`, `Row.RowCentred` and `Row.LayoutRow` pin it down (sizes, gaps, centring, and equality with the program's two loops) |
| Row.RowItemsScaled | src/main.cpp:136-142 | one rectangle per slot, all at height 150 on the row's y, each with its slot's aspect ratio; a missing texture gets width 150 |
| Row.RowSpacing | src/main.cpp:146-151 | neighbouring sprites in the row are exactly 20 pixels apart |
| Row.RowCentred | src/main.cpp:143-144 | a non-empty row spans exactly `totalWidth` from its first left edge to its last right edge, and that span is centred on the canvas |
| Row.SingleSpriteCentred | src/main.cpp:143-144 | a one-sprite row is placed at the centring x of that sprite alone; the spacing has no effect |
| Row.ThinSpriteVanishes | src/main.cpp:140 | a 1×151 sprite is scaled to width 0 |
| Row.ScaleSprites | src/main.cpp:136-142 | the first loop gives every slot height 150 and its scaled width, and totals the widths |
| Row.PositionSprites | src/main.cpp:146-151 | the second loop's running x produces exactly the reference placement `PlaceRow` |
| Row.LayoutRow | src/main.cpp:134-151 | the program's row computation returns the total width (widths plus 20 × (n − 1)) and the reference row layout |
| Scene.HeaderRect | src/main.cpp:124-128 | the header is 300 high with top 50, has the endoskeleton image's aspect ratio and is centred |
| Scene.LogoRect | src/main.cpp:154-158 | the logo is 400 wide, has the logo image's aspect ratio, non-negative height, and is centred |
| Scene.BarRect | src/main.cpp:161-162 | the bar background is 300×20 and centred |
| Scene.LayoutScene | src/main.cpp:123-164 | the sprites sit 30 below the header's bottom; the logo sits 20 below every sprite's bottom; the bar sits 20 below the logo's bottom; the fill starts as the background with width 0 |
| Scene.StackedTopToBottom | src/main.cpp:145-162 | every element starts strictly below the bottom of the element above, so nothing overlaps vertically |
| Scene.ExampleScene | src/main.cpp:86-162 | on the 1200-wide window, an 800×600 header, five loaded 100×100 sprites and an 800×200 logo give header (400,50,400,300), 150×150 sprites at x = 185, 355, 525, 695, 865 on y = 380, logo (400,550,400,100), bar (450,670,300,20) |
| Progress.ElapsedSeconds | src/main.cpp:173-175 | elapsed time is non-negative and below 2³²/1000 s; in whole milliseconds, added to the previous reading modulo 2³², it gives the new reading |
| Progress.Step | src/main.cpp:183-186 | for non-negative elapsed time the fraction never decreases and never passes 1; a complete fraction is unchanged; below the clamp it grows by exactly 0.2 × dt |
| Progress.Start | src/main.cpp:169-170 | no contract of its own: the loop starts from the start-up tick reading with fraction 0; `Progress.StartRunBounded` states what every run from it keeps |
| Progress.Frame | src/main.cpp:172-187 | a frame records the new tick reading and keeps the fraction in [0, 1], non-decreasing, and pinned once it is 1 |
| Progress.Run | src/main.cpp:172-186 | no contract of its own: the frame loop over a sequence of tick readings; `Progress.RunIsOneStep`, `Progress.RunMonotoneBounded`, `Progress.RunStaysComplete` and `Progress.RunLastTime` pin it down |
| Progress.RunMonotoneBounded | src/main.cpp:172-186 | over any sequence of tick readings, wraps included, the fraction never decreases and never exceeds 1 |
| Progress.StartRunBounded | src/main.cpp:169-186 | starting from fraction 0 at the start-up tick reading, every run of frames keeps the fraction in [0, 1] |
| Progress.RunStaysComplete | src/main.cpp:183-186 | once the fraction is 1, every later frame leaves it at 1 |
| Progress.StepAdditive | src/main.cpp:183-186 | for a fraction in [0, 1], a frame of a seconds followed by one of b seconds ends where one frame of a + b seconds ends |
| Progress.RunIsOneStep | src/main.cpp:172-186 | the update is independent of the frame rate: a run of frames ends at the fraction one step over the total elapsed time gives, wraps of the counter included |
| Progress.RunLastTime | src/main.cpp:173-175 | after a run the loop holds the last tick reading as its previous time |
| Progress.RepeatCompletes | src/main.cpp:183-186 | k frames of equal length dt fill the bar once their total advance 0.2 × k × dt covers the distance left |
| Progress.RepeatBelow | src/main.cpp:183-186 | while 0.2 × k × dt falls short of the distance left, k frames of length dt advance the fraction by exactly that much, so the bar is not yet full |
| Progress.FiveSecondsToFull | src/main.cpp:184 | five one-second frames take the fraction from 0 to exactly 1, and a sixth leaves it at 1 |
| Progress.TruncReal | src/main.cpp:187 | the `(int)` cast rounds toward zero: a non-negative value gives the largest whole number not above it, a negative one the smallest whole number not below it (which is non-positive) |
| Progress.FillWidth | src/main.cpp:187 | for a fraction in [0, 1] the fill is the largest whole width not beyond bar width × fraction; it lies in [0, bar width] and equals the bar width at 1 |
| Progress.FillWidthMonotone | src/main.cpp:187 | a larger fraction never gives a narrower fill |
| Progress.Foreground | src/main.cpp:163-164 | the fill shares x, y and height with the background, is no wider than it, and is the whole background when the fraction is 1 |
| Progress.RunFillGrows | src/main.cpp:183-187 | over any run of frames the drawn fill only widens and never exceeds the background |

## Left out

- Graphics and image-library start-up, window and renderer creation, texture loading, destruction and size queries (src/main.cpp:75-121, 212-224): foreign library I/O. The sizes those queries return are parameters.
- A size query on a header or logo texture that failed to load leaves the size uninitialised in the program. Those sizes are plain parameters here.
- The legal-notice message box and the URL opener (src/main.cpp:16-62): an operating-system dialog, shell commands and process exit.
- The tutorial placeholder (src/main.cpp:67-69): it only prints.
- Event polling, the quit flag, the immediate-mode UI frame calls and all drawing calls (src/main.cpp:177-180, 189-209): UI plumbing with no computed values. Frames are modelled as a sequence of tick readings.
- Geometry.ScaleToHeight: computes `w × H / h` in exact integer arithmetic. The program computes it in single-precision float before truncating. The two agree for realistic image sizes, but float rounding is not modelled.
- Geometry.ScaleToWidth: the same float caveat as `ScaleToHeight`.
- Progress.ElapsedSeconds: the program computes `(now - lastTime) / 1000.f` in single-precision float. The model divides exactly, so "the elapsed seconds times 1000 is a whole number of milliseconds" holds only here (16 / 1000.f, for one, is not exact in float).
- Progress.Step: progress is a `real`. The program's `float` accumulation of `0.2f × dt` can end a hair below or above an exact multiple, so the frame on which the bar fills may differ by one.
- Progress.FillWidth: computes `bar width × fraction` exactly, not in float.
- 32-bit signed overflow of `int` sizes, sums and positions is not modelled; integers are unbounded. This matters once a scaled size or the row's total width passes 2³¹ − 1, which natural aspect ratios in the millions already reach (a 3,000,000×1 sprite in a row of five, for instance). The program's float-to-`int` casts (src/main.cpp:127, 140, 157) are then undefined, not a wrap.
- The window height (src/main.cpp:87) only sizes the window and plays no part in the layout.
