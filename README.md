# StatsView ring chart — a verified model

StatsView is an Android view that draws a list of numbers as a ring of
coloured arcs. Drawing starts at the top of the ring (−90°). Each value gets
the share `value / (max · count)` of the full circle. When data is set, an
animator drives a progress value `move` from 0 to 1. Each frame shows the
ring only up to the angle `−90 + 360 · move`. The percentage label
`sum / (max · count) · 100` appears only once the drawing loop has reached
its end. At exactly 100 % a 1° cap in the first colour closes the seam.

The model has two modules.

- `RingChart` (RingChart.dfy) describes one frame as a pure function,
  `Frame`. Its inputs are the data, a palette, the progress, the rotation,
  the oval, the centre and the text size. Its output is the list of canvas
  calls: `BgArc` for the grey track, `Arc` for a segment or the cap, and
  `Label` for the text. The module also holds the ring geometry and the
  lemmas about frames.
- `Views` (Views.dfy) holds the class `StatsView`, with the fields the
  source keeps: `data`, `radius`, `center`, `oval`, `animator` and `move`.
  Its `OnDraw` keeps the source's loop, with its running `startAngle` and
  its early return, and is proved to return exactly `Frame(...)` for the
  current fields. `SetData` and `ReInvalidate` are the data setter and the
  animator restart: `ValueAnimator.start()` hands its initial value 0 to the
  update listener before it returns, so `move` is 0 again as soon as data is
  set. `OnAnimationUpdate` is the update listener.
  `OnSizeChanged` computes the geometry. The class `Animator` stands for the
  parts of `ValueAnimator` the view uses.

Arithmetic is on `real`, so it is exact; the source uses `Float`. Two things
are passed in as parameters: the random fallback colour (a function from
segment index to colour inside `Palette`) and the view's inherited
`rotation`.

Where the code behaves differently from what one might expect, the model follows the code:

- With empty data `onDraw` returns before drawing anything, so not even the
  track is drawn (`Frame` is `[]`).
- With a maximum of 0 the code divides by zero. The model requires a
  non-zero maximum (`Scalable`) instead of inventing a result.
- The loop draws a segment first and only then tests whether its end
  passed the reveal angle. So the segment during which the reveal stops is
  still drawn, clipped at that angle. A segment that starts exactly at the
  reveal angle is drawn with a sweep of 0.
- The random fallback range excludes its upper bound 0xFFFFFFFF, so opaque
  white is never chosen (`RandomColorIsOpaque`).

## Model

| member | source | states |
|---|---|---|
| RingChart.Max | app/src/main/java/ru/netology/statsview/ui/StatsView.kt:113 | `maxOrNull` of non-empty data: an element that no element exceeds |
| RingChart.StopIndex | app/src/main/java/ru/netology/statsview/ui/StatsView.kt:119-121 | the first segment whose end passes the reveal angle, or the count when there is none; no earlier segment's end passes it |
| RingChart.SegmentArcs | app/src/main/java/ru/netology/statsview/ui/StatsView.kt:112-118 | the first n segment arcs in input order, each at its start angle with its clipped sweep and its slot colour |
| RingChart.Frame | app/src/main/java/ru/netology/statsview/ui/StatsView.kt:104-135 | the frame is empty exactly when the data is empty; otherwise it starts with the 360° track at −90° |
| RingChart.FrameStoppedAt | app/src/main/java/ru/netology/statsview/ui/StatsView.kt:119-121 | when the loop stops after segment k, the frame is the track plus the first k+1 segment arcs and nothing more |
| RingChart.FrameRanThrough | app/src/main/java/ru/netology/statsview/ui/StatsView.kt:122-134 | when the loop never stops early, the frame is the track, every segment arc, then the label and maybe the cap |
| RingChart.RingGeometry | app/src/main/java/ru/netology/statsview/ui/StatsView.kt:93-102 | the oval is a square of side 2·radius centred on (w/2, h/2); it is inset by exactly lineWidth from the nearer edges, and a stroke of width lineWidth stays inside the view |
| RingChart.RandomColorIsOpaque | app/src/main/java/ru/netology/statsview/ui/StatsView.kt:137 | every colour in the random range has alpha 0xFF, and none is 0xFFFFFFFF |
| RingChart.StartAngleIsPrefixShare | app/src/main/java/ru/netology/statsview/ui/StatsView.kt:109-117 | segment i starts at −90 + sum(data[..i]) / (max·count) · 360, whatever the progress |
| RingChart.SweepNonNegative | app/src/main/java/ru/netology/statsview/ui/StatsView.kt:113 | for non-negative data every full sweep is ≥ 0 |
| RingChart.StartAngleMonotone | app/src/main/java/ru/netology/statsview/ui/StatsView.kt:117 | for non-negative data the start angles never go back |
| RingChart.SegmentsFillAtMostCircle | app/src/main/java/ru/netology/statsview/ui/StatsView.kt:109-124 | the full sweeps add up to percent/100 · 360; with max > 0 that is at most 360, and exactly 360 iff every value equals the max |
| RingChart.PercentAtMostHundred | app/src/main/java/ru/netology/statsview/ui/StatsView.kt:124 | with max > 0 the percentage is ≤ 100, it is exactly 100 iff every value equals the max, and it is ≥ 0 for non-negative data |
| RingChart.EarlierSegmentsDrawnInFull | app/src/main/java/ru/netology/statsview/ui/StatsView.kt:114-121 | every segment before the one where the loop stops is drawn with its full sweep |
| RingChart.VisibleSweepWithinFull | app/src/main/java/ru/netology/statsview/ui/StatsView.kt:110-121 | at move ≥ 0 every drawn segment's visible sweep lies in [0, full]; the segment where the loop stops ends exactly at −90 + 360·move |
| RingChart.RevealedPrefix | app/src/main/java/ru/netology/statsview/ui/StatsView.kt:114-117 | before the stop, the drawn sweeps add up to the distance from −90 to the running start angle |
| RingChart.RevealedSweepMatchesProgress | app/src/main/java/ru/netology/statsview/ui/StatsView.kt:110-121 | the drawn arcs of a frame cover min(360·move, total full sweep) degrees |
| RingChart.FinishedIffFilledWithinReveal | app/src/main/java/ru/netology/statsview/ui/StatsView.kt:119-124 | for non-negative data the loop runs to its end iff the final start angle is ≤ −90 + 360·move |
| RingChart.CompleteRevealFinishes | app/src/main/java/ru/netology/statsview/ui/StatsView.kt:110-124 | in exact arithmetic, at move ≥ 1 with non-negative data the loop always runs to its end, so the label is drawn; the Float program can stop after its last segment instead (see "## Left out") |
| RingChart.StopPoint | app/src/main/java/ru/netology/statsview/ui/StatsView.kt:112-122 | between 1 and count segments are drawn, and every one after the first starts within the reveal angle; if the loop finishes, all are drawn and the last ends within the angle, otherwise the last drawn one ends beyond it |
| RingChart.FrameSegments | app/src/main/java/ru/netology/statsview/ui/StatsView.kt:109-118 | command 0 is the track; command 1+j is drawn segment j in input order; the frame's length counts the closing commands only when the loop finished |
| RingChart.FrameClosing | app/src/main/java/ru/netology/statsview/ui/StatsView.kt:124-134 | a label is in the frame iff the loop finished; it shows the percentage at (center.x, center.y + textSize/4); at exactly 100 it is followed by the 1° cap in colors[0] at the final start angle + rotation |
| RingChart.ThreeQuartersExample | app/src/main/java/ru/netology/statsview/MainActivity.kt:16-21 | [500,500,500,0] has sweeps 90, 90, 90, 0 and 75 %; its final frame is the track, four arcs and the label, with no cap |
| RingChart.FullRingExample | app/src/main/java/ru/netology/statsview/ui/StatsView.kt:131-134 | [1,1,1,1] gives 100 %; its final frame ends with the label and the 1° cap at 270° + rotation |
| RingChart.Min | app/src/main/java/ru/netology/statsview/ui/StatsView.kt:114 | `kotlin.math.min` on two angles: the smaller of the two |
| RingChart.Base | app/src/main/java/ru/netology/statsview/ui/StatsView.kt:113 | `data.maxOrNull()!!.times(data.count())`, the amount that fills the ring; it is not zero when the maximum is not zero (`BaseNonZero`) |
| RingChart.BaseNonZero | app/src/main/java/ru/netology/statsview/ui/StatsView.kt:113 | with a non-zero maximum the base max·count is not zero, and it is positive when the maximum is |
| RingChart.StopsAfter | app/src/main/java/ru/netology/statsview/ui/StatsView.kt:117-119 | the test `startAngle > sequentialRotation` after segment i's full sweep was added |
| RingChart.Finished | app/src/main/java/ru/netology/statsview/ui/StatsView.kt:119-124 | the loop reached line 124: no segment's end passed the reveal angle; characterised in `FinishedIffFilledWithinReveal` |
| RingChart.DrawnCount | app/src/main/java/ru/netology/statsview/ui/StatsView.kt:112-122 | how many segment arcs the loop drew: up to and including the one where it returned, or all of them; bounds in `StopPoint` |
| RingChart.SquareAround | app/src/main/java/ru/netology/statsview/ui/StatsView.kt:96-101 | the oval `RectF(cx − r, cy − r, cx + r, cy + r)` around the centre |
| RingChart.RandomColorRange | app/src/main/java/ru/netology/statsview/ui/StatsView.kt:137 | the values `Random.nextInt(0xFF000000.toInt(), 0xFFFFFFFF.toInt())` can return: from −2^24 up to but excluding −1 |
| RingChart.Sum | app/src/main/java/ru/netology/statsview/ui/StatsView.kt:124 | `data.sum()`, the values added in list order; for non-negative values it is ≥ 0 (`SumNonNegative`) |
| RingChart.SumNonNegative | app/src/main/java/ru/netology/statsview/ui/StatsView.kt:124 | a sum of non-negative values is not negative |
| RingChart.Sweep | app/src/main/java/ru/netology/statsview/ui/StatsView.kt:113 | the full sweep `datum / (max·count) · 360` of segment i, defined only for a non-zero maximum; its sign and total are in `SweepNonNegative` and `SegmentsFillAtMostCircle` |
| RingChart.StartAngle | app/src/main/java/ru/netology/statsview/ui/StatsView.kt:109-117 | the running `startAngle` before segment i: −90 plus the full sweeps of the earlier segments; closed form in `StartAngleIsPrefixShare` |
| RingChart.RevealEnd | app/src/main/java/ru/netology/statsview/ui/StatsView.kt:110 | `sequentialRotation = 360 · move − 90`, the angle up to which the ring is revealed |
| RingChart.VisibleSweep | app/src/main/java/ru/netology/statsview/ui/StatsView.kt:114 | `min(rotationAngle, sequentialRotation − startAngle)`, the drawn part of segment i; its bounds are in `VisibleSweepWithinFull` |
| RingChart.Percent | app/src/main/java/ru/netology/statsview/ui/StatsView.kt:124 | `sum / (max·count) · 100`; its bounds are in `PercentAtMostHundred` |
| RingChart.Closing | app/src/main/java/ru/netology/statsview/ui/StatsView.kt:124-134 | the label at (center.x, center.y + textSize/4), then the 1° cap in colors[0] only when the percentage is exactly 100; stated in `FrameClosing` |
| RingChart.Palette.ColorAt | app/src/main/java/ru/netology/statsview/ui/StatsView.kt:115 | `colors.getOrElse(index)`: the slot colour within the slots, the fallback beyond them; stated in `SegmentColor` |
| RingChart.SegmentColor | app/src/main/java/ru/netology/statsview/ui/StatsView.kt:115-137 | a segment within the slots takes its slot colour; beyond them, with a fallback in generateRandomColor's range, its colour lies in that range, is opaque and is never opaque white |
| Views.RestartExample | app/src/main/java/ru/netology/statsview/ui/StatsView.kt:52-56 | after a completed run on [1], setting [500, 500, 500, 0] makes the next frame the track and a 0° first arc, with no label |
| Views.Animator.OfFloat | app/src/main/java/ru/netology/statsview/ui/StatsView.kt:144 | a new run from `from` to `to` that is not started, not cancelled, has no update or lifecycle listeners, and whose value is `from` |
| Views.Animator.AddUpdateListener | app/src/main/java/ru/netology/statsview/ui/StatsView.kt:145-150 | registers one more update listener |
| Views.Animator.Start | app/src/main/java/ru/netology/statsview/ui/StatsView.kt:151 | the run is started at its initial value `from`; the delivery of that value to the update listener is applied by `ReInvalidate` |
| Views.Animator.Cancel | app/src/main/java/ru/netology/statsview/ui/StatsView.kt:141 | the run is cancelled, and cancelling again changes nothing |
| Views.Animator.RemoveAllListeners | app/src/main/java/ru/netology/statsview/ui/StatsView.kt:142 | the lifecycle and pause listeners are dropped; the update listeners stay registered |
| Views.Animator.Advance | app/src/main/java/ru/netology/statsview/ui/StatsView.kt:148 | a started, uncancelled run moves its value forward, never past `to` |
| Views.StatsView.constructor | app/src/main/java/ru/netology/statsview/ui/StatsView.kt:33-62 | the initial state satisfies the invariant: four colour slots, no data, a zero geometry, move 0 and no animator |
| Views.StatsView.SetData | app/src/main/java/ru/netology/statsview/ui/StatsView.kt:52-56 | stores the data, cancels the previous animator, and leaves exactly one live run: a fresh run from 0 to 1; the progress is 0 again |
| Views.StatsView.ReInvalidate | app/src/main/java/ru/netology/statsview/ui/StatsView.kt:139-153 | the old animator is cancelled and has no lifecycle listeners, but keeps its update listener; a fresh run from 0 to 1 with one update listener is started, and its initial value 0 becomes the progress; it is the only live run; data and geometry are unchanged |
| Views.StatsView.OnAnimationUpdate | app/src/main/java/ru/netology/statsview/ui/StatsView.kt:145-149 | move takes the animator's new value, and stays within [0, 1] and equal to the current run's value |
| Views.StatsView.OnSizeChanged | app/src/main/java/ru/netology/statsview/ui/StatsView.kt:93-102 | radius = min(w,h)/2 − lineWidth, center = (w/2, h/2), and the oval is the square `RingGeometry` describes |
| Views.StatsView.OnDraw | app/src/main/java/ru/netology/statsview/ui/StatsView.kt:104-135 | the source's loop, proved to return exactly `Frame` of the current data, colours, progress, oval, centre and text size |

## Left out

- Canvas, Paint and RectF rasterisation: draw calls are `Command` values. The paints' stroke width, cap, join and the track's alpha of 10 are not modelled.
- `withStyledAttributes` and `AndroidUtils.dp`: text size, line width and the four resolved colours are constructor parameters.
- `generateRandomColor`: randomness cannot be modelled. The fallback colour is an injected function; `Palette.RandomFallback` says it stays in the range `RandomColorRange` records, and `SegmentColor` uses that. No frame lemma requires it, since the frame's shape does not depend on colours beyond the slots.
- `ValueAnimator` timing: the 5000 ms duration, the linear interpolator (set inside the listener in the source), the UI-thread scheduling, the `invalidate()` redraw request and the natural end of a run are not modelled. Updates arrive through `OnAnimationUpdate` with non-decreasing values in [0, 1].
- Views.Animator.Start: does not run the update listener itself, because the model has no callbacks; `ReInvalidate` applies that listener's effect (`move` takes the initial value) right after `Start`.
- The view's inherited `rotation` property is an opaque real parameter of `OnDraw`.
- Float rounding and the `"%.2f%%"` formatting: every angle and the percentage are exact reals. So the label's value, the `== 100F` test at line 131, and the loop's stop test `startAngle > sequentialRotation` at line 119 are all exact; the rounding that builds up in `startAngle += rotationAngle` (line 117) is not modelled.
- RingChart.CompleteRevealFinishes: holds only in exact arithmetic. With fourteen values of `1F`, each `rotationAngle` rounds to 25.714287 in single precision. The final `startAngle` becomes 270.00006, which is greater than 270 at move = 1, so the Float program returns after the last segment and draws neither the "100.00%" label nor the cap. `FrameClosing` rests on the same exact stop test. The data of `FullRingExample`, [1, 1, 1, 1], has sweeps of exactly 90 in single precision too.
- Views.StatsView.OnDraw: requires a non-zero maximum for non-empty data, because with max = 0 the source divides by zero and draws NaN angles.
- RingChart.PercentAtMostHundred: requires max > 0, because with an all-negative list the bound flips.
- The unused `oldw` and `oldh` parameters of `onSizeChanged`.
- `MainActivity` (activity plumbing and framework view animation). Only its example data is used, in `ThreeQuartersExample`.
