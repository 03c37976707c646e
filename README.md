# Whiteboard viewport: camera, culling, debounce and redraw requests

This project models the viewport of a canvas whiteboard (the Konva stage of
VisionUML) and proves properties of the model. It covers:

- **Zoom to point.** `updateZoom` multiplies the stored scale by 1.1 (positive
  direction) or by 1/1.1 (any other direction) and clamps it to [0.5, 3]. It
  then moves the stage so that the scene point under the focal point stays
  under it. The focal point is the pointer, or the stage centre when there is
  no pointer (the zoom buttons). The camera maps a scene point to the screen as
  `scene * scale + position`.
- **Culling.** After a zoom, the visible scene rectangle is
  `(-x/scale, -y/scale, width/scale, height/scale)`. Every node of the dynamic
  layer gets `visible` set to a four-way strict overlap test of the rectangle
  the surface reports for it against that rectangle.
- **Debounce.** A closure owns one timer slot. Every call clears the slot's timer
  and arms a new one, `delay` ms ahead, carrying that call's arguments.
- **Event handlers.** The wheel handler has a no-pointer guard, and a positive
  `deltaY` zooms in. The drag handlers keep an `isDragging` flag that gates frame
  requests. The debounced resize handler sets the stage size and redraws both
  layers.

All arithmetic is on exact `real`s. A redraw is a request appended to a log
(`Redraw.Draw`): an immediate `draw`, a `batchDraw`, or a `batchDraw` scheduled
through `requestAnimationFrame`.

Modules:

- `Geometry`: points, rectangles and the overlap test.
- `Camera`: the constants and the zoom and visible-rectangle functions, with
  their lemmas.
- `Debounce`: the debounce state machine, its trace lemmas, and the `Debouncer`
  class that keeps the closure's state.
- `Redraw`: layers, the request log and the drag step functions.
- `Canvas`: the `Stage` class. It holds the module-level state of
  `src/stage.ts` and its handlers.

`src/main.ts` is an earlier one-file form of `src/stage.ts` and
`src/utils/debounce.ts`, with the same algorithms line for line. One model
serves both, and the table below cites whichever file shows a line best.

How the model represents the source:

- The module-level `scale` and the stage's own scale are always assigned
  together, so the model keeps one field, `scale`.
- `stage.position()` is the pair `x`, `y`.
- A node (`Canvas.Shape`) holds only its `visible` flag. The rectangle each
  node's `getClientRect()` reports is read afresh at every cull. It enters the
  zoom as the parameter `boxes`, one rectangle per node in child order, and is
  the one reported after the new scale and position are set.
- A Konva container never holds one node twice. `Stage.Valid` keeps the child
  list free of repeats (`Canvas.Distinct`), which the culling loop relies on.
- The host's timers run on a discrete clock counting milliseconds. `queue` is
  the host's table of this closure's armed timers. A `Tick` advances the clock
  by 1 ms, then runs the timer that has come due. So a timer due at time t runs
  before a call made at time t.
- The resize callback reads the window size when it fires. The model therefore
  passes that size as a parameter of the tick that fires it (`Stage.OnTick`).

Behaviour of the code that a reader might not expect, which the model follows as written:

- A wheel event with positive `deltaY` zooms **in** (src/stage.ts:40).
- Each dragmove while dragging schedules its own animation-frame callback. The
  code does not coalesce these requests (src/stage.ts:53-57).
- The resize callback sets the size and redraws both layers. It does **not**
  recompute node visibility (src/stage.ts:62-67).
- The code has no throttle, no per-layer pending-redraw flag and no pan-by-delta.

## Model

| member | source | states |
|---|---|---|
| Camera.ZoomAmount | src/stage.ts:73 | the factor is positive; a positive direction gives 1.1, and every other direction, zero included, gives the exact inverse of 1.1 |
| Camera.ClampScale | src/stage.ts:74 | the result is always in [MinZoom, MaxZoom]; an in-bounds value passes unchanged; a value below or above the range saturates at the matching bound |
| Camera.NextScale | src/main.ts:73-74 | whatever the previous scale, the new scale is in [0.5, 3], and it equals `scale * amount` whenever that product is in range |
| Camera.ZoomDirection | src/stage.ts:73-74 | for an in-bounds scale: a positive direction never shrinks the scale and strictly grows it below the maximum; every other direction, zero included, never grows it and strictly shrinks it above the minimum |
| Camera.ZoomCenter | src/stage.ts:76 | the focal point is the pointer when one is given, else `(width/2, height/2)` |
| Camera.ZoomCamera | src/stage.ts:71-86 | the new camera's scale is the clamped step `NextScale(old scale, direction)`, so it is in [0.5, 3] |
| Camera.FocalPointFixed | src/stage.ts:77-86 | after a zoom the focal point shows the same scene point as before: `(center - newPos)/newScale == (center - oldPos)/oldScale` on both axes, and the new camera maps the old scene point back onto the focal point |
| Camera.ButtonZoomKeepsCentre | src/main.ts:122-123 | a zoom with no pointer (the zoom buttons) keeps the scene point under the stage centre fixed |
| Camera.SaturatedZoomKeepsPosition | src/stage.ts:83-86 | when clamping leaves the scale unchanged, the camera, and so the position, is unchanged |
| Camera.ZoomAtBoundIsNoOp | src/stage.ts:74 | zooming in at scale 3, or out at scale 0.5, changes nothing |
| Camera.SameSceneSameCamera | src/stage.ts:83-86 | two cameras with the same scale that show the same scene point at one screen point are equal, so the position solve has one answer |
| Camera.ZoomInThenOutRestores | src/main.ts:73-86 | zooming in and then out at the same point, with no clamping on the way in, restores both scale and position exactly |
| Camera.ZoomOutThenInRestores | src/main.ts:73-86 | zooming out and then in at the same point, with no clamping on the way out, restores both scale and position exactly |
| Camera.VisibleRect | src/stage.ts:91-96 | with positive scale, width and height, the visible rectangle has positive width and height |
| Camera.VisibleRectIsScreenArea | src/main.ts:93-98 | a scene point lies in the visible rectangle (border included) exactly when the camera maps it into the stage's `[0,width] x [0,height]` screen area, in both directions |
| Geometry.Overlaps | src/stage.ts:100-104 | for boxes with area, the test is interval intersection on each axis: the larger start lies strictly before the smaller end |
| Geometry.OverlapsIffSharedInterior | src/stage.ts:100-104 | for boxes with area, the four strict comparisons hold exactly when the two boxes share an interior point, in both directions |
| Geometry.TouchingEdgeNotVisible | src/main.ts:102-106 | a box that meets the visible rectangle only along an edge is not visible |
| Geometry.ContainedBoxVisible | src/stage.ts:100-104 | a box with area that lies inside the visible rectangle is visible |
| Geometry.SeparatedBoxNotVisible | src/stage.ts:100-104 | a box wholly to one side of the visible rectangle is not visible |
| Canvas.SetVisibility | src/stage.ts:98-106 | for a child list with no node twice, afterwards every node's `visible` equals the overlap test of the rectangle reported for that node against the visible rectangle |
| Canvas.WheelDirection | src/stage.ts:40 | the direction is 1 or -1, and it is positive exactly when `deltaY` is positive |
| Canvas.Stage.constructor | src/stage.ts:14-34 | the stage starts with scale 1 at position (0, 0), the window size, one visible node (the square) in the dynamic layer, one immediate draw of the dynamic layer, no drag in progress, and a fresh debounced resize handler |
| Canvas.Stage.UpdateZoom | src/stage.ts:71-109 | the camera becomes `ZoomCamera` of the old camera about the pointer or stage centre, and the focal point's scene point is kept; every dynamic node's `visible` becomes the overlap test of the rectangle reported for it against the new camera's visible rectangle; size, node list and drag flag are unchanged; exactly one batch draw of the dynamic layer is requested |
| Canvas.Stage.OnWheel | src/stage.ts:36-42 | with no pointer, nothing in the stage or its nodes changes; otherwise one zoom step about the pointer, inwards for positive `deltaY`, each node's `visible` set to the overlap test of its reported rectangle against the new visible rectangle, and one batch draw of the dynamic layer |
| Canvas.Stage.OnDragStart | src/stage.ts:46 | the flag is set and nothing else changes |
| Canvas.Stage.OnDragMove | src/main.ts:165-167 | while dragging, one frame-scheduled batch draw of the dynamic layer is appended per move; otherwise nothing changes |
| Canvas.Stage.OnDragEnd | src/stage.ts:48-51 | the flag is cleared and exactly one batch draw of the dynamic layer is requested |
| Canvas.Stage.Resize | src/stage.ts:62-67 | the stage takes the given width and height and batch draws of the static and then the dynamic layer are requested; nothing else, in particular neither scale nor position, may change |
| Canvas.Stage.OnWindowResize | src/main.ts:177 | a resize event only re-arms the debounced handler's timer; the stage itself is untouched |
| Canvas.Stage.OnTick | src/main.ts:170-175 | when the handler's timer comes due, the stage takes the window size of that moment and both layers are redrawn; otherwise size and requests are unchanged; scale and position are never touched |
| Canvas.WheelScenario | src/stage.ts:36-42 | on an 800 by 600 stage at scale 1 and position (0, 0), `deltaY = 120` at (400, 300) gives scale 1.1 at position (-40, -30) and visible rectangle (400/11, 300/11, 8000/11, 6000/11) |
| Canvas.CullingScenario | src/stage.ts:91-104 | a node whose reported rectangle is (1000, 1000, 100, 100) is culled on an 800 by 600 stage at scale 1 and position (0, 0), and shown once the position is (-1000, -1000) |
| Debounce.Initial | src/utils/debounce.ts:2 | a new closure at time `now` has an unset slot, no armed timer and no invocation, so it keeps the one-slot property and nothing is due |
| Debounce.ClearSlot | src/utils/debounce.ts:4 | clearing removes the slot's timer from the host's table and keeps every other timer as it was; with an unset slot, or a timer that has already run, the table is unchanged |
| Debounce.CallStep | src/utils/debounce.ts:3-5 | a call never runs `func` synchronously: the invocation record and the clock are unchanged |
| Debounce.TickStep | src/utils/debounce.ts:5 | a tick advances the clock by one millisecond; when it runs `func` is stated by CallThenWait |
| Debounce.CallStepValid | src/utils/debounce.ts:4-5 | because a call clears the slot's timer before arming a new one, the host holds no timer of the closure other than the one the slot names |
| Debounce.TickStepValid | src/utils/debounce.ts:5 | running the due timer keeps that property |
| Debounce.RunValid | src/utils/debounce.ts:3-5 | the property holds after every sequence of calls and ticks |
| Debounce.AtMostOnePending | src/utils/debounce.ts:4-5 | under that property at most one invocation is pending, and a pending one is the slot's timer |
| Debounce.DueTimerIsSlot | src/utils/debounce.ts:4-5 | under that property some timer of the closure is due exactly when the slot's timer is due, so a tick that looks only at the slot misses nothing |
| Debounce.CallThenWait | src/utils/debounce.ts:3-5 | after any history, a call followed by `n` quiet ms runs `func` once, `delay` after the call and with that call's arguments, when `n >= delay`, and not at all when `n < delay`; an earlier call's pending timer never runs |
| Debounce.BurstRunsOnce | src/utils/debounce.ts:4-5 | a burst of calls whose gaps are all shorter than `delay`, then at least `delay` quiet ms, runs `func` exactly once, `delay` after the last call and with its arguments |
| Debounce.SeparatedCallsRunTwice | src/main.ts:37-43 | two calls at least `delay` apart, the second followed by at least `delay` quiet ms, run `func` twice, once per call, each `delay` after its call and with its own arguments |
| Debounce.Debouncer.constructor | src/utils/debounce.ts:1-2 | a new closure has an unset slot, no armed timer and no invocation |
| Debounce.Debouncer.Call | src/utils/debounce.ts:3-5 | the closure state becomes `CallStep` of the old state: the only armed timer is the new one, `delay` ahead with the call's arguments, and nothing was invoked |
| Debounce.Debouncer.Tick | src/utils/debounce.ts:5 | the closure state becomes `TickStep` of the old state; the returned arguments are present exactly when `func` ran, and are the ones appended to the invocation record |
| Redraw.DragStart | src/main.ts:160 | sets the flag and leaves the request log alone |
| Redraw.DragMove | src/stage.ts:53-57 | the flag is kept; while dragging exactly one frame-scheduled batch draw of the dynamic layer is appended, otherwise the log is unchanged |
| Redraw.DragEnd | src/main.ts:161-164 | clears the flag and appends exactly one batch draw of the dynamic layer |
| Redraw.MovesWhileDragging | src/stage.ts:53-57 | while dragging, `n` moves append exactly `n` frame-scheduled batch draws and nothing else |
| Redraw.MovesWhileIdle | src/main.ts:165-167 | with no drag in progress, moves request nothing |
| Redraw.DragSession | src/main.ts:158-167 | start, `n` moves, end: one frame request per move, then exactly one batch draw of the dynamic layer, and the flag is cleared at the end |

## Left out

- `src/ui.ts`: DOM markup and button wiring only. The zoom buttons' calls
  `updateZoom(1)` and `updateZoom(-1)` are `Stage.UpdateZoom` with no pointer.
- `extractPathData` (src/utils/extractPathData.ts, src/main.ts:148-153): these
  are foreign `DOMParser` and `querySelector` calls.
- `addUseCase`: a network fetch that builds a rendered node and adds it with
  `dynamicLayer.add(useCase)` (src/ui.ts:99, src/main.ts:141). The model's node
  list is fixed after the stage is created. Those additions are not modelled,
  because the fetch and the node construction are outside this core.
- The zoom percentage text `Math.round(scale * 100)`: UI output with float rounding.
- Konva rendering: `draw`, `batchDraw` and `requestAnimationFrame` are recorded
  only as requests in a log. The model makes no claim about frame timing or
  coalescing. The `stage.add` call that attaches the two layers
  (src/stage.ts:23) is omitted. So are the square's position, size, fill and
  `draggable` flag (src/stage.ts:25-32): the model keeps no node geometry.
- Canvas.Stage.UpdateZoom: the rectangles `getClientRect()` reports are inputs.
  The model does not compute them from a node's own attributes, from drags that
  moved a node, or from the stage transform.
- Floating point: the model uses exact reals. It does not model IEEE rounding,
  `NaN`, or the infinities a zero scale would produce; the scale is always in
  [0.5, 3].
- `window.innerWidth`/`innerHeight`, `getPointerPosition` and `preventDefault`:
  these are I/O. Sizes and the pointer are parameters.
- The `this` receiver that the debounced call forwards to `func` is not modelled.
  Only the arguments are modelled.
- Debounce.CallThenWait: assumes `delay >= 1`. With a zero delay the host runs the timer on the next tick, and this lemma does not state that case.
- Debounce.BurstRunsOnce: assumes `delay >= 1`, for the same reason.
- Debounce.SeparatedCallsRunTwice: assumes `delay >= 1`, for the same reason.
- Debounce.SeparatedCallsRunTwice: the clock runs every timer exactly when it
  is due. A browser only promises that a timer runs no earlier than `delay`.
  If the first timer ran late, a second call made exactly `delay` later could
  clear it first, and `func` would run only once. The lemma does not cover that
  case.
- "At most one pending" assumes that the host's timers run only through the clock
  model described above. The ordering of timers against events at the same
  millisecond is a modelling choice of this project.
