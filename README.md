# CircleThingy click handling, modelled in Dafny

CircleThingy is a small interactive tool for measuring circles in a
microscope image. The operator calibrates a scale with two right clicks. The
second click asks for the scale's length in micrometres. The operator then
picks circles with left clicks. Every third point fits a circle through the
three points with a closed-form formula. The circle is drawn in the next
colour of a five-colour palette and labelled with its radius in micrometres.

The model covers the state of `GlobalHandler` and its two click handlers, the
three-point circle formula and the button dispatch:

- `wrappers.dfy`: `Option` and `Result`.
- `geometry.dfy` (module `Geometry`): the formula `cirle_from_three_points`
  as `CircleFromThreePoints`, over real coordinates. It returns the centre
  and the squared radius. Each of its divisions by zero is a
  `GeometryError`. Lemmas give the exact failure conditions and prove that a
  computed centre is equidistant from the three points. They also prove it
  is the only such point.
- `click_state.dfy` (module `ClickState`): the handler state as a value
  (`Handler`, `Scale`). It has one step function per handler (`LeftClick`,
  `RightClick`, `MouseClick`) and `Run` for a sequence of clicks. Lemmas
  cover the colour cycle, the unset-scale guard, cancelled calibrations and
  the pixel length.
- `circle_thingy.dfy` (module `CircleThingy`): the class `GlobalHandler`,
  whose fields are the scale entries, the pending points, the colour counter
  and the palette. Its methods update those fields step by step as the
  source does. Each is proved to reach exactly the state, and report exactly
  the outcome, of the matching step function. `OnMouseClick` is the
  button-press callback.

The step functions and the class methods preserve the invariant
`Handler.Valid`. It says:

- at most 3 pending points;
- at most 2 scale end points;
- the two lengths are set together, and only with two end points;
- the pixel length is the horizontal separation of those end points.

The scale dialog is an input: `Some(L)` is an accepted number L and `None` a
dialog closed by cancel or by closing its window. Non-numeric input never
closes the dialog: `validate` rejects it and the dialog stays open
(`circle_thingy.py:50-56`), so it has no value of its own.

In these places the model follows the code as written:

- A cancelled dialog keeps both end points with no length. It does not
  revert the calibration to empty (`circle_thingy.py:139-143`). The next
  right click then starts a fresh scale.
- The pending points are cleared at the start of the next left click, not
  when a triple completes (`circle_thingy.py:94-95`). The buffer holds 3
  points between picks.
- A division by zero in the formula (`circle_thingy.py:177-182`) escapes the
  handler and leaves the 3 points stored with the colour counter unchanged.
- The colour is taken and the counter advanced (`circle_thingy.py:103-104`)
  before the unit factor is divided out. A zero pixel length
  (`circle_thingy.py:109-110`) therefore fails after using up a colour.
- A declared length of 0 counts as unset (`circle_thingy.py:87`). A negative
  length is accepted.
- The list of measurements `self.circles` is never appended to, so no
  measurement list is modelled.
- The formula divides by the first chord's slope
  (`circle_thingy.py:182`). It therefore rejects triples whose first chord is
  horizontal even though they have a circle (`HorizontalFirstChordRejected`).

## Model

| member | source | states |
|---|---|---|
| `Geometry.CircleFromThreePointsFailures` | circle_thingy.py:176-182 | the formula fails exactly on a vertical first chord, then on a vertical second chord, then on collinear points (equal slopes), then on a horizontal first chord. It succeeds exactly when none of these holds |
| `Geometry.CircleFromThreePointsIsEquidistant` | circle_thingy.py:170-186 | a computed centre is at the same distance from all three points, and the squared radius is its distance to the second point |
| `Geometry.ComputedCentreIsEquidistant` | circle_thingy.py:177-182 | the quotients exactly as the formula computes them (both slopes, the centre's x, the negated inverse slope and the centre's y) give a point equidistant from the three points |
| `Geometry.ParallelIffCollinear` | circle_thingy.py:177-181 | the slope difference the formula divides by is zero exactly when the points are collinear, and the first slope is zero exactly when the first chord is horizontal |
| `Geometry.EquidistantPointIsUnique` | circle_thingy.py:171-173 | three non-collinear points have at most one equidistant point, so the result is the only circle through them |
| `Geometry.CircleOfRadiusTwo` | circle_thingy.py:170-186 | the formula on (2,0), (0,2), (-2,0) gives centre (0,0) and squared radius 4 |
| `Geometry.CircleThroughSampleTriple` | circle_thingy.py:170-186 | the formula on (10,10), (20,0), (30,10) gives centre (20,10) and squared radius 100 |
| `Geometry.HorizontalFirstChordRejected` | circle_thingy.py:182 | (0,0), (2,0), (1,1) are not collinear and (1,0) is at distance 1 from each, yet the formula fails on the horizontal first chord |
| `ClickState.LabelPosition` | circle_thingy.py:152-155 | the label position computed from the smaller coordinate plus half the separation is the average of the two end points |
| `ClickState.UnitFactor` | circle_thingy.py:109-110 | the micrometres-per-pixel factor times the pixel length is the declared length |
| `ClickState.LeftClick` | circle_thingy.py:86-118 | the state stays valid and the scale unchanged. The click is rejected, with nothing changed, exactly when the declared length is unset or zero. Otherwise a full buffer is emptied before the point is appended. Fewer than 3 points only buffers. On 3 points a formula failure is reported with its error, and otherwise the counter advances by one and its colour is used. A zero pixel length then fails, and any other pixel length gives a factor with factor times pixel length equal to the declared length |
| `ClickState.FitCircle` | circle_thingy.py:97-113 | the third point stores the triple. A formula failure keeps the counter. A success takes the counter's colour, advances the counter, and either fails on a zero pixel length or reports the circle and the unit factor |
| `ClickState.RightClick` | circle_thingy.py:120-167 | the state stays valid and the pending points and counter are unchanged. With 0 or 2 end points the scale restarts from the new point alone. With 1 end point the new one is appended. A cancelled dialog leaves both lengths unset. An answer L stores L, the pixel length abs(x1 - x2) and the label at the end points' average |
| `ClickState.MouseClick` | circle_thingy.py:193-199 | button 1 performs exactly a left click and button 3 exactly a right click. Any other button changes nothing. The state stays valid, and only a left click that takes a colour advances the counter |
| `ClickState.Run` | circle_thingy.py:193-199 | any sequence of clicks keeps the state valid (at most 3 pending points, at most 2 end points) and reports one outcome per click |
| `ClickState.ColorAtIsPeriodic` | circle_thingy.py:76-77 | the colour at counter k + 5 is the colour at k |
| `ClickState.MouseClickTakesAtMostOneColor` | circle_thingy.py:103-104 | one click hands out at most one colour, the one the counter stands at, and advances the counter by the number of colours handed out |
| `ClickState.ColorsCycle` | circle_thingy.py:103-104 | over any click sequence the counter advances once per colour handed out, and the colours are the palette read cyclically from the starting counter |
| `ClickState.SixthColorRepeatsFirst` | circle_thingy.py:77-104 | from start-up every colour handed out repeats five colours later, and the sixth colour handed out is the first one, yellow. Colours handed out are not the same as circles drawn: a zero pixel length uses one up (line 104) and then fails at line 109 before the circle is added |
| `ClickState.UnsetScaleRejectsLeftClicks` | circle_thingy.py:86-90 | while the declared length is unset or zero, any clicks with no right click leave the state unchanged. Each left click is rejected and every other button is ignored |
| `ClickState.CancelledDialogLeavesScaleUnset` | circle_thingy.py:137-143 | a cancelled dialog keeps both end points with no length, so left clicks stay rejected. The next right click restarts the scale from its own point |
| `ClickState.PixelLengthIgnoresY` | circle_thingy.py:145-150 | the stored pixel length is abs(x1 - x2) whatever the y coordinates of the end points |
| `ClickState.LeftClickBuffers` | circle_thingy.py:94-96 | with a set scale and fewer than 2 pending points, a left click only appends the point |
| `ClickState.LeftClickCompletesTriple` | circle_thingy.py:97-113 | with a set, non-zero scale and 2 pending points, a click whose triple the formula accepts draws that circle in the counter's colour, advances the counter and reports the declared length over the pixel length |
| `CircleThingy.GlobalHandler.constructor` | circle_thingy.py:60-77 | a new handler is valid, with no scale, no pending points and the counter at 0 |
| `CircleThingy.GlobalHandler.OnLeftClick` | circle_thingy.py:86-118 | updating the fields in place reaches exactly the state and outcome of `LeftClick` and keeps the invariant |
| `CircleThingy.GlobalHandler.OnRightClick` | circle_thingy.py:120-167 | updating the fields in place reaches exactly the state and outcome of `RightClick` and keeps the invariant |
| `CircleThingy.OnMouseClick` | circle_thingy.py:193-199 | forwarding to the handler methods reaches exactly the state and outcome of `MouseClick` |

## Left out

- Rendering is not modelled. This covers the markers, circle patches, text
  labels, the scale line, removing the old scale artists, `redraw`, the axis
  limits, the cursor, and the formatting of the labels' numbers. Outcomes
  report what would be drawn.
- The Tk dialog (`ScaleDialog`, its `validate` and the float parsing) is not
  modelled. The dialog's answer is an `Option<real>` input. The error boxes
  and message boxes are not modelled either.
- LeftClick: reports the squared radius and the unit factor, not the printed
  value radius × factor. The source takes a floating-point square root at
  circle_thingy.py:184 and real arithmetic has none.
- Floating-point rounding of IEEE doubles is not modelled. Coordinates and
  lengths are exact reals.
- Exceptions are not modelled as exceptions. A ZeroDivisionError escaping a
  handler is modelled as that handler's failing outcome, with the state as
  the source leaves it. The traceback it prints is not modelled.
- Clicks outside the axes, where matplotlib passes `None` coordinates, are
  not modelled. Coordinates are always numbers.
- Image loading, the image flip, the command-line argument, binding the
  callbacks and `on_close` are not modelled. They are input/output and
  event-loop plumbing.
- The fields `self.circles` (never appended to) and `self.scale_units`
  (never read) are not modelled. Neither is `self.fig`, which only `redraw` uses
  for rendering.
