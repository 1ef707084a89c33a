/**
 * The click-handling state of the circle measuring tool as a value, and one
 * step function per event handler. The class in circle_thingy.dfy keeps the
 * same state in fields and its methods are proved to perform these steps.
 *
 * Two state machines share the handler:
 *  - the scale calibration, fed by right clicks: a reference segment of two
 *    end points and its declared length in micrometres (a dialog answer);
 *  - the pending circle points, fed by left clicks once the scale is set:
 *    every third point fits a circle, coloured from a cyclic palette.
 */
module ClickState {
  import opened Wrappers
  import opened Geometry

  datatype Color = Yellow | Orange | Red | Violet | LightBlue

  /** The fixed palette the circles are coloured from, in order. */
  const Palette: seq<Color> := [Yellow, Orange, Red, Violet, LightBlue]

  /** The colour handed out when the counter stands at `k`: the palette read cyclically. */
  function ColorAt(k: nat): Color {
    Palette[k % |Palette|]
  }

  /**
   * The scale record: up to two end points, the pixel length derived from
   * them and the declared length in micrometres (None until set).
   */
  datatype Scale = Scale(endPoints: seq<Point>, lengthInPx: Option<real>, lengthInMuMeter: Option<real>)
  {
    /**
     * Both lengths are stored together, only once two end points are, and
     * the pixel length is the horizontal separation of the end points.
     */
    predicate Valid() {
      && |endPoints| <= 2
      && (lengthInPx.Some? <==> lengthInMuMeter.Some?)
      && (lengthInPx.Some? ==>
            |endPoints| == 2 && lengthInPx.value == Abs(endPoints[0].x - endPoints[1].x))
    }
  }

  /** The whole handler state: the scale, the pending points and the colour counter. */
  datatype Handler = Handler(scale: Scale, currentCirclePoints: seq<Point>, colorIndex: nat)
  {
    predicate Valid() {
      scale.Valid() && |currentCirclePoints| <= 3
    }
  }

  /** The state right after start-up. */
  const Initial: Handler := Handler(Scale([], None, None), [], 0)

  /** One button press: the button number, the image position and the answer
      the operator would give to the scale dialog if it were shown. */
  datatype Click = Click(button: int, at: Point, dialog: Option<real>)

  datatype LeftOutcome =
    | ScaleNotSet                   // error notice; nothing changes
    | PointBuffered                 // point marked, fewer than three pending
    | CircleFailed(error: GeometryError)      // ZeroDivisionError in the circle formula
    | ZeroPixelLength(color: Color)           // ZeroDivisionError computing the unit factor
    | CircleDrawn(circle: Circle, color: Color, factor: real)
  {
    /** The outcomes on which the colour counter advanced. */
    predicate TookColor() {
      ZeroPixelLength? || CircleDrawn?
    }
  }

  datatype RightOutcome =
    | EndpointStored                // first end point of a new scale
    | ScaleCancelled                // second end point stored, dialog gave no value
    | ScaleSet(lengthInMuMeter: real, lengthInPx: real, labelAt: Point)

  datatype ClickOutcome = Left(left: LeftOutcome) | Right(right: RightOutcome) | Ignored

  /** Python truthiness of an optional float: None and 0.0 are false. */
  predicate Truthy(v: Option<real>) {
    v.Some? && v.value != 0.0
  }

  function Abs(r: real): real {
    if r < 0.0 then -r else r
  }

  function Min(a: real, b: real): real {
    if a <= b then a else b
  }

  /** Where the scale label goes, computed as the source does from the smaller
      coordinate plus half the separation; it is the average of the two. */
  function LabelPosition(p: Point, q: Point): (m: Point)
    ensures m.x == (p.x + q.x) / 2.0 && m.y == (p.y + q.y) / 2.0
  {
    Point(Min(p.x, q.x) + Abs(p.x - q.x) / 2.0, Min(p.y, q.y) + Abs(p.y - q.y) / 2.0)
  }

  /** Micrometres per pixel: the declared length over the pixel length. */
  function UnitFactor(lengthInMuMeter: real, lengthInPx: real): (f: real)
    requires lengthInPx != 0.0
    ensures f * lengthInPx == lengthInMuMeter
  {
    lengthInMuMeter / lengthInPx
  }

  /** The circle formula applied to three buffered points in order. */
  function FitTriple(ps: seq<Point>): Result<Circle, GeometryError>
    requires |ps| == 3
  {
    CircleFromThreePoints(ps[0].x, ps[0].y, ps[1].x, ps[1].y, ps[2].x, ps[2].y)
  }

  /**
   * A left click at `p`. Rejected unless the declared length is truthy.
   * Otherwise a full buffer is emptied first, `p` is appended, and on the
   * third point a circle is fitted (FitCircle).
   */
  function LeftClick(h: Handler, p: Point): (r: (Handler, LeftOutcome))
    requires h.Valid()
    ensures r.0.Valid()
    ensures r.0.scale == h.scale
    ensures r.1 == ScaleNotSet <==> !Truthy(h.scale.lengthInMuMeter)
    ensures r.1 == ScaleNotSet ==> r.0 == h
    ensures r.1 != ScaleNotSet ==>
              && |r.0.currentCirclePoints| >= 1
              && r.0.currentCirclePoints[|r.0.currentCirclePoints| - 1] == p
              && (|h.currentCirclePoints| == 3 ==> r.0.currentCirclePoints == [p])
              && (|h.currentCirclePoints| < 3 ==> r.0.currentCirclePoints == h.currentCirclePoints + [p])
    ensures r.1 == PointBuffered <==> Truthy(h.scale.lengthInMuMeter) && |r.0.currentCirclePoints| < 3
    ensures r.1.CircleFailed? ==>
              |r.0.currentCirclePoints| == 3 && FitTriple(r.0.currentCirclePoints) == Failure(r.1.error)
    ensures r.0.colorIndex == h.colorIndex + (if r.1.TookColor() then 1 else 0)
    ensures r.1.TookColor() ==>
              && |r.0.currentCirclePoints| == 3
              && FitTriple(r.0.currentCirclePoints).Success?
              && r.1.color == ColorAt(h.colorIndex)
    ensures r.1.ZeroPixelLength? <==> r.1.TookColor() && h.scale.lengthInPx == Some(0.0)
    ensures r.1.CircleDrawn? ==>
              && FitTriple(r.0.currentCirclePoints) == Success(r.1.circle)
              && h.scale.lengthInPx.Some? && h.scale.lengthInMuMeter.Some?
              && r.1.factor * h.scale.lengthInPx.value == h.scale.lengthInMuMeter.value
  {
    if !Truthy(h.scale.lengthInMuMeter) then (h, ScaleNotSet)
    else
      var pending := if |h.currentCirclePoints| == 3 then [] else h.currentCirclePoints;
      var points := pending + [p];
      if |points| != 3 then (h.(currentCirclePoints := points), PointBuffered)
      else FitCircle(h, points)
  }

  /**
   * The third point of a triple: a formula failure only stores the points;
   * otherwise the circle takes the counter's colour and the counter
   * advances, and only then is the unit factor divided out, which fails for
   * a zero pixel length.
   */
  function FitCircle(h: Handler, points: seq<Point>): (r: (Handler, LeftOutcome))
    requires h.Valid() && Truthy(h.scale.lengthInMuMeter) && |points| == 3
    ensures r.0 == h.(currentCirclePoints := points,
                      colorIndex := h.colorIndex + (if r.1.TookColor() then 1 else 0))
    ensures r.1.CircleFailed? || r.1.TookColor()
    ensures r.1.CircleFailed? <==> FitTriple(points).Failure?
    ensures r.1.CircleFailed? ==> FitTriple(points) == Failure(r.1.error)
    ensures r.1.TookColor() ==> r.1.color == ColorAt(h.colorIndex)
    ensures r.1.ZeroPixelLength? <==> r.1.TookColor() && h.scale.lengthInPx == Some(0.0)
    ensures r.1.CircleDrawn? ==>
              && FitTriple(points) == Success(r.1.circle)
              && h.scale.lengthInPx.Some?
              && r.1.factor * h.scale.lengthInPx.value == h.scale.lengthInMuMeter.value
  {
    match FitTriple(points)
    case Failure(e) => (h.(currentCirclePoints := points), CircleFailed(e))
    case Success(circle) =>
      var color := ColorAt(h.colorIndex);
      var next := h.(currentCirclePoints := points, colorIndex := h.colorIndex + 1);
      if h.scale.lengthInPx.value == 0.0 then (next, ZeroPixelLength(color))
      else
        (next, CircleDrawn(circle, color, UnitFactor(h.scale.lengthInMuMeter.value, h.scale.lengthInPx.value)))
  }

  /**
   * A right click at `p`. With two end points already stored the scale is
   * discarded first; `p` is appended; when that makes two end points the
   * dialog is consulted: no answer leaves both points with no length,
   * an answer L stores L and the horizontal separation of the points.
   */
  function RightClick(h: Handler, p: Point, dialog: Option<real>): (r: (Handler, RightOutcome))
    requires h.Valid()
    ensures r.0.Valid()
    ensures r.0.currentCirclePoints == h.currentCirclePoints && r.0.colorIndex == h.colorIndex
    ensures |h.scale.endPoints| != 1 ==> r.0.scale == Scale([p], None, None) && r.1 == EndpointStored
    ensures |h.scale.endPoints| == 1 ==> r.0.scale.endPoints == h.scale.endPoints + [p]
    ensures |h.scale.endPoints| == 1 && dialog.None? ==>
              r.0.scale.lengthInMuMeter == None && r.0.scale.lengthInPx == None && r.1 == ScaleCancelled
    ensures |h.scale.endPoints| == 1 && dialog.Some? ==>
              var first := h.scale.endPoints[0];
              && r.0.scale.lengthInMuMeter == dialog
              && r.0.scale.lengthInPx == Some(Abs(first.x - p.x))
              && r.1 == ScaleSet(dialog.value, Abs(first.x - p.x),
                                 Point((first.x + p.x) / 2.0, (first.y + p.y) / 2.0))
  {
    var scale := if |h.scale.endPoints| == 2 then Scale([], None, None) else h.scale;
    var endPoints := scale.endPoints + [p];
    if |endPoints| != 2 then (h.(scale := scale.(endPoints := endPoints)), EndpointStored)
    else if dialog.None? then (h.(scale := scale.(endPoints := endPoints)), ScaleCancelled)
    else
      var lengthInPx := Abs(endPoints[0].x - endPoints[1].x);
      var labelAt := LabelPosition(endPoints[0], endPoints[1]);
      (h.(scale := Scale(endPoints, Some(lengthInPx), dialog)), ScaleSet(dialog.value, lengthInPx, labelAt))
  }

  /** Button 1 goes to the left-click handler, button 3 to the right-click
      handler, and any other button is ignored. */
  function MouseClick(h: Handler, c: Click): (r: (Handler, ClickOutcome))
    requires h.Valid()
    ensures r.0.Valid()
    ensures c.button == 1 ==> r.1.Left? && r.0.scale == h.scale && r == (LeftClick(h, c.at).0, Left(LeftClick(h, c.at).1))
    ensures c.button == 3 ==>
              && r.1.Right?
              && r.0.currentCirclePoints == h.currentCirclePoints && r.0.colorIndex == h.colorIndex
              && r == (RightClick(h, c.at, c.dialog).0, Right(RightClick(h, c.at, c.dialog).1))
    ensures c.button != 1 && c.button != 3 ==> r == (h, Ignored)
    ensures r.0.colorIndex == h.colorIndex + (if r.1.Left? && r.1.left.TookColor() then 1 else 0)
    ensures r.1.Left? && r.1.left.TookColor() ==> r.1.left.color == ColorAt(h.colorIndex)
  {
    if c.button == 1 then
      var (next, outcome) := LeftClick(h, c.at);
      (next, Left(outcome))
    else if c.button == 3 then
      var (next, outcome) := RightClick(h, c.at, c.dialog);
      (next, Right(outcome))
    else (h, Ignored)
  }

  /** A sequence of clicks handled in arrival order, with their outcomes. */
  function Run(h: Handler, clicks: seq<Click>): (r: (Handler, seq<ClickOutcome>))
    requires h.Valid()
    ensures r.0.Valid()
    ensures |r.1| == |clicks|
    decreases |clicks|
  {
    if clicks == [] then (h, [])
    else
      var (next, outcome) := MouseClick(h, clicks[0]);
      var (last, outcomes) := Run(next, clicks[1..]);
      (last, [outcome] + outcomes)
  }

  /** The colour an outcome hands out, if any. */
  function ColorOf(o: ClickOutcome): seq<Color> {
    if o.Left? && o.left.TookColor() then [o.left.color] else []
  }

  /** The colours handed out, in order, by a sequence of outcomes. */
  function ColorsTaken(outcomes: seq<ClickOutcome>): seq<Color> {
    if outcomes == [] then [] else ColorOf(outcomes[0]) + ColorsTaken(outcomes[1..])
  }

  /** The colours repeat with the palette's length as period. */
  lemma ColorAtIsPeriodic(k: nat)
    ensures ColorAt(k + |Palette|) == ColorAt(k)
  {
    assert (k + 5) % 5 == k % 5;
  }

  /** `colors` is the palette read cyclically starting at position `start`. */
  predicate CyclicFrom(colors: seq<Color>, start: nat) {
    forall i :: 0 <= i < |colors| ==> colors[i] == ColorAt(start + i)
  }

  /**
   * Over any sequence of clicks the colour counter advances once per colour
   * handed out, and the colours are the palette read cyclically from the
   * counter's starting value.
   */
  lemma {:induction false} ColorsCycle(h: Handler, clicks: seq<Click>)
    requires h.Valid()
    ensures var (last, outcomes) := Run(h, clicks);
            var colors := ColorsTaken(outcomes);
            && last.colorIndex == h.colorIndex + |colors|
            && CyclicFrom(colors, h.colorIndex)
    decreases |clicks|
  {
    if clicks != [] {
      var (next, outcome) := MouseClick(h, clicks[0]);
      var (last, outcomes) := Run(next, clicks[1..]);
      ColorsCycle(next, clicks[1..]);
      MouseClickTakesAtMostOneColor(h, clicks[0]);
      assert Run(h, clicks) == (last, [outcome] + outcomes);
      assert ([outcome] + outcomes)[1..] == outcomes;
      assert ColorsTaken([outcome] + outcomes) == ColorOf(outcome) + ColorsTaken(outcomes);
      CyclicPrepend(h.colorIndex, next.colorIndex, ColorOf(outcome), ColorsTaken(outcomes));
    }
  }

  /** One click hands out at most one colour, the one at the counter, and
      advances the counter by the number of colours handed out. */
  lemma MouseClickTakesAtMostOneColor(h: Handler, c: Click)
    requires h.Valid()
    ensures var (next, o) := MouseClick(h, c);
            && |ColorOf(o)| <= 1
            && next.colorIndex == h.colorIndex + |ColorOf(o)|
            && (ColorOf(o) != [] ==> ColorOf(o)[0] == ColorAt(h.colorIndex))
  {
  }

  /** At most one colour taken at `start`, followed by colours cyclic from
      where the counter then stands, is cyclic from `start`. */
  lemma CyclicPrepend(start: nat, next: nat, mine: seq<Color>, colors: seq<Color>)
    requires |mine| <= 1 && (mine != [] ==> mine[0] == ColorAt(start))
    requires next == start + |mine| && CyclicFrom(colors, next)
    ensures CyclicFrom(mine + colors, start)
  {
    forall i | 0 <= i < |mine + colors|
      ensures (mine + colors)[i] == ColorAt(start + i)
    {
      if i >= |mine| {
        assert (mine + colors)[i] == colors[i - |mine|];
        assert next + (i - |mine|) == start + i;
      }
    }
  }

  /** From start-up, the sixth colour handed out is the first one again
      (and generally every colour repeats five colours later). */
  lemma SixthColorRepeatsFirst(clicks: seq<Click>)
    ensures var colors := ColorsTaken(Run(Initial, clicks).1);
            && (forall i :: 0 <= i < |colors| - 5 ==> colors[i + 5] == colors[i])
            && (|colors| >= 6 ==> colors[5] == colors[0] == Yellow)
  {
    ColorsCycle(Initial, clicks);
    var colors := ColorsTaken(Run(Initial, clicks).1);
    assert CyclicFrom(colors, 0);
    forall i | 0 <= i < |colors| - 5
      ensures colors[i + 5] == colors[i]
    {
      ColorAtIsPeriodic(i);
    }
  }

  /**
   * While the declared length is unset or zero, no sequence of clicks
   * without a right click changes anything: every left click is rejected
   * and every other button is ignored.
   */
  lemma {:induction false} UnsetScaleRejectsLeftClicks(h: Handler, clicks: seq<Click>)
    requires h.Valid() && !Truthy(h.scale.lengthInMuMeter)
    requires forall i :: 0 <= i < |clicks| ==> clicks[i].button != 3
    ensures Run(h, clicks).0 == h
    ensures forall i :: 0 <= i < |clicks| ==>
              Run(h, clicks).1[i] == if clicks[i].button == 1 then Left(ScaleNotSet) else Ignored
    decreases |clicks|
  {
    if clicks != [] {
      var (next, outcome) := MouseClick(h, clicks[0]);
      assert next == h;
      UnsetScaleRejectsLeftClicks(h, clicks[1..]);
      var (last, outcomes) := Run(h, clicks[1..]);
      assert Run(h, clicks) == (last, [outcome] + outcomes);
      forall i | 0 <= i < |clicks|
        ensures Run(h, clicks).1[i] == if clicks[i].button == 1 then Left(ScaleNotSet) else Ignored
      {
        if i > 0 {
          assert Run(h, clicks).1[i] == outcomes[i - 1];
          assert clicks[i] == clicks[1..][i - 1];
        }
      }
    }
  }

  /**
   * A cancelled dialog on the second end point leaves both end points
   * stored with no length, so the scale counts as unset and left clicks stay
   * rejected (UnsetScaleRejectsLeftClicks) until the next right click, which
   * starts a fresh scale from its own point.
   */
  lemma CancelledDialogLeavesScaleUnset(h: Handler, p: Point, q: Point, answer: Option<real>)
    requires h.Valid() && |h.scale.endPoints| == 1
    ensures RightClick(h, p, None).1 == ScaleCancelled
    ensures RightClick(h, p, None).0.scale == Scale(h.scale.endPoints + [p], None, None)
    ensures !Truthy(RightClick(h, p, None).0.scale.lengthInMuMeter)
    ensures RightClick(RightClick(h, p, None).0, q, answer).0.scale == Scale([q], None, None)
  {
  }

  /** The pixel length depends on the end points' x coordinates only. */
  lemma PixelLengthIgnoresY(h: Handler, x: real, y: real, y': real, answer: real)
    requires h.Valid() && |h.scale.endPoints| == 1
    ensures var first := h.scale.endPoints[0];
            var h' := h.(scale := h.scale.(endPoints := [Point(first.x, y')]));
            RightClick(h, Point(x, y), Some(answer)).0.scale.lengthInPx
              == RightClick(h', Point(x, y'), Some(answer)).0.scale.lengthInPx
              == Some(Abs(first.x - x))
  {
  }

  /** With a set scale, a left click on an empty or one-point buffer only buffers the point. */
  lemma LeftClickBuffers(h: Handler, p: Point)
    requires h.Valid() && Truthy(h.scale.lengthInMuMeter) && |h.currentCirclePoints| < 2
    ensures LeftClick(h, p) == (h.(currentCirclePoints := h.currentCirclePoints + [p]), PointBuffered)
  {
  }

  /** With a set, non-zero scale, a left click completing a triple that the
      formula accepts draws that circle in the counter's colour, advances the
      counter, and reports the declared length over the pixel length. */
  lemma LeftClickCompletesTriple(h: Handler, p: Point)
    requires h.Valid() && Truthy(h.scale.lengthInMuMeter) && |h.currentCirclePoints| == 2
    requires FitTriple(h.currentCirclePoints + [p]).Success?
    requires h.scale.lengthInPx.Some? && h.scale.lengthInPx.value != 0.0
    ensures LeftClick(h, p).0
            == h.(currentCirclePoints := h.currentCirclePoints + [p], colorIndex := h.colorIndex + 1)
    ensures LeftClick(h, p).1
            == CircleDrawn(FitTriple(h.currentCirclePoints + [p]).value, ColorAt(h.colorIndex),
                           h.scale.lengthInMuMeter.value / h.scale.lengthInPx.value)
  {
  }
}
