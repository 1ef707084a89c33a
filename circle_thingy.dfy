/**
 * The event handler object of the circle measuring tool, with the state the
 * source keeps in its fields, and the dispatcher bound to button presses.
 *
 * Each handler method changes the fields step by step as the source does and
 * is proved to leave exactly the state (and report exactly the outcome) of
 * the matching step function of ClickState, where the properties of the
 * steps are proved.
 */
module CircleThingy {
  import opened Wrappers
  import opened Geometry
  import opened ClickState

  class GlobalHandler {
    /** The scale record, one field per entry. */
    var endPoints: seq<Point>
    var lengthOfScaleInPx: Option<real>
    var lengthOfScaleInMuMeter: Option<real>
    /** The points picked for the circle under construction. */
    var currentCirclePoints: seq<Point>
    var colorIndex: nat
    var colors: seq<Color>

    /** The fields read as a ClickState handler value. */
    function State(): Handler
      reads this
    {
      Handler(Scale(endPoints, lengthOfScaleInPx, lengthOfScaleInMuMeter), currentCirclePoints, colorIndex)
    }

    ghost predicate Valid()
      reads this
    {
      State().Valid() && colors == Palette
    }

    /** No scale, no pending points, the counter at the first colour. */
    constructor ()
      ensures Valid() && State() == Initial
    {
      endPoints := [];
      lengthOfScaleInPx := None;
      lengthOfScaleInMuMeter := None;
      currentCirclePoints := [];
      colorIndex := 0;
      colors := [Yellow, Orange, Red, Violet, LightBlue];
    }

    /** Handles a left click at (x, y): performs ClickState.LeftClick. */
    method OnLeftClick(x: real, y: real) returns (outcome: LeftOutcome)
      requires Valid()
      modifies this
      ensures Valid()
      ensures (State(), outcome) == LeftClick(old(State()), Point(x, y))
    {
      if !Truthy(lengthOfScaleInMuMeter) {
        return ScaleNotSet;
      }
      if |currentCirclePoints| == 3 {
        currentCirclePoints := [];
      }
      currentCirclePoints := currentCirclePoints + [Point(x, y)];
      if |currentCirclePoints| != 3 {
        return PointBuffered;
      }
      var p := currentCirclePoints;
      var fit := CircleFromThreePoints(p[0].x, p[0].y, p[1].x, p[1].y, p[2].x, p[2].y);
      if fit.Failure? {
        return CircleFailed(fit.error);
      }
      var color := colors[colorIndex % |colors|];
      colorIndex := colorIndex + 1;
      if lengthOfScaleInPx.value == 0.0 {
        return ZeroPixelLength(color);
      }
      var factor := lengthOfScaleInMuMeter.value / lengthOfScaleInPx.value;
      return CircleDrawn(fit.value, color, factor);
    }

    /** Handles a right click at (x, y), with the answer the scale dialog
        would give: performs ClickState.RightClick. */
    method OnRightClick(x: real, y: real, dialog: Option<real>) returns (outcome: RightOutcome)
      requires Valid()
      modifies this
      ensures Valid()
      ensures (State(), outcome) == RightClick(old(State()), Point(x, y), dialog)
    {
      if |endPoints| == 2 {
        endPoints := [];
        lengthOfScaleInMuMeter := None;
        lengthOfScaleInPx := None;
      }
      endPoints := endPoints + [Point(x, y)];
      if |endPoints| != 2 {
        return EndpointStored;
      }
      if dialog.None? {
        return ScaleCancelled;
      }
      lengthOfScaleInMuMeter := dialog;
      var x1, x2 := endPoints[0].x, endPoints[1].x;
      var y1, y2 := endPoints[0].y, endPoints[1].y;
      var px := Abs(x1 - x2);
      lengthOfScaleInPx := Some(px);
      var midpointX := Min(x1, x2) + px / 2.0;
      var midpointY := Min(y1, y2) + Abs(y1 - y2) / 2.0;
      return ScaleSet(dialog.value, px, Point(midpointX, midpointY));
    }
  }

  /** The button-press callback: button 1 to the left-click handler, button 3
      to the right-click handler, any other button ignored. */
  method OnMouseClick(handler: GlobalHandler, button: int, x: real, y: real, dialog: Option<real>)
    returns (outcome: ClickOutcome)
    requires handler.Valid()
    modifies handler
    ensures handler.Valid()
    ensures (handler.State(), outcome) == MouseClick(old(handler.State()), Click(button, Point(x, y), dialog))
  {
    if button == 1 {
      var left := handler.OnLeftClick(x, y);
      outcome := Left(left);
    } else if button == 3 {
      var right := handler.OnRightClick(x, y, dialog);
      outcome := Right(right);
    } else {
      outcome := Ignored;
    }
  }
}
