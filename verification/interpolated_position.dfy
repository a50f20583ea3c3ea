/**
 A position drawn between fixed updates: each axis keeps its current and
 previous value, and is read at an interpolation parameter between them.
 */
module InterpolatedPositions {
  import opened GeneralMath

  datatype InterpolatedPosition = InterpolatedPosition(
    xCurrent: real,
    xPrevious: real,
    yCurrent: real,
    yPrevious: real)

  /** A position that has not moved: it reads the same at every parameter. */
  function New(x: real, y: real): (p: InterpolatedPosition)
    ensures forall t :: X(p, t) == x && Y(p, t) == y
  {
    InterpolatedPosition(x, x, y, y)
  }

  /** The x coordinate at parameter `t`: the previous value at 0, the current one at 1. */
  function X(p: InterpolatedPosition, t: real): (r: real)
    ensures r == Lerp(p.xPrevious, p.xCurrent, t)
  {
    t * (p.xCurrent - p.xPrevious) + p.xPrevious
  }

  function Y(p: InterpolatedPosition, t: real): (r: real)
    ensures r == Lerp(p.yPrevious, p.yCurrent, t)
  {
    t * (p.yCurrent - p.yPrevious) + p.yPrevious
  }

  /**
   A new x value: the motion continues from where the last one ended (at
   parameter 0 it reads what it read at 1 before), ends at the new value, and
   leaves y alone.
   */
  function SetX(p: InterpolatedPosition, value: real): (r: InterpolatedPosition)
    ensures X(r, 0.0) == X(p, 1.0) && X(r, 1.0) == value
    ensures forall t :: Y(r, t) == Y(p, t)
  {
    p.(xPrevious := p.xCurrent, xCurrent := value)
  }

  function SetY(p: InterpolatedPosition, value: real): (r: InterpolatedPosition)
    ensures Y(r, 0.0) == Y(p, 1.0) && Y(r, 1.0) == value
    ensures forall t :: X(r, t) == X(p, t)
  {
    p.(yPrevious := p.yCurrent, yCurrent := value)
  }

  function Set(p: InterpolatedPosition, x: real, y: real): (r: InterpolatedPosition)
    ensures X(r, 0.0) == X(p, 1.0) && X(r, 1.0) == x
    ensures Y(r, 0.0) == Y(p, 1.0) && Y(r, 1.0) == y
  {
    SetY(SetX(p, x), y)
  }

  /** Setting the two axes in either order gives the same position. */
  lemma SetOrderDoesNotMatter(p: InterpolatedPosition, x: real, y: real)
    ensures Set(p, x, y) == SetX(SetY(p, y), x)
  {
  }

  /** Between two frames the drawn position lies between the previous and the current one on each axis. */
  lemma DrawnBetweenFrames(p: InterpolatedPosition, t: real)
    requires 0.0 <= t <= 1.0
    ensures p.xPrevious <= p.xCurrent ==> p.xPrevious <= X(p, t) <= p.xCurrent
    ensures p.xCurrent <= p.xPrevious ==> p.xCurrent <= X(p, t) <= p.xPrevious
    ensures p.yPrevious <= p.yCurrent ==> p.yPrevious <= Y(p, t) <= p.yCurrent
    ensures p.yCurrent <= p.yPrevious ==> p.yCurrent <= Y(p, t) <= p.yPrevious
  {
    LerpStaysBetween(p.xPrevious, p.xCurrent, t);
    LerpStaysBetween(p.yPrevious, p.yCurrent, t);
  }
}
