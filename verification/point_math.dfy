/**
 Points in the plane and the orientation of an ordered triple of points, the
 predicate every segment test in the geometry kernel is built on.
 */
module Points {

  datatype Point = Point(x: real, y: real)

  datatype Orientation = Colinear | Clockwise | CounterClockwise

  function Translate(p: Point, dx: real, dy: real): Point {
    Point(p.x + dx, p.y + dy)
  }

  /** The turn of (p, q, r): positive for a clockwise turn, negative for a counterclockwise one. */
  function TurnValue(p: Point, q: Point, r: Point): real {
    (q.y - p.y) * (r.x - q.x) - (q.x - p.x) * (r.y - q.y)
  }

  /** The same turn value, measured from p: minus the cross product of q - p and r - p. */
  lemma TurnValueFromFirstPoint(p: Point, q: Point, r: Point)
    ensures TurnValue(p, q, r) == (q.y - p.y) * (r.x - p.x) - (q.x - p.x) * (r.y - p.y)
  {
    var ux, uy := q.x - p.x, q.y - p.y;
    assert r.x - q.x == (r.x - p.x) - ux;
    assert r.y - q.y == (r.y - p.y) - uy;
    assert uy * ((r.x - p.x) - ux) == uy * (r.x - p.x) - uy * ux;
    assert ux * ((r.y - p.y) - uy) == ux * (r.y - p.y) - ux * uy;
  }

  /** The turn towards r of a segment leaving p with offset (dx, dy): the cross product of the offset with r - p, negated. */
  lemma TurnAlong(p: Point, dx: real, dy: real, r: Point)
    ensures TurnValue(p, Point(p.x + dx, p.y + dy), r) == dy * (r.x - p.x) - dx * (r.y - p.y)
  {
    TurnValueFromFirstPoint(p, Point(p.x + dx, p.y + dy), r);
  }

  function TripletOrientation(p: Point, q: Point, r: Point): (o: Orientation)
    ensures o == Colinear <==> TurnValue(p, q, r) == 0.0
    ensures o == Clockwise <==> TurnValue(p, q, r) > 0.0
    ensures o == CounterClockwise <==> TurnValue(p, q, r) < 0.0
  {
    var value := TurnValue(p, q, r);
    if value == 0.0 then Colinear
    else if value > 0.0 then Clockwise
    else CounterClockwise
  }

  function Reversed(o: Orientation): Orientation {
    match o
    case Colinear => Colinear
    case Clockwise => CounterClockwise
    case CounterClockwise => Clockwise
  }

  /** A triple with two coincident points never turns. */
  lemma CoincidentPointsAreColinear(p: Point, q: Point, r: Point)
    requires p == q || q == r || p == r
    ensures TripletOrientation(p, q, r) == Colinear
  {
    if p == q {
      assert q.y - p.y == 0.0 && q.x - p.x == 0.0;
    } else if q == r {
      assert r.x - q.x == 0.0 && r.y - q.y == 0.0;
    } else {
      TurnValueFromFirstPoint(p, q, r);
      assert r.x - p.x == 0.0 && r.y - p.y == 0.0;
    }
  }

  /** Moving all three points by the same offset does not change their orientation. */
  lemma OrientationTranslationInvariant(p: Point, q: Point, r: Point, dx: real, dy: real)
    ensures TripletOrientation(Translate(p, dx, dy), Translate(q, dx, dy), Translate(r, dx, dy))
         == TripletOrientation(p, q, r)
  {
    var p', q', r' := Translate(p, dx, dy), Translate(q, dx, dy), Translate(r, dx, dy);
    assert q'.y - p'.y == q.y - p.y && r'.x - q'.x == r.x - q.x;
    assert q'.x - p'.x == q.x - p.x && r'.y - q'.y == r.y - q.y;
  }

  lemma TurnValueSwap(p: Point, q: Point, r: Point)
    ensures TurnValue(p, r, q) == -TurnValue(p, q, r)
  {
    TurnValueFromFirstPoint(p, q, r);
    TurnValueFromFirstPoint(p, r, q);
  }

  lemma TurnValueCyclic(p: Point, q: Point, r: Point)
    ensures TurnValue(q, r, p) == TurnValue(p, q, r)
  {
    TurnValueFromFirstPoint(p, q, r);
    TurnValueFromFirstPoint(q, r, p);
    var ux, uy, wx, wy := q.x - p.x, q.y - p.y, r.x - p.x, r.y - p.y;
    assert r.y - q.y == wy - uy && p.x - q.x == -ux && r.x - q.x == wx - ux && p.y - q.y == -uy;
    assert (wy - uy) * (-ux) - (wx - ux) * (-uy) == uy * wx - ux * wy;
  }

  /** Exchanging the last two points turns a clockwise triple into a counterclockwise one. */
  lemma OrientationSwapReverses(p: Point, q: Point, r: Point)
    ensures TripletOrientation(p, r, q) == Reversed(TripletOrientation(p, q, r))
  {
    TurnValueSwap(p, q, r);
  }

  /** Rotating the triple does not change its orientation. */
  lemma OrientationCyclic(p: Point, q: Point, r: Point)
    ensures TripletOrientation(q, r, p) == TripletOrientation(p, q, r)
  {
    TurnValueCyclic(p, q, r);
  }
}
