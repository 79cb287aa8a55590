/**
 * Bounds of the texture vertices, the canvas size and the map from
 * texture space (u, v) to SVG user units (x, y). Coordinates are `real`:
 * the statements below are about exact arithmetic, not floating point.
 */
module Layout {
  import opened ObjParse

  const Padding: real := 10.0
  const Scale: real := 500.0

  datatype Bounds = Bounds(minU: real, maxU: real, minV: real, maxV: real)

  datatype Point = Point(x: real, y: real)

  /** Python's `min` over a non-empty sequence: the first element, replaced
      by every later element that is strictly smaller. */
  function Min(s: seq<real>): (m: real)
    requires |s| > 0
    ensures m in s
    ensures forall i :: 0 <= i < |s| ==> m <= s[i]
  {
    if |s| == 1 then s[0]
    else
      var m := Min(s[..|s| - 1]);
      assert forall i :: 0 <= i < |s| - 1 ==> s[..|s| - 1][i] == s[i];
      if s[|s| - 1] < m then s[|s| - 1] else m
  }

  /** Python's `max` over a non-empty sequence. */
  function Max(s: seq<real>): (m: real)
    requires |s| > 0
    ensures m in s
    ensures forall i :: 0 <= i < |s| ==> s[i] <= m
  {
    if |s| == 1 then s[0]
    else
      var m := Max(s[..|s| - 1]);
      assert forall i :: 0 <= i < |s| - 1 ==> s[..|s| - 1][i] == s[i];
      if s[|s| - 1] > m then s[|s| - 1] else m
  }

  function Us(vs: seq<Vertex>): (r: seq<real>)
    ensures |r| == |vs| && forall i :: 0 <= i < |vs| ==> r[i] == vs[i].u
  {
    seq(|vs|, i requires 0 <= i < |vs| => vs[i].u)
  }

  function Vs(vs: seq<Vertex>): (r: seq<real>)
    ensures |r| == |vs| && forall i :: 0 <= i < |vs| ==> r[i] == vs[i].v
  {
    seq(|vs|, i requires 0 <= i < |vs| => vs[i].v)
  }

  predicate InBounds(b: Bounds, p: Vertex) {
    b.minU <= p.u <= b.maxU && b.minV <= p.v <= b.maxV
  }

  /** The componentwise bounds of the vertices: every vertex lies inside
      them and each of the four bounds is reached by some vertex. */
  function BoundsOf(vs: seq<Vertex>): (b: Bounds)
    requires |vs| > 0
    ensures forall i :: 0 <= i < |vs| ==> InBounds(b, vs[i])
    ensures exists i :: 0 <= i < |vs| && vs[i].u == b.minU
    ensures exists i :: 0 <= i < |vs| && vs[i].u == b.maxU
    ensures exists i :: 0 <= i < |vs| && vs[i].v == b.minV
    ensures exists i :: 0 <= i < |vs| && vs[i].v == b.maxV
  {
    var us, ws := Us(vs), Vs(vs);
    Bounds(Min(us), Max(us), Min(ws), Max(ws))
  }

  /** Canvas width: the u extent scaled, plus padding on both sides. */
  function Width(b: Bounds): real {
    (b.maxU - b.minU) * Scale + 2.0 * Padding
  }

  /** Canvas height: the v extent scaled, plus padding on both sides. */
  function Height(b: Bounds): real {
    (b.maxV - b.minV) * Scale + 2.0 * Padding
  }

  /** The transform applied to every polygon corner; v is flipped so that
      larger v is higher up on the canvas. */
  function Project(b: Bounds, p: Vertex): Point {
    Point((p.u - b.minU) * Scale + Padding, (b.maxV - p.v) * Scale + Padding)
  }

  /** The inverse of `Project`, from canvas units back to texture space. */
  function Unproject(b: Bounds, q: Point): Vertex {
    Vertex((q.x - Padding) / Scale + b.minU, b.maxV - (q.y - Padding) / Scale)
  }

  /** `Project` and `Unproject` undo each other, so distinct vertices land
      on distinct points. */
  lemma ProjectRoundTrip(b: Bounds, p: Vertex, q: Point)
    ensures Unproject(b, Project(b, p)) == p
    ensures Project(b, Unproject(b, q)) == q
  {
  }

  /** A vertex inside the bounds lands inside the padded canvas. */
  lemma ProjectInCanvas(b: Bounds, p: Vertex)
    requires InBounds(b, p)
    ensures var q := Project(b, p);
      Padding <= q.x <= Width(b) - Padding && Padding <= q.y <= Height(b) - Padding
  {
  }

  /** The corners of the bounds go to the corners of the inner canvas, with
      the v axis flipped: `v = maxV` is the top edge `y = 10`. */
  lemma ProjectCorners(b: Bounds, u: real, v: real)
    ensures Project(b, Vertex(b.minU, v)).x == Padding
    ensures Project(b, Vertex(b.maxU, v)).x == Width(b) - Padding
    ensures Project(b, Vertex(u, b.maxV)).y == Padding
    ensures Project(b, Vertex(u, b.minV)).y == Height(b) - Padding
  {
  }

  /** x grows with u and y shrinks as v grows (the flip). */
  lemma ProjectOrder(b: Bounds, p: Vertex, p': Vertex)
    ensures p.u < p'.u <==> Project(b, p).x < Project(b, p').x
    ensures p.v < p'.v <==> Project(b, p).y > Project(b, p').y
  {
  }

  /** The bounds are ordered and the canvas is at least 20 by 20. */
  lemma CanvasSize(vs: seq<Vertex>)
    requires |vs| > 0
    ensures var b := BoundsOf(vs);
      b.minU <= b.maxU && b.minV <= b.maxV &&
      Width(b) >= 2.0 * Padding && Height(b) >= 2.0 * Padding
  {
    assert InBounds(BoundsOf(vs), vs[0]);
  }

  /** The unit square gives a 520 by 520 canvas. */
  lemma UnitSquareCanvas()
    ensures var b := BoundsOf([Vertex(0.0, 0.0), Vertex(1.0, 0.0), Vertex(1.0, 1.0), Vertex(0.0, 1.0)]);
      b == Bounds(0.0, 1.0, 0.0, 1.0) && Width(b) == 520.0 && Height(b) == 520.0
  {
    var vs := [Vertex(0.0, 0.0), Vertex(1.0, 0.0), Vertex(1.0, 1.0), Vertex(0.0, 1.0)];
    var b := BoundsOf(vs);
    assert InBounds(b, vs[0]) && InBounds(b, vs[2]);
  }
}
