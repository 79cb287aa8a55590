/**
 * Emission of the polygons: one `<polygon>` per face of three or more
 * indices that still has a corner after out-of-range indices are dropped.
 * A polygon is represented by its points; their `:.2f` text is not modelled.
 */
module SvgEmit {
  import opened Wrappers
  import opened ObjParse
  import opened Layout

  /** The indices of `face` that address one of `n` vertices, in face order. */
  function InRange(face: Face, n: nat): (r: seq<nat>)
    ensures forall k :: 0 <= k < |r| ==> r[k] < n
    ensures forall x :: x in r <==> x in face && 0 <= x < n
  {
    if face == [] then []
    else
      var k := |face| - 1;
      var r := InRange(face[..k], n);
      assert face == face[..k] + [face[k]];
      if 0 <= face[k] < n then r + [face[k]] else r
  }

  /** The points of a face, as the inner loop collects them. */
  function FacePoints(face: Face, vs: seq<Vertex>, b: Bounds): seq<Point> {
    if face == [] then []
    else
      var k := |face| - 1;
      var pts := FacePoints(face[..k], vs, b);
      if 0 <= face[k] < |vs| then pts + [Project(b, vs[face[k]])] else pts
  }

  /** The polygon emitted for one face, if any. */
  function FacePolygon(face: Face, vs: seq<Vertex>, b: Bounds): Option<seq<Point>> {
    if |face| < 3 then None
    else
      var pts := FacePoints(face, vs, b);
      if pts == [] then None else Some(pts)
  }

  /** The polygons of the document, in face order. */
  function Polygons(faces: seq<Face>, vs: seq<Vertex>, b: Bounds): seq<seq<Point>> {
    if faces == [] then []
    else
      var k := |faces| - 1;
      var ps := Polygons(faces[..k], vs, b);
      match FacePolygon(faces[k], vs, b)
      case None => ps
      case Some(p) => ps + [p]
  }

  /** The emission loop: skips short faces, drops out-of-range indices and
      emits a polygon whenever a point is left. */
  method EmitPolygons(faces: seq<Face>, vs: seq<Vertex>, b: Bounds) returns (polys: seq<seq<Point>>)
    ensures polys == Polygons(faces, vs, b)
  {
    polys := [];
    for i := 0 to |faces|
      invariant polys == Polygons(faces[..i], vs, b)
    {
      assert faces[..i + 1][..i] == faces[..i];
      var face := faces[i];
      if |face| >= 3 {
        var points: seq<Point> := [];
        for j := 0 to |face|
          invariant points == FacePoints(face[..j], vs, b)
        {
          assert face[..j + 1][..j] == face[..j];
          var idx := face[j];
          if 0 <= idx < |vs| {
            points := points + [Project(b, vs[idx])];
          }
        }
        assert face[..|face|] == face;
        if points != [] {
          polys := polys + [points];
        }
      }
    }
    assert faces[..|faces|] == faces;
  }
}

module SvgEmitFacts {
  import opened Wrappers
  import opened ObjParse
  import opened Layout
  import opened SvgEmit

  /** The points of a face are exactly the projections of its in-range
      indices, in face order: negative and too-large indices are dropped. */
  lemma {:induction false} FacePointsExact(face: Face, vs: seq<Vertex>, b: Bounds)
    ensures var pts, idx := FacePoints(face, vs, b), InRange(face, |vs|);
      |pts| == |idx| && forall j :: 0 <= j < |pts| ==> pts[j] == Project(b, vs[idx[j]])
  {
    if face != [] {
      FacePointsExact(face[..|face| - 1], vs, b);
    }
  }

  /** A face gives a polygon exactly when it has at least three indices and
      one of them addresses a vertex; the polygon is the face's points. */
  lemma FacePolygonCases(face: Face, vs: seq<Vertex>, b: Bounds)
    ensures FacePolygon(face, vs, b).Some? <==>
      |face| >= 3 && exists k :: 0 <= k < |face| && 0 <= face[k] < |vs|
    ensures FacePolygon(face, vs, b).Some? ==> FacePolygon(face, vs, b).value == FacePoints(face, vs, b)
  {
    FacePointsExact(face, vs, b);
    var idx := InRange(face, |vs|);
    if exists k :: 0 <= k < |face| && 0 <= face[k] < |vs| {
      var k :| 0 <= k < |face| && 0 <= face[k] < |vs|;
      assert face[k] in idx;
    }
    if idx != [] {
      assert idx[0] in face;
    }
  }

  /** The polygons of `fs + gs` are those of `fs` followed by those of `gs`. */
  lemma {:induction false} PolygonsAppend(fs: seq<Face>, gs: seq<Face>, vs: seq<Vertex>, b: Bounds)
    ensures Polygons(fs + gs, vs, b) == Polygons(fs, vs, b) + Polygons(gs, vs, b)
  {
    if gs == [] {
      assert fs + gs == fs;
    } else {
      var k := |gs| - 1;
      assert (fs + gs)[..|fs + gs| - 1] == fs + gs[..k];
      PolygonsAppend(fs, gs[..k], vs, b);
    }
  }

  /** A single face gives its polygon or nothing: never more than one. */
  lemma PolygonsOfOneFace(f: Face, vs: seq<Vertex>, b: Bounds)
    ensures Polygons([f], vs, b) == match FacePolygon(f, vs, b) case None => [] case Some(p) => [p]
  {
    assert [f][..0] == [];
  }

  /** At most one polygon per face. */
  lemma {:induction false} PolygonsCount(faces: seq<Face>, vs: seq<Vertex>, b: Bounds)
    ensures |Polygons(faces, vs, b)| <= |faces|
  {
    if faces != [] {
      PolygonsCount(faces[..|faces| - 1], vs, b);
    }
  }

  /** Every emitted polygon has at least one point, and each point is the
      projection of one of the vertices. */
  lemma {:induction false} PolygonPointsFromVertices(faces: seq<Face>, vs: seq<Vertex>, b: Bounds)
    ensures forall p :: p in Polygons(faces, vs, b) ==>
      p != [] && forall q :: q in p ==> exists i :: 0 <= i < |vs| && q == Project(b, vs[i])
  {
    if faces != [] {
      var k := |faces| - 1;
      PolygonPointsFromVertices(faces[..k], vs, b);
      var f := faces[k];
      if FacePolygon(f, vs, b).Some? {
        FacePolygonCases(f, vs, b);
        FacePointsExact(f, vs, b);
        var pts := FacePoints(f, vs, b);
        forall q | q in pts
          ensures exists i :: 0 <= i < |vs| && q == Project(b, vs[i])
        {
          var j :| 0 <= j < |pts| && pts[j] == q;
          var idx := InRange(f, |vs|);
          assert idx[j] < |vs|;
        }
      }
    }
  }

  /** With the bounds of the same vertices, every emitted point lies in the
      padded canvas: `10 <= x <= width - 10` and `10 <= y <= height - 10`. */
  lemma PolygonsInCanvas(faces: seq<Face>, vs: seq<Vertex>)
    requires |vs| > 0
    ensures var b := BoundsOf(vs);
      forall p, q :: p in Polygons(faces, vs, b) && q in p ==>
        Padding <= q.x <= Width(b) - Padding && Padding <= q.y <= Height(b) - Padding
  {
    var b := BoundsOf(vs);
    PolygonPointsFromVertices(faces, vs, b);
    forall p, q | p in Polygons(faces, vs, b) && q in p
      ensures Padding <= q.x <= Width(b) - Padding && Padding <= q.y <= Height(b) - Padding
    {
      var i :| 0 <= i < |vs| && q == Project(b, vs[i]);
      ProjectInCanvas(b, vs[i]);
    }
  }

  /** A face with fewer than three indices gives no polygon, whatever they are. */
  lemma ShortFaceSkipped(f: Face, vs: seq<Vertex>, b: Bounds)
    requires |f| < 3
    ensures Polygons([f], vs, b) == []
  {
    PolygonsOfOneFace(f, vs, b);
  }

  /** A face of three indices of which only one is in range still gives a
      polygon, of a single point. */
  lemma DegeneratePolygonEmitted()
    ensures var vs := [Vertex(0.0, 0.0)];
      Polygons([[0, 5, -1]], vs, BoundsOf(vs)) == [[Point(10.0, 10.0)]]
  {
    var vs := [Vertex(0.0, 0.0)];
    var b := BoundsOf(vs);
    assert b == Bounds(0.0, 0.0, 0.0, 0.0);
    var f := [0, 5, -1];
    assert f[..2] == [0, 5] && [0, 5][..1] == [0] && [0][..0] == [];
    assert FacePoints([0], vs, b) == [Point(10.0, 10.0)];
    assert FacePoints([0, 5], vs, b) == [Point(10.0, 10.0)];
    assert FacePoints(f, vs, b) == [Point(10.0, 10.0)];
    PolygonsOfOneFace(f, vs, b);
  }

  /** The unit square as one face of four corners gives one four-point polygon
      (whatever the bounds; `UnitSquareCanvas` gives them). */
  lemma UnitSquarePolygon(b: Bounds)
    ensures var vs := [Vertex(0.0, 0.0), Vertex(1.0, 0.0), Vertex(1.0, 1.0), Vertex(0.0, 1.0)];
      var ps := Polygons([[0, 1, 2, 3]], vs, b);
      |ps| == 1 && |ps[0]| == 4
  {
    var vs := [Vertex(0.0, 0.0), Vertex(1.0, 0.0), Vertex(1.0, 1.0), Vertex(0.0, 1.0)];
    var f := [0, 1, 2, 3];
    assert f[..3] == [0, 1, 2] && [0, 1, 2][..2] == [0, 1] && [0, 1][..1] == [0] && [0][..0] == [];
    assert |FacePoints([0], vs, b)| == 1;
    assert |FacePoints([0, 1], vs, b)| == 2;
    assert |FacePoints([0, 1, 2], vs, b)| == 3;
    assert |FacePoints(f, vs, b)| == 4;
    PolygonsOfOneFace(f, vs, b);
  }
}
