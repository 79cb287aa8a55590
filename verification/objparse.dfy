/**
 * The OBJ line parser of the SVG export: `vt u v` lines give texture
 * vertices, `f c1 c2 ...` lines give faces as lists of 0-based texture
 * indices, every other line is ignored.
 *
 * Python's `float()` is not modelled character by character: the parser is
 * given `num`, which maps a token to its value or to `None` when `float()`
 * would raise.
 */
module ObjParse {
  import opened Wrappers
  import opened PyText

  datatype Vertex = Vertex(u: real, v: real)

  /** 0-based texture indices, in corner order; may be out of range. */
  type Face = seq<int>

  datatype Mesh = Mesh(vertices: seq<Vertex>, faces: seq<Face>)

  /** What `float()` makes of a token: its value, or `None` for a ValueError. */
  type NumberParser = string -> Option<real>

  /** The exception a line raises: `IndexError` on a short `vt` line,
      `ValueError` from `float()` or from `int()` on a corner. */
  datatype ErrorKind = MissingField | BadNumber | BadIndex

  /** The failure of a whole parse: which exception, on which line (0-based). */
  datatype ParseError = ParseError(kind: ErrorKind, line: nat)

  predicate IsVtLine(line: string) { StartsWith(line, "vt ") }

  predicate IsFaceLine(line: string) { StartsWith(line, "f ") }

  /** What one face corner (`v`, `v/vt`, `v/vt/vn`, `v//vn`) contributes. */
  datatype Corner = Untextured | Textured(index: int) | Malformed

  function CornerOf(part: string): Corner {
    var fields := Split(part, '/');
    if |fields| >= 2 && fields[1] != [] then
      match ParseInt(fields[1])
      case None => Malformed
      case Some(n) => Textured(n - 1)
    else Untextured
  }

  /** The texture indices of a face's corners, or `None` if one corner's
      texture field is not an integer. */
  function FaceIndices(parts: seq<string>): Option<Face> {
    if parts == [] then Some([])
    else
      match FaceIndices(parts[..|parts| - 1])
      case None => None
      case Some(f) =>
        match CornerOf(parts[|parts| - 1])
        case Untextured => Some(f)
        case Textured(i) => Some(f + [i])
        case Malformed => None
  }

  /** The first field of a line that starts with a marker and a space is the marker. */
  lemma MarkerIsFirstWord(line: string, marker: string)
    requires marker != [] && NoSpace(marker)
    requires StartsWith(line, marker + " ")
    ensures |Words(line)| >= 1 && Words(line)[0] == marker
  {
    var rest := line[|marker| + 1..];
    assert line == marker + " " + rest;
    WordsOfWordThenSpace(marker, rest);
  }

  /** The corner descriptors of a face line: `line.strip().split()[1:]`. */
  function FaceParts(line: string): seq<string>
    requires IsFaceLine(line)
  {
    MarkerIsFirstWord(line, "f");
    Words(line)[1..]
  }

  /** Whether a line gets through the loop body without raising: a `vt `
      line needs two more fields that `float()` accepts, an `f ` line needs
      an integer in every non-empty texture field, any other line passes.
      This does not depend on the lines read before it. */
  predicate LineAccepted(line: string, num: NumberParser) {
    if IsVtLine(line) then
      var parts := Words(line);
      |parts| >= 3 && num(parts[1]).Some? && num(parts[2]).Some?
    else if IsFaceLine(line) then FaceIndices(FaceParts(line)).Some?
    else true
  }

  /** One iteration of the parse loop over the lines of the file. */
  function ParseLine(m: Mesh, line: string, num: NumberParser): (r: Result<Mesh, ErrorKind>)
    ensures r.Ok? <==> LineAccepted(line, num)
    ensures !IsVtLine(line) && !IsFaceLine(line) ==> r == Ok(m)
    ensures r.Ok? && IsVtLine(line) ==>
      |r.value.vertices| == |m.vertices| + 1 && r.value.vertices[..|m.vertices|] == m.vertices &&
      r.value.faces == m.faces
    ensures r.Ok? && !IsVtLine(line) ==> r.value.vertices == m.vertices
    ensures r.Ok? ==>
      r.value.faces == m.faces ||
      (IsFaceLine(line) && |r.value.faces| == |m.faces| + 1 &&
       r.value.faces[..|m.faces|] == m.faces && r.value.faces[|m.faces|] != [])
  {
    if IsVtLine(line) then
      var parts := Words(line);
      if |parts| < 2 then Err(MissingField)
      else match num(parts[1])
        case None => Err(BadNumber)
        case Some(u) =>
          if |parts| < 3 then Err(MissingField)
          else match num(parts[2])
            case None => Err(BadNumber)
            case Some(v) => Ok(Mesh(m.vertices + [Vertex(u, v)], m.faces))
    else if IsFaceLine(line) then
      match FaceIndices(FaceParts(line))
      case None => Err(BadIndex)
      case Some(f) => Ok(if f == [] then m else Mesh(m.vertices, m.faces + [f]))
    else Ok(m)
  }

  const EmptyMesh := Mesh([], [])

  /** The whole loop: the mesh after all lines, or the first line that
      raised. The parse succeeds exactly when every line is accepted, and a
      failure names the first line that is not. */
  function ParseLines(lines: seq<string>, num: NumberParser): (r: Result<Mesh, ParseError>)
    ensures r.Ok? <==> forall i :: 0 <= i < |lines| ==> LineAccepted(lines[i], num)
    ensures r.Err? ==>
      r.error.line < |lines| && !LineAccepted(lines[r.error.line], num) &&
      forall i :: 0 <= i < r.error.line ==> LineAccepted(lines[i], num)
  {
    if lines == [] then Ok(EmptyMesh)
    else
      var k := |lines| - 1;
      assert forall i :: 0 <= i < k ==> lines[..k][i] == lines[i];
      match ParseLines(lines[..k], num)
      case Err(e) => Err(e)
      case Ok(m) =>
        match ParseLine(m, lines[k], num)
        case Err(kind) => Err(ParseError(kind, k))
        case Ok(m') => Ok(m')
  }

  /** An exception ends the face: later corners are not looked at. */
  lemma {:induction false} FaceErrorPersists(parts: seq<string>, j: nat)
    requires j <= |parts| && FaceIndices(parts[..j]).None?
    ensures FaceIndices(parts).None?
    decreases |parts| - j
  {
    if j < |parts| {
      assert parts[..j + 1][..j] == parts[..j];
      FaceErrorPersists(parts, j + 1);
    } else {
      assert parts[..j] == parts;
    }
  }

  /** An exception ends the parse: the lines after it are not looked at. */
  lemma {:induction false} ErrorPersists(lines: seq<string>, num: NumberParser, i: nat)
    requires i <= |lines| && ParseLines(lines[..i], num).Err?
    ensures ParseLines(lines, num) == ParseLines(lines[..i], num)
    decreases |lines| - i
  {
    if i < |lines| {
      assert lines[..i + 1][..i] == lines[..i];
      ErrorPersists(lines, num, i + 1);
    } else {
      assert lines[..i] == lines;
    }
  }

  lemma StopAt(lines: seq<string>, num: NumberParser, i: nat)
    requires i < |lines| && ParseLines(lines[..i], num).Ok?
    requires ParseLine(ParseLines(lines[..i], num).value, lines[i], num).Err?
    ensures ParseLines(lines, num) ==
      Err(ParseError(ParseLine(ParseLines(lines[..i], num).value, lines[i], num).error, i))
  {
    assert lines[..i + 1][..i] == lines[..i];
    ErrorPersists(lines, num, i + 1);
  }

  /** The corner loop of a face line: `face_verts` collects the texture
      index of each textured corner, and a corner whose texture field is
      not an integer raises. */
  method ParseCorners(parts: seq<string>) returns (r: Option<Face>)
    ensures r == FaceIndices(parts)
  {
    var faceVerts: Face := [];
    for j := 0 to |parts|
      invariant FaceIndices(parts[..j]) == Some(faceVerts)
    {
      assert parts[..j + 1][..j] == parts[..j];
      var indices := Split(parts[j], '/');
      if |indices| >= 2 && indices[1] != [] {
        var n := ParseInt(indices[1]);
        if n.None? {
          FaceErrorPersists(parts, j + 1);
          return None;
        }
        faceVerts := faceVerts + [n.value - 1];
      }
    }
    assert parts[..|parts|] == parts;
    return Some(faceVerts);
  }

  /** The parse loop as the source runs it: `vertices` and `faces` are
      appended to line by line and the first exception ends the parse. */
  method ParseObj(lines: seq<string>, num: NumberParser) returns (r: Result<Mesh, ParseError>)
    ensures r == ParseLines(lines, num)
  {
    var vertices: seq<Vertex> := [];
    var faces: seq<Face> := [];
    var i := 0;
    while i < |lines|
      invariant 0 <= i <= |lines|
      invariant ParseLines(lines[..i], num) == Ok(Mesh(vertices, faces))
    {
      var line := lines[i];
      assert lines[..i + 1][..i] == lines[..i];
      if IsVtLine(line) {
        var parts := Words(line);
        if |parts| < 2 {
          StopAt(lines, num, i);
          return Err(ParseError(MissingField, i));
        }
        var u := num(parts[1]);
        if u.None? {
          StopAt(lines, num, i);
          return Err(ParseError(BadNumber, i));
        }
        if |parts| < 3 {
          StopAt(lines, num, i);
          return Err(ParseError(MissingField, i));
        }
        var v := num(parts[2]);
        if v.None? {
          StopAt(lines, num, i);
          return Err(ParseError(BadNumber, i));
        }
        vertices := vertices + [Vertex(u.value, v.value)];
      } else if IsFaceLine(line) {
        var faceVerts := ParseCorners(FaceParts(line));
        if faceVerts.None? {
          StopAt(lines, num, i);
          return Err(ParseError(BadIndex, i));
        }
        if faceVerts.value != [] {
          faces := faces + [faceVerts.value];
        }
      }
      i := i + 1;
    }
    assert lines[..i] == lines;
    return Ok(Mesh(vertices, faces));
  }
}

module ObjParseFacts {
  import opened Wrappers
  import opened PyText
  import opened ObjParse

  // ---------------------------------------------------------------------
  // Corners

  /** A corner `v/vt`, `v/vt/vn` (or with more fields) whose texture field
      is the 1-based index `t + 1` contributes the 0-based index `t`. */
  lemma TexturedCorner(fs: seq<string>, t: int)
    requires |fs| >= 2 && forall k :: 0 <= k < |fs| ==> '/' !in fs[k]
    requires fs[1] == IntToString(t + 1)
    ensures CornerOf(Join(fs, "/")) == Textured(t)
  {
    ParseIntOfString(t + 1);
    SplitJoin(fs, '/');
    assert "/" == ['/'];
  }

  /** A corner whose texture field is not empty and not an integer makes
      `int()` raise. */
  lemma MalformedCorner(fs: seq<string>)
    requires |fs| >= 2 && forall k :: 0 <= k < |fs| ==> '/' !in fs[k]
    requires fs[1] != "" && ParseInt(fs[1]).None?
    ensures CornerOf(Join(fs, "/")) == Malformed
  {
    SplitJoin(fs, '/');
    assert "/" == ['/'];
  }

  /** A corner with no `/` (a position index only) contributes nothing. */
  lemma UntexturedCorner(part: string)
    requires '/' !in part
    ensures CornerOf(part) == Untextured
  {
    SplitOfField(part, '/');
  }

  /** A corner `p//n` (position and normal, no texture) contributes nothing. */
  lemma {:induction false} EmptyTextureField(p: string, n: string)
    requires '/' !in p && '/' !in n
    ensures CornerOf(Join([p, "", n], "/")) == Untextured
  {
    SplitJoin([p, "", n], '/');
    assert "/" == ['/'];
  }

  /** The corners `5/3/2`, `5/3`, `5` and `5//2`. */
  lemma CornerExamples()
    ensures CornerOf("5/3/2") == Textured(2)
    ensures CornerOf("5/3") == Textured(2)
    ensures CornerOf("5") == Untextured
    ensures CornerOf("5//2") == Untextured
  {
    assert IntToString(3) == "3";
    TexturedCorner(["5", "3", "2"], 2);
    assert Join(["5", "3", "2"], "/") == "5/3/2";
    TexturedCorner(["5", "3"], 2);
    assert Join(["5", "3"], "/") == "5/3";
    UntexturedCorner("5");
    EmptyTextureField("5", "2");
    assert Join(["5", "", "2"], "/") == "5//2";
  }

  /** The corner `5/x/2` makes `int('x')` raise. */
  lemma MalformedCornerExample()
    ensures CornerOf("5/x/2") == Malformed
  {
    assert "x"[0] == 'x' && !IsDigit('x');
    MalformedCorner(["5", "x", "2"]);
    assert Join(["5", "x", "2"], "/") == "5/x/2";
  }

  /** A face fails exactly when one of its corners is malformed. */
  lemma {:induction false} FaceIndicesNone(parts: seq<string>)
    ensures FaceIndices(parts).None? <==> exists k :: 0 <= k < |parts| && CornerOf(parts[k]).Malformed?
  {
    if parts != [] {
      var k := |parts| - 1;
      FaceIndicesNone(parts[..k]);
      assert forall j :: 0 <= j < k ==> parts[..k][j] == parts[j];
      if FaceIndices(parts[..k]).None? {
        var j :| 0 <= j < k && CornerOf(parts[..k][j]).Malformed?;
        assert CornerOf(parts[j]).Malformed?;
      }
    }
  }

  /** Indices keep corner order: the corners of `ps + qs` give the indices
      of `ps` followed by those of `qs`, and a bad corner anywhere fails. */
  lemma {:induction false} FaceIndicesAppend(ps: seq<string>, qs: seq<string>)
    ensures FaceIndices(ps + qs) ==
      if FaceIndices(ps).Some? && FaceIndices(qs).Some? then Some(FaceIndices(ps).value + FaceIndices(qs).value)
      else None
  {
    if qs == [] {
      assert ps + qs == ps;
      if FaceIndices(ps).Some? {
        assert FaceIndices(ps).value + [] == FaceIndices(ps).value;
      }
    } else {
      var k := |qs| - 1;
      assert (ps + qs)[..|ps + qs| - 1] == ps + qs[..k];
      FaceIndicesAppend(ps, qs[..k]);
      assert qs[..k] + [qs[k]] == qs;
      assert [qs[k]][..0] == [];
      if FaceIndices(ps).Some? && FaceIndices(qs[..k]).Some? && CornerOf(qs[k]).Textured? {
        assert FaceIndices(ps).value + (FaceIndices(qs[..k]).value + [CornerOf(qs[k]).index])
            == FaceIndices(ps).value + FaceIndices(qs[..k]).value + [CornerOf(qs[k]).index];
      }
    }
  }

  /** Each corner contributes at most one index. */
  lemma {:induction false} FaceIndicesLength(ps: seq<string>)
    requires FaceIndices(ps).Some?
    ensures |FaceIndices(ps).value| <= |ps|
  {
    if ps != [] {
      FaceIndicesLength(ps[..|ps| - 1]);
    }
  }

  // ---------------------------------------------------------------------
  // Lines

  function CountVt(lines: seq<string>): nat {
    if lines == [] then 0
    else CountVt(lines[..|lines| - 1]) + (if IsVtLine(lines[|lines| - 1]) then 1 else 0)
  }

  /** One vertex per `vt` line. */
  lemma {:induction false} VertexCount(lines: seq<string>, num: NumberParser)
    requires ParseLines(lines, num).Ok?
    ensures |ParseLines(lines, num).value.vertices| == CountVt(lines)
  {
    if lines != [] {
      var k := |lines| - 1;
      VertexCount(lines[..k], num);
    }
  }

  /** A mesh with no `vt` lines has no vertices. */
  lemma NoVtLinesNoVertices(lines: seq<string>, num: NumberParser)
    requires ParseLines(lines, num).Ok?
    requires forall i :: 0 <= i < |lines| ==> !IsVtLine(lines[i])
    ensures ParseLines(lines, num).value.vertices == []
  {
    NoVtCountsZero(lines);
    VertexCount(lines, num);
  }

  lemma {:induction false} NoVtCountsZero(lines: seq<string>)
    requires forall i :: 0 <= i < |lines| ==> !IsVtLine(lines[i])
    ensures CountVt(lines) == 0
  {
    if lines != [] {
      NoVtCountsZero(lines[..|lines| - 1]);
    }
  }

  /** Every stored face has at least one index. */
  lemma {:induction false} FacesNonEmpty(lines: seq<string>, num: NumberParser)
    requires ParseLines(lines, num).Ok?
    ensures forall f :: f in ParseLines(lines, num).value.faces ==> f != []
  {
    if lines != [] {
      FacesNonEmpty(lines[..|lines| - 1], num);
    }
  }

  /** A successful parse passed every prefix of the file, and what each
      prefix produced is the start of what the whole file produced. */
  lemma {:induction false} PrefixParses(lines: seq<string>, num: NumberParser, i: nat)
    requires ParseLines(lines, num).Ok? && i <= |lines|
    ensures ParseLines(lines[..i], num).Ok?
    ensures var m, p := ParseLines(lines, num).value, ParseLines(lines[..i], num).value;
      |p.vertices| <= |m.vertices| && m.vertices[..|p.vertices|] == p.vertices &&
      |p.faces| <= |m.faces| && m.faces[..|p.faces|] == p.faces
    decreases |lines| - i
  {
    if i == |lines| {
      assert lines[..i] == lines;
    } else {
      var k := |lines| - 1;
      assert lines[..k][..i] == lines[..i];
      PrefixParses(lines[..k], num, i);
      var m, mk, p := ParseLines(lines, num).value, ParseLines(lines[..k], num).value, ParseLines(lines[..i], num).value;
      assert m.vertices[..|mk.vertices|] == mk.vertices;
      assert m.faces[..|mk.faces|] == mk.faces;
      assert m.vertices[..|p.vertices|] == mk.vertices[..|p.vertices|];
      assert m.faces[..|p.faces|] == mk.faces[..|p.faces|];
    }
  }

  /** A `vt ` line read after mesh `p` is accepted exactly when it has at
      least three fields and `float()` takes the second and the third; it
      then appends their vertex and keeps the faces. A missing field raises
      `IndexError` before a bad value raises `ValueError`. */
  lemma VtLineAccepted(p: Mesh, line: string, num: NumberParser)
    requires IsVtLine(line)
    ensures var parts := Words(line);
      ParseLine(p, line, num).Ok? <==> |parts| >= 3 && num(parts[1]).Some? && num(parts[2]).Some?
    ensures var parts := Words(line);
      ParseLine(p, line, num).Ok? ==>
      ParseLine(p, line, num).value == Mesh(p.vertices + [Vertex(num(parts[1]).value, num(parts[2]).value)], p.faces)
    ensures var parts := Words(line);
      ParseLine(p, line, num).Err? ==>
      ParseLine(p, line, num).error ==
        if |parts| < 2 || (num(parts[1]).Some? && |parts| < 3) then MissingField else BadNumber
  {
  }

  /** The `vt` line at index `i` gives vertex number `CountVt(lines[..i])`,
      built from its second and third fields. */
  lemma VtLineVertex(lines: seq<string>, num: NumberParser, i: nat)
    requires ParseLines(lines, num).Ok? && i < |lines| && IsVtLine(lines[i])
    ensures var parts := Words(lines[i]);
      |parts| >= 3 && num(parts[1]).Some? && num(parts[2]).Some? &&
      CountVt(lines[..i]) < |ParseLines(lines, num).value.vertices| &&
      ParseLines(lines, num).value.vertices[CountVt(lines[..i])] == Vertex(num(parts[1]).value, num(parts[2]).value)
  {
    PrefixParses(lines, num, i + 1);
    PrefixParses(lines, num, i);
    assert lines[..i + 1][..i] == lines[..i];
    var p := ParseLines(lines[..i], num).value;
    var q := ParseLines(lines[..i + 1], num).value;
    assert ParseLine(p, lines[i], num) == Ok(q);
    VtLineAccepted(p, lines[i], num);
    VertexCount(lines[..i], num);
    var parts := Words(lines[i]);
    var x := Vertex(num(parts[1]).value, num(parts[2]).value);
    var m := ParseLines(lines, num).value;
    assert q.vertices == p.vertices + [x];
    assert m.vertices[..|q.vertices|] == q.vertices;
    assert m.vertices[|p.vertices|] == q.vertices[|p.vertices|];
  }

  /** An `f ` line read after mesh `p` is accepted exactly when none of its
      corners is malformed, and otherwise raises `ValueError`. When accepted
      it adds its indices as one face if there is at least one. */
  lemma FaceLineAccepted(p: Mesh, line: string, num: NumberParser)
    requires IsFaceLine(line)
    ensures var parts := FaceParts(line);
      ParseLine(p, line, num).Ok? <==> forall k :: 0 <= k < |parts| ==> !CornerOf(parts[k]).Malformed?
    ensures ParseLine(p, line, num).Err? ==> ParseLine(p, line, num).error == BadIndex
    ensures ParseLine(p, line, num).Ok? ==>
      FaceIndices(FaceParts(line)).Some? &&
      var f := FaceIndices(FaceParts(line)).value;
      ParseLine(p, line, num).value == if f == [] then p else Mesh(p.vertices, p.faces + [f])
  {
    assert line[0] == line[..2][0] == 'f';
    assert !IsVtLine(line);
    FaceIndicesNone(FaceParts(line));
  }

  /** The face line at index `i`, when it has textured corners, gives the
      next face, with its indices in corner order. */
  lemma FaceLineFace(lines: seq<string>, num: NumberParser, i: nat)
    requires ParseLines(lines, num).Ok? && i < |lines| && IsFaceLine(lines[i])
    ensures FaceIndices(FaceParts(lines[i])).Some?
    ensures ParseLines(lines[..i], num).Ok?
    ensures var f, k := FaceIndices(FaceParts(lines[i])).value, |ParseLines(lines[..i], num).value.faces|;
      f != [] ==> k < |ParseLines(lines, num).value.faces| && ParseLines(lines, num).value.faces[k] == f
  {
    PrefixParses(lines, num, i + 1);
    PrefixParses(lines, num, i);
    assert lines[..i + 1][..i] == lines[..i];
    var p := ParseLines(lines[..i], num).value;
    var q := ParseLines(lines[..i + 1], num).value;
    assert ParseLine(p, lines[i], num) == Ok(q);
    FaceLineAccepted(p, lines[i], num);
    var f := FaceIndices(FaceParts(lines[i])).value;
    if f != [] {
      var m := ParseLines(lines, num).value;
      assert q.faces == p.faces + [f];
      assert m.faces[..|q.faces|] == q.faces;
      assert m.faces[|p.faces|] == q.faces[|p.faces|];
    }
  }

  /** A failed parse names the first line that raised: every line before it
      was accepted, and that line, read after them, raises that exception. */
  lemma {:induction false} ErrorLocated(lines: seq<string>, num: NumberParser)
    requires ParseLines(lines, num).Err?
    ensures var e := ParseLines(lines, num).error;
      e.line < |lines| && ParseLines(lines[..e.line], num).Ok? &&
      ParseLine(ParseLines(lines[..e.line], num).value, lines[e.line], num) == Err(e.kind)
  {
    var k := |lines| - 1;
    if ParseLines(lines[..k], num).Err? {
      ErrorLocated(lines[..k], num);
      var e := ParseLines(lines, num).error;
      assert lines[..k][..e.line] == lines[..e.line];
    }
  }

  // ---------------------------------------------------------------------
  // Whole files

  /** `vt a b` is a `vt ` line. */
  lemma VtMarker(a: string, b: string)
    ensures IsVtLine("vt " + a + " " + b)
  {
    assert ("vt " + a + " " + b)[..3] == "vt ";
  }

  /** The fields of `vt a b` are the marker and the two tokens. */
  lemma VtWords(a: string, b: string)
    requires a != [] && NoSpace(a) && b != [] && NoSpace(b)
    ensures Words("vt " + a + " " + b) == ["vt", a, b]
  {
    assert NoSpace("vt");
    WordsOfJoin(["vt", a, b]);
    assert ["vt", a, b][1..] == [a, b] && [a, b][1..] == [b];
    assert Join([a, b], " ") == a + " " + b;
    assert Join(["vt", a, b], " ") == "vt" + " " + (a + " " + b);
    assert "vt" + " " + (a + " " + b) == "vt " + a + " " + b;
  }

  /** The line `vt a b` appends the vertex `(float(a), float(b))`. */
  lemma VtTokensLine(p: Mesh, a: string, b: string, num: NumberParser)
    requires a != [] && NoSpace(a) && b != [] && NoSpace(b)
    requires num(a).Some? && num(b).Some?
    ensures ParseLine(p, "vt " + a + " " + b, num) ==
      Ok(Mesh(p.vertices + [Vertex(num(a).value, num(b).value)], p.faces))
  {
    VtMarker(a, b);
    VtWords(a, b);
  }

  /** The corners of `f c1 c2 ...`, joined by single spaces, are `c1, c2, ...`. */
  lemma FaceWords(line: string, corners: seq<string>)
    requires IsFaceLine(line) && line == Join(["f"] + corners, " ")
    requires forall k :: 0 <= k < |corners| ==> corners[k] != [] && NoSpace(corners[k])
    ensures FaceParts(line) == corners
  {
    var ws := ["f"] + corners;
    assert NoSpace("f");
    forall k | 0 <= k < |ws|
      ensures ws[k] != [] && NoSpace(ws[k])
    {
      if k > 0 {
        assert ws[k] == corners[k - 1];
      }
    }
    WordsOfJoin(ws);
  }

  /** Corners that are all textured give their indices, in order. */
  lemma {:induction false} FaceIndicesOfTextured(parts: seq<string>, idx: seq<int>)
    requires |parts| == |idx| && forall k :: 0 <= k < |parts| ==> CornerOf(parts[k]) == Textured(idx[k])
    ensures FaceIndices(parts) == Some(idx)
  {
    if parts != [] {
      var k := |parts| - 1;
      FaceIndicesOfTextured(parts[..k], idx[..k]);
      assert idx[..k] + [idx[k]] == idx;
    }
  }

  /** The corner `k/k` has the 0-based texture index `k - 1`. */
  lemma DiagonalCorner(k: int)
    ensures CornerOf(Join([IntToString(k), IntToString(k)], "/")) == Textured(k - 1)
  {
    IntToStringChars(k);
    TexturedCorner([IntToString(k), IntToString(k)], k - 1);
  }

  lemma UnitSquareCornerText()
    ensures "1/1" == Join([IntToString(1), IntToString(1)], "/")
    ensures "2/2" == Join([IntToString(2), IntToString(2)], "/")
    ensures "3/3" == Join([IntToString(3), IntToString(3)], "/")
    ensures "4/4" == Join([IntToString(4), IntToString(4)], "/")
  {
    assert IntToString(1) == "1" && IntToString(2) == "2";
    assert IntToString(3) == "3" && IntToString(4) == "4";
  }

  /** The corners `1/1 2/2 3/3 4/4` give the indices `[0, 1, 2, 3]`. */
  lemma UnitSquareCorners(parts: seq<string>)
    requires |parts| == 4 && parts[0] == "1/1" && parts[1] == "2/2" && parts[2] == "3/3" && parts[3] == "4/4"
    ensures FaceIndices(parts) == Some([0, 1, 2, 3])
  {
    UnitSquareCornerText();
    DiagonalCorner(1);
    DiagonalCorner(2);
    DiagonalCorner(3);
    DiagonalCorner(4);
    FaceIndicesOfTextured(parts, [0, 1, 2, 3]);
  }

  lemma UnitSquareFaceKind()
    ensures IsFaceLine("f 1/1 2/2 3/3 4/4") && !IsVtLine("f 1/1 2/2 3/3 4/4")
  {
    var line := "f 1/1 2/2 3/3 4/4";
    assert line[..2] == "f " && line[..3] == "f 1";
  }

  lemma UnitSquareFaceText()
    ensures "f 1/1 2/2 3/3 4/4" == Join(["f", "1/1", "2/2", "3/3", "4/4"], " ")
  {
    var ws := ["f", "1/1", "2/2", "3/3", "4/4"];
    assert ws[1..] == ["1/1", "2/2", "3/3", "4/4"] && ws[1..][1..] == ["2/2", "3/3", "4/4"];
    assert ws[1..][1..][1..] == ["3/3", "4/4"] && ws[1..][1..][1..][1..] == ["4/4"];
    assert Join(["3/3", "4/4"], " ") == "3/3 4/4";
    assert Join(["2/2", "3/3", "4/4"], " ") == "2/2 3/3 4/4";
    assert Join(["1/1", "2/2", "3/3", "4/4"], " ") == "1/1 2/2 3/3 4/4";
  }

  lemma UnitSquareCornerTokens()
    ensures var cs := ["1/1", "2/2", "3/3", "4/4"];
      forall k :: 0 <= k < |cs| ==> cs[k] != [] && NoSpace(cs[k])
  {
  }

  /** The face line of the unit square adds the face `[0, 1, 2, 3]`. */
  lemma UnitSquareFaceLine(p: Mesh, line: string, num: NumberParser)
    requires line == "f 1/1 2/2 3/3 4/4"
    ensures ParseLine(p, line, num) == Ok(Mesh(p.vertices, p.faces + [[0, 1, 2, 3]]))
  {
    UnitSquareFaceKind();
    UnitSquareFaceText();
    UnitSquareCornerTokens();
    var cs := ["1/1", "2/2", "3/3", "4/4"];
    assert ["f"] + cs == ["f", "1/1", "2/2", "3/3", "4/4"];
    FaceWords(line, cs);
    UnitSquareCorners(cs);
  }

  /** An accepted line extends the parse of the lines before it. */
  lemma ParseLinesStep(lines: seq<string>, k: nat, num: NumberParser, m: Mesh, m': Mesh)
    requires k < |lines| && ParseLines(lines[..k], num) == Ok(m) && ParseLine(m, lines[k], num) == Ok(m')
    ensures ParseLines(lines[..k + 1], num) == Ok(m')
  {
    assert lines[..k + 1][..k] == lines[..k];
  }

  /** A line `vt a b` of a file extends the parse of the lines before it. */
  lemma VtLineOfFile(lines: seq<string>, k: nat, a: string, b: string, num: NumberParser, m: Mesh)
    requires k < |lines| && lines[k] == "vt " + a + " " + b
    requires a != [] && NoSpace(a) && b != [] && NoSpace(b) && num(a).Some? && num(b).Some?
    requires ParseLines(lines[..k], num) == Ok(m)
    ensures ParseLines(lines[..k + 1], num) == Ok(Mesh(m.vertices + [Vertex(num(a).value, num(b).value)], m.faces))
  {
    VtTokensLine(m, a, b, num);
    ParseLinesStep(lines, k, num, m, Mesh(m.vertices + [Vertex(num(a).value, num(b).value)], m.faces));
  }

  lemma UnitSquareVtLines()
    ensures "vt 0 0" == "vt " + "0" + " " + "0" && "vt 1 0" == "vt " + "1" + " " + "0"
    ensures "vt 1 1" == "vt " + "1" + " " + "1" && "vt 0 1" == "vt " + "0" + " " + "1"
    ensures NoSpace("0") && NoSpace("1")
  {
  }

  /** The first two `vt` lines of the unit square give its bottom corners. */
  lemma UnitSquareBottomLines(lines: seq<string>, num: NumberParser)
    requires |lines| == 5 && lines[0] == "vt 0 0" && lines[1] == "vt 1 0"
    requires num("0") == Some(0.0) && num("1") == Some(1.0)
    ensures ParseLines(lines[..2], num).Ok?
    ensures var m := ParseLines(lines[..2], num).value;
      m.faces == [] && |m.vertices| == 2 && m.vertices[0] == Vertex(0.0, 0.0) && m.vertices[1] == Vertex(1.0, 0.0)
  {
    UnitSquareVtLines();
    assert lines[..0] == [];
    VtLineOfFile(lines, 0, "0", "0", num, EmptyMesh);
    var m1 := ParseLines(lines[..1], num).value;
    VtLineOfFile(lines, 1, "1", "0", num, m1);
  }

  /** The last two `vt` lines of the unit square give its top corners. */
  lemma UnitSquareTopLines(lines: seq<string>, num: NumberParser, m: Mesh)
    requires |lines| == 5 && lines[2] == "vt 1 1" && lines[3] == "vt 0 1"
    requires num("0") == Some(0.0) && num("1") == Some(1.0)
    requires ParseLines(lines[..2], num) == Ok(m)
    ensures ParseLines(lines[..4], num) == Ok(Mesh(m.vertices + [Vertex(1.0, 1.0)] + [Vertex(0.0, 1.0)], m.faces))
  {
    UnitSquareVtLines();
    VtLineOfFile(lines, 2, "1", "1", num, m);
    var m3 := ParseLines(lines[..3], num).value;
    VtLineOfFile(lines, 3, "0", "1", num, m3);
  }

  /** The unit square written as an OBJ file, four `vt` lines and the face
      `f 1/1 2/2 3/3 4/4`, parses to its four corners, in file order, and
      the one face `[0, 1, 2, 3]`. */
  lemma UnitSquareFile(lines: seq<string>, num: NumberParser)
    requires |lines| == 5 && lines[0] == "vt 0 0" && lines[1] == "vt 1 0" && lines[2] == "vt 1 1"
    requires lines[3] == "vt 0 1" && lines[4] == "f 1/1 2/2 3/3 4/4"
    requires num("0") == Some(0.0) && num("1") == Some(1.0)
    ensures ParseLines(lines, num).Ok?
    ensures var m := ParseLines(lines, num).value;
      m.faces == [[0, 1, 2, 3]] && |m.vertices| == 4 &&
      m.vertices[0] == Vertex(0.0, 0.0) && m.vertices[1] == Vertex(1.0, 0.0) &&
      m.vertices[2] == Vertex(1.0, 1.0) && m.vertices[3] == Vertex(0.0, 1.0)
  {
    UnitSquareBottomLines(lines, num);
    var m2 := ParseLines(lines[..2], num).value;
    UnitSquareTopLines(lines, num, m2);
    var m4 := ParseLines(lines[..4], num).value;
    assert m4.vertices == m2.vertices + [Vertex(1.0, 1.0)] + [Vertex(0.0, 1.0)];
    assert m4.vertices[0] == m2.vertices[0] && m4.vertices[1] == m2.vertices[1];
    assert m4.faces + [[0, 1, 2, 3]] == [[0, 1, 2, 3]];
    UnitSquareFaceLine(m4, lines[4], num);
    ParseLinesStep(lines, 4, num, m4, Mesh(m4.vertices, m4.faces + [[0, 1, 2, 3]]));
    assert lines[..5] == lines;
  }

  /** `vt 1.0 abc`, where `float('abc')` raises, fails on line 0 with
      `ValueError`, whatever `float('1.0')` gives. */
  lemma BadCoordinateFile(lines: seq<string>, num: NumberParser)
    requires lines == ["vt 1.0 abc"] && num("abc") == None
    ensures ParseLines(lines, num) == Err(ParseError(BadNumber, 0))
  {
    assert NoSpace("1.0") && NoSpace("abc");
    assert lines[0] == "vt " + "1.0" + " " + "abc";
    VtMarker("1.0", "abc");
    VtWords("1.0", "abc");
    assert lines[..0] == [];
  }

  lemma BadCornerText()
    ensures IsFaceLine("f 5/x/2") && !IsVtLine("f 5/x/2")
    ensures "f 5/x/2" == Join(["f"] + ["5/x/2"], " ") && NoSpace("5/x/2")
  {
    assert "f 5/x/2"[..2] == "f " && "f 5/x/2"[..3] == "f 5";
  }

  /** `f 5/x/2`, where `int('x')` raises, fails on line 0 with `ValueError`. */
  lemma BadCornerFile(lines: seq<string>, num: NumberParser)
    requires lines == ["f 5/x/2"]
    ensures ParseLines(lines, num) == Err(ParseError(BadIndex, 0))
  {
    var line := lines[0];
    BadCornerText();
    FaceWords(line, ["5/x/2"]);
    MalformedCornerExample();
    FaceLineAccepted(EmptyMesh, line, num);
    assert lines[..0] == [];
  }
}
