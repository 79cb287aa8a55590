/**
 * `_convert_to_svg` as a whole: derive the SVG path, parse the lines,
 * give up quietly when there are no texture vertices, otherwise lay out
 * the canvas and emit the polygons. The file system is not modelled: the
 * lines of the OBJ file come in and the document to write comes out.
 */
module Converter {
  import opened Wrappers
  import opened PyText
  import opened ObjParse
  import opened ObjParseFacts
  import opened Layout
  import opened SvgEmit
  import opened SvgEmitFacts

  /** The SVG document: its canvas size and its polygons. */
  datatype SvgDoc = SvgDoc(width: real, height: real, polygons: seq<seq<Point>>)

  /** How a conversion ends: no texture vertices (nothing written), an
      exception while parsing (nothing written), or a document for a path. */
  datatype Outcome =
    | NoTextureCoordinates
    | Failed(error: ParseError)
    | Exported(path: string, doc: SvgDoc)

  /** `path.rsplit('.', 1)[0] + suffix`: the path up to its last `.`, then
      the suffix; the whole path, then the suffix, when it has no `.`. */
  function ReplaceExtension(path: string, suffix: string): (r: string)
    ensures '.' !in path ==> r == path + suffix
    ensures '.' in path ==>
      var k := |r| - |suffix|;
      0 <= k < |path| && path[k] == '.' && '.' !in path[k + 1..] && r == path[..k] + suffix
  {
    BeforeLast(path, '.') + suffix
  }

  /** Where the SVG of an OBJ file is written. */
  function SvgPath(objFile: string): string {
    ReplaceExtension(objFile, ".svg")
  }

  /** The default output path offered for an input model. */
  function FlattenedPath(input: string): string {
    ReplaceExtension(input, "_flattened.obj")
  }

  /** Only the last extension is replaced. */
  lemma BeforeLastOfExtension(stem: string, ext: string)
    requires '.' !in ext
    ensures BeforeLast(stem + "." + ext, '.') == stem
  {
    var s := stem + "." + ext;
    assert s[|stem|] == '.';
    assert s[..|stem|] == stem;
  }

  lemma SvgPathOfExtension(stem: string, ext: string)
    requires '.' !in ext
    ensures SvgPath(stem + "." + ext) == stem + ".svg"
  {
    BeforeLastOfExtension(stem, ext);
  }

  /** Replacing an extension on a path whose extension was just replaced by
      `mid.ext` cuts only `.ext`. */
  lemma ReplaceAfterReplace(path: string, mid: string, ext: string, suffix: string)
    requires '.' !in ext
    ensures ReplaceExtension(ReplaceExtension(path, mid + "." + ext), suffix) ==
      BeforeLast(path, '.') + mid + suffix
  {
    var head := BeforeLast(path, '.');
    var once := ReplaceExtension(path, mid + "." + ext);
    assert once == (head + mid) + "." + ext;
    BeforeLastOfExtension(head + mid, ext);
  }

  /** Deriving the SVG path twice changes nothing more. */
  lemma SvgPathIdempotent(objFile: string)
    ensures SvgPath(SvgPath(objFile)) == SvgPath(objFile)
  {
    assert ".svg" == "" + "." + "svg";
    ReplaceAfterReplace(objFile, "", "svg", ".svg");
    assert BeforeLast(objFile, '.') + "" == BeforeLast(objFile, '.');
  }

  /** The SVG of the default output sits next to it: `m.obj` gives
      `m_flattened.obj` and then `m_flattened.svg`. */
  lemma SvgPathOfFlattened(input: string)
    ensures SvgPath(FlattenedPath(input)) == BeforeLast(input, '.') + "_flattened.svg"
  {
    FlattenedSuffixes();
    ReplaceAfterReplace(input, "_flattened", "obj", ".svg");
  }

  lemma FlattenedSuffixes()
    ensures "_flattened.obj" == "_flattened" + "." + "obj"
    ensures "_flattened.svg" == "_flattened" + ".svg"
  {
  }

  /** The conversion: the result is decided by the parse, and an exported
      document has the canvas of the vertices' bounds, at most one polygon
      per face, and every point inside the padding. */
  method ConvertToSvg(objFile: string, lines: seq<string>, num: NumberParser) returns (out: Outcome)
    ensures out.Failed? <==> ParseLines(lines, num).Err?
    ensures out.Failed? ==> out.error == ParseLines(lines, num).error
    ensures out.NoTextureCoordinates? <==>
      ParseLines(lines, num).Ok? && ParseLines(lines, num).value.vertices == []
    ensures out.Exported? ==>
      var m := ParseLines(lines, num).value;
      |m.vertices| > 0 &&
      var b := BoundsOf(m.vertices);
      out.path == SvgPath(objFile) &&
      out.doc == SvgDoc(Width(b), Height(b), Polygons(m.faces, m.vertices, b))
    ensures out.Exported? <==>
      (forall i :: 0 <= i < |lines| ==> LineAccepted(lines[i], num)) && CountVt(lines) > 0
    ensures (forall i :: 0 <= i < |lines| ==> !IsVtLine(lines[i])) ==> !out.Exported?
    ensures out.Exported? ==>
      |out.doc.polygons| <= |ParseLines(lines, num).value.faces| &&
      forall p, q :: p in out.doc.polygons && q in p ==>
        Padding <= q.x <= out.doc.width - Padding && Padding <= q.y <= out.doc.height - Padding
  {
    var svgFile := SvgPath(objFile);
    var parsed := ParseObj(lines, num);
    if forall i :: 0 <= i < |lines| ==> !IsVtLine(lines[i]) {
      NoVtCountsZero(lines);
    }
    if parsed.Err? {
      return Failed(parsed.error);
    }
    VertexCount(lines, num);
    var vertices, faces := parsed.value.vertices, parsed.value.faces;
    if vertices == [] {
      return NoTextureCoordinates;
    }
    var b := BoundsOf(vertices);
    var polygons := EmitPolygons(faces, vertices, b);
    PolygonsCount(faces, vertices, b);
    PolygonsInCanvas(faces, vertices);
    return Exported(svgFile, SvgDoc(Width(b), Height(b), polygons));
  }
}
