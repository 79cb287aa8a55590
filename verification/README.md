# BFF Fabric Flattener: OBJ-to-SVG export, modelled in Dafny

The flattener is a desktop front end for the Boundary First Flattening
command-line tool. After the tool has written a flattened OBJ mesh, the
front end turns the mesh's texture coordinates into an SVG cut pattern
(`BFFProcessor._convert_to_svg`). This project models that conversion. It
also models the argument list the front end builds for the tool.

The conversion is four stages over the lines of the OBJ file:

1. **Parse** (`ObjParse`). A `vt u v` line appends one texture vertex. An
   `f c1 c2 ...` line appends the 0-based texture indices of its corners,
   and only when at least one corner has a texture field. Every other line
   is ignored. `ParseObj` is the loop as the source writes it. `ParseLines`
   is the function that specifies it.
2. **Bounds** (`Layout`). `BoundsOf` computes the componentwise minimum and
   maximum. The canvas is the extent times 500, plus a padding of 10 on
   each side.
3. **Projection** (`Layout.Project`). It computes `x = (u - minU)*500 + 10`
   and `y = (maxV - v)*500 + 10`, so the v axis is flipped.
4. **Emission** (`SvgEmit`). Faces with fewer than three indices are
   skipped. Out-of-range indices are dropped one by one. A polygon is
   emitted whenever at least one point is left. `EmitPolygons` is the loop
   and `Polygons` is its specification.

`Converter.ConvertToSvg` chains the four stages. It gives one of three
results: a document for the derived `.svg` path, "no texture coordinates",
or the parse error that ended the conversion.

Python's own string builtins are written out in `PyText`:
- `str.split()`, `str.split('/')` and `str.rsplit('.', 1)[0]`;
- `int()` on a decimal literal (a sign, digits, single underscores between digits);
- `str()` of an integer.

`split`/`join` and `str`/`int` have round-trip lemmas that tie each to
its inverse. `startswith` and `rsplit` are characterized directly: the
marker lemmas say which lines start with `vt ` or `f `, and `LastIndexOf`
and `BeforeLast` say where the last `.` is. `float()` is not written
out: the parser receives `num`, a function that gives a token's value, or
`None` where `float()` raises. Coordinates are `real`.

Modules: `Wrappers` (Option, Result), `PyText`, `ObjParse`, `ObjParseFacts`,
`Layout`, `SvgEmit`, `SvgEmitFacts`, `Converter`, `BffCommand`.

Two behaviours of the code differ from what a reader of the conversion
might expect. The model follows the code:
- One might expect a face with fewer than three *valid* indices to be
  skipped. The code checks only the number of indices, before the
  out-of-range ones are dropped. So a face `[0, 5, -1]` over one vertex
  gives a one-point polygon (`SvgEmitFacts.DegeneratePolygonEmitted`).
- One might expect a file with no `vt` lines always to end with the message
  "No texture coordinates found in output". In the code, a face corner
  whose texture field is not an integer raises first, and the conversion
  ends as a failure instead. Either way no document is produced
  (`Converter.ConvertToSvg`).

## Model

| member | source | states |
|---|---|---|
| `ObjParse.ParseObj` | main.py:111-132 | the parse loop returns exactly `ParseLines`: the mesh after every line, or the first line's exception with its kind and line number |
| `ObjParse.ParseLines` | main.py:114-132 | the parse succeeds exactly when every line is accepted (`LineAccepted`); a failure names a line that is not accepted, after only accepted lines |
| `ObjParse.ParseCorners` | main.py:124-130 | the corner loop of a face line returns exactly `FaceIndices` of its corners: the 0-based texture indices in corner order, or the failure of `int()` on a texture field |
| `ObjParse.ParseLine` | main.py:115-132 | a line is accepted exactly when `LineAccepted` says so: a `vt ` line with at least three fields whose second and third parse, an `f ` line with no malformed corner, any other line; a line that is neither `vt ` nor `f ` changes nothing; a `vt ` line appends exactly one vertex and keeps the faces; any other line keeps the vertices; faces stay as they were or gain one non-empty face, and only on an `f ` line |
| `ObjParse.CornerOf` | main.py:127-130 | one corner's contribution; characterized by `TexturedCorner`, `MalformedCorner`, `UntexturedCorner`, `EmptyTextureField` and their examples |
| `ObjParse.FaceIndices` | main.py:124-131 | a face's indices; characterized by `FaceIndicesAppend` (corner order), `FaceIndicesLength` (at most one per corner), `FaceIndicesNone` (fails exactly on a malformed corner), `FaceIndicesOfTextured` |
| `ObjParse.FaceParts` | main.py:123 | the corner fields of a face line; characterized by `MarkerIsFirstWord` (drops exactly the marker) and `FaceWords` (gives back the joined corners) |
| `ObjParse.MarkerIsFirstWord` | main.py:118-123 | on a line starting with `vt ` or `f `, the first field of `split()` is the marker, so `parts[1]` is the first value and `[1:]` drops exactly the marker |
| `ObjParse.FaceErrorPersists` | main.py:125-130 | once a corner raises, the whole face raises, whatever corners follow |
| `ObjParse.ErrorPersists` | main.py:114-132 | once a line raises, the parse result is that error, whatever lines follow |
| `ObjParse.StopAt` | main.py:116-130 | a line that raises after an error-free prefix makes the whole parse fail with that exception at that line |
| `ObjParseFacts.TexturedCorner` | main.py:127-130 | a corner `v/vt` or `v/vt/vn` (any fields without `/`, at least two) whose texture field is `str(t+1)` contributes the 0-based index `t` |
| `ObjParseFacts.MalformedCorner` | main.py:127-129 | a corner whose texture field is non-empty and not an integer makes `int()` raise |
| `ObjParseFacts.UntexturedCorner` | main.py:127-128 | a corner without `/` (position only) contributes nothing |
| `ObjParseFacts.EmptyTextureField` | main.py:127-128 | a corner `p//n` with an empty texture field contributes nothing |
| `ObjParseFacts.CornerExamples` | main.py:125-130 | `5/3/2` and `5/3` give index 2; `5` and `5//2` give nothing |
| `ObjParseFacts.MalformedCornerExample` | main.py:127-129 | `5/x/2` raises in `int('x')` |
| `ObjParseFacts.FaceIndicesNone` | main.py:124-130 | a face raises if and only if one of its corners is malformed |
| `ObjParseFacts.FaceIndicesAppend` | main.py:123-130 | indices keep corner order: the corners of `ps + qs` give the indices of `ps` then those of `qs`, and a bad corner anywhere fails the face |
| `ObjParseFacts.FaceIndicesLength` | main.py:125-130 | each corner contributes at most one index |
| `ObjParseFacts.VertexCount` | main.py:116-120 | after a successful parse there is exactly one vertex per `vt ` line |
| `ObjParseFacts.NoVtLinesNoVertices` | main.py:116-120 | a file without `vt ` lines parses to no vertices |
| `ObjParseFacts.FacesNonEmpty` | main.py:131-132 | every stored face has at least one index |
| `ObjParseFacts.PrefixParses` | main.py:115-132 | a successful parse accepted every prefix of the file; each prefix's vertices and faces are prefixes of the final ones (lists only grow) |
| `ObjParseFacts.VtLineAccepted` | main.py:116-120 | a `vt ` line is accepted if and only if it has at least three fields and both values parse; then it appends exactly the vertex built from them; otherwise it raises `IndexError` for a missing field (checked in Python's evaluation order) or `ValueError` for a bad number |
| `ObjParseFacts.VtLineVertex` | main.py:116-120 | the `vt ` line at index i has at least three fields with parsable values, and gives vertex number `CountVt(lines[..i])`, built from its second and third fields (encounter order) |
| `ObjParseFacts.FaceLineAccepted` | main.py:121-132 | an `f ` line is accepted if and only if no corner is malformed, and otherwise raises `ValueError`; when accepted it adds its corner indices as one face if there is at least one, and otherwise leaves the faces unchanged |
| `ObjParseFacts.FaceLineFace` | main.py:121-132 | an `f ` line with textured corners gives the next face, equal to its corner indices in order |
| `ObjParseFacts.ErrorLocated` | main.py:116-130 | a failed parse names a line before which every line was accepted and which, read after them, raises the reported exception |
| `ObjParseFacts.VtMarker` | main.py:116 | every line `vt a b` passes `startswith('vt ')` |
| `ObjParseFacts.VtWords` | main.py:118 | `split()` of `vt a b` with non-empty tokens without whitespace is `['vt', a, b]` |
| `ObjParseFacts.VtTokensLine` | main.py:116-120 | a line `vt a b` with parsable tokens appends exactly the vertex `(float(a), float(b))` |
| `ObjParseFacts.FaceWords` | main.py:123 | `split()[1:]` of an `f ` line written as `'f ' + ' '.join(corners)` gives back the corners |
| `ObjParseFacts.FaceIndicesOfTextured` | main.py:124-131 | corners that are all textured give exactly their indices, in order |
| `ObjParseFacts.DiagonalCorner` | main.py:127-130 | the corner `k/k` contributes the 0-based index `k - 1` |
| `ObjParseFacts.UnitSquareCorners` | main.py:124-131 | the corners `1/1 2/2 3/3 4/4` give the indices `[0, 1, 2, 3]` |
| `ObjParseFacts.UnitSquareFaceLine` | main.py:121-132 | the line `f 1/1 2/2 3/3 4/4` adds the face `[0, 1, 2, 3]` and keeps the vertices |
| `ObjParseFacts.ParseLinesStep` | main.py:114-132 | an accepted line extends the result of the lines before it |
| `ObjParseFacts.VtLineOfFile` | main.py:114-120 | the `vt a b` line after a parsed prefix appends its vertex to that prefix's mesh |
| `ObjParseFacts.UnitSquareBottomLines` | main.py:114-120 | the lines `vt 0 0`, `vt 1 0` give the vertices (0, 0), (1, 0) and no faces |
| `ObjParseFacts.UnitSquareTopLines` | main.py:114-120 | the lines `vt 1 1`, `vt 0 1` after them append (1, 1) and (0, 1) |
| `ObjParseFacts.UnitSquareFile` | main.py:111-132 | the whole unit-square file (four `vt ` lines and `f 1/1 2/2 3/3 4/4`) parses to the vertices (0, 0), (1, 0), (1, 1), (0, 1) and the one face `[0, 1, 2, 3]` |
| `ObjParseFacts.BadCoordinateFile` | main.py:116-119 | the file `vt 1.0 abc` fails with `ValueError` at line 0 |
| `ObjParseFacts.BadCornerFile` | main.py:121-130 | the file `f 5/x/2` fails with `ValueError` at line 0 |
| `PyText.StartsWith` | main.py:116 | `startswith`; characterized by `MarkerIsFirstWord` and `VtMarker` |
| `PyText.WordLen` | main.py:118 | the leading run of non-whitespace stops at whitespace or at the end |
| `PyText.Words` | main.py:118 | `split()` gives non-empty fields without whitespace |
| `PyText.WordsOfWordThenSpace` | main.py:118 | a word followed by a space is split off as the first field |
| `PyText.WordsOfJoin` | main.py:118 | `' '.join(ws).split() == ws` for non-empty fields without whitespace |
| `PyText.Split` | main.py:127 | `split('/')` gives at least one field and no field contains `/` |
| `PyText.JoinSplit` | main.py:127 | `'/'.join(s.split('/')) == s` |
| `PyText.SplitJoin` | main.py:127 | `'/'.join(fs).split('/') == fs` for fields without `/` |
| `PyText.SplitOfField` | main.py:127 | a string without `/` splits into itself alone |
| `PyText.SplitOfFieldThenSep` | main.py:127 | a field followed by `/` is split off as the first field |
| `PyText.LastIndexOf` | main.py:108 | finds the last `.`: it is at the position found and not after it, and it is absent exactly when nothing is found |
| `PyText.BeforeLast` | main.py:108 | `rsplit('.', 1)[0]` is the prefix up to the last `.`, or the whole string when there is none |
| `PyText.ParseInt` | main.py:129 | `int()`; characterized by `ParseIntOfString` (inverse of `str()`) and `MalformedCornerExample` (a letter fails) |
| `PyText.IntToString` | main.py:74 | `str()`; characterized by `ParseIntOfString`, `IntToStringChars` and `IntToStringEndsInDigit` |
| `PyText.DigitChar` | main.py:74 | the digit character for a value below 10 is a digit with that value |
| `PyText.NatDigits` | main.py:74 | `str()` of a natural number is a non-empty string of digits with no leading zero |
| `PyText.NatDigitsValue` | main.py:74 | the digits of `str(n)` have the value n |
| `PyText.ParseIntOfString` | main.py:74 | `int(str(n)) == n` for every integer n |
| `PyText.IntToStringChars` | main.py:74 | `str(n)` holds only digits and a minus sign |
| `PyText.IntToStringEndsInDigit` | main.py:74 | `str(n)` ends in a digit, so it is never one of the tool's flags |
| `Layout.Min` | main.py:139 | `min` is an element of the sequence and no element is smaller |
| `Layout.Max` | main.py:140 | `max` is an element of the sequence and no element is larger |
| `Layout.BoundsOf` | main.py:139-142 | every vertex lies within the four bounds, and each bound is reached by some vertex |
| `Layout.Width` | main.py:147 | the canvas width; characterized by `CanvasSize`, `ProjectCorners` (the last column is `width-10`) and `UnitSquareCanvas` |
| `Layout.Height` | main.py:148 | the canvas height; characterized by `CanvasSize`, `ProjectCorners` (the last row is `height-10`) and `UnitSquareCanvas` |
| `Layout.Project` | main.py:164-165 | the point transform; characterized by `ProjectRoundTrip` (invertible), `ProjectInCanvas`, `ProjectCorners` and `ProjectOrder` |
| `Layout.ProjectRoundTrip` | main.py:164-165 | the projection is inverted by `Unproject` and the other way round |
| `Layout.ProjectInCanvas` | main.py:145-148 | a vertex within the bounds lands at `10 <= x <= width-10`, `10 <= y <= height-10` |
| `Layout.ProjectCorners` | main.py:164-165 | `u = minU` gives `x = 10`, `u = maxU` gives `x = width-10`, `v = maxV` gives `y = 10` (the flip), `v = minV` gives `y = height-10` |
| `Layout.ProjectOrder` | main.py:164-165 | x increases with u; y decreases as v increases |
| `Layout.CanvasSize` | main.py:145-148 | the bounds are ordered and the canvas is at least 20 by 20 |
| `Layout.UnitSquareCanvas` | main.py:139-148 | the unit square's bounds are 0..1 on both axes and its canvas is 520 by 520 |
| `SvgEmit.InRange` | main.py:161-162 | the kept indices are below the vertex count, and an index is kept exactly when it is in the face and in range |
| `SvgEmit.FacePoints` | main.py:160-166 | a face's points; characterized by `FacePointsExact` |
| `SvgEmit.FacePolygon` | main.py:158-168 | one face's polygon; characterized by `FacePolygonCases` and `ShortFaceSkipped` |
| `SvgEmit.Polygons` | main.py:157-170 | the polygons of all faces; characterized by `PolygonsAppend`, `PolygonsOfOneFace`, `PolygonsCount`, `PolygonPointsFromVertices` and `PolygonsInCanvas` |
| `SvgEmit.EmitPolygons` | main.py:157-170 | the emission loop returns exactly `Polygons` of the faces |
| `SvgEmitFacts.FacePointsExact` | main.py:160-166 | a face's points are the projections of its in-range indices, in face order; negative and too-large indices are dropped |
| `SvgEmitFacts.FacePolygonCases` | main.py:158-168 | a face gives a polygon if and only if it has at least three indices and one of them is in range; the polygon is the face's points |
| `SvgEmitFacts.PolygonsAppend` | main.py:157-170 | polygons keep face order: the polygons of `fs + gs` are those of `fs` then those of `gs` |
| `SvgEmitFacts.PolygonsOfOneFace` | main.py:157-170 | one face gives its polygon or nothing |
| `SvgEmitFacts.PolygonsCount` | main.py:157-170 | there are never more polygons than faces |
| `SvgEmitFacts.PolygonPointsFromVertices` | main.py:160-170 | every emitted polygon has at least one point, and each point is the projection of a vertex |
| `SvgEmitFacts.PolygonsInCanvas` | main.py:145-170 | with the bounds of the same vertices, every emitted point lies inside the padding |
| `SvgEmitFacts.ShortFaceSkipped` | main.py:158-159 | a face of fewer than three indices gives no polygon |
| `SvgEmitFacts.DegeneratePolygonEmitted` | main.py:158-170 | face `[0, 5, -1]` over a single vertex gives a polygon with the single point (10, 10) |
| `SvgEmitFacts.UnitSquarePolygon` | main.py:157-170 | the unit square as one four-corner face gives one polygon of four points |
| `Converter.ReplaceExtension` | main.py:108 | the path up to its last `.` then the new suffix, or the whole path then the suffix when it has no `.`; the SVG path (suffix `.svg`) and the default output path of main.py:348 (suffix `_flattened.obj`) are both this rule |
| `Converter.SvgPath` | main.py:108 | where the SVG is written; characterized by `ReplaceExtension`, `SvgPathOfExtension` and `SvgPathIdempotent` |
| `Converter.FlattenedPath` | main.py:348 | the default output path; characterized by `ReplaceExtension` and `SvgPathOfFlattened` |
| `Converter.BeforeLastOfExtension` | main.py:108 | only the last extension is cut: `stem.ext` without `.` in `ext` gives `stem` |
| `Converter.ReplaceAfterReplace` | main.py:108 | replacing the extension of a path whose extension was just replaced by `mid.ext` cuts only `.ext` |
| `Converter.SvgPathOfExtension` | main.py:108 | `stem.ext` maps to `stem.svg` |
| `Converter.SvgPathIdempotent` | main.py:108 | deriving the SVG path of an SVG path changes nothing |
| `Converter.SvgPathOfFlattened` | main.py:348 | the default output `m_flattened.obj` of `m.obj` gives `m_flattened.svg` |
| `Converter.ConvertToSvg` | main.py:104-181 | exports if and only if every line is accepted and there is at least one `vt ` line; never exports a file without `vt ` lines; fails exactly when the parse raises, with its error; gives "no texture coordinates" exactly when the parse has no vertices; otherwise exports to `SvgPath`, with the canvas of `BoundsOf`, the polygons of `Polygons`, at most one per face, and every point inside the padding |
| `BffCommand.AutoCutOn` | main.py:67 | `options.get('auto_cut', True)`; characterized by `DefaultCommandFlags` and `BuildCommand` |
| `BffCommand.NormalizeOn` | main.py:70 | `options.get('normalize', True)`; characterized by `DefaultCommandFlags` and `BuildCommand` |
| `BffCommand.ConesOn` | main.py:73 | `options.get('cone_singularities', False)`; characterized by `DefaultCommandFlags` and `BuildCommand` |
| `BffCommand.NumCones` | main.py:74 | `options.get('num_cones', 8)`; characterized by `DefaultCommandFlags` and `BuildCommand` |
| `BffCommand.BuildCommand` | main.py:64-74 | the command starts with executable, input and output; it has `--autoCut` (default on) and `--normalize` (default on) exactly when enabled, at the given positions, and `--nCones` followed by `str(num_cones)` (default 8) as the last two arguments exactly when cone singularities are enabled (default off); its length admits no other argument |
| `BffCommand.CountArgument` | main.py:74 | the cone-count argument `str(num_cones)` reads back as the count and is none of the flags |
| `BffCommand.CommandLayout` | main.py:64-74 | in the three paths followed by the enabled flags, each flag is present exactly when enabled, at its fixed position, and the count is last |
| `BffCommand.DefaultCommandFlags` | main.py:67-74 | an empty options dictionary means auto-cut and normalize on, cones off, 8 cones |

## Left out

- The Qt window, tabs, dialogs and log (main.py:184-433), and the `main` entry point. They are user interface.
- The background thread and its `progress`/`finished` signals. They are notification, not logic; the result of the conversion is returned instead.
- Running the tool with `subprocess.run` and handling its return code (main.py:79-97), and opening the output folder (main.py:419-426). These are foreign processes. The `export_svg` check that decides whether the conversion runs at all (main.py:90) sits in that control flow and is not modelled.
- `_find_bff_executable` (main.py:36-54). It looks at the file system and `PATH`; the executable is a parameter of `BuildCommand`.
- Reading the OBJ file and writing the SVG file. The input is the sequence of its lines, each with whatever line terminator the reader left on it, and the output is the returned document. I/O errors are not modelled.
- The SVG text: the XML header, the group element and the `:.2f` / `str(float)` rendering of numbers. A document is its canvas size and its polygons as sequences of points.
- `float()`. It is the parameter `num`; the model does not decide which tokens Python accepts. Infinities and NaN, which `float()` accepts and `min`/`max` handle in their own way, have no `real` counterpart.
- `PyText.ParseInt`: does not model the non-ASCII Unicode decimal digits that Python's `int()` also accepts. Such corners are treated as malformed.
- `BffCommand.BuildCommand`: options values are booleans and integers, as the interface supplies them. Python's truthiness of other values is not modelled.
- The progress messages and the blanket `except Exception` (main.py:180-181). Every exception the parse can raise is an explicit `ParseError`, naming the exception and the line it came from.
- `PyText.ParseInt`: does not model the limit of 4300 digits that Python places on `int()` of a string (`sys.set_int_max_str_digits`). A texture field longer than that raises in Python, while the model reads it as an index, which is then dropped as out of range.
- `PyText.IntToString`: does not model the same 4300-digit limit on `str()` of an integer. A cone count with more digits raises in Python, while the model builds the command.
- `Layout.ProjectInCanvas`: holds in exact arithmetic. Python computes with floats, and rounding can move a point slightly past `width-10` or `height-10`.
- `SvgEmitFacts.PolygonsInCanvas`: holds in exact arithmetic only, for the same reason as `Layout.ProjectInCanvas`.
