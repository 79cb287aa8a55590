/**
 * The argument list for the external flattening tool, built from the
 * options dictionary. A key missing from the dictionary takes its default:
 * `auto_cut` and `normalize` on, `cone_singularities` off, `num_cones` 8.
 */
module BffCommand {
  import opened Wrappers
  import opened PyText

  /** The options dictionary; `None` is a missing key. */
  datatype Options = Options(
    autoCut: Option<bool>,
    normalize: Option<bool>,
    coneSingularities: Option<bool>,
    numCones: Option<int>)

  /** `options.get(key, default)` */
  function Lookup<T>(entry: Option<T>, default: T): T {
    match entry
    case None => default
    case Some(x) => x
  }

  predicate AutoCutOn(o: Options) { Lookup(o.autoCut, true) }

  predicate NormalizeOn(o: Options) { Lookup(o.normalize, true) }

  predicate ConesOn(o: Options) { Lookup(o.coneSingularities, false) }

  function NumCones(o: Options): int { Lookup(o.numCones, 8) }

  /** The arguments after the three paths, as the method appends them. */
  ghost function OptionArgs(autoCut: bool, normalize: bool, cones: bool, count: string): seq<string> {
    (if autoCut then ["--autoCut"] else []) + (if normalize then ["--normalize"] else []) +
    (if cones then ["--nCones", count] else [])
  }

  /** The cone count as an argument: it reads back as the count and is
      none of the flags. */
  lemma CountArgument(n: int)
    ensures var s := IntToString(n);
      ParseInt(s) == Some(n) && s != "--autoCut" && s != "--normalize" && s != "--nCones"
  {
    var s := IntToString(n);
    ParseIntOfString(n);
    IntToStringEndsInDigit(n);
    assert !IsDigit('t') && !IsDigit('e') && !IsDigit('s');
  }

  /** Where each argument sits in `[exe, input, output] + OptionArgs(...)`. */
  lemma CommandLayout(exe: string, input: string, output: string,
                      autoCut: bool, normalize: bool, cones: bool, count: string)
    requires count != "--autoCut" && count != "--normalize" && count != "--nCones"
    ensures var cmd := [exe, input, output] + OptionArgs(autoCut, normalize, cones, count);
      |cmd| == 3 + (if autoCut then 1 else 0) + (if normalize then 1 else 0) + (if cones then 2 else 0) &&
      cmd[..3] == [exe, input, output] &&
      (autoCut <==> "--autoCut" in cmd[3..]) && (autoCut ==> cmd[3] == "--autoCut") &&
      (normalize <==> "--normalize" in cmd[3..]) &&
      (normalize ==> cmd[|cmd| - (if cones then 3 else 1)] == "--normalize") &&
      (cones <==> "--nCones" in cmd[3..]) && (cones ==> cmd[|cmd| - 2] == "--nCones" && cmd[|cmd| - 1] == count)
  {
    var a: seq<string> := if autoCut then ["--autoCut"] else [];
    var n: seq<string> := if normalize then ["--normalize"] else [];
    var c: seq<string> := if cones then ["--nCones", count] else [];
    var f := OptionArgs(autoCut, normalize, cones, count);
    assert f == a + n + c;
    assert "--autoCut" !in n + c;
    assert "--normalize" !in a + c;
    assert "--nCones" !in a + n;
    var cmd := [exe, input, output] + f;
    assert cmd[3..] == f;
    assert cmd[..3] == [exe, input, output];
  }

  /** The command: executable, input and output first, then `--autoCut`,
      then `--normalize`, then `--nCones` and the cone count, each only when
      its option is on, and nothing else. */
  method BuildCommand(exe: string, input: string, output: string, o: Options) returns (cmd: seq<string>)
    ensures |cmd| == 3 + (if AutoCutOn(o) then 1 else 0) + (if NormalizeOn(o) then 1 else 0)
                       + (if ConesOn(o) then 2 else 0)
    ensures cmd[..3] == [exe, input, output]
    ensures AutoCutOn(o) <==> "--autoCut" in cmd[3..]
    ensures AutoCutOn(o) ==> cmd[3] == "--autoCut"
    ensures NormalizeOn(o) <==> "--normalize" in cmd[3..]
    ensures NormalizeOn(o) ==> cmd[|cmd| - (if ConesOn(o) then 3 else 1)] == "--normalize"
    ensures ConesOn(o) <==> "--nCones" in cmd[3..]
    ensures ConesOn(o) ==> cmd[|cmd| - 2] == "--nCones" && cmd[|cmd| - 1] == IntToString(NumCones(o))
  {
    ghost var count := IntToString(NumCones(o));
    ghost var a: seq<string> := if AutoCutOn(o) then ["--autoCut"] else [];
    ghost var n: seq<string> := if NormalizeOn(o) then ["--normalize"] else [];
    ghost var c: seq<string> := if ConesOn(o) then ["--nCones", count] else [];
    cmd := [exe, input, output];
    if AutoCutOn(o) {
      cmd := cmd + ["--autoCut"];
    }
    assert cmd == [exe, input, output] + a;
    if NormalizeOn(o) {
      cmd := cmd + ["--normalize"];
    }
    assert cmd == [exe, input, output] + a + n;
    if ConesOn(o) {
      cmd := cmd + ["--nCones", IntToString(NumCones(o))];
    }
    assert cmd == [exe, input, output] + OptionArgs(AutoCutOn(o), NormalizeOn(o), ConesOn(o), count);
    CountArgument(NumCones(o));
    CommandLayout(exe, input, output, AutoCutOn(o), NormalizeOn(o), ConesOn(o), count);
  }

  /** The options the interface never changes give `--autoCut --normalize`. */
  lemma DefaultCommandFlags()
    ensures var o := Options(None, None, None, None);
      AutoCutOn(o) && NormalizeOn(o) && !ConesOn(o) && NumCones(o) == 8
  {
  }
}
