/**
 * The few Python string builtins the converter relies on, written out:
 * `str.startswith`, `str.split()` (runs of whitespace), `str.split('/')`
 * (a single separator, empty fields kept), `str.rsplit('.', 1)[0]`,
 * `int(s)` on a decimal literal and `str(n)` on an integer.
 */
module PyText {
  import opened Wrappers

  /** The characters Python's `str.split()` treats as whitespace. */
  predicate IsSpace(c: char) {
    c == ' ' || ('\t' <= c <= '\r') || ('\U{1C}' <= c <= '\U{1F}') ||
    c == '\U{85}' || c == '\U{A0}' || c == '\U{1680}' ||
    ('\U{2000}' <= c <= '\U{200A}') || c == '\U{2028}' || c == '\U{2029}' ||
    c == '\U{202F}' || c == '\U{205F}' || c == '\U{3000}'
  }

  predicate NoSpace(s: string) {
    forall i :: 0 <= i < |s| ==> !IsSpace(s[i])
  }

  predicate StartsWith(s: string, prefix: string) {
    |prefix| <= |s| && s[..|prefix|] == prefix
  }

  /** `sep.join(ws)` */
  function Join(ws: seq<string>, sep: string): string {
    if |ws| == 0 then ""
    else if |ws| == 1 then ws[0]
    else ws[0] + sep + Join(ws[1..], sep)
  }

  // ---------------------------------------------------------------------
  // str.split() with no argument

  /** Length of the leading run of non-whitespace characters. */
  function WordLen(s: string): (n: nat)
    ensures n <= |s|
    ensures NoSpace(s[..n])
    ensures n < |s| ==> IsSpace(s[n])
  {
    if s == [] || IsSpace(s[0]) then 0 else 1 + WordLen(s[1..])
  }

  /** `s.split()`: the maximal runs of non-whitespace characters, in order. */
  function Words(s: string): (ws: seq<string>)
    ensures forall k :: 0 <= k < |ws| ==> ws[k] != [] && NoSpace(ws[k])
    decreases |s|
  {
    if s == [] then []
    else if IsSpace(s[0]) then Words(s[1..])
    else
      var n := WordLen(s);
      [s[..n]] + Words(s[n..])
  }

  lemma {:induction false} WordLenOfWord(w: string, rest: string)
    requires NoSpace(w)
    requires rest == [] || IsSpace(rest[0])
    ensures WordLen(w + rest) == |w|
  {
    if w != [] {
      assert (w + rest)[1..] == w[1..] + rest;
      WordLenOfWord(w[1..], rest);
    } else {
      assert w + rest == rest;
    }
  }

  /** A word followed by a space splits off as the first field. */
  lemma WordsOfWordThenSpace(w: string, rest: string)
    requires w != [] && NoSpace(w)
    ensures Words(w + " " + rest) == [w] + Words(rest)
  {
    var tail := " " + rest;
    var s := w + tail;
    assert s == w + " " + rest;
    WordLenOfWord(w, tail);
    assert s[0] == w[0];
    assert !IsSpace(s[0]);
    assert s[..|w|] == w;
    assert s[|w|..] == tail;
    assert Words(s) == [w] + Words(tail);
    assert tail[1..] == rest;
    assert Words(tail) == Words(rest);
  }

  /** Splitting the space-joined words gives the words back. */
  lemma {:induction false} WordsOfJoin(ws: seq<string>)
    requires forall k :: 0 <= k < |ws| ==> ws[k] != [] && NoSpace(ws[k])
    ensures Words(Join(ws, " ")) == ws
  {
    if |ws| == 0 {
    } else if |ws| == 1 {
      WordLenOfWord(ws[0], "");
      assert ws[0] + "" == ws[0];
      assert ws[0][|ws[0]|..] == [];
    } else {
      WordsOfJoin(ws[1..]);
      WordsOfWordThenSpace(ws[0], Join(ws[1..], " "));
    }
  }

  // ---------------------------------------------------------------------
  // str.split(sep) with a one-character separator

  /** `s.split(sep)`: always at least one field; empty fields are kept. */
  function Split(s: string, sep: char): (fs: seq<string>)
    ensures |fs| >= 1
    ensures forall k :: 0 <= k < |fs| ==> sep !in fs[k]
  {
    if s == [] then [[]]
    else if s[0] == sep then [[]] + Split(s[1..], sep)
    else
      var r := Split(s[1..], sep);
      [[s[0]] + r[0]] + r[1..]
  }

  /** Joining the fields with the separator restores the string. */
  lemma {:induction false} JoinSplit(s: string, sep: char)
    ensures Join(Split(s, sep), [sep]) == s
  {
    if s != [] {
      JoinSplit(s[1..], sep);
      var r := Split(s[1..], sep);
      if s[0] == sep {
        assert Split(s, sep) == [[]] + r;
        assert ([[]] + r)[1..] == r;
      } else {
        var fs := Split(s, sep);
        assert fs[1..] == r[1..];
        if |r| == 1 {
        } else {
          assert Join(r, [sep]) == r[0] + [sep] + Join(r[1..], [sep]);
        }
      }
    }
  }

  lemma {:induction false} SplitOfFieldThenSep(f: string, sep: char, rest: string)
    requires sep !in f
    ensures Split(f + [sep] + rest, sep) == [f] + Split(rest, sep)
  {
    if f == [] {
      assert f + [sep] + rest == [sep] + rest;
      assert ([sep] + rest)[1..] == rest;
    } else {
      var s := f + [sep] + rest;
      assert s[1..] == f[1..] + [sep] + rest;
      SplitOfFieldThenSep(f[1..], sep, rest);
      assert [f[0]] + f[1..] == f;
    }
  }

  lemma {:induction false} SplitOfField(f: string, sep: char)
    requires sep !in f
    ensures Split(f, sep) == [f]
  {
    if f != [] {
      SplitOfField(f[1..], sep);
      assert [f[0]] + f[1..] == f;
    }
  }

  /** Splitting separator-free fields joined by the separator gives them back. */
  lemma {:induction false} SplitJoin(fs: seq<string>, sep: char)
    requires |fs| >= 1
    requires forall k :: 0 <= k < |fs| ==> sep !in fs[k]
    ensures Split(Join(fs, [sep]), sep) == fs
  {
    if |fs| == 1 {
      SplitOfField(fs[0], sep);
    } else {
      SplitJoin(fs[1..], sep);
      SplitOfFieldThenSep(fs[0], sep, Join(fs[1..], [sep]));
    }
  }

  // ---------------------------------------------------------------------
  // str.rsplit('.', 1)[0]

  /** Position of the last occurrence of `c` in `s`, if any. */
  function LastIndexOf(s: string, c: char): (k: Option<nat>)
    ensures k.None? <==> c !in s
    ensures k.Some? ==> k.value < |s| && s[k.value] == c && c !in s[k.value + 1..]
  {
    if s == [] then None
    else if s[|s| - 1] == c then Some(|s| - 1)
    else
      var k := LastIndexOf(s[..|s| - 1], c);
      assert s == s[..|s| - 1] + [s[|s| - 1]];
      if k.Some? then
        assert s[k.value + 1..] == s[..|s| - 1][k.value + 1..] + [s[|s| - 1]];
        k
      else k
  }

  /** `s.rsplit(c, 1)[0]`: everything before the last `c`, or all of `s`. */
  function BeforeLast(s: string, c: char): (r: string)
    ensures c !in s ==> r == s
    ensures c in s ==> |r| < |s| && s[|r|] == c && c !in s[|r| + 1..] && r == s[..|r|]
  {
    match LastIndexOf(s, c)
    case None => s
    case Some(k) => s[..k]
  }

  // ---------------------------------------------------------------------
  // int(s) for a base-10 literal, and str(n)

  predicate IsDigit(c: char) { '0' <= c <= '9' }

  function DigitValue(c: char): nat
    requires IsDigit(c)
  {
    (c as int) - ('0' as int)
  }

  function DigitChar(d: nat): (c: char)
    requires d < 10
    ensures IsDigit(c) && DigitValue(c) == d
  {
    (('0' as int) + d) as char
  }

  /** Digits with single underscores between them, as `int()` accepts. */
  predicate DigitsOrUnderscores(s: string) {
    forall i :: 0 <= i < |s| ==> IsDigit(s[i]) || s[i] == '_'
  }

  predicate IsDigitRun(s: string) {
    |s| > 0 && DigitsOrUnderscores(s) &&
    forall i :: 0 <= i < |s| && s[i] == '_' ==> 0 < i < |s| - 1 && IsDigit(s[i - 1]) && IsDigit(s[i + 1])
  }

  /** The decimal value of the digits of `s`, underscores skipped. */
  function DigitsValue(s: string): nat
    requires DigitsOrUnderscores(s)
  {
    if s == [] then 0
    else
      var last := s[|s| - 1];
      if last == '_' then DigitsValue(s[..|s| - 1])
      else DigitsValue(s[..|s| - 1]) * 10 + DigitValue(last)
  }

  /** `int(s)`: an optional sign and a digit run; anything else fails. */
  function ParseInt(s: string): Option<int> {
    if |s| > 0 && (s[0] == '+' || s[0] == '-') then
      if IsDigitRun(s[1..]) then
        var n: int := DigitsValue(s[1..]);
        Some(if s[0] == '-' then -n else n)
      else None
    else if IsDigitRun(s) then Some(DigitsValue(s))
    else None
  }

  /** The decimal digits of `n`, without leading zeros. */
  function NatDigits(n: nat): (s: string)
    ensures |s| > 0 && forall i :: 0 <= i < |s| ==> IsDigit(s[i])
    ensures |s| > 1 ==> s[0] != '0'
  {
    if n < 10 then [DigitChar(n)] else NatDigits(n / 10) + [DigitChar(n % 10)]
  }

  /** `str(n)` */
  function IntToString(n: int): string {
    if n < 0 then "-" + NatDigits(-n) else NatDigits(n)
  }

  lemma {:induction false} NatDigitsValue(n: nat)
    ensures DigitsValue(NatDigits(n)) == n
  {
    if n >= 10 {
      NatDigitsValue(n / 10);
      var s := NatDigits(n);
      assert s[..|s| - 1] == NatDigits(n / 10);
    }
  }

  /** `int(str(n)) == n`. */
  lemma ParseIntOfString(n: int)
    ensures ParseInt(IntToString(n)) == Some(n)
  {
    var m := if n < 0 then -n else n;
    NatDigitsValue(m);
    var d := NatDigits(m);
    assert IsDigitRun(d);
    if n < 0 {
      assert ("-" + d)[1..] == d;
    }
  }

  /** `str(n)` is made of digits and a leading minus sign only. */
  lemma IntToStringChars(n: int)
    ensures forall i :: 0 <= i < |IntToString(n)| ==> IsDigit(IntToString(n)[i]) || IntToString(n)[i] == '-'
  {
  }

  /** `str(n)` ends in a digit, so it never equals a command-line flag. */
  lemma IntToStringEndsInDigit(n: int)
    ensures var s := IntToString(n); |s| > 0 && IsDigit(s[|s| - 1])
  {
  }
}
