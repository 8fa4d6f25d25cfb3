/** String helpers standing in for the JavaScript built-ins the handlers
    call: `String.prototype.split` on one separator character, the
    whitespace trim done with `replace(/^\s+|\s+$/gm, '')`, line joining by
    `+= x + '\n'`, and `String(n)` for non-negative integers. */
module Text {

  /** The characters matched by the regular-expression class `\s`. */
  predicate IsSpace(c: char) {
    || c == ' ' || c == '\t' || c == '\n' || c == '\r'
    || c == '\U{000B}' || c == '\U{000C}' || c == '\U{00A0}' || c == '\U{1680}'
    || ('\U{2000}' <= c <= '\U{200A}')
    || c == '\U{2028}' || c == '\U{2029}' || c == '\U{202F}' || c == '\U{205F}'
    || c == '\U{3000}' || c == '\U{FEFF}'
  }

  predicate AllSpace(s: string) {
    forall i :: 0 <= i < |s| ==> IsSpace(s[i])
  }

  // ---------------------------------------------------------------------
  // split and its inverse

  /** `s.split(sep)`: the maximal separator-free pieces, in order;
      the empty string splits into one empty piece. */
  function Split(s: string, sep: char): (pieces: seq<string>)
    ensures |pieces| >= 1
  {
    if s == [] then [""]
    else
      var rest := Split(s[1..], sep);
      if s[0] == sep then [""] + rest
      else [[s[0]] + rest[0]] + rest[1..]
  }

  /** `pieces.join(sep)`. */
  function Join(pieces: seq<string>, sep: char): string
    requires |pieces| >= 1
  {
    if |pieces| == 1 then pieces[0]
    else pieces[0] + [sep] + Join(pieces[1..], sep)
  }

  ghost predicate NoneContains(pieces: seq<string>, c: char) {
    forall i :: 0 <= i < |pieces| ==> c !in pieces[i]
  }

  /** Splitting never yields a piece holding the separator, and joining
      the pieces back gives the original string. */
  lemma {:induction false} JoinSplit(s: string, sep: char)
    ensures NoneContains(Split(s, sep), sep)
    ensures Join(Split(s, sep), sep) == s
  {
    if s != [] {
      JoinSplit(s[1..], sep);
      var rest := Split(s[1..], sep);
      if s[0] == sep {
        JoinEmptyHead(rest, sep);
      } else {
        JoinExtendHead(s[0], rest, sep);
      }
      assert s == [s[0]] + s[1..];
    }
  }

  lemma JoinEmptyHead(rest: seq<string>, sep: char)
    requires |rest| >= 1
    ensures Join([""] + rest, sep) == [sep] + Join(rest, sep)
  {
    assert ([""] + rest)[1..] == rest;
  }

  lemma JoinExtendHead(c: char, rest: seq<string>, sep: char)
    requires |rest| >= 1 && c != sep && NoneContains(rest, sep)
    ensures NoneContains([[c] + rest[0]] + rest[1..], sep)
    ensures Join([[c] + rest[0]] + rest[1..], sep) == [c] + Join(rest, sep)
  {
    var r := [[c] + rest[0]] + rest[1..];
    assert r[1..] == rest[1..];
    forall i | 0 <= i < |r| ensures sep !in r[i] {
      if i > 0 { assert r[i] == rest[i]; }
    }
  }

  /** Joining separator-free pieces and splitting again gives the pieces. */
  lemma {:induction false} SplitJoin(pieces: seq<string>, sep: char)
    requires |pieces| >= 1 && NoneContains(pieces, sep)
    ensures Split(Join(pieces, sep), sep) == pieces
  {
    if |pieces| == 1 {
      SplitFree(pieces[0], sep);
    } else {
      SplitJoin(pieces[1..], sep);
      SplitPrefix(pieces[0], Join(pieces[1..], sep), sep);
      assert pieces == [pieces[0]] + pieces[1..];
    }
  }

  lemma {:induction false} SplitFree(p: string, sep: char)
    requires sep !in p
    ensures Split(p, sep) == [p]
  {
    if p != [] {
      SplitFree(p[1..], sep);
      assert p == [p[0]] + p[1..];
    }
  }

  lemma {:induction false} SplitPrefix(p: string, t: string, sep: char)
    requires sep !in p
    ensures Split(p + [sep] + t, sep) == [p] + Split(t, sep)
  {
    if p == [] {
      assert p + [sep] + t == [sep] + t;
      assert ([sep] + t)[1..] == t;
    } else {
      var s := p + [sep] + t;
      assert s[1..] == p[1..] + [sep] + t;
      SplitPrefix(p[1..], t, sep);
      assert p == [p[0]] + p[1..];
    }
  }

  // ---------------------------------------------------------------------
  // lines

  /** Each line followed by a newline, concatenated
      (the result of repeated `text += line + '\n'`). */
  function JoinLines(lines: seq<string>): string
  {
    if lines == [] then "" else lines[0] + "\n" + JoinLines(lines[1..])
  }

  lemma {:induction false} JoinLinesAppend(lines: seq<string>, line: string)
    ensures JoinLines(lines + [line]) == JoinLines(lines) + line + "\n"
  {
    if lines != [] {
      assert (lines + [line])[1..] == lines[1..] + [line];
      JoinLinesAppend(lines[1..], line);
    } else {
      assert [line][1..] == [];
    }
  }

  lemma JoinLinesStep(lines: seq<string>, j: nat)
    requires j < |lines|
    ensures JoinLines(lines[..j + 1]) == JoinLines(lines[..j]) + lines[j] + "\n"
  {
    assert lines[..j + 1] == lines[..j] + [lines[j]];
    JoinLinesAppend(lines[..j], lines[j]);
  }

  lemma {:induction false} JoinLinesIsJoin(lines: seq<string>)
    ensures JoinLines(lines) == Join(lines + [""], '\n')
  {
    if lines != [] {
      assert (lines + [""])[1..] == lines[1..] + [""];
      JoinLinesIsJoin(lines[1..]);
    }
  }

  /** Splitting newline-terminated text on newlines gives back its lines,
      followed by the empty piece after the last newline. */
  lemma SplitJoinLines(lines: seq<string>)
    ensures NoneContains(lines, '\n') ==> Split(JoinLines(lines), '\n') == lines + [""]
  {
    if NoneContains(lines, '\n') {
      JoinLinesIsJoin(lines);
      SplitJoin(lines + [""], '\n');
    }
  }

  lemma {:induction false} JoinLinesEmpty(lines: seq<string>)
    ensures JoinLines(lines) == "" <==> lines == []
  {
    if lines != [] {
      assert |JoinLines(lines)| >= 1 by { LengthJoinLines(lines); }
    }
  }

  lemma {:induction false} LengthJoinLines(lines: seq<string>)
    ensures |JoinLines(lines)| >= |lines|
  {
    if lines != [] { LengthJoinLines(lines[1..]); }
  }

  // ---------------------------------------------------------------------
  // trimming

  function TrimStart(s: string): string
  {
    if s != [] && IsSpace(s[0]) then TrimStart(s[1..]) else s
  }

  function TrimEnd(s: string): string
  {
    if s != [] && IsSpace(s[|s| - 1]) then TrimEnd(s[..|s| - 1]) else s
  }

  /** Leading and trailing whitespace removed. */
  function Trim(s: string): string
  {
    TrimEnd(TrimStart(s))
  }

  /** The number of whitespace characters `TrimStart` removes. */
  function LeadingSpace(s: string): (n: nat)
    ensures n <= |s|
  {
    if s != [] && IsSpace(s[0]) then 1 + LeadingSpace(s[1..]) else 0
  }

  /** The number of whitespace characters `TrimEnd` removes. */
  function TrailingSpace(s: string): (n: nat)
    ensures n <= |s|
  {
    if s != [] && IsSpace(s[|s| - 1]) then 1 + TrailingSpace(s[..|s| - 1]) else 0
  }

  lemma {:induction false} TrimStartSpec(s: string)
    ensures AllSpace(s[..LeadingSpace(s)]) && TrimStart(s) == s[LeadingSpace(s)..]
  {
    if s != [] && IsSpace(s[0]) {
      TrimStartSpec(s[1..]);
      var i := LeadingSpace(s[1..]);
      assert s[1..][i..] == s[i + 1..];
      assert s[..i + 1] == [s[0]] + s[1..][..i];
    }
  }

  lemma {:induction false} TrimEndSpec(s: string)
    ensures AllSpace(s[|s| - TrailingSpace(s)..]) && TrimEnd(s) == s[..|s| - TrailingSpace(s)]
  {
    if s != [] && IsSpace(s[|s| - 1]) {
      var p := s[..|s| - 1];
      TrimEndSpec(p);
      var j := |p| - TrailingSpace(p);
      assert p[..j] == s[..j];
      assert s[j..] == p[j..] + [s[|s| - 1]];
    }
  }

  lemma {:induction false} TrimStartEdge(s: string)
    ensures TrimStart(s) == [] || !IsSpace(TrimStart(s)[0])
  {
    if s != [] && IsSpace(s[0]) { TrimStartEdge(s[1..]); }
  }

  lemma {:induction false} TrimEndEdges(s: string)
    ensures TrimEnd(s) == [] || !IsSpace(TrimEnd(s)[|TrimEnd(s)| - 1])
    ensures s != [] && !IsSpace(s[0]) ==> TrimEnd(s) != [] && TrimEnd(s)[0] == s[0]
  {
    if s != [] && IsSpace(s[|s| - 1]) {
      TrimEndEdges(s[..|s| - 1]);
    }
  }

  /** The trimmed string is a slice of the input with only whitespace cut
      off either side, */
  lemma TrimSlice(s: string)
    ensures exists i, j :: 0 <= i <= j <= |s| && AllSpace(s[..i]) && AllSpace(s[j..])
                           && Trim(s) == s[i..j]
  {
    TrimStartSpec(s);
    var i := LeadingSpace(s);
    var t := s[i..];
    TrimEndSpec(t);
    var j := |t| - TrailingSpace(t);
    assert t[..j] == s[i..i + j];
    assert t[j..] == s[i + j..];
    assert Trim(s) == s[i..i + j];
  }

  /** and it neither starts nor ends with whitespace. */
  lemma TrimEdges(s: string)
    ensures Trim(s) == [] || (!IsSpace(Trim(s)[0]) && !IsSpace(Trim(s)[|Trim(s)| - 1]))
  {
    TrimStartEdge(s);
    TrimEndEdges(TrimStart(s));
  }

  // ---------------------------------------------------------------------
  // decimal rendering

  function Digit(d: nat): (c: char)
    requires d < 10
    ensures IsDigit(c) && DigitValue(c) == d
  {
    (('0' as int) + d) as char
  }

  /** `String(n)` for a non-negative integer: its decimal digits. */
  function NatToString(n: nat): string
  {
    if n < 10 then [Digit(n)] else NatToString(n / 10) + [Digit(n % 10)]
  }

  predicate IsDigit(c: char) { '0' <= c <= '9' }

  /** The value of a string of decimal digits. */
  function DecimalValue(s: string): nat
    requires forall i :: 0 <= i < |s| ==> IsDigit(s[i])
  {
    if s == [] then 0
    else 10 * DecimalValue(s[..|s| - 1]) + DigitValue(s[|s| - 1])
  }

  function DigitValue(c: char): nat
    requires IsDigit(c)
  {
    (c as int) - ('0' as int)
  }

  /** The rendering is a non-empty string of digits that reads back as `n`. */
  lemma {:induction false} NatToStringDecimal(n: nat)
    ensures |NatToString(n)| >= 1
    ensures forall i :: 0 <= i < |NatToString(n)| ==> IsDigit(NatToString(n)[i])
    ensures DecimalValue(NatToString(n)) == n
  {
    if n >= 10 {
      NatToStringDecimal(n / 10);
      var s := NatToString(n);
      assert s[..|s| - 1] == NatToString(n / 10);
      assert s[|s| - 1] == Digit(n % 10);
    }
  }
}
