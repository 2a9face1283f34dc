/**
 * Text helpers shared by the date parser, the case-number year extraction and the
 * bulk importer: ASCII digits, splitting on one separator character, and the way
 * the importer reads its input (one header line consumed with `readline`, the rest
 * iterated line by line, each line split on tabs).
 */
module Text {

  // ---------------------------------------------------------------------------
  // ASCII digits
  // ---------------------------------------------------------------------------

  predicate IsDigit(c: char) {
    '0' <= c <= '9'
  }

  predicate AllDigits(s: string) {
    forall k :: 0 <= k < |s| ==> IsDigit(s[k])
  }

  function DigitValue(c: char): (v: nat)
    requires IsDigit(c)
    ensures v <= 9
  {
    c as int - '0' as int
  }

  function DigitChar(v: nat): (c: char)
    requires v <= 9
    ensures IsDigit(c) && DigitValue(c) == v
  {
    ('0' as int + v) as char
  }

  /** The number written by exactly four decimal digits, as `int` reads it. */
  function FourDigitValue(s: string): (v: nat)
    requires |s| == 4 && AllDigits(s)
    ensures v <= 9999
  {
    1000 * DigitValue(s[0]) + 100 * DigitValue(s[1]) + 10 * DigitValue(s[2]) + DigitValue(s[3])
  }

  /** The number written with four digits, zero-padded on the left. */
  function FourDigitText(v: nat): (s: string)
    requires v <= 9999
    ensures |s| == 4 && AllDigits(s)
    ensures FourDigitValue(s) == v
  {
    var d0, r0 := v / 1000, v % 1000;
    var d1, r1 := r0 / 100, r0 % 100;
    var d2, d3 := r1 / 10, r1 % 10;
    [DigitChar(d0), DigitChar(d1), DigitChar(d2), DigitChar(d3)]
  }

  /** Reading four digits back gives the text they were read from. */
  lemma FourDigitTextOfValue(s: string)
    requires |s| == 4 && AllDigits(s)
    ensures FourDigitText(FourDigitValue(s)) == s
  {
    var v := FourDigitValue(s);
    var a, b, c, d := DigitValue(s[0]), DigitValue(s[1]), DigitValue(s[2]), DigitValue(s[3]);
    var r1 := 10 * c + d;
    var r0 := 100 * b + r1;
    assert r1 / 10 == c && r1 % 10 == d;
    assert r0 / 100 == b && r0 % 100 == r1;
    assert v == 1000 * a + r0 && r0 < 1000;
    assert v / 1000 == a && v % 1000 == r0;
    var t := FourDigitText(v);
    assert t[0] == s[0] && t[1] == s[1] && t[2] == s[2] && t[3] == s[3];
  }

  // ---------------------------------------------------------------------------
  // Splitting on one separator, and its inverse
  // ---------------------------------------------------------------------------

  /** The parts glued back together with the separator between consecutive parts. */
  function Join(parts: seq<string>, sep: char): string
  {
    if |parts| == 0 then ""
    else if |parts| == 1 then parts[0]
    else parts[0] + [sep] + Join(parts[1..], sep)
  }

  /**
   * Python's `s.split(sep)` for a one-character separator: the maximal pieces
   * between separators, so always at least one piece (`"".split(sep) == [""]`).
   */
  function SplitOn(s: string, sep: char): (parts: seq<string>)
    ensures |parts| >= 1
    decreases |s|
  {
    if s == [] then [""]
    else
      var rest := SplitOn(s[1..], sep);
      if s[0] == sep then [""] + rest
      else [[s[0]] + rest[0]] + rest[1..]
  }

  /** The pieces hold no separator, and joining them with it gives back the text. */
  lemma {:induction false} JoinSplitOn(s: string, sep: char)
    ensures forall k :: 0 <= k < |SplitOn(s, sep)| ==> sep !in SplitOn(s, sep)[k]
    ensures Join(SplitOn(s, sep), sep) == s
    decreases |s|
  {
    if s != [] {
      JoinSplitOn(s[1..], sep);
      var rest := SplitOn(s[1..], sep);
      var parts := SplitOn(s, sep);
      if s[0] == sep {
        assert parts == [""] + rest;
        assert parts[1..] == rest;
      } else {
        assert parts == [[s[0]] + rest[0]] + rest[1..];
        assert parts[1..] == rest[1..];
        assert |rest| > 1 ==> Join(rest, sep) == rest[0] + [sep] + Join(rest[1..], sep);
        assert s == [s[0]] + s[1..];
        forall k | 0 <= k < |parts| ensures sep !in parts[k] {
          if k > 0 { assert parts[k] == rest[k]; }
        }
      }
    }
  }

  /** A piece without the separator is split into itself, and stays in front of what follows it. */
  lemma {:induction false} SplitOnCons(a: string, sep: char, t: string)
    requires sep !in a
    ensures SplitOn(a, sep) == [a]
    ensures SplitOn(a + [sep] + t, sep) == [a] + SplitOn(t, sep)
    decreases |a|
  {
    if a == [] {
      assert [] + [sep] + t == [sep] + t;
      assert ([sep] + t)[1..] == t;
    } else {
      SplitOnCons(a[1..], sep, t);
      assert (a + [sep] + t)[1..] == a[1..] + [sep] + t;
      assert (a + [sep] + t)[0] == a[0];
      assert [a[0]] + a[1..] == a;
    }
  }

  /** Splitting undoes joining, for parts that do not contain the separator. */
  lemma {:induction false} SplitJoin(parts: seq<string>, sep: char)
    requires |parts| >= 1
    requires forall k :: 0 <= k < |parts| ==> sep !in parts[k]
    ensures SplitOn(Join(parts, sep), sep) == parts
    decreases |parts|
  {
    if |parts| == 1 {
      SplitOnCons(parts[0], sep, "");
    } else {
      SplitJoin(parts[1..], sep);
      SplitOnCons(parts[0], sep, Join(parts[1..], sep));
      assert [parts[0]] + parts[1..] == parts;
    }
  }

  // ---------------------------------------------------------------------------
  // Reading the pasted import text
  // ---------------------------------------------------------------------------

  /**
   * What is left after `readline()` on a text stream: everything after the first
   * line break, or nothing when there is no line break at all.
   */
  function AfterFirstLine(s: string): (rest: string)
    ensures |rest| <= |s|
    decreases |s|
  {
    if s == [] then []
    else if s[0] == '\n' then s[1..]
    else AfterFirstLine(s[1..])
  }

  /** The header line is consumed whatever it says; only what follows its line break remains. */
  lemma {:induction false} AfterFirstLineSkipsHeader(header: string, body: string)
    requires '\n' !in header
    ensures AfterFirstLine(header + "\n" + body) == body
    decreases |header|
  {
    if header == [] {
      assert header + "\n" + body == ['\n'] + body;
    } else {
      AfterFirstLineSkipsHeader(header[1..], body);
      assert (header + "\n" + body)[1..] == header[1..] + "\n" + body;
    }
  }

  /** Text with no line break is all header: nothing is left to read. */
  lemma {:induction false} AfterFirstLineOfSingleLine(s: string)
    requires '\n' !in s
    ensures AfterFirstLine(s) == ""
    decreases |s|
  {
    if s != [] {
      AfterFirstLineOfSingleLine(s[1..]);
    }
  }

  /**
   * The lines a text stream yields when iterated, without their line breaks:
   * the pieces between line breaks, where a final line break does not start an
   * extra, empty line.
   */
  function Lines(body: string): (lines: seq<string>)
    ensures lines == [] <==> body == ""
  {
    if body == "" then []
    else
      var parts := SplitOn(body, '\n');
      if parts[|parts| - 1] == "" then parts[..|parts| - 1] else parts
  }

  /** The text made of the given lines, each terminated by a line break. */
  function Unlines(lines: seq<string>): string
  {
    if lines == [] then "" else lines[0] + "\n" + Unlines(lines[1..])
  }

  /** Terminated lines followed by a last piece are the lines and that piece joined by line breaks. */
  lemma {:induction false} UnlinesThenLastAsJoin(lines: seq<string>, last: string)
    ensures Unlines(lines) + last == Join(lines + [last], '\n')
    decreases |lines|
  {
    if lines != [] {
      UnlinesThenLastAsJoin(lines[1..], last);
      assert (lines + [last])[1..] == lines[1..] + [last];
      assert Unlines(lines) + last == lines[0] + "\n" + (Unlines(lines[1..]) + last);
    }
  }

  /** Iterating the text of terminated lines yields exactly those lines. */
  lemma LinesOfUnlines(lines: seq<string>)
    requires forall k :: 0 <= k < |lines| ==> '\n' !in lines[k]
    ensures Lines(Unlines(lines)) == lines
  {
    UnlinesThenLastAsJoin(lines, "");
    assert Unlines(lines) + "" == Unlines(lines);
    var parts := lines + [""];
    assert forall k :: 0 <= k < |parts| ==> '\n' !in parts[k] by {
      forall k | 0 <= k < |parts| ensures '\n' !in parts[k] {
        if k < |lines| { assert parts[k] == lines[k]; }
      }
    }
    SplitJoin(parts, '\n');
    if lines == [] {
      assert Unlines(lines) == "";
    } else {
      assert Unlines(lines) != "" by {
        assert |Unlines(lines)| >= 1;
      }
      assert parts[..|parts| - 1] == lines;
    }
  }

  /**
   * A text whose last line has no line break after it, the usual shape of pasted
   * text, yields its terminated lines and then that last line.
   */
  lemma LinesOfUnlinesThenLast(lines: seq<string>, last: string)
    requires forall k :: 0 <= k < |lines| ==> '\n' !in lines[k]
    requires last != "" && '\n' !in last
    ensures Lines(Unlines(lines) + last) == lines + [last]
  {
    UnlinesThenLastAsJoin(lines, last);
    var parts := lines + [last];
    assert forall k :: 0 <= k < |parts| ==> '\n' !in parts[k] by {
      forall k | 0 <= k < |parts| ensures '\n' !in parts[k] {
        if k < |lines| { assert parts[k] == lines[k]; }
      }
    }
    SplitJoin(parts, '\n');
    assert |Unlines(lines) + last| >= 1;
  }

  /**
   * The fields the tab-delimited reader gives for one line: no fields at all for
   * an empty line, otherwise the pieces between tabs.
   */
  function Fields(line: string): (fields: seq<string>)
    ensures fields == [] <==> line == ""
  {
    if line == "" then [] else SplitOn(line, '\t')
  }

  /** The fields of a non-empty line hold no tab, and joined with tabs they give back the line. */
  lemma JoinFields(line: string)
    requires line != ""
    ensures forall k :: 0 <= k < |Fields(line)| ==> '\t' !in Fields(line)[k]
    ensures Join(Fields(line), '\t') == line
  {
    JoinSplitOn(line, '\t');
  }

  /** A line written as tab-separated fields is read back as those fields. */
  lemma FieldsOfJoin(fields: seq<string>)
    requires |fields| >= 2 || (|fields| == 1 && fields[0] != "")
    requires forall k :: 0 <= k < |fields| ==> '\t' !in fields[k]
    ensures Fields(Join(fields, '\t')) == fields
  {
    assert Join(fields, '\t') != "" by {
      assert |Join(fields, '\t')| >= 1;
    }
    SplitJoin(fields, '\t');
  }
}
