/** String helpers the services rely on: ASCII lower-casing (the part of
    `String.prototype.toLowerCase` that style type names use), decimal
    rendering of counts as a template literal prints them, prefix tests,
    `Array.prototype.join` / `String.prototype.split` on one separator, and
    the line structure of the generated Markdown documents. */
module Text {
  import opened Wrappers

  // ---------------------------------------------------------------------------
  // Lower-casing
  // ---------------------------------------------------------------------------

  predicate IsUpper(c: char) {
    'A' <= c <= 'Z'
  }

  /** No character of `s` is an upper-case ASCII letter. */
  predicate IsLowerCased(s: string) {
    forall i :: 0 <= i < |s| ==> !IsUpper(s[i])
  }

  function LowerChar(c: char): (r: char)
    ensures !IsUpper(r)
    ensures IsUpper(c) ==> r as int == c as int + 32
    ensures !IsUpper(c) ==> r == c
  {
    if IsUpper(c) then (c as int + 32) as char else c
  }

  /** `s.toLowerCase()` restricted to ASCII letters: every upper-case letter is
      mapped to its lower-case partner, every other character is kept. */
  function Lower(s: string): (r: string)
    ensures |r| == |s|
    ensures IsLowerCased(r)
    ensures forall i :: 0 <= i < |s| && !IsUpper(s[i]) ==> r[i] == s[i]
    ensures forall i :: 0 <= i < |s| && IsUpper(s[i]) ==> r[i] as int == s[i] as int + 32
  {
    if |s| == 0 then "" else [LowerChar(s[0])] + Lower(s[1..])
  }

  /** Lower-casing leaves an already lower-cased string alone; in particular
      it is idempotent. */
  lemma {:induction false} LowerFixesLowerCased(s: string)
    requires IsLowerCased(s)
    ensures Lower(s) == s
  {
    if |s| > 0 {
      assert IsLowerCased(s[1..]) by {
        forall i | 0 <= i < |s[1..]| ensures !IsUpper(s[1..][i]) {
          assert s[1..][i] == s[i + 1];
        }
      }
      LowerFixesLowerCased(s[1..]);
    }
  }

  lemma LowerIdempotent(s: string)
    ensures Lower(Lower(s)) == Lower(s)
  {
    LowerFixesLowerCased(Lower(s));
  }

  // ---------------------------------------------------------------------------
  // Decimal numbers
  // ---------------------------------------------------------------------------

  predicate IsDigit(c: char) {
    '0' <= c <= '9'
  }

  predicate AllDigits(s: string) {
    forall i :: 0 <= i < |s| ==> IsDigit(s[i])
  }

  function DigitChar(d: nat): (c: char)
    requires d < 10
    ensures IsDigit(c)
  {
    ('0' as int + d) as char
  }

  function DigitValue(c: char): (d: nat)
    requires IsDigit(c)
    ensures d < 10
  {
    c as int - '0' as int
  }

  /** How a JavaScript template literal prints a non-negative integer:
      its decimal digits, most significant first, without leading zeros. */
  function NatToString(n: nat): (r: string)
    ensures |r| > 0
    ensures AllDigits(r)
    ensures |r| > 1 ==> r[0] != '0'
    decreases n
  {
    if n < 10 then [DigitChar(n)] else NatToString(n / 10) + [DigitChar(n % 10)]
  }

  /** The value of a string of decimal digits. */
  function DigitsValue(s: string): nat
    requires AllDigits(s)
  {
    if |s| == 0 then 0 else DigitsValue(s[..|s| - 1]) * 10 + DigitValue(s[|s| - 1])
  }

  /** Reads a decimal number back; `None` when `s` is empty or holds a
      non-digit. */
  function ParseNat(s: string): (r: Option<nat>)
    ensures r.Some? <==> |s| > 0 && AllDigits(s)
  {
    if |s| > 0 && AllDigits(s) then Some(DigitsValue(s)) else None
  }

  /** Printing a count and reading it back gives the count. */
  lemma {:induction false} ParseNatToString(n: nat)
    ensures ParseNat(NatToString(n)) == Some(n)
    decreases n
  {
    var s := NatToString(n);
    if n < 10 {
      assert s == [DigitChar(n)];
      assert s[..0] == "";
      assert DigitsValue(s) == DigitsValue(s[..0]) * 10 + DigitValue(s[0]);
    } else {
      ParseNatToString(n / 10);
      assert s[..|s| - 1] == NatToString(n / 10);
      assert DigitsValue(s) == DigitsValue(s[..|s| - 1]) * 10 + DigitValue(s[|s| - 1]);
    }
  }

  // ---------------------------------------------------------------------------
  // Prefixes
  // ---------------------------------------------------------------------------

  predicate StartsWith(s: string, prefix: string) {
    |prefix| <= |s| && s[..|prefix|] == prefix
  }

  predicate EndsWith(s: string, suffix: string) {
    |suffix| <= |s| && s[|s| - |suffix|..] == suffix
  }

  lemma StartsWithConcat(prefix: string, rest: string)
    ensures StartsWith(prefix + rest, prefix)
  {
    assert (prefix + rest)[..|prefix|] == prefix;
  }

  lemma FirstCharDiffers(s: string, prefix: string)
    requires |prefix| > 0 && (|s| == 0 || s[0] != prefix[0])
    ensures !StartsWith(s, prefix)
  {
    if |prefix| <= |s| {
      assert s[..|prefix|][0] == s[0];
    }
  }

  /** The rest of `s` after `prefix`, when `s` starts with it. */
  function StripPrefix(s: string, prefix: string): (r: Option<string>)
    ensures r.Some? <==> StartsWith(s, prefix)
    ensures r.Some? ==> s == prefix + r.value
  {
    if StartsWith(s, prefix) then Some(s[|prefix|..]) else None
  }

  /** The part of `s` before `suffix`, when `s` ends with it. */
  function StripSuffix(s: string, suffix: string): (r: Option<string>)
    ensures r.Some? <==> EndsWith(s, suffix)
    ensures r.Some? ==> s == r.value + suffix
  {
    if EndsWith(s, suffix) then Some(s[..|s| - |suffix|]) else None
  }

  lemma StripPrefixConcat(prefix: string, rest: string)
    ensures StripPrefix(prefix + rest, prefix) == Some(rest)
  {
    assert (prefix + rest)[..|prefix|] == prefix;
    assert (prefix + rest)[|prefix|..] == rest;
  }

  lemma StripSuffixConcat(first: string, suffix: string)
    ensures StripSuffix(first + suffix, suffix) == Some(first)
  {
    var s := first + suffix;
    assert s[|s| - |suffix|..] == suffix;
    assert s[..|s| - |suffix|] == first;
  }

  // ---------------------------------------------------------------------------
  // Lines of a document
  // ---------------------------------------------------------------------------

  /** A document made of `lines`, each terminated by a newline.  Every page the
      documentation generator writes is a template literal of this shape. */
  function Unlines(lines: seq<string>): (r: string)
    ensures |r| == |lines| + SumLengths(lines)
  {
    if |lines| == 0 then "" else lines[0] + "\n" + Unlines(lines[1..])
  }

  function SumLengths(lines: seq<string>): nat {
    if |lines| == 0 then 0 else |lines[0]| + SumLengths(lines[1..])
  }

  /** The lines of `lines` that start with `prefix`, in order. */
  function LinesStartingWith(lines: seq<string>, prefix: string): (r: seq<string>)
    ensures |r| <= |lines|
    ensures forall l :: l in r ==> l in lines && StartsWith(l, prefix)
    ensures forall l :: l in lines && StartsWith(l, prefix) ==> l in r
  {
    if |lines| == 0 then []
    else (if StartsWith(lines[0], prefix) then [lines[0]] else []) + LinesStartingWith(lines[1..], prefix)
  }

  lemma {:induction false} LinesStartingWithAppend(a: seq<string>, b: seq<string>, prefix: string)
    ensures LinesStartingWith(a + b, prefix) == LinesStartingWith(a, prefix) + LinesStartingWith(b, prefix)
  {
    if |a| == 0 {
      assert a + b == b;
    } else {
      assert (a + b)[1..] == a[1..] + b;
      LinesStartingWithAppend(a[1..], b, prefix);
    }
  }

  lemma {:induction false} LinesStartingWithAll(lines: seq<string>, prefix: string)
    requires forall i :: 0 <= i < |lines| ==> StartsWith(lines[i], prefix)
    ensures LinesStartingWith(lines, prefix) == lines
  {
    if |lines| > 0 {
      LinesStartingWithAll(lines[1..], prefix);
    }
  }

  lemma {:induction false} LinesStartingWithNone(lines: seq<string>, prefix: string)
    requires forall i :: 0 <= i < |lines| ==> !StartsWith(lines[i], prefix)
    ensures LinesStartingWith(lines, prefix) == []
  {
    if |lines| > 0 {
      LinesStartingWithNone(lines[1..], prefix);
    }
  }

  // ---------------------------------------------------------------------------
  // Split and join on a separator
  // ---------------------------------------------------------------------------

  /** `s.split(sep)` for a one-character separator: the pieces between
      separators, with an empty piece for every leading, trailing or doubled
      separator; the empty string splits into one empty piece. */
  function Split(s: string, sep: char): (r: seq<string>)
    ensures |r| > 0
    ensures forall i :: 0 <= i < |r| ==> sep !in r[i]
    decreases |s|
  {
    if |s| == 0 then [""]
    else
      var rest := Split(s[1..], sep);
      if s[0] == sep then [""] + rest else [[s[0]] + rest[0]] + rest[1..]
  }

  /** `parts.join(sep)`. */
  function Join(parts: seq<string>, sep: char): string
    requires |parts| > 0
  {
    if |parts| == 1 then parts[0] else parts[0] + [sep] + Join(parts[1..], sep)
  }

  /** Splitting and joining again restores the string. */
  lemma {:induction false} JoinSplit(s: string, sep: char)
    ensures Join(Split(s, sep), sep) == s
    decreases |s|
  {
    if |s| > 0 {
      var rest := Split(s[1..], sep);
      JoinSplit(s[1..], sep);
      if s[0] == sep {
        assert ([""] + rest)[1..] == rest;
      } else if |rest| == 1 {
        assert s == [s[0]] + s[1..];
      } else {
        var r := [[s[0]] + rest[0]] + rest[1..];
        assert r[1..] == rest[1..];
        assert s == [s[0]] + s[1..];
      }
    }
  }

  /** Joining pieces that do not contain the separator and splitting again
      gives back the pieces. */
  lemma {:induction false} SplitJoin(parts: seq<string>, sep: char)
    requires |parts| > 0
    requires forall i :: 0 <= i < |parts| ==> sep !in parts[i]
    ensures Split(Join(parts, sep), sep) == parts
    decreases |parts|, |parts[0]|
  {
    if |parts[0]| > 0 {
      var c := parts[0][0];
      var parts' := [parts[0][1..]] + parts[1..];
      assert parts[0] == [c] + parts[0][1..];
      assert c != sep by { assert c == parts[0][0]; }
      assert Join(parts, sep) == [c] + Join(parts', sep) by {
        if |parts| == 1 {
        } else {
          assert parts'[1..] == parts[1..];
        }
      }
      assert forall i :: 0 <= i < |parts'| ==> sep !in parts'[i] by {
        forall i | 0 <= i < |parts'| ensures sep !in parts'[i] {
          if i == 0 {
            assert forall x :: x in parts[0][1..] ==> x in parts[0];
          } else {
            assert parts'[i] == parts[i];
          }
        }
      }
      SplitJoin(parts', sep);
      var s := [c] + Join(parts', sep);
      assert s[1..] == Join(parts', sep);
    } else if |parts| > 1 {
      SplitJoin(parts[1..], sep);
      var s := Join(parts, sep);
      assert s == [sep] + Join(parts[1..], sep);
      assert s[1..] == Join(parts[1..], sep);
    }
  }

  /** Two separators in a row somewhere in `s`. */
  predicate Doubled(s: string, sep: char) {
    exists i :: 0 <= i < |s| - 1 && s[i] == sep && s[i + 1] == sep
  }

  /** Where `Split` produces an empty piece: for the empty string, and for a
      separator at the start, at the end, or right after another one. */
  predicate HasEmptyPiece(s: string, sep: char) {
    |s| == 0 || s[0] == sep || s[|s| - 1] == sep || Doubled(s, sep)
  }

  lemma DoubledCons(s: string, sep: char)
    requires |s| > 0
    ensures Doubled(s, sep) <==> (|s| >= 2 && s[0] == sep && s[1] == sep) || Doubled(s[1..], sep)
  {
    var t := s[1..];
    if Doubled(s, sep) {
      var i :| 0 <= i < |s| - 1 && s[i] == sep && s[i + 1] == sep;
      if i > 0 {
        assert t[i - 1] == sep && t[i] == sep;
      }
    }
    if Doubled(t, sep) {
      var i :| 0 <= i < |t| - 1 && t[i] == sep && t[i + 1] == sep;
      assert s[i + 1] == sep && s[i + 2] == sep;
    }
  }

  /** The first piece is empty exactly when `s` is empty or starts with the
      separator. */
  lemma SplitFirstPiece(s: string, sep: char)
    ensures Split(s, sep)[0] == "" <==> |s| == 0 || s[0] == sep
  {
    if |s| > 0 && s[0] != sep {
      var rest := Split(s[1..], sep);
      assert Split(s, sep)[0] == [s[0]] + rest[0];
    }
  }

  /** A later piece is empty exactly when `s` ends with the separator or has
      two in a row. */
  lemma {:induction false} SplitLaterPieces(s: string, sep: char)
    ensures "" in Split(s, sep)[1..] <==> (|s| > 0 && s[|s| - 1] == sep) || Doubled(s, sep)
    decreases |s|
  {
    if |s| > 0 {
      var t := s[1..];
      var rest := Split(t, sep);
      SplitLaterPieces(t, sep);
      SplitFirstPiece(t, sep);
      DoubledCons(s, sep);
      if |t| > 0 {
        assert s[|s| - 1] == t[|t| - 1];
      }
      assert "" in rest <==> rest[0] == "" || "" in rest[1..] by {
        assert rest == [rest[0]] + rest[1..];
      }
      if s[0] == sep {
        assert Split(s, sep)[1..] == rest;
      } else {
        assert Split(s, sep)[1..] == rest[1..];
      }
    }
  }

  lemma SplitEmptyPiece(s: string, sep: char)
    ensures "" in Split(s, sep) <==> HasEmptyPiece(s, sep)
  {
    SplitFirstPiece(s, sep);
    SplitLaterPieces(s, sep);
    var r := Split(s, sep);
    assert r == [r[0]] + r[1..];
  }

  // ---------------------------------------------------------------------------
  // The lines of a written document
  // ---------------------------------------------------------------------------

  /** A string that fits on one line. */
  predicate SingleLine(s: string) {
    '\n' !in s
  }

  predicate AllSingleLine(lines: seq<string>) {
    forall i :: 0 <= i < |lines| ==> SingleLine(lines[i])
  }

  lemma AllSingleLineAppend(a: seq<string>, b: seq<string>)
    ensures AllSingleLine(a + b) <==> AllSingleLine(a) && AllSingleLine(b)
  {
    if AllSingleLine(a) && AllSingleLine(b) {
      forall i | 0 <= i < |a + b| ensures SingleLine((a + b)[i]) {
        if i >= |a| {
          assert (a + b)[i] == b[i - |a|];
        }
      }
    }
    if AllSingleLine(a + b) {
      forall i | 0 <= i < |a| ensures SingleLine(a[i]) {
        assert (a + b)[i] == a[i];
      }
      forall i | 0 <= i < |b| ensures SingleLine(b[i]) {
        assert (a + b)[|a| + i] == b[i];
      }
    }
  }

  /** Decimal digits never hold a newline. */
  lemma DigitsSingleLine(s: string)
    requires AllDigits(s)
    ensures SingleLine(s)
  {
    forall i | 0 <= i < |s| ensures s[i] != '\n' {
      assert IsDigit(s[i]);
    }
  }

  /** A string without the separator is a single piece. */
  lemma {:induction false} SplitNoSeparator(s: string, sep: char)
    requires sep !in s
    ensures Split(s, sep) == [s]
    decreases |s|
  {
    if |s| > 0 {
      assert sep !in s[1..] by {
        assert forall x :: x in s[1..] ==> x in s;
      }
      SplitNoSeparator(s[1..], sep);
      assert s[0] in s;
      assert s == [s[0]] + s[1..];
    }
  }

  /** One step of `Split`: the first character either closes the first piece
      or joins it. */
  lemma SplitCons(s: string, sep: char)
    requires |s| > 0
    ensures Split(s, sep) == if s[0] == sep then [""] + Split(s[1..], sep)
                             else [[s[0]] + Split(s[1..], sep)[0]] + Split(s[1..], sep)[1..]
  {
  }

  /** Gluing a character onto the first of the pieces `px + py`. */
  lemma GlueFirst(c: char, px: seq<string>, py: seq<string>)
    requires |px| > 0
    ensures [[c] + (px + py)[0]] + (px + py)[1..] == ([[c] + px[0]] + px[1..]) + py
  {
    assert (px + py)[0] == px[0];
    assert (px + py)[1..] == px[1..] + py;
  }

  /** A separator cuts a string in two: the pieces before it, then the pieces
      after it. */
  lemma {:induction false} SplitAtSeparator(x: string, y: string, sep: char)
    ensures Split(x + [sep] + y, sep) == Split(x, sep) + Split(y, sep)
    decreases |x|
  {
    var s := x + [sep] + y;
    SplitCons(s, sep);
    if |x| == 0 {
      assert s[0] == sep && s[1..] == y;
    } else {
      assert s[0] == x[0] && s[1..] == x[1..] + [sep] + y;
      SplitAtSeparator(x[1..], y, sep);
      SplitCons(x, sep);
      if x[0] != sep {
        GlueFirst(x[0], Split(x[1..], sep), Split(y, sep));
      }
    }
  }

  lemma {:induction false} UnlinesAppend(a: seq<string>, b: seq<string>)
    ensures Unlines(a + b) == Unlines(a) + Unlines(b)
  {
    if |a| == 0 {
      assert a + b == b;
    } else {
      assert (a + b)[0] == a[0];
      assert (a + b)[1..] == a[1..] + b;
      UnlinesAppend(a[1..], b);
    }
  }

  /** The text of single lines, followed by `rest`, splits on newlines into
      those lines and then the pieces of `rest`. */
  lemma {:induction false} SplitUnlines(lines: seq<string>, rest: string)
    requires AllSingleLine(lines)
    ensures Split(Unlines(lines) + rest, '\n') == lines + Split(rest, '\n')
  {
    if |lines| == 0 {
      assert Unlines(lines) + rest == rest;
    } else {
      var l, ls := lines[0], lines[1..];
      assert lines == [l] + ls;
      AllSingleLineAppend([l], ls);
      ShiftNewline(l, Unlines(ls), rest);
      SplitUnlines(ls, rest);
      SplitAtSeparator(l, Unlines(ls) + rest, '\n');
      SplitNoSeparator(l, '\n');
      ConsAppend(l, ls, Split(rest, '\n'));
    }
  }

  lemma ShiftNewline(line: string, more: string, rest: string)
    ensures line + "\n" + more + rest == line + ['\n'] + (more + rest)
  {
  }

  lemma ConsAppend<T>(x: T, xs: seq<T>, ys: seq<T>)
    ensures [x] + (xs + ys) == ([x] + xs) + ys
  {
  }

  /** Where the parts of a split document sit: the lines before the body,
      the pieces of the body, the lines after it, and the final empty
      piece. */
  lemma DocumentSlices(head: seq<string>, parts: seq<string>, tail: seq<string>)
    ensures var p := head + (parts + (tail + [""]));
            && |p| == |head| + |parts| + |tail| + 1
            && p[..|head|] == head
            && p[|head|..|p| - 1 - |tail|] == parts
            && p[|p| - 1 - |tail|..|p| - 1] == tail
            && p[|p| - 1] == ""
  {
  }

  /** The lines of a document whose every line ends in a newline: the pieces
      between newlines, without the piece after the last one. */
  function LinesOf(content: string): (r: seq<string>)
    ensures AllSingleLine(r)
  {
    var pieces := Split(content, '\n');
    pieces[..|pieces| - 1]
  }

  /** A document of single lines reads back as exactly those lines. */
  lemma LinesOfUnlines(lines: seq<string>)
    requires AllSingleLine(lines)
    ensures LinesOf(Unlines(lines)) == lines
  {
    SplitUnlines(lines, "");
    assert Unlines(lines) + "" == Unlines(lines);
  }

  /** A document of single lines with one entry, `body`, that may itself span
      several lines: splitting it gives the lines before the body, the lines
      of the body, the lines after it, and the empty piece after the final
      newline. */
  lemma SplitDocument(head: seq<string>, body: string, tail: seq<string>)
    requires AllSingleLine(head) && AllSingleLine(tail)
    ensures Split(Unlines(head + ([body] + tail)), '\n') == head + (Split(body, '\n') + (tail + [""]))
  {
    var rest := [body] + tail;
    UnlinesAppend(head, rest);
    SplitUnlines(head, Unlines(rest));
    SplitBodyThenLines(body, tail);
  }

  /** The body and the single lines after it. */
  lemma SplitBodyThenLines(body: string, tail: seq<string>)
    requires AllSingleLine(tail)
    ensures Split(Unlines([body] + tail), '\n') == Split(body, '\n') + (tail + [""])
  {
    UnlinesCons(body, tail);
    SplitAtSeparator(body, Unlines(tail), '\n');
    SplitUnlines(tail, "");
    assert Unlines(tail) + "" == Unlines(tail);
  }

  lemma UnlinesCons(line: string, lines: seq<string>)
    ensures Unlines([line] + lines) == line + ['\n'] + Unlines(lines)
  {
    assert ([line] + lines)[1..] == lines;
  }
}
