/**
 * The pieces of `java.lang.String` and `java.lang.Character` behaviour that
 * LogUtils relies on: `Character.isWhitespace`, `String.split` with a
 * one-character pattern and the default limit 0, and decimal rendering of
 * integers as done by `StringBuilder.append(int)` and `%d`.
 */
module JavaText {
  import opened Wrappers

  /** `Character.isWhitespace` on the Unicode 6.2 data of Java 8 and Android:
      the Unicode space, line and paragraph separators other than the no-break
      spaces (U+180E MONGOLIAN VOWEL SEPARATOR still among the space
      separators), plus the ASCII controls TAB..CR and FS..US. */
  predicate IsWhitespace(c: char) {
    c == ' ' || ('\t' <= c <= '\r') || ('\U{1C}' <= c <= '\U{1F}')
    || c == '\U{1680}' || c == '\U{180E}' || ('\U{2000}' <= c <= '\U{2006}') || ('\U{2008}' <= c <= '\U{200A}')
    || c == '\U{2028}' || c == '\U{2029}' || c == '\U{205F}' || c == '\U{3000}'
  }

  /** The "blank" test of `LogUtils.isSpace`: null, or whitespace throughout. */
  predicate IsBlank(s: Option<string>) {
    s.None? || forall i :: 0 <= i < |s.value| ==> IsWhitespace(s.value[i])
  }

  /** A tag made of U+180E alone is blank, as `isSpace` finds on Android,
      while a no-break space is not whitespace. */
  lemma MongolianVowelSeparatorBlank()
    ensures IsBlank(Some("\U{180E}")) && !IsBlank(Some("\U{00A0}"))
  {
    assert "\U{00A0}"[0] == '\U{00A0}';
  }

  /** What Java's string concatenation prints for a possibly-null string. */
  function Show(s: Option<string>): string {
    if s.None? then "null" else s.value
  }

  // ---------------------------------------------------------------------------
  // Splitting and joining on one separator character
  // ---------------------------------------------------------------------------

  /** Every piece between separators, empty ones included: a string with k
      separators has k + 1 pieces. */
  function RawSplit(s: string, c: char): (r: seq<string>)
    ensures |r| >= 1
    decreases |s|
  {
    if s == [] then [""]
    else
      var rest := RawSplit(s[1..], c);
      if s[0] == c then [""] + rest
      else [[s[0]] + rest[0]] + rest[1..]
  }

  /** Pieces glued back together with the separator between them. */
  function JoinWith(parts: seq<string>, c: char): string
    requires |parts| >= 1
  {
    if |parts| == 1 then parts[0] else parts[0] + [c] + JoinWith(parts[1..], c)
  }

  /** Every piece followed by the separator, as a line-by-line StringBuilder
      loop produces it. */
  function Terminated(lines: seq<string>, c: char): string {
    if lines == [] then "" else lines[0] + [c] + Terminated(lines[1..], c)
  }

  function DropTrailingEmpty(parts: seq<string>): (r: seq<string>)
    ensures |r| <= |parts| && r == parts[..|r|]
    ensures |r| > 0 ==> r[|r| - 1] != ""
    ensures forall i :: |r| <= i < |parts| ==> parts[i] == ""
  {
    if |parts| > 0 && parts[|parts| - 1] == "" then DropTrailingEmpty(parts[..|parts| - 1])
    else parts
  }

  /** `s.split(c)`: the whole string when the separator does not occur,
      otherwise the pieces with trailing empty pieces removed. */
  function Split(s: string, c: char): seq<string> {
    if c !in s then [s] else DropTrailingEmpty(RawSplit(s, c))
  }

  /** The part of `s` before the first `c` (all of `s` when there is none). */
  function Before(s: string, c: char): (r: string)
    ensures |r| <= |s| && r == s[..|r|] && c !in r
    ensures |r| < |s| ==> s[|r|] == c
  {
    if s == [] || s[0] == c then "" else [s[0]] + Before(s[1..], c)
  }

  /** The part of `s` after the last `c` (all of `s` when there is none). */
  function AfterLast(s: string, c: char): (r: string)
    ensures |r| <= |s| && r == s[|s| - |r|..] && c !in r
    ensures |r| < |s| ==> s[|s| - |r| - 1] == c
    decreases |s|
  {
    if s == [] || s[|s| - 1] == c then "" else AfterLast(s[..|s| - 1], c) + [s[|s| - 1]]
  }

  lemma {:induction false} RawSplitNoSep(s: string, c: char)
    ensures forall i :: 0 <= i < |RawSplit(s, c)| ==> c !in RawSplit(s, c)[i]
    decreases |s|
  {
    if s != [] {
      RawSplitNoSep(s[1..], c);
    }
  }

  /** Splitting then joining gives the string back. */
  lemma {:induction false} JoinRawSplit(s: string, c: char)
    ensures JoinWith(RawSplit(s, c), c) == s
    decreases |s|
  {
    if s != [] {
      JoinRawSplit(s[1..], c);
      var rest := RawSplit(s[1..], c);
      if s[0] != c && |rest| > 1 {
        assert RawSplit(s, c)[1..] == rest[1..];
      }
    }
  }

  /** A prefix free of the separator extends the first piece. */
  lemma {:induction false} RawSplitPrefix(a: string, b: string, c: char)
    requires c !in a
    ensures RawSplit(a + b, c) == [a + RawSplit(b, c)[0]] + RawSplit(b, c)[1..]
    decreases |a|
  {
    if a != [] {
      var r := RawSplit(b, c);
      assert (a + b)[0] == a[0] != c;
      assert (a + b)[1..] == a[1..] + b;
      RawSplitPrefix(a[1..], b, c);
      var rest := RawSplit(a[1..] + b, c);
      assert rest == [a[1..] + r[0]] + r[1..];
      assert rest[0] == a[1..] + r[0] && rest[1..] == r[1..];
      assert RawSplit(a + b, c) == [[a[0]] + rest[0]] + rest[1..];
      assert [a[0]] + (a[1..] + r[0]) == a + r[0];
    } else {
      var r := RawSplit(b, c);
      assert a + b == b;
      assert a + r[0] == r[0];
      assert [r[0]] + r[1..] == r;
    }
  }

  /** Joining then splitting gives the pieces back, when no piece holds the separator. */
  lemma {:induction false} RawSplitJoin(parts: seq<string>, c: char)
    requires |parts| >= 1
    requires forall i :: 0 <= i < |parts| ==> c !in parts[i]
    ensures RawSplit(JoinWith(parts, c), c) == parts
    decreases |parts|
  {
    if |parts| == 1 {
      RawSplitPrefix(parts[0], "", c);
      assert RawSplit("", c) == [""];
      assert parts[0] + "" == parts[0];
      assert [""][1..] == [];
      assert RawSplit(parts[0] + "", c) == [parts[0]];
    } else {
      var tail := JoinWith(parts[1..], c);
      RawSplitJoin(parts[1..], c);
      assert parts[0] + [c] + tail == parts[0] + ([c] + tail);
      RawSplitPrefix(parts[0], [c] + tail, c);
      assert ([c] + tail)[0] == c && ([c] + tail)[1..] == tail;
      assert RawSplit([c] + tail, c) == [""] + parts[1..];
      assert parts[0] + "" == parts[0];
      assert parts == [parts[0]] + parts[1..];
    }
  }

  lemma {:induction false} TerminatedIsJoin(lines: seq<string>, c: char)
    ensures Terminated(lines, c) == JoinWith(lines + [""], c)
    decreases |lines|
  {
    if lines != [] {
      TerminatedIsJoin(lines[1..], c);
      assert (lines + [""])[1..] == lines[1..] + [""];
    }
  }

  /** Appending one line to a terminated text: the loop step of a line builder. */
  lemma {:induction false} TerminatedSnoc(lines: seq<string>, line: string, c: char)
    ensures Terminated(lines + [line], c) == Terminated(lines, c) + line + [c]
    decreases |lines|
  {
    if lines == [] {
      assert [line][1..] == [];
    } else {
      assert (lines + [line])[1..] == lines[1..] + [line];
      TerminatedSnoc(lines[1..], line, c);
    }
  }

  /** Splitting a text written line by line gives back its lines, when the
      last line is not empty and no line holds the separator. */
  lemma SplitTerminated(lines: seq<string>, c: char)
    requires |lines| >= 1 && lines[|lines| - 1] != ""
    requires forall i :: 0 <= i < |lines| ==> c !in lines[i]
    ensures Split(Terminated(lines, c), c) == lines
  {
    var parts := lines + [""];
    TerminatedIsJoin(lines, c);
    RawSplitJoin(parts, c);
    assert Terminated(lines, c) == lines[0] + [c] + Terminated(lines[1..], c);
    assert c in Terminated(lines, c) by {
      assert Terminated(lines, c)[|lines[0]|] == c;
    }
    assert parts[..|parts| - 1] == lines;
  }

  /** The pieces `split` returns never contain the separator. */
  lemma SplitNoSep(s: string, c: char)
    ensures forall i :: 0 <= i < |Split(s, c)| ==> c !in Split(s, c)[i]
  {
    RawSplitNoSep(s, c);
  }

  /** The first raw piece is the text before the first separator (all of
      the string when there is none). */
  lemma {:induction false} RawSplitFirst(s: string, c: char)
    ensures RawSplit(s, c)[0] == Before(s, c)
    decreases |s|
  {
    if s != [] && s[0] != c {
      RawSplitFirst(s[1..], c);
    }
  }

  lemma {:induction false} RawSplitLast(s: string, c: char)
    ensures RawSplit(s, c)[|RawSplit(s, c)| - 1] == AfterLast(s, c)
    decreases |s|
  {
    if s != [] {
      var init, x := s[..|s| - 1], s[|s| - 1];
      assert s == init + [x];
      if x == c {
        RawSplitEndsEmpty(init, c);
      } else {
        RawSplitSnoc(init, x, c);
        RawSplitLast(init, c);
      }
    }
  }

  /** Appending the separator opens a new, empty last piece. */
  lemma {:induction false} RawSplitEndsEmpty(s: string, c: char)
    ensures RawSplit(s + [c], c) == RawSplit(s, c) + [""]
    decreases |s|
  {
    if s == [] {
      assert [c][1..] == [];
    } else {
      assert (s + [c])[1..] == s[1..] + [c];
      RawSplitEndsEmpty(s[1..], c);
    }
  }

  /** Appending a non-separator character extends the last piece. */
  lemma {:induction false} RawSplitSnoc(s: string, x: char, c: char)
    requires x != c
    ensures var r := RawSplit(s, c);
      RawSplit(s + [x], c) == r[..|r| - 1] + [r[|r| - 1] + [x]]
    decreases |s|
  {
    if s == [] {
      assert s + [x] == [x] && [x][1..] == [] && [x][0] == x;
      assert RawSplit([x], c) == [[x] + ""] + [""][1..];
      assert "" + [x] == [x] + "";
    } else {
      var t := s[1..];
      assert (s + [x])[0] == s[0] && (s + [x])[1..] == t + [x];
      RawSplitSnoc(t, x, c);
      if s[0] == c {
        SnocUnderSep(RawSplit(t, c), RawSplit(t + [x], c), x);
      } else {
        SnocUnderChar(RawSplit(t, c), RawSplit(t + [x], c), s[0], x);
      }
    }
  }

  lemma SnocUnderSep(r: seq<string>, r': seq<string>, x: char)
    requires |r| >= 1 && r' == r[..|r| - 1] + [r[|r| - 1] + [x]]
    ensures var q := [""] + r; [""] + r' == q[..|q| - 1] + [q[|q| - 1] + [x]]
  {
  }

  lemma SnocUnderChar(r: seq<string>, r': seq<string>, h: char, x: char)
    requires |r| >= 1 && r' == r[..|r| - 1] + [r[|r| - 1] + [x]]
    ensures var q := [[h] + r[0]] + r[1..];
      [[h] + r'[0]] + r'[1..] == q[..|q| - 1] + [q[|q| - 1] + [x]]
  {
    if |r| == 1 {
      assert [h] + (r[0] + [x]) == ([h] + r[0]) + [x];
    } else {
      assert r'[0] == r[0];
      assert r'[1..] == r[1..][..|r| - 2] + [r[|r| - 1] + [x]];
    }
  }

  /** Without a separator, the text before the first and after the last is everything. */
  lemma NoSepWhole(s: string, c: char)
    requires c !in s
    ensures Before(s, c) == s && AfterLast(s, c) == s
  {
  }

  lemma {:induction false} AfterLastOf(s: string, t: string, c: char)
    requires c !in t
    ensures AfterLast(s + [c] + t, c) == t
    decreases |t|
  {
    var u := s + [c] + t;
    if t == [] {
      assert u[|u| - 1] == c;
    } else {
      var t' := t[..|t| - 1];
      assert u[..|u| - 1] == s + [c] + t';
      AfterLastOf(s, t', c);
      assert t == t' + [t[|t| - 1]];
    }
  }

  lemma {:induction false} BeforeOf(t: string, s: string, c: char)
    requires c !in t
    ensures Before(t + [c] + s, c) == t
    decreases |t|
  {
    var u := t + [c] + s;
    if t != [] {
      assert u[1..] == t[1..] + [c] + s;
      BeforeOf(t[1..], s, c);
    }
  }

  /** Whenever `split` returns at least one piece, the first is the text
      before the first separator. */
  lemma SplitFirst(s: string, c: char)
    requires |Split(s, c)| > 0
    ensures Split(s, c)[0] == Before(s, c)
  {
    if c in s {
      RawSplitFirst(s, c);
    } else {
      NoSepWhole(s, c);
    }
  }

  /** When something follows the last separator, `split` keeps every piece and
      its last piece is that text. */
  lemma SplitLast(s: string, c: char)
    requires AfterLast(s, c) != ""
    ensures |Split(s, c)| > 0 && Split(s, c)[|Split(s, c)| - 1] == AfterLast(s, c)
  {
    if c in s {
      RawSplitLast(s, c);
    } else {
      NoSepWhole(s, c);
    }
  }

  // ---------------------------------------------------------------------------
  // Decimal rendering and its inverse
  // ---------------------------------------------------------------------------

  predicate IsDigit(ch: char) { '0' <= ch <= '9' }

  function Digit(d: nat): (ch: char)
    requires d < 10
    ensures IsDigit(ch)
  {
    ['0', '1', '2', '3', '4', '5', '6', '7', '8', '9'][d]
  }

  function DigitValue(ch: char): (d: nat)
    requires IsDigit(ch)
    ensures d < 10 && Digit(d) == ch
  {
    (ch as int - '0' as int) as nat
  }

  /** The decimal text of a natural number, no leading zeros. */
  function NatString(n: nat): (r: string)
    ensures |r| >= 1 && forall i :: 0 <= i < |r| ==> IsDigit(r[i])
    ensures |r| > 1 ==> r[0] != '0'
  {
    if n < 10 then [Digit(n)] else NatString(n / 10) + [Digit(n % 10)]
  }

  /** `StringBuilder.append(int)` / `%d`: a minus sign, then the magnitude. */
  function IntString(i: int): string {
    if i < 0 then "-" + NatString(-i) else NatString(i)
  }

  /** The value a string of decimal digits denotes. */
  function DecimalValue(s: string): nat
    requires forall i :: 0 <= i < |s| ==> IsDigit(s[i])
  {
    if s == [] then 0 else 10 * DecimalValue(s[..|s| - 1]) + DigitValue(s[|s| - 1])
  }

  lemma {:induction false} DecimalRoundTrip(n: nat)
    ensures DecimalValue(NatString(n)) == n
  {
    if n >= 10 {
      DecimalRoundTrip(n / 10);
      var s := NatString(n);
      assert s[..|s| - 1] == NatString(n / 10);
      assert Digit(DigitValue(Digit(n % 10))) == Digit(n % 10);
      DigitInjective(DigitValue(Digit(n % 10)), n % 10);
    } else {
      DigitInjective(DigitValue(Digit(n)), n);
    }
  }

  /** The text `IntString` produces: digits, optionally after one minus sign. */
  predicate IsIntText(s: string) {
    |s| >= 1 && ((forall i :: 0 <= i < |s| ==> IsDigit(s[i]))
      || (s[0] == '-' && |s| >= 2 && forall i :: 1 <= i < |s| ==> IsDigit(s[i])))
  }

  /** The value an optionally signed decimal text denotes. */
  function IntValue(s: string): int
    requires IsIntText(s)
  {
    if s[0] == '-' then -(DecimalValue(s[1..]) as int) else DecimalValue(s)
  }

  /** The `%d` text of any integer, negative ones included, reads back as it. */
  lemma IntRoundTrip(i: int)
    ensures IsIntText(IntString(i)) && IntValue(IntString(i)) == i
  {
    if i < 0 {
      var d := NatString(-i);
      assert IntString(i) == "-" + d;
      NegativeText(d);
      DecimalRoundTrip(-i);
    } else {
      var d := NatString(i);
      assert IntString(i) == d;
      UnsignedText(d);
      DecimalRoundTrip(i);
    }
  }

  /** A decimal text is a signed text of its own value. */
  lemma UnsignedText(d: string)
    requires |d| >= 1 && forall k :: 0 <= k < |d| ==> IsDigit(d[k])
    ensures IsIntText(d) && IntValue(d) == DecimalValue(d)
  {
    assert d[0] != '-';
  }

  /** A minus sign before a decimal text makes a signed text of the negated value. */
  lemma NegativeText(d: string)
    requires |d| >= 1 && forall k :: 0 <= k < |d| ==> IsDigit(d[k])
    ensures IsIntText("-" + d) && IntValue("-" + d) == -(DecimalValue(d) as int)
  {
    var s := "-" + d;
    assert s[1..] == d;
    assert forall k :: 1 <= k < |s| ==> s[k] == d[k - 1];
  }

  lemma DigitInjective(a: nat, b: nat)
    requires a < 10 && b < 10 && Digit(a) == Digit(b)
    ensures a == b
  {
  }
}
