/**
 * What `processContents` computes: the simplified caller class name, the
 * effective tag, the optional head line, the body, and the left-border
 * decoration; and the pass-through shape of the JSON and XML formatters.
 */
module Format {
  import opened Wrappers
  import opened JavaText
  import opened LogConfig

  /** The caller's stack frame and thread, supplied by the platform. */
  datatype CallSite = CallSite(className: string, methodName: string, lineNumber: int, threadName: string)

  /** The library pretty-printers, each failing with None where it throws:
      `new JSONObject(s).toString(4)`, `new JSONArray(s).toString(4)`, and
      the XML identity transform with indentation. */
  datatype Formatters = Formatters(
    jsonObject: string -> Option<string>,
    jsonArray: string -> Option<string>,
    xmlTransform: string -> Option<string>)

  // ---------------------------------------------------------------------------
  // Tag resolution
  // ---------------------------------------------------------------------------

  /** The last `.`-separated piece of a class name, or the name itself when
      `split` returns no piece. */
  function LastSegment(className: string): string {
    var info := Split(className, '.');
    if |info| > 0 then info[|info| - 1] else className
  }

  /** The class name as LogUtils simplifies it, exactly as written: the last
      segment cut at its first `$` by `split("\\$")[0]`, None where that
      index is out of bounds. */
  function SimpleClassNameAsWritten(className: string): Option<string> {
    var c := LastSegment(className);
    if '$' in c then
      var parts := Split(c, '$');
      if |parts| > 0 then Some(parts[0]) else None
    else Some(c)
  }

  /** The simplified class name: the last segment up to its first `$`. */
  function SimpleClassName(className: string): string {
    var c := LastSegment(className);
    if '$' in c then Before(c, '$') else c
  }

  /** Wherever the source's expression succeeds, it agrees with SimpleClassName. */
  lemma AsWrittenAgrees(className: string)
    requires SimpleClassNameAsWritten(className).Some?
    ensures SimpleClassNameAsWritten(className).value == SimpleClassName(className)
  {
    var c := LastSegment(className);
    if '$' in c {
      SplitFirst(c, '$');
    }
  }

  /** A class whose simple name is `$`: `"$".split("\\$")` is empty, so the
      source indexes an empty array. */
  lemma AsWrittenFailsOnDollarClass(pkg: string)
    ensures SimpleClassNameAsWritten(pkg + ['.', '$']).None?
    ensures SimpleClassName(pkg + ['.', '$']) == ""
  {
    var n := pkg + ['.', '$'];
    assert n == pkg + ['.'] + "$";
    AfterLastOf(pkg, "$", '.');
    SplitLast(n, '.');
    assert LastSegment(n) == "$";
    assert RawSplit("", '$') == [""];
    assert "$"[1..] == "";
    assert RawSplit("$", '$') == ["", ""];
    assert DropTrailingEmpty(["", ""]) == [];
  }

  /** The simplified name of a class is the outer class name of its last
      segment: everything after the last `.`, cut at the first `$`. */
  lemma SimpleClassNameIsOuterName(className: string)
    requires AfterLast(className, '.') != ""
    ensures SimpleClassName(className) == Before(AfterLast(className, '.'), '$')
  {
    SplitLast(className, '.');
    var c := AfterLast(className, '.');
    assert LastSegment(className) == c;
    if '$' !in c {
      NoSepWhole(c, '$');
    }
  }

  /** A top-level class is named by its last segment. */
  lemma TopLevelClassName(pkg: string, name: string)
    requires name != [] && '.' !in name && '$' !in name
    ensures SimpleClassName(pkg + ['.'] + name) == name
  {
    AfterLastOf(pkg, name, '.');
    SimpleClassNameIsOuterName(pkg + ['.'] + name);
    NoSepWhole(name, '$');
  }

  /** A nested or anonymous class (`Outer$Inner`, `Outer$1`) is named by
      its outer class. */
  lemma NestedClassName(pkg: string, outer: string, inner: string)
    requires '.' !in outer && '.' !in inner && '$' !in outer
    ensures SimpleClassName(pkg + ['.'] + outer + ['$'] + inner) == outer
  {
    var last := outer + ['$'] + inner;
    var n := pkg + ['.'] + outer + ['$'] + inner;
    assert n == pkg + ['.'] + last;
    AfterLastOf(pkg, last, '.');
    SimpleClassNameIsOuterName(n);
    BeforeOf(outer, inner, '$');
  }

  /** The tag a call is logged under: the global tag when one is set,
      otherwise the call's tag, or the simplified class name when that is
      blank. */
  function EffectiveTag(c: Config, tag: Option<string>, className: string): string
    requires WellFormed(c)
  {
    if !c.tagIsSpace then c.globalTag.value
    else if IsBlank(tag) then SimpleClassName(className)
    else tag.value
  }

  /** A non-blank global tag wins, whatever tag the call passes. */
  lemma GlobalTagWins(c: Config, tag: Option<string>, className: string)
    requires WellFormed(c) && !IsBlank(c.globalTag)
    ensures EffectiveTag(c, tag, className) == c.globalTag.value
  {
  }

  /** Without a global tag, a blank or missing call tag falls back to
      the simplified class name, and any other tag is kept. */
  lemma CallTagOrClassName(c: Config, tag: Option<string>, className: string)
    requires WellFormed(c) && IsBlank(c.globalTag)
    ensures EffectiveTag(c, tag, className) ==
      if IsBlank(tag) then SimpleClassName(className) else tag.value
  {
  }

  /** The effective tag is never blank when the class name yields a visible
      simple name. */
  lemma EffectiveTagNotBlank(c: Config, tag: Option<string>, className: string)
    requires WellFormed(c) && !IsBlank(Some(SimpleClassName(className)))
    ensures !IsBlank(Some(EffectiveTag(c, tag, className)))
  {
  }

  // ---------------------------------------------------------------------------
  // Head line and body
  // ---------------------------------------------------------------------------

  /** `"Thread: %s, %s(%s.java:%d)"` filled with the caller's frame. */
  function HeadLine(site: CallSite): string {
    "Thread: " + site.threadName + ", " + site.methodName + "("
      + SimpleClassName(site.className) + ".java:" + IntString(site.lineNumber) + ")"
  }

  function Head(c: Config, site: CallSite): string {
    if c.logHeadSwitch then HeadLine(site) + [LINE_SEPARATOR] else ""
  }

  /** `args[i] = <value>` for argument i. */
  function ArgLine(i: nat, v: Option<string>): string {
    "args[" + NatString(i) + "] = " + Show(v)
  }

  function ArgLines(cs: seq<Option<string>>): (r: seq<string>)
    ensures |r| == |cs|
  {
    seq(|cs|, i requires 0 <= i < |cs| => ArgLine(i, cs[i]))
  }

  /** The body of a call with other than one argument: one line per
      argument, each ended by the line separator. */
  function ArgsBody(cs: seq<Option<string>>): string {
    Terminated(ArgLines(cs), LINE_SEPARATOR)
  }

  /** The pretty-printed text when the parser succeeded, else the original text. */
  function Recover(parsed: Option<string>, original: string): string {
    if parsed.Some? then parsed.value else original
  }

  /** `formatJson`: only text starting with `{` or `[` is re-indented. */
  function FormatJson(json: string, fmt: Formatters): string {
    if |json| > 0 && json[0] == '{' then Recover(fmt.jsonObject(json), json)
    else if |json| > 0 && json[0] == '[' then Recover(fmt.jsonArray(json), json)
    else json
  }

  /** `s.replaceFirst(">", ">" + LINE_SEPARATOR)`. */
  function BreakAfterFirstTag(s: string): string {
    if s == [] then ""
    else if s[0] == '>' then ['>', LINE_SEPARATOR] + s[1..]
    else [s[0]] + BreakAfterFirstTag(s[1..])
  }

  /** `formatXml`: the transformed text with a break after its first `>`,
      or the input when the transform fails. */
  function FormatXml(xml: string, fmt: Formatters): string {
    var t := fmt.xmlTransform(xml);
    if t.Some? then BreakAfterFirstTag(t.value) else xml
  }

  /** Text that does not start with `{` or `[`, or that the parser rejects,
      is returned unchanged. */
  lemma JsonPassThrough(json: string, fmt: Formatters)
    requires |json| == 0 || (json[0] != '{' && json[0] != '[')
      || (json[0] == '{' && fmt.jsonObject(json).None?)
      || (json[0] == '[' && fmt.jsonArray(json).None?)
    ensures FormatJson(json, fmt) == json
  {
  }

  /** XML the transformer rejects is returned unchanged. */
  lemma XmlPassThrough(xml: string, fmt: Formatters)
    requires fmt.xmlTransform(xml).None?
    ensures FormatXml(xml, fmt) == xml
  {
  }

  /** The break goes right after the first `>`, and nowhere when there is none. */
  lemma {:induction false} BreakAfterFirstTagShape(s: string)
    ensures var k := |Before(s, '>')|;
      BreakAfterFirstTag(s) == if k < |s| then s[..k + 1] + [LINE_SEPARATOR] + s[k + 1..] else s
  {
    if s != [] && s[0] != '>' {
      BreakAfterFirstTagShape(s[1..]);
      var k := |Before(s[1..], '>')|;
      if k < |s[1..]| {
        assert [s[0]] + (s[1..][..k + 1] + [LINE_SEPARATOR] + s[1..][k + 1..])
          == s[..k + 2] + [LINE_SEPARATOR] + s[k + 2..];
      }
    }
  }

  /** The body: a placeholder for a null argument array, the single
      argument's text (formatted for JSON and XML), or one line per argument. */
  function Body(t: int, contents: Option<seq<Option<string>>>, fmt: Formatters): string {
    if contents.None? then NULL_TIPS
    else if |contents.value| == 1 then
      var b := Show(contents.value[0]);
      if t == JSON then FormatJson(b, fmt) else if t == XML then FormatXml(b, fmt) else b
    else ArgsBody(contents.value)
  }

  /** Every line of `msg` behind the left border, each ended by the separator. */
  function Bordered(msg: string): string {
    Terminated(Prefixed(Split(msg, LINE_SEPARATOR)), LINE_SEPARATOR)
  }

  function Prefixed(lines: seq<string>): (r: seq<string>)
    ensures |r| == |lines|
  {
    seq(|lines|, i requires 0 <= i < |lines| => LEFT_BORDER + lines[i])
  }

  /** The message `processContents` returns beside the tag. */
  function Message(c: Config, t: int, contents: Option<seq<Option<string>>>, site: CallSite, fmt: Formatters): string {
    var msg := Head(c, site) + Body(t, contents, fmt);
    if c.logBorderSwitch then Bordered(msg) else msg
  }

  // ---------------------------------------------------------------------------
  // Properties of the composition
  // ---------------------------------------------------------------------------

  predicate NoBreak(s: string) { LINE_SEPARATOR !in s }

  lemma NatStringNoBreak(n: nat)
    ensures NoBreak(NatString(n))
  {
    var r := NatString(n);
    forall i | 0 <= i < |r| ensures r[i] != LINE_SEPARATOR {
      assert IsDigit(r[i]);
    }
  }

  lemma ArgLinesShape(cs: seq<Option<string>>)
    requires forall i :: 0 <= i < |cs| ==> NoBreak(Show(cs[i]))
    ensures forall i :: 0 <= i < |cs| ==> NoBreak(ArgLines(cs)[i]) && ArgLines(cs)[i] != ""
  {
    forall i | 0 <= i < |cs|
      ensures NoBreak(ArgLines(cs)[i]) && ArgLines(cs)[i] != ""
    {
      NatStringNoBreak(i);
      assert ArgLines(cs)[i] == "args[" + NatString(i) + "] = " + Show(cs[i]);
    }
  }

  /** Zero arguments give the empty body. */
  lemma NoArgsEmptyBody(fmt: Formatters, t: int)
    ensures Body(t, Some([]), fmt) == ""
  {
  }

  /** Several arguments, none holding a line break, give one line
      `args[i] = <value>` per argument, in index order. */
  lemma ArgsBodyLines(cs: seq<Option<string>>)
    requires |cs| >= 1
    requires forall i :: 0 <= i < |cs| ==> NoBreak(Show(cs[i]))
    ensures Split(ArgsBody(cs), LINE_SEPARATOR) == ArgLines(cs)
  {
    ArgLinesShape(cs);
    SplitTerminated(ArgLines(cs), LINE_SEPARATOR);
  }

  /** The lines of a bordered message are the message's own lines, each
      behind the left border. */
  lemma BorderedLines(msg: string)
    requires Split(msg, LINE_SEPARATOR) != []
    ensures Split(Bordered(msg), LINE_SEPARATOR) == Prefixed(Split(msg, LINE_SEPARATOR))
  {
    var lines := Split(msg, LINE_SEPARATOR);
    var p := Prefixed(lines);
    SplitNoSep(msg, LINE_SEPARATOR);
    forall i | 0 <= i < |p| ensures LINE_SEPARATOR !in p[i] && p[i] != "" {
      assert p[i] == LEFT_BORDER + lines[i];
      assert p[i][0] == LEFT_BORDER[0];
    }
    SplitTerminated(p, LINE_SEPARATOR);
  }

  /** Bordering a text written line by line puts the border before each line. */
  lemma BorderedTerminated(lines: seq<string>)
    requires |lines| >= 1 && lines[|lines| - 1] != ""
    requires forall i :: 0 <= i < |lines| ==> NoBreak(lines[i])
    ensures Bordered(Terminated(lines, LINE_SEPARATOR)) == Terminated(Prefixed(lines), LINE_SEPARATOR)
  {
    SplitTerminated(lines, LINE_SEPARATOR);
  }

  /** The whole message of a call with zero or several arguments, with the
      head line on: the head line and the argument lines, in order, each
      behind the left border when the border is on. */
  lemma ArgsMessageLines(c: Config, t: int, cs: seq<Option<string>>, site: CallSite, fmt: Formatters)
    requires c.logHeadSwitch && |cs| != 1
    requires NoBreak(site.threadName) && NoBreak(site.methodName) && NoBreak(SimpleClassName(site.className))
    requires forall i :: 0 <= i < |cs| ==> NoBreak(Show(cs[i]))
    ensures var lines := [HeadLine(site)] + ArgLines(cs);
      Message(c, t, Some(cs), site, fmt) ==
        Terminated(if c.logBorderSwitch then Prefixed(lines) else lines, LINE_SEPARATOR)
  {
    var lines := [HeadLine(site)] + ArgLines(cs);
    assert lines[1..] == ArgLines(cs);
    assert Head(c, site) + Body(t, Some(cs), fmt) == Terminated(lines, LINE_SEPARATOR) by {
      assert Body(t, Some(cs), fmt) == ArgsBody(cs);
      assert HeadLine(site) + [LINE_SEPARATOR] + Terminated(lines[1..], LINE_SEPARATOR)
        == Terminated(lines, LINE_SEPARATOR);
    }
    ArgLinesShape(cs);
    assert NoBreak(HeadLine(site)) by {
      var n := if site.lineNumber < 0 then -site.lineNumber else site.lineNumber;
      NatStringNoBreak(n);
      assert NoBreak(IntString(site.lineNumber));
    }
    assert lines[0] == HeadLine(site) && HeadLine(site) != "";
    if c.logBorderSwitch {
      BorderedTerminated(lines);
    }
  }
}
