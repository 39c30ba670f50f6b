/**
 * The console sink: `print` maps a severity code to the matching
 * `android.util.Log` call, modelled as appending a line to a sequence.
 */
module Console {
  import opened Wrappers
  import opened LogConfig
  import opened Chunker

  /** The six `android.util.Log` entry points, `Log.v` .. `Log.wtf`. */
  datatype Priority = Verbose | Debug | Info | Warn | Error | Assert

  datatype ConsoleLine = ConsoleLine(priority: Priority, tag: string, msg: string)

  /** The switch of `print`: V..A have a Log call, other codes none. */
  function PriorityOf(t: int): (p: Option<Priority>)
    ensures p.Some? <==> IsSeverity(t)
  {
    if t == V then Some(Verbose)
    else if t == D then Some(Debug)
    else if t == I then Some(Info)
    else if t == W then Some(Warn)
    else if t == E then Some(Error)
    else if t == A then Some(Assert)
    else None
  }

  /** Distinct severities reach distinct Log calls. */
  lemma PriorityInjective(s: int, t: int)
    requires IsSeverity(s) && IsSeverity(t) && s != t
    ensures PriorityOf(s) != PriorityOf(t)
  {
  }

  /** What one `print(type, tag, msg)` call appends. */
  function Emit(t: int, tag: string, msg: string): seq<ConsoleLine> {
    var p := PriorityOf(t);
    if p.Some? then [ConsoleLine(p.value, tag, msg)] else []
  }

  /** What a series of `print` calls appends, in call order: one line per
      segment at the matching priority, or nothing for a code `print`
      ignores. */
  function EmitAll(t: int, tag: string, segs: seq<string>): seq<ConsoleLine> {
    var p := PriorityOf(t);
    if p.Some? then seq(|segs|, k requires 0 <= k < |segs| => ConsoleLine(p.value, tag, segs[k]))
    else []
  }

  /** One more `print` call extends the lines of the earlier ones. */
  lemma EmitStep(before: seq<ConsoleLine>, t: int, tag: string, segs: seq<string>, m: string)
    ensures before + EmitAll(t, tag, segs) + Emit(t, tag, m) == before + EmitAll(t, tag, segs + [m])
  {
    var p := PriorityOf(t);
    if p.Some? {
      assert EmitAll(t, tag, segs + [m]) == EmitAll(t, tag, segs) + Emit(t, tag, m);
    }
  }

  /** Two series of `print` calls in a row print their concatenation. */
  lemma EmitAllAppend(before: seq<ConsoleLine>, t: int, tag: string, a: seq<string>, b: seq<string>)
    ensures before + EmitAll(t, tag, a) + EmitAll(t, tag, b) == before + EmitAll(t, tag, a + b)
  {
    var p := PriorityOf(t);
    if p.Some? {
      assert EmitAll(t, tag, a + b) == EmitAll(t, tag, a) + EmitAll(t, tag, b);
    }
    assert before + EmitAll(t, tag, a) + EmitAll(t, tag, b) == before + (EmitAll(t, tag, a) + EmitAll(t, tag, b));
  }

  /** Everything `log` prints to the console for one call. */
  function ConsoleOutput(c: Config, t: int, tag: string, msg: string): seq<ConsoleLine> {
    var lv := ConsoleLevel(c, t);
    if lv.Some? then EmitAll(lv.value, tag, Segments(c.logBorderSwitch, msg)) else []
  }

  /** A call prints something exactly when the dispatch rule routes it to the
      console, and then it prints the segments of the chunker, in order, at
      the routed level. */
  lemma ConsoleOutputIsSegments(c: Config, t: int, tag: string, msg: string)
    ensures ConsoleOutput(c, t, tag, msg) != [] <==> ConsoleLevel(c, t).Some?
    ensures ConsoleLevel(c, t).Some? ==>
      var segs := Segments(c.logBorderSwitch, msg);
      var out := ConsoleOutput(c, t, tag, msg);
      |out| == |segs| && forall k :: 0 <= k < |segs| ==>
        out[k] == ConsoleLine(PriorityOf(ConsoleLevel(c, t).value).value, tag, segs[k])
  {
    var lv := ConsoleLevel(c, t);
    if lv.Some? {
      var segs := Segments(c.logBorderSwitch, msg);
      SegmentsBracketed(c.logBorderSwitch, msg);
      assert |segs| >= 1;
    }
  }
}
