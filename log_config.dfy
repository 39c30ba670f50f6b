/**
 * The constants of LogUtils, the configuration its Builder writes, and the
 * dispatch rule of `log` that decides which sinks a call reaches.
 */
module LogConfig {
  import opened Wrappers
  import opened JavaText

  // Severity codes: increasing powers of two, so `>=` orders them.
  const V: int := 0x01
  const D: int := 0x02
  const I: int := 0x04
  const W: int := 0x08
  const E: int := 0x10
  const A: int := 0x20
  // The three non-severity message types.
  const FILE: int := 0xF1
  const JSON: int := 0xF2
  const XML: int := 0xF4

  predicate IsSeverity(t: int) {
    t == V || t == D || t == I || t == W || t == E || t == A
  }

  /** The line separator, as `System.getProperty("line.separator")` gives it on Android. */
  const LINE_SEPARATOR: char := '\n'
  const MAX_LEN: nat := 4000
  const TOP_BORDER: string := "╔═══════════════════════════════════════════════════════════════════════════════════════════════════"
  const LEFT_BORDER: string := "║ "
  const BOTTOM_BORDER: string := "╚═══════════════════════════════════════════════════════════════════════════════════════════════════"
  const NULL_TIPS: string := "Log with null object."

  /** A snapshot of the mutable settings of a LogUtils instance. */
  datatype Config = Config(
    logSwitch: bool,           // master switch
    globalTag: Option<string>, // tag that overrides per-call tags
    tagIsSpace: bool,          // whether the global tag is blank
    encryptSwitch: bool,       // encrypt file entries
    logHeadSwitch: bool,       // prepend the thread/caller head line
    log2FileSwitch: bool,      // also write severities V..A to file
    logBorderSwitch: bool,     // decorate with borders
    logFilter: int,            // minimum severity printed to the console
    dir: Option<string>)       // log directory, unset until a Builder is created

  /** The field initialisers of LogUtils. */
  const DEFAULT: Config := Config(true, None, true, false, true, false, true, V, None)

  /** The relation between the global tag and its blank flag that every
      setter keeps. */
  predicate WellFormed(c: Config) {
    c.tagIsSpace == IsBlank(c.globalTag)
  }

  /** The level at which `log` prints a message of this type to the console,
      if it does. */
  function ConsoleLevel(c: Config, t: int): (lv: Option<int>)
    ensures lv.Some? ==> IsSeverity(lv.value)
  {
    if !c.logSwitch then None
    else if IsSeverity(t) then (if t >= c.logFilter then Some(t) else None)
    else if t == JSON || t == XML then Some(D)
    else None
  }

  /** Whether `log` hands a message of this type to the file sink. */
  predicate WritesFile(c: Config, t: int) {
    c.logSwitch && ((IsSeverity(t) && c.log2FileSwitch) || t == FILE)
  }

  lemma DefaultWellFormed()
    ensures WellFormed(DEFAULT)
  {
  }

  /** The master switch gates every sink, whatever the type. */
  lemma SwitchOffSilences(c: Config, t: int)
    requires !c.logSwitch
    ensures ConsoleLevel(c, t).None? && !WritesFile(c, t)
  {
  }

  /** V..A reach the console, at their own level, exactly when they pass the
      filter, and the file exactly when file logging is on. */
  lemma SeverityRouting(c: Config, t: int)
    requires c.logSwitch && IsSeverity(t)
    ensures ConsoleLevel(c, t).Some? <==> t >= c.logFilter
    ensures ConsoleLevel(c, t).Some? ==> ConsoleLevel(c, t).value == t
    ensures WritesFile(c, t) <==> c.log2FileSwitch
  {
  }

  /** FILE goes to the file only, whatever the filter and the file switch. */
  lemma FileRouting(c: Config)
    requires c.logSwitch
    ensures ConsoleLevel(c, FILE).None? && WritesFile(c, FILE)
  {
  }

  /** JSON and XML go to the console at level D only, bypassing the filter
      and the file switch. */
  lemma StructuredRouting(c: Config, t: int)
    requires c.logSwitch && (t == JSON || t == XML)
    ensures ConsoleLevel(c, t) == Some(D) && !WritesFile(c, t)
  {
  }

  /** The filter is monotone: a severity that is printed lets every higher
      severity through too. */
  lemma FilterMonotone(c: Config, lo: int, hi: int)
    requires IsSeverity(lo) && IsSeverity(hi) && lo <= hi
    requires ConsoleLevel(c, lo).Some?
    ensures ConsoleLevel(c, hi).Some?
  {
  }

  /** Types that are neither a severity nor FILE, JSON or XML produce nothing. */
  lemma UnknownTypeSilent(c: Config, t: int)
    requires !IsSeverity(t) && t != FILE && t != JSON && t != XML
    ensures ConsoleLevel(c, t).None? && !WritesFile(c, t)
  {
  }
}
