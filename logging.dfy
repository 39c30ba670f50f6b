/**
 * LogUtils itself: the mutable settings, the Builder that writes them, and
 * the imperative operations `log`, `processContents`, `printLog`, `print`,
 * `print2File` and `isSpace`. The console is a sequence of emitted lines,
 * the file system a map from path to content, and the background writer a
 * FIFO of write tasks.
 */
module Logging {
  import opened Wrappers
  import opened JavaText
  import opened LogConfig
  import opened Format
  import opened Chunker
  import opened Console
  import opened FileSink
  import opened SeqFacts

  /** What the Builder reads from the Android Context. */
  datatype Context = Context(externalStorageMounted: bool, externalCacheDir: Option<string>, cacheDir: string)

  /** The external cache directory when storage is mounted and it exists,
      else the internal one, followed by `log/`. */
  function LogDirectory(ctx: Context): string {
    (if ctx.externalStorageMounted && ctx.externalCacheDir.Some? then ctx.externalCacheDir.value
     else ctx.cacheDir) + "/" + "log" + "/"
  }

  /** Everything one call takes from the platform: the caller's frame and
      thread, the clock's two readings (day and time of the entry), whether
      `createOrExistsFile` succeeds, the pretty-printers and the encrypter. */
  datatype Platform = Platform(
    site: CallSite,
    date: string,
    time: string,
    fileReady: bool,
    fmt: Formatters,
    encrypt: string -> Option<string>)

  /** The task `print2File` queues for a message. */
  function EntryTask(c: Config, tag: string, msg: string, p: Platform): WriteTask {
    WriteTask(FilePath(c.dir, p.date),
              FileContent(c.encryptSwitch, FileEntry(c.logBorderSwitch, p.time, tag, msg), p.encrypt))
  }

  /** What `print2File` queues goes to the day's file; without encryption it
      is the entry itself, from which the message reads back unchanged, and
      with encryption it is whatever the encrypter makes of that entry. */
  lemma QueuedContent(c: Config, tag: string, msg: string, p: Platform)
    ensures EntryTask(c, tag, msg, p).path == FilePath(c.dir, p.date)
    ensures !c.encryptSwitch ==>
      EntryTask(c, tag, msg, p).content.Some?
      && EntryMessage(c.logBorderSwitch, p.time, tag, EntryTask(c, tag, msg, p).content.value) == Some(msg)
    ensures c.encryptSwitch ==>
      EntryTask(c, tag, msg, p).content == p.encrypt(FileEntry(c.logBorderSwitch, p.time, tag, msg))
  {
    EntryRoundTrip(c.logBorderSwitch, p.time, tag, msg);
  }

  /** The StringBuilder loop of `processContents` for zero or several
      arguments: one `args[i] = value` line per argument. */
  method ArgsText(cs: seq<Option<string>>) returns (sb: string)
    ensures sb == ArgsBody(cs)
  {
    sb := "";
    for i := 0 to |cs|
      invariant sb == ArgsBody(cs[..i])
    {
      assert ArgLines(cs[..i + 1]) == ArgLines(cs[..i]) + [ArgLine(i, cs[i])];
      TerminatedSnoc(ArgLines(cs[..i]), ArgLine(i, cs[i]), LINE_SEPARATOR);
      sb := sb + ArgLine(i, cs[i]) + [LINE_SEPARATOR];
    }
    assert cs[..|cs|] == cs;
  }

  /** The border loop of `processContents`: every line of the split message
      behind the left border, each ended by the line separator. */
  method BorderText(msg: string) returns (sb: string)
    ensures sb == Bordered(msg)
  {
    sb := "";
    var lines := Split(msg, LINE_SEPARATOR);
    for k := 0 to |lines|
      invariant sb == Terminated(Prefixed(lines[..k]), LINE_SEPARATOR)
    {
      assert Prefixed(lines[..k + 1]) == Prefixed(lines[..k]) + [LEFT_BORDER + lines[k]];
      TerminatedSnoc(Prefixed(lines[..k]), LEFT_BORDER + lines[k], LINE_SEPARATOR);
      sb := sb + LEFT_BORDER + lines[k] + [LINE_SEPARATOR];
    }
    assert lines[..|lines|] == lines;
  }

  class LogUtils {
    var dir: Option<string>
    var logSwitch: bool
    var globalTag: Option<string>
    var tagIsSpace: bool
    var encryptSwitch: bool
    var logHeadSwitch: bool
    var log2FileSwitch: bool
    var logBorderSwitch: bool
    var logFilter: int
    var builder: Builder?
    /** Lines handed to android.util.Log, oldest first. */
    var console: seq<ConsoleLine>
    /** The file system: path to content. */
    var files: map<string, string>
    /** Writes queued for the background writer, oldest first. */
    var pending: seq<WriteTask>

    function Settings(): Config
      reads this`logSwitch, this`globalTag, this`tagIsSpace, this`encryptSwitch, this`logHeadSwitch,
            this`log2FileSwitch, this`logBorderSwitch, this`logFilter, this`dir
    {
      Config(logSwitch, globalTag, tagIsSpace, encryptSwitch, logHeadSwitch,
             log2FileSwitch, logBorderSwitch, logFilter, dir)
    }

    predicate Valid()
      reads this`logSwitch, this`globalTag, this`tagIsSpace, this`encryptSwitch, this`logHeadSwitch,
            this`log2FileSwitch, this`logBorderSwitch, this`logFilter, this`dir, this`builder
    {
      WellFormed(Settings()) && (builder != null ==> builder.owner == this)
    }

    /** A fresh instance with the field initialisers, over an existing file system. */
    constructor (fs: map<string, string>)
      ensures Valid() && Settings() == DEFAULT
      ensures builder == null && console == [] && files == fs && pending == []
    {
      dir := None;
      logSwitch := true;
      globalTag := None;
      tagIsSpace := true;
      encryptSwitch := false;
      logHeadSwitch := true;
      log2FileSwitch := false;
      logBorderSwitch := true;
      logFilter := V;
      builder := null;
      console := [];
      files := fs;
      pending := [];
    }

    /** `initBuilder`: the first call creates the Builder, which sets the log
        directory; later calls return that Builder and change nothing. */
    method InitBuilder(ctx: Context) returns (b: Builder)
      requires Valid()
      modifies this`builder, this`dir
      ensures Valid() && b.owner == this && builder == b
      ensures old(builder) == null ==> fresh(b) && dir == Some(LogDirectory(ctx))
      ensures old(builder) != null ==> b == old(builder) && dir == old(dir)
    {
      if builder == null {
        builder := new Builder(this, ctx);
      }
      b := builder;
    }

    /** `isSpace`: true iff the string is null or whitespace throughout. */
    method IsSpace(s: Option<string>) returns (blank: bool)
      ensures blank == IsBlank(s)
    {
      if s.None? {
        return true;
      }
      var str := s.value;
      for i := 0 to |str|
        invariant forall j :: 0 <= j < i ==> IsWhitespace(str[j])
      {
        if !IsWhitespace(str[i]) {
          return false;
        }
      }
      return true;
    }

    /** `processContents`: the tag to log under and the composed message. */
    method ProcessContents(t: int, tag: Option<string>, contents: Option<seq<Option<string>>>,
                           site: CallSite, fmt: Formatters) returns (tagOut: string, msg: string)
      requires Valid()
      ensures tagOut == EffectiveTag(Settings(), tag, site.className)
      ensures msg == Message(Settings(), t, contents, site, fmt)
    {
      var className := SimpleClassName(site.className);
      if !tagIsSpace {
        tagOut := globalTag.value;
      } else {
        var blank := IsSpace(tag);
        tagOut := if blank then className else tag.value;
      }
      var head := if logHeadSwitch then HeadLine(site) + [LINE_SEPARATOR] else "";
      assert head == Head(Settings(), site);
      var body := NULL_TIPS;
      if contents.Some? {
        var cs := contents.value;
        if |cs| == 1 {
          body := Show(cs[0]);
          if t == JSON {
            body := FormatJson(body, fmt);
          } else if t == XML {
            body := FormatXml(body, fmt);
          }
        } else {
          body := ArgsText(cs);
        }
      }
      assert body == Body(t, contents, fmt);
      msg := head + body;
      if logBorderSwitch {
        msg := BorderText(msg);
      }
    }

    /** `print`: one Log call at the priority of the type, none for other codes. */
    method Print(t: int, tag: string, msg: string)
      modifies this`console
      ensures console == old(console) + Emit(t, tag, msg)
    {
      var p := PriorityOf(t);
      if p.Some? {
        console := console + [ConsoleLine(p.value, tag, msg)];
      }
    }

    /** `printLog`: the chunker's segments, printed in order, between the
        top and bottom borders when the border switch is on. */
    method PrintLog(t: int, tag: string, msg: string)
      modifies this`console
      ensures console == old(console) + EmitAll(t, tag, Segments(logBorderSwitch, msg))
    {
      ghost var top: seq<string> := [];
      if logBorderSwitch {
        Print(t, tag, TOP_BORDER);
        EmitStep(old(console), t, tag, [], TOP_BORDER);
        top := [TOP_BORDER];
      }
      assert console == old(console) + EmitAll(t, tag, top);
      PrintSlices(t, tag, msg);
      ghost var chunks := Rewrap(logBorderSwitch, Slices(msg));
      EmitAllAppend(old(console), t, tag, top, chunks);
      ghost var bottom: seq<string> := [];
      if logBorderSwitch {
        Print(t, tag, BOTTOM_BORDER);
        EmitStep(old(console), t, tag, top + chunks, BOTTOM_BORDER);
        bottom := [BOTTOM_BORDER];
      }
      SegmentsFramed(logBorderSwitch, msg);
      assert Segments(logBorderSwitch, msg) == top + chunks + bottom;
    }

    /** The slicing loop of `printLog`: the first slice as it is, every later
        one behind the left border when the border switch is on. */
    method PrintSlices(t: int, tag: string, msg: string)
      modifies this`console
      ensures console == old(console) + EmitAll(t, tag, Rewrap(logBorderSwitch, Slices(msg)))
    {
      ghost var chunks := Rewrap(logBorderSwitch, Slices(msg));
      var len := |msg|;
      var countOfSub := len / MAX_LEN;
      SlicesCount(msg);
      ghost var printed: seq<string>;
      if countOfSub > 0 {
        SliceFirst(msg);
        RewrapSplit(logBorderSwitch, Slices(msg));
        Print(t, tag, msg[0..MAX_LEN]);
        EmitStep(old(console), t, tag, [], msg[0..MAX_LEN]);
        printed := [msg[0..MAX_LEN]];
        var sub;
        var index := MAX_LEN;
        for i := 1 to countOfSub
          invariant 0 <= index <= len
          invariant |Slices(msg[index..])| == countOfSub + 1 - i
          invariant chunks == printed + Wrapped(logBorderSwitch, Slices(msg[index..]))
          invariant console == old(console) + EmitAll(t, tag, printed)
        {
          WrappedStep(logBorderSwitch, msg[index..]);
          DropTake(msg, index, MAX_LEN);
          DropDrop(msg, index, MAX_LEN);
          sub := msg[index..index + MAX_LEN];
          var line := (if logBorderSwitch then LEFT_BORDER else "") + sub;
          Print(t, tag, line);
          EmitStep(old(console), t, tag, printed, line);
          Assoc(printed, [line], Wrapped(logBorderSwitch, Slices(msg[index + MAX_LEN..])));
          printed := printed + [line];
          index := index + MAX_LEN;
        }
        WrappedEnd(logBorderSwitch, msg[index..]);
        sub := msg[index..len];
        assert sub == msg[index..];
        var line := (if logBorderSwitch then LEFT_BORDER else "") + sub;
        Print(t, tag, line);
        EmitStep(old(console), t, tag, printed, line);
        printed := printed + [line];
      } else {
        SliceOnly(msg);
        RewrapAt(logBorderSwitch, Slices(msg), 0);
        Print(t, tag, msg);
        EmitStep(old(console), t, tag, [], msg);
        printed := [msg];
      }
      assert printed == chunks;
    }

    /** `print2File`: when the day's file can be made ready, queue the entry
        (encrypted when the switch is on) for the background writer. */
    method Print2File(tag: string, msg: string, p: Platform)
      modifies this`files, this`pending
      ensures var path := FilePath(dir, p.date);
        if p.fileReady then files == Touch(old(files), path) && pending == old(pending) + [EntryTask(Settings(), tag, msg, p)]
        else files == old(files) && pending == old(pending)
    {
      var fullPath := FilePath(dir, p.date);
      if !p.fileReady {
        return;
      }
      files := Touch(files, fullPath);
      var time := p.time;
      var sb := "";
      if logBorderSwitch {
        sb := sb + TOP_BORDER + [LINE_SEPARATOR];
        sb := sb + LEFT_BORDER + time + tag + [LINE_SEPARATOR] + msg;
        sb := sb + BOTTOM_BORDER + [LINE_SEPARATOR];
        BorderedAppends(TOP_BORDER, LEFT_BORDER, BOTTOM_BORDER, time, tag, msg, LINE_SEPARATOR);
      } else {
        sb := sb + time + tag + [LINE_SEPARATOR] + msg + [LINE_SEPARATOR];
        PlainAppends(time, tag, msg, LINE_SEPARATOR);
      }
      sb := sb + [LINE_SEPARATOR];
      assert sb == FileEntry(logBorderSwitch, time, tag, msg);
      var dateLogContent := if encryptSwitch then p.encrypt(sb) else Some(sb);
      pending := pending + [WriteTask(fullPath, dateLogContent)];
    }

    /** `log`: nothing when the master switch is off; otherwise the message is
        composed once and routed to the console and/or the file by type. */
    method Log(t: int, tag: Option<string>, contents: Option<seq<Option<string>>>, p: Platform)
      requires Valid()
      modifies this`console, this`files, this`pending
      ensures !logSwitch ==> console == old(console) && files == old(files) && pending == old(pending)
      ensures console == old(console) + ConsoleOutput(Settings(), t,
        EffectiveTag(Settings(), tag, p.site.className), Message(Settings(), t, contents, p.site, p.fmt))
      ensures WritesFile(Settings(), t) && p.fileReady ==>
        files == Touch(old(files), FilePath(dir, p.date))
        && pending == old(pending) + [EntryTask(Settings(), EffectiveTag(Settings(), tag, p.site.className),
                                                Message(Settings(), t, contents, p.site, p.fmt), p)]
      ensures !(WritesFile(Settings(), t) && p.fileReady) ==> files == old(files) && pending == old(pending)
    {
      if !logSwitch {
        return;
      }
      var tg, msg := ProcessContents(t, tag, contents, p.site, p.fmt);
      Route(t, tg, msg, p);
    }

    /** The switch of `log` over the type, for a composed tag and message:
        the console at the routed level, the file when file logging applies. */
    method Route(t: int, tag: string, msg: string, p: Platform)
      requires logSwitch
      modifies this`console, this`files, this`pending
      ensures console == old(console) + ConsoleOutput(Settings(), t, tag, msg)
      ensures WritesFile(Settings(), t) && p.fileReady ==>
        files == Touch(old(files), FilePath(dir, p.date))
        && pending == old(pending) + [EntryTask(Settings(), tag, msg, p)]
      ensures !(WritesFile(Settings(), t) && p.fileReady) ==> files == old(files) && pending == old(pending)
    {
      ghost var c := Settings();
      ghost var out := ConsoleOutput(c, t, tag, msg);
      if IsSeverity(t) {
        SeverityRouting(c, t);
        if t >= logFilter {
          PrintLog(t, tag, msg);
        } else {
          assert out == [];
        }
        if log2FileSwitch {
          Print2File(tag, msg, p);
        }
      } else if t == FILE {
        FileRouting(c);
        assert out == [];
        Print2File(tag, msg, p);
      } else if t == JSON || t == XML {
        StructuredRouting(c, t);
        PrintLog(D, tag, msg);
      } else {
        UnknownTypeSilent(c, t);
        assert out == [];
      }
    }

    /** The one-argument entry points `v(Object)` .. `a(Object)`, `file(Object)`,
        `json(String)` and `xml(String)`: one object, with the global tag passed
        as the call tag, so it is logged under that tag when one is set and
        under the simplified class name otherwise. */
    method LogWithGlobalTag(t: int, content: Option<string>, p: Platform)
      requires Valid()
      modifies this`console, this`files, this`pending
      ensures !logSwitch ==> console == old(console) && files == old(files) && pending == old(pending)
      ensures console == old(console) + ConsoleOutput(Settings(), t,
        EffectiveTag(Settings(), globalTag, p.site.className), Message(Settings(), t, Some([content]), p.site, p.fmt))
      ensures WritesFile(Settings(), t) && p.fileReady ==>
        files == Touch(old(files), FilePath(dir, p.date))
        && pending == old(pending) + [EntryTask(Settings(), EffectiveTag(Settings(), globalTag, p.site.className),
                                                Message(Settings(), t, Some([content]), p.site, p.fmt), p)]
      ensures !(WritesFile(Settings(), t) && p.fileReady) ==> files == old(files) && pending == old(pending)
    {
      Log(t, globalTag, Some([content]), p);
    }

    /** One run of the background writer: the oldest queued task is taken
        off and applied; `ioOk` says whether opening and writing succeed. */
    method RunNextWrite(ioOk: bool)
      modifies this`files, this`pending
      ensures old(pending) == [] ==> files == old(files) && pending == []
      ensures old(pending) != [] ==>
        files == ApplyWrite(old(files), old(pending)[0], ioOk) && pending == old(pending)[1..]
    {
      if pending != [] {
        var task := pending[0];
        pending := pending[1..];
        files := ApplyWrite(files, task, ioOk);
      }
    }

    /** The single worker thread running the queue to empty, every write
        succeeding: each file ends with its tasks' contents appended in
        submission order. */
    method RunAllWrites()
      modifies this`files, this`pending
      ensures pending == [] && files == ApplyAll(old(files), old(pending))
      ensures forall path :: Existing(files, path) == Existing(old(files), path) + ContentsFor(old(pending), path)
    {
      while pending != []
        invariant ApplyAll(files, pending) == ApplyAll(old(files), old(pending))
        decreases |pending|
      {
        ApplyAllFront(files, pending[0], pending[1..]);
        assert [pending[0]] + pending[1..] == pending;
        RunNextWrite(true);
      }
      forall path {
        ApplyAllAppends(old(files), old(pending), path);
      }
    }
  }

  /** The Builder: its setters write the settings of the LogUtils it belongs to. */
  class Builder {
    const owner: LogUtils

    /** Chooses the log directory from the Context. */
    constructor (owner: LogUtils, ctx: Context)
      requires owner.Valid()
      modifies owner`dir
      ensures this.owner == owner && owner.Valid()
      ensures owner.Settings() == old(owner.Settings()).(dir := Some(LogDirectory(ctx)))
    {
      this.owner := owner;
      new;
      owner.dir := Some(LogDirectory(ctx));
    }

    method SetLogSwitch(logSwitch: bool)
      requires owner.Valid()
      modifies owner`logSwitch
      ensures owner.Valid() && owner.Settings() == old(owner.Settings()).(logSwitch := logSwitch)
    {
      owner.logSwitch := logSwitch;
    }

    method SetEncryptSwitch(encryptSwitch: bool)
      requires owner.Valid()
      modifies owner`encryptSwitch
      ensures owner.Valid() && owner.Settings() == old(owner.Settings()).(encryptSwitch := encryptSwitch)
    {
      owner.encryptSwitch := encryptSwitch;
    }

    /** A non-blank tag is stored and marked non-blank; a blank or null one
        clears the global tag to "" and marks it blank. */
    method SetGlobalTag(tag: Option<string>)
      requires owner.Valid()
      modifies owner`globalTag, owner`tagIsSpace
      ensures owner.Valid()
      ensures owner.Settings() == old(owner.Settings()).(
        globalTag := if IsBlank(tag) then Some("") else tag,
        tagIsSpace := IsBlank(tag))
    {
      var blank := owner.IsSpace(tag);
      if !blank {
        owner.globalTag := tag;
        owner.tagIsSpace := false;
      } else {
        owner.globalTag := Some("");
        owner.tagIsSpace := true;
      }
    }

    method SetLogHeadSwitch(logHeadSwitch: bool)
      requires owner.Valid()
      modifies owner`logHeadSwitch
      ensures owner.Valid() && owner.Settings() == old(owner.Settings()).(logHeadSwitch := logHeadSwitch)
    {
      owner.logHeadSwitch := logHeadSwitch;
    }

    method SetLog2FileSwitch(log2FileSwitch: bool)
      requires owner.Valid()
      modifies owner`log2FileSwitch
      ensures owner.Valid() && owner.Settings() == old(owner.Settings()).(log2FileSwitch := log2FileSwitch)
    {
      owner.log2FileSwitch := log2FileSwitch;
    }

    method SetBorderSwitch(borderSwitch: bool)
      requires owner.Valid()
      modifies owner`logBorderSwitch
      ensures owner.Valid() && owner.Settings() == old(owner.Settings()).(logBorderSwitch := borderSwitch)
    {
      owner.logBorderSwitch := borderSwitch;
    }

    /** Any int is accepted, not only the six severity codes. */
    method SetLogFilter(logFilter: int)
      requires owner.Valid()
      modifies owner`logFilter
      ensures owner.Valid() && owner.Settings() == old(owner.Settings()).(logFilter := logFilter)
    {
      owner.logFilter := logFilter;
    }
  }
}
