/**
 * The file sink of `print2File`: the per-date path, the bordered or plain
 * entry, optional encryption, and the single background writer, modelled as
 * a FIFO of write tasks applied to a map from path to file content.
 */
module FileSink {
  import opened Wrappers
  import opened JavaText
  import opened LogConfig
  import opened SeqFacts

  /** One queued write: the target path and the text to append; None where
      the encrypter returned null. */
  datatype WriteTask = WriteTask(path: string, content: Option<string>)

  /** `dir + date + ".txt"`; an unset directory prints as "null". */
  function FilePath(dir: Option<string>, date: string): string {
    Show(dir) + date + ".txt"
  }

  /** The part of an entry before the message. */
  function EntryHead(border: bool, time: string, tag: string): string {
    if border then TOP_BORDER + [LINE_SEPARATOR] + LEFT_BORDER + time + tag + [LINE_SEPARATOR]
    else time + tag + [LINE_SEPARATOR]
  }

  /** The part of an entry after the message, ending in the extra blank line. */
  function EntryTail(border: bool): string {
    if border then BOTTOM_BORDER + [LINE_SEPARATOR] + [LINE_SEPARATOR]
    else [LINE_SEPARATOR] + [LINE_SEPARATOR]
  }

  /** The text `print2File` composes for one message. */
  function FileEntry(border: bool, time: string, tag: string, msg: string): string {
    EntryHead(border, time, tag) + msg + EntryTail(border)
  }

  /** The StringBuilder appends of `print2File` in the bordered layout,
      regrouped as head, message and tail (stated for any border strings). */
  lemma BorderedAppends(top: string, left: string, bottom: string, time: string, tag: string, msg: string, ls: char)
    ensures "" + top + [ls] + left + time + tag + [ls] + msg + bottom + [ls] + [ls]
         == (top + [ls] + left + time + tag + [ls]) + msg + (bottom + [ls] + [ls])
  {
  }

  /** The same for the plain layout. */
  lemma PlainAppends(time: string, tag: string, msg: string, ls: char)
    ensures "" + time + tag + [ls] + msg + [ls] + [ls] == (time + tag + [ls]) + msg + ([ls] + [ls])
  {
  }

  /** Reading a message back out of an entry, given the layout it was written in. */
  function EntryMessage(border: bool, time: string, tag: string, entry: string): Option<string> {
    var h, t := EntryHead(border, time, tag), EntryTail(border);
    if |entry| >= |h| + |t| && entry[..|h|] == h && entry[|entry| - |t|..] == t
    then Some(entry[|h|..|entry| - |t|]) else None
  }

  /** What is queued for an entry: its encryption when the switch is on. */
  function FileContent(encryptSwitch: bool, entry: string, encrypt: string -> Option<string>): Option<string> {
    if encryptSwitch then encrypt(entry) else Some(entry)
  }

  function Existing(files: map<string, string>, path: string): string {
    if path in files then files[path] else ""
  }

  /** A file that `createOrExistsFile` or `FileWriter` makes sure exists. */
  function Touch(files: map<string, string>, path: string): (r: map<string, string>)
    ensures path in r && r[path] == Existing(files, path)
    ensures forall q :: q != path ==> (q in r <==> q in files) && (q in files ==> r[q] == files[q])
  {
    if path in files then files else files[path := ""]
  }

  /** One run of the writer's task: append on success; nothing when opening or
      writing fails; the opened file alone when the content is null. */
  function ApplyWrite(files: map<string, string>, task: WriteTask, ioOk: bool): map<string, string> {
    if !ioOk then files
    else if task.content.None? then Touch(files, task.path)
    else files[task.path := Existing(files, task.path) + task.content.value]
  }

  /** The effect of the writer running every task of `tasks`, in order, with
      every write succeeding. */
  function ApplyAll(files: map<string, string>, tasks: seq<WriteTask>): map<string, string> {
    if tasks == [] then files
    else ApplyWrite(ApplyAll(files, tasks[..|tasks| - 1]), tasks[|tasks| - 1], true)
  }

  /** The text the tasks for `path` carry, in submission order. */
  function ContentsFor(tasks: seq<WriteTask>, path: string): string {
    if tasks == [] then ""
    else
      var t := tasks[|tasks| - 1];
      ContentsFor(tasks[..|tasks| - 1], path)
        + (if t.path == path && t.content.Some? then t.content.value else "")
  }

  /** Reading the message back out of an entry gives it back, in both layouts. */
  lemma EntryRoundTrip(border: bool, time: string, tag: string, msg: string)
    ensures EntryMessage(border, time, tag, FileEntry(border, time, tag, msg)) == Some(msg)
  {
    var h, t := EntryHead(border, time, tag), EntryTail(border);
    var e := FileEntry(border, time, tag, msg);
    assert e == h + msg + t;
    assert e[..|h|] == h;
    assert e[|e| - |t|..] == t;
    assert e[|h|..|e| - |t|] == msg;
  }

  /** Both layouts end with the line separator twice. */
  lemma EntryEnding(border: bool, time: string, tag: string, msg: string)
    ensures var e := FileEntry(border, time, tag, msg);
      |e| >= 2 && e[|e| - 2..] == [LINE_SEPARATOR, LINE_SEPARATOR]
  {
    var h, t := EntryHead(border, time, tag), EntryTail(border);
    var pre := if border then BOTTOM_BORDER + [LINE_SEPARATOR] else [LINE_SEPARATOR];
    assert t == pre + [LINE_SEPARATOR];
    DropRight(h + msg, t, |t| - 2);
    DropRight(pre, [LINE_SEPARATOR], 0);
    assert t[|t| - 2..] == [LINE_SEPARATOR, LINE_SEPARATOR];
  }

  /** The bordered layout opens with the top border, the plain one with the time. */
  lemma EntryOpening(border: bool, time: string, tag: string, msg: string)
    ensures var e := FileEntry(border, time, tag, msg);
      (border ==> |e| >= |TOP_BORDER| && e[..|TOP_BORDER|] == TOP_BORDER)
      && (!border ==> |e| >= |time| && e[..|time|] == time)
  {
    var h, t := EntryHead(border, time, tag), EntryTail(border);
    var n := if border then |TOP_BORDER| else |time|;
    TakeLeft(h + msg, t, n);
    TakeLeft(h, msg, n);
    if border {
      var a := TOP_BORDER + [LINE_SEPARATOR] + LEFT_BORDER + time + tag;
      TakeLeft(a, [LINE_SEPARATOR], n);
      TakeLeft(TOP_BORDER + [LINE_SEPARATOR] + LEFT_BORDER + time, tag, n);
      TakeLeft(TOP_BORDER + [LINE_SEPARATOR] + LEFT_BORDER, time, n);
      TakeLeft(TOP_BORDER + [LINE_SEPARATOR], LEFT_BORDER, n);
      TakeLeft(TOP_BORDER, [LINE_SEPARATOR], n);
    } else {
      TakeLeft(time + tag, [LINE_SEPARATOR], n);
      TakeLeft(time, tag, n);
    }
  }

  /** One file per date: different dates never share a file. */
  lemma DistinctDatesDistinctFiles(dir: Option<string>, d1: string, d2: string)
    requires d1 != d2
    ensures FilePath(dir, d1) != FilePath(dir, d2)
  {
    var p1, p2 := FilePath(dir, d1), FilePath(dir, d2);
    var n := |Show(dir)|;
    assert |p1| == n + |d1| + 4 && p1[n..n + |d1|] == d1;
    assert |p2| == n + |d2| + 4 && p2[n..n + |d2|] == d2;
  }

  /** FIFO: after the writer has run a queue with every write succeeding, each
      file holds what it held before followed by the content of its tasks in
      submission order; nothing is lost and nothing interleaves. */
  lemma {:induction false} ApplyAllAppends(files: map<string, string>, tasks: seq<WriteTask>, path: string)
    ensures Existing(ApplyAll(files, tasks), path) == Existing(files, path) + ContentsFor(tasks, path)
    decreases |tasks|
  {
    if tasks != [] {
      var init := tasks[..|tasks| - 1];
      ApplyAllAppends(files, init, path);
      var before := ApplyAll(files, init);
      var t := tasks[|tasks| - 1];
      if t.path == path && t.content.Some? {
        assert Existing(ApplyWrite(before, t, true), path) == Existing(before, path) + t.content.value;
      } else {
        assert Existing(ApplyWrite(before, t, true), path) == Existing(before, path);
      }
    }
  }

  /** A failed write leaves every file as it was; a write touches its own file only. */
  lemma WriteFrame(files: map<string, string>, task: WriteTask, ioOk: bool, other: string)
    requires other != task.path
    ensures other in ApplyWrite(files, task, ioOk) <==> other in files
    ensures other in files ==> ApplyWrite(files, task, ioOk)[other] == files[other]
    ensures !ioOk ==> ApplyWrite(files, task, ioOk) == files
  {
  }

  /** Running the oldest task first and then the rest is the same as running
      the whole queue: ApplyAll agrees with a writer that takes tasks from the
      front. */
  lemma {:induction false} ApplyAllFront(files: map<string, string>, t: WriteTask, ts: seq<WriteTask>)
    ensures ApplyAll(files, [t] + ts) == ApplyAll(ApplyWrite(files, t, true), ts)
    decreases |ts|
  {
    if ts != [] {
      var init := ts[..|ts| - 1];
      assert ([t] + ts)[..|ts|] == [t] + init;
      ApplyAllFront(files, t, init);
    }
  }

  // ---------------------------------------------------------------------------
  // The writer's task when the encrypter returned null
  // ---------------------------------------------------------------------------

  /** The writer's task exactly as written: `new FileWriter(path, true)` opens
      (creating the file), then `write(null)` throws a NullPointerException,
      which no catch handles, so the worker thread dies with it; None stands
      for that crash. */
  function RunTaskAsWritten(files: map<string, string>, task: WriteTask, ioOk: bool): Option<map<string, string>> {
    if !ioOk then Some(files)
    else if task.content.None? then None
    else Some(files[task.path := Existing(files, task.path) + task.content.value])
  }

  /** A null encrypter result crashes the writer, whatever the files hold. */
  lemma NullContentCrashesWriter(files: map<string, string>, path: string)
    ensures RunTaskAsWritten(files, WriteTask(path, None), true).None?
  {
  }

  /** Wherever the as-written task does not crash, it agrees with ApplyWrite. */
  lemma RunTaskAsWrittenAgrees(files: map<string, string>, task: WriteTask, ioOk: bool)
    requires RunTaskAsWritten(files, task, ioOk).Some?
    ensures RunTaskAsWritten(files, task, ioOk).value == ApplyWrite(files, task, ioOk)
  {
  }

  /** The intended behaviour: a task without content leaves its file created
      but with its content unchanged, changes no other file, and the writer
      goes on to the next task. */
  lemma NullContentOnlyTouches(files: map<string, string>, path: string, ioOk: bool)
    ensures var r := ApplyWrite(files, WriteTask(path, None), ioOk);
      Existing(r, path) == Existing(files, path)
      && (ioOk ==> path in r)
      && forall q :: q != path ==> (q in r <==> q in files) && (q in files ==> r[q] == files[q])
  {
  }
}
