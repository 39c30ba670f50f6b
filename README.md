# LogUtils, modelled in Dafny

A model of `LogUtils`, the Android logging helper in the `com.handy.base.utils`
package. This model covers:

- the mutable settings, and the `Builder` that writes them (master switch,
  global tag, encryption, head line, file logging, borders, severity filter,
  log directory);
- the dispatch rule of `log`, which decides whether a call reaches the console,
  the day's log file, both or neither;
- `processContents`, which picks the tag (global tag, call tag or simplified
  class name) and builds the message: an optional head line naming the thread
  and caller, a body for a null, single or multi-argument call, and a left
  border on every line;
- `printLog`, which cuts a message into pieces of at most 4000 characters.
  It prefixes every piece after the first with the left border and brackets
  them with the top and bottom borders;
- `print`, which maps a severity to a priority of `android.util.Log`;
- `print2File`, which builds the per-date path and the bordered or plain entry
  text, encrypts it when the switch is on, and queues it for the single
  background writer;
- `isSpace`, the blank test used for tags.

Platform inputs are parameters of the model:

- the caller's stack frame and the thread name;
- the clock;
- whether `createOrExistsFile` succeeds;
- the JSON and XML pretty-printers;
- the AES encrypter.

The observable effects are three fields of the `LogUtils` class:

- `console`: the sequence of lines handed to `android.util.Log`;
- `files`: a map from path to file content;
- `pending`: the FIFO of queued writes, which `RunNextWrite` drains one task
  at a time.

Modules, in dependency order:

| module | file | contents |
|---|---|---|
| Wrappers | wrappers.dfy | `Option` |
| SeqFacts | seq_facts.dfy | regrouping facts about sequence slicing and concatenation |
| JavaText | java_text.dfy | `Character.isWhitespace`, `isSpace` as a predicate, Java `String.split` with limit 0, decimal rendering of `%d` |
| LogConfig | log_config.dfy | constants, the settings snapshot `Config`, and the dispatch rule |
| Format | format.dfy | class-name simplification, tag choice, head, body, border, JSON and XML pass-through |
| Chunker | chunker.dfy | the slices of `printLog` and the segments it prints |
| Console | console.dfy | priorities, console lines, what one call prints |
| FileSink | file_sink.dfy | path, entry layout, encryption choice, the background writer over a file map |
| Logging | logging.dfy | `class LogUtils` and `class Builder` with the imperative operations |

How the pieces connect:

- Each imperative method is proved against the specification functions:
  - `ProcessContents` against `EffectiveTag` and `Message`;
  - `PrintLog` against `Segments`;
  - `Print2File` against `FileEntry` and `FilePath`;
  - `Log` against `ConsoleOutput` and `EntryTask`;
  - `RunAllWrites` against `ApplyAll`.
- The lemmas in the pure modules state what those functions guarantee.

## Model

| member | source | states |
|---|---|---|
| LogConfig.ConsoleLevel | Library/src/main/java/com/handy/base/utils/LogUtils.java:159-182 | a type is printed to the console only at one of the six severities V..A |
| LogConfig.DefaultWellFormed | Library/src/main/java/com/handy/base/utils/LogUtils.java:62-69 | the field initialisers agree: a null global tag has its blank flag set |
| LogConfig.SwitchOffSilences | Library/src/main/java/com/handy/base/utils/LogUtils.java:154-155 | with the master switch off, no type reaches the console or the file, including FILE, JSON and XML |
| LogConfig.SeverityRouting | Library/src/main/java/com/handy/base/utils/LogUtils.java:160-172 | a severity V..A is printed exactly when it is at least the filter, at its own level, and written to file exactly when file logging is on |
| LogConfig.FileRouting | Library/src/main/java/com/handy/base/utils/LogUtils.java:173-175 | FILE goes to the file only, whatever the filter and file switch |
| LogConfig.StructuredRouting | Library/src/main/java/com/handy/base/utils/LogUtils.java:176-181 | JSON and XML go to the console at level D, bypassing the filter, and never to the file |
| LogConfig.FilterMonotone | Library/src/main/java/com/handy/base/utils/LogUtils.java:41-46 | the codes increase with severity, so a printed severity implies that every higher one is printed too |
| LogConfig.UnknownTypeSilent | Library/src/main/java/com/handy/base/utils/LogUtils.java:159-182 | a type outside the nine codes reaches neither sink |
| Console.PriorityOf | Library/src/main/java/com/handy/base/utils/LogUtils.java:294-315 | `print` emits exactly for the six severity codes |
| Console.PriorityInjective | Library/src/main/java/com/handy/base/utils/LogUtils.java:294-315 | distinct severities go to distinct `android.util.Log` priorities |
| Console.ConsoleOutputIsSegments | Library/src/main/java/com/handy/base/utils/LogUtils.java:159-182 | a call prints something iff it is routed to the console, and then it prints exactly the chunker's segments, in order, at the routed priority |
| JavaText.JoinRawSplit | Library/src/main/java/com/handy/base/utils/LogUtils.java:188 | splitting on a character and re-joining with it gives the string back |
| JavaText.RawSplitJoin | Library/src/main/java/com/handy/base/utils/LogUtils.java:188 | splitting the join of separator-free pieces gives the pieces back |
| JavaText.SplitTerminated | Library/src/main/java/com/handy/base/utils/LogUtils.java:236 | `split` of separator-free lines, each ended by the separator, with the last line non-empty, gives exactly those lines, with the trailing empty piece dropped |
| JavaText.SplitFirst | Library/src/main/java/com/handy/base/utils/LogUtils.java:193 | when `split` returns pieces, the first is the text before the first separator |
| JavaText.SplitLast | Library/src/main/java/com/handy/base/utils/LogUtils.java:188-191 | when the text after the last separator is non-empty, `split` returns pieces and that text is the last |
| JavaText.DecimalRoundTrip | Library/src/main/java/com/handy/base/utils/LogUtils.java:222-225 | the decimal text `append(i)` writes for an argument index reads back as the same index |
| JavaText.IntRoundTrip | Library/src/main/java/com/handy/base/utils/LogUtils.java:200-207 | the `%d` text of the caller's line number, a minus sign first for the negative numbers of frames without line information, reads back as the same number |
| Format.AsWrittenAgrees | Library/src/main/java/com/handy/base/utils/LogUtils.java:187-194 | wherever the source's `split("\\$")[0]` succeeds, it gives the corrected simplified name |
| Format.AsWrittenFailsOnDollarClass | Library/src/main/java/com/handy/base/utils/LogUtils.java:192-194 | for a class whose last segment is `$`, the source's expression indexes an empty array; the corrected name is "" |
| Format.SimpleClassNameIsOuterName | Library/src/main/java/com/handy/base/utils/LogUtils.java:187-194 | the simplified name is the last `.`-segment cut at the first `$` |
| Format.TopLevelClassName | Library/src/main/java/com/handy/base/utils/LogUtils.java:187-194 | `pkg.Name` simplifies to `Name` |
| Format.NestedClassName | Library/src/main/java/com/handy/base/utils/LogUtils.java:187-194 | `pkg.Outer$Inner`, for example `com.app.Foo$1`, simplifies to `Outer` |
| Format.GlobalTagWins | Library/src/main/java/com/handy/base/utils/LogUtils.java:195-196 | a non-blank global tag is the tag of every call, whatever the call passes |
| Format.CallTagOrClassName | Library/src/main/java/com/handy/base/utils/LogUtils.java:197-199 | without a global tag, a null or blank call tag becomes the simplified class name, and any other tag is kept |
| Format.EffectiveTagNotBlank | Library/src/main/java/com/handy/base/utils/LogUtils.java:195-199 | the tag is never blank when the simplified class name is not |
| Format.JsonPassThrough | Library/src/main/java/com/handy/base/utils/LogUtils.java:245-256 | text that does not start with `{` or `[`, or that the parser rejects, is returned unchanged |
| Format.XmlPassThrough | Library/src/main/java/com/handy/base/utils/LogUtils.java:258-270 | XML the transformer rejects is returned unchanged |
| Format.BreakAfterFirstTagShape | Library/src/main/java/com/handy/base/utils/LogUtils.java:266 | `replaceFirst(">", ">" + LINE_SEPARATOR)` inserts one separator right after the first `>`, and changes nothing when there is none |
| Format.NoArgsEmptyBody | Library/src/main/java/com/handy/base/utils/LogUtils.java:218-230 | an empty argument array gives the empty body |
| Format.ArgsBodyLines | Library/src/main/java/com/handy/base/utils/LogUtils.java:218-230 | for one or more arguments without line breaks, the text the StringBuilder loop builds splits into exactly the `args[i] = value` lines, one per argument, in index order; that text is the body for zero or two or more arguments |
| Format.BorderedLines | Library/src/main/java/com/handy/base/utils/LogUtils.java:234-241 | the bordered message's lines are the original lines, each behind the left border |
| Format.BorderedTerminated | Library/src/main/java/com/handy/base/utils/LogUtils.java:234-241 | bordering separator-ended lines puts the left border in front of each line and keeps the separators |
| Format.ArgsMessageLines | Library/src/main/java/com/handy/base/utils/LogUtils.java:200-241 | with the head on and zero or several arguments, the message is the head line followed by the argument lines, each ended by the separator and each behind the border when the border is on |
| Chunker.SlicesCount | Library/src/main/java/com/handy/base/utils/LogUtils.java:275-290 | a message of length n is printed as n / 4000 + 1 slices |
| Chunker.SliceAt | Library/src/main/java/com/handy/base/utils/LogUtils.java:276-287 | slice k is the characters from k * 4000 up to the next multiple of 4000, or up to the end for the last slice |
| Chunker.SlicesBounded | Library/src/main/java/com/handy/base/utils/LogUtils.java:276-287 | no raw slice is longer than MAX_LEN |
| Chunker.SlicesConcat | Library/src/main/java/com/handy/base/utils/LogUtils.java:276-287 | the raw slices concatenate to the message |
| Chunker.StripRewrap | Library/src/main/java/com/handy/base/utils/LogUtils.java:283-287 | removing the border prefix from every piece after the first undoes the re-prefixing |
| Chunker.ChunkRoundTrip | Library/src/main/java/com/handy/base/utils/LogUtils.java:273-292 | the printed pieces, with the left border removed from all but the first, concatenate to the message, exactly and in order |
| Chunker.ShortMessageSingle | Library/src/main/java/com/handy/base/utils/LogUtils.java:288-289 | a message shorter than MAX_LEN is printed as one unmodified piece |
| Chunker.ExactMultipleEndsEmpty | Library/src/main/java/com/handy/base/utils/LogUtils.java:286-287 | when the length is a positive multiple of MAX_LEN, the last slice is empty |
| Chunker.PrintedBounded | Library/src/main/java/com/handy/base/utils/LogUtils.java:277-290 | every printed piece is at most MAX_LEN plus the width of the left border |
| Chunker.SegmentsBracketed | Library/src/main/java/com/handy/base/utils/LogUtils.java:273-292 | with the border on, the first emission is the top border, the last is the bottom border and the pieces lie between them; with it off, only the pieces are emitted |
| FileSink.Touch | Library/src/main/java/com/handy/base/utils/LogUtils.java:358-368 | making the file ready leaves an existing file's content and creates a missing one empty; no other path changes |
| FileSink.EntryRoundTrip | Library/src/main/java/com/handy/base/utils/LogUtils.java:322-331 | the message can be read back out of the entry, in both layouts |
| FileSink.EntryEnding | Library/src/main/java/com/handy/base/utils/LogUtils.java:325-331 | both layouts end with the line separator twice: the layout's own separator, then the extra one |
| FileSink.EntryOpening | Library/src/main/java/com/handy/base/utils/LogUtils.java:324-330 | the bordered layout opens with the top border, and the plain one with the time |
| FileSink.DistinctDatesDistinctFiles | Library/src/main/java/com/handy/base/utils/LogUtils.java:318 | different dates never share a log file |
| FileSink.ApplyAllAppends | Library/src/main/java/com/handy/base/utils/LogUtils.java:333-355 | after the writer has run every queued task successfully, each file holds its old content followed by its tasks' contents in submission order |
| FileSink.ApplyAllFront | Library/src/main/java/com/handy/base/utils/LogUtils.java:333-355 | running the oldest task and then the rest equals running the whole queue, so the fold over the queue is what a front-first writer does |
| FileSink.NullContentCrashesWriter | Library/src/main/java/com/handy/base/utils/LogUtils.java:336-355 | as written, a task whose content the encrypter turned into null ends the writer thread with an uncaught exception |
| FileSink.RunTaskAsWrittenAgrees | Library/src/main/java/com/handy/base/utils/LogUtils.java:336-355 | wherever the as-written task does not crash, it has the effect of the intended write |
| FileSink.NullContentOnlyTouches | Library/src/main/java/com/handy/base/utils/LogUtils.java:336-355 | intended: a task without content leaves its file created with its content unchanged, and no other file changes |
| FileSink.WriteFrame | Library/src/main/java/com/handy/base/utils/LogUtils.java:336-355 | a write changes only its own file, and a failed write changes nothing |
| Logging.QueuedContent | Library/src/main/java/com/handy/base/utils/LogUtils.java:317-332 | the task `print2File` queues targets the day's file; without encryption its content is the entry, from which the message reads back unchanged; with encryption it is the encrypter's output for that entry |
| Logging.ArgsText | Library/src/main/java/com/handy/base/utils/LogUtils.java:219-230 | the StringBuilder loop builds one `args[i] = value` line per argument |
| Logging.BorderText | Library/src/main/java/com/handy/base/utils/LogUtils.java:235-240 | the border loop builds every line of `split`, behind the left border and ended by the separator |
| Logging.LogUtils.constructor | Library/src/main/java/com/handy/base/utils/LogUtils.java:59-69 | a new instance has the field initialisers, no builder, no output and nothing queued |
| Logging.LogUtils.InitBuilder | Library/src/main/java/com/handy/base/utils/LogUtils.java:384-389 | the first call creates the one Builder and sets the directory; later calls return it and change nothing |
| JavaText.MongolianVowelSeparatorBlank | Library/src/main/java/com/handy/base/utils/LogUtils.java:374-382 | a tag of U+180E alone is blank to `isSpace` on Java 8 and Android, and a no-break space is not whitespace |
| Logging.LogUtils.IsSpace | Library/src/main/java/com/handy/base/utils/LogUtils.java:374-382 | true iff the string is null or every character is whitespace |
| Logging.LogUtils.ProcessContents | Library/src/main/java/com/handy/base/utils/LogUtils.java:185-243 | returns the effective tag and the composed message; for a caller whose last class-name segment is only `$`, it uses the corrected class name where the source throws (see Findings) |
| Logging.LogUtils.Print | Library/src/main/java/com/handy/base/utils/LogUtils.java:294-315 | appends one line at the type's priority for a severity, and nothing for another type |
| Logging.LogUtils.PrintLog | Library/src/main/java/com/handy/base/utils/LogUtils.java:273-292 | appends exactly the segments of the message (borders and re-prefixed slices) at the type's priority |
| Logging.LogUtils.PrintSlices | Library/src/main/java/com/handy/base/utils/LogUtils.java:275-290 | the slicing loop appends the slices, in order, with every slice after the first behind the border prefix |
| Logging.LogUtils.Print2File | Library/src/main/java/com/handy/base/utils/LogUtils.java:317-356 | when the day's file can be made ready, it is created if missing and the entry task is queued; otherwise nothing changes |
| Logging.LogUtils.Log | Library/src/main/java/com/handy/base/utils/LogUtils.java:154-183 | with the switch off nothing changes; otherwise the console gains the routed output of the composed message, and the file task is queued exactly when the type writes to file and the file is ready |
| Logging.LogUtils.Route | Library/src/main/java/com/handy/base/utils/LogUtils.java:159-182 | the switch over the type realises the dispatch rule for both sinks |
| Logging.LogUtils.LogWithGlobalTag | Library/src/main/java/com/handy/base/utils/LogUtils.java:82-152 | the one-argument entry points pass the global tag as the call tag: they log one object under it when one is set and under the simplified class name otherwise |
| Logging.LogUtils.RunNextWrite | Library/src/main/java/com/handy/base/utils/LogUtils.java:336-355 | the writer takes the oldest task off the queue and applies it; an empty queue changes nothing |
| Logging.LogUtils.RunAllWrites | Library/src/main/java/com/handy/base/utils/LogUtils.java:333-355 | the single worker running the queue to empty, every write succeeding, leaves the fold of the queue over the old files: each file holds its old content followed by its tasks' contents in submission order |
| Logging.Builder.constructor | Library/src/main/java/com/handy/base/utils/LogUtils.java:399-405 | sets the directory to the external cache when storage is mounted and that directory exists, else the internal cache, followed by `log/`; nothing else changes |
| Logging.Builder.SetLogSwitch | Library/src/main/java/com/handy/base/utils/LogUtils.java:407-410 | sets the master switch and nothing else |
| Logging.Builder.SetEncryptSwitch | Library/src/main/java/com/handy/base/utils/LogUtils.java:412-415 | sets the encryption switch and nothing else |
| Logging.Builder.SetGlobalTag | Library/src/main/java/com/handy/base/utils/LogUtils.java:417-426 | a non-blank tag is stored and marked non-blank; a null or blank one becomes "" marked blank; nothing else changes |
| Logging.Builder.SetLogHeadSwitch | Library/src/main/java/com/handy/base/utils/LogUtils.java:428-431 | sets the head switch and nothing else |
| Logging.Builder.SetLog2FileSwitch | Library/src/main/java/com/handy/base/utils/LogUtils.java:433-436 | sets the file switch and nothing else |
| Logging.Builder.SetBorderSwitch | Library/src/main/java/com/handy/base/utils/LogUtils.java:438-441 | sets the border switch and nothing else |
| Logging.Builder.SetLogFilter | Library/src/main/java/com/handy/base/utils/LogUtils.java:443-446 | sets the filter and nothing else |

## Left out

- Stack inspection (`getStackTrace()[5]`) and `Thread.currentThread().getName()` are inputs: the `CallSite` of a call.
- The clock (`TimeUtils`) is left out: the date and the time of a file entry are input strings.
- `getInstance` is left out: the double-checked-locking singleton has nothing to state sequentially. An instance is created by the `LogUtils` constructor.
- Concurrency is left out. The single-thread executor is a FIFO of tasks (`pending`), and `RunNextWrite` runs them one at a time. How writes interleave with later `log` calls in real time is not modelled.
- File I/O:
  - `createOrExistsFile` and `createOrExistsDir` are one input, `fileReady`. When it holds, the file exists afterwards.
  - Whether opening and writing succeed is the input `ioOk` of `RunNextWrite`.
- FileSink.WriteFrame: a failed write is all-or-nothing in the model (`ApplyWrite` with `!ioOk` changes no file). In the source, `BufferedWriter` hands its 8192-character buffer to the `FileWriter` each time it fills and `close()` flushes the rest, so an `IOException` caught after part of the entry reached the disk leaves that start of the entry appended.
- Logging.LogUtils.RunNextWrite: for the same reason a failed write appends nothing in the model, where the source may leave a prefix of the entry appended.
- Logging.LogUtils.RunNextWrite: when the encrypter returns null (AesUtils.java returns null whenever encryption throws), the queued task carries no content. The model's writer then leaves the file created but unchanged and goes on. In the source, `write(null)` throws a NullPointerException, which neither `IOException` catch handles; the `finally` closes the writer and the exception escapes `run()` to the worker thread's uncaught-exception handler, which on Android ends the process. See Findings.
- `org.json`, `javax.xml.transform` and `AesUtils.encrypt` are opaque functions returning an optional string (the `Formatters` and the encrypter of `Platform`). Only their pass-through behaviour is stated.
- Logging.LogUtils.IsSpace: `IsWhitespace` follows the Unicode 6.2 data of Java 8 and Android, which count U+180E as a space separator; on Java 9 and later (Unicode 6.3+) `Character.isWhitespace('\u180E')` is false, and the model does not follow that.
- `printStackTrace` calls are left out. They only print.
- The default locale of `new Formatter()` is taken to use ASCII digits. Under a locale with other digits (Arabic-Indic under `ar` or `fa`, for example), `%d` in the head line would print those; `IntString` always gives ASCII. `append(int)` for the argument index does not depend on the locale.
- Each argument is modelled by the text its `toString()` returns (`Option<string>`, None for null). A `toString()` that throws, which would propagate out of `log`, is not modelled.
- Logging.LogUtils.ProcessContents: for a caller whose last class-name segment is only `$`, the source throws out of `log` at `split("\\$")[0]`; `ProcessContents`, and so `Log`, uses the corrected `SimpleClassName` and logs under that name (see Findings).
- Strings are sequences of Unicode scalar values, while Java counts UTF-16 code units. `length()` and `substring` in `printLog` therefore agree only for text without surrogate pairs.
- `LINE_SEPARATOR` is fixed to `"\n"`, the value of `line.separator` on Android. With it a single character, `split(LINE_SEPARATOR)` is a split on one character.
- `File.separator` is fixed to `"/"`.
- A null `dir` (no Builder yet) is `None`. The path then starts with "null", as Java string concatenation gives.
- The fluent `return this` of the Builder setters is left out: in the model the setters return nothing.
- Entry points:
  - the wrapper entry points `v`, `d`, `i`, `w`, `e`, `a`, `file`, `json` and `xml` that take a tag are `Log` itself with that type;
  - those without a tag are `LogWithGlobalTag`.
- The `@IntDef` annotation `TYPE` is not modelled. It has no effect at run time.
- BaseFragment.java is not part of this model. AesUtils.java is only the opaque encrypter, which may return null.

## Findings

| source | as written | input that shows it | evidently intended | confidence | as-written member | corrected member |
|---|---|---|---|---|---|---|
| Library/src/main/java/com/handy/base/utils/LogUtils.java:192-194 | `className.split("\\$")[0]` after the class name has been cut to its last `.`-segment | a caller class named `com.app.$` (last segment `$`): `split` drops all trailing empty pieces and returns an empty array, so `[0]` throws | the text before the first `$`, here "" | low, not executed | Format.SimpleClassNameAsWritten, shown by Format.AsWrittenFailsOnDollarClass | Format.SimpleClassName, proved by Format.SimpleClassNameIsOuterName and Format.AsWrittenAgrees |
| Library/src/main/java/com/handy/base/utils/LogUtils.java:336-355 | the writer task calls `bw.write(dateLogContent)` with the encrypter's result, and catches only `IOException` | encryption switched on and an entry on which `AesUtils.encrypt` throws, so it returns null: `write(null)` throws a NullPointerException that escapes `run()` and ends the process | logging never crashes its host: the file is created, nothing is appended, the writer carries on | medium, not executed | FileSink.RunTaskAsWritten, shown by FileSink.NullContentCrashesWriter | FileSink.ApplyWrite, proved by FileSink.NullContentOnlyTouches and FileSink.RunTaskAsWrittenAgrees |
