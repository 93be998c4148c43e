# logd, modelled in Dafny

This project models `logd`, a Go logging package, together with its e-mail alerter.
- **Severity bits and `SetLevel`.** A logger keeps one flag word: five severity bits (DEBUG, INFO, WARN, ERROR, FATAL) and eight behaviour bits (asynchronous output, date, time, microseconds, long or short file name, UTC, daily rotation). `SetLevel` sets every severity bit from the lowest level bit of its argument upward and clears the severity bits below it.
- **The record.** Each record is a header followed by the message. The header holds the optional date and clock, an ANSI-coloured level tag and the optional `file:line: ` location.
- **Entry points.** The gated entry points (`Debug`, `Info`, `Warn`, `Error` and their `f` forms) log only when their severity bit is set. `Print`, `Fatal` and `Breakpoint` always log.
- **Routing.** `Output` hands a record of WARN or above to the mailer when one is configured. It then either queues the record (asynchronous loggers) or writes it to `out`.
- **The consumer.** A consumer takes queued records in order. It reopens the dated file `<dir>/<obj>_<YYYY-MM-DD>.log` when the day of the month changes, writes each record to that file and then to `out`, and starts a retention walk on each open when daily rotation is on.
- **The retention walk.** It compresses `.log` files older than a day and removes entries older than thirty days. It stops at the first error.
- **The alerter.** It builds a mail header, copies the header and the record into one payload, and holds an SMTP conversation that stops at the first failed step.

How the model is built:
- **Imperative code stays imperative.** The code that changes state step by step is written as Dafny methods and proved against specification functions, including:
  - the `Logger` object and its setters;
  - `SetLevel`'s shift loop;
  - `itoa`'s scratch array;
  - `formatHeader`'s appends and its backwards file-name scan;
  - the consumer loop;
  - the payload copy;
  - the SMTP step sequence;
  - the retention walk, whose loop `Rotate.RotateDir` runs either the callback as written or the corrected one, chosen by a parameter.
- **Pure rules are functions.** These are the colour tag, the level filters, the alert rule and the age predicates.
- **The outside world is an input.** This covers:
  - the clock, as integer date and time fields;
  - the caller lookup;
  - the working directory;
  - the results of opening files;
  - the outcomes of `gzip`, `os.Remove` and the walk;
  - the SMTP replies.
- **Side effects are recorded.** Writes to `out`, alerts handed to the mailer and the queue are kept as sequences. Files are a map from name to contents.

Modules:
- **`Flags`** (flags.dfy): the flag word (`bv64`) and the SetLevel rule `ApplyLevel`.
- **`Digits`** (decimal.dfy): decimal digits and `itoa`.
- **`Header`** (header.dfy): level names, colour tags, short file names and the header sections.
- **`Consumer`** (consumer.dfy): `receive` as a state machine.
- **`Rotate`** (rotate.dfy): the retention walk.
- **`Mail`** (mail.dfy): `Smtp.SendMail`.
- **`Routing`** (routing.dfy): the entry points and `Output`'s routing, as functions.
- **`Logd`** (logger.dfy):
  - the `Logger` class, whose methods are proved against the functions above;
  - the `Package` class, which holds `Std` and the functions that replace it.

Where the code and the written description of the package disagree, the model follows the code:
- **The level tag is left-padded.** `%5s` right-aligns the name, so the tag reads `[ INFO]`.
- **Only `Errorf` appends the caller stack; `Error` does not.** The `Errorf` method appends it directly. The package `Errorf` puts a newline before it.
- **Only the consumer opens dated files.** A synchronous logger writes to `out` alone and never to a dated file (`Routing.SyncWritesAll`).
- **The day check compares the day of the month only.** It does not compare the calendar date (`Consumer.SameDayNumberKeepsFile`).
- **An expired `.log` file is not simply deleted.** It is compressed first, and the removal that follows fails. `Rotate.Walk` and `Rotate.RotateDir` take the callback as a parameter: `AsWritten` is the code's callback and `Corrected` removes expired entries. See Findings.

One departure from the code:
- **The consumer start test is corrected.** The code's test `flag|LAsync != 0` always holds. The `Logger` constructor and `Logd.Logger.Valid` use the corrected test `flag&LAsync != 0` instead. See Findings.

## Model

| member | source | states |
|---|---|---|
| Flags.SeverityBit | logd/log.go:16-21 | the five severity bits are non-zero and lie within Lall |
| Flags.Threshold | logd/log.go:309-315 | the loop's stopping index: no level bit of lvl below it is set, and the bit at it is set unless it is 5 |
| Flags.SeverityFrom | logd/log.go:316-317 | exactly the severity bits at or above index i are set, and no behaviour bit |
| Flags.ApplyLevel | logd/log.go:306-318 | after SetLevel the behaviour bits are those of the old flag word and the severity bits are those from the threshold upward |
| Flags.LevelEnabledAfterSetLevel | logd/log.go:306-318 | after SetLevel(lvl), level k is enabled iff k is at or above the lowest level bit of lvl |
| Flags.SetLevelIdempotent | logd/log.go:306-318 | calling SetLevel twice with the same level equals calling it once |
| Flags.SetLevelLastWins | logd/log.go:306-318 | of two SetLevel calls only the second matters |
| Flags.SetLevelKeepsBehaviour | logd/log.go:306-318 | SetLevel never changes LAsync, Ldate, Ltime, Lmicroseconds, Llongfile, Lshortfile, LUTC or Ldaily |
| Flags.ShiftFormula | logd/log.go:316-317 | the closing shift expression, at the loop's final index, equals ApplyLevel |
| Header.NoDateNoClock | logd/log.go:159-182 | with none of Ldate, Ltime and Lmicroseconds set, the date and clock sections together are empty |
| Header.ClockSecondsRoundTrip | logd/log.go:169-181 | with Ltime and without Lmicroseconds the clock is nine characters `HH:MM:SS `, and its three two-digit fields read back as the hour, minute and second |
| Digits.Digit | logd/log.go:455 | `'0' + d` is the ASCII digit whose value is d |
| Digits.Decimal | logd/log.go:448-462 | the unpadded rendering is a non-empty string of ASCII digits |
| Digits.Zeros | logd/log.go:452-456 | the padding is exactly max(k, 0) zeros |
| Digits.Pow10Bound | logd/log.go:450 | a 64-bit int has at most 19 digits, so the 20-byte scratch array suffices |
| Digits.DecimalRoundTrip | logd/log.go:448-462 | reading back the rendered digits gives the number |
| Digits.DecimalCanonical | logd/log.go:448-462 | the unpadded rendering has a leading zero only for 0 |
| Digits.DecimalLength | logd/log.go:448-462 | a number below 10^k has at most k digits |
| Digits.ZerosValue | logd/log.go:452-456 | zero padding does not change the value read back |
| Digits.PadDecimalMeaning | logd/log.go:447-462 | itoa appends exactly max(wid, digit count) ASCII digits whose value is i; a negative width means no padding |
| Digits.PadDecimalStep | logd/log.go:452-458 | one loop turn emits the lowest digit and leaves i/10 with width wid-1 |
| Digits.Itoa | logd/log.go:448-462 | the buffer is kept and the zero-padded rendering of i is appended after it |
| Header.LevelName | logd/log.go:36-42 | the level map names exactly the five severity levels; any other key reads as "" |
| Header.Upper | logd/log.go:474 | upper-casing keeps the length and upper-cases each ASCII letter |
| Header.PadLeft | logd/log.go:477 | `%5s` gives width max(5, len) |
| Header.SeverityLevel | logd/log.go:16-21 | severity index k has level number 2^k |
| Header.TrimPadLeft | logd/log.go:477 | `%5s` only adds leading spaces: trimming them gives the name back |
| Header.TagShape | logd/log.go:477-485 | layout of `ESC[<c>m[%5s]ESC[0m`: 16 characters, the colour digits at 2..4, the padded name at 6..11 |
| Header.ColorLevelOfSeverity | logd/log.go:473-485 | getColorLevel wraps DEBUG, INFO, WARN, ERROR and FATAL in green, blue, magenta, yellow and red |
| Header.ColorLevelShape | logd/log.go:464-489 | each level tag is 16 characters with colour 92/94/95/93/91 and the left-padded name, which trims back to the name |
| Header.ColorLevelDistinct | logd/log.go:473-485 | different levels get different tags |
| Header.ColorLevelUnmapped | logd/log.go:473-489 | an unmapped level number yields an empty tag |
| Header.ColorLevelIgnoresCase | logd/log.go:474 | the name is matched case-insensitively |
| Header.ShortName | logd/log.go:186-194 | the short name is a suffix of the path with no '/' at index 1 or later; when shorter, a '/' at index 1 or later precedes it |
| Header.ShortNameAt | logd/log.go:188-191 | when the last '/' at index 1 or later is at i, the short name is the text after i |
| Header.ShortNameWhole | logd/log.go:187-194 | with no '/' at index 1 or later, the short name is the whole path |
| Header.DateSectionRoundTrip | logd/log.go:160-168 | with Ldate the date section is 11 characters, with '/' at 4 and 7 and a space at 10, and its fields read back as year, month and day |
| Header.ClockSectionRoundTrip | logd/log.go:169-181 | with Lmicroseconds the clock section is 16 characters and reads back as hour, minute, second and microsecond |
| Header.ClockFields | logd/log.go:170-180 | the positions of the four fields in `HH:MM:SS.uuuuuu ` |
| Header.ReadsBack | logd/log.go:162-178 | a value below 10^w renders in exactly w digits that read back as the value |
| Header.SectionsIgnoreUtc | logd/log.go:155-201 | the date, clock and location sections do not depend on LUTC |
| Header.UtcSwapsReading | logd/log.go:156-158 | toggling LUTC only swaps the local reading for the UTC reading |
| Header.SmartFormat | logd/log.go:504-511 | one `%v` per argument, then a newline |
| Consumer.Run | logd/log.go:83-104 | the consumer never takes more records than are queued or than there are ticks |
| Consumer.RunStep | logd/log.go:83-104 | handling one record continues the run from the state after that step |
| Consumer.RunAdvance | logd/log.go:83-104 | a run that has taken `done` records on its way to a given end state and count still reaches it after one more record is handled |
| Consumer.Deliveries | logd/log.go:101-103 | the writes of a run of records to one writer, one per record, in order |
| Consumer.DeliveriesAppend | logd/log.go:83-104 | writing two runs of records is writing one after the other |
| Consumer.StepEffect | logd/log.go:84-103 | unless it panics, one step leaves open the dated file named for the reopen reading when the reopen condition holds, and the old file otherwise; the remembered day becomes the reopen reading exactly when it reopens; that file grows by the record, no other file changes, no file other than the open one appears, and `out` gets the record when set |
| Consumer.SameDayAppendsInOrder | logd/log.go:83-104 | while every tick falls on the remembered day, the consumer keeps its file open, takes as many records as there are ticks and queued records, and that file grows by exactly those records, concatenated in queue order |
| Consumer.StepPanicsOnlyOnFailedOpen | logd/log.go:84-92 | a step panics iff the reopen condition holds and the open fails |
| Consumer.RotationOnlyOnOpen | logd/log.go:94-96 | a rotation starts only on a successful open with Ldaily, dated with the reopen reading |
| Consumer.SameDayNumberKeepsFile | logd/log.go:84 | the same day number in another month keeps the old file and day |
| Consumer.DeliveredInOrder | logd/log.go:83-104 | without a panic, `out` receives exactly the records taken, in queue order |
| Consumer.NoDirectoryNoFiles | logd/log.go:84-100 | without a log directory no file is opened, nothing panics or rotates, and every record with a tick is taken |
| Rotate.WholeHours | logd/log.go:113 | `int(d.Hours())` truncates toward zero: h whole hours bracket d |
| Rotate.GzipOn | logd/log.go:115-119 | gzip succeeds iff the path exists and the command succeeds; on success path is replaced by path.gz, otherwise nothing changes |
| Rotate.RemoveOn | logd/log.go:123-125 | os.Remove succeeds iff the path exists and the removal succeeds; on success the path is gone |
| Rotate.WalkAppend | logd/log.go:109-128 | walking a listing in two parts is the first walk followed by the second only when the first succeeded |
| Rotate.WalkStopsAtFailure | logd/log.go:110-125 | the first failed entry ends the walk with its error; later entries are not visited |
| Rotate.WalkKeepsOtherPaths | logd/log.go:109-128 | a path no entry names survives the walk |
| Rotate.CorrectedWalkPlan | logd/log.go:113-126 | corrected and with no failures, the walk succeeds and performs exactly the planned steps in listing order: remove expired entries, compress other `.log` entries older than a day |
| Rotate.CallbacksAgree | logd/log.go:113-126 | the corrected callback differs from the original only on expired `.log` files |
| Rotate.AsWrittenExpiredLogAborts | logd/log.go:113-126 | as written, an expired `.log` file is gzipped, the removal then finds no file, and the walk fails there |
| Rotate.AsWrittenCounterexample | logd/log.go:113-126 | a 721-hour-old log aborts the walk before a 30-hour-old log is compressed |
| Rotate.CorrectedExpiredLogRemoved | logd/log.go:122-126 | corrected, an expired `.log` file is removed and the walk continues |
| Rotate.VisitEntry | logd/log.go:109-128 | one callback invocation on one entry: the paths afterwards, the operations performed and the error are those of the chosen callback's visit |
| Rotate.AndThenAssoc | logd/log.go:109-128 | running three walk segments in sequence does not depend on how they are grouped: each later segment runs only when the earlier ones succeeded |
| Rotate.RotateDir | logd/log.go:108-129 | the walk loop, for the callback as written or for the corrected one, computes exactly the walk of that callback: same remaining paths, same operations in order, same first error |
| Mail.Join | logd/mail.go:44 | joining no addresses gives "", one address gives itself |
| Mail.IndexOf | logd/mail.go:44 | the first occurrence of the separator |
| Mail.SplitJoin | logd/mail.go:44 | addresses without commas read back from the joined list |
| Mail.MailHeaderSplitsAfterTo | logd/mail.go:43-49 | the header is the To line followed by the rest of the block, without separators |
| Mail.MailHeaderRecipients | logd/mail.go:43-49 | the header starts with `To:`, the joined recipients and CRLF; the recipients read back from it |
| Mail.MailHeaderEndsWithBlankLine | logd/mail.go:47-48 | the header ends with the content type and an empty line |
| Mail.Payload | logd/mail.go:50-52 | the payload is len(header)+len(msg) bytes: the header, then the message unchanged |
| Mail.Commands | logd/mail.go:24-74 | an uninterrupted conversation has one step per recipient plus eight |
| Mail.FirstFailure | logd/mail.go:24-71 | the index of the first failed reply: all replies before it succeeded |
| Mail.CommandsLayout | logd/mail.go:24-74 | the step order: dial, client, auth, MAIL, one RCPT per recipient in order, DATA, write, close, QUIT |
| Mail.CheckedLayout | logd/mail.go:24-71 | the replies whose errors end the conversation, aligned with the steps |
| Mail.FirstFailureAt | logd/mail.go:24-71 | the first failure is at k when all earlier replies succeeded and reply k failed |
| Mail.ConversationStopsAt | logd/mail.go:24-71 | a failure at step k returns that error after step k, with no later step |
| Mail.ConversationCompletes | logd/mail.go:24-74 | with no failure every step runs and QUIT's result is returned |
| Mail.OpeningSteps | logd/mail.go:24-41 | the four opening steps and their replies |
| Mail.RcptStep | logd/mail.go:55-59 | recipient j is step 4 + j |
| Mail.FinalSteps | logd/mail.go:62-71 | DATA and the write follow the recipients |
| Mail.SendMail | logd/mail.go:23-75 | the conversation is held with the header followed by the message as payload |
| Mail.Converse | logd/mail.go:24-74 | each step runs only when all earlier ones succeeded, and the first error is returned; RCPT goes to each recipient in order; Close's result is ignored and QUIT's is returned |
| Mail.RcptRejectionStopsBeforeData | logd/mail.go:55-59 | a rejected recipient returns its error and DATA is never requested |
| Mail.AllStepsRun | logd/mail.go:24-74 | with no failure all steps run, the payload written is header then message, and QUIT's result is returned |
| Mail.CloseIgnored | logd/mail.go:72 | the close reply never changes the outcome |
| Routing.Gate | logd/log.go:222-282 | exactly Fatal, Fatalf, Print, Printf and Breakpoint have no severity filter |
| Routing.EntryLevel | logd/log.go:214-286 | a gated entry point logs at its own severity bit |
| Routing.Records | logd/log.go:138-140 | one record per Output call |
| Routing.EmitOne | logd/log.go:214-286 | an entry point that makes one Output call has exactly that call's effect |
| Routing.GatedIffBitSet | logd/log.go:222-428 | a gated entry point calls Output iff its bit is set, once, at its level; the others call it whatever the flags |
| Routing.GatedCall | logd/log.go:222-416 | Debug, Info, Warn and Error log the message at their level exactly when their bit is set |
| Routing.PackageFatalLogsStack | logd/log.go:274-428 | the package Fatal and Fatalf log the message and then the stack; the methods log only the message |
| Routing.UnknownCallerIgnored | logd/log.go:133-136 | with an unknown caller Output has no effect |
| Routing.OutputRoutesOnce | logd/log.go:138-152 | the record is queued when LAsync is set, otherwise written once to `out`; an alert carries the same record iff a mailer is set and the level is WARN or above |
| Routing.AsyncQueuesAll | logd/log.go:144-145 | an asynchronous logger queues every record in call order and writes nothing directly |
| Routing.SyncWritesAll | logd/log.go:146-151 | a synchronous logger writes every record to `out` in call order and queues nothing |
| Logd.ObjNameIsLastSegment | logd/log.go:63-66 | the object name is the part of the working directory after its last '/' |
| Logd.ConsumerStartsForSyncLogger | logd/log.go:73-75 | as written the consumer starts for every flag word, including the synchronous LstdFlags |
| Logd.ConsumerStartsIffQueued | logd/log.go:73-75 | corrected, the consumer starts exactly for the loggers whose Output puts a known caller's record on the queue; for the others Output leaves the queue as it was |
| Logd.Logger.constructor | logd/log.go:62-77 | New: the object name from the working directory, the options' fields, an empty queue, the consumer started for asynchronous loggers |
| Logd.Logger.SetLogDir | logd/log.go:288-292 | only the directory changes |
| Logd.Logger.SetObj | logd/log.go:294-298 | only the object name changes |
| Logd.Logger.SetOutput | logd/log.go:300-304 | only the writer changes |
| Logd.Logger.SetLevel | logd/log.go:306-318 | the flag word becomes ApplyLevel of the old one; nothing else changes, and `Valid` (the consumer runs iff LAsync is set) still holds |
| Logd.Logger.LowestLevelBit | logd/log.go:309-315 | the shift loop stops at the threshold of lvl |
| Logd.Logger.FormatHeader | logd/log.go:155-201 | appends the date, the clock, the level tag, a space and the location, in that order |
| Logd.Logger.AppendTime | logd/log.go:156-182 | appends the date and clock sections of the UTC reading when LUTC is set, otherwise of the local reading |
| Logd.Logger.AppendDateClock | logd/log.go:159-182 | for one reading, appends its date section and then its clock section, and leaves the buffer as it was when none of Ldate, Ltime and Lmicroseconds is set |
| Logd.Logger.AppendDate | logd/log.go:160-168 | appends `YYYY/MM/DD ` iff Ldate is set |
| Logd.Logger.AppendClock | logd/log.go:169-181 | appends `HH:MM:SS`, `.uuuuuu` with Lmicroseconds, and a space, iff Ltime or Lmicroseconds is set |
| Logd.Logger.AppendSeconds | logd/log.go:170-175 | appends two-digit hours, minutes and seconds separated by ':' |
| Logd.Logger.AppendLocation | logd/log.go:185-200 | appends `file:line: ` iff Lshortfile or Llongfile is set, with the short name when Lshortfile is set |
| Logd.Logger.ShortFile | logd/log.go:186-194 | the backwards scan yields the text after the last '/' at index 1 or later |
| Logd.Logger.RecordAfterHeader | logd/log.go:138-140 | the header formatted into an empty buffer, followed by the content, is the record |
| Logd.Logger.Output | logd/log.go:132-153 | the queue, direct writes and alerts change as the routing function says; nothing else changes |
| Logd.Logger.Route | logd/log.go:141-151 | an alert for WARN and above with a mailer, then the queue or a write to `out` |
| Logd.Logger.Emit | logd/log.go:214-432 | each entry point makes exactly the Output calls its filter allows, in order; only Fatal and Fatalf exit |
| Logd.Logger.LogGated | logd/log.go:222-416 | a gated entry point outputs its message only when its bit is set |
| Logd.Logger.LogErrorf | logd/log.go:261-410 | Errorf outputs message and stack when Lerror is set; the package form puts a newline between them |
| Logd.Logger.LogFatal | logd/log.go:274-428 | Fatal outputs the message, and the package form then outputs the stack |
| Logd.Logger.Handle | logd/log.go:84-103 | handling one record is one consumer step |
| Logd.Logger.Reopen | logd/log.go:84-97 | reopening: the day is read again, a failed open panics, Ldaily starts a rotation |
| Logd.Logger.Take | logd/log.go:83-103 | one loop turn takes the oldest queued record and handles it |
| Logd.Logger.Receive | logd/log.go:79-105 | the loop takes records in queue order, ends in the state and count the consumer run gives, and keeps `Valid` (the consumer runs iff LAsync is set, and a logger without one has an empty queue); without a consumer it takes nothing and changes nothing |
| Logd.RedirectTarget | logd/log.go:325-327 | the file is "app.log" when none is named, otherwise the named file |
| Logd.ResetFiltersBelowWarn | logd/log.go:346 | Reset's logger is synchronous, drops DEBUG and INFO and keeps WARN |
| Logd.Package.constructor | logd/log.go:321 | Std is a synchronous stdout logger with LstdFlags |
| Logd.Package.RedirectLogFile | logd/log.go:324-341 | a failed open returns "Could not open log file" and keeps Std; otherwise Std writes to the file with the given flags |
| Logd.Package.Reset | logd/log.go:344-362 | with a file name Std becomes a synchronous WARN-and-above logger on that file, or on a nil file when the open fails; without one nothing changes |

## Left out

- **Concurrency.** The mutex, the goroutines, the channel's capacity and its back-pressure, and `WaitFlush`'s sleep-poll (logd/log.go:203-211) are not modelled. The queue is a sequence, and the consumer runs when `Receive` is called.
- Logd.Logger.Emit: on an asynchronous logger, `Fatal` and `Fatalf` only queue their record before `os.Exit`, so in Go the consumer is usually never scheduled to write it. The model records the queued record and returns `exit`; it does not model that the record is lost when the process ends.
- **The caller.** `runtime.Caller` is an input (`ok`, file, line). `calldepth` is not modelled. `CallerStack` (logd/log.go:491-503) is an opaque input string.
- **The clock.** `time.Now`, `.UTC()`, `Date()` and `Clock()` are replaced by integer date and time fields. Each of these is an input:
  - one instant per entry-point call;
  - the consumer's two readings per record;
  - the consumer's first reading.
- **Negative years.** Years are taken as non-negative.
- **Message formatting.** `fmt.Sprintf`, `fmt.Sprint` and `fmt.Sprintln` are not modelled, so messages are inputs. `SmartFormat` builds the format string.
- **Upper-casing.** `strings.ToUpper` is modelled for ASCII letters only.
- Rotate.WholeHours: `Hours()` is a float. The model takes the age in nanoseconds and truncates the hour count toward zero, as the `int(...)` conversion does. Go computes `Hours()` as the whole hours plus the remainder divided by 3.6e12. The sum is exact below about 4096 hours, so the 24-hour and 720-hour tests are never affected. Above that, an age just short of a whole hour may round up, which the model does not reproduce.
- **External effects.**
  - `gzip`, `os.Remove`, `filepath.Walk` and `os.OpenFile` are reduced to given outcomes over a set of existing paths.
  - `os.Exit` is the `exit` result of `Logd.Logger.Emit`.
  - `panic` on a failed open is the `panicked` flag. `Logd.Logger.Handle` and `Logd.Logger.Take` require that it is not yet set, because the Go process would be gone.
- **The network.** TLS and SMTP are not modelled. Each step's reply is an input. The result of the alert goroutine is ignored by Output, so alerts are only recorded.
- Logd.Logger.Output: the Go function always returns nil, so the model has no result. Writing to a nil `out` would panic, so `Output`, `Emit`, `LogGated`, `LogErrorf` and `LogFatal` require a writer (or LAsync) only when the caller is known and a record is actually written.
- **Write errors.** The results of the writes to the dated file and to `out` are discarded (logd/log.go:98-103 and logd/log.go:150). The model treats every write as successful.
- Logd.Logger.Receive: the day check and the reopen read the clock separately (`Tick.seen` and `Tick.reopened`). Records enqueued while the loop runs are not modelled, because the loop works on the queue as it was.
- Logd.StartsConsumer: the corrected start test is used by the constructor. In Go the consumer also runs for synchronous loggers. It idles because they never queue: `Logd.Logger.Valid` keeps the queue of a logger without a consumer empty, and `Logd.ConsumerStartsIffQueued` shows that Output queues nothing for it.
- **Package functions.** `Printf`, `Print`, `Debug` … `Fatal` at package level are `Logd.Logger.Emit` with scope `Package` on `Std`. The package `Breakpoint`, `SetLevel`, `SetOutput` and `SetObj` (logd/log.go:430-443) call the same methods on `Std`.
- **Reset's arguments.** `token`, `secret` and `en_ding` are accepted and unused, as in the source. A failed open gives the nil file `NilFile`, whose writes are lost.
- **Bytes.** Go byte strings are `string` values, one character per byte.

## Findings

| source | as written | input that shows it | evidently intended | confidence | as-written member | corrected member |
|---|---|---|---|---|---|---|
| logd/log.go:73 | the bitwise OR of the flag word with LAsync is never zero, so the consumer starts for synchronous loggers too | `LstdFlags` (no LAsync): the test holds | `flag&LAsync != 0`: the consumer runs exactly for loggers that queue | high, not executed | Logd.ConsumerStartsForSyncLogger | Logd.ConsumerStartsIffQueued |
| logd/log.go:113-126 | an entry older than 720 hours whose name ends in `.log` is first gzipped, so `os.Remove(path)` finds no file and the walk aborts, skipping every later entry | a 721-hour-old `a.log` before a 30-hour-old `b.log`: the walk fails on `a.log`, and `b.log` is never compressed | expired entries are removed (not compressed first) and the walk continues | high, not executed | Rotate.AsWrittenCounterexample | Rotate.CorrectedWalkPlan |
