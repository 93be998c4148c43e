/**
 * The Logger object (logd/log.go:44-77, 132-201, 213-318) and the package-level logger Std
 * with the functions that replace it (logd/log.go:320-443).
 *
 * The mutex, the channel's capacity and the goroutines are not modelled: the channel is a
 * sequence, the consumer runs when Receive is called, and an alert is recorded instead of
 * being mailed. The caller lookup, the clock, the working directory and the results of
 * opening files are inputs.
 */
module Logd {
  import opened Wrappers
  import opened Flags
  import opened Digits
  import opened Header
  import opened Consumer
  import opened Mail
  import opened Routing
  import opened Seqs

  /** The options New takes (logd/log.go:54-60). */
  datatype LogOption = LogOption(out: Option<Writer>, logDir: string, channelLen: int,
                                 flag: Word, mails: Option<Smtp>)

  /** Every field of a Logger, as a value. */
  datatype LoggerState = LoggerState(
    obj: string, out: Option<Writer>, queue: seq<string>, dir: string, flag: Word,
    mails: Option<Smtp>, consuming: bool, delivered: seq<Delivery>, alerts: seq<Alert>,
    today: DateTime, file: Option<string>, files: map<string, string>,
    rotations: seq<DateTime>, panicked: bool)

  /**
   * The object name New derives from the working directory: the text after its last '/',
   * or all of it when there is none.
   */
  function ObjName(wd: string): string
    decreases |wd|
  {
    if wd == [] then []
    else if wd[|wd| - 1] == '/' then []
    else ObjName(wd[..|wd| - 1]) + [wd[|wd| - 1]]
  }

  /**
   * The object name is a suffix of the working directory without a '/', preceded by a '/'
   * unless it is the whole directory.
   */
  lemma {:induction false} ObjNameIsLastSegment(wd: string)
    ensures var obj := ObjName(wd);
      && |obj| <= |wd| && obj == wd[|wd| - |obj|..]
      && '/' !in obj
      && (|obj| < |wd| ==> wd[|wd| - |obj| - 1] == '/')
    decreases |wd|
  {
    if wd != [] && wd[|wd| - 1] != '/' {
      var w := wd[..|wd| - 1];
      ObjNameIsLastSegment(w);
      var o := ObjName(w);
      assert ObjName(wd) == o + [wd[|wd| - 1]];
      assert wd[|wd| - |o| - 1..] == w[|w| - |o|..] + [wd[|wd| - 1]];
    }
  }

  /** New's test for starting the consumer, as written: `flag|LAsync != 0`. */
  predicate StartsConsumerAsWritten(flag: Word) {
    flag | LAsync != 0
  }

  /** The test evidently intended: the consumer runs for asynchronous loggers. */
  predicate StartsConsumer(flag: Word) {
    flag & LAsync != 0
  }

  /** As written, the consumer starts for every flag word, including synchronous ones. */
  lemma ConsumerStartsForSyncLogger(flag: Word)
    ensures StartsConsumerAsWritten(flag)
    ensures StartsConsumerAsWritten(LstdFlags) && !Has(LstdFlags, LAsync)
  {
  }

  /**
   * Corrected, the consumer starts exactly for the loggers whose Output queues: a record
   * from a known caller lands on the queue iff the start test holds, and otherwise the
   * queue is left as it was.
   */
  lemma ConsumerStartsIffQueued(st: Settings, k: Sinks, c: Call, now: Instant, site: Caller)
    requires now.Valid() && site.ok && st.CanWrite()
    ensures StartsConsumer(st.flag) <==> OutputEffect(st, k, c, now, site).queue != k.queue
    ensures !StartsConsumer(st.flag) ==> OutputEffect(st, k, c, now, site).queue == k.queue
  {
    var r := OutputEffect(st, k, c, now, site);
    if StartsConsumer(st.flag) {
      assert |r.queue| == |k.queue| + 1;
    }
  }

  class Logger {
    var obj: string
    var out: Option<Writer>
    /** The channel `in`: records waiting for the consumer. */
    var queue: seq<string>
    var dir: string
    var flag: Word
    var mails: Option<Smtp>
    /** Whether New started the consumer. */
    var consuming: bool
    /** Every Write on an out writer, by Output or by the consumer. */
    var delivered: seq<Delivery>
    /** Every SendMail(obj, record) started by Output. */
    var alerts: seq<Alert>
    // The consumer's variables, and the files it writes.
    var today: DateTime
    var file: Option<string>
    var files: map<string, string>
    var rotations: seq<DateTime>
    var panicked: bool

    /**
     * The consumer runs exactly for asynchronous loggers, and nothing waits on the queue of
     * a logger without one.
     */
    predicate Valid()
      reads this
    {
      consuming == Has(flag, LAsync) && (!consuming ==> queue == [])
    }

    function Snapshot(): LoggerState
      reads this
    {
      LoggerState(obj, out, queue, dir, flag, mails, consuming, delivered, alerts,
                  today, file, files, rotations, panicked)
    }

    function Current(): Settings
      reads this
    {
      Settings(obj, out, flag, mails)
    }

    function Produced(): Sinks
      reads this
    {
      Sinks(queue, delivered, alerts)
    }

    function ConsumerConfig(): Config
      reads this
    {
      Config(dir, obj, flag, out)
    }

    function ConsumerState(): State
      reads this
    {
      State(today, file, files, delivered, rotations, panicked)
    }

    /**
     * New(option): the object name from the working directory, the options' fields, an empty
     * channel, and the consumer started for asynchronous loggers. The consumer's first
     * reading of the clock and the files already on disk are inputs.
     */
    constructor (option: LogOption, wd: string, start: DateTime, disk: map<string, string>)
      ensures Snapshot() == LoggerState(ObjName(wd), option.out, [], option.logDir, option.flag,
                                        option.mails, StartsConsumer(option.flag), [], [],
                                        start, None, disk, [], false)
      ensures Valid()
    {
      obj := ObjName(wd);
      out := option.out;
      queue := [];
      dir := option.logDir;
      flag := option.flag;
      mails := option.mails;
      consuming := StartsConsumer(option.flag);
      delivered := [];
      alerts := [];
      today := start;
      file := None;
      files := disk;
      rotations := [];
      panicked := false;
    }

    method SetLogDir(d: string)
      requires Valid()
      modifies this
      ensures Snapshot() == old(Snapshot()).(dir := d) && Valid()
    {
      dir := d;
    }

    method SetObj(o: string)
      requires Valid()
      modifies this
      ensures Snapshot() == old(Snapshot()).(obj := o) && Valid()
    {
      obj := o;
    }

    method SetOutput(w: Option<Writer>)
      requires Valid()
      modifies this
      ensures Snapshot() == old(Snapshot()).(out := w) && Valid()
    {
      out := w;
    }

    /**
     * SetLevel(lvl): finds the lowest of lvl's five level bits by shifting lvl right, then
     * keeps the severity bits from there up and clears those below. Behaviour bits, and
     * hence Valid, are kept.
     */
    method SetLevel(lvl: int)
      requires Valid()
      modifies this
      ensures Snapshot() == old(Snapshot()).(flag := ApplyLevel(old(flag), lvl)) && Valid()
    {
      var i := LowestLevelBit(lvl);
      var f0 := flag;
      var f := ((f0 >> i) | (Lall >> i)) << i;
      ShiftFormula(f0, lvl, i, f);
      SetLevelKeepsBehaviour(f0, lvl, LAsync);
      flag := f;
    }

    /** SetLevel's loop: shifts lvl right until its lowest bit is set, at most five times. */
    static method LowestLevelBit(lvl: int) returns (i: nat)
      ensures i == Threshold(lvl)
    {
      i := 0;
      var v := lvl;
      while i < LevelCount
        invariant i <= LevelCount
        invariant forall j :: 0 <= j < i ==> !IntBit(lvl, j)
        invariant forall k: nat :: IntBit(v, k) == IntBit(lvl, i + k)
      {
        if v % 2 == 1 {
          assert IntBit(lvl, i) by {
            assert IntBit(v, 0) == IntBit(lvl, i + 0);
          }
          break;
        }
        assert !IntBit(lvl, i) by {
          assert IntBit(v, 0) == IntBit(lvl, i + 0);
        }
        forall k: nat
          ensures IntBit(v / 2, k) == IntBit(lvl, i + 1 + k)
        {
          assert IntBit(v, k + 1) == IntBit(v / 2, k);
          assert IntBit(v, k + 1) == IntBit(lvl, i + (k + 1));
        }
        v := v / 2;
        i := i + 1;
      }
    }

    /**
     * formatHeader: appends to buf the date, the clock, the level tag and the location,
     * each when its flags ask for it, for the UTC reading when LUTC is set.
     */
    method FormatHeader(buf: string, lvl: int, now: Instant, file: string, line: nat)
      returns (r: string)
      requires now.Valid() && line <= MaxInt
      ensures r == buf + HeaderText(flag, lvl, now, file, line)
    {
      ghost var t := Reading(flag, now);
      r := AppendTime(buf, flag, now);
      ghost var time := r;
      var tag := ColorLevel(LevelName(lvl));
      r := r + tag;
      r := r + " ";
      ghost var head := r;
      r := AppendLocation(r, flag, file, line);
      assert r == ((time + tag) + " ") + FileSection(flag, file, line);
      ghost var dc := DateSection(flag, t) + ClockSection(flag, t);
      AppendAssoc(buf, dc, tag);
      AppendAssoc(buf, dc + tag, " ");
      AppendAssoc(buf, (dc + tag) + " ", FileSection(flag, file, line));
    }

    /** The date and clock sections, for the UTC reading when LUTC is set. */
    static method AppendTime(buf: string, flag: Word, now: Instant) returns (r: string)
      requires now.Valid()
      ensures r == buf + (DateSection(flag, Reading(flag, now)) + ClockSection(flag, Reading(flag, now)))
    {
      var t := now.local;
      if Has(flag, LUTC) {
        t := now.utc;
      }
      assert t == Reading(flag, now);
      r := AppendDateClock(buf, flag, t);
    }

    /** The date and clock sections of one reading, when any of their flags is set. */
    static method AppendDateClock(buf: string, flag: Word, t: DateTime) returns (r: string)
      requires t.Valid()
      ensures r == buf + (DateSection(flag, t) + ClockSection(flag, t))
    {
      if Has(flag, Ldate | Ltime | Lmicroseconds) {
        r := AppendDate(buf, flag, t);
        r := AppendClock(r, flag, t);
        AppendAssoc(buf, DateSection(flag, t), ClockSection(flag, t));
      } else {
        r := buf;
        NoDateNoClock(flag, t);
        assert buf + (DateSection(flag, t) + ClockSection(flag, t)) == buf + "" == buf;
      }
    }

    /** `YYYY/MM/DD ` when Ldate is set. */
    static method AppendDate(buf: string, flag: Word, t: DateTime) returns (r: string)
      requires t.Valid()
      ensures r == buf + DateSection(flag, t)
    {
      r := buf;
      if Has(flag, Ldate) {
        ghost var acc: string := [];
        assert r == buf + acc;
        r := Itoa(r, t.year, 4);
        AppendAssoc(buf, acc, PadDecimal(t.year, 4)); acc := acc + PadDecimal(t.year, 4);
        r := r + "/";
        AppendAssoc(buf, acc, "/"); acc := acc + "/";
        r := Itoa(r, t.month, 2);
        AppendAssoc(buf, acc, PadDecimal(t.month, 2)); acc := acc + PadDecimal(t.month, 2);
        r := r + "/";
        AppendAssoc(buf, acc, "/"); acc := acc + "/";
        r := Itoa(r, t.day, 2);
        AppendAssoc(buf, acc, PadDecimal(t.day, 2)); acc := acc + PadDecimal(t.day, 2);
        r := r + " ";
        AppendAssoc(buf, acc, " "); acc := acc + " ";
        assert acc == DateSection(flag, t);
      }
    }

    /** `HH:MM:SS`, `.uuuuuu` with Lmicroseconds, and a space, when Ltime or Lmicroseconds is set. */
    static method AppendClock(buf: string, flag: Word, t: DateTime) returns (r: string)
      requires t.Valid()
      ensures r == buf + ClockSection(flag, t)
    {
      r := buf;
      if Has(flag, Ltime | Lmicroseconds) {
        r := AppendSeconds(r, t);
        ghost var hms := PadDecimal(t.hour, 2) + ":" + PadDecimal(t.minute, 2) + ":" + PadDecimal(t.second, 2);
        ghost var micro: string := "";
        if Has(flag, Lmicroseconds) {
          ghost var c := r;
          r := r + ".";
          r := Itoa(r, t.nanosecond / 1000, 6);
          micro := "." + PadDecimal(t.nanosecond / 1000, 6);
          AppendAssoc(c, ".", PadDecimal(t.nanosecond / 1000, 6));
        }
        assert micro == (if Has(flag, Lmicroseconds) then "." + PadDecimal(t.nanosecond / 1000, 6) else "");
        AppendAssoc(buf, hms, micro);
        r := r + " ";
        AppendAssoc(buf, hms + micro, " ");
      }
    }

    /** `HH:MM:SS` */
    static method AppendSeconds(buf: string, t: DateTime) returns (r: string)
      requires t.Valid()
      ensures r == buf + (PadDecimal(t.hour, 2) + ":" + PadDecimal(t.minute, 2) + ":" + PadDecimal(t.second, 2))
    {
      ghost var acc: string := [];
      assert buf == buf + acc;
      r := Itoa(buf, t.hour, 2);
      AppendAssoc(buf, acc, PadDecimal(t.hour, 2)); acc := acc + PadDecimal(t.hour, 2);
      r := r + ":";
      AppendAssoc(buf, acc, ":"); acc := acc + ":";
      r := Itoa(r, t.minute, 2);
      AppendAssoc(buf, acc, PadDecimal(t.minute, 2)); acc := acc + PadDecimal(t.minute, 2);
      r := r + ":";
      AppendAssoc(buf, acc, ":"); acc := acc + ":";
      r := Itoa(r, t.second, 2);
      AppendAssoc(buf, acc, PadDecimal(t.second, 2)); acc := acc + PadDecimal(t.second, 2);
    }

    static method AppendLocation(buf: string, flag: Word, file: string, line: nat) returns (r: string)
      requires line <= MaxInt
      ensures r == buf + FileSection(flag, file, line)
    {
      r := buf;
      if Has(flag, Lshortfile | Llongfile) {
        var name := file;
        if Has(flag, Lshortfile) {
          name := ShortFile(file);
        }
        assert name == (if Has(flag, Lshortfile) then ShortName(file) else file);
        ghost var acc: string := name;
        r := r + name;
        r := r + ":";
        AppendAssoc(buf, acc, ":"); acc := acc + ":";
        r := Itoa(r, line, -1);
        assert PadDecimal(line, -1) == Decimal(line);
        AppendAssoc(buf, acc, Decimal(line)); acc := acc + Decimal(line);
        r := r + ": ";
        AppendAssoc(buf, acc, ": "); acc := acc + ": ";
        assert acc == FileSection(flag, file, line);
      }
    }

    /** The Lshortfile scan: backwards from the end, stopping at a '/' at index 1 or more. */
    static method ShortFile(file: string) returns (short: string)
      ensures short == ShortName(file)
    {
      short := file;
      var i := |file| - 1;
      while i > 0
        invariant -1 <= i < |file|
        invariant forall k :: i < k < |file| ==> file[k] != '/'
      {
        if file[i] == '/' {
          ShortNameAt(file, i);
          short := file[i + 1..];
          return;
        }
        i := i - 1;
      }
      ShortNameWhole(file);
    }

    /**
     * Output(lvl, content): nothing when the caller is unknown; otherwise the record is the
     * header followed by the content, an alert is started for WARN and above when a mailer
     * is set, and the record is queued (LAsync) or written to out.
     */
    method Output(lvl: int, content: string, now: Instant, site: Caller)
      requires Valid() && now.Valid() && site.Valid() && (site.ok ==> Current().CanWrite())
      modifies this
      ensures Valid()
      ensures Produced() == OutputEffect(old(Current()), old(Produced()), Call(lvl, content), now, site)
      ensures Snapshot() == old(Snapshot()).(queue := queue, delivered := delivered, alerts := alerts)
    {
      if !site.ok {
        return;
      }
      var buf := FormatHeader([], lvl, now, site.file, site.line);
      ghost var head := buf;
      buf := buf + content;
      RecordAfterHeader(flag, lvl, now, site, content, head);
      Route(lvl, buf);
    }

    /** The header formatted into an empty buffer, then the content, is the record. */
    static lemma RecordAfterHeader(flag: Word, lvl: int, now: Instant, site: Caller, content: string, head: string)
      requires now.Valid() && head == [] + HeaderText(flag, lvl, now, site.file, site.line)
      ensures head + content == Record(flag, lvl, now, site, content)
    {
      assert head == HeaderText(flag, lvl, now, site.file, site.line);
    }

    /** The end of Output: the alert, then the queue or the direct write. */
    method Route(lvl: int, rec: string)
      requires Valid() && Current().CanWrite()
      modifies this
      ensures Valid()
      ensures Produced() == Routing.Route(old(Current()), old(Produced()), lvl, rec)
      ensures Snapshot() == old(Snapshot()).(queue := queue, delivered := delivered, alerts := alerts)
    {
      if mails.Some? && lvl >= Lwarn as int {
        alerts := alerts + [Alert(obj, rec)];
      }
      if Has(flag, LAsync) {
        queue := queue + [rec];
      } else {
        delivered := delivered + [Delivery(out.value, rec)];
      }
    }

    /**
     * The logging entry points, as Logger methods (OnLogger) and as package functions on Std
     * (Package): the Output calls Calls describes, in order; Fatal and Fatalf then exit.
     * The formatted message and the caller stack text are inputs.
     */
    method Emit(scope: Scope, e: EntryPoint, msg: string, stack: string, now: Instant, site: Caller)
      returns (exit: bool)
      requires Valid() && now.Valid() && site.Valid()
      requires site.ok && Calls(scope, e, flag, msg, stack) != [] ==> Current().CanWrite()
      modifies this
      ensures Valid()
      ensures Produced()
           == EmitEffect(old(Current()), old(Produced()), Calls(scope, e, old(flag), msg, stack), now, site)
      ensures Snapshot() == old(Snapshot()).(queue := queue, delivered := delivered, alerts := alerts)
      ensures exit == Exits(e)
    {
      ghost var st, k := Current(), Produced();
      exit := false;
      match e {
        case Fatal | Fatalf =>
          LogFatal(scope, msg, stack, now, site);
          assert Calls(scope, e, st.flag, msg, stack) == Calls(scope, Fatal, st.flag, msg, stack);
          exit := true;
        case Errorf =>
          LogErrorf(scope, msg, stack, now, site);
        case Print | Printf =>
          Output(2, msg, now, site);
          EmitOne(st, k, Call(2, msg), now, site);
        case Breakpoint =>
          Output(1, "breakpoint\n", now, site);
          EmitOne(st, k, Call(1, "breakpoint\n"), now, site);
        case _ =>
          LogGated(scope, e, msg, stack, now, site);
      }
    }

    /** Debug, Info, Warn, Error and their formatted forms: the message, when their bit is set. */
    method LogGated(scope: Scope, e: EntryPoint, msg: string, stack: string, now: Instant, site: Caller)
      requires Valid() && now.Valid() && site.Valid() && Gate(e).Some? && e != Errorf
      requires site.ok && Calls(scope, e, flag, msg, stack) != [] ==> Current().CanWrite()
      modifies this
      ensures Valid()
      ensures Produced()
           == EmitEffect(old(Current()), old(Produced()), Calls(scope, e, old(flag), msg, stack), now, site)
      ensures Snapshot() == old(Snapshot()).(queue := queue, delivered := delivered, alerts := alerts)
    {
      ghost var st, k := Current(), Produced();
      GatedCall(scope, e, st.flag, msg, stack);
      if Has(flag, Gate(e).value) {
        Output(EntryLevel(e), msg, now, site);
        EmitOne(st, k, Call(EntryLevel(e), msg), now, site);
      }
    }

    /** Errorf: the message with the caller stack, when Lerror is set. */
    method LogErrorf(scope: Scope, msg: string, stack: string, now: Instant, site: Caller)
      requires Valid() && now.Valid() && site.Valid()
      requires site.ok && Calls(scope, Errorf, flag, msg, stack) != [] ==> Current().CanWrite()
      modifies this
      ensures Valid()
      ensures Produced()
           == EmitEffect(old(Current()), old(Produced()), Calls(scope, Errorf, old(flag), msg, stack), now, site)
      ensures Snapshot() == old(Snapshot()).(queue := queue, delivered := delivered, alerts := alerts)
    {
      if Has(flag, Lerror) {
        if scope == Package {
          Output(8, msg + "\n" + stack, now, site);
        } else {
          Output(8, msg + stack, now, site);
        }
      }
    }

    /** Fatal and Fatalf before they exit: the message, then, in the package form, the stack. */
    method LogFatal(scope: Scope, msg: string, stack: string, now: Instant, site: Caller)
      requires Valid() && now.Valid() && site.Valid() && (site.ok ==> Current().CanWrite())
      modifies this
      ensures Valid()
      ensures Produced()
           == EmitEffect(old(Current()), old(Produced()), Calls(scope, Fatal, old(flag), msg, stack), now, site)
      ensures Snapshot() == old(Snapshot()).(queue := queue, delivered := delivered, alerts := alerts)
    {
      ghost var st := Current();
      Output(16, msg, now, site);
      if scope == Package {
        ghost var k1 := Produced();
        Output(16, stack, now, site);
        assert Produced() == EmitEffect(st, k1, [Call(16, stack)], now, site);
      }
    }

    /**
     * The consumer's handling of one record: reopen the dated file when a directory is set
     * and no file is open or the day changed (a failed open panics), then write the record to
     * the file and to out.
     */
    method Handle(data: string, t: Tick)
      requires Valid() && t.Valid() && !panicked
      modifies this
      ensures Valid()
      ensures ConsumerState() == Step(ConsumerConfig(), old(ConsumerState()), data, t)
      ensures Snapshot() == old(Snapshot()).(today := today, file := file, files := files,
                                             delivered := delivered, rotations := rotations,
                                             panicked := panicked)
    {
      if dir != "" && (file.None? || today.day != t.seen.day) {
        Reopen(t);
        if panicked {
          return;
        }
      }
      if file.Some? {
        files := Append(files, file.value, data);
      }
      if out.Some? {
        delivered := delivered + [Delivery(out.value, data)];
      }
    }

    /** Reopening the dated file: today is read again, a failed open panics, Ldaily rotates. */
    method Reopen(t: Tick)
      requires Valid() && t.Valid()
      modifies this
      ensures Valid()
      ensures ConsumerState() == Open(ConsumerConfig(), old(ConsumerState()), t)
      ensures Snapshot() == old(Snapshot()).(today := today, file := file, files := files,
                                             rotations := rotations, panicked := panicked)
    {
      today := t.reopened;
      if t.open.Fail? {
        file := None;
        panicked := true;
        return;
      }
      var name := dir + "/" + obj + "_" + DateStamp(today) + ".log";
      file := Some(name);
      files := files[name := Contents(files, name)];
      if Has(flag, Ldaily) {
        rotations := rotations + [today];
      }
    }

    /** One turn of receive's loop: the next record is taken off the queue and handled. */
    method Take(t: Tick)
      requires Valid() && t.Valid() && queue != [] && !panicked
      modifies this
      ensures Valid()
      ensures queue == old(queue)[1..]
      ensures ConsumerState() == Step(ConsumerConfig(), old(ConsumerState()), old(queue)[0], t)
      ensures obj == old(obj) && out == old(out) && dir == old(dir) && flag == old(flag)
      ensures mails == old(mails) && consuming == old(consuming) && alerts == old(alerts)
    {
      var data := queue[0];
      queue := queue[1..];
      Handle(data, t);
    }

    /**
     * receive: takes records off the queue in order, one per tick, until the queue or the
     * ticks run out or the consumer panics.
     */
    method Receive(ticks: seq<Tick>) returns (taken: nat)
      requires forall k :: 0 <= k < |ticks| ==> ticks[k].Valid()
      requires Valid()
      modifies this
      ensures Valid()
      ensures !consuming ==> taken == 0 && Snapshot() == old(Snapshot())
      ensures (ConsumerState(), taken)
           == Run(old(ConsumerConfig()), old(ConsumerState()), old(queue), ticks)
      ensures queue == old(queue)[taken..]
      ensures Snapshot() == old(Snapshot()).(queue := queue, today := today, file := file,
                                             files := files, delivered := delivered,
                                             rotations := rotations, panicked := panicked)
    {
      ghost var c, q0 := ConsumerConfig(), queue;
      ghost var goal := Run(c, ConsumerState(), queue, ticks);
      ghost var rest := ticks;
      taken := 0;
      while taken < |ticks| && queue != [] && !panicked
        invariant taken <= |ticks| && taken <= |q0| && queue == q0[taken..]
        invariant rest == ticks[taken..] && forall k :: 0 <= k < |rest| ==> rest[k].Valid()
        invariant ConsumerConfig() == c && (consuming || q0 == [])
        invariant obj == old(obj) && out == old(out) && dir == old(dir) && flag == old(flag)
        invariant mails == old(mails) && consuming == old(consuming) && alerts == old(alerts)
        invariant var r := Run(c, ConsumerState(), queue, rest);
          goal == (r.0, taken + r.1)
        decreases |ticks| - taken
      {
        assert queue[1..] == q0[taken + 1..];
        RunAdvance(c, ConsumerState(), queue, rest, taken, goal);
        ghost var next := Step(c, ConsumerState(), queue[0], rest[0]);
        assert rest[0] == ticks[taken];
        Take(ticks[taken]);
        assert ConsumerState() == next;
        taken := taken + 1;
        rest := rest[1..];
      }
      if !consuming {
        assert q0 == [] && taken == 0;
      }
    }
  }

  /** The log file RedirectLogFile opens: "app.log" when none is named. */
  function RedirectTarget(logfile: string): (name: string)
    ensures name != ""
    ensures logfile != "" ==> name == logfile
  {
    if logfile == "" then "app.log" else logfile
  }

  /** The flags Reset gives Std: WARN and above, date, time and short file name. */
  const ResetFlags: Word := Lwarn | Lerror | Lfatal | Ldate | Ltime | Lshortfile

  /** Reset's logger is synchronous and drops DEBUG and INFO records. */
  lemma ResetFiltersBelowWarn(msg: string, stack: string)
    ensures !Has(ResetFlags, LAsync)
    ensures Calls(Package, Debug, ResetFlags, msg, stack) == []
    ensures Calls(Package, Info, ResetFlags, msg, stack) == []
    ensures Calls(Package, Warn, ResetFlags, msg, stack) == [Call(4, msg)]
  {
  }

  /** The package-level logger Std and the functions that replace it. */
  class Package {
    var std: Logger

    /** `Std = New(LogOption{Out: os.Stdout, ChannelLen: 1000, Flag: LstdFlags})` */
    constructor (wd: string, start: DateTime, disk: map<string, string>)
      ensures fresh(std) && std.Valid()
      ensures std.Snapshot() == LoggerState(ObjName(wd), Some(Stdout), [], "", LstdFlags, None,
                                            false, [], [], start, None, disk, [], false)
    {
      assert !StartsConsumer(LstdFlags);
      var l := new Logger(LogOption(Some(Stdout), "", 1000, LstdFlags, None), wd, start, disk);
      assert l.Snapshot() == LoggerState(ObjName(wd), Some(Stdout), [], "", LstdFlags, None,
                                         false, [], [], start, None, disk, [], false);
      std := l;
    }

    /**
     * RedirectLogFile(logfile, flags): opens the file ("app.log" when none is named); on
     * failure returns the error and keeps Std; otherwise Std becomes a new logger writing
     * to that file with the given flags.
     */
    method RedirectLogFile(logfile: string, flags: Word, openErr: Status,
                           wd: string, start: DateTime, disk: map<string, string>)
      returns (err: Status)
      modifies this
      ensures err == (if openErr.Ok? then Ok else Fail("Could not open log file"))
      ensures openErr.Fail? ==> std == old(std)
      ensures openErr.Ok? ==>
        fresh(std) && std.Valid() && std.Snapshot() == LoggerState(ObjName(wd), Some(FileWriter(RedirectTarget(logfile))), [], "", flags,
                       None, StartsConsumer(flags), [], [], start, None, disk, [], false)
    {
      var name := logfile;
      if name == "" {
        name := "app.log";
      }
      if openErr.Fail? {
        return Fail("Could not open log file");
      }
      std := new Logger(LogOption(Some(FileWriter(name)), "", 1000, flags, None), wd, start, disk);
      err := Ok;
    }

    /**
     * Reset(logfile, ...): with a file name, Std becomes a synchronous logger for WARN and
     * above writing to that file; the open error is ignored, so a failed open leaves a nil
     * file whose writes are lost. Without a file name nothing changes.
     */
    method Reset(logfile: string, token: string, secret: string, enDing: bool, openErr: Status,
                 wd: string, start: DateTime, disk: map<string, string>)
      modifies this
      ensures logfile == "" ==> std == old(std)
      ensures logfile != "" ==>
        fresh(std) && std.Valid() && std.Snapshot() == LoggerState(ObjName(wd), Some(if openErr.Ok? then FileWriter(logfile) else NilFile),
                       [], "", ResetFlags, None, false, [], [], start, None, disk, [], false)
    {
      if logfile != "" {
        var w := if openErr.Ok? then FileWriter(logfile) else NilFile;
        std := new Logger(LogOption(Some(w), "", 1000, ResetFlags, None), wd, start, disk);
      }
    }
  }
}
