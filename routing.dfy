/**
 * Which records the logging entry points produce and where Output sends them
 * (logd/log.go:132-153, 213-286, 364-432): the per-level filters, the entry points that
 * bypass them, the alert rule and the choice between the queue and a direct write.
 */
module Routing {
  import opened Wrappers
  import opened Flags
  import opened Digits
  import opened Header
  import opened Consumer
  import opened Mail
  import opened Seqs

  /** The result of runtime.Caller for the call site: whether it was found, file and line. */
  datatype Caller = Caller(ok: bool, file: string, line: nat) {
    predicate Valid() {
      line <= MaxInt
    }
  }

  /** An alert handed to the mailer: SendMail(obj, record). */
  datatype Alert = Alert(fromname: string, msg: string)

  /** Entry points exist as Logger methods and as package functions acting on Std. */
  datatype Scope = OnLogger | Package

  datatype EntryPoint =
    | Debug | Debugf | Info | Infof | Warn | Warnf | Error | Errorf
    | Fatal | Fatalf | Print | Printf | Breakpoint

  /** The severity bit that gates an entry point, if any. */
  function Gate(e: EntryPoint): (g: Option<Word>)
    ensures g.Some? <==> e !in {Fatal, Fatalf, Print, Printf, Breakpoint}
  {
    match e
    case Debug | Debugf => Some(Ldebug)
    case Info | Infof => Some(Linfo)
    case Warn | Warnf => Some(Lwarn)
    case Error | Errorf => Some(Lerror)
    case _ => None
  }

  /** The level an entry point logs at: Print uses INFO and Breakpoint uses DEBUG. */
  function EntryLevel(e: EntryPoint): (lvl: int)
    ensures Gate(e).Some? ==> lvl == Gate(e).value as int
  {
    match e
    case Debug | Debugf | Breakpoint => 1
    case Info | Infof | Print | Printf => 2
    case Warn | Warnf => 4
    case Error | Errorf => 8
    case Fatal | Fatalf => 16
  }

  /** One call of Output: its level and its content. */
  datatype Call = Call(lvl: int, content: string)

  /**
   * The Output calls an entry point makes, given the formatted message and the caller stack
   * text. The Errorf method appends the stack directly, the package Errorf after a newline;
   * the package Fatal and Fatalf log the stack as a second record; Breakpoint logs
   * "breakpoint\n".
   */
  function Calls(scope: Scope, e: EntryPoint, flag: Word, msg: string, stack: string): seq<Call> {
    match e
    case Print | Printf => [Call(2, msg)]
    case Breakpoint => [Call(1, "breakpoint\n")]
    case Fatal | Fatalf =>
      if scope == Package then [Call(16, msg), Call(16, stack)] else [Call(16, msg)]
    case Errorf =>
      if !Has(flag, Lerror) then []
      else if scope == Package then [Call(8, msg + "\n" + stack)]
      else [Call(8, msg + stack)]
    case _ => if Has(flag, Gate(e).value) then [Call(EntryLevel(e), msg)] else []
  }

  /** Fatal and Fatalf end the process after logging (os.Exit(1)). */
  predicate Exits(e: EntryPoint) {
    e == Fatal || e == Fatalf
  }

  /** The logger fields Output reads. */
  datatype Settings = Settings(obj: string, out: Option<Writer>, flag: Word, mails: Option<Smtp>) {
    /** A synchronous logger needs a writer: writing to a nil out panics. */
    predicate CanWrite() {
      Has(flag, LAsync) || out.Some?
    }
  }

  /** What Output produces: the queue, the direct writes and the alerts. */
  datatype Sinks = Sinks(queue: seq<string>, delivered: seq<Delivery>, alerts: seq<Alert>)

  /** The record: the header followed by the content. */
  function Record(flag: Word, lvl: int, now: Instant, site: Caller, content: string): string
    requires now.Valid()
  {
    HeaderText(flag, lvl, now, site.file, site.line) + content
  }

  /** Whether Output hands the record to the mailer. */
  predicate Alerts(st: Settings, lvl: int) {
    st.mails.Some? && lvl >= Lwarn as int
  }

  /** Output: nothing when the caller is unknown; else alert, then queue or write the record. */
  function OutputEffect(st: Settings, k: Sinks, c: Call, now: Instant, site: Caller): Sinks
    requires now.Valid() && (site.ok ==> st.CanWrite())
  {
    if !site.ok then k
    else Route(st, k, c.lvl, Record(st.flag, c.lvl, now, site, c.content))
  }

  /** Where a formatted record goes: an alert when Alerts holds, then the queue or `out`. */
  function Route(st: Settings, k: Sinks, lvl: int, rec: string): Sinks
    requires st.CanWrite()
  {
    var k1 := if Alerts(st, lvl) then k.(alerts := k.alerts + [Alert(st.obj, rec)]) else k;
    if Has(st.flag, LAsync) then k1.(queue := k1.queue + [rec])
    else k1.(delivered := k1.delivered + [Delivery(st.out.value, rec)])
  }

  /** The Output calls of one entry point, in order. */
  function EmitEffect(st: Settings, k: Sinks, calls: seq<Call>, now: Instant, site: Caller): Sinks
    requires now.Valid() && (site.ok && calls != [] ==> st.CanWrite())
    decreases |calls|
  {
    if calls == [] then k
    else EmitEffect(st, OutputEffect(st, k, calls[0], now, site), calls[1..], now, site)
  }

  lemma EmitOne(st: Settings, k: Sinks, c: Call, now: Instant, site: Caller)
    requires now.Valid() && (site.ok ==> st.CanWrite())
    ensures EmitEffect(st, k, [c], now, site) == OutputEffect(st, k, c, now, site)
  {
  }

  /** The records a sequence of calls produces when the caller is known. */
  function Records(flag: Word, calls: seq<Call>, now: Instant, site: Caller): (rs: seq<string>)
    requires now.Valid()
    ensures |rs| == |calls|
    decreases |calls|
  {
    if calls == [] then []
    else [Record(flag, calls[0].lvl, now, site, calls[0].content)] + Records(flag, calls[1..], now, site)
  }

  /**
   * A gated entry point calls Output exactly when its own bit is set, once, at its level;
   * entry points without a gate call it whatever the flags.
   */
  lemma GatedIffBitSet(scope: Scope, e: EntryPoint, flag: Word, msg: string, stack: string)
    ensures Gate(e).Some? ==>
      (Calls(scope, e, flag, msg, stack) != [] <==> Has(flag, Gate(e).value))
    ensures Gate(e).Some? && Has(flag, Gate(e).value) ==>
      |Calls(scope, e, flag, msg, stack)| == 1
      && Calls(scope, e, flag, msg, stack)[0].lvl == EntryLevel(e)
    ensures Gate(e).None? ==>
      Calls(scope, e, flag, msg, stack) == Calls(scope, e, 0, msg, stack) != []
  {
  }

  /** A gated entry point other than Errorf logs the message at its level exactly when its bit is set. */
  lemma GatedCall(scope: Scope, e: EntryPoint, flag: Word, msg: string, stack: string)
    requires Gate(e).Some? && e != Errorf
    ensures Calls(scope, e, flag, msg, stack)
         == if Has(flag, Gate(e).value) then [Call(EntryLevel(e), msg)] else []
  {
  }

  /** Only the package Fatal and Fatalf log the stack as a record of its own. */
  lemma PackageFatalLogsStack(e: EntryPoint, flag: Word, msg: string, stack: string)
    requires Exits(e)
    ensures Calls(Package, e, flag, msg, stack) == [Call(16, msg), Call(16, stack)]
    ensures Calls(OnLogger, e, flag, msg, stack) == [Call(16, msg)]
  {
  }

  /** Output with an unknown caller changes nothing. */
  lemma UnknownCallerIgnored(st: Settings, k: Sinks, calls: seq<Call>, now: Instant, site: Caller)
    requires now.Valid() && !site.ok
    ensures EmitEffect(st, k, calls, now, site) == k
  {
  }

  /**
   * One Output call with a known caller: the record is queued when LAsync is set and written
   * once to `out` otherwise, never both; an alert carries the same record exactly when a
   * mailer is set and the level is WARN or above.
   */
  lemma OutputRoutesOnce(st: Settings, k: Sinks, c: Call, now: Instant, site: Caller)
    requires now.Valid() && st.CanWrite() && site.ok
    ensures var r, rec := OutputEffect(st, k, c, now, site), Record(st.flag, c.lvl, now, site, c.content);
      && (Has(st.flag, LAsync) ==> r.queue == k.queue + [rec] && r.delivered == k.delivered)
      && (!Has(st.flag, LAsync) ==>
            r.queue == k.queue && r.delivered == k.delivered + [Delivery(st.out.value, rec)])
      && r.alerts == k.alerts + (if st.mails.Some? && c.lvl >= 4 then [Alert(st.obj, rec)] else [])
  {
  }

  /** An asynchronous logger queues every record in call order and writes nothing directly. */
  lemma {:induction false} AsyncQueuesAll(st: Settings, k: Sinks, calls: seq<Call>, now: Instant, site: Caller)
    requires now.Valid() && Has(st.flag, LAsync) && site.ok
    ensures var r := EmitEffect(st, k, calls, now, site);
      r.queue == k.queue + Records(st.flag, calls, now, site) && r.delivered == k.delivered
    decreases |calls|
  {
    if calls != [] {
      var k1 := OutputEffect(st, k, calls[0], now, site);
      AsyncQueuesAll(st, k1, calls[1..], now, site);
    }
  }

  /**
   * A synchronous logger writes every record to `out` in call order and queues nothing, so
   * its records never reach a dated file.
   */
  lemma {:induction false} SyncWritesAll(st: Settings, k: Sinks, calls: seq<Call>, now: Instant, site: Caller)
    requires now.Valid() && !Has(st.flag, LAsync) && st.out.Some? && site.ok
    ensures var r := EmitEffect(st, k, calls, now, site);
      r.delivered == k.delivered + Deliveries(st.out.value, Records(st.flag, calls, now, site))
      && r.queue == k.queue
    decreases |calls|
  {
    if calls != [] {
      var w := st.out.value;
      var k1 := OutputEffect(st, k, calls[0], now, site);
      var rec := Record(st.flag, calls[0].lvl, now, site, calls[0].content);
      var rest := Records(st.flag, calls[1..], now, site);
      OutputRoutesOnce(st, k, calls[0], now, site);
      SyncWritesAll(st, k1, calls[1..], now, site);
      assert Records(st.flag, calls, now, site) == [rec] + rest;
      DeliveriesAppend(w, [rec], rest);
      assert Deliveries(w, [rec]) == [Delivery(w, rec)];
      AppendAssoc(k.delivered, [Delivery(w, rec)], Deliveries(w, rest));
    }
  }
}
