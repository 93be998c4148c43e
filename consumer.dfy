/**
 * The consumer of queued records (`receive`, logd/log.go:79-105) as a state machine: records
 * are handled in queue order; before each one the dated file `<dir>/<obj>_<YYYY-MM-DD>.log`
 * is (re)opened when a directory is set and no file is open yet or the day of the month
 * changed; the record is appended to the open file and then written to `out`.
 *
 * Writers, the files on disk and the clock are values: each record comes with a Tick that
 * holds the clock readings and the result of opening the file.
 */
module Consumer {
  import opened Wrappers
  import opened Flags
  import opened Digits
  import opened Header
  import opened Seqs

  /** An io.Writer the logger can be given. NilFile is the nil *os.File whose writes all fail. */
  datatype Writer = Stdout | FileWriter(path: string) | NilFile | Custom(id: string)

  /** One Write call on a writer. */
  datatype Delivery = Delivery(to: Writer, data: string)

  /** The logger fields the consumer reads for each record. */
  datatype Config = Config(dir: string, obj: string, flag: Word, out: Option<Writer>)

  /**
   * The clock when the record is handled (for the day check), the clock read again when the
   * file is reopened, and the result of os.OpenFile.
   */
  datatype Tick = Tick(seen: DateTime, reopened: DateTime, open: Status) {
    predicate Valid() {
      seen.Valid() && reopened.Valid()
    }
  }

  /**
   * The consumer's variables and what it has produced: the day of the last open, the open
   * file, the contents of the files on disk, the writes to `out`, the dates rotations were
   * started with, and whether it panicked on a failed open.
   */
  datatype State = State(today: DateTime, file: Option<string>, files: map<string, string>,
                         delivered: seq<Delivery>, rotations: seq<DateTime>, panicked: bool)

  /** `today.Format("2006-01-02")` */
  function DateStamp(t: DateTime): (s: string)
    requires t.Valid()
  {
    PadDecimal(t.year, 4) + "-" + PadDecimal(t.month, 2) + "-" + PadDecimal(t.day, 2)
  }

  /** `<dir>/<obj>_<YYYY-MM-DD>.log` */
  function LogFileName(dir: string, obj: string, t: DateTime): string
    requires t.Valid()
  {
    dir + "/" + obj + "_" + DateStamp(t) + ".log"
  }

  /** The current contents of a file; a missing file reads as empty. */
  function Contents(files: map<string, string>, name: string): string {
    if name in files then files[name] else ""
  }

  /** Appending to a file opened with O_CREATE|O_APPEND. */
  function Append(files: map<string, string>, name: string, data: string): map<string, string> {
    files[name := Contents(files, name) + data]
  }

  /** The reopen condition: a directory is set and no file is open or the day number changed. */
  predicate Reopens(c: Config, s: State, t: Tick) {
    c.dir != "" && (s.file.None? || s.today.day != t.seen.day)
  }

  /** Reopening: today is read again; a failed open panics; a rotation starts with Ldaily. */
  function Open(c: Config, s: State, t: Tick): State
    requires t.Valid()
  {
    if t.open.Fail? then s.(today := t.reopened, file := None, panicked := true)
    else
      var name := LogFileName(c.dir, c.obj, t.reopened);
      s.(today := t.reopened, file := Some(name),
         files := s.files[name := Contents(s.files, name)],
         rotations := s.rotations + (if Has(c.flag, Ldaily) then [t.reopened] else []))
  }

  /** The record goes to the open file, if any, and then to `out`, if set. */
  function Write(c: Config, s: State, data: string): State {
    var s1 := if s.file.Some? then s.(files := Append(s.files, s.file.value, data)) else s;
    if c.out.Some? then s1.(delivered := s1.delivered + [Delivery(c.out.value, data)]) else s1
  }

  /** Handling one record. */
  function Step(c: Config, s: State, data: string, t: Tick): State
    requires t.Valid()
  {
    var s1 := if Reopens(c, s, t) then Open(c, s, t) else s;
    if s1.panicked then s1 else Write(c, s1, data)
  }

  /**
   * Handling queued records one per tick until the queue or the ticks run out or the
   * consumer panics: the final state and how many records were taken off the queue.
   */
  function Run(c: Config, s: State, records: seq<string>, ticks: seq<Tick>): (r: (State, nat))
    requires forall k :: 0 <= k < |ticks| ==> ticks[k].Valid()
    ensures r.1 <= |records| && r.1 <= |ticks|
    decreases |records|
  {
    if records == [] || ticks == [] || s.panicked then (s, 0)
    else
      var next := Run(c, Step(c, s, records[0], ticks[0]), records[1..], ticks[1..]);
      (next.0, next.1 + 1)
  }

  /** One record handled: Run continues from the state after Step with one record more taken. */
  lemma RunStep(c: Config, s: State, records: seq<string>, ticks: seq<Tick>)
    requires forall k :: 0 <= k < |ticks| ==> ticks[k].Valid()
    requires records != [] && ticks != [] && !s.panicked
    ensures var next := Run(c, Step(c, s, records[0], ticks[0]), records[1..], ticks[1..]);
      Run(c, s, records, ticks) == (next.0, next.1 + 1)
  {
  }

  /** A run that is `done` records into `goal` stays on course after one more step. */
  lemma RunAdvance(c: Config, s: State, records: seq<string>, ticks: seq<Tick>,
                   done: nat, goal: (State, nat))
    requires forall k :: 0 <= k < |ticks| ==> ticks[k].Valid()
    requires records != [] && ticks != [] && !s.panicked
    requires goal == (Run(c, s, records, ticks).0, done + Run(c, s, records, ticks).1)
    ensures var next := Run(c, Step(c, s, records[0], ticks[0]), records[1..], ticks[1..]);
      goal == (next.0, done + 1 + next.1)
  {
    RunStep(c, s, records, ticks);
  }

  /** The writes of a sequence of records to one writer, in order. */
  function Deliveries(w: Writer, records: seq<string>): (d: seq<Delivery>)
    ensures |d| == |records|
    ensures forall k :: 0 <= k < |records| ==> d[k] == Delivery(w, records[k])
  {
    seq(|records|, k requires 0 <= k < |records| => Delivery(w, records[k]))
  }

  /** Writing two runs of records is writing them one after the other. */
  lemma DeliveriesAppend(w: Writer, a: seq<string>, b: seq<string>)
    ensures Deliveries(w, a + b) == Deliveries(w, a) + Deliveries(w, b)
  {
    assert forall k :: 0 <= k < |a| + |b| ==>
      Deliveries(w, a + b)[k] == (Deliveries(w, a) + Deliveries(w, b))[k];
  }

  /**
   * One step, unless it panics: the open file is the dated file of the reopen reading when
   * the reopen condition holds, and the previous one otherwise; that file grows by the
   * record; no other file changes; `out` receives the record when set.
   */
  lemma StepEffect(c: Config, s: State, data: string, t: Tick)
    requires t.Valid() && !Step(c, s, data, t).panicked
    ensures var r := Step(c, s, data, t);
      && r.file == (if Reopens(c, s, t) then Some(LogFileName(c.dir, c.obj, t.reopened)) else s.file)
      && r.today == (if Reopens(c, s, t) then t.reopened else s.today)
      && (r.file.Some? ==>
            r.file.value in r.files && r.files[r.file.value] == Contents(s.files, r.file.value) + data)
      && (forall f :: f in s.files && Some(f) != r.file ==> f in r.files && r.files[f] == s.files[f])
      && (forall f :: f in r.files ==> f in s.files || Some(f) == r.file)
      && r.delivered == s.delivered + (if c.out.Some? then [Delivery(c.out.value, data)] else [])
  {
  }

  /** A failed open is the only way to panic, and only when the reopen condition holds. */
  lemma StepPanicsOnlyOnFailedOpen(c: Config, s: State, data: string, t: Tick)
    requires t.Valid() && !s.panicked
    ensures Step(c, s, data, t).panicked <==> Reopens(c, s, t) && t.open.Fail?
  {
  }

  /** A rotation starts only when a file is (successfully) opened, and only with Ldaily. */
  lemma RotationOnlyOnOpen(c: Config, s: State, data: string, t: Tick)
    requires t.Valid()
    ensures var r := Step(c, s, data, t);
      r.rotations == s.rotations
        + (if Reopens(c, s, t) && t.open.Ok? && Has(c.flag, Ldaily) then [t.reopened] else [])
  {
  }

  /**
   * The day check compares day numbers only: a record on the same day of a later month goes
   * to the file opened a month before.
   */
  lemma SameDayNumberKeepsFile(c: Config, s: State, data: string, t: Tick)
    requires t.Valid() && !s.panicked && s.file.Some? && s.today.day == t.seen.day
    ensures Step(c, s, data, t).file == s.file
    ensures Step(c, s, data, t).today == s.today
  {
  }

  /**
   * Records reach `out` in queue order: when `out` is set and the consumer does not panic,
   * the writes are exactly the records taken off the queue, in order.
   */
  lemma {:induction false} DeliveredInOrder(c: Config, s: State, records: seq<string>, ticks: seq<Tick>)
    requires forall k :: 0 <= k < |ticks| ==> ticks[k].Valid()
    requires c.out.Some?
    requires !Run(c, s, records, ticks).0.panicked
    ensures var (r, n) := Run(c, s, records, ticks);
      r.delivered == s.delivered + Deliveries(c.out.value, records[..n])
    decreases |records|
  {
    if records != [] && ticks != [] && !s.panicked {
      var s1 := Step(c, s, records[0], ticks[0]);
      DeliveredInOrder(c, s1, records[1..], ticks[1..]);
      var n1 := Run(c, s1, records[1..], ticks[1..]).1;
      var w := c.out.value;
      assert records[..n1 + 1] == [records[0]] + records[1..][..n1];
      DeliveriesAppend(w, [records[0]], records[1..][..n1]);
      assert Deliveries(w, [records[0]]) == [Delivery(w, records[0])];
      assert s1.delivered == s.delivered + [Delivery(w, records[0])];
      AppendAssoc(s.delivered, [Delivery(w, records[0])], Deliveries(w, records[1..][..n1]));
    }
  }

  /** The records of a run, one after the other. */
  function Concat(records: seq<string>): string
    decreases |records|
  {
    if records == [] then "" else records[0] + Concat(records[1..])
  }

  /**
   * Records reach the dated file in queue order: while the day number stays that of the
   * open file, the file stays open, every record with a tick is taken, and the file grows by
   * exactly those records, in order.
   */
  lemma {:induction false} SameDayAppendsInOrder(c: Config, s: State, records: seq<string>, ticks: seq<Tick>)
    requires forall k :: 0 <= k < |ticks| ==> ticks[k].Valid() && ticks[k].seen.day == s.today.day
    requires !s.panicked && s.file.Some?
    ensures var (r, n) := Run(c, s, records, ticks);
      && !r.panicked && r.file == s.file && r.today == s.today
      && n == (if |records| < |ticks| then |records| else |ticks|)
      && Contents(r.files, s.file.value) == Contents(s.files, s.file.value) + Concat(records[..n])
    decreases |records|
  {
    var f := s.file.value;
    if records == [] || ticks == [] {
      assert records[..0] == [];
      assert Contents(s.files, f) + "" == Contents(s.files, f);
    } else {
      var s1 := Step(c, s, records[0], ticks[0]);
      assert !Reopens(c, s, ticks[0]);
      assert s1.file == s.file && s1.today == s.today && !s1.panicked;
      assert Contents(s1.files, f) == Contents(s.files, f) + records[0];
      assert forall k :: 0 <= k < |ticks[1..]| ==> ticks[1..][k] == ticks[k + 1];
      SameDayAppendsInOrder(c, s1, records[1..], ticks[1..]);
      var n1 := Run(c, s1, records[1..], ticks[1..]).1;
      assert records[..n1 + 1][1..] == records[1..][..n1];
      assert Concat(records[..n1 + 1]) == records[0] + Concat(records[1..][..n1]);
      AppendAssoc(Contents(s.files, f), records[0], Concat(records[1..][..n1]));
    }
  }

  /**
   * Without a log directory no file is ever opened: the consumer never panics, takes every
   * record it has a tick for, and leaves the files and rotations alone.
   */
  lemma {:induction false} NoDirectoryNoFiles(c: Config, s: State, records: seq<string>, ticks: seq<Tick>)
    requires forall k :: 0 <= k < |ticks| ==> ticks[k].Valid()
    requires c.dir == "" && !s.panicked && s.file.None?
    ensures var (r, n) := Run(c, s, records, ticks);
      && !r.panicked && r.file.None? && r.files == s.files && r.rotations == s.rotations
      && n == (if |records| < |ticks| then |records| else |ticks|)
    decreases |records|
  {
    if records != [] && ticks != [] {
      var s1 := Step(c, s, records[0], ticks[0]);
      assert !s1.panicked && s1.file.None? && s1.files == s.files && s1.rotations == s.rotations;
      NoDirectoryNoFiles(c, s1, records[1..], ticks[1..]);
    }
  }
}
