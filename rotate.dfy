/**
 * Retention of old log files (`rotate`, logd/log.go:107-129): a walk over the log directory
 * that compresses `.log` files older than a day and removes entries older than thirty days,
 * stopping at the first error.
 *
 * The file system is reduced to the set of paths that exist. The directory listing, each
 * entry's age and the outcome of each external step (the error the walk reports for an
 * entry, the `gzip` command, `os.Remove`) are inputs. `gzip path` replaces `path` by
 * `path.gz`; a step on a path that no longer exists fails.
 */
module Rotate {
  import opened Wrappers
  import opened Seqs

  /** One hour in nanoseconds (time.Hour). */
  const Hour: int := 3_600_000_000_000
  /** Entries older than this many whole hours are compressed when they are `.log` files. */
  const CompressAfter: int := 24
  /** Entries older than this many whole hours are removed. */
  const RemoveAfter: int := 24 * 30

  /** The error a step reports when its path is gone. */
  const NoSuchFile: string := "no such file or directory"

  /**
   * `int(d.Hours())` for a duration of d nanoseconds: whole hours, truncated toward zero
   * (Go's integer conversion of a float drops the fraction).
   */
  function WholeHours(d: int): (h: int)
    ensures 0 <= d ==> 0 <= h && h * Hour <= d < (h + 1) * Hour
    ensures d < 0 ==> h <= 0 && (h - 1) * Hour < d <= h * Hour
  {
    if d >= 0 then d / Hour else -((-d) / Hour)
  }

  /** strings.HasSuffix */
  predicate HasSuffix(s: string, suffix: string) {
    |suffix| <= |s| && s[|s| - |suffix|..] == suffix
  }

  /**
   * A directory entry as the walk visits it: its path, its base name (f.Name()), its age
   * (t.Sub(f.ModTime()) in nanoseconds), the error the walk passes for it, and what `gzip`
   * and `os.Remove` report when the path exists.
   */
  datatype Entry = Entry(path: string, name: string, age: int,
                         visit: Status, gzip: Status, remove: Status)

  /** An external step the walk performs. */
  datatype Op = Gzip(path: string) | Remove(path: string)

  /** The paths that exist afterwards, the steps performed in order, and the walk's error. */
  datatype Walked = Walked(present: set<string>, ops: seq<Op>, err: Status)

  /** Which callback the walk runs: the one in the source, or the corrected order. */
  datatype Callback = AsWritten | Corrected

  predicate Compressible(e: Entry) {
    WholeHours(e.age) > CompressAfter && HasSuffix(e.name, ".log")
  }

  predicate Expired(e: Entry) {
    WholeHours(e.age) > RemoveAfter
  }

  /** `gzip path`: on success the path is replaced by path + ".gz". */
  function GzipOn(present: set<string>, e: Entry): (w: Walked)
    ensures w.ops == [Gzip(e.path)]
    ensures w.err == Ok <==> e.path in present && e.gzip == Ok
    ensures w.err == Ok ==> w.present == present - {e.path} + {e.path + ".gz"}
    ensures w.err != Ok ==> w.present == present
  {
    if e.path !in present then Walked(present, [Gzip(e.path)], Fail(NoSuchFile))
    else if e.gzip.Fail? then Walked(present, [Gzip(e.path)], e.gzip)
    else Walked(present - {e.path} + {e.path + ".gz"}, [Gzip(e.path)], Ok)
  }

  /** `os.Remove(path)`: on success the path is gone. */
  function RemoveOn(present: set<string>, e: Entry): (w: Walked)
    ensures w.ops == [Remove(e.path)]
    ensures w.err == Ok <==> e.path in present && e.remove == Ok
    ensures w.err == Ok ==> w.present == present - {e.path}
    ensures w.err != Ok ==> w.present == present
  {
    if e.path !in present then Walked(present, [Remove(e.path)], Fail(NoSuchFile))
    else if e.remove.Fail? then Walked(present, [Remove(e.path)], e.remove)
    else Walked(present - {e.path}, [Remove(e.path)], Ok)
  }

  /** Runs the second step only when the first succeeded, on the state it left. */
  function AndThen(first: Walked, second: Walked): Walked {
    if first.err.Fail? then first
    else Walked(second.present, first.ops + second.ops, second.err)
  }

  /**
   * The callback for one entry. As written: compress when compressible, then remove when
   * expired. Corrected: an expired entry is removed (and not compressed first), any other
   * compressible entry is compressed.
   */
  function Visit(cb: Callback, present: set<string>, e: Entry): Walked {
    if e.visit.Fail? then Walked(present, [], e.visit)
    else if cb == AsWritten then
      var zipped := if Compressible(e) then GzipOn(present, e) else Walked(present, [], Ok);
      if zipped.err == Ok && Expired(e) then AndThen(zipped, RemoveOn(zipped.present, e))
      else zipped
    else if Expired(e) then RemoveOn(present, e)
    else if Compressible(e) then GzipOn(present, e)
    else Walked(present, [], Ok)
  }

  /** The walk over the listing, in order, stopping at the first error. */
  function Walk(cb: Callback, present: set<string>, entries: seq<Entry>): Walked
    decreases |entries|
  {
    if entries == [] then Walked(present, [], Ok)
    else
      var first := Visit(cb, present, entries[0]);
      AndThen(first, Walk(cb, first.present, entries[1..]))
  }

  /** The steps the corrected callback plans for an entry. */
  function Planned(e: Entry): seq<Op> {
    if Expired(e) then [Remove(e.path)]
    else if Compressible(e) then [Gzip(e.path)]
    else []
  }

  function PlannedAll(entries: seq<Entry>): seq<Op>
    decreases |entries|
  {
    if entries == [] then [] else Planned(entries[0]) + PlannedAll(entries[1..])
  }

  /** Chaining steps is associative. */
  lemma AndThenAssoc(x: Walked, y: Walked, z: Walked)
    ensures AndThen(x, AndThen(y, z)) == AndThen(AndThen(x, y), z)
  {
    if x.err == Ok && y.err == Ok {
      AppendAssoc(x.ops, y.ops, z.ops);
    }
  }

  /** Walking a listing in two parts is walking the first part, then the rest if it succeeded. */
  lemma {:induction false} WalkAppend(cb: Callback, present: set<string>, a: seq<Entry>, b: seq<Entry>)
    ensures Walk(cb, present, a + b) == AndThen(Walk(cb, present, a), Walk(cb, Walk(cb, present, a).present, b))
    decreases |a|
  {
    if a == [] {
      assert a + b == b;
    } else {
      var first := Visit(cb, present, a[0]);
      assert (a + b)[0] == a[0];
      assert (a + b)[1..] == a[1..] + b;
      var y := Walk(cb, first.present, a[1..]);
      var z := Walk(cb, y.present, b);
      WalkAppend(cb, first.present, a[1..], b);
      assert Walk(cb, present, a + b) == AndThen(first, AndThen(y, z));
      AndThenAssoc(first, y, z);
      assert Walk(cb, present, a) == AndThen(first, y);
    }
  }

  /**
   * The first failed entry ends the walk: when the entries before k succeeded and entry k
   * fails, the result is that of the walk up to and including k, whatever follows.
   */
  lemma WalkStopsAtFailure(cb: Callback, present: set<string>, entries: seq<Entry>, k: nat)
    requires k < |entries|
    requires Walk(cb, present, entries[..k]).err == Ok
    requires Visit(cb, Walk(cb, present, entries[..k]).present, entries[k]).err.Fail?
    ensures Walk(cb, present, entries) == Walk(cb, present, entries[..k + 1])
    ensures Walk(cb, present, entries).err
         == Visit(cb, Walk(cb, present, entries[..k]).present, entries[k]).err
  {
    WalkAppend(cb, present, entries[..k + 1], entries[k + 1..]);
    assert entries[..k + 1] + entries[k + 1..] == entries;
    WalkAppend(cb, present, entries[..k], [entries[k]]);
    assert entries[..k] + [entries[k]] == entries[..k + 1];
  }

  /** An entry the walk is not told to visit keeps its path. */
  lemma {:induction false} WalkKeepsOtherPaths(cb: Callback, present: set<string>, entries: seq<Entry>, x: string)
    requires x in present && forall k :: 0 <= k < |entries| ==> entries[k].path != x
    ensures x in Walk(cb, present, entries).present
    decreases |entries|
  {
    if entries != [] {
      WalkKeepsOtherPaths(cb, Visit(cb, present, entries[0]).present, entries[1..], x);
    }
  }

  /**
   * With the corrected callback, when every entry exists under a distinct path and no step
   * fails, the walk succeeds and performs exactly the planned steps: each expired entry is
   * removed, each other compressible entry is compressed, in listing order.
   */
  lemma {:induction false} CorrectedWalkPlan(present: set<string>, entries: seq<Entry>)
    requires forall k :: 0 <= k < |entries| ==> entries[k].path in present
    requires forall j, k :: 0 <= j < k < |entries| ==> entries[j].path != entries[k].path
    requires forall k :: 0 <= k < |entries| ==>
      entries[k].visit == Ok && entries[k].gzip == Ok && entries[k].remove == Ok
    ensures Walk(Corrected, present, entries).err == Ok
    ensures Walk(Corrected, present, entries).ops == PlannedAll(entries)
    decreases |entries|
  {
    if entries != [] {
      var e := entries[0];
      var first := Visit(Corrected, present, e);
      assert first.err == Ok && first.ops == Planned(e);
      forall k | 0 <= k < |entries[1..]|
        ensures entries[1..][k].path in first.present
      {
        assert entries[1..][k] == entries[k + 1];
        assert entries[k + 1].path != e.path;
      }
      CorrectedWalkPlan(first.present, entries[1..]);
    }
  }

  /** Both callbacks agree on every entry that is not an expired `.log` file. */
  lemma CallbacksAgree(present: set<string>, e: Entry)
    requires !(Expired(e) && Compressible(e))
    ensures Visit(AsWritten, present, e) == Visit(Corrected, present, e)
  {
  }

  /**
   * As written, an expired `.log` file that exists and compresses without error makes the
   * walk fail: gzip replaced the path, so the removal that follows finds nothing, and the
   * entries after it are never visited.
   */
  lemma AsWrittenExpiredLogAborts(present: set<string>, e: Entry, rest: seq<Entry>)
    requires e.visit == Ok && e.gzip == Ok && e.path in present
    requires Expired(e) && Compressible(e)
    ensures Walk(AsWritten, present, [e] + rest)
         == Walked(present - {e.path} + {e.path + ".gz"}, [Gzip(e.path), Remove(e.path)],
                   Fail(NoSuchFile))
  {
    assert e.path !in present - {e.path} + {e.path + ".gz"} by {
      assert |e.path + ".gz"| != |e.path|;
    }
    assert ([e] + rest)[0] == e;
  }

  /** The concrete case: a 721-hour-old log aborts the walk, and a 30-hour-old log after it stays. */
  lemma AsWrittenCounterexample()
    ensures var stale := Entry("/logs/a.log", "a.log", 721 * Hour, Ok, Ok, Ok);
      var recent := Entry("/logs/b.log", "b.log", 30 * Hour, Ok, Ok, Ok);
      var w := Walk(AsWritten, {"/logs/a.log", "/logs/b.log"}, [stale, recent]);
      && w.err == Fail(NoSuchFile)
      && Gzip("/logs/b.log") !in w.ops
      && "/logs/b.log" in w.present
  {
    var stale := Entry("/logs/a.log", "a.log", 721 * Hour, Ok, Ok, Ok);
    var recent := Entry("/logs/b.log", "b.log", 30 * Hour, Ok, Ok, Ok);
    assert WholeHours(721 * Hour) == 721;
    assert HasSuffix("a.log", ".log");
    AsWrittenExpiredLogAborts({"/logs/a.log", "/logs/b.log"}, stale, [recent]);
    assert [stale] + [recent] == [stale, recent];
  }

  /** Corrected, an expired `.log` file is removed and the walk goes on with the next entry. */
  lemma CorrectedExpiredLogRemoved(present: set<string>, e: Entry, rest: seq<Entry>)
    requires e.visit == Ok && e.remove == Ok && e.path in present
    requires Expired(e)
    ensures Walk(Corrected, present, [e] + rest)
         == AndThen(Walked(present - {e.path}, [Remove(e.path)], Ok),
                    Walk(Corrected, present - {e.path}, rest))
  {
    assert ([e] + rest)[0] == e;
    assert ([e] + rest)[1..] == rest;
  }

  /**
   * The walk callback for one entry, applied to the paths that exist: stop on the error the
   * walk reports; as written, compress a `.log` file older than a day and then remove an
   * entry older than thirty days; corrected, remove an expired entry and compress any other
   * old `.log` file. Each external step fails when its path is gone.
   */
  method VisitEntry(cb: Callback, disk: set<string>, ops: seq<Op>, e: Entry)
    returns (disk': set<string>, ops': seq<Op>, err: Status)
    ensures var v := Visit(cb, disk, e);
      disk' == v.present && ops' == ops + v.ops && err == v.err
  {
    disk', ops', err := disk, ops, Ok;
    if e.visit.Fail? {
      err := e.visit;
      return;
    }
    var hours := WholeHours(e.age);
    var compress := hours > CompressAfter && HasSuffix(e.name, ".log");
    if cb == AsWritten {
      if compress {
        ops' := ops' + [Gzip(e.path)];
        if e.path !in disk' {
          err := Fail(NoSuchFile);
          return;
        } else if e.gzip.Fail? {
          err := e.gzip;
          return;
        }
        disk' := disk' - {e.path} + {e.path + ".gz"};
      }
      if hours > RemoveAfter {
        ghost var before := ops';
        ops' := ops' + [Remove(e.path)];
        AppendAssoc(ops, before[|ops|..], [Remove(e.path)]);
        if e.path !in disk' {
          err := Fail(NoSuchFile);
          return;
        } else if e.remove.Fail? {
          err := e.remove;
          return;
        }
        disk' := disk' - {e.path};
      }
    } else if hours > RemoveAfter {
      ops' := ops' + [Remove(e.path)];
      if e.path !in disk' {
        err := Fail(NoSuchFile);
        return;
      } else if e.remove.Fail? {
        err := e.remove;
        return;
      }
      disk' := disk' - {e.path};
    } else if compress {
      ops' := ops' + [Gzip(e.path)];
      if e.path !in disk' {
        err := Fail(NoSuchFile);
        return;
      } else if e.gzip.Fail? {
        err := e.gzip;
        return;
      }
      disk' := disk' - {e.path} + {e.path + ".gz"};
    }
  }

  /**
   * The retention walk: the callback runs on each entry in listing order, and the first
   * error ends the walk. With AsWritten this is the source's loop; with Corrected, the
   * evidently intended one.
   */
  method RotateDir(cb: Callback, present: set<string>, entries: seq<Entry>) returns (w: Walked)
    ensures w == Walk(cb, present, entries)
  {
    var disk := present;
    var ops: seq<Op> := [];
    var i := 0;
    while i < |entries|
      invariant 0 <= i <= |entries|
      invariant Walk(cb, present, entries)
             == AndThen(Walked(disk, ops, Ok), Walk(cb, disk, entries[i..]))
    {
      assert entries[i..][0] == entries[i] && entries[i..][1..] == entries[i + 1..];
      ghost var v := Visit(cb, disk, entries[i]);
      ghost var before := ops;
      var err;
      disk, ops, err := VisitEntry(cb, disk, ops, entries[i]);
      if err.Fail? {
        return Walked(disk, ops, err);
      }
      AppendAssoc(before, v.ops, Walk(cb, disk, entries[i + 1..]).ops);
      i := i + 1;
    }
    w := Walked(disk, ops, Ok);
  }
}
