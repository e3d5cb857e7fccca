/** The Store of internal/history/history.go: aggregates updated in place and a log on disk. Every
    method is proved against the functions of History. */
module HistoryStore {
  import opened History

  class Aggregate {
    var count: nat
    var cpuSeconds: real
    var peakMem: nat
    var wallSeconds: real
    var sampledCount: nat

    constructor ()
      ensures View() == ZERO_STATS
    {
      count, cpuSeconds, peakMem, wallSeconds, sampledCount := 0, 0.0, 0, 0.0, 0;
    }

    function View(): Stats
      reads this
    {
      Stats(count, cpuSeconds, peakMem, wallSeconds, sampledCount)
    }

    /** blend */
    method Absorb(r: Record)
      modifies this
      ensures View() == Blend(old(View()), r)
    {
      if r.sampled {
        if sampledCount == 0 {
          cpuSeconds := r.cpuSeconds;
          peakMem := r.peakMem;
        } else {
          cpuSeconds := 0.25 * r.cpuSeconds + 0.75 * cpuSeconds;
          peakMem := (r.peakMem + 3 * peakMem + 2) / 4;
        }
        sampledCount := sampledCount + 1;
      }
      if count == 0 {
        wallSeconds := r.wallSeconds;
      } else {
        wallSeconds := 0.25 * r.wallSeconds + 0.75 * wallSeconds;
      }
      count := count + 1;
    }
  }

  class Store {
    var refs: map<Key, Aggregate>
    var pools: map<string, Aggregate>
    const global: Aggregate
    var log: Log
    const rotateLines: int
    ghost var absorbed: seq<Record> // everything in the aggregates, oldest first

    ghost predicate Shape()
      reads this`refs, this`pools
    {
      && (forall k, j | k in refs && j in refs && k != j :: refs[k] != refs[j])
      && (forall p, q | p in pools && q in pools && p != q :: pools[p] != pools[q])
      && (forall k, p | k in refs && p in pools :: refs[k] != pools[p])
      && (forall k | k in refs :: refs[k] != global)
      && (forall p | p in pools :: pools[p] != global)
    }

    ghost function Repr(): set<object>
      reads this
    {
      {this, global} + RefObjects() + PoolObjects()
    }

    ghost function RefObjects(): set<object>
      reads this`refs
    {
      set k | k in refs :: refs[k]
    }

    ghost function PoolObjects(): set<object>
      reads this`pools
    {
      set p | p in pools :: pools[p]
    }

    ghost function RefsView(): map<Key, Stats>
      reads this`refs, RefObjects()
    {
      map k | k in refs :: refs[k].View()
    }

    ghost function PoolsView(): map<string, Stats>
      reads this`pools, PoolObjects()
    {
      map p | p in pools :: pools[p].View()
    }

    ghost function View(): Aggregates
      reads this, Repr()
    {
      Aggregates(RefsView(), PoolsView(), global.View())
    }

    ghost predicate Valid()
      reads this, Repr()
    {
      Shape() && View() == Fold(absorbed)
    }

    /** A store with no history yet. */
    constructor (rotateLines: int, log: Log)
      ensures Valid() && absorbed == [] && this.log == log && this.rotateLines == rotateLines && fresh(Repr())
    {
      refs, pools, this.log, this.rotateLines, absorbed := map[], map[], log, rotateLines, [];
      global := new Aggregate();
      new;
      assert View() == NO_AGGREGATES;
    }

    /** The aggregate of a ref, found or made, takes in one record. */
    method AbsorbRef(key: Key, r: Record)
      requires Shape()
      modifies this`refs, RefObjects()
      ensures Shape() && fresh(RefObjects() - old(RefObjects()))
      ensures var was := if key in old(refs) then old(RefsView())[key] else ZERO_STATS;
        RefsView() == old(RefsView())[key := Blend(was, r)]
    {
      hide Blend;
      if key !in refs {
        var made := new Aggregate();
        refs := refs[key := made];
      }
      var a := refs[key];
      a.Absorb(r);
    }

    method AbsorbPool(pool: string, r: Record)
      requires Shape()
      modifies this`pools, PoolObjects()
      ensures Shape() && fresh(PoolObjects() - old(PoolObjects()))
      ensures var was := if pool in old(pools) then old(PoolsView())[pool] else ZERO_STATS;
        PoolsView() == old(PoolsView())[pool := Blend(was, r)]
    {
      hide Blend;
      if pool !in pools {
        var made := new Aggregate();
        pools := pools[pool := made];
      }
      var a := pools[pool];
      a.Absorb(r);
    }

    method AbsorbBoth(r: Record)
      requires Shape()
      modifies this`refs, this`pools, RefObjects(), PoolObjects()
      ensures Shape() && fresh(Repr() - old(Repr()))
      ensures var key := Key(r.pool, r.workflowRef);
        RefsView() == old(RefsView())[key := Blend(RefStats(old(View()), key), r)]
      ensures PoolsView() == old(PoolsView())[r.pool := Blend(PoolStats(old(View()), r.pool), r)]
    {
      hide Blend;
      AbsorbRef(Key(r.pool, r.workflowRef), r);
      assert PoolsView() == old(PoolsView());
      label refsDone:
      AbsorbPool(r.pool, r);
      assert RefsView() == old@refsDone(RefsView());
    }

    /** absorb: one record into its ref, its pool and the host. */
    method Absorb(r: Record)
      requires Valid()
      modifies Repr()
      ensures Valid() && absorbed == old(absorbed) + [r] && log == old(log) && fresh(Repr() - old(Repr()))
    {
      hide Blend, Fold, RefStats, PoolStats, RefsView, PoolsView;
      AbsorbBoth(r);
      GlobalApart();
      global.Absorb(r);
      FoldMore(absorbed, r);
      absorbed := absorbed + [r];
    }

    method AbsorbAll(records: seq<Record>)
      requires Valid()
      modifies Repr()
      ensures Valid() && absorbed == old(absorbed) + records && log == old(log) && fresh(Repr() - old(Repr()))
    {
      hide Fold, RefsView, PoolsView, Shape;
      for i := 0 to |records|
        invariant Valid() && log == old(log) && absorbed == old(absorbed) + records[..i] && fresh(Repr() - old(Repr()))
      {
        Absorb(records[i]);
        assert records[..i + 1] == records[..i] + [records[i]];
      }
      assert records[..|records|] == records;
    }

    lemma GlobalApart()
      requires Shape()
      ensures global !in RefObjects() && global !in PoolObjects()
      ensures this !in RefObjects() && this !in PoolObjects()
    {}

    static lemma FoldMore(records: seq<Record>, r: Record)
      ensures Fold(records + [r]) == Absorbed(Fold(records), r)
    {
      assert (records + [r])[..|records|] == records;
    }

    // -------------------------------------------------------------- the log

    /** rotateLocked; a fault is any file operation failing before the final rename. */
    method Rotate(fault: bool) returns (ok: bool)
      modifies this`log
      ensures ok ==> log == Rotated(old(log), rotateLines) && !(Due(old(log), rotateLines) && TooLong(old(log)))
      ensures !ok ==> log == old(log) && (fault || (Due(log, rotateLines) && TooLong(log)))
    {
      if rotateLines <= 0 || log.NoFile? {
        return true;
      }
      if fault {
        return false;
      }
      if Size(log) < rotateLines * MIN_RECORD_BYTES {
        return true;
      }
      var kept;
      ok, kept := ReplayEntries(log, rotateLines / 2);
      if ok {
        log := Log(kept, Clean);
      }
    }

    /** Append: rotates if the file has grown, writes one line, and only if all of it was written
        takes the record in. */
    method Append(r: Record, bytes: nat, fault: bool, o: Outcome) returns (ok: bool)
      requires Valid() && Possible(bytes, o)
      modifies Repr()
      ensures Valid() && fresh(Repr() - old(Repr()))
      ensures var stuck := Due(old(log), rotateLines) && TooLong(old(log));
        && (ok ==> o.Done? && !stuck && absorbed == old(absorbed) + [r])
        && (!ok ==> absorbed == old(absorbed) && (fault || stuck || !o.Done?))
        && (((fault || stuck) && log == old(log))
            || (!stuck && log == Write(Rotated(old(log), rotateLines), r, bytes, o)))
    {
      hide Rotated, Due, TooLong, Write, Fold, RefsView, PoolsView;
      ok := Rotate(fault);
      if !ok {
        return;
      }
      log := Write(log, r, bytes, o);
      if !o.Done? {
        return false;
      }
      Absorb(r);
    }

    // -------------------------------------------------------------- predictions

    static predicate UsableRate(st: Aggregate)
      reads st
      ensures UsableRate(st) <==> Usable(st.View())
    {
      st.sampledCount > 0 && st.wallSeconds > 0.0
    }

    method Cores(pool: string, ref: string) returns (cores: real, ok: bool)
      requires Valid()
      ensures PredictCores(Fold(absorbed), pool, ref) == if ok then Known(cores) else Unknown
      ensures NonNegative(absorbed) ==> (ok <==> Usable(Fold(absorbed).global))
    {
      if NonNegative(absorbed) {
        CoresPredictedIffHostUsable(absorbed, pool, ref);
      }
      var key := Key(pool, ref);
      if key in refs && UsableRate(refs[key]) {
        return refs[key].cpuSeconds / refs[key].wallSeconds, true;
      }
      if pool in pools && UsableRate(pools[pool]) {
        return pools[pool].cpuSeconds / pools[pool].wallSeconds, true;
      }
      if UsableRate(global) {
        return global.cpuSeconds / global.wallSeconds, true;
      }
      return 0.0, false;
    }

    method Cpu(pool: string, ref: string) returns (cpu: real, ok: bool)
      requires Valid()
      ensures PredictCpu(Fold(absorbed), pool, ref) == if ok then Known(cpu) else Unknown
    {
      var key := Key(pool, ref);
      if key in refs && refs[key].sampledCount > 0 {
        return refs[key].cpuSeconds, true;
      }
      if pool in pools && pools[pool].sampledCount > 0 {
        return pools[pool].cpuSeconds, true;
      }
      if global.sampledCount > 0 {
        return global.cpuSeconds, true;
      }
      return 0.0, false;
    }

    method Mem(pool: string, ref: string) returns (mem: nat, ok: bool)
      requires Valid()
      ensures PredictMem(Fold(absorbed), pool, ref) == if ok then Known(mem) else Unknown
    {
      var key := Key(pool, ref);
      if key in refs && refs[key].sampledCount > 0 {
        return refs[key].peakMem, true;
      }
      if pool in pools && pools[pool].sampledCount > 0 {
        return pools[pool].peakMem, true;
      }
      if global.sampledCount > 0 {
        return global.peakMem, true;
      }
      return 0, false;
    }
  }

  const ROTATE_LINES := 5000

  /** Whether the scanner can read every line. */
  method Readable(log: Log) returns (ok: bool)
    ensures ok <==> !TooLong(log)
  {
    if log.NoFile? {
      return true;
    }
    for i := 0 to |log.lines|
      invariant forall k | 0 <= k < i :: log.lines[k].bytes <= MAX_LINE
    {
      if log.lines[i].bytes > MAX_LINE {
        return false;
      }
    }
    return log.tail.Clean? || log.tail.bytes < MAX_LINE;
  }

  /** The decodable lines of the newest n records; a last record lacking its newline decodes too. */
  method ReplayEntries(log: Log, n: nat) returns (ok: bool, out: seq<Line>)
    ensures ok <==> !TooLong(log)
    ensures ok ==> out == Newest(EntriesOf(log), n)
  {
    out := [];
    ok := Readable(log);
    if !ok {
      return;
    }
    if log.Log? {
      for i := 0 to |log.lines|
        invariant out == EntryLines(log.lines[..i])
      {
        assert log.lines[..i + 1][..i] == log.lines[..i];
        if log.lines[i].Entry? {
          out := out + [log.lines[i]];
        }
      }
      assert log.lines[..|log.lines|] == log.lines;
      if log.tail.Whole? {
        out := out + [Entry(log.tail.rec, log.tail.bytes + 1)];
      }
    }
    assert out == EntriesOf(log);
    if |out| > n {
      out := out[|out| - n..];
    }
  }

  /** replayTail: the newest n decodable records, unless a line is too long to be read. */
  method ReplayTail(log: Log, n: nat) returns (ok: bool, out: seq<Record>)
    ensures ok <==> !TooLong(log)
    ensures ok ==> out == Newest(Decode(log), n) && IsEnd(out, Decode(log), n)
  {
    var entries;
    ok, entries := ReplayEntries(log, n);
    out := [];
    if !ok {
      return;
    }
    EntriesDecode(log);
    for i := 0 to |entries|
      invariant |out| == i && forall k | 0 <= k < i :: out[k] == Newest(Decode(log), n)[k]
    {
      out := out + [entries[i].rec];
    }
    NewestIsTheEnd(Decode(log), n);
    hide Newest, IsEnd;
    assert out == Newest(Decode(log), n);
  }

  /** Open: the newest records of the log, taken in from the oldest on; a fault is the file not
      being opened or read. */
  method Open(log: Log, fault: bool) returns (s: Store?)
    ensures s == null <==> fault || TooLong(log)
    ensures s != null ==>
      && s.Valid() && s.log == log && s.rotateLines == ROTATE_LINES && fresh(s.Repr())
      && s.absorbed == Newest(Decode(log), 5000)
      && s.View() == Fold(Newest(Decode(log), REPLAY_WINDOW))
  {
    if fault {
      return null;
    }
    var ok, records := ReplayTail(log, REPLAY_WINDOW);
    if !ok {
      return null;
    }
    s := new Store(ROTATE_LINES, log);
    s.AbsorbAll(records);
    assert [] + records == records;
  }
}
