/** Usage statistics of internal/history/history.go: moving averages per workflow, pool and host,
    and the log they are rebuilt from. CPU and wall times are exact reals, memory an integer. */
module History {

  const REPLAY_WINDOW := 5000
  const MIN_RECORD_BYTES := 250

  datatype Record = Record(
    pool: string,
    workflowRef: string,
    cpuSeconds: real,
    peakMem: nat,
    wallSeconds: real,
    sampled: bool)

  datatype Stats = Stats(count: nat, cpuSeconds: real, peakMem: nat, wallSeconds: real, sampledCount: nat)

  const ZERO_STATS := Stats(0, 0.0, 0, 0.0, 0)

  datatype Key = Key(pool: string, ref: string)

  datatype Aggregates = Aggregates(refs: map<Key, Stats>, pools: map<string, Stats>, global: Stats)

  const NO_AGGREGATES := Aggregates(map[], map[], ZERO_STATS)

  /** uint64(0.25*r + 0.75*m + 0.5), computed exactly. */
  function BlendMem(r: nat, m: nat): nat { (r + 3 * m + 2) / 4 }

  function BlendReal(r: real, a: real): real { 0.25 * r + 0.75 * a }

  function Blend(st: Stats, r: Record): Stats {
    var first := st.sampledCount == 0;
    Stats(st.count + 1,
          if !r.sampled then st.cpuSeconds else if first then r.cpuSeconds else BlendReal(r.cpuSeconds, st.cpuSeconds),
          if !r.sampled then st.peakMem else if first then r.peakMem else BlendMem(r.peakMem, st.peakMem),
          if st.count == 0 then r.wallSeconds else BlendReal(r.wallSeconds, st.wallSeconds),
          st.sampledCount + if r.sampled then 1 else 0)
  }

  function RefStats(a: Aggregates, k: Key): Stats { if k in a.refs then a.refs[k] else ZERO_STATS }

  function PoolStats(a: Aggregates, pool: string): Stats { if pool in a.pools then a.pools[pool] else ZERO_STATS }

  /** absorb */
  function Absorbed(a: Aggregates, r: Record): Aggregates {
    var key := Key(r.pool, r.workflowRef);
    Aggregates(a.refs[key := Blend(RefStats(a, key), r)],
               a.pools[r.pool := Blend(PoolStats(a, r.pool), r)],
               Blend(a.global, r))
  }

  function Fold(records: seq<Record>): Aggregates {
    if records == [] then NO_AGGREGATES else Absorbed(Fold(records[..|records| - 1]), records[|records| - 1])
  }

  // ------------------------------------------------------------------ levels

  /** The three levels an aggregate is kept at. */
  datatype Level = OfRef(key: Key) | OfPool(pool: string) | OfHost

  predicate Matches(l: Level, r: Record) {
    match l
    case OfRef(k) => r.pool == k.pool && r.workflowRef == k.ref
    case OfPool(p) => r.pool == p
    case OfHost => true
  }

  function StatsAt(a: Aggregates, l: Level): Stats {
    match l
    case OfRef(k) => RefStats(a, k)
    case OfPool(p) => PoolStats(a, p)
    case OfHost => a.global
  }

  function Select(records: seq<Record>, l: Level): seq<Record> {
    if records == [] then []
    else
      var last := records[|records| - 1];
      Select(records[..|records| - 1], l) + if Matches(l, last) then [last] else []
  }

  function BlendAll(records: seq<Record>): Stats {
    if records == [] then ZERO_STATS else Blend(BlendAll(records[..|records| - 1]), records[|records| - 1])
  }

  /** Each level blends exactly the records that match it, whatever came between them. */
  lemma {:induction false} LevelBlends(records: seq<Record>, l: Level)
    ensures StatsAt(Fold(records), l) == BlendAll(Select(records, l))
  {
    if records != [] {
      var front, last := records[..|records| - 1], records[|records| - 1];
      LevelBlends(front, l);
      AbsorbedAt(Fold(front), last, l);
      if Matches(l, last) {
        var s := Select(front, l) + [last];
        assert s[..|s| - 1] == Select(front, l);
      } else {
        assert Select(records, l) == Select(front, l);
      }
    }
  }

  lemma AbsorbedAt(a: Aggregates, r: Record, l: Level)
    ensures StatsAt(Absorbed(a, r), l) == if Matches(l, r) then Blend(StatsAt(a, l), r) else StatsAt(a, l)
  {
    if l.OfRef? && Matches(l, r) {
      assert l.key == Key(r.pool, r.workflowRef);
    }
  }

  lemma {:induction false} SelectConcat(a: seq<Record>, b: seq<Record>, l: Level)
    ensures Select(a + b, l) == Select(a, l) + Select(b, l)
  {
    if b == [] {
      assert a + b == a;
    } else {
      SelectConcat(a, b[..|b| - 1], l);
      assert (a + b)[..|a + b| - 1] == a + b[..|b| - 1];
    }
  }

  // ------------------------------------------------------------------ averages

  /** The moving average of a series, seeded by its first value. */
  function Avg(v: seq<real>): real
    requires v != []
  {
    if |v| == 1 then v[0] else BlendReal(v[|v| - 1], Avg(v[..|v| - 1]))
  }

  function Cpus(records: seq<Record>): seq<real> {
    if records == [] then []
    else
      var last := records[|records| - 1];
      Cpus(records[..|records| - 1]) + if last.sampled then [last.cpuSeconds] else []
  }

  /** The same for memory, rounded at each step. */
  function MemAvg(v: seq<nat>): nat
    requires v != []
  {
    if |v| == 1 then v[0] else BlendMem(v[|v| - 1], MemAvg(v[..|v| - 1]))
  }

  function Mems(records: seq<Record>): (m: seq<nat>)
    ensures |m| == |Cpus(records)|
  {
    if records == [] then []
    else
      var last := records[|records| - 1];
      Mems(records[..|records| - 1]) + if last.sampled then [last.peakMem] else []
  }

  function Walls(records: seq<Record>): (w: seq<real>)
    ensures |w| == |records|
  {
    seq(|records|, i requires 0 <= i < |records| => records[i].wallSeconds)
  }

  lemma {:induction false} StatsAverage(records: seq<Record>)
    ensures var st := BlendAll(records);
      && st.count == |records| && st.sampledCount == |Cpus(records)|
      && (records != [] ==> st.wallSeconds == Avg(Walls(records)))
      && (Cpus(records) != [] ==> st.cpuSeconds == Avg(Cpus(records)) && st.peakMem == MemAvg(Mems(records)))
  {
    if records != [] {
      var front, last := records[..|records| - 1], records[|records| - 1];
      StatsAverage(front);
      assert Walls(records)[..|records| - 1] == Walls(front);
      if last.sampled {
        assert Cpus(records)[..|Cpus(front)|] == Cpus(front);
        assert Mems(records)[..|Mems(front)|] == Mems(front);
      } else {
        assert Cpus(records) == Cpus(front);
        assert Mems(records) == Mems(front);
      }
    }
  }

  /** The newest value counts for a quarter; in memory, rounded to the nearest integer. */
  lemma NewestIsAQuarter(v: seq<real>, r: real, m: seq<nat>, n: nat)
    requires v != [] && m != []
    ensures 4.0 * Avg(v + [r]) == 3.0 * Avg(v) + r
    ensures -2 <= 3 * MemAvg(m) + n - 4 * MemAvg(m + [n]) < 2
  {
    assert (v + [r])[..|v|] == v;
    assert (m + [n])[..|m|] == m;
  }

  function Reals(v: seq<nat>): (w: seq<real>)
    ensures |w| == |v|
  {
    seq(|v|, i requires 0 <= i < |v| => v[i] as real)
  }

  /** All the rounding together never moves the memory average by more than two bytes. */
  lemma {:induction false} RoundingIsSmall(v: seq<nat>)
    requires v != []
    ensures -2.0 <= MemAvg(v) as real - Avg(Reals(v)) <= 2.0
  {
    if |v| > 1 {
      var front, last := v[..|v| - 1], v[|v| - 1];
      RoundingIsSmall(front);
      assert Reals(v)[..|v| - 1] == Reals(front);
      RoundedQuarter(last, MemAvg(front));
      assert Avg(Reals(v)) == BlendReal(last as real, Avg(Reals(front)));
    }
  }

  lemma RoundedQuarter(r: nat, m: nat)
    ensures -0.5 <= BlendMem(r, m) as real - BlendReal(r as real, m as real) <= 0.5
  {
    var x := BlendMem(r, m);
    assert 4 * x <= r + 3 * m + 2 < 4 * x + 4;
  }

  function Pow34(m: nat): real { if m == 0 then 1.0 else 0.75 * Pow34(m - 1) }

  /** Forgetting the older values changes the average by a factor 3/4 for each value kept. */
  lemma {:induction false} ForgettingOlder(older: seq<real>, kept: seq<real>)
    requires older != [] && kept != []
    ensures Avg(older + kept) - Avg(kept) == Pow34(|kept|) * (Avg(older) - kept[0])
  {
    var all := older + kept;
    assert all[..|all| - 1] == older + kept[..|kept| - 1];
    if |kept| == 1 {
      assert all[..|all| - 1] == older;
      assert Pow34(1) == 0.75 * Pow34(0);
    } else {
      var front := kept[..|kept| - 1];
      ForgettingOlder(older, front);
      Associate(Pow34(|front|), Avg(older) - kept[0]);
    }
  }

  lemma Associate(p: real, x: real)
    ensures 0.75 * p * x == 0.75 * (p * x)
  {}

  /** How far an average is moved by older values averaging to older, m values having been kept
      since the first of them. */
  function Shift(m: nat, older: real, first: real): real { Pow34(m) * (older - first) }

  lemma ShiftOlder(older: seq<real>, kept: seq<real>)
    requires older != [] && kept != []
    ensures Avg(older + kept) - Avg(kept) == Shift(|kept|, Avg(older), kept[0])
  {
    ForgettingOlder(older, kept);
  }

  lemma WallsConcat(o: seq<Record>, k: seq<Record>)
    ensures Walls(o + k) == Walls(o) + Walls(k)
  {}

  lemma WallTruncation(o: seq<Record>, k: seq<Record>)
    requires o != [] && k != []
    ensures BlendAll(o + k).wallSeconds - BlendAll(k).wallSeconds
      == Shift(|k|, BlendAll(o).wallSeconds, k[0].wallSeconds)
  {
    assert Walls(k)[0] == k[0].wallSeconds;
    hide *;
    WallsConcat(o, k);
    StatsAverage(o + k);
    StatsAverage(o);
    StatsAverage(k);
    ShiftOlder(Walls(o), Walls(k));
  }

  lemma CpuTruncation(o: seq<Record>, k: seq<Record>)
    requires Cpus(o) != [] && Cpus(k) != []
    ensures BlendAll(o + k).cpuSeconds - BlendAll(k).cpuSeconds == Shift(|Cpus(k)|, BlendAll(o).cpuSeconds, Cpus(k)[0])
  {
    hide *;
    CpusConcat(o, k);
    StatsAverage(o + k);
    StatsAverage(o);
    StatsAverage(k);
    ShiftOlder(Cpus(o), Cpus(k));
  }

  /** After truncation: a level with records on both sides of the cut differs from its untruncated
      average by exactly (3/4)^m times the distance of the older average from the first value
      kept, m being the values kept; for wall times, and for CPU times of sampled records. */
  lemma TruncationError(older: seq<Record>, kept: seq<Record>, l: Level)
    ensures var o, k := Select(older, l), Select(kept, l);
      o != [] && k != [] ==>
        StatsAt(Fold(older + kept), l).wallSeconds - StatsAt(Fold(kept), l).wallSeconds
        == Shift(|k|, StatsAt(Fold(older), l).wallSeconds, k[0].wallSeconds)
    ensures var o, k := Cpus(Select(older, l)), Cpus(Select(kept, l));
      o != [] && k != [] ==>
        StatsAt(Fold(older + kept), l).cpuSeconds - StatsAt(Fold(kept), l).cpuSeconds
        == Shift(|k|, StatsAt(Fold(older), l).cpuSeconds, k[0])
  {
    LevelBlends(older + kept, l);
    LevelBlends(older, l);
    LevelBlends(kept, l);
    SelectConcat(older, kept, l);
    hide Fold, Select, StatsAt, BlendAll, Cpus, Shift;
    var o, k := Select(older, l), Select(kept, l);
    if o != [] && k != [] {
      WallTruncation(o, k);
    }
    if Cpus(o) != [] && Cpus(k) != [] {
      CpuTruncation(o, k);
    }
  }

  lemma {:induction false} CpusConcat(a: seq<Record>, b: seq<Record>)
    ensures Cpus(a + b) == Cpus(a) + Cpus(b)
  {
    if b == [] {
      assert a + b == a;
    } else {
      CpusConcat(a, b[..|b| - 1]);
      assert (a + b)[..|a + b| - 1] == a + b[..|b| - 1];
    }
  }

  lemma {:induction false} AvgWithin(v: seq<real>, lo: real, hi: real)
    requires v != [] && forall i | 0 <= i < |v| :: lo <= v[i] <= hi
    ensures lo <= Avg(v) <= hi
  {
    if |v| > 1 {
      AvgWithin(v[..|v| - 1], lo, hi);
    }
  }

  /** Every average of a level lies within any bounds on the values it absorbed, the rounded
      memory average included. */
  lemma {:induction false} AveragesWithin(records: seq<Record>, cpu: (real, real), wall: (real, real), mem: (nat, nat))
    requires forall i | 0 <= i < |records| :: wall.0 <= records[i].wallSeconds <= wall.1
    requires forall i | 0 <= i < |records| && records[i].sampled ::
      cpu.0 <= records[i].cpuSeconds <= cpu.1 && mem.0 <= records[i].peakMem <= mem.1
    ensures var st := BlendAll(records);
      && (st.count > 0 ==> wall.0 <= st.wallSeconds <= wall.1)
      && (st.sampledCount > 0 ==> cpu.0 <= st.cpuSeconds <= cpu.1 && mem.0 <= st.peakMem <= mem.1)
  {
    if records != [] {
      AveragesWithin(records[..|records| - 1], cpu, wall, mem);
    }
  }

  lemma {:induction false} Selected(records: seq<Record>, l: Level, i: nat)
    requires i < |Select(records, l)|
    ensures exists j | 0 <= j < |records| :: records[j] == Select(records, l)[i] && Matches(l, records[j])
  {
    var front, last := records[..|records| - 1], records[|records| - 1];
    if i < |Select(front, l)| {
      Selected(front, l, i);
    } else {
      assert records[|records| - 1] == Select(records, l)[i];
    }
  }

  /** At every level, each average lies within any bounds on the values it absorbed. */
  lemma LevelAveragesWithin(records: seq<Record>, l: Level, cpu: (real, real), wall: (real, real), mem: (nat, nat))
    requires forall i | 0 <= i < |records| && Matches(l, records[i]) :: wall.0 <= records[i].wallSeconds <= wall.1
    requires forall i | 0 <= i < |records| && Matches(l, records[i]) && records[i].sampled ::
      cpu.0 <= records[i].cpuSeconds <= cpu.1 && mem.0 <= records[i].peakMem <= mem.1
    ensures var st := StatsAt(Fold(records), l);
      && (st.count > 0 ==> wall.0 <= st.wallSeconds <= wall.1)
      && (st.sampledCount > 0 ==> cpu.0 <= st.cpuSeconds <= cpu.1 && mem.0 <= st.peakMem <= mem.1)
  {
    LevelBlends(records, l);
    var s := Select(records, l);
    forall i | 0 <= i < |s|
      ensures wall.0 <= s[i].wallSeconds <= wall.1
      ensures s[i].sampled ==> cpu.0 <= s[i].cpuSeconds <= cpu.1 && mem.0 <= s[i].peakMem <= mem.1
    {
      Selected(records, l, i);
    }
    AveragesWithin(s, cpu, wall, mem);
  }

  // ------------------------------------------------------------------ predictions

  predicate Usable(st: Stats) { st.sampledCount > 0 && st.wallSeconds > 0.0 }

  datatype Prediction<T> = Unknown | Known(value: T)

  function PredictCpu(a: Aggregates, pool: string, ref: string): Prediction<real> {
    if RefStats(a, Key(pool, ref)).sampledCount > 0 then Known(RefStats(a, Key(pool, ref)).cpuSeconds)
    else if PoolStats(a, pool).sampledCount > 0 then Known(PoolStats(a, pool).cpuSeconds)
    else if a.global.sampledCount > 0 then Known(a.global.cpuSeconds)
    else Unknown
  }

  function PredictMem(a: Aggregates, pool: string, ref: string): Prediction<nat> {
    if RefStats(a, Key(pool, ref)).sampledCount > 0 then Known(RefStats(a, Key(pool, ref)).peakMem)
    else if PoolStats(a, pool).sampledCount > 0 then Known(PoolStats(a, pool).peakMem)
    else if a.global.sampledCount > 0 then Known(a.global.peakMem)
    else Unknown
  }

  function PredictCores(a: Aggregates, pool: string, ref: string): Prediction<real> {
    var r, p := RefStats(a, Key(pool, ref)), PoolStats(a, pool);
    if Usable(r) then Known(r.cpuSeconds / r.wallSeconds)
    else if Usable(p) then Known(p.cpuSeconds / p.wallSeconds)
    else if Usable(a.global) then Known(a.global.cpuSeconds / a.global.wallSeconds)
    else Unknown
  }

  ghost predicate NonNegative(records: seq<Record>) {
    forall i | 0 <= i < |records| :: records[i].wallSeconds >= 0.0
  }

  lemma {:induction false} UsableBlend(records: seq<Record>)
    requires NonNegative(records)
    ensures var st := BlendAll(records);
      && st.wallSeconds >= 0.0 && st.count == |records|
      && (st.wallSeconds > 0.0 <==> exists i | 0 <= i < |records| :: records[i].wallSeconds > 0.0)
      && (st.sampledCount > 0 <==> exists i | 0 <= i < |records| :: records[i].sampled)
  {
    if records != [] {
      var front, last := records[..|records| - 1], records[|records| - 1];
      UsableBlend(front);
      assert forall i | 0 <= i < |front| :: front[i] == records[i];
      assert BlendAll(records).sampledCount > 0 <==> last.sampled || BlendAll(front).sampledCount > 0;
      assert BlendAll(records).wallSeconds > 0.0 <==> last.wallSeconds > 0.0 || BlendAll(front).wallSeconds > 0.0;
    }
  }

  /** Levels l and up where up covers every record of l. */
  ghost predicate Covers(up: Level, l: Level) {
    forall r: Record | Matches(l, r) :: Matches(up, r)
  }

  lemma {:induction false} SelectedBack(records: seq<Record>, l: Level, j: nat)
    requires j < |records| && Matches(l, records[j])
    ensures exists i | 0 <= i < |Select(records, l)| :: Select(records, l)[i] == records[j]
  {
    var front, s := records[..|records| - 1], Select(records, l);
    if j < |records| - 1 {
      SelectedBack(front, l, j);
      var i :| 0 <= i < |Select(front, l)| && Select(front, l)[i] == records[j];
      assert s[i] == records[j];
    } else {
      assert s[|s| - 1] == records[j];
    }
  }

  /** A usable level makes every wider one usable. */
  lemma UsableWidens(records: seq<Record>, l: Level, up: Level)
    requires NonNegative(records) && Covers(up, l) && Usable(StatsAt(Fold(records), l))
    ensures Usable(StatsAt(Fold(records), up))
  {
    LevelBlends(records, l);
    LevelBlends(records, up);
    var s, t := Select(records, l), Select(records, up);
    SelectNonNegative(records, l);
    SelectNonNegative(records, up);
    UsableBlend(s);
    UsableBlend(t);
    var i :| 0 <= i < |s| && s[i].sampled;
    Selected(records, l, i);
    var j :| 0 <= j < |records| && records[j] == s[i] && Matches(l, records[j]);
    SelectedBack(records, up, j);
    var p :| 0 <= p < |s| && s[p].wallSeconds > 0.0;
    Selected(records, l, p);
    var q :| 0 <= q < |records| && records[q] == s[p] && Matches(l, records[q]);
    SelectedBack(records, up, q);
  }

  lemma SelectNonNegative(records: seq<Record>, l: Level)
    requires NonNegative(records)
    ensures NonNegative(Select(records, l))
  {
    forall i | 0 <= i < |Select(records, l)| ensures Select(records, l)[i].wallSeconds >= 0.0 {
      Selected(records, l, i);
    }
  }

  /** With non-negative wall times a rate is predicted, for any pool and ref, if and only if the
      host level is usable. */
  lemma CoresPredictedIffHostUsable(records: seq<Record>, pool: string, ref: string)
    requires NonNegative(records)
    ensures var a := Fold(records);
      && (PredictCores(a, pool, ref).Known? <==> Usable(a.global))
      && (Usable(RefStats(a, Key(pool, ref))) ==> Usable(PoolStats(a, pool)))
      && (Usable(PoolStats(a, pool)) ==> Usable(a.global))
  {
    var a := Fold(records);
    if Usable(RefStats(a, Key(pool, ref))) {
      assert StatsAt(a, OfRef(Key(pool, ref))) == RefStats(a, Key(pool, ref));
      UsableWidens(records, OfRef(Key(pool, ref)), OfPool(pool));
      assert StatsAt(a, OfPool(pool)) == PoolStats(a, pool);
    }
    if Usable(PoolStats(a, pool)) {
      assert StatsAt(a, OfPool(pool)) == PoolStats(a, pool);
      UsableWidens(records, OfPool(pool), OfHost);
      assert StatsAt(a, OfHost) == a.global;
    }
  }

  /** A rate can be told from these records: one was sampled, and their wall times average to more
      than nothing. */
  ghost predicate Rated(records: seq<Record>) {
    Cpus(records) != [] && Avg(Walls(records)) > 0.0
  }

  lemma {:induction false} SampledAreRecords(records: seq<Record>)
    ensures Cpus(records) != [] ==> records != []
    ensures Cpus(records) != [] <==> exists i | 0 <= i < |records| :: records[i].sampled
  {
    if records != [] {
      var front := records[..|records| - 1];
      SampledAreRecords(front);
      assert forall i | 0 <= i < |front| :: front[i] == records[i];
      assert records[|records| - 1].sampled ==> exists i | 0 <= i < |records| :: records[i].sampled;
    }
  }

  lemma {:induction false} HostSelectsAll(records: seq<Record>)
    ensures Select(records, OfHost) == records
  {
    if records != [] {
      HostSelectsAll(records[..|records| - 1]);
    }
  }

  lemma LevelRated(records: seq<Record>, l: Level)
    ensures var st, sel := StatsAt(Fold(records), l), Select(records, l);
      && (st.sampledCount > 0 <==> Cpus(sel) != [])
      && (Usable(st) <==> Rated(sel))
      && (Cpus(sel) != [] ==>
            st.cpuSeconds == Avg(Cpus(sel)) && st.peakMem == MemAvg(Mems(sel)) && st.wallSeconds == Avg(Walls(sel)))
  {
    LevelBlends(records, l);
    StatsAverage(Select(records, l));
    SampledAreRecords(Select(records, l));
  }

  /** The rate predicted for a ref is that of the records of that ref, if one can be told from them;
      and otherwise that of its pool's records, and then of all records. */
  lemma CoresFromRecords(records: seq<Record>, pool: string, ref: string)
    ensures var own, pools := Select(records, OfRef(Key(pool, ref))), Select(records, OfPool(pool));
      PredictCores(Fold(records), pool, ref)
      == if Rated(own) then Known(Avg(Cpus(own)) / Avg(Walls(own)))
         else if Rated(pools) then Known(Avg(Cpus(pools)) / Avg(Walls(pools)))
         else if Rated(records) then Known(Avg(Cpus(records)) / Avg(Walls(records)))
         else Unknown
  {
    LevelRated(records, OfRef(Key(pool, ref)));
    LevelRated(records, OfPool(pool));
    LevelRated(records, OfHost);
    HostSelectsAll(records);
    hide Fold, Select, Avg, Cpus, Walls, Mems, MemAvg;
  }

  /** The same for the processor time and the peak memory, of the sampled records. */
  lemma CpuAndMemFromRecords(records: seq<Record>, pool: string, ref: string)
    ensures var own, pools := Select(records, OfRef(Key(pool, ref))), Select(records, OfPool(pool));
      && PredictCpu(Fold(records), pool, ref)
         == (if Cpus(own) != [] then Known(Avg(Cpus(own)))
             else if Cpus(pools) != [] then Known(Avg(Cpus(pools)))
             else if Cpus(records) != [] then Known(Avg(Cpus(records)))
             else Unknown)
      && PredictMem(Fold(records), pool, ref)
         == (if Cpus(own) != [] then Known(MemAvg(Mems(own)))
             else if Cpus(pools) != [] then Known(MemAvg(Mems(pools)))
             else if Cpus(records) != [] then Known(MemAvg(Mems(records)))
             else Unknown)
  {
    LevelRated(records, OfRef(Key(pool, ref)));
    LevelRated(records, OfPool(pool));
    LevelRated(records, OfHost);
    HostSelectsAll(records);
    hide Fold, Select, Avg, Cpus, Walls, Mems, MemAvg;
  }

  /** A record of another ref changes nothing that is predicted for a ref from records of its own. */
  lemma OthersDoNotCount(records: seq<Record>, pool: string, ref: string, r: Record)
    requires r.pool != pool || r.workflowRef != ref
    ensures var own, a, b := Select(records, OfRef(Key(pool, ref))), Fold(records), Fold(records + [r]);
      && (Rated(own) ==> PredictCores(b, pool, ref) == PredictCores(a, pool, ref))
      && (Cpus(own) != [] ==>
            && PredictCpu(b, pool, ref) == PredictCpu(a, pool, ref)
            && PredictMem(b, pool, ref) == PredictMem(a, pool, ref))
  {
    assert (records + [r])[..|records|] == records;
    assert Select(records + [r], OfRef(Key(pool, ref))) == Select(records, OfRef(Key(pool, ref)));
    CoresFromRecords(records, pool, ref);
    CoresFromRecords(records + [r], pool, ref);
    CpuAndMemFromRecords(records, pool, ref);
    CpuAndMemFromRecords(records + [r], pool, ref);
  }

  // ------------------------------------------------------------------ counts

  ghost predicate NoDuplicates<T>(s: seq<T>) {
    forall i, j | 0 <= i < j < |s| :: s[i] != s[j]
  }

  /** The counts of several levels, added up. */
  function CountOver(a: Aggregates, ls: seq<Level>): nat {
    if ls == [] then 0 else CountOver(a, ls[..|ls| - 1]) + StatsAt(a, ls[|ls| - 1]).count
  }

  function SampledOver(a: Aggregates, ls: seq<Level>): nat {
    if ls == [] then 0 else SampledOver(a, ls[..|ls| - 1]) + StatsAt(a, ls[|ls| - 1]).sampledCount
  }

  function MatchesOver(ls: seq<Level>, r: Record): nat {
    if ls == [] then 0 else MatchesOver(ls[..|ls| - 1], r) + if Matches(ls[|ls| - 1], r) then 1 else 0
  }

  lemma {:induction false} CountOverAbsorbed(a: Aggregates, r: Record, ls: seq<Level>)
    ensures CountOver(Absorbed(a, r), ls) == CountOver(a, ls) + MatchesOver(ls, r)
    ensures SampledOver(Absorbed(a, r), ls) == SampledOver(a, ls) + if r.sampled then MatchesOver(ls, r) else 0
  {
    if ls != [] {
      CountOverAbsorbed(a, r, ls[..|ls| - 1]);
      AbsorbedAt(a, r, ls[|ls| - 1]);
    }
  }

  lemma {:induction false} CountOverNothing(ls: seq<Level>)
    ensures CountOver(NO_AGGREGATES, ls) == 0 && SampledOver(NO_AGGREGATES, ls) == 0
  {
    if ls != [] {
      CountOverNothing(ls[..|ls| - 1]);
    }
  }

  /** The levels right below one: the refs of a pool, or the pools of the host. */
  predicate Below(l: Level, sub: Level) {
    (l.OfPool? && sub.OfRef? && sub.key.pool == l.pool) || (l.OfHost? && sub.OfPool?)
  }

  function SubOf(l: Level, r: Record): Level {
    if l.OfPool? then OfRef(Key(r.pool, r.workflowRef)) else OfPool(r.pool)
  }

  lemma {:induction false} OneMatch(l: Level, ls: seq<Level>, r: Record)
    requires !l.OfRef? && NoDuplicates(ls) && forall i | 0 <= i < |ls| :: Below(l, ls[i])
    ensures MatchesOver(ls, r) == if Matches(l, r) && SubOf(l, r) in ls then 1 else 0
  {
    if ls != [] {
      OneMatch(l, ls[..|ls| - 1], r);
      assert ls == ls[..|ls| - 1] + [ls[|ls| - 1]];
    }
  }

  /** Listed once each, the refs of a pool add up to the pool, and the pools to the host, in
      records and in sampled records. */
  lemma {:induction false} CountsAddUp(records: seq<Record>, l: Level, ls: seq<Level>)
    requires !l.OfRef? && NoDuplicates(ls) && forall i | 0 <= i < |ls| :: Below(l, ls[i])
    requires forall i | 0 <= i < |records| && Matches(l, records[i]) :: SubOf(l, records[i]) in ls
    ensures CountOver(Fold(records), ls) == StatsAt(Fold(records), l).count
    ensures SampledOver(Fold(records), ls) == StatsAt(Fold(records), l).sampledCount
    decreases |records|
  {
    if records == [] {
      CountOverNothing(ls);
    } else {
      var front, last := records[..|records| - 1], records[|records| - 1];
      CountsAddUp(front, l, ls);
      CountOverAbsorbed(Fold(front), last, ls);
      AbsorbedAt(Fold(front), last, l);
      OneMatch(l, ls, last);
      assert last == records[|records| - 1];
    }
  }

  // ------------------------------------------------------------------ the log

  datatype Line = Entry(rec: Record, bytes: nat) | Junk(bytes: nat)

  /** What follows the last newline: nothing, part of a line, or a record lacking its newline. */
  datatype Tail = Clean | Torn(bytes: nat) | Whole(rec: Record, bytes: nat)

  datatype Log = NoFile | Log(lines: seq<Line>, tail: Tail)

  function DecodeLines(lines: seq<Line>): seq<Record> {
    if lines == [] then []
    else DecodeLines(lines[..|lines| - 1]) + if lines[|lines| - 1].Entry? then [lines[|lines| - 1].rec] else []
  }

  function Decode(log: Log): seq<Record> {
    if log.NoFile? then [] else DecodeLines(log.lines) + if log.tail.Whole? then [log.tail.rec] else []
  }

  function Newest<T>(s: seq<T>, n: nat): seq<T> { if |s| > n then s[|s| - n..] else s }

  /** The end of all, n long if there is that much. */
  ghost predicate IsEnd<T(!new)>(end: seq<T>, all: seq<T>, n: nat) {
    && |end| == (if |all| < n then |all| else n)
    && forall i | 0 <= i < |end| :: end[i] == all[|all| - |end| + i]
  }

  lemma NewestIsTheEnd<T(!new)>(s: seq<T>, n: nat)
    ensures IsEnd(Newest(s, n), s, n)
  {}

  function LinesSize(lines: seq<Line>): nat {
    if lines == [] then 0 else LinesSize(lines[..|lines| - 1]) + lines[|lines| - 1].bytes
  }

  function Size(log: Log): nat {
    if log.NoFile? then 0 else LinesSize(log.lines) + if log.tail.Clean? then 0 else log.tail.bytes
  }

  const MAX_LINE := 1024 * 1024

  /** A line no scanner buffer can hold: reading the log fails. */
  predicate TooLong(log: Log) {
    && log.Log?
    && (|| (exists i | 0 <= i < |log.lines| :: log.lines[i].bytes > MAX_LINE)
        || (!log.tail.Clean? && log.tail.bytes >= MAX_LINE))
  }

  /** One mebibyte, newline included, is the longest line that can be read; at the end of the file a
      line without a newline must be shorter. */
  lemma TooLongInNumbers(log: Log)
    requires log.Log?
    ensures TooLong(log) <==>
      || (exists i | 0 <= i < |log.lines| :: log.lines[i].bytes >= 1048577)
      || (log.tail.Torn? && log.tail.bytes >= 1048576)
      || (log.tail.Whole? && log.tail.bytes >= 1048576)
  {}

  /** How far the write of one line got: all of it, nothing, some of the record's text, or all
      but the newline. */
  datatype Outcome = Done | Unwritten | Part(written: nat) | LacksNewline

  /** What can become of a line of so many bytes, its newline included. */
  predicate Possible(bytes: nat, o: Outcome) {
    bytes >= 2 && (o.Part? ==> 0 < o.written < bytes - 1)
  }

  /** The log after the append of one line; a line that joins a torn tail is junk. */
  function Write(log: Log, r: Record, bytes: nat, o: Outcome): Log
    requires Possible(bytes, o)
  {
    var lines := if log.NoFile? then [] else log.lines;
    var tail := if log.NoFile? then Clean else log.tail;
    match o
    case Unwritten => log
    case Done => Log(lines + [if tail.Clean? then Entry(r, bytes) else Junk(tail.bytes + bytes)], Clean)
    case Part(n) => Log(lines, Torn((if tail.Clean? then 0 else tail.bytes) + n))
    case LacksNewline => Log(lines, if tail.Clean? then Whole(r, bytes - 1) else Torn(tail.bytes + bytes - 1))
  }

  datatype AnyAttempt = Attempt(rec: Record, bytes: nat, outcome: Outcome)

  type Attempt = a: AnyAttempt | Possible(a.bytes, a.outcome)
    witness Attempt(Record("", "", 0.0, 0, 0.0, false), 2, Done)

  function Disk(log: Log, ws: seq<Attempt>): Log {
    if ws == [] then log
    else Write(Disk(log, ws[..|ws| - 1]), ws[|ws| - 1].rec, ws[|ws| - 1].bytes, ws[|ws| - 1].outcome)
  }

  /** The records that reached memory. */
  function Accepted(ws: seq<Attempt>): seq<Record> {
    if ws == [] then [] else Accepted(ws[..|ws| - 1]) + if ws[|ws| - 1].outcome.Done? then [ws[|ws| - 1].rec] else []
  }

  predicate CleanTail(log: Log) { log.NoFile? || log.tail.Clean? }

  /** How many accepted records were written behind a torn tail. */
  function Joined(log: Log, ws: seq<Attempt>): nat {
    if ws == [] then 0
    else Joined(log, ws[..|ws| - 1])
         + if ws[|ws| - 1].outcome.Done? && !CleanTail(Disk(log, ws[..|ws| - 1])) then 1 else 0
  }

  function WholeTail(log: Log): nat { if log.Log? && log.tail.Whole? then 1 else 0 }

  lemma WriteDecodes(log: Log, r: Record, bytes: nat, o: Outcome)
    requires Possible(bytes, o)
    ensures CleanTail(log) && o.Done? ==> Decode(Write(log, r, bytes, o)) == Decode(log) + [r]
    ensures |Decode(Write(log, r, bytes, o))| - WholeTail(Write(log, r, bytes, o))
         == |Decode(log)| - WholeTail(log) + if CleanTail(log) && o.Done? then 1 else 0
    ensures WholeTail(Write(log, r, bytes, o)) == 0 && !o.Done? && WholeTail(log) == 0 ==>
      Decode(Write(log, r, bytes, o)) == Decode(log)
  {
    if o.Done? {
      var lines := if log.NoFile? then [] else log.lines;
      var next := Write(log, r, bytes, o).lines;
      assert next[..|next| - 1] == lines;
      if CleanTail(log) {
        assert Decode(log) == DecodeLines(lines);
        assert Decode(Write(log, r, bytes, o)) == DecodeLines(next);
      }
    }
  }

  /** What a log holds after any writes: the records accepted, less those that joined a torn tail,
      plus a record that lacks only its newline. */
  lemma {:induction false} LogCounts(log: Log, ws: seq<Attempt>)
    ensures |Decode(Disk(log, ws))|
      == |Decode(log)| - WholeTail(log) + |Accepted(ws)| - Joined(log, ws) + WholeTail(Disk(log, ws))
  {
    if ws != [] {
      LogCounts(log, ws[..|ws| - 1]);
      var last := ws[|ws| - 1];
      WriteDecodes(Disk(log, ws[..|ws| - 1]), last.rec, last.bytes, last.outcome);
    }
  }

  /** The record the tail holds, if it lacks only its newline, was not accepted. */
  function Terminated(log: Log): seq<Record> {
    if log.NoFile? then [] else DecodeLines(log.lines)
  }

  lemma {:induction false} LogExact(log: Log, ws: seq<Attempt>)
    requires CleanTail(log) && Joined(log, ws) == 0
    ensures Terminated(Disk(log, ws)) == Decode(log) + Accepted(ws)
  {
    if ws != [] {
      var front, last := ws[..|ws| - 1], ws[|ws| - 1];
      LogExact(log, front);
      var d := Disk(log, front);
      assert Disk(log, ws) == Write(d, last.rec, last.bytes, last.outcome);
      hide Disk, Write, Decode, Terminated, DecodeLines;
      if last.outcome.Done? {
        WriteEntry(d, last.rec, last.bytes);
        assert Accepted(ws) == Accepted(front) + [last.rec];
      } else {
        WriteNothing(d, last.rec, last.bytes, last.outcome);
        assert Accepted(ws) == Accepted(front);
      }
    } else {
      assert Decode(log) == Terminated(log);
    }
  }

  lemma WriteNothing(log: Log, r: Record, bytes: nat, o: Outcome)
    requires Possible(bytes, o) && !o.Done?
    ensures Terminated(Write(log, r, bytes, o)) == Terminated(log)
  {}

  lemma WriteEntry(log: Log, r: Record, bytes: nat)
    requires CleanTail(log) && bytes >= 2
    ensures Terminated(Write(log, r, bytes, Done)) == Terminated(log) + [r]
  {
    var lines := if log.NoFile? then [] else log.lines;
    var next := lines + [Entry(r, bytes)];
    assert next[..|next| - 1] == lines;
    assert Write(log, r, bytes, Done).lines == next;
    assert DecodeLines(lines) == Terminated(log);
    assert DecodeLines(next) == DecodeLines(lines) + [r];
  }

  lemma {:induction false} HostCounts(records: seq<Record>)
    ensures Fold(records).global.count == |records|
  {
    if records != [] {
      HostCounts(records[..|records| - 1]);
    }
  }

  /** Behind a torn tail nothing is accepted without being lost, and a record that lacked only its
      newline stays readable only if nothing is written. */
  lemma {:induction false} BehindTornTail(log: Log, ws: seq<Attempt>)
    requires !CleanTail(log) && Joined(log, ws) == 0
    ensures Accepted(ws) == [] && !CleanTail(Disk(log, ws)) && Terminated(Disk(log, ws)) == Terminated(log)
    ensures WholeTail(Disk(log, ws)) == 1 ==> Disk(log, ws) == log
  {
    if ws != [] {
      BehindTornTail(log, ws[..|ws| - 1]);
    }
  }

  /** Untruncated, a log that the program opened and then wrote to rebuilds exactly what is in
      memory, if no accepted record joined a torn tail, and the number of records left whole
      without their newline is what it was; and only if the accepted records lost that way are as
      many more as such records are. */
  lemma ReopenRebuilds(log: Log, ws: seq<Attempt>)
    requires |Decode(log)| + |ws| <= REPLAY_WINDOW
    ensures var memory := Fold(Decode(log) + Accepted(ws));
      var reopened := Fold(Newest(Decode(Disk(log, ws)), REPLAY_WINDOW));
      && (Joined(log, ws) == 0 && WholeTail(Disk(log, ws)) == WholeTail(log) ==> reopened == memory)
      && (reopened == memory ==> Joined(log, ws) == WholeTail(Disk(log, ws)) - WholeTail(log))
  {
    hide Fold, Decode, Disk, Accepted, Joined, WholeTail, Terminated;
    LogCounts(log, ws);
    WithinWindow(log, ws);
    HostCounts(Decode(log) + Accepted(ws));
    HostCounts(Decode(Disk(log, ws)));
    if Joined(log, ws) == 0 && WholeTail(Disk(log, ws)) == WholeTail(log) {
      NothingLost(log, ws);
    }
  }

  lemma NothingLost(log: Log, ws: seq<Attempt>)
    requires Joined(log, ws) == 0 && WholeTail(Disk(log, ws)) == WholeTail(log)
    ensures Decode(Disk(log, ws)) == Decode(log) + Accepted(ws)
  {
    hide Disk, Accepted, Joined, Terminated, Decode;
    NoWholeTail(log);
    NoWholeTail(Disk(log, ws));
    if CleanTail(log) {
      LogExact(log, ws);
    } else {
      BehindTornTail(log, ws);
    }
  }

  lemma NoWholeTail(log: Log)
    ensures WholeTail(log) == 0 ==> Decode(log) == Terminated(log)
  {}

  lemma {:induction false} JoinedAtMost(log: Log, ws: seq<Attempt>)
    ensures |Accepted(ws)| + WholeTail(Disk(log, ws)) <= |ws| + WholeTail(log)
  {
    if ws != [] {
      JoinedAtMost(log, ws[..|ws| - 1]);
    }
  }

  lemma WithinWindow(log: Log, ws: seq<Attempt>)
    requires |Decode(log)| + |ws| <= REPLAY_WINDOW
    ensures Newest(Decode(Disk(log, ws)), REPLAY_WINDOW) == Decode(Disk(log, ws))
  {
    LogCounts(log, ws);
    JoinedAtMost(log, ws);
  }

  /** One torn write followed by a good one loses the good one. */
  lemma TornTailLosesNext(log: Log, r: Record, torn: Record, bytes: nat, n: nat)
    requires CleanTail(log) && 0 < n < bytes - 1
    ensures var ws := [Attempt(torn, bytes, Part(n)), Attempt(r, bytes, Done)];
      Accepted(ws) == [r] && Joined(log, ws) == 1 && |Decode(Disk(log, ws))| == |Decode(log)|
  {
    var ws: seq<Attempt> := [Attempt(torn, bytes, Part(n)), Attempt(r, bytes, Done)];
    OneAttempt(log, ws[0]);
    assert ws[..1] == [ws[0]];
    LogCounts(log, ws);
    assert Accepted(ws) == Accepted([ws[0]]) + [r];
  }

  lemma OneAttempt(log: Log, a: Attempt)
    ensures Disk(log, [a]) == Write(log, a.rec, a.bytes, a.outcome)
    ensures Accepted([a]) == if a.outcome.Done? then [a.rec] else []
    ensures CleanTail(log) ==> Joined(log, [a]) == 0
  {
    assert [a][..0] == [];
    assert Disk(log, []) == log && Accepted([]) == [];
  }

  // ------------------------------------------------------------------ when reopening is exact

  /** Reopening the log after these writes yields what is in memory. */
  ghost predicate Reopens(log: Log, ws: seq<Attempt>) {
    !TooLong(Disk(log, ws)) && Fold(Newest(Decode(Disk(log, ws)), REPLAY_WINDOW)) == Fold(Decode(log) + Accepted(ws))
  }

  /** The same writes, of other records. */
  ghost predicate SameOutcomes(ws: seq<Attempt>, us: seq<Attempt>) {
    |us| == |ws| && forall i | 0 <= i < |ws| :: us[i].bytes == ws[i].bytes && us[i].outcome == ws[i].outcome
  }

  ghost predicate SameSizes(a: Log, b: Log) {
    && a.NoFile? == b.NoFile?
    && (a.Log? ==>
         && |a.lines| == |b.lines| && (forall i | 0 <= i < |a.lines| :: a.lines[i].bytes == b.lines[i].bytes)
         && a.tail.Clean? == b.tail.Clean? && a.tail.Whole? == b.tail.Whole?
         && (!a.tail.Clean? ==> a.tail.bytes == b.tail.bytes))
  }

  /** What is torn, joined, left whole or too long depends on the outcomes alone. */
  lemma {:induction false} OutcomesDecide(log: Log, ws: seq<Attempt>, us: seq<Attempt>)
    requires SameOutcomes(ws, us)
    ensures SameSizes(Disk(log, ws), Disk(log, us)) && TooLong(Disk(log, us)) == TooLong(Disk(log, ws))
    ensures CleanTail(Disk(log, us)) == CleanTail(Disk(log, ws))
    ensures WholeTail(Disk(log, us)) == WholeTail(Disk(log, ws)) && Joined(log, us) == Joined(log, ws)
  {
    if ws != [] {
      OutcomesDecide(log, ws[..|ws| - 1], us[..|us| - 1]);
      var w, u := ws[|ws| - 1], us[|us| - 1];
      assert u.outcome == w.outcome && u.bytes == w.bytes;
      var d, e := Disk(log, ws[..|ws| - 1]), Disk(log, us[..|us| - 1]);
      assert Disk(log, ws) == Write(d, w.rec, w.bytes, w.outcome);
      assert Disk(log, us) == Write(e, u.rec, w.bytes, w.outcome);
      WriteSizes(d, e, w.rec, u.rec, w.bytes, w.outcome);
    }
  }

  lemma WriteSizes(d: Log, e: Log, r: Record, t: Record, bytes: nat, o: Outcome)
    requires Possible(bytes, o) && SameSizes(d, e)
    ensures SameSizes(Write(d, r, bytes, o), Write(e, t, bytes, o))
  {}

  ghost predicate JoinedAt(log: Log, ws: seq<Attempt>, q: nat) {
    q < |ws| && ws[q].outcome.Done? && !CleanTail(Disk(log, ws[..q]))
  }

  lemma {:induction false} SomeJoined(log: Log, ws: seq<Attempt>) returns (q: nat)
    requires Joined(log, ws) > 0
    ensures JoinedAt(log, ws, q)
  {
    var front := ws[..|ws| - 1];
    if Joined(log, front) > 0 {
      q := SomeJoined(log, front);
      assert front[..q] == ws[..q];
    } else {
      q := |ws| - 1;
    }
  }

  const LOST_POOL := OfPool("lost")

  const LOST := Record("lost", "", 0.0, 0, 0.0, false)

  const OTHER := Record("other", "", 0.0, 0, 0.0, false)

  /** The same writes, all of another pool's record but number q. */
  ghost function Tell(ws: seq<Attempt>, q: nat): (us: seq<Attempt>)
    ensures SameOutcomes(ws, us) && forall i | 0 <= i < |us| :: us[i].rec == if i == q then LOST else OTHER
  {
    seq(|ws|, i requires 0 <= i < |ws| => Attempt(if i == q then LOST else OTHER, ws[i].bytes, ws[i].outcome))
  }

  /** A record that joined a torn tail is not in the log, and the tail holds another's, or what it
      held at first. */
  lemma {:induction false} LostIsNowhere(log: Log, ws: seq<Attempt>, q: nat)
    requires q < |ws| ==> JoinedAt(log, ws, q)
    requires forall i | 0 <= i < |ws| :: ws[i].rec == if i == q then LOST else OTHER
    ensures Select(Terminated(Disk(log, ws)), LOST_POOL) == Select(Terminated(log), LOST_POOL)
    ensures var d := Disk(log, ws);
      WholeTail(d) == 1 ==> d.tail.rec == OTHER || (log.Log? && d.tail == log.tail)
    decreases |ws|
  {
    if ws != [] {
      var front, last := ws[..|ws| - 1], ws[|ws| - 1];
      assert q < |front| ==> front[..q] == ws[..q];
      assert q == |front| ==> ws[..q] == front;
      LostIsNowhere(log, front, q);
      var d := Disk(log, front);
      if last.outcome.Done? && CleanTail(d) {
        WriteEntry(d, last.rec, last.bytes);
        SelectMore(Terminated(d), last.rec);
      } else if last.outcome.Done? {
        WriteJunk(d, last.rec, last.bytes);
      }
    }
  }

  lemma SelectOne(records: seq<Record>, r: Record)
    ensures |Select(records + [r], LOST_POOL)| == |Select(records, LOST_POOL)| + if Matches(LOST_POOL, r) then 1 else 0
  {
    assert (records + [r])[..|records|] == records;
  }

  lemma SelectMore(records: seq<Record>, r: Record)
    requires r == OTHER
    ensures Select(records + [r], LOST_POOL) == Select(records, LOST_POOL)
  {
    assert (records + [r])[..|records|] == records;
  }

  lemma WriteJunk(log: Log, r: Record, bytes: nat)
    requires !CleanTail(log) && bytes >= 2
    ensures Terminated(Write(log, r, bytes, Done)) == Terminated(log)
  {
    var next := Write(log, r, bytes, Done).lines;
    assert next[..|next| - 1] == log.lines;
  }

  lemma {:induction false} LostIsAccepted(ws: seq<Attempt>, q: nat)
    requires q < |ws| ==> ws[q].outcome.Done?
    requires forall i | 0 <= i < |ws| :: ws[i].rec == if i == q then LOST else OTHER
    ensures |Select(Accepted(ws), LOST_POOL)| == if q < |ws| then 1 else 0
    decreases |ws|
  {
    if ws != [] {
      var front, last := ws[..|ws| - 1], ws[|ws| - 1];
      LostIsAccepted(front, q);
      if last.outcome.Done? {
        assert Accepted(ws) == Accepted(front) + [last.rec];
        hide Accepted;
        SelectOne(Accepted(front), last.rec);
      } else {
        assert Accepted(ws) == Accepted(front);
      }
    }
  }

  lemma LevelCounts(records: seq<Record>, l: Level)
    ensures StatsAt(Fold(records), l).count == |Select(records, l)|
  {
    LevelBlends(records, l);
    StatsAverage(Select(records, l));
  }

  /** With a joined record told apart from all others, memory and log disagree. */
  lemma JoinedShows(log: Log, ws: seq<Attempt>, q: nat)
    requires |Decode(log)| + |ws| <= REPLAY_WINDOW && JoinedAt(log, ws, q)
    ensures !Reopens(log, Tell(ws, q))
  {
    var us := Tell(ws, q);
    assert SameOutcomes(ws[..q], us[..q]);
    OutcomesDecide(log, ws[..q], us[..q]);
    LostIsNowhere(log, us, q);
    LostIsAccepted(us, q);
    DecodedLost(log, us);
    WithinWindow(log, us);
    SelectConcat(Decode(log), Accepted(us), LOST_POOL);
    hide Fold, Decode, Disk, Accepted, Select, StatsAt;
    LevelCounts(Decode(log) + Accepted(us), LOST_POOL);
    LevelCounts(Decode(Disk(log, us)), LOST_POOL);
  }

  lemma DecodedLost(log: Log, us: seq<Attempt>)
    requires Select(Terminated(Disk(log, us)), LOST_POOL) == Select(Terminated(log), LOST_POOL)
    requires var d := Disk(log, us);
      WholeTail(d) == 1 ==> d.tail.rec == OTHER || (log.Log? && d.tail == log.tail)
    ensures |Select(Decode(Disk(log, us)), LOST_POOL)| <= |Select(Decode(log), LOST_POOL)|
  {
    DecodedSelect(log);
    DecodedSelect(Disk(log, us));
  }

  lemma DecodedSelect(log: Log)
    ensures |Select(Decode(log), LOST_POOL)|
      == |Select(Terminated(log), LOST_POOL)| + if WholeTail(log) == 1 && Matches(LOST_POOL, log.tail.rec) then 1 else 0
  {
    if WholeTail(log) == 1 {
      SelectOne(Terminated(log), log.tail.rec);
    } else {
      NoWholeTail(log);
    }
  }

  /** Nothing was lost, and nothing is in the log that is not in memory. */
  ghost predicate LogMatches(log: Log, ws: seq<Attempt>) {
    Joined(log, ws) == 0 && WholeTail(Disk(log, ws)) == WholeTail(log) && !TooLong(Disk(log, ws))
  }

  /** Reopening an untruncated log rebuilds what is in memory, whatever the records say, if and
      only if no accepted record was written behind a torn tail, as many records lack only their
      newline as did when the log was first opened, and no line is too long to be read. */
  lemma ReopenExact(log: Log, ws: seq<Attempt>)
    requires |Decode(log)| + |ws| <= REPLAY_WINDOW
    ensures (forall us: seq<Attempt> | SameOutcomes(ws, us) :: Reopens(log, us)) <==> LogMatches(log, ws)
  {
    forall us: seq<Attempt> | SameOutcomes(ws, us) && LogMatches(log, ws) ensures Reopens(log, us) {
      OutcomesDecide(log, ws, us);
      ReopenRebuilds(log, us);
    }
    if Joined(log, ws) > 0 {
      var q := SomeJoined(log, ws);
      JoinedShows(log, ws, q);
    } else {
      ReopenRebuilds(log, ws);
      assert SameOutcomes(ws, ws);
    }
  }

  /** By how the log ended when it was opened: behind the newline of a record, what was accepted
      was not written behind a torn line, and no record lacks its newline; behind part of a line,
      nothing was accepted; behind a record that lacks its newline, nothing at all was written. */
  ghost predicate Harmless(log: Log, ws: seq<Attempt>) {
    if CleanTail(log) then Joined(log, ws) == 0 && WholeTail(Disk(log, ws)) == 0
    else if log.tail.Torn? then Accepted(ws) == []
    else forall i | 0 <= i < |ws| :: ws[i].outcome.Unwritten?
  }

  lemma LogMatchesByTail(log: Log, ws: seq<Attempt>)
    ensures LogMatches(log, ws) <==> Harmless(log, ws) && !TooLong(Disk(log, ws))
  {
    if !CleanTail(log) && log.tail.Torn? {
      StaysTorn(log, ws);
    } else if !CleanTail(log) {
      StaysWhole(log, ws);
    }
  }

  lemma {:induction false} StaysTorn(log: Log, ws: seq<Attempt>)
    requires log.Log? && log.tail.Torn?
    ensures Accepted(ws) == [] ==> Disk(log, ws).Log? && Disk(log, ws).tail.Torn?
    ensures Joined(log, ws) == 0 <==> Accepted(ws) == []
  {
    if ws != [] {
      StaysTorn(log, ws[..|ws| - 1]);
    }
  }

  lemma {:induction false} StaysWhole(log: Log, ws: seq<Attempt>)
    requires log.Log? && log.tail.Whole?
    ensures Joined(log, ws) == 0 ==> !CleanTail(Disk(log, ws))
    ensures Joined(log, ws) == 0 && WholeTail(Disk(log, ws)) == 1 <==> Harmless(log, ws)
    ensures Harmless(log, ws) ==> Disk(log, ws) == log
  {
    if ws != [] {
      var front, last := ws[..|ws| - 1], ws[|ws| - 1];
      StaysWhole(log, front);
      assert Harmless(log, ws) <==> last.outcome.Unwritten? && Harmless(log, front);
    }
  }

  /** A line once too long is too long for ever, and a record of such a line can be accepted. */
  lemma TooLongForEver(log: Log, r: Record, bytes: nat, o: Outcome)
    requires Possible(bytes, o)
    ensures TooLong(log) ==> TooLong(Write(log, r, bytes, o))
    ensures o.Done? && bytes > MAX_LINE ==> TooLong(Write(log, r, bytes, o))
  {
    var next := Write(log, r, bytes, o);
    if log.Log? && next.Log? {
      assert forall i | 0 <= i < |log.lines| :: next.lines[i] == log.lines[i];
    }
    if o.Done? {
      assert next.lines[|next.lines| - 1].bytes >= bytes;
    }
  }

  // ------------------------------------------------------------------ rotation

  /** The file is large enough to be rewritten. */
  predicate Due(log: Log, limit: int) {
    limit > 0 && log.Log? && Size(log) >= limit * MIN_RECORD_BYTES
  }

  function EntriesOf(log: Log): seq<Line> {
    if log.NoFile? then []
    else EntryLines(log.lines) + if log.tail.Whole? then [Entry(log.tail.rec, log.tail.bytes + 1)] else []
  }

  function EntryLines(lines: seq<Line>): seq<Line> {
    if lines == [] then []
    else EntryLines(lines[..|lines| - 1]) + if lines[|lines| - 1].Entry? then [lines[|lines| - 1]] else []
  }

  /** rotateLocked when every file operation works. */
  function Rotated(log: Log, limit: int): Log {
    if Due(log, limit) && !TooLong(log) then Log(Newest(EntriesOf(log), limit / 2), Clean) else log
  }

  lemma {:induction false} EntryLinesDecode(lines: seq<Line>)
    ensures |EntryLines(lines)| == |DecodeLines(lines)|
    ensures forall i | 0 <= i < |EntryLines(lines)| ::
      EntryLines(lines)[i].Entry? && EntryLines(lines)[i].rec == DecodeLines(lines)[i]
  {
    if lines != [] {
      EntryLinesDecode(lines[..|lines| - 1]);
    }
  }

  lemma {:induction false} DecodeEntries(lines: seq<Line>)
    requires forall i | 0 <= i < |lines| :: lines[i].Entry?
    ensures |DecodeLines(lines)| == |lines| && forall i | 0 <= i < |lines| :: DecodeLines(lines)[i] == lines[i].rec
  {
    if lines != [] {
      DecodeEntries(lines[..|lines| - 1]);
    }
  }

  lemma EntriesDecode(log: Log)
    ensures |EntriesOf(log)| == |Decode(log)|
    ensures forall i | 0 <= i < |EntriesOf(log)| :: EntriesOf(log)[i].Entry? && EntriesOf(log)[i].rec == Decode(log)[i]
  {
    if log.Log? {
      EntryLinesDecode(log.lines);
    }
  }

  /** Rotation keeps exactly the newest half-limit of the records, and mends the tail. */
  lemma RotationKeepsNewest(log: Log, limit: int)
    requires Due(log, limit) && !TooLong(log)
    ensures Decode(Rotated(log, limit)) == Newest(Decode(log), limit / 2) && CleanTail(Rotated(log, limit))
  {
    var kept := Newest(EntriesOf(log), limit / 2);
    EntriesDecode(log);
    DecodeEntries(kept);
    hide DecodeLines, EntriesOf, Size;
    assert Decode(Rotated(log, limit)) == DecodeLines(kept);
    hide Rotated, Decode;
    assert DecodeLines(kept) == Newest(Decode(log), limit / 2);
  }

  /** Position by position: what is left is the end of what was there, half the limit of it. */
  lemma RotationKeepsEnd(log: Log, limit: int)
    requires Due(log, limit) && !TooLong(log)
    ensures IsEnd(Decode(Rotated(log, limit)), Decode(log), limit / 2)
  {
    RotationKeepsNewest(log, limit);
    hide *;
    NewestIsTheEnd(Decode(log), limit / 2);
  }

  /** Rotation of a readable log drops a record if and only if the file has 250 bytes for every
      allowed record and more than half as many records as are allowed: so also when it has fewer
      than are allowed. */
  lemma RotationDrops(log: Log, limit: int)
    requires limit > 0 && !TooLong(log)
    ensures |Decode(Rotated(log, limit))| < |Decode(log)| <==>
      Size(log) >= 250 * limit && |Decode(log)| > limit / 2
    ensures |Decode(Rotated(log, limit))| < |Decode(log)| < limit <==>
      Size(log) >= 250 * limit && limit / 2 < |Decode(log)| < limit
  {
    if Due(log, limit) {
      RotationKeepsNewest(log, limit);
    }
  }

  lemma {:induction false} UniformSize(lines: seq<Line>, bytes: nat)
    requires forall i | 0 <= i < |lines| :: lines[i].bytes == bytes
    ensures LinesSize(lines) == |lines| * bytes
  {
    if lines != [] {
      UniformSize(lines[..|lines| - 1], bytes);
      assert |lines| * bytes == (|lines| - 1) * bytes + bytes;
    }
  }

  /** Of n records of one length, a log below its limit loses some exactly if they are that long. */
  lemma EarlyRotation(lines: seq<Line>, bytes: nat, limit: int)
    requires limit > 0 && bytes <= MAX_LINE && forall i | 0 <= i < |lines| :: lines[i].Entry? && lines[i].bytes == bytes
    ensures var log := Log(lines, Clean);
      |Decode(Rotated(log, limit))| < |Decode(log)| < limit <==>
        limit / 2 < |lines| < limit && |lines| * bytes >= 250 * limit
  {
    UniformSize(lines, bytes);
    DecodeEntries(lines);
    RotationDrops(Log(lines, Clean), limit);
    assert DecodeLines(lines) + [] == DecodeLines(lines);
  }

  /** Three records of a thousand bytes, where four are allowed, are cut to two. */
  lemma ThreeOfFourAreCut(a: Record, b: Record, c: Record)
    ensures var log := Log([Entry(a, 1000), Entry(b, 1000), Entry(c, 1000)], Clean);
      |Decode(log)| == 3 && |Decode(Rotated(log, 4))| == 2
  {
    var lines := [Entry(a, 1000), Entry(b, 1000), Entry(c, 1000)];
    var log := Log(lines, Clean);
    UniformSize(lines, 1000);
    DecodeEntries(lines);
    assert Decode(log) == DecodeLines(lines);
    EarlyRotation(lines, 1000, 4);
    assert Due(log, 4);
    RotationKeepsNewest(log, 4);
  }
}
