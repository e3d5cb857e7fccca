/** The admission gate of internal/app/scheduler.go and the queued-job hints of
    internal/app/pool.go that it estimates a new slot by. */
module AdmissionGate {
  import opened Basics
  import opened SlotModel

  const MAX_QUEUED_REFS := 1024
  const MAX_HINT_COUNT := 9999
  const HINT_TTL := 600_000_000_000 // ten minutes, in nanoseconds

  /** PredictCores and PredictMem over a history that does not change. */
  datatype Hist = Hist(cores: (nat, string) -> real, mem: (nat, string) -> nat) {
    ghost predicate Sane() { forall k: nat, ref: string :: cores(k, ref) >= 0.0 }
  }

  /** What the gate reads of one slot. */
  datatype SlotView = SlotView(
    pool: nat,
    state: State,
    workflowRef: string,
    reservedCores: real,
    reservedMem: nat,
    currentMem: nat)

  datatype Estimate = Estimate(cores: real, mem: nat)

  datatype Limits = Limits(numCPU: nat, cpuTargetPercent: nat, memoryMarginPercent: nat) {
    function Cpu(): real { numCPU as real * cpuTargetPercent as real / 100.0 }

    function Memory(available: nat): int { available * (100 - memoryMarginPercent) / 100 }
  }

  // ------------------------------------------------------------------ the gate

  /** The cores one slot is charged for. */
  function CoresOf(hist: Hist, v: SlotView, own: nat, candidate: Estimate): real {
    if !v.state.Live() then 0.0
    else if v.state.Busy? then hist.cores(v.pool, v.workflowRef)
    else if v.pool == own then RMax(v.reservedCores, candidate.cores)
    else v.reservedCores
  }

  /** The memory one slot is still expected to take. */
  function MemOf(hist: Hist, v: SlotView, own: nat, candidate: Estimate): nat {
    if !v.state.Live() then 0
    else
      var memory :=
        if v.state.Busy? then hist.mem(v.pool, v.workflowRef)
        else if v.pool == own then NMax(v.reservedMem, candidate.mem)
        else v.reservedMem;
      if memory > v.currentMem then memory - v.currentMem else 0
  }

  ghost function SumCores(hist: Hist, live: seq<SlotView>, own: nat, candidate: Estimate): real {
    if live == [] then 0.0
    else SumCores(hist, live[..|live| - 1], own, candidate) + CoresOf(hist, live[|live| - 1], own, candidate)
  }

  ghost function SumMem(hist: Hist, live: seq<SlotView>, own: nat, candidate: Estimate): nat {
    if live == [] then 0
    else SumMem(hist, live[..|live| - 1], own, candidate) + MemOf(hist, live[|live| - 1], own, candidate)
  }

  /** The candidate is admitted alone, or when it fits beside everything that is charged. */
  ghost predicate Admits(hist: Option<Hist>, own: nat, live: seq<SlotView>, candidate: Estimate, limits: Limits,
      available: Option<nat>) {
    || hist.None?
    || live == []
    || (candidate.cores + SumCores(hist.value, live, own, candidate) <= limits.Cpu()
        && (available.Some? ==>
            candidate.mem + SumMem(hist.value, live, own, candidate) <= limits.Memory(available.value)))
  }

  /** admissionGate: one pass over the snapshot of every live slot of the host. */
  method Gate(hist: Option<Hist>, own: nat, live: seq<SlotView>, candidate: Estimate, limits: Limits,
      available: Option<nat>)
    returns (ok: bool)
    ensures ok <==> Admits(hist, own, live, candidate, limits, available)
    ensures hist.None? || live == [] ==> ok
  {
    if hist.None? || |live| == 0 {
      return true;
    }
    var usedCores, usedMemory := candidate.cores, candidate.mem;
    for i := 0 to |live|
      invariant usedCores == candidate.cores + SumCores(hist.value, live[..i], own, candidate)
      invariant usedMemory == candidate.mem + SumMem(hist.value, live[..i], own, candidate)
    {
      assert live[..i + 1][..i] == live[..i];
      var v := live[i];
      if !v.state.Live() {
        continue;
      }
      var cores, memory := v.reservedCores, v.reservedMem;
      if v.state.Busy? {
        cores := hist.value.cores(v.pool, v.workflowRef);
        memory := hist.value.mem(v.pool, v.workflowRef);
      } else if v.pool == own {
        cores := RMax(cores, candidate.cores);
        memory := NMax(memory, candidate.mem);
      }
      usedCores := usedCores + cores;
      if memory > v.currentMem {
        usedMemory := usedMemory + (memory - v.currentMem);
      }
    }
    assert live[..|live|] == live;
    if usedCores > limits.Cpu() {
      return false;
    }
    if available.Some? && usedMemory > limits.Memory(available.value) {
      return false;
    }
    return true;
  }

  lemma {:induction false} SumCoresConcat(hist: Hist, a: seq<SlotView>, b: seq<SlotView>, own: nat, candidate: Estimate)
    ensures SumCores(hist, a + b, own, candidate)
      == SumCores(hist, a, own, candidate) + SumCores(hist, b, own, candidate)
  {
    if b == [] {
      assert a + b == a;
    } else {
      SumCoresConcat(hist, a, b[..|b| - 1], own, candidate);
      assert (a + b)[..|a + b| - 1] == a + b[..|b| - 1];
    }
  }

  // ------------------------------------------------------------------ what admission means

  /** What each live slot may come to use: a busy one at most what its ref is predicted, any other at
      most what was reserved for it or, in the candidate's own pool, what the candidate may use. */
  ghost predicate MayUse(hist: Hist, own: nat, live: seq<SlotView>, candidate: Estimate, cores: seq<real>,
      mem: seq<nat>) {
    && |cores| == |mem| == |live|
    && forall i | 0 <= i < |live| && live[i].state in {Starting, Idle, Busy} ::
         if live[i].state == Busy
         then
           && cores[i] <= hist.cores(live[i].pool, live[i].workflowRef)
           && mem[i] <= hist.mem(live[i].pool, live[i].workflowRef)
         else
           && (cores[i] <= live[i].reservedCores || (live[i].pool == own && cores[i] <= candidate.cores))
           && (mem[i] <= live[i].reservedMem || (live[i].pool == own && mem[i] <= candidate.mem))
  }

  /** The cores used by all live slots. */
  ghost function CoresUsed(live: seq<SlotView>, cores: seq<real>): real
    requires |cores| == |live|
  {
    if live == [] then 0.0
    else
      var n := |live| - 1;
      CoresUsed(live[..n], cores[..n]) + if live[n].state in {Starting, Idle, Busy} then cores[n] else 0.0
  }

  /** The memory all live slots take beyond what each uses now. */
  ghost function MemBeyond(live: seq<SlotView>, mem: seq<nat>): nat
    requires |mem| == |live|
  {
    if live == [] then 0
    else
      var n := |live| - 1;
      var beyond := if mem[n] > live[n].currentMem then mem[n] - live[n].currentMem else 0;
      MemBeyond(live[..n], mem[..n]) + if live[n].state in {Starting, Idle, Busy} then beyond else 0
  }

  /** The candidate and all live slots fit: within the target share of the processors and, if the
      free memory is known, within it less the margin. */
  ghost predicate Fits(live: seq<SlotView>, candidate: Estimate, limits: Limits, available: Option<nat>,
      cores: seq<real>, mem: seq<nat>)
    requires |cores| == |mem| == |live|
  {
    && 100.0 * (candidate.cores + CoresUsed(live, cores)) <= limits.numCPU as real * limits.cpuTargetPercent as real
    && (available.Some? ==>
          100 * (candidate.mem + MemBeyond(live, mem)) <= available.value * (100 - limits.memoryMarginPercent))
  }

  /** What each slot is charged for is the most it may use. */
  ghost function MostCores(hist: Hist, own: nat, live: seq<SlotView>, candidate: Estimate): (cores: seq<real>)
    ensures |cores| == |live| && forall i | 0 <= i < |live| :: cores[i] == CoresOf(hist, live[i], own, candidate)
  {
    seq(|live|, i requires 0 <= i < |live| => CoresOf(hist, live[i], own, candidate))
  }

  function MostMemOf(hist: Hist, v: SlotView, own: nat, candidate: Estimate): nat {
    if !v.state.Live() then 0
    else if v.state.Busy? then hist.mem(v.pool, v.workflowRef)
    else if v.pool == own then NMax(v.reservedMem, candidate.mem)
    else v.reservedMem
  }

  ghost function MostMem(hist: Hist, own: nat, live: seq<SlotView>, candidate: Estimate): (mem: seq<nat>)
    ensures |mem| == |live| && forall i | 0 <= i < |live| :: mem[i] == MostMemOf(hist, live[i], own, candidate)
  {
    seq(|live|, i requires 0 <= i < |live| => MostMemOf(hist, live[i], own, candidate))
  }

  lemma {:induction false} ChargedAtMost(hist: Hist, own: nat, live: seq<SlotView>, candidate: Estimate,
      cores: seq<real>, mem: seq<nat>)
    requires MayUse(hist, own, live, candidate, cores, mem)
    ensures CoresUsed(live, cores) <= SumCores(hist, live, own, candidate)
    ensures MemBeyond(live, mem) <= SumMem(hist, live, own, candidate)
  {
    if live != [] {
      var n := |live| - 1;
      ChargedAtMost(hist, own, live[..n], candidate, cores[..n], mem[..n]);
    }
  }

  lemma {:induction false} ChargedInFull(hist: Hist, own: nat, live: seq<SlotView>, candidate: Estimate)
    ensures CoresUsed(live, MostCores(hist, own, live, candidate)) == SumCores(hist, live, own, candidate)
    ensures MemBeyond(live, MostMem(hist, own, live, candidate)) == SumMem(hist, live, own, candidate)
  {
    if live != [] {
      var n := |live| - 1;
      ChargedInFull(hist, own, live[..n], candidate);
      assert MostCores(hist, own, live, candidate)[..n] == MostCores(hist, own, live[..n], candidate);
      assert MostMem(hist, own, live, candidate)[..n] == MostMem(hist, own, live[..n], candidate);
    }
  }

  lemma MostIsAllowed(hist: Hist, own: nat, live: seq<SlotView>, candidate: Estimate)
    ensures MayUse(hist, own, live, candidate, MostCores(hist, own, live, candidate),
      MostMem(hist, own, live, candidate))
  {}

  lemma LimitsInNumbers(limits: Limits, available: nat, cores: real, mem: nat)
    ensures cores <= limits.Cpu() <==> 100.0 * cores <= limits.numCPU as real * limits.cpuTargetPercent as real
    ensures mem <= limits.Memory(available) <==> 100 * mem <= available * (100 - limits.memoryMarginPercent)
  {}

  /** Beside live slots, with history on, a candidate is admitted if and only if it and all of them
      fit whatever they come to use within what is predicted of them and reserved for them. */
  lemma AdmissionMeans(hist: Hist, own: nat, live: seq<SlotView>, candidate: Estimate, limits: Limits,
      available: Option<nat>)
    requires live != []
    ensures Admits(Some(hist), own, live, candidate, limits, available) <==>
      forall cores, mem | MayUse(hist, own, live, candidate, cores, mem) ::
        Fits(live, candidate, limits, available, cores, mem)
  {
    hide MayUse, CoresUsed, MemBeyond, SumCores, SumMem, Limits.Cpu, Limits.Memory;
    var free := if available.Some? then available.value else 0;
    LimitsInNumbers(limits, free, candidate.cores + SumCores(hist, live, own, candidate),
                    candidate.mem + SumMem(hist, live, own, candidate));
    forall cores: seq<real>, mem: seq<nat> | MayUse(hist, own, live, candidate, cores, mem)
      ensures |cores| == |mem| == |live|
      ensures Admits(Some(hist), own, live, candidate, limits, available) ==>
        Fits(live, candidate, limits, available, cores, mem)
    {
      SameLength(hist, own, live, candidate, cores, mem);
      ChargedAtMost(hist, own, live, candidate, cores, mem);
    }
    MostIsAllowed(hist, own, live, candidate);
    ChargedInFull(hist, own, live, candidate);
  }

  lemma SameLength(hist: Hist, own: nat, live: seq<SlotView>, candidate: Estimate, cores: seq<real>, mem: seq<nat>)
    requires MayUse(hist, own, live, candidate, cores, mem)
    ensures |cores| == |mem| == |live|
  {}

  // ------------------------------------------------------------------ queued hints

  /** How often each ref was announced and not yet claimed, and when it was last announced. */
  datatype Hints = Hints(count: map<string, int>, at: map<string, int>) {
    ghost predicate Valid() {
      && count.Keys == at.Keys
      && |count| <= MAX_QUEUED_REFS
      && "" !in count
      && forall ref <- count :: 1 <= count[ref] <= MAX_HINT_COUNT
    }

    /** Hints no older than the TTL. */
    ghost function Unexpired(now: int): (h: Hints)
      requires Valid()
      ensures h.Valid()
    {
      var keep := set ref | ref in count && now - at[ref] <= HINT_TTL;
      SubsetSize(keep, count.Keys);
      var kept := map ref | ref in keep :: count[ref];
      assert kept.Keys == keep;
      Hints(kept, map ref | ref in keep :: at[ref])
    }

    /** One announced ref. */
    ghost function Note(ref: string, now: int): Hints
      requires Valid()
    {
      if ref == "" || (ref !in count && |count| >= MAX_QUEUED_REFS) then this
      else Hints(count[ref := Capped(Of(ref) + 1)], at[ref := now])
    }

    function Of(ref: string): int {
      if ref in count then count[ref] else 0
    }

    /** The first n announced refs, in order. */
    ghost function NoteFirst(refs: seq<string>, n: nat, now: int): (h: Hints)
      requires Valid() && n <= |refs|
      ensures h.Valid()
    {
      if n == 0 then this
      else
        var h := NoteFirst(refs, n - 1, now);
        NoteValid(h, refs[n - 1], now);
        h.Note(refs[n - 1], now)
    }
  }

  lemma NoteValid(h: Hints, ref: string, now: int)
    requires h.Valid()
    ensures h.Note(ref, now).Valid()
  {
    if ref !in h.count {
      assert h.count[ref := 1].Keys == h.count.Keys + {ref};
    }
  }

  ghost function Occurrences(refs: seq<string>, n: nat, ref: string): nat
    requires n <= |refs|
  {
    if n == 0 then 0 else Occurrences(refs, n - 1, ref) + if refs[n - 1] == ref then 1 else 0
  }

  function Capped(n: int): int {
    if n < MAX_HINT_COUNT then n else MAX_HINT_COUNT
  }

  lemma NoteOf(h: Hints, last: string, now: int, ref: string)
    requires h.Valid() && ref != ""
    ensures |h.Note(last, now).count| <= |h.count| + 1
    ensures ref in h.count || |h.count| < MAX_QUEUED_REFS ==>
      h.Note(last, now).Of(ref) == if ref == last then Capped(h.Of(ref) + 1) else h.Of(ref)
    ensures ref in h.count ==> ref in h.Note(last, now).count
  {
    if last !in h.count {
      assert h.count[last := 1].Keys == h.count.Keys + {last};
    }
  }

  /** A batch raises the count of a ref by its number of announcements, up to the cap, if the
      ref was hinted before or there is room for the whole batch. */
  lemma {:induction false} NotedCounts(h: Hints, refs: seq<string>, n: nat, now: int, ref: string)
    requires h.Valid() && n <= |refs| && ref != ""
    requires ref in h.count || |h.count| + n <= 1024
    ensures var all := h.Of(ref) + Occurrences(refs, n, ref);
      h.NoteFirst(refs, n, now).Of(ref) == if all < 9999 then all else 9999
    ensures ref in h.count ==> ref in h.NoteFirst(refs, n, now).count
    ensures |h.NoteFirst(refs, n, now).count| <= |h.count| + n
    decreases n
  {
    if n > 0 {
      NotedCounts(h, refs, n - 1, now, ref);
      NoteOf(h.NoteFirst(refs, n - 1, now), refs[n - 1], now, ref);
    }
  }

  /** A ref announced now is hinted for ten minutes and no longer, unless it is announced again: if
      it was hinted before, or there is room for the whole batch. */
  lemma HintLasts(h: Hints, refs: seq<string>, now: int, later: int, ref: string)
    requires h.Valid() && ref in refs && ref != ""
    requires ref in h.count || |h.count| + |refs| <= 1024
    ensures ref in h.NoteFirst(refs, |refs|, now).Unexpired(later).count <==> later - now <= 600_000_000_000
  {
    NotedCounts(h, refs, |refs|, now, ref);
    assert refs[..|refs|] == refs;
    NotedAt(h, refs, |refs|, now, ref);
  }

  lemma NoteAt(h: Hints, last: string, now: int, ref: string)
    requires h.Valid() && ref != "" && (ref in h.count || |h.count| < 1024)
    ensures var f := h.Note(last, now);
      && (ref == last ==> ref in f.at && f.at[ref] == now)
      && (ref in h.at ==> ref in f.at && (f.at[ref] == now || f.at[ref] == h.at[ref]))
  {}

  lemma {:induction false} NotedAt(h: Hints, refs: seq<string>, n: nat, now: int, ref: string)
    requires h.Valid() && n <= |refs| && ref != "" && (ref in h.count || |h.count| + n <= 1024)
    requires ref in refs[..n]
    ensures ref in h.NoteFirst(refs, n, now).at && h.NoteFirst(refs, n, now).at[ref] == now
    decreases n
  {
    var last := refs[n - 1];
    assert refs[..n] == refs[..n - 1] + [last];
    var f := h.NoteFirst(refs, n - 1, now);
    NotedCounts(h, refs, n - 1, now, ref);
    hide Hints.Note;
    NoteAt(f, last, now, ref);
    if ref in refs[..n - 1] {
      NotedAt(h, refs, n - 1, now, ref);
    }
  }

  /** What was hinted before and not announced since is kept, count and time, for its ten minutes. */
  lemma UnexpiredInNumbers(h: Hints, now: int, ref: string)
    requires h.Valid()
    ensures ref in h.Unexpired(now).count <==> ref in h.count && now - h.at[ref] <= 600_000_000_000
    ensures var f := h.Unexpired(now);
      ref in f.count ==> ref in f.at && f.count[ref] == h.count[ref] && f.at[ref] == h.at[ref]
  {}

  /** The pool's two hint maps, changed in place. */
  class HintQueue {
    var queuedRefs: map<string, int>
    var queuedAt: map<string, int>

    constructor ()
      ensures View() == Hints(map[], map[]) && View().Valid()
    {
      queuedRefs, queuedAt := map[], map[];
    }

    function View(): Hints
      reads this
    {
      Hints(queuedRefs, queuedAt)
    }

    method Expire(now: int)
      requires View().Valid()
      modifies this
      ensures View().Valid() && View() == old(View()).Unexpired(now)
    {
      var todo := queuedRefs.Keys;
      while todo != {}
        invariant todo <= old(queuedRefs).Keys
        invariant queuedRefs.Keys == queuedAt.Keys
        invariant forall ref :: ref in queuedRefs <==>
          ref in old(queuedRefs) && (ref in todo || now - old(queuedAt)[ref] <= HINT_TTL)
        invariant forall ref <- queuedRefs ::
          queuedRefs[ref] == old(queuedRefs)[ref] && queuedAt[ref] == old(queuedAt)[ref]
        decreases todo
      {
        var ref :| ref in todo;
        todo := todo - {ref};
        if queuedRefs[ref] <= 0 || now - queuedAt[ref] > HINT_TTL {
          queuedRefs := queuedRefs - {ref};
          queuedAt := queuedAt - {ref};
        }
      }
      SubsetSize(queuedRefs.Keys, old(queuedRefs).Keys);
      assert View().count == old(View()).Unexpired(now).count && View().at == old(View()).Unexpired(now).at;
    }

    method NoteRef(ref: string, now: int)
      requires View().Valid()
      modifies this
      ensures View().Valid() && View() == old(View()).Note(ref, now)
    {
      NoteValid(View(), ref, now);
      if ref == "" {
        return;
      }
      if ref !in queuedRefs && |queuedRefs| >= MAX_QUEUED_REFS {
        return;
      }
      var n := (if ref in queuedRefs then queuedRefs[ref] else 0) + 1;
      queuedRefs := queuedRefs[ref := if n < MAX_HINT_COUNT then n else MAX_HINT_COUNT];
      queuedAt := queuedAt[ref := now];
    }

    method NoteQueued(refs: seq<string>, now: int)
      requires View().Valid()
      modifies this
      ensures View().Valid()
      ensures View() == old(View()).Unexpired(now).NoteFirst(refs, |refs|, now)
    {
      Expire(now);
      ghost var young := View();
      for i := 0 to |refs|
        invariant View().Valid() && View() == young.NoteFirst(refs, i, now)
      {
        NoteRef(refs[i], now);
      }
    }

    /** A claimed ref uses up one announcement. */
    method Consume(ref: string)
      requires View().Valid()
      modifies this
      ensures View().Valid()
      ensures View().Of(ref) == if old(View()).Of(ref) > 0 then old(View()).Of(ref) - 1 else 0
      ensures forall other | other != ref :: View().Of(other) == old(View()).Of(other)
      ensures forall other <- queuedAt :: other in old(queuedAt) && queuedAt[other] == old(queuedAt)[other]
    {
      if ref !in queuedRefs || queuedRefs[ref] <= 1 {
        queuedRefs := queuedRefs - {ref};
        queuedAt := queuedAt - {ref};
        SubsetSize(queuedRefs.Keys, old(queuedRefs).Keys);
        return;
      }
      queuedRefs := queuedRefs[ref := queuedRefs[ref] - 1];
      assert queuedRefs.Keys == old(queuedRefs).Keys;
    }

    /** candidateEstimate: the largest prediction over the live hints, in each dimension. */
    method CandidateEstimate(hist: Option<Hist>, pool: nat, now: int) returns (e: Estimate)
      requires View().Valid() && (hist.Some? ==> hist.value.Sane())
      modifies this
      ensures View().Valid() && (hist.None? ==> View() == old(View()) && e == Estimate(0.0, 0))
      ensures hist.Some? ==> View() == old(View()).Unexpired(now) && IsEstimate(hist.value, pool, View().count.Keys, e)
    {
      if hist.None? {
        return Estimate(0.0, 0);
      }
      var h := hist.value;
      Expire(now);
      if |queuedRefs| == 0 {
        assert View().count.Keys == {};
        return Estimate(h.cores(pool, ""), h.mem(pool, ""));
      }
      var cores, memory := 0.0, 0;
      var todo := queuedRefs.Keys;
      while todo != {}
        invariant todo <= queuedRefs.Keys && View() == old(View()).Unexpired(now)
        invariant IsMax(h, pool, queuedRefs.Keys - todo, Estimate(cores, memory))
        decreases todo
      {
        var ref :| ref in todo;
        ghost var done := queuedRefs.Keys - todo;
        MaxMore(h, pool, done, Estimate(cores, memory), ref);
        todo := todo - {ref};
        cores, memory := RMax(cores, h.cores(pool, ref)), NMax(memory, h.mem(pool, ref));
        assert queuedRefs.Keys - todo == done + {ref};
      }
      assert queuedRefs.Keys - todo == queuedRefs.Keys;
      return Estimate(cores, memory);
    }
  }

  /** The least estimate that covers every ref of the set, and zero. */
  ghost predicate IsMax(hist: Hist, pool: nat, refs: set<string>, e: Estimate) {
    && e.cores >= 0.0
    && (forall ref <- refs :: hist.cores(pool, ref) <= e.cores && hist.mem(pool, ref) <= e.mem)
    && (e.cores == 0.0 || exists ref <- refs :: hist.cores(pool, ref) == e.cores)
    && (e.mem == 0 || exists ref <- refs :: hist.mem(pool, ref) == e.mem)
  }

  ghost predicate IsEstimate(hist: Hist, pool: nat, refs: set<string>, e: Estimate) {
    if refs == {} then e == Estimate(hist.cores(pool, ""), hist.mem(pool, "")) else IsMax(hist, pool, refs, e)
  }

  lemma MaxMore(hist: Hist, pool: nat, refs: set<string>, e: Estimate, ref: string)
    requires IsMax(hist, pool, refs, e)
    ensures IsMax(hist, pool, refs + {ref},
      Estimate(RMax(e.cores, hist.cores(pool, ref)), NMax(e.mem, hist.mem(pool, ref))))
  {
    assert ref in refs + {ref};
    if e.cores != 0.0 {
      var r :| r in refs && hist.cores(pool, r) == e.cores;
      assert r in refs + {ref};
    }
    if e.mem != 0 {
      var r :| r in refs && hist.mem(pool, r) == e.mem;
      assert r in refs + {ref};
    }
  }

  /** The estimate covers every ref and in each dimension is what one of them needs; with no ref it
      is the unknown job's. */
  lemma EstimateInNumbers(hist: Hist, pool: nat, refs: set<string>, e: Estimate)
    requires hist.Sane() && IsEstimate(hist, pool, refs, e)
    ensures refs == {} ==> e.cores == hist.cores(pool, "") && e.mem == hist.mem(pool, "")
    ensures forall ref <- refs :: hist.cores(pool, ref) <= e.cores && hist.mem(pool, ref) <= e.mem
    ensures refs != {} ==> exists ref <- refs :: e.cores == hist.cores(pool, ref)
    ensures refs != {} ==> exists ref <- refs :: e.mem == hist.mem(pool, ref)
  {
    if refs != {} {
      var ref :| ref in refs;
      assert hist.cores(pool, ref) <= e.cores && hist.mem(pool, ref) <= e.mem;
    }
  }

  /** There is only one such estimate: which hint is seen first does not matter. */
  lemma EstimateIsUnique(hist: Hist, pool: nat, refs: set<string>, e: Estimate, f: Estimate)
    requires hist.Sane() && IsEstimate(hist, pool, refs, e) && IsEstimate(hist, pool, refs, f)
    ensures e == f
  {}
}
