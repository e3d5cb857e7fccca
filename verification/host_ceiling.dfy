/** The host scheduler of internal/app/scheduler.go over several slot tables, interleaved with
    everything else that happens to them: no run takes the host above its ceiling, except for
    what adoption found there. */
module HostCeiling {
  import opened Basics
  import opened SlotModel
  import opened SlotProtocol
  import opened SlotInvariant
  import opened SlotSteps
  import opened SlotCount
  import opened Sums

  /** The program counter of the scheduler's goroutine. p is the pool being looked at, live and
      before are numbers it read earlier, total and idle are the loop variables `total` and
      `withoutProgress` of reconcilePools. */
  datatype Pc =
    | Booting                                     // boot adoption, before the first pass
    | Resting                                     // between passes
    | MaintRead(p: nat)                           // maintenance, Active of pool p is next
    | MaintCall(p: nat, live: nat, desired: int)  // Ensure(min(live, desired)) is next
    | MaintIn(p: nat, live: nat)                  // inside that Ensure
    | Tally(p: nat, total: nat)                   // allActive, pool p is next
    | Head(total: nat, idle: nat)                 // the head of the allocation loop
    | Visit(p: nat, total: nat, idle: nat)        // pool p was taken from the cursor
    | GrowCall(p: nat, before: nat, total: nat, idle: nat)  // Ensure(before+1) is next
    | GrowIn(p: nat, before: nat, total: nat, idle: nat)    // inside that Ensure
    | Shutting                                    // shutdownSlots

  /** start and adopted are ghosts: how many slots counted when the current pass began, and
      when adoption ended. */
  datatype Host = Host(pools: seq<Sys>, max: nat, pc: Pc, cursor: nat, start: nat, adopted: nat)

  datatype HostAct =
    | PoolStep(k: nat, act: Act)  // anything that happens to one table
    | AdoptionOver
    | PassStart
    | MaintTake                   // the Ensure of maintenance takes the pool's token
    | GrowTake                    // the Ensure of allocation takes the pool's token
    | Move(move: MoveAct)
    | BeginShutdown
    | ShutdownTake(k: nat)

  /** What the scheduler does between its Ensure calls. */
  datatype MoveAct =
    | ReadLive(desired: int)
    | MaintNext
    | CountPool
    | EnsureError  // Ensure failed or was cancelled; the pass returns its error
    | LoopVisit
    | LoopOver     // ceiling reached, no progress, or the pass was cancelled
    | VisitSkip(desired: int, blocked: bool)
    | VisitGrow(desired: int)
    | ReadAfter

  // ------------------------------------------------------------------ steps

  ghost predicate Shapes(h: Host) {
    forall k | 0 <= k < |h.pools| :: Shape(h.pools[k])
  }

  predicate OnPool(pc: Pc) {
    pc.MaintRead? || pc.MaintCall? || pc.MaintIn? || pc.Tally? || pc.Visit? || pc.GrowCall? || pc.GrowIn?
  }

  predicate PoolOf(h: Host) {
    OnPool(h.pc) && h.pc.p < |h.pools|
  }

  /** The moves of a pass between its Ensure calls; live is what Active of pool p returns. */
  function NextPc(pc: Pc, a: MoveAct, live: nat, n: nat, cursor: nat): Pc
    requires n > 0 && MovesFrom(pc, a)
  {
    match a
    case ReadLive(desired) => MaintCall(pc.p, live, desired)
    case MaintNext => if pc.p + 1 < n then MaintRead(pc.p + 1) else Tally(0, 0)
    case CountPool => if pc.p + 1 < n then Tally(pc.p + 1, pc.total + live) else Head(pc.total + live, 0)
    case LoopVisit => Visit(cursor % n, pc.total, pc.idle)
    case VisitSkip(_, _) => Head(pc.total, pc.idle + 1)
    case VisitGrow(_) => GrowCall(pc.p, live, pc.total, pc.idle)
    case ReadAfter =>
      if live <= pc.before then Head(pc.total, pc.idle + 1) else Head(pc.total + (live - pc.before), 0)
    case EnsureError => Resting
    case LoopOver => Resting
  }

  /** The program counters at which a move can be made. */
  predicate MovesFrom(pc: Pc, a: MoveAct) {
    match a
    case ReadLive(_) => pc.MaintRead?
    case MaintNext => pc.MaintIn?
    case CountPool => pc.Tally?
    case EnsureError => pc.MaintCall? || pc.GrowCall? || pc.MaintIn? || pc.GrowIn?
    case LoopVisit => pc.Head?
    case LoopOver => pc.Head?
    case VisitSkip(_, _) => pc.Visit?
    case VisitGrow(_) => pc.Visit?
    case ReadAfter => pc.GrowIn?
  }

  ghost function LiveOf(h: Host): nat {
    if PoolOf(h) then LiveCount(h.pools[h.pc.p].tab) else 0
  }

  ghost predicate HostEnabled(h: Host, a: HostAct)
    requires Shapes(h)
  {
    match a
    case PoolStep(k, act) => k < |h.pools| && Enabled(h.pools[k], act) && !TakesToken(act)
    case AdoptionOver => h.pc.Booting? && forall k | 0 <= k < |h.pools| :: h.pools[k].boot.Done?
    case PassStart => h.pc.Resting?
    case MaintTake =>
      h.pc.MaintCall? && PoolOf(h) && StartEnabled(h.pools[h.pc.p], Acquire(Min(h.pc.live, h.pc.desired), false))
    case GrowTake => h.pc.GrowCall? && PoolOf(h) && StartEnabled(h.pools[h.pc.p], Acquire(h.pc.before + 1, false))
    case BeginShutdown => h.pc.Resting?
    case ShutdownTake(k) => h.pc.Shutting? && k < |h.pools| && StartEnabled(h.pools[k], Acquire(0, true))
    case Move(m) => MoveEnabled(h, m)
  }

  ghost predicate MoveEnabled(h: Host, a: MoveAct) {
    && |h.pools| > 0 && MovesFrom(h.pc, a)
    && (OnPool(h.pc) ==> PoolOf(h) && (h.pc.MaintIn? || h.pc.GrowIn? ==> h.pools[h.pc.p].ops.Free?))
    && (a.LoopVisit? ==> h.pc.total < h.max && h.pc.idle < |h.pools|)
    && (a.VisitSkip? ==> LiveOf(h) >= a.desired || a.blocked)
    && (a.VisitGrow? ==> LiveOf(h) < a.desired)
  }

  ghost function ApplyHost(h: Host, a: HostAct): Host
    requires Shapes(h)
    requires HostEnabled(h, a)
  {
    match a
    case PoolStep(k, act) => h.(pools := h.pools[k := Apply(h.pools[k], act)])
    case AdoptionOver => h.(pc := Resting, start := Sum(Counts(h.pools)), adopted := Sum(Counts(h.pools)))
    case PassStart => h.(pc := if |h.pools| == 0 then Resting else MaintRead(0), start := Sum(Counts(h.pools)))
    case MaintTake =>
      h.(pools := h.pools[h.pc.p := ApplyStart(h.pools[h.pc.p], Acquire(Min(h.pc.live, h.pc.desired), false))],
         pc := MaintIn(h.pc.p, h.pc.live))
    case GrowTake =>
      h.(pools := h.pools[h.pc.p := ApplyStart(h.pools[h.pc.p], Acquire(h.pc.before + 1, false))],
         pc := GrowIn(h.pc.p, h.pc.before, h.pc.total, h.pc.idle))
    case BeginShutdown => h.(pc := Shutting)
    case ShutdownTake(k) => h.(pools := h.pools[k := ApplyStart(h.pools[k], Acquire(0, true))])
    case Move(m) => ApplyMove(h, m)
  }

  ghost function ApplyMove(h: Host, a: MoveAct): Host
    requires MoveEnabled(h, a)
  {
    h.(pc := NextPc(h.pc, a, LiveOf(h), |h.pools|, h.cursor),
       cursor := if a.LoopVisit? then (h.cursor + 1) % |h.pools| else h.cursor)
  }

  ghost predicate HostInit(h: Host) {
    h.pc.Booting? && forall k | 0 <= k < |h.pools| :: Init(h.pools[k])
  }

  ghost predicate HostRun(h: Host, acts: seq<HostAct>, g: Host)
    decreases |acts|
  {
    if acts == [] then h == g
    else
      && Shapes(h) && HostEnabled(h, acts[0]) && HostRun(ApplyHost(h, acts[0]), acts[1..], g)
  }

  // ------------------------------------------------------------------ sums

  ghost function Counts(pools: seq<Sys>): (c: seq<nat>)
    ensures |c| == |pools| && forall k | 0 <= k < |pools| :: c[k] == Count(pools[k])
  {
    seq(|pools|, k requires 0 <= k < |pools| => Count(pools[k]))
  }

  // ------------------------------------------------------------------ the budget

  /** Pool k is inside an Ensure. */
  predicate Inside(pc: Pc, k: nat) {
    (pc.MaintIn? || pc.GrowIn?) && pc.p == k
  }

  /** The most that Ensure will take its pool to. */
  function Cap(pc: Pc): nat
    requires pc.MaintIn? || pc.GrowIn?
  {
    if pc.MaintIn? then pc.live else pc.before + 1
  }

  /** What the scheduler's variables guarantee about the counts c of its pools: base is never
      exceeded, and `total` never falls below the true total. */
  ghost predicate Budget(c: seq<nat>, pc: Pc, max: nat, base: nat) {
    match pc
    case Booting => true
    case Resting => Sum(c) <= base
    case Shutting => Sum(c) <= base
    case MaintRead(p) => Sum(c) <= base
    case MaintCall(p, live, _) => p < |c| && c[p] <= live && Sum(c[p := live]) <= base
    case MaintIn(p, live) => p < |c| && c[p] <= live && Sum(c[p := live]) <= base
    case Tally(p, total) => p <= |c| && Sum(c[..p]) <= total && Sum(c) <= base
    case Head(total, _) => Sum(c) <= total && Sum(c) <= base
    case Visit(p, total, _) => Sum(c) <= total < max && Sum(c) <= base
    case GrowCall(p, before, total, _) => p < |c| && c[p] <= before && Sum(c[p := before]) <= total < max
    case GrowIn(p, before, total, _) => p < |c| && c[p] <= before + 1 && Sum(c[p := before]) <= total < max
  }

  lemma BudgetBounds(c: seq<nat>, pc: Pc, max: nat, base: nat)
    requires Budget(c, pc, max, base) && !pc.Booting? && max <= base
    ensures Sum(c) <= base
  {
    match pc
    case MaintCall(p, live, _) => SumSet(c, p, live);
    case MaintIn(p, live) => SumSet(c, p, live);
    case GrowCall(p, before, _, _) => SumSet(c, p, before);
    case GrowIn(p, before, _, _) => SumSet(c, p, before);
    case _ =>
  }

  /** One pool's count falling, or staying within the cap of the Ensure it is inside, keeps
      every promise. */
  lemma BudgetFalls(c: seq<nat>, k: nat, v: nat, pc: Pc, max: nat, base: nat)
    requires Budget(c, pc, max, base) && k < |c|
    requires if Inside(pc, k) then v <= Cap(pc) else v <= c[k]
    ensures Budget(c[k := v], pc, max, base)
  {
    SumSet(c, k, v);
    match pc
    case MaintCall(p, live, _) => FallsBeside(c, k, v, p, live);
    case MaintIn(p, live) => FallsBeside(c, k, v, p, live);
    case GrowCall(p, before, _, _) => FallsBeside(c, k, v, p, before);
    case GrowIn(p, before, _, _) => FallsBeside(c, k, v, p, before);
    case Tally(p, _) => SumMonotone(c[..p], c[k := v][..p]);
    case _ =>
  }

  lemma FallsBeside(c: seq<nat>, k: nat, v: nat, p: nat, w: nat)
    requires k < |c| && p < |c| && (k != p ==> v <= c[k])
    ensures Sum(c[k := v][p := w]) <= Sum(c[p := w])
  {
    SumMonotone(c[p := w], c[k := v][p := w]);
  }

  // ------------------------------------------------------------------ the invariant

  ghost predicate TokenOk(s: Sys, pc: Pc, k: nat) {
    if Inside(pc, k) then Within(s, Cap(pc))
    else if pc.Shutting? then Coasts(s.ops)
    else s.ops.Free?
  }

  ghost predicate PoolsOk(h: Host) {
    forall k | 0 <= k < |h.pools| ::
      Inv(h.pools[k]) && (!h.pc.Booting? ==> h.pools[k].boot.Done?) && TokenOk(h.pools[k], h.pc, k)
  }

  ghost predicate HostInv(h: Host) {
    && Shapes(h) && PoolsOk(h)
    && Budget(Counts(h.pools), h.pc, h.max, Max(h.max, h.start))
    && (!h.pc.Booting? ==> h.start <= Max(h.max, h.adopted))
  }

  lemma CountIsActive(s: Sys)
    requires s.ops.Free?
    ensures LiveCount(s.tab) == Count(s)
  {
    CountIsLive(s, |s.tab.recs|);
  }

  lemma InvShape(s: Sys)
    requires Inv(s)
    ensures Shape(s)
  {}

  lemma PoolStepKeeps(h: Host, k: nat, act: Act)
    requires HostInv(h) && HostEnabled(h, PoolStep(k, act))
    ensures HostInv(ApplyHost(h, PoolStep(k, act)))
  {
    hide Inv, Budget, Within, Enabled, Shape, Apply;
    var s := h.pools[k];
    assert Inv(s) && TokenOk(s, h.pc, k);
    KeepStep(s, act);
    var t := Apply(s, act);
    InvShape(t);
    var g := ApplyHost(h, PoolStep(k, act));
    if h.pc.Booting? {
      BootingKeepsFree(s, act);
      BootingBudget(g);
    } else {
      PoolStepBounded(s, act, h.pc, k);
      BudgetFalls(Counts(h.pools), k, Count(t), h.pc, h.max, Max(h.max, h.start));
      assert Counts(g.pools) == Counts(h.pools)[k := Count(t)];
    }
  }

  lemma BootingBudget(h: Host)
    requires h.pc.Booting?
    ensures Budget(Counts(h.pools), h.pc, h.max, Max(h.max, h.start))
  {}

  lemma BootingKeepsFree(s: Sys, act: Act)
    requires Shape(s) && s.ops.Free? && Enabled(s, act) && !TakesToken(act)
    ensures Apply(s, act).ops.Free?
  {}

  lemma PoolStepBounded(s: Sys, act: Act, pc: Pc, k: nat)
    requires Inv(s) && s.boot.Done? && TokenOk(s, pc, k) && Enabled(s, act) && !TakesToken(act)
    ensures Apply(s, act).boot.Done? && TokenOk(Apply(s, act), pc, k)
    ensures if Inside(pc, k) then Count(Apply(s, act)) <= Cap(pc) else Count(Apply(s, act)) <= Count(s)
  {
    hide Inv, Enabled, Count;
    StepStaysWithin(s, act, if Inside(pc, k) then Cap(pc) else Count(s));
  }

  /** Taking the token changes no count. */
  lemma AcquireKeeps(s: Sys, desired: int, shutdown: bool)
    requires Inv(s) && StartEnabled(s, Acquire(desired, shutdown))
    ensures Inv(ApplyStart(s, Acquire(desired, shutdown)))
    ensures Count(ApplyStart(s, Acquire(desired, shutdown))) == Count(s)
  {
    InvShape(s);
    hide Inv;
    var t := ApplyStart(s, Acquire(desired, shutdown));
    assert Enabled(s, OfStart(Acquire(desired, shutdown)));
    KeepStep(s, OfStart(Acquire(desired, shutdown)));
    AcquireCounts(s, desired, shutdown);
    SameCountIn(s, t, |s.tab.recs|);
  }

  lemma AcquireCounts(s: Sys, desired: int, shutdown: bool)
    requires Shape(s) && StartEnabled(s, Acquire(desired, shutdown))
    ensures forall i | 0 <= i < |s.tab.recs| :: Counted(ApplyStart(s, Acquire(desired, shutdown)), i) <==> Counted(s, i)
  {}

  lemma EnsureTakeKeeps(h: Host, a: HostAct)
    requires HostInv(h) && (a.MaintTake? || a.GrowTake? || a.ShutdownTake?) && HostEnabled(h, a)
    ensures HostInv(ApplyHost(h, a))
  {
    hide Inv, Count, Shape;
    var g := ApplyHost(h, a);
    var k := if a.ShutdownTake? then a.k else h.pc.p;
    var desired := if a.MaintTake? then Min(h.pc.live, h.pc.desired) else if a.GrowTake? then h.pc.before + 1 else 0;
    AcquireKeeps(h.pools[k], desired, a.ShutdownTake?);
    InvShape(g.pools[k]);
    assert Counts(g.pools) == Counts(h.pools);
  }

  /** The moves keep every promise when the read of Active is the pool's count. */
  lemma BudgetMoves(c: seq<nat>, pc: Pc, a: MoveAct, live: nat, cursor: nat, max: nat, base: nat)
    requires Budget(c, pc, max, base) && Sum(c) <= base && |c| > 0
    requires MovesFrom(pc, a) && (OnPool(pc) ==> pc.p < |c|)
    requires a.ReadLive? || a.CountPool? || a.VisitGrow? || a.ReadAfter? ==> live == c[pc.p]
    requires a.LoopVisit? ==> pc.total < max
    ensures Budget(c, NextPc(pc, a, live, |c|, cursor), max, base)
  {
    match a
    case ReadLive(_) => assert c[pc.p := live] == c;
    case VisitGrow(_) => assert c[pc.p := live] == c;
    case ReadAfter => SumSet(c, pc.p, pc.before);
    case CountPool =>
      assert c[..pc.p + 1][..pc.p] == c[..pc.p];
      assert c[..|c|] == c;
    case _ =>
  }

  lemma MoveKeeps(h: Host, a: MoveAct)
    requires HostInv(h) && MoveEnabled(h, a)
    ensures HostInv(ApplyMove(h, a))
  {
    hide Inv, Count, LiveCount, Within, Shape, Budget, NextPc;
    var c := Counts(h.pools);
    var base := Max(h.max, h.start);
    BudgetBounds(c, h.pc, h.max, base);
    if OnPool(h.pc) {
      assert TokenOk(h.pools[h.pc.p], h.pc, h.pc.p);
      CountIsActive(h.pools[h.pc.p]);
    }
    BudgetMoves(c, h.pc, a, LiveOf(h), h.cursor, h.max, base);
    MoveShape(h.pc, a, LiveOf(h), |h.pools|, h.cursor);
  }

  lemma MoveShape(pc: Pc, a: MoveAct, live: nat, n: nat, cursor: nat)
    requires MovesFrom(pc, a) && n > 0
    ensures var q := NextPc(pc, a, live, n, cursor);
      !q.Booting? && !q.Shutting? && !q.MaintIn? && !q.GrowIn? && !pc.Booting? && !pc.Shutting?
  {}

  lemma PassKeeps(h: Host, a: HostAct)
    requires HostInv(h) && HostEnabled(h, a) && (a.AdoptionOver? || a.PassStart? || a.BeginShutdown?)
    ensures HostInv(ApplyHost(h, a))
  {
    hide Inv, Count, LiveCount, Within, Shape;
  }

  lemma HostStepKeeps(h: Host, a: HostAct)
    requires HostInv(h) && HostEnabled(h, a)
    ensures HostInv(ApplyHost(h, a))
  {
    hide Shape, PoolsOk, Budget, MoveEnabled, StartEnabled, Enabled;
    match a
    case PoolStep(k, act) => PoolStepKeeps(h, k, act);
    case MaintTake => EnsureTakeKeeps(h, a);
    case GrowTake => EnsureTakeKeeps(h, a);
    case ShutdownTake(_) => EnsureTakeKeeps(h, a);
    case AdoptionOver => PassKeeps(h, a);
    case PassStart => PassKeeps(h, a);
    case BeginShutdown => PassKeeps(h, a);
    case Move(m) => MoveKeeps(h, m);
  }

  // ------------------------------------------------------------------ what runs is counted

  lemma {:induction false} LiveIsCounted(s: Sys, n: nat)
    requires n <= |s.tab.recs|
    ensures LiveIn(s.tab, n) <= CountIn(s, n)
  {
    if n > 0 {
      LiveIsCounted(s, n - 1);
    }
  }

  lemma LiveBelowCount(s: Sys)
    ensures LiveCount(s.tab) <= Count(s)
  {
    LiveIsCounted(s, |s.tab.recs|);
  }

  lemma RunningCounts(l: Local)
    requires Good(l) && l.runs
    ensures l.current && !l.rec.cleanupPending
    ensures l.rec.state.Live() || (l.rec.state.Stopping? && (l.role.Cand? || l.role.CandStopped?))
  {}

  ghost function CountedIDs(s: Sys, n: nat): set<ID>
    requires Wf(s.tab)
  {
    set id | id in s.tab.slots && s.tab.slots[id] < n && Counted(s, s.tab.slots[id])
  }

  lemma {:induction false} CountedIDsBound(s: Sys, n: nat)
    requires Wf(s.tab) && n <= |s.tab.recs|
    ensures |CountedIDs(s, n)| <= CountIn(s, n)
  {
    if n == 0 {
      assert CountedIDs(s, 0) == {};
    } else {
      CountedIDsBound(s, n - 1);
      var id := s.tab.recs[n - 1].id;
      if Counted(s, n - 1) {
        assert CountedIDs(s, n) == CountedIDs(s, n - 1) + {id};
      } else {
        assert CountedIDs(s, n) == CountedIDs(s, n - 1);
      }
    }
  }

  /** Units that may be running never outnumber the slots that count. */
  lemma RunningAtMostCount(s: Sys)
    requires Inv(s) && s.boot.Done?
    ensures |s.mayRun| <= Count(s) && LiveCount(s.tab) <= Count(s)
  {
    LiveIsCounted(s, |s.tab.recs|);
    forall id | id in s.mayRun ensures id in CountedIDs(s, |s.tab.recs|) {
      RunningCounts(LocalOf(s, s.tab.slots[id]));
    }
    CountedIDsBound(s, |s.tab.recs|);
    SubsetSize(s.mayRun, CountedIDs(s, |s.tab.recs|));
  }

  // ------------------------------------------------------------------ the ceiling

  ghost predicate HostReachable(h: Host) {
    exists h0, acts :: HostInit(h0) && HostRun(h0, acts, h)
  }

  lemma HostBoot(h: Host)
    requires HostInit(h)
    ensures HostInv(h)
  {
    forall k | 0 <= k < |h.pools| ensures Inv(h.pools[k]) && Shape(h.pools[k]) && h.pools[k].ops.Free? {
      assert Init(h.pools[k]);
    }
    hide Inv, Init, Shape, Count;
  }

  lemma {:induction false} HostRunKeeps(h: Host, acts: seq<HostAct>, g: Host)
    requires HostInv(h) && HostRun(h, acts, g)
    ensures HostInv(g)
    decreases |acts|
  {
    hide HostInv;
    if acts != [] {
      HostStepKeeps(h, acts[0]);
      HostRunKeeps(ApplyHost(h, acts[0]), acts[1..], g);
    }
  }

  lemma HostReachableInv(h: Host)
    requires HostReachable(h)
    ensures HostInv(h)
  {
    hide HostInv, HostInit;
    var h0, acts :| HostInit(h0) && HostRun(h0, acts, h);
    HostBoot(h0);
    HostRunKeeps(h0, acts, h);
  }

  ghost function Lives(pools: seq<Sys>): (c: seq<nat>)
    ensures |c| == |pools| && forall k | 0 <= k < |pools| :: c[k] == LiveCount(pools[k].tab)
  {
    seq(|pools|, k requires 0 <= k < |pools| => LiveCount(pools[k].tab))
  }

  ghost function Running(pools: seq<Sys>): (c: seq<nat>)
    ensures |c| == |pools| && forall k | 0 <= k < |pools| :: c[k] == |pools[k].mayRun|
  {
    seq(|pools|, k requires 0 <= k < |pools| => |pools[k].mayRun|)
  }

  /** Whatever interleaves, live records and units that may be running, over all pools, stay
      within the larger of the configured maximum and the count at the start of the pass; and
      so, over the whole run, within the larger of the maximum and what adoption found. */
  lemma CeilingHolds(h: Host)
    requires HostReachable(h) && !h.pc.Booting?
    ensures Sum(Lives(h.pools)) <= Max(h.max, h.start) && Sum(Running(h.pools)) <= Max(h.max, h.start)
    ensures Sum(Lives(h.pools)) <= Max(h.max, h.adopted) && Sum(Running(h.pools)) <= Max(h.max, h.adopted)
  {
    hide Budget, Inv, Shape, Count, LiveCount, TokenOk;
    HostReachableInv(h);
    BudgetBounds(Counts(h.pools), h.pc, h.max, Max(h.max, h.start));
    forall k | 0 <= k < |h.pools|
      ensures |h.pools[k].mayRun| <= Count(h.pools[k]) && LiveCount(h.pools[k].tab) <= Count(h.pools[k])
    {
      RunningAtMostCount(h.pools[k]);
    }
    SumMonotone(Counts(h.pools), Lives(h.pools));
    SumMonotone(Counts(h.pools), Running(h.pools));
  }

  /** The loop variable `total` never falls below the number of live records, and before each
      Ensure of the allocation loop it is below the maximum. */
  lemma TotalIsUpperBound(h: Host)
    requires HostReachable(h) && (h.pc.Head? || h.pc.Visit? || h.pc.GrowCall?)
    ensures Sum(Lives(h.pools)) <= h.pc.total
    ensures h.pc.Visit? || h.pc.GrowCall? ==> h.pc.total < h.max
  {
    hide Inv, Shape, Count, LiveCount, TokenOk;
    HostReachableInv(h);
    forall k | 0 <= k < |h.pools| ensures LiveCount(h.pools[k].tab) <= Count(h.pools[k]) {
      RunningAtMostCount(h.pools[k]);
    }
    SumMonotone(Counts(h.pools), Lives(h.pools));
    if h.pc.GrowCall? {
      SumSet(Counts(h.pools), h.pc.p, h.pc.before);
    }
  }

  /** With the pass over and every table quiet, a record that counts is a live one: the bound
      is about what Active reports. */
  lemma RestingCountsLive(h: Host)
    requires HostReachable(h) && h.pc.Resting?
    ensures Lives(h.pools) == Counts(h.pools)
  {
    hide Inv, Shape, Count, LiveCount, Budget;
    HostReachableInv(h);
    forall k | 0 <= k < |h.pools| ensures LiveCount(h.pools[k].tab) == Count(h.pools[k]) {
      assert TokenOk(h.pools[k], h.pc, k);
      CountIsActive(h.pools[k]);
    }
  }
}
