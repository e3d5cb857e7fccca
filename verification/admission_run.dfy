/** The admission gate at work: the scheduler of HostCeiling, with the gate's reads of each table
    as steps of their own, so that claims and exits fall between them. History is fixed. */
module AdmissionRun {
  import opened Basics
  import opened SlotModel
  import opened SlotProtocol
  import opened SlotInvariant
  import opened SlotCount
  import opened HostCeiling
  import opened Sums
  import opened AdmissionGate

  /** Where the gate of the pool being grown stands: it takes a snapshot of each table in turn,
      estimates the candidate, decides, and a slot of an admitted candidate is then reserved. */
  datatype GatePc =
    | Closed
    | Reading(q: nat, read: seq<SlotView>)
    | Admitted(candidate: Estimate)
    | Refused

  /** base is a ghost: the larger of the CPU limit and what adoption found charged. */
  datatype Gated = Gated(host: Host, gate: GatePc, hist: Hist, limits: Limits, base: real)

  datatype GatedAct =
    | HostStep(act: HostAct)
    | GateOpen
    | GateRead
    | GateDecide(candidate: Estimate, available: Option<nat>)

  // ------------------------------------------------------------------ charges

  function Charge(hist: Hist, k: nat, r: Rec): real {
    if r.state.Busy? then hist.cores(k, r.work.workflowRef) else r.reservedCores
  }

  ghost function ChargeIn(hist: Hist, k: nat, s: Sys, n: nat): real
    requires n <= |s.tab.recs|
  {
    if n == 0 then 0.0
    else ChargeIn(hist, k, s, n - 1) + if Counted(s, n - 1) then Charge(hist, k, s.tab.recs[n - 1]) else 0.0
  }

  ghost function PoolCharge(hist: Hist, k: nat, s: Sys): real {
    ChargeIn(hist, k, s, |s.tab.recs|)
  }

  ghost function ChargeOf(hist: Hist, pools: seq<Sys>, n: nat): real
    requires n <= |pools|
  {
    if n == 0 then 0.0 else ChargeOf(hist, pools, n - 1) + PoolCharge(hist, n - 1, pools[n - 1])
  }

  /** What every slot that counts is charged for, over the whole host. */
  ghost function HostCharge(g: Gated): real {
    ChargeOf(g.hist, g.host.pools, |g.host.pools|)
  }

  ghost function CountOf(pools: seq<Sys>, n: nat): nat
    requires n <= |pools|
  {
    if n == 0 then 0 else CountOf(pools, n - 1) + Count(pools[n - 1])
  }

  /** No record was reserved for less than nothing. */
  ghost predicate Solvent(s: Sys) {
    forall i | 0 <= i < |s.tab.recs| :: s.tab.recs[i].reservedCores >= 0.0
  }

  /** A record nobody has claimed knows no ref. */
  ghost predicate Unclaimed(s: Sys) {
    forall i | 0 <= i < |s.tab.recs| && !s.tab.recs[i].claimed :: s.tab.recs[i].work.workflowRef == ""
  }

  function ViewOf(k: nat, r: Rec): SlotView {
    SlotView(k, r.state, r.work.workflowRef, r.reservedCores, r.reservedMem, r.work.lastUsage.currentMem)
  }

  /** Active: the live records of a table. */
  ghost function Snapshot(s: Sys, k: nat, n: nat): seq<SlotView>
    requires n <= |s.tab.recs|
  {
    if n == 0 then [] else Snapshot(s, k, n - 1) + SnapshotOf(s, k, n - 1)
  }

  ghost function SnapshotOf(s: Sys, k: nat, i: nat): seq<SlotView>
    requires i < |s.tab.recs|
  {
    if Current(s.tab, i) && s.tab.recs[i].state.Live() then [ViewOf(k, s.tab.recs[i])] else []
  }

  lemma RecordCharges(hist: Hist, s: Sys, k: nat, i: nat, own: nat, e: Estimate)
    requires i < |s.tab.recs| && !InStops(s.ops)
    ensures |SnapshotOf(s, k, i)| == if Counted(s, i) then 1 else 0
    ensures SumCores(hist, SnapshotOf(s, k, i), own, e) >= if Counted(s, i) then Charge(hist, k, s.tab.recs[i]) else 0.0
  {
    if Counted(s, i) {
      assert SnapshotOf(s, k, i)[..0] == [];
    }
  }

  /** With no stop under way, a snapshot counts every counted record and is charged for at
      least as much. */
  lemma {:induction false} SnapshotCharges(hist: Hist, s: Sys, k: nat, n: nat, own: nat, e: Estimate)
    requires n <= |s.tab.recs| && !InStops(s.ops)
    ensures |Snapshot(s, k, n)| == CountIn(s, n)
    ensures SumCores(hist, Snapshot(s, k, n), own, e) >= ChargeIn(hist, k, s, n)
    decreases n
  {
    hide Counted, SnapshotOf, Charge, CoresOf;
    if n > 0 {
      SnapshotCharges(hist, s, k, n - 1, own, e);
      SumCoresConcat(hist, Snapshot(s, k, n - 1), SnapshotOf(s, k, n - 1), own, e);
      RecordCharges(hist, s, k, n - 1, own, e);
    }
  }

  // ------------------------------------------------------------------ how charges move

  /** What a claim, or an uncertain launch, makes its record be charged for is no more than
      what it is charged for already. */
  ghost predicate Affordable(hist: Hist, k: nat, s: Sys, act: Act)
    requires Shape(s) && Enabled(s, act)
  {
    match act
    case OfLaunch(StartUncertain) =>
      Charge(hist, k, LaunchUncertain(s.tab, s.ops.inc).recs[s.ops.inc]) <= Charge(hist, k, s.tab.recs[s.ops.inc])
    case OfOuter(ClaimJob(i, job, now)) =>
      Charge(hist, k, ClaimRec(s.tab.recs[i], job, now)) <= Charge(hist, k, s.tab.recs[i])
    case _ => true
  }

  lemma ChargeNeverNegative(hist: Hist, k: nat, s: Sys, i: nat)
    requires hist.Sane() && Solvent(s) && Counted(s, i)
    ensures Charge(hist, k, s.tab.recs[i]) >= 0.0
  {}

  lemma {:induction false} ChargesFall(hist: Hist, k: nat, s: Sys, t: Sys, x: int, n: nat)
    requires hist.Sane() && Solvent(s) && Shrinks(s, t, x) && n <= |s.tab.recs|
    requires 0 <= x < |s.tab.recs| && Counted(t, x) ==> Charge(hist, k, t.tab.recs[x]) <= Charge(hist, k, s.tab.recs[x])
    ensures ChargeIn(hist, k, t, n) <= ChargeIn(hist, k, s, n)
    decreases n
  {
    hide Counted, Charge, Solvent;
    if n > 0 {
      ChargesFall(hist, k, s, t, x, n - 1);
      if Counted(t, n - 1) && n - 1 != x {
        SameCharge(hist, k, s, t, x, n - 1);
      } else if Counted(s, n - 1) && !Counted(t, n - 1) {
        ChargeNeverNegative(hist, k, s, n - 1);
      }
    }
  }

  lemma SameCharge(hist: Hist, k: nat, s: Sys, t: Sys, x: int, i: nat)
    requires Shrinks(s, t, x) && i < |s.tab.recs| && Counted(t, i) && i != x
    ensures Counted(s, i) && Charge(hist, k, t.tab.recs[i]) == Charge(hist, k, s.tab.recs[i])
  {
    hide Counted;
  }

  // ------------------------------------------------------------------ one table's steps

  ghost predicate IsReserve(act: Act) {
    act.OfStart? && act.start.ReserveSlot?
  }

  /** No reservation changes, nor the ref of a record unless it is claimed; a new slot has the
      reservation it was made with, an adopted one none, and neither a ref. */
  ghost predicate Reservations(s: Sys, act: Act, t: Sys) {
    && |s.tab.recs| <= |t.tab.recs|
    && (forall i | 0 <= i < |s.tab.recs| :: SameReservation(s.tab.recs[i], t.tab.recs[i]))
    && (forall i | |s.tab.recs| <= i < |t.tab.recs| :: NewReservation(act, t.tab.recs[i]))
  }

  ghost predicate SameReservation(r: Rec, u: Rec) {
    && u.reservedCores == r.reservedCores && u.reservedMem == r.reservedMem
    && (!u.claimed ==> !r.claimed && u.work.workflowRef == r.work.workflowRef)
  }

  ghost predicate NewReservation(act: Act, r: Rec) {
    && r.work == NO_WORK
    && if IsReserve(act) then r.reservedCores == act.start.cores && r.reservedMem == act.start.mem
       else r.reservedCores == 0.0
  }

  lemma StepReservations(s: Sys, act: Act)
    requires Shape(s) && Enabled(s, act)
    ensures Reservations(s, act, Apply(s, act))
  {
    hide Shape, Reservations;
    match act
    case OfBoot(a) => BootReservations(s, a);
    case OfStart(a) => StartReservations(s, a);
    case OfLaunch(a) => LaunchReservations(s, a);
    case OfStop(a) => StopReservations(s, a);
    case OfWatch(a) => WatchReservations(s, a);
    case OfClean(a) => CleanReservations(s, a);
    case OfOuter(a) => OuterReservations(s, a);
  }

  lemma BootReservations(s: Sys, a: BootAct)
    requires Shape(s) && BootEnabled(s, a)
    ensures Reservations(s, OfBoot(a), ApplyBoot(s, a))
  {
    hide Wf, WorkerShape;
  }

  lemma StartReservations(s: Sys, a: StartAct)
    requires Shape(s) && StartEnabled(s, a)
    ensures Reservations(s, OfStart(a), ApplyStart(s, a))
  {
    hide LiveCount, Wf, WorkerShape, LowestFree;
  }

  lemma LaunchReservations(s: Sys, a: LaunchAct)
    requires Shape(s) && LaunchEnabled(s, a)
    ensures Reservations(s, OfLaunch(a), ApplyLaunch(s, a))
  {
    hide Wf, WorkerShape;
  }

  lemma StopReservations(s: Sys, a: StopAct)
    requires Shape(s) && StopEnabled(s, a)
    ensures Reservations(s, OfStop(a), ApplyStop(s, a))
  {
    hide LiveCount, Picks, Wf, WorkerShape, CompletionOf, AcquireFailed, Completes;
  }

  lemma WatchReservations(s: Sys, a: WatchAct)
    requires Shape(s) && WatchEnabled(s, a)
    ensures Reservations(s, OfWatch(a), ApplyWatch(s, a))
  {
    hide Wf, WorkerShape, CompletionOf, AcquireFailed, Completes;
  }

  lemma CleanReservations(s: Sys, a: CleanAct)
    requires Shape(s) && CleanEnabled(s, a)
    ensures Reservations(s, OfClean(a), ApplyClean(s, a))
  {
    hide Wf;
  }

  lemma OuterReservations(s: Sys, a: OuterAct)
    requires Shape(s) && OuterEnabled(s, a)
    ensures Reservations(s, OfOuter(a), ApplyOuter(s, a))
  {
    hide Wf, WorkerShape;
  }

  lemma StepSolvent(s: Sys, act: Act)
    requires Shape(s) && Enabled(s, act) && Solvent(s) && Unclaimed(s) && (IsReserve(act) ==> act.start.cores >= 0.0)
    ensures Solvent(Apply(s, act)) && Unclaimed(Apply(s, act))
  {
    hide Shape, Enabled, Apply;
    StepReservations(s, act);
  }

  lemma StepCharges(hist: Hist, k: nat, s: Sys, act: Act)
    requires hist.Sane() && Inv(s) && s.boot.Done? && Solvent(s) && Enabled(s, act) && !IsReserve(act)
    requires Affordable(hist, k, s, act)
    ensures PoolCharge(hist, k, Apply(s, act)) <= PoolCharge(hist, k, s) && Count(Apply(s, act)) <= Count(s)
  {
    StepShrinks(s, act);
    RechargedFalls(hist, k, s, act);
    hide Enabled, Apply, Shrinks, Solvent, Affordable, Inv;
    ShrinksIn(s, Apply(s, act), Recharged(s, act), |s.tab.recs|);
    ChargesFall(hist, k, s, Apply(s, act), Recharged(s, act), |s.tab.recs|);
    assert |Apply(s, act).tab.recs| == |s.tab.recs| by { ShrinksLength(s, Apply(s, act), Recharged(s, act)); }
  }

  lemma ShrinksLength(s: Sys, t: Sys, x: int)
    requires Shrinks(s, t, x)
    ensures |t.tab.recs| == |s.tab.recs|
  {}

  lemma RechargedFalls(hist: Hist, k: nat, s: Sys, act: Act)
    requires Shape(s) && Enabled(s, act) && Affordable(hist, k, s, act)
    ensures var x := Recharged(s, act);
      0 <= x < |s.tab.recs| ==>
        && x < |Apply(s, act).tab.recs|
        && Charge(hist, k, Apply(s, act).tab.recs[x]) <= Charge(hist, k, s.tab.recs[x])
  {}

  lemma ReserveCharges(hist: Hist, k: nat, s: Sys, id: ID, now: int, cores: real, mem: nat)
    requires Inv(s) && StartEnabled(s, ReserveSlot(id, now, cores, mem))
    ensures var t := ApplyStart(s, ReserveSlot(id, now, cores, mem));
      PoolCharge(hist, k, t) == PoolCharge(hist, k, s) + cores && Count(t) == Count(s) + 1
  {
    var t := ApplyStart(s, ReserveSlot(id, now, cores, mem));
    StepReserves(s, id, now, cores, mem);
    hide Inv, StartEnabled, ApplyStart, Counted;
    SameCountIn(s, t, |s.tab.recs|);
    SameChargeIn(hist, k, s, t, |s.tab.recs|);
  }

  lemma {:induction false} SameChargeIn(hist: Hist, k: nat, s: Sys, t: Sys, n: nat)
    requires n <= |s.tab.recs| && n <= |t.tab.recs|
    requires forall i | 0 <= i < n :: t.tab.recs[i] == s.tab.recs[i] && (Counted(t, i) <==> Counted(s, i))
    ensures ChargeIn(hist, k, t, n) == ChargeIn(hist, k, s, n)
  {
    if n > 0 {
      SameChargeIn(hist, k, s, t, n - 1);
    }
  }

  ghost predicate LeavesGate(act: Act) {
    act.OfStart? && (act.start.ReserveSlot? || act.start.GateRefuse?)
  }

  lemma GateStays(s: Sys, act: Act)
    requires Shape(s) && Enabled(s, act) && s.ops.Gate? && s.boot.Done? && !LeavesGate(act)
    ensures Apply(s, act).ops == s.ops
  {
    hide LiveCount, Picks, Wf, WorkerShape;
  }

  // ------------------------------------------------------------------ the host

  ghost predicate Falls(hist: Hist, pools: seq<Sys>, later: seq<Sys>) {
    && |later| == |pools|
    && forall k | 0 <= k < |pools| ::
         PoolCharge(hist, k, later[k]) <= PoolCharge(hist, k, pools[k]) && Count(later[k]) <= Count(pools[k])
  }

  lemma {:induction false} FallsSum(hist: Hist, pools: seq<Sys>, later: seq<Sys>, n: nat)
    requires Falls(hist, pools, later) && n <= |pools|
    ensures ChargeOf(hist, later, n) <= ChargeOf(hist, pools, n) && CountOf(later, n) <= CountOf(pools, n)
  {
    hide Count, PoolCharge;
    if n > 0 {
      FallsSum(hist, pools, later, n - 1);
    }
  }

  lemma {:induction false} RaiseSum(hist: Hist, pools: seq<Sys>, p: nat, t: Sys, cores: real, n: nat)
    requires p < |pools| && n <= |pools|
    requires PoolCharge(hist, p, t) == PoolCharge(hist, p, pools[p]) + cores && Count(t) == Count(pools[p]) + 1
    ensures ChargeOf(hist, pools[p := t], n) == ChargeOf(hist, pools, n) + if p < n then cores else 0.0
    ensures CountOf(pools[p := t], n) == CountOf(pools, n) + if p < n then 1 else 0
  {
    hide Count, PoolCharge;
    if n > 0 {
      RaiseSum(hist, pools, p, t, cores, n - 1);
    }
  }

  // ------------------------------------------------------------------ the gated system

  /** The pool whose Ensure is in progress stands at its gate. */
  predicate InGate(h: Host) {
    (h.pc.MaintIn? || h.pc.GrowIn?) && h.pc.p < |h.pools| && h.pools[h.pc.p].ops.Gate?
  }

  ghost predicate GatedEnabled(g: Gated, a: GatedAct)
    requires Shapes(g.host)
  {
    match a
    case HostStep(act) =>
      && HostEnabled(g.host, act)
      && (act.PoolStep? && IsReserve(act.act) ==>
            g.gate.Admitted? && 0.0 <= act.act.start.cores <= g.gate.candidate.cores)
    case GateOpen => g.gate.Closed? && InGate(g.host)
    case GateRead => g.gate.Reading? && g.gate.q < |g.host.pools|
    case GateDecide(candidate, _) =>
      g.gate.Reading? && InGate(g.host) && g.gate.q == |g.host.pools| && candidate.cores >= 0.0
  }

  ghost function ApplyGated(g: Gated, a: GatedAct): Gated
    requires Shapes(g.host) && GatedEnabled(g, a)
  {
    match a
    case HostStep(act) =>
      g.(host := ApplyHost(g.host, act),
         gate := if act.PoolStep? && LeavesGate(act.act) then Closed else g.gate,
         base := if act.AdoptionOver? then RMax(g.limits.Cpu(), HostCharge(g)) else g.base)
    case GateOpen => g.(gate := Reading(0, []))
    case GateRead =>
      var s := g.host.pools[g.gate.q];
      g.(gate := Reading(g.gate.q + 1, g.gate.read + Snapshot(s, g.gate.q, |s.tab.recs|)))
    case GateDecide(candidate, available) =>
      g.(gate := if Admits(Some(g.hist), g.host.pc.p, g.gate.read, candidate, g.limits, available)
                 then Admitted(candidate) else Refused)
  }

  /** The hypothesis on claims and uncertain launches. */
  ghost predicate Calm(g: Gated, a: GatedAct)
    requires Shapes(g.host) && GatedEnabled(g, a)
  {
    a.HostStep? && a.act.PoolStep? && !g.host.pc.Booting? ==>
        Affordable(g.hist, a.act.k, g.host.pools[a.act.k], a.act.act)
  }

  ghost predicate CalmRun(g: Gated, acts: seq<GatedAct>, f: Gated)
    decreases |acts|
  {
    if acts == [] then g == f
    else
      && Shapes(g.host) && GatedEnabled(g, acts[0]) && Calm(g, acts[0])
      && CalmRun(ApplyGated(g, acts[0]), acts[1..], f)
  }

  ghost predicate GatedInit(g: Gated) {
    HostInit(g.host) && g.gate.Closed? && g.hist.Sane()
  }

  // ------------------------------------------------------------------ the invariant

  ghost predicate GateOk(g: Gated) {
    match g.gate
    case Closed => true
    case Refused => InGate(g.host)
    case Reading(q, read) =>
      && InGate(g.host) && q <= |g.host.pools|
      && (forall e :: ChargeOf(g.hist, g.host.pools, q) <= SumCores(g.hist, read, g.host.pc.p, e))
      && CountOf(g.host.pools, q) <= |read|
    case Admitted(e) =>
      && InGate(g.host) && e.cores >= 0.0
      && (CountOf(g.host.pools, |g.host.pools|) == 0 || e.cores + HostCharge(g) <= g.limits.Cpu())
  }

  /** At most one slot counts, or what is charged fits. */
  ghost predicate Bounded(g: Gated) {
    CountOf(g.host.pools, |g.host.pools|) <= 1 || HostCharge(g) <= g.base
  }

  ghost predicate AllSolvent(h: Host) {
    forall k | 0 <= k < |h.pools| :: Solvent(h.pools[k]) && Unclaimed(h.pools[k])
  }

  ghost predicate GatedInv(g: Gated) {
    && HostInv(g.host) && g.hist.Sane() && AllSolvent(g.host) && GateOk(g)
    && (!g.host.pc.Booting? ==> Bounded(g) && g.limits.Cpu() <= g.base && EmptyBase(g))
  }

  /** A host that adopted nothing is bounded by the CPU limit. */
  ghost predicate EmptyBase(g: Gated) {
    g.host.adopted == 0 ==> g.base == g.limits.Cpu()
  }

  lemma OneFalls(hist: Hist, pools: seq<Sys>, k: nat, act: Act)
    requires hist.Sane() && k < |pools| && Inv(pools[k]) && pools[k].boot.Done? && Solvent(pools[k])
    requires Shape(pools[k]) && Enabled(pools[k], act) && !IsReserve(act) && Affordable(hist, k, pools[k], act)
    ensures Falls(hist, pools, pools[k := Apply(pools[k], act)])
  {
    StepCharges(hist, k, pools[k], act);
    hide Inv, Enabled, Apply, PoolCharge, Count, Affordable, Shape;
  }

  lemma TakeIsStep(s: Sys, desired: int, shutdown: bool)
    requires Shape(s) && StartEnabled(s, Acquire(desired, shutdown))
    ensures var act := OfStart(Acquire(desired, shutdown));
      && Enabled(s, act) && Apply(s, act) == ApplyStart(s, Acquire(desired, shutdown))
      && !IsReserve(act) && !LeavesGate(act)
  {}

  /** Every step of the host but a reservation only lowers what is charged. */
  lemma HostFalls(g: Gated, a: HostAct)
    requires GatedInv(g) && !g.host.pc.Booting? && HostEnabled(g.host, a)
    requires a.PoolStep? ==> !IsReserve(a.act) && Affordable(g.hist, a.k, g.host.pools[a.k], a.act)
    ensures Falls(g.hist, g.host.pools, ApplyHost(g.host, a).pools)
  {
    hide Inv, Shape, Enabled, Apply, StartEnabled, ApplyStart, PoolCharge, Count, Affordable, Budget, GateOk, Bounded,
      TokenOk;
    var h := g.host;
    match a
    case PoolStep(k, act) => OneFalls(g.hist, h.pools, k, act);
    case MaintTake => TakeFalls(g, h.pc.p, Min(h.pc.live, h.pc.desired), false);
    case GrowTake => TakeFalls(g, h.pc.p, h.pc.before + 1, false);
    case ShutdownTake(k) => TakeFalls(g, k, 0, true);
    case _ =>
  }

  lemma TakeFalls(g: Gated, k: nat, desired: int, shutdown: bool)
    requires GatedInv(g) && !g.host.pc.Booting? && k < |g.host.pools|
      && StartEnabled(g.host.pools[k], Acquire(desired, shutdown))
    ensures Falls(g.hist, g.host.pools, g.host.pools[k := ApplyStart(g.host.pools[k], Acquire(desired, shutdown))])
  {
    hide Inv, Shape, Enabled, Apply, StartEnabled, ApplyStart, PoolCharge, Count, Budget, GateOk, Bounded, TokenOk;
    TakeIsStep(g.host.pools[k], desired, shutdown);
    OneFalls(g.hist, g.host.pools, k, OfStart(Acquire(desired, shutdown)));
  }

  lemma HostSolvent(h: Host, a: HostAct)
    requires Shapes(h) && AllSolvent(h) && HostEnabled(h, a)
    requires a.PoolStep? && IsReserve(a.act) ==> a.act.start.cores >= 0.0
    ensures AllSolvent(ApplyHost(h, a))
  {
    hide Shape, Enabled, Apply, StartEnabled, ApplyStart, Solvent, Unclaimed, Count, LiveCount;
    match a
    case PoolStep(k, act) => StepSolvent(h.pools[k], act);
    case MaintTake =>
      TakeIsStep(h.pools[h.pc.p], Min(h.pc.live, h.pc.desired), false);
      StepSolvent(h.pools[h.pc.p], OfStart(Acquire(Min(h.pc.live, h.pc.desired), false)));
    case GrowTake =>
      TakeIsStep(h.pools[h.pc.p], h.pc.before + 1, false);
      StepSolvent(h.pools[h.pc.p], OfStart(Acquire(h.pc.before + 1, false)));
    case ShutdownTake(k) =>
      TakeIsStep(h.pools[k], 0, true);
      StepSolvent(h.pools[k], OfStart(Acquire(0, true)));
    case _ =>
  }

  /** A pool stays at its gate until it reserves a slot or gives up. */
  lemma GateHolds(h: Host, a: HostAct)
    requires HostInv(h) && InGate(h) && HostEnabled(h, a) && !(a.PoolStep? && LeavesGate(a.act))
    ensures InGate(ApplyHost(h, a)) && ApplyHost(h, a).pc == h.pc
  {
    hide Inv, Enabled, Apply, Count, Budget, TokenOk;
    match a
    case PoolStep(k, act) =>
      if k == h.pc.p {
        GateStays(h.pools[k], act);
      }
    case Move(_) =>
    case _ =>
  }

  /** Less charged, with the gate where it was or closed. */
  lemma FallNumbers(g: Gated, f: Gated)
    requires GateOk(g) && (f.gate == Closed || (f.gate == g.gate && InGate(f.host) && f.host.pc == g.host.pc))
    requires f.hist == g.hist && f.limits == g.limits && f.base == g.base
    requires Falls(g.hist, g.host.pools, f.host.pools)
    ensures GateOk(f) && (Bounded(g) ==> Bounded(f))
  {
    hide InGate, PoolCharge, Count, SumCores;
    FallsSum(g.hist, g.host.pools, f.host.pools, |g.host.pools|);
    if g.gate.Reading? && g.gate.q <= |g.host.pools| {
      FallsSum(g.hist, g.host.pools, f.host.pools, g.gate.q);
    }
  }

  /** Everything but the reservation of an admitted candidate. */
  lemma FallKeeps(g: Gated, a: HostAct)
    requires GatedInv(g) && !g.host.pc.Booting? && GatedEnabled(g, HostStep(a)) && Calm(g, HostStep(a))
    requires !(a.PoolStep? && IsReserve(a.act))
    ensures GatedInv(ApplyGated(g, HostStep(a)))
  {
    assert Shapes(g.host);
    if !g.gate.Closed? {
      assert InGate(g.host);
    }
    hide Inv, Shape, Shapes, Count, PoolCharge, Affordable, HostInv, Solvent, InGate, LeavesGate, SumCores,
      HostEnabled, GateOk, Bounded, Falls;
    var f := ApplyGated(g, HostStep(a));
    HostStepKeeps(g.host, a);
    HostSolvent(g.host, a);
    HostFalls(g, a);
    if !f.gate.Closed? {
      GateHolds(g.host, a);
    }
    FallNumbers(g, f);
    NotBootingAgain(g.host, a);
  }

  lemma NotBootingAgain(h: Host, a: HostAct)
    requires Shapes(h) && HostEnabled(h, a) && !h.pc.Booting?
    ensures !ApplyHost(h, a).pc.Booting? && !a.AdoptionOver?
  {}

  /** The reservation of an admitted candidate. */
  lemma ReserveKeeps(g: Gated, k: nat, act: Act)
    requires GatedInv(g) && !g.host.pc.Booting? && GatedEnabled(g, HostStep(PoolStep(k, act))) && IsReserve(act)
    ensures GatedInv(ApplyGated(g, HostStep(PoolStep(k, act))))
  {
    assert Shapes(g.host);
    assert Inv(g.host.pools[k]);
    var a := PoolStep(k, act);
    var f := ApplyGated(g, HostStep(a));
    var b := act.start;
    ReserveCharges(g.hist, k, g.host.pools[k], b.id, b.now, b.cores, b.mem);
    hide Inv, Shape, Count, PoolCharge, HostInv, Solvent, StartEnabled, ApplyStart;
    HostStepKeeps(g.host, a);
    HostSolvent(g.host, a);
    RaiseSum(g.hist, g.host.pools, k, f.host.pools[k], b.cores, |g.host.pools|);
  }

  /** While a pool stands at its gate no table has a stop under way. */
  lemma NoStopsAtGate(h: Host, q: nat)
    requires HostInv(h) && InGate(h) && q < |h.pools|
    ensures !InStops(h.pools[q].ops)
  {
    hide Inv, Budget, Within;
    assert TokenOk(h.pools[q], h.pc, q);
  }

  lemma GateReadKeeps(g: Gated)
    requires GatedInv(g) && GatedEnabled(g, GateRead)
    ensures GateOk(ApplyGated(g, GateRead))
  {
    hide HostInv, CountIn, ChargeIn, Snapshot, SumCores, CoresOf, Bounded, AllSolvent;
    NoStopsAtGate(g.host, g.gate.q);
    var s := g.host.pools[g.gate.q];
    var more := Snapshot(s, g.gate.q, |s.tab.recs|);
    SnapshotCharges(g.hist, s, g.gate.q, |s.tab.recs|, g.host.pc.p, Estimate(0.0, 0));
    forall e: Estimate
      ensures ChargeOf(g.hist, g.host.pools, g.gate.q + 1) <= SumCores(g.hist, g.gate.read + more, g.host.pc.p, e)
    {
      assert ChargeOf(g.hist, g.host.pools, g.gate.q) <= SumCores(g.hist, g.gate.read, g.host.pc.p, e);
      SnapshotCharges(g.hist, s, g.gate.q, |s.tab.recs|, g.host.pc.p, e);
      SumCoresConcat(g.hist, g.gate.read, more, g.host.pc.p, e);
    }
  }

  /** The gate's own steps. */
  lemma GateKeeps(g: Gated, a: GatedAct)
    requires GatedInv(g) && GatedEnabled(g, a) && !a.HostStep?
    ensures GatedInv(ApplyGated(g, a))
  {
    if a.GateRead? {
      GateReadKeeps(g);
    }
    assert Shapes(g.host);
    hide HostInv, Solvent, Shape, CountIn, ChargeIn, Snapshot, CoresOf, AllSolvent;
  }

  lemma BootKeeps(g: Gated, a: HostAct)
    requires GatedInv(g) && g.host.pc.Booting? && GatedEnabled(g, HostStep(a))
    ensures GatedInv(ApplyGated(g, HostStep(a)))
  {
    assert Shapes(g.host);
    hide Inv, Shape, Count, PoolCharge, HostInv, Solvent, Enabled, Apply;
    HostStepKeeps(g.host, a);
    HostSolvent(g.host, a);
    if a.AdoptionOver? {
      EmptyHostBase(g);
    }
  }

  /** A host where adoption found nothing that counts starts with nothing charged. */
  lemma EmptyHostBase(g: Gated)
    requires Shapes(g.host) && GatedEnabled(g, HostStep(AdoptionOver))
    ensures EmptyBase(ApplyGated(g, HostStep(AdoptionOver)))
  {
    hide HostEnabled, Shapes, ChargeOf;
    if Sum(Counts(g.host.pools)) == 0 {
      assert Counts(g.host.pools)[..|g.host.pools|] == Counts(g.host.pools);
      NothingCounted(g.hist, g.host.pools, |g.host.pools|);
      LimitSane(g.limits);
    }
  }

  lemma LimitSane(limits: Limits)
    ensures limits.Cpu() >= 0.0
  {
    assert limits.numCPU as real * limits.cpuTargetPercent as real >= 0.0;
  }

  lemma {:induction false} NothingCounted(hist: Hist, pools: seq<Sys>, n: nat)
    requires n <= |pools| && Sum(Counts(pools)[..n]) == 0
    ensures ChargeOf(hist, pools, n) == 0.0
  {
    hide Count, PoolCharge;
    if n > 0 {
      var c := Counts(pools)[..n];
      assert c[..n - 1] == Counts(pools)[..n - 1];
      NothingCounted(hist, pools, n - 1);
      NoCharge(hist, n - 1, pools[n - 1]);
    }
  }

  lemma NoCharge(hist: Hist, k: nat, s: Sys)
    requires Count(s) == 0
    ensures PoolCharge(hist, k, s) == 0.0
  {
    NoChargeIn(hist, k, s, |s.tab.recs|);
  }

  lemma {:induction false} NoChargeIn(hist: Hist, k: nat, s: Sys, n: nat)
    requires n <= |s.tab.recs| && CountIn(s, n) == 0
    ensures ChargeIn(hist, k, s, n) == 0.0
  {
    if n > 0 {
      NoChargeIn(hist, k, s, n - 1);
    }
  }

  lemma GatedStepKeeps(g: Gated, a: GatedAct)
    requires GatedInv(g) && Shapes(g.host) && GatedEnabled(g, a) && Calm(g, a)
    ensures GatedInv(ApplyGated(g, a))
  {
    hide GatedInv, GatedEnabled, Calm, Shapes;
    assert !a.HostStep? || a.HostStep?;
    if !a.HostStep? {
      GateKeeps(g, a);
    } else if g.host.pc.Booting? {
      BootKeeps(g, a.act);
    } else if a.act.PoolStep? && IsReserve(a.act.act) {
      ReserveKeeps(g, a.act.k, a.act.act);
    } else {
      FallKeeps(g, a.act);
    }
  }

  lemma {:induction false} CalmRunKeeps(g: Gated, acts: seq<GatedAct>, f: Gated)
    requires GatedInv(g) && CalmRun(g, acts, f)
    ensures GatedInv(f)
    decreases |acts|
  {
    hide GatedInv, GatedEnabled, Calm, Shapes;
    if acts != [] {
      GatedStepKeeps(g, acts[0]);
      CalmRunKeeps(ApplyGated(g, acts[0]), acts[1..], f);
    }
  }

  // ------------------------------------------------------------------ the result

  ghost predicate CalmReachable(g: Gated) {
    exists g0, acts :: GatedInit(g0) && CalmRun(g0, acts, g)
  }

  lemma GatedBoot(g: Gated)
    requires GatedInit(g)
    ensures GatedInv(g)
  {
    HostBoot(g.host);
    forall k | 0 <= k < |g.host.pools| ensures Solvent(g.host.pools[k]) && Unclaimed(g.host.pools[k]) {
      assert Init(g.host.pools[k]);
    }
  }

  lemma CalmReachableInv(g: Gated)
    requires CalmReachable(g)
    ensures GatedInv(g)
  {
    hide GatedInv, GatedInit;
    var g0, acts :| GatedInit(g0) && CalmRun(g0, acts, g);
    GatedBoot(g0);
    CalmRunKeeps(g0, acts, g);
  }

  /** The live slots of the whole host, and the cores they are charged for. */
  ghost function LiveCharge(hist: Hist, k: nat, s: Sys, n: nat): real
    requires n <= |s.tab.recs|
  {
    if n == 0 then 0.0
    else LiveCharge(hist, k, s, n - 1)
         + if Current(s.tab, n - 1) && s.tab.recs[n - 1].state.Live() then Charge(hist, k, s.tab.recs[n - 1]) else 0.0
  }

  ghost function LiveChargeOf(hist: Hist, pools: seq<Sys>, n: nat): real
    requires n <= |pools|
  {
    if n == 0 then 0.0
    else LiveChargeOf(hist, pools, n - 1) + LiveCharge(hist, n - 1, pools[n - 1], |pools[n - 1].tab.recs|)
  }

  lemma {:induction false} LiveChargeBelow(hist: Hist, k: nat, s: Sys, n: nat)
    requires hist.Sane() && Solvent(s) && n <= |s.tab.recs|
    ensures LiveCharge(hist, k, s, n) <= ChargeIn(hist, k, s, n)
  {
    if n > 0 {
      LiveChargeBelow(hist, k, s, n - 1);
    }
  }

  lemma {:induction false} LiveBelow(hist: Hist, pools: seq<Sys>, n: nat)
    requires hist.Sane() && n <= |pools| && forall k | 0 <= k < n :: Solvent(pools[k])
    ensures LiveChargeOf(hist, pools, n) <= ChargeOf(hist, pools, n)
    ensures Sum(Lives(pools)[..n]) <= CountOf(pools, n)
  {
    hide Solvent, Count, LiveCount, ChargeIn, LiveCharge;
    if n > 0 {
      LiveBelow(hist, pools, n - 1);
      var s := pools[n - 1];
      LiveChargeBelow(hist, n - 1, s, |s.tab.recs|);
      LiveBelowCount(s);
      assert Lives(pools)[..n][..n - 1] == Lives(pools)[..n - 1];
    } else {
      assert Lives(pools)[..0] == [];
    }
  }

  lemma BoundedLoad(g: Gated)
    requires GatedInv(g) && !g.host.pc.Booting?
    ensures Sum(Lives(g.host.pools)) <= 1 || LiveChargeOf(g.hist, g.host.pools, |g.host.pools|) <= g.base
  {
    hide HostInv, GateOk;
    LiveBelow(g.hist, g.host.pools, |g.host.pools|);
    assert Lives(g.host.pools)[..|g.host.pools|] == Lives(g.host.pools);
  }

  /** With gated starts, and claims and uncertain launches that cost their slot no more than it
      is charged for already: at most one slot is live, or the live slots' charges fit the larger
      of the CPU limit and what adoption found. */
  lemma AdmittedLoadFits(g: Gated)
    requires CalmReachable(g) && !g.host.pc.Booting?
    ensures Sum(Lives(g.host.pools)) <= 1 || LiveChargeOf(g.hist, g.host.pools, |g.host.pools|) <= g.base
  {
    hide GatedInv;
    CalmReachableInv(g);
    BoundedLoad(g);
  }

  /** On a host where adoption found nothing that counts, orphaned directories apart: at most one
      slot is live, or the live slots' charges fit the CPU limit. */
  lemma EmptyHostLoadFits(g: Gated)
    requires CalmReachable(g) && !g.host.pc.Booting? && g.host.adopted == 0
    ensures Sum(Lives(g.host.pools)) <= 1 || LiveChargeOf(g.hist, g.host.pools, |g.host.pools|) <= g.limits.Cpu()
  {
    hide HostInv, GateOk, Bounded, AllSolvent;
    CalmReachableInv(g);
    AdmittedLoadFits(g);
  }

  /** What the hypothesis asks of a claim: for a slot nobody has claimed and whose launch was
      certain, a prediction within its reservation; for a slot already busy, one within what an
      unknown job is charged for. */
  lemma ClaimIsAffordable(hist: Hist, k: nat, s: Sys, i: nat, job: Job, now: int)
    requires Shape(s) && Enabled(s, OfOuter(ClaimJob(i, job, now)))
    requires s.tab.recs[i].state.Starting? || s.tab.recs[i].state.Idle?
      || (s.tab.recs[i].state.Busy? && !s.tab.recs[i].claimed)
    ensures Affordable(hist, k, s, OfOuter(ClaimJob(i, job, now))) <==>
      hist.cores(k, job.workflowRef) <=
        if s.tab.recs[i].state.Busy? then hist.cores(k, s.tab.recs[i].work.workflowRef) else s.tab.recs[i].reservedCores
  {}
}
