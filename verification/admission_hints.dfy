/** The scheduler with the hint queues in it: a new slot is reserved at the estimate of the refs its
    pool has queued at that moment, and what that says about the claims to come. */
module AdmissionHints {
  import opened SlotModel
  import opened SlotProtocol
  import opened SlotCount
  import opened HostCeiling
  import opened Sums
  import opened AdmissionGate
  import opened AdmissionRun

  /** queued are the refs each pool has hints for, and made those each reserved incarnation was
      estimated by. */
  datatype Hinted = Hinted(host: Host, hist: Hist, queued: seq<set<string>>, made: seq<map<nat, set<string>>>)

  datatype HintedAct =
    | Do(act: HostAct)
    | Requeue(k: nat, refs: set<string>) // hints are noted, expire or are used up

  ghost predicate HintedShape(h: Hinted) {
    Shapes(h.host) && |h.queued| == |h.made| == |h.host.pools|
  }

  predicate Reserves(a: HostAct) {
    a.PoolStep? && a.act.OfStart? && a.act.start.ReserveSlot?
  }

  ghost predicate HintedEnabled(h: Hinted, a: HintedAct)
    requires HintedShape(h)
  {
    match a
    case Do(act) =>
      && HostEnabled(h.host, act)
      && (Reserves(act) ==>
          IsEstimate(h.hist, act.k, h.queued[act.k], Estimate(act.act.start.cores, act.act.start.mem)))
    case Requeue(k, _) => k < |h.queued|
  }

  ghost function ApplyHinted(h: Hinted, a: HintedAct): Hinted
    requires HintedShape(h) && HintedEnabled(h, a)
  {
    match a
    case Do(act) =>
      h.(host := ApplyHost(h.host, act),
         made := if Reserves(act)
                 then h.made[act.k := h.made[act.k][|h.host.pools[act.k].tab.recs| := h.queued[act.k]]]
                 else h.made)
    case Requeue(k, refs) => h.(queued := h.queued[k := refs])
  }

  ghost predicate HintedRun(h: Hinted, acts: seq<HintedAct>, f: Hinted)
    decreases |acts|
  {
    if acts == [] then h == f
    else HintedShape(h) && HintedEnabled(h, acts[0]) && HintedRun(ApplyHinted(h, acts[0]), acts[1..], f)
  }

  ghost predicate HintedInit(h: Hinted) {
    && HostInit(h.host) && |h.queued| == |h.made| == |h.host.pools|
    && (forall k | 0 <= k < |h.queued| :: h.queued[k] == {} && h.made[k] == map[])
  }

  ghost predicate HintedReachable(h: Hinted) {
    exists h0, acts :: HintedInit(h0) && HintedRun(h0, acts, h)
  }

  // ------------------------------------------------------------------ the invariant

  /** What a slot was reserved at is the estimate of the refs it was made for. */
  ghost predicate EstimatedBy(hist: Hist, k: nat, recs: seq<Rec>, made: map<nat, set<string>>) {
    forall i <- made :: i < |recs| && IsEstimate(hist, k, made[i], Estimate(recs[i].reservedCores, recs[i].reservedMem))
  }

  ghost predicate HintedInv(h: Hinted) {
    && |h.queued| == |h.made| == |h.host.pools|
    && forall k | 0 <= k < |h.made| :: EstimatedBy(h.hist, k, h.host.pools[k].tab.recs, h.made[k])
  }

  lemma EstimatesStay(hist: Hist, k: nat, s: Sys, act: Act, made: map<nat, set<string>>)
    requires Shape(s) && Enabled(s, act) && EstimatedBy(hist, k, s.tab.recs, made)
    ensures EstimatedBy(hist, k, Apply(s, act).tab.recs, made)
  {
    hide Shape, Enabled, Apply, IsEstimate;
    StepReservations(s, act);
  }

  lemma ReservedEstimate(hist: Hist, k: nat, s: Sys, act: Act, made: map<nat, set<string>>, refs: set<string>)
    requires Shape(s) && Enabled(s, act) && IsReserve(act) && EstimatedBy(hist, k, s.tab.recs, made)
    requires IsEstimate(hist, k, refs, Estimate(act.start.cores, act.start.mem))
    ensures EstimatedBy(hist, k, Apply(s, act).tab.recs, made[|s.tab.recs| := refs])
  {
    hide Shape, IsEstimate;
    StepReservations(s, act);
  }

  /** However the queues change, what was reserved stays what it was estimated at. */
  lemma HintedStepKeeps(h: Hinted, a: HintedAct)
    requires HintedInv(h) && HintedShape(h) && HintedEnabled(h, a)
    ensures HintedInv(ApplyHinted(h, a))
  {
    hide IsEstimate, Shape, Enabled, Apply, EstimatedBy, LiveCount, Count;
    match a
    case Do(PoolStep(k, act)) =>
      if IsReserve(act) {
        ReservedEstimate(h.hist, k, h.host.pools[k], act, h.made[k], h.queued[k]);
      } else {
        EstimatesStay(h.hist, k, h.host.pools[k], act, h.made[k]);
      }
    case _ =>
  }

  lemma {:induction false} HintedRunKeeps(h: Hinted, acts: seq<HintedAct>, f: Hinted)
    requires HintedInv(h) && HintedRun(h, acts, f)
    ensures HintedInv(f)
    decreases |acts|
  {
    hide HintedInv, HintedShape, HintedEnabled, ApplyHinted;
    if acts != [] {
      HintedStepKeeps(h, acts[0]);
      HintedRunKeeps(ApplyHinted(h, acts[0]), acts[1..], f);
    }
  }

  // ------------------------------------------------------------------ claims of hinted refs

  /** A claim of a slot not claimed before, by a job of a ref the slot was estimated by, or, if none
      was queued then, by a job of no known ref. */
  ghost predicate ForeseenClaim(h: Hinted, k: nat, s: Sys, act: Act) {
    match act
    case OfOuter(ClaimJob(i, job, _)) =>
      && k < |h.made| && i in h.made[k] && i < |s.tab.recs|
          && (s.tab.recs[i].state.Starting? || s.tab.recs[i].state.Idle?)
      && (job.workflowRef in h.made[k][i] || (h.made[k][i] == {} && job.workflowRef == ""))
    case _ => false
  }

  lemma ForeseenFits(h: Hinted, k: nat, act: Act)
    requires HintedInv(h) && k < |h.host.pools|
    requires Shape(h.host.pools[k]) && Enabled(h.host.pools[k], act)
    requires ForeseenClaim(h, k, h.host.pools[k], act)
    ensures Affordable(h.hist, k, h.host.pools[k], act)
  {
    assert EstimatedBy(h.hist, k, h.host.pools[k].tab.recs, h.made[k]);
  }

  /** In every run such a claim costs no more than its slot is charged. */
  lemma HintedClaimFits(h: Hinted, k: nat, act: Act)
    requires HintedReachable(h) && k < |h.host.pools|
    requires Shape(h.host.pools[k]) && Enabled(h.host.pools[k], act)
    requires ForeseenClaim(h, k, h.host.pools[k], act)
    ensures Affordable(h.hist, k, h.host.pools[k], act)
  {
    hide HintedInv, HostInit, Shape, Enabled;
    var h0, acts :| HintedInit(h0) && HintedRun(h0, acts, h);
    HintedBoot(h0);
    HintedRunKeeps(h0, acts, h);
    ForeseenFits(h, k, act);
  }

  lemma HintedBoot(h: Hinted)
    requires HintedInit(h)
    ensures HintedInv(h)
  {}

  // ------------------------------------------------------------------ with the gate

  /** The same with the gate in it. */
  datatype Admission = Admission(hinted: Hinted, gate: GatePc, limits: Limits, base: real) {
    function ToGated(): Gated { Gated(hinted.host, gate, hinted.hist, limits, base) }
  }

  datatype AdmissionAct =
    | Gating(act: GatedAct)
    | Requeueing(k: nat, refs: set<string>)

  /** The gate, too, estimates by the queue at that moment; what was estimated must not have grown by
      the time the slot is reserved. */
  ghost predicate AdmissionEnabled(m: Admission, a: AdmissionAct)
    requires HintedShape(m.hinted)
  {
    var h := m.hinted;
    match a
    case Gating(act) =>
      && GatedEnabled(m.ToGated(), act)
      && (act.HostStep? ==> HintedEnabled(h, Do(act.act)))
      && (act.GateDecide? ==> IsEstimate(h.hist, h.host.pc.p, h.queued[h.host.pc.p], act.candidate))
    case Requeueing(k, refs) => HintedEnabled(h, Requeue(k, refs))
  }

  ghost function ApplyAdmission(m: Admission, a: AdmissionAct): Admission
    requires HintedShape(m.hinted) && AdmissionEnabled(m, a)
  {
    match a
    case Gating(act) =>
      var g := ApplyGated(m.ToGated(), act);
      Admission(if act.HostStep? then ApplyHinted(m.hinted, Do(act.act)) else m.hinted, g.gate, g.limits, g.base)
    case Requeueing(k, refs) => m.(hinted := ApplyHinted(m.hinted, Requeue(k, refs)))
  }

  lemma ProjectsToGated(m: Admission, a: AdmissionAct)
    requires HintedShape(m.hinted) && AdmissionEnabled(m, a)
    ensures ApplyAdmission(m, a).ToGated() == if a.Gating? then ApplyGated(m.ToGated(), a.act) else m.ToGated()
  {
    hide GatedEnabled, HintedEnabled, ApplyHost, HostCharge, Snapshot, Admits, Shapes;
  }

  /** Every claim was foreseen, or meets the hypothesis all the same. */
  ghost predicate Foreseen(m: Admission, a: AdmissionAct)
    requires HintedShape(m.hinted) && AdmissionEnabled(m, a)
  {
    a.Gating? ==>
      || Calm(m.ToGated(), a.act)
      || (a.act.HostStep? && a.act.act.PoolStep?
          && ForeseenClaim(m.hinted, a.act.act.k, m.hinted.host.pools[a.act.act.k], a.act.act.act))
  }

  ghost predicate ForeseenRun(m: Admission, acts: seq<AdmissionAct>, f: Admission)
    decreases |acts|
  {
    if acts == [] then m == f
    else
      && HintedShape(m.hinted) && AdmissionEnabled(m, acts[0]) && Foreseen(m, acts[0])
      && ForeseenRun(ApplyAdmission(m, acts[0]), acts[1..], f)
  }

  ghost predicate AdmissionInv(m: Admission) {
    HintedInv(m.hinted) && GatedInv(m.ToGated())
  }

  lemma ForeseenIsCalm(m: Admission, a: AdmissionAct)
    requires HintedInv(m.hinted) && HintedShape(m.hinted) && AdmissionEnabled(m, a) && a.Gating? && Foreseen(m, a)
    ensures Calm(m.ToGated(), a.act)
  {
    hide HintedInv, Affordable, ForeseenClaim, GatedEnabled;
    if !Calm(m.ToGated(), a.act) {
      ForeseenFits(m.hinted, a.act.act.k, a.act.act.act);
    }
  }

  lemma ForeseenStepKeeps(m: Admission, a: AdmissionAct)
    requires AdmissionInv(m) && HintedShape(m.hinted) && AdmissionEnabled(m, a) && Foreseen(m, a)
    ensures AdmissionInv(ApplyAdmission(m, a))
  {
    hide HintedInv, GatedInv, Foreseen, Calm, GatedEnabled, HintedEnabled, ApplyGated, ApplyHinted;
    ProjectsToGated(m, a);
    match a
    case Requeueing(k, refs) => HintedStepKeeps(m.hinted, Requeue(k, refs));
    case Gating(act) =>
      ForeseenIsCalm(m, a);
      GatedStepKeeps(m.ToGated(), act);
      if act.HostStep? {
        HintedStepKeeps(m.hinted, Do(act.act));
      }
  }

  lemma {:induction false} ForeseenRunKeeps(m: Admission, acts: seq<AdmissionAct>, f: Admission)
    requires AdmissionInv(m) && ForeseenRun(m, acts, f)
    ensures AdmissionInv(f)
    decreases |acts|
  {
    hide AdmissionInv, HintedShape, AdmissionEnabled, Foreseen, ApplyAdmission;
    if acts != [] {
      ForeseenStepKeeps(m, acts[0]);
      ForeseenRunKeeps(ApplyAdmission(m, acts[0]), acts[1..], f);
    }
  }

  /** With every start gated and every claim foreseen: at most one slot is live, or the live slots'
      charges fit the larger of the CPU limit and what adoption found, and the CPU limit itself if
      adoption found nothing that counts. */
  lemma ForeseenLoadFits(m0: Admission, acts: seq<AdmissionAct>, m: Admission)
    requires HintedInit(m0.hinted) && GatedInit(m0.ToGated())
    requires ForeseenRun(m0, acts, m) && !m.hinted.host.pc.Booting?
    ensures var g := m.ToGated();
      || Sum(Lives(g.host.pools)) <= 1
      || LiveChargeOf(g.hist, g.host.pools, |g.host.pools|) <= if g.host.adopted == 0 then g.limits.Cpu() else g.base
  {
    hide HintedInv, HostInv, GateOk;
    HintedBoot(m0.hinted);
    GatedBoot(m0.ToGated());
    ForeseenRunKeeps(m0, acts, m);
    BoundedLoad(m.ToGated());
  }
}
