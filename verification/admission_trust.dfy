/** Runs in which every claim and uncertain launch is predicted within its slot's reservation, and a
    condition on the history under which they keep within the CPU limit. */
module AdmissionTrust {
  import opened SlotModel
  import opened SlotProtocol
  import opened HostCeiling
  import opened Sums
  import opened AdmissionGate
  import opened AdmissionRun

  /** The hypothesis on claims and uncertain launches, with the reservation as the yardstick. */
  ghost predicate Trusting(hist: Hist, k: nat, s: Sys, act: Act)
    requires Shape(s) && Enabled(s, act)
  {
    match act
    case OfLaunch(StartUncertain) =>
      hist.cores(k, s.tab.recs[s.ops.inc].work.workflowRef) <= s.tab.recs[s.ops.inc].reservedCores
    case OfOuter(ClaimJob(i, job, _)) => hist.cores(k, job.workflowRef) <= s.tab.recs[i].reservedCores
    case _ => true
  }

  ghost predicate Trusted(g: Gated, a: GatedAct) {
    && Shapes(g.host) && GatedEnabled(g, a)
    && (a.HostStep? && a.act.PoolStep? ==> Trusting(g.hist, a.act.k, g.host.pools[a.act.k], a.act.act))
  }

  ghost predicate TrustingRun(g: Gated, acts: seq<GatedAct>, f: Gated)
    decreases |acts|
  {
    if acts == [] then g == f
    else Trusted(g, acts[0]) && TrustingRun(ApplyGated(g, acts[0]), acts[1..], f)
  }

  ghost predicate TrustingReachable(g: Gated) {
    exists g0, acts :: GatedInit(g0) && TrustingRun(g0, acts, g)
  }

  // ------------------------------------------------------------------ unknown jobs

  /** In pool k an unknown job fits the CPU limit, and some job is predicted above it: so a slot
      that is charged as an unknown job leaves room for another, and may yet turn out larger. */
  ghost predicate Underrated(hist: Hist, limits: Limits, k: nat) {
    hist.cores(k, "") <= limits.Cpu() && exists ref :: hist.cores(k, ref) > hist.cores(k, "")
  }

  /** The history with no job above the unknown one, where the unknown job exceeds the CPU limit. */
  function Capped(hist: Hist, limits: Limits): Hist {
    Hist((k: nat, ref: string) =>
           if hist.cores(k, "") > limits.Cpu() && hist.cores(k, ref) > hist.cores(k, "")
           then hist.cores(k, "") else hist.cores(k, ref),
         hist.mem)
  }

  ghost function CappedRun(g: Gated): Gated { g.(hist := Capped(g.hist, g.limits)) }

  ghost predicate TrustInv(g: Gated) {
    && g.hist.Sane() && GatedInv(CappedRun(g))
    && forall k | 0 <= k < |g.host.pools| :: !Underrated(g.hist, g.limits, k)
  }

  // ------------------------------------------------------------------ what is trusted is affordable

  lemma TrustedIsAffordable(hist: Hist, limits: Limits, k: nat, s: Sys, act: Act)
    requires Shape(s) && Enabled(s, act) && Unclaimed(s) && Trusting(hist, k, s, act) && !Underrated(hist, limits, k)
    ensures Affordable(Capped(hist, limits), k, s, act)
  {
    match act
    case OfOuter(ClaimJob(i, job, now)) => ClaimAffordable(hist, limits, k, s.tab.recs[i], job, now);
    case OfLaunch(StartUncertain) =>
    case _ =>
  }

  lemma ClaimAffordable(hist: Hist, limits: Limits, k: nat, r: Rec, job: Job, now: int)
    requires hist.cores(k, job.workflowRef) <= r.reservedCores && (!r.claimed ==> r.work.workflowRef == "")
    requires !Underrated(hist, limits, k)
    ensures var h := Capped(hist, limits); Charge(h, k, ClaimRec(r, job, now)) <= Charge(h, k, r)
  {
    assert hist.cores(k, "") <= limits.Cpu() ==> hist.cores(k, job.workflowRef) <= hist.cores(k, "");
  }

  // ------------------------------------------------------------------ the capped run

  lemma {:induction false} CappedSums(hist: Hist, limits: Limits, read: seq<SlotView>, own: nat, e: Estimate)
    ensures SumCores(Capped(hist, limits), read, own, e) <= SumCores(hist, read, own, e)
    ensures SumMem(Capped(hist, limits), read, own, e) == SumMem(hist, read, own, e)
  {
    if read != [] {
      CappedSums(hist, limits, read[..|read| - 1], own, e);
    }
  }

  lemma {:induction false} CappedCharges(hist: Hist, limits: Limits, k: nat, s: Sys, n: nat)
    requires n <= |s.tab.recs|
    ensures ChargeIn(Capped(hist, limits), k, s, n) <= ChargeIn(hist, k, s, n)
  {
    if n > 0 {
      CappedCharges(hist, limits, k, s, n - 1);
    }
  }

  lemma {:induction false} CappedCharge(hist: Hist, limits: Limits, pools: seq<Sys>, n: nat)
    requires n <= |pools|
    ensures ChargeOf(Capped(hist, limits), pools, n) <= ChargeOf(hist, pools, n)
  {
    if n > 0 {
      CappedCharge(hist, limits, pools, n - 1);
      CappedCharges(hist, limits, n - 1, pools[n - 1], |pools[n - 1].tab.recs|);
    }
  }

  lemma CappedIsSane(hist: Hist, limits: Limits)
    requires hist.Sane()
    ensures Capped(hist, limits).Sane()
  {}

  /** A larger base, or a refusal in the place of an admission, keeps the invariant. */
  lemma Looser(g: Gated, gate: GatePc, base: real)
    requires GatedInv(g) && base >= g.base && (g.host.adopted == 0 && !g.host.pc.Booting? ==> base == g.base)
    requires gate == g.gate || (gate.Refused? && g.gate.Admitted?)
    ensures GatedInv(g.(gate := gate, base := base))
  {
    hide HostInv, AllSolvent, InGate, SumCores;
  }

  /** A step of a run and of the capped one lead to states that differ in the base at most, and in a
      refusal where the capped gate admits. */
  ghost predicate StaysCapped(f: Gated, c: Gated) {
    && CappedRun(f) == c.(gate := f.gate, base := f.base) && f.base >= c.base
    && (f.gate == c.gate || (f.gate.Refused? && c.gate.Admitted?))
  }

  lemma DecideCapped(g: Gated, a: GatedAct)
    requires Shapes(g.host) && GatedEnabled(g, a) && a.GateDecide?
    ensures StaysCapped(ApplyGated(g, a), ApplyGated(CappedRun(g), a))
  {
    hide Shapes, Capped;
    CappedSums(g.hist, g.limits, g.gate.read, g.host.pc.p, a.candidate);
    assert Capped(g.hist, g.limits).mem == g.hist.mem by { MemIsKept(g.hist, g.limits); }
  }

  lemma MemIsKept(hist: Hist, limits: Limits)
    ensures Capped(hist, limits).mem == hist.mem
  {}

  lemma StepCapped(g: Gated, a: GatedAct)
    requires Shapes(g.host) && GatedEnabled(g, a) && !a.GateDecide?
    ensures StaysCapped(ApplyGated(g, a), ApplyGated(CappedRun(g), a))
  {
    hide Shapes, Capped, ApplyHost, HostEnabled, Snapshot, ChargeOf;
    if a.HostStep? && a.act.AdoptionOver? {
      CappedCharge(g.hist, g.limits, g.host.pools, |g.host.pools|);
    }
  }

  lemma BasesAgree(g: Gated, a: GatedAct)
    requires Shapes(g.host) && GatedEnabled(g, a) && GatedInv(CappedRun(g)) && g.hist.Sane()
    ensures var f, c := ApplyGated(g, a), ApplyGated(CappedRun(g), a);
      f.host == c.host && (f.host.adopted == 0 && !f.host.pc.Booting? ==> f.base == c.base)
  {
    hide Capped, GatedInv, Shapes, HostEnabled, ApplyHost;
    if a.HostStep? && a.act.AdoptionOver? {
      EmptyHostBase(g);
      EmptyHostBase(CappedRun(g));
    }
  }

  lemma TrustStepKeeps(g: Gated, a: GatedAct)
    requires TrustInv(g) && Trusted(g, a)
    ensures TrustInv(ApplyGated(g, a))
  {
    var c, f := CappedRun(g), ApplyGated(g, a);
    TrustedIsCalm(g, a);
    SettingKept(g, a);
    hide GatedInv, Underrated, Capped, Shapes, GatedEnabled, ApplyGated, Calm;
    GatedStepKeeps(c, a);
    if a.GateDecide? {
      DecideCapped(g, a);
    } else {
      StepCapped(g, a);
    }
    BasesAgree(g, a);
    Looser(ApplyGated(c, a), f.gate, f.base);
  }

  lemma TrustedIsCalm(g: Gated, a: GatedAct)
    requires TrustInv(g) && Trusted(g, a)
    ensures GatedEnabled(CappedRun(g), a) && Calm(CappedRun(g), a)
  {
    hide Capped, Underrated, HostInv, GateOk, Bounded, Shape, Enabled, Affordable, Trusting;
    if a.HostStep? && a.act.PoolStep? {
      hide Solvent, Unclaimed;
      TrustedIsAffordable(g.hist, g.limits, a.act.k, g.host.pools[a.act.k], a.act.act);
    }
  }

  lemma SettingKept(g: Gated, a: GatedAct)
    requires Shapes(g.host) && GatedEnabled(g, a)
    ensures var f := ApplyGated(g, a);
      |f.host.pools| == |g.host.pools| && f.hist == g.hist && f.limits == g.limits && f.host.max == g.host.max
  {
    hide Shape, Enabled, Apply, StartEnabled, ApplyStart, LiveCount, ChargeOf, Snapshot, Admits;
  }

  lemma {:induction false} TrustRunKeeps(g: Gated, acts: seq<GatedAct>, f: Gated)
    requires TrustInv(g) && TrustingRun(g, acts, f)
    ensures TrustInv(f)
    decreases |acts|
  {
    hide TrustInv, Shapes, GatedEnabled, Trusting;
    if acts != [] {
      TrustStepKeeps(g, acts[0]);
      TrustRunKeeps(ApplyGated(g, acts[0]), acts[1..], f);
    }
  }

  // ------------------------------------------------------------------ back to the history itself

  lemma LiveNotNegative(hist: Hist, k: nat, s: Sys, n: nat)
    requires hist.Sane() && Solvent(s) && n <= |s.tab.recs|
    ensures LiveCharge(hist, k, s, n) >= 0.0
  {}

  /** Slots that together fit the limit of the capped history are charged the same by the history. */
  lemma {:induction false} UncappedLive(hist: Hist, limits: Limits, k: nat, s: Sys, n: nat)
    requires hist.Sane() && Solvent(s) && n <= |s.tab.recs|
    requires LiveCharge(Capped(hist, limits), k, s, n) <= limits.Cpu()
    ensures LiveCharge(hist, k, s, n) == LiveCharge(Capped(hist, limits), k, s, n)
  {
    if n > 0 {
      CappedIsSane(hist, limits);
      LiveNotNegative(Capped(hist, limits), k, s, n - 1);
      UncappedLive(hist, limits, k, s, n - 1);
    }
  }

  lemma {:induction false} LiveChargesNotNegative(hist: Hist, pools: seq<Sys>, n: nat)
    requires hist.Sane() && n <= |pools| && forall k | 0 <= k < n :: Solvent(pools[k])
    ensures LiveChargeOf(hist, pools, n) >= 0.0
  {
    hide Solvent, LiveCharge;
    if n > 0 {
      LiveChargesNotNegative(hist, pools, n - 1);
      LiveNotNegative(hist, n - 1, pools[n - 1], |pools[n - 1].tab.recs|);
    }
  }

  lemma {:induction false} UncappedLives(hist: Hist, limits: Limits, pools: seq<Sys>, n: nat)
    requires hist.Sane() && n <= |pools| && forall k | 0 <= k < n :: Solvent(pools[k])
    requires LiveChargeOf(Capped(hist, limits), pools, n) <= limits.Cpu()
    ensures LiveChargeOf(hist, pools, n) == LiveChargeOf(Capped(hist, limits), pools, n)
  {
    hide Solvent, LiveCharge, Capped;
    if n > 0 {
      var s := pools[n - 1];
      CappedIsSane(hist, limits);
      LiveChargesNotNegative(Capped(hist, limits), pools, n - 1);
      LiveNotNegative(Capped(hist, limits), n - 1, s, |s.tab.recs|);
      UncappedLives(hist, limits, pools, n - 1);
      UncappedLive(hist, limits, n - 1, s, |s.tab.recs|);
    }
  }

  // ------------------------------------------------------------------ the result

  lemma TrustBoot(g: Gated)
    requires GatedInit(g) && forall k | 0 <= k < |g.host.pools| :: !Underrated(g.hist, g.limits, k)
    ensures TrustInv(g)
  {
    CappedIsSane(g.hist, g.limits);
    hide Capped, Underrated;
    GatedBoot(CappedRun(g));
  }

  lemma {:induction false} SettingStays(g: Gated, acts: seq<GatedAct>, f: Gated)
    requires TrustingRun(g, acts, f)
    ensures f.hist == g.hist && f.limits == g.limits && |f.host.pools| == |g.host.pools| && f.host.max == g.host.max
    decreases |acts|
  {
    hide Shapes, GatedEnabled, Trusting;
    if acts != [] {
      SettingKept(g, acts[0]);
      SettingStays(ApplyGated(g, acts[0]), acts[1..], f);
    }
  }

  /** If no pool is underrated, reservations are enough: with every claim and uncertain launch
      within its slot's reservation and nothing adopted, at most one slot is live or the live slots'
      charges fit the CPU limit. */
  lemma TrustSuffices(g: Gated)
    requires TrustingReachable(g) && !g.host.pc.Booting? && g.host.adopted == 0
    requires forall k | 0 <= k < |g.host.pools| :: !Underrated(g.hist, g.limits, k)
    ensures g.hist.Sane()
    ensures Sum(Lives(g.host.pools)) <= 1 || LiveChargeOf(g.hist, g.host.pools, |g.host.pools|) <= g.limits.Cpu()
  {
    hide Capped, Underrated, Trusted, HostInv, GateOk, Solvent, Unclaimed;
    var g0, acts :| GatedInit(g0) && TrustingRun(g0, acts, g);
    SettingStays(g0, acts, g);
    TrustBoot(g0);
    TrustRunKeeps(g0, acts, g);
    BoundedLoad(CappedRun(g));
    if Sum(Lives(g.host.pools)) > 1 {
      UncappedLives(g.hist, g.limits, g.host.pools, |g.host.pools|);
    }
  }

  // ------------------------------------------------------------------ the host

  lemma {:induction false} TrustingRunHost(g: Gated, acts: seq<GatedAct>, f: Gated)
    requires HostInv(g.host) && TrustingRun(g, acts, f)
    ensures HostInv(f.host)
    decreases |acts|
  {
    hide HostInv, Shapes, Trusting;
    if acts != [] {
      GatedHost(g, acts[0]);
      TrustingRunHost(ApplyGated(g, acts[0]), acts[1..], f);
    }
  }

  lemma GatedHost(g: Gated, a: GatedAct)
    requires HostInv(g.host) && Shapes(g.host) && GatedEnabled(g, a)
    ensures HostInv(ApplyGated(g, a).host)
  {
    hide HostInv, Shapes, HostEnabled, ApplyHost;
    if a.HostStep? {
      HostStepKeeps(g.host, a.act);
    }
  }

  lemma TrustingHostInv(g: Gated)
    requires TrustingReachable(g)
    ensures HostInv(g.host) && g.hist.Sane()
  {
    hide HostInv, HostInit, Trusted;
    var g0, acts :| GatedInit(g0) && TrustingRun(g0, acts, g);
    HostBoot(g0.host);
    TrustingRunHost(g0, acts, g);
    SettingStays(g0, acts, g);
  }
}
