/** When comparing claims with reservations is not enough to keep the host within its CPU limit:
    exactly when some pool is underrated and the host may run two slots. */
module AdmissionLimits {
  import opened Basics
  import opened SlotModel
  import opened SlotProtocol
  import opened SlotCount
  import opened HostCeiling
  import HostLimits
  import opened Sums
  import opened AdmissionGate
  import opened AdmissionRun
  import opened AdmissionTrust

  lemma {:induction false} TrustingAppend(g: Gated, acts: seq<GatedAct>, f: Gated, a: GatedAct)
    requires TrustingRun(g, acts, f) && Trusted(f, a)
    ensures TrustingRun(g, acts + [a], ApplyGated(f, a))
    decreases |acts|
  {
    hide GatedEnabled, ApplyGated, Trusting, Shapes;
    if acts == [] {
      assert [a][1..] == [];
      assert TrustingRun(ApplyGated(f, a), [], ApplyGated(f, a));
      assert acts + [a] == [a];
    } else {
      TrustingAppend(ApplyGated(g, acts[0]), acts[1..], f, a);
      assert (acts + [a])[1..] == acts[1..] + [a];
    }
  }

  lemma Take(g: Gated, a: GatedAct)
    requires TrustingReachable(g) && Trusted(g, a)
    ensures TrustingReachable(ApplyGated(g, a))
  {
    hide GatedInit, GatedEnabled, ApplyGated, Trusting, Shapes;
    var g0, acts :| GatedInit(g0) && TrustingRun(g0, acts, g);
    TrustingAppend(g0, acts, g, a);
  }

  // ------------------------------------------------------------------ the host of the run

  /** A host that may run two slots, and a job of ref that underrates its pool k. */
  datatype Plan = Plan(hist: Hist, limits: Limits, max: nat, n: nat, k: nat, ref: string) {
    ghost predicate Valid() {
      && hist.Sane() && max >= 2 && k < n
      && hist.cores(k, "") <= limits.Cpu() && hist.cores(k, ref) > hist.cores(k, "")
    }

    /** What the first slot is reserved at. */
    function High(): real { hist.cores(k, ref) }

    /** What is left beside an unknown job. */
    function Room(): real { limits.Cpu() - hist.cores(k, "") }
  }

  const HOOKED := Config(0, 0, true)

  ghost function Table(recs: seq<Rec>, slots: map<ID, nat>, dirs: map<ID, bool>, mayRun: set<ID>, info: seq<Info>,
      ops: Ops): Sys {
    Sys(HOOKED, Tab(slots, recs, false), dirs, mayRun, {}, Done, ops, info)
  }

  /** A pool without slots. */
  ghost function Bare(ops: Ops): Sys { Table([], map[], map[], {}, [], ops) }

  /** n pools, number j being s and the others idle. */
  ghost function Pools(n: nat, j: nat, s: Sys): (pools: seq<Sys>)
    ensures |pools| == n && forall q | 0 <= q < n :: pools[q] == if q == j then s else Bare(Free)
  {
    seq(n, q => if q == j then s else Bare(Free))
  }

  ghost function At(p: Plan, j: nat, s: Sys, pc: Pc, cursor: nat, gate: GatePc): Gated {
    Gated(Host(Pools(p.n, j, s), p.max, pc, cursor, 0, 0), gate, p.hist, p.limits, p.limits.Cpu())
  }

  /** The pool in progress reaches s. */
  ghost predicate Gets(p: Plan, j: nat, s: Sys, pc: Pc, cursor: nat, gate: GatePc) {
    TrustingReachable(At(p, j, s, pc, cursor, gate)) && j < p.n && Shape(s)
  }

  lemma BareShape(ops: Ops)
    requires ops.Free? || ops.Loop? || ops.Gate? || ops.Surplus?
    ensures Shape(Bare(ops)) && LiveCount(Bare(ops).tab) == 0 && Count(Bare(ops)) == 0
  {}

  lemma AtShapes(p: Plan, j: nat, s: Sys, pc: Pc, cursor: nat, gate: GatePc)
    requires Shape(s)
    ensures Shapes(At(p, j, s, pc, cursor, gate).host)
  {
    BareShape(Free);
    hide Shape;
  }

  lemma DoPool(p: Plan, j: nat, s: Sys, act: Act, t: Sys, pc: Pc, cursor: nat, gate: GatePc)
    requires Gets(p, j, s, pc, cursor, gate)
    requires Enabled(s, act) && !TakesToken(act) && t == Apply(s, act) && Shape(t) && Trusting(p.hist, j, s, act)
    requires IsReserve(act) ==> gate.Admitted? && 0.0 <= act.start.cores <= gate.candidate.cores
    ensures Gets(p, j, t, pc, cursor, if LeavesGate(act) then Closed else gate)
  {
    hide TrustingReachable, Shape, Shapes, Enabled, Apply, Trusting, LeavesGate;
    AtShapes(p, j, s, pc, cursor, gate);
    Take(At(p, j, s, pc, cursor, gate), HostStep(PoolStep(j, act)));
    assert Pools(p.n, j, s)[j := t] == Pools(p.n, j, t);
  }

  lemma DoMove(p: Plan, j: nat, s: Sys, m: MoveAct, pc: Pc, cursor: nat)
    requires Gets(p, j, s, pc, cursor, Closed) && MoveEnabled(At(p, j, s, pc, cursor, Closed).host, m)
    ensures Gets(p, j, s, NextPc(pc, m, LiveOf(At(p, j, s, pc, cursor, Closed).host), p.n, cursor),
                 if m.LoopVisit? then (cursor + 1) % p.n else cursor, Closed)
  {
    hide TrustingReachable, Shape, Shapes, LiveCount, LiveOf, NextPc, MovesFrom;
    AtShapes(p, j, s, pc, cursor, Closed);
    Take(At(p, j, s, pc, cursor, Closed), HostStep(Move(m)));
  }

  lemma DoTake(p: Plan, j: nat, s: Sys, pc: Pc, cursor: nat, a: HostAct, desired: int)
    requires Gets(p, j, s, pc, cursor, Closed) && StartEnabled(s, Acquire(desired, false))
    requires Shape(ApplyStart(s, Acquire(desired, false)))
    requires (a.MaintTake? && pc.MaintCall? && desired == Min(pc.live, pc.desired))
      || (a.GrowTake? && pc.GrowCall? && desired == pc.before + 1)
    requires pc.p == j
    ensures Gets(p, j, ApplyStart(s, Acquire(desired, false)),
                 if a.MaintTake? then MaintIn(j, pc.live) else GrowIn(j, pc.before, pc.total, pc.idle), cursor, Closed)
  {
    hide TrustingReachable, Shape, Shapes, LiveCount, ApplyStart, StartEnabled;
    AtShapes(p, j, s, pc, cursor, Closed);
    Take(At(p, j, s, pc, cursor, Closed), HostStep(a));
    var t := ApplyStart(s, Acquire(desired, false));
    assert Pools(p.n, j, s)[j := t] == Pools(p.n, j, t);
  }

  // ------------------------------------------------------------------ boot

  /** The first m pools have booted. */
  ghost function Boots(n: nat, m: nat): (pools: seq<Sys>)
    ensures |pools| == n && forall q | 0 <= q < n :: pools[q] == if q < m then Bare(Free) else NewBorn()
  {
    seq(n, q => if q < m then Bare(Free) else NewBorn())
  }

  ghost function NewBorn(): Sys { Bare(Free).(boot := Entries({})) }

  ghost function AtBoot(p: Plan, pools: seq<Sys>): Gated {
    Gated(Host(pools, p.max, Booting, 0, 0, 0), Closed, p.hist, p.limits, p.limits.Cpu())
  }

  lemma NewBornBoots(s: Sys)
    requires s == NewBorn()
    ensures Shape(s) && BootEnabled(s, BootEntriesEnd)
    ensures var t := ApplyBoot(s, BootEntriesEnd);
      Shape(t) && BootEnabled(t, BootEnd) && ApplyBoot(t, BootEnd) == Bare(Free) && Shape(Bare(Free))
  {}

  lemma PoolBoots(p: Plan, pools: seq<Sys>, q: nat)
    requires TrustingReachable(AtBoot(p, pools)) && q < |pools| && pools[q] == NewBorn()
    requires forall j | 0 <= j < |pools| :: Shape(pools[j])
    ensures TrustingReachable(AtBoot(p, pools[q := Bare(Free)]))
  {
    NewBornBoots(NewBorn());
    hide TrustingReachable, Shape, BootEnabled, ApplyBoot;
    Take(AtBoot(p, pools), HostStep(PoolStep(q, OfBoot(BootEntriesEnd))));
    var next := pools[q := ApplyBoot(pools[q], BootEntriesEnd)];
    Take(AtBoot(p, next), HostStep(PoolStep(q, OfBoot(BootEnd))));
    assert next[q := Bare(Free)] == pools[q := Bare(Free)];
  }

  lemma {:induction false} AllBoot(p: Plan, m: nat)
    requires p.Valid() && m <= p.n
    ensures TrustingReachable(AtBoot(p, Boots(p.n, m)))
  {
    hide TrustingReachable;
    if m == 0 {
      FirstBoot(p);
    } else {
      AllBoot(p, m - 1);
      NewBornBoots(NewBorn());
      hide Shape;
      PoolBoots(p, Boots(p.n, m - 1), m - 1);
      assert Boots(p.n, m - 1)[m - 1 := Bare(Free)] == Boots(p.n, m);
    }
  }

  lemma FirstBoot(p: Plan)
    requires p.Valid()
    ensures TrustingReachable(AtBoot(p, Boots(p.n, 0)))
  {
    var g := AtBoot(p, Boots(p.n, 0));
    assert GatedInit(g);
    assert TrustingRun(g, [], g);
  }

  lemma {:induction false} SumZeros(c: seq<nat>)
    requires forall k | 0 <= k < |c| :: c[k] == 0
    ensures Sum(c) == 0
  {
    if c != [] {
      SumZeros(c[..|c| - 1]);
    }
  }

  lemma NothingThere(n: nat, j: nat)
    ensures Sum(Counts(Pools(n, j, Bare(Free)))) == 0
  {
    BareShape(Free);
    hide Count;
    SumZeros(Counts(Pools(n, j, Bare(Free))));
  }

  /** Nothing was adopted; the first pass begins. */
  lemma Begun(p: Plan)
    requires p.Valid()
    ensures Gets(p, 0, Bare(Free), MaintRead(0), 0, Closed)
  {
    AllBoot(p, p.n);
    BareShape(Free);
    NothingThere(p.n, 0);
    hide TrustingReachable, Shape, Count, LiveCount, Sum;
    assert Boots(p.n, p.n) == Pools(p.n, 0, Bare(Free));
    var g := AtBoot(p, Pools(p.n, 0, Bare(Free)));
    EmptyHostBase(g);
    Take(g, HostStep(AdoptionOver));
    var r := At(p, 0, Bare(Free), Resting, 0, Closed);
    Take(r, HostStep(PassStart));
  }

  // ------------------------------------------------------------------ maintenance

  /** stopSurplusContext with nothing to stop. */
  lemma DoSurplus(p: Plan, j: nat, s: Sys, pc: Pc, cursor: nat)
    requires Gets(p, j, s, pc, cursor, Closed)
    requires s.ops.Surplus? && LiveCount(s.tab) as int <= s.ops.desired
    ensures Gets(p, j, s.(ops := Free), pc, cursor, Closed)
  {
    hide TrustingReachable, LiveCount, Wf;
    var t := ApplyStop(s, Pick([], 0));
    assert t.tab.recs == s.tab.recs;
    assert t.ops.olds == [];
    DoPool(p, j, s, OfStop(Pick([], 0)), s.(ops := Stops([], [])), pc, cursor, Closed);
    DoPool(p, j, s.(ops := Stops([], [])), OfStop(Release), s.(ops := Free), pc, cursor, Closed);
  }

  /** An idle fleet is one whichever pool is looked at. */
  lemma Elsewhere(p: Plan, j: nat, q: nat, pc: Pc, cursor: nat)
    requires Gets(p, j, Bare(Free), pc, cursor, Closed) && q < p.n
    ensures Gets(p, q, Bare(Free), pc, cursor, Closed)
  {
    hide TrustingReachable, Shape;
    assert Pools(p.n, j, Bare(Free)) == Pools(p.n, q, Bare(Free));
  }

  /** An Ensure in maintenance that finds what it wants. */
  lemma MaintainOne(p: Plan, j: nat)
    requires Gets(p, j, Bare(Free), MaintRead(j), 0, Closed)
    ensures Gets(p, j, Bare(Free), if j + 1 < p.n then MaintRead(j + 1) else HostCeiling.Tally(0, 0), 0, Closed)
  {
    hide Gets, LiveCount;
    EnsureNothing(p, j);
    EnsuredNothing(p, j);
    BareShape(Free);
    IsFree(p, j, Bare(Free), MaintIn(j, 0), 0);
    DoMove(p, j, Bare(Free), MaintNext, MaintIn(j, 0), 0);
  }

  lemma EnsureNothing(p: Plan, j: nat)
    requires Gets(p, j, Bare(Free), MaintRead(j), 0, Closed)
    ensures Gets(p, j, Bare(Loop(0)), MaintIn(j, 0), 0, Closed)
  {
    BareShape(Free);
    BareShape(Loop(0));
    hide TrustingReachable, Shape, LiveCount;
    DoMove(p, j, Bare(Free), ReadLive(2), MaintRead(j), 0);
    DoTake(p, j, Bare(Free), MaintCall(j, 0, 2), 0, MaintTake, 0);
  }

  lemma EnsuredNothing(p: Plan, j: nat)
    requires Gets(p, j, Bare(Loop(0)), MaintIn(j, 0), 0, Closed)
    ensures Gets(p, j, Bare(Free), MaintIn(j, 0), 0, Closed)
  {
    BareShape(Loop(0));
    BareShape(Surplus(0, false));
    hide Gets, Shape, LiveCount;
    DoPool(p, j, Bare(Loop(0)), OfStart(LoopEnd), Bare(Surplus(0, false)), MaintIn(j, 0), 0, Closed);
    DoSurplus(p, j, Bare(Surplus(0, false)), MaintIn(j, 0), 0);
  }

  lemma IsFree(p: Plan, j: nat, s: Sys, pc: Pc, cursor: nat)
    requires Gets(p, j, s, pc, cursor, Closed)
    ensures j < p.n && Shape(s) && At(p, j, s, pc, cursor, Closed).host.pools[j] == s
  {}

  lemma {:induction false} MaintainUpTo(p: Plan, m: nat)
    requires p.Valid() && m < p.n
    ensures Gets(p, m, Bare(Free), MaintRead(m), 0, Closed)
  {
    hide Gets;
    if m == 0 {
      Begun(p);
    } else {
      MaintainUpTo(p, m - 1);
      MaintainOne(p, m - 1);
      Elsewhere(p, m - 1, m, MaintRead(m), 0);
    }
  }

  lemma {:induction false} TallyUpTo(p: Plan, m: nat)
    requires p.Valid() && m < p.n
    ensures Gets(p, m, Bare(Free), HostCeiling.Tally(m, 0), 0, Closed)
  {
    hide Gets;
    if m == 0 {
      MaintainUpTo(p, p.n - 1);
      MaintainOne(p, p.n - 1);
      Elsewhere(p, p.n - 1, 0, HostCeiling.Tally(0, 0), 0);
    } else {
      TallyUpTo(p, m - 1);
      TallyOne(p, m - 1);
      Elsewhere(p, m - 1, m, HostCeiling.Tally(m, 0), 0);
    }
  }

  lemma TallyOne(p: Plan, j: nat)
    requires Gets(p, j, Bare(Free), HostCeiling.Tally(j, 0), 0, Closed)
    ensures Gets(p, j, Bare(Free), if j + 1 < p.n then HostCeiling.Tally(j + 1, 0) else Head(0, 0), 0, Closed)
  {
    BareShape(Free);
    IsFree(p, j, Bare(Free), HostCeiling.Tally(j, 0), 0);
    hide Gets, Shape, LiveCount;
    DoMove(p, j, Bare(Free), CountPool, HostCeiling.Tally(j, 0), 0);
  }

  // ------------------------------------------------------------------ turns

  /** The turn of a pool that is passed over. */
  lemma SkipOne(p: Plan, s: Sys, total: nat, idle: nat, cursor: nat)
    requires Gets(p, p.k, s, Head(total, idle), cursor, Closed) && cursor < p.n && total < p.max && idle < p.n
    ensures Gets(p, p.k, s, Head(total, idle + 1), (cursor + 1) % p.n, Closed)
  {
    hide TrustingReachable, Shape, LiveCount;
    NotPast(cursor, p.n);
    DoMove(p, p.k, s, LoopVisit, Head(total, idle), cursor);
    DoMove(p, p.k, s, VisitSkip(0, true), HostCeiling.Visit(cursor, total, idle), (cursor + 1) % p.n);
  }

  lemma NotPast(c: nat, n: nat)
    requires c < n
    ensures c % n == c && (c + 1) % n == if c + 1 < n then c + 1 else 0
  {}

  /** Pools are passed over until the turn is pool k's. */
  lemma {:induction false} SkipToward(p: Plan, s: Sys, total: nat, cursor: nat, m: nat)
    requires Gets(p, p.k, s, Head(total, 0), cursor, Closed) && cursor < p.n && total < p.max && m < p.n
    ensures Gets(p, p.k, s, Head(total, m), Along(cursor, m, p.n), Closed)
  {
    hide Gets;
    if m > 0 {
      SkipToward(p, s, total, cursor, m - 1);
      SkipOne(p, s, total, m - 1, Along(cursor, m - 1, p.n));
      NotPast(Along(cursor, m - 1, p.n), p.n);
    }
  }

  /** The cursor m < n turns on. */
  function Along(cursor: nat, m: nat, n: nat): (c: nat)
    requires cursor < n && m < n
    ensures c < n
  {
    if cursor + m < n then cursor + m else cursor + m - n
  }

  /** The turn of pool k, which has live slots and wants two: its Ensure stands at the gate. */
  lemma TurnToGate(p: Plan, s: Sys, live: nat, total: nat, idle: nat)
    requires Gets(p, p.k, s, Head(total, idle), p.k, Closed) && live < 2 && total < p.max && idle < p.n
    requires s.ops.Free? && s.boot.Done? && !s.tab.closed && LiveCount(s.tab) == live
    ensures Gets(p, p.k, s.(ops := Gate(live + 1)), GrowIn(p.k, live, total, idle), (p.k + 1) % p.n, Closed)
  {
    TurnTaken(p, s, live, total, idle);
    var t := s.(ops := Loop(live + 1));
    LoopShape(s, live);
    hide Gets, Shape, LiveCount;
    DoPool(p, p.k, t, OfStart(LoopStart), s.(ops := Gate(live + 1)), GrowIn(p.k, live, total, idle), (p.k + 1) % p.n,
        Closed);
  }

  lemma LoopShape(s: Sys, live: nat)
    requires Shape(s) && s.ops.Free? && s.boot.Done?
    ensures Shape(s.(ops := Loop(live + 1))) && Shape(s.(ops := Gate(live + 1)))
  {
    hide Wf, WorkerShape;
  }

  lemma TurnBegun(p: Plan, s: Sys, live: nat, total: nat, idle: nat)
    requires Gets(p, p.k, s, Head(total, idle), p.k, Closed) && live < 2 && total < p.max && idle < p.n
    requires LiveCount(s.tab) == live
    ensures Gets(p, p.k, s, GrowCall(p.k, live, total, idle), (p.k + 1) % p.n, Closed)
  {
    hide TrustingReachable, Shape, LiveCount;
    NotPast(p.k, p.n);
    DoMove(p, p.k, s, LoopVisit, Head(total, idle), p.k);
    DoMove(p, p.k, s, VisitGrow(2), HostCeiling.Visit(p.k, total, idle), (p.k + 1) % p.n);
  }

  lemma TurnTaken(p: Plan, s: Sys, live: nat, total: nat, idle: nat)
    requires Gets(p, p.k, s, Head(total, idle), p.k, Closed) && live < 2 && total < p.max && idle < p.n
    requires s.ops.Free? && s.boot.Done? && LiveCount(s.tab) == live
    ensures Gets(p, p.k, s.(ops := Loop(live + 1)), GrowIn(p.k, live, total, idle), (p.k + 1) % p.n, Closed)
  {
    TurnBegun(p, s, live, total, idle);
    LoopShape(s, live);
    hide TrustingReachable, Shape, LiveCount;
    var next := (p.k + 1) % p.n;
    DoTake(p, p.k, s, GrowCall(p.k, live, total, idle), next, GrowTake, live + 1);
  }

  // ------------------------------------------------------------------ the gate

  /** What the gate has read after q tables. */
  ghost function ReadSoFar(p: Plan, s: Sys, q: nat): seq<SlotView> {
    if q > p.k then Snapshot(s, p.k, |s.tab.recs|) else []
  }

  lemma {:induction false} ReadUpTo(p: Plan, s: Sys, pc: Pc, cursor: nat, q: nat)
    requires Gets(p, p.k, s, pc, cursor, Closed) && s.ops.Gate? && pc.GrowIn? && pc.p == p.k && q <= p.n
    ensures Gets(p, p.k, s, pc, cursor, Reading(q, ReadSoFar(p, s, q)))
  {
    hide TrustingReachable, Shape, Shapes, Snapshot;
    if q == 0 {
      AtShapes(p, p.k, s, pc, cursor, Closed);
      Take(At(p, p.k, s, pc, cursor, Closed), GateOpen);
    } else {
      ReadUpTo(p, s, pc, cursor, q - 1);
      var gate := Reading(q - 1, ReadSoFar(p, s, q - 1));
      AtShapes(p, p.k, s, pc, cursor, gate);
      ReadsOn(p, s, q - 1);
      Take(At(p, p.k, s, pc, cursor, gate), GateRead);
    }
  }

  lemma ReadsOn(p: Plan, s: Sys, q: nat)
    requires q < p.n
    ensures var t := Pools(p.n, p.k, s)[q];
      ReadSoFar(p, s, q) + Snapshot(t, q, |t.tab.recs|) == ReadSoFar(p, s, q + 1)
  {
    if q == p.k {
      assert [] + Snapshot(s, q, |s.tab.recs|) == Snapshot(s, q, |s.tab.recs|);
    } else {
      assert Snapshot(Bare(Free), q, 0) == [];
    }
  }

  /** The gate admits the candidate e. */
  lemma DoGate(p: Plan, s: Sys, pc: Pc, cursor: nat, e: Estimate)
    requires Gets(p, p.k, s, pc, cursor, Closed) && s.ops.Gate? && pc.GrowIn? && pc.p == p.k && e.cores >= 0.0
    requires Admits(Some(p.hist), p.k, Snapshot(s, p.k, |s.tab.recs|), e, p.limits, None)
    ensures Gets(p, p.k, s, pc, cursor, Admitted(e))
  {
    hide TrustingReachable, Shape, Shapes, Snapshot, Admits;
    ReadUpTo(p, s, pc, cursor, p.n);
    var gate := Reading(p.n, ReadSoFar(p, s, p.n));
    AtShapes(p, p.k, s, pc, cursor, gate);
    Take(At(p, p.k, s, pc, cursor, gate), GateDecide(e, None));
  }

  // ------------------------------------------------------------------ the first slot

  /** Slot 1 of pool k, its start at program counter ops. */
  ghost function First(r: Rec, dirs: map<ID, bool>, mayRun: set<ID>, k: Info, ops: Ops): Sys {
    Table([r], map[1 := 0], dirs, mayRun, [k], ops)
  }

  function Reserved(p: Plan): Rec { NewRec(1, 0, p.High(), 0) }

  function NamedFirst(p: Plan): Rec { Reserved(p).(runnerName := "r") }

  /** Its launch has an unknown outcome. */
  function Lost(p: Plan): Rec { NamedFirst(p).(state := Busy) }

  const WATCHED := FRESH_INFO.(launched := true, uncertain := true, watch := Waiting, acquireFailures := 1)

  const ONE_DIR: map<ID, bool> := map[1 := false]

  ghost function Growing(p: Plan): Pc { GrowIn(p.k, 0, 0, p.k) }

  lemma FirstFits(p: Plan)
    ensures var s, act := Bare(Gate(1)), OfStart(ReserveSlot(1, 0, p.High(), 0));
      var t := First(Reserved(p), map[], {}, FRESH_INFO, Made(1, 0));
      Shape(s) && Enabled(s, act) && Apply(s, act) == t && Shape(t)
  {
    BareShape(Gate(1));
    FirstShape(p);
    hide LiveCount, Plan.High, Shape;
  }

  lemma FirstShape(p: Plan)
    ensures Shape(First(Reserved(p), map[], {}, FRESH_INFO, Made(1, 0)))
  {
    hide Plan.High;
  }

  lemma FirstReserved(p: Plan)
    requires p.Valid()
    ensures Gets(p, p.k, First(Reserved(p), map[], {}, FRESH_INFO, Made(1, 0)), Growing(p), (p.k + 1) % p.n, Closed)
  {
    FirstAdmitted(p);
    FirstFits(p);
    hide Gets, Shape, Enabled, Apply, Plan.High;
    var e := Estimate(p.High(), 0);
    DoPool(p, p.k, Bare(Gate(1)), OfStart(ReserveSlot(1, 0, p.High(), 0)),
           First(Reserved(p), map[], {}, FRESH_INFO, Made(1, 0)), Growing(p), (p.k + 1) % p.n, Admitted(e));
  }

  /** The pass comes to the turn of pool k. */
  lemma FirstTurn(p: Plan)
    requires p.Valid()
    ensures Gets(p, p.k, Bare(Free), Head(0, p.k), p.k, Closed)
  {
    hide Gets, Bare;
    TallyUpTo(p, p.n - 1);
    TallyOne(p, p.n - 1);
    Elsewhere(p, p.n - 1, p.k, Head(0, 0), 0);
    SkipToward(p, Bare(Free), 0, 0, p.k);
  }

  lemma FirstAdmitted(p: Plan)
    requires p.Valid()
    ensures p.High() >= 0.0
    ensures Gets(p, p.k, Bare(Gate(1)), Growing(p), (p.k + 1) % p.n, Admitted(Estimate(p.High(), 0)))
  {
    FirstTurn(p);
    BareShape(Free);
    hide Gets, Shape, LiveCount;
    TurnToGate(p, Bare(Free), 0, 0, p.k);
    DoGate(p, Bare(Gate(1)), Growing(p), (p.k + 1) % p.n, Estimate(p.High(), 0));
  }

  lemma FirstMade(p: Plan)
    requires p.Valid()
    ensures Gets(p, p.k, First(Reserved(p), ONE_DIR, {}, FRESH_INFO, Prep(1, 0)), Growing(p), (p.k + 1) % p.n, Closed)
  {
    FirstReserved(p);
    hide Gets, Plan.High;
    DoPool(p, p.k, First(Reserved(p), map[], {}, FRESH_INFO, Made(1, 0)), OfStart(MkdirOk),
           First(Reserved(p), ONE_DIR, {}, FRESH_INFO, Prep(1, 0)), Growing(p), (p.k + 1) % p.n, Closed);
  }

  /** The launch of slot 1 begins. */
  lemma FirstPrepared(p: Plan)
    requires p.Valid()
    ensures Gets(p, p.k, First(NamedFirst(p), ONE_DIR, {}, FRESH_INFO, Named(1, 0)), Growing(p), (p.k + 1) % p.n,
      Closed)
  {
    FirstMade(p);
    hide Gets, Plan.High;
    var c := (p.k + 1) % p.n;
    DoPool(p, p.k, First(Reserved(p), ONE_DIR, {}, FRESH_INFO, Prep(1, 0)), OfStart(GotName("r")),
           First(NamedFirst(p), ONE_DIR, {}, FRESH_INFO, Named(1, 0)), Growing(p), c, Closed);
  }

  /** Its outcome is unknown, so it is charged as an unknown job. */
  lemma FirstLost(p: Plan)
    requires p.Valid()
    ensures Gets(p, p.k, First(Lost(p), ONE_DIR, {1}, WATCHED, Surplus(1, false)), Growing(p), (p.k + 1) % p.n, Closed)
  {
    FirstPrepared(p);
    hide Gets, LiveCount, Picks, LowestFree;
    var c, begun := (p.k + 1) % p.n, FRESH_INFO.(launched := true);
    DoPool(p, p.k, First(NamedFirst(p), ONE_DIR, {}, FRESH_INFO, Named(1, 0)), OfLaunch(StartCall),
           First(NamedFirst(p), ONE_DIR, {1}, begun, Launching(1, 0)), Growing(p), c, Closed);
    DoPool(p, p.k, First(NamedFirst(p), ONE_DIR, {1}, begun, Launching(1, 0)), OfLaunch(StartUncertain),
           First(Lost(p), ONE_DIR, {1}, WATCHED, Surplus(1, false)), Growing(p), c, Closed);
  }

  ghost function OneLost(p: Plan, ops: Ops): Sys { First(Lost(p), ONE_DIR, {1}, WATCHED, ops) }

  lemma OneIsLive(p: Plan, ops: Ops)
    ensures LiveCount(OneLost(p, ops).tab) == 1
    ensures ops.Free? || ops.Gate? || ops.Surplus? ==> Shape(OneLost(p, ops))
  {
    assert LiveIn(OneLost(p, ops).tab, 1) == 1;
  }

  lemma FirstReleased(p: Plan)
    requires p.Valid()
    ensures Gets(p, p.k, OneLost(p, Free), Growing(p), (p.k + 1) % p.n, Closed)
  {
    FirstLost(p);
    OneIsLive(p, Surplus(1, false));
    hide Gets, LiveCount;
    DoSurplus(p, p.k, OneLost(p, Surplus(1, false)), Growing(p), (p.k + 1) % p.n);
  }

  /** Its turn is over, one slot gained. */
  lemma FirstOver(p: Plan)
    requires p.Valid()
    ensures Gets(p, p.k, OneLost(p, Free), Head(1, 0), (p.k + 1) % p.n, Closed)
  {
    var c := (p.k + 1) % p.n;
    hide *;
    FirstReleased(p);
    ReadOneMore(p, c);
  }

  /** The turn comes round to pool k again. */
  lemma Round(p: Plan)
    requires p.Valid()
    ensures Gets(p, p.k, OneLost(p, Free), Head(1, p.n - 1), p.k, Closed)
  {
    FirstOver(p);
    ComesRound(p.k, p.n);
    var c := (p.k + 1) % p.n;
    hide *;
    SkipToward(p, OneLost(p, Free), 1, c, p.n - 1);
  }

  lemma ComesRound(k: nat, n: nat)
    requires k < n
    ensures (k + 1) % n < n && Along((k + 1) % n, n - 1, n) == k
  {
    NotPast(k, n);
  }

  lemma ReadOneMore(p: Plan, c: nat)
    requires Gets(p, p.k, OneLost(p, Free), Growing(p), c, Closed)
    ensures Gets(p, p.k, OneLost(p, Free), Head(1, 0), c, Closed)
  {
    OneIsLive(p, Free);
    IsFree(p, p.k, OneLost(p, Free), Growing(p), c);
    hide Gets, Shape, LiveCount;
    DoMove(p, p.k, OneLost(p, Free), ReadAfter, Growing(p), c);
  }

  // ------------------------------------------------------------------ the second slot

  ghost function Both(p: Plan, r: Rec): Sys {
    Table([r, NewRec(2, 0, p.Room(), 0)], map[1 := 0, 2 := 1], ONE_DIR, {1}, [WATCHED, FRESH_INFO], Made(2, 1))
  }

  ghost function Regrowing(p: Plan): Pc
    requires p.n > 0
  {
    GrowIn(p.k, 1, 1, p.n - 1)
  }

  /** Beside a slot charged as an unknown job there is room for what is left of the limit. */
  lemma RoomIsAdmitted(p: Plan)
    requires p.Valid()
    ensures p.Room() >= 0.0
    ensures Admits(Some(p.hist), p.k, Snapshot(OneLost(p, Gate(2)), p.k, 1), Estimate(p.Room(), 0), p.limits, None)
  {
    LostIsRead(p);
    hide Snapshot, OneLost;
    LostIsUnknown(p, Estimate(p.Room(), 0));
    hide SumCores;
  }

  lemma LostIsRead(p: Plan)
    ensures Snapshot(OneLost(p, Gate(2)), p.k, 1) == [ViewOf(p.k, Lost(p))]
  {
    assert Snapshot(OneLost(p, Gate(2)), p.k, 0) == [];
    hide Plan.High;
  }

  lemma LostIsUnknown(p: Plan, e: Estimate)
    ensures SumCores(p.hist, [ViewOf(p.k, Lost(p))], p.k, e) == p.hist.cores(p.k, "")
  {
    var read := [ViewOf(p.k, Lost(p))];
    assert read[..0] == [];
    assert CoresOf(p.hist, read[0], p.k, e) == p.hist.cores(p.k, "");
    hide CoresOf, Plan.High, Lost;
  }

  lemma SecondFits(p: Plan)
    ensures var s, act := OneLost(p, Gate(2)), OfStart(ReserveSlot(2, 0, p.Room(), 0));
      Shape(s) && Enabled(s, act) && Apply(s, act) == Both(p, Lost(p)) && Shape(Both(p, Lost(p)))
  {
    OneIsLive(p, Gate(2));
    BothShape(p, Lost(p));
    assert LowestFree(OneLost(p, Gate(2)).tab.slots, 2);
    hide LiveCount, Plan.High, Plan.Room, Shape, LowestFree;
  }

  lemma BothShape(p: Plan, r: Rec)
    requires r.id == 1
    ensures Shape(Both(p, r))
  {}

  lemma SecondReserved(p: Plan)
    requires p.Valid()
    ensures Gets(p, p.k, Both(p, Lost(p)), Regrowing(p), (p.k + 1) % p.n, Closed)
  {
    SecondAdmitted(p);
    RoomIsAdmitted(p);
    SecondFits(p);
    hide Gets, Shape, Enabled, Apply, Plan.High, Plan.Room, Admits, Snapshot;
    DoPool(p, p.k, OneLost(p, Gate(2)), OfStart(ReserveSlot(2, 0, p.Room(), 0)), Both(p, Lost(p)), Regrowing(p),
           (p.k + 1) % p.n, Admitted(Estimate(p.Room(), 0)));
  }

  lemma SecondAdmitted(p: Plan)
    requires p.Valid()
    ensures Gets(p, p.k, OneLost(p, Gate(2)), Regrowing(p), (p.k + 1) % p.n, Admitted(Estimate(p.Room(), 0)))
  {
    Round(p);
    OneIsLive(p, Free);
    RoomIsAdmitted(p);
    hide Gets, Shape, LiveCount, Admits, Snapshot, Plan.High, Plan.Room;
    TurnToGate(p, OneLost(p, Free), 1, 1, p.n - 1);
    DoGate(p, OneLost(p, Gate(2)), Regrowing(p), (p.k + 1) % p.n, Estimate(p.Room(), 0));
  }

  /** The first slot is claimed by the large job after all. */
  function Turned(p: Plan): Rec { ClaimRec(Lost(p), Job("r", p.ref, 0, 0.0), 0) }

  lemma ClaimIsApplied(p: Plan)
    requires Shape(Both(p, Lost(p)))
    ensures var s, act := Both(p, Lost(p)), OfOuter(ClaimJob(0, Job("r", p.ref, 0, 0.0), 0));
      Enabled(s, act) && Apply(s, act) == Both(p, Turned(p)) && Trusting(p.hist, p.k, s, act)
  {
    hide Shape, Plan.Room;
  }

  lemma LargeClaim(p: Plan)
    requires p.Valid()
    ensures Gets(p, p.k, Both(p, Turned(p)), Regrowing(p), (p.k + 1) % p.n, Closed)
  {
    SecondReserved(p);
    BothShape(p, Lost(p));
    BothShape(p, Turned(p));
    ClaimIsApplied(p);
    hide Gets, Shape, Enabled, Apply, Plan.Room, Lost;
    DoPool(p, p.k, Both(p, Lost(p)), OfOuter(ClaimJob(0, Job("r", p.ref, 0, 0.0), 0)), Both(p, Turned(p)), Regrowing(p),
           (p.k + 1) % p.n, Closed);
  }

  // ------------------------------------------------------------------ what it is charged

  lemma BothCharged(p: Plan)
    ensures LiveCount(Both(p, Turned(p)).tab) == 2
    ensures LiveCharge(p.hist, p.k, Both(p, Turned(p)), 2) == p.High() + p.Room()
  {
    var s := Both(p, Turned(p));
    assert LiveIn(s.tab, 1) == 1;
    assert LiveCharge(p.hist, p.k, s, 1) == p.High();
  }

  lemma {:induction false} ChargedAlone(p: Plan, s: Sys, n: nat)
    requires n <= p.n
    ensures LiveChargeOf(p.hist, Pools(p.n, p.k, s), n)
      == if p.k < n then LiveCharge(p.hist, p.k, s, |s.tab.recs|) else 0.0
  {
    if n > 0 {
      ChargedAlone(p, s, n - 1);
      assert LiveCharge(p.hist, n - 1, Bare(Free), 0) == 0.0;
    }
  }

  lemma LiveAlone(p: Plan, s: Sys)
    requires p.k < p.n
    ensures Sum(Lives(Pools(p.n, p.k, s))) == LiveCount(s.tab)
  {
    BareShape(Free);
    hide LiveCount;
    var zeros := Lives(Pools(p.n, p.k, Bare(Free)));
    SumZeros(zeros);
    SumSet(zeros, p.k, LiveCount(s.tab));
    assert Lives(Pools(p.n, p.k, s)) == zeros[p.k := LiveCount(s.tab)];
  }

  // ------------------------------------------------------------------ the result

  /** A run of a host with this history, these limits, this maximum and n pools, in which every
      claim and uncertain launch is predicted within its slot's reservation and nothing was
      adopted, and yet two slots or more are live and charged beyond the CPU limit. */
  ghost predicate Overloads(g: Gated, hist: Hist, limits: Limits, max: nat, n: nat) {
    && TrustingReachable(g) && !g.host.pc.Booting? && g.host.adopted == 0
    && g.hist == hist && g.limits == limits && g.host.max == max && |g.host.pools| == n
    && Sum(Lives(g.host.pools)) >= 2 && LiveChargeOf(hist, g.host.pools, n) > limits.Cpu()
  }

  /** In an underrated pool: the first slot is launched with an unknown outcome and charged as an
      unknown job when the second is admitted, and then claimed by a job as large as its
      reservation. */
  lemma UnderratedOverloads(p: Plan)
    requires p.Valid()
    ensures exists g :: Overloads(g, p.hist, p.limits, p.max, p.n)
  {
    LargeClaim(p);
    BothCharged(p);
    var s := Both(p, Turned(p));
    hide TrustingReachable, LiveCount;
    ChargedAlone(p, s, p.n);
    LiveAlone(p, s);
    var g := At(p, p.k, s, Regrowing(p), (p.k + 1) % p.n, Closed);
    assert Overloads(g, p.hist, p.limits, p.max, p.n);
  }

  /** Reservations are not enough if and only if the host may run two slots and some pool is
      underrated: an unknown job fits the CPU limit there and some job is predicted above it. */
  lemma ReservationIsNotEnough(hist: Hist, limits: Limits, max: nat, n: nat)
    requires hist.Sane()
    ensures (exists g :: Overloads(g, hist, limits, max, n)) <==>
      max >= 2 && exists k: nat | k < n :: Underrated(hist, limits, k)
  {
    if max >= 2 && exists k: nat | k < n :: Underrated(hist, limits, k) {
      var k: nat :| k < n && Underrated(hist, limits, k);
      var ref :| hist.cores(k, ref) > hist.cores(k, "");
      UnderratedOverloads(Plan(hist, limits, max, n, k, ref));
    }
    forall g | Overloads(g, hist, limits, max, n)
        ensures max >= 2 && exists k: nat | k < n :: Underrated(hist, limits, k) {
      OverloadIsUnderrated(g);
    }
  }

  lemma OverloadIsUnderrated(g: Gated)
    requires Overloads(g, g.hist, g.limits, g.host.max, |g.host.pools|)
    ensures g.host.max >= 2 && exists k: nat | k < |g.host.pools| :: Underrated(g.hist, g.limits, k)
  {
    hide TrustingReachable, HostInv, Underrated;
    TrustingHostInv(g);
    HostLimits.CountsBelowMaximum(g.host);
    HostLimits.LivesBelowCounts(g.host.pools);
    if forall k | 0 <= k < |g.host.pools| :: !Underrated(g.hist, g.limits, k) {
      TrustSuffices(g);
    }
  }
}
