/** When the configured maximum is a ceiling on starts: exactly when adoption finds no more slots
    than it. */
module HostLimits {
  import opened Basics
  import opened SlotModel
  import opened SlotProtocol
  import opened SlotInvariant
  import opened SlotCount
  import opened HostCeiling
  import opened Sums

  lemma {:induction false} RunAppend(h: Host, acts: seq<HostAct>, g: Host, a: HostAct)
    requires HostRun(h, acts, g) && Shapes(g) && HostEnabled(g, a)
    ensures HostRun(h, acts + [a], ApplyHost(g, a))
    decreases |acts|
  {
    hide HostEnabled, ApplyHost, Shapes;
    if acts == [] {
      assert [a][1..] == [];
      assert HostRun(ApplyHost(g, a), [], ApplyHost(g, a));
      assert acts + [a] == [a];
    } else {
      RunAppend(ApplyHost(h, acts[0]), acts[1..], g, a);
      assert (acts + [a])[1..] == acts[1..] + [a];
    }
  }

  lemma Go(h: Host, a: HostAct)
    requires HostReachable(h) && Shapes(h) && HostEnabled(h, a)
    ensures HostReachable(ApplyHost(h, a))
  {
    hide HostInit, HostEnabled, ApplyHost, Shapes;
    var h0, acts :| HostInit(h0) && HostRun(h0, acts, h);
    RunAppend(h0, acts, h, a);
  }

  /** A reservation about to be made with the host at its maximum, or above. */
  ghost predicate StartsAboveMaximum(h: Host, k: nat, act: Act) {
    && HostReachable(h) && Shapes(h) && HostEnabled(h, PoolStep(k, act)) && act.OfStart? && act.start.ReserveSlot?
    && Sum(Lives(h.pools)) >= h.max
  }

  // ------------------------------------------------------------------ adopted at most the maximum

  lemma ReserveRaises(h: Host, k: nat, act: Act)
    requires HostInv(h) && HostEnabled(h, PoolStep(k, act)) && act.OfStart? && act.start.ReserveSlot?
    ensures Sum(Counts(ApplyHost(h, PoolStep(k, act)).pools)) == Sum(Counts(h.pools)) + 1
  {
    var s, t := h.pools[k], Apply(h.pools[k], act);
    assert Inv(s);
    hide Inv, HostInv, Shape, Enabled, Apply, Count;
    CountRaises(s, act);
    assert Counts(h.pools[k := t]) == Counts(h.pools)[k := Count(t)];
    SumSet(Counts(h.pools), k, Count(t));
  }

  lemma CountRaises(s: Sys, act: Act)
    requires Inv(s) && Enabled(s, act) && act.OfStart? && act.start.ReserveSlot?
    ensures Count(Apply(s, act)) == Count(s) + 1
  {
    InvShape(s);
    hide Inv, Shape, Counted;
    StepReserves(s, act.start.id, act.start.now, act.start.cores, act.start.mem);
    SameCountIn(s, Apply(s, act), |s.tab.recs|);
  }

  /** With no more adopted than the maximum, every start finds fewer than that live. */
  lemma StartsBelowMaximum(h: Host, k: nat, act: Act)
    requires HostReachable(h) && Shapes(h) && HostEnabled(h, PoolStep(k, act)) && act.OfStart? && act.start.ReserveSlot?
    requires h.adopted <= h.max
    ensures Sum(Lives(h.pools)) < h.max
  {
    hide HostInv, Shape, Enabled, Apply;
    HostReachableInv(h);
    ReserveRaises(h, k, act);
    HostStepKeeps(h, PoolStep(k, act));
    NotBooting(h, k, act);
    CountsBelowMaximum(ApplyHost(h, PoolStep(k, act)));
    LivesBelowCounts(h.pools);
  }

  lemma NotBooting(h: Host, k: nat, act: Act)
    requires HostInv(h) && HostEnabled(h, PoolStep(k, act)) && act.OfStart? && act.start.ReserveSlot?
    ensures !h.pc.Booting?
  {
    hide Inv, Budget, Count, Within;
    assert TokenOk(h.pools[k], h.pc, k);
  }

  lemma CountsBelowMaximum(h: Host)
    requires HostInv(h) && !h.pc.Booting? && h.adopted <= h.max
    ensures Sum(Counts(h.pools)) <= h.max
  {
    hide Budget, PoolsOk, Shapes;
    BudgetBounds(Counts(h.pools), h.pc, h.max, Max(h.max, h.start));
  }

  lemma LivesBelowCounts(pools: seq<Sys>)
    ensures Sum(Lives(pools)) <= Sum(Counts(pools))
  {
    hide Count, LiveCount;
    forall j | 0 <= j < |pools| ensures LiveCount(pools[j].tab) <= Count(pools[j]) {
      LiveBelowCount(pools[j]);
    }
    SumMonotone(Counts(pools), Lives(pools));
  }

  // ------------------------------------------------------------------ adopted more

  const ANY_CONFIG := Config(0, 0, false)

  const ONE_ID: set<ID> := {1}

  const NO_IDS: set<ID> := {}

  const ONE_DIR: map<ID, bool> := map[1 := false]

  const ADOPTED := BlankRec(1, Busy).(startedAt := Some(0))

  const WATCHING := FRESH_INFO.(watch := Waiting, launched := true)

  /** A pool that finds one unit running when it boots. */
  ghost function Fresh(): Sys {
    Sys(ANY_CONFIG, EMPTY_TAB, ONE_DIR, ONE_ID, ONE_ID, Entries(ONE_ID), Free, [])
  }

  ghost function One(r: Rec, k: Info, mayRun: set<ID>, boot: Boot, ops: Ops): Sys {
    Sys(ANY_CONFIG, Tab(map[1 := 0], [r], false), ONE_DIR, mayRun, ONE_ID, boot, ops, [k])
  }

  ghost function Booted(boot: Boot): Sys { One(ADOPTED, WATCHING, ONE_ID, boot, Free) }

  /** A step of pool 0. */
  lemma First(h: Host, act: Act, t: Sys)
    requires HostReachable(h) && Shapes(h) && |h.pools| > 0 && Enabled(h.pools[0], act) && !TakesToken(act)
      && t == Apply(h.pools[0], act)
    ensures HostReachable(h.(pools := h.pools[0 := t]))
  {
    hide HostReachable, Shape, Enabled, Apply;
    Go(h, PoolStep(0, act));
  }

  lemma BootStep(h: Host, k: nat, act: BootAct, s: Sys, t: Sys)
    requires HostReachable(h) && Shapes(h) && k < |h.pools| && h.pools[k] == s && BootEnabled(s, act)
      && t == ApplyBoot(s, act)
    ensures HostReachable(h.(pools := h.pools[k := t])) && Shapes(h.(pools := h.pools[k := t]))
  {
    hide HostReachable, HostInv, Shape, BootEnabled, ApplyBoot;
    Go(h, PoolStep(k, OfBoot(act)));
    HostReachableInv(ApplyHost(h, PoolStep(k, OfBoot(act))));
    HostInvShapes(ApplyHost(h, PoolStep(k, OfBoot(act))));
  }

  lemma HostInvShapes(h: Host)
    requires HostInv(h)
    ensures Shapes(h)
  {}

  /** One pool boots. */
  lemma PoolBoots(h: Host, k: nat)
    requires HostReachable(h) && Shapes(h) && k < |h.pools| && h.pools[k] == Fresh()
    ensures HostReachable(h.(pools := h.pools[k := Booted(Done)])) && Shapes(h.(pools := h.pools[k := Booted(Done)]))
  {
    hide HostReachable, Shapes;
    assert ONE_ID - {1} == NO_IDS;
    var g := h;
    BootStep(g, k, BootAdopt(1, "", 0), Fresh(), Booted(Entries(NO_IDS)));
    g := g.(pools := g.pools[k := Booted(Entries(NO_IDS))]);
    BootStep(g, k, BootEntriesEnd, Booted(Entries(NO_IDS)), Booted(Units(ONE_ID)));
    g := g.(pools := g.pools[k := Booted(Units(ONE_ID))]);
    BootStep(g, k, BootSkip(1), Booted(Units(ONE_ID)), Booted(Units(NO_IDS)));
    g := g.(pools := g.pools[k := Booted(Units(NO_IDS))]);
    BootStep(g, k, BootEnd, Booted(Units(NO_IDS)), Booted(Done));
    assert h.pools[k := Booted(Done)] == g.pools[k := Booted(Done)];
  }

  /** n pools, the first m of them booted. */
  ghost function Fleet(n: nat, m: nat): (pools: seq<Sys>)
    ensures |pools| == n && forall k | 0 <= k < n :: pools[k] == if k < m then Booted(Done) else Fresh()
  {
    seq(n, k => if k < m then Booted(Done) else Fresh())
  }

  lemma {:induction false} FleetBoots(max: nat, n: nat, m: nat)
    requires m <= n
    ensures var h := Host(Fleet(n, m), max, Booting, 0, 0, 0); HostReachable(h) && Shapes(h)
  {
    hide HostReachable;
    if m == 0 {
      FleetStarts(max, n);
    } else {
      FleetBoots(max, n, m - 1);
      var h := Host(Fleet(n, m - 1), max, Booting, 0, 0, 0);
      PoolBoots(h, m - 1);
      assert h.pools[m - 1 := Booted(Done)] == Fleet(n, m);
    }
  }

  lemma FleetStarts(max: nat, n: nat)
    ensures var h := Host(Fleet(n, 0), max, Booting, 0, 0, 0); HostReachable(h) && Shapes(h)
  {
    var h := Host(Fleet(n, 0), max, Booting, 0, 0, 0);
    assert HostInit(h);
    assert HostRun(h, [], h);
  }

  lemma CountOne(s: Sys)
    requires s == Booted(Done)
    ensures Count(s) == 1 && LiveCount(s.tab) == 1 && Shape(s)
  {
    assert CountIn(s, 0) == 0 && LiveIn(s.tab, 0) == 0;
  }

  lemma {:induction false} SumOnes(c: seq<nat>)
    requires forall k | 0 <= k < |c| :: c[k] == 1
    ensures Sum(c) == |c|
  {
    if c != [] {
      SumOnes(c[..|c| - 1]);
    }
  }

  lemma FleetCounts(n: nat)
    ensures Sum(Counts(Fleet(n, n))) == n
  {
    CountOne(Booted(Done));
    SumOnes(Counts(Fleet(n, n)));
  }

  /** Maintenance has read one live slot in pool 0 and is about to call Ensure(1). */
  lemma FleetRead(max: nat, n: nat)
    requires n > 0
    ensures var h := Host(Fleet(n, n), max, MaintCall(0, 1, 1), 0, n, n); HostReachable(h) && Shapes(h)
  {
    FleetBoots(max, n, n);
    FleetCounts(n);
    CountOne(Booted(Done));
    hide HostReachable, Shape, Count, LiveCount;
    var pools := Fleet(n, n);
    Go(Host(pools, max, Booting, 0, 0, 0), AdoptionOver);
    Go(Host(pools, max, Resting, 0, n, n), PassStart);
    Go(Host(pools, max, MaintRead(0), 0, n, n), Move(ReadLive(1)));
  }

  const CONFIRMED := WATCHING.(watch := Confirmed, exitConfirmed := true)

  const EXITED := CONFIRMED.(watch := Over, mayClean := true)

  const STOPPED := ObservedRec(ANY_CONFIG, ADOPTED, 0)

  ghost function Gone(ops: Ops): Sys { One(STOPPED, EXITED, NO_IDS, Done, ops) }

  lemma GoneShape(ops: Ops)
    requires ops.Free? || ops.Loop? || ops.Gate?
    ensures Shape(Gone(ops)) && LiveCount(Gone(ops).tab) == 0
  {
    assert LiveIn(Gone(ops).tab, 0) == 0;
  }

  ghost function Lacking(max: nat, n: nat, s: Sys, pc: Pc): Host
    requires n > 0
  {
    Host(Fleet(n, n)[0 := s], max, pc, 0, n, n)
  }

  /** Meanwhile that slot's unit exits. */
  lemma OneExits(max: nat, n: nat)
    requires n > 0
    ensures HostReachable(Lacking(max, n, Gone(Free), MaintCall(0, 1, 1)))
  {
    FleetRead(max, n);
    hide HostReachable;
    assert ONE_ID - {1} == NO_IDS;
    var h := Host(Fleet(n, n), max, MaintCall(0, 1, 1), 0, n, n);
    var s := One(ADOPTED, CONFIRMED, NO_IDS, Done, Free);
    First(h, OfWatch(WaitNil(0, true)), s);
    var g := h.(pools := h.pools[0 := s]);
    assert Shapes(g);
    First(g, OfWatch(WatchObserve(0, 0)), Gone(Free));
    assert g.pools[0 := Gone(Free)] == Fleet(n, n)[0 := Gone(Free)];
  }

  /** Ensure finds it missing. */
  lemma AtGate(max: nat, n: nat)
    requires n > 0
    ensures HostReachable(Lacking(max, n, Gone(Gate(1)), MaintIn(0, 1)))
  {
    OneExits(max, n);
    GoneShape(Free);
    GoneShape(Loop(1));
    CountOne(Booted(Done));
    hide HostReachable, Shape, LiveCount;
    var h := Lacking(max, n, Gone(Free), MaintCall(0, 1, 1));
    Go(h, MaintTake);
    var g := Lacking(max, n, Gone(Loop(1)), MaintIn(0, 1));
    assert h.pools[0 := Gone(Loop(1))] == g.pools;
    First(g, OfStart(LoopStart), Gone(Gate(1)));
    assert g.pools[0 := Gone(Gate(1))] == Fleet(n, n)[0 := Gone(Gate(1))];
  }

  lemma LackingLives(max: nat, n: nat)
    requires n > 0
    ensures Sum(Lives(Fleet(n, n)[0 := Gone(Gate(1))])) == n - 1
  {
    CountOne(Booted(Done));
    GoneShape(Gate(1));
    hide LiveCount;
    var c := Lives(Fleet(n, n));
    SumOnes(c);
    SumSet(c, 0, 0);
    assert Lives(Fleet(n, n)[0 := Gone(Gate(1))]) == c[0 := 0];
  }

  lemma LackingReserves(max: nat, n: nat)
    requires n > 0
    ensures var h := Lacking(max, n, Gone(Gate(1)), MaintIn(0, 1));
      Shapes(h) && HostEnabled(h, PoolStep(0, OfStart(ReserveSlot(2, 0, 0.0, 0))))
  {
    CanReserve();
    CountOne(Booted(Done));
    hide Shape, StartEnabled;
  }

  lemma CanReserve()
    ensures Shape(Gone(Gate(1))) && StartEnabled(Gone(Gate(1)), ReserveSlot(2, 0, 0.0, 0))
  {
    GoneShape(Gate(1));
  }

  /** With more adopted than the maximum, maintenance replaces a slot that exits although the
      others fill the host. */
  lemma MaintenanceReplacesAboveMaximum(max: nat, n: nat)
    requires n > max
    ensures exists h, act :: StartsAboveMaximum(h, 0, act) && h.max == max && h.adopted == n
  {
    AtGate(max, n);
    LackingLives(max, n);
    LackingReserves(max, n);
    hide HostReachable, HostEnabled, Shapes;
    var h := Lacking(max, n, Gone(Gate(1)), MaintIn(0, 1));
    var act := OfStart(ReserveSlot(2, 0, 0.0, 0));
    assert StartsAboveMaximum(h, 0, act);
  }

  /** A host that adopted n slots can start one at or above its maximum if and only if n is more
      than the maximum. */
  lemma CeilingOnStarts(max: nat, n: nat)
    ensures (exists h, k, act :: StartsAboveMaximum(h, k, act) && h.max == max && h.adopted == n) <==> n > max
  {
    hide HostReachable, HostEnabled, Shapes;
    if n > max {
      MaintenanceReplacesAboveMaximum(max, n);
    }
    forall h, k, act | StartsAboveMaximum(h, k, act) && h.max == max && h.adopted == n ensures n > max {
      if h.adopted <= h.max {
        StartsBelowMaximum(h, k, act);
      }
    }
  }
}
