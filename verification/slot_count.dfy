/** How many slots of one table count against the host ceiling, and how the steps of the table
    change that number. A record counts while it is live, and also while it is marked for a
    stop that may still fail and bring it back. */
module SlotCount {
  import opened SlotModel
  import opened SlotProtocol
  import opened SlotInvariant
  import opened SlotSteps

  ghost predicate Counted(s: Sys, i: nat) {
    && i < |s.tab.recs| && Current(s.tab, i)
    && var r := s.tab.recs[i];
       r.state.Live() || (r.state.Stopping? && !r.cleanupPending && Candidate(s, i))
  }

  ghost predicate Candidate(s: Sys, i: nat) {
    RoleOf(s.boot, s.ops, i).Cand? || RoleOf(s.boot, s.ops, i).CandStopped?
  }

  ghost function CountIn(s: Sys, n: nat): nat
    requires n <= |s.tab.recs|
  {
    if n == 0 then 0 else CountIn(s, n - 1) + if Counted(s, n - 1) then 1 else 0
  }

  ghost function Count(s: Sys): nat {
    CountIn(s, |s.tab.recs|)
  }

  /** The parts of a record the admission gate charges by. */
  ghost predicate SameBasis(a: Rec, b: Rec) {
    a.reservedCores == b.reservedCores && a.state.Busy? == b.state.Busy? && a.work.workflowRef == b.work.workflowRef
  }

  /** Every record counted in t was counted in s with the same reservation, and, except for
      record x, is charged for the same thing. */
  ghost predicate Shrinks(s: Sys, t: Sys, x: int) {
    && |t.tab.recs| == |s.tab.recs|
    && forall i | 0 <= i < |s.tab.recs| && Counted(t, i) ::
         Counted(s, i) && t.tab.recs[i].reservedCores == s.tab.recs[i].reservedCores
         && (i != x ==> SameBasis(t.tab.recs[i], s.tab.recs[i]))
  }

  lemma {:induction false} ShrinksIn(s: Sys, t: Sys, x: int, n: nat)
    requires Shrinks(s, t, x) && n <= |s.tab.recs|
    ensures CountIn(t, n) <= CountIn(s, n)
  {
    if n > 0 {
      ShrinksIn(s, t, x, n - 1);
    }
  }

  /** With no stop under way the counted records are the live ones. */
  lemma {:induction false} CountIsLive(s: Sys, n: nat)
    requires n <= |s.tab.recs| && !InStops(s.ops)
    ensures CountIn(s, n) == LiveIn(s.tab, n)
  {
    if n > 0 {
      CountIsLive(s, n - 1);
    }
  }

  // ------------------------------------------------------------------ steps

  lemma ShrinkBuild(s: Sys, a: StartAct)
    requires Links(s) && StartEnabled(s, a) && (a.MkdirFail? || a.MkdirOk? || a.PrepFail? || a.GotName?)
    ensures Shrinks(s, ApplyStart(s, a), -1)
  {
    hide Wf, Distinct, WorkerShape, LiveCount;
  }

  lemma ShrinkLoop(s: Sys, a: StartAct)
    requires Links(s) && StartEnabled(s, a)
    requires a.Acquire? || a.LoopStart? || a.LoopEnd? || a.LoopCancel? || a.GateRefuse?
    ensures Shrinks(s, ApplyStart(s, a), -1) && ApplyStart(s, a).tab == s.tab
  {
    hide BootOk, Wf;
  }

  lemma ShrinkLaunch(s: Sys, a: LaunchAct)
    requires Inv(s) && LaunchEnabled(s, a) && !a.FailClean? && !a.StartNotStarted?
    ensures Shrinks(s, ApplyLaunch(s, a), if a.StartUncertain? then s.ops.inc else -1)
  {
    hide BootOk, Good, Wf, Distinct, WorkerShape, LiveCount, Picks;
    LaunchIsLive(LocalOf(s, s.ops.inc));
  }

  lemma ShrinkNotStarted(s: Sys)
    requires Links(s) && LaunchEnabled(s, StartNotStarted)
    ensures Shrinks(s, ApplyLaunch(s, StartNotStarted), -1)
  {
    hide BootOk, Wf, Distinct, WorkerShape, LiveCount, Picks;
  }

  lemma ShrinkFailClean(s: Sys)
    requires Links(s) && LaunchEnabled(s, FailClean)
    ensures Shrinks(s, ApplyLaunch(s, FailClean), -1)
  {
    hide Wf, Distinct, WorkerShape;
  }

  lemma LaunchIsLive(l: Local)
    requires Good(l)
    ensures Launchee(l.role) ==> l.current && l.rec.state.Live()
  {}

  lemma ShrinkPick(s: Sys, picked: seq<nat>, now: int)
    requires Links(s) && StopEnabled(s, Pick(picked, now))
    ensures Shrinks(s, ApplyStop(s, Pick(picked, now)), -1)
  {
    hide Wf, Distinct, WorkerShape, LiveCount;
    forall i | 0 <= i < |s.tab.recs| && i in picked ensures Current(s.tab, i) && s.tab.recs[i].state.Live() {
      assert Eligible(s.cfg, s.tab, i, now, s.ops.ignoreIdleGrace);
    }
    hide Picks;
  }

  lemma ShrinkRestore(s: Sys)
    requires Links(s) && StopEnabled(s, RestoreOld)
    ensures Shrinks(s, ApplyStop(s, RestoreOld), -1)
  {
    LinksPc(s);
    PcTail(s);
  }

  lemma ShrinkStopWait(s: Sys)
    requires Links(s) && StopEnabled(s, StopWait)
    ensures Shrinks(s, ApplyStop(s, StopWait), -1)
  {
    LinksPc(s);
    PcTail(s);
  }

  lemma ShrinkStop(s: Sys, a: StopAct)
    requires Links(s) && StopEnabled(s, a) && (a.Release? || a.StopFails? || a.StopOk?)
    ensures Shrinks(s, ApplyStop(s, a), -1)
  {
    hide BootOk;
  }

  lemma ShrinkStopObserve(s: Sys, now: int)
    requires Links(s) && StopEnabled(s, StopObserve(now))
    ensures Shrinks(s, ApplyStop(s, StopObserve(now)), -1)
  {
    hide Wf, Distinct, WorkerShape, CompletionOf, AcquireFailed, Completes, QuickNeverBusy;
  }

  lemma ShrinkWatch(s: Sys, a: WatchAct)
    requires Links(s) && WatchEnabled(s, a)
    ensures Shrinks(s, ApplyWatch(s, a), -1)
  {
    hide Wf, Distinct, CompletionOf, AcquireFailed, Completes;
  }

  lemma ShrinkClean(s: Sys, a: CleanAct)
    requires Links(s) && CleanEnabled(s, a)
    ensures Shrinks(s, ApplyClean(s, a), -1)
  {
    hide Wf, Distinct;
  }

  lemma ShrinkOuter(s: Sys, a: OuterAct)
    requires Links(s) && OuterEnabled(s, a)
    ensures Shrinks(s, ApplyOuter(s, a), if a.ClaimJob? then a.inc else -1)
  {
    hide Wf, Distinct, WorkerShape;
  }

  /** The record a step starts to charge for something else: the one a claim or an uncertain
      launch makes busy. */
  ghost function Recharged(s: Sys, a: Act): int {
    match a
    case OfLaunch(StartUncertain) => if s.ops.Launching? then s.ops.inc else -1
    case OfOuter(ClaimJob(i, _, _)) => i
    case _ => -1
  }

  /** After adoption only the reservation of a new slot adds to what is counted. */
  lemma StepShrinks(s: Sys, a: Act)
    requires Inv(s) && Enabled(s, a) && s.boot.Done? && !(a.OfStart? && a.start.ReserveSlot?)
    ensures Shrinks(s, Apply(s, a), Recharged(s, a))
  {
    hide Shrinks, Good, BootOk;
    match a
    case OfBoot(_) =>
    case OfStart(b) =>
      if b.MkdirFail? || b.MkdirOk? || b.PrepFail? || b.GotName? { ShrinkBuild(s, b); } else { ShrinkLoop(s, b); }
    case OfLaunch(b) =>
      match b {
        case FailClean => ShrinkFailClean(s);
        case StartNotStarted => ShrinkNotStarted(s);
        case _ => ShrinkLaunch(s, b);
      }
    case OfStop(b) =>
      match b {
        case Pick(picked, now) => ShrinkPick(s, picked, now);
        case RestoreOld => ShrinkRestore(s);
        case StopObserve(now) => ShrinkStopObserve(s, now);
        case StopWait => ShrinkStopWait(s);
        case _ => ShrinkStop(s, b);
      }
    case OfWatch(b) => ShrinkWatch(s, b);
    case OfClean(b) => ShrinkClean(s, b);
    case OfOuter(b) => ShrinkOuter(s, b);
  }

  /** A reservation adds exactly the new record, live and charged by its reservation. */
  lemma StepReserves(s: Sys, id: ID, now: int, cores: real, mem: nat)
    requires Inv(s) && StartEnabled(s, ReserveSlot(id, now, cores, mem))
    ensures var t := ApplyStart(s, ReserveSlot(id, now, cores, mem));
      && |t.tab.recs| == |s.tab.recs| + 1
      && (forall i | 0 <= i < |s.tab.recs| :: t.tab.recs[i] == s.tab.recs[i] && (Counted(t, i) <==> Counted(s, i)))
      && Counted(t, |s.tab.recs|) && t.tab.recs[|s.tab.recs|] == NewRec(id, now, cores, mem)
  {
    hide Good, BootOk, Distinct, WorkerShape, LiveCount;
  }

  lemma {:induction false} SameCountIn(s: Sys, t: Sys, n: nat)
    requires n <= |s.tab.recs| && n <= |t.tab.recs|
    requires forall i | 0 <= i < n :: Counted(t, i) <==> Counted(s, i)
    ensures CountIn(t, n) == CountIn(s, n)
  {
    if n > 0 {
      SameCountIn(s, t, n - 1);
    }
  }

  // ------------------------------------------------------------------ one Ensure under a cap

  /** The desired count of the loop the token holder is in, or will come back to. */
  ghost predicate Wants(o: Ops, cap: int) {
    o.Loop? || o.Gate? || o.Made? || o.Prep? || o.Named? || o.Launching? || o.Broken? ==> o.desired <= cap
  }

  /** The table holds at most cap slots and its token holder will not go above that. */
  ghost predicate Within(s: Sys, cap: int) {
    Count(s) <= cap && Wants(s.ops, cap) && (s.ops.Gate? ==> Count(s) < s.ops.desired)
  }

  /** The token is free, or its holder is past the last start it will make. */
  ghost predicate Coasts(o: Ops) {
    o.Free? || o.Surplus? || InStops(o)
  }

  ghost predicate TakesToken(a: Act) {
    a.OfStart? && a.start.Acquire?
  }

  /** Whatever happens while an Ensure runs, claims, exits, failed starts, failed stops, the
      table stays within its cap; and outside the start loop its count only falls. */
  lemma StepStaysWithin(s: Sys, a: Act, cap: int)
    requires Inv(s) && Enabled(s, a) && s.boot.Done? && !TakesToken(a)
    requires Within(s, cap)
    ensures Within(Apply(s, a), cap)
    ensures s.ops.Free? ==> Apply(s, a).ops.Free?
    ensures Coasts(s.ops) ==> Count(Apply(s, a)) <= Count(s) && Coasts(Apply(s, a).ops)
    ensures Apply(s, a).boot.Done?
  {
    hide Good, BootOk;
    var t := Apply(s, a);
    if a.OfStart? && a.start.ReserveSlot? {
      var b := a.start;
      StepReserves(s, b.id, b.now, b.cores, b.mem);
      SameCountIn(s, t, |s.tab.recs|);
    } else {
      StepShrinks(s, a);
      ShrinksIn(s, t, Recharged(s, a), |s.tab.recs|);
      OpsMove(s, a, cap);
      if a == OfStart(LoopStart) {
        CountIsLive(s, |s.tab.recs|);
      }
    }
  }

  /** How the token holder's program counter moves. */
  ghost predicate OpsMoved(s: Sys, a: Act, t: Sys, cap: int) {
    && Wants(t.ops, cap) && t.boot.Done?
    && (t.ops.Gate? ==> (a == OfStart(LoopStart) && s.ops.Loop? && t.ops.desired == s.ops.desired) || t.ops == s.ops)
    && (s.ops.Free? ==> t.ops.Free?)
    && (Coasts(s.ops) ==> Coasts(t.ops))
  }

  lemma OpsStarts(s: Sys, a: StartAct, cap: int)
    requires Shape(s) && StartEnabled(s, a) && s.boot.Done? && Wants(s.ops, cap) && !a.Acquire? && !a.ReserveSlot?
    ensures OpsMoved(s, OfStart(a), ApplyStart(s, a), cap)
  {
    hide Wf, Distinct, WorkerShape, LiveCount;
  }

  lemma OpsLaunches(s: Sys, a: LaunchAct, cap: int)
    requires Shape(s) && LaunchEnabled(s, a) && s.boot.Done? && Wants(s.ops, cap)
    ensures OpsMoved(s, OfLaunch(a), ApplyLaunch(s, a), cap)
  {
    hide Wf, Distinct, WorkerShape;
  }

  lemma OpsStops(s: Sys, a: StopAct, cap: int)
    requires Shape(s) && StopEnabled(s, a) && s.boot.Done? && Wants(s.ops, cap)
    ensures OpsMoved(s, OfStop(a), ApplyStop(s, a), cap)
  {
    hide Wf, WorkerShape, Picks;
  }

  lemma OpsElse(s: Sys, a: Act, cap: int)
    requires Shape(s) && Enabled(s, a) && s.boot.Done? && Wants(s.ops, cap) && (a.OfWatch? || a.OfClean? || a.OfOuter?)
    ensures OpsMoved(s, a, Apply(s, a), cap)
  {
    hide Wf, Distinct, WorkerShape;
  }

  lemma OpsMove(s: Sys, a: Act, cap: int)
    requires Shape(s) && Enabled(s, a) && s.boot.Done? && !TakesToken(a) && Wants(s.ops, cap)
    requires !(a.OfStart? && a.start.ReserveSlot?)
    ensures OpsMoved(s, a, Apply(s, a), cap)
  {
    hide Shape, OpsMoved;
    match a
    case OfBoot(_) =>
    case OfStart(b) => OpsStarts(s, b, cap);
    case OfLaunch(b) => OpsLaunches(s, b, cap);
    case OfStop(b) => OpsStops(s, b, cap);
    case _ => OpsElse(s, a, cap);
  }
}
