/** What the slot table guarantees over whole runs, from any boot and in any interleaving. */
module SlotSafety {
  import opened Basics
  import opened SlotModel
  import opened SlotProtocol
  import opened SlotInvariant
  import opened SlotSteps

  /** acts leads from s to t. */
  ghost predicate Run(s: Sys, acts: seq<Act>, t: Sys)
    decreases |acts|
  {
    if acts == [] then s == t
    else Shape(s) && Enabled(s, acts[0]) && Run(Apply(s, acts[0]), acts[1..], t)
  }

  lemma BootInv(s: Sys)
    requires Init(s)
    ensures Inv(s)
  {}

  lemma {:induction false} RunInv(s: Sys, acts: seq<Act>, t: Sys)
    requires Inv(s) && Run(s, acts, t)
    ensures Inv(t)
    decreases |acts|
  {
    hide Inv;
    if acts != [] {
      assert Inv(s);
      KeepStep(s, acts[0]);
      RunInv(Apply(s, acts[0]), acts[1..], t);
    }
  }

  /** s occurs in some run from some boot. */
  ghost predicate Reachable(s: Sys) {
    Shape(s) && exists s0, acts :: Init(s0) && Run(s0, acts, s)
  }

  lemma ReachableInv(s: Sys)
    requires Reachable(s)
    ensures Inv(s)
  {
    hide Init, Inv;
    var s0, acts :| Init(s0) && Run(s0, acts, s);
    BootInv(s0);
    RunInv(s0, acts, s);
  }

  lemma {:induction false} RunAppend(s: Sys, acts: seq<Act>, t: Sys, a: Act)
    requires Run(s, acts, t) && Shape(t) && Enabled(t, a)
    ensures Run(s, acts + [a], Apply(t, a))
    decreases |acts|
  {
    if acts == [] {
      assert [a][1..] == [];
      assert Run(Apply(t, a), [], Apply(t, a));
      assert acts + [a] == [a];
    } else {
      RunAppend(Apply(s, acts[0]), acts[1..], t, a);
      assert (acts + [a])[1..] == acts[1..] + [a];
    }
  }

  lemma ReachableStep(s: Sys, a: Act)
    requires Reachable(s) && Enabled(s, a)
    ensures Reachable(Apply(s, a))
  {
    ReachableInv(s);
    KeepStep(s, a);
    var s0, acts :| Init(s0) && Run(s0, acts, s);
    RunAppend(s0, acts, s, a);
  }

  // ------------------------------------------------------------------ directories

  /** A unit that may be running has a directory no wipe has touched; once adoption is done it
      also has a record that holds its ID and is not being cleaned. */
  lemma RunningUnitKeepsDirectory(s: Sys, id: ID)
    requires Reachable(s) && id in s.mayRun
    ensures id in s.dirs ==> !s.dirs[id]
    ensures id in s.tab.slots ==> id in s.dirs
    ensures s.boot.Done? ==>
      id in s.tab.slots && !s.tab.recs[s.tab.slots[id]].cleanupPending && !s.tab.recs[s.tab.slots[id]].cleaning
  {
    ReachableInv(s);
    if id in s.tab.slots {
      RunningLocal(LocalOf(s, s.tab.slots[id]));
    }
  }

  lemma RunningLocal(l: Local)
    requires Good(l) && l.runs
    ensures l.current && l.clean && !l.rec.cleanupPending && !l.rec.cleaning
    ensures l.info.launched && !l.info.exitConfirmed && !l.info.mayClean
  {}

  /** No step of a cleanup worker reaches the directory of a unit that may be running, tracked or
      not, whatever incarnation the worker was started for. */
  lemma WipeSparesRunning(s: Sys, a: CleanAct, id: ID)
    requires Reachable(s) && CleanEnabled(s, a)
    requires id in s.mayRun && id in s.dirs
    ensures id in ApplyClean(s, a).dirs && !ApplyClean(s, a).dirs[id]
  {
    ReachableInv(s);
    RunningUnitKeepsDirectory(s, id);
    assert Good(LocalOf(s, a.inc));
    if id in s.tab.slots {
      RunningLocal(LocalOf(s, s.tab.slots[id]));
    }
  }

  /** A worker exists, and a wipe has succeeded, only for an incarnation whose launch provably
      did not happen, whose exit the backend confirmed, or whose unit was absent at adoption. */
  lemma WipeNeedsProof(s: Sys, i: nat)
    requires Reachable(s) && i < |s.info|
    requires !s.info[i].worker.NoWorker? || s.info[i].released.Wiped?
    ensures s.info[i].failedStart || s.info[i].exitConfirmed || s.info[i].orphan
    ensures s.info[i].failedStart || s.info[i].orphan ==> !s.info[i].launched
  {
    ReachableInv(s);
    assert Good(LocalOf(s, i));
  }

  // ------------------------------------------------------------------ incarnations

  /** An ID is handed out again only after every earlier incarnation of it was wiped or, its
      mkdir having failed, owned nothing; and then nothing of the earlier one is left to run. */
  lemma ReuseNeedsRelease(s: Sys, i: nat, j: nat)
    requires Reachable(s) && i < |s.info| && j < |s.info| && i != j
    requires UnitOf(s, i) == UnitOf(s, j) && Current(s.tab, j)
    ensures !s.info[i].released.NotYet?
    ensures s.info[i].released.Wiped? ==> s.info[i].failedStart || s.info[i].exitConfirmed || s.info[i].orphan
    ensures s.info[i].released.OwnedNothing? ==> !s.info[i].launched
    ensures s.info[i].worker.NoWorker? || s.info[i].worker.Emitting? || s.info[i].worker.Closing?
  {
    ReachableInv(s);
    assert Good(LocalOf(s, i));
  }

  /** The incarnation on whose behalf a step is taken. */
  ghost function Actor(s: Sys, a: Act): Option<nat>
    requires Shape(s) && Enabled(s, a)
  {
    match a
    case OfBoot(b) => if b.BootClean? then Some(s.boot.inc) else None
    case OfStart(b) => if b.MkdirFail? || b.MkdirOk? || b.PrepFail? || b.GotName? then Some(s.ops.inc) else None
    case OfLaunch(_) => Some(s.ops.inc)
    case OfStop(b) => if b.RestoreOld? || b.StopOk? || b.StopObserve? || b.StopWait? then Some(s.ops.incs[0]) else None
    case OfWatch(b) => Some(b.inc)
    case OfClean(b) => Some(b.inc)
    case OfOuter(b) => if b.CloseTable? then None else Some(b.inc)
  }

  /** A step taken for one incarnation changes no other record, and nothing of another ID. When
      its incarnation is stale (its ID was released, and possibly given to a newer record with
      the same unit name) it leaves every entry of the table and every directory alone. */
  ghost predicate OnlyIts(s: Sys, t: Sys, i: nat)
    requires i < |s.tab.recs|
  {
    && |t.tab.recs| == |s.tab.recs| == |s.info| == |t.info|
    && (forall j | 0 <= j < |s.tab.recs| && j != i :: t.tab.recs[j] == s.tab.recs[j] && t.info[j] == s.info[j])
    && (forall id: ID | id != s.tab.recs[i].id ::
          && (id in t.tab.slots <==> id in s.tab.slots)
          && (id in s.tab.slots ==> t.tab.slots[id] == s.tab.slots[id])
          && (id in t.dirs <==> id in s.dirs) && (id in s.dirs ==> t.dirs[id] == s.dirs[id])
          && (id in t.mayRun <==> id in s.mayRun))
    && (!Current(s.tab, i) ==> t.tab.slots == s.tab.slots && t.dirs == s.dirs && t.mayRun <= s.mayRun)
  }

  lemma OnlyItsClean(s: Sys, a: CleanAct)
    requires Inv(s) && CleanEnabled(s, a)
    ensures OnlyIts(s, ApplyClean(s, a), a.inc)
  {
    assert Good(LocalOf(s, a.inc));
  }

  lemma OnlyItsStop(s: Sys, a: StopAct)
    requires Inv(s) && StopEnabled(s, a) && (a.RestoreOld? || a.StopOk? || a.StopObserve? || a.StopWait?)
    ensures OnlyIts(s, ApplyStop(s, a), s.ops.incs[0])
  {
    hide Good;
  }

  lemma ActorIsCurrent(l: Local)
    requires Good(l)
    ensures Launchee(l.role) || l.role.Failing? || l.role.Orphaning? ==> l.current
  {}

  lemma OnlyItsBoot(s: Sys, a: BootAct)
    requires Inv(s) && BootEnabled(s, a) && a.BootClean?
    ensures OnlyIts(s, ApplyBoot(s, a), s.boot.inc)
  {
    hide BootOk;
    assert Good(LocalOf(s, s.boot.inc));
  }

  lemma OnlyItsStart(s: Sys, a: StartAct)
    requires Inv(s) && StartEnabled(s, a) && (a.MkdirFail? || a.MkdirOk? || a.PrepFail? || a.GotName?)
    ensures OnlyIts(s, ApplyStart(s, a), s.ops.inc)
  {
    hide BootOk, Good, Wf, Distinct, WorkerShape, LiveCount;
    ActorIsCurrent(LocalOf(s, s.ops.inc));
  }

  lemma OnlyItsLaunch(s: Sys, a: LaunchAct)
    requires Inv(s) && LaunchEnabled(s, a)
    ensures OnlyIts(s, ApplyLaunch(s, a), s.ops.inc)
  {
    hide BootOk, Good, Wf, Distinct, WorkerShape, LiveCount;
    ActorIsCurrent(LocalOf(s, s.ops.inc));
  }

  lemma OnlyItsWatch(s: Sys, a: WatchAct)
    requires Inv(s) && WatchEnabled(s, a)
    ensures OnlyIts(s, ApplyWatch(s, a), a.inc)
  {
    hide Good, BootLinks;
  }

  lemma OnlyItsOuter(s: Sys, a: OuterAct)
    requires Inv(s) && OuterEnabled(s, a) && !a.CloseTable?
    ensures OnlyIts(s, ApplyOuter(s, a), a.inc)
  {
    hide Good, BootLinks;
  }

  lemma StepTouchesOnlyItsIncarnation(s: Sys, a: Act)
    requires Reachable(s) && Enabled(s, a) && Actor(s, a).Some?
    ensures OnlyIts(s, Apply(s, a), Actor(s, a).value)
  {
    hide Inv, OnlyIts;
    ReachableInv(s);
    match a
    case OfClean(b) => OnlyItsClean(s, b);
    case OfStop(b) => OnlyItsStop(s, b);
    case OfWatch(b) => OnlyItsWatch(s, b);
    case OfOuter(b) => OnlyItsOuter(s, b);
    case OfBoot(b) => OnlyItsBoot(s, b);
    case OfStart(b) => OnlyItsStart(s, b);
    case OfLaunch(b) => OnlyItsLaunch(s, b);
  }

  // ------------------------------------------------------------------ cleanup channels

  /** At most one worker per record is ever at work, no channel is closed twice, and whoever
      waits holds a channel that is closed, or the newest one of a record with a worker at work,
      or the newest one of a record that stays in the table for the next retry. */
  lemma CleanupChannels(s: Sys, i: nat, c: nat)
    requires Reachable(s) && i < |s.info|
    ensures !s.info[i].overlap && !s.info[i].doubleClose
    ensures c in s.info[i].waits ==> c < |s.tab.recs[i].chans|
    ensures c in s.info[i].waits && !s.tab.recs[i].chans[c] ==>
      && c == |s.tab.recs[i].chans| - 1
      && s.tab.recs[i].cleanupPending
      && (s.tab.recs[i].cleaning || Current(s.tab, i))
      && (s.tab.recs[i].cleaning <==> !s.info[i].worker.NoWorker?)
      && (var w := s.info[i].worker; w.Wiping? || w.Removed? || w.Emitting? || w.Closing? ==>
            s.info[i].worker.done == c)
  {
    ReachableInv(s);
    assert Good(LocalOf(s, i));
  }

  // ------------------------------------------------------------------ the ops token

  /** Once adoption is done: a starting record is the one the token holder is building; with the
      token free every record is idle or busy, launched and watched, or it is stopping with its
      cleanup pending. */
  lemma TokenDiscipline(s: Sys, i: nat, j: nat)
    requires Reachable(s) && s.boot.Done?
    requires i < |s.info| && Current(s.tab, i) && j < |s.info| && Current(s.tab, j)
    ensures s.tab.recs[i].state.Starting? ==>
      && (s.ops.Made? || s.ops.Prep? || s.ops.Named? || s.ops.Launching?)
      && s.ops.inc == i
    ensures s.tab.recs[i].state.Starting? && s.tab.recs[j].state.Starting? ==> i == j
    ensures s.ops.Free? ==>
      || ((s.tab.recs[i].state.Idle? || s.tab.recs[i].state.Busy?)
          && s.info[i].launched && (s.info[i].watch.Waiting? || s.info[i].watch.Confirmed? || s.tab.closed))
      || (s.tab.recs[i].state.Stopping? && s.tab.recs[i].cleanupPending)
  {
    ReachableInv(s);
    assert Good(LocalOf(s, i)) && Good(LocalOf(s, j));
  }

  /** A record leaves busy only with its exit confirmed, or with its launch proved not to have
      happened. */
  lemma LeavesBusyOnProof(s: Sys, a: Act, i: nat)
    requires Reachable(s) && Enabled(s, a)
    requires i < |s.tab.recs| && s.tab.recs[i].state.Busy? && Current(s.tab, i)
    ensures var t := Apply(s, a);
      && i < |t.tab.recs| == |t.info|
      && (!t.tab.recs[i].state.Busy? ==>
            t.tab.recs[i].state.Stopping? && (t.info[i].exitConfirmed || !t.info[i].launched))
  {
    hide Good;
    ReachableInv(s);
    KeepStep(s, a);
    BusyLeaves(s, a, i);
    var t := Apply(s, a);
    if !t.tab.recs[i].state.Busy? {
      CleanedOnProof(LocalOf(t, i));
    }
  }

  lemma CleanedOnProof(l: Local)
    requires Good(l) && l.info.mayClean
    ensures l.info.exitConfirmed || !l.info.launched
  {}

  /** A step that takes a record out of busy leaves it stopping, with its cleanup licensed. */
  ghost predicate LeftForCleanup(t: Sys, i: nat) {
    && i < |t.tab.recs| == |t.info|
    && (!t.tab.recs[i].state.Busy? ==> t.tab.recs[i].state.Stopping? && t.info[i].mayClean)
  }

  lemma BusyStart(s: Sys, a: StartAct, i: nat)
    requires Links(s) && StartEnabled(s, a)
    requires i < |s.tab.recs| && s.tab.recs[i].state.Busy? && Current(s.tab, i)
    ensures LeftForCleanup(ApplyStart(s, a), i)
  {}

  lemma BusyLaunch(s: Sys, a: LaunchAct, i: nat)
    requires Links(s) && LaunchEnabled(s, a)
    requires i < |s.tab.recs| && s.tab.recs[i].state.Busy? && Current(s.tab, i)
    ensures LeftForCleanup(ApplyLaunch(s, a), i)
  {}

  lemma BusyStop(s: Sys, a: StopAct, i: nat)
    requires Links(s) && StopEnabled(s, a)
    requires i < |s.tab.recs| && s.tab.recs[i].state.Busy? && Current(s.tab, i)
    ensures LeftForCleanup(ApplyStop(s, a), i)
  {
    hide Wf, Distinct, WorkerShape, LiveCount, CompletionOf, AcquireFailed, Completes, QuickNeverBusy;
    if a.Pick? {
      forall k | 0 <= k < |a.picked| ensures a.picked[k] != i {
        assert LiveCount(s.tab) > s.ops.desired ==> Eligible(s.cfg, s.tab, a.picked[k], a.now, s.ops.ignoreIdleGrace);
      }
    }
  }

  lemma BusyBoot(s: Sys, a: BootAct, i: nat)
    requires Links(s) && BootEnabled(s, a)
    requires i < |s.tab.recs| && s.tab.recs[i].state.Busy? && Current(s.tab, i)
    ensures LeftForCleanup(ApplyBoot(s, a), i)
  {}

  lemma BusyClean(s: Sys, a: CleanAct, i: nat)
    requires Links(s) && CleanEnabled(s, a)
    requires i < |s.tab.recs| && s.tab.recs[i].state.Busy? && Current(s.tab, i)
    ensures LeftForCleanup(ApplyClean(s, a), i)
  {}

  lemma BusyWatch(s: Sys, a: WatchAct, i: nat)
    requires Links(s) && WatchEnabled(s, a)
    requires i < |s.tab.recs| && s.tab.recs[i].state.Busy? && Current(s.tab, i)
    ensures LeftForCleanup(ApplyWatch(s, a), i)
  {}

  lemma BusyOuter(s: Sys, a: OuterAct, i: nat)
    requires Links(s) && OuterEnabled(s, a)
    requires i < |s.tab.recs| && s.tab.recs[i].state.Busy? && Current(s.tab, i)
    ensures LeftForCleanup(ApplyOuter(s, a), i)
  {}

  lemma BusyLeaves(s: Sys, a: Act, i: nat)
    requires Links(s) && Enabled(s, a)
    requires i < |s.tab.recs| && s.tab.recs[i].state.Busy? && Current(s.tab, i)
    ensures LeftForCleanup(Apply(s, a), i)
  {
    hide Links, LeftForCleanup;
    match a
    case OfBoot(b) => BusyBoot(s, b, i);
    case OfStart(b) => BusyStart(s, b, i);
    case OfLaunch(b) => BusyLaunch(s, b, i);
    case OfStop(b) => BusyStop(s, b, i);
    case OfWatch(b) => BusyWatch(s, b, i);
    case OfClean(b) => BusyClean(s, b, i);
    case OfOuter(b) => BusyOuter(s, b, i);
  }

  // ------------------------------------------------------------------ events

  /** Per incarnation: at most one completion, at most one acquire failure, and at most one of
      stopped and exited, however often its cleanup fails and is retried. */
  lemma EventsAtMostOnce(s: Sys, i: nat)
    requires Reachable(s) && i < |s.info|
    ensures s.info[i].completions <= 1 && s.info[i].acquireFailures <= 1
    ensures s.info[i].exits + s.info[i].stops <= 1
  {
    ReachableInv(s);
    assert Good(LocalOf(s, i));
  }

  /** With the hook set, a claimed record whose directory was wiped had its completion issued
      exactly once if and only if it did not go through a failed start. */
  lemma ClaimedRecordCompletes(s: Sys, i: nat)
    requires Reachable(s) && i < |s.info| && s.cfg.completionHook
    requires s.tab.recs[i].claimed && s.info[i].released.Wiped?
    ensures s.info[i].completions == 1 <==> !s.info[i].failedStart
    ensures s.info[i].completions == 0 <==> s.info[i].failedStart
  {
    ReachableInv(s);
    assert Good(LocalOf(s, i));
  }

  lemma Take(s: Sys, a: Act) returns (t: Sys)
    requires Reachable(s) && Enabled(s, a)
    ensures Reachable(t) && Shape(t) && t == Apply(s, a)
  {
    ReachableStep(s, a);
    t := Apply(s, a);
  }

  /** One record, its start under way: o is the token holder's program counter. */
  ghost predicate OneStarting(s: Sys, cfg: Config, o: Ops) {
    && Reachable(s) && Shape(s) && s.cfg == cfg && s.boot.Done? && s.ops == o
    && |s.info| == 1 && Current(s.tab, 0) && !s.tab.recs[0].cleaning && s.info[0].completions == 0
  }

  lemma FirstReserved(cfg: Config) returns (s: Sys)
    ensures OneStarting(s, cfg, Made(1, 0)) && s.dirs == map[] && s.tab.recs[0].state.Starting?
  {
    hide Reachable;
    s := Sys(cfg, EMPTY_TAB, map[], {}, {}, Entries({}), Free, []);
    BootReachable(s);
    s := Take(s, OfBoot(BootEntriesEnd));
    s := Take(s, OfBoot(BootEnd));
    s := Take(s, OfStart(Acquire(1, false)));
    s := Take(s, OfStart(LoopStart));
    s := Take(s, OfStart(ReserveSlot(1, 0, 0.0, 0)));
  }

  lemma BootReachable(s: Sys)
    requires Init(s)
    ensures Reachable(s)
  {
    assert Run(s, [], s);
  }

  lemma ClaimedInFlight(s0: Sys, cfg: Config, job: Job) returns (s: Sys)
    requires OneStarting(s0, cfg, Made(1, 0)) && s0.dirs == map[] && s0.tab.recs[0].state.Starting?
    ensures OneStarting(s, cfg, Launching(1, 0)) && s.tab.recs[0].claimed
      && s.tab.recs[0].work.workflowRef == job.workflowRef
  {
    hide Reachable;
    s := Take(s0, OfStart(MkdirOk));
    s := Take(s, OfStart(GotName(job.runnerName)));
    s := Take(s, OfLaunch(StartCall));
    s := Take(s, OfOuter(ClaimJob(0, job, 0)));
  }

  lemma FailedAndWiped(s: Sys, cfg: Config) returns (t: Sys)
    requires OneStarting(s, cfg, Launching(1, 0)) && s.tab.recs[0].claimed
    ensures Reachable(t) && |t.info| == 1 && t.cfg == cfg
    ensures t.tab.recs[0].claimed && t.tab.recs[0].work.workflowRef == s.tab.recs[0].work.workflowRef
    ensures t.info[0].released.Wiped? && t.info[0].completions == 0
  {
    hide Reachable;
    t := Take(s, OfLaunch(StartNotStarted));
    assert OneStarting(t, cfg, Broken(1, 0)) && t.tab.recs[0].claimed;
    t := Take(t, OfLaunch(FailClean));
    assert |t.info| == 1 && t.info[0].worker.Spawned? && Current(t.tab, 0) && t.tab.recs[0].claimed;
    t := Take(t, OfClean(WorkerRead(0)));
    t := Take(t, OfClean(WorkerRemove(0)));
    t := Take(t, OfClean(WorkerDelete(0)));
  }

  /** A record that was claimed, wiped, and never completed. */
  ghost predicate LostCompletion(s: Sys, job: Job) {
    && Reachable(s) && s.cfg.completionHook && |s.info| == 1
    && s.tab.recs[0].claimed && s.tab.recs[0].work.workflowRef == job.workflowRef
    && s.info[0].released.Wiped? && s.info[0].completions == 0
  }

  /** Failed starts do lose completions: a claim delivered while Start is still in flight, after
      which Start proves that nothing was launched, is wiped without one. */
  lemma FailedStartLosesCompletion(cfg: Config, job: Job)
    requires cfg.completionHook
    ensures exists s: Sys :: LostCompletion(s, job)
  {
    var s := FirstReserved(cfg);
    s := ClaimedInFlight(s, cfg, job);
    s := FailedAndWiped(s, cfg);
    assert LostCompletion(s, job);
  }
}
