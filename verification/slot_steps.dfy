/** Every step keeps the invariant. */
module SlotSteps {
  import opened SlotModel
  import opened SlotProtocol
  import opened SlotInvariant

  // ------------------------------------------------------------------ frames

  /** t differs from s only in what belongs to incarnation i: its record, its info, its role,
      and, when i holds its ID, that ID's entry, unit and directory. Only a proof that no unit
      of that name runs may come from a stale incarnation. */
  ghost predicate Touch(s: Sys, t: Sys, i: nat)
    requires Shape(s) && i < |s.tab.recs|
  {
    var id := s.tab.recs[i].id;
    && t.cfg == s.cfg && t.listing == s.listing && t.tab.closed == s.tab.closed
    && |t.tab.recs| == |s.tab.recs| == |t.info|
    && t.tab.recs[i].id == id
    && (forall j | 0 <= j < |s.tab.recs| && j != i :: t.tab.recs[j] == s.tab.recs[j])
    && (forall j | 0 <= j < |s.tab.recs| && j != i :: t.info[j] == s.info[j])
    && (t.tab.slots == s.tab.slots || (Current(s.tab, i) && t.tab.slots == s.tab.slots - {id}))
    && (forall x: ID | x != id :: x in t.mayRun <==> x in s.mayRun)
    && (Current(s.tab, i) || t.mayRun <= s.mayRun)
    && (forall x: ID | x != id :: x in t.dirs <==> x in s.dirs)
    && (forall x: ID | x != id && x in s.dirs :: t.dirs[x] == s.dirs[x])
    && (Current(s.tab, i) || t.dirs == s.dirs)
    && (forall j | 0 <= j < |s.tab.recs| && j != i :: RoleOf(t.boot, t.ops, j) == RoleOf(s.boot, s.ops, j))
  }

  /** The links that mention program counters. */
  ghost predicate PcOk(o: Ops, boot: Boot, n: nat) {
    && (o.Made? || o.Prep? || o.Named? || o.Launching? || o.Broken? ==> o.inc < n)
    && (boot.Orphan? ==> boot.inc < n)
    && (InStops(o) ==>
          && (forall k | 0 <= k < |o.incs| :: o.incs[k] < n)
          && |o.olds| == |o.incs|
          && Distinct(o.incs)
          && (forall k | 0 <= k < |o.olds| :: o.olds[k].Idle?))
    && (o.StopErr? || o.StopNil? || o.StopSeen? ==> |o.incs| > 0)
    && (!boot.Done? ==> o.Free?)
  }

  ghost predicate PcLinks(t: Sys) {
    PcOk(t.ops, t.boot, |t.tab.recs|)
  }

  lemma LinksPc(s: Sys)
    requires Links(s)
    ensures PcLinks(s)
  {}

  lemma TouchLinks(s: Sys, t: Sys, i: nat)
    requires Links(s) && i < |s.tab.recs| && Touch(s, t, i)
    requires WorkerShape(t.tab.recs[i], t.info[i].worker) && PcLinks(t)
    ensures Links(t)
  {
    assert Wf(t.tab);
  }

  /** A step on behalf of one incarnation changes nothing about another, except that the
      backend may have proved that no unit of their common name is running (and that the
      table may have been closed). */
  ghost predicate Same(l: Local, m: Local) {
    m == l.(runs := m.runs, closed := m.closed) && (m.runs ==> l.runs) && (l.closed ==> m.closed)
  }

  lemma TouchOther(s: Sys, t: Sys, i: nat, j: nat)
    requires Links(s) && i < |s.tab.recs| && Touch(s, t, i) && j < |s.tab.recs| && j != i
    ensures Same(LocalOf(s, j), LocalOf(t, j))
  {}

  lemma SameGood(l: Local, m: Local)
    requires Good(l) && Same(l, m)
    ensures Good(m)
  {}

  lemma KeepTouch(s: Sys, t: Sys, i: nat)
    requires Inv(s) && i < |s.tab.recs| && Touch(s, t, i)
    requires WorkerShape(t.tab.recs[i], t.info[i].worker) && PcLinks(t) && BootLinks(t)
    requires Good(LocalOf(t, i))
    ensures Inv(t)
  {
    TouchLinks(s, t, i);
    forall j | 0 <= j < |t.tab.recs| && j != i ensures Good(LocalOf(t, j)) {
      TouchOther(s, t, i, j);
      SameGood(LocalOf(s, j), LocalOf(t, j));
    }
  }

  /** What KeepTouch needs besides the new Local of the incarnation itself. */
  ghost predicate Framed(s: Sys, t: Sys, i: nat)
    requires Shape(s)
  {
    && i < |s.tab.recs| && Touch(s, t, i)
    && WorkerShape(t.tab.recs[i], t.info[i].worker) && PcLinks(t) && BootLinks(t)
  }

  lemma FrameInfo(s: Sys, u: Sys, i: nat, k: Info)
    requires Shape(s) && Framed(s, u, i) && k.worker == u.info[i].worker
    ensures Framed(s, u.(info := u.info[i := k]), i)
  {}

  lemma FrameOps(s: Sys, u: Sys, i: nat, ops: Ops)
    requires Shape(s) && Framed(s, u, i) && u.boot.Done? && s.boot.Done?
    requires PcLinks(u.(ops := ops))
    requires forall j | 0 <= j < |s.tab.recs| && j != i :: RoleOf(s.boot, ops, j) == RoleOf(s.boot, s.ops, j)
    ensures Framed(s, u.(ops := ops), i)
  {}

  lemma LaunchIsCurrent(l: Local)
    requires Good(l) && Launchee(l.role)
    ensures l.current
  {}

  lemma WorkIsCurrent(l: Local)
    requires Good(l) && (l.info.worker.Wiping? || l.info.worker.Removed?)
    ensures l.current && !l.runs
  {}

  /** A step that moves a program counter without changing any record or role. */
  ghost predicate Quiet(s: Sys, t: Sys) {
    && t.cfg == s.cfg && t.listing == s.listing && t.info == s.info && t.dirs == s.dirs
    && t.tab == s.tab.(closed := t.tab.closed) && (s.tab.closed ==> t.tab.closed)
    && t.mayRun <= s.mayRun
    && forall j | 0 <= j < |s.tab.recs| :: RoleOf(t.boot, t.ops, j) == RoleOf(s.boot, s.ops, j)
  }

  lemma KeepQuiet(s: Sys, t: Sys)
    requires Inv(s) && Quiet(s, t) && PcLinks(t) && BootLinks(t)
    ensures Inv(t)
  {
    assert Wf(t.tab);
    forall j | 0 <= j < |t.tab.recs| ensures Good(LocalOf(t, j)) {
      assert Same(LocalOf(s, j), LocalOf(t, j));
      SameGood(LocalOf(s, j), LocalOf(t, j));
    }
  }

  // ------------------------------------------------------------------ watchers

  lemma FrameObserve(s: Sys, i: nat, now: int)
    requires Links(s) && BootLinks(s) && i < |s.info|
    ensures Framed(s, DoObserve(s, i, now), i)
  {
    hide BootOk, Wf, Distinct, RoleOf, CompletionOf, AcquireFailed, Completes, QuickNeverBusy;
  }

  /** A Local after observeExit ran for it, with its exit confirmed. */
  ghost function Seen(cfg: Config, l: Local, now: int): Local {
    var k := l.info;
    if !l.current || l.rec.cleaning || l.rec.cleanupPending then l
    else l.(rec := ObservedRec(cfg, l.rec, now),
            info := k.(mayClean := true,
                       acquireFailures := k.acquireFailures + if AcquireFailed(cfg, l.rec, now) then 1 else 0,
                       completions := k.completions + if Completes(cfg, l.rec) then 1 else 0))
  }

  lemma GoodObserve(cfg: Config, l: Local, now: int)
    requires Good(l) && l.hook == cfg.completionHook && l.info.exitConfirmed
    ensures var m := Seen(cfg, l, now); Good(m) && (!m.current || m.rec.cleanupPending)
  {}

  lemma GoodOver(l: Local)
    requires Good(l) && l.info.watch.Confirmed? && (!l.current || l.rec.cleanupPending)
    ensures Good(l.(info := l.info.(watch := Over)))
  {}

  lemma GoodStopped(l: Local)
    requires Good(l) && l.role.CandStopped? && (!l.current || l.rec.cleanupPending)
    ensures Good(l.(role := CandSeen))
  {}

  lemma ExitProved(l: Local)
    requires Good(l) && (l.info.watch.Confirmed? || l.role.CandStopped?)
    ensures l.info.exitConfirmed && !l.rec.state.Empty? && !l.rec.state.Failed?
  {}

  lemma LocalObserve(s: Sys, i: nat, now: int)
    requires Shape(s) && i < |s.info| && !s.tab.recs[i].state.Empty? && !s.tab.recs[i].state.Failed?
    ensures var u := DoObserve(s, i, now);
      && |u.info| == |s.info| && |u.tab.recs| == |s.tab.recs| && u.ops == s.ops && u.boot == s.boot
      && LocalOf(u, i) == Seen(s.cfg, LocalOf(s, i), now)
  {}

  lemma LocalWatchObserve(s: Sys, i: nat, now: int)
    requires Links(s) && WatchEnabled(s, WatchObserve(i, now)) && Good(LocalOf(s, i))
    ensures Good(LocalOf(ApplyWatch(s, WatchObserve(i, now)), i))
  {
    hide Good, Seen;
    var u := DoObserve(s, i, now);
    ExitProved(LocalOf(s, i));
    GoodObserve(s.cfg, LocalOf(s, i), now);
    LocalObserve(s, i, now);
    GoodOver(LocalOf(u, i));
    assert LocalOf(ApplyWatch(s, WatchObserve(i, now)), i) == LocalOf(u, i).(info := u.info[i].(watch := Over));
  }

  lemma KeepWatchObserve(s: Sys, i: nat, now: int)
    requires Inv(s) && WatchEnabled(s, WatchObserve(i, now))
    ensures Inv(ApplyWatch(s, WatchObserve(i, now)))
  {
    hide Good, BootLinks, PcLinks, Touch, RoleOf;
    var t := ApplyWatch(s, WatchObserve(i, now));
    assert Good(LocalOf(s, i));
    FrameObserve(s, i, now);
    FrameInfo(s, DoObserve(s, i, now), i, t.info[i]);
    LocalWatchObserve(s, i, now);
    KeepTouch(s, t, i);
  }

  lemma KeepWatch(s: Sys, a: WatchAct)
    requires Inv(s) && WatchEnabled(s, a)
    ensures Inv(ApplyWatch(s, a))
  {
    if a.WatchObserve? {
      KeepWatchObserve(s, a.inc, a.now);
    } else {
      assert Good(LocalOf(s, a.inc));
      KeepTouch(s, ApplyWatch(s, a), a.inc);
    }
  }

  // ------------------------------------------------------------------ listener, sampler, Close

  lemma GoodClaim(l: Local, job: Job, now: int)
    requires Good(l) && l.current
    ensures Good(l.(rec := ClaimRec(l.rec, job, now)))
  {}

  lemma KeepClaim(s: Sys, i: nat, job: Job, now: int)
    requires Inv(s) && OuterEnabled(s, ClaimJob(i, job, now))
    ensures Inv(ApplyOuter(s, ClaimJob(i, job, now)))
  {
    hide Good, Framed;
    var t := ApplyOuter(s, ClaimJob(i, job, now));
    var l := LocalOf(s, i);
    GoodClaim(l, job, now);
    assert LocalOf(t, i) == l.(rec := ClaimRec(l.rec, job, now));
    FrameRec(s, i, ClaimRec(s.tab.recs[i], job, now));
    KeepFramed(s, t, i);
  }

  /** A block that only writes to a record, and to nothing of its cleanup. */
  lemma FrameRec(s: Sys, i: nat, r: Rec)
    requires Links(s) && BootLinks(s) && i < |s.tab.recs| && r.id == s.tab.recs[i].id && r.chans == s.tab.recs[i].chans
    ensures Framed(s, s.(tab := Set(s.tab, i, r)), i)
  {
    hide BootOk, Wf, Distinct, RoleOf;
  }

  lemma KeepFramed(s: Sys, t: Sys, i: nat)
    requires Inv(s) && Framed(s, t, i) && Good(LocalOf(t, i))
    ensures Inv(t)
  {
    hide BootOk, PcOk, Touch, Good, RoleOf;
    KeepTouch(s, t, i);
  }

  lemma GoodWork(l: Local, work: Work)
    requires Good(l)
    ensures Good(l.(rec := l.rec.(work := work)))
  {}

  lemma KeepWork(s: Sys, i: nat, work: Work)
    requires Inv(s) && i < |s.tab.recs|
    ensures Inv(s.(tab := Set(s.tab, i, s.tab.recs[i].(work := work))))
  {
    hide Good;
    var t := s.(tab := Set(s.tab, i, s.tab.recs[i].(work := work)));
    GoodWork(LocalOf(s, i), work);
    assert LocalOf(t, i) == LocalOf(s, i).(rec := t.tab.recs[i]);
    FrameRec(s, i, t.tab.recs[i]);
    KeepFramed(s, t, i);
  }

  lemma KeepOuter(s: Sys, a: OuterAct)
    requires Inv(s) && OuterEnabled(s, a)
    ensures Inv(ApplyOuter(s, a))
  {
    hide Good, BootLinks;
    if a.SampleUsage? {
      assert s.tab.recs[a.inc := s.tab.recs[a.inc]] == s.tab.recs;
    }
    match a
    case CloseTable => KeepClose(s);
    case ClaimJob(i, job, now) => KeepClaim(s, i, job, now);
    case MarkResult(i, result) => KeepWork(s, i, s.tab.recs[i].work.(result := result));
    case SampleUsage(i, u) => KeepWork(s, i, Sample(s.tab, i, u).recs[i].work);
  }

  lemma KeepClose(s: Sys)
    requires Inv(s)
    ensures Inv(ApplyOuter(s, CloseTable))
  {
    KeepQuiet(s, ApplyOuter(s, CloseTable));
  }

  // ------------------------------------------------------------------ cleanup

  lemma FrameClean(s: Sys, i: nat)
    requires Links(s) && BootLinks(s) && i < |s.info|
    ensures Framed(s, DoClean(s, i), i)
  {}

  lemma GoodCleaning(l: Local, role: Role)
    requires Good(l) && l.current && !l.rec.cleaning && l.info.mayClean
    requires role == if l.role.Failing? || l.role.Orphaning? then NoRole else l.role
    ensures Good(l.(rec := CleaningRec(l.rec), role := role, info := l.info.(worker := Spawned)))
  {}

  lemma FrameBootClean(s: Sys)
    requires Links(s) && BootLinks(s) && BootEnabled(s, BootClean)
    ensures Framed(s, ApplyBoot(s, BootClean), s.boot.inc)
  {
    hide BootOk, Wf, Distinct, Touch;
    var i := s.boot.inc;
    FrameClean(s, i);
    OrphanDone(s.boot, s.listing, s.mayRun, s.dirs, s.tab.slots);
    FrameBoot(s, DoClean(s, i), i, Entries(s.boot.todo));
  }

  lemma FrameBoot(s: Sys, u: Sys, i: nat, boot: Boot)
    requires Shape(s) && Framed(s, u, i) && PcLinks(u.(boot := boot)) && BootLinks(u.(boot := boot)) && u.ops == s.ops
    requires forall j | 0 <= j < |s.tab.recs| && j != i :: RoleOf(boot, s.ops, j) == RoleOf(s.boot, s.ops, j)
    ensures Framed(s, u.(boot := boot), i)
  {
    hide BootOk;
  }

  lemma OrphanDone(boot: Boot, listing: set<ID>, mayRun: set<ID>, dirs: map<ID, bool>, slots: map<ID, nat>)
    requires boot.Orphan? && BootOk(boot, listing, mayRun, dirs, slots)
    ensures BootOk(Entries(boot.todo), listing, mayRun, dirs, slots)
  {}

  lemma LocalCleaned(s: Sys, t: Sys, i: nat)
    requires Shape(s) && i < |s.info| && Cleanable(s.tab, i) && s.info[i].worker.NoWorker? && !s.info[i].overlap
    requires t == DoClean(s, i).(boot := t.boot, ops := t.ops) && RoleOf(t.boot, t.ops, i).NoRole?
    ensures var l := LocalOf(s, i);
      |t.tab.recs| == |s.tab.recs| == |t.info| &&
      LocalOf(t, i) == l.(rec := CleaningRec(l.rec), role := NoRole, info := l.info.(worker := Spawned))
  {}

  lemma NeverLaunched(l: Local)
    requires Good(l) && (l.role.Failing? || l.role.Orphaning?)
    ensures l.current && !l.rec.cleaning && l.info.mayClean && l.info.worker.NoWorker? && !l.info.overlap
  {}

  lemma KeepCleanCall(s: Sys, i: nat)
    requires Inv(s) && CleanEnabled(s, CleanCall(i))
    ensures Inv(ApplyClean(s, CleanCall(i)))
  {
    var t := DoClean(s, i);
    var l := LocalOf(s, i);
    assert Good(l);
    FrameClean(s, i);
    if Cleanable(s.tab, i) {
      GoodCleaning(l, l.role);
      assert LocalOf(t, i) == l.(rec := CleaningRec(l.rec), info := l.info.(worker := Spawned));
    }
    KeepTouch(s, t, i);
  }

  lemma GoodWorkerRead(l: Local)
    requires Good(l) && l.info.worker.Spawned?
    ensures var done := |l.rec.chans| - 1;
      done >= 0 && Good(l.(info := l.info.(worker := Wiping(done), waits := l.info.waits + {done})))
  {}

  lemma KeepWorkerRead(s: Sys, i: nat)
    requires Inv(s) && CleanEnabled(s, WorkerRead(i))
    ensures Inv(ApplyClean(s, WorkerRead(i)))
  {
    hide Good;
    var t := ApplyClean(s, WorkerRead(i));
    GoodWorkerRead(LocalOf(s, i));
    assert LocalOf(t, i) == LocalOf(s, i).(info := t.info[i]);
    KeepTouch(s, t, i);
  }

  lemma GoodWorkerFail(l: Local)
    requires Good(l) && l.info.worker.Wiping?
    ensures Good(l.(info := l.info.(worker := Closing(l.info.worker.done))))
  {}

  lemma KeepWorkerFail(s: Sys, i: nat)
    requires Inv(s) && CleanEnabled(s, WorkerFail(i))
    ensures Inv(ApplyClean(s, WorkerFail(i)))
  {
    hide Good;
    var t := ApplyClean(s, WorkerFail(i));
    GoodWorkerFail(LocalOf(s, i));
    assert LocalOf(t, i) == LocalOf(s, i).(info := t.info[i]);
    KeepTouch(s, t, i);
  }

  lemma LocalWorkerTouch(s: Sys, a: CleanAct)
    requires Links(s) && CleanEnabled(s, a) && a.WorkerTouch? && Good(LocalOf(s, a.inc))
    ensures Good(LocalOf(ApplyClean(s, a), a.inc))
  {}

  lemma KeepWorkerTouch(s: Sys, a: CleanAct)
    requires Inv(s) && CleanEnabled(s, a) && a.WorkerTouch?
    ensures Inv(ApplyClean(s, a))
  {
    hide Good;
    WorkIsCurrent(LocalOf(s, a.inc));
    LocalWorkerTouch(s, a);
    KeepTouch(s, ApplyClean(s, a), a.inc);
  }

  lemma LocalWorkerRemove(s: Sys, a: CleanAct)
    requires Links(s) && CleanEnabled(s, a) && a.WorkerRemove? && Good(LocalOf(s, a.inc))
    ensures Good(LocalOf(ApplyClean(s, a), a.inc))
  {}

  lemma KeepWorkerRemove(s: Sys, a: CleanAct)
    requires Inv(s) && CleanEnabled(s, a) && a.WorkerRemove?
    ensures Inv(ApplyClean(s, a))
  {
    hide Good;
    WorkIsCurrent(LocalOf(s, a.inc));
    LocalWorkerRemove(s, a);
    KeepTouch(s, ApplyClean(s, a), a.inc);
  }

  lemma LocalWorkerDelete(s: Sys, a: CleanAct)
    requires Links(s) && CleanEnabled(s, a) && a.WorkerDelete? && Good(LocalOf(s, a.inc))
    ensures Good(LocalOf(ApplyClean(s, a), a.inc))
  {}

  lemma KeepWorkerDelete(s: Sys, a: CleanAct)
    requires Inv(s) && CleanEnabled(s, a) && a.WorkerDelete?
    ensures Inv(ApplyClean(s, a))
  {
    hide Good;
    WorkIsCurrent(LocalOf(s, a.inc));
    LocalWorkerDelete(s, a);
    KeepTouch(s, ApplyClean(s, a), a.inc);
  }

  lemma LocalWorkerEmit(s: Sys, a: CleanAct)
    requires Links(s) && CleanEnabled(s, a) && a.WorkerEmit? && Good(LocalOf(s, a.inc))
    ensures Good(LocalOf(ApplyClean(s, a), a.inc))
  {}

  lemma KeepWorkerEmit(s: Sys, a: CleanAct)
    requires Inv(s) && CleanEnabled(s, a) && a.WorkerEmit?
    ensures Inv(ApplyClean(s, a))
  {
    hide Good;
    LocalWorkerEmit(s, a);
    KeepTouch(s, ApplyClean(s, a), a.inc);
  }

  lemma LocalWorkerClose(s: Sys, a: CleanAct)
    requires Links(s) && CleanEnabled(s, a) && a.WorkerClose? && Good(LocalOf(s, a.inc))
    ensures Good(LocalOf(ApplyClean(s, a), a.inc))
  {}

  lemma KeepWorkerClose(s: Sys, a: CleanAct)
    requires Inv(s) && CleanEnabled(s, a) && a.WorkerClose?
    ensures Inv(ApplyClean(s, a))
  {
    hide Good;
    LocalWorkerClose(s, a);
    KeepTouch(s, ApplyClean(s, a), a.inc);
  }

  lemma KeepClean(s: Sys, a: CleanAct)
    requires Inv(s) && CleanEnabled(s, a)
    ensures Inv(ApplyClean(s, a))
  {
    hide Inv;
    match a
    case CleanCall(i) => KeepCleanCall(s, i);
    case WorkerRead(i) => KeepWorkerRead(s, i);
    case WorkerTouch(_) => KeepWorkerTouch(s, a);
    case WorkerRemove(_) => KeepWorkerRemove(s, a);
    case WorkerFail(i) => KeepWorkerFail(s, i);
    case WorkerDelete(_) => KeepWorkerDelete(s, a);
    case WorkerEmit(_) => KeepWorkerEmit(s, a);
    case WorkerClose(_) => KeepWorkerClose(s, a);
  }

  // ------------------------------------------------------------------ around backend.Start

  lemma FrameFail(s: Sys, i: nat)
    requires Links(s) && BootLinks(s) && i < |s.info|
    ensures Framed(s, DoFail(s, i), i)
  {}

  lemma GoodFail(l: Local)
    requires Good(l) && (l.role.Preparing? || l.role.Naming? || l.role.Starting_?)
    ensures Good(l.(rec := l.rec.(state := Stopping), role := Failing, runs := false,
                    info := l.info.(failedStart := true, launched := false, mayClean := true,
                                    acquireFailures := l.info.acquireFailures + 1)))
  {}

  lemma LocalStartCall(s: Sys)
    requires Links(s) && LaunchEnabled(s, StartCall) && Good(LocalOf(s, s.ops.inc))
    ensures Good(LocalOf(ApplyLaunch(s, StartCall), s.ops.inc))
  {}

  lemma KeepStartCall(s: Sys)
    requires Inv(s) && LaunchEnabled(s, StartCall)
    ensures Inv(ApplyLaunch(s, StartCall))
  {
    hide Good;
    LaunchIsCurrent(LocalOf(s, s.ops.inc));
    LocalStartCall(s);
    KeepTouch(s, ApplyLaunch(s, StartCall), s.ops.inc);
  }

  lemma LocalStartNotStarted(s: Sys)
    requires Links(s) && LaunchEnabled(s, StartNotStarted) && Good(LocalOf(s, s.ops.inc))
    ensures Good(LocalOf(ApplyLaunch(s, StartNotStarted), s.ops.inc))
  {
    GoodFail(LocalOf(s, s.ops.inc));
  }

  lemma KeepStartNotStarted(s: Sys)
    requires Inv(s) && LaunchEnabled(s, StartNotStarted)
    ensures Inv(ApplyLaunch(s, StartNotStarted))
  {
    hide Good, BootLinks, Touch;
    LaunchIsCurrent(LocalOf(s, s.ops.inc));
    LocalStartNotStarted(s);
    FrameStartNotStarted(s);
    KeepTouch(s, ApplyLaunch(s, StartNotStarted), s.ops.inc);
  }

  lemma FrameStartNotStarted(s: Sys)
    requires Links(s) && BootLinks(s) && LaunchEnabled(s, StartNotStarted) && Current(s.tab, s.ops.inc)
    ensures Framed(s, ApplyLaunch(s, StartNotStarted), s.ops.inc)
  {}

  lemma LocalStartUncertain(s: Sys)
    requires Inv(s) && LaunchEnabled(s, StartUncertain)
    ensures Good(LocalOf(ApplyLaunch(s, StartUncertain), s.ops.inc))
  {
    assert Good(LocalOf(s, s.ops.inc));
  }

  lemma KeepStartUncertain(s: Sys)
    requires Inv(s) && LaunchEnabled(s, StartUncertain)
    ensures Inv(ApplyLaunch(s, StartUncertain))
  {
    LocalStartUncertain(s);
    hide Good;
    LaunchIsCurrent(LocalOf(s, s.ops.inc));
    KeepTouch(s, ApplyLaunch(s, StartUncertain), s.ops.inc);
  }

  lemma LocalStartOk(s: Sys, now: int)
    requires Inv(s) && LaunchEnabled(s, StartOk(now))
    ensures Good(LocalOf(ApplyLaunch(s, StartOk(now)), s.ops.inc))
  {
    assert Good(LocalOf(s, s.ops.inc));
  }

  lemma KeepStartOk(s: Sys, now: int)
    requires Inv(s) && LaunchEnabled(s, StartOk(now))
    ensures Inv(ApplyLaunch(s, StartOk(now)))
  {
    LocalStartOk(s, now);
    hide Good;
    LaunchIsCurrent(LocalOf(s, s.ops.inc));
    KeepTouch(s, ApplyLaunch(s, StartOk(now)), s.ops.inc);
  }

  lemma KeepFailClean(s: Sys)
    requires Inv(s) && LaunchEnabled(s, FailClean)
    ensures Inv(ApplyLaunch(s, FailClean))
  {
    hide Good, BootLinks, Touch;
    var i := s.ops.inc;
    var t := ApplyLaunch(s, FailClean);
    var l := LocalOf(s, i);
    assert Good(l);
    NeverLaunched(l);
    GoodCleaning(l, NoRole);
    FrameClean(s, i);
    FrameOps(s, DoClean(s, i), i, t.ops);
    LocalCleaned(s, t, i);
    KeepTouch(s, t, i);
  }

  lemma KeepLaunch(s: Sys, a: LaunchAct)
    requires Inv(s) && LaunchEnabled(s, a)
    ensures Inv(ApplyLaunch(s, a))
  {
    hide Inv;
    match a
    case StartCall => KeepStartCall(s);
    case StartNotStarted => KeepStartNotStarted(s);
    case StartUncertain => KeepStartUncertain(s);
    case StartOk(now) => KeepStartOk(s, now);
    case FailClean => KeepFailClean(s);
  }

  // ------------------------------------------------------------------ up to the minted runner

  /** A new record joins the table; everybody else keeps what they had. */
  ghost predicate Appends(s: Sys, t: Sys, id: ID) {
    && t.cfg == s.cfg && t.dirs == s.dirs && t.mayRun == s.mayRun && t.tab.closed == s.tab.closed
    && id !in s.tab.slots
    && |s.info| == |s.tab.recs| && |t.tab.recs| == |t.info| == |s.tab.recs| + 1
    && t.tab.recs[..|s.tab.recs|] == s.tab.recs && t.info[..|s.info|] == s.info
    && t.tab.slots == s.tab.slots[id := |s.tab.recs|]
    && t.tab.recs[|s.tab.recs|].id == id && t.info[|s.info|].worker.NoWorker?
    && forall j | 0 <= j < |s.tab.recs| :: RoleOf(t.boot, t.ops, j) == RoleOf(s.boot, s.ops, j)
  }

  lemma AppendOther(s: Sys, t: Sys, id: ID, j: nat)
    requires Links(s) && |s.info| == |s.tab.recs| && Appends(s, t, id) && j < |s.tab.recs|
    ensures LocalOf(t, j) == LocalOf(s, j) && WorkerShape(t.tab.recs[j], t.info[j].worker)
  {
    assert t.tab.recs[..|s.tab.recs|][j] == s.tab.recs[j] && t.info[..|s.info|][j] == s.info[j];
  }

  lemma AppendWf(s: Sys, t: Sys, id: ID)
    requires Links(s) && |s.info| == |s.tab.recs| && Appends(s, t, id)
    ensures Wf(t.tab)
  {
    forall x | x in t.tab.slots && x != id ensures t.tab.recs[t.tab.slots[x]].id == x {
      assert t.tab.recs[..|s.tab.recs|][t.tab.slots[x]].id == x;
    }
  }

  lemma KeepAppend(s: Sys, t: Sys, id: ID)
    requires Inv(s) && |s.info| == |s.tab.recs| && Appends(s, t, id) && PcLinks(t) && BootLinks(t)
    requires Good(LocalOf(t, |s.tab.recs|))
    ensures Inv(t)
  {
    hide Good, LocalOf, BootOk;
    AppendWf(s, t, id);
    forall j | 0 <= j < |s.tab.recs| ensures Good(LocalOf(t, j)) && WorkerShape(t.tab.recs[j], t.info[j].worker) {
      AppendOther(s, t, id, j);
    }
  }

  lemma KeepReserve(s: Sys, id: ID, now: int, cores: real, mem: nat)
    requires Inv(s) && StartEnabled(s, ReserveSlot(id, now, cores, mem))
    ensures Inv(ApplyStart(s, ReserveSlot(id, now, cores, mem)))
  {
    KeepAppend(s, ApplyStart(s, ReserveSlot(id, now, cores, mem)), id);
  }

  lemma LocalMkdirFail(s: Sys)
    requires Inv(s) && StartEnabled(s, MkdirFail)
    ensures Good(LocalOf(ApplyStart(s, MkdirFail), s.ops.inc))
  {
    assert Good(LocalOf(s, s.ops.inc));
  }

  lemma KeepMkdirFail(s: Sys)
    requires Inv(s) && StartEnabled(s, MkdirFail)
    ensures Inv(ApplyStart(s, MkdirFail))
  {
    LocalMkdirFail(s);
    hide Good;
    LaunchIsCurrent(LocalOf(s, s.ops.inc));
    KeepTouch(s, ApplyStart(s, MkdirFail), s.ops.inc);
  }

  lemma LocalMkdirOk(s: Sys)
    requires Inv(s) && StartEnabled(s, MkdirOk)
    ensures Good(LocalOf(ApplyStart(s, MkdirOk), s.ops.inc))
  {
    assert Good(LocalOf(s, s.ops.inc));
  }

  lemma KeepMkdirOk(s: Sys)
    requires Inv(s) && StartEnabled(s, MkdirOk)
    ensures Inv(ApplyStart(s, MkdirOk))
  {
    hide Good, BootLinks, Touch;
    LocalMkdirOk(s);
    LaunchIsCurrent(LocalOf(s, s.ops.inc));
    FrameMkdirOk(s);
    KeepTouch(s, ApplyStart(s, MkdirOk), s.ops.inc);
  }

  lemma FrameMkdirOk(s: Sys)
    requires Links(s) && BootLinks(s) && StartEnabled(s, MkdirOk) && Current(s.tab, s.ops.inc)
    ensures Framed(s, ApplyStart(s, MkdirOk), s.ops.inc)
  {}

  lemma LocalPrepFail(s: Sys)
    requires Links(s) && StartEnabled(s, PrepFail) && Good(LocalOf(s, s.ops.inc))
    ensures Good(LocalOf(ApplyStart(s, PrepFail), s.ops.inc))
  {
    GoodFail(LocalOf(s, s.ops.inc));
  }

  lemma KeepPrepFail(s: Sys)
    requires Inv(s) && StartEnabled(s, PrepFail)
    ensures Inv(ApplyStart(s, PrepFail))
  {
    hide Good, BootLinks, Touch;
    var i := s.ops.inc;
    var t := ApplyStart(s, PrepFail);
    assert Good(LocalOf(s, i));
    LocalPrepFail(s);
    FrameFail(s, i);
    FrameOps(s, DoFail(s, i), i, t.ops);
    KeepTouch(s, t, i);
  }

  lemma LocalGotName(s: Sys, name: string)
    requires Inv(s) && StartEnabled(s, GotName(name))
    ensures Good(LocalOf(ApplyStart(s, GotName(name)), s.ops.inc))
  {
    assert Good(LocalOf(s, s.ops.inc));
  }

  lemma KeepGotName(s: Sys, name: string)
    requires Inv(s) && StartEnabled(s, GotName(name))
    ensures Inv(ApplyStart(s, GotName(name)))
  {
    hide Good, BootLinks, Touch;
    LocalGotName(s, name);
    FrameGotName(s, name);
    KeepTouch(s, ApplyStart(s, GotName(name)), s.ops.inc);
  }

  lemma FrameGotName(s: Sys, name: string)
    requires Links(s) && BootLinks(s) && StartEnabled(s, GotName(name))
    ensures Framed(s, ApplyStart(s, GotName(name)), s.ops.inc)
  {}

  lemma KeepStart(s: Sys, a: StartAct)
    requires Inv(s) && StartEnabled(s, a)
    ensures Inv(ApplyStart(s, a))
  {
    match a
    case ReserveSlot(id, now, cores, mem) => KeepReserve(s, id, now, cores, mem);
    case MkdirFail => KeepMkdirFail(s);
    case MkdirOk => KeepMkdirOk(s);
    case PrepFail => KeepPrepFail(s);
    case GotName(name) => KeepGotName(s, name);
    case _ => KeepQuiet(s, ApplyStart(s, a));
  }

  // ------------------------------------------------------------------ scale down

  lemma KeepStopFails(s: Sys)
    requires Inv(s) && StopEnabled(s, StopFails)
    ensures Inv(ApplyStop(s, StopFails))
  {
    KeepQuiet(s, ApplyStop(s, StopFails));
  }

  lemma LocalRestoreOld(s: Sys)
    requires Inv(s) && StopEnabled(s, RestoreOld)
    ensures Good(LocalOf(ApplyStop(s, RestoreOld), s.ops.incs[0]))
  {
    assert Good(LocalOf(s, s.ops.incs[0]));
  }

  /** Dropping the head of the candidates keeps the program counter in order. */
  lemma PcTail(s: Sys)
    requires PcLinks(s) && InStops(s.ops) && |s.ops.incs| > 0
    ensures PcOk(Stops(s.ops.incs[1..], s.ops.olds[1..]), s.boot, |s.tab.recs|)
    ensures forall j | j != s.ops.incs[0] ::
      RoleOf(s.boot, Stops(s.ops.incs[1..], s.ops.olds[1..]), j) == RoleOf(s.boot, s.ops, j)
    ensures RoleOf(s.boot, Stops(s.ops.incs[1..], s.ops.olds[1..]), s.ops.incs[0]).NoRole?
    ensures s.ops.StopSeen? ==> RoleOf(s.boot, s.ops, s.ops.incs[0]).CandSeen?
  {}

  lemma KeepRestoreOld(s: Sys)
    requires Inv(s) && StopEnabled(s, RestoreOld)
    ensures Inv(ApplyStop(s, RestoreOld))
  {
    LocalRestoreOld(s);
    hide Good, PcOk, RoleOf, BootOk;
    LinksPc(s);
    PcTail(s);
    KeepTouch(s, ApplyStop(s, RestoreOld), s.ops.incs[0]);
  }

  lemma LocalStopOk(s: Sys)
    requires Inv(s) && StopEnabled(s, StopOk)
    ensures Good(LocalOf(ApplyStop(s, StopOk), s.ops.incs[0]))
  {
    assert Good(LocalOf(s, s.ops.incs[0]));
  }

  lemma KeepStopOk(s: Sys)
    requires Inv(s) && StopEnabled(s, StopOk)
    ensures Inv(ApplyStop(s, StopOk))
  {
    LocalStopOk(s);
    hide Good;
    KeepTouch(s, ApplyStop(s, StopOk), s.ops.incs[0]);
  }

  lemma LocalStopObserve(s: Sys, now: int)
    requires Links(s) && StopEnabled(s, StopObserve(now)) && Good(LocalOf(s, s.ops.incs[0]))
    ensures Good(LocalOf(ApplyStop(s, StopObserve(now)), s.ops.incs[0]))
  {
    hide Good, DoObserve, Seen;
    var i := s.ops.incs[0];
    var u := DoObserve(s, i, now);
    ExitProved(LocalOf(s, i));
    GoodObserve(s.cfg, LocalOf(s, i), now);
    LocalObserve(s, i, now);
    GoodStopped(LocalOf(u, i));
    assert LocalOf(ApplyStop(s, StopObserve(now)), i) == LocalOf(u, i).(role := CandSeen);
  }

  lemma SeenRoles(s: Sys)
    requires s.ops.StopNil? && |s.ops.incs| > 0
    ensures forall j | j != s.ops.incs[0] ::
      RoleOf(s.boot, StopSeen(s.ops.incs, s.ops.olds), j) == RoleOf(s.boot, s.ops, j)
  {}

  lemma KeepStopObserve(s: Sys, now: int)
    requires Inv(s) && StopEnabled(s, StopObserve(now))
    ensures Inv(ApplyStop(s, StopObserve(now)))
  {
    hide Good, BootLinks, Touch, RoleOf;
    var i := s.ops.incs[0];
    var t := ApplyStop(s, StopObserve(now));
    assert Good(LocalOf(s, i));
    FrameObserve(s, i, now);
    SeenRoles(s);
    FrameOps(s, DoObserve(s, i, now), i, t.ops);
    LocalStopObserve(s, now);
    KeepTouch(s, t, i);
  }

  lemma SeenIsPending(l: Local)
    requires Good(l) && l.role.CandSeen?
    ensures |l.rec.chans| > 0
  {}

  lemma GoodWait(l: Local)
    requires Good(l) && l.role.CandSeen?
    ensures Good(l.(role := NoRole, info := l.info.(waits := l.info.waits + {|l.rec.chans| - 1})))
  {}

  lemma KeepStopWait(s: Sys)
    requires Inv(s) && StopEnabled(s, StopWait)
    ensures Inv(ApplyStop(s, StopWait))
  {
    hide Good, PcOk, RoleOf, BootOk;
    LinksPc(s);
    PcTail(s);
    var i := s.ops.incs[0];
    var t := ApplyStop(s, StopWait);
    var l := LocalOf(s, i);
    assert Good(l);
    SeenIsPending(l);
    GoodWait(l);
    assert LocalOf(t, i) == l.(role := NoRole, info := l.info.(waits := l.info.waits + {|l.rec.chans| - 1}));
    KeepTouch(s, t, i);
  }

  lemma GoodPicked(l: Local)
    requires Good(l) && l.current && l.role.NoRole? && (l.rec.state.Idle? || l.rec.state.Starting?)
    ensures l.rec.state.Idle? && Good(l.(rec := l.rec.(state := Stopping), role := Cand))
  {}

  lemma LocalPick(s: Sys, picked: seq<nat>, now: int, j: nat)
    requires Links(s) && StopEnabled(s, Pick(picked, now)) && j < |s.tab.recs| && Good(LocalOf(s, j))
    ensures j in picked ==> s.tab.recs[j].state.Idle?
    ensures Good(LocalOf(ApplyStop(s, Pick(picked, now)), j))
  {
    hide Good;
    var l := LocalOf(s, j);
    var m := LocalOf(ApplyStop(s, Pick(picked, now)), j);
    if j in picked {
      assert Eligible(s.cfg, s.tab, j, now, s.ops.ignoreIdleGrace);
      GoodPicked(l);
      assert m == l.(rec := l.rec.(state := Stopping), role := Cand);
    } else {
      assert m == l;
    }
  }

  lemma LinksPick(s: Sys, picked: seq<nat>, now: int)
    requires Links(s) && BootLinks(s) && StopEnabled(s, Pick(picked, now))
    requires forall j | 0 <= j < |s.tab.recs| && j in picked :: s.tab.recs[j].state.Idle?
    ensures Links(ApplyStop(s, Pick(picked, now))) && BootLinks(ApplyStop(s, Pick(picked, now)))
  {
    forall k | 0 <= k < |picked| ensures picked[k] < |s.tab.recs| && s.tab.recs[picked[k]].state.Idle? {
      assert Eligible(s.cfg, s.tab, picked[k], now, s.ops.ignoreIdleGrace);
      assert picked[k] in picked;
    }
  }

  lemma KeepPick(s: Sys, picked: seq<nat>, now: int)
    requires Inv(s) && StopEnabled(s, Pick(picked, now))
    ensures Inv(ApplyStop(s, Pick(picked, now)))
  {
    hide Good, BootLinks, Picks;
    var t := ApplyStop(s, Pick(picked, now));
    forall j | 0 <= j < |s.tab.recs| ensures Good(LocalOf(t, j)) && (j in picked ==> s.tab.recs[j].state.Idle?) {
      LocalPick(s, picked, now, j);
    }
    LinksPick(s, picked, now);
  }

  lemma KeepStop(s: Sys, a: StopAct)
    requires Inv(s) && StopEnabled(s, a)
    ensures Inv(ApplyStop(s, a))
  {
    match a
    case Pick(picked, now) => KeepPick(s, picked, now);
    case Release => KeepQuiet(s, ApplyStop(s, a));
    case StopFails => KeepStopFails(s);
    case RestoreOld => KeepRestoreOld(s);
    case StopOk => KeepStopOk(s);
    case StopObserve(now) => KeepStopObserve(s, now);
    case StopWait => KeepStopWait(s);
  }

  // ------------------------------------------------------------------ boot adoption

  lemma KeepBootAdopt(s: Sys, id: ID, name: string, now: int)
    requires Inv(s) && BootEnabled(s, BootAdopt(id, name, now))
    ensures Inv(ApplyBoot(s, BootAdopt(id, name, now)))
  {
    KeepAppend(s, ApplyBoot(s, BootAdopt(id, name, now)), id);
  }

  lemma KeepBootOrphan(s: Sys, id: ID, name: string)
    requires Inv(s) && BootEnabled(s, BootOrphan(id, name))
    ensures Inv(ApplyBoot(s, BootOrphan(id, name)))
  {
    KeepAppend(s, ApplyBoot(s, BootOrphan(id, name)), id);
  }

  lemma KeepBootClean(s: Sys)
    requires Inv(s) && BootEnabled(s, BootClean)
    ensures Inv(ApplyBoot(s, BootClean))
  {
    hide Good, BootLinks, Touch;
    var i := s.boot.inc;
    var t := ApplyBoot(s, BootClean);
    var l := LocalOf(s, i);
    assert Good(l);
    NeverLaunched(l);
    GoodCleaning(l, NoRole);
    FrameBootClean(s);
    LocalCleaned(s, t, i);
    KeepTouch(s, t, i);
  }

  lemma KeepBoot(s: Sys, a: BootAct)
    requires Inv(s) && BootEnabled(s, a)
    ensures Inv(ApplyBoot(s, a))
  {
    match a
    case BootAdopt(id, name, now) => KeepBootAdopt(s, id, name, now);
    case BootOrphan(id, name) => KeepBootOrphan(s, id, name);
    case BootClean => KeepBootClean(s);
    case _ => KeepQuiet(s, ApplyBoot(s, a));
  }

  /** Every step of every thread keeps the invariant. */
  lemma KeepStep(s: Sys, a: Act)
    requires Inv(s) && Enabled(s, a)
    ensures Inv(Apply(s, a))
  {
    hide Inv;
    match a
    case OfBoot(b) => KeepBoot(s, b);
    case OfStart(b) => KeepStart(s, b);
    case OfLaunch(b) => KeepLaunch(s, b);
    case OfStop(b) => KeepStop(s, b);
    case OfWatch(b) => KeepWatch(s, b);
    case OfClean(b) => KeepClean(s, b);
    case OfOuter(b) => KeepOuter(s, b);
  }
}
