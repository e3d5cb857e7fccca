/** The slot table run by many threads, as a labelled transition system.

    Every mutex-protected block of internal/slot/manager.go is one step, and what a thread
    does between two blocks (a backend call, a mkdir, a wipe) is one or more further steps.
    Threads: boot adoption, the holder of the ops token, one watcher per incarnation, any
    number of cleanup workers and callers of clean, the listener and the sampler. The backend
    is an oracle bound by internal/runner/runner.go:41-58 only. */
module SlotProtocol {
  import opened SlotModel

  // ------------------------------------------------------------------ threads

  /** Adopt: first the slot directories, then the listed units. */
  datatype Boot =
    | Entries(todo: set<ID>)
    | Orphan(inc: nat, todo: set<ID>)  // an orphan record was inserted; clean comes next
    | Units(todo: set<ID>)
    | Done
    | Aborted                          // Adopt returned an error; the daemon exits

  /** The program counter of Ensure or Shutdown. Free means nobody holds the token. */
  datatype Ops =
    | Free
    | Loop(desired: int)
    | Gate(desired: int)                // the loop saw fewer live slots than desired
    | Made(desired: int, inc: nat)      // record inserted, mkdir next
    | Prep(desired: int, inc: nat)      // directory reserved, materialize and mint next
    | Named(desired: int, inc: nat)     // runner name recorded, JIT file and Start next
    | Launching(desired: int, inc: nat) // inside backend.Start
    | Broken(desired: int, inc: nat)    // inside fail, clean comes next
    | Surplus(desired: int, ignoreIdleGrace: bool)
    | Stops(incs: seq<nat>, olds: seq<State>)    // about to stop incs[0], if any
    | StopErr(incs: seq<nat>, olds: seq<State>)  // Stop failed for incs[0], restore next
    | StopNil(incs: seq<nat>, olds: seq<State>)  // Stop succeeded for incs[0], observe next
    | StopSeen(incs: seq<nat>, olds: seq<State>) // observed, waitCleanup next

  datatype Watch = NoWatch | Waiting | Confirmed | Over

  /** The cleanup worker of one incarnation; done is the channel it read, by its number. */
  datatype Worker =
    | NoWorker
    | Spawned                              // clean unlocked, has not yet read cleanDone
    | Wiping(done: nat)
    | Removed(done: nat)                   // RemoveAll returned nil
    | Emitting(done: nat, event: ExitEvent)
    | Closing(done: nat)

  datatype Released = NotYet | Wiped | OwnedNothing

  /** What is known about one incarnation beyond its record: its watcher, its cleanup worker,
      what the backend proved about it, how often each event was emitted for it, and whether
      something happened that the table must never do. */
  datatype Info = Info(
    watch: Watch,
    worker: Worker,
    launched: bool,      // its unit may have been started (never true after ErrNotStarted)
    exitConfirmed: bool, // Wait or Stop returned nil for its unit
    orphan: bool,        // at adoption its unit was absent from the listing
    failedStart: bool,   // fail ran: the launch provably did not happen
    uncertain: bool,     // Start returned an error that proves nothing
    mayClean: bool,      // some caller is about to call clean for it
    released: Released,
    waits: set<nat>,     // the channels somebody waits on
    completions: nat,
    acquireFailures: nat,
    exits: nat,
    stops: nat,
    overlap: bool,       // a second worker was started while one was at work
    doubleClose: bool)   // a closed channel was closed, which panics

  const FRESH_INFO :=
    Info(NoWatch, NoWorker, false, false, false, false, false, false, NotYet, {}, 0, 0, 0, 0, false, false)

  /** dirs maps an existing slot directory to whether a wipe has touched it (or its JIT file);
      mayRun holds the units that may be running, by slot ID: all incarnations of an ID share
      one unit name and one directory. */
  datatype Sys = Sys(
    cfg: Config,
    tab: Tab,
    dirs: map<ID, bool>,
    mayRun: set<ID>,
    listing: set<ID>,
    boot: Boot,
    ops: Ops,
    info: seq<Info>)

  datatype Act =
    | OfBoot(boot: BootAct)
    | OfStart(start: StartAct)
    | OfLaunch(launch: LaunchAct)
    | OfStop(stop: StopAct)
    | OfWatch(watch: WatchAct)
    | OfClean(clean: CleanAct)
    | OfOuter(outer: OuterAct)

  /** Boot adoption. */
  datatype BootAct =
    | BootAdopt(id: ID, name: string, now: int)
    | BootOrphan(id: ID, name: string)
    | BootClean
    | BootEntriesEnd
    | BootSkip(id: ID)
    | BootStopOk(id: ID)
    | BootEnd
    | BootAbort

  /** The token holder up to the minted runner. */
  datatype StartAct =
    | Acquire(desired: int, shutdown: bool)
    | LoopStart
    | LoopEnd
    | LoopCancel
    | GateRefuse
    | ReserveSlot(id: ID, now: int, cores: real, mem: nat)
    | MkdirFail
    | MkdirOk
    | PrepFail
    | GotName(name: string)

  /** The token holder around backend.Start. */
  datatype LaunchAct =
    | StartCall
    | StartNotStarted
    | StartUncertain
    | StartOk(now: int)
    | FailClean

  /** The token holder in stopSurplusContext. */
  datatype StopAct =
    | Pick(picked: seq<nat>, now: int)
    | Release
    | StopFails
    | RestoreOld
    | StopOk
    | StopObserve(now: int)
    | StopWait

  /** Watchers. */
  datatype WatchAct =
    | WaitNil(inc: nat, gone: bool) // a stale watcher may have seen only its own unit's exit
    | WatchObserve(inc: nat, now: int)
    | WatchQuit(inc: nat)

  /** Callers of clean and their workers. */
  datatype CleanAct =
    | CleanCall(inc: nat)
    | WorkerRead(inc: nat)
    | WorkerTouch(inc: nat)
    | WorkerRemove(inc: nat)
    | WorkerFail(inc: nat)
    | WorkerDelete(inc: nat)
    | WorkerEmit(inc: nat)
    | WorkerClose(inc: nat)

  /** Listener, sampler, Close. */
  datatype OuterAct =
    | ClaimJob(inc: nat, job: Job, now: int)
    | MarkResult(inc: nat, result: string)
    | SampleUsage(inc: nat, usage: Usage)
    | CloseTable

  // ------------------------------------------------------------------ helpers

  function InStops(o: Ops): bool { o.Stops? || o.StopErr? || o.StopNil? || o.StopSeen? }

  ghost predicate Distinct(s: seq<nat>) {
    forall i, j | 0 <= i < j < |s| :: s[i] != s[j]
  }

  function SetInfo(s: Sys, i: nat, k: Info): Sys
    requires i < |s.info|
  {
    s.(info := s.info[i := k])
  }

  /** observeExitContext up to its unlock, together with the events it goes on to emit. */
  function DoObserve(s: Sys, i: nat, now: int): Sys
    requires i < |s.tab.recs| && i < |s.info|
  {
    match ObservationOf(s.cfg, s.tab, i, now)
    case Ignored => s
    case Observed(failure, completion) =>
      var k := s.info[i];
      s.(tab := Observe(s.cfg, s.tab, i, now),
         info := s.info[i := k.(mayClean := true,
                                 acquireFailures := k.acquireFailures + if failure then 1 else 0,
                                 completions := k.completions + if completion.Some? then 1 else 0)])
  }

  /** clean up to its unlock: starts a worker unless the record is gone or being cleaned. */
  function DoClean(s: Sys, i: nat): Sys
    requires i < |s.tab.recs| && i < |s.info|
  {
    if !Cleanable(s.tab, i) then s
    else
      var k := s.info[i];
      s.(tab := BeginClean(s.tab, i),
         info := s.info[i := k.(worker := Spawned, overlap := k.overlap || !k.worker.NoWorker?)])
  }

  function DoFail(s: Sys, i: nat): Sys
    requires i < |s.tab.recs| && i < |s.info|
  {
    var k := s.info[i];
    s.(tab := FailStart(s.tab, i),
       info := s.info[i := k.(failedStart := true, launched := false, mayClean := true,
                              acquireFailures := k.acquireFailures + 1)])
  }

  function UnitOf(s: Sys, i: nat): ID
    requires i < |s.tab.recs|
  {
    s.tab.recs[i].id
  }

  ghost predicate Live(s: Sys, i: nat) { i < |s.tab.recs| && Current(s.tab, i) }

  ghost predicate WorkerShape(r: Rec, w: Worker) {
    && (w.Spawned? ==> |r.chans| > 0)
    && (w.Wiping? || w.Removed? || w.Emitting? || w.Closing? ==> w.done < |r.chans|)
  }

  /** The shape every reachable state has, enough to state what each step reads. */
  ghost predicate Shape(s: Sys) {
    && Wf(s.tab)
    && |s.info| == |s.tab.recs|
    && (forall i | 0 <= i < |s.info| :: WorkerShape(s.tab.recs[i], s.info[i].worker))
    && (s.ops.Made? || s.ops.Prep? || s.ops.Named? || s.ops.Launching? || s.ops.Broken? ==> s.ops.inc < |s.tab.recs|)
    && (s.boot.Orphan? ==> s.boot.inc < |s.tab.recs|)
    && (InStops(s.ops) ==>
        (forall k | 0 <= k < |s.ops.incs| :: s.ops.incs[k] < |s.tab.recs|) && |s.ops.olds| == |s.ops.incs|)
    && (s.ops.StopErr? || s.ops.StopNil? || s.ops.StopSeen? ==> |s.ops.incs| > 0)
  }

  // ------------------------------------------------------------------ steps

  ghost predicate BootEnabled(s: Sys, a: BootAct)
    requires Shape(s)
  {
    match a
    case BootAdopt(id, _, _) => s.boot.Entries? && id in s.boot.todo && id !in s.tab.slots && id in s.listing
    case BootOrphan(id, _) => s.boot.Entries? && id in s.boot.todo && id !in s.tab.slots && id !in s.listing
    case BootClean => s.boot.Orphan?
    case BootEntriesEnd => s.boot.Entries? && s.boot.todo == {}
    case BootSkip(id) => s.boot.Units? && id in s.boot.todo && (id in s.tab.slots || id in s.dirs)
    case BootStopOk(id) => s.boot.Units? && id in s.boot.todo && id !in s.tab.slots && id !in s.dirs
    case BootEnd => s.boot.Units? && s.boot.todo == {}
    case BootAbort => !s.boot.Done? && !s.boot.Orphan?
  }

  ghost function ApplyBoot(s: Sys, a: BootAct): Sys
    requires Shape(s) && BootEnabled(s, a)
  {
    match a
    case BootAdopt(id, name, now) =>
      s.(tab := AdoptRunning(s.tab, id, name, now), boot := Entries(s.boot.todo - {id}),
         info := s.info + [FRESH_INFO.(watch := Waiting, launched := true)])
    case BootOrphan(id, name) =>
      s.(tab := AdoptOrphan(s.tab, id, name), boot := Orphan(|s.tab.recs|, s.boot.todo - {id}),
         info := s.info + [FRESH_INFO.(orphan := true, mayClean := true)])
    case BootClean => DoClean(s, s.boot.inc).(boot := Entries(s.boot.todo))
    case BootEntriesEnd => s.(boot := Units(s.listing))
    case BootSkip(id) => s.(boot := Units(s.boot.todo - {id}))
    case BootStopOk(id) => s.(boot := Units(s.boot.todo - {id}), mayRun := s.mayRun - {id})
    case BootEnd => s.(boot := Done)
    case BootAbort => s.(boot := Aborted)
  }

  ghost predicate StartEnabled(s: Sys, a: StartAct)
    requires Shape(s)
  {
    match a
    case Acquire(_, _) => s.boot.Done? && s.ops.Free?
    case LoopStart => s.ops.Loop? && !s.tab.closed && LiveCount(s.tab) < s.ops.desired
    case LoopEnd => s.ops.Loop? && (s.tab.closed || LiveCount(s.tab) >= s.ops.desired)
    case LoopCancel => s.ops.Loop? && !s.tab.closed && LiveCount(s.tab) < s.ops.desired
    case GateRefuse => s.ops.Gate?
    case ReserveSlot(id, _, _, _) => s.ops.Gate? && !s.tab.closed && LowestFree(s.tab.slots, id)
    case MkdirFail => s.ops.Made?
    case MkdirOk => s.ops.Made? && UnitOf(s, s.ops.inc) !in s.dirs
    case PrepFail => s.ops.Prep? || s.ops.Named?
    case GotName(_) => s.ops.Prep?
  }

  ghost function ApplyStart(s: Sys, a: StartAct): Sys
    requires Shape(s) && StartEnabled(s, a)
  {
    match a
    case Acquire(desired, shutdown) => s.(ops := if shutdown then Surplus(0, true) else Loop(desired))
    case LoopStart => s.(ops := Gate(s.ops.desired))
    case LoopEnd => s.(ops := Surplus(s.ops.desired, false))
    case LoopCancel => s.(ops := Free)
    case GateRefuse => s.(ops := Surplus(s.ops.desired, false))
    case ReserveSlot(id, now, cores, mem) =>
      s.(tab := Reserve(s.tab, id, now, cores, mem), info := s.info + [FRESH_INFO],
         ops := Made(s.ops.desired, |s.tab.recs|))
    case MkdirFail =>
      var k := s.info[s.ops.inc];
      s.(tab := Drop(s.tab, UnitOf(s, s.ops.inc)), ops := Surplus(s.ops.desired, false),
         info := s.info[s.ops.inc := k.(released := OwnedNothing, acquireFailures := k.acquireFailures + 1)])
    case MkdirOk =>
      s.(dirs := s.dirs[UnitOf(s, s.ops.inc) := false], ops := Prep(s.ops.desired, s.ops.inc))
    case PrepFail => DoFail(s, s.ops.inc).(ops := Broken(s.ops.desired, s.ops.inc))
    case GotName(name) => s.(tab := SetName(s.tab, s.ops.inc, name), ops := Named(s.ops.desired, s.ops.inc))
  }

  ghost predicate LaunchEnabled(s: Sys, a: LaunchAct)
    requires Shape(s)
  {
    match a
    case StartCall => s.ops.Named?
    case StartNotStarted => s.ops.Launching?
    case StartUncertain => s.ops.Launching?
    case StartOk(_) => s.ops.Launching?
    case FailClean => s.ops.Broken?
  }

  ghost function ApplyLaunch(s: Sys, a: LaunchAct): Sys
    requires Shape(s) && LaunchEnabled(s, a)
  {
    match a
    case StartCall =>
      s.(mayRun := s.mayRun + {UnitOf(s, s.ops.inc)}, ops := Launching(s.ops.desired, s.ops.inc),
         info := s.info[s.ops.inc := s.info[s.ops.inc].(launched := true)])
    case StartNotStarted =>
      DoFail(s, s.ops.inc).(mayRun := s.mayRun - {UnitOf(s, s.ops.inc)}, ops := Broken(s.ops.desired, s.ops.inc))
    case StartUncertain =>
      var k := s.info[s.ops.inc];
      s.(tab := LaunchUncertain(s.tab, s.ops.inc), mayRun := s.mayRun + {UnitOf(s, s.ops.inc)},
         ops := Surplus(s.ops.desired, false),
         info := s.info[s.ops.inc := k.(uncertain := true, watch := Waiting, acquireFailures := k.acquireFailures + 1)])
    case StartOk(now) =>
      s.(tab := LaunchOk(s.tab, s.ops.inc, now), mayRun := s.mayRun + {UnitOf(s, s.ops.inc)},
         ops := Loop(s.ops.desired), info := s.info[s.ops.inc := s.info[s.ops.inc].(watch := Waiting)])
    case FailClean => DoClean(s, s.ops.inc).(ops := Surplus(s.ops.desired, false))
  }

  ghost predicate StopEnabled(s: Sys, a: StopAct)
    requires Shape(s)
  {
    match a
    case Pick(picked, now) =>
      s.ops.Surplus? && Picks(s.cfg, s.tab, s.ops.desired, s.ops.ignoreIdleGrace, now, picked)
    case Release => s.ops.Stops? && s.ops.incs == []
    case StopFails => s.ops.Stops? && s.ops.incs != []
    case RestoreOld => s.ops.StopErr?
    case StopOk => s.ops.Stops? && s.ops.incs != []
    case StopObserve(_) => s.ops.StopNil?
    case StopWait => s.ops.StopSeen?
  }

  ghost function ApplyStop(s: Sys, a: StopAct): Sys
    requires Shape(s) && StopEnabled(s, a)
  {
    match a
    case Pick(picked, now) =>
      s.(tab := MarkStopping(s.tab, picked),
         ops := Stops(picked,
             seq(|picked|, k requires 0 <= k < |picked| && picked[k] < |s.tab.recs| => s.tab.recs[picked[k]].state)))
    case Release => s.(ops := Free)
    case StopFails => s.(ops := StopErr(s.ops.incs, s.ops.olds))
    case RestoreOld =>
      s.(tab := Restore(s.tab, s.ops.incs[0], s.ops.olds[0]), ops := Stops(s.ops.incs[1..], s.ops.olds[1..]))
    case StopOk =>
      var i := s.ops.incs[0];
      var k := s.info[i];
      s.(mayRun := s.mayRun - {UnitOf(s, i)}, ops := StopNil(s.ops.incs, s.ops.olds),
         info := s.info[i := k.(exitConfirmed := true, stops := k.stops + 1)])
    case StopObserve(now) => DoObserve(s, s.ops.incs[0], now).(ops := StopSeen(s.ops.incs, s.ops.olds))
    case StopWait =>
      var i := s.ops.incs[0];
      var done := |s.tab.recs[i].chans| - 1;
      (if done >= 0 then SetInfo(s, i, s.info[i].(waits := s.info[i].waits + {done})) else s)
      .(ops := Stops(s.ops.incs[1..], s.ops.olds[1..]))
  }

  ghost predicate WatchEnabled(s: Sys, a: WatchAct)
    requires Shape(s)
  {
    match a
    case WaitNil(i, gone) => i < |s.info| && s.info[i].watch.Waiting? && (gone || !Current(s.tab, i))
    case WatchObserve(i, _) => i < |s.info| && s.info[i].watch.Confirmed?
    case WatchQuit(i) => i < |s.info| && s.tab.closed && (s.info[i].watch.Waiting? || s.info[i].watch.Confirmed?)
  }

  ghost function ApplyWatch(s: Sys, a: WatchAct): Sys
    requires Shape(s) && WatchEnabled(s, a)
  {
    match a
    case WaitNil(i, gone) =>
      s.(mayRun := if gone then s.mayRun - {UnitOf(s, i)} else s.mayRun,
          info := s.info[i := s.info[i].(watch := Confirmed, exitConfirmed := true)])
    case WatchObserve(i, now) =>
      var t := DoObserve(s, i, now);
      t.(info := t.info[i := t.info[i].(watch := Over)])
    case WatchQuit(i) => SetInfo(s, i, s.info[i].(watch := Over))
  }

  ghost predicate CleanEnabled(s: Sys, a: CleanAct)
    requires Shape(s)
  {
    match a
    case CleanCall(i) => i < |s.info| && (s.info[i].mayClean || s.tab.recs[i].cleanupPending)
                         && !(s.boot.Orphan? && s.boot.inc == i) && !(s.ops.Broken? && s.ops.inc == i)
    case WorkerRead(i) => i < |s.info| && s.info[i].worker.Spawned?
    case WorkerTouch(i) => i < |s.info| && s.info[i].worker.Wiping?
    case WorkerRemove(i) => i < |s.info| && s.info[i].worker.Wiping?
    case WorkerFail(i) => i < |s.info| && s.info[i].worker.Wiping?
    case WorkerDelete(i) => i < |s.info| && s.info[i].worker.Removed?
    case WorkerEmit(i) => i < |s.info| && s.info[i].worker.Emitting?
    case WorkerClose(i) => i < |s.info| && s.info[i].worker.Closing?
  }

  ghost function ApplyClean(s: Sys, a: CleanAct): Sys
    requires Shape(s) && CleanEnabled(s, a)
  {
    match a
    case CleanCall(i) => DoClean(s, i)
    case WorkerRead(i) =>
      // Both the worker and the caller of clean hold this channel.
      var done := |s.tab.recs[i].chans| - 1;
      SetInfo(s, i, s.info[i].(worker := Wiping(done), waits := s.info[i].waits + {done}))
    case WorkerTouch(i) =>
      var id := UnitOf(s, i);
      if id in s.dirs then s.(dirs := s.dirs[id := true]) else s
    case WorkerRemove(i) =>
      SetInfo(s, i, s.info[i].(worker := Removed(s.info[i].worker.done))).(dirs := s.dirs - {UnitOf(s, i)})
    case WorkerFail(i) => SetInfo(s, i, s.info[i].(worker := Closing(s.info[i].worker.done)))
    case WorkerDelete(i) =>
      var k := s.info[i].(worker := Emitting(s.info[i].worker.done, s.tab.recs[i].exitEvent));
      SetInfo(s, i, if Current(s.tab, i) then k.(released := Wiped) else k).(tab := DeleteIfCurrent(s.tab, i))
    case WorkerEmit(i) =>
      var k := s.info[i];
      SetInfo(s, i, k.(worker := Closing(k.worker.done), exits := k.exits + if k.worker.event.Exited? then 1 else 0))
    case WorkerClose(i) =>
      var k := s.info[i];
      SetInfo(s, i, k.(worker := NoWorker, doubleClose := k.doubleClose || s.tab.recs[i].chans[k.worker.done]))
      .(tab := CloseDone(s.tab, i, k.worker.done))
  }

  ghost predicate OuterEnabled(s: Sys, a: OuterAct)
    requires Shape(s)
  {
    match a
    case ClaimJob(i, job, _) => Live(s, i) && s.tab.recs[i].runnerName == job.runnerName
    case MarkResult(i, result) => Live(s, i) && s.tab.recs[i].state.Live() && result != ""
    case SampleUsage(i, _) => i < |s.info|
    case CloseTable => true
  }

  ghost function ApplyOuter(s: Sys, a: OuterAct): Sys
    requires Shape(s) && OuterEnabled(s, a)
  {
    match a
    case ClaimJob(i, job, now) => s.(tab := Claim(s.tab, i, job, now))
    case MarkResult(i, result) => s.(tab := SetResult(s.tab, i, result))
    case SampleUsage(i, u) => s.(tab := Sample(s.tab, i, u))
    case CloseTable => s.(tab := s.tab.(closed := true))
  }

  ghost predicate Enabled(s: Sys, a: Act)
    requires Shape(s)
  {
    match a
    case OfBoot(b) => BootEnabled(s, b)
    case OfStart(b) => StartEnabled(s, b)
    case OfLaunch(b) => LaunchEnabled(s, b)
    case OfStop(b) => StopEnabled(s, b)
    case OfWatch(b) => WatchEnabled(s, b)
    case OfClean(b) => CleanEnabled(s, b)
    case OfOuter(b) => OuterEnabled(s, b)
  }

  ghost function Apply(s: Sys, a: Act): Sys
    requires Shape(s) && Enabled(s, a)
  {
    match a
    case OfBoot(b) => ApplyBoot(s, b)
    case OfStart(b) => ApplyStart(s, b)
    case OfLaunch(b) => ApplyLaunch(s, b)
    case OfStop(b) => ApplyStop(s, b)
    case OfWatch(b) => ApplyWatch(s, b)
    case OfClean(b) => ApplyClean(s, b)
    case OfOuter(b) => ApplyOuter(s, b)
  }

  /** A boot: an empty table, whatever directories exist, none of them touched by a wipe, and a
      listing of this pool's units that covers every unit that may be running. */
  ghost predicate Init(s: Sys) {
    && s.tab == EMPTY_TAB && s.info == []
    && (forall id <- s.dirs :: !s.dirs[id])
    && s.mayRun <= s.listing
    && s.boot == Entries(s.dirs.Keys)
    && s.ops == Free
  }
}
