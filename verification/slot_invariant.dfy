/** What every reachable state of the slot table satisfies.

    The invariant is local: for each incarnation i it speaks only of i's own record, watcher,
    worker, role in the program counters, and (while i holds its ID) of its unit and directory.
    Local collects exactly these, Good is the quantifier-free invariant on it, and a step keeps
    Good for every incarnation whose Local it does not change. */
module SlotInvariant {
  import opened SlotModel
  import opened SlotProtocol

  /** Where an incarnation stands in the program of the boot or ops thread. */
  datatype Role =
    NoRole | Making | Preparing | Naming | Starting_ | Failing | Orphaning | Cand | CandStopped | CandSeen

  ghost function RoleOf(boot: Boot, ops: Ops, i: nat): Role {
    if boot.Orphan? && boot.inc == i then Orphaning
    else match ops
         case Made(_, j) => if i == j then Making else NoRole
         case Prep(_, j) => if i == j then Preparing else NoRole
         case Named(_, j) => if i == j then Naming else NoRole
         case Launching(_, j) => if i == j then Starting_ else NoRole
         case Broken(_, j) => if i == j then Failing else NoRole
         case Stops(js, _) => if i in js then Cand else NoRole
         case StopErr(js, _) => if i in js then Cand else NoRole
         case StopNil(js, _) => if |js| > 0 && i == js[0] then CandStopped else if i in js then Cand else NoRole
         case StopSeen(js, _) => if |js| > 0 && i == js[0] then CandSeen else if i in js then Cand else NoRole
         case _ => NoRole
  }

  datatype Local = Local(
    rec: Rec,
    info: Info,
    current: bool,
    role: Role,
    runs: bool,          // it holds its ID and its unit may be running
    clean: bool,         // it holds its ID and its directory exists, untouched by any wipe
    hook: bool,
    closed: bool)        // the table was closed

  ghost function LocalOf(s: Sys, i: nat): Local
    requires i < |s.tab.recs| && i < |s.info|
  {
    var r := s.tab.recs[i];
    var cur := Current(s.tab, i);
    Local(r, s.info[i], cur, RoleOf(s.boot, s.ops, i), cur && r.id in s.mayRun, cur && r.id in s.dirs && !s.dirs[r.id],
          s.cfg.completionHook, s.tab.closed)
  }

  ghost predicate Launchee(role: Role) {
    role.Making? || role.Preparing? || role.Naming? || role.Starting_?
  }

  ghost predicate Good(l: Local) {
    GoodLife(l) && GoodClean(l) && GoodEvents(l)
  }

  /** States, roles, and what the backend has proved. */
  ghost predicate GoodLife(l: Local) {
    var r, k := l.rec, l.info;
    && (l.current <==> k.released.NotYet?)
    && (r.state.Starting? || r.state.Idle? || r.state.Busy? || r.state.Stopping?)
    // A live record belongs to the attempt that is starting it, or has been launched and is watched.
    && (l.current && r.state.Starting? ==> Launchee(l.role))
    && (l.current && r.state.Live() ==> !r.cleanupPending && !k.mayClean)
    && (l.current && r.state.Live() && !Launchee(l.role) ==> l.role.NoRole? && k.launched && !k.watch.NoWatch?)
    && (Launchee(l.role) ==> l.current && r.state.Live() && k.watch.NoWatch? && !k.exitConfirmed && !k.uncertain)
    && (l.role.Making? || l.role.Preparing? || l.role.Naming? ==> !k.launched)
    && (l.role.Starting_? ==> k.launched)
    && (k.uncertain && r.state.Live() ==> r.state.Busy?)
    && (l.role.Failing? ==> l.current && r.state.Stopping? && k.failedStart && !r.cleanupPending)
    && (l.role.Orphaning? ==> l.current && r.state.Stopping? && k.orphan && !r.cleanupPending)
    && (l.role.Cand? || l.role.CandStopped? || l.role.CandSeen? ==>
          r.state.Stopping? && k.launched && !k.watch.NoWatch? && !k.uncertain && (l.current || r.cleanupPending))
    && (l.role.CandStopped? ==> k.exitConfirmed)
    && (l.role.CandSeen? ==> r.cleanupPending)
    && (l.current && r.state.Stopping? && !r.cleanupPending ==>
          l.role.Failing? || l.role.Orphaning? || ((l.role.Cand? || l.role.CandStopped?) && !k.mayClean))
    // Nothing is ever cleaned without proof that its unit is not running.
    && (k.mayClean ==> r.state.Stopping? && (k.exitConfirmed || k.orphan || k.failedStart))
    && (k.failedStart || k.orphan ==> !k.launched && k.watch.NoWatch? && k.mayClean)
    && (k.watch.Confirmed? || k.exitConfirmed ==> k.launched)
    && (k.watch.Confirmed? ==> k.exitConfirmed)
    && (!k.watch.NoWatch? ==> k.launched)
    // A watcher leaves only once the exit is recorded or the table is closed.
    && (l.current && k.watch.Over? ==> r.cleanupPending || l.closed)
    && (l.runs ==> k.launched && !k.exitConfirmed)
    && (l.current && !l.role.Making? && !r.cleanupPending ==> l.clean)
  }

  /** The newest channel of a record, its cleanDone, has not been closed. */
  predicate Open(r: Rec) {
    r.chans != [] && !r.chans[|r.chans| - 1]
  }

  predicate OlderClosed(chans: seq<bool>) {
    forall k | 0 <= k < |chans| - 1 :: chans[k]
  }

  /** The cleanup worker and its channel. */
  ghost predicate GoodClean(l: Local) {
    var r, k := l.rec, l.info;
    && (r.cleanupPending <==> r.chans != [])
    && (r.cleanupPending ==> r.state.Stopping? && k.mayClean)
    && (r.cleaning <==> !k.worker.NoWorker?)
    && (r.cleaning ==> Open(r))
    && OlderClosed(r.chans)
    && (k.worker.Wiping? || k.worker.Removed? || k.worker.Emitting? || k.worker.Closing? ==>
        k.worker.done == |r.chans| - 1)
    && (k.worker.Spawned? || k.worker.Wiping? || k.worker.Removed? ==> l.current)
    && (k.worker.Emitting? ==> k.released.Wiped?)
    && (k.released.Wiped? ==> r.cleanupPending)
    && (k.released.OwnedNothing? ==>
        !r.cleanupPending && l.role.NoRole? && k.acquireFailures == 1 && !k.launched && k.watch.NoWatch? && !k.mayClean)
    && (Open(r) ==> l.current || r.cleaning)
    && (forall c <- k.waits :: c < |r.chans|)
    && !k.overlap && !k.doubleClose
  }

  /** How often each event was emitted. */
  ghost predicate GoodEvents(l: Local) {
    var r, k := l.rec, l.info;
    && k.completions == (if r.completionSent then 1 else 0)
    && (r.completionSent ==> r.claimed && r.cleanupPending)
    && (r.cleanupPending && r.claimed && l.hook && !k.failedStart ==> r.completionSent)
    && (k.failedStart ==> !r.completionSent)
    && (k.orphan ==> !r.claimed && k.acquireFailures == 0)
    && k.acquireFailures <= 1
    && (Launchee(l.role) ==> k.acquireFailures == 0)
    && (k.uncertain || k.failedStart ==> k.acquireFailures == 1)
    && (l.current && !r.cleanupPending && !k.uncertain && !k.failedStart ==> k.acquireFailures == 0)
    && k.exits + k.stops <= 1
    && (!r.cleanupPending ==> k.exits == 0 && r.exitEvent.NoEvent?)
    && (l.role.Cand? || l.role.CandStopped? || l.role.CandSeen? ==> r.exitEvent.NoEvent?)
    && (l.role.Cand? ==> k.stops == 0)
    && (k.stops > 0 ==> r.exitEvent.NoEvent? && (r.cleanupPending || l.role.CandStopped?))
    && (k.exits > 0 ==> r.exitEvent.Exited? && k.released.Wiped? && !k.worker.Emitting?)
    && (k.worker.Emitting? ==> k.worker.event == r.exitEvent)
    && (r.exitEvent.NoEvent? ==> k.exits == 0)
  }

  /** What the program counters refer to. */
  ghost predicate Links(s: Sys) {
    && Shape(s)
    && (InStops(s.ops) ==> Distinct(s.ops.incs) && forall k | 0 <= k < |s.ops.olds| :: s.ops.olds[k].Idle?)
    && (!s.boot.Done? ==> s.ops.Free?)
  }

  /** While boot adoption runs, a unit that may be running is tracked or still to be looked at;
      if it was aborted, such a unit is tracked or its directory untouched. */
  ghost predicate BootOk(boot: Boot, listing: set<ID>, mayRun: set<ID>, dirs: map<ID, bool>, slots: map<ID, nat>) {
    && (boot.Entries? || boot.Orphan? ==>
          && (forall id <- boot.todo :: id in dirs && !dirs[id] && id !in slots)
          && (forall id <- mayRun :: id in listing && (id in slots || id in boot.todo || id !in dirs)))
    && (boot.Units? ==> forall id <- mayRun :: id in slots || (id in boot.todo && id !in dirs))
    && (boot.Done? ==> forall id <- mayRun :: id in slots)
    && (boot.Aborted? ==> forall id <- mayRun :: id in slots || id !in dirs || !dirs[id])
  }

  ghost predicate BootLinks(s: Sys) {
    BootOk(s.boot, s.listing, s.mayRun, s.dirs, s.tab.slots)
  }

  ghost predicate Inv(s: Sys) {
    && Links(s)
    && BootLinks(s)
    && (forall i | 0 <= i < |s.tab.recs| :: Good(LocalOf(s, i)))
  }
}
