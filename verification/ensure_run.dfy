/** What one Ensure of internal/slot/manager.go does to the number of live slots when no slot that
    is live exits meanwhile: from the runs of SlotProtocol, the contract Scheduler relies on. */
module EnsureRun {
  import opened Basics
  import opened EnsureContract
  import opened SlotModel
  import opened SlotProtocol
  import opened SlotInvariant
  import opened SlotSteps
  import opened SlotCount

  ghost predicate IsLive(s: Sys, i: nat) {
    i < |s.tab.recs| && Current(s.tab, i) && s.tab.recs[i].state.Live()
  }

  /** The token stays where it is, the table open, and no watcher reports the exit of a live slot;
      cleanup, claims and samples go on. */
  ghost predicate Undisturbed(s: Sys, a: Act) {
    match a
    case OfBoot(_) => false
    case OfStart(b) => !b.Acquire?
    case OfWatch(b) => !IsLive(s, b.inc)
    case OfOuter(b) => !b.CloseTable?
    case _ => true
  }

  /** The Ensure is cancelled, or a start is held back or fails. */
  predicate Fails(a: Act) {
    match a
    case OfStart(b) => b.LoopCancel? || b.GateRefuse? || b.MkdirFail? || b.PrepFail?
    case OfLaunch(b) => b.StartNotStarted? || b.StartUncertain?
    case _ => false
  }

  ghost predicate QuietRun(s: Sys, acts: seq<Act>, t: Sys, willing: bool)
    decreases |acts|
  {
    if acts == [] then s == t
    else
      && Shape(s) && Enabled(s, acts[0]) && Undisturbed(s, acts[0]) && (willing ==> !Fails(acts[0]))
      && QuietRun(Apply(s, acts[0]), acts[1..], t, willing)
  }

  // ------------------------------------------------------------------ what stays live

  /** Every live record but x stays live. */
  ghost predicate LiveKept(s: Sys, t: Sys, x: int) {
    |s.tab.recs| <= |t.tab.recs| && forall i | 0 <= i < |s.tab.recs| && i != x && IsLive(s, i) :: IsLive(t, i)
  }

  lemma {:induction false} LiveInKept(s: Sys, t: Sys, x: int, n: nat)
    requires LiveKept(s, t, x) && n <= |s.tab.recs|
    ensures LiveIn(t.tab, n) >= LiveIn(s.tab, n) - if 0 <= x < n then 1 else 0
  {
    if n > 0 {
      LiveInKept(s, t, x, n - 1);
      assert IsLive(s, n - 1) && n - 1 != x ==> IsLive(t, n - 1);
    }
  }

  lemma {:induction false} LiveInGrows(t: Tab, n: nat, m: nat)
    requires n <= m <= |t.recs|
    ensures LiveIn(t, n) <= LiveIn(t, m)
  {
    if n < m {
      LiveInGrows(t, n, m - 1);
    }
  }

  lemma CountKept(s: Sys, t: Sys, x: int)
    requires LiveKept(s, t, x)
    ensures LiveCount(t.tab) >= LiveCount(s.tab) - if 0 <= x < |s.tab.recs| then 1 else 0
  {
    LiveInKept(s, t, x, |s.tab.recs|);
    LiveInGrows(t.tab, |s.tab.recs|, |t.tab.recs|);
  }

  predicate Building(o: Ops) { o.Made? || o.Prep? || o.Named? || o.Launching? }

  /** The one live record a step of the token holder may give up. */
  ghost function GivenUp(s: Sys, a: Act): int {
    match a
    case OfStart(b) => if (b.MkdirFail? || b.PrepFail?) && (Building(s.ops) || s.ops.Broken?) then s.ops.inc else -1
    case OfLaunch(b) => if b.StartNotStarted? && s.ops.Launching? then s.ops.inc else -1
    case _ => -1
  }

  lemma StartKeeps(s: Sys, a: StartAct)
    requires Inv(s) && StartEnabled(s, a) && !a.ReserveSlot?
    ensures LiveKept(s, ApplyStart(s, a), GivenUp(s, OfStart(a)))
  {
    hide Good, BootOk, Wf, Distinct, WorkerShape, LiveCount;
    if a.MkdirFail? {
      LaunchIsCurrent(LocalOf(s, s.ops.inc));
    }
  }

  lemma LaunchKeeps(s: Sys, a: LaunchAct)
    requires Links(s) && LaunchEnabled(s, a)
    ensures LiveKept(s, ApplyLaunch(s, a), GivenUp(s, OfLaunch(a)))
  {
    hide Wf, Distinct, WorkerShape;
  }

  lemma StoppedIsNotLive(l: Local)
    requires Good(l) && (l.role.CandStopped? || l.rec.cleaning)
    ensures !l.rec.state.Live()
  {}

  lemma StopKeeps(s: Sys, a: StopAct)
    requires Inv(s) && StopEnabled(s, a) && !a.Pick?
    ensures LiveKept(s, ApplyStop(s, a), -1)
  {
    hide Good, BootOk, Wf, WorkerShape, CompletionOf, AcquireFailed, Completes, QuickNeverBusy;
    if a.StopObserve? {
      StoppedIsNotLive(LocalOf(s, s.ops.incs[0]));
    }
  }

  lemma WatchKeeps(s: Sys, a: WatchAct)
    requires Links(s) && WatchEnabled(s, a) && !IsLive(s, a.inc)
    ensures LiveKept(s, ApplyWatch(s, a), -1)
  {
    hide Wf, Distinct, WorkerShape, CompletionOf, AcquireFailed, Completes, QuickNeverBusy;
  }

  lemma CleanKeeps(s: Sys, a: CleanAct)
    requires Inv(s) && CleanEnabled(s, a)
    ensures LiveKept(s, ApplyClean(s, a), -1)
  {
    hide Good, BootOk, Wf, Distinct, WorkerShape;
    if a.WorkerDelete? {
      Cleaned(LocalOf(s, a.inc));
    }
  }

  lemma Cleaned(l: Local)
    requires Good(l) && l.info.worker.Removed?
    ensures !l.rec.state.Live()
  {}

  lemma OuterKeeps(s: Sys, a: OuterAct)
    requires Links(s) && OuterEnabled(s, a)
    ensures LiveKept(s, ApplyOuter(s, a), -1)
  {
    hide Wf, Distinct, WorkerShape;
  }

  lemma StepKeepsLive(s: Sys, a: Act)
    requires Inv(s) && Enabled(s, a) && Undisturbed(s, a)
    requires !(a.OfStart? && a.start.ReserveSlot?) && !(a.OfStop? && a.stop.Pick?)
    ensures LiveKept(s, Apply(s, a), GivenUp(s, a))
  {
    hide Good, BootOk, LiveKept;
    match a
    case OfBoot(_) =>
    case OfStart(b) => StartKeeps(s, b);
    case OfLaunch(b) => LaunchKeeps(s, b);
    case OfStop(b) => StopKeeps(s, b);
    case OfWatch(b) => WatchKeeps(s, b);
    case OfClean(b) => CleanKeeps(s, b);
    case OfOuter(b) => OuterKeeps(s, b);
  }

  /** A reservation adds a live record. */
  lemma ReserveAdds(s: Sys, id: ID, now: int, cores: real, mem: nat)
    requires Links(s) && StartEnabled(s, ReserveSlot(id, now, cores, mem))
    ensures LiveCount(ApplyStart(s, ReserveSlot(id, now, cores, mem)).tab) >= LiveCount(s.tab) + 1
  {
    hide BootOk, Distinct, WorkerShape;
    var t := ApplyStart(s, ReserveSlot(id, now, cores, mem));
    LiveInKept(s, t, -1, |s.tab.recs|);
  }

  // ------------------------------------------------------------------ stopping the surplus

  ghost function Below(picked: seq<nat>, n: nat): set<nat> {
    set i | i in picked && i < n
  }

  lemma {:induction false} MarkedFalls(t: Tab, u: Tab, picked: seq<nat>, n: nat)
    requires n <= |t.recs| == |u.recs| && u.slots == t.slots
    requires forall i | 0 <= i < |t.recs| && i !in picked :: u.recs[i] == t.recs[i]
    ensures LiveIn(u, n) + |Below(picked, n)| >= LiveIn(t, n)
  {
    if n > 0 {
      MarkedFalls(t, u, picked, n - 1);
      if n - 1 in picked {
        assert Below(picked, n) == Below(picked, n - 1) + {n - 1};
      } else {
        assert Below(picked, n) == Below(picked, n - 1);
      }
    }
  }

  lemma {:induction false} BelowSize(picked: seq<nat>, n: nat)
    ensures |Below(picked, n)| <= |picked|
  {
    if picked != [] {
      var front, last := picked[..|picked| - 1], picked[|picked| - 1];
      BelowSize(front, n);
      assert Below(picked, n) <= Below(front, n) + {last};
      SubsetSize(Below(picked, n), Below(front, n) + {last});
    } else {
      assert Below(picked, n) == {};
    }
  }

  /** Picking the surplus leaves as many live as are desired. */
  lemma PickLeaves(s: Sys, picked: seq<nat>, now: int)
    requires Links(s) && StopEnabled(s, Pick(picked, now))
    ensures LiveCount(ApplyStop(s, Pick(picked, now)).tab) as int >= Min(LiveCount(s.tab), s.ops.desired)
  {
    hide Eligible, StopsBefore, WorkerShape, Wf, Distinct, LiveIn, Below;
    var t := ApplyStop(s, Pick(picked, now));
    assert forall i | 0 <= i < |s.tab.recs| && i !in picked :: t.tab.recs[i] == s.tab.recs[i];
    MarkedFalls(s.tab, t.tab, picked, |s.tab.recs|);
    BelowSize(picked, |s.tab.recs|);
  }

  // ------------------------------------------------------------------ one Ensure

  /** What the program counter's desired count is. */
  predicate Aims(o: Ops, target: int) {
    o.Loop? || o.Gate? || Building(o) || o.Broken? || o.Surplus? ==> o.desired == target
  }

  /** At least low slots are live before the surplus is looked at, not counting the one being
      built, and at least done from then on. */
  ghost predicate Floor(s: Sys, target: int, low: int, done: int) {
    && Aims(s.ops, target)
    && LiveCount(s.tab) >= if Coasts(s.ops) then done else if Building(s.ops) then low + 1 else low
  }

  /** How the program counter moves through one Ensure, from s by a to t. */
  ghost predicate OpsMoved(s: Sys, a: Act, t: Sys, target: int) {
    && Aims(t.ops, target) && t.tab.closed == s.tab.closed && t.boot.Done?
    && (Coasts(s.ops) ==> Coasts(t.ops))
    && (Building(t.ops) ==> Building(s.ops) || (a.OfStart? && a.start.ReserveSlot?))
    && (GivenUp(s, a) >= 0 ==> Building(s.ops) && !Building(t.ops))
    && (Coasts(t.ops) && !Coasts(s.ops) ==> a == OfStart(LoopEnd) || Fails(a) || s.ops.Broken?)
    && (!Fails(a) && !s.ops.Broken? ==> !t.ops.Broken?)
  }

  lemma OpsStart(s: Sys, a: StartAct, target: int)
    requires Shape(s) && StartEnabled(s, a) && s.boot.Done? && Aims(s.ops, target) && !a.Acquire?
    ensures OpsMoved(s, OfStart(a), ApplyStart(s, a), target)
  {
    hide Shape, LiveCount, LowestFree;
  }

  lemma OpsLaunch(s: Sys, a: LaunchAct, target: int)
    requires Shape(s) && LaunchEnabled(s, a) && s.boot.Done? && Aims(s.ops, target)
    ensures OpsMoved(s, OfLaunch(a), ApplyLaunch(s, a), target)
  {
    hide Wf, WorkerShape, Distinct;
  }

  lemma OpsStop(s: Sys, a: StopAct, target: int)
    requires Shape(s) && StopEnabled(s, a) && s.boot.Done? && Aims(s.ops, target)
    ensures OpsMoved(s, OfStop(a), ApplyStop(s, a), target)
  {
    hide Wf, WorkerShape, Picks;
  }

  lemma OpsRest(s: Sys, a: Act, target: int)
    requires Shape(s) && Enabled(s, a) && s.boot.Done? && Aims(s.ops, target) && Undisturbed(s, a)
    requires a.OfWatch? || a.OfClean? || a.OfOuter?
    ensures OpsMoved(s, a, Apply(s, a), target)
  {
    hide Wf, WorkerShape, Distinct;
  }

  lemma OpsSteps(s: Sys, a: Act, target: int)
    requires Shape(s) && Enabled(s, a) && s.boot.Done? && Undisturbed(s, a) && Aims(s.ops, target)
    ensures OpsMoved(s, a, Apply(s, a), target)
  {
    hide Shape, OpsMoved;
    match a
    case OfBoot(_) =>
    case OfStart(b) => OpsStart(s, b, target);
    case OfLaunch(b) => OpsLaunch(s, b, target);
    case OfStop(b) => OpsStop(s, b, target);
    case _ => OpsRest(s, a, target);
  }

  lemma FloorStep(s: Sys, a: Act, target: int, low: int, done: int)
    requires Inv(s) && Enabled(s, a) && s.boot.Done? && !s.tab.closed && Undisturbed(s, a)
    requires Floor(s, target, low, done) && low <= target && done <= target
    requires (Fails(a) || s.ops.Broken?) ==> done <= low
    ensures Floor(Apply(s, a), target, low, done)
  {
    hide Good, BootOk, LiveKept, Enabled, Apply;
    var t := Apply(s, a);
    OpsSteps(s, a, target);
    if a.OfStart? && a.start.ReserveSlot? {
      FloorReserve(s, a, target, low, done);
    } else if a.OfStop? && a.stop.Pick? {
      FloorPick(s, a, target, low, done);
    } else {
      StepKeepsLive(s, a);
      CountKept(s, t, GivenUp(s, a));
      if a == OfStart(LoopEnd) {
        LoopEnds(s);
      }
    }
  }

  lemma LoopEnds(s: Sys)
    requires Shape(s) && Enabled(s, OfStart(LoopEnd)) && !s.tab.closed
    ensures LiveCount(s.tab) >= s.ops.desired && Apply(s, OfStart(LoopEnd)).tab == s.tab && s.ops.Loop?
  {}

  lemma FloorReserve(s: Sys, a: Act, target: int, low: int, done: int)
    requires Inv(s) && Enabled(s, a) && a.OfStart? && a.start.ReserveSlot? && Floor(s, target, low, done)
    ensures Floor(Apply(s, a), target, low, done)
  {
    hide Good, BootOk, LiveCount;
    ReserveAdds(s, a.start.id, a.start.now, a.start.cores, a.start.mem);
  }

  lemma FloorPick(s: Sys, a: Act, target: int, low: int, done: int)
    requires Inv(s) && Enabled(s, a) && a.OfStop? && a.stop.Pick? && Floor(s, target, low, done) && done <= target
    ensures Floor(Apply(s, a), target, low, done)
  {
    hide Good, BootOk, LiveCount, Picks;
    PickLeaves(s, a.stop.picked, a.stop.now);
  }

  lemma {:induction false} QuietRunKeeps(s: Sys, acts: seq<Act>, t: Sys, willing: bool, target: int, low: int,
      done: int, cap: int)
    requires Inv(s) && s.boot.Done? && !s.tab.closed && QuietRun(s, acts, t, willing)
    requires Floor(s, target, low, done) && low <= target && done <= target && Within(s, cap)
    requires done <= low || (willing && !s.ops.Broken?)
    ensures Inv(t) && Floor(t, target, low, done) && Within(t, cap)
    decreases |acts|
  {
    hide Inv, Floor, Within, Undisturbed, Enabled, Apply;
    if acts != [] {
      var a := acts[0];
      var u := Apply(s, a);
      InvLinks(s);
      KeepStep(s, a);
      FloorStep(s, a, target, low, done);
      NotTaken(s, a);
      StepStaysWithin(s, a, cap);
      FloorAims(s, target, low, done);
      OpsSteps(s, a, target);
      QuietRunKeeps(u, acts[1..], t, willing, target, low, done, cap);
    }
  }

  lemma InvLinks(s: Sys)
    requires Inv(s)
    ensures Links(s)
  {}

  lemma FloorAims(s: Sys, target: int, low: int, done: int)
    requires Floor(s, target, low, done)
    ensures Aims(s.ops, target)
  {}

  lemma NotTaken(s: Sys, a: Act)
    requires Undisturbed(s, a)
    ensures !TakesToken(a)
  {}

  /** The token holder will start nothing. */
  ghost predicate StartsNothing(s: Sys) {
    Coasts(s.ops) || (s.ops.Loop? && LiveCount(s.tab) >= s.ops.desired)
  }

  lemma NoStartOps(s: Sys, a: StartAct)
    requires Shape(s) && StartEnabled(s, a) && !a.Acquire? && StartsNothing(s)
    ensures Coasts(ApplyStart(s, a).ops) && |ApplyStart(s, a).tab.recs| == |s.tab.recs|
  {
    hide Wf, WorkerShape, LiveIn;
  }

  /** Where nothing will be started no record is made. */
  lemma NoStartStep(s: Sys, a: Act)
    requires Shape(s) && Enabled(s, a) && s.boot.Done? && Undisturbed(s, a) && StartsNothing(s)
    ensures |Apply(s, a).tab.recs| == |s.tab.recs| && (Coasts(Apply(s, a).ops) || Apply(s, a).ops == s.ops)
  {
    hide Shape, Picks, LiveCount;
    match a
    case OfStart(b) => NoStartOps(s, b);
    case OfStop(b) => NoStartStop(s, b);
    case _ => NoStartRest(s, a);
  }

  lemma NoStartStop(s: Sys, a: StopAct)
    requires Shape(s) && StopEnabled(s, a)
    ensures |ApplyStop(s, a).tab.recs| == |s.tab.recs| && Coasts(ApplyStop(s, a).ops)
  {
    hide Wf, WorkerShape, Picks;
  }

  lemma NoStartRest(s: Sys, a: Act)
    requires Shape(s) && Enabled(s, a) && s.boot.Done? && Undisturbed(s, a) && StartsNothing(s)
    requires !a.OfStart? && !a.OfStop?
    ensures |Apply(s, a).tab.recs| == |s.tab.recs| && Apply(s, a).ops == s.ops
  {
    hide Wf, WorkerShape, Distinct, LiveCount, CompletionOf, AcquireFailed, Completes, QuickNeverBusy;
  }

  lemma {:induction false} QuietRunStartsNothing(s: Sys, acts: seq<Act>, t: Sys, willing: bool, target: int)
    requires Inv(s) && s.boot.Done? && !s.tab.closed && QuietRun(s, acts, t, willing)
    requires Floor(s, target, target, target) && StartsNothing(s)
    ensures |t.tab.recs| == |s.tab.recs|
    decreases |acts|
  {
    hide Inv, Undisturbed, Enabled, Apply, LiveCount;
    if acts != [] {
      var a := acts[0];
      InvLinks(s);
      KeepStep(s, a);
      FloorStep(s, a, target, target, target);
      OpsSteps(s, a, target);
      NoStartStep(s, a);
      QuietRunStartsNothing(Apply(s, a), acts[1..], t, willing, target);
    }
  }

  /** An Ensure that runs with no live slot exiting meanwhile: it takes the pool up to its target at
      most, or down to it at most, and up to it if no start fails or is held back; and where it has
      enough it tries no start. */
  lemma EnsureConverges(s: Sys, acts: seq<Act>, t: Sys, willing: bool, target: nat)
    requires Inv(s) && s.boot.Done? && !s.tab.closed && s.ops == Loop(target)
    requires QuietRun(s, acts, t, willing) && t.ops.Free?
    ensures Converges(LiveCount(s.tab), LiveCount(t.tab), target, willing)
    ensures LiveCount(s.tab) >= target ==> |t.tab.recs| == |s.tab.recs|
  {
    hide Inv, LiveCount;
    var c := LiveCount(s.tab);
    LiveAndCount(s);
    QuietRunKeeps(s, acts, t, willing, target, Min(c, target), if willing then target else Min(c, target),
        Max(c, target));
    LiveAndCount(t);
    if c >= target {
      QuietRunStartsNothing(s, acts, t, willing, target);
    }
  }

  /** Any steps of any threads, but nobody else takes the token. */
  ghost predicate TokenRun(s: Sys, acts: seq<Act>, t: Sys)
    decreases |acts|
  {
    if acts == [] then s == t
    else
      && Shape(s) && Enabled(s, acts[0]) && !TakesToken(acts[0])
      && TokenRun(Apply(s, acts[0]), acts[1..], t)
  }

  lemma {:induction false} TokenRunWithin(s: Sys, acts: seq<Act>, t: Sys, cap: int)
    requires Inv(s) && s.boot.Done? && TokenRun(s, acts, t) && Within(s, cap)
    ensures Within(t, cap)
    decreases |acts|
  {
    hide Inv, Within, Enabled, Apply;
    if acts != [] {
      InvLinks(s);
      KeepStep(s, acts[0]);
      StepStaysWithin(s, acts[0], cap);
      TokenRunWithin(Apply(s, acts[0]), acts[1..], t, cap);
    }
  }

  /** An Ensure in any run, with exits, claims and failures of every kind and the table closed at any
      time: it takes the pool no higher than its target, unless it was there. */
  lemma EnsureBounded(s: Sys, acts: seq<Act>, t: Sys, target: nat)
    requires Inv(s) && s.boot.Done? && s.ops == Loop(target)
    requires TokenRun(s, acts, t) && t.ops.Free?
    ensures Bounded(LiveCount(s.tab), LiveCount(t.tab), target)
  {
    hide Inv, LiveCount;
    LiveAndCount(s);
    TokenRunWithin(s, acts, t, Max(LiveCount(s.tab), target));
    LiveAndCount(t);
  }

  lemma LiveAndCount(s: Sys)
    requires !InStops(s.ops)
    ensures Count(s) == LiveCount(s.tab)
  {
    CountIsLive(s, |s.tab.recs|);
  }
}
