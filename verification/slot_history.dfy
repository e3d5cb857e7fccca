/** Runs of the slot table with what happened to each incarnation written down beside it: when it was
    reserved and launched, whether it was ever busy, what it was claimed for and what was measured.
    In these terms: which slots scale-down may stop, which exits are acquire failures, and what a
    completion reports. */
module SlotHistory {
  import opened Basics
  import opened SlotModel
  import opened SlotProtocol
  import opened SlotInvariant
  import opened SlotSteps
  import opened SlotSafety

  // ------------------------------------------------------------------ scale-down in numbers

  /** Stopped before: never started, or started earlier, ties by ID. */
  predicate OlderThan(a: Rec, b: Rec) {
    match (a.startedAt, b.startedAt)
    case (None, None) => a.id < b.id
    case (None, Some(_)) => true
    case (Some(_), None) => false
    case (Some(x), Some(y)) => x < y || (x == y && a.id < b.id)
  }

  /** Idle for longer than the grace, if there is one and it is not ignored. */
  predicate IdlePastGrace(cfg: Config, r: Rec, now: int, ignoreIdleGrace: bool) {
    && r.state == Idle
    && (ignoreIdleGrace || cfg.idleGrace <= 0 || r.startedAt.None? || now - r.startedAt.value > cfg.idleGrace)
  }

  predicate StartPastGrace(cfg: Config, r: Rec, now: int) {
    r.state == Starting && (cfg.acquireGrace <= 0 || r.provStart.None? || now - r.provStart.value > cfg.acquireGrace)
  }

  predicate PastGrace(cfg: Config, r: Rec, now: int, ignoreIdleGrace: bool) {
    IdlePastGrace(cfg, r, now, ignoreIdleGrace) || StartPastGrace(cfg, r, now)
  }

  /** What is picked is idle or starting and past its grace, no more than there is too much of, the
      oldest first; and what is past its grace and not picked is younger than all that is, and all
      the excess was picked. */
  lemma SurplusInNumbers(cfg: Config, t: Tab, desired: int, ignoreIdleGrace: bool, now: int, picked: seq<nat>)
    requires Picks(cfg, t, desired, ignoreIdleGrace, now, picked)
    ensures |picked| <= Max(0, LiveCount(t) - desired)
    ensures forall k | 0 <= k < |picked| :: picked[k] < |t.recs| && Current(t, picked[k])
    ensures forall k | 0 <= k < |picked| ::
      PastGrace(cfg, t.recs[picked[k]], now, ignoreIdleGrace)
    ensures forall j, k | 0 <= j < k < |picked| :: OlderThan(t.recs[picked[j]], t.recs[picked[k]])
    ensures forall i | 0 <= i < |t.recs| && Current(t, i) && i !in picked && LiveCount(t) > desired
                       && PastGrace(cfg, t.recs[i], now, ignoreIdleGrace) ::
      && |picked| == LiveCount(t) - desired
      && forall k | 0 <= k < |picked| :: OlderThan(t.recs[picked[k]], t.recs[i])
  {
    hide LiveCount;
    forall i | 0 <= i < |t.recs| && Current(t, i) && i !in picked && LiveCount(t) > desired
               && PastGrace(cfg, t.recs[i], now, ignoreIdleGrace)
      ensures |picked| == LiveCount(t) - desired
      ensures forall k | 0 <= k < |picked| :: OlderThan(t.recs[picked[k]], t.recs[i])
    {
      assert Eligible(cfg, t, i, now, ignoreIdleGrace);
    }
  }

  // ------------------------------------------------------------------ notes

  datatype Claimed = Claimed(job: Job, at: int, usage: Usage)

  /** What happened to one incarnation. */
  datatype Note = Note(
    reserved: Option<int>,   // when its reservation was made
    launched: Option<int>,   // when its launch succeeded, or it was adopted
    wasBusy: bool,
    name: string,            // of its runner
    claim: Option<Claimed>,  // the first job it was claimed for, when, and the last sample before
    usage: Usage,            // the last sample
    sampled: bool,
    result: string)

  const NO_NOTE := Note(None, None, false, "", None, ZERO_USAGE, false, "")

  function NewNote(a: Act): Note {
    match a
    case OfStart(ReserveSlot(_, now, _, _)) => NO_NOTE.(reserved := Some(now))
    case OfBoot(BootAdopt(_, name, now)) => NO_NOTE.(launched := Some(now), wasBusy := true, name := name)
    case OfBoot(BootOrphan(_, name)) => NO_NOTE.(name := name)
    case _ => NO_NOTE
  }

  /** Step a is taken for incarnation i by the holder of the token. */
  predicate ByOps(s: Sys, i: nat) {
    (s.ops.Prep? || s.ops.Launching?) && s.ops.inc == i
  }

  /** What a step adds to the note of an incarnation that was there before. */
  ghost function Noted(s: Sys, a: Act, i: nat, k: Note, busy: bool): Note
    requires i < |s.tab.recs|
  {
    var n := k.(wasBusy := k.wasBusy || busy);
    var r := s.tab.recs[i];
    match a
    case OfStart(GotName(name)) => if ByOps(s, i) then n.(name := name) else n
    case OfLaunch(StartOk(now)) => if ByOps(s, i) then n.(launched := Some(now)) else n
    case OfOuter(ClaimJob(j, job, now)) =>
      if j == i && k.claim.None? && r.state.Live() then n.(claim := Some(Claimed(job, now, k.usage))) else n
    case OfOuter(MarkResult(j, result)) => if j == i then n.(result := result) else n
    case OfOuter(SampleUsage(j, u)) =>
      if j == i && Current(s.tab, i) && !r.cleaning && !r.cleanupPending then n.(usage := u, sampled := true) else n
    case _ => n
  }

  /** A run so far, with its notes, and whether the last to take the token was Shutdown. */
  datatype Told = Told(sys: Sys, notes: seq<Note>, shutdown: bool)

  ghost predicate ToldShape(h: Told) {
    Shape(h.sys) && |h.notes| == |h.sys.tab.recs|
  }

  ghost function Tell(h: Told, a: Act): Told
    requires ToldShape(h) && Enabled(h.sys, a)
  {
    var t := Apply(h.sys, a);
    Told(t,
         seq(|t.tab.recs|, i requires 0 <= i < |t.tab.recs| =>
               if i < |h.sys.tab.recs| then Noted(h.sys, a, i, h.notes[i], t.tab.recs[i].state.Busy?) else NewNote(a)),
         match a case OfStart(Acquire(_, shutdown)) => shutdown case _ => h.shutdown)
  }

  ghost predicate ToldRun(h: Told, acts: seq<Act>, f: Told)
    decreases |acts|
  {
    if acts == [] then h == f
    else ToldShape(h) && Enabled(h.sys, acts[0]) && ToldRun(Tell(h, acts[0]), acts[1..], f)
  }

  ghost predicate ToldReachable(h: Told) {
    exists s0: Sys, acts :: Init(s0) && ToldRun(Told(s0, [], false), acts, h)
  }

  // ------------------------------------------------------------------ the records agree

  ghost predicate ToStop(s: Sys, i: nat) {
    var role := RoleOf(s.boot, s.ops, i);
    role.Cand? || role.CandStopped? || role.CandSeen?
  }

  ghost predicate Agrees(r: Rec, k: Note, candidate: bool) {
    AgreesTimes(r, k, candidate) && AgreesWork(r, k)
  }

  ghost predicate AgreesTimes(r: Rec, k: Note, candidate: bool) {
    && r.startedAt == k.launched && r.provStart == k.reserved
    && (r.busySince.Some? || r.state.Busy? || r.claimed ==> k.wasBusy)
    && (!r.state.Stopping? && k.wasBusy ==> r.state.Busy?)
    && (!r.state.Stopping? ==> k.reserved.Some? || k.launched.Some?)
    && (r.state.Idle? ==> k.launched.Some?)
    && (candidate ==> r.state.Stopping? && (r.cleanupPending || (!k.wasBusy && k.launched.Some?)))
  }

  ghost predicate AgreesWork(r: Rec, k: Note) {
    && r.runnerName == k.name
    && r.work.lastUsage == k.usage && r.work.sampledOK == k.sampled && r.work.result == k.result
    && (r.claimed <==> k.claim.Some?)
    && (k.claim.Some? ==>
          var c := k.claim.value;
          && r.work.workflowRef == c.job.workflowRef && r.work.runID == c.job.runID
          && r.work.queueWait == c.job.queueWait
          && r.work.claimAt == Some(c.at) && r.work.usageAtClaim == c.usage)
  }

  /** What a step leaves of one incarnation agrees with its note. */
  ghost predicate Follows(s: Sys, a: Act, t: Sys, i: nat, k: Note)
    requires i < |s.tab.recs|
  {
    i < |t.tab.recs| && Agrees(t.tab.recs[i], Noted(s, a, i, k, t.tab.recs[i].state.Busy?), ToStop(t, i))
  }

  lemma FollowStart(s: Sys, a: StartAct, i: nat, k: Note)
    requires Links(s) && StartEnabled(s, a) && i < |s.tab.recs|
    requires Agrees(s.tab.recs[i], k, ToStop(s, i))
    ensures Follows(s, OfStart(a), ApplyStart(s, a), i, k)
  {
    hide Wf, Distinct, WorkerShape, LiveCount, LowestFree;
  }

  lemma FollowLaunch(s: Sys, a: LaunchAct, i: nat, k: Note)
    requires Links(s) && LaunchEnabled(s, a) && i < |s.tab.recs|
    requires s.ops.Launching? && s.ops.inc == i ==> s.tab.recs[i].state.Live()
    requires Agrees(s.tab.recs[i], k, ToStop(s, i))
    ensures Follows(s, OfLaunch(a), ApplyLaunch(s, a), i, k)
  {
    hide Wf, Distinct, WorkerShape;
  }

  lemma FollowObserve(s: Sys, a: StopAct, i: nat, k: Note)
    requires Links(s) && StopEnabled(s, a) && i < |s.tab.recs| && a.StopObserve?
    requires Agrees(s.tab.recs[i], k, ToStop(s, i))
    ensures Follows(s, OfStop(a), ApplyStop(s, a), i, k)
  {
    hide Wf, WorkerShape, CompletionOf, AcquireFailed, QuickNeverBusy;
  }

  lemma FollowStop(s: Sys, a: StopAct, i: nat, k: Note)
    requires Links(s) && StopEnabled(s, a) && i < |s.tab.recs| && !a.Pick? && !a.StopObserve?
    requires Agrees(s.tab.recs[i], k, ToStop(s, i))
    ensures Follows(s, OfStop(a), ApplyStop(s, a), i, k)
  {
    hide Wf, WorkerShape;
  }

  lemma FollowPick(s: Sys, a: StopAct, i: nat, k: Note)
    requires Links(s) && StopEnabled(s, a) && i < |s.tab.recs| && Good(LocalOf(s, i)) && a.Pick?
    requires Agrees(s.tab.recs[i], k, ToStop(s, i))
    ensures Follows(s, OfStop(a), ApplyStop(s, a), i, k)
  {
    LocalPick(s, a.picked, a.now, i);
    hide Wf, WorkerShape, Good, Picks;
  }

  lemma FollowWatch(s: Sys, a: WatchAct, i: nat, k: Note)
    requires Links(s) && WatchEnabled(s, a) && i < |s.tab.recs|
    requires Agrees(s.tab.recs[i], k, ToStop(s, i))
    ensures Follows(s, OfWatch(a), ApplyWatch(s, a), i, k)
  {
    hide Wf, Distinct, WorkerShape, CompletionOf, AcquireFailed, QuickNeverBusy;
  }

  lemma FollowClean(s: Sys, a: CleanAct, i: nat, k: Note)
    requires Links(s) && CleanEnabled(s, a) && i < |s.tab.recs|
    requires Agrees(s.tab.recs[i], k, ToStop(s, i))
    ensures Follows(s, OfClean(a), ApplyClean(s, a), i, k)
  {
    hide Wf, Distinct;
  }

  lemma FollowOuter(s: Sys, a: OuterAct, i: nat, k: Note)
    requires Links(s) && OuterEnabled(s, a) && i < |s.tab.recs|
    requires Agrees(s.tab.recs[i], k, ToStop(s, i))
    ensures Follows(s, OfOuter(a), ApplyOuter(s, a), i, k)
  {
    hide Wf, Distinct, WorkerShape;
  }

  lemma FollowBoot(s: Sys, a: BootAct, i: nat, k: Note)
    requires Links(s) && BootEnabled(s, a) && i < |s.tab.recs|
    requires Agrees(s.tab.recs[i], k, ToStop(s, i))
    ensures Follows(s, OfBoot(a), ApplyBoot(s, a), i, k)
  {
    hide Wf, Distinct, WorkerShape;
  }

  // ------------------------------------------------------------------ runs

  ghost predicate AllAgree(h: Told) {
    |h.notes| == |h.sys.tab.recs|
    && forall i | 0 <= i < |h.notes| :: Agrees(h.sys.tab.recs[i], h.notes[i], ToStop(h.sys, i))
  }

  /** Only Shutdown ignores the idle grace. */
  ghost predicate ShutdownTold(h: Told) {
    h.sys.ops.Surplus? && h.sys.ops.ignoreIdleGrace ==> h.shutdown
  }

  ghost predicate ToldInv(h: Told) {
    Inv(h.sys) && AllAgree(h) && ShutdownTold(h)
  }

  lemma LaunchedIsLive(s: Sys, i: nat)
    requires Links(s) && i < |s.tab.recs| && Good(LocalOf(s, i))
    ensures s.ops.Launching? && s.ops.inc == i && s.boot.Done? ==> s.tab.recs[i].state.Live()
    ensures s.ops.Launching? ==> s.boot.Done?
  {}

  lemma FollowOne(s: Sys, a: Act, i: nat, k: Note)
    requires Links(s) && Enabled(s, a) && i < |s.tab.recs| && Good(LocalOf(s, i))
    requires Agrees(s.tab.recs[i], k, ToStop(s, i))
    ensures Follows(s, a, Apply(s, a), i, k)
  {
    LaunchedIsLive(s, i);
    hide Links, Good, Agrees, Follows, ToStop;
    match a
    case OfBoot(b) => FollowBoot(s, b, i, k);
    case OfStart(b) => FollowStart(s, b, i, k);
    case OfLaunch(b) => FollowLaunch(s, b, i, k);
    case OfStop(b) =>
      if b.Pick? {
        FollowPick(s, b, i, k);
      } else if b.StopObserve? {
        FollowObserve(s, b, i, k);
      } else {
        FollowStop(s, b, i, k);
      }
    case OfWatch(b) => FollowWatch(s, b, i, k);
    case OfClean(b) => FollowClean(s, b, i, k);
    case OfOuter(b) => FollowOuter(s, b, i, k);
  }

  /** A new record agrees with its note. */
  lemma FollowNew(s: Sys, a: Act, i: nat)
    requires Links(s) && Enabled(s, a) && |s.tab.recs| <= i < |Apply(s, a).tab.recs|
    ensures Agrees(Apply(s, a).tab.recs[i], NewNote(a), ToStop(Apply(s, a), i))
  {
    hide Wf, Distinct, WorkerShape, LiveCount, Picks, LowestFree;
    if !(a.OfStart? && a.start.ReserveSlot?) && !a.OfBoot? {
      NoneNew(s, a);
    }
  }

  lemma NoneNew(s: Sys, a: Act)
    requires Shape(s) && Enabled(s, a) && !(a.OfStart? && a.start.ReserveSlot?) && !a.OfBoot?
    ensures |Apply(s, a).tab.recs| == |s.tab.recs|
  {
    hide Shape;
    match a
    case OfBoot(_) =>
    case OfStart(b) => NoneNewStart(s, b);
    case OfLaunch(b) => NoneNewLaunch(s, b);
    case OfStop(b) => NoneNewStop(s, b);
    case OfWatch(b) => NoneNewWatch(s, b);
    case OfClean(b) => NoneNewClean(s, b);
    case OfOuter(b) => NoneNewOuter(s, b);
  }

  lemma NoneNewStart(s: Sys, a: StartAct)
    requires Shape(s) && StartEnabled(s, a) && !a.ReserveSlot?
    ensures |ApplyStart(s, a).tab.recs| == |s.tab.recs|
  {
    hide Wf, WorkerShape, LiveCount, LowestFree;
  }

  lemma NoneNewLaunch(s: Sys, a: LaunchAct)
    requires Shape(s) && LaunchEnabled(s, a)
    ensures |ApplyLaunch(s, a).tab.recs| == |s.tab.recs|
  {
    hide Wf, WorkerShape;
  }

  lemma NoneNewStop(s: Sys, a: StopAct)
    requires Shape(s) && StopEnabled(s, a)
    ensures |ApplyStop(s, a).tab.recs| == |s.tab.recs|
  {
    hide Wf, WorkerShape, Picks, ObservedRec;
  }

  lemma NoneNewWatch(s: Sys, a: WatchAct)
    requires Shape(s) && WatchEnabled(s, a)
    ensures |ApplyWatch(s, a).tab.recs| == |s.tab.recs|
  {
    hide Wf, WorkerShape, ObservedRec;
  }

  lemma NoneNewClean(s: Sys, a: CleanAct)
    requires Shape(s) && CleanEnabled(s, a)
    ensures |ApplyClean(s, a).tab.recs| == |s.tab.recs|
  {
    hide Wf;
  }

  lemma NoneNewOuter(s: Sys, a: OuterAct)
    requires Shape(s) && OuterEnabled(s, a)
    ensures |ApplyOuter(s, a).tab.recs| == |s.tab.recs|
  {
    hide Wf, WorkerShape;
  }

  lemma ShutdownStep(h: Told, a: Act)
    requires ToldShape(h) && Enabled(h.sys, a) && ShutdownTold(h)
    ensures ShutdownTold(Tell(h, a))
  {
    hide Wf, Distinct, WorkerShape, LiveCount, Picks, Noted, NewNote;
  }

  lemma ToldStepKeeps(h: Told, a: Act)
    requires ToldInv(h) && ToldShape(h) && Enabled(h.sys, a)
    ensures ToldInv(Tell(h, a))
  {
    var s, t, f := h.sys, Apply(h.sys, a), Tell(h, a);
    KeepStep(s, a);
    ShutdownStep(h, a);
    hide Inv, Shape, Enabled, Apply, Agrees, ToStop, ShutdownTold;
    assert Links(s) && forall i | 0 <= i < |s.tab.recs| :: Good(LocalOf(s, i)) by { InvParts(s); }
    forall i | 0 <= i < |t.tab.recs| ensures Agrees(t.tab.recs[i], f.notes[i], ToStop(t, i)) {
      if i < |s.tab.recs| {
        FollowOne(s, a, i, h.notes[i]);
      } else {
        FollowNew(s, a, i);
      }
    }
  }

  lemma InvParts(s: Sys)
    requires Inv(s)
    ensures Links(s) && forall i | 0 <= i < |s.tab.recs| :: Good(LocalOf(s, i))
  {}

  lemma {:induction false} ToldRunKeeps(h: Told, acts: seq<Act>, f: Told)
    requires ToldInv(h) && ToldRun(h, acts, f)
    ensures ToldInv(f)
    decreases |acts|
  {
    hide ToldInv, ToldShape, Enabled, Tell;
    if acts != [] {
      ToldStepKeeps(h, acts[0]);
      ToldRunKeeps(Tell(h, acts[0]), acts[1..], f);
    }
  }

  lemma ToldReachableInv(h: Told)
    requires ToldReachable(h)
    ensures ToldInv(h)
  {
    hide Init, Inv;
    var s0, acts :| Init(s0) && ToldRun(Told(s0, [], false), acts, h);
    BootInv(s0);
    NothingTold(s0);
    ToldRunKeeps(Told(s0, [], false), acts, h);
  }

  lemma NothingTold(s: Sys)
    requires Init(s)
    ensures AllAgree(Told(s, [], false)) && ShutdownTold(Told(s, [], false))
  {}

  // ------------------------------------------------------------------ the idle grace

  /** No Ensure stops a slot that is busy or starting, or launched no longer ago than the grace. */
  lemma GraceIsKept(h: Told, picked: seq<nat>, now: int, i: nat)
    requires ToldReachable(h) && ToldShape(h) && Enabled(h.sys, OfStop(Pick(picked, now)))
    requires !h.shutdown && i in picked
    ensures i < |h.notes| && !h.notes[i].wasBusy && h.notes[i].launched.Some?
    ensures h.sys.cfg.idleGrace > 0 ==> now - h.notes[i].launched.value > h.sys.cfg.idleGrace
  {
    var s := h.sys;
    hide ToldReachable, Inv, Shape;
    ToldReachableInv(h);
    InvParts(s);
    SurplusInNumbers(s.cfg, s.tab, s.ops.desired, s.ops.ignoreIdleGrace, now, picked);
    LocalPick(s, picked, now, i);
    hide Picks, Good;
    assert Agrees(s.tab.recs[i], h.notes[i], ToStop(s, i));
  }

  // ------------------------------------------------------------------ exits

  /** The exit of incarnation i is observed at now, by its watcher or after it was stopped. */
  ghost predicate Observes(s: Sys, a: Act, i: nat, now: int) {
    || a == OfWatch(WatchObserve(i, now))
    || (a == OfStop(StopObserve(now)) && s.ops.StopNil? && s.ops.incs != [] && s.ops.incs[0] == i)
  }

  /** It counts as an acquire failure: with a grace set, a slot never busy exits before the grace is
      over, counted from its launch, or from its reservation if it was not seen to launch. */
  predicate TooQuick(cfg: Config, k: Note, now: int) {
    && cfg.acquireGrace > 0 && !k.wasBusy
    && (match k.launched
        case Some(at) => now - at < cfg.acquireGrace
        case None => k.reserved.Some? && now - k.reserved.value < cfg.acquireGrace)
  }

  ghost predicate News(s: Sys, i: nat) {
    i < |s.tab.recs| == |s.info| && Current(s.tab, i) && !s.tab.recs[i].cleanupPending
  }

  /** Every observed exit, in every run. Of a slot not yet stopping it is reported as an acquire
      failure or left to be reported as an exit; of one that was stopped, neither. */
  lemma ExitIsReported(h: Told, a: Act, i: nat, now: int)
    requires ToldReachable(h) && ToldShape(h) && Enabled(h.sys, a) && Observes(h.sys, a, i, now) && News(h.sys, i)
    ensures var s, t := h.sys, Apply(h.sys, a);
      var stopped := s.tab.recs[i].state.Stopping?;
      && i < |t.tab.recs| == |t.info| && t.tab.recs[i].state.Stopping? && t.tab.recs[i].cleanupPending
      && t.info[i].acquireFailures
         == s.info[i].acquireFailures + (if !stopped && TooQuick(s.cfg, h.notes[i], now) then 1 else 0)
      && (t.tab.recs[i].exitEvent.Exited? <==> !stopped && !TooQuick(s.cfg, h.notes[i], now))
  {
    hide ToldReachable, Inv, Shape;
    ToldReachableInv(h);
    InvParts(h.sys);
    assert Agrees(h.sys.tab.recs[i], h.notes[i], ToStop(h.sys, i));
    assert Good(LocalOf(h.sys, i));
    NotCleaning(LocalOf(h.sys, i));
    hide Good, Links, CompletionOf, Noted;
  }

  lemma NotCleaning(l: Local)
    requires Good(l) && !l.rec.cleanupPending
    ensures !l.rec.cleaning && l.rec.exitEvent.NoEvent? && !l.rec.completionSent && l.info.completions == 0
    ensures !l.rec.state.Empty? && !l.rec.state.Failed?
  {}

  /** What is reported of a job: the job of the first claim, the processor time since the last sample
      before it, never negative, the last sample's peak, the time since the claim, the last result. */
  function Report(id: ID, k: Note, c: Claimed, now: int): Completion {
    var cpu := k.usage.cpuSeconds - c.usage.cpuSeconds;
    Completion(id, k.name, c.job.workflowRef, c.job.runID, k.result, if cpu > 0.0 then cpu else 0.0, k.usage.peakMem,
               Some(now - c.at), c.job.queueWait, k.sampled)
  }

  /** With the hook set, the exit of a claimed slot completes it, with this report, and no other exit
      completes anything. */
  lemma CompletionIsReported(h: Told, a: Act, i: nat, now: int)
    requires ToldReachable(h) && ToldShape(h) && Enabled(h.sys, a) && Observes(h.sys, a, i, now) && News(h.sys, i)
    ensures var s, t, k := h.sys, Apply(h.sys, a), h.notes[i];
      var done := s.cfg.completionHook && k.claim.Some?;
      && i < |t.info| && t.info[i].completions == (if done then 1 else 0)
      && ObservationOf(s.cfg, s.tab, i, now).Observed?
      && ObservationOf(s.cfg, s.tab, i, now).completion
         == (if done then Some(Report(s.tab.recs[i].id, k, k.claim.value, now)) else None)
  {
    hide ToldReachable, Inv, Shape;
    ToldReachableInv(h);
    InvParts(h.sys);
    assert Agrees(h.sys.tab.recs[i], h.notes[i], ToStop(h.sys, i));
    assert Good(LocalOf(h.sys, i));
    NotCleaning(LocalOf(h.sys, i));
    hide Good, Links, Noted, QuickNeverBusy;
  }
}
