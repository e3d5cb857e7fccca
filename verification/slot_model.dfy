/** The slot table of internal/slot/manager.go as a value, and one function for each
    block of code that runs while the table's mutex is held.

    A record is named by its incarnation number: its position in the sequence of all
    records ever inserted. Go compares record pointers; two pointers are equal exactly
    when the incarnation numbers are. */
module SlotModel {
  import opened Basics

  const MAX_SLOT_ID := 9999

  type ID = n: int | 1 <= n <= MAX_SLOT_ID witness 1

  datatype State = Empty | Starting | Idle | Busy | Stopping | Failed {
    predicate Live() { Starting? || Idle? || Busy? }
  }

  /** The pending exit report of a record. An acquire failure is reported at once
      and never stored. */
  datatype ExitEvent = NoEvent | Exited

  datatype Usage = Usage(cpuSeconds: real, peakMem: nat, currentMem: nat)

  const ZERO_USAGE := Usage(0.0, 0, 0)

  datatype Job = Job(runnerName: string, workflowRef: string, runID: int, queueWait: real)

  /** What a record knows about its job and its resource use. */
  datatype Work = Work(
    workflowRef: string,
    runID: int,
    claimAt: Option<int>,
    queueWait: real,
    result: string,
    usageAtClaim: Usage,
    lastUsage: Usage,
    sampledOK: bool)

  const NO_WORK := Work("", 0, None, 0.0, "", ZERO_USAGE, ZERO_USAGE, false)

  /** A tracked slot. Times are None where Go holds the zero time. chans[k] says whether the
      k-th channel made for this record was closed; cleanDone is the newest of them, and nil
      before the first. */
  datatype Rec = Rec(
    id: ID,
    state: State,
    runnerName: string,
    startedAt: Option<int>,
    provStart: Option<int>,
    busySince: Option<int>,
    claimed: bool,
    work: Work,
    reservedCores: real,
    reservedMem: nat,
    cleaning: bool,
    cleanupPending: bool,
    exitEvent: ExitEvent,
    completionSent: bool,
    chans: seq<bool>)

  function BlankRec(id: ID, state: State): Rec {
    Rec(id, state, "", None, None, None, false, NO_WORK, 0.0, 0, false, false, NoEvent, false, [])
  }

  datatype Completion = Completion(
    id: ID,
    runnerName: string,
    workflowRef: string,
    runID: int,
    result: string,
    cpuSeconds: real,
    peakMem: nat,
    wall: Option<int>,
    queueWait: real,
    sampled: bool)

  /** The table options that change what a critical section does. */
  datatype Config = Config(acquireGrace: int, idleGrace: int, completionHook: bool)

  /** slots maps a tracked ID to the incarnation that holds it. */
  datatype Tab = Tab(slots: map<ID, nat>, recs: seq<Rec>, closed: bool)

  const EMPTY_TAB := Tab(map[], [], false)

  ghost predicate Wf(t: Tab) {
    forall id <- t.slots :: t.slots[id] < |t.recs| && t.recs[t.slots[id]].id == id
  }

  /** The pointer comparison `t.slots[rec.ID] == rec`. */
  predicate Current(t: Tab, i: nat)
    requires i < |t.recs|
  {
    t.recs[i].id in t.slots && t.slots[t.recs[i].id] == i
  }

  function Set(t: Tab, i: nat, r: Rec): Tab
    requires i < |t.recs|
  {
    t.(recs := t.recs[i := r])
  }

  /** How many of the first n incarnations are tracked and live. */
  ghost function LiveIn(t: Tab, n: nat): nat
    requires n <= |t.recs|
  {
    if n == 0 then 0
    else LiveIn(t, n - 1) + (if Current(t, n - 1) && t.recs[n - 1].state.Live() then 1 else 0)
  }

  ghost function LiveCount(t: Tab): nat {
    LiveIn(t, |t.recs|)
  }

  // ---------------------------------------------------------------- starting

  ghost predicate LowestFree(slots: map<ID, nat>, id: ID) {
    id !in slots && forall other: ID | other < id :: other in slots
  }

  function NewRec(id: ID, now: int, cores: real, mem: nat): Rec {
    BlankRec(id, Starting).(provStart := Some(now), reservedCores := cores, reservedMem := mem)
  }

  function Reserve(t: Tab, id: ID, now: int, cores: real, mem: nat): Tab {
    t.(slots := t.slots[id := |t.recs|], recs := t.recs + [NewRec(id, now, cores, mem)])
  }

  /** `delete(t.slots, id)`: by ID, whoever holds it. */
  function Drop(t: Tab, id: ID): Tab {
    t.(slots := t.slots - {id})
  }

  function FailStart(t: Tab, i: nat): Tab
    requires i < |t.recs|
  {
    Set(t, i, t.recs[i].(state := Stopping))
  }

  function SetName(t: Tab, i: nat, name: string): Tab
    requires i < |t.recs|
  {
    Set(t, i, t.recs[i].(runnerName := name))
  }

  function LaunchUncertain(t: Tab, i: nat): Tab
    requires i < |t.recs|
  {
    Set(t, i, t.recs[i].(state := Busy))
  }

  function LaunchOk(t: Tab, i: nat, now: int): Tab
    requires i < |t.recs|
  {
    var r := t.recs[i];
    Set(t, i, r.(startedAt := Some(now), state := if r.state.Starting? then Idle else r.state))
  }

  // ---------------------------------------------------------------- scale down

  function StopEligible(cfg: Config, r: Rec, now: int, ignoreIdleGrace: bool): bool {
    match r.state
    case Idle =>
      !(!ignoreIdleGrace && cfg.idleGrace > 0 && r.startedAt.Some? && now - r.startedAt.value <= cfg.idleGrace)
    case Starting =>
      !(cfg.acquireGrace > 0 && r.provStart.Some? && now - r.provStart.value <= cfg.acquireGrace)
    case _ => false
  }

  /** Oldest StartedAt first (the zero time is the oldest), ties by ID. */
  predicate StopsBefore(a: Rec, b: Rec) {
    match (a.startedAt, b.startedAt)
    case (None, Some(_)) => true
    case (Some(_), None) => false
    case (Some(x), Some(y)) => x < y || (x == y && a.id < b.id)
    case (None, None) => a.id < b.id
  }

  ghost predicate Eligible(cfg: Config, t: Tab, i: nat, now: int, ignoreIdleGrace: bool) {
    i < |t.recs| && Current(t, i) && StopEligible(cfg, t.recs[i], now, ignoreIdleGrace)
  }

  /** What the selection block of stopSurplusContext picks: the oldest eligible records,
      in order, as many as there are live records above the desired count. */
  ghost predicate Picks(cfg: Config, t: Tab, desired: int, ignoreIdleGrace: bool, now: int, picked: seq<nat>) {
    var excess := LiveCount(t) as int - desired;
    if excess <= 0 then picked == []
    else
      && |picked| <= excess
      && (forall k | 0 <= k < |picked| :: Eligible(cfg, t, picked[k], now, ignoreIdleGrace))
      && (forall j, k | 0 <= j < k < |picked| :: StopsBefore(t.recs[picked[j]], t.recs[picked[k]]))
      && (forall i: nat | Eligible(cfg, t, i, now, ignoreIdleGrace) && i !in picked ::
            |picked| == excess && forall k | 0 <= k < |picked| :: StopsBefore(t.recs[picked[k]], t.recs[i]))
  }

  function MarkStopping(t: Tab, picked: seq<nat>): Tab
    requires forall k | 0 <= k < |picked| :: picked[k] < |t.recs|
  {
    t.(recs := seq(|t.recs|, i requires 0 <= i < |t.recs| =>
                     if i in picked then t.recs[i].(state := Stopping) else t.recs[i]))
  }

  /** The restore after a failed stop, guarded against the record having moved on. */
  function Restore(t: Tab, i: nat, older: State): Tab
    requires i < |t.recs|
  {
    var r := t.recs[i];
    if Current(t, i) && r.state.Stopping? && !r.cleanupPending && !r.cleaning
    then Set(t, i, r.(state := older))
    else t
  }

  // ---------------------------------------------------------------- listener

  function ClaimRec(r: Rec, job: Job, now: int): Rec {
    if r.state.Starting? || r.state.Idle? || (r.state.Busy? && !r.claimed)
    then r.(state := Busy, busySince := Some(now), claimed := true,
            work := r.work.(workflowRef := job.workflowRef, runID := job.runID, claimAt := Some(now),
                            queueWait := job.queueWait, usageAtClaim := r.work.lastUsage))
    else r
  }

  function Claim(t: Tab, i: nat, job: Job, now: int): Tab
    requires i < |t.recs|
  {
    Set(t, i, ClaimRec(t.recs[i], job, now))
  }

  function SetResult(t: Tab, i: nat, result: string): Tab
    requires i < |t.recs|
  {
    Set(t, i, t.recs[i].(work := t.recs[i].work.(result := result)))
  }

  function Sample(t: Tab, i: nat, u: Usage): Tab
    requires i < |t.recs|
  {
    var r := t.recs[i];
    if Current(t, i) && !r.cleaning && !r.cleanupPending
    then Set(t, i, r.(work := r.work.(lastUsage := u, sampledOK := true)))
    else t
  }

  // ---------------------------------------------------------------- exit and cleanup

  predicate QuickNeverBusy(cfg: Config, r: Rec, now: int) {
    && cfg.acquireGrace > 0
    && !r.state.Busy?
    && r.busySince.None?
    && var start := if r.startedAt.None? then r.provStart else r.startedAt;
       start.Some? && now - start.value < cfg.acquireGrace
  }

  function CompletionOf(r: Rec, now: int): Completion {
    var w := r.work;
    Completion(r.id, r.runnerName, w.workflowRef, w.runID, w.result,
               RMax(0.0, w.lastUsage.cpuSeconds - w.usageAtClaim.cpuSeconds), w.lastUsage.peakMem,
               if w.claimAt.Some? then Some(now - w.claimAt.value) else None, w.queueWait, w.sampledOK)
  }

  /** What observeExitContext decided while it held the lock. */
  datatype Observation = Ignored | Observed(failure: bool, completion: Option<Completion>)

  predicate Observable(t: Tab, i: nat)
    requires i < |t.recs|
  {
    Current(t, i) && !t.recs[i].cleaning && !t.recs[i].cleanupPending && !t.recs[i].state.Empty?
        && !t.recs[i].state.Failed?
  }

  predicate Completes(cfg: Config, r: Rec) {
    r.claimed && !r.completionSent && cfg.completionHook
  }

  predicate AcquireFailed(cfg: Config, r: Rec, now: int) {
    !r.state.Stopping? && QuickNeverBusy(cfg, r, now)
  }

  function ObservedRec(cfg: Config, r: Rec, now: int): Rec {
    r.(state := Stopping,
       cleanupPending := true,
       chans := r.chans + [false],
       exitEvent := if r.state.Stopping? then r.exitEvent
                    else if QuickNeverBusy(cfg, r, now) then NoEvent else Exited,
       completionSent := r.completionSent || Completes(cfg, r))
  }

  function Observe(cfg: Config, t: Tab, i: nat, now: int): Tab
    requires i < |t.recs|
  {
    if Observable(t, i) then Set(t, i, ObservedRec(cfg, t.recs[i], now)) else t
  }

  function ObservationOf(cfg: Config, t: Tab, i: nat, now: int): Observation
    requires i < |t.recs|
  {
    if !Observable(t, i) then Ignored
    else Observed(AcquireFailed(cfg, t.recs[i], now),
                  if Completes(cfg, t.recs[i]) then Some(CompletionOf(t.recs[i], now)) else None)
  }

  predicate Cleanable(t: Tab, i: nat)
    requires i < |t.recs|
  {
    Current(t, i) && !t.recs[i].cleaning
  }

  /** A cleanup reuses the record's channel while it is open and otherwise makes a new one. */
  function CleaningRec(r: Rec): Rec {
    r.(cleaning := true, cleanupPending := true,
       chans := if r.chans == [] || r.chans[|r.chans| - 1] then r.chans + [false] else r.chans)
  }

  function BeginClean(t: Tab, i: nat): Tab
    requires i < |t.recs|
  {
    if Cleanable(t, i) then Set(t, i, CleaningRec(t.recs[i])) else t
  }

  function DeleteIfCurrent(t: Tab, i: nat): Tab
    requires i < |t.recs|
  {
    if Current(t, i) then Drop(t, t.recs[i].id) else t
  }

  function CloseDone(t: Tab, i: nat, done: nat): Tab
    requires i < |t.recs| && done < |t.recs[i].chans|
  {
    Set(t, i, t.recs[i].(cleaning := false, chans := t.recs[i].chans[done := true]))
  }

  // ---------------------------------------------------------------- boot adoption

  function AdoptRunning(t: Tab, id: ID, name: string, now: int): Tab {
    t.(slots := t.slots[id := |t.recs|],
       recs := t.recs + [BlankRec(id, Busy).(runnerName := name, startedAt := Some(now))])
  }

  function AdoptOrphan(t: Tab, id: ID, name: string): Tab {
    t.(slots := t.slots[id := |t.recs|],
       recs := t.recs + [BlankRec(id, Stopping).(runnerName := name)])
  }
}
