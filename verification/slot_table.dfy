/** The slot table as the program keeps it: record objects updated in place, each method one
    block of internal/slot/manager.go that runs under the table's mutex. Every method is proved
    to do to the table's view exactly what the function of SlotModel with its name says, so
    whatever SlotSafety proves of runs of those functions holds of runs of these methods. */
module SlotTable {
  import opened Basics
  import opened SlotModel

  class SlotRec {
    const id: ID
    ghost const inc: nat
    var state: State
    var runnerName: string
    var startedAt: Option<int>
    var provStart: Option<int>
    var busySince: Option<int>
    var claimed: bool
    var work: Work
    var reservedCores: real
    var reservedMem: nat
    var cleaning: bool
    var cleanupPending: bool
    var exitEvent: ExitEvent
    var completionSent: bool
    var chans: seq<bool>

    constructor (id: ID, state: State, name: string, startedAt: Option<int>, ghost inc: nat)
      ensures this.id == id && this.inc == inc
      ensures View() == BlankRec(id, state).(runnerName := name, startedAt := startedAt)
    {
      this.id, this.inc, this.state, this.runnerName, this.startedAt := id, inc, state, name, startedAt;
      provStart, busySince, claimed, work := None, None, false, NO_WORK;
      reservedCores, reservedMem := 0.0, 0;
      cleaning, cleanupPending, exitEvent, completionSent, chans := false, false, NoEvent, false, [];
    }

    /** The record of a start that begins now. */
    constructor Begin(id: ID, now: int, cores: real, mem: nat, ghost inc: nat)
      ensures this.id == id && this.inc == inc && View() == NewRec(id, now, cores, mem)
    {
      this.id, this.inc, state, runnerName, startedAt := id, inc, Starting, "", None;
      provStart, busySince, claimed, work := Some(now), None, false, NO_WORK;
      reservedCores, reservedMem := cores, mem;
      cleaning, cleanupPending, exitEvent, completionSent, chans := false, false, NoEvent, false, [];
    }

    function View(): Rec
      reads this
    {
      Rec(id, state, runnerName, startedAt, provStart, busySince, claimed, work, reservedCores, reservedMem,
          cleaning, cleanupPending, exitEvent, completionSent, chans)
    }

    /** The body of Claim for the record it found. */
    method TakeJob(job: Job, now: int)
      modifies this
      ensures View() == ClaimRec(old(View()), job, now)
    {
      if state == Starting || state == Idle || (state == Busy && !claimed) {
        state := Busy;
        busySince := Some(now);
        claimed := true;
        work := work.(workflowRef := job.workflowRef, runID := job.runID, claimAt := Some(now),
                      queueWait := job.queueWait, usageAtClaim := work.lastUsage);
      }
    }

    /** The body of observeExitContext for a record whose exit is news. */
    method RecordExit(cfg: Config, now: int) returns (seen: Observation)
      modifies this
      ensures View() == ObservedRec(cfg, old(View()), now)
      ensures seen == Observed(AcquireFailed(cfg, old(View()), now),
                               if Completes(cfg, old(View())) then Some(CompletionOf(old(View()), now)) else None)
    {
      var was := View();
      state := Stopping;
      cleanupPending := true;
      chans := chans + [false];
      var failure := false;
      if was.state != Stopping {
        exitEvent := Exited;
        if QuickNeverBusy(cfg, was, now) {
          failure := true;
          exitEvent := NoEvent;
        }
      }
      var completion := None;
      if claimed && !completionSent && cfg.completionHook {
        completionSent := true;
        completion := Some(CompletionOf(was, now));
      }
      seen := Observed(failure, completion);
    }

    /** The body of clean for a record nobody is cleaning. */
    method StartCleaning()
      modifies this
      ensures View() == CleaningRec(old(View()))
    {
      cleaning := true;
      if chans == [] || chans[|chans| - 1] {
        chans := chans + [false];
      }
      cleanupPending := true;
    }
  }

  ghost function Incs(recs: seq<SlotRec>): (s: seq<nat>)
    ensures |s| == |recs| && forall k | 0 <= k < |recs| :: s[k] == recs[k].inc
  {
    seq(|recs|, k requires 0 <= k < |recs| => recs[k].inc)
  }

  class Table {
    const cfg: Config
    var slots: map<ID, SlotRec>
    var closed: bool
    ghost var all: seq<SlotRec>

    constructor (cfg: Config)
      ensures Valid() && View() == EMPTY_TAB && this.cfg == cfg && all == []
    {
      this.cfg, slots, closed, all := cfg, map[], false, [];
    }

    /** A record object the table made at some time, tracked still or not. */
    ghost predicate Known(rec: SlotRec)
      reads this
    {
      rec.inc < |all| && all[rec.inc] == rec
    }

    ghost predicate Valid()
      reads this
    {
      && (forall i | 0 <= i < |all| :: all[i].inc == i)
      && (forall id <- slots :: Known(slots[id]) && slots[id].id == id)
    }

    ghost function View(): (t: Tab)
      requires Valid()
      reads this, all
      ensures Wf(t)
    {
      Tab(map id | id in slots :: slots[id].inc,
          seq(|all|, i requires 0 <= i < |all| reads this, all => all[i].View()),
          closed)
    }

    // -------------------------------------------------------------- starting

    ghost function LiveAmong(ids: set<ID>): set<ID>
      requires Valid() && ids <= slots.Keys
      reads this, all
    {
      set id | id in ids && slots[id].View().state.Live()
    }

    lemma LiveOneMore(done: set<ID>, id: ID)
      requires Valid() && done + {id} <= slots.Keys && id !in done
      ensures |LiveAmong(done + {id})| == |LiveAmong(done)| + if slots[id].state.Live() then 1 else 0
    {
      if slots[id].state.Live() {
        assert LiveAmong(done + {id}) == LiveAmong(done) + {id};
      } else {
        assert LiveAmong(done + {id}) == LiveAmong(done);
      }
    }

    lemma LiveAmongIsCount()
      requires Valid()
      ensures |LiveAmong(slots.Keys)| == LiveCount(View())
    {
      LiveInIsCount(View(), |all|);
      assert LiveAmong(slots.Keys) == LiveIDs(View(), |all|);
    }

    method CountLive() returns (n: nat)
      requires Valid()
      ensures n == LiveCount(View())
    {
      hide LiveCount;
      n := 0;
      var todo := slots.Keys;
      ghost var done: set<ID> := {};
      while todo != {}
        invariant todo + done == slots.Keys && todo !! done
        invariant n == |LiveAmong(done)|
        decreases todo
      {
        var id :| id in todo;
        LiveOneMore(done, id);
        todo, done := todo - {id}, done + {id};
        if slots[id].state.Live() {
          n := n + 1;
        }
      }
      assert done == slots.Keys;
      LiveAmongIsCount();
    }

    method NextID() returns (ok: bool, id: ID)
      requires Valid()
      ensures ok ==> LowestFree(View().slots, id)
      ensures ok ==> id !in slots && forall other: ID | other < id :: other in slots
      ensures !ok ==> forall other: ID :: other in slots
    {
      var n := 1;
      while n <= MAX_SLOT_ID
        invariant 1 <= n <= MAX_SLOT_ID + 1
        invariant forall other: ID | other < n :: other in slots
      {
        if n !in slots {
          return true, n;
        }
        n := n + 1;
      }
      return false, 1;
    }

    /** Inserts the record of the next start; null when the table is closed or full. */
    method ReserveSlot(now: int, cores: real, mem: nat) returns (rec: SlotRec?)
      requires Valid()
      modifies this
      ensures Valid()
      ensures rec == null <==> old(closed) || forall id: ID :: id in old(slots)
      ensures rec == null ==> View() == old(View()) && all == old(all)
      ensures rec != null ==>
        && fresh(rec) && all == old(all) + [rec] && Known(rec)
        && rec.id !in old(slots) && (forall other: ID | other < rec.id :: other in old(slots))
        && LowestFree(old(View()).slots, rec.id)
        && View() == Reserve(old(View()), rec.id, now, cores, mem)
    {
      if closed {
        return null;
      }
      var ok, id := NextID();
      if !ok {
        return null;
      }
      rec := new SlotRec.Begin(id, now, cores, mem, |all|);
      slots := slots[id := rec];
      all := all + [rec];
      OneMore(rec);
    }

    method DropReservation(rec: SlotRec)
      requires Valid()
      modifies this
      ensures Valid() && all == old(all) && View() == Drop(old(View()), rec.id)
    {
      slots := slots - {rec.id};
      hide SlotRec.View;
      assert forall i | 0 <= i < |all| :: all[i].View() == old(all[i].View());
      assert View().recs == old(View()).recs;
      assert View().slots == old(View()).slots - {rec.id};
    }

    /** A block that wrote to no record but rec. */
    twostate lemma OneWrite(rec: SlotRec)
      requires old(Valid()) && old(Known(rec)) && all == old(all) && slots == old(slots) && closed == old(closed)
      requires forall r <- all :: r != rec ==> unchanged(r)
      ensures Valid() && View() == Set(old(View()), rec.inc, rec.View())
    {
      forall i | 0 <= i < |all| ensures View().recs[i] == old(View()).recs[rec.inc := rec.View()][i] {
        assert all[i] in all;
        if i != rec.inc {
          assert all[i] != rec;
        }
      }
      assert View().recs == old(View()).recs[rec.inc := rec.View()];
      assert View().slots == old(View()).slots;
    }

    /** A block that inserted one new record and wrote to no other. */
    twostate lemma OneMore(new rec: SlotRec)
      requires old(Valid()) && rec.inc == |old(all)| && all == old(all) + [rec] && closed == old(closed)
      requires slots == old(slots)[rec.id := rec] && forall i | 0 <= i < |old(all)| :: unchanged(old(all)[i])
      ensures Valid() && Known(rec)
      ensures var t := old(View());
        View() == t.(slots := t.slots[rec.id := rec.inc], recs := t.recs + [rec.View()])
    {
      assert View().recs == old(View()).recs + [rec.View()];
      assert View().slots == old(View()).slots[rec.id := rec.inc];
    }

    method FailStart(rec: SlotRec)
      requires Valid() && Known(rec)
      modifies rec
      ensures Valid() && View() == SlotModel.FailStart(old(View()), rec.inc)
    {
      rec.state := Stopping;
      OneWrite(rec);
    }

    method NameRunner(rec: SlotRec, name: string)
      requires Valid() && Known(rec)
      modifies rec
      ensures Valid() && View() == SetName(old(View()), rec.inc, name)
    {
      rec.runnerName := name;
      OneWrite(rec);
    }

    method LaunchUncertain(rec: SlotRec)
      requires Valid() && Known(rec)
      modifies rec
      ensures Valid() && View() == SlotModel.LaunchUncertain(old(View()), rec.inc)
    {
      rec.state := Busy;
      OneWrite(rec);
    }

    method LaunchOk(rec: SlotRec, now: int)
      requires Valid() && Known(rec)
      modifies rec
      ensures Valid() && View() == SlotModel.LaunchOk(old(View()), rec.inc, now)
    {
      rec.startedAt := Some(now);
      if rec.state == Starting {
        rec.state := Idle;
      }
      OneWrite(rec);
    }

    // -------------------------------------------------------------- scale down

    /** stopSurplusContext's selection: collects the eligible records, sorts them, keeps as many
        as there are live records too many, and marks those stopping. */
    method PickSurplus(desired: int, ignoreIdleGrace: bool, now: int) returns (picked: seq<SlotRec>, olds: seq<State>)
      requires Valid()
      modifies all
      ensures Valid() && all == old(all) && forall k | 0 <= k < |picked| :: Known(picked[k])
      ensures Picks(cfg, old(View()), desired, ignoreIdleGrace, now, Incs(picked))
      ensures View() == MarkStopping(old(View()), Incs(picked))
      ensures |olds| == |picked| && forall k | 0 <= k < |picked| :: olds[k] == old(View()).recs[picked[k].inc].state
    {
      hide Picks, MarkStopping;
      picked, olds := SelectSurplus(desired, ignoreIdleGrace, now);
      MarkAll(picked);
    }

    method SelectSurplus(desired: int, ignoreIdleGrace: bool, now: int) returns (picked: seq<SlotRec>, olds: seq<State>)
      requires Valid()
      ensures forall k | 0 <= k < |picked| :: Known(picked[k]) && picked[k] in all
      ensures Picks(cfg, View(), desired, ignoreIdleGrace, now, Incs(picked))
      ensures |olds| == |picked| && forall k | 0 <= k < |picked| :: olds[k] == View().recs[picked[k].inc].state
    {
      hide Picks, Eligible, StopsBefore, View;
      picked, olds := [], [];
      var live := CountLive();
      var excess := live - desired;
      if excess > 0 {
        var sorted := SortedEligible(ignoreIdleGrace, now);
        picked := if |sorted| > excess then sorted[..excess] else sorted;
        PrefixPicks(sorted, picked, excess, ignoreIdleGrace, now);
        olds := StatesOf(picked);
      } else {
        NothingToPick(desired, ignoreIdleGrace, now);
      }
      StatesAreViewed(picked);
    }

    lemma NothingToPick(desired: int, ignoreIdleGrace: bool, now: int)
      requires Valid() && LiveCount(View()) as int <= desired
      ensures Picks(cfg, View(), desired, ignoreIdleGrace, now, Incs([]))
    {
      assert Incs([]) == [];
    }

    lemma StatesAreViewed(picked: seq<SlotRec>)
      requires Valid() && forall k | 0 <= k < |picked| :: Known(picked[k])
      ensures forall k | 0 <= k < |picked| ::
        picked[k].inc < |View().recs| && View().recs[picked[k].inc].state == picked[k].state
    {}

    method StatesOf(picked: seq<SlotRec>) returns (olds: seq<State>)
      ensures |olds| == |picked| && forall k | 0 <= k < |picked| :: olds[k] == picked[k].state
    {
      olds := [];
      for k := 0 to |picked|
        invariant |olds| == k && forall j | 0 <= j < k :: olds[j] == picked[j].state
      {
        olds := olds + [picked[k].state];
      }
    }

    /** The oldest excess records of the sorted eligible ones are what Picks asks for. */
    lemma PrefixPicks(sorted: seq<SlotRec>, picked: seq<SlotRec>, excess: int, ignoreIdleGrace: bool, now: int)
      requires Valid() && excess > 0
      requires picked == if |sorted| > excess then sorted[..excess] else sorted
      requires forall r <- sorted :: Known(r) && Eligible(cfg, View(), r.inc, now, ignoreIdleGrace)
      requires forall i: nat | Eligible(cfg, View(), i, now, ignoreIdleGrace) :: all[i] in sorted
      requires forall j, k | 0 <= j < k < |sorted| :: StopsBefore(sorted[j].View(), sorted[k].View())
      ensures forall k | 0 <= k < |picked| :: Known(picked[k]) && picked[k] in all
      ensures Picks(cfg, View(), LiveCount(View()) - excess, ignoreIdleGrace, now, Incs(picked))
    {
      var incs := Incs(picked);
      forall k | 0 <= k < |picked|
        ensures Known(picked[k]) && picked[k] in all
        ensures Eligible(cfg, View(), incs[k], now, ignoreIdleGrace) && View().recs[incs[k]] == picked[k].View()
      {
        assert picked[k] == sorted[k] && sorted[k] in sorted;
      }
      forall i: nat | Eligible(cfg, View(), i, now, ignoreIdleGrace) && i !in incs
        ensures |picked| == excess && forall k | 0 <= k < |picked| :: StopsBefore(View().recs[incs[k]], View().recs[i])
      {
        var m :| 0 <= m < |sorted| && sorted[m] == all[i];
        assert forall k | 0 <= k < |picked| :: incs[k] != i && picked[k] == sorted[k];
        assert m >= |picked|;
      }
    }

    method MarkAll(picked: seq<SlotRec>)
      requires Valid() && forall k | 0 <= k < |picked| :: Known(picked[k]) && picked[k] in all
      modifies picked
      ensures Valid() && View() == MarkStopping(old(View()), Incs(picked))
    {
      assert forall k | 0 <= k < |picked| :: Incs(picked)[k] < |View().recs|;
      var k := 0;
      while k < |picked|
        invariant 0 <= k <= |picked|
        invariant forall i | 0 <= i < |all| ::
          all[i].View() == if all[i] in picked[..k] then old(all[i].View()).(state := Stopping) else old(all[i].View())
      {
        assert picked[..k + 1] == picked[..k] + [picked[k]];
        picked[k].state := Stopping;
        k := k + 1;
      }
      assert picked[..k] == picked;
      Marked(picked);
    }

    twostate lemma Marked(picked: seq<SlotRec>)
      requires old(Valid()) && all == old(all) && slots == old(slots) && closed == old(closed)
      requires forall k | 0 <= k < |picked| :: Known(picked[k]) && Incs(picked)[k] < |old(View()).recs|
      requires forall i | 0 <= i < |all| ::
        all[i].View() == if all[i] in picked then old(all[i].View()).(state := Stopping) else old(all[i].View())
      ensures Valid() && View() == MarkStopping(old(View()), Incs(picked))
    {
      assert forall k | 0 <= k < |picked| :: Incs(picked)[k] < |View().recs|;
      forall i | 0 <= i < |all| ensures all[i] in picked <==> i in Incs(picked) {
        if all[i] in picked {
          var j :| 0 <= j < |picked| && picked[j] == all[i];
          assert Incs(picked)[j] == i;
        }
        if i in Incs(picked) {
          var j :| 0 <= j < |picked| && Incs(picked)[j] == i;
          assert Known(picked[j]);
        }
      }
      assert View().recs == MarkStopping(old(View()), Incs(picked)).recs;
      assert View().slots == old(View()).slots;
    }

    ghost predicate IsEligible(r: SlotRec, ignoreIdleGrace: bool, now: int)
      reads this, r
    {
      r.id in slots && slots[r.id] == r && StopEligible(cfg, r.View(), now, ignoreIdleGrace)
    }

    /** All eligible records, in stopping order: inserts each into its place. */
    method SortedEligible(ignoreIdleGrace: bool, now: int) returns (sorted: seq<SlotRec>)
      requires Valid()
      ensures forall r <- sorted :: Known(r) && Eligible(cfg, View(), r.inc, now, ignoreIdleGrace)
      ensures forall i: nat | Eligible(cfg, View(), i, now, ignoreIdleGrace) :: all[i] in sorted
      ensures forall j, k | 0 <= j < k < |sorted| :: StopsBefore(sorted[j].View(), sorted[k].View())
    {
      sorted := [];
      var todo := slots.Keys;
      while todo != {}
        invariant todo <= slots.Keys
        invariant forall r <- sorted :: Known(r) && IsEligible(r, ignoreIdleGrace, now) && r.id !in todo
        invariant forall id <- slots.Keys - todo :: IsEligible(slots[id], ignoreIdleGrace, now) ==> slots[id] in sorted
        invariant forall j, k | 0 <= j < k < |sorted| :: StopsBefore(sorted[j].View(), sorted[k].View())
        decreases todo
      {
        var id :| id in todo;
        todo := todo - {id};
        var r := slots[id];
        if StopEligible(cfg, r.View(), now, ignoreIdleGrace) {
          sorted := Insert(sorted, r);
        }
      }
      forall i: nat | Eligible(cfg, View(), i, now, ignoreIdleGrace) ensures all[i] in sorted {
        assert slots[all[i].id] == all[i];
      }
      forall r | r in sorted ensures Eligible(cfg, View(), r.inc, now, ignoreIdleGrace) {
        assert View().recs[r.inc] == r.View();
      }
    }

    static method Insert(sorted: seq<SlotRec>, r: SlotRec) returns (out: seq<SlotRec>)
      requires forall j, k | 0 <= j < k < |sorted| :: StopsBefore(sorted[j].View(), sorted[k].View())
      requires forall x <- sorted :: x.id != r.id
      ensures forall x :: x in out <==> x in sorted || x == r
      ensures forall j, k | 0 <= j < k < |out| :: StopsBefore(out[j].View(), out[k].View())
    {
      var p := 0;
      while p < |sorted| && StopsBefore(sorted[p].View(), r.View())
        invariant 0 <= p <= |sorted|
        invariant forall j | 0 <= j < p :: StopsBefore(sorted[j].View(), r.View())
      {
        p := p + 1;
      }
      forall k | p <= k < |sorted| ensures StopsBefore(r.View(), sorted[k].View()) {
        assert sorted[k] in sorted && sorted[p] in sorted;
      }
      out := sorted[..p] + [r] + sorted[p..];
      assert forall x :: x in sorted <==> x in sorted[..p] || x in sorted[p..] by {
        assert sorted == sorted[..p] + sorted[p..];
      }
    }

    method RestoreState(rec: SlotRec, older: State)
      requires Valid() && Known(rec)
      modifies rec
      ensures Valid() && View() == Restore(old(View()), rec.inc, older)
    {
      if rec.id in slots && slots[rec.id] == rec && rec.state == Stopping && !rec.cleanupPending && !rec.cleaning {
        rec.state := older;
      }
      OneWrite(rec);
    }

    // -------------------------------------------------------------- listener and sampler

    method Claim(job: Job, now: int) returns (found: bool, ghost inc: nat)
      requires Valid()
      modifies set id | id in slots :: slots[id]
      ensures Valid()
      ensures found <==> exists id :: id in slots && old(slots[id].runnerName) == job.runnerName
      ensures !found ==> View() == old(View())
      ensures found ==>
        && inc < |all| && Current(old(View()), inc) && old(View()).recs[inc].runnerName == job.runnerName
        && View() == SlotModel.Claim(old(View()), inc, job, now)
    {
      found, inc := false, 0;
      var todo := slots.Keys;
      while todo != {}
        invariant todo <= slots.Keys && View() == old(View())
        invariant forall id <- slots.Keys - todo :: slots[id].runnerName != job.runnerName
        invariant forall r <- all :: unchanged(r)
        decreases todo
      {
        var id :| id in todo;
        todo := todo - {id};
        var rec := slots[id];
        if rec.runnerName == job.runnerName {
          rec.TakeJob(job, now);
          OneWrite(rec);
          return true, rec.inc;
        }
      }
    }

    method MarkResult(runnerName: string, result: string) returns (ghost inc: Option<nat>)
      requires Valid()
      modifies set id | id in slots :: slots[id]
      ensures Valid()
      ensures inc.None? ==>
        && View() == old(View())
        && (result == "" || forall id <- slots ::
            !(old(slots[id].runnerName) == runnerName && old(slots[id].state).Live()))
      ensures inc.Some? ==>
        && result != "" && inc.value < |all| && Current(old(View()), inc.value)
        && old(View()).recs[inc.value].runnerName == runnerName && old(View()).recs[inc.value].state.Live()
        && View() == SetResult(old(View()), inc.value, result)
    {
      inc := None;
      if result == "" {
        return;
      }
      var todo := slots.Keys;
      while todo != {}
        invariant todo <= slots.Keys && View() == old(View())
        invariant forall id <- slots.Keys - todo :: !(slots[id].runnerName == runnerName && slots[id].state.Live())
        invariant forall r <- all :: unchanged(r)
        decreases todo
      {
        var id :| id in todo;
        todo := todo - {id};
        var rec := slots[id];
        if rec.runnerName == runnerName && rec.state.Live() {
          rec.work := rec.work.(result := result);
          OneWrite(rec);
          return Some(rec.inc);
        }
      }
    }

    method RecordSample(rec: SlotRec, u: Usage)
      requires Valid() && Known(rec)
      modifies rec
      ensures Valid() && View() == Sample(old(View()), rec.inc, u)
    {
      if rec.id in slots && slots[rec.id] == rec && !rec.cleaning && !rec.cleanupPending {
        rec.work := rec.work.(lastUsage := u, sampledOK := true);
      }
      OneWrite(rec);
    }

    // -------------------------------------------------------------- exit and cleanup

    method ObserveExit(rec: SlotRec, now: int) returns (seen: Observation)
      requires Valid() && Known(rec)
      modifies rec
      ensures Valid() && View() == Observe(cfg, old(View()), rec.inc, now)
      ensures seen == ObservationOf(cfg, old(View()), rec.inc, now)
    {
      if rec.id !in slots || slots[rec.id] != rec || rec.cleaning || rec.cleanupPending || rec.state == Empty
          || rec.state == Failed {
        seen := Ignored;
      } else {
        seen := rec.RecordExit(cfg, now);
      }
      OneWrite(rec);
    }

    /** clean up to its unlock; a worker is to be started exactly if started is true. */
    method BeginClean(rec: SlotRec) returns (started: bool)
      requires Valid() && Known(rec)
      modifies rec
      ensures Valid() && View() == SlotModel.BeginClean(old(View()), rec.inc)
      ensures started <==> Cleanable(old(View()), rec.inc)
    {
      started := rec.id in slots && slots[rec.id] == rec && !rec.cleaning;
      if started {
        rec.StartCleaning();
      }
      OneWrite(rec);
    }

    method FinishWipe(rec: SlotRec, ok: bool) returns (event: ExitEvent)
      requires Valid() && Known(rec)
      modifies this
      ensures Valid() && all == old(all) && event == old(View()).recs[rec.inc].exitEvent
      ensures View() == if ok then DeleteIfCurrent(old(View()), rec.inc) else old(View())
    {
      event := rec.exitEvent;
      if ok && rec.id in slots && slots[rec.id] == rec {
        DropReservation(rec);
      }
    }

    method CloseDone(rec: SlotRec, done: nat)
      requires Valid() && Known(rec) && done < |rec.chans|
      modifies rec
      ensures Valid() && View() == SlotModel.CloseDone(old(View()), rec.inc, done)
    {
      rec.chans := rec.chans[done := true];
      rec.cleaning := false;
      OneWrite(rec);
    }

    /** retryCleanup's list: the records whose cleanup is pending and not being done. */
    method RetryList() returns (pending: seq<SlotRec>)
      requires Valid()
      ensures forall r :: r in pending <==> r in slots.Values && r.cleanupPending && !r.cleaning
    {
      pending := [];
      var todo := slots.Keys;
      while todo != {}
        invariant todo <= slots.Keys
        invariant forall r <- pending :: r in slots.Values && r.cleanupPending && !r.cleaning
        invariant forall id <- slots.Keys - todo :: slots[id].cleanupPending && !slots[id].cleaning ==>
          slots[id] in pending
        decreases todo
      {
        var id :| id in todo;
        todo := todo - {id};
        if slots[id].cleanupPending && !slots[id].cleaning {
          pending := pending + [slots[id]];
        }
      }
    }

    // -------------------------------------------------------------- boot adoption and Close

    method Adopt(id: ID, name: string, running: bool, now: int) returns (rec: SlotRec)
      requires Valid()
      modifies this
      ensures Valid() && fresh(rec) && all == old(all) + [rec] && Known(rec)
      ensures View() == if running then AdoptRunning(old(View()), id, name, now) else AdoptOrphan(old(View()), id, name)
    {
      rec := new SlotRec(id, if running then Busy else Stopping, name, if running then Some(now) else None, |all|);
      slots := slots[id := rec];
      all := all + [rec];
      OneMore(rec);
    }

    method Close()
      requires Valid()
      modifies this
      ensures Valid() && all == old(all) && View() == old(View()).(closed := true)
    {
      closed := true;
      assert View().slots == old(View()).slots && View().recs == old(View()).recs;
    }
  }

  // ---------------------------------------------------------------- counting

  ghost function LiveIDs(t: Tab, n: nat): set<ID>
    requires Wf(t) && n <= |t.recs|
  {
    set id | id in t.slots && t.slots[id] < n && t.recs[t.slots[id]].state.Live()
  }

  /** The count over incarnations is the count over tracked IDs. */
  lemma {:induction false} LiveInIsCount(t: Tab, n: nat)
    requires Wf(t) && n <= |t.recs|
    ensures LiveIn(t, n) == |LiveIDs(t, n)|
  {
    if n > 0 {
      LiveInIsCount(t, n - 1);
      LiveIDsStep(t, n);
    } else {
      assert LiveIDs(t, 0) == {};
    }
  }

  lemma LiveIDsStep(t: Tab, n: nat)
    requires Wf(t) && 0 < n <= |t.recs|
    ensures LiveIDs(t, n) == LiveIDs(t, n - 1)
      + if Current(t, n - 1) && t.recs[n - 1].state.Live() then {t.recs[n - 1].id} else {}
    ensures t.recs[n - 1].id in LiveIDs(t, n - 1) ==> !Current(t, n - 1)
  {}
}
