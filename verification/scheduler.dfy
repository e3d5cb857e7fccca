/** reconcilePools and nextRetryWait of internal/app/scheduler.go as loops over pools that change
    under them. The environment is a demon: between any two reads it may end runners, change
    desired counts and move retry waits, and an Ensure may gain nothing or fail. A quiet
    environment changes nothing by itself; in a willing one every start succeeds. */
module Scheduler {
  import opened Basics
  import opened Sums
  import opened EnsureContract

  const HARD_CAP := 32

  datatype Env = Env(quiet: bool, willing: bool)

  /** A pool as a value; asked holds the target of every Ensure so far. */
  datatype PoolView = PoolView(live: nat, desired: nat, wait: nat, asked: seq<nat>)

  class Pool {
    var live: nat
    var desired: nat
    var wait: nat
    ghost var asked: seq<nat> // the target of every Ensure so far

    constructor (desired: nat)
      ensures live == 0 && this.desired == desired && wait == 0 && asked == []
    {
      live, this.desired, wait, asked := 0, desired, 0, [];
    }

    ghost function View(): PoolView
      reads this
    {
      PoolView(live, desired, wait, asked)
    }

    ghost predicate Healthy(env: Env)
      reads this
    {
      env.willing ==> wait == 0
    }

    /** What may happen to a pool while nobody looks: only an Ensure adds live slots. */
    method Drift(env: Env)
      requires Healthy(env)
      modifies this
      ensures live <= old(live) && Healthy(env) && asked == old(asked)
      ensures env.quiet ==> unchanged(this)
    {
      if !env.quiet {
        var exits: nat, wanted: nat, delay: nat := *, *, *;
        live := if exits <= live then live - exits else 0;
        desired := wanted;
        if !env.willing {
          wait := delay;
        }
      }
    }

    /** Ensure, as its caller sees it: starts one slot after the other until the target is met,
        a start fails or is held back; then stops some of the surplus. EnsureRun proves the same
        of the table's own Ensure, Bounded in every interleaving and Converges in a quiet one. */
    method Ensure(env: Env, target: nat) returns (err: bool)
      requires Healthy(env)
      modifies this
      ensures Healthy(env) && Bounded(old(live), live, target) && asked == old(asked) + [target]
      ensures env.quiet ==> desired == old(desired) && Converges(old(live), live, target, env.willing && !err)
      ensures env.quiet && old(live) >= target ==> wait == old(wait)
    {
      ghost var before := live;
      asked := asked + [target];
      err := false;
      while live < target
        invariant live == before || before <= live <= target
        invariant asked == old(asked) + [target]
        invariant Healthy(env) && desired == old(desired) && (before >= target ==> wait == old(wait))
      {
        var cancelled: bool, started: bool, delay: nat := *, *, *;
        if cancelled {
          err := true;
          break;
        }
        if !env.willing && !started {
          wait := delay;
          break;
        }
        live := live + 1;
      }
      if live > target {
        var stopped: int := *;
        live := if 0 <= stopped <= live - target then live - stopped else target;
      }
      Drift(env);
    }
  }

  // ------------------------------------------------------------------ rounds

  /** One turn of the allocation loop: whose it was, what was read of that pool, and how many
      slots it gained. */
  datatype Turn = Turn(pool: nat, seen: PoolView, gained: nat)

  /** Whose turn t is, with n pools. */
  function At(t: nat, n: nat): nat
    requires n > 0
  {
    t % n
  }

  /** Turn k went to pool k modulo the number of pools. */
  ghost predicate RoundRobin(turns: seq<Turn>, n: nat)
    requires n > 0
  {
    forall k | 0 <= k < |turns| :: turns[k].pool == At(k, n)
  }

  ghost function Gained(turns: seq<Turn>, pool: nat, lo: nat, hi: nat): nat
    requires lo <= hi <= |turns|
  {
    if lo == hi then 0
    else Gained(turns, pool, lo, hi - 1) + if turns[hi - 1].pool == pool then turns[hi - 1].gained else 0
  }

  /** How many k < m leave remainder i modulo n. */
  ghost function TurnsOf(i: nat, n: nat, m: nat): nat
    requires i < n
  {
    if m <= i then 0 else (m - i - 1) / n + 1
  }

  lemma TurnsOfStep(i: nat, n: nat, m: nat)
    requires i < n
    ensures TurnsOf(i, n, m + 1) == TurnsOf(i, n, m) + if m % n == i then 1 else 0
  {
    if m > i {
      var a := m - i;
      assert m % n == i <==> a % n == 0 by { ModShift(a, i, n); }
      DivStep(a, n);
    } else if m == i {
      assert 0 / n == 0;
      assert i % n == i;
    } else {
      assert m % n == m;
    }
  }

  lemma ModShift(a: nat, i: nat, n: nat)
    requires i < n
    ensures (a + i) % n == i <==> a % n == 0
  {
    var q, r := a / n, a % n;
    assert a == q * n + r;
    if r + i < n {
      DivUnique(a + i, n, q, r + i);
    } else {
      assert (q + 1) * n == q * n + n;
      DivUnique(a + i, n, q + 1, r + i - n);
    }
  }

  lemma DivStep(a: nat, n: nat)
    requires a > 0 && n > 0
    ensures a / n + 1 == (a - 1) / n + 1 + if a % n == 0 then 1 else 0
  {
    var q, r := a / n, a % n;
    if r == 0 {
      assert q >= 1;
      assert (q - 1) * n == q * n - n;
      DivUnique(a - 1, n, q - 1, n - 1);
    } else {
      DivUnique(a - 1, n, q, r - 1);
    }
  }

  lemma DivUnique(a: nat, n: nat, q: int, r: int)
    requires n > 0 && a == q * n + r && 0 <= r < n
    ensures a / n == q && a % n == r
  {
    MultipleIsFar(n, q - a / n);
  }

  lemma MultipleIsFar(n: nat, k: int)
    ensures k == 0 || k * n >= n || k * n <= -(n as int)
  {
    if k > 0 {
      Distribute(k - 1, n);
    } else if k < 0 {
      Distribute(-k - 1, n);
      assert -k * n == -(k * n);
    }
  }

  lemma Distribute(a: nat, n: nat)
    ensures (a + 1) * n == a * n + n && a * n >= 0
  {}

  /** A pool whose every turn gained one slot gained as many as it had turns. */
  lemma {:induction false} GainsAreTurns(turns: seq<Turn>, n: nat, pool: nat, lo: nat, hi: nat)
    requires n > 0 && RoundRobin(turns, n) && pool < n && lo <= hi <= |turns|
    requires forall k | lo <= k < hi && turns[k].pool == pool :: turns[k].gained == 1
    ensures Gained(turns, pool, lo, hi) == TurnsOf(pool, n, hi) - TurnsOf(pool, n, lo)
    decreases hi
  {
    if lo != hi {
      GainsAreTurns(turns, n, pool, lo, hi - 1);
      TurnsOfStep(pool, n, hi - 1);
    }
  }

  lemma TurnsDiffer(i: nat, j: nat, n: nat, m: nat)
    requires i <= j < n
    ensures 0 <= TurnsOf(i, n, m) - TurnsOf(j, n, m) <= 1
  {
    if m > i {
      var a := m - i - 1;
      var q, r := a / n, a % n;
      assert a == q * n + r;
      var b := a - (j - i);
      if b >= 0 {
        if r >= j - i {
          DivUnique(b, n, q, r - (j - i));
        } else {
          assert q >= 1;
          assert (q - 1) * n == q * n - n;
          DivUnique(b, n, q - 1, r - (j - i) + n);
        }
      } else {
        DivUnique(a, n, 0, a);
      }
    }
  }

  /** Over any stretch of turns, however many passes it spans, two pools that gained a slot at
      each of their turns differ by at most one. */
  lemma FairShares(turns: seq<Turn>, n: nat, i: nat, j: nat, lo: nat, hi: nat)
    requires n > 0 && RoundRobin(turns, n) && i < n && j < n && lo <= hi <= |turns|
    requires forall k | lo <= k < hi && (turns[k].pool == i || turns[k].pool == j) :: turns[k].gained == 1
    ensures -1 <= Gained(turns, i, lo, hi) - Gained(turns, j, lo, hi) <= 1
  {
    GainsAreTurns(turns, n, i, lo, hi);
    GainsAreTurns(turns, n, j, lo, hi);
    TurnsDiffer(if i <= j then i else j, if i <= j then j else i, n, hi);
    TurnsDiffer(if i <= j then i else j, if i <= j then j else i, n, lo);
  }

  // ------------------------------------------------------------------ the pass

  ghost function Views(pools: seq<Pool>): (c: seq<PoolView>)
    reads pools
    ensures |c| == |pools| && forall k | 0 <= k < |pools| :: c[k] == pools[k].View()
  {
    seq(|pools|, k requires 0 <= k < |pools| reads pools => pools[k].View())
  }

  ghost function Lives(pools: seq<Pool>): (c: seq<nat>)
    reads pools
    ensures |c| == |pools| && forall k | 0 <= k < |pools| :: c[k] == pools[k].live
  {
    seq(|pools|, k requires 0 <= k < |pools| reads pools => pools[k].live)
  }

  /** What maintenance keeps of a pool. */
  function Keep(v: PoolView): nat { NMin(v.live, v.desired) }

  /** One more Ensure, for no more than live slots. */
  ghost predicate AskedOnce(before: seq<nat>, after: seq<nat>, live: nat) {
    |after| == |before| + 1 && before <= after && after[|before|] <= live
  }

  /** A pool that was before, after some of maintenance: done if its own Ensure is among it. */
  ghost predicate Held(quiet: bool, before: PoolView, now: PoolView, done: bool) {
    && now.live <= before.live
    && (if done then AskedOnce(before.asked, now.asked, before.live) else now.asked == before.asked)
    && (quiet ==>
          && now.desired == before.desired && now.live >= Keep(before)
          && (if done then now.asked == before.asked + [Keep(before)] else now == before))
  }

  /** The pools after the Ensure of maintenance of pool i. */
  ghost predicate HeldOne(quiet: bool, was: seq<PoolView>, now: seq<PoolView>, i: nat) {
    && |now| == |was| && i < |was| && Held(quiet, was[i], now[i], true)
    && forall k | 0 <= k < |was| && k != i :: Held(quiet, was[k], now[k], false)
  }

  /** And after those of the first n pools. */
  ghost predicate HeldFirst(quiet: bool, first: seq<PoolView>, now: seq<PoolView>, n: nat) {
    |now| == |first| && forall k | 0 <= k < |first| :: Held(quiet, first[k], now[k], k < n)
  }

  lemma HeldMore(quiet: bool, first: seq<PoolView>, was: seq<PoolView>, now: seq<PoolView>, i: nat)
    requires HeldFirst(quiet, first, was, i) && HeldOne(quiet, was, now, i)
    ensures HeldFirst(quiet, first, now, i + 1)
  {
    forall k | 0 <= k < |first| ensures Held(quiet, first[k], now[k], k < i + 1) {
      assert Held(quiet, first[k], was[k], k < i);
    }
  }

  /** At its turn a pool with this view is passed over and not asked for another slot. */
  predicate PassedOver(seen: PoolView) {
    seen.live >= seen.desired || seen.wait > 0
  }

  /** The turn gained nothing and its pool is still as that turn left it: passed over, and then
      just as it was seen; or asked for one slot more than it has, and that was its last Ensure. */
  ghost predicate Stuck(env: Env, t: Turn, now: PoolView) {
    && t.gained == 0 && now.live == t.seen.live && now.desired == t.seen.desired
    && if PassedOver(t.seen) then now == t.seen
       else !env.willing && now.asked == t.seen.asked + [t.seen.live + 1]
  }

  /** Every pool is stuck since a turn it had after the first turns0. */
  ghost predicate Settled(env: Env, turns: seq<Turn>, turns0: nat, views: seq<PoolView>) {
    forall k | 0 <= k < |views| :: StuckSince(env, turns, turns0, k, views[k])
  }

  ghost predicate StuckSince(env: Env, turns: seq<Turn>, turns0: nat, k: nat, now: PoolView) {
    exists j | turns0 <= j < |turns| :: turns[j].pool == k && Stuck(env, turns[j], now)
  }

  /** The pools of the last streak turns are all stuck since. */
  ghost predicate StreakStands(env: Env, turns: seq<Turn>, views: seq<PoolView>, streak: nat) {
    && streak <= |turns|
    && forall j | |turns| - streak <= j < |turns| ::
         turns[j].pool < |views| && Stuck(env, turns[j], views[turns[j].pool])
  }

  /** A pool after a visit in a quiet environment, now at live slots if there was no error. */
  lemma QuietVisit(env: Env, k: nat, seen: PoolView, now: PoolView, err: bool, live: nat)
    requires now.desired == seen.desired && (PassedOver(seen) ==> now == seen)
    requires now.asked == seen.asked + if PassedOver(seen) then [] else [seen.live + 1]
    requires !err ==> now.live == live >= seen.live && (env.willing ==> PassedOver(seen) || live > seen.live)
    ensures !err && live == seen.live ==> Stuck(env, Turn(k, seen, 0), now)
  {}

  lemma NoStreak(env: Env, turns: seq<Turn>, views: seq<PoolView>)
    ensures StreakStands(env, turns, views, 0)
  {}

  /** A streak shorter than a round goes on with a turn that changed no other pool. */
  lemma StreakGoesOn(env: Env, turns: seq<Turn>, views: seq<PoolView>, streak: nat, t: Turn, p: PoolView)
    requires streak < |views| && RoundRobin(turns, |views|) && t.pool == At(|turns|, |views|) < |views|
    requires StreakStands(env, turns, views, streak) && Stuck(env, t, p)
    ensures StreakStands(env, turns + [t], views[t.pool := p], streak + 1)
  {
    forall j | |turns| - streak <= j < |turns| ensures turns[j].pool != t.pool {
      OtherTurn(j, |turns|, |views|);
    }
    hide Stuck, At;
  }

  /** Turns less than a round apart go to different pools. */
  lemma OtherTurn(j: nat, t: nat, n: nat)
    requires n > 0 && j < t < j + n
    ensures At(j, n) != At(t, n)
  {
    var q, r := j / n, t / n;
    assert j == q * n + j % n && t == r * n + t % n;
    MultipleIsFar(n, r - q);
    assert (r - q) * n == r * n - q * n;
  }

  /** A streak of as many turns as there are pools has had every pool. */
  lemma StreakCovers(env: Env, turns: seq<Turn>, views: seq<PoolView>, streak: nat, turns0: nat)
    requires |views| > 0 && RoundRobin(turns, |views|)
    requires |views| <= streak <= |turns| - turns0 && StreakStands(env, turns, views, streak)
    ensures Settled(env, turns, turns0, views)
  {
    forall k | 0 <= k < |views| ensures StuckSince(env, turns, turns0, k, views[k]) {
      var n, last := |views|, |turns| - 1;
      var j := last - (last - k) % n;
      LastOf(last, k, n);
      assert turns[j].pool == k && Stuck(env, turns[j], views[k]);
    }
  }

  lemma TurnAdded(turns: seq<Turn>, n: nat, t: Turn)
    requires n > 0 && RoundRobin(turns, n)
    ensures At(|turns|, n) < n && At(At(|turns|, n), n) == At(|turns|, n)
    ensures t.pool == At(|turns|, n) ==> RoundRobin(turns + [t], n)
    ensures At(|turns| + 1, n) == At(At(|turns|, n) + 1, n)
  {
    NextAt(|turns|, n);
    hide At;
  }

  lemma NextAt(t: nat, n: nat)
    requires n > 0
    ensures At(t, n) < n && At(At(t, n), n) == At(t, n) && At(t + 1, n) == At(At(t, n) + 1, n)
  {
    NextTurn(t, n);
    DivUnique(t % n, n, 0, t % n);
  }

  class Daemon {
    const env: Env
    const max: nat
    const pools: seq<Pool>
    var scheduleCursor: nat
    ghost var turns: seq<Turn> // every turn of every pass so far

    constructor (env: Env, max: nat, pools: seq<Pool>)
      requires forall i, j | 0 <= i < j < |pools| :: pools[i] != pools[j]
      requires forall k | 0 <= k < |pools| :: pools[k].Healthy(env)
      ensures Valid() && this.pools == pools && this.max == max && this.env == env
    {
      this.env, this.max, this.pools, scheduleCursor, turns := env, max, pools, 0, [];
    }

    ghost predicate PoolsValid()
      reads this, pools
    {
      && (forall i, j | 0 <= i < j < |pools| :: pools[i] != pools[j])
      && (forall k | 0 <= k < |pools| :: pools[k].Healthy(env))
    }

    ghost predicate Valid()
      reads this, pools
    {
      && PoolsValid()
      && (|pools| > 0 ==> RoundRobin(turns, |pools|) && scheduleCursor == At(|turns|, |pools|))
    }

    /** Time passes: every pool may drift. */
    method Elapse()
      requires PoolsValid()
      modifies pools
      ensures PoolsValid()
      ensures forall k | 0 <= k < |pools| ::
        pools[k].live <= old(pools[k].live) && pools[k].asked == old(pools[k].asked)
      ensures env.quiet ==> forall k | 0 <= k < |pools| :: unchanged(pools[k])
    {
      for i := 0 to |pools|
        invariant PoolsValid()
        invariant forall k | 0 <= k < |pools| ::
          pools[k].live <= old(pools[k].live) && pools[k].asked == old(pools[k].asked)
        invariant env.quiet ==> forall k | 0 <= k < |pools| :: unchanged(pools[k])
      {
        pools[i].Drift(env);
      }
    }

    method MaintainPool(i: nat) returns (err: bool)
      requires PoolsValid() && i < |pools|
      modifies pools
      ensures PoolsValid() && HeldOne(env.quiet, old(Views(pools)), Views(pools), i)
    {
      var pool := pools[i];
      Elapse();
      var desired := pool.desired;
      Elapse();
      var live := pool.live;
      Elapse();
      err := pool.Ensure(env, NMin(live, desired));
    }

    /** The first loop: every pool gets one Ensure, for no more than it has, so nothing is added;
        in a quiet environment for exactly the lesser of what it has and what it wants. */
    method Maintain() returns (err: bool)
      requires PoolsValid()
      modifies pools
      ensures PoolsValid()
      ensures Sum(Lives(pools)) <= old(Sum(Lives(pools)))
      ensures !err ==> forall k | 0 <= k < |pools| :: AskedOnce(old(pools[k].asked), pools[k].asked, old(pools[k].live))
      ensures env.quiet ==> Trimmed(old(Views(pools)), Views(pools))
      ensures env.quiet && !err ==> AskedToKeep(old(Views(pools)), Views(pools))
    {
      hide Sum, Views, Lives, HeldOne, HeldFirst, Trimmed, AskedToKeep;
      err := false;
      ghost var first, c0, n := Views(pools), Lives(pools), 0;
      NothingHeld(env.quiet, first);
      for i := 0 to |pools|
        invariant PoolsValid() && !err && n == i && HeldFirst(env.quiet, first, Views(pools), n)
      {
        ghost var was := Views(pools);
        err := MaintainPool(i);
        HeldMore(env.quiet, first, was, Views(pools), i);
        n := i + 1;
        if err {
          break;
        }
      }
      HeldMeans(env.quiet, first, Views(pools), n);
      SumMonotone(c0, Lives(pools));
    }

    /** allActive: the pools are read one after the other. */
    method Tally() returns (total: nat)
      requires PoolsValid()
      modifies pools
      ensures PoolsValid()
      ensures Sum(Lives(pools)) <= total <= old(Sum(Lives(pools)))
      ensures env.quiet ==> Views(pools) == old(Views(pools)) && total == Sum(Lives(pools))
    {
      total := 0;
      ghost var read: seq<nat> := [];
      for i := 0 to |pools|
        invariant PoolsValid()
        invariant forall k | 0 <= k < |pools| :: pools[k].live <= old(pools[k].live)
        invariant env.quiet ==> forall k | 0 <= k < |pools| :: unchanged(pools[k])
        invariant |read| == i && total == Sum(read)
        invariant forall j | 0 <= j < i :: pools[j].live <= read[j] <= old(pools[j].live)
      {
        Elapse();
        assert (read + [pools[i].live])[..i] == read;
        read := read + [pools[i].live];
        total := total + pools[i].live;
      }
      SumMonotone(read, Lives(pools));
      SumMonotone(old(Lives(pools)), read);
      if env.quiet {
        assert read == Lives(pools);
        assert Views(pools) == old(Views(pools));
      }
    }

    /** The turn of one pool. seen is what was read of it: unless that makes it pass over, it is
        asked for one slot more than it had. */
    method Visit(k: nat) returns (err: bool, ghost seen: PoolView, before: nat, after: nat)
      requires PoolsValid() && k < |pools|
      modifies pools
      ensures PoolsValid() && before <= old(pools[k].live)
      ensures forall j | 0 <= j < |pools| && j != k :: pools[j].live <= old(pools[j].live)
      ensures !err ==> after <= before + 1 && pools[k].live <= if after > before then after else before
      ensures seen.live == before && seen.asked == old(pools[k].asked)
      ensures pools[k].asked == seen.asked + if PassedOver(seen) then [] else [before + 1]
      ensures pools[k].asked == seen.asked <==> before >= seen.desired || seen.wait > 0
      ensures env.quiet ==>
        && (forall j | 0 <= j < |pools| && j != k :: unchanged(pools[j]))
        && seen == old(pools[k].View()) && pools[k].desired == seen.desired
        && (PassedOver(seen) ==> !err && unchanged(pools[k]))
        && (!err ==> pools[k].live == after >= before
                     && (after > before ==> after <= pools[k].desired)
                     && (env.willing ==> PassedOver(seen) || after > before))
    {
      err := false;
      var pool := pools[k];
      Elapse();
      before := pool.live;
      after := before;
      Elapse();
      var desired, wait := pool.desired, pool.wait;
      seen := PoolView(before, desired, wait, pool.asked);
      if before >= desired || wait > 0 {
        return;
      }
      Elapse();
      err := pool.Ensure(env, before + 1);
      if err {
        return;
      }
      Elapse();
      after := pool.live;
    }

    /** What a turn of pool k does. */
    twostate predicate Turned(k: nat, seen: PoolView, gained: nat, err: bool)
      requires k < |pools|
      reads pools
    {
      && gained <= 1 && seen.asked == old(pools[k].asked)
      && pools[k].asked == seen.asked + (if PassedOver(seen) then [] else [seen.live + 1])
      && (!err ==> Sum(Lives(pools)) <= old(Sum(Lives(pools))) + gained)
      && (env.quiet ==>
            && Views(pools) == old(Views(pools))[k := pools[k].View()]
            && seen == old(pools[k].View()) && pools[k].desired == seen.desired
            && (!err ==> pools[k].live == seen.live + gained
                         && Sum(Lives(pools)) == old(Sum(Lives(pools))) + gained
                         && (gained > 0 ==> pools[k].live <= pools[k].desired)
                         && (gained == 0 ==> Stuck(env, Turn(k, seen, 0), pools[k].View()))))
    }

    method VisitAt(k: nat) returns (err: bool, ghost seen: PoolView, gained: nat)
      requires PoolsValid() && k < |pools|
      modifies pools
      ensures PoolsValid() && Turned(k, seen, gained, err)
    {
      hide RoundRobin, Sum, PassedOver, Stuck, Views, Lives;
      ghost var c0, views := Lives(pools), Views(pools);
      var before, after: nat;
      err, seen, before, after := Visit(k);
      ghost var c1 := Lives(pools);
      assert forall j | 0 <= j < |c0| && j != k :: c1[j] <= c0[j];
      VisitSum(c0, c1, k);
      gained := if err || after <= before then 0 else after - before;
      if env.quiet {
        assert Views(pools) == views[k := pools[k].View()];
        assert forall j | 0 <= j < |c0| && j != k :: c1[j] == c0[j];
        QuietVisit(env, k, seen, pools[k].View(), err, after);
      }
    }

    /** One turn: the pool under the cursor is visited, and the cursor moves on. */
    method TakeTurn() returns (err: bool, gained: nat, ghost t: Turn)
      requires Valid() && |pools| > 0
      modifies this, pools
      ensures Valid() && turns == old(turns) + [t] && t.pool == At(|old(turns)|, |pools|) < |pools|
      ensures t.gained == gained && Turned(t.pool, t.seen, gained, err)
    {
      hide RoundRobin, At, Stuck, Sum, Views, Lives;
      ghost var seen;
      TurnAdded(turns, |pools|, Turn(0, PoolView(0, 0, 0, []), 0));
      var k := At(scheduleCursor, |pools|);
      scheduleCursor := At(scheduleCursor + 1, |pools|);
      err, seen, gained := VisitAt(k);
      t := Turn(k, seen, gained);
      TurnAdded(turns, |pools|, t);
      turns := turns + [t];
    }

    /** The turns of a pass that counted total live slots at first. */
    ghost function TurnLimit(total: nat): nat {
      if total < max then (max - total + 1) * |pools| else 0
    }

    /** The turns a pass may still take. */
    ghost function Left(total: nat, idle: nat): int {
      (max - total) * |pools| + |pools| - idle
    }

    lemma LeftFalls(total: nat, idle: nat)
      requires total < max && idle < |pools|
      ensures Left(total, idle + 1) == Left(total, idle) - 1
      ensures 0 <= Left(total + 1, 0) <= Left(total, idle) - 1
      ensures Left(total, idle) >= 1
    {
      BudgetTurn(max - total, |pools|);
    }

    /** The more is live at first, the fewer turns. */
    lemma LimitFalls(a: nat, b: nat)
      requires a <= b
      ensures 0 <= TurnLimit(b) <= TurnLimit(a)
    {
      if b < max {
        MoreTurns(max - b + 1, max - a + 1, |pools|);
      } else if a < max {
        MoreTurns(0, max - a + 1, |pools|);
      }
    }

    /** The turns of a pass that counted all after maintenance, of pools that were first. */
    lemma CountLimits(first: seq<PoolView>, all: nat)
      requires env.quiet ==> Trimmed(first, Views(pools)) && all == Sum(Lives(pools))
      ensures 0 <= TurnLimit(all) <= TurnLimit(0)
      ensures env.quiet ==> TurnLimit(all) <= TurnLimit(Sum(KeepsOf(first)))
    {
      hide TurnLimit, Sum, Lives, Views, KeepsOf, Trimmed;
      LimitFalls(0, all);
      if env.quiet {
        KeptAtLeast(first, Views(pools), Lives(pools));
        LimitFalls(Sum(KeepsOf(first)), all);
      }
    }

    lemma LeftAtFirst(total: nat)
      requires total < max
      ensures Left(total, 0) == TurnLimit(total)
    {
      BudgetTurn(max - total, |pools|);
    }

    lemma LeftIsNatural(total: nat, idle: nat)
      requires total <= max && idle <= |pools|
      ensures Left(total, idle) >= 0
    {
      BudgetTurn(max - total, |pools|);
    }

    /** Between two turns of a pass that counted start live slots at first, when the pools were
        first and turns0 turns had been taken. */
    ghost predicate InPass(first: seq<PoolView>, start: nat, turns0: nat, total: nat, withoutProgress: nat)
      reads this, pools
    {
      && Valid() && total <= max && withoutProgress <= |pools| && withoutProgress <= |turns| - turns0
      && Sum(Lives(pools)) <= total && (env.quiet ==> Sum(Lives(pools)) == total)
      && |turns| - turns0 + Left(total, withoutProgress) <= Left(start, 0)
      && (env.quiet ==> Grew(first, Views(pools)))
      && (env.quiet ==> StreakStands(env, turns, Views(pools), withoutProgress))
    }

    /** The body of the allocation loop, after its cancellation test. */
    method Advance(ghost first: seq<PoolView>, ghost start: nat, ghost turns0: nat, before: nat, idle: nat)
      returns (err: bool, total: nat, withoutProgress: nat)
      requires InPass(first, start, turns0, before, idle) && before < max && idle < |pools|
      modifies this, pools
      ensures Valid() && old(turns) <= turns && |turns| - turns0 <= Left(start, 0)
      ensures !err ==> InPass(first, start, turns0, total, withoutProgress)
      ensures !err ==> 0 <= Left(total, withoutProgress) < Left(before, idle)
    {
      hide Left, StreakStands, RoundRobin, Stuck, At, Grew, Sum;
      total, withoutProgress := before, idle;
      LeftFalls(total, withoutProgress);
      ghost var views, taken := Views(pools), turns;
      ghost var t;
      var gained;
      err, gained, t := TakeTurn();
      if err {
        return;
      }
      if env.quiet {
        GrewOne(first, views, t.pool, pools[t.pool].View());
      }
      if gained == 0 {
        if env.quiet {
          StreakGoesOn(env, taken, views, idle, t, pools[t.pool].View());
        }
        withoutProgress := withoutProgress + 1;
        LeftIsNatural(total, withoutProgress);
      } else {
        total := total + gained;
        withoutProgress := 0;
        NoStreak(env, turns, Views(pools));
      }
    }

    /** The allocation loop, from a total that covers every live slot. It ends within
        (max - total + 1) turns per pool whatever happens meanwhile, and leaves nothing above
        the ceiling. In a quiet environment it leaves the host full or every pool stuck since one
        of these turns. */
    method Allocate(start: nat) returns (err: bool)
      requires Valid() && |pools| > 0 && start < max
      requires Sum(Lives(pools)) <= start && (env.quiet ==> Sum(Lives(pools)) == start)
      modifies this, pools
      ensures Valid() && old(turns) <= turns
      ensures |turns| - |old(turns)| <= TurnLimit(start)
      ensures !err ==> Sum(Lives(pools)) <= max
      ensures env.quiet && !err ==> Grew(old(Views(pools)), Views(pools))
      ensures env.quiet && !err ==> Sum(Lives(pools)) == max || Settled(env, turns, |old(turns)|, Views(pools))
    {
      hide Left, TurnLimit, StreakStands, RoundRobin, Settled, Stuck, At, Grew, Sum, Lives;
      var total: nat, withoutProgress: nat := start, 0;
      ghost var first, turns0 := Views(pools), |turns|;
      NoStreak(env, turns, first);
      GrewNot(first);
      LeftAtFirst(start);
      while total < max && withoutProgress < |pools|
        invariant InPass(first, start, turns0, total, withoutProgress) && old(turns) <= turns
        decreases Left(total, withoutProgress)
      {
        var cancelled: bool := *;
        LeftIsNatural(total, withoutProgress);
        if cancelled {
          err := true;
          return;
        }
        err, total, withoutProgress := Advance(first, start, turns0, total, withoutProgress);
        if err {
          return;
        }
      }
      err := false;
      LeftIsNatural(total, withoutProgress);
      if env.quiet && total < max {
        StreakCovers(env, turns, Views(pools), withoutProgress, turns0);
      }
    }

    /** reconcilePools. The turns it takes are bounded whatever happens. In a quiet environment a
        pass without error takes only the turns that what maintenance keeps allows, and leaves the
        host at or above its maximum, or every pool with its desired count, in backoff, or refused a
        slot in this pass. */
    method ReconcilePools() returns (err: bool)
      requires Valid()
      modifies this, pools
      ensures Valid() && old(turns) <= turns
      ensures |turns| - |old(turns)| <= TurnLimit(0)
      ensures env.quiet && !err ==> |turns| - |old(turns)| <= TurnLimit(Sum(KeepsOf(old(Views(pools)))))
      ensures !err ==> Sum(Lives(pools)) <= NMax(max, old(Sum(Lives(pools))))
      ensures env.quiet && !err ==> Sum(Lives(pools)) >= max || Settled(env, turns, |old(turns)|, Views(pools))
      ensures env.quiet && !err ==> Sum(Lives(pools)) >= max || AllExcused(old(Views(pools)), Views(pools))
      ensures env.quiet && !err ==> Converged(old(Views(pools)), Views(pools))
      ensures env.quiet && env.willing && !err && Modest(old(Views(pools)), max) ==>
        Met(old(Views(pools)), Views(pools))
    {
      hide Converged, Grew, Trimmed, Settled, AllExcused, AskedToKeep, RoundRobin, At, TurnLimit, Modest, Met, Sum,
        Lives, Views, KeepsOf;
      NothingToSettle(env, turns);
      ghost var first, turns0 := Views(pools), |turns|;
      err := Maintain();
      LimitFalls(0, 0);
      if err {
        return;
      }
      ghost var kept := Views(pools);
      var all := Tally();
      GrewNot(kept);
      CountLimits(first, all);
      if all < max && |pools| > 0 {
        err := Allocate(all);
      }
      if env.quiet && !err {
        TrimmedThenGrew(first, kept, Views(pools));
        if Sum(Lives(pools)) < max {
          SettledExcuses(env, turns, turns0, first, kept, Views(pools));
        }
        if env.willing && Modest(first, max) {
          DemandMet(first, turns0);
        }
      }
    }

    lemma DemandMet(first: seq<PoolView>, turns0: nat)
      requires PoolsValid() && env.willing && Modest(first, max) && Converged(first, Views(pools))
      requires Sum(Lives(pools)) >= max || Settled(env, turns, turns0, Views(pools))
      ensures Met(first, Views(pools))
    {
      hide Converged, Modest, Met, Settled;
      assert Lives(pools) == LivesOf(Views(pools));
      MeetsDemand(env, max, first, Views(pools), turns, turns0);
    }

    /** nextRetryWait: the earliest retry that could satisfy unmet demand, zero if there is none. */
    method NextRetryWait() returns (earliest: nat)
      ensures earliest == 0 <==> forall p <- pools :: p.live >= p.desired || p.wait == 0
      ensures earliest > 0 ==> exists p <- pools :: p.live < p.desired && p.wait == earliest
      ensures forall p <- pools :: p.live < p.desired && p.wait > 0 ==> earliest <= p.wait
    {
      earliest := 0;
      for i := 0 to |pools|
        invariant earliest == 0 <==> forall j | 0 <= j < i :: pools[j].live >= pools[j].desired || pools[j].wait == 0
        invariant earliest > 0 ==>
          exists j | 0 <= j < i :: pools[j].live < pools[j].desired && pools[j].wait == earliest
        invariant forall j | 0 <= j < i :: pools[j].live < pools[j].desired && pools[j].wait > 0 ==>
          earliest <= pools[j].wait
      {
        var pool := pools[i];
        if pool.live >= pool.desired {
          continue;
        }
        if pool.wait <= 0 {
          continue;
        }
        if earliest == 0 || pool.wait < earliest {
          earliest := pool.wait;
        }
      }
    }
  }

  ghost function LivesOf(views: seq<PoolView>): (c: seq<nat>)
    ensures |c| == |views| && forall k | 0 <= k < |views| :: c[k] == views[k].live
  {
    seq(|views|, k requires 0 <= k < |views| => views[k].live)
  }

  ghost function DesiresOf(views: seq<PoolView>): (c: seq<nat>)
    ensures |c| == |views| && forall k | 0 <= k < |views| :: c[k] == views[k].desired
  {
    seq(|views|, k requires 0 <= k < |views| => views[k].desired)
  }

  /** No pool has more than it wants, and together they want no more than the host may run. */
  ghost predicate Modest(views: seq<PoolView>, max: nat) {
    (forall k | 0 <= k < |views| :: views[k].live <= views[k].desired) && Sum(DesiresOf(views)) <= max
  }

  /** What maintenance keeps of every pool. */
  ghost function KeepsOf(views: seq<PoolView>): (c: seq<nat>)
    ensures |c| == |views| && forall k | 0 <= k < |views| :: c[k] == Keep(views[k])
  {
    seq(|views|, k requires 0 <= k < |views| => Keep(views[k]))
  }

  lemma KeptAtLeast(first: seq<PoolView>, kept: seq<PoolView>, lives: seq<nat>)
    requires Trimmed(first, kept) && |lives| == |kept| && forall k | 0 <= k < |kept| :: lives[k] == kept[k].live
    ensures Sum(KeepsOf(first)) <= Sum(lives)
  {
    SumMonotone(lives, KeepsOf(first));
  }

  /** A listener's desired count, held to a pool's floor and ceiling. */
  function Clamp(v: int, lo: int, hi: int): int {
    if lo > hi then hi else if v < lo then lo else if v > hi then hi else v
  }

  /** One pool's configured capacity. */
  datatype Capacity = Capacity(floor: int, ceiling: int)

  function FloorSum(pools: seq<Capacity>): int {
    if pools == [] then 0 else FloorSum(pools[..|pools| - 1]) + pools[|pools| - 1].floor
  }

  ghost predicate CapacitiesValid(pools: seq<Capacity>, hostMax: int) {
    && 1 <= hostMax <= HARD_CAP && |pools| > 0
    && (forall k | 0 <= k < |pools| :: 0 <= pools[k].floor <= pools[k].ceiling && 1 <= pools[k].ceiling <= hostMax)
    && FloorSum(pools) <= hostMax
  }

  /** The capacity checks of Validate and validatePool. */
  method ValidateCapacities(pools: seq<Capacity>, hostMax: int) returns (ok: bool)
    ensures ok <==> CapacitiesValid(pools, hostMax)
    ensures ok ==> 1 <= hostMax <= 32 && FloorSum(pools) <= hostMax
    ensures ok ==> forall k | 0 <= k < |pools| ::
      0 <= pools[k].floor <= pools[k].ceiling <= hostMax && pools[k].ceiling >= 1
    ensures !ok ==>
      || hostMax < 1 || hostMax > 32 || pools == [] || FloorSum(pools) > hostMax
      || exists k | 0 <= k < |pools| ::
           pools[k].floor < 0 || pools[k].ceiling < 1 || pools[k].floor > pools[k].ceiling || pools[k].ceiling > hostMax
  {
    ok := 1 <= hostMax && hostMax <= HARD_CAP && |pools| > 0;
    var totalMin := 0;
    for i := 0 to |pools|
      invariant totalMin == FloorSum(pools[..i])
      invariant ok <==>
        && 1 <= hostMax <= HARD_CAP && |pools| > 0
        && forall k | 0 <= k < i :: 0 <= pools[k].floor <= pools[k].ceiling && 1 <= pools[k].ceiling <= hostMax
    {
      assert pools[..i + 1][..i] == pools[..i];
      var pool := pools[i];
      if pool.floor < 0 || pool.ceiling < 1 || pool.floor > pool.ceiling || (hostMax > 0 && pool.ceiling > hostMax) {
        ok := false;
      }
      totalMin := totalMin + pool.floor;
    }
    assert pools[..|pools|] == pools;
    if totalMin > hostMax {
      ok := false;
    }
  }

  /** Validated floors: with no job waiting anywhere every pool wants its floor, and together the
      pools want no more than the host may run. */
  lemma IdleDemandIsModest(views: seq<PoolView>, pools: seq<Capacity>, hostMax: nat)
    requires CapacitiesValid(pools, hostMax) && |views| == |pools|
    requires forall k | 0 <= k < |views| ::
      views[k].live <= views[k].desired == Clamp(0, pools[k].floor, pools[k].ceiling)
    ensures Modest(views, hostMax)
  {
    DesiredIsFloors(views, pools);
  }

  lemma {:induction false} DesiredIsFloors(views: seq<PoolView>, pools: seq<Capacity>)
    requires |views| == |pools| && forall k | 0 <= k < |views| :: views[k].desired == pools[k].floor
    ensures Sum(DesiresOf(views)) == FloorSum(pools)
  {
    if views != [] {
      DesiredIsFloors(views[..|views| - 1], pools[..|pools| - 1]);
      assert DesiresOf(views)[..|views| - 1] == DesiresOf(views[..|views| - 1]);
    }
  }

  /** Every pool has exactly what it wanted. */
  ghost predicate Met(first: seq<PoolView>, last: seq<PoolView>) {
    |last| == |first| && forall k | 0 <= k < |last| :: last[k].live == last[k].desired == first[k].desired
  }

  /** When every start succeeds, modest demand is met exactly. */
  lemma MeetsDemand(env: Env, max: nat, first: seq<PoolView>, last: seq<PoolView>, turns: seq<Turn>, turns0: nat)
    requires env.willing && Modest(first, max) && Converged(first, last)
    requires forall k | 0 <= k < |last| :: last[k].wait == 0
    requires Sum(LivesOf(last)) >= max || Settled(env, turns, turns0, last)
    ensures Met(first, last)
  {
    if Sum(LivesOf(last)) >= max {
      SumTight(DesiresOf(first), LivesOf(last));
      assert forall k | 0 <= k < |last| :: LivesOf(last)[k] == DesiresOf(first)[k];
    } else {
      forall k | 0 <= k < |last| ensures last[k].live >= last[k].desired {
        assert StuckSince(env, turns, turns0, k, last[k]);
        var j :| turns0 <= j < |turns| && turns[j].pool == k && Stuck(env, turns[j], last[k]);
      }
    }
  }

  lemma {:induction false} SumTight(c: seq<nat>, d: seq<nat>)
    requires |c| == |d| && (forall k | 0 <= k < |c| :: d[k] <= c[k]) && Sum(d) >= Sum(c)
    ensures forall k | 0 <= k < |c| :: d[k] == c[k]
  {
    if c != [] {
      SumMonotone(c[..|c| - 1], d[..|d| - 1]);
      SumTight(c[..|c| - 1], d[..|d| - 1]);
    }
  }

  lemma NothingToSettle(env: Env, turns: seq<Turn>)
    ensures Settled(env, turns, |turns|, [])
  {}

  /** A pool that was before: it has what it wants, or is backing off, or its last Ensure, one of
      this pass and not that of maintenance, asked for one slot more than it has. */
  ghost predicate Excused(before: PoolView, now: PoolView) {
    || now.live >= now.desired
    || now.wait > 0
    || (|now.asked| >= |before.asked| + 2 && before.asked <= now.asked && now.asked[|now.asked| - 1] == now.live + 1)
  }

  ghost predicate AllExcused(first: seq<PoolView>, last: seq<PoolView>) {
    |last| == |first| && forall k | 0 <= k < |last| :: Excused(first[k], last[k])
  }

  /** Every pool was asked once, to keep what it should. */
  ghost predicate AskedToKeep(first: seq<PoolView>, last: seq<PoolView>) {
    && |last| == |first|
    && forall k | 0 <= k < |first| ::
         && last[k].asked == first[k].asked + [Keep(first[k])]
         && Keep(first[k]) == if first[k].live < first[k].desired then first[k].live else first[k].desired
  }

  /** What being stuck means for a caller, who sees only the pools before and after the pass. */
  lemma SettledExcuses(env: Env, turns: seq<Turn>, turns0: nat, first: seq<PoolView>, kept: seq<PoolView>,
      last: seq<PoolView>)
    requires Trimmed(first, kept) && AskedToKeep(first, kept) && Grew(kept, last)
    requires Settled(env, turns, turns0, last)
    ensures AllExcused(first, last)
  {
    forall k | 0 <= k < |last| ensures Excused(first[k], last[k]) {
      assert StuckSince(env, turns, turns0, k, last[k]);
      var j :| turns0 <= j < |turns| && turns[j].pool == k && Stuck(env, turns[j], last[k]);
      var p := last[k];
      assert kept[k].asked <= p.asked;
      assert |p.asked| == |kept[k].asked| ==> p.asked[|p.asked| - 1] == Keep(first[k]) <= p.live;
    }
  }

  /** Only surplus is gone. */
  ghost predicate Trimmed(first: seq<PoolView>, last: seq<PoolView>) {
    && |last| == |first|
    && forall k | 0 <= k < |first| ::
         && last[k].desired == first[k].desired
         && Keep(first[k]) <= last[k].live <= first[k].live
  }

  lemma NothingHeld(quiet: bool, first: seq<PoolView>)
    ensures HeldFirst(quiet, first, first, 0)
  {}

  lemma HeldMeans(quiet: bool, first: seq<PoolView>, now: seq<PoolView>, n: nat)
    requires HeldFirst(quiet, first, now, n)
    ensures |now| == |first| && forall k | 0 <= k < |first| :: now[k].live <= first[k].live
    ensures n == |first| ==> forall k | 0 <= k < |first| :: AskedOnce(first[k].asked, now[k].asked, first[k].live)
    ensures quiet ==> Trimmed(first, now)
    ensures quiet && n == |first| ==> AskedToKeep(first, now)
  {}

  lemma TrimmedThenGrew(first: seq<PoolView>, kept: seq<PoolView>, last: seq<PoolView>)
    requires Trimmed(first, kept) && Grew(kept, last)
    ensures Converged(first, last)
  {}

  /** No pool lost a slot or a record of its Ensures, and none grew past its desired count. */
  ghost predicate Grew(first: seq<PoolView>, last: seq<PoolView>) {
    && |last| == |first|
    && forall k | 0 <= k < |first| ::
         && last[k].desired == first[k].desired && first[k].asked <= last[k].asked
         && first[k].live <= last[k].live <= NMax(first[k].live, last[k].desired)
  }

  /** A pool below its desired count kept its slots and did not grow past it; one above lost
      only surplus. */
  ghost predicate Converged(first: seq<PoolView>, last: seq<PoolView>) {
    && |last| == |first|
    && forall k | 0 <= k < |first| ::
         && last[k].desired == first[k].desired
         && Keep(first[k]) <= last[k].live <= NMax(first[k].live, first[k].desired)
  }

  lemma GrewNot(first: seq<PoolView>)
    ensures Grew(first, first)
  {}

  lemma GrewOne(first: seq<PoolView>, views: seq<PoolView>, k: nat, p: PoolView)
    requires Grew(first, views) && k < |views|
    requires p.desired == views[k].desired && views[k].asked <= p.asked
      && views[k].live <= p.live <= NMax(views[k].live, p.desired)
    ensures Grew(first, views[k := p])
  {}

  lemma LastOf(last: nat, k: nat, n: nat)
    requires k < n <= last + 1
    ensures var j := last - (last - k) % n; last - n < j <= last && j % n == k
  {
    if last >= k {
      var d := last - k;
      assert d == d / n * n + d % n;
      DivUnique(last - d % n, n, d / n, k);
    }
  }

  lemma NextTurn(t: nat, n: nat)
    requires n > 0
    ensures (t + 1) % n == (t % n + 1) % n
  {
    var q, r := t / n, t % n;
    assert t == q * n + r;
    if r + 1 < n {
      DivUnique(t + 1, n, q, r + 1);
      DivUnique(r + 1, n, 0, r + 1);
    } else {
      assert (q + 1) * n == q * n + n;
      DivUnique(t + 1, n, q + 1, 0);
      DivUnique(r + 1, n, 1, 0);
    }
  }

  /** The turns still allowed, one slot later. */
  lemma BudgetTurn(m: nat, n: nat)
    ensures m * n >= 0 && (m + 1) * n == m * n + n
    ensures m > 0 ==> (m - 1) * n + n == m * n
  {}

  lemma MoreTurns(a: nat, b: nat, n: nat)
    requires a <= b
    ensures 0 <= a * n <= b * n
  {}

  lemma VisitSum(c0: seq<nat>, c1: seq<nat>, k: nat)
    requires |c0| == |c1| && k < |c0| && forall j | 0 <= j < |c0| && j != k :: c1[j] <= c0[j]
    ensures Sum(c1) <= Sum(c0) - c0[k] + c1[k]
    ensures (forall j | 0 <= j < |c0| && j != k :: c1[j] == c0[j]) ==> Sum(c1) == Sum(c0) - c0[k] + c1[k]
  {
    SumSet(c0, k, c1[k]);
    SumMonotone(c0[k := c1[k]], c1);
    if forall j | 0 <= j < |c0| && j != k :: c1[j] == c0[j] {
      assert c1 == c0[k := c1[k]];
    }
  }
}
