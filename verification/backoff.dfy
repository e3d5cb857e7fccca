/** The exponential backoff of internal/app/pool.go, in nanoseconds. */
module Backoff {

  const SECOND := 1_000_000_000
  const MAX_DELAY := 30 * SECOND
  const RESET_AFTER := 180 * SECOND

  /** after is None before the first failure, where Go holds the zero time. */
  datatype Retry = NoFailure | Retry(delay: int, after: int)

  /** recordAcquireFailure, which reads the clock twice: at now, and then at stored. */
  function Failed(r: Retry, now: int, stored: int): Retry {
    var delay :=
      if r.NoFailure? || now - r.after > RESET_AFTER then SECOND
      else if r.delay * 2 < MAX_DELAY then r.delay * 2
      else MAX_DELAY;
    Retry(delay, stored + delay)
  }

  /** acquireRetryWait */
  function WaitAt(r: Retry, now: int): int {
    if r.NoFailure? || r.after <= now then 0 else r.after - now
  }

  class BackoffTimer {
    var retryDelay: int
    var retryAfter: int
    var armed: bool // retryAfter is not the zero time

    constructor ()
      ensures Valid() && View() == NoFailure
    {
      retryDelay, retryAfter, armed := 0, 0, false;
    }

    predicate Valid()
      reads this
    {
      (armed <==> retryDelay != 0) && (armed ==> Reachable(retryDelay))
    }

    function View(): Retry
      reads this
    {
      if armed then Retry(retryDelay, retryAfter) else NoFailure
    }

    method RecordFailure(now: int, stored: int)
      requires Valid()
      modifies this
      ensures Valid() && View() == Failed(old(View()), now, stored)
    {
      if retryDelay == 0 || now - retryAfter > RESET_AFTER {
        retryDelay := SECOND;
      } else {
        retryDelay := if retryDelay * 2 < MAX_DELAY then retryDelay * 2 else MAX_DELAY;
      }
      retryAfter := stored + retryDelay;
      armed := true;
    }

    method RetryWait(now: int) returns (wait: int)
      requires Valid()
      ensures wait == WaitAt(View(), now)
    {
      wait := if armed && retryAfter - now > 0 then retryAfter - now else 0;
    }
  }

  predicate Reachable(delay: int) {
    delay == SECOND || delay == 2 * SECOND || delay == 4 * SECOND || delay == 8 * SECOND || delay == 16 * SECOND
        || delay == MAX_DELAY
  }

  /** How much time, at 30 seconds a failure, is still to be lost from a delay on. */
  function Potential(delay: int): int {
    if delay == SECOND then 119 * SECOND
    else if delay == 2 * SECOND then 90 * SECOND
    else if delay == 4 * SECOND then 62 * SECOND
    else if delay == 8 * SECOND then 36 * SECOND
    else if delay == 16 * SECOND then 14 * SECOND
    else 0
  }

  // ------------------------------------------------------------------ failures in a row

  /** The timer after these failures, each read at .0 and stored at .1. */
  function After(failures: seq<(int, int)>): Retry {
    if failures == [] then NoFailure
    else var last := failures[|failures| - 1]; Failed(After(failures[..|failures| - 1]), last.0, last.1)
  }

  /** No failure comes more than three minutes after the wait before it is over. */
  ghost predicate InARow(failures: seq<(int, int)>) {
    forall i | 0 < i < |failures| ::
      var before := After(failures[..i]);
      before.Retry? && failures[i].0 - before.after <= 180_000_000_000
  }

  function TwoTo(n: nat): int { if n == 0 then 1 else 2 * TwoTo(n - 1) }

  /** The n-th failure in a row is waited for 2^(n-1) seconds, and never more than thirty. */
  lemma {:induction false} DelaysInARow(failures: seq<(int, int)>)
    requires failures != [] && InARow(failures)
    ensures var r, n := After(failures), |failures| - 1;
      && r == Retry(r.delay, failures[n].1 + r.delay)
      && r.delay == (if TwoTo(n) <= 30 then TwoTo(n) else 30) * 1_000_000_000
    ensures TwoTo(|failures| - 1) >= 1
  {
    var n := |failures| - 1;
    if n > 0 {
      var front := failures[..n];
      assert forall i | 0 < i < n :: front[..i] == failures[..i] && front[i] == failures[i];
      DelaysInARow(front);
      assert failures[..n] == front;
    } else {
      assert failures[..0] == [];
    }
  }

  /** A failure more than three minutes after the wait is over is like the first. */
  lemma QuietResets(r: Retry, now: int, stored: int)
    requires r.Retry? ==> now - r.after > 180_000_000_000
    ensures Failed(r, now, stored) == Retry(1_000_000_000, stored + 1_000_000_000)
  {}

  /** What is left of a wait, at any time after the last failure. */
  lemma WaitInNumbers(failures: seq<(int, int)>, now: int)
    ensures After(failures).NoFailure? ==> WaitAt(After(failures), now) == 0
    ensures After(failures).Retry? ==>
      var over := failures[|failures| - 1].1 + After(failures).delay;
      WaitAt(After(failures), now) == if now < over then over - now else 0
  {}

  // ------------------------------------------------------------------ traces

  /** A launch at a time; or a failure, read at one time and stored at another, which is that of
      the last launch or an extra one. */
  datatype Event = Launch(at: int) | Failure(now: int, stored: int, own: bool)

  /** Events in order of time from clock on: a launch needs an expired wait and no launch whose
      failure is outstanding (pending); every launch is followed by its failure. */
  predicate Legal(r: Retry, clock: int, pending: bool, trace: seq<Event>)
    decreases |trace|
  {
    trace == [] ||
    match trace[0]
    case Launch(at) => clock <= at && !pending && WaitAt(r, at) == 0 && Legal(r, at, true, trace[1..])
    case Failure(now, stored, own) =>
      && clock <= now <= stored && (own ==> pending)
      && Legal(Failed(r, now, stored), stored, pending && !own, trace[1..])
  }

  /** When each launch's own failure was stored. */
  function OwnFailures(trace: seq<Event>): seq<int>
    decreases |trace|
  {
    if trace == [] then []
    else if trace[0].Failure? && trace[0].own then [trace[0].stored] + OwnFailures(trace[1..])
    else OwnFailures(trace[1..])
  }

  /** A state the timer can be in at a time. */
  predicate Timely(r: Retry, clock: int) {
    r.Retry? ==> Reachable(r.delay) && r.after - r.delay <= clock
  }

  /** The last failure was stored no earlier than base plus what the potential still owes; while
      a launch is pending, it and its wait already count as one more period. */
  predicate Owed(r: Retry, clock: int, pending: bool, base: int) {
    r.Retry? &&
    if pending
    then (clock >= r.after && r.after - r.delay >= base - MAX_DELAY + Potential(r.delay))
        || r.after - r.delay >= base + Potential(r.delay)
    else r.after - r.delay >= base + Potential(r.delay)
  }

  lemma FailureOwes(r: Retry, clock: int, pending: bool, base: int, now: int, stored: int)
    requires Timely(r, clock) && Owed(r, clock, pending, base) && clock <= now <= stored
    ensures Timely(Failed(r, now, stored), stored)
    ensures var q := Failed(r, now, stored); q.after - q.delay == stored >= base + Potential(q.delay)
  {}

  /** From a state that owes base on, the k-th own failure comes no earlier than base plus k
      (while a launch is pending, k - 1) periods. */
  lemma {:induction false} OwnFailuresAreSpread(r: Retry, clock: int, pending: bool, trace: seq<Event>, base: int,
      k: nat)
    requires Timely(r, clock) && Owed(r, clock, pending, base) && Legal(r, clock, pending, trace)
    requires k < |OwnFailures(trace)|
    ensures OwnFailures(trace)[k] >= base + (if pending then k else k + 1) * MAX_DELAY
    decreases |trace|
  {
    match trace[0]
    case Launch(at) => OwnFailuresAreSpread(r, at, true, trace[1..], base + MAX_DELAY, k);
    case Failure(now, stored, own) =>
      FailureOwes(r, clock, pending, base, now, stored);
      var q := Failed(r, now, stored);
      if own {
        if k > 0 {
          OwnFailuresAreSpread(q, stored, false, trace[1..], base, k - 1);
        }
      } else {
        OwnFailuresAreSpread(q, stored, pending, trace[1..], base, k);
      }
  }

  /** However the failures fall, extra ones and resets included, N launches that each fail before
      the next starts span at least 30 (N - 1) - 119 seconds. */
  lemma {:induction false} LaunchesAreSpread(r: Retry, clock: int, pending: bool, trace: seq<Event>)
    requires Timely(r, clock) && Legal(r, clock, pending, trace)
    requires |OwnFailures(trace)| > 0
    ensures var own := OwnFailures(trace);
      own[|own| - 1] - own[0] >= 30 * SECOND * (|own| - 1) - 119 * SECOND
    decreases |trace|
  {
    match trace[0]
    case Launch(at) => LaunchesAreSpread(r, at, true, trace[1..]);
    case Failure(now, stored, own) =>
      var q := Failed(r, now, stored);
      if own {
        var rest := OwnFailures(trace[1..]);
        if |rest| > 0 {
          OwnFailuresAreSpread(q, stored, false, trace[1..], stored - Potential(q.delay), |rest| - 1);
        }
      } else {
        LaunchesAreSpread(q, stored, pending && !own, trace[1..]);
      }
  }

  // ------------------------------------------------------------------ no better bound

  /** Launching as soon as the wait ends, and failing at once. */
  function Eager(r: Retry, n: nat): seq<Event>
    requires r.Retry?
    decreases n
  {
    if n == 0 then []
    else [Launch(r.after), Failure(r.after, r.after, true)] + Eager(Failed(r, r.after, r.after), n - 1)
  }

  lemma {:induction false} EagerRun(r: Retry, clock: int, n: nat)
    requires r.Retry? && Timely(r, clock) && clock <= r.after
    ensures Legal(r, clock, false, Eager(r, n)) && |OwnFailures(Eager(r, n))| == n
    ensures n > 0 ==>
      OwnFailures(Eager(r, n)) == [r.after] + OwnFailures(Eager(Failed(r, r.after, r.after), n - 1))
    ensures n > 0 && r.delay == MAX_DELAY ==> OwnFailures(Eager(r, n))[n - 1] == r.after + (n - 1) * MAX_DELAY
    decreases n
  {
    if n > 0 {
      var q := Failed(r, r.after, r.after);
      EagerRun(q, r.after, n - 1);
      var trace := Eager(r, n);
      assert trace[1..][1..] == Eager(q, n - 1);
      assert trace[1] == Failure(r.after, r.after, true);
    }
  }

  lemma EagerLast(r: Retry, n: nat)
    requires r.Retry? && Reachable(r.delay) && n > 1
    ensures var q := Failed(r, r.after, r.after);
      |OwnFailures(Eager(r, n))| == n && |OwnFailures(Eager(q, n - 1))| == n - 1
      && OwnFailures(Eager(r, n))[n - 1] == OwnFailures(Eager(q, n - 1))[n - 2]
  {
    EagerRun(r, r.after - r.delay, n);
    EagerRun(Failed(r, r.after, r.after), r.after, n - 1);
  }

  lemma EagerFromOne(n: nat)
    requires n >= 5
    ensures |OwnFailures(Eager(Retry(SECOND, SECOND), n))| == n
    ensures OwnFailures(Eager(Retry(SECOND, SECOND), n))[n - 1] == n * MAX_DELAY - 119 * SECOND
  {
    hide Eager, OwnFailures;
    EagerLast(Retry(SECOND, SECOND), n);
    EagerLast(Retry(2 * SECOND, 3 * SECOND), n - 1);
    EagerLast(Retry(4 * SECOND, 7 * SECOND), n - 2);
    EagerLast(Retry(8 * SECOND, 15 * SECOND), n - 3);
    if n > 5 {
      EagerLast(Retry(16 * SECOND, 31 * SECOND), n - 4);
      EagerRun(Retry(MAX_DELAY, 61 * SECOND), 31 * SECOND, n - 5);
    } else {
      EagerRun(Retry(16 * SECOND, 31 * SECOND), 15 * SECOND, 1);
    }
  }

  /** A trace of n launches from a fresh timer whose failures span no more than they must. */
  ghost predicate Fastest(trace: seq<Event>, n: nat) {
    && n > 0 && Legal(NoFailure, 0, false, trace) && |OwnFailures(trace)| == n
    && OwnFailures(trace)[n - 1] - OwnFailures(trace)[0] == 30 * SECOND * (n - 1) - 119 * SECOND
  }

  /** A first launch that fails at once, and whatever follows. */
  lemma AfterFirst(rest: seq<Event>)
    requires Legal(Retry(SECOND, SECOND), 0, false, rest)
    ensures var trace := [Launch(0), Failure(0, 0, true)] + rest;
      Legal(NoFailure, 0, false, trace) && OwnFailures(trace) == [0] + OwnFailures(rest)
  {
    var tail := [Failure(0, 0, true)] + rest;
    var trace := [Launch(0), Failure(0, 0, true)] + rest;
    assert tail[1..] == rest && trace[1..] == tail;
    assert Legal(NoFailure, 0, true, tail) && OwnFailures(tail) == [0] + OwnFailures(rest);
  }

  /** From six launches on, the bound is reached exactly. */
  lemma SpreadIsExact(n: nat)
    requires n >= 6
    ensures exists trace :: Fastest(trace, n)
  {
    var r := Retry(SECOND, SECOND);
    EagerRun(r, 0, n - 1);
    EagerFromOne(n - 1);
    var rest := Eager(r, n - 1);
    hide Eager, Legal, OwnFailures;
    AfterFirst(rest);
    assert Fastest([Launch(0), Failure(0, 0, true)] + rest, n);
  }
}
