/** What pruning keeps of a list of archives, internal/logship/retention.go, and what a retry after
    an interruption keeps of the rest. */
module PruneCut {

  /** An owned archive as pruning sees it. */
  datatype Archive = Archive(name: string, created: int, bytes: nat)

  function SumBytes(v: seq<Archive>): nat {
    if v == [] then 0 else v[0].bytes + SumBytes(v[1..])
  }

  lemma SumCons(v: seq<Archive>)
    requires v != []
    ensures SumBytes(v) == v[0].bytes + SumBytes(v[1..])
  {}

  /** A suffix that may stay: none of it expired, and all of it fits. */
  ghost predicate MayStay(v: seq<Archive>, cutoff: int, maxBytes: nat) {
    (forall i | 0 <= i < |v| :: v[i].created >= cutoff) && SumBytes(v) <= maxBytes
  }

  ghost predicate Sorted(v: seq<Archive>) {
    forall i, j | 0 <= i < j < |v| :: v[i].created <= v[j].created
  }

  /** k archives go: what is left may stay, and nothing longer could. */
  ghost predicate IsCut(v: seq<Archive>, cutoff: int, maxBytes: nat, k: nat) {
    && k <= |v| && MayStay(v[k..], cutoff, maxBytes)
    && forall j | 0 <= j < k :: !MayStay(v[j..], cutoff, maxBytes)
  }

  lemma {:induction false} CutExists(v: seq<Archive>, cutoff: int, maxBytes: nat, from: nat) returns (k: nat)
    requires from <= |v| && forall j | 0 <= j < from :: !MayStay(v[j..], cutoff, maxBytes)
    ensures IsCut(v, cutoff, maxBytes, k)
    decreases |v| - from
  {
    if from == |v| {
      assert v[from..] == [];
      k := from;
    } else if MayStay(v[from..], cutoff, maxBytes) {
      k := from;
    } else {
      k := CutExists(v, cutoff, maxBytes, from + 1);
    }
  }

  // ------------------------------------------------------------------ ties

  /** Creation times have a resolution of one second. Archives of the same second come in the order
      the directory lists them, which is not specified and may differ from run to run, and a sort
      that is not stable may change that too. */
  ghost predicate Rearranged(w: seq<Archive>, v: seq<Archive>) {
    Sorted(w) && multiset(w) == multiset(v)
  }

  ghost predicate Named(v: seq<Archive>) {
    forall i, j | 0 <= i < j < |v| :: v[i].name != v[j].name
  }

  ghost function Members(v: seq<Archive>): set<Archive> { set x | x in v }

  /** The size of everything created at t or later. */
  function BytesFrom(v: seq<Archive>, t: int): nat {
    if v == [] then 0 else (if v[0].created >= t then v[0].bytes else 0) + BytesFrom(v[1..], t)
  }

  /** Among archives of one second none fits beside everything newer, unless all of them do. */
  ghost predicate TieSafe(v: seq<Archive>, cutoff: int, maxBytes: nat) {
    forall x <- v | x.created >= cutoff ::
      BytesFrom(v, x.created) <= maxBytes || BytesFrom(v, x.created + 1) + x.bytes > maxBytes
  }

  lemma {:induction false} BytesFromConcat(v: seq<Archive>, w: seq<Archive>, t: int)
    ensures BytesFrom(v + w, t) == BytesFrom(v, t) + BytesFrom(w, t)
  {
    if v == [] {
      assert v + w == w;
    } else {
      assert (v + w)[1..] == v[1..] + w;
      BytesFromConcat(v[1..], w, t);
    }
  }

  function Without(v: seq<Archive>, q: nat): seq<Archive>
    requires q < |v|
  {
    v[..q] + v[q + 1..]
  }

  lemma OneOut(v: seq<Archive>, q: nat, t: int)
    requires q < |v|
    ensures |Without(v, q)| == |v| - 1
    ensures BytesFrom(v, t) == BytesFrom([v[q]], t) + BytesFrom(Without(v, q), t)
    ensures multiset(v) == multiset(Without(v, q)) + multiset{v[q]}
  {
    BytesFromConcat(v[..q], v[q + 1..], t);
    BytesFromConcat([v[q]], v[q + 1..], t);
    BytesFromConcat(v[..q], [v[q]] + v[q + 1..], t);
    assert v == v[..q] + ([v[q]] + v[q + 1..]);
  }

  lemma {:induction false} BytesFromPermuted(v: seq<Archive>, w: seq<Archive>, t: int)
    requires multiset(v) == multiset(w)
    ensures BytesFrom(v, t) == BytesFrom(w, t)
  {
    assert |v| == |multiset(v)| == |w|;
    if v != [] {
      assert v[0] in multiset(w);
      var q :| 0 <= q < |w| && w[q] == v[0];
      OneOut(v, 0, t);
      OneOut(w, q, t);
      hide BytesFrom, Without;
      assert multiset(Without(v, 0)) == multiset(v) - multiset{v[0]};
      assert multiset(Without(w, q)) == multiset(w) - multiset{v[0]};
      BytesFromPermuted(Without(v, 0), Without(w, q), t);
    }
  }

  /** None of v, or all of it. */
  lemma {:induction false} BytesFromBounds(v: seq<Archive>, t: int)
    ensures BytesFrom(v, t) <= SumBytes(v)
    ensures (forall i | 0 <= i < |v| :: v[i].created < t) ==> BytesFrom(v, t) == 0
    ensures (forall i | 0 <= i < |v| :: v[i].created >= t) ==> BytesFrom(v, t) == SumBytes(v)
  {
    if v != [] {
      BytesFromBounds(v[1..], t);
    }
  }

  /** In any order, a suffix is no larger than everything as new as its first archive: equal if
      that comes first in its second. */
  lemma SuffixAtMost(w: seq<Archive>, p: nat)
    requires Sorted(w) && p < |w|
    ensures SumBytes(w[p..]) <= BytesFrom(w, w[p].created)
    ensures (p > 0 ==> w[p - 1].created < w[p].created) ==> SumBytes(w[p..]) == BytesFrom(w, w[p].created)
  {
    hide BytesFrom, SumBytes;
    var t, older, rest := w[p].created, w[..p], w[p..];
    assert w == older + rest;
    assert forall i | 0 <= i < |rest| :: rest[i].created >= t;
    assert (p > 0 ==> w[p - 1].created < t) ==> forall i | 0 <= i < |older| :: older[i].created < t;
    hide Sorted;
    BytesFromConcat(older, rest, t);
    BytesFromBounds(older, t);
    BytesFromBounds(rest, t);
  }

  /** And no smaller than that archive and everything newer: equal if it comes last. */
  lemma SuffixAtLeast(w: seq<Archive>, p: nat)
    requires Sorted(w) && p < |w|
    ensures BytesFrom(w, w[p].created + 1) + w[p].bytes <= SumBytes(w[p..])
    ensures (p + 1 < |w| ==> w[p].created < w[p + 1].created) ==>
      SumBytes(w[p..]) == BytesFrom(w, w[p].created + 1) + w[p].bytes
  {
    hide BytesFrom, SumBytes;
    var t, older, rest := w[p].created + 1, w[..p + 1], w[p + 1..];
    assert w == older + rest && w[p..][1..] == rest;
    SumCons(w[p..]);
    assert forall i | 0 <= i < |older| :: older[i].created < t;
    assert (p + 1 < |w| ==> w[p].created < w[p + 1].created) ==> forall i | 0 <= i < |rest| :: rest[i].created >= t;
    hide Sorted;
    BytesFromConcat(older, rest, t);
    BytesFromBounds(older, t);
    BytesFromBounds(rest, t);
  }

  /** An archive stays exactly if it is not expired and fits with all that come after it. */
  lemma StaysExactly(w: seq<Archive>, cutoff: int, maxBytes: nat, m: nat, p: nat)
    requires Sorted(w) && Named(w) && IsCut(w, cutoff, maxBytes, m) && p < |w|
    ensures w[p] in w[m..] <==> w[p].created >= cutoff && SumBytes(w[p..]) <= maxBytes
  {
    assert w[p] in w[m..] <==> m <= p by {
      if m <= p {
        assert w[m..][p - m] == w[p];
      }
    }
    if m <= p {
      assert w[m..][p - m] == w[p];
      SuffixSmaller(w[m..], p - m);
      assert w[m..][p - m..] == w[p..];
    }
  }

  lemma {:induction false} SuffixSmaller(v: seq<Archive>, p: nat)
    requires p <= |v|
    ensures SumBytes(v[p..]) <= SumBytes(v)
  {
    if p == 0 {
      assert v[0..] == v;
    } else {
      assert v[p..] == v[1..][p - 1..];
      SuffixSmaller(v[1..], p - 1);
    }
  }

  lemma NamedAgain(w: seq<Archive>, v: seq<Archive>)
    requires Named(v) && multiset(w) == multiset(v)
    ensures Named(w)
  {
    forall i, j | 0 <= i < j < |w| ensures w[i].name != w[j].name {
      assert multiset(w)[w[i]] >= (if w[i] == w[j] then 2 else 1) by {
        assert w == w[..j] + [w[j]] + w[j + 1..];
        assert w[..j][i] == w[i];
      }
      OnceEach(v, w[i]);
      assert w[i] in multiset(v) && w[j] in multiset(v);
      var a :| 0 <= a < |v| && v[a] == w[i];
      var b :| 0 <= b < |v| && v[b] == w[j];
    }
  }

  lemma {:induction false} OnceEach(v: seq<Archive>, x: Archive)
    requires Named(v)
    ensures multiset(v)[x] <= 1
  {
    if v != [] {
      OnceEach(v[1..], x);
      assert v == [v[0]] + v[1..];
      forall i | 0 <= i < |v[1..]| ensures v[1..][i] != v[0] {
        assert v[1..][i] == v[i + 1];
      }
    }
  }

  lemma SuffixBetween(w: seq<Archive>, v: seq<Archive>, p: nat)
    requires Rearranged(w, v) && p < |w|
    ensures BytesFrom(v, w[p].created + 1) + w[p].bytes <= SumBytes(w[p..]) <= BytesFrom(v, w[p].created)
  {
    hide BytesFrom, SumBytes;
    SuffixAtMost(w, p);
    SuffixAtLeast(w, p);
    BytesFromPermuted(v, w, w[p].created);
    BytesFromPermuted(v, w, w[p].created + 1);
  }

  /** Without unsafe ties, what stays does not depend on the order. */
  lemma SafeStays(w: seq<Archive>, v: seq<Archive>, cutoff: int, maxBytes: nat, m: nat, x: Archive)
    requires Named(v) && Rearranged(w, v) && TieSafe(v, cutoff, maxBytes) && IsCut(w, cutoff, maxBytes, m)
    ensures x in w[m..] <==> x in v && x.created >= cutoff && BytesFrom(v, x.created) <= maxBytes
  {
    hide MayStay, BytesFrom, SumBytes, Sorted, Named;
    assert x in v <==> x in multiset(w);
    if x in w {
      var p :| 0 <= p < |w| && w[p] == x;
      NamedAgain(w, v);
      StaysExactly(w, cutoff, maxBytes, m, p);
      SuffixBetween(w, v, p);
    }
  }

  /** x sorted before, or after, all others of its second. */
  lemma {:induction false} SortedFirst(v: seq<Archive>, p: nat) returns (w: seq<Archive>, q: nat)
    requires Sorted(v) && p < |v|
    ensures Rearranged(w, v) && q < |w| && w[q] == v[p]
    ensures q > 0 ==> w[q - 1].created < w[q].created
    decreases p
  {
    if p == 0 || v[p - 1].created < v[p].created {
      w, q := v, p;
    } else {
      var u := Swapped(v, p - 1);
      w, q := SortedFirst(u, p - 1);
    }
  }

  /** Two neighbours of the same second trade places. */
  lemma Swapped(v: seq<Archive>, p: nat) returns (u: seq<Archive>)
    requires Sorted(v) && p + 1 < |v| && v[p].created == v[p + 1].created
    ensures Rearranged(u, v) && |u| == |v| && u[p] == v[p + 1] && u[p + 1] == v[p]
  {
    u := v[p := v[p + 1]][p + 1 := v[p]];
  }

  lemma {:induction false} SortedLast(v: seq<Archive>, p: nat) returns (w: seq<Archive>, q: nat)
    requires Sorted(v) && p < |v|
    ensures Rearranged(w, v) && q < |w| && w[q] == v[p]
    ensures q + 1 < |w| ==> w[q].created < w[q + 1].created
    decreases |v| - p
  {
    if p == |v| - 1 || v[p].created < v[p + 1].created {
      w, q := v, p;
    } else {
      var u := Swapped(v, p);
      w, q := SortedLast(u, p + 1);
    }
  }

  /** An unsafe tie: one order keeps the archive and another does not. */
  lemma UnsafeTie(v: seq<Archive>, cutoff: int, maxBytes: nat, p: nat)
      returns (w: seq<Archive>, m: nat, u: seq<Archive>, n: nat)
    requires Sorted(v) && Named(v) && p < |v| && v[p].created >= cutoff
    requires BytesFrom(v, v[p].created + 1) + v[p].bytes <= maxBytes < BytesFrom(v, v[p].created)
    ensures Rearranged(w, v) && IsCut(w, cutoff, maxBytes, m) && v[p] !in w[m..]
    ensures Rearranged(u, v) && IsCut(u, cutoff, maxBytes, n) && v[p] in u[n..]
  {
    hide MayStay, BytesFrom, SumBytes, Sorted, Named;
    var q, r;
    w, q := SortedFirst(v, p);
    u, r := SortedLast(v, p);
    m := CutExists(w, cutoff, maxBytes, 0);
    n := CutExists(u, cutoff, maxBytes, 0);
    NamedAgain(w, v);
    NamedAgain(u, v);
    StaysExactly(w, cutoff, maxBytes, m, q);
    StaysExactly(u, cutoff, maxBytes, n, r);
    SuffixAtMost(w, q);
    SuffixAtLeast(u, r);
    BytesFromPermuted(v, w, v[p].created);
    BytesFromPermuted(v, u, v[p].created + 1);
  }

  /** Every order of the same archives keeps kept. */
  ghost predicate AllKeep(v: seq<Archive>, cutoff: int, maxBytes: nat, kept: set<Archive>) {
    forall w, m: nat | Rearranged(w, v) && IsCut(w, cutoff, maxBytes, m) :: Members(w[m..]) == kept
  }

  /** All orders keep the same if and only if there is no unsafe tie. */
  lemma OrdersAgree(v: seq<Archive>, cutoff: int, maxBytes: nat, k: nat)
    requires Sorted(v) && Named(v) && IsCut(v, cutoff, maxBytes, k)
    ensures AllKeep(v, cutoff, maxBytes, Members(v[k..])) <==> TieSafe(v, cutoff, maxBytes)
  {
    hide MayStay, BytesFrom, Sorted, Named;
    if TieSafe(v, cutoff, maxBytes) {
      forall w, m: nat | Rearranged(w, v) && IsCut(w, cutoff, maxBytes, m) ensures Members(w[m..]) == Members(v[k..]) {
        forall x: Archive ensures x in w[m..] <==> x in v[k..] {
          SafeStays(w, v, cutoff, maxBytes, m, x);
          SafeStays(v, v, cutoff, maxBytes, k, x);
        }
      }
    } else {
      var x :| x in v && x.created >= cutoff
          && BytesFrom(v, x.created + 1) + x.bytes <= maxBytes < BytesFrom(v, x.created);
      var p :| 0 <= p < |v| && v[p] == x;
      var w, m, u, n := UnsafeTie(v, cutoff, maxBytes, p);
      assert x in Members(u[n..]) && x !in Members(w[m..]);
    }
  }

  ghost predicate TimesDiffer(v: seq<Archive>) {
    forall i, j | 0 <= i < j < |v| :: v[i].created != v[j].created
  }

  lemma NoTieAt(v: seq<Archive>, p: nat)
    requires Sorted(v) && TimesDiffer(v) && p < |v|
    ensures BytesFrom(v, v[p].created) == BytesFrom(v, v[p].created + 1) + v[p].bytes
  {
    hide BytesFrom, SumBytes;
    assert p > 0 ==> v[p - 1].created < v[p].created;
    assert p + 1 < |v| ==> v[p].created < v[p + 1].created;
    SuffixAtMost(v, p);
    SuffixAtLeast(v, p);
  }

  lemma NoTies(v: seq<Archive>, cutoff: int, maxBytes: nat)
    requires Sorted(v) && TimesDiffer(v)
    ensures TieSafe(v, cutoff, maxBytes)
  {
    hide BytesFrom;
    forall x <- v | x.created >= cutoff
      ensures BytesFrom(v, x.created) <= maxBytes || BytesFrom(v, x.created + 1) + x.bytes > maxBytes
    {
      var p :| 0 <= p < |v| && v[p] == x;
      NoTieAt(v, p);
    }
  }

  // ------------------------------------------------------------------ retrying

  /** A later cutoff only lets less stay. */
  lemma LaterCutoff(v: seq<Archive>, was: int, cutoff: int, maxBytes: nat, k: nat, j: nat)
    requires was <= cutoff && IsCut(v, cutoff, maxBytes, k) && j <= |v|
    requires forall i | 0 <= i < j :: !MayStay(v[i..], was, maxBytes)
    ensures j <= k
  {
    assert MayStay(v[k..], was, maxBytes);
  }

  lemma CutOfRest(v: seq<Archive>, cutoff: int, maxBytes: nat, k: nat, j: nat)
    requires IsCut(v, cutoff, maxBytes, k) && j <= k
    ensures IsCut(v[j..], cutoff, maxBytes, k - j) && v[j..][k - j..] == v[k..]
  {
    forall i | 0 <= i < k - j ensures !MayStay(v[j..][i..], cutoff, maxBytes) {
      assert v[j..][i..] == v[j + i..];
    }
  }

  /** Stopping after j archives and retrying, now or later, ends as one uninterrupted run at that
      later time would have, however archives of the same second are sorted, if and only if there
      is no unsafe tie among those left; in particular if all creation times differ. */
  lemma RetryAfterStop(v: seq<Archive>, was: int, cutoff: int, maxBytes: nat, k: nat, j: nat)
    requires Sorted(v) && Named(v) && was <= cutoff && IsCut(v, cutoff, maxBytes, k) && j <= |v|
    requires forall i | 0 <= i < j :: !MayStay(v[i..], was, maxBytes)
    ensures AllKeep(v[j..], cutoff, maxBytes, Members(v[k..])) <==> TieSafe(v[j..], cutoff, maxBytes)
    ensures TimesDiffer(v) ==> TieSafe(v[j..], cutoff, maxBytes)
  {
    LaterCutoff(v, was, cutoff, maxBytes, k, j);
    CutOfRest(v, cutoff, maxBytes, k, j);
    RestIsSorted(v, j);
    hide IsCut, MayStay, TieSafe, AllKeep, Sorted, Named, TimesDiffer, Members;
    OrdersAgree(v[j..], cutoff, maxBytes, k - j);
    if TimesDiffer(v) {
      NoTies(v[j..], cutoff, maxBytes);
    }
  }

  lemma RestIsSorted(v: seq<Archive>, j: nat)
    requires Sorted(v) && Named(v) && j <= |v|
    ensures Sorted(v[j..]) && Named(v[j..]) && (TimesDiffer(v) ==> TimesDiffer(v[j..]))
  {}

  /** What is left of v when its archive j was left with so many bytes. */
  function PartLeft(v: seq<Archive>, j: nat, bytes: nat): seq<Archive>
    requires j < |v|
  {
    [v[j].(bytes := bytes)] + v[j + 1..]
  }

  lemma CutOfPart(v: seq<Archive>, cutoff: int, maxBytes: nat, k: nat, j: nat, bytes: nat)
    requires Sorted(v) && IsCut(v, cutoff, maxBytes, k) && j < k
    ensures var rest := PartLeft(v, j, bytes);
      if v[j].created >= cutoff && SumBytes(rest) <= maxBytes
      then IsCut(rest, cutoff, maxBytes, 0)
      else IsCut(rest, cutoff, maxBytes, k - j) && rest[k - j..] == v[k..]
  {
    var rest := PartLeft(v, j, bytes);
    assert rest[0..] == rest;
    assert rest[k - j..] == v[k..];
    forall i | 0 < i < k - j ensures !MayStay(rest[i..], cutoff, maxBytes) {
      assert rest[i..] == v[j + i..];
    }
    if v[j].created >= cutoff && SumBytes(rest) <= maxBytes {
      assert forall i | 0 <= i < |rest| :: rest[i].created >= cutoff;
    }
  }

  /** Stopping within archive j leaves part of it, and a retry may then keep it: exactly if it is
      not expired and, at its reduced size, fits with everything newer; and then everything left
      stays. Otherwise the retry ends as the uninterrupted run would have. This holds, however
      archives of the same second are sorted, if and only if there is no unsafe tie among those
      left; in particular if the part-emptied archive stays, or if all creation times differ. */
  lemma RetryAfterPartial(v: seq<Archive>, was: int, cutoff: int, maxBytes: nat, k: nat, j: nat, bytes: nat)
    requires Sorted(v) && Named(v) && was <= cutoff && IsCut(v, cutoff, maxBytes, k) && j < |v|
    requires forall i | 0 <= i <= j :: !MayStay(v[i..], was, maxBytes)
    ensures var rest := PartLeft(v, j, bytes);
      var stays := v[j].created >= cutoff && SumBytes(rest) <= maxBytes;
      && (AllKeep(rest, cutoff, maxBytes, if stays then Members(rest) else Members(v[k..])) <==>
          TieSafe(rest, cutoff, maxBytes))
      && (stays || TimesDiffer(v) ==> TieSafe(rest, cutoff, maxBytes))
      && (stays ==> bytes < v[j].bytes)
  {
    LaterCutoff(v, was, cutoff, maxBytes, k, j + 1);
    CutOfPart(v, cutoff, maxBytes, k, j, bytes);
    PartIsSorted(v, j, bytes);
    var rest := PartLeft(v, j, bytes);
    var stays := v[j].created >= cutoff && SumBytes(rest) <= maxBytes;
    hide IsCut, MayStay, TieSafe, AllKeep, Sorted, Named, TimesDiffer, PartLeft, Members, SumBytes;
    assert rest[0..] == rest;
    OrdersAgree(rest, cutoff, maxBytes, if stays then 0 else k - j);
    if TimesDiffer(v) {
      NoTies(rest, cutoff, maxBytes);
    }
    if stays {
      AllFit(rest, cutoff, maxBytes);
      StaysShrunk(v, was, cutoff, maxBytes, j, bytes);
    }
  }

  lemma PartIsSorted(v: seq<Archive>, j: nat, bytes: nat)
    requires Sorted(v) && Named(v) && j < |v|
    ensures Sorted(PartLeft(v, j, bytes)) && Named(PartLeft(v, j, bytes))
    ensures TimesDiffer(v) ==> TimesDiffer(PartLeft(v, j, bytes))
  {}

  lemma AllFit(v: seq<Archive>, cutoff: int, maxBytes: nat)
    requires SumBytes(v) <= maxBytes
    ensures TieSafe(v, cutoff, maxBytes)
  {
    forall x <- v ensures BytesFrom(v, x.created) <= maxBytes {
      BytesFromBounds(v, x.created);
    }
  }

  lemma StaysShrunk(v: seq<Archive>, was: int, cutoff: int, maxBytes: nat, j: nat, bytes: nat)
    requires Sorted(v) && j < |v| && !MayStay(v[j..], was, maxBytes) && was <= cutoff
    requires v[j].created >= cutoff && SumBytes(PartLeft(v, j, bytes)) <= maxBytes
    ensures bytes < v[j].bytes
  {
    assert PartLeft(v, j, bytes)[1..] == v[j + 1..] == v[j..][1..];
    forall i | 0 <= i < |v[j..]| ensures v[j..][i].created >= cutoff {
      assert v[j..][i] == v[j + i];
    }
  }

  lemma CutLater(v: seq<Archive>, cutoff: int, maxBytes: nat, k: nat)
    requires |v| > 0 && !MayStay(v, cutoff, maxBytes) && IsCut(v[1..], cutoff, maxBytes, k)
    ensures IsCut(v, cutoff, maxBytes, k + 1) && v[k + 1..] == v[1..][k..]
  {
    assert v[0..] == v;
    forall j | 0 <= j < k + 1 ensures !MayStay(v[j..], cutoff, maxBytes) {
      assert j > 0 ==> v[j..] == v[1..][j - 1..];
    }
  }

  lemma CutNow(v: seq<Archive>, cutoff: int, maxBytes: nat)
    requires MayStay(v, cutoff, maxBytes)
    ensures IsCut(v, cutoff, maxBytes, 0) && v[0..] == v
  {
    assert v[0..] == v;
  }

  /** Such a part-emptied archive is kept: 60 + 50 bytes under a limit of 100, the older archive
      interrupted when it is down to 40. */
  lemma PartialCanStay()
    ensures var v := [Archive("a", 1, 60), Archive("b", 2, 50)];
      IsCut(v, 0, 100, 1) && IsCut(PartLeft(v, 0, 40), 0, 100, 0)
  {
    var v := [Archive("a", 1, 60), Archive("b", 2, 50)];
    var w := PartLeft(v, 0, 40);
    var rest := [Archive("b", 2, 50)];
    assert v[1..] == rest && w[1..] == rest && rest[1..] == [];
    assert SumBytes(rest) == 50;
    assert SumBytes(v) == 60 + SumBytes(v[1..]) && SumBytes(w) == 40 + SumBytes(w[1..]);
    hide SumBytes, IsCut;
    CutNow(w, 0, 100);
    CutNow(rest, 0, 100);
    CutLater(v, 0, 100, 0);
  }

  /** Three archives of one second, of 10, 100 and 10 bytes, under a limit of 100: an uninterrupted
      run removes the first two. A retry after the first that gets the other two the other way round,
      as the directory now lists them, keeps the second, and not the third. */
  lemma TiesCanDiffer()
    ensures var a, b, c := Archive("a", 1, 10), Archive("b", 1, 100), Archive("c", 1, 10);
      && IsCut([a, b, c], 0, 100, 2) && [a, b, c][2..] == [c]
      && Rearranged([c, b], [a, b, c][1..]) && IsCut([c, b], 0, 100, 1) && [c, b][1..] == [b]
  {
    var a, b, c := Archive("a", 1, 10), Archive("b", 1, 100), Archive("c", 1, 10);
    assert [a, b, c][1..] == [b, c] && [b, c][1..] == [c] && [c, b][1..] == [b];
    TieCuts(a, b, c);
    assert multiset([c, b]) == multiset([b, c]);
  }

  lemma TieCuts(a: Archive, b: Archive, c: Archive)
    requires a == Archive("a", 1, 10) && b == Archive("b", 1, 100) && c == Archive("c", 1, 10)
    ensures IsCut([a, b, c], 0, 100, 2) && IsCut([c, b], 0, 100, 1)
  {
    assert [a, b, c][1..] == [b, c] && [b, c][1..] == [c] && [c, b][1..] == [b] && [c][1..] == [b][1..] == [];
    assert SumBytes([]) == 0;
    hide SumBytes, IsCut;
    SumCons([c]);
    SumCons([b]);
    SumCons([b, c]);
    SumCons([c, b]);
    SumCons([a, b, c]);
    CutNow([c], 0, 100);
    CutNow([b], 0, 100);
    CutLater([b, c], 0, 100, 0);
    CutLater([c, b], 0, 100, 0);
    CutLater([a, b, c], 0, 100, 1);
  }
}
