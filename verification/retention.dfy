/** Pruning of diagnostic archives, internal/logship/retention.go. */
module Retention {
  import opened ArchiveTree
  import opened Basics
  import opened PruneCut
  import opened Digits
  import Logship

  const MAX_INT64 := 0x7fff_ffff_ffff_ffff

  // ------------------------------------------------------------------ measuring

  datatype Sized = Size(bytes: int) | TooDeep | Overflow | Fault

  /** directoryBytes: the exact size of a tree, unless it is too deep, too large, or a file
      operation fails. */
  method DirectoryBytes(es: Entries, depth: nat, mayFail: bool) returns (r: Sized)
    ensures r.Fault? ==> mayFail
    ensures r.Size? ==> r.bytes == Bytes(es) <= MAX_INT64 && depth + Levels(es) <= MAX_DEPTH
    ensures r.TooDeep? ==> depth + Levels(es) > MAX_DEPTH
    ensures r.Overflow? ==> Bytes(es) > MAX_INT64
    decreases es
  {
    if depth > MAX_DEPTH {
      return TooDeep;
    }
    var size, todo := 0, es;
    while todo.Entry?
      invariant todo == es || todo < es
      invariant 0 <= size <= MAX_INT64 && size + Bytes(todo) == Bytes(es)
      invariant Levels(todo) <= Levels(es)
      invariant depth + Levels(todo) <= MAX_DEPTH ==> depth + Levels(es) <= MAX_DEPTH
      decreases todo
    {
      var works := Succeeds(mayFail);
      if !works {
        return Fault;
      }
      var bytes := 0;
      match todo.node {
        case File(data, _) => bytes := |data|;
        case Dir(sub) =>
          var below := DirectoryBytes(sub, depth + 1, mayFail);
          if !below.Size? {
            return below;
          }
          bytes := below.bytes;
        case Special =>
      }
      if bytes < 0 || bytes > MAX_INT64 - size {
        return Overflow;
      }
      size := size + bytes;
      todo := todo.rest;
    }
    return Size(size);
  }

  /** A published archive, within the limits of publication, is measured exactly, to the byte,
      unless a file operation fails. */
  method MeasurePublished(es: Entries, mayFail: bool) returns (r: Sized)
    requires Bytes(Published(es)) <= MAX_BYTES && Levels(Published(es)) <= MAX_DEPTH
    ensures (r.Fault? && mayFail) || r == Size(|MARKER_CONTENT| + Bytes(Kept(es, true)))
  {
    r := DirectoryBytes(Published(es), 0, mayFail);
    assert Bytes(Published(es)) == NodeBytes(File(MARKER_CONTENT, 1)) + Bytes(Kept(es, true));
  }

  // ------------------------------------------------------------------ removing

  /** a is what an interrupted removal can leave of b: some entries gone, some subtrees partly. */
  predicate Remains(a: Entries, b: Entries) {
    match b
    case Nil => a.Nil?
    case Entry(name, node, rest) =>
      || Remains(a, rest)
      || (a.Entry? && a.name == name && NodeRemains(a.node, node) && Remains(a.rest, rest))
  }

  predicate NodeRemains(a: Node, b: Node) {
    a == b || (a.Dir? && b.Dir? && Remains(a.entries, b.entries))
  }

  lemma {:induction false} RemainsSelf(es: Entries)
    ensures Remains(es, es)
  {
    if es.Entry? {
      RemainsSelf(es.rest);
    }
  }

  lemma {:induction false} NothingRemains(es: Entries)
    ensures Remains(Nil, es)
  {
    if es.Entry? {
      NothingRemains(es.rest);
    }
  }

  datatype Removal = Done | Cancelled | Faulted

  /** The entries of the marker's name. */
  function Markers(es: Entries): Entries {
    match es
    case Nil => Nil
    case Entry(name, node, rest) => if name == ARCHIVE_MARKER then Entry(name, node, Markers(rest)) else Markers(rest)
  }

  lemma {:induction false} MarkersRemain(es: Entries)
    ensures Remains(Markers(es), es) && (HasName(Markers(es), ARCHIVE_MARKER) <==> HasName(es, ARCHIVE_MARKER))
  {
    if es.Entry? {
      MarkersRemain(es.rest);
    }
  }

  /** The loop of removeTree over a directory's entries. */
  method RemoveEntries(es: Entries, keepMarker: bool, mayFail: bool) returns (r: Removal, left: Entries)
    ensures !mayFail ==> r == Done
    ensures Remains(left, es)
    ensures r == Done ==> left == if keepMarker then Markers(es) else Nil
    ensures keepMarker && HasName(es, ARCHIVE_MARKER) ==> HasName(left, ARCHIVE_MARKER)
    decreases es
  {
    match es
    case Nil => return Done, Nil;
    case Entry(name, node, rest) =>
      RemainsSelf(es);
      if keepMarker && name == ARCHIVE_MARKER {
        var below;
        r, below := RemoveEntries(rest, keepMarker, mayFail);
        left := Entry(name, node, below);
      } else {
        var goesOn := Succeeds(mayFail);
        var works := Succeeds(mayFail);
        if !goesOn {
          return Cancelled, es;
        }
        if !works {
          return Faulted, es;
        }
        if node.Dir? {
          var inner;
          r, inner := RemoveEntries(node.entries, false, mayFail);
          if r == Done {
            goesOn := Succeeds(mayFail);
            works := Succeeds(mayFail);
            if !goesOn {
              r := Cancelled;
            } else if !works {
              r := Faulted;
            }
          }
          if r != Done {
            RemainsSelf(rest);
            return r, Entry(name, Dir(inner), rest);
          }
        }
        r, left := RemoveEntries(rest, keepMarker, mayFail);
      }
  }

  /** Seconds since the beginning of year 0. */
  function Moment(t: Logship.Stamp): nat {
    ((DaysBefore(t.year, t.month) + t.day) * 24 + t.hour) * 3600 + t.minute * 60 + t.second
  }

  function DaysBefore(year: nat, month: nat): nat {
    if month > 1 then DaysBefore(year, month - 1) + Logship.DaysIn(year, month - 1)
    else if year > 0 then DaysBefore(year - 1, 12) + 31
    else 0
  }

  lemma {:induction false} MonthsInOrder(y: nat, m: nat, z: nat, n: nat)
    requires 1 <= m <= 12 && 1 <= n <= 12 && (y < z || (y == z && m < n))
    ensures DaysBefore(y, m) + Logship.DaysIn(y, m) <= DaysBefore(z, n)
    decreases z, n
  {
    if n > 1 {
      if y < z || m < n - 1 {
        MonthsInOrder(y, m, z, n - 1);
      }
    } else if y < z - 1 || m < 12 {
      MonthsInOrder(y, m, z - 1, 12);
    }
  }

  predicate Earlier(t: Logship.Stamp, u: Logship.Stamp) {
    if t.year != u.year then t.year < u.year
    else if t.month != u.month then t.month < u.month
    else if t.day != u.day then t.day < u.day
    else if t.hour != u.hour then t.hour < u.hour
    else if t.minute != u.minute then t.minute < u.minute
    else t.second < u.second
  }

  /** Creation times are ordered by year, month, day, hour, minute and second. */
  lemma MomentsInOrder(t: Logship.Stamp, u: Logship.Stamp)
    requires t.Valid() && u.Valid()
    ensures Moment(t) < Moment(u) <==> Earlier(t, u)
  {
    if t.year != u.year || t.month != u.month {
      if t.year < u.year || (t.year == u.year && t.month < u.month) {
        MonthsInOrder(t.year, t.month, u.year, u.month);
      } else {
        MonthsInOrder(u.year, u.month, t.year, t.month);
      }
    }
  }

  /** The next second, carried over minutes, hours, days, months and years. */
  function NextSecond(t: Logship.Stamp): Logship.Stamp {
    if t.second < 59 then t.(second := t.second + 1)
    else if t.minute < 59 then t.(minute := t.minute + 1, second := 0)
    else if t.hour < 23 then t.(hour := t.hour + 1, minute := 0, second := 0)
    else if t.day < Logship.DaysIn(t.year, t.month) then t.(day := t.day + 1, hour := 0, minute := 0, second := 0)
    else if t.month < 12 then t.(month := t.month + 1, day := 1, hour := 0, minute := 0, second := 0)
    else Logship.Stamp(t.year + 1, 1, 1, 0, 0, 0)
  }

  /** Moments count seconds. */
  lemma MomentsAreSeconds(t: Logship.Stamp)
    requires t.Valid()
    ensures Moment(NextSecond(t)) == Moment(t) + 1
  {
    if t.month < 12 {
      assert DaysBefore(t.year, t.month + 1) == DaysBefore(t.year, t.month) + Logship.DaysIn(t.year, t.month);
    } else {
      assert DaysBefore(t.year + 1, 1) == DaysBefore(t.year, 12) + 31;
    }
  }

  /** The calendar: 365 days a year and one more in leap years, by February. */
  lemma YearsInDays(year: nat)
    ensures var leap := (year % 4 == 0 && year % 100 != 0) || year % 400 == 0;
      && DaysBefore(year + 1, 1) - DaysBefore(year, 1) == 365 + (if leap then 1 else 0)
      && Logship.DaysIn(year, 2) == (if leap then 29 else 28)
      && forall month | 1 <= month <= 12 && month != 2 ::
           Logship.DaysIn(year, month) == if month in {4, 6, 9, 11} then 30 else 31
  {
    assert DaysBefore(year, 2) == DaysBefore(year, 1) + 31;
    assert DaysBefore(year, 3) == DaysBefore(year, 2) + Logship.DaysIn(year, 2);
    assert DaysBefore(year, 5) == DaysBefore(year, 4) + 30 == DaysBefore(year, 3) + 61;
    assert DaysBefore(year, 7) == DaysBefore(year, 6) + 30 == DaysBefore(year, 5) + 61;
    assert DaysBefore(year, 9) == DaysBefore(year, 8) + 31 == DaysBefore(year, 7) + 62;
    assert DaysBefore(year, 11) == DaysBefore(year, 10) + 31 == DaysBefore(year, 9) + 61;
    assert DaysBefore(year, 12) == DaysBefore(year, 11) + 30;
  }

  /** A stamp of the right shape that is no date: its month is the thirteenth. */
  const NO_DATE := "2026" + "13" + "01" + "T" + "00" + "00" + "00" + "Z"

  /** A name of the right shape can have no creation time. */
  lemma ShapedButNoDate(id: string, rest: string)
    requires Logship.ArchiveID(id) && rest != "" && forall i | 0 <= i < |rest| :: Logship.Plain(rest[i])
    ensures var name := Logship.ARCHIVE_PREFIX + NO_DATE + "-" + id + "-" + rest;
      Logship.MatchesPattern(name) && Logship.CreatedOf(name).None?
  {
    Logship.StampParts("2026", "13", "01", "00", "00", "00");
    assert AllDigits("2026") && AllDigits("13") && AllDigits("01") && AllDigits("00");
    Thirteen();
    Logship.ShapedName(NO_DATE, id, rest);
  }

  lemma Thirteen()
    ensures AllDigits("13") && Number("13") == 13
  {
    var month := "13";
    assert month[..1] == [month[0]];
    assert Number([month[0]]) == 10 * Number([month[0]][..0]) + 1;
  }

  const SECOND := 1_000_000_000

  /** One directory. owned: private, and with a valid marker. */
  class ArchiveDir {
    const name: string
    const owned: bool
    var content: Entries
    var present: bool

    constructor (name: string, owned: bool, content: Entries)
      ensures this.name == name && this.owned == owned && this.content == content && present
    {
      this.name, this.owned, this.content, present := name, owned, content, true;
    }

    predicate Eligible() { owned && Logship.MatchesPattern(name) }

    /** The creation time in its name, in nanoseconds. */
    function Created(): (created: Option<int>)
      requires Eligible()
      ensures created.Some? <==> Logship.CreatedOf(name).Some?
      ensures created.Some? ==> created.value == Moment(Logship.CreatedOf(name).value) * 1_000_000_000
    {
      var t := Logship.CreatedOf(name);
      if t.Some? then Some(Moment(t.value) * SECOND) else None
    }

    predicate Marked()
      reads this
    {
      present && HasName(content, ARCHIVE_MARKER)
    }

    /** removeTree of a whole archive: the marker goes last, and between its removal and the
        directory's there is no cancellation. */
    method Remove(mayFail: bool) returns (r: Removal)
      requires Marked()
      modifies this
      ensures (r == Done <==> !present) && (!mayFail ==> r == Done)
      ensures r != Done ==> Remains(content, old(content))
      ensures r == Cancelled ==> Marked()
      ensures r == Faulted ==> Marked() || content == Nil
    {
      RemainsSelf(content);
      MarkersRemain(content);
      var goesOn := Succeeds(mayFail);
      if !goesOn {
        return Cancelled;
      }
      var left;
      r, left := RemoveEntries(content, true, mayFail);
      content := left;
      if r != Done {
        return;
      }
      goesOn := Succeeds(mayFail);
      if !goesOn {
        return Cancelled;
      }
      var works := Succeeds(mayFail);
      if !works {
        return Faulted;
      }
      content := Nil;
      NothingRemains(old(content));
      works := Succeeds(mayFail);
      if !works {
        return Faulted;
      }
      present := false;
    }
  }

  // ------------------------------------------------------------------ Prune

  /** One archive of the inventory, with its creation time and measured size. */
  datatype Found = Found(dir: ArchiveDir, created: int, bytes: nat)

  ghost function Items(found: seq<Found>): (v: seq<Archive>)
    ensures |v| == |found| && forall i | 0 <= i < |v| ::
      v[i] == Archive(found[i].dir.name, found[i].created, found[i].bytes)
  {
    seq(|found|, i requires 0 <= i < |found| => Archive(found[i].dir.name, found[i].created, found[i].bytes))
  }

  ghost predicate Distinct(found: seq<Found>) {
    forall i, j | 0 <= i < j < |found| :: found[i].dir != found[j].dir
  }

  /** A rearrangement, the archives being distinct. */
  ghost predicate SameArchives(a: seq<Found>, b: seq<Found>) {
    |a| == |b| && (forall f <- a :: f in b) && (forall f <- b :: f in a)
  }

  ghost predicate InOrder(found: seq<Found>) {
    forall i, j | 0 <= i < j < |found| :: found[i].created <= found[j].created
  }

  lemma InsertedInOrder(sorted: seq<Found>, p: nat, x: Found)
    requires InOrder(sorted) && p <= |sorted|
    requires forall j | 0 <= j < p :: sorted[j].created <= x.created
    requires forall j | p <= j < |sorted| :: x.created <= sorted[j].created
    ensures InOrder(sorted[..p] + [x] + sorted[p..])
  {}

  lemma InsertedDistinct(sorted: seq<Found>, p: nat, x: Found)
    requires Distinct(sorted) && p <= |sorted| && forall j | 0 <= j < |sorted| :: sorted[j].dir != x.dir
    ensures Distinct(sorted[..p] + [x] + sorted[p..])
  {}

  method Insert(sorted: seq<Found>, x: Found) returns (out: seq<Found>)
    requires InOrder(sorted) && Distinct(sorted)
    requires forall j | 0 <= j < |sorted| :: sorted[j].dir != x.dir
    ensures InOrder(out) && Distinct(out) && |out| == |sorted| + 1
    ensures forall f :: f in out <==> f in sorted || f == x
  {
    var p := 0;
    while p < |sorted| && sorted[p].created <= x.created
      invariant 0 <= p <= |sorted|
      invariant forall j | 0 <= j < p :: sorted[j].created <= x.created
    {
      p := p + 1;
    }
    InsertedInOrder(sorted, p, x);
    InsertedDistinct(sorted, p, x);
    hide InOrder, Distinct;
    out := sorted[..p] + [x] + sorted[p..];
    assert sorted == sorted[..p] + sorted[p..];
  }

  method SortByCreated(found: seq<Found>) returns (sorted: seq<Found>)
    requires Distinct(found)
    ensures Sorted(Items(sorted)) && Distinct(sorted) && SameArchives(sorted, found)
  {
    sorted := [];
    for i := 0 to |found|
      invariant InOrder(sorted) && Distinct(sorted) && |sorted| == i
      invariant forall f :: f in sorted <==> f in found[..i]
    {
      forall j | 0 <= j < |sorted| ensures sorted[j].dir != found[i].dir {
        assert sorted[j] in found[..i];
      }
      sorted := Insert(sorted, found[i]);
      assert found[..i + 1] == found[..i] + [found[i]];
    }
    assert found[..|found|] == found;
  }

  datatype Pruned = Complete | Interrupted | Failed | TooLarge

  /** The total of all sizes, or nothing if it does not fit 64 bits. */
  method TotalBytes(sorted: seq<Found>) returns (ok: bool, total: nat)
    ensures ok <==> SumBytes(Items(sorted)) <= MAX_INT64
    ensures ok ==> total == SumBytes(Items(sorted))
  {
    total := 0;
    for i := 0 to |sorted|
      invariant total <= MAX_INT64 && total + SumBytes(Items(sorted)[i..]) == SumBytes(Items(sorted))
    {
      assert Items(sorted)[i..][1..] == Items(sorted)[i + 1..];
      if sorted[i].bytes > MAX_INT64 - total {
        return false, 0;
      }
      total := total + sorted[i].bytes;
    }
    ok := true;
  }

  /** The removing loop of Prune, oldest first. gone counts the archives removed. */
  method PruneSorted(sorted: seq<Found>, cutoff: int, maxBytes: nat, mayFail: bool) returns (r: Pruned, ghost gone: nat)
    requires Sorted(Items(sorted)) && Distinct(sorted)
    requires forall i | 0 <= i < |sorted| :: sorted[i].dir.Marked()
    modifies set i | 0 <= i < |sorted| :: sorted[i].dir
    ensures r == TooLarge <==> SumBytes(Items(sorted)) > MAX_INT64
    ensures r == TooLarge ==> gone == 0
    ensures !mayFail ==> r == Complete || r == TooLarge
    ensures gone <= |sorted| && forall i | 0 <= i < gone :: !sorted[i].dir.present
    ensures r == Complete ==> IsCut(Items(sorted), cutoff, maxBytes, gone)
    ensures forall j | 0 <= j < gone :: !MayStay(Items(sorted)[j..], cutoff, maxBytes)
    ensures forall i | gone < i < |sorted| :: unchanged(sorted[i].dir)
    ensures gone < |sorted| && (r == Complete || r == TooLarge) ==> unchanged(sorted[gone].dir)
    ensures r == Interrupted && gone < |sorted| ==>
      sorted[gone].dir.Marked() && Remains(sorted[gone].dir.content, old(sorted[gone].dir.content))
      && (unchanged(sorted[gone].dir) || !MayStay(Items(sorted)[gone..], cutoff, maxBytes))
  {
    ghost var v := Items(sorted);
    hide MayStay, SumBytes, Sorted, Items, Remains, HasName, ArchiveDir.Marked;
    gone := 0;
    var ok, total := TotalBytes(sorted);
    if !ok {
      return TooLarge, 0;
    }
    assert v[0..] == v;
    var i := 0;
    while i < |sorted|
      invariant 0 <= gone <= i <= |sorted|
      invariant gone == i || MayStay(v[gone..], cutoff, maxBytes)
      invariant total == SumBytes(v[gone..])
      invariant forall j | 0 <= j < gone :: !sorted[j].dir.present && !MayStay(v[j..], cutoff, maxBytes)
      invariant forall j | gone <= j < |sorted| :: unchanged(sorted[j].dir)
    {
      var goesOn := Succeeds(mayFail);
      if !goesOn {
        RemainsSelf(sorted[gone].dir.content);
        return Interrupted, gone;
      }
      var item := sorted[i];
      if item.created >= cutoff && total <= maxBytes {
        StaysWithRest(v, cutoff, maxBytes, gone, i);
        i := i + 1;
        continue;
      }
      MustGo(v, cutoff, maxBytes, gone, i);
      var removal := item.dir.Remove(mayFail);
      if removal == Cancelled {
        return Interrupted, gone;
      }
      if removal == Faulted {
        return Failed, gone;
      }
      total := total - item.bytes;
      gone := gone + 1;
      i := i + 1;
    }
    NothingStays(v, cutoff, maxBytes);
    r := Complete;
  }

  lemma MustGo(v: seq<Archive>, cutoff: int, maxBytes: nat, gone: nat, i: nat)
    requires gone <= i < |v| && (gone == i || MayStay(v[gone..], cutoff, maxBytes))
    requires v[i].created < cutoff || SumBytes(v[gone..]) > maxBytes
    ensures gone == i && !MayStay(v[i..], cutoff, maxBytes)
    ensures SumBytes(v[i..]) == v[i].bytes + SumBytes(v[i + 1..])
  {
    assert v[i] == v[gone..][i - gone];
    assert v[i..][1..] == v[i + 1..];
  }

  lemma NothingStays(v: seq<Archive>, cutoff: int, maxBytes: nat)
    ensures MayStay(v[|v|..], cutoff, maxBytes)
  {
    assert v[|v|..] == [];
  }

  lemma StaysWithRest(v: seq<Archive>, cutoff: int, maxBytes: nat, gone: nat, i: nat)
    requires Sorted(v) && gone <= i < |v| && v[i].created >= cutoff && SumBytes(v[gone..]) <= maxBytes
    requires gone == i || MayStay(v[gone..], cutoff, maxBytes)
    ensures MayStay(v[gone..], cutoff, maxBytes)
  {
    if gone == i {
      forall j | 0 <= j < |v[gone..]| ensures v[gone..][j].created >= cutoff {
        assert v[gone..][j] == v[gone + j];
      }
    }
  }

  /** In the inventory: eligible, with its creation time and size. */
  ghost predicate Inspected(f: Found, dirs: seq<ArchiveDir>)
    reads f.dir
  {
    f.dir in dirs && f.dir.Eligible() && f.dir.Created() == Some(f.created) && f.bytes == Bytes(f.dir.content)
  }

  /** What keeps an archive from being inspected. */
  predicate Unfit(d: ArchiveDir)
    reads d
  {
    d.Eligible() && (d.Created().None? || Levels(d.content) > MAX_DEPTH || Bytes(d.content) > MAX_INT64)
  }

  ghost predicate AnyUnfit(dirs: seq<ArchiveDir>)
    reads dirs
  {
    exists d <- dirs :: Unfit(d)
  }

  /** findArchives: inspects the eligible archives, and only those. It fails if one of them is unfit,
      or on a fault. */
  method FindArchives(dirs: seq<ArchiveDir>, mayFail: bool) returns (ok: bool, fault: bool, found: seq<Found>)
    requires forall i, j | 0 <= i < j < |dirs| :: dirs[i] != dirs[j]
    ensures Distinct(found) && forall f <- found :: Inspected(f, dirs)
    ensures ok ==> forall d <- dirs | d.Eligible() :: exists f <- found :: f.dir == d
    ensures ok ==> !AnyUnfit(dirs)
    ensures !ok ==> fault || AnyUnfit(dirs)
    ensures fault ==> mayFail
  {
    found, fault := [], false;
    for i := 0 to |dirs|
      invariant Distinct(found)
      invariant forall f <- found :: Inspected(f, dirs[..i])
      invariant forall j | 0 <= j < i && dirs[j].Eligible() :: exists f <- found :: f.dir == dirs[j]
      invariant forall j | 0 <= j < i :: !Unfit(dirs[j])
    {
      var dir := dirs[i];
      assert dir in dirs;
      if dir.Eligible() {
        var created := dir.Created();
        if created.None? {
          return false, false, found;
        }
        var size := DirectoryBytes(dir.content, 0, mayFail);
        if !size.Size? {
          return false, size.Fault?, found;
        }
        forall j | 0 <= j < |found| ensures found[j].dir != dir {
          assert found[j] in found;
        }
        ghost var had := found;
        found := found + [Found(dir, created.value, size.bytes)];
        assert found[|found| - 1].dir == dir;
        forall j | 0 <= j < i && dirs[j].Eligible() ensures exists f <- found :: f.dir == dirs[j] {
          var f :| f in had && f.dir == dirs[j];
          assert f in found;
        }
      }
    }
    ok := true;
  }

  lemma InspectedInOrder(dirs: seq<ArchiveDir>, order: seq<Found>, found: seq<Found>)
    requires SameArchives(order, found) && forall f <- found :: Inspected(f, dirs)
    ensures forall i | 0 <= i < |order| :: order[i].dir in dirs && order[i].dir.Eligible()
    ensures forall f <- order :: Inspected(f, dirs)
    ensures (forall d <- dirs | d.Eligible() :: exists f <- found :: f.dir == d) ==>
      forall d <- dirs | d.Eligible() :: exists f <- order :: f.dir == d
  {
    forall i | 0 <= i < |order| ensures order[i].dir in dirs && order[i].dir.Eligible() {
      assert order[i] in order && order[i] in found;
    }
  }

  lemma NamesDiffer(dirs: seq<ArchiveDir>, order: seq<Found>)
    requires forall i, j | 0 <= i < j < |dirs| :: dirs[i].name != dirs[j].name
    requires Distinct(order) && forall i | 0 <= i < |order| :: order[i].dir in dirs
    ensures Named(Items(order))
  {
    forall i, j | 0 <= i < j < |order| ensures order[i].dir.name != order[j].dir.name {
      var a :| 0 <= a < |dirs| && dirs[a] == order[i].dir;
      var b :| 0 <= b < |dirs| && dirs[b] == order[j].dir;
    }
  }

  /** The inventory, oldest first. */
  method Inventory(dirs: seq<ArchiveDir>, mayFail: bool) returns (ok: bool, order: seq<Found>)
    requires forall i, j | 0 <= i < j < |dirs| :: dirs[i].name != dirs[j].name
    ensures ok ==> !AnyUnfit(dirs) && Sorted(Items(order)) && Named(Items(order)) && Distinct(order)
    ensures ok ==> forall i | 0 <= i < |order| :: order[i].dir in dirs && order[i].dir.Eligible()
    ensures ok ==> forall f <- order :: Inspected(f, dirs)
    ensures ok ==> forall d <- dirs | d.Eligible() :: exists f <- order :: f.dir == d
    ensures !ok ==> mayFail || AnyUnfit(dirs)
  {
    hide Sorted, Named, Distinct, SameArchives, Inspected, ArchiveDir.Eligible, AnyUnfit;
    var fault, found;
    ok, fault, found := FindArchives(dirs, mayFail);
    order := [];
    if ok {
      order := SortByCreated(found);
      InspectedInOrder(dirs, order, found);
      NamesDiffer(dirs, order);
    }
  }

  /** Prune. sorted lists the eligible archives from the oldest on, and gone of them were removed;
      everything else in the directory is untouched. One unfit archive keeps all of them. */
  method Prune(dirs: seq<ArchiveDir>, now: int, maxAge: int, maxBytes: int, mayFail: bool)
    returns (r: Pruned, ghost sorted: seq<Found>, ghost gone: nat)
    requires forall i, j | 0 <= i < j < |dirs| :: dirs[i].name != dirs[j].name
    requires forall d <- dirs | d.Eligible() :: d.Marked()
    modifies set d | d in dirs && d.Eligible()
    ensures gone <= |sorted| && forall i | 0 <= i < |sorted| :: sorted[i].dir in dirs
    ensures forall i | 0 <= i < gone :: !sorted[i].dir.present
    ensures Sorted(Items(sorted)) && Named(Items(sorted))
    ensures forall f <- sorted ::
      f.dir in dirs && f.dir.Eligible() && f.dir.Created() == Some(f.created) && f.bytes == Bytes(old(f.dir.content))
    ensures old(AnyUnfit(dirs)) ==> r != Complete && forall d <- dirs :: unchanged(d)
    ensures !mayFail ==> r != Interrupted && (r == TooLarge ==> SumBytes(Items(sorted)) > MAX_INT64)
    ensures !mayFail ==> (r == Failed <==> maxAge <= 0 || maxBytes <= 0 || old(AnyUnfit(dirs)))
    ensures r == Complete ==>
      && maxAge > 0 && maxBytes > 0
      && (forall d <- dirs | d.Eligible() :: exists f <- sorted :: f.dir == d)
      && IsCut(Items(sorted), now - maxAge, maxBytes, gone)
      && forall i | gone <= i < |sorted| :: unchanged(sorted[i].dir)
    ensures r == Interrupted ==>
      && (forall i | gone < i < |sorted| :: unchanged(sorted[i].dir))
      && (forall j | 0 <= j < gone :: maxBytes > 0 && !MayStay(Items(sorted)[j..], now - maxAge, maxBytes))
      && (gone < |sorted| ==>
            && sorted[gone].dir.Marked() && Remains(sorted[gone].dir.content, old(sorted[gone].dir.content))
            && (unchanged(sorted[gone].dir)
                || (maxBytes > 0 && !MayStay(Items(sorted)[gone..], now - maxAge, maxBytes))))
  {
    hide MayStay, IsCut, Sorted, Named, Remains, SumBytes, Distinct, SameArchives, ArchiveDir.Created,
      ArchiveDir.Eligible, ArchiveDir.Marked, Unfit, AnyUnfit, Bytes, HasName;
    sorted, gone := [], 0;
    NothingInOrder();
    var goesOn := Succeeds(mayFail);
    if !goesOn {
      return Interrupted, [], 0;
    }
    if maxAge <= 0 || maxBytes <= 0 {
      return Failed, [], 0;
    }
    var ok, order := Inventory(dirs, mayFail);
    if !ok {
      return Failed, [], 0;
    }
    sorted := order;
    r, gone := PruneSorted(order, now - maxAge, maxBytes, mayFail);
  }

  lemma NothingInOrder()
    ensures Sorted(Items([])) && Named(Items([]))
  {}
}
