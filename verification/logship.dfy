/** The diagnostic archives of internal/logship/logship.go: a bounded recursive copy, its limits,
    and the name it is published under. The source does not change while it is copied; every
    file operation, space probe and cancellation test may fail. */
module Logship {
  import opened Basics
  import opened ArchiveTree
  import opened Digits

  /** What a copy amounts to: the items it makes, the entries it looks at, the bytes it writes and
      the directory levels it goes down. */
  datatype Cost = Cost(items: map<Path, Item>, seen: nat, bytes: nat, levels: nat)

  const NO_COST := Cost(map[], 0, 0, 0)

  function Both(a: Cost, b: Cost): Cost {
    Cost(a.items + b.items, a.seen + b.seen, a.bytes + b.bytes, if a.levels < b.levels then b.levels else a.levels)
  }

  function CostOf(es: Entries, rel: Path): Cost
    decreases es, 0
  {
    match es
    case Nil => NO_COST
    case Entry(name, node, rest) => Both(EntryCost(name, node, rel), CostOf(rest, rel))
  }

  function EntryCost(name: string, node: Node, rel: Path): Cost
    decreases node, 1
  {
    var c := if rel == [] && name == ARCHIVE_MARKER then NO_COST else NodeCost(node, rel + [name]);
    c.(seen := c.seen + 1)
  }

  function NodeCost(node: Node, path: Path): Cost
    decreases node, 0
  {
    match node
    case File(data, nlink) => if nlink == 1 then Cost(map[path := FileItem(data)], 0, |data|, 0) else NO_COST
    case Dir(sub) =>
      var c := CostOf(sub, path);
      Cost(map[path := DirItem] + c.items, c.seen, c.bytes, c.levels + 1)
    case Special => NO_COST
  }

  /** A copy makes exactly the kept tree, and costs what it says. */
  lemma {:induction false} CostIsKept(es: Entries, rel: Path)
    ensures CostOf(es, rel) == KeptCost(es, rel, rel == [])
    decreases es, 1
  {
    if es.Entry? {
      hide KeptCost, NodeCost, NodeKeptCost, Both;
      CostIsKept(es.rest, rel);
      NodeIsKept(es.node, rel + [es.name]);
      KeptCostStep(es.name, es.node, es.rest, rel);
    }
  }

  /** The cost of a kept tree. */
  function KeptCost(es: Entries, rel: Path, root: bool): Cost {
    var kept := Kept(es, root);
    Cost(Flatten(kept, rel), Seen(es, root), Bytes(kept), Levels(kept))
  }

  function NodeKeptCost(node: Node, path: Path): Cost {
    var one := KeptNode(node);
    if one.None? then NO_COST
    else Cost(FlattenNode(one.value, path), if node.Dir? then Seen(node.entries, false) else 0,
              NodeBytes(one.value), if node.Dir? then 1 + Levels(one.value.entries) else 0)
  }

  lemma KeptCostStep(name: string, node: Node, rest: Entries, rel: Path)
    ensures var root := rel == [];
      var c := if root && name == ARCHIVE_MARKER then NO_COST else NodeKeptCost(node, rel + [name]);
      KeptCost(Entry(name, node, rest), rel, root) == Both(c.(seen := c.seen + 1), KeptCost(rest, rel, root))
  {
    var items := Flatten(Kept(rest, rel == []), rel);
    assert map[] + items == items;
  }

  lemma {:induction false} NodeIsKept(node: Node, path: Path)
    requires path != []
    ensures NodeCost(node, path) == NodeKeptCost(node, path)
    decreases node, 0
  {
    if node.Dir? {
      CostIsKept(node.entries, path);
    }
  }

  /** The copier's state. */
  datatype Copy = Copy(dest: map<Path, Item>, bytesLeft: int, entries: nat)

  function Spent(v: Copy, c: Cost): Copy {
    Copy(v.dest + c.items, v.bytesLeft - c.bytes, v.entries + c.seen)
  }

  /** What a copy of cost c, begun in state v at a depth, did: everything, if it went well; and
      otherwise the limit its outcome names is too small for c, or something failed. */
  ghost predicate Did(v: Copy, c: Cost, depth: nat, r: Outcome, w: Copy) {
    match r
    case Ok => w == Spent(v, c) && depth + c.levels <= MAX_DEPTH && w.entries <= MAX_ENTRIES && w.bytesLeft >= 0
    case Fault => true
    case TooDeep => depth + c.levels > MAX_DEPTH
    case TooMany => v.entries + c.seen > MAX_ENTRIES
    case TooBig => v.bytesLeft < c.bytes
  }

  /** Between first and the end of a copy of cost all: in state v, with cost left to go. */
  ghost predicate Toward(first: Copy, all: Cost, depth: nat, v: Copy, left: Cost) {
    && Spent(v, left) == Spent(first, all)
    && left.levels <= all.levels
    && (depth + left.levels <= MAX_DEPTH ==> depth + all.levels <= MAX_DEPTH)
  }

  lemma Unroll(es: Entries, rel: Path)
    requires es.Entry?
    ensures CostOf(es, rel) == Both(EntryCost(es.name, es.node, rel), CostOf(es.rest, rel))
    ensures EntryCost(es.name, es.node, rel).seen >= 1
  {}

  lemma EntryDid(v: Copy, name: string, node: Node, rel: Path, depth: nat, r: Outcome, w: Copy)
    requires depth <= MAX_DEPTH
    requires var u := v.(entries := v.entries + 1);
      u.entries <= MAX_ENTRIES && u.bytesLeft >= 0
      && if rel == [] && name == ARCHIVE_MARKER then r == Ok && w == u
         else Did(u, NodeCost(node, rel + [name]), depth, r, w)
    ensures Did(v, EntryCost(name, node, rel), depth, r, w)
  {
    assert v.dest + map[] == v.dest;
  }

  lemma DirDid(v: Copy, sub: Entries, path: Path, depth: nat, r: Outcome, w: Copy)
    requires Did(v.(dest := v.dest[path := DirItem]), CostOf(sub, path), depth + 1, r, w)
    ensures Did(v, NodeCost(Dir(sub), path), depth, r, w)
  {
    Regroup(v.dest, map[path := DirItem], CostOf(sub, path).items);
    assert v.dest + map[path := DirItem] == v.dest[path := DirItem];
  }

  lemma StillTooMuch(first: Copy, all: Cost, depth: nat, v: Copy, one: Cost, more: Cost, r: Outcome)
    requires Toward(first, all, depth, v, Both(one, more)) && r != Ok
    requires r == Fault || (r == TooMany && v.entries + one.seen > MAX_ENTRIES) || Did(v, one, depth, r, v)
    ensures Did(first, all, depth, r, v)
  {}

  lemma OneMore(first: Copy, all: Cost, depth: nat, v: Copy, one: Cost, more: Cost, w: Copy)
    requires Toward(first, all, depth, v, Both(one, more)) && Did(v, one, depth, Ok, w)
    ensures Toward(first, all, depth, w, more)
  {
    Regroup(v.dest, one.items, more.items);
  }

  lemma Arrived(first: Copy, all: Cost, depth: nat, v: Copy, es: Entries, rel: Path)
    requires es.Nil? && depth <= MAX_DEPTH && Toward(first, all, depth, v, CostOf(es, rel))
    requires v.entries <= MAX_ENTRIES && v.bytesLeft >= 0
    ensures Did(first, all, depth, Ok, v)
  {
    assert v.dest + map[] == v.dest;
  }

  datatype Outcome = Ok | Fault | TooDeep | TooMany | TooBig

  class DiagCopier {
    const mayFail: bool // file operations may fail, and the copy may be cancelled
    var dest: map<Path, Item>
    var bytesLeft: int
    var entries: nat

    constructor (mayFail: bool)
      ensures this.mayFail == mayFail && dest == map[] && bytesLeft == MAX_BYTES - |MARKER_CONTENT| && entries == 0
    {
      this.mayFail, dest, bytesLeft, entries := mayFail, map[], MAX_BYTES - |MARKER_CONTENT|, 0;
    }

    ghost predicate Sane()
      reads this
    {
      entries <= MAX_ENTRIES && bytesLeft >= 0
    }

    function View(): Copy
      reads this
    {
      Copy(dest, bytesLeft, entries)
    }

    /** copyDirectory */
    method CopyDirectory(es: Entries, rel: Path, depth: nat) returns (r: Outcome)
      requires Sane()
      modifies this
      ensures Did(old(View()), CostOf(es, rel), depth, r, View()) && (r == Fault ==> mayFail)
      decreases es, 0
    {
      hide CostOf, EntryCost, Spent;
      if depth > MAX_DEPTH {
        return TooDeep;
      }
      var todo := es;
      ghost var first, all := View(), CostOf(es, rel);
      while todo.Entry?
        invariant (todo == es || todo < es) && Sane()
        invariant Toward(first, all, depth, View(), CostOf(todo, rel))
        decreases todo
      {
        var name, node, rest := todo.name, todo.node, todo.rest;
        Unroll(todo, rel);
        ghost var was, one, more := View(), EntryCost(name, node, rel), CostOf(rest, rel);
        var live := Succeeds(mayFail);
        if !live {
          return Fault;
        }
        entries := entries + 1;
        if entries > MAX_ENTRIES {
          StillTooMuch(first, all, depth, was, one, more, TooMany);
          return TooMany;
        }
        r := Ok;
        if !(rel == [] && name == ARCHIVE_MARKER) {
          r := CopyEntry(node, rel + [name], depth);
        }
        EntryDid(was, name, node, rel, depth, r, View());
        if r != Ok {
          StillTooMuch(first, all, depth, was, one, more, r);
          return;
        }
        OneMore(first, all, depth, was, one, more, View());
        todo := rest;
      }
      Arrived(first, all, depth, View(), todo, rel);
      return Ok;
    }

    /** copyEntry */
    method CopyEntry(node: Node, path: Path, depth: nat) returns (r: Outcome)
      requires Sane() && depth <= MAX_DEPTH
      modifies this
      ensures Did(old(View()), NodeCost(node, path), depth, r, View()) && (r == Fault ==> mayFail)
      decreases node, 1
    {
      if node.Special? || (node.File? && node.nlink != 1) {
        return Ok;
      }
      var works := Succeeds(mayFail);
      if !works {
        return Fault;
      }
      match node
      case Dir(sub) =>
        ghost var was := View();
        dest := dest[path := DirItem];
        hide CostOf, Did;
        r := CopyDirectory(sub, path, depth + 1);
        DirDid(was, sub, path, depth, r, View());
      case File(data, _) =>
        if |data| > bytesLeft {
          return TooBig;
        }
        r := CopyFile(data, path);
    }

    /** copyFile: reads arrive in pieces of at most 32 KiB. */
    method CopyFile(data: string, path: Path) returns (r: Outcome)
      requires Sane() && |data| <= bytesLeft
      modifies this
      ensures r == Ok || (r == Fault && mayFail)
      ensures r == Ok ==> dest == old(dest)[path := FileItem(data)]
      ensures r == Ok ==> bytesLeft == old(bytesLeft) - |data| && entries == old(entries)
    {
      dest := dest[path := FileItem("")];
      var at := 0;
      while at < |data|
        invariant 0 <= at <= |data| && entries == old(entries) && bytesLeft == old(bytesLeft) - at
        invariant dest == old(dest)[path := FileItem(data[..at])]
      {
        var works := Succeeds(mayFail);
        if !works {
          return Fault;
        }
        var wanted: int := *;
        var n := if 1 <= wanted <= 32768 && wanted <= |data| - at then wanted else 1;
        assert data[..at] + data[at..at + n] == data[..at + n];
        dest := dest[path := FileItem(dest[path].data + data[at..at + n])];
        bytesLeft := bytesLeft - n;
        at := at + n;
      }
      assert data[..|data|] == data;
      return Ok;
    }
  }

  lemma Regroup(a: map<Path, Item>, b: map<Path, Item>, c: map<Path, Item>)
    ensures a + b + c == a + (b + c)
  {}

  // ------------------------------------------------------------------ names

  const ARCHIVE_PREFIX := "tentacles-diag-v1-"
  const STAMP_LENGTH := 16
  const ID_LENGTH := 32

  predicate Plain(c: char) {
    'a' <= c <= 'z' || 'A' <= c <= 'Z' || '0' <= c <= '9' || c == '.' || c == '_' || c == '-'
  }

  /** The characters of the pattern of archive names, by their codes: capital and small letters,
      digits, hyphen, full stop and underscore. */
  predicate InPattern(c: char) {
    var n := c as int;
    65 <= n <= 90 || 97 <= n <= 122 || 48 <= n <= 57 || n == 45 || n == 46 || n == 95
  }

  function Sanitized(s: string): (out: string)
    ensures |out| == |s| && forall i | 0 <= i < |out| :: Plain(out[i]) && (Plain(s[i]) ==> out[i] == s[i])
  {
    seq(|s|, i requires 0 <= i < |s| => if Plain(s[i]) then s[i] else '_')
  }

  /** sanitize */
  method Sanitize(s: string) returns (out: string, valid: bool)
    ensures out == Sanitized(s) && forall i | 0 <= i < |out| :: out[i] == if InPattern(s[i]) then s[i] else '_'
    ensures valid <==> exists i | 0 <= i < |s| :: Plain(s[i])
  {
    out, valid := "", false;
    for i := 0 to |s|
      invariant out == Sanitized(s)[..i] && forall j | 0 <= j < i :: out[j] == if InPattern(s[j]) then s[j] else '_'
      invariant valid <==> exists j | 0 <= j < i :: Plain(s[j])
    {
      if Plain(s[i]) {
        out := out + [s[i]];
        valid := true;
      } else {
        out := out + ['_'];
      }
    }
  }

  /** A moment in UTC, to the second, in a year of at most four digits. */
  datatype Stamp = Stamp(year: nat, month: nat, day: nat, hour: nat, minute: nat, second: nat) {
    predicate Valid() {
      year < 10000 && 1 <= month <= 12 && 1 <= day <= DaysIn(year, month) && hour < 24 && minute < 60 && second < 60
    }
  }

  function DaysIn(year: nat, month: nat): nat {
    if month == 2 then if year % 4 == 0 && (year % 100 != 0 || year % 400 == 0) then 29 else 28
    else if month == 4 || month == 6 || month == 9 || month == 11 then 30
    else 31
  }

  function Format(t: Stamp): (s: string)
    ensures |s| == STAMP_LENGTH
  {
    Fixed(t.year, 4) + Fixed(t.month, 2) + Fixed(t.day, 2) + "T" + Fixed(t.hour, 2) + Fixed(t.minute, 2)
        + Fixed(t.second, 2) + "Z"
  }

  predicate StampShaped(s: string) {
    |s| == STAMP_LENGTH && AllDigits(s[..8]) && s[8] == 'T' && AllDigits(s[9..15]) && s[15] == 'Z'
  }

  /** time.Parse of the layout. */
  function ParseStamp(s: string): Option<Stamp> {
    if !StampShaped(s) then None
    else
      assert forall i | 0 <= i < 8 :: s[i] == s[..8][i];
      assert forall i | 9 <= i < 15 :: s[i] == s[9..15][i - 9];
      var t := Stamp(Number(s[0..4]), Number(s[4..6]), Number(s[6..8]), Number(s[9..11]), Number(s[11..13]),
          Number(s[13..15]));
      if t.Valid() then Some(t) else None
  }

  /** The parts of a string of a stamp's shape. */
  lemma StampParts(y: string, mo: string, d: string, h: string, mi: string, sec: string)
    requires |y| == 4 && |mo| == |d| == |h| == |mi| == |sec| == 2
    ensures var s := y + mo + d + "T" + h + mi + sec + "Z";
      && s[0..4] == y && s[4..6] == mo && s[6..8] == d && s[9..11] == h && s[11..13] == mi && s[13..15] == sec
      && s[..8] == y + mo + d && s[8] == 'T' && s[9..15] == h + mi + sec && s[15] == 'Z'
  {}

  lemma StampReadsBack(t: Stamp)
    requires t.Valid()
    ensures ParseStamp(Format(t)) == Some(t)
  {
    ReadsBack(t.year, 4);
    ReadsBack(t.month, 2);
    ReadsBack(t.day, 2);
    ReadsBack(t.hour, 2);
    ReadsBack(t.minute, 2);
    ReadsBack(t.second, 2);
    hide Fixed, Number;
    StampParts(Fixed(t.year, 4), Fixed(t.month, 2), Fixed(t.day, 2), Fixed(t.hour, 2), Fixed(t.minute, 2),
        Fixed(t.second, 2));
  }

  lemma StampPrintsBack(s: string)
    requires ParseStamp(s).Some?
    ensures Format(ParseStamp(s).value) == s
  {
    DigitsWithin(s[..8], 0, 4);
    DigitsWithin(s[..8], 4, 6);
    DigitsWithin(s[..8], 6, 8);
    DigitsWithin(s[9..15], 0, 2);
    DigitsWithin(s[9..15], 2, 4);
    DigitsWithin(s[9..15], 4, 6);
    StampWhole(s);
    hide Fixed, Number, DaysIn, Stamp.Valid, Pow10;
    PrintsBack(s[0..4]);
    PrintsBack(s[4..6]);
    PrintsBack(s[6..8]);
    PrintsBack(s[9..11]);
    PrintsBack(s[11..13]);
    PrintsBack(s[13..15]);
  }

  lemma StampWhole(s: string)
    requires |s| == STAMP_LENGTH && s[8] == 'T' && s[15] == 'Z'
    ensures s == s[0..4] + s[4..6] + s[6..8] + "T" + s[9..11] + s[11..13] + s[13..15] + "Z"
    ensures s[..8][0..4] == s[0..4] && s[..8][4..6] == s[4..6] && s[..8][6..8] == s[6..8]
    ensures s[9..15][0..2] == s[9..11] && s[9..15][2..4] == s[11..13] && s[9..15][4..6] == s[13..15]
  {}

  lemma DigitsWithin(s: string, lo: nat, hi: nat)
    requires AllDigits(s) && lo <= hi <= |s|
    ensures AllDigits(s[lo..hi])
  {}

  /** Where a stamp has its year, month, day, hour, minute and second. */
  lemma StampInDigits(t: Stamp)
    requires t.Valid()
    ensures var s := Format(t);
      && AllDigits(s[0..4]) && AllDigits(s[4..6]) && AllDigits(s[6..8])
      && AllDigits(s[9..11]) && AllDigits(s[11..13]) && AllDigits(s[13..15])
      && Number(s[0..4]) == t.year && Number(s[4..6]) == t.month && Number(s[6..8]) == t.day
      && Number(s[9..11]) == t.hour && Number(s[11..13]) == t.minute && Number(s[13..15]) == t.second
      && |s| == 16 && s[8] == 'T' && s[15] == 'Z'
  {
    ReadsBack(t.year, 4);
    ReadsBack(t.month, 2);
    ReadsBack(t.day, 2);
    ReadsBack(t.hour, 2);
    ReadsBack(t.minute, 2);
    ReadsBack(t.second, 2);
    hide Fixed, Number;
    StampParts(Fixed(t.year, 4), Fixed(t.month, 2), Fixed(t.day, 2), Fixed(t.hour, 2), Fixed(t.minute, 2),
        Fixed(t.second, 2));
  }

  predicate IsHex(c: char) { 'a' <= c <= 'f' || '0' <= c <= '9' }

  predicate ArchiveID(id: string) {
    |id| == ID_LENGTH && forall i | 0 <= i < |id| :: IsHex(id[i])
  }

  function ArchiveName(t: Stamp, id: string, slotID: string, runner: string): string {
    ARCHIVE_PREFIX + Format(t) + "-" + id + "-" + slotID + "-" + runner
  }

  /** archiveNamePattern: all its parts but the last have a fixed width. */
  predicate MatchesPattern(s: string) {
    && |s| > 68 && s[..18] == ARCHIVE_PREFIX && StampShaped(s[18..34])
    && s[34] == '-' && ArchiveID(s[35..67]) && s[67] == '-'
    && forall i | 68 <= i < |s| :: Plain(s[i])
  }

  /** The creation time inspectArchive reads out of a name. */
  function CreatedOf(s: string): Option<Stamp>
    requires MatchesPattern(s)
  {
    ParseStamp(s[18..34])
  }

  /** A published name is one retention recognizes, and its creation time reads back. */
  lemma PublishedNameReadsBack(t: Stamp, id: string, slotDir: string, runner: string)
    requires t.Valid() && ArchiveID(id) && forall i | 0 <= i < |runner| :: Plain(runner[i])
    ensures var s := ArchiveName(t, id, Sanitized(slotDir), runner);
      MatchesPattern(s) && CreatedOf(s) == Some(t)
  {
    StampReadsBack(t);
    hide Fixed, Number, Format, ParseStamp, StampShaped;
    var rest := Sanitized(slotDir) + "-" + runner;
    assert ArchiveName(t, id, Sanitized(slotDir), runner) == ARCHIVE_PREFIX + Format(t) + "-" + id + "-" + rest;
    ShapedWhenParsed(Format(t));
    ShapedName(Format(t), id, rest);
  }

  /** A name of these parts has the pattern's shape, and its creation time is its stamp's. */
  lemma ShapedName(stamp: string, id: string, rest: string)
    requires StampShaped(stamp) && ArchiveID(id) && rest != "" && forall i | 0 <= i < |rest| :: Plain(rest[i])
    ensures var s := ARCHIVE_PREFIX + stamp + "-" + id + "-" + rest;
      MatchesPattern(s) && CreatedOf(s) == ParseStamp(stamp)
  {
    assert |stamp| == STAMP_LENGTH;
    hide StampShaped, ParseStamp;
    var s := ARCHIVE_PREFIX + stamp + "-" + id + "-" + rest;
    assert s[..18] == ARCHIVE_PREFIX;
    assert s[18..34] == stamp;
    assert s[35..67] == id;
    assert s[68..] == rest;
    assert forall i | 68 <= i < |s| :: s[i] == rest[i - 68];
  }

  lemma ShapedWhenParsed(s: string)
    ensures ParseStamp(s).Some? ==> StampShaped(s)
  {}

  // ------------------------------------------------------------------ shipping

  datatype Shipped = NothingThere | Failed(why: Outcome) | Archived(name: string, files: map<Path, Item>)

  /** Why a source cannot be archived. */
  predicate Exceeds(es: Entries, why: Outcome) {
    match why
    case TooDeep => Levels(Kept(es, true)) > 64
    case TooMany => Seen(es, true) > 4096
    case TooBig => Bytes(Published(es)) > 64 * 1024 * 1024
    case _ => false
  }

  lemma PublishedFacts(es: Entries)
    ensures Bytes(Published(es)) == |MARKER_CONTENT| + Bytes(Kept(es, true))
    ensures Levels(Published(es)) == Levels(Kept(es, true))
    ensures Flatten(Published(es), []) == Flatten(Kept(es, true), [])[[ARCHIVE_MARKER] := FileItem(MARKER_CONTENT)]
  {
    MarkerIsFree(es);
    assert [] + [ARCHIVE_MARKER] == [ARCHIVE_MARKER];
    assert Flatten(Published(es), [])
      == FlattenNode(File(MARKER_CONTENT, 1), [ARCHIVE_MARKER]) + Flatten(Kept(es, true), []);
  }

  /** Nothing but the pattern's characters is in a name that matches: no path separator, for one. */
  lemma MatchedInPattern(s: string)
    requires MatchesPattern(s)
    ensures forall i | 0 <= i < |s| :: InPattern(s[i])
  {
    var prefix, stamp, id := s[..18], s[18..34], s[35..67];
    assert forall i | 0 <= i < 18 :: InPattern(prefix[i]);
    StampInPattern(stamp);
    hide StampShaped;
    forall i | 0 <= i < |s| ensures InPattern(s[i]) {
      assert i < 18 ==> s[i] == prefix[i];
      assert 18 <= i < 34 ==> s[i] == stamp[i - 18];
      assert 35 <= i < 67 ==> s[i] == id[i - 35];
    }
  }

  lemma StampInPattern(s: string)
    requires StampShaped(s)
    ensures forall i | 0 <= i < |s| :: InPattern(s[i])
  {
    assert forall i | 0 <= i < 8 :: s[i] == s[..8][i];
    assert forall i | 9 <= i < 15 :: s[i] == s[9..15][i - 9];
  }

  /** The name an archive is published under. */
  method NameOf(slotDir: string, runnerName: string, t: Stamp, id: string) returns (name: string)
    requires t.Valid() && ArchiveID(id)
    ensures MatchesPattern(name) && CreatedOf(name) == Some(t) && forall i | 0 <= i < |name| :: InPattern(name[i])
    ensures var nameable := exists i | 0 <= i < |runnerName| :: Plain(runnerName[i]);
      name == ArchiveName(t, id, Sanitized(slotDir), if nameable then Sanitized(runnerName) else "unknown")
  {
    var slotID, slotValid := Sanitize(slotDir);
    var runner, valid := Sanitize(runnerName);
    if !valid {
      runner := "unknown";
    }
    PublishedNameReadsBack(t, id, slotDir, runner);
    name := ArchiveName(t, id, slotID, runner);
    MatchedInPattern(name);
    hide MatchesPattern, CreatedOf, ArchiveName;
  }

  /** shipDiag: what becomes visible is the whole published tree, within every limit, under a name
      retention can read; where nothing may fail, only an exceeded limit prevents it. */
  method ShipDiag(diag: Option<Entries>, slotDir: string, runnerName: string, t: Stamp, id: string, mayFail: bool)
      returns (r: Shipped)
    requires t.Valid() && ArchiveID(id)
    ensures r.NothingThere? ==> diag.None?
    ensures !mayFail ==> r != Failed(Fault) && (diag.None? ==> r.NothingThere?)
    ensures r.Failed? && diag.Some? ==> r.why == Fault || Exceeds(diag.value, r.why)
    ensures r.Archived? ==>
      && diag.Some? && r.files == Flatten(Published(diag.value), [])
      && Seen(diag.value, true) <= 4096 && Levels(Published(diag.value)) <= 64
      && Bytes(Published(diag.value)) <= 64 * 1024 * 1024
      && MatchesPattern(r.name) && CreatedOf(r.name) == Some(t)
      && (var nameable := exists i | 0 <= i < |runnerName| :: Plain(runnerName[i]);
          r.name == ArchiveName(t, id, Sanitized(slotDir), if nameable then Sanitized(runnerName) else "unknown"))
  {
    var works := Succeeds(mayFail);
    if !works {
      return Failed(Fault);
    }
    if diag.None? {
      return NothingThere;
    }
    var es := diag.value;
    var copier := new DiagCopier(mayFail);
    var outcome := copier.CopyDirectory(es, [], 0);
    CostIsKept(es, []);
    PublishedFacts(es);
    hide Published, Kept, Flatten, Bytes, Levels, Seen, MatchesPattern, CreatedOf, ArchiveID;
    if outcome != Ok {
      return Failed(outcome);
    }
    assert map[] + Flatten(Kept(es, true), []) == Flatten(Kept(es, true), []);
    works := Succeeds(mayFail);
    if !works {
      return Failed(Fault);
    }
    copier.dest := copier.dest[[ARCHIVE_MARKER] := FileItem(MARKER_CONTENT)];
    assert copier.dest == Flatten(Published(es), []);
    var name := NameOf(slotDir, runnerName, t, id);
    works := Succeeds(mayFail);
    if !works {
      return Failed(Fault);
    }
    r := Archived(name, copier.dest);
  }
}
