/** An abstract directory tree: what the diagnostic copier reads, and what it publishes. */
module ArchiveTree {
  import opened Basics

  const ARCHIVE_MARKER := ".tentacles-archive"
  const MARKER_CONTENT := "tentacles diagnostic archive v1\n"
  const MAX_BYTES := 64 * 1024 * 1024
  const MAX_ENTRIES := 4096
  const MAX_DEPTH := 64

  datatype Node = File(data: string, nlink: nat) | Dir(entries: Entries) | Special

  /** The entries of a directory, in the order they are read. */
  datatype Entries = Nil | Entry(name: string, node: Node, rest: Entries)

  type Path = seq<string>

  datatype Item = DirItem | FileItem(data: string)

  /** Every directory and file below rel, by path. */
  function Flatten(es: Entries, rel: Path): map<Path, Item> {
    match es
    case Nil => map[]
    case Entry(name, node, rest) => FlattenNode(node, rel + [name]) + Flatten(rest, rel)
  }

  function FlattenNode(node: Node, path: Path): map<Path, Item> {
    match node
    case File(data, _) => map[path := FileItem(data)]
    case Dir(sub) => map[path := DirItem] + Flatten(sub, path)
    case Special => map[]
  }

  /** The directories and singly linked regular files; at the root, without the marker's name. */
  function Kept(es: Entries, root: bool): Entries {
    match es
    case Nil => Nil
    case Entry(name, node, rest) =>
      var one := if root && name == ARCHIVE_MARKER then None else KeptNode(node);
      if one.Some? then Entry(name, one.value, Kept(rest, root)) else Kept(rest, root)
  }

  function KeptNode(node: Node): Option<Node> {
    match node
    case File(_, nlink) => if nlink == 1 then Some(node) else None
    case Dir(sub) => Some(Dir(Kept(sub, false)))
    case Special => None
  }

  /** What is published: the marker beside everything kept. */
  function Published(es: Entries): Entries {
    Entry(ARCHIVE_MARKER, File(MARKER_CONTENT, 1), Kept(es, true))
  }

  /** The entries a copy looks at. */
  function Seen(es: Entries, root: bool): nat {
    match es
    case Nil => 0
    case Entry(name, node, rest) =>
      1 + (if node.Dir? && !(root && name == ARCHIVE_MARKER) then Seen(node.entries, false) else 0) + Seen(rest, root)
  }

  function Bytes(es: Entries): nat {
    if es.Nil? then 0 else NodeBytes(es.node) + Bytes(es.rest)
  }

  function NodeBytes(node: Node): nat {
    match node
    case File(data, _) => |data|
    case Dir(sub) => Bytes(sub)
    case Special => 0
  }

  function Levels(es: Entries): nat {
    if es.Nil? then 0
    else
      var below := if es.node.Dir? then 1 + Levels(es.node.entries) else 0;
      if below < Levels(es.rest) then Levels(es.rest) else below
  }

  predicate HasName(es: Entries, name: string) {
    es.Entry? && (es.name == name || HasName(es.rest, name))
  }

  /** A path below rel goes through one of the names there. */
  lemma {:induction false} PathsBelow(es: Entries, rel: Path, path: Path)
    requires path in Flatten(es, rel)
    ensures |path| > |rel| && path[..|rel|] == rel && HasName(es, path[|rel|])
  {
    match es
    case Entry(name, node, rest) =>
      if path in Flatten(rest, rel) {
        PathsBelow(rest, rel, path);
      } else if node.Dir? && path != rel + [name] {
        PathsBelow(node.entries, rel + [name], path);
        assert path[..|rel|] == path[..|rel| + 1][..|rel|];
        assert path[|rel|] == path[..|rel| + 1][|rel|];
      }
  }

  lemma {:induction false} NoMarkerKept(es: Entries)
    ensures !HasName(Kept(es, true), ARCHIVE_MARKER)
  {
    if es.Entry? {
      NoMarkerKept(es.rest);
    }
  }

  /** The marker's path is free for the marker. */
  lemma MarkerIsFree(es: Entries)
    ensures [ARCHIVE_MARKER] !in Flatten(Kept(es, true), [])
  {
    NoMarkerKept(es);
    if [ARCHIVE_MARKER] in Flatten(Kept(es, true), []) {
      PathsBelow(Kept(es, true), [], [ARCHIVE_MARKER]);
    }
  }

  // ------------------------------------------------------------------ what is kept, by paths

  /** node is what a tree has at a path below its root. */
  ghost predicate At(es: Entries, path: Path, node: Node)
    decreases es
  {
    && es.Entry? && path != []
    && (|| At(es.rest, path, node)
        || (es.name == path[0] && if |path| == 1 then es.node == node else InDir(es.node, path[1..], node)))
  }

  ghost predicate InDir(dir: Node, path: Path, node: Node)
    decreases dir
  {
    dir.Dir? && At(dir.entries, path, node)
  }

  /** item is to be shipped under a path: there is a directory there, or a file with one link, and
      the path does not begin with the marker's name at the root. */
  ghost predicate Ships(es: Entries, root: bool, path: Path, item: Item) {
    && path != [] && (root ==> path[0] != ARCHIVE_MARKER)
    && match item
       case DirItem => exists sub :: At(es, path, Dir(sub))
       case FileItem(data) => At(es, path, File(data, 1))
  }

  /** Everything kept is to be shipped. */
  lemma {:induction false} KeptShips(es: Entries, root: bool, rel: Path, path: Path)
    requires path in Flatten(Kept(es, root), rel)
    ensures |path| > |rel| && path[..|rel|] == rel
    ensures Ships(es, root, path[|rel|..], Flatten(Kept(es, root), rel)[path])
    decreases es
  {
    PathsBelow(Kept(es, root), rel, path);
    var name, node, rest := es.name, es.node, es.rest;
    var tail := path[|rel|..];
    if path in Flatten(Kept(rest, root), rel) {
      KeptShips(rest, root, rel, path);
    } else {
      var below := rel + [name];
      if path == below {
        assert tail == [name];
        OwnItem(node, below);
        assert node.Dir? ==> At(es, tail, Dir(node.entries));
      } else {
        KeptShips(node.entries, false, below, path);
        assert path[..|rel| + 1] == below && path[|below|..] == tail[1..] && tail[0] == name;
        ShipsThrough(es, root, tail, Flatten(Kept(es, root), rel)[path]);
      }
    }
  }

  lemma OwnItem(node: Node, path: Path)
    requires KeptNode(node).Some?
    ensures var items := FlattenNode(KeptNode(node).value, path);
      path in items && items[path] == if node.Dir? then DirItem else FileItem(node.data)
    ensures node.Dir? || (node.File? && node.nlink == 1)
  {
    if node.Dir? {
      var below := Flatten(Kept(node.entries, false), path);
      if path in below {
        PathsBelow(Kept(node.entries, false), path, path);
      }
    }
  }

  lemma ShipsThrough(es: Entries, root: bool, path: Path, item: Item)
    requires es.Entry? && es.node.Dir? && |path| > 1 && es.name == path[0] && (root ==> path[0] != ARCHIVE_MARKER)
    requires Ships(es.node.entries, false, path[1..], item)
    ensures Ships(es, root, path, item)
  {
    if item.DirItem? {
      var sub :| At(es.node.entries, path[1..], Dir(sub));
      assert At(es, path, Dir(sub));
    }
  }

  /** Everything to be shipped is kept. */
  lemma {:induction false} ShipsKept(es: Entries, root: bool, rel: Path, path: Path, node: Node)
    requires At(es, path, node) && (root ==> path[0] != ARCHIVE_MARKER)
    requires node.Dir? || (node.File? && node.nlink == 1)
    ensures rel + path in Flatten(Kept(es, root), rel)
    decreases es
  {
    if At(es.rest, path, node) {
      ShipsKept(es.rest, root, rel, path, node);
    } else if |path| == 1 {
      assert rel + path == rel + [es.name];
    } else {
      ShipsKept(es.node.entries, false, rel + [es.name], path[1..], node);
      assert rel + path == rel + [es.name] + path[1..];
    }
  }

  /** A tree has no path longer than its levels and one, and one as long as its levels. */
  lemma {:induction false} LevelsAreDepth(es: Entries, rel: Path)
    ensures forall path <- Flatten(es, rel) :: |path| <= |rel| + Levels(es) + 1
    ensures Levels(es) > 0 ==> exists path <- Flatten(es, rel) :: |path| == |rel| + Levels(es)
    decreases es
  {
    if es.Entry? {
      var below := rel + [es.name];
      LevelsAreDepth(es.rest, rel);
      if es.node.Dir? {
        LevelsAreDepth(es.node.entries, below);
        if Levels(es.node.entries) == 0 {
          assert below in Flatten(es, rel);
        } else {
          var path :| path in Flatten(es.node.entries, below) && |path| == |below| + Levels(es.node.entries);
          assert path in Flatten(es, rel);
        }
      }
      if Levels(es.rest) > 0 {
        var path :| path in Flatten(es.rest, rel) && |path| == |rel| + Levels(es.rest);
        assert path in Flatten(es, rel);
      }
    }
  }

  /** The contents of all files, laid end to end. */
  ghost function Contents(es: Entries): string {
    match es
    case Nil => ""
    case Entry(_, File(data, _), rest) => data + Contents(rest)
    case Entry(_, Dir(sub), rest) => Contents(sub) + Contents(rest)
    case Entry(_, Special, rest) => Contents(rest)
  }

  lemma {:induction false} BytesAreContents(es: Entries)
    ensures Bytes(es) == |Contents(es)|
  {
    if es.Entry? {
      BytesAreContents(es.rest);
      if es.node.Dir? {
        BytesAreContents(es.node.entries);
      }
    }
  }

  /** What is kept is never more than what was looked at. */
  lemma {:induction false} KeptWithinSeen(es: Entries, root: bool, rel: Path)
    ensures |Flatten(Kept(es, root), rel)| <= Seen(es, root)
    decreases es
  {
    if es.Entry? {
      KeptWithinSeen(es.rest, root, rel);
      var rest := Flatten(Kept(es.rest, root), rel);
      var kept := if root && es.name == ARCHIVE_MARKER then None else KeptNode(es.node);
      if kept.Some? {
        var below := rel + [es.name];
        if es.node.Dir? {
          KeptWithinSeen(es.node.entries, false, below);
          MapSum(map[below := DirItem], Flatten(Kept(es.node.entries, false), below));
        }
        MapSum(FlattenNode(kept.value, below), rest);
      }
    }
  }

  lemma MapSum(a: map<Path, Item>, b: map<Path, Item>)
    ensures |a + b| <= |a| + |b|
  {
    assert (a + b).Keys == a.Keys + b.Keys;
    assert |a.Keys + b.Keys| == |a.Keys| + |b.Keys - a.Keys|;
    SubsetSize(b.Keys - a.Keys, b.Keys);
  }
}
