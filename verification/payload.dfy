/** The payload template of internal/payload/payload.go: a verified archive is unpacked into a
    staging tree, marked, and promoted by two renames with a rollback between them. Downloads,
    file operations and cancellation are demonic; hashing is an unknown function. */
module Payload {
  import opened Basics

  // ------------------------------------------------------------------ markers

  predicate NoNewline(s: string) { '\n' !in s }

  /** strings.Split(s, "\n") */
  function Lines(s: string): (out: seq<string>)
    ensures |out| >= 1
  {
    if s == "" then [""]
    else if s[0] == '\n' then [""] + Lines(s[1..])
    else
      var rest := Lines(s[1..]);
      [[s[0]] + rest[0]] + rest[1..]
  }

  lemma {:induction false} LineThenRest(a: string, b: string)
    requires NoNewline(a)
    ensures Lines(a + "\n" + b) == [a] + Lines(b)
  {
    var s := a + "\n" + b;
    if a == "" {
      assert s == "\n" + b;
      assert s[1..] == b;
    } else {
      assert s[1..] == a[1..] + "\n" + b;
      assert a == [a[0]] + a[1..];
      LineThenRest(a[1..], b);
      assert s[0] == a[0] != '\n';
    }
  }

  lemma {:induction false} LinesOf(s: string)
    ensures |Lines(s)| == 1 <==> NoNewline(s)
    ensures NoNewline(s) ==> Lines(s) == [s]
    ensures NoNewline(Lines(s)[0])
  {
    if s != "" {
      LinesOf(s[1..]);
      assert s == [s[0]] + s[1..];
    }
  }

  /** Any text is its first line followed by the rest. */
  lemma {:induction false} SplitFirst(s: string)
    requires !NoNewline(s)
    ensures exists a, b :: s == a + "\n" + b && NoNewline(a)
  {
    if s[0] == '\n' {
      assert s == "" + "\n" + s[1..];
    } else {
      assert s == [s[0]] + s[1..];
      SplitFirst(s[1..]);
      var a, b :| s[1..] == a + "\n" + b && NoNewline(a);
      assert s == ([s[0]] + a) + "\n" + b;
    }
  }

  function MarkerText(version: string, sha: string): string { version + "\n" + sha + "\n" }

  datatype Marker = Marker(version: string, sha: string)

  /** readMarker's parse of a file that could be read. */
  function ReadMarker(text: string): Option<Marker> {
    var trimmed := if text != "" && text[|text| - 1] == '\n' then text[..|text| - 1] else text;
    var lines := Lines(trimmed);
    if |lines| == 2 then Some(Marker(lines[0], lines[1])) else None
  }

  lemma MarkerParts(version: string, sha: string)
    ensures ReadMarker(MarkerText(version, sha)) ==
      (var lines := Lines(version + "\n" + sha); if |lines| == 2 then Some(Marker(lines[0], lines[1])) else None)
  {
    var text := MarkerText(version, sha);
    assert text[..|text| - 1] == version + "\n" + sha;
  }

  lemma LongMarker(version: string, sha: string)
    requires !NoNewline(version)
    ensures |Lines(version + "\n" + sha)| > 2
  {
    SplitFirst(version);
    var a, b :| version == a + "\n" + b && NoNewline(a);
    var rest := b + "\n" + sha;
    assert version + "\n" + sha == a + "\n" + rest;
    hide Lines;
    LineThenRest(a, rest);
    LinesOf(rest);
    assert rest[|b|] == '\n';
  }

  /** A marker reads back as what was written if and only if neither part holds a newline;
      otherwise it does not read at all. */
  lemma MarkerReadsBack(version: string, sha: string)
    ensures ReadMarker(MarkerText(version, sha)) == Some(Marker(version, sha)) <==> NoNewline(version) && NoNewline(sha)
    ensures ReadMarker(MarkerText(version, sha)).None? <==> !(NoNewline(version) && NoNewline(sha))
  {
    MarkerParts(version, sha);
    hide Lines, ReadMarker, MarkerText;
    LinesOf(sha);
    if NoNewline(version) {
      LineThenRest(version, sha);
    } else {
      LongMarker(version, sha);
    }
  }

  // ------------------------------------------------------------------ trees

  /** A downloaded file: how long it is, the entries a tar reader finds in it, and whether it
      decodes to the end. */
  datatype Blob = Blob(size: nat, entries: seq<string>, sound: bool)

  datatype Tree = Tree(entries: seq<string>, marker: Option<string>)

  function Lower(c: char): char { if 'A' <= c <= 'Z' then (c as int + 32) as char else c }

  predicate EqualFold(a: string, b: string) {
    |a| == |b| && forall i | 0 <= i < |a| :: Lower(a[i]) == Lower(b[i])
  }

  /** The same character, or the same letter in the other case. */
  predicate Alike(c: char, d: char) {
    || c == d
    || ('A' <= c <= 'Z' && d as int == c as int + 32)
    || ('A' <= d <= 'Z' && c as int == d as int + 32)
  }

  /** A digest agrees with a checksum, position by position. */
  predicate Agrees(digest: string, sha: string) {
    |digest| == |sha| && forall i | 0 <= i < |digest| :: Alike(digest[i], sha[i])
  }

  lemma FoldedMeansAlike(a: string, b: string)
    ensures EqualFold(a, b) <==> Agrees(a, b)
  {
    assert forall c: char, d: char :: Lower(c) == Lower(d) <==> Alike(c, d);
  }

  /** A hexadecimal digit, by its code. */
  predicate HexDigit(c: char) { 48 <= c as int <= 57 || 65 <= c as int <= 70 || 97 <= c as int <= 102 }

  /** Lower-case hexadecimal, as digests are printed. */
  predicate IsDigest(s: string) {
    forall i | 0 <= i < |s| :: '0' <= s[i] <= '9' || 'a' <= s[i] <= 'f'
  }

  /** A digest agrees with a lower-case checksum only if it is equal to it, and no two digests agree
      with one checksum. */
  lemma OneDigestAgrees(a: string, b: string, sha: string)
    requires IsDigest(a) && IsDigest(b) && Agrees(a, sha)
    ensures IsDigest(sha) ==> a == sha
    ensures Agrees(b, sha) ==> a == b
  {
    forall i | 0 <= i < |a| ensures (IsDigest(sha) ==> a[i] == sha[i]) && (Agrees(b, sha) ==> a[i] == b[i]) {
      assert Alike(a[i], sha[i]);
      assert Agrees(b, sha) ==> Alike(b[i], sha[i]);
    }
  }

  predicate IsHex(c: char) { '0' <= c <= '9' || 'a' <= c <= 'f' || 'A' <= c <= 'F' }

  predicate ShaAllowed(sha: string, allowUnverified: bool) {
    if sha == "" then allowUnverified else |sha| == 64 && forall i | 0 <= i < |sha| :: IsHex(sha[i])
  }

  /** safeComponent: a name that is its own base name; a lone slash is, too. */
  predicate SafeComponent(name: string) {
    name != "" && name != "." && name != ".." && (name == "/" || '/' !in name)
  }

  /** What Ensure accepts: a version that is one name, and a checksum of 64 hexadecimal digits, or none
      where that is allowed. */
  ghost predicate Acceptable(version: string, sha: string, allowUnverified: bool) {
    && |version| > 0 && version != "." && version != ".." && ('/' in version ==> version == "/")
    && if |sha| == 0 then allowUnverified else |sha| == 64 && forall i | 0 <= i < |sha| :: HexDigit(sha[i])
  }

  lemma AcceptedInput(version: string, sha: string, allowUnverified: bool)
    ensures Acceptable(version, sha, allowUnverified) <==> SafeComponent(version) && ShaAllowed(sha, allowUnverified)
  {}

  class Manager {
    const hash: Blob -> string
    const origin: string -> Blob // what can be downloaded for each version
    var template: Option<Tree>
    var staging: Option<Tree>
    var backups: map<nat, Tree>
    var cache: map<string, Blob>
    ghost var downloads: nat // how many were begun
    ghost var installed: bool // a genuine tree was at the template's path at some time

    predicate Verified(blob: Blob, sha: string) {
      sha == "" || EqualFold(hash(blob), sha)
    }

    /** A tree unpacked to the end from an archive that passed verification against the sha of
        its marker. */
    ghost predicate GenuineFor(t: Tree, version: string, sha: string) {
      t.marker == Some(MarkerText(version, sha))
      && exists blob: Blob :: blob.sound && t.entries == blob.entries && Verified(blob, sha)
    }

    ghost predicate Genuine(t: Tree) {
      exists version, sha :: GenuineFor(t, version, sha)
    }

    /** Some genuine tree is in the template's place, or kept as a backup of it. */
    ghost predicate GenuineSurvives()
      reads this`template, this`backups
    {
      || (template.Some? && Genuine(template.value))
      || exists b <- backups :: Genuine(backups[b])
    }

    /** A tree in the template's place whose marker reads was completed, by this or an earlier
        run of the program; and once one was installed, a complete one survives. */
    ghost predicate Valid()
      reads this`template, this`backups, this`installed
    {
      && (template.Some? && template.value.marker.Some? && ReadMarker(template.value.marker.value).Some? ==>
          Genuine(template.value))
      && (installed ==> GenuineSurvives())
    }

    constructor (hash: Blob -> string, origin: string -> Blob)
      ensures Valid() && template.None? && this.hash == hash && this.origin == origin && !installed
    {
      this.hash, this.origin, downloads, installed := hash, origin, 0, false;
      template, staging, backups, cache := None, None, map[], map[];
    }

    /** The marker in the template's place reads as this version and checksum. */
    predicate Marked(version: string, sha: string)
      reads this`template
    {
      template.Some? && template.value.marker.Some?
          && ReadMarker(template.value.marker.value) == Some(Marker(version, sha))
    }

    /** The template holds the entries of a sound archive whose digest agrees with the checksum, if
        there is one, and its marker says version and checksum. */
    ghost predicate Holds(version: string, sha: string)
      reads this`template
    {
      && template.Some? && template.value.marker == Some(version + "\n" + sha + "\n")
      && exists blob: Blob ::
           blob.sound && template.value.entries == blob.entries && (sha != "" ==> Agrees(hash(blob), sha))
    }

    lemma GenuineHolds(version: string, sha: string)
      requires template.Some? && GenuineFor(template.value, version, sha)
      ensures Holds(version, sha)
    {
      var blob: Blob :| blob.sound && template.value.entries == blob.entries && Verified(blob, sha);
      FoldedMeansAlike(hash(blob), sha);
    }

    method TemplateMatches(version: string, sha: string) returns (ok: bool)
      requires Valid()
      ensures ok <==> Marked(version, sha)
      ensures ok ==> template.Some? && GenuineFor(template.value, version, sha)
    {
      ok := false;
      if template.Some? && template.value.marker.Some? {
        var text := template.value.marker.value;
        var m := ReadMarker(text);
        if m.Some? && m.value == Marker(version, sha) {
          ghost var v, s :| GenuineFor(template.value, v, s);
          MarkerReadsBack(v, s);
          ok := true;
        }
      }
    }

    /** cacheUsable */
    predicate Usable(version: string)
      reads this`cache
    {
      version in cache && cache[version].size != 0
    }

    /** download: into a temporary file and then by rename, so the cache changes only on success. */
    method Download(version: string, mayFail: bool) returns (ok: bool)
      modifies this`cache, this`downloads
      ensures downloads == old(downloads) + 1
      ensures ok ==> version in cache && cache == old(cache)[version := cache[version]]
      ensures !ok ==> cache == old(cache)
      ensures !mayFail ==> ok && cache[version] == origin(version)
    {
      var blob: Blob := *;
      if !mayFail {
        blob := origin(version);
      }
      var works := Succeeds(mayFail);
      downloads := downloads + 1;
      if !works {
        return false;
      }
      cache := cache[version := blob];
      return true;
    }

    /** verify */
    method Verify(version: string, sha: string, mayFail: bool) returns (err: bool, ok: bool)
      ensures !err && ok && version in cache ==> Verified(cache[version], sha)
      ensures !err && !ok ==> version in cache && !Verified(cache[version], sha)
      ensures !err && sha != "" ==> version in cache && (ok <==> Agrees(hash(cache[version]), sha))
      ensures !mayFail && version in cache ==> !err
    {
      var works := Succeeds(mayFail);
      if !works {
        return true, false;
      }
      if sha == "" {
        return false, true;
      }
      if version !in cache {
        return true, false;
      }
      FoldedMeansAlike(hash(cache[version]), sha);
      return false, EqualFold(hash(cache[version]), sha);
    }

    /** The archive that is unpacked if nothing fails: the cached one if it is usable and verifies,
        and otherwise the one that can be downloaded. */
    function Archive(version: string, sha: string): Blob
      reads this`cache
    {
      if Usable(version) && Verified(cache[version], sha) then cache[version] else origin(version)
    }

    /** The two attempts of Ensure: a mismatch discards the cached archive and downloads it once
        more; a second one gives up. Never more than one download beyond a missing archive, and
        none if the cached one is usable and verifies. */
    method Obtain(version: string, sha: string, mayFail: bool) returns (ok: bool)
      modifies this`cache, this`downloads
      ensures ok ==> version in cache && Verified(cache[version], sha)
      ensures var archive := old(Archive(version, sha));
        !mayFail ==> (ok <==> Verified(archive, sha)) && (ok ==> cache[version] == archive)
      ensures downloads <= old(downloads) + if old(Usable(version)) then 1 else 2
      ensures old(Usable(version)) && Verified(old(cache)[version], sha) ==>
        downloads == old(downloads) && cache == old(cache)
      ensures version !in old(cache) || old(cache)[version].size == 0 ==> downloads > old(downloads)
      ensures downloads == old(downloads) ==> cache.Keys <= old(cache).Keys && (ok ==> cache == old(cache))
      ensures forall v | v != version :: (v in cache <==> v in old(cache)) && (v in cache ==> cache[v] == old(cache)[v])
    {
      if !Usable(version) {
        var got := Download(version, mayFail);
        if !got {
          return false;
        }
      }
      for attempt := 0 to 2
        invariant version in cache && attempt < 2
        invariant downloads <= old(downloads) + attempt + if old(Usable(version)) then 0 else 1
        invariant old(Usable(version)) && attempt == 0 ==> downloads == old(downloads) && cache == old(cache)
        invariant old(Usable(version)) && Verified(old(cache)[version], sha) ==> attempt == 0
        invariant downloads >= old(downloads) + attempt
        invariant downloads == old(downloads) ==> cache == old(cache)
        invariant !mayFail ==>
          cache[version] == if downloads == old(downloads) then old(cache)[version] else origin(version)
        invariant !old(Usable(version)) ==> downloads > old(downloads)
        invariant !mayFail && attempt == 1 ==> !(old(Usable(version)) && Verified(old(cache)[version], sha))
        invariant forall v | v != version ::
          (v in cache <==> v in old(cache)) && (v in cache ==> cache[v] == old(cache)[v])
      {
        var err, match_ := Verify(version, sha, mayFail);
        var goesOn := Succeeds(mayFail);
        var works := Succeeds(mayFail);
        if err || !goesOn {
          return false;
        }
        if match_ {
          break;
        }
        if works {
          cache := cache - {version};
        }
        if attempt == 1 || !works {
          return false;
        }
        var got := Download(version, mayFail);
        if !got {
          return false;
        }
      }
      return true;
    }

    /** extract up to the promotion: every entry, then the marker, into a fresh staging tree. */
    method Unpack(blob: Blob, version: string, sha: string, mayFail: bool) returns (ok: bool)
      requires Verified(blob, sha)
      modifies this`staging
      ensures !mayFail ==> (ok <==> blob.sound)
      ensures ok ==> staging.Some? && GenuineFor(staging.value, version, sha)
    {
      staging := Some(Tree([], None));
      for i := 0 to |blob.entries|
        invariant staging == Some(Tree(blob.entries[..i], None))
      {
        var works := Succeeds(mayFail);
        if !works {
          return false;
        }
        staging := Some(Tree(staging.value.entries + [blob.entries[i]], None));
        assert blob.entries[..i + 1] == blob.entries[..i] + [blob.entries[i]];
      }
      assert blob.entries[..|blob.entries|] == blob.entries;
      var works := Succeeds(mayFail);
      if !blob.sound || !works {
        return false;
      }
      staging := Some(staging.value.(marker := Some(MarkerText(version, sha))));
      return true;
    }

    /** promote. On failure the old tree is in its place, unless restoring it failed as well, and
        then it is the backup. */
    method Promote(mayFail: bool) returns (ok: bool)
      requires staging.Some?
      modifies this`template, this`backups, this`staging
      ensures !mayFail ==> ok && backups == old(backups)
      ensures ok ==> template == old(staging) && staging.None?
      ensures !ok ==>
        || (template == old(template) && backups == old(backups))
        || (template.None? && old(template).Some? && exists b <- backups ::
            b !in old(backups) && backups == old(backups)[b := old(template).value])
      ensures forall b <- old(backups) :: b in backups && backups[b] == old(backups)[b]
    {
      var works := Succeeds(mayFail);
      var goesOn := Succeeds(mayFail);
      if !works || !goesOn {
        return false;
      }
      var backup := FreshBackup();
      var movedOld := false;
      goesOn := Succeeds(mayFail);
      if !goesOn {
        return false;
      }
      if template.Some? {
        works := Succeeds(mayFail);
        if !works {
          return false;
        }
        backups := backups[backup := template.value];
        template := None;
        movedOld := true;
      }
      goesOn := Succeeds(mayFail);
      works := Succeeds(mayFail);
      if !goesOn || !works {
        if movedOld {
          var restored: bool := *;
          if !restored {
            return false;
          }
          template := Some(backups[backup]);
          backups := backups - {backup};
        }
        return false;
      }
      template := staging;
      staging := None;
      if movedOld {
        var rest: Tree := *;
        var removed := Succeeds(mayFail);
        if removed {
          backups := backups - {backup};
        } else {
          backups := backups[backup := rest]; // part of it may be left
        }
      }
      return true;
    }

    method FreshBackup() returns (b: nat)
      ensures b !in backups
    {
      b := 0;
      ghost var below: set<nat> := {};
      while b in backups
        invariant below <= backups.Keys && |below| == b && forall i | i in below :: i < b
        decreases |backups.Keys| - b
      {
        below := below + {b};
        b := b + 1;
        SubsetSize(below, backups.Keys);
      }
    }

    /** Ensure. Success means the template is a tree unpacked to the end from an archive that was
        verified against sha, and its marker is version and sha. On failure the old template is
        in its place, or, if putting it back failed, among the backups. A template that matches
        already is left alone, and nothing is downloaded for it. */
    method Ensure(version: string, sha: string, allowUnverified: bool, mayFail: bool) returns (ok: bool)
      requires Valid()
      modifies this
      ensures Valid() && (old(installed) ==> installed)
      ensures ok ==> installed && template.Some? && GenuineFor(template.value, version, sha)
      ensures ok ==> Holds(version, sha)
      ensures ok ==> Acceptable(version, sha, allowUnverified)
      ensures !mayFail ==>
        (ok <==> Acceptable(version, sha, allowUnverified)
                 && (old(Marked(version, sha))
                     || (Verified(old(Archive(version, sha)), sha) && old(Archive(version, sha)).sound)))
      ensures !ok ==>
        || template == old(template)
        || (template.None? && old(template).Some? && exists b <- backups ::
            b !in old(backups) && backups[b] == old(template).value)
      ensures !mayFail && Acceptable(version, sha, allowUnverified) ==>
        cache.Keys <= {version} && backups == old(backups)
      ensures old(Marked(version, sha)) ==>
        template == old(template) && staging == old(staging) && backups == old(backups) && downloads == old(downloads)
      ensures downloads <= old(downloads) + if old(Usable(version)) then 1 else 2
      ensures forall b <- old(backups) :: b in backups && backups[b] == old(backups)[b]
    {
      AcceptedInput(version, sha, allowUnverified);
      hide Lines, ReadMarker, MarkerText, GenuineFor, EqualFold, Acceptable, SafeComponent, ShaAllowed, Holds, Agrees;
      var goesOn := Succeeds(mayFail);
      if !goesOn || !SafeComponent(version) || !ShaAllowed(sha, allowUnverified) {
        return false;
      }
      EvictStale(version, mayFail);
      ok := TemplateMatches(version, sha);
      if ok {
        installed := true;
        GenuineHolds(version, sha);
        return;
      }
      ok := Obtain(version, sha, mayFail);
      if !ok {
        return;
      }
      ok := Unpack(cache[version], version, sha, mayFail);
      ghost var had, kept := template, backups;
      if ok {
        ok := Promote(mayFail);
      }
      if ok {
        installed := true;
        GenuineHolds(version, sha);
      } else {
        staging := None;
        if template != had {
          ghost var b :| b in backups && b !in kept && backups == kept[b := had.value];
          assert backups[b] == had.value;
        }
        StillSurvives(had, kept);
      }
    }

    lemma StillSurvives(had: Option<Tree>, kept: map<nat, Tree>)
      requires forall b <- kept :: b in backups && backups[b] == kept[b]
      requires template == had || (template.None? && had.Some? && exists b <- backups :: backups[b] == had.value)
      requires installed ==> (had.Some? && Genuine(had.value)) || exists b <- kept :: Genuine(kept[b])
      ensures installed ==> GenuineSurvives()
    {
      hide Genuine;
      if installed {
        if had.Some? && Genuine(had.value) {
          if template.None? {
            var b :| b in backups && backups[b] == had.value;
            assert Genuine(backups[b]);
          }
        } else {
          var b :| b in kept && Genuine(kept[b]);
          assert Genuine(backups[b]);
        }
      }
    }

    /** evictStaleTarballs: best effort. */
    method EvictStale(version: string, mayFail: bool)
      modifies this`cache
      ensures !mayFail ==> cache.Keys <= {version}
      ensures cache.Keys <= old(cache).Keys
        && (version in old(cache) ==> version in cache && cache[version] == old(cache)[version])
    {
      var todo := cache.Keys - {version};
      while todo != {}
        invariant version !in todo && cache.Keys <= old(cache).Keys
        invariant !mayFail ==> cache.Keys <= todo + {version}
        invariant version in old(cache) ==> version in cache && cache[version] == old(cache)[version]
        decreases todo
      {
        var v :| v in todo;
        todo := todo - {v};
        var removed := Succeeds(mayFail);
        if removed {
          cache := cache - {v};
        }
      }
    }
  }
}
