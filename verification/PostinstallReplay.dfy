/** Replaying a postinstall script from the store gives what running it gave: contents and
    link targets exactly when the script deleted nothing and the stored files still hold what
    was stored, modes exactly when no two files of different modes end up as one. */
module PostinstallReplay {
  import opened Wrappers
  import opened Framing
  import opened Postinstall

  // ---- Packages ----------------------------------------------------------------------------

  // A package directory, and the disk with the store it lies on.
  datatype Package = Package(disk: Disk, dir: Dir)
  {
    ghost predicate Well() { WellDisk(disk) && WellDir(disk, dir) }

    ghost predicate IsFile(p: string) {
      p in dir && dir[p].File? && dir[p].ino in disk.inodes
    }

    function Bytes(p: string): string
      requires IsFile(p)
    {
      disk.inodes[dir[p].ino].data
    }

    function ModeOf(p: string): Mode
      requires IsFile(p)
    {
      disk.inodes[dir[p].ino].mode
    }
  }

  // A path is the same in both: the same link, or a file with the same bytes.
  ghost predicate SameFile(a: Package, b: Package, p: string)
    requires p in a.dir && p in b.dir
  {
    match a.dir[p]
    case Link(t) => b.dir[p] == a.dir[p]
    case File(_) => a.IsFile(p) && b.IsFile(p) && b.Bytes(p) == a.Bytes(p)
  }

  ghost predicate SameMode(a: Package, b: Package, p: string)
    requires p in a.dir && p in b.dir
  {
    a.dir[p].File? && b.dir[p].File? ==> a.IsFile(p) && b.IsFile(p) && b.ModeOf(p) == a.ModeOf(p)
  }

  // The two hold the same paths with the same contents and link targets.
  ghost predicate SameContents(a: Package, b: Package) {
    a.dir.Keys == b.dir.Keys && forall p :: p in a.dir ==> SameFile(a, b, p)
  }

  ghost predicate SameModes(a: Package, b: Package) {
    forall p :: p in a.dir && p in b.dir ==> SameMode(a, b, p)
  }

  // The path is new, or differs, in the second package.
  ghost predicate Changed(a: Package, b: Package, p: string)
    requires p in b.dir
  {
    p !in a.dir || !SameFile(a, b, p) || !SameMode(a, b, p)
  }

  // The path is a file of the second package, and changed.
  ghost predicate Wrote(a: Package, b: Package, p: string) {
    b.IsFile(p) && Changed(a, b, p)
  }

  // ---- The first run -----------------------------------------------------------------------

  // The task whose script is cached, and what hashing is idealised to: no collision among
  // file contents and task inputs, and no file that spells out a task's inputs.
  datatype Setting = Setting(
    hash: string -> string,
    codec: Codec,
    contents: iset<string>,
    tasks: iset<string>,
    task: string)
  {
    function Key(): string { hash(task) }

    ghost predicate Ideal() {
      CollisionFree(hash, contents + tasks) && contents !! tasks && task in tasks && Faithful(codec)
    }
  }

  // Every file of the package holds one of these contents.
  ghost predicate Holds(contents: iset<string>, a: Package) {
    forall p :: p in a.dir && a.dir[p].File? ==> a.IsFile(p) && a.Bytes(p) in contents
  }

  type Script = (Disk, Dir) -> (bool, Disk, Dir)

  ghost predicate RunsOn(hash: string -> string, a: Package, d1: Disk) {
    a.Well() && Captured(hash, a.disk, a.dir, d1)
  }

  // Run on the captured disk, the script succeeds and leaves the store's table of files
  // alone. It may write to any file, linked to the store or not.
  ghost predicate ScriptFits(s: Setting, script: Script, a: Package) {
    forall d1 :: RunsOn(s.hash, a, d1) ==>
      var (ok, d2, dir2) := script(d1, a.dir);
      ok && Package(d2, dir2).Well() && d2.cas == d1.cas && Holds(s.contents, Package(d2, dir2))
  }

  // A first run of the phase for a task: nothing is stored under its key, and the script succeeds.
  ghost predicate ColdRun(s: Setting, links: Links, script: Script, a: Package, b: Package) {
    && s.Ideal() && a.Well() && Holds(s.contents, a) && s.Key() !in a.disk.cas
    && ScriptFits(s, script, a)
    && PhaseSpec(s.hash, s.codec, s.Key(), links, script, a.disk, a.dir, b.disk, b.dir)
  }

  // Some time later: no key has left the store, the task's own record reads as it did, and a
  // package looks like the one the script was run on.
  ghost predicate Later(s: Setting, a: Package, b: Package, e: Package) {
    && e.Well() && b.disk.cas.Keys <= e.disk.cas.Keys && Get(e.disk, s.Key()) == Get(b.disk, s.Key())
    && SameContents(a, e) && SameModes(a, e)
  }

  // The file stored for the bytes of q holds them.
  ghost predicate IntactAt(s: Setting, b: Package, d: Disk, q: string)
    requires b.IsFile(q)
  {
    Get(d, s.hash(b.Bytes(q))) == Some(b.Bytes(q))
  }

  // So it is for every file the script wrote: rehashing the stored files would tell.
  ghost predicate Intact(s: Setting, a: Package, b: Package, d: Disk) {
    forall q :: Wrote(a, b, q) ==> IntactAt(s, b, d, q)
  }

  // What the restore makes of a package.
  function Replayed(s: Setting, links: Links, e: Package): (Outcome, Package) {
    var (out, d, dir) := Restore(s.codec, s.Key(), links, e.disk, e.dir);
    (out, Package(d, dir))
  }

  // ---- The difference ----------------------------------------------------------------------

  ghost predicate OnePerPath(m: Manifest) {
    forall i, j :: 0 <= i < j < |m| ==> m[i].relPath != m[j].relPath
  }

  lemma {:induction false} DiffExact(before: Manifest, after: Manifest)
    requires OnePerPath(after)
    ensures OnePerPath(Diff(before, after))
    ensures forall e :: e in Diff(before, after) <==> e in after && !Unchanged(before, e)
  {
    if after != [] {
      var rest := after[1..];
      DiffExact(before, rest);
      assert after == [after[0]] + rest;
      var dr := Diff(before, rest);
      forall i | 0 <= i < |dr|
        ensures dr[i].relPath != after[0].relPath
      {
        assert dr[i] in rest;
      }
    }
  }

  // ---- Restoring ----------------------------------------------------------------------------

  function Paths(m: Manifest): set<string> {
    set e | e in m :: e.relPath
  }

  // Everything the manifest needs is in the store.
  ghost predicate Stocked(m: Manifest, d: Disk) {
    forall e :: e in m && e.kind.Regular? ==> e.contentHash in d.cas && d.cas[e.contentHash] in d.inodes
  }

  // The entry is in place: a link into the store, or a copy of the stored file.
  ghost predicate Placed(links: Links, d: Disk, r: Restoring, e: ManifestEntry) {
    && e.relPath in r.dir
    && match e.kind
       case Symlink(t) => r.dir[e.relPath] == Link(t)
       case Regular =>
         && e.contentHash in d.cas && d.cas[e.contentHash] in d.inodes
         && r.dir[e.relPath].File? && r.dir[e.relPath].ino in r.disk.inodes
         && r.disk.inodes[r.dir[e.relPath].ino].data == d.inodes[d.cas[e.contentHash]].data
         && if links(e.relPath) then r.dir[e.relPath].ino == d.cas[e.contentHash]
            else r.dir[e.relPath].ino >= d.next && r.disk.inodes[r.dir[e.relPath].ino].mode == e.mode
  }

  ghost predicate Stored(d: Disk, i: nat) {
    exists k :: k in d.cas && d.cas[k] == i
  }

  // The disk keeps its files; only the modes of stored ones may have changed.
  ghost predicate DiskKept(d: Disk, d': Disk) {
    && d'.cas == d.cas && d'.next >= d.next
    && (forall i :: i in d.inodes ==> i in d'.inodes && d'.inodes[i].data == d.inodes[i].data)
    && (forall i :: i in d.inodes && !Stored(d, i) ==> d'.inodes[i] == d.inodes[i])
    && (forall i :: i in d'.inodes ==> i < d'.next)
  }

  ghost predicate Rebuilt(links: Links, m: Manifest, d: Disk, dir: Dir, r: Restoring) {
    && r.ok && DiskKept(d, r.disk)
    && r.dir.Keys == dir.Keys + Paths(m)
    && (forall p :: p in dir && p !in Paths(m) ==> r.dir[p] == dir[p])
    && (forall e :: e in m ==> Placed(links, d, r, e))
  }

  lemma {:induction false} RestoreRebuilds(links: Links, m: Manifest, d: Disk, dir: Dir)
    requires WellDisk(d) && OnePerPath(m) && Stocked(m, d)
    ensures Rebuilt(links, m, d, dir, RestoreAll(links, m, d, dir))
  {
    hide Placed, DiskKept;
    if m == [] {
      assert dir.Keys + Paths(m) == dir.Keys;
      KeptReflexive(d);
    } else {
      var front, e := m[..|m| - 1], m[|m| - 1];
      assert m == front + [e] && e in m;
      RestoreRebuilds(links, front, d, dir);
      PlaceOne(links, front, e, d, dir, RestoreAll(links, front, d, dir));
    }
  }

  // A restore of entries gets through exactly when the store has a file for every regular one.
  lemma {:induction false} RestoreSucceeds(links: Links, m: Manifest, d: Disk, dir: Dir)
    requires WellDisk(d)
    ensures var r := RestoreAll(links, m, d, dir);
      && (r.ok <==> forall e :: e in m && e.kind.Regular? ==> e.contentHash in d.cas)
      && WellDisk(r.disk) && r.disk.cas == d.cas
    decreases |m|
  {
    if m != [] {
      var front, e := m[..|m| - 1], m[|m| - 1];
      RestoreSucceeds(links, front, d, dir);
      assert forall f :: f in m <==> f in front || f == e;
    }
  }

  // Otherwise it stops at the first missing one, whose path is gone; what came before is in place.
  lemma {:induction false} RestoreStops(links: Links, m: Manifest, d: Disk, dir: Dir, k: nat)
    requires WellDisk(d) && OnePerPath(m) && k < |m| && m[k].kind.Regular? && m[k].contentHash !in d.cas
    requires forall e :: e in m[..k] && e.kind.Regular? ==> e.contentHash in d.cas
    ensures Rebuilt(links, m[..k], d, dir, RestoreAll(links, m[..k], d, dir))
    ensures RestoreAll(links, m, d, dir) ==
      RestoreAll(links, m[..k], d, dir).(ok := false, dir := RestoreAll(links, m[..k], d, dir).dir - {m[k].relPath})
  {
    RestoreRebuilds(links, m[..k], d, dir);
    RestoreSucceeds(links, m[..k], d, dir);
    hide Rebuilt, WellDisk;
    assert m[..k + 1][..k] == m[..k] && m[..k + 1][k] == m[k];
    FailureSticks(links, m, d, dir, k + 1);
  }

  // What a restore answers, and that an answer of Restored means every entry is in place.
  lemma {:induction false} RestoreAnswers(c: Codec, key: string, links: Links, d: Disk, dir: Dir, m: Manifest)
    requires WellDisk(d)
    ensures var (out, d', dir') := Restore(c, key, links, d, dir);
      && (out == Absent <==> key !in d.cas)
      && (out == Absent || Get(d, key) == Some("{\"empty\":true}") ==> d' == d && dir' == dir)
      && (Get(d, key) == Some("{\"empty\":true}") ==> out == Restored)
      && (Get(d, key).Some? && Get(d, key).value != "{\"empty\":true}" && c.fromJson(Get(d, key).value) == None ==>
           out == IoError && d' == d && dir' == dir)
      && (Get(d, key).Some? && Get(d, key).value != "{\"empty\":true}" && c.fromJson(Get(d, key).value) == Some(m) ==>
           && (out == Restored <==> forall e :: e in m && e.kind.Regular? ==> e.contentHash in d.cas)
           && (out == Restored && OnePerPath(m) ==> Rebuilt(links, m, d, dir, Restoring(true, d', dir'))))
  {
    RestoreSucceeds(links, m, d, dir);
    if OnePerPath(m) && Stocked(m, d) {
      RestoreRebuilds(links, m, d, dir);
    }
    hide Rebuilt, RestoreAll, OnePerPath;
  }

  // What a walk records of a path: a file by the hash of its bytes and its mode, a link by its
  // target, with 32 zero bytes and no mode.
  lemma {:induction false} CapturedEntry(hash: string -> string, d: Disk, dir: Dir, m: Manifest, d': Disk, p: string)
    returns (e: ManifestEntry)
    requires CaptureSpec(hash, d, dir, m, d') && p in dir
    ensures e in m && e.relPath == p
    ensures dir[p].File? ==>
      && e.kind == Regular && dir[p].ino in d.inodes
      && e.contentHash == hash(d.inodes[dir[p].ino].data) && e.mode == d.inodes[dir[p].ino].mode
    ensures dir[p].Link? ==>
      && e.kind == Symlink(dir[p].target) && e.mode == 0
      && |e.contentHash| == 32 && forall k :: 0 <= k < 32 ==> e.contentHash[k] == '\0'
  {
    e := EntryOf(hash, d, p, dir[p]);
  }

  // A script that fails leaves nothing of itself in the store: the disk is as it left it, on one
  // that had the files of the directory captured before, and no more.
  lemma {:induction false} FailedScript(hash: string -> string, c: Codec, key: string, links: Links, script: Script,
                                        d: Disk, dir: Dir, d': Disk, dir': Dir) returns (d1: Disk)
    requires WellDisk(d) && WellDir(d, dir) && key !in d.cas
    requires PhaseSpec(hash, c, key, links, script, d, dir, d', dir')
    requires forall d1 :: RunsOn(hash, Package(d, dir), d1) ==> !script(d1, dir).0
    ensures RunsOn(hash, Package(d, dir), d1) && script(d1, dir) == (false, d', dir')
  {
    var before;
    before, d1 :| CaptureSpec(hash, d, dir, before, d1)
                  && AfterCapture(hash, c, key, script, before, d1, dir, d', dir');
    assert RunsOn(hash, Package(d, dir), d1);
  }

  lemma KeptReflexive(d: Disk)
    requires WellDisk(d)
    ensures DiskKept(d, d)
  {
  }

  lemma PlaceOne(links: Links, front: Manifest, e: ManifestEntry, d: Disk, dir: Dir, r: Restoring)
    requires WellDisk(d) && Rebuilt(links, front, d, dir, r) && OnePerPath(front + [e])
    requires e.kind.Regular? ==> e.contentHash in d.cas && d.cas[e.contentHash] in d.inodes
    ensures Rebuilt(links, front + [e], d, dir, RestoreOne(links, e, r.disk, r.dir))
  {
    hide Placed, DiskKept, Stored;
    var r' := RestoreOne(links, e, r.disk, r.dir);
    var m := front + [e];
    assert Paths(m) == Paths(front) + {e.relPath};
    PlacedNow(links, e, d, r);
    forall f | f in m
      ensures Placed(links, d, r', f)
    {
      if f in front {
        var i :| 0 <= i < |front| && front[i] == f;
        assert m[i] == f && m[|front|] == e;
        PlacedStill(links, e, d, r, f);
      }
    }
  }

  // Restoring one more entry puts it in place and keeps the disk.
  lemma PlacedNow(links: Links, e: ManifestEntry, d: Disk, r: Restoring)
    requires WellDisk(d) && r.ok && DiskKept(d, r.disk)
    requires e.kind.Regular? ==> e.contentHash in d.cas && d.cas[e.contentHash] in d.inodes
    ensures var r' := RestoreOne(links, e, r.disk, r.dir); r'.ok && DiskKept(d, r'.disk) && Placed(links, d, r', e)
  {
    if e.kind.Regular? {
      assert Stored(d, d.cas[e.contentHash]);
    }
  }

  lemma PlacedStill(links: Links, e: ManifestEntry, d: Disk, r: Restoring, f: ManifestEntry)
    requires WellDisk(d) && r.ok && DiskKept(d, r.disk) && Placed(links, d, r, f) && f.relPath != e.relPath
    requires e.kind.Regular? ==> e.contentHash in d.cas && d.cas[e.contentHash] in d.inodes
    ensures Placed(links, d, RestoreOne(links, e, r.disk, r.dir), f)
  {
  }

  ghost predicate LinksTo(links: Links, f: ManifestEntry, d: Disk, i: nat) {
    f.kind.Regular? && links(f.relPath) && f.contentHash in d.cas && d.cas[f.contentHash] == i
  }

  // Entries linked to one stored file carry the same mode.
  ghost predicate Uniform(links: Links, m: Manifest, d: Disk, i: nat) {
    forall f, g :: f in m && g in m && LinksTo(links, f, d, i) && LinksTo(links, g, d, i) ==> f.mode == g.mode
  }

  // Some entry is linked to the file; restoring sets its mode to that of such entries.
  lemma {:induction false} LinkedModes(links: Links, m: Manifest, d: Disk, dir: Dir, i: nat, f: ManifestEntry)
    requires WellDisk(d) && OnePerPath(m) && Stocked(m, d) && Uniform(links, m, d, i)
    requires f in m && LinksTo(links, f, d, i)
    ensures var r := RestoreAll(links, m, d, dir); i in r.disk.inodes && r.disk.inodes[i].mode == f.mode
  {
    hide Placed, RestoreAll;
    var front, last := m[..|m| - 1], m[|m| - 1];
    assert m == front + [last] && last in m;
    RestoreRebuilds(links, front, d, dir);
    if !LinksTo(links, last, d, i) {
      LinkedModes(links, front, d, dir, i, f);
    }
    LastSets(links, m, d, dir, i);
  }

  // The last entry sets the mode of the file it is linked to and of no other.
  lemma LastSets(links: Links, m: Manifest, d: Disk, dir: Dir, i: nat)
    requires m != [] && WellDisk(d) && Stocked(m, d) && i in d.inodes
    requires var r := RestoreAll(links, m[..|m| - 1], d, dir); r.ok && DiskKept(d, r.disk)
    ensures var r0 := RestoreAll(links, m[..|m| - 1], d, dir);
      var r := RestoreAll(links, m, d, dir);
      i in r.disk.inodes &&
        r.disk.inodes[i] == if LinksTo(links, m[|m| - 1], d, i) then r0.disk.inodes[i].(mode := m[|m| - 1].mode)
                            else r0.disk.inodes[i]
  {
    assert m[|m| - 1] in m;
  }

  // A file that nothing is linked to stays as it is.
  lemma {:induction false} UnlinkedKept(links: Links, m: Manifest, d: Disk, dir: Dir, i: nat)
    requires WellDisk(d) && OnePerPath(m) && Stocked(m, d) && i in d.inodes
    requires forall f :: f in m ==> !LinksTo(links, f, d, i)
    ensures var r := RestoreAll(links, m, d, dir); i in r.disk.inodes && r.disk.inodes[i] == d.inodes[i]
  {
    if m != [] {
      hide Placed, RestoreAll;
      var front, last := m[..|m| - 1], m[|m| - 1];
      assert m == front + [last] && last in m;
      UnlinkedKept(links, front, d, dir, i);
      RestoreRebuilds(links, front, d, dir);
      LastSets(links, m, d, dir, i);
    } else {
      NothingToDo(links, d, dir);
    }
  }

  lemma NothingToDo(links: Links, d: Disk, dir: Dir)
    ensures RestoreAll(links, [], d, dir) == Restoring(true, d, dir)
  {
  }

  // ---- What a first run leaves behind ----------------------------------------------------

  // The manifest lists exactly the paths that changed, as they are now.
  ghost predicate Delta(s: Setting, a: Package, b: Package, delta: Manifest) {
    && b.Well() && OnePerPath(delta)
    && (forall f :: f in delta ==> Lists(s, a, b, f))
    && (forall p :: p in b.dir && Changed(a, b, p) ==> EntryOf(s.hash, b.disk, p, b.dir[p]) in delta)
  }

  ghost predicate Lists(s: Setting, a: Package, b: Package, f: ManifestEntry)
    requires b.Well()
  {
    && f.relPath in b.dir && Changed(a, b, f.relPath)
    && f == EntryOf(s.hash, b.disk, f.relPath, b.dir[f.relPath])
  }

  // There is something in the store under the hash of every file.
  ghost predicate AllStored(hash: string -> string, a: Package) {
    forall p :: a.IsFile(p) ==> hash(a.Bytes(p)) in a.disk.cas
  }

  // Two descriptions of a path agree exactly when the path is unchanged.
  lemma SameEntry(s: Setting, a: Package, b: Package, p: string)
    requires s.Ideal() && Holds(s.contents, a) && Holds(s.contents, b) && p in a.dir && p in b.dir
    ensures EntryOf(s.hash, a.disk, p, a.dir[p]) == EntryOf(s.hash, b.disk, p, b.dir[p]) <==> !Changed(a, b, p)
  {
  }

  lemma DiffIsDelta(s: Setting, a: Package, b: Package, before: Manifest, after: Manifest)
    requires s.Ideal() && Holds(s.contents, a) && Holds(s.contents, b) && a.Well() && b.Well()
    requires Describes(s.hash, a.disk, a.dir, before) && Describes(s.hash, b.disk, b.dir, after)
    ensures Delta(s, a, b, Diff(before, after))
  {
    DiffExact(before, after);
    forall f | f in after
      ensures Unchanged(before, f) <==> !Changed(a, b, f.relPath)
    {
      var p := f.relPath;
      if p in a.dir {
        SameEntry(s, a, b, p);
        assert EntryOf(s.hash, a.disk, p, a.dir[p]) in before;
      }
    }
  }

  lemma CaptureGrows(hash: string -> string, d: Disk, dir: Dir, m: Manifest, d': Disk)
    requires WellDisk(d) && CaptureSpec(hash, d, dir, m, d')
    ensures Grown(d, d') && Package(d', dir).Well() && AllStored(hash, Package(d', dir))
    ensures Describes(hash, d', dir, m)
  {
    assert forall p :: p in dir ==> EntryOf(hash, d', p, dir[p]) == EntryOf(hash, d, p, dir[p]);
  }

  // Capturing files never takes a task's key.
  lemma CaptureAvoids(s: Setting, a: Package, d': Disk)
    requires s.Ideal() && Holds(s.contents, a) && RunsOn(s.hash, a, d') && s.Key() !in a.disk.cas
    ensures s.Key() !in d'.cas
  {
    assert s.Key() in d'.cas ==> NewBlob(s.hash, a.disk, a.dir, d', s.Key());
  }

  lemma PutGrows(d: Disk, dir: Dir, key: string, bytes: string)
    requires Package(d, dir).Well() && key !in d.cas
    ensures var d' := Put(d, key, bytes);
      Grown(d, d') && Package(d', dir).Well() && Get(d', key) == Some(bytes) && d'.cas.Keys == d.cas.Keys + {key}
  {
  }

  // What a package looks like does not change as its disk grows.
  lemma GrownSame(hash: string -> string, contents: iset<string>, d: Disk, d': Disk, dir: Dir, m: Manifest)
    requires Package(d, dir).Well() && WellDisk(d') && Grown(d, d') && Describes(hash, d, dir, m)
    requires Holds(contents, Package(d, dir)) && AllStored(hash, Package(d, dir))
    ensures Package(d', dir).Well() && Describes(hash, d', dir, m)
    ensures Holds(contents, Package(d', dir)) && AllStored(hash, Package(d', dir))
  {
    assert forall p :: p in dir ==> EntryOf(hash, d', p, dir[p]) == EntryOf(hash, d, p, dir[p]);
  }

  // The disks of a first run: captured before the script, as it left it, captured after.
  ghost predicate Stages(s: Setting, script: Script, a: Package, b: Package, d1: Disk, d2: Disk, d3: Disk,
                         delta: Manifest)
  {
    && RunsOn(s.hash, a, d1) && script(d1, a.dir) == (true, d2, b.dir) && RunsOn(s.hash, Package(d2, b.dir), d3)
    && s.Key() !in d3.cas && b.disk == StoreDelta(s.codec, s.Key(), delta, d3)
  }

  // After a first run the task's key holds the list of what changed, and the store
  // something under the hash of every file.
  lemma ColdRunStores(s: Setting, links: Links, script: Script, a: Package, b: Package)
    returns (delta: Manifest, d1: Disk, d2: Disk, d3: Disk)
    requires ColdRun(s, links, script, a, b)
    ensures Stages(s, script, a, b, d1, d2, d3, delta)
    ensures Delta(s, a, b, delta) && Holds(s.contents, b) && AllStored(s.hash, b)
    ensures Get(b.disk, s.Key()) == Some(if delta == [] then SENTINEL else s.codec.toJson(delta))
  {
    hide Describes, Captured, Diff, Delta, Put, Holds, AllStored;
    var key := s.Key();
    var before;
    before, d1 :| CaptureSpec(s.hash, a.disk, a.dir, before, d1)
                  && AfterCapture(s.hash, s.codec, key, script, before, d1, a.dir, b.disk, b.dir);
    assert RunsOn(s.hash, a, d1);
    CaptureAvoids(s, a, d1);
    d2 := script(d1, a.dir).1;
    var b2 := Package(d2, b.dir);
    var after;
    after, d3 :| CaptureSpec(s.hash, d2, b.dir, after, d3)
                 && b.disk == StoreDelta(s.codec, key, Diff(before, after), d3);
    assert RunsOn(s.hash, b2, d3);
    CaptureAvoids(s, b2, d3);
    CaptureGrows(s.hash, d2, b.dir, after, d3);
    HoldsGrown(s.contents, d2, d3, b.dir);
    delta := Diff(before, after);
    var bytes := if delta == [] then SENTINEL else s.codec.toJson(delta);
    PutGrows(d3, b.dir, key, bytes);
    GrownSame(s.hash, s.contents, d3, b.disk, b.dir, after);
    DiffIsDelta(s, a, b, before, after);
  }

  lemma HoldsGrown(contents: iset<string>, d: Disk, d': Disk, dir: Dir)
    requires Holds(contents, Package(d, dir)) && Grown(d, d')
    ensures Holds(contents, Package(d', dir))
  {
  }

  // ---- The replay -------------------------------------------------------------------------

  // Restoring the delta succeeds, and so does the whole restore, sentinel or not.
  lemma ReplayRestores(s: Setting, delta: Manifest, links: Links, a: Package, b: Package, e: Package)
    returns (r: Restoring)
    requires Faithful(s.codec) && Delta(s, a, b, delta) && AllStored(s.hash, b) && Later(s, a, b, e)
    requires Get(b.disk, s.Key()) == Some(if delta == [] then SENTINEL else s.codec.toJson(delta))
    ensures Stocked(delta, e.disk) && r == RestoreAll(links, delta, e.disk, e.dir)
    ensures Replayed(s, links, e) == (Restored, Package(r.disk, r.dir))
    ensures Rebuilt(links, delta, e.disk, e.dir, r)
  {
    hide SameContents, SameModes, Rebuilt, Delta;
    DeltaStocked(s, a, b, delta, e);
    OnePath(s, a, b, delta);
    RestoreRebuilds(links, delta, e.disk, e.dir);
    RebuiltOk(links, delta, e.disk, e.dir);
    r := RestoreAll(links, delta, e.disk, e.dir);
    assert Get(e.disk, s.Key()) == Get(b.disk, s.Key());
  }

  lemma DeltaStocked(s: Setting, a: Package, b: Package, delta: Manifest, e: Package)
    requires Delta(s, a, b, delta) && AllStored(s.hash, b) && e.Well() && b.disk.cas.Keys <= e.disk.cas.Keys
    ensures Stocked(delta, e.disk)
  {
    forall f | f in delta && f.kind.Regular?
      ensures f.contentHash in e.disk.cas && e.disk.cas[f.contentHash] in e.disk.inodes
    {
      assert Lists(s, a, b, f) && b.IsFile(f.relPath);
      assert f.contentHash in b.disk.cas.Keys;
    }
  }

  lemma OnePath(s: Setting, a: Package, b: Package, delta: Manifest)
    requires Delta(s, a, b, delta)
    ensures OnePerPath(delta)
  {
  }

  lemma RebuiltOk(links: Links, m: Manifest, d: Disk, dir: Dir)
    requires Rebuilt(links, m, d, dir, RestoreAll(links, m, d, dir))
    ensures RestoreAll(links, m, d, dir).ok
  {
  }

  // What becomes of a path of the directory the script left.
  lemma ReplayedFile(s: Setting, delta: Manifest, links: Links, a: Package, b: Package, e: Package, r: Restoring,
                     p: string)
    requires AllStored(s.hash, b) && Delta(s, a, b, delta) && Later(s, a, b, e)
    requires Rebuilt(links, delta, e.disk, e.dir, r) && p in b.dir
    ensures p in r.dir
    ensures SameFile(b, Package(r.disk, r.dir), p) <==> (Wrote(a, b, p) ==> IntactAt(s, b, e.disk, p))
    ensures Changed(a, b, p) ==> Placed(links, e.disk, r, EntryOf(s.hash, b.disk, p, b.dir[p]))
    ensures !Changed(a, b, p) ==> p in a.dir && p in e.dir && r.dir[p] == e.dir[p]
  {
    if Changed(a, b, p) {
      var f := EntryOf(s.hash, b.disk, p, b.dir[p]);
      assert f in delta && Placed(links, e.disk, r, f);
    } else {
      assert p !in Paths(delta) by {
        forall f | f in delta
          ensures f.relPath != p
        {
          assert Lists(s, a, b, f);
        }
      }
    }
  }

  lemma ReplayedKeys(s: Setting, delta: Manifest, links: Links, a: Package, b: Package, e: Package, r: Restoring)
    requires Delta(s, a, b, delta) && e.dir.Keys == a.dir.Keys && Rebuilt(links, delta, e.disk, e.dir, r)
    ensures r.dir.Keys == a.dir.Keys + b.dir.Keys
  {
    forall p | p in Paths(delta)
      ensures p in b.dir
    {
      var f :| f in delta && f.relPath == p;
      assert Lists(s, a, b, f);
    }
    forall p | p in b.dir && p !in a.dir
      ensures p in Paths(delta)
    {
      assert Changed(a, b, p);
      assert EntryOf(s.hash, b.disk, p, b.dir[p]) in delta;
    }
  }

  // The replay always succeeds, with hard links or copies. It brings back exactly the files
  // whose stored bytes are intact, and every link and every file the script left alone; it
  // is exact just when the script deleted nothing - deletions are not recorded - and all
  // it wrote is intact.
  lemma ReplayContents(s: Setting, links: Links, script: Script, a: Package, b: Package, linksNow: Links, e: Package)
    requires ColdRun(s, links, script, a, b) && Later(s, a, b, e)
    ensures var (out, e') := Replayed(s, linksNow, e);
      && out == Restored && e'.dir.Keys == a.dir.Keys + b.dir.Keys
      && (forall p :: p in b.dir ==> (SameFile(b, e', p) <==> (Wrote(a, b, p) ==> IntactAt(s, b, e.disk, p))))
      && (SameContents(b, e') <==> a.dir.Keys <= b.dir.Keys && Intact(s, a, b, e.disk))
  {
    hide PhaseSpec, Delta, Later, Rebuilt, Holds, AllStored, Restore, RestoreAll, IntactAt;
    var delta, d1, d2, d3 := ColdRunStores(s, links, script, a, b);
    var r := ReplayRestores(s, delta, linksNow, a, b, e);
    LaterKeys(s, a, b, e);
    ReplayedKeys(s, delta, linksNow, a, b, e, r);
    forall p | p in b.dir
      ensures SameFile(b, Package(r.disk, r.dir), p) <==> (Wrote(a, b, p) ==> IntactAt(s, b, e.disk, p))
    {
      ReplayedFile(s, delta, linksNow, a, b, e, r, p);
    }
  }

  // So the later phase ends there, whatever its script would have done: it is not run.
  lemma ScriptNotRun(s: Setting, links: Links, script: Script, a: Package, b: Package,
                     linksNow: Links, scriptNow: Script, e: Package, e': Package)
    requires ColdRun(s, links, script, a, b) && Later(s, a, b, e)
    ensures PhaseSpec(s.hash, s.codec, s.Key(), linksNow, scriptNow, e.disk, e.dir, e'.disk, e'.dir) <==>
      Replayed(s, linksNow, e) == (Restored, e')
  {
    ReplayContents(s, links, script, a, b, linksNow, e);
    hide ColdRun, Later, CaptureSpec, AfterCapture, Restore;
  }

  lemma LaterKeys(s: Setting, a: Package, b: Package, e: Package)
    requires Later(s, a, b, e)
    ensures e.dir.Keys == a.dir.Keys
  {
  }

  // ---- Stores that are whole --------------------------------------------------------------

  ghost predicate KeyOk(s: Setting, d: Disk, k: string)
    requires k in d.cas && d.cas[k] in d.inodes
  {
    || (d.inodes[d.cas[k]].data in s.contents && k == s.hash(d.inodes[d.cas[k]].data))
    || exists t :: t in s.tasks && k == s.hash(t)
  }

  // Every key is the hash of the bytes under it, or that of a task's inputs.
  ghost predicate StoreOk(s: Setting, d: Disk) {
    forall k :: k in d.cas ==> d.cas[k] in d.inodes && KeyOk(s, d, k)
  }

  // Nothing leaves the store and the stored bytes stay; modes may change.
  ghost predicate StoreKept(d: Disk, d': Disk) {
    forall k :: k in d.cas && d.cas[k] in d.inodes ==>
      k in d'.cas && d'.cas[k] in d'.inodes && d'.inodes[d'.cas[k]].data == d.inodes[d.cas[k]].data
  }

  // The script writes to no stored file; files of the package that are not linked to the
  // store it may rewrite in place.
  ghost predicate LeavesStore(s: Setting, script: Script, a: Package) {
    forall d1 :: RunsOn(s.hash, a, d1) ==> StoreKept(d1, script(d1, a.dir).1)
  }

  lemma KeptOk(s: Setting, d: Disk, d': Disk)
    requires StoreOk(s, d) && d'.cas == d.cas && StoreKept(d, d')
    ensures StoreOk(s, d')
  {
    forall k | k in d'.cas
      ensures d'.cas[k] in d'.inodes && KeyOk(s, d', k)
    {
      assert KeyOk(s, d, k);
    }
  }

  lemma CapturedOk(s: Setting, a: Package, d': Disk)
    requires StoreOk(s, a.disk) && Holds(s.contents, a) && RunsOn(s.hash, a, d')
    ensures StoreOk(s, d')
  {
    forall k | k in d'.cas
      ensures d'.cas[k] in d'.inodes && KeyOk(s, d', k)
    {
      if k in a.disk.cas {
        assert KeyOk(s, a.disk, k);
      } else {
        assert NewBlob(s.hash, a.disk, a.dir, d', k);
      }
    }
  }

  lemma PutOk(s: Setting, d: Disk, bytes: string)
    requires s.task in s.tasks && StoreOk(s, d) && WellDisk(d) && s.Key() !in d.cas
    ensures StoreOk(s, Put(d, s.Key(), bytes))
  {
    var d' := Put(d, s.Key(), bytes);
    forall k | k in d'.cas
      ensures d'.cas[k] in d'.inodes && KeyOk(s, d', k)
    {
      if k in d.cas {
        assert KeyOk(s, d, k);
      }
    }
  }

  // A whole store stays so through a first run whose script leaves it alone; while its bytes
  // stay, all the script wrote is intact.
  lemma WholeIsIntact(s: Setting, links: Links, script: Script, a: Package, b: Package, d: Disk)
    requires ColdRun(s, links, script, a, b) && StoreOk(s, a.disk) && LeavesStore(s, script, a) && StoreKept(b.disk, d)
    ensures Intact(s, a, b, d)
  {
    hide PhaseSpec, Delta, StoreOk, StoreKept, Captured, Changed;
    var delta, d1, d2, d3 := ColdRunStores(s, links, script, a, b);
    CapturedOk(s, a, d1);
    KeptOk(s, d1, d2);
    CapturedOk(s, Package(d2, b.dir), d3);
    CapturedWell(s.hash, Package(d2, b.dir), d3);
    PutOk(s, d3, if delta == [] then SENTINEL else s.codec.toJson(delta));
    forall q | Wrote(a, b, q)
      ensures IntactAt(s, b, d, q)
    {
      StoreFinds(s, b, d, q);
    }
  }

  lemma CapturedWell(hash: string -> string, a: Package, d': Disk)
    requires RunsOn(hash, a, d')
    ensures WellDisk(d')
  {
  }

  lemma StoreFinds(s: Setting, b: Package, d: Disk, q: string)
    requires s.Ideal() && StoreOk(s, b.disk) && StoreKept(b.disk, d) && Holds(s.contents, b) && AllStored(s.hash, b)
    requires b.IsFile(q)
    ensures IntactAt(s, b, d, q)
  {
    assert KeyOk(s, b.disk, s.hash(b.Bytes(q)));
  }

  // So with a store that is and stays whole the replay is exact just when nothing was deleted.
  lemma WholeReplay(s: Setting, links: Links, script: Script, a: Package, b: Package, linksNow: Links, e: Package)
    requires ColdRun(s, links, script, a, b) && StoreOk(s, a.disk) && LeavesStore(s, script, a)
    requires Later(s, a, b, e) && StoreKept(b.disk, e.disk)
    ensures var (_, e') := Replayed(s, linksNow, e); SameContents(b, e') <==> a.dir.Keys <= b.dir.Keys
  {
    WholeIsIntact(s, links, script, a, b, e.disk);
    ReplayContents(s, links, script, a, b, linksNow, e);
    hide ColdRun, Later, Intact, Restore, SameContents;
  }

  // ---- Modes --------------------------------------------------------------------------------

  // A written file becomes the stored file of its bytes, if it can be linked; a file left
  // alone stays the file it is.
  ghost predicate EndsAs(s: Setting, links: Links, a: Package, b: Package, e: Package, p: string, i: nat) {
    && b.IsFile(p)
    && if Changed(a, b, p) then
         links(p) && s.hash(b.Bytes(p)) in e.disk.cas && e.disk.cas[s.hash(b.Bytes(p))] == i
       else p in e.dir && e.dir[p] == File(i)
  }

  // No file that ends up as the same one as a written file has another mode.
  ghost predicate NoClash(s: Setting, links: Links, a: Package, b: Package, e: Package) {
    forall p, q, i :: Wrote(a, b, q) && EndsAs(s, links, a, b, e, q, i) && EndsAs(s, links, a, b, e, p, i) ==>
      b.ModeOf(p) == b.ModeOf(q)
  }

  // Copies always get their modes back; hard links exactly when no two modes meet in one file.
  lemma ReplayModes(s: Setting, links: Links, script: Script, a: Package, b: Package, linksNow: Links, e: Package)
    requires ColdRun(s, links, script, a, b) && Later(s, a, b, e)
    ensures var (_, e') := Replayed(s, linksNow, e); SameModes(b, e') <==> NoClash(s, linksNow, a, b, e)
  {
    hide PhaseSpec, Delta, Later, Rebuilt, Holds, AllStored, Restore, RestoreAll, SameModes, NoClash, Stocked;
    var delta, d1, d2, d3 := ColdRunStores(s, links, script, a, b);
    var r := ReplayRestores(s, delta, linksNow, a, b, e);
    if NoClash(s, linksNow, a, b, e) {
      ModesReplayed(s, delta, linksNow, a, b, e, r);
    } else {
      ModesClash(s, delta, linksNow, a, b, e, r);
    }
  }

  lemma ModesReplayed(s: Setting, delta: Manifest, links: Links, a: Package, b: Package, e: Package, r: Restoring)
    requires AllStored(s.hash, b) && Delta(s, a, b, delta) && Later(s, a, b, e) && Stocked(delta, e.disk)
    requires r == RestoreAll(links, delta, e.disk, e.dir) && Rebuilt(links, delta, e.disk, e.dir, r)
    requires NoClash(s, links, a, b, e)
    ensures SameModes(b, Package(r.disk, r.dir))
  {
    hide RestoreAll, Delta, Later, Rebuilt, AllStored, NoClash, Stocked, IntactAt;
    forall p | p in b.dir && p in r.dir
      ensures SameMode(b, Package(r.disk, r.dir), p)
    {
      ReplayedFile(s, delta, links, a, b, e, r, p);
      if b.dir[p].File? {
        if Changed(a, b, p) {
          WrittenMode(s, delta, links, a, b, e, r, p);
        } else {
          KeptMode(s, delta, links, a, b, e, r, p);
        }
      }
    }
  }

  // Entries linked to one stored file come from files that end up as it.
  lemma UniformDelta(s: Setting, delta: Manifest, links: Links, a: Package, b: Package, e: Package, i: nat)
    requires Delta(s, a, b, delta) && NoClash(s, links, a, b, e)
    ensures Uniform(links, delta, e.disk, i)
  {
    forall f, g | f in delta && g in delta && LinksTo(links, f, e.disk, i) && LinksTo(links, g, e.disk, i)
      ensures f.mode == g.mode
    {
      LinkedEnds(s, delta, links, a, b, e, f, i);
      LinkedEnds(s, delta, links, a, b, e, g, i);
    }
  }

  lemma LinkedEnds(s: Setting, delta: Manifest, links: Links, a: Package, b: Package, e: Package, f: ManifestEntry,
                   i: nat)
    requires Delta(s, a, b, delta) && f in delta && LinksTo(links, f, e.disk, i)
    ensures Wrote(a, b, f.relPath) && EndsAs(s, links, a, b, e, f.relPath, i) && b.ModeOf(f.relPath) == f.mode
  {
    assert Lists(s, a, b, f);
  }

  // A written file: copied with its mode, or linked to a stored file that ends up with it.
  lemma WrittenMode(s: Setting, delta: Manifest, links: Links, a: Package, b: Package, e: Package, r: Restoring,
                    p: string)
    requires Delta(s, a, b, delta) && Later(s, a, b, e) && Stocked(delta, e.disk) && NoClash(s, links, a, b, e)
    requires r == RestoreAll(links, delta, e.disk, e.dir)
    requires p in r.dir && b.IsFile(p) && Changed(a, b, p)
    requires Placed(links, e.disk, r, EntryOf(s.hash, b.disk, p, b.dir[p]))
    ensures SameMode(b, Package(r.disk, r.dir), p)
  {
    hide RestoreAll, Stocked, NoClash, Later, Changed;
    assert e.Well() by { LaterWell(s, a, b, e); }
    var f := EntryOf(s.hash, b.disk, p, b.dir[p]);
    if links(p) {
      var i := e.disk.cas[f.contentHash];
      UniformDelta(s, delta, links, a, b, e, i);
      LinkedModes(links, delta, e.disk, e.dir, i, f);
    }
  }

  lemma LaterWell(s: Setting, a: Package, b: Package, e: Package)
    requires Later(s, a, b, e)
    ensures e.Well()
  {
  }

  // A file left alone: untouched, or written files end up as it, with its mode.
  lemma KeptMode(s: Setting, delta: Manifest, links: Links, a: Package, b: Package, e: Package, r: Restoring, p: string)
    requires Delta(s, a, b, delta) && Later(s, a, b, e) && Stocked(delta, e.disk) && NoClash(s, links, a, b, e)
    requires r == RestoreAll(links, delta, e.disk, e.dir)
    requires b.IsFile(p) && !Changed(a, b, p) && p in a.dir && p in e.dir && p in r.dir && r.dir[p] == e.dir[p]
    ensures SameMode(b, Package(r.disk, r.dir), p)
  {
    hide RestoreAll, Stocked;
    var i := e.dir[p].ino;
    assert EndsAs(s, links, a, b, e, p, i);
    if f :| f in delta && LinksTo(links, f, e.disk, i) {
      LinkedEnds(s, delta, links, a, b, e, f, i);
      UniformDelta(s, delta, links, a, b, e, i);
      LinkedModes(links, delta, e.disk, e.dir, i, f);
    } else {
      UnlinkedKept(links, delta, e.disk, e.dir, i);
    }
  }

  // Two files that end up as one cannot both have their own mode.
  lemma ModesClash(s: Setting, delta: Manifest, links: Links, a: Package, b: Package, e: Package, r: Restoring)
    requires AllStored(s.hash, b) && Delta(s, a, b, delta) && Later(s, a, b, e)
    requires Rebuilt(links, delta, e.disk, e.dir, r) && !NoClash(s, links, a, b, e)
    ensures !SameModes(b, Package(r.disk, r.dir))
  {
    hide Delta, Later, Rebuilt, AllStored;
    var p, q, i :| Wrote(a, b, q) && EndsAs(s, links, a, b, e, q, i) && EndsAs(s, links, a, b, e, p, i)
      && b.ModeOf(p) != b.ModeOf(q);
    ReplayedFile(s, delta, links, a, b, e, r, p);
    ReplayedFile(s, delta, links, a, b, e, r, q);
    assert r.dir[p] == File(i) && r.dir[q] == File(i);
  }

  // Equal contents carry equal modes, over all files of the package.
  ghost predicate ModesFollowContents(b: Package) {
    forall p, q :: b.IsFile(p) && b.IsFile(q) && b.Bytes(p) == b.Bytes(q) ==> b.ModeOf(p) == b.ModeOf(q)
  }

  // Then all modes come back from an intact store, into whatever links to it the package holds.
  lemma ModesRestored(s: Setting, links: Links, script: Script, a: Package, b: Package, linksNow: Links, e: Package)
    requires ColdRun(s, links, script, a, b) && Later(s, a, b, e) && Intact(s, a, b, e.disk) && ModesFollowContents(b)
    ensures var (_, e') := Replayed(s, linksNow, e); SameModes(b, e')
  {
    ReplayModes(s, links, script, a, b, linksNow, e);
    hide ColdRun, Restore, SameModes;
    forall p, q, i | Wrote(a, b, q) && EndsAs(s, linksNow, a, b, e, q, i) && EndsAs(s, linksNow, a, b, e, p, i)
      ensures b.ModeOf(p) == b.ModeOf(q)
    {
      EndsWith(s, linksNow, a, b, e, p, i);
      EndsWith(s, linksNow, a, b, e, q, i);
    }
  }

  lemma EndsWith(s: Setting, links: Links, a: Package, b: Package, e: Package, p: string, i: nat)
    requires Later(s, a, b, e) && Intact(s, a, b, e.disk) && EndsAs(s, links, a, b, e, p, i)
    ensures i in e.disk.inodes && e.disk.inodes[i].data == b.Bytes(p)
  {
    if Changed(a, b, p) {
      assert IntactAt(s, b, e.disk, p);
    }
  }
}
