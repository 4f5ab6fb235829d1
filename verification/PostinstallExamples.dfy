/** Scripts on a package of one file: what a replay can get wrong, and what it does not. */
module PostinstallExamples {
  import opened Postinstall
  import opened PostinstallReplay

  const EXEC_MODE: Mode := 493  // rwxr-xr-x

  function Task(hash: string -> string, c: Codec): Setting {
    Setting(hash, c, iset{"x", "y"}, iset{"t"}, "t")
  }

  ghost predicate Distinct(hash: string -> string, c: Codec) {
    hash("x") != hash("y") && hash("x") != hash("t") && hash("y") != hash("t") && Faithful(c)
  }

  lemma TaskIsIdeal(hash: string -> string, c: Codec)
    requires Distinct(hash, c)
    ensures Task(hash, c).Ideal()
  {
    assert "x"[0] != "t"[0] && "y"[0] != "t"[0] && "x"[0] != "y"[0];
    assert forall s :: s in iset{"x", "y"} + iset{"t"} ==> s == "x" || s == "y" || s == "t";
  }

  function PEntry(h: string, mode: Mode): ManifestEntry {
    ManifestEntry("p", h, mode, Regular)
  }

  function QEntry(h: string, mode: Mode): ManifestEntry {
    ManifestEntry("q", h, mode, Regular)
  }

  // A package whose file p holds x, and an empty store.
  const PACKED := Package(Disk(map[0 := Inode("x", STORE_MODE)], map[], 1), map["p" := File(0)])

  // The stages of a first run give one that ColdRun allows.
  lemma RunOf(s: Setting, links: Links, script: Script, a: Package, before: Manifest, d1: Disk, d2: Disk, dir2: Dir,
              after: Manifest, d3: Disk, delta: Manifest)
    requires s.Ideal() && a.Well() && Holds(s.contents, a) && s.Key() !in a.disk.cas && ScriptFits(s, script, a)
    requires CaptureSpec(s.hash, a.disk, a.dir, before, d1) && script(d1, a.dir) == (true, d2, dir2)
    requires CaptureSpec(s.hash, d2, dir2, after, d3) && Diff(before, after) == delta
    ensures ColdRun(s, links, script, a, Package(StoreDelta(s.codec, s.Key(), delta, d3), dir2))
  {
    hide CaptureSpec, Diff, ScriptFits, Holds;
    var d' := StoreDelta(s.codec, s.Key(), delta, d3);
    assert Restore(s.codec, s.Key(), links, a.disk, a.dir) == (Absent, a.disk, a.dir);
    assert AfterCapture(s.hash, s.codec, s.Key(), script, before, d1, a.dir, d', dir2);
  }

  // ---- Overwriting in place ------------------------------------------------------------------

  // Rewrites p where it is.
  function Overwrite(d: Disk, dir: Dir): (bool, Disk, Dir) {
    (true, if 0 in d.inodes then d.(inodes := d.inodes[0 := d.inodes[0].(data := "y")]) else d, dir)
  }

  // A script may rewrite a file that is not linked to the store, and leaves the store alone.
  lemma OverwriteFits(hash: string -> string, c: Codec)
    ensures ScriptFits(Task(hash, c), Overwrite, PACKED) && LeavesStore(Task(hash, c), Overwrite, PACKED)
  {
    forall d1 | RunsOn(hash, PACKED, d1)
      ensures var (ok, d2, dir2) := Overwrite(d1, PACKED.dir);
        && ok && Package(d2, dir2).Well() && d2.cas == d1.cas && Holds(iset{"x", "y"}, Package(d2, dir2))
        && StoreKept(d1, d2)
    {
      assert 0 in PACKED.disk.inodes;
      forall k | k in d1.cas
        ensures d1.cas[k] != 0
      {
        assert NewBlob(hash, PACKED.disk, PACKED.dir, d1, k);
      }
    }
  }

  // ---- A mode that leaks -----------------------------------------------------------------------

  // Writes q, executable, with the contents p already has.
  function CopyToQ(d: Disk, dir: Dir): (bool, Disk, Dir) {
    (true, Disk(d.inodes[d.next := Inode("x", EXEC_MODE)], d.cas, d.next + 1), dir["q" := File(d.next)])
  }

  const COPIED: Dir := map["p" := File(0), "q" := File(2)]
  const RELINKED: Dir := map["p" := File(1)]

  // The disk when the script has written q: 0 is p, 1 is in the store, 2 is q.
  function WithCopy(hash: string -> string): Disk {
    Disk(map[0 := Inode("x", STORE_MODE), 1 := Inode("x", STORE_MODE), 2 := Inode("x", EXEC_MODE)],
         map[hash("x") := 1], 3)
  }

  function AfterCopy(hash: string -> string, c: Codec): Package {
    Package(StoreDelta(c, hash("t"), [QEntry(hash("x"), EXEC_MODE)], WithCopy(hash)), COPIED)
  }

  lemma CopySteps(hash: string -> string)
    ensures var d1 := Put(PACKED.disk, hash("x"), "x"); CopyToQ(d1, PACKED.dir) == (true, WithCopy(hash), COPIED)
  {
    var d1 := Put(PACKED.disk, hash("x"), "x");
    assert d1.cas == map[hash("x") := 1];
    assert d1.inodes[2 := Inode("x", EXEC_MODE)] == WithCopy(hash).inodes;
    assert PACKED.dir["q" := File(2)] == COPIED;
  }

  lemma CaptureBefore(hash: string -> string)
    ensures CaptureSpec(hash, PACKED.disk, PACKED.dir,
                        [PEntry(hash("x"), STORE_MODE)], Put(PACKED.disk, hash("x"), "x"))
  {
    var d, dir := PACKED.disk, PACKED.dir;
    var d1 := Put(d, hash("x"), "x");
    assert "p" in dir && dir["p"] == File(0) && d.inodes[0].data == "x";
    assert EntryOf(hash, d, "p", dir["p"]) == PEntry(hash("x"), STORE_MODE);
    forall k | k in d1.cas
      ensures NewBlob(hash, d, dir, d1, k)
    {
      assert "p" in dir && dir["p"].File?;
    }
  }

  lemma CaptureCopy(hash: string -> string)
    ensures CaptureSpec(hash, WithCopy(hash), COPIED,
                        [PEntry(hash("x"), STORE_MODE), QEntry(hash("x"), EXEC_MODE)], WithCopy(hash))
  {
    var d, p, q := WithCopy(hash), PEntry(hash("x"), STORE_MODE), QEntry(hash("x"), EXEC_MODE);
    assert EntryOf(hash, d, "p", COPIED["p"]) == p && EntryOf(hash, d, "q", COPIED["q"]) == q;
    assert [p, q][0] == p && [p, q][1] == q && "p"[0] != "q"[0];
  }

  lemma CopyDelta(p: ManifestEntry, q: ManifestEntry)
    requires p.relPath != q.relPath
    ensures Diff([p], [p, q]) == [q]
  {
    assert [p, q][1..] == [q] && [q][1..] == [];
    assert p in [p] && Unchanged([p], p) && !Unchanged([p], q);
    assert Diff([p], [p, q]) == [] + Diff([p], [q]) && Diff([p], [q]) == [q] + [];
  }

  lemma RunGrows(hash: string -> string, a: Package, d1: Disk)
    requires RunsOn(hash, a, d1)
    ensures Grown(a.disk, d1) && WellDisk(d1)
  {
  }

  lemma CopyFits(hash: string -> string, c: Codec)
    ensures ScriptFits(Task(hash, c), CopyToQ, PACKED)
  {
    hide Captured;
    forall d1 | RunsOn(hash, PACKED, d1)
      ensures var (ok, d2, dir2) := CopyToQ(d1, PACKED.dir);
        ok && Package(d2, dir2).Well() && d2.cas == d1.cas && Holds(iset{"x", "y"}, Package(d2, dir2))
    {
      RunGrows(hash, PACKED, d1);
      assert 0 in PACKED.disk.inodes && d1.inodes[0] == PACKED.disk.inodes[0];
    }
  }

  lemma PackedStart(s: Setting)
    requires "x" in s.contents
    ensures PACKED.Well() && Holds(s.contents, PACKED) && s.Key() !in PACKED.disk.cas
  {
  }

  lemma CopyIsCold(hash: string -> string, c: Codec, links: Links)
    requires Distinct(hash, c)
    ensures ColdRun(Task(hash, c), links, CopyToQ, PACKED, AfterCopy(hash, c))
  {
    var s := Task(hash, c);
    var p, q := PEntry(hash("x"), STORE_MODE), QEntry(hash("x"), EXEC_MODE);
    assert "p"[0] != "q"[0];
    TaskIsIdeal(hash, c);
    CaptureBefore(hash);
    CopySteps(hash);
    CaptureCopy(hash);
    CopyDelta(p, q);
    CopyFits(hash, c);
    PackedStart(s);
    hide CaptureSpec, Diff, ScriptFits, CopyToQ, Put, ColdRun;
    RunOf(s, links, CopyToQ, PACKED, [p], Put(PACKED.disk, hash("x"), "x"), WithCopy(hash), COPIED, [p, q],
          WithCopy(hash), [q]);
  }

  // The package of a later phase: p is a link into the store.
  function Linked(hash: string -> string, c: Codec): Package {
    Package(AfterCopy(hash, c).disk, RELINKED)
  }

  lemma CopyLater(hash: string -> string, c: Codec)
    requires Distinct(hash, c)
    ensures Later(Task(hash, c), PACKED, AfterCopy(hash, c), Linked(hash, c))
  {
    assert AfterCopy(hash, c).disk.inodes[1] == Inode("x", STORE_MODE);
  }

  lemma CopyClash(hash: string -> string, c: Codec)
    requires Distinct(hash, c)
    ensures !NoClash(Task(hash, c), _ => true, PACKED, AfterCopy(hash, c), Linked(hash, c))
  {
    var s, b, e := Task(hash, c), AfterCopy(hash, c), Linked(hash, c);
    assert "p"[0] != "q"[0];
    assert b.disk.inodes[0] == Inode("x", STORE_MODE) && b.disk.inodes[2] == Inode("x", EXEC_MODE);
    assert b.IsFile("p") && b.IsFile("q") && "p" in PACKED.dir && "q" !in PACKED.dir && e.disk.cas[hash("x")] == 1;
    assert Wrote(PACKED, b, "q") && !Changed(PACKED, b, "p");
    assert EndsAs(s, _ => true, PACKED, b, e, "q", 1) && EndsAs(s, _ => true, PACKED, b, e, "p", 1);
  }

  // On a package whose p is a link into the store, restoring q makes p executable.
  lemma LinkedLeak(hash: string -> string, c: Codec, links: Links)
    requires Distinct(hash, c)
    ensures ColdRun(Task(hash, c), links, CopyToQ, PACKED, AfterCopy(hash, c))
    ensures Later(Task(hash, c), PACKED, AfterCopy(hash, c), Linked(hash, c))
    ensures var (_, e') := Replayed(Task(hash, c), _ => true, Linked(hash, c)); !SameModes(AfterCopy(hash, c), e')
  {
    CopyIsCold(hash, c, links);
    CopyLater(hash, c);
    CopyClash(hash, c);
    hide ColdRun, Later, NoClash, Replayed, SameModes, AfterCopy, Linked;
    ReplayModes(Task(hash, c), links, CopyToQ, PACKED, AfterCopy(hash, c), _ => true, Linked(hash, c));
  }

  // ---- Writing through a link ------------------------------------------------------------------

  // The same package when p is a link to the stored file of x.
  function OnStore(hash: string -> string): Package {
    Package(Disk(map[0 := Inode("x", STORE_MODE)], map[hash("x") := 0], 1), map["p" := File(0)])
  }

  // Keeps the old bytes of p in q, then rewrites p where it is.
  function Backup(d: Disk, dir: Dir): (bool, Disk, Dir) {
    var kept := Disk(d.inodes[d.next := Inode("x", STORE_MODE)], d.cas, d.next + 1);
    (true, if 0 in d.inodes then kept.(inodes := kept.inodes[0 := Inode("y", STORE_MODE)]) else kept,
     dir["q" := File(d.next)])
  }

  const BACKED: Dir := map["p" := File(0), "q" := File(1)]

  // When the script is done the stored file of x holds y.
  function Through(hash: string -> string): Disk {
    Disk(map[0 := Inode("y", STORE_MODE), 1 := Inode("x", STORE_MODE)], map[hash("x") := 0], 2)
  }

  function AfterBackup(hash: string -> string, c: Codec): Package {
    Package(StoreDelta(c, hash("t"), [PEntry(hash("y"), STORE_MODE), QEntry(hash("x"), STORE_MODE)],
                       Put(Through(hash), hash("y"), "y")), BACKED)
  }

  lemma BackupSteps(hash: string -> string)
    ensures Backup(OnStore(hash).disk, OnStore(hash).dir) == (true, Through(hash), BACKED)
  {
    var d := OnStore(hash).disk;
    assert d.inodes[1 := Inode("x", STORE_MODE)][0 := Inode("y", STORE_MODE)] == Through(hash).inodes;
    assert OnStore(hash).dir["q" := File(1)] == BACKED;
  }

  lemma CaptureOnStore(hash: string -> string)
    ensures CaptureSpec(hash, OnStore(hash).disk, OnStore(hash).dir,
                        [PEntry(hash("x"), STORE_MODE)], OnStore(hash).disk)
  {
    var d, dir := OnStore(hash).disk, OnStore(hash).dir;
    assert EntryOf(hash, d, "p", dir["p"]) == PEntry(hash("x"), STORE_MODE);
  }

  lemma CaptureBackup(hash: string -> string)
    requires hash("x") != hash("y")
    ensures CaptureSpec(hash, Through(hash), BACKED, [PEntry(hash("y"), STORE_MODE), QEntry(hash("x"), STORE_MODE)],
                        Put(Through(hash), hash("y"), "y"))
  {
    var d, p, q := Through(hash), PEntry(hash("y"), STORE_MODE), QEntry(hash("x"), STORE_MODE);
    var d' := Put(d, hash("y"), "y");
    assert EntryOf(hash, d, "p", BACKED["p"]) == p && EntryOf(hash, d, "q", BACKED["q"]) == q;
    assert [p, q][0] == p && [p, q][1] == q && "p"[0] != "q"[0];
    forall k | k in d'.cas && k !in d.cas
      ensures NewBlob(hash, d, BACKED, d', k)
    {
      assert "p" in BACKED && BACKED["p"].File?;
    }
  }

  lemma BackupDelta(o: ManifestEntry, p: ManifestEntry, q: ManifestEntry)
    requires o.relPath != q.relPath && o.contentHash != p.contentHash
    ensures Diff([o], [p, q]) == [p, q]
  {
    assert [p, q][1..] == [q] && [q][1..] == [];
    assert !Unchanged([o], p) && !Unchanged([o], q);
    assert Diff([o], [p, q]) == [p] + Diff([o], [q]) && Diff([o], [q]) == [q] + [];
  }

  lemma BackupFits(hash: string -> string, c: Codec)
    ensures ScriptFits(Task(hash, c), Backup, OnStore(hash))
  {
    forall d1 | RunsOn(hash, OnStore(hash), d1)
      ensures var (ok, d2, dir2) := Backup(d1, OnStore(hash).dir);
        ok && Package(d2, dir2).Well() && d2.cas == d1.cas && Holds(iset{"x", "y"}, Package(d2, dir2))
    {
      assert 0 in OnStore(hash).disk.inodes;
    }
  }

  lemma OnStoreStart(s: Setting)
    requires "x" in s.contents && s.Key() != s.hash("x")
    ensures OnStore(s.hash).Well() && Holds(s.contents, OnStore(s.hash)) && s.Key() !in OnStore(s.hash).disk.cas
  {
  }

  lemma BackupIsCold(hash: string -> string, c: Codec, links: Links)
    requires Distinct(hash, c)
    ensures ColdRun(Task(hash, c), links, Backup, OnStore(hash), AfterBackup(hash, c))
  {
    var s, a := Task(hash, c), OnStore(hash);
    var o, p, q := PEntry(hash("x"), STORE_MODE), PEntry(hash("y"), STORE_MODE), QEntry(hash("x"), STORE_MODE);
    var d3 := Put(Through(hash), hash("y"), "y");
    assert "p"[0] != "q"[0];
    TaskIsIdeal(hash, c);
    CaptureOnStore(hash);
    BackupSteps(hash);
    CaptureBackup(hash);
    BackupDelta(o, p, q);
    BackupFits(hash, c);
    OnStoreStart(s);
    hide CaptureSpec, Diff, ScriptFits, Backup, Put, ColdRun, OnStore;
    RunOf(s, links, Backup, a, [o], a.disk, Through(hash), BACKED, [p, q], d3, [p, q]);
  }

  // A fresh copy of the package, beside what the first run left.
  function Fresh(b: Package): Package {
    Package(Disk(b.disk.inodes[b.disk.next := Inode("x", STORE_MODE)], b.disk.cas, b.disk.next + 1),
            map["p" := File(b.disk.next)])
  }

  lemma BackupWell(hash: string -> string, c: Codec)
    requires Distinct(hash, c)
    ensures var b := AfterBackup(hash, c);
      b.Well() && b.disk.next == 4 && b.disk.inodes[0].data == "y" && b.disk.inodes[1] == Inode("x", STORE_MODE)
      && b.disk.cas[hash("x")] == 0
  {
    var d3 := Put(Through(hash), hash("y"), "y");
    assert WellDisk(Through(hash)) && WellDisk(d3) && d3.next == 3;
  }

  lemma BackupLater(hash: string -> string, c: Codec)
    requires Distinct(hash, c)
    ensures Later(Task(hash, c), OnStore(hash), AfterBackup(hash, c), Fresh(AfterBackup(hash, c)))
  {
    var b := AfterBackup(hash, c);
    BackupWell(hash, c);
    hide AfterBackup;
    assert Fresh(b).disk.inodes[b.disk.next] == Inode("x", STORE_MODE);
  }

  lemma BackupLost(hash: string -> string, c: Codec)
    requires Distinct(hash, c)
    ensures var b := AfterBackup(hash, c);
      Wrote(OnStore(hash), b, "q") && !IntactAt(Task(hash, c), b, Fresh(b).disk, "q")
  {
    var b := AfterBackup(hash, c);
    assert "p"[0] != "q"[0] && "x"[0] != "y"[0];
    assert b.disk.inodes[1] == Inode("x", STORE_MODE) && b.IsFile("q") && b.Bytes("q") == "x";
    assert Fresh(b).disk.cas[hash("x")] == 0 && Fresh(b).disk.inodes[0].data == "y";
  }

  // A script that writes through a link into the store spoils a stored file; a replay gives
  // another file, which has the old bytes, the new ones.
  lemma WrittenThrough(hash: string -> string, c: Codec, links: Links, linksNow: Links)
    requires Distinct(hash, c)
    ensures ColdRun(Task(hash, c), links, Backup, OnStore(hash), AfterBackup(hash, c))
    ensures Later(Task(hash, c), OnStore(hash), AfterBackup(hash, c), Fresh(AfterBackup(hash, c)))
    ensures var (out, e') := Replayed(Task(hash, c), linksNow, Fresh(AfterBackup(hash, c)));
      out == Restored && "q" in e'.dir && !SameFile(AfterBackup(hash, c), e', "q")
  {
    var s, a, b := Task(hash, c), OnStore(hash), AfterBackup(hash, c);
    BackupIsCold(hash, c, links);
    BackupLater(hash, c);
    BackupLost(hash, c);
    assert "q" in b.dir;
    hide ColdRun, Later, Replayed, SameFile, IntactAt, Wrote, AfterBackup, OnStore, Fresh;
    ReplayContents(s, links, Backup, a, b, linksNow, Fresh(b));
  }
}
