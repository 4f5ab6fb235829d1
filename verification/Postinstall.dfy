/** Caching of postinstall scripts: capture a directory before and after the script, store
    the difference, and replay it later instead of running the script again. Files are
    names for inodes, because restoring hard-links them to the store. */
module Postinstall {
  import opened Wrappers

  // Permission bits, 0..0o777.
  type Mode = m: nat | m < 512

  datatype Inode = Inode(data: string, mode: Mode)

  // What a path of a package directory is; directories exist as far as paths need them.
  datatype Node = File(ino: nat) | Link(target: string)

  type Dir = map<string, Node>

  // The inodes, and the store: from a key to the inode of its file.
  datatype Disk = Disk(inodes: map<nat, Inode>, cas: map<string, nat>, next: nat)

  datatype FileKind = Regular | Symlink(target: string)

  datatype ManifestEntry = ManifestEntry(relPath: string, contentHash: string, mode: Mode, kind: FileKind)

  type Manifest = seq<ManifestEntry>

  // The JSON library, and the text stored for a script that changed nothing.
  datatype Codec = Codec(toJson: Manifest -> string, fromJson: string -> Option<Manifest>)

  const SENTINEL := "{\"empty\":true}"

  ghost predicate Faithful(c: Codec) {
    forall m :: c.fromJson(c.toJson(m)) == Some(m) && c.toJson(m) != SENTINEL
  }

  const NO_HASH := seq(32, _ => '\0')
  const STORE_MODE: Mode := 420  // rw-r--r--

  ghost predicate WellDisk(d: Disk) {
    (forall i :: i in d.inodes ==> i < d.next) && (forall k :: k in d.cas ==> d.cas[k] in d.inodes)
  }

  ghost predicate WellDir(d: Disk, dir: Dir) {
    forall p :: p in dir && dir[p].File? ==> dir[p].ino in d.inodes
  }

  // ---- The store -------------------------------------------------------------------------

  // The first write under a key wins.
  function Put(d: Disk, key: string, bytes: string): Disk {
    if key in d.cas then d
    else Disk(d.inodes[d.next := Inode(bytes, STORE_MODE)], d.cas[key := d.next], d.next + 1)
  }

  function Get(d: Disk, key: string): Option<string> {
    if key in d.cas && d.cas[key] in d.inodes then Some(d.inodes[d.cas[key]].data) else None
  }

  // ---- Capture ----------------------------------------------------------------------------

  function EntryOf(hash: string -> string, d: Disk, p: string, n: Node): ManifestEntry
    requires n.File? ==> n.ino in d.inodes
  {
    match n
    case File(i) => ManifestEntry(p, hash(d.inodes[i].data), d.inodes[i].mode, Regular)
    case Link(t) => ManifestEntry(p, NO_HASH, 0, Symlink(t))
  }

  // One entry per path.
  ghost predicate Describes(hash: string -> string, d: Disk, dir: Dir, m: Manifest)
    requires WellDir(d, dir)
  {
    && (forall i, j :: 0 <= i < j < |m| ==> m[i].relPath != m[j].relPath)
    && (forall e :: e in m ==> e.relPath in dir && e == EntryOf(hash, d, e.relPath, dir[e.relPath]))
    && (forall p :: p in dir ==> EntryOf(hash, d, p, dir[p]) in m)
  }

  // The disk with more in the store: what was there is untouched.
  ghost predicate Grown(d: Disk, d': Disk) {
    && (forall i :: i in d.inodes ==> i in d'.inodes && d'.inodes[i] == d.inodes[i])
    && (forall k :: k in d.cas ==> k in d'.cas && d'.cas[k] == d.cas[k])
    && d.next <= d'.next
  }

  // A key of the store that capturing a file of the directory put there, in a file of its own.
  ghost predicate NewBlob(hash: string -> string, d: Disk, dir: Dir, now: Disk, k: string)
    requires WellDir(d, dir)
  {
    && k in now.cas && now.cas[k] in now.inodes && now.cas[k] >= d.next
    && exists p :: p in dir && dir[p].File?
         && k == hash(d.inodes[dir[p].ino].data) && now.inodes[now.cas[k]].data == d.inodes[dir[p].ino].data
  }

  // The contents of every regular file are in the store, and nothing else is new there.
  ghost predicate Captured(hash: string -> string, d: Disk, dir: Dir, d': Disk)
    requires WellDir(d, dir)
  {
    && Grown(d, d') && WellDisk(d')
    && (forall p :: p in dir && dir[p].File? ==> hash(d.inodes[dir[p].ino].data) in d'.cas)
    && (forall k :: k in d'.cas && k !in d.cas ==> NewBlob(hash, d, dir, d', k))
  }

  ghost predicate CaptureSpec(hash: string -> string, d: Disk, dir: Dir, m: Manifest, d': Disk) {
    WellDir(d, dir) && Describes(hash, d, dir, m) && Captured(hash, d, dir, d')
  }

  // ---- Difference ---------------------------------------------------------------------------

  predicate Unchanged(before: Manifest, e: ManifestEntry) {
    exists b | b in before && b.relPath == e.relPath ::
      b.contentHash == e.contentHash && b.mode == e.mode && b.kind == e.kind
  }

  // The entries of `after` that are new or changed; deletions are not seen.
  function Diff(before: Manifest, after: Manifest): Manifest {
    if after == [] then [] else
      (if Unchanged(before, after[0]) then [] else [after[0]]) + Diff(before, after[1..])
  }

  // ---- Storing and restoring -----------------------------------------------------------------

  // The delta under the key, or the sentinel when there is none.
  function StoreDelta(c: Codec, key: string, delta: Manifest, d: Disk): Disk {
    Put(d, key, if delta == [] then SENTINEL else c.toJson(delta))
  }

  datatype Restoring = Restoring(ok: bool, disk: Disk, dir: Dir)

  // Whether the file at a path can be hard-linked to the store; where not, it is copied.
  type Links = string -> bool

  // One entry: the old file is removed, the stored one linked in its place (or copied when
  // linking fails) and its mode set - on the inode, whoever else shares it.
  function RestoreOne(links: Links, e: ManifestEntry, d: Disk, dir: Dir): Restoring {
    match e.kind
    case Symlink(t) => Restoring(true, d, dir[e.relPath := Link(t)])
    case Regular =>
      if e.contentHash !in d.cas || d.cas[e.contentHash] !in d.inodes then Restoring(false, d, dir - {e.relPath})
      else
        var i := d.cas[e.contentHash];
        if links(e.relPath) then
          Restoring(true, d.(inodes := d.inodes[i := d.inodes[i].(mode := e.mode)]), dir[e.relPath := File(i)])
        else Restoring(true, Disk(d.inodes[d.next := Inode(d.inodes[i].data, e.mode)], d.cas, d.next + 1),
                       dir[e.relPath := File(d.next)])
  }

  function RestoreAll(links: Links, m: Manifest, d: Disk, dir: Dir): Restoring {
    if m == [] then Restoring(true, d, dir) else
      var r := RestoreAll(links, m[..|m| - 1], d, dir);
      if r.ok then RestoreOne(links, m[|m| - 1], r.disk, r.dir) else r
  }

  datatype Outcome = Restored | Absent | IoError

  function Restore(c: Codec, key: string, links: Links, d: Disk, dir: Dir): (Outcome, Disk, Dir) {
    var bytes := Get(d, key);
    if bytes.None? then (Absent, d, dir)
    else if bytes.value == SENTINEL then (Restored, d, dir)
    else
      var m := c.fromJson(bytes.value);
      if m.None? then (IoError, d, dir)
      else
        var r := RestoreAll(links, m.value, d, dir);
        (if r.ok then Restored else IoError, r.disk, r.dir)
  }

  // What one run of the phase does for one script. A script that cannot be restored is run;
  // when it succeeds its effect is captured and stored, when it fails nothing is.
  ghost predicate PhaseSpec(hash: string -> string, c: Codec, key: string, links: Links,
                            script: (Disk, Dir) -> (bool, Disk, Dir), d: Disk, dir: Dir, d': Disk, dir': Dir)
  {
    var (out, d0, dir0) := Restore(c, key, links, d, dir);
    if out == Restored then d' == d0 && dir' == dir0
    else
      exists before, d1 ::
        CaptureSpec(hash, d0, dir0, before, d1) && AfterCapture(hash, c, key, script, before, d1, dir0, d', dir')
  }

  ghost predicate AfterCapture(hash: string -> string, c: Codec, key: string, script: (Disk, Dir) -> (bool, Disk, Dir),
                               before: Manifest, d1: Disk, dir0: Dir, d': Disk, dir': Dir)
  {
    var (ranOk, d2, dir2) := script(d1, dir0);
    && dir' == dir2
    && if !ranOk then d' == d2
       else exists after, d3 ::
         CaptureSpec(hash, d2, dir2, after, d3) && d' == StoreDelta(c, key, Diff(before, after), d3)
  }

  // ---- The code --------------------------------------------------------------------------------

  class Machine {
    const hash: string -> string
    const codec: Codec
    var disk: Disk
    var dir: Dir

    constructor (hash: string -> string, codec: Codec, disk: Disk, dir: Dir)
      ensures this.hash == hash && this.codec == codec && this.disk == disk && this.dir == dir
    {
      this.hash, this.codec, this.disk, this.dir := hash, codec, disk, dir;
    }

    // The first write under a key wins; every other key, and every file, is left alone.
    method PutBytesKeyed(key: string, bytes: string)
      modifies this`disk
      ensures disk == Put(old(disk), key, bytes)
      ensures WellDisk(old(disk)) ==> WellDisk(disk) && Grown(old(disk), disk)
      ensures WellDisk(old(disk)) ==> Get(disk, key) == Some(Get(old(disk), key).GetOr(bytes))
      ensures WellDisk(old(disk)) ==> forall other :: other != key ==> Get(disk, other) == Get(old(disk), other)
    {
      if key in disk.cas {
        return;
      }
      disk := Disk(disk.inodes[disk.next := Inode(bytes, STORE_MODE)], disk.cas[key := disk.next], disk.next + 1);
    }

    method CaptureDir() returns (m: Manifest)
      requires WellDisk(disk) && WellDir(disk, dir)
      modifies this`disk
      ensures CaptureSpec(hash, old(disk), dir, m, disk)
    {
      m := [];
      ghost var d := disk;
      var todo := dir.Keys;
      WalkNone(hash, d, dir);
      assert dir.Keys - todo == {};
      hide NewBlob, Listed, Get;
      while todo != {}
        invariant todo <= dir.Keys
        invariant WalkedSoFar(hash, d, dir, dir.Keys - todo, m, disk)
        decreases todo
      {
        var p :| p in todo;
        ghost var before, mBefore := disk, m;
        match dir[p] {
          case Link(t) =>
            m := m + [ManifestEntry(p, NO_HASH, 0, Symlink(t))];
          case File(i) =>
            var bytes := disk.inodes[i].data;
            var digest := hash(bytes);
            PutBytesKeyed(digest, bytes);
            m := m + [ManifestEntry(p, digest, disk.inodes[i].mode, Regular)];
        }
        WalkOne(hash, d, dir, dir.Keys - todo, mBefore, before, p);
        assert dir.Keys - (todo - {p}) == (dir.Keys - todo) + {p};
        todo := todo - {p};
      }
      assert dir.Keys - {} == dir.Keys;
      WalkedAll(hash, d, dir, m, disk);
    }

    method StoreManifest(key: string, delta: Manifest) returns (stored: bool)
      modifies this`disk
      ensures stored == (delta != [])
      ensures disk == if stored then Put(old(disk), key, codec.toJson(delta)) else old(disk)
      ensures WellDisk(old(disk)) && stored ==>
        Get(disk, key) == Some(Get(old(disk), key).GetOr(codec.toJson(delta)))
    {
      if delta == [] {
        return false;
      }
      var json := codec.toJson(delta);
      PutBytesKeyed(key, json);
      return true;
    }

    method StoreEmptySentinel(key: string)
      modifies this`disk
      ensures disk == Put(old(disk), key, SENTINEL)
      ensures WellDisk(old(disk)) ==> Get(disk, key) == Some(Get(old(disk), key).GetOr("{\"empty\":true}"))
    {
      PutBytesKeyed(key, SENTINEL);
    }

    method RestoreManifest(key: string, links: Links) returns (out: Outcome)
      modifies this`disk, this`dir
      ensures (out, disk, dir) == Restore(codec, key, links, old(disk), old(dir))
    {
      var bytes := Get(disk, key);
      if bytes.None? {
        return Absent;
      }
      if bytes.value == SENTINEL {
        return Restored;
      }
      var manifest := codec.fromJson(bytes.value);
      if manifest.None? {
        return IoError;
      }
      var m := manifest.value;
      assert m[..0] == [];
      for k := 0 to |m|
        invariant Restoring(true, disk, dir) == RestoreAll(links, m[..k], old(disk), old(dir))
      {
        assert m[..k + 1][..k] == m[..k];
        var r := RestoreOne(links, m[k], disk, dir);
        disk, dir := r.disk, r.dir;
        if !r.ok {
          FailureSticks(links, m, old(disk), old(dir), k + 1);
          return IoError;
        }
      }
      assert m[..|m|] == m;
      return Restored;
    }

    // One script of the phase. `script` stands for running it on this disk and directory.
    method RunPostinstall(key: string, links: Links, script: (Disk, Dir) -> (bool, Disk, Dir))
      requires forall d, n :: WellDisk(d) && WellDir(d, n) ==>
        WellDisk(script(d, n).1) && WellDir(script(d, n).1, script(d, n).2)
      requires WellDisk(disk) && WellDir(disk, dir)
      modifies this`disk, this`dir
      ensures PhaseSpec(hash, codec, key, links, script, old(disk), old(dir), disk, dir)
    {
      hide Get, CaptureSpec, Restore, WellDisk, WellDir;
      var out := RestoreManifest(key, links);
      if out == Restored {
        return;
      }
      RestoreWell(codec, key, links, old(disk), old(dir));
      ghost var d0, dir0 := disk, dir;
      var before := CaptureDir();
      CaptureWell(hash, d0, dir0, before, disk);
      ghost var d1 := disk;
      var (ranOk, d2, dir2) := script(disk, dir);
      disk, dir := d2, dir2;
      if ranOk {
        var after := CaptureDir();
        ghost var d3 := disk;
        var delta := Diff(before, after);
        var stored := StoreManifest(key, delta);
        if !stored {
          StoreEmptySentinel(key);
        }
        assert CaptureSpec(hash, d2, dir2, after, d3) && disk == StoreDelta(codec, key, Diff(before, after), d3);
      }
      assert AfterCapture(hash, codec, key, script, before, d1, dir0, disk, dir);
    }
  }

  lemma CaptureWell(hash: string -> string, d: Disk, dir: Dir, m: Manifest, d': Disk)
    requires CaptureSpec(hash, d, dir, m, d')
    ensures WellDisk(d') && WellDir(d', dir)
  {
  }

  // What a walk has done after visiting some of the paths.
  ghost predicate WalkedSoFar(hash: string -> string, d: Disk, dir: Dir, seen: set<string>, m: Manifest, now: Disk) {
    && WellDir(d, dir) && WellDisk(now) && Grown(d, now) && Listed(hash, d, dir, seen, m)
    && (forall p :: p in seen && p in dir && dir[p].File? ==> hash(d.inodes[dir[p].ino].data) in now.cas)
    && (forall k :: k in now.cas && k !in d.cas ==> NewBlob(hash, d, dir, now, k))
  }

  lemma WalkNone(hash: string -> string, d: Disk, dir: Dir)
    requires WellDisk(d) && WellDir(d, dir)
    ensures WalkedSoFar(hash, d, dir, {}, [], d)
  {
  }

  lemma WalkOne(hash: string -> string, d: Disk, dir: Dir, seen: set<string>, m: Manifest, now: Disk, p: string)
    requires WalkedSoFar(hash, d, dir, seen, m, now) && p in dir && p !in seen
    ensures var now' := Stepped(hash, dir, now, p);
      && (dir[p].File? ==> now'.inodes[dir[p].ino] == d.inodes[dir[p].ino])
      && WalkedSoFar(hash, d, dir, seen + {p}, m + [EntryOf(hash, d, p, dir[p])], now')
  {
    ListOne(hash, d, dir, seen, m, p);
    BlobsStay(hash, d, dir, now, p);
    SteppedGrows(hash, d, dir, now, p);
    hide NewBlob, Listed, WellDisk, Put;
  }

  // The disk after the walk has visited p.
  function Stepped(hash: string -> string, dir: Dir, now: Disk, p: string): Disk
    requires p in dir && (dir[p].File? ==> dir[p].ino in now.inodes)
  {
    if dir[p].File? then Put(now, hash(now.inodes[dir[p].ino].data), now.inodes[dir[p].ino].data) else now
  }

  lemma SteppedGrows(hash: string -> string, d: Disk, dir: Dir, now: Disk, p: string)
    requires WellDir(d, dir) && WellDisk(now) && Grown(d, now) && p in dir
    ensures var now' := Stepped(hash, dir, now, p);
      && WellDisk(now') && Grown(d, now') && now.cas.Keys <= now'.cas.Keys
      && (dir[p].File? ==> now'.inodes[dir[p].ino] == d.inodes[dir[p].ino])
      && (dir[p].File? ==> hash(d.inodes[dir[p].ino].data) in now'.cas)
  {
  }

  // The entries listed for the paths seen, and no others.
  ghost predicate Listed(hash: string -> string, d: Disk, dir: Dir, seen: set<string>, m: Manifest)
    requires WellDir(d, dir)
  {
    && (forall i, j :: 0 <= i < j < |m| ==> m[i].relPath != m[j].relPath)
    && (forall e :: e in m ==>
         e.relPath in seen && e.relPath in dir && e == EntryOf(hash, d, e.relPath, dir[e.relPath]))
    && (forall p :: p in seen && p in dir ==> EntryOf(hash, d, p, dir[p]) in m)
  }

  lemma ListOne(hash: string -> string, d: Disk, dir: Dir, seen: set<string>, m: Manifest, p: string)
    requires WellDir(d, dir) && Listed(hash, d, dir, seen, m) && p in dir && p !in seen
    ensures Listed(hash, d, dir, seen + {p}, m + [EntryOf(hash, d, p, dir[p])])
  {
    var e := EntryOf(hash, d, p, dir[p]);
    assert forall i :: 0 <= i < |m| ==> m[i] in m;
    assert forall f :: f in m + [e] <==> f in m || f == e;
  }

  lemma BlobsStay(hash: string -> string, d: Disk, dir: Dir, now: Disk, p: string)
    requires WellDir(d, dir) && WellDisk(now) && Grown(d, now) && p in dir
    requires forall k :: k in now.cas && k !in d.cas ==> NewBlob(hash, d, dir, now, k)
    ensures var now' := Stepped(hash, dir, now, p);
      forall k :: k in now'.cas && k !in d.cas ==> NewBlob(hash, d, dir, now', k)
  {
    var now' := Stepped(hash, dir, now, p);
    forall k | k in now'.cas && k !in d.cas
      ensures NewBlob(hash, d, dir, now', k)
    {
      if k in now.cas {
        assert NewBlob(hash, d, dir, now, k);
      }
    }
  }

  lemma WalkedAll(hash: string -> string, d: Disk, dir: Dir, m: Manifest, now: Disk)
    requires WalkedSoFar(hash, d, dir, dir.Keys, m, now)
    ensures CaptureSpec(hash, d, dir, m, now)
  {
    forall k | k in now.cas && k !in d.cas
      ensures NewBlob(hash, d, dir, now, k)
    {
    }
  }

  lemma {:induction false} FailureSticks(links: Links, m: Manifest, d: Disk, dir: Dir, k: nat)
    requires k <= |m| && !RestoreAll(links, m[..k], d, dir).ok
    ensures RestoreAll(links, m, d, dir) == RestoreAll(links, m[..k], d, dir)
    decreases |m|
  {
    if k == |m| {
      assert m[..k] == m;
    } else {
      assert m[..|m| - 1][..k] == m[..k];
      FailureSticks(links, m[..|m| - 1], d, dir, k);
    }
  }

  lemma {:induction false} RestoreAllWell(links: Links, m: Manifest, d: Disk, dir: Dir)
    requires WellDisk(d) && WellDir(d, dir)
    ensures var r := RestoreAll(links, m, d, dir); WellDisk(r.disk) && WellDir(r.disk, r.dir)
  {
    if m != [] {
      RestoreAllWell(links, m[..|m| - 1], d, dir);
    }
  }

  lemma RestoreWell(c: Codec, key: string, links: Links, d: Disk, dir: Dir)
    requires WellDisk(d) && WellDir(d, dir)
    ensures var r := Restore(c, key, links, d, dir); WellDisk(r.1) && WellDir(r.1, r.2)
  {
    var bytes := Get(d, key);
    if bytes.Some? && c.fromJson(bytes.value).Some? {
      RestoreAllWell(links, c.fromJson(bytes.value).value, d, dir);
    }
  }
}
