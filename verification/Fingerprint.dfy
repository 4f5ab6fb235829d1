/** The byte strings the two cache fingerprints hash. A byte string is written as a
    string whose characters stand for bytes; `hash` is any digest function. */
module Framing {
  // The offset of the first c, or the length when there is none.
  function IndexOf(s: string, c: char): (i: nat)
    ensures i <= |s| && c !in s[..i]
    ensures i < |s| ==> s[i] == c
  {
    if s == "" || s[0] == c then 0 else
      var i := IndexOf(s[1..], c);
      assert s[..i + 1] == [s[0]] + s[1..][..i];
      i + 1
  }

  lemma {:induction false} IndexOfSplit(a: string, c: char, rest: string)
    requires c !in a && (rest == "" || rest[0] == c)
    ensures IndexOf(a + rest, c) == |a|
  {
    if a == "" {
      assert a + rest == rest;
    } else {
      assert (a + rest)[1..] == a[1..] + rest;
      IndexOfSplit(a[1..], c, rest);
    }
  }

  function HexDigit(n: int): char
    requires 0 <= n < 16
  {
    "0123456789abcdef"[n]
  }

  function Hex(d: string): string {
    if d == "" then "" else
      [HexDigit(d[0] as int / 16 % 16), HexDigit(d[0] as int % 16)] + Hex(d[1..])
  }

  predicate IsHexText(s: string) {
    forall c | c in s :: '0' <= c <= '9' || 'a' <= c <= 'f'
  }

  lemma {:induction false} HexClean(d: string)
    ensures IsHexText(Hex(d))
  {
    if d != "" {
      HexClean(d[1..]);
    }
  }

  lemma HexDigitExact(n: int)
    requires 0 <= n < 16
    ensures HexValue(HexDigit(n)) == n
  {
  }

  lemma TwoHalves(n: int)
    requires 0 <= n < 256
    ensures n / 16 % 16 * 16 + n % 16 == n
  {
  }

  // Two digits a byte, the high half first: 0-9, then a-f.
  lemma {:induction false} HexExact(d: string, i: nat)
    requires i < |d| && d[i] as int < 256
    ensures |Hex(d)| == 2 * |d|
    ensures HexValue(Hex(d)[2 * i]) * 16 + HexValue(Hex(d)[2 * i + 1]) == d[i] as int
    decreases |d|
  {
    HexLength(d);
    hide HexValue, HexDigit;
    assert Hex(d)[2..] == Hex(d[1..]);
    if i > 0 {
      HexExact(d[1..], i - 1);
      assert Hex(d)[2 * i] == Hex(d)[2..][2 * (i - 1)] && Hex(d)[2 * i + 1] == Hex(d)[2..][2 * (i - 1) + 1];
    } else {
      var n := d[0] as int;
      HexDigitExact(n / 16 % 16);
      HexDigitExact(n % 16);
      TwoHalves(n);
    }
  }

  lemma {:induction false} HexLength(d: string)
    ensures |Hex(d)| == 2 * |d|
  {
    if d != "" {
      HexLength(d[1..]);
    }
  }

  function HexValue(c: char): int {
    if '0' <= c <= '9' then c as int - '0' as int
    else if 'a' <= c <= 'f' then c as int - 'a' as int + 10
    else -1
  }

  lemma HexDigitInjective(m: int, n: int)
    requires 0 <= m < 16 && 0 <= n < 16 && HexDigit(m) == HexDigit(n)
    ensures m == n
  {
  }

  lemma {:induction false} HexInjective(d: string, e: string)
    requires Hex(d) == Hex(e) && (forall c | c in d :: c as int < 256) && (forall c | c in e :: c as int < 256)
    ensures d == e
  {
    if d != "" && e != "" {
      assert Hex(d)[0] == Hex(e)[0] && Hex(d)[1] == Hex(e)[1];
      HexDigitInjective(d[0] as int / 16 % 16, e[0] as int / 16 % 16);
      HexDigitInjective(d[0] as int % 16, e[0] as int % 16);
      assert d[0] in d && e[0] in e;
      assert (forall c :: c in d[1..] ==> c in d) && (forall c :: c in e[1..] ==> c in e);
      assert d[0] as int == e[0] as int;
      assert Hex(d)[2..] == Hex(d[1..]) && Hex(e)[2..] == Hex(e[1..]);
      HexInjective(d[1..], e[1..]);
      assert d == [d[0]] + d[1..] && e == [e[0]] + e[1..];
    }
  }

  predicate IsDigest(d: string) {
    |d| == 32 && forall c | c in d :: c as int < 256
  }

  ghost predicate Digests(hash: string -> string) {
    forall x :: IsDigest(hash(x))
  }

  // No two different inputs of the set have the same digest.
  ghost predicate CollisionFree(hash: string -> string, inputs: iset<string>) {
    forall x, y :: x in inputs && y in inputs && hash(x) == hash(y) ==> x == y
  }
}

/** The strong fingerprint: the weak one plus the contents of every regular file read,
    outside node_modules. */
module StrongFp {
  import opened Wrappers
  import opened Sorting
  import opened Framing

  // The components of an absolute, normalised path.
  type Path = seq<string>

  // The regular files of a file system.
  type Files = map<Path, string>

  const NODE_MODULES := "node_modules"

  predicate ProperPath(p: Path) {
    forall c | c in p :: c != "" && '/' !in c
  }

  function PathBytes(p: Path): string {
    if p == [] then "" else "/" + p[0] + PathBytes(p[1..])
  }

  function Outside(paths: seq<Path>): seq<Path> {
    if paths == [] then [] else
      (if NODE_MODULES in paths[0] then [] else [paths[0]]) + Outside(paths[1..])
  }

  function Tracked(paths: seq<Path>): seq<Path> {
    Dedup(Sort(PathLe, Outside(paths)))
  }

  function Records(hash: string -> string, files: Files, ps: seq<Path>): seq<(string, string)> {
    if ps == [] then [] else
      (if ps[0] in files then [(PathBytes(ps[0]), hash(files[ps[0]]))] else []) + Records(hash, files, ps[1..])
  }

  function Record(r: (string, string)): string {
    "read:" + r.0 + ":" + r.1 + "\n"
  }

  function RecordBytes(rs: seq<(string, string)>): string {
    if rs == [] then "" else Record(rs[0]) + RecordBytes(rs[1..])
  }

  function Frame(wf: string, rs: seq<(string, string)>): string {
    "wf:" + wf + "\n" + RecordBytes(rs)
  }

  function StrongBytes(hash: string -> string, wf: string, paths: seq<Path>, files: Files): string {
    Frame(wf, Records(hash, files, Tracked(paths)))
  }

  function StrongFingerprint(hash: string -> string, wf: string, paths: seq<Path>, files: Files): string {
    Hex(hash(StrongBytes(hash, wf, paths, files)))
  }

  lemma {:induction false} RecordBytesSnoc(rs: seq<(string, string)>, r: (string, string))
    ensures RecordBytes(rs + [r]) == RecordBytes(rs) + Record(r)
  {
    if rs == [] {
      assert [r][1..] == [] && rs + [r] == [r];
    } else {
      hide Record;
      RecordBytesSnoc(rs[1..], r);
      assert (rs + [r])[0] == rs[0] && (rs + [r])[1..] == rs[1..] + [r];
    }
  }

  lemma {:induction false} RecordsSnoc(hash: string -> string, files: Files, ps: seq<Path>, p: Path)
    ensures Records(hash, files, ps + [p]) ==
      Records(hash, files, ps) + if p in files then [(PathBytes(p), hash(files[p]))] else []
  {
    if ps == [] {
      assert ps + [p] == [p];
    } else {
      RecordsSnoc(hash, files, ps[1..], p);
      assert (ps + [p])[1..] == ps[1..] + [p];
    }
  }

  lemma {:induction false} OutsideSnoc(paths: seq<Path>, p: Path)
    ensures Outside(paths + [p]) == Outside(paths) + if NODE_MODULES in p then [] else [p]
  {
    if paths == [] {
      assert paths + [p] == [p];
    } else {
      OutsideSnoc(paths[1..], p);
      assert (paths + [p])[1..] == paths[1..] + [p];
    }
  }

  // Filter, sort and remove duplicates.
  method TrackedPaths(paths: seq<Path>) returns (sorted: seq<Path>)
    ensures sorted == Tracked(paths)
  {
    sorted := [];
    for i := 0 to |paths|
      invariant sorted == Outside(paths[..i])
    {
      OutsideSnoc(paths[..i], paths[i]);
      assert paths[..i + 1] == paths[..i] + [paths[i]];
      if NODE_MODULES !in paths[i] {
        sorted := sorted + [paths[i]];
      }
    }
    assert paths[..|paths|] == paths;
    sorted := Sort(PathLe, sorted);
    sorted := Dedup(sorted);
  }

  method UpdateRecord(hasher: string, path: string, digest: string) returns (hasher': string)
    ensures hasher' == hasher + Record((path, digest))
  {
    hasher' := hasher + "read:";
    hasher' := hasher' + path;
    hasher' := hasher' + ":";
    hasher' := hasher' + digest;
    hasher' := hasher' + "\n";
    assert hasher' == hasher + Record((path, digest));
  }

  method ComputeStrongFingerprint(hash: string -> string, wf: string, paths: seq<Path>, files: Files)
    returns (sf: string)
    ensures sf == StrongFingerprint(hash, wf, paths, files)
  {
    var hasher := "wf:";
    hasher := hasher + wf;
    hasher := hasher + "\n";
    var sorted := TrackedPaths(paths);
    ghost var head, rs := hasher, Records(hash, files, []);
    assert hasher == head + RecordBytes(rs);
    hide Record, RecordBytes, StrongBytes, Frame;
    for i := 0 to |sorted|
      invariant rs == Records(hash, files, sorted[..i])
      invariant hasher == head + RecordBytes(rs)
    {
      var p := sorted[i];
      assert sorted[..i + 1] == sorted[..i] + [p];
      RecordsSnoc(hash, files, sorted[..i], p);
      if p !in files {
        continue;
      }
      var r := (PathBytes(p), hash(files[p]));
      RecordBytesSnoc(rs, r);
      assert head + (RecordBytes(rs) + Record(r)) == (head + RecordBytes(rs)) + Record(r);
      hasher := UpdateRecord(hasher, r.0, r.1);
      rs := rs + [r];
    }
    assert sorted[..|sorted|] == sorted;
    StrongShape(hash, wf, paths, files);
    sf := Hex(hash(hasher));
  }

  lemma StrongShape(hash: string -> string, wf: string, paths: seq<Path>, files: Files)
    ensures StrongBytes(hash, wf, paths, files) ==
      "wf:" + wf + "\n" + RecordBytes(Records(hash, files, Tracked(paths)))
  {
  }

  // ---- The framing can be read back --------------------------------------------------

  function DecodeRecords(b: string): Option<seq<(string, string)>>
    decreases |b|
  {
    if b == "" then Some([])
    else if |b| < 5 || b[..5] != "read:" then None
    else
      var r := b[5..];
      var i := IndexOf(r, ':');
      if |r| < i + 34 || r[i + 33] != '\n' then None
      else
        var rest := DecodeRecords(r[i + 34..]);
        if rest.None? then None else Some([(r[..i], r[i + 1..i + 33])] + rest.value)
  }

  function DecodeFrame(b: string): Option<(string, seq<(string, string)>)> {
    if |b| < 3 || b[..3] != "wf:" then None
    else
      var r := b[3..];
      var i := IndexOf(r, '\n');
      if i == |r| then None
      else
        var rs := DecodeRecords(r[i + 1..]);
        if rs.None? then None else Some((r[..i], rs.value))
  }

  predicate Decodable(rs: seq<(string, string)>) {
    forall r | r in rs :: ':' !in r.0 && |r.1| == 32
  }

  lemma OneRecord(r: (string, string), tail: string)
    requires ':' !in r.0 && |r.1| == 32
    ensures var b := Record(r) + tail;
      && |b| >= 5 && b[..5] == "read:"
      && IndexOf(b[5..], ':') == |r.0| && |b[5..]| >= |r.0| + 34
      && b[5..][|r.0| + 33] == '\n' && b[5..][..|r.0|] == r.0
      && b[5..][|r.0| + 1..|r.0| + 33] == r.1 && b[5..][|r.0| + 34..] == tail
  {
    var b := Record(r) + tail;
    var after := ":" + r.1 + "\n" + tail;
    assert b[5..] == r.0 + after;
    IndexOfSplit(r.0, ':', after);
    assert after[1..33] == r.1 && after[33] == '\n' && after[34..] == tail;
  }

  lemma DecodeStep(r: (string, string), tail: string)
    requires ':' !in r.0 && |r.1| == 32 && DecodeRecords(tail).Some?
    ensures DecodeRecords(Record(r) + tail) == Some([r] + DecodeRecords(tail).value)
  {
    OneRecord(r, tail);
  }

  lemma {:induction false} RecordsRoundTrip(rs: seq<(string, string)>)
    requires Decodable(rs)
    ensures DecodeRecords(RecordBytes(rs)) == Some(rs)
  {
    if rs != [] {
      assert rs[0] in rs;
      RecordsRoundTrip(rs[1..]);
      DecodeStep(rs[0], RecordBytes(rs[1..]));
      assert rs == [rs[0]] + rs[1..];
    }
  }

  // Whatever is decoded has no colon in a path and a digest's length.
  lemma {:induction false} DecodedDecodable(b: string)
    requires DecodeRecords(b).Some?
    ensures Decodable(DecodeRecords(b).value)
    decreases |b|
  {
    if b != "" {
      var r := b[5..];
      DecodedDecodable(r[IndexOf(r, ':') + 34..]);
    }
  }

  lemma DecodedFrame(b: string)
    requires DecodeFrame(b).Some?
    ensures '\n' !in DecodeFrame(b).value.0 && Decodable(DecodeFrame(b).value.1)
  {
    var r := b[3..];
    DecodedDecodable(r[IndexOf(r, '\n') + 1..]);
  }

  lemma FrameReadsBack(wf: string, rs: seq<(string, string)>)
    requires '\n' !in wf && Decodable(rs)
    ensures DecodeFrame(Frame(wf, rs)) == Some((wf, rs))
  {
    RecordsRoundTrip(rs);
    HeadReadsBack(wf, RecordBytes(rs));
  }

  lemma HeadReadsBack(wf: string, tail: string)
    requires '\n' !in wf && DecodeRecords(tail).Some?
    ensures DecodeFrame("wf:" + wf + "\n" + tail) == Some((wf, DecodeRecords(tail).value))
  {
    hide DecodeRecords;
    var b := "wf:" + wf + "\n" + tail;
    assert b[3..] == wf + ("\n" + tail);
    IndexOfSplit(wf, '\n', "\n" + tail);
    assert b[3..][..|wf|] == wf && b[3..][|wf| + 1..] == tail;
  }

  // Reading a frame back gives the weak fingerprint and the list of (path, digest) pairs
  // exactly when no path holds a colon.
  lemma FrameRoundTrip(wf: string, rs: seq<(string, string)>)
    ensures DecodeFrame(Frame(wf, rs)) == Some((wf, rs)) <==> '\n' !in wf && Decodable(rs)
  {
    hide Decodable, Frame;
    if '\n' !in wf && Decodable(rs) {
      FrameReadsBack(wf, rs);
    }
    if DecodeFrame(Frame(wf, rs)) == Some((wf, rs)) {
      DecodedFrame(Frame(wf, rs));
    }
  }

  // With a ':' in a path two different lists can share a frame, so the condition is needed.
  lemma FrameAmbiguous() returns (a: seq<(string, string)>, b: seq<(string, string)>)
    ensures a != b && RecordBytes(a) == RecordBytes(b)
    ensures forall r :: r in a || r in b ==> |r.1| == 32
    ensures Decodable(a) && !Decodable(b)
  {
    var d := seq(32, _ => 'x');
    a := [("/p", d), ("/q", d)];
    b := [("/p:" + d + "\nread:/q", d)];
    assert a[1..] == [("/q", d)] && b[1..] == [] && a[1..][1..] == [];
    assert RecordBytes(a[1..]) == Record(("/q", d)) + "";
    assert RecordBytes(b) == Record(b[0]) + "";
    assert Record(("/p", d)) + Record(("/q", d)) == Record(b[0]);
    assert b[0] in b && b[0].0[2] == ':';
    assert |a| != |b|;
  }

  // ---- What a strong fingerprint stands for --------------------------------------------

  // The files it depends on, with their contents.
  function Seen(paths: seq<Path>, files: Files): Files {
    map p | p in paths && NODE_MODULES !in p && p in files :: files[p]
  }

  lemma {:induction false} OutsideElems(paths: seq<Path>)
    ensures forall p :: p in Outside(paths) <==> p in paths && NODE_MODULES !in p
  {
    if paths != [] {
      OutsideElems(paths[1..]);
      assert forall p :: p in paths <==> p == paths[0] || p in paths[1..];
    }
  }

  lemma TrackedSorted(paths: seq<Path>)
    ensures Sorted(PathLe, Tracked(paths)) && NoDup(Tracked(paths))
    ensures forall p :: p in Tracked(paths) <==> p in paths && "node_modules" !in p
  {
    PathOrder();
    OutsideElems(paths);
    var o := Outside(paths);
    SortSorted(PathLe, o);
    DedupSorted(PathLe, Sort(PathLe, o));
    forall p
      ensures p in Tracked(paths) <==> p in o
    {
      assert p in Tracked(paths) <==> p in Elems(Tracked(paths));
      assert p in Sort(PathLe, o) <==> p in multiset(Sort(PathLe, o));
      assert p in o <==> p in multiset(o);
      assert p in Sort(PathLe, o) <==> p in Elems(Sort(PathLe, o));
    }
  }

  // The regular files among ps, in order.
  function Regular(files: Files, ps: seq<Path>): seq<Path> {
    if ps == [] then [] else (if ps[0] in files then [ps[0]] else []) + Regular(files, ps[1..])
  }

  lemma {:induction false} RegularSorted(files: Files, ps: seq<Path>)
    requires Sorted(PathLe, ps) && NoDup(ps)
    ensures Sorted(PathLe, Regular(files, ps)) && NoDup(Regular(files, ps))
    ensures forall p :: p in Regular(files, ps) <==> p in ps && p in files
  {
    if ps != [] {
      NoDupTail(ps[0], ps[1..]) by { assert ps == [ps[0]] + ps[1..]; }
      RegularSorted(files, ps[1..]);
      var r := Regular(files, ps[1..]);
      assert forall p :: p in ps <==> p == ps[0] || p in ps[1..];
      forall i | 0 <= i < |r|
        ensures PathLe(ps[0], r[i]) && ps[0] != r[i]
      {
        assert r[i] in r;
        var k :| 0 <= k < |ps[1..]| && ps[1..][k] == r[i];
        assert ps[k + 1] == r[i];
      }
    }
  }

  lemma {:induction false} RecordsRegular(hash: string -> string, files: Files, ps: seq<Path>)
    ensures |Records(hash, files, ps)| == |Regular(files, ps)|
    ensures forall i :: 0 <= i < |Regular(files, ps)| ==>
      Regular(files, ps)[i] in files &&
      Records(hash, files, ps)[i] == (PathBytes(Regular(files, ps)[i]), hash(files[Regular(files, ps)[i]]))
  {
    if ps != [] {
      RecordsRegular(hash, files, ps[1..]);
    }
  }

  lemma {:induction false} PathBytesInjective(p: Path, q: Path)
    requires ProperPath(p) && ProperPath(q) && PathBytes(p) == PathBytes(q)
    ensures p == q
  {
    if p != [] && q != [] {
      var s, t := PathBytes(p[1..]), PathBytes(q[1..]);
      assert p[0] in p && q[0] in q;
      assert PathBytes(p)[1..] == p[0] + s && PathBytes(q)[1..] == q[0] + t;
      IndexOfSplit(p[0], '/', s);
      IndexOfSplit(q[0], '/', t);
      assert p[0] == (p[0] + s)[..|p[0]|] && q[0] == (q[0] + t)[..|q[0]|];
      assert s == (p[0] + s)[|p[0]|..] && t == (q[0] + t)[|q[0]|..];
      assert (forall c :: c in p[1..] ==> c in p) && (forall c :: c in q[1..] ==> c in q);
      PathBytesInjective(p[1..], q[1..]);
      assert p == [p[0]] + p[1..] && q == [q[0]] + q[1..];
    }
  }

  // A slash before every component.
  lemma {:induction false} PathBytesExact(p: Path, c: string)
    ensures PathBytes([]) == "" && PathBytes(p + [c]) == PathBytes(p) + "/" + c
  {
    if p == [] {
      assert p + [c] == [c] && [c][1..] == [];
      assert PathBytes([c]) == "/" + c + PathBytes([]);
    } else {
      PathBytesExact(p[1..], c);
      assert (p + [c])[1..] == p[1..] + [c];
    }
  }

  // Paths whose bytes the framing can tell apart.
  predicate FramablePaths(paths: seq<Path>) {
    forall p | p in paths :: ProperPath(p) && ':' !in PathBytes(p)
  }

  lemma SeenFromFrame(hash: string -> string, paths: seq<Path>, files: Files, paths': seq<Path>, files': Files,
                      inputs: iset<string>)
    requires CollisionFree(hash, inputs)
    requires forall p :: p in Seen(paths, files) ==> files[p] in inputs
    requires forall p :: p in Seen(paths', files') ==> files'[p] in inputs
    requires FramablePaths(paths) && FramablePaths(paths')
    requires Records(hash, files, Tracked(paths)) == Records(hash, files', Tracked(paths'))
    ensures forall p :: p in Seen(paths, files) ==>
      p in Seen(paths', files') && Seen(paths', files')[p] == Seen(paths, files)[p]
  {
    var r, r' := Regular(files, Tracked(paths)), Regular(files', Tracked(paths'));
    TrackedSorted(paths);
    TrackedSorted(paths');
    RegularSorted(files, Tracked(paths));
    RegularSorted(files', Tracked(paths'));
    RecordsRegular(hash, files, Tracked(paths));
    RecordsRegular(hash, files', Tracked(paths'));
    forall p | p in Seen(paths, files)
      ensures p in Seen(paths', files') && Seen(paths', files')[p] == Seen(paths, files)[p]
    {
      assert p in r;
      var i :| 0 <= i < |r| && r[i] == p;
      assert r'[i] in r';
      assert Records(hash, files, Tracked(paths))[i] == (PathBytes(p), hash(files[p]));
      PathBytesInjective(p, r'[i]);
    }
  }

  // Two lists of paths with the same tracked regular files give the same records,
  // whatever the order and repetition of the paths.
  lemma RecordsFromSeen(hash: string -> string, paths: seq<Path>, files: Files, paths': seq<Path>, files': Files)
    requires Seen(paths, files) == Seen(paths', files')
    ensures Records(hash, files, Tracked(paths)) == Records(hash, files', Tracked(paths'))
  {
    var r, r' := Regular(files, Tracked(paths)), Regular(files', Tracked(paths'));
    TrackedSorted(paths);
    TrackedSorted(paths');
    RegularSorted(files, Tracked(paths));
    RegularSorted(files', Tracked(paths'));
    RecordsRegular(hash, files, Tracked(paths));
    RecordsRegular(hash, files', Tracked(paths'));
    forall p
      ensures p in r <==> p in r'
      ensures p in r ==> p in files && p in files' && files[p] == files'[p]
    {
      assert p in r <==> p in Seen(paths, files);
      assert p in r' <==> p in Seen(paths', files');
    }
    NoDupMultiset(r, r');
    PathOrder();
    SortedUnique(PathLe, r, r');
  }

  // The strong fingerprint determines, and is determined by, the weak fingerprint and
  // the contents of the tracked regular files.
  lemma StrongExact(hash: string -> string, wf: string, paths: seq<Path>, files: Files,
                    wf': string, paths': seq<Path>, files': Files, inputs: iset<string>)
    requires Digests(hash) && CollisionFree(hash, inputs)
    requires forall p :: p in Seen(paths, files) ==> files[p] in inputs
    requires forall p :: p in Seen(paths', files') ==> files'[p] in inputs
    requires StrongBytes(hash, wf, paths, files) in inputs && StrongBytes(hash, wf', paths', files') in inputs
    requires '\n' !in wf && '\n' !in wf' && FramablePaths(paths) && FramablePaths(paths')
    ensures StrongFingerprint(hash, wf, paths, files) == StrongFingerprint(hash, wf', paths', files') <==>
      wf == wf' && Seen(paths, files) == Seen(paths', files')
  {
    var b, b' := StrongBytes(hash, wf, paths, files), StrongBytes(hash, wf', paths', files');
    var rs, rs' := Records(hash, files, Tracked(paths)), Records(hash, files', Tracked(paths'));
    if Hex(hash(b)) == Hex(hash(b')) {
      assert IsDigest(hash(b)) && IsDigest(hash(b'));
      HexInjective(hash(b), hash(b'));
      RecordsDecodable(hash, paths, files);
      RecordsDecodable(hash, paths', files');
      FrameReadsBack(wf, rs);
      FrameReadsBack(wf', rs');
      SeenFromFrame(hash, paths, files, paths', files', inputs);
      SeenFromFrame(hash, paths', files', paths, files, inputs);
      assert Seen(paths, files) == Seen(paths', files');
    }
    if wf == wf' && Seen(paths, files) == Seen(paths', files') {
      RecordsFromSeen(hash, paths, files, paths', files');
    }
  }

  lemma RecordsDecodable(hash: string -> string, paths: seq<Path>, files: Files)
    requires Digests(hash) && FramablePaths(paths)
    ensures Decodable(Records(hash, files, Tracked(paths)))
  {
    TrackedSorted(paths);
    RegularSorted(files, Tracked(paths));
    RecordsRegular(hash, files, Tracked(paths));
    var rs := Records(hash, files, Tracked(paths));
    forall r | r in rs
      ensures ':' !in r.0 && |r.1| == 32
    {
      var i :| 0 <= i < |rs| && rs[i] == r;
      var p := Regular(files, Tracked(paths))[i];
      assert p in paths && IsDigest(hash(files[p]));
    }
  }
}

/** The weak fingerprint: what is known about a task before it runs. */
module WeakFp {
  import opened Wrappers
  import opened Sorting
  import opened Framing

  type Pairs = seq<(string, string)>

  // The inputs of the hash: `inputs` are the matched files with the hex of their contents'
  // digests, sorted by path; `env` and `depAbi` come in any order.
  datatype WeakFields = WeakFields(
    command: string,
    toolPath: string,
    toolHash: string,
    packagePath: string,
    inputs: Pairs,
    env: Pairs,
    depAbi: Pairs)

  predicate KeyLe(a: (string, string), b: (string, string)) {
    StrLe(a.0, b.0)
  }

  function SortByKey(ps: Pairs): Pairs {
    Sort(KeyLe, ps)
  }

  function Line(tag: string, sep: string, p: (string, string)): string {
    tag + p.0 + sep + p.1
  }

  function Lines(tag: string, sep: string, ps: Pairs): seq<string> {
    if ps == [] then [] else [Line(tag, sep, ps[0])] + Lines(tag, sep, ps[1..])
  }

  // The lines of the hashed text, for lists in the order given.
  function FieldLines(w: WeakFields): seq<string> {
    ["command:" + w.command, "tool_path:" + w.toolPath, "tool_hash:" + w.toolHash, "pkg_path:" + w.packagePath]
    + Lines("input:", ":", w.inputs) + Lines("env:", "=", w.env) + Lines("dep_abi:", "=", w.depAbi)
  }

  function Text(lines: seq<string>): string {
    if lines == [] then "" else lines[0] + "\n" + Text(lines[1..])
  }

  function Normal(w: WeakFields): WeakFields {
    w.(env := SortByKey(w.env), depAbi := SortByKey(w.depAbi))
  }

  function WeakBytes(w: WeakFields): string {
    Text(FieldLines(Normal(w)))
  }

  function WeakFingerprint(hash: string -> string, w: WeakFields): string {
    Hex(hash(WeakBytes(w)))
  }

  // Every line ends with a newline; with TextConcat, the text of any list of lines.
  lemma TextOfLine(l: string)
    ensures Text([]) == "" && Text([l]) == l + "\n"
  {
    assert [l][1..] == [];
    assert Text([l]) == l + "\n" + "";
  }

  lemma {:induction false} TextConcat(a: seq<string>, b: seq<string>)
    ensures Text(a + b) == Text(a) + Text(b)
  {
    if a == [] {
      assert a + b == b;
    } else {
      TextConcat(a[1..], b);
      assert (a + b)[1..] == a[1..] + b;
    }
  }

  lemma {:induction false} LinesSnoc(tag: string, sep: string, ps: Pairs, p: (string, string))
    ensures Lines(tag, sep, ps + [p]) == Lines(tag, sep, ps) + [Line(tag, sep, p)]
  {
    if ps == [] {
      assert ps + [p] == [p];
    } else {
      LinesSnoc(tag, sep, ps[1..], p);
      assert (ps + [p])[1..] == ps[1..] + [p];
    }
  }

  // Feeds one labelled line per pair to the hasher.
  method UpdatePairs(hasher: string, tag: string, sep: string, ps: Pairs) returns (hasher': string)
    ensures hasher' == hasher + Text(Lines(tag, sep, ps))
  {
    hasher' := hasher;
    ghost var ls := Lines(tag, sep, []);
    for i := 0 to |ps|
      invariant ls == Lines(tag, sep, ps[..i])
      invariant hasher' == hasher + Text(ls)
    {
      ghost var before := hasher';
      hasher' := hasher' + tag;
      hasher' := hasher' + ps[i].0;
      hasher' := hasher' + sep;
      hasher' := hasher' + ps[i].1;
      hasher' := hasher' + "\n";
      PairLine(before, tag, sep, ps[i]);
      LinesSnoc(tag, sep, ps[..i], ps[i]);
      assert ps[..i + 1] == ps[..i] + [ps[i]];
      TextConcat(ls, [Line(tag, sep, ps[i])]);
      assert hasher' == hasher + (Text(ls) + Text([Line(tag, sep, ps[i])]));
      ls := ls + [Line(tag, sep, ps[i])];
    }
    assert ps[..|ps|] == ps;
  }

  lemma PairLine(before: string, tag: string, sep: string, p: (string, string))
    ensures before + tag + p.0 + sep + p.1 + "\n" == before + Text([Line(tag, sep, p)])
  {
    assert Text([Line(tag, sep, p)]) == tag + p.0 + sep + p.1 + "\n" + "";
  }

  lemma HeadText(a: string, b: string, c: string, d: string)
    ensures Text([a, b, c, d]) == a + "\n" + b + "\n" + c + "\n" + d + "\n"
  {
    assert [a, b, c, d][1..] == [b, c, d] && [b, c, d][1..] == [c, d] && [c, d][1..] == [d] && [d][1..] == [];
    assert Text([d]) == d + "\n" + "";
    assert Text([c, d]) == c + "\n" + (d + "\n");
    assert Text([b, c, d]) == b + "\n" + (c + "\n" + d + "\n");
  }

  method ComputeWeakFingerprint(hash: string -> string, w: WeakFields) returns (wf: string)
    ensures wf == WeakFingerprint(hash, w)
  {
    var hasher := "command:" + w.command + "\n";
    hasher := hasher + "tool_path:" + w.toolPath + "\n";
    hasher := hasher + "tool_hash:" + w.toolHash + "\n";
    hasher := hasher + "pkg_path:" + w.packagePath + "\n";
    ghost var head := ["command:" + w.command, "tool_path:" + w.toolPath, "tool_hash:" + w.toolHash,
                       "pkg_path:" + w.packagePath];
    HeadText(head[0], head[1], head[2], head[3]);
    assert hasher == Text(head);
    hide Text, Line, Lines;
    hasher := UpdatePairs(hasher, "input:", ":", w.inputs);
    var env := SortByKey(w.env);
    hasher := UpdatePairs(hasher, "env:", "=", env);
    var deps := SortByKey(w.depAbi);
    hasher := UpdatePairs(hasher, "dep_abi:", "=", deps);
    TextConcat(head, Lines("input:", ":", w.inputs));
    TextConcat(head + Lines("input:", ":", w.inputs), Lines("env:", "=", env));
    TextConcat(head + Lines("input:", ":", w.inputs) + Lines("env:", "=", env), Lines("dep_abi:", "=", deps));
    wf := Hex(hash(hasher));
  }

  // ---- Reading the text back -----------------------------------------------------------

  function SplitLines(b: string): seq<string>
    decreases |b|
  {
    if b == "" then [] else
      var i := IndexOf(b, '\n');
      if i == |b| then [b] else [b[..i]] + SplitLines(b[i + 1..])
  }

  lemma {:induction false} SplitText(lines: seq<string>)
    requires forall l | l in lines :: '\n' !in l
    ensures SplitLines(Text(lines)) == lines
  {
    if lines != [] {
      SplitText(lines[1..]);
      assert lines[0] in lines;
      SplitFirst(lines[0], Text(lines[1..]));
      assert lines == [lines[0]] + lines[1..];
    }
  }

  lemma SplitFirst(l: string, tail: string)
    requires '\n' !in l
    ensures SplitLines(l + "\n" + tail) == [l] + SplitLines(tail)
  {
    var b := l + "\n" + tail;
    assert b == l + ("\n" + tail);
    IndexOfSplit(l, '\n', "\n" + tail);
    assert b[..|l|] == l && b[|l| + 1..] == tail;
  }

  predicate HasTag(tag: string, l: string) {
    tag <= l
  }

  // The pair on a line, cut at the first separator ...
  function CutFirst(tag: string, sep: char, l: string): (string, string)
    requires tag <= l
  {
    var r := l[|tag|..];
    var i := IndexOf(r, sep);
    if i == |r| then (r, "") else (r[..i], r[i + 1..])
  }

  const HEX_LEN := 64

  // ... or before the hex digest that ends it.
  function CutDigest(tag: string, l: string): (string, string)
    requires tag <= l
  {
    var r := l[|tag|..];
    if |r| <= HEX_LEN then (r, "") else (r[..|r| - HEX_LEN - 1], r[|r| - HEX_LEN..])
  }

  function Cut(tag: string, sep: char, digest: bool, l: string): (string, string)
    requires tag <= l
  {
    if digest then CutDigest(tag, l) else CutFirst(tag, sep, l)
  }

  function Tagged(tag: string, sep: char, digest: bool, lines: seq<string>): Pairs {
    if lines == [] then [] else
      (if HasTag(tag, lines[0]) then [Cut(tag, sep, digest, lines[0])] else [])
      + Tagged(tag, sep, digest, lines[1..])
  }

  // The files come first, then the environment, then the dependencies.
  function Section(l: string): nat {
    if HasTag("input:", l) then 0 else if HasTag("env:", l) then 1 else if HasTag("dep_abi:", l) then 2 else 3
  }

  predicate InSections(ls: seq<string>) {
    && (forall i | 0 <= i < |ls| :: Section(ls[i]) < 3)
    && (forall i, j | 0 <= i < j < |ls| :: Section(ls[i]) <= Section(ls[j]))
  }

  predicate HasHead(ls: seq<string>) {
    && |ls| >= 4
    && HasTag("command:", ls[0]) && HasTag("tool_path:", ls[1])
    && HasTag("tool_hash:", ls[2]) && HasTag("pkg_path:", ls[3])
  }

  function DecodeWeak(b: string): Option<WeakFields> {
    var ls := SplitLines(b);
    if !HasHead(ls) || !InSections(ls[4..]) then None
    else
      assert |"command:"| == 8 && |"tool_path:"| == 10 && |"tool_hash:"| == 10 && |"pkg_path:"| == 9;
      Some(WeakFields(ls[0][8..], ls[1][10..], ls[2][10..], ls[3][9..],
                      Tagged("input:", ':', true, ls[4..]),
                      Tagged("env:", '=', false, ls[4..]),
                      Tagged("dep_abi:", '=', false, ls[4..])))
  }

  lemma {:induction false} LinesTagged(tag: string, sep: string, ps: Pairs)
    ensures forall l :: l in Lines(tag, sep, ps) ==> HasTag(tag, l)
  {
    if ps != [] {
      LinesTagged(tag, sep, ps[1..]);
    }
  }

  lemma SectionsOf(w: WeakFields)
    ensures InSections(Lines("input:", ":", w.inputs) + Lines("env:", "=", w.env) + Lines("dep_abi:", "=", w.depAbi))
  {
    var a, b, c := Lines("input:", ":", w.inputs), Lines("env:", "=", w.env), Lines("dep_abi:", "=", w.depAbi);
    LinesTagged("input:", ":", w.inputs);
    LinesTagged("env:", "=", w.env);
    LinesTagged("dep_abi:", "=", w.depAbi);
    forall l
      ensures l in a ==> Section(l) == 0
      ensures l in b ==> Section(l) == 1
      ensures l in c ==> Section(l) == 2
    {
      TagsDiffer(l);
    }
    hide Section, Lines;
    var all := a + b + c;
    forall i | 0 <= i < |all|
      ensures Section(all[i]) == if i < |a| then 0 else if i < |a| + |b| then 1 else 2
    {
      assert all[i] in if i < |a| then a else if i < |a| + |b| then b else c;
    }
  }

  lemma TagsDiffer(l: string)
    ensures HasTag("env:", l) ==> !HasTag("input:", l)
    ensures HasTag("dep_abi:", l) ==> !HasTag("input:", l) && !HasTag("env:", l)
  {
    if HasTag("env:", l) {
      assert l[0] == "env:"[0] == 'e';
    }
    if HasTag("dep_abi:", l) {
      assert l[0] == "dep_abi:"[0] == 'd';
    }
    if HasTag("input:", l) {
      assert l[0] == "input:"[0] == 'i';
    }
  }

  lemma {:induction false} TaggedConcat(tag: string, sep: char, digest: bool, a: seq<string>, b: seq<string>)
    ensures Tagged(tag, sep, digest, a + b) == Tagged(tag, sep, digest, a) + Tagged(tag, sep, digest, b)
  {
    if a == [] {
      assert a + b == b;
    } else {
      TaggedConcat(tag, sep, digest, a[1..], b);
      assert (a + b)[1..] == a[1..] + b && (a + b)[0] == a[0];
      hide Cut;
    }
  }

  lemma {:induction false} TaggedOther(tag: string, sep: char, digest: bool, tag': string, sep': string, ps: Pairs)
    requires tag != "" && tag' != "" && tag[0] != tag'[0]
    ensures Tagged(tag, sep, digest, Lines(tag', sep', ps)) == []
  {
    if ps != [] {
      assert Line(tag', sep', ps[0])[0] == tag'[0];
      TaggedOther(tag, sep, digest, tag', sep', ps[1..]);
    }
  }

  // Pairs a line can carry: keys without '=', or values that are hex digests.
  predicate Cuttable(sep: char, digest: bool, ps: Pairs) {
    forall p | p in ps :: if digest then |p.1| == HEX_LEN else sep !in p.0
  }

  lemma CutBack(tag: string, sep: char, digest: bool, p: (string, string))
    requires if digest then |p.1| == HEX_LEN else sep !in p.0
    ensures HasTag(tag, Line(tag, [sep], p))
    ensures Cut(tag, sep, digest, Line(tag, [sep], p)) == p
  {
    var r := Line(tag, [sep], p)[|tag|..];
    assert r == p.0 + ([sep] + p.1);
    if !digest {
      IndexOfSplit(p.0, sep, [sep] + p.1);
    }
  }

  lemma {:induction false} TaggedOwn(tag: string, sep: char, digest: bool, ps: Pairs)
    requires Cuttable(sep, digest, ps)
    ensures Tagged(tag, sep, digest, Lines(tag, [sep], ps)) == ps
  {
    if ps != [] {
      assert ps[0] in ps;
      CutBack(tag, sep, digest, ps[0]);
      TaggedOwn(tag, sep, digest, ps[1..]);
      assert ps == [ps[0]] + ps[1..];
    }
  }

  predicate NoNewline(ps: Pairs) {
    forall p | p in ps :: '\n' !in p.0 && '\n' !in p.1
  }

  // The fields the text can tell apart: no newlines, no '=' in a key, files' digests in hex.
  predicate Framable(w: WeakFields) {
    && '\n' !in w.command && '\n' !in w.toolPath && '\n' !in w.toolHash && '\n' !in w.packagePath
    && NoNewline(w.inputs) && NoNewline(w.env) && NoNewline(w.depAbi)
    && Cuttable(':', true, w.inputs) && Cuttable('=', false, w.env) && Cuttable('=', false, w.depAbi)
  }

  lemma {:induction false} LinesClean(tag: string, sep: string, ps: Pairs)
    requires '\n' !in tag && '\n' !in sep && NoNewline(ps)
    ensures forall l :: l in Lines(tag, sep, ps) ==> '\n' !in l
  {
    if ps != [] {
      assert ps[0] in ps;
      LinesClean(tag, sep, ps[1..]);
    }
  }

  lemma {:induction false} TagsRoundTrip(w: WeakFields)
    requires Framable(w)
    ensures var ls := Lines("input:", ":", w.inputs) + Lines("env:", "=", w.env) + Lines("dep_abi:", "=", w.depAbi);
      && Tagged("input:", ':', true, ls) == w.inputs
      && Tagged("env:", '=', false, ls) == w.env
      && Tagged("dep_abi:", '=', false, ls) == w.depAbi
  {
    var a, b, c := Lines("input:", ":", w.inputs), Lines("env:", "=", w.env), Lines("dep_abi:", "=", w.depAbi);
    TaggedOwn("input:", ':', true, w.inputs);
    TaggedOwn("env:", '=', false, w.env);
    TaggedOwn("dep_abi:", '=', false, w.depAbi);
    TaggedOther("input:", ':', true, "env:", "=", w.env);
    TaggedOther("input:", ':', true, "dep_abi:", "=", w.depAbi);
    TaggedOther("env:", '=', false, "input:", ":", w.inputs);
    TaggedOther("env:", '=', false, "dep_abi:", "=", w.depAbi);
    TaggedOther("dep_abi:", '=', false, "input:", ":", w.inputs);
    TaggedOther("dep_abi:", '=', false, "env:", "=", w.env);
    hide Tagged, Lines;
    TaggedConcat("input:", ':', true, a, b);
    TaggedConcat("input:", ':', true, a + b, c);
    TaggedConcat("env:", '=', false, a, b);
    TaggedConcat("env:", '=', false, a + b, c);
    TaggedConcat("dep_abi:", '=', false, a, b);
    TaggedConcat("dep_abi:", '=', false, a + b, c);
  }

  lemma {:induction false} SplitClean(b: string)
    ensures forall l :: l in SplitLines(b) ==> '\n' !in l
    decreases |b|
  {
    if b != "" {
      var i := IndexOf(b, '\n');
      if i == |b| {
        assert b[..i] == b;
      } else {
        SplitClean(b[i + 1..]);
      }
    }
  }

  // What is read off clean lines is clean, and a key read up to the first separator lacks it.
  lemma {:induction false} TaggedClean(tag: string, sep: char, digest: bool, lines: seq<string>)
    requires forall l :: l in lines ==> '\n' !in l
    ensures NoNewline(Tagged(tag, sep, digest, lines))
    ensures !digest ==> Cuttable(sep, digest, Tagged(tag, sep, digest, lines))
  {
    if lines != [] {
      assert lines[0] in lines;
      TaggedClean(tag, sep, digest, lines[1..]);
    }
  }

  lemma DecodedFramable(b: string)
    requires DecodeWeak(b).Some? && Cuttable(':', true, DecodeWeak(b).value.inputs)
    ensures Framable(DecodeWeak(b).value)
  {
    var ls := SplitLines(b);
    SplitClean(b);
    assert ls[0] in ls && ls[1] in ls && ls[2] in ls && ls[3] in ls;
    assert forall l :: l in ls[4..] ==> l in ls;
    TaggedClean("input:", ':', true, ls[4..]);
    TaggedClean("env:", '=', false, ls[4..]);
    TaggedClean("dep_abi:", '=', false, ls[4..]);
  }

  // Every field can be read back from the hashed text, when the files' digests have their
  // length, exactly when no field holds a newline and no key an equals sign.
  lemma WeakRoundTrip(w: WeakFields)
    requires Cuttable(':', true, w.inputs)
    ensures DecodeWeak(Text(FieldLines(w))) == Some(w) <==> Framable(w)
  {
    if Framable(w) {
      WeakReadsBack(w);
    }
    if DecodeWeak(Text(FieldLines(w))) == Some(w) {
      DecodedFramable(Text(FieldLines(w)));
    }
  }

  lemma WeakReadsBack(w: WeakFields)
    requires Framable(w)
    ensures DecodeWeak(Text(FieldLines(w))) == Some(w)
  {
    FieldsClean(w);
    SplitText(FieldLines(w));
    HeadLines(w);
    TagsRoundTrip(w);
    SectionsOf(w);
    hide Tagged, Lines, SplitLines, Text, FieldLines, Framable, InSections, HasHead;
  }

  lemma FieldsClean(w: WeakFields)
    requires Framable(w)
    ensures forall l :: l in FieldLines(w) ==> '\n' !in l
  {
    var ls := FieldLines(w);
    var rest := Lines("input:", ":", w.inputs) + Lines("env:", "=", w.env) + Lines("dep_abi:", "=", w.depAbi);
    HeadLines(w);
    LinesClean("input:", ":", w.inputs);
    LinesClean("env:", "=", w.env);
    LinesClean("dep_abi:", "=", w.depAbi);
    hide Lines, FieldLines, HasHead;
    assert forall i :: 4 <= i < |ls| ==> ls[i] == rest[i - 4];
  }

  lemma HeadLines(w: WeakFields)
    ensures var ls := FieldLines(w);
      && |ls| >= 4 && |ls[0]| >= 8 && |ls[1]| >= 10 && |ls[2]| >= 10 && |ls[3]| >= 9 && HasHead(ls)
      && ls[0][8..] == w.command && ls[1][10..] == w.toolPath
      && ls[2][10..] == w.toolHash && ls[3][9..] == w.packagePath
      && ls[4..] == Lines("input:", ":", w.inputs) + Lines("env:", "=", w.env) + Lines("dep_abi:", "=", w.depAbi)
      && (Framable(w) ==> forall i :: 0 <= i < 4 ==> '\n' !in ls[i])
  {
    hide Lines, Text, SplitLines, Tagged;
  }

  predicate DistinctKeys(ps: Pairs) {
    forall i, j | 0 <= i < j < |ps| :: ps[i].0 != ps[j].0
  }

  lemma KeyOrder()
    ensures Total(KeyLe) && Transitive(KeyLe)
  {
    StrOrder();
  }

  lemma SortByKeyExact(a: Pairs, b: Pairs)
    requires DistinctKeys(a) && multiset(a) == multiset(b)
    ensures SortByKey(a) == SortByKey(b)
  {
    KeyOrder();
    StrOrder();
    SortSorted(KeyLe, a);
    SortSorted(KeyLe, b);
    var s := SortByKey(a);
    forall x, y | x in s && y in s && KeyLe(x, y) && KeyLe(y, x)
      ensures x == y
    {
      assert x in multiset(s) && y in multiset(s);
      assert x in multiset(a) && y in multiset(a);
      assert x.0 == y.0;
    }
    SortedUnique(KeyLe, s, SortByKey(b));
  }

  lemma SortKeeps(ps: Pairs)
    ensures forall p :: p in SortByKey(ps) <==> p in ps
    ensures multiset(SortByKey(ps)) == multiset(ps)
  {
    KeyOrder();
    SortSorted(KeyLe, ps);
    forall p
      ensures p in SortByKey(ps) <==> p in ps
    {
      assert p in multiset(SortByKey(ps)) <==> p in multiset(ps);
    }
  }

  // Fields that agree but for the order of their environment and dependency lists.
  ghost predicate SameFields(w: WeakFields, w': WeakFields) {
    && w' == w.(env := w'.env, depAbi := w'.depAbi)
    && multiset(w'.env) == multiset(w.env) && multiset(w'.depAbi) == multiset(w.depAbi)
  }

  // Equal fingerprints mean equal fields, with the lists in sorted order.
  lemma WeakNormal(hash: string -> string, w: WeakFields, w': WeakFields, inputs: iset<string>)
    requires Digests(hash) && CollisionFree(hash, inputs) && WeakBytes(w) in inputs && WeakBytes(w') in inputs
    requires Framable(w) && Framable(w')
    ensures WeakFingerprint(hash, w) == WeakFingerprint(hash, w') <==> Normal(w) == Normal(w')
  {
    SortKeeps(w.env);
    SortKeeps(w.depAbi);
    SortKeeps(w'.env);
    SortKeeps(w'.depAbi);
    if WeakFingerprint(hash, w) == WeakFingerprint(hash, w') {
      assert IsDigest(hash(WeakBytes(w))) && IsDigest(hash(WeakBytes(w')));
      HexInjective(hash(WeakBytes(w)), hash(WeakBytes(w')));
      WeakReadsBack(Normal(w));
      WeakReadsBack(Normal(w'));
    }
  }

  // The weak fingerprint determines, and is determined by, the fields up to order.
  lemma WeakExact(hash: string -> string, w: WeakFields, w': WeakFields, inputs: iset<string>)
    requires Digests(hash) && CollisionFree(hash, inputs) && WeakBytes(w) in inputs && WeakBytes(w') in inputs
    requires Framable(w) && Framable(w') && DistinctKeys(w.env) && DistinctKeys(w.depAbi)
    ensures WeakFingerprint(hash, w) == WeakFingerprint(hash, w') <==> SameFields(w, w')
  {
    SortKeeps(w.env);
    SortKeeps(w.depAbi);
    SortKeeps(w'.env);
    SortKeeps(w'.depAbi);
    WeakNormal(hash, w, w', inputs);
    if Normal(w) == Normal(w') {
      assert multiset(Normal(w).env) == multiset(Normal(w').env);
      assert multiset(Normal(w).depAbi) == multiset(Normal(w').depAbi);
    }
    if SameFields(w, w') {
      SortByKeyExact(w.env, w'.env);
      SortByKeyExact(w.depAbi, w'.depAbi);
    }
  }

  lemma SortSmall(p: (string, string), q: (string, string))
    ensures SortByKey([p]) == [p]
    ensures KeyLe(p, q) ==> SortByKey([p, q]) == [p, q]
  {
    assert [p][1..] == [] && [p, q][1..] == [q] && [q][1..] == [];
    assert Sort(KeyLe, [q]) == Insert(KeyLe, q, []) == [q];
    assert Sort(KeyLe, [p]) == Insert(KeyLe, p, []) == [p];
    assert Sort(KeyLe, [p, q]) == Insert(KeyLe, p, [q]);
  }

  function Merged(p: (string, string), q: (string, string)): (string, string) {
    (p.0, p.1 + "\n" + Line("env:", "=", q))
  }

  // Two environment lines read the same as one whose value holds a newline.
  lemma MergedLines(p: (string, string), q: (string, string))
    ensures Text(Lines("env:", "=", [p, q])) == Text(Lines("env:", "=", [Merged(p, q)]))
  {
    var pq := Merged(p, q);
    var k, l, kl := Line("env:", "=", p), Line("env:", "=", q), Line("env:", "=", pq);
    assert kl == k + "\n" + l;
    assert [p, q][1..] == [q] && [q][1..] == [] && [pq][1..] == [];
    assert Lines("env:", "=", [q]) == [l];
    assert Lines("env:", "=", [p, q]) == [k] + [l] && Lines("env:", "=", [pq]) == [kl];
    assert [k, l][1..] == [l] && [l][1..] == [] && [kl][1..] == [];
    assert Text([l]) == l + "\n" + "";
    assert Text([k, l]) == k + "\n" + (l + "\n" + "") && Text([kl]) == kl + "\n" + "";
  }

  lemma MergedText(w: WeakFields, p: (string, string), q: (string, string))
    requires KeyLe(p, q)
    ensures WeakBytes(w.(env := [p, q])) == WeakBytes(w.(env := [Merged(p, q)]))
  {
    SortSmall(p, q);
    SortSmall(Merged(p, q), q);
    MergedLines(p, q);
    var n := Normal(w);
    hide Text, Line, Lines, Merged;
    var head := ["command:" + w.command, "tool_path:" + w.toolPath, "tool_hash:" + w.toolHash,
                 "pkg_path:" + w.packagePath] + Lines("input:", ":", w.inputs);
    var deps := Lines("dep_abi:", "=", n.depAbi);
    TextConcat(head, Lines("env:", "=", [p, q]));
    TextConcat(head + Lines("env:", "=", [p, q]), deps);
    TextConcat(head, Lines("env:", "=", [Merged(p, q)]));
    TextConcat(head + Lines("env:", "=", [Merged(p, q)]), deps);
  }

  // A newline in a field lets two different sets of fields share one text.
  lemma WeakAmbiguous() returns (w: WeakFields, w': WeakFields)
    ensures WeakBytes(w) == WeakBytes(w') && !SameFields(w, w')
    ensures Framable(w) && !Framable(w')
  {
    var p, q := ("k", "v"), ("l", "u");
    w := WeakFields("c", "t", "h", "p", [], [p, q], []);
    w' := w.(env := [Merged(p, q)]);
    assert CharLt('k', 'l') && KeyLe(p, q);
    MergedText(w, p, q);
    assert |multiset(w.env)| != |multiset(w'.env)|;
    assert Merged(p, q) in w'.env && Merged(p, q).1[1] == '\n';
    hide WeakBytes;
  }
}
