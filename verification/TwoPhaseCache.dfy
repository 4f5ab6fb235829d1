/** The two-phase cache: weak fingerprint -> recorded pathsets -> strong fingerprint -> entry. */
module TwoPhase {
  import opened Wrappers
  import opened Framing
  import opened StrongFp
  import WeakFp

  datatype Pathset = Pathset(readPaths: seq<Path>, writePaths: seq<Path>)

  datatype Entry = Entry(
    fingerprint: string,
    command: string,
    exitCode: int,
    elapsedMs: nat,
    cachedAt: nat,
    pathsetReads: seq<Path>,
    abiFingerprint: Option<string>)

  datatype Hit = Hit(sf: string, entry: Entry, readPaths: seq<Path>)

  type Lists = map<string, seq<Pathset>>

  // What is on disk: the pathset list of each weak fingerprint, the entry of each strong one.
  datatype Store = Store(lists: Lists, entries: map<string, Entry>)

  function ListOf(lists: Lists, wf: string): seq<Pathset> {
    if wf in lists then lists[wf] else []
  }

  function Appended(lists: Lists, wf: string, ps: Pathset): Lists {
    if ps in ListOf(lists, wf) then lists else lists[wf := ListOf(lists, wf) + [ps]]
  }

  function FirstHit(hash: string -> string, wf: string, pss: seq<Pathset>, entries: map<string, Entry>,
                    files: Files): Option<Hit>
  {
    if pss == [] then None else
      var sf := StrongFingerprint(hash, wf, pss[0].readPaths, files);
      if sf in entries then Some(Hit(sf, entries[sf], pss[0].readPaths))
      else FirstHit(hash, wf, pss[1..], entries, files)
  }

  function LookupIn(hash: string -> string, st: Store, w: WeakFp.WeakFields, files: Files): Option<Hit> {
    var wf := WeakFp.WeakFingerprint(hash, w);
    FirstHit(hash, wf, ListOf(st.lists, wf), st.entries, files)
  }

  function EntryFor(sf: string, template: Entry, ps: Pathset): Entry {
    template.(fingerprint := sf, pathsetReads := ps.readPaths)
  }

  function Recorded(hash: string -> string, st: Store, w: WeakFp.WeakFields, files: Files, ps: Pathset,
                    template: Entry): Store
  {
    var wf := WeakFp.WeakFingerprint(hash, w);
    var sf := StrongFingerprint(hash, wf, ps.readPaths, files);
    Store(Appended(st.lists, wf, ps), st.entries[sf := EntryFor(sf, template, ps)])
  }

  class PathsetStore {
    var lists: Lists

    constructor ()
      ensures lists == map[]
    {
      lists := map[];
    }

    method List(wf: string) returns (pss: seq<Pathset>)
      ensures pss == ListOf(lists, wf)
    {
      pss := if wf in lists then lists[wf] else [];
    }

    // Idempotent: a pathset already stored is not stored again. A list only grows at its
    // end, and other lists stay as they are.
    method Append(wf: string, ps: Pathset)
      modifies this
      ensures lists == Appended(old(lists), wf, ps)
      ensures ps in ListOf(lists, wf) && old(ListOf(lists, wf)) <= ListOf(lists, wf)
      ensures forall q :: q in ListOf(lists, wf) ==> q == ps || q in old(ListOf(lists, wf))
      ensures forall other :: other != wf ==> ListOf(lists, other) == old(ListOf(lists, other))
      ensures NoDup(old(ListOf(lists, wf))) ==> NoDup(ListOf(lists, wf))
    {
      var existing := List(wf);
      if ps in existing {
        return;
      }
      existing := existing + [ps];
      lists := lists[wf := existing];
    }
  }

  class TwoPhaseCache {
    const hash: string -> string
    const pathsets: PathsetStore
    var entries: map<string, Entry>

    ghost function View(): Store
      reads this, pathsets
    {
      Store(pathsets.lists, entries)
    }

    constructor (hash: string -> string)
      ensures this.hash == hash && fresh(pathsets) && View() == Store(map[], map[])
    {
      this.hash := hash;
      pathsets := new PathsetStore();
      entries := map[];
    }

    // The first stored pathset, in order, whose fingerprint on these files has an entry.
    method Lookup(w: WeakFp.WeakFields, files: Files) returns (hit: Option<Hit>)
      ensures hit == LookupIn(hash, View(), w, files)
      ensures hit.None? ==> Barren(hash, View(), w, files, |ListOf(pathsets.lists, WeakFp.WeakFingerprint(hash, w))|)
      ensures hit.Some? ==> exists i :: FoundAt(hash, View(), w, files, hit.value, i)
    {
      FirstInOrder(hash, View(), w, files);
      hide Barren, FoundAt, StrongFingerprint, WeakFp.WeakFingerprint;
      var wf := WeakFp.ComputeWeakFingerprint(hash, w);
      var pss := pathsets.List(wf);
      for i := 0 to |pss|
        invariant FirstHit(hash, wf, pss, entries, files) == FirstHit(hash, wf, pss[i..], entries, files)
      {
        var sf := ComputeStrongFingerprint(hash, wf, pss[i].readPaths, files);
        if sf in entries {
          return Some(Hit(sf, entries[sf], pss[i].readPaths));
        }
      }
      return None;
    }

    method Record(w: WeakFp.WeakFields, files: Files, ps: Pathset, template: Entry) returns (sf: string)
      modifies this, pathsets
      ensures View() == Recorded(hash, old(View()), w, files, ps, template)
      ensures sf in entries && Keeps(entries[sf], template)
      ensures entries[sf].fingerprint == sf && entries[sf].pathsetReads == ps.readPaths
      ensures forall k :: k != sf ==> (k in entries <==> k in old(entries))
      ensures forall k :: k != sf && k in entries ==> entries[k] == old(entries)[k]
      ensures sf == StrongFingerprint(hash, WeakFp.WeakFingerprint(hash, w), ps.readPaths, files)
    {
      var wf := WeakFp.ComputeWeakFingerprint(hash, w);
      pathsets.Append(wf, ps);
      sf := ComputeStrongFingerprint(hash, wf, ps.readPaths, files);
      var entry := template.(fingerprint := sf);
      entry := entry.(pathsetReads := ps.readPaths);
      entries := entries[sf := entry];
    }
  }

  // What an entry takes over from the run it was recorded for.
  predicate Keeps(entry: Entry, template: Entry) {
    && entry.command == template.command
    && entry.exitCode == template.exitCode
    && entry.elapsedMs == template.elapsedMs
    && entry.cachedAt == template.cachedAt
    && entry.abiFingerprint == template.abiFingerprint
  }

  // None of the first n pathsets stored for w gives the fingerprint of an entry.
  ghost predicate Barren(hash: string -> string, st: Store, w: WeakFp.WeakFields, files: Files, n: nat) {
    var wf := WeakFp.WeakFingerprint(hash, w);
    n <= |ListOf(st.lists, wf)| &&
    forall i :: 0 <= i < n ==> StrongFingerprint(hash, wf, ListOf(st.lists, wf)[i].readPaths, files) !in st.entries
  }

  // The hit is what pathset i gives, and none before it gives one.
  ghost predicate FoundAt(hash: string -> string, st: Store, w: WeakFp.WeakFields, files: Files, hit: Hit, i: int) {
    var wf := WeakFp.WeakFingerprint(hash, w);
    && 0 <= i < |ListOf(st.lists, wf)| && Barren(hash, st, w, files, i)
    && hit.readPaths == ListOf(st.lists, wf)[i].readPaths
    && hit.sf == StrongFingerprint(hash, wf, hit.readPaths, files)
    && hit.sf in st.entries && hit.entry == st.entries[hit.sf]
  }

  lemma {:induction false} FirstInOrder(hash: string -> string, st: Store, w: WeakFp.WeakFields, files: Files)
    ensures var wf := WeakFp.WeakFingerprint(hash, w);
      LookupIn(hash, st, w, files).None? ==> Barren(hash, st, w, files, |ListOf(st.lists, wf)|)
    ensures LookupIn(hash, st, w, files).Some? ==>
      exists i :: FoundAt(hash, st, w, files, LookupIn(hash, st, w, files).value, i)
  {
    FirstFrom(hash, st, w, files, 0);
    var l := ListOf(st.lists, WeakFp.WeakFingerprint(hash, w));
    assert l[0..] == l;
  }

  lemma {:induction false} FirstFrom(hash: string -> string, st: Store, w: WeakFp.WeakFields, files: Files, k: nat)
    requires k <= |ListOf(st.lists, WeakFp.WeakFingerprint(hash, w))| && Barren(hash, st, w, files, k)
    ensures var wf := WeakFp.WeakFingerprint(hash, w);
      var r := FirstHit(hash, wf, ListOf(st.lists, wf)[k..], st.entries, files);
      && (r.None? ==> Barren(hash, st, w, files, |ListOf(st.lists, wf)|))
      && (r.Some? ==> exists i :: FoundAt(hash, st, w, files, r.value, i))
    decreases |ListOf(st.lists, WeakFp.WeakFingerprint(hash, w))| - k
  {
    hide StrongFingerprint, WeakFp.WeakFingerprint;
    var wf := WeakFp.WeakFingerprint(hash, w);
    var l := ListOf(st.lists, wf);
    if k < |l| {
      var sf := StrongFingerprint(hash, wf, l[k].readPaths, files);
      assert l[k..][0] == l[k] && l[k..][1..] == l[k + 1..];
      if sf in st.entries {
        assert FoundAt(hash, st, w, files, Hit(sf, st.entries[sf], l[k].readPaths), k);
      } else {
        assert Barren(hash, st, w, files, k + 1);
        FirstFrom(hash, st, w, files, k + 1);
      }
    }
  }

  // ---- Task runs ------------------------------------------------------------------------

  datatype Outcome = Outcome(exitCode: int, output: string, written: Files)

  // What a run does next, given the answers to its reads so far. A read is answered by the
  // contents of a regular file, or by None.
  datatype Action = Read(p: Path) | Exit(outcome: Outcome)

  // A task is a function of its weak inputs and of what it reads, in the order it reads it.
  type Behaviour = (WeakFp.WeakFields, seq<Option<string>>) -> Action

  function Answer(files: Files, p: Path): Option<string> {
    if p in files then Some(files[p]) else None
  }

  // A complete run of task b on these files: each read is the one the answers so far call for.
  ghost predicate Runs(b: Behaviour, w: WeakFp.WeakFields, files: Files, paths: seq<Path>, answers: seq<Option<string>>,
                       out: Outcome)
  {
    && |paths| == |answers|
    && (forall i :: 0 <= i < |paths| ==> b(w, answers[..i]) == Read(paths[i]) && answers[i] == Answer(files, paths[i]))
    && b(w, answers) == Exit(out)
  }

  // Do two file systems answer the same at each of these paths?
  predicate Agree(paths: seq<Path>, files: Files, files': Files) {
    forall p | p in paths :: Answer(files, p) == Answer(files', p)
  }

  // A run is determined by the files it reads ...
  lemma RunReplays(b: Behaviour, w: WeakFp.WeakFields, files: Files, files': Files,
                   paths: seq<Path>, answers: seq<Option<string>>, out: Outcome)
    requires Runs(b, w, files, paths, answers, out) && Agree(paths, files, files')
    ensures Runs(b, w, files', paths, answers, out)
  {
    forall i | 0 <= i < |paths|
      ensures answers[i] == Answer(files', paths[i])
    {
      assert paths[i] in paths;
    }
  }

  // ... and there is only one on given files.
  lemma {:induction false} RunPrefix(b: Behaviour, w: WeakFp.WeakFields, files: Files,
                                     ps: seq<Path>, an: seq<Option<string>>, o: Outcome,
                                     ps': seq<Path>, an': seq<Option<string>>, o': Outcome, n: nat)
    requires Runs(b, w, files, ps, an, o) && Runs(b, w, files, ps', an', o') && n <= |an| && n <= |an'|
    ensures an[..n] == an'[..n] && ps[..n] == ps'[..n]
  {
    if n > 0 {
      RunPrefix(b, w, files, ps, an, o, ps', an', o', n - 1);
      assert b(w, an[..n - 1]) == Read(ps[n - 1]) && b(w, an'[..n - 1]) == Read(ps'[n - 1]);
      assert an[..n] == an[..n - 1] + [an[n - 1]] && an'[..n] == an'[..n - 1] + [an'[n - 1]];
      assert ps[..n] == ps[..n - 1] + [ps[n - 1]] && ps'[..n] == ps'[..n - 1] + [ps'[n - 1]];
    }
  }

  lemma RunUnique(b: Behaviour, w: WeakFp.WeakFields, files: Files,
                  ps: seq<Path>, an: seq<Option<string>>, o: Outcome, ps': seq<Path>, an': seq<Option<string>>,
                  o': Outcome)
    requires Runs(b, w, files, ps, an, o) && Runs(b, w, files, ps', an', o')
    ensures ps == ps' && an == an' && o == o'
  {
    var n := if |an| <= |an'| then |an| else |an'|;
    RunPrefix(b, w, files, ps, an, o, ps', an', o', n);
    NextAction(b, w, files, ps, an, o, n);
    NextAction(b, w, files, ps', an', o', n);
    assert an[..|an|] == an && an'[..|an'|] == an' && ps[..|ps|] == ps && ps'[..|ps'|] == ps';
  }

  lemma NextAction(b: Behaviour, w: WeakFp.WeakFields, files: Files, ps: seq<Path>, an: seq<Option<string>>,
                   o: Outcome, n: nat)
    requires Runs(b, w, files, ps, an, o) && n <= |an|
    ensures b(w, an[..n]) == if n < |an| then Read(ps[n]) else Exit(o)
  {
    assert an[..|an|] == an;
  }

  // ---- Histories ------------------------------------------------------------------------

  // A run that was recorded: its weak inputs, the files it ran on, what it did, and the
  // files as they were when it was recorded. Files may change in any way between events.
  datatype Event = Event(
    w: WeakFp.WeakFields,
    before: Files,
    paths: seq<Path>,
    answers: seq<Option<string>>,
    out: Outcome,
    after: Files,
    ps: Pathset,
    template: Entry)

  function Wf(hash: string -> string, e: Event): string {
    WeakFp.WeakFingerprint(hash, e.w)
  }

  function Sf(hash: string -> string, e: Event): string {
    StrongFingerprint(hash, Wf(hash, e), e.ps.readPaths, e.after)
  }

  function StoreAfter(hash: string -> string, h: seq<Event>): Store {
    if h == [] then Store(map[], map[]) else
      var e := h[|h| - 1];
      Recorded(hash, StoreAfter(hash, h[..|h| - 1]), e.w, e.after, e.ps, e.template)
  }

  // The recorded pathset lists what the run read, and the run left its inputs alone.
  ghost predicate Faithful(b: Behaviour, e: Event) {
    && Runs(b, WeakFp.Normal(e.w), e.before, e.paths, e.answers, e.out)
    && (forall p :: p in e.ps.readPaths <==> p in e.paths)
    && Agree(e.paths, e.before, e.after)
  }

  // The byte strings hashed for w and these paths can be framed and do not collide.
  ghost predicate Hashable(hash: string -> string, inputs: iset<string>, w: WeakFp.WeakFields, paths: seq<Path>,
                           files: Files)
  {
    && WeakFp.Framable(w) && WeakFp.WeakBytes(w) in inputs
    && FramablePaths(paths) && StrongBytes(hash, WeakFp.WeakFingerprint(hash, w), paths, files) in inputs
    && (forall p :: p in Seen(paths, files) ==> files[p] in inputs)
  }

  ghost predicate HistoryOk(hash: string -> string, inputs: iset<string>, b: Behaviour, h: seq<Event>) {
    forall e :: e in h ==> Faithful(b, e) && Hashable(hash, inputs, e.w, e.ps.readPaths, e.after)
  }

  // Every entry was written by some event of the history, under that event's fingerprint;
  // every listed pathset was recorded under that weak fingerprint.
  lemma {:induction false} StoreOrigin(hash: string -> string, h: seq<Event>)
    ensures forall sf :: sf in StoreAfter(hash, h).entries ==> WroteEntry(hash, h, sf, StoreAfter(hash, h).entries[sf])
    ensures forall wf, ps :: ps in ListOf(StoreAfter(hash, h).lists, wf) ==> RecordedUnder(hash, h, wf, ps)
  {
    hide StrongFingerprint, WeakFp.WeakFingerprint;
    if h != [] {
      var front, e := h[..|h| - 1], h[|h| - 1];
      StoreOrigin(hash, front);
      assert h == front + [e];
      forall sf | sf in StoreAfter(hash, h).entries
        ensures WroteEntry(hash, h, sf, StoreAfter(hash, h).entries[sf])
      {
        if sf != Sf(hash, e) {
          assert WroteEntry(hash, front, sf, StoreAfter(hash, front).entries[sf]);
        }
      }
      forall wf, ps | ps in ListOf(StoreAfter(hash, h).lists, wf)
        ensures RecordedUnder(hash, h, wf, ps)
      {
        if ps in ListOf(StoreAfter(hash, front).lists, wf) {
          assert RecordedUnder(hash, front, wf, ps);
        }
      }
    }
  }

  ghost predicate WroteEntry(hash: string -> string, h: seq<Event>, sf: string, entry: Entry) {
    exists e :: e in h && Sf(hash, e) == sf && entry == EntryFor(sf, e.template, e.ps)
  }

  ghost predicate RecordedUnder(hash: string -> string, h: seq<Event>, wf: string, ps: Pathset) {
    exists e :: e in h && Wf(hash, e) == wf && e.ps == ps
  }

  lemma {:induction false} HitFromList(hash: string -> string, wf: string, pss: seq<Pathset>,
                                       entries: map<string, Entry>,
                                       files: Files, hit: Hit) returns (ps: Pathset)
    requires FirstHit(hash, wf, pss, entries, files) == Some(hit)
    ensures ps in pss && hit.readPaths == ps.readPaths
    ensures hit.sf == StrongFingerprint(hash, wf, ps.readPaths, files)
    ensures hit.sf in entries && hit.entry == entries[hit.sf]
  {
    var sf := StrongFingerprint(hash, wf, pss[0].readPaths, files);
    if sf in entries {
      ps := pss[0];
    } else {
      ps := HitFromList(hash, wf, pss[1..], entries, files, hit);
    }
  }

  // The entry is what a recorded run of this fingerprint handed in: its command, exit code,
  // times and ABI fingerprint, the paths it read, and the fingerprint itself.
  ghost predicate Genuine(hash: string -> string, h: seq<Event>, sf: string, entry: Entry) {
    && entry.fingerprint == sf
    && exists e :: e in h && Sf(hash, e) == sf && Keeps(entry, e.template) && entry.pathsetReads == e.ps.readPaths
  }

  // So is every entry, in any history; and the last run recorded is the one its entry stands for.
  lemma {:induction false} EntryGenuine(hash: string -> string, h: seq<Event>, sf: string)
    requires sf in StoreAfter(hash, h).entries
    ensures Genuine(hash, h, sf, StoreAfter(hash, h).entries[sf])
    ensures h != [] && sf == Sf(hash, h[|h| - 1]) ==> Keeps(StoreAfter(hash, h).entries[sf], h[|h| - 1].template)
  {
    hide StrongFingerprint, WeakFp.WeakFingerprint;
    StoreOrigin(hash, h);
    assert WroteEntry(hash, h, sf, StoreAfter(hash, h).entries[sf]);
  }

  // A hit returns what was recorded.
  lemma {:induction false} HitGenuine(hash: string -> string, h: seq<Event>, w: WeakFp.WeakFields, files: Files,
                                      hit: Hit)
    requires LookupIn(hash, StoreAfter(hash, h), w, files) == Some(hit)
    ensures Genuine(hash, h, hit.sf, hit.entry)
  {
    hide StoreAfter, StrongFingerprint, WeakFp.WeakFingerprint;
    var st := StoreAfter(hash, h);
    var wf := WeakFp.WeakFingerprint(hash, w);
    var ps := HitFromList(hash, wf, ListOf(st.lists, wf), st.entries, files, hit);
    EntryGenuine(hash, h, hit.sf);
  }

  // ---- Soundness ------------------------------------------------------------------------

  lemma WfClean(hash: string -> string, w: WeakFp.WeakFields)
    ensures '\n' !in WeakFp.WeakFingerprint(hash, w)
  {
    HexClean(hash(WeakFp.WeakBytes(w)));
  }

  // Where a hit comes from: a recorded run with the same weak inputs, whose tracked
  // regular files at record time are those of the matched pathset now; and the pathset
  // was recorded under the same weak fingerprint.
  lemma HitOrigin(hash: string -> string, inputs: iset<string>, b: Behaviour, h: seq<Event>,
                  w: WeakFp.WeakFields, files: Files, hit: Hit) returns (e: Event, f: Event)
    requires Digests(hash) && CollisionFree(hash, inputs) && HistoryOk(hash, inputs, b, h)
    requires LookupIn(hash, StoreAfter(hash, h), w, files) == Some(hit)
    requires Hashable(hash, inputs, w, hit.readPaths, files)
    ensures e in h && hit.sf == Sf(hash, e) && hit.entry == EntryFor(hit.sf, e.template, e.ps)
    ensures WeakFp.Normal(e.w) == WeakFp.Normal(w) && Wf(hash, e) == WeakFp.WeakFingerprint(hash, w)
    ensures Seen(e.ps.readPaths, e.after) == Seen(hit.readPaths, files)
    ensures f in h && Wf(hash, f) == WeakFp.WeakFingerprint(hash, w) && f.ps.readPaths == hit.readPaths
  {
    var st := StoreAfter(hash, h);
    var wf := WeakFp.WeakFingerprint(hash, w);
    var ps := HitFromList(hash, wf, ListOf(st.lists, wf), st.entries, files, hit);
    StoreOrigin(hash, h);
    assert WroteEntry(hash, h, hit.sf, hit.entry) && RecordedUnder(hash, h, wf, ps);
    e :| e in h && Sf(hash, e) == hit.sf && hit.entry == EntryFor(hit.sf, e.template, e.ps);
    f :| f in h && Wf(hash, f) == wf && f.ps == ps;
    assert Hashable(hash, inputs, e.w, e.ps.readPaths, e.after);
    WfClean(hash, w);
    WfClean(hash, e.w);
    hide Runs, Faithful, Agree, Recorded, StoreAfter, FirstHit, CollisionFree;
    hide WeakFp.Framable, WeakFp.WeakBytes, StrongBytes;
    StrongExact(hash, Wf(hash, e), e.ps.readPaths, e.after, wf, hit.readPaths, files, inputs);
    WeakFp.WeakNormal(hash, e.w, w, inputs);
  }

  // The pathset of f lists every tracked regular file of e.
  ghost predicate Sees(f: Event, e: Event) {
    forall q :: q in Seen(e.ps.readPaths, e.after) ==> q in f.ps.readPaths
  }

  // A read of e outside node_modules that f's pathset lacks though it sees all e had.
  ghost predicate Misses(f: Event, e: Event, p: Path) {
    Sees(f, e) && p in e.paths && NODE_MODULES !in p && p !in f.ps.readPaths
  }

  // Under the weak fingerprint no pathset misses a read of a run whose files it sees.
  ghost predicate Covered(hash: string -> string, h: seq<Event>, wf: string) {
    forall e, f, p :: e in h && f in h && Wf(hash, e) == wf && Wf(hash, f) == wf ==> !Misses(f, e, p)
  }

  // The recorded reads under node_modules, which fingerprints leave out, are as they were.
  ghost predicate ModulesSame(hash: string -> string, h: seq<Event>, wf: string, files: Files) {
    forall e, p :: e in h && Wf(hash, e) == wf && p in e.paths && NODE_MODULES in p ==>
      Answer(files, p) == Answer(e.after, p)
  }

  // Soundness, on every file system, from what was recorded alone: in a covered history a hit
  // stands for a recorded run that is the very run the task would make now, and the only one:
  // same reads, same answers, same outcome.
  lemma HitIsFresh(hash: string -> string, inputs: iset<string>, b: Behaviour, h: seq<Event>,
                   w: WeakFp.WeakFields, files: Files, hit: Hit) returns (e: Event)
    requires Digests(hash) && CollisionFree(hash, inputs) && HistoryOk(hash, inputs, b, h)
    requires LookupIn(hash, StoreAfter(hash, h), w, files) == Some(hit)
    requires Hashable(hash, inputs, w, hit.readPaths, files)
    requires Covered(hash, h, WeakFp.WeakFingerprint(hash, w))
    requires ModulesSame(hash, h, WeakFp.WeakFingerprint(hash, w), files)
    ensures e in h && hit.sf == Sf(hash, e) && hit.entry == EntryFor(hit.sf, e.template, e.ps)
    ensures Runs(b, WeakFp.Normal(w), files, e.paths, e.answers, e.out)
    ensures forall ps, an, o :: Runs(b, WeakFp.Normal(w), files, ps, an, o) ==>
      ps == e.paths && an == e.answers && o == e.out
  {
    var f: Event;
    e, f := HitOrigin(hash, inputs, b, h, w, files, hit);
    hide StoreAfter, LookupIn, Hashable, CollisionFree;
    assert Sees(f, e);
    forall p | p in e.paths
      ensures Answer(e.after, p) == Answer(files, p)
    {
      if NODE_MODULES !in p {
        assert !Misses(f, e, p);
        assert p in files <==> p in Seen(hit.readPaths, files);
        assert p in e.after <==> p in Seen(e.ps.readPaths, e.after);
      }
    }
    AgreeRuns(b, e, w, files);
    forall ps, an, o | Runs(b, WeakFp.Normal(w), files, ps, an, o)
      ensures ps == e.paths && an == e.answers && o == e.out
    {
      RunUnique(b, WeakFp.Normal(w), files, ps, an, o, e.paths, e.answers, e.out);
    }
  }

  // A read the strong fingerprint pins down: a regular file outside node_modules when recorded.
  predicate Pinned(e: Event, p: Path) {
    p in e.after && NODE_MODULES !in p
  }

  // A history is covered if every read outside node_modules was a regular file when recorded.
  lemma {:induction false} PinnedIsCovered(hash: string -> string, b: Behaviour, h: seq<Event>, wf: string)
    requires forall e :: e in h ==> Faithful(b, e)
    requires forall e, p :: e in h && Wf(hash, e) == wf && p in e.paths ==> Pinned(e, p) || NODE_MODULES in p
    ensures Covered(hash, h, wf)
  {
    hide StrongFingerprint, WeakFp.WeakFingerprint, Runs;
    forall e, f, p | e in h && f in h && Wf(hash, e) == wf && Wf(hash, f) == wf
      ensures !Misses(f, e, p)
    {
      if p in e.paths && NODE_MODULES !in p {
        assert p in Seen(e.ps.readPaths, e.after);
      }
    }
  }

  // ---- Histories that are not covered --------------------------------------------------------

  // The files a recorded run read, with one more at p.
  function Planted(e: Event, p: Path, c: string): Files {
    (map q | q in e.paths && q in e.after :: e.after[q])[p := c]
  }

  // Two runs share their reads as long as the files answer alike, and the next read.
  lemma {:induction false} SharedReads(b: Behaviour, w: WeakFp.WeakFields, files: Files, files': Files,
                                       ps: seq<Path>, an: seq<Option<string>>, o: Outcome,
                                       ps': seq<Path>, an': seq<Option<string>>, o': Outcome, n: nat)
    requires Runs(b, w, files, ps, an, o) && Runs(b, w, files', ps', an', o') && n < |an|
    requires forall k :: 0 <= k < n ==> Answer(files', ps[k]) == an[k]
    ensures n < |an'| && an[..n] == an'[..n] && ps'[n] == ps[n]
  {
    if n > 0 {
      SharedReads(b, w, files, files', ps, an, o, ps', an', o', n - 1);
      assert an[..n] == an[..n - 1] + [an[n - 1]] && an'[..n] == an'[..n - 1] + [an'[n - 1]];
    }
    assert b(w, an[..n]) == Read(ps[n]) && an'[..|an'|] == an';
  }

  lemma ReadsPlanted(b: Behaviour, w: WeakFp.WeakFields, e: Event, p: Path, c: string,
                     ps: seq<Path>, an: seq<Option<string>>, o: Outcome)
    requires Faithful(b, e) && WeakFp.Normal(e.w) == WeakFp.Normal(w) && p in e.paths
    requires Runs(b, WeakFp.Normal(w), Planted(e, p, c), ps, an, o)
    ensures exists i :: 0 <= i < |ps| && ps[i] == p && an[i] == Some(c)
  {
    var i := FirstAt(e.paths, p);
    forall k | 0 <= k < i
      ensures Answer(Planted(e, p, c), e.paths[k]) == e.answers[k]
    {
      assert e.paths[k] in e.paths;
    }
    SharedReads(b, WeakFp.Normal(w), e.before, Planted(e, p, c), e.paths, e.answers, e.out, ps, an, o, i);
  }

  lemma {:induction false} FirstAt(ps: seq<Path>, p: Path) returns (i: nat)
    requires p in ps
    ensures i < |ps| && ps[i] == p && forall k :: 0 <= k < i ==> ps[k] != p
  {
    if ps[0] == p {
      i := 0;
    } else {
      var j := FirstAt(ps[1..], p);
      i := j + 1;
      assert forall k :: 0 < k < i ==> ps[k] == ps[1..][k - 1];
    }
  }

  lemma {:induction false} EventStored(hash: string -> string, h: seq<Event>, e: Event)
    requires e in h
    ensures e.ps in ListOf(StoreAfter(hash, h).lists, Wf(hash, e)) && Sf(hash, e) in StoreAfter(hash, h).entries
  {
    hide StrongFingerprint, WeakFp.WeakFingerprint;
    var front, last := h[..|h| - 1], h[|h| - 1];
    if e != last {
      assert h == front + [last];
      EventStored(hash, front, e);
    }
  }

  // The other half: where a pathset misses a read, some file system - the recorded one with a
  // file put where there was none, of contents never recorded there - gives a hit, and no
  // recorded run is the run the task would make now.
  lemma {:induction false} UncoveredMisleads(hash: string -> string, b: Behaviour, h: seq<Event>, e: Event, f: Event,
                                             p: Path, c: string)
    returns (hit: Hit)
    requires (forall x :: x in h ==> Faithful(b, x)) && e in h && f in h
    requires Wf(hash, e) == Wf(hash, f) && Misses(f, e, p)
    requires forall x :: x in h && p in x.after ==> x.after[p] != c
    ensures LookupIn(hash, StoreAfter(hash, h), e.w, Planted(e, p, c)) == Some(hit)
    ensures forall x :: x in h ==> !Runs(b, WeakFp.Normal(e.w), Planted(e, p, c), x.paths, x.answers, x.out)
  {
    var wf, files := Wf(hash, e), Planted(e, p, c);
    SeenPlanted(b, e, f, p, c);
    RecordsFromSeen(hash, f.ps.readPaths, files, e.ps.readPaths, e.after);
    EventStored(hash, h, e);
    EventStored(hash, h, f);
    var st := StoreAfter(hash, h);
    HitSomewhere(hash, wf, ListOf(st.lists, wf), st.entries, files, f.ps);
    hit := LookupIn(hash, st, e.w, files).value;
    hide StrongFingerprint, WeakFp.WeakFingerprint, StoreAfter, LookupIn, Planted;
    forall x | x in h
      ensures !Runs(b, WeakFp.Normal(e.w), files, x.paths, x.answers, x.out)
    {
      if Runs(b, WeakFp.Normal(e.w), files, x.paths, x.answers, x.out) {
        ReadsPlanted(b, e.w, e, p, c, x.paths, x.answers, x.out);
        NotRecorded(b, x, p, c);
      }
    }
  }

  lemma NotRecorded(b: Behaviour, x: Event, p: Path, c: string)
    requires Faithful(b, x) && (p in x.after ==> x.after[p] != c)
    ensures forall i :: 0 <= i < |x.paths| && x.paths[i] == p ==> x.answers[i] != Some(c)
  {
    forall i | 0 <= i < |x.paths| && x.paths[i] == p
      ensures x.answers[i] != Some(c)
    {
      assert p in x.paths;
    }
  }

  lemma SeenPlanted(b: Behaviour, e: Event, f: Event, p: Path, c: string)
    requires Faithful(b, e) && Misses(f, e, p)
    ensures Seen(f.ps.readPaths, Planted(e, p, c)) == Seen(e.ps.readPaths, e.after)
  {
    var s, t := Seen(f.ps.readPaths, Planted(e, p, c)), Seen(e.ps.readPaths, e.after);
    forall q
      ensures q in s <==> q in t
    {
    }
  }

  // In any history, a hit's run is the one the task would make now exactly when the paths
  // stored in its own entry still give its fingerprint.
  lemma HitExact(hash: string -> string, inputs: iset<string>, b: Behaviour, h: seq<Event>,
                 w: WeakFp.WeakFields, files: Files, hit: Hit) returns (e: Event)
    requires Digests(hash) && CollisionFree(hash, inputs) && HistoryOk(hash, inputs, b, h)
    requires LookupIn(hash, StoreAfter(hash, h), w, files) == Some(hit)
    requires Hashable(hash, inputs, w, hit.readPaths, files)
    requires Hashable(hash, inputs, w, hit.entry.pathsetReads, files)
    requires ModulesSame(hash, h, WeakFp.WeakFingerprint(hash, w), files)
    ensures e in h && hit.sf == Sf(hash, e) && hit.entry == EntryFor(hit.sf, e.template, e.ps)
    ensures StrongFingerprint(hash, WeakFp.WeakFingerprint(hash, w), hit.entry.pathsetReads, files) == hit.sf
      <==> Runs(b, WeakFp.Normal(w), files, e.paths, e.answers, e.out)
  {
    var f: Event;
    e, f := HitOrigin(hash, inputs, b, h, w, files, hit);
    var wf := WeakFp.WeakFingerprint(hash, w);
    WfClean(hash, w);
    StrongExact(hash, wf, e.ps.readPaths, files, wf, e.ps.readPaths, e.after, inputs);
    SeenAgree(e.ps.readPaths, files, e.after);
    assert Agree(e.paths, e.after, files) <==> Seen(e.ps.readPaths, files) == Seen(e.ps.readPaths, e.after);
    AgreeRuns(b, e, w, files);
  }

  // A recorded run is the run made now just when the files answer its reads as they did then.
  lemma AgreeRuns(b: Behaviour, e: Event, w: WeakFp.WeakFields, files: Files)
    requires Faithful(b, e) && WeakFp.Normal(e.w) == WeakFp.Normal(w)
    ensures Runs(b, WeakFp.Normal(w), files, e.paths, e.answers, e.out) <==> Agree(e.paths, e.after, files)
  {
    if Agree(e.paths, e.after, files) {
      RunReplays(b, WeakFp.Normal(w), e.before, files, e.paths, e.answers, e.out);
    }
    if Runs(b, WeakFp.Normal(w), files, e.paths, e.answers, e.out) {
      forall p | p in e.paths
        ensures Answer(e.after, p) == Answer(files, p)
      {
        var i :| 0 <= i < |e.paths| && e.paths[i] == p;
        assert e.answers[i] == Answer(e.before, p);
      }
    }
  }

  lemma SeenAgree(paths: seq<Path>, files: Files, files': Files)
    ensures Seen(paths, files) == Seen(paths, files') <==>
      forall p :: p in paths && NODE_MODULES !in p ==> Answer(files, p) == Answer(files', p)
  {
    if Seen(paths, files) == Seen(paths, files') {
      forall p | p in paths && NODE_MODULES !in p
        ensures Answer(files, p) == Answer(files', p)
      {
        assert p in files <==> p in Seen(paths, files);
        assert p in files' <==> p in Seen(paths, files');
      }
    }
  }

  // ---- Completeness ----------------------------------------------------------------------

  predicate Prefix<T(==)>(a: seq<T>, b: seq<T>) {
    a <= b
  }

  // Records never remove anything: pathset lists only grow and keep no duplicates, and
  // every entry is stored under its own fingerprint.
  lemma {:induction false} StoreGrows(hash: string -> string, h: seq<Event>, more: seq<Event>)
    ensures forall wf :: Prefix(ListOf(StoreAfter(hash, h).lists, wf), ListOf(StoreAfter(hash, h + more).lists, wf))
    ensures StoreAfter(hash, h).entries.Keys <= StoreAfter(hash, h + more).entries.Keys
    decreases |more|
  {
    hide StrongFingerprint, WeakFp.WeakFingerprint;
    if more == [] {
      assert h + more == h;
    } else {
      var front := more[..|more| - 1];
      StoreGrows(hash, h, front);
      assert (h + more)[..|h + more| - 1] == h + front;
    }
  }

  lemma {:induction false} ListsUnique(hash: string -> string, h: seq<Event>, wf: string)
    ensures NoDup(ListOf(StoreAfter(hash, h).lists, wf))
  {
    hide StrongFingerprint, WeakFp.WeakFingerprint;
    if h != [] {
      var front, e := h[..|h| - 1], h[|h| - 1];
      ListsUnique(hash, front, wf);
      var l := ListOf(StoreAfter(hash, front).lists, wf);
      if e.ps !in l {
        NoDupConcat(l, [e.ps]);
      }
    }
  }

  lemma {:induction false} EntriesKeyed(hash: string -> string, h: seq<Event>, sf: string)
    requires sf in StoreAfter(hash, h).entries
    ensures StoreAfter(hash, h).entries[sf].fingerprint == sf
  {
    hide StrongFingerprint, WeakFp.WeakFingerprint;
    if sf != Sf(hash, h[|h| - 1]) {
      EntriesKeyed(hash, h[..|h| - 1], sf);
    }
  }

  lemma {:induction false} HitSomewhere(hash: string -> string, wf: string, pss: seq<Pathset>,
                                        entries: map<string, Entry>,
                                        files: Files, ps: Pathset)
    requires ps in pss && StrongFingerprint(hash, wf, ps.readPaths, files) in entries
    ensures FirstHit(hash, wf, pss, entries, files).Some?
  {
    if ps != pss[0] {
      HitSomewhere(hash, wf, pss[1..], entries, files, ps);
    }
  }

  // Completeness: after a record, any lookup with the same weak fingerprint, on files that
  // agree with those of the record at the recorded reads, hits - whatever is recorded between.
  lemma RecordThenHit(hash: string -> string, h: seq<Event>, e: Event, more: seq<Event>, w: WeakFp.WeakFields,
                      files: Files)
    requires WeakFp.WeakFingerprint(hash, w) == Wf(hash, e)
    requires Agree(e.ps.readPaths, e.after, files)
    ensures LookupIn(hash, StoreAfter(hash, h + [e] + more), w, files).Some?
  {
    var wf := Wf(hash, e);
    var st1, st2 := StoreAfter(hash, h + [e]), StoreAfter(hash, h + [e] + more);
    assert (h + [e])[..|h|] == h;
    assert e.ps in ListOf(st1.lists, wf) && Sf(hash, e) in st1.entries;
    StoreGrows(hash, h + [e], more);
    assert Prefix(ListOf(st1.lists, wf), ListOf(st2.lists, wf));
    SeenAgree(e.ps.readPaths, e.after, files);
    RecordsFromSeen(hash, e.ps.readPaths, e.after, e.ps.readPaths, files);
    HitSomewhere(hash, wf, ListOf(st2.lists, wf), st2.entries, files, e.ps);
  }

  // ---- A false hit -----------------------------------------------------------------------

  const PA: Path := ["a"]
  const PB: Path := ["b"]

  function Said(text: string): Outcome {
    Outcome(0, text, map[])
  }

  // Looks for /a and, only if there is none, for /b.
  function Picky(w: WeakFp.WeakFields, answers: seq<Option<string>>): Action {
    if answers == [] then Read(PA)
    else if answers[0].Some? then Exit(Said("a"))
    else if |answers| == 1 then Read(PB)
    else if answers[1].Some? then Exit(Said("b"))
    else Exit(Said("none"))
  }

  function AnyWeak(): WeakFp.WeakFields {
    WeakFp.WeakFields("cmd", "tool", "th", "pkg", [], [], [])
  }

  function AnyEntry(): Entry {
    Entry("", "cmd", 0, 0, 0, [], None)
  }

  // First a run that finds neither file, then one that finds /a.
  function PickyHistory(): seq<Event> {
    var w := AnyWeak();
    [Event(w, map[], [PA, PB], [None, None], Said("none"), map[], Pathset([PA, PB], []), AnyEntry()),
     Event(w, map[PA := "x"], [PA], [Some("x")], Said("a"), map[PA := "x"], Pathset([PA], []), AnyEntry())]
  }

  lemma PickyRuns()
    ensures forall e :: e in PickyHistory() ==> Faithful(Picky, e)
    ensures Runs(Picky, WeakFp.Normal(AnyWeak()), map[PB := "z"], [PA, PB], [None, Some("z")], Said("b"))
  {
    var none: seq<Option<string>>, some: seq<Option<string>> := [None, None], [None, Some("z")];
    assert none[..1] == [None] && some[..1] == [None] && none[..0] == [] && some[..0] == [];
    PickySeen();
  }

  // So it is here, whatever the hash: with only /b present the lookup returns the entry of a
  // run that said "none" or "a", and the task run now says "b".
  lemma FalseHit(hash: string -> string) returns (hit: Hit, e: Event)
    ensures forall x :: x in PickyHistory() ==> Faithful(Picky, x)
    ensures LookupIn(hash, StoreAfter(hash, PickyHistory()), AnyWeak(), map[PB := "z"]) == Some(hit)
    ensures e in PickyHistory() && hit.entry == EntryFor(hit.sf, e.template, e.ps) && e.out in {Said("none"), Said("a")}
    ensures Runs(Picky, WeakFp.Normal(AnyWeak()), map[PB := "z"], [PA, PB], [None, Some("z")], Said("b"))
  {
    var h := PickyHistory();
    PickyRuns();
    PickyMisses();
    hide PickyHistory, AnyWeak, Planted, Misses, Faithful, StoreAfter;
    hit := UncoveredMisleads(hash, Picky, h, h[0], h[1], PB, "z");
    e := EntryOrigin(hash, h, AnyWeak(), map[PB := "z"], hit);
  }

  lemma EntryOrigin(hash: string -> string, h: seq<Event>, w: WeakFp.WeakFields, files: Files, hit: Hit)
    returns (e: Event)
    requires LookupIn(hash, StoreAfter(hash, h), w, files) == Some(hit)
    ensures e in h && Sf(hash, e) == hit.sf && hit.entry == EntryFor(hit.sf, e.template, e.ps)
  {
    hide WeakFp.WeakFingerprint, StrongFingerprint, StoreAfter;
    var st := StoreAfter(hash, h);
    var wf := WeakFp.WeakFingerprint(hash, w);
    var ps := HitFromList(hash, wf, ListOf(st.lists, wf), st.entries, files, hit);
    StoreOrigin(hash, h);
    assert WroteEntry(hash, h, hit.sf, hit.entry);
    e :| e in h && Sf(hash, e) == hit.sf && hit.entry == EntryFor(hit.sf, e.template, e.ps);
  }

  lemma PickyMisses()
    ensures var h := PickyHistory();
      && |h| == 2 && Misses(h[1], h[0], PB) && Planted(h[0], PB, "z") == map[PB := "z"]
      && h[0].w == h[1].w == AnyWeak()
      && forall x :: x in h ==> x.out in {Said("none"), Said("a")} && PB !in x.after
  {
    PickySeen();
    var h := PickyHistory();
    assert h == [h[0], h[1]];
    assert PB in h[0].paths && NODE_MODULES !in PB by {
      assert |NODE_MODULES| == 12 && PB[0] == "b" && |"b"| == 1;
    }
  }

  lemma PickySeen()
    ensures Seen([PA, PB], map[PB := "z"]) == map[PB := "z"]
    ensures Seen([PA, PB], map[]) == map[] && Seen([PA], map[PB := "z"]) == map[]
    ensures Seen([PA], map[PA := "x"]) == map[PA := "x"]
    ensures map[PB := "z"] != map[] && map[PA := "x"] != map[] && map[PA := "x"] != map[PB := "z"]
  {
    assert NODE_MODULES !in PA && NODE_MODULES !in PB && PA != PB by {
      assert |NODE_MODULES| == 12 && PA[0] == "a" && PB[0] == "b" && |"a"| == 1;
      assert "a"[0] != "b"[0];
    }
    assert PB in map[PB := "z"] && PA in map[PA := "x"] && PB !in map[PA := "x"];
  }
}
