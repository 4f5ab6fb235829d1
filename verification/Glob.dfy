/** The hand-written glob matchers: '*' inside one name, found by greedy search, and '**'
    across path components. Each is proved against a specification with no search in it. */
module Glob {
  import opened Wrappers

  // Rust's split: one more part than there are separators.
  function Split(s: string, c: char): (parts: seq<string>)
    ensures |parts| >= 1
    ensures |parts| == 1 <==> c !in s
  {
    if s == "" then [""]
    else
      var rest := Split(s[1..], c);
      assert s == [s[0]] + s[1..];
      if s[0] == c then [""] + rest else [[s[0]] + rest[0]] + rest[1..]
  }

  // ---- What a pattern means ------------------------------------------------------------

  // The parts of a pattern with a filling in place of each star.
  function Rebuild(parts: seq<string>, fills: seq<string>): string
    requires |parts| == |fills| + 1
  {
    if fills == [] then parts[0] else parts[0] + fills[0] + Rebuild(parts[1..], fills[1..])
  }

  ghost predicate Fits(parts: seq<string>, fills: seq<string>, s: string) {
    |parts| == |fills| + 1 && Rebuild(parts, fills) == s
  }

  // Some assignment of substrings to the stars rebuilds s.
  ghost predicate StarMatch(pattern: string, s: string) {
    exists fills :: Fits(Split(pattern, '*'), fills, s)
  }

  lemma {:induction false} SplitStep(s: string, c: char)
    ensures s == "" ==> Split(s, c) == [""]
    ensures s != "" ==> var rest := Split(s[1..], c);
      Split(s, c) == if s[0] == c then [""] + rest else [[s[0]] + rest[0]] + rest[1..]
  {
  }

  // Splitting and rejoining with stars gives the pattern back, so the parts are its own text.
  lemma {:induction false} SplitRebuild(s: string, c: char)
    ensures Rebuild(Split(s, c), seq(|Split(s, c)| - 1, _ => [c])) == s
  {
    hide Split;
    SplitStep(s, c);
    var parts := Split(s, c);
    var seps := seq(|parts| - 1, _ => [c]);
    if s == "" {
      assert seps == [];
    } else {
      SplitRebuild(s[1..], c);
      var rest := Split(s[1..], c);
      var seps' := seq(|rest| - 1, _ => [c]);
      assert s == [s[0]] + s[1..];
      if s[0] == c {
        assert parts[1..] == rest && seps[1..] == seps';
        assert Rebuild(parts, seps) == "" + [c] + Rebuild(rest, seps');
      } else {
        assert parts[1..] == rest[1..] && seps == seps';
        HeadText([s[0]], rest, seps);
      }
    }
  }

  lemma {:induction false} PartsClean(s: string, c: char)
    ensures forall p :: p in Split(s, c) ==> c !in p
  {
    if s != "" {
      PartsClean(s[1..], c);
      assert s == [s[0]] + s[1..];
    }
  }

  lemma HeadText(a: string, parts: seq<string>, fills: seq<string>)
    requires |parts| == |fills| + 1
    ensures Rebuild([a + parts[0]] + parts[1..], fills) == a + Rebuild(parts, fills)
  {
    var parts' := [a + parts[0]] + parts[1..];
    if fills != [] {
      assert parts'[1..] == parts[1..];
      var rest := Rebuild(parts[1..], fills[1..]);
      assert (a + parts[0]) + fills[0] + rest == a + (parts[0] + fills[0] + rest);
    }
  }

  lemma {:induction false} SplitConcat(a: string, c: char, b: string)
    ensures Split(a + [c] + b, c) == Split(a, c) + Split(b, c)
  {
    var s := a + [c] + b;
    hide Split;
    SplitStep(s, c);
    SplitStep(a, c);
    if a == "" {
      assert s[0] == c && s[1..] == b;
    } else {
      SplitConcat(a[1..], c, b);
      assert s[0] == a[0] && s[1..] == a[1..] + [c] + b;
      var rest, more := Split(a[1..], c), Split(b, c);
      assert (rest + more)[0] == rest[0] && (rest + more)[1..] == rest[1..] + more;
    }
  }

  lemma {:induction false} RebuildConcat(parts: seq<string>, fills: seq<string>, x: string,
                                         parts': seq<string>, fills': seq<string>)
    requires |parts| == |fills| + 1 && |parts'| == |fills'| + 1
    ensures Rebuild(parts + parts', fills + [x] + fills') == Rebuild(parts, fills) + x + Rebuild(parts', fills')
  {
    var ps, fs := parts + parts', fills + [x] + fills';
    var rest := Rebuild(parts', fills');
    if fills == [] {
      assert ps[1..] == parts' && fs[1..] == fills';
    } else {
      RebuildConcat(parts[1..], fills[1..], x, parts', fills');
      assert ps[1..] == parts[1..] + parts' && fs[1..] == fills[1..] + [x] + fills';
      var mine := Rebuild(parts[1..], fills[1..]);
      assert parts[0] + fills[0] + (mine + x + rest) == (parts[0] + fills[0] + mine) + x + rest;
    }
  }

  ghost predicate StarBetween(p: string, q: string, s: string, i: int, j: int) {
    0 <= i <= j <= |s| && StarMatch(p, s[..i]) && StarMatch(q, s[j..])
  }

  lemma {:induction false} StarApart(p: string, q: string, s: string)
    requires StarMatch(p + "*" + q, s)
    ensures exists i, j :: StarBetween(p, q, s, i, j)
  {
    SplitConcat(p, '*', q);
    hide Split;
    var ps, qs := Split(p, '*'), Split(q, '*');
    var fills :| Fits(ps + qs, fills, s);
    var f, x, g := fills[..|ps| - 1], fills[|ps| - 1], fills[|ps|..];
    assert fills == f + [x] + g;
    RebuildConcat(ps, f, x, qs, g);
    var a, b := Rebuild(ps, f), Rebuild(qs, g);
    assert s == a + x + b;
    hide Rebuild;
    assert s[..|a|] == a && s[|a + x|..] == b;
    assert Fits(ps, f, a) && Fits(qs, g, b);
    assert StarBetween(p, q, s, |a|, |a + x|);
  }

  lemma {:induction false} StarTogether(p: string, q: string, s: string, i: int, j: int)
    requires StarBetween(p, q, s, i, j)
    ensures StarMatch(p + "*" + q, s)
  {
    SplitConcat(p, '*', q);
    hide Split;
    var ps, qs := Split(p, '*'), Split(q, '*');
    var f :| Fits(ps, f, s[..i]);
    var g :| Fits(qs, g, s[j..]);
    RebuildConcat(ps, f, s[i..j], qs, g);
    assert s == s[..i] + s[i..j] + s[j..];
    hide Rebuild;
    assert Fits(ps + qs, f + [s[i..j]] + g, s);
  }

  // A star stands for any text: what comes before it and what comes after match separately.
  lemma {:induction false} StarAnywhere(p: string, q: string, s: string)
    ensures StarMatch(p + "*" + q, s) <==> exists i, j :: StarBetween(p, q, s, i, j)
  {
    hide StarMatch, StarBetween;
    if StarMatch(p + "*" + q, s) {
      StarApart(p, q, s);
    }
    if i, j :| StarBetween(p, q, s, i, j) {
      StarTogether(p, q, s, i, j);
    }
  }

  // ---- The greedy search -----------------------------------------------------------------

  predicate OccursAt(s: string, p: string, i: nat) {
    i + |p| <= |s| && s[i..i + |p|] == p
  }

  // Where p first occurs in s.
  function Find(s: string, p: string): (r: Option<nat>)
    ensures r.Some? ==> OccursAt(s, p, r.value) && forall j :: 0 <= j < r.value ==> !OccursAt(s, p, j)
    ensures r.None? ==> forall j :: 0 <= j <= |s| ==> !OccursAt(s, p, j)
  {
    FindFrom(s, p, 0)
  }

  function FindFrom(s: string, p: string, i: nat): (r: Option<nat>)
    requires i <= |s|
    requires forall j :: 0 <= j < i ==> !OccursAt(s, p, j)
    ensures r.Some? ==> OccursAt(s, p, r.value) && forall j :: 0 <= j < r.value ==> !OccursAt(s, p, j)
    ensures r.None? ==> forall j :: 0 <= j <= |s| ==> !OccursAt(s, p, j)
    decreases |s| - i
  {
    if OccursAt(s, p, i) then Some(i)
    else if i == |s| then None
    else FindFrom(s, p, i + 1)
  }

  predicate EndsWith(s: string, p: string) {
    |p| <= |s| && s[|s| - |p|..] == p
  }

  // The rest of a string matches the rest of the parts: a filling before each of them.
  function RebuildTail(parts: seq<string>, fills: seq<string>): string
    requires |parts| == |fills|
  {
    if parts == [] then "" else fills[0] + parts[0] + RebuildTail(parts[1..], fills[1..])
  }

  ghost predicate FitsTail(parts: seq<string>, fills: seq<string>, s: string) {
    |parts| == |fills| && RebuildTail(parts, fills) == s
  }

  ghost predicate TailMatch(parts: seq<string>, s: string) {
    exists fills :: FitsTail(parts, fills, s)
  }

  lemma {:induction false} RebuildShift(parts: seq<string>, fills: seq<string>)
    requires |parts| == |fills| + 1
    ensures Rebuild(parts, fills) == parts[0] + RebuildTail(parts[1..], fills)
  {
    if fills != [] {
      RebuildShift(parts[1..], fills[1..]);
      assert parts[0] + fills[0] + (parts[1] + RebuildTail(parts[1..][1..], fills[1..])) ==
        parts[0] + (fills[0] + parts[1] + RebuildTail(parts[1..][1..], fills[1..]));
    } else {
      assert parts[0] + "" == parts[0];
    }
  }

  // The first part is a prefix, the rest follow.
  lemma FirstPart(pattern: string, s: string)
    ensures var parts := Split(pattern, '*');
      StarMatch(pattern, s) <==> parts[0] <= s && TailMatch(parts[1..], s[|parts[0]|..])
  {
    var parts := Split(pattern, '*');
    if fills :| Fits(parts, fills, s) {
      RebuildShift(parts, fills);
      assert s[|parts[0]|..] == RebuildTail(parts[1..], fills);
      assert FitsTail(parts[1..], fills, s[|parts[0]|..]);
    }
    if parts[0] <= s && TailMatch(parts[1..], s[|parts[0]|..]) {
      var fills :| FitsTail(parts[1..], fills, s[|parts[0]|..]);
      RebuildShift(parts, fills);
      assert s == parts[0] + s[|parts[0]|..];
      assert Fits(parts, fills, s);
    }
  }

  // A tail match survives more text in front.
  lemma TailGrows(parts: seq<string>, x: string, s: string)
    requires parts != [] && TailMatch(parts, s)
    ensures TailMatch(parts, x + s)
  {
    var fills :| FitsTail(parts, fills, s);
    var fills' := [x + fills[0]] + fills[1..];
    assert fills'[1..] == fills[1..];
    assert x + (fills[0] + parts[0] + RebuildTail(parts[1..], fills[1..])) ==
      (x + fills[0]) + parts[0] + RebuildTail(parts[1..], fills[1..]);
    assert FitsTail(parts, fills', x + s);
  }

  lemma TailCut(parts: seq<string>, s: string) returns (i: nat)
    requires parts != [] && TailMatch(parts, s)
    ensures OccursAt(s, parts[0], i) && TailMatch(parts[1..], s[i + |parts[0]|..])
  {
    var fills :| FitsTail(parts, fills, s);
    i := |fills[0]|;
    var rest := RebuildTail(parts[1..], fills[1..]);
    assert s == fills[0] + parts[0] + rest;
    assert s[i + |parts[0]|..] == rest;
    assert FitsTail(parts[1..], fills[1..], rest);
  }

  lemma TailJoin(parts: seq<string>, s: string, i: nat)
    requires parts != [] && OccursAt(s, parts[0], i) && TailMatch(parts[1..], s[i + |parts[0]|..])
    ensures TailMatch(parts, s)
  {
    var rest := s[i + |parts[0]|..];
    var fills :| FitsTail(parts[1..], fills, rest);
    var fills' := [s[..i]] + fills;
    assert fills'[1..] == fills;
    assert s == s[..i] + parts[0] + rest;
    assert FitsTail(parts, fills', s);
  }

  // Greedy choice: taking the first occurrence of a middle part loses no match.
  lemma MiddlePart(parts: seq<string>, s: string)
    requires |parts| >= 2
    ensures var at := Find(s, parts[0]);
      TailMatch(parts, s) <==> at.Some? && TailMatch(parts[1..], s[at.value + |parts[0]|..])
  {
    var at := Find(s, parts[0]);
    if TailMatch(parts, s) {
      var i := TailCut(parts, s);
      assert OccursAt(s, parts[0], i);
      assert at.Some?;
      assert at.value <= i;
      var from, to := at.value + |parts[0]|, i + |parts[0]|;
      assert s[from..] == s[from..to] + s[to..];
      TailGrows(parts[1..], s[from..to], s[to..]);
    }
    if at.Some? && TailMatch(parts[1..], s[at.value + |parts[0]|..]) {
      TailJoin(parts, s, at.value);
    }
  }

  // Empty parts constrain nothing, so the code may skip them.
  lemma EmptyPart(parts: seq<string>, s: string)
    requires |parts| >= 2 && parts[0] == ""
    ensures TailMatch(parts, s) <==> TailMatch(parts[1..], s)
  {
    assert OccursAt(s, "", 0) && s[0..] == s;
    MiddlePart(parts, s);
  }

  lemma LastPart(p: string, s: string)
    ensures TailMatch([p], s) <==> EndsWith(s, p)
  {
    if TailMatch([p], s) {
      var fills :| FitsTail([p], fills, s);
      assert [p][1..] == [] && fills[1..] == [];
      assert RebuildTail([p], fills) == fills[0] + p + RebuildTail([p][1..], fills[1..]);
      assert s == fills[0] + p;
    }
    if EndsWith(s, p) {
      var fills := [s[..|s| - |p|]];
      assert [p][1..] == [] && fills[1..] == [];
      assert fills[0] + p + "" == s;
      assert FitsTail([p], fills, s);
    }
  }

  lemma NoStar(pattern: string, s: string)
    requires '*' !in pattern
    ensures StarMatch(pattern, s) <==> pattern == s
  {
    SplitRebuild(pattern, '*');
    var parts := Split(pattern, '*');
    assert parts == [parts[0]];
    assert Rebuild(parts, []) == pattern by {
      assert seq(|parts| - 1, _ => ['*']) == [];
    }
    if pattern == s {
      assert Fits(parts, [], s);
    }
  }

  lemma LoneStar(s: string)
    ensures StarMatch("*", s)
  {
    assert "*"[1..] == "" && Split("", '*') == [""];
    assert Split("*", '*') == [""] + [""];
    assert ["", ""][1..] == [""] && [s][1..] == [];
    assert Rebuild(["", ""], [s]) == "" + s + Rebuild([""], []);
    assert Fits(Split("*", '*'), [s], s);
  }

  // The state of the search before part i.
  ghost predicate Searching(pattern: string, s: string, i: nat, remaining: string) {
    var parts := Split(pattern, '*');
    if i == 0 then remaining == s
    else i <= |parts| && (StarMatch(pattern, s) <==> TailMatch(parts[i..], remaining))
  }

  lemma SearchStep(pattern: string, s: string, i: nat, remaining: string)
    requires i + 1 < |Split(pattern, '*')| && Searching(pattern, s, i, remaining)
    ensures var part := Split(pattern, '*')[i];
      && (part == "" ==> Searching(pattern, s, i + 1, remaining))
      && (i == 0 && part <= remaining ==> Searching(pattern, s, 1, remaining[|part|..]))
      && (i == 0 && !(part <= remaining) ==> !StarMatch(pattern, s))
      && (i > 0 && Find(remaining, part).Some? ==>
           Searching(pattern, s, i + 1, remaining[Find(remaining, part).value + |part|..]))
      && (i > 0 && Find(remaining, part).None? ==> !StarMatch(pattern, s))
  {
    var parts := Split(pattern, '*');
    if i == 0 {
      FirstPart(pattern, s);
      assert s[0..] == s;
    } else {
      assert parts[i..][1..] == parts[i + 1..];
      MiddlePart(parts[i..], remaining);
      if parts[i] == "" {
        EmptyPart(parts[i..], remaining);
      }
    }
  }

  lemma SearchEnd(pattern: string, s: string, i: nat, remaining: string)
    requires 0 < i && i + 1 == |Split(pattern, '*')| && Searching(pattern, s, i, remaining)
    ensures StarMatch(pattern, s) <==> EndsWith(remaining, Split(pattern, '*')[i])
  {
    var parts := Split(pattern, '*');
    assert parts[i..] == [parts[i]];
    LastPart(parts[i], remaining);
  }

  // ---- The matchers ------------------------------------------------------------------------

  method SimpleComponentMatch(pattern: string, s: string) returns (r: bool)
    ensures r <==> StarMatch(pattern, s)
  {
    if pattern == "*" {
      LoneStar(s);
      return true;
    }
    if '*' !in pattern {
      NoStar(pattern, s);
      return pattern == s;
    }
    var parts := Split(pattern, '*');
    var remaining := s;
    hide StarMatch, Searching, Find, EndsWith;
    assert Searching(pattern, s, 0, s) by { SearchStart(pattern, s); }
    for i := 0 to |parts|
      invariant i < |parts| ==> Searching(pattern, s, i, remaining)
      invariant i == |parts| ==> StarMatch(pattern, s)
    {
      var part := parts[i];
      if i + 1 < |parts| {
        SearchStep(pattern, s, i, remaining);
      } else {
        SearchEnd(pattern, s, i, remaining);
        EndsEmpty(remaining);
      }
      if part == "" {
        continue;
      }
      if i == 0 {
        if !(part <= remaining) {
          return false;
        }
        remaining := remaining[|part|..];
      } else if i == |parts| - 1 {
        return EndsWith(remaining, part);
      } else {
        var at := Find(remaining, part);
        if at.None? {
          return false;
        }
        remaining := remaining[at.value + |part|..];
      }
    }
    return true;
  }

  lemma SearchStart(pattern: string, s: string)
    ensures Searching(pattern, s, 0, s)
  {
  }

  lemma EndsEmpty(s: string)
    ensures EndsWith(s, "")
  {
  }

  method SimpleGlobMatch(pattern: string, name: string) returns (r: bool)
    ensures r <==> StarMatch(pattern, name)
  {
    var parts := Split(pattern, '*');
    if |parts| == 1 {
      NoStar(pattern, name);
      return pattern == name;
    }
    var s := name;
    hide StarMatch, Searching, Find, EndsWith;
    SearchStart(pattern, name);
    for i := 0 to |parts|
      invariant i < |parts| ==> Searching(pattern, name, i, s)
      invariant i == |parts| ==> StarMatch(pattern, name)
    {
      var part := parts[i];
      if i + 1 < |parts| {
        SearchStep(pattern, name, i, s);
      } else {
        SearchEnd(pattern, name, i, s);
        EndsEmpty(s);
      }
      if part == "" {
        continue;
      }
      if i == 0 {
        if !(part <= s) {
          return false;
        }
        s := s[|part|..];
      } else if i == |parts| - 1 {
        return EndsWith(s, part);
      } else {
        var at := Find(s, part);
        if at.None? {
          return false;
        }
        s := s[at.value + |part|..];
      }
    }
    return true;
  }

  // ---- '**' across components --------------------------------------------------------------

  const ANY_DEPTH := "**"

  function Flatten(spans: seq<seq<string>>): seq<string> {
    if spans == [] then [] else spans[0] + Flatten(spans[1..])
  }

  // '**' stands for any run of components, any other component for one that it matches.
  ghost predicate SpanOk(p: string, span: seq<string>) {
    p == ANY_DEPTH || (|span| == 1 && StarMatch(p, span[0]))
  }

  ghost predicate Spans(pattern: seq<string>, spans: seq<seq<string>>, path: seq<string>) {
    && |spans| == |pattern| && Flatten(spans) == path
    && forall i :: 0 <= i < |pattern| ==> SpanOk(pattern[i], spans[i])
  }

  // The path can be cut into one span for each component of the pattern.
  ghost predicate PathMatch(pattern: seq<string>, path: seq<string>) {
    exists spans :: Spans(pattern, spans, path)
  }

  lemma EmptyPattern(path: seq<string>)
    ensures PathMatch([], path) <==> path == []
  {
    assert Spans([], [], []);
  }

  lemma AnyTail(path: seq<string>)
    ensures PathMatch([ANY_DEPTH], path)
  {
    assert [path][1..] == [];
    assert Spans([ANY_DEPTH], [path], path);
  }

  lemma SpanCut(pattern: seq<string>, path: seq<string>) returns (k: nat)
    requires pattern != [] && PathMatch(pattern, path)
    ensures k <= |path| && SpanOk(pattern[0], path[..k]) && PathMatch(pattern[1..], path[k..])
  {
    var spans :| Spans(pattern, spans, path);
    k := |spans[0]|;
    assert path == spans[0] + Flatten(spans[1..]);
    assert path[..k] == spans[0] && path[k..] == Flatten(spans[1..]);
    assert Spans(pattern[1..], spans[1..], path[k..]);
  }

  lemma SpanJoin(pattern: seq<string>, path: seq<string>, k: nat)
    requires pattern != [] && k <= |path| && SpanOk(pattern[0], path[..k]) && PathMatch(pattern[1..], path[k..])
    ensures PathMatch(pattern, path)
  {
    var spans :| Spans(pattern[1..], spans, path[k..]);
    var spans' := [path[..k]] + spans;
    assert spans'[1..] == spans && path == path[..k] + path[k..];
    forall i | 0 <= i < |pattern|
      ensures SpanOk(pattern[i], spans'[i])
    {
      if i > 0 {
        assert pattern[i] == pattern[1..][i - 1] && spans'[i] == spans[i - 1];
      }
    }
    assert Spans(pattern, spans', path);
  }

  lemma OneComponent(pattern: seq<string>, path: seq<string>)
    requires pattern != [] && pattern[0] != ANY_DEPTH
    ensures PathMatch(pattern, path) <==>
      path != [] && StarMatch(pattern[0], path[0]) && PathMatch(pattern[1..], path[1..])
  {
    if PathMatch(pattern, path) {
      var k := SpanCut(pattern, path);
      assert k == 1;
    }
    if path != [] && StarMatch(pattern[0], path[0]) && PathMatch(pattern[1..], path[1..]) {
      SpanJoin(pattern, path, 1);
    }
  }

  lemma NoSplit(pattern: seq<string>, path: seq<string>)
    requires pattern != [] && forall k :: 0 <= k <= |path| ==> !PathMatch(pattern[1..], path[k..])
    ensures !PathMatch(pattern, path)
  {
    if PathMatch(pattern, path) {
      var k := SpanCut(pattern, path);
    }
  }

  ghost predicate CutAt(a: seq<string>, b: seq<string>, path: seq<string>, i: int) {
    0 <= i <= |path| && PathMatch(a, path[..i]) && PathMatch(b, path[i..])
  }

  // Two patterns in a row match two stretches of the path in a row.
  lemma {:induction false} ConcatMatch(a: seq<string>, b: seq<string>, path: seq<string>)
    ensures PathMatch(a + b, path) <==> exists i :: CutAt(a, b, path, i)
    decreases |a|
  {
    if a == [] {
      assert a + b == b && path[..0] == [] && path[0..] == path;
      EmptyPattern(path[..0]);
      if i :| CutAt(a, b, path, i) {
        EmptyPattern(path[..i]);
      }
      assert PathMatch(b, path) ==> CutAt(a, b, path, 0);
    } else {
      hide PathMatch;
      assert (a + b)[0] == a[0] && (a + b)[1..] == a[1..] + b;
      if PathMatch(a + b, path) {
        var k := SpanCut(a + b, path);
        ConcatMatch(a[1..], b, path[k..]);
        var i :| CutAt(a[1..], b, path[k..], i);
        Stretch(path, k, i);
        SpanJoin(a, path[..k + i], k);
        assert CutAt(a, b, path, k + i);
      }
      if i :| CutAt(a, b, path, i) {
        var k := SpanCut(a, path[..i]);
        Stretch(path, k, i - k);
        assert CutAt(a[1..], b, path[k..], i - k);
        ConcatMatch(a[1..], b, path[k..]);
        SpanJoin(a + b, path, k);
      }
    }
  }

  lemma Stretch(path: seq<string>, k: nat, i: nat)
    requires k + i <= |path|
    ensures path[..k + i][..k] == path[..k] && path[..k + i][k..] == path[k..][..i]
    ensures path[k..][i..] == path[k + i..]
  {
  }

  ghost predicate AnyBetween(pre: seq<string>, post: seq<string>, path: seq<string>, i: int, j: int) {
    0 <= i <= j <= |path| && PathMatch(pre, path[..i]) && PathMatch(post, path[j..])
  }

  // '**' stands for any number of components, none included.
  lemma {:induction false} AnyDepthAnywhere(pre: seq<string>, post: seq<string>, path: seq<string>)
    ensures PathMatch(pre + ["**"] + post, path) <==> exists i, j :: AnyBetween(pre, post, path, i, j)
  {
    hide PathMatch;
    var any := ["**"];
    assert pre + any + post == pre + (any + post) && any[0] == ANY_DEPTH && any + post != [];
    assert (any + post)[1..] == post && (any + post)[0] == ANY_DEPTH;
    ConcatMatch(pre, any + post, path);
    if PathMatch(pre + any + post, path) {
      var i :| CutAt(pre, any + post, path, i);
      var k := SpanCut(any + post, path[i..]);
      assert path[i..][k..] == path[i + k..];
      assert AnyBetween(pre, post, path, i, i + k);
    }
    if i, j :| AnyBetween(pre, post, path, i, j) {
      assert path[i..][j - i..] == path[j..];
      SpanJoin(any + post, path[i..], j - i);
      assert CutAt(pre, any + post, path, i);
    }
  }

  // Without '**' components match one by one, and nothing shorter or longer matches.
  lemma {:induction false} Componentwise(pattern: seq<string>, path: seq<string>)
    requires forall k :: 0 <= k < |pattern| ==> pattern[k] != "**"
    ensures PathMatch(pattern, path) <==>
      |path| == |pattern| && forall k :: 0 <= k < |pattern| ==> StarMatch(pattern[k], path[k])
    decreases |pattern|
  {
    hide PathMatch, StarMatch;
    if pattern == [] {
      EmptyPattern(path);
    } else {
      OneComponent(pattern, path);
      if path != [] {
        Componentwise(pattern[1..], path[1..]);
        assert forall k :: 0 < k < |pattern| ==> pattern[k] == pattern[1..][k - 1];
        assert forall k :: 0 < k < |path| ==> path[k] == path[1..][k - 1];
      }
    }
  }

  method GlobMatchRecursive(pattern0: seq<string>, path0: seq<string>) returns (r: bool)
    ensures r <==> PathMatch(pattern0, path0)
    decreases |pattern0|
  {
    var pattern, path := pattern0, path0;
    hide PathMatch, StarMatch;
    while true
      invariant |pattern| <= |pattern0|
      invariant PathMatch(pattern0, path0) <==> PathMatch(pattern, path)
      decreases |pattern|
    {
      if pattern == [] {
        EmptyPattern(path);
        return path == [];
      }
      if pattern[0] == ANY_DEPTH {
        ghost var whole := pattern;
        pattern := pattern[1..];
        if pattern == [] {
          assert whole == [ANY_DEPTH];
          AnyTail(path);
          return true;
        }
        for i := 0 to |path| + 1
          invariant forall k :: 0 <= k < i ==> !PathMatch(pattern, path[k..])
        {
          var hit := GlobMatchRecursive(pattern, path[i..]);
          if hit {
            SpanJoin(whole, path, i);
            return true;
          }
        }
        NoSplit(whole, path);
        return false;
      }
      OneComponent(pattern, path);
      if path == [] {
        return false;
      }
      var ok := SimpleComponentMatch(pattern[0], path[0]);
      if !ok {
        return false;
      }
      pattern := pattern[1..];
      path := path[1..];
    }
  }

  function Slashes(s: string): string {
    seq(|s|, i requires 0 <= i < |s| => if s[i] == '\\' then '/' else s[i])
  }

  // Backslashes become slashes and nothing else changes.
  lemma {:induction false} SlashesExact(s: string, i: nat)
    requires i < |s|
    ensures |Slashes(s)| == |s| && Slashes(s)[i] == if s[i] == '\\' then '/' else s[i]
  {
  }

  method OutputGlobMatches(glob: string, path: string) returns (r: bool)
    ensures r <==> PathMatch(Split(Slashes(glob), '/'), Split(Slashes(path), '/'))
  {
    var g, p := Slashes(glob), Slashes(path);
    r := GlobMatchRecursive(Split(g, '/'), Split(p, '/'));
  }
}
