/** The sandbox's wire protocol: the record codec and the reader that decodes records
    from whatever chunks the pipe delivers. */
module PipeProto {
  import opened Wrappers

  newtype u8 = x: int | 0 <= x < 0x100
  newtype u16 = x: int | 0 <= x < 0x1_0000
  newtype u32 = x: int | 0 <= x < 0x1_0000_0000

  datatype AccessEvent = Read(path: string, pid: u32) | Write(path: string, pid: u32)

  const OP_READ: u8 := 0x01
  const OP_WRITE: u8 := 0x02
  const HEADER_LEN := 7

  // ---- UTF-16 (sections 2.1 and 2.2 of RFC 2781) ---------------------------------------

  function Units(c: char): seq<u16> {
    var n := c as int;
    if n < 0x1_0000 then [n as u16]
    else [(0xD800 + (n - 0x1_0000) / 0x400) as u16, (0xDC00 + (n - 0x1_0000) % 0x400) as u16]
  }

  function EncodeUtf16(s: string): seq<u16> {
    if s == "" then [] else Units(s[0]) + EncodeUtf16(s[1..])
  }

  predicate IsHigh(u: u16) { 0xD800 <= u < 0xDC00 }
  predicate IsLow(u: u16) { 0xDC00 <= u < 0xE000 }

  const REPLACEMENT: char := 0xFFFD as char

  function Combine(h: u16, l: u16): char
    requires IsHigh(h) && IsLow(l)
  {
    (0x1_0000 + (h as int - 0xD800) * 0x400 + (l as int - 0xDC00)) as char
  }

  // An unpaired surrogate becomes U+FFFD.
  function DecodeUtf16Lossy(u: seq<u16>): string {
    if u == [] then ""
    else if IsHigh(u[0]) && |u| > 1 && IsLow(u[1]) then [Combine(u[0], u[1])] + DecodeUtf16Lossy(u[2..])
    else if IsHigh(u[0]) || IsLow(u[0]) then [REPLACEMENT] + DecodeUtf16Lossy(u[1..])
    else [u[0] as char] + DecodeUtf16Lossy(u[1..])
  }

  // A character beyond the basic plane is two units, a high and a low one, that add up to it.
  lemma {:induction false} UnitsExact(c: char)
    ensures var u := Units(c);
      if c as int < 0x1_0000 then |u| == 1 && u[0] as int == c as int else
        && |u| == 2 && 0xD800 <= u[0] < 0xDC00 && 0xDC00 <= u[1] < 0xE000
        && c as int == 0x1_0000 + (u[0] as int - 0xD800) * 0x400 + (u[1] as int - 0xDC00)
  {
  }

  // A surrogate without its other half is replaced by U+FFFD, and what follows is kept.
  lemma {:induction false} Unpaired(u: u16, rest: seq<u16>)
    requires 0xD800 <= u < 0xE000 && (u < 0xDC00 ==> rest == [] || !(0xDC00 <= rest[0] < 0xE000))
    ensures DecodeUtf16Lossy([u] + rest) == [0xFFFD as char] + DecodeUtf16Lossy(rest)
  {
    assert ([u] + rest)[1..] == rest;
  }

  lemma UnitsBack(c: char, rest: seq<u16>)
    ensures DecodeUtf16Lossy(Units(c) + rest) == [c] + DecodeUtf16Lossy(rest)
  {
    var u := Units(c) + rest;
    if c as int < 0x1_0000 {
      assert u[1..] == rest;
    } else {
      assert u[2..] == rest;
    }
  }

  // The UTF-16 step loses nothing.
  lemma {:induction false} Utf16RoundTrip(s: string)
    ensures DecodeUtf16Lossy(EncodeUtf16(s)) == s
  {
    if s != "" {
      Utf16RoundTrip(s[1..]);
      UnitsBack(s[0], EncodeUtf16(s[1..]));
      assert s == [s[0]] + s[1..];
    }
  }

  // Lossy decoding keeps the number of code units.
  lemma {:induction false} LossyLength(u: seq<u16>)
    ensures |EncodeUtf16(DecodeUtf16Lossy(u))| == |u|
  {
    if u != [] {
      var s := DecodeUtf16Lossy(u);
      var n := if IsHigh(u[0]) && |u| > 1 && IsLow(u[1]) then 2 else 1;
      assert s[1..] == DecodeUtf16Lossy(u[n..]);
      LossyLength(u[n..]);
    }
  }

  // ---- The record codec -----------------------------------------------------------------

  function Le16(x: u16): seq<u8> {
    [(x as int % 0x100) as u8, (x as int / 0x100) as u8]
  }

  function Le32(x: u32): seq<u8> {
    [(x as int % 0x100) as u8, (x as int / 0x100 % 0x100) as u8,
     (x as int / 0x1_0000 % 0x100) as u8, (x as int / 0x100_0000) as u8]
  }

  function FromLe16(b: seq<u8>): u16
    requires |b| == 2
  {
    (b[0] as int + b[1] as int * 0x100) as u16
  }

  function FromLe32(b: seq<u8>): u32
    requires |b| == 4
  {
    (b[0] as int + b[1] as int * 0x100 + b[2] as int * 0x1_0000 + b[3] as int * 0x100_0000) as u32
  }

  function WordBytes(u: seq<u16>): seq<u8> {
    if u == [] then [] else Le16(u[0]) + WordBytes(u[1..])
  }

  function Words(b: seq<u8>): seq<u16>
    requires |b| % 2 == 0
  {
    if b == [] then [] else [FromLe16(b[..2])] + Words(b[2..])
  }

  function Op(e: AccessEvent): u8 {
    if e.Read? then OP_READ else OP_WRITE
  }

  // The length field holds the number of UTF-16 units, cut to 16 bits.
  function Encode(e: AccessEvent): seq<u8> {
    var u := EncodeUtf16(e.path);
    [Op(e)] + Le32(e.pid) + Le16((|u| % 0x1_0000) as u16) + WordBytes(u)
  }

  function Decode(b: seq<u8>): (r: Option<(AccessEvent, nat)>)
    ensures r.Some? ==> 0 < r.value.1 <= |b|
  {
    if |b| < HEADER_LEN then None
    else
      var pid := FromLe32(b[1..5]);
      var words := FromLe16(b[5..7]) as int;
      var total := HEADER_LEN + words * 2;
      if |b| < total then None
      else
        var path := DecodeUtf16Lossy(Words(b[HEADER_LEN..total]));
        if b[0] == OP_READ then Some((Read(path, pid), total))
        else if b[0] == OP_WRITE then Some((Write(path, pid), total))
        else None
  }

  lemma {:induction false} WordBytesSnoc(u: seq<u16>, w: u16)
    ensures WordBytes(u + [w]) == WordBytes(u) + Le16(w)
  {
    if u == [] {
      assert u + [w] == [w] && [w][1..] == [];
    } else {
      WordBytesSnoc(u[1..], w);
      assert (u + [w])[1..] == u[1..] + [w];
    }
  }

  lemma {:induction false} WordBytesExact(u: seq<u16>, i: nat)
    requires i < |u|
    ensures |WordBytes(u)| == 2 * |u|
    ensures WordBytes(u)[2 * i] as int + 0x100 * WordBytes(u)[2 * i + 1] as int == u[i] as int
  {
    if i > 0 {
      WordBytesExact(u[1..], i - 1);
    } else {
      WordsBack(u);
    }
  }

  // The bytes of a record as numbers: the operation, then process id, length and units, each
  // with the low byte first.
  lemma {:induction false} EncodeBytes(e: AccessEvent)
    ensures var b, u := Encode(e), EncodeUtf16(e.path);
      && |b| == 7 + 2 * |u| && b[0] as int == (if e.Read? then 1 else 2)
      && b[1] as int + 0x100 * b[2] as int + 0x1_0000 * b[3] as int + 0x100_0000 * b[4] as int == e.pid as int
      && b[5] as int + 0x100 * b[6] as int == |u| % 0x1_0000
      && forall i :: 0 <= i < |u| ==> b[7 + 2 * i] as int + 0x100 * b[8 + 2 * i] as int == u[i] as int
  {
    hide EncodeUtf16;
    var b, u := Encode(e), EncodeUtf16(e.path);
    WordsBack(u);
    Le32Back(e.pid);
    assert b == [Op(e)] + Le32(e.pid) + Le16((|u| % 0x1_0000) as u16) + WordBytes(u);
    forall i | 0 <= i < |u|
      ensures b[7 + 2 * i] as int + 0x100 * b[8 + 2 * i] as int == u[i] as int
    {
      WordBytesExact(u, i);
      assert b[7 + 2 * i] == WordBytes(u)[2 * i] && b[8 + 2 * i] == WordBytes(u)[2 * i + 1];
    }
  }

  // Are these the units whose bytes follow the header?
  predicate Carries(b: seq<u8>, u: seq<u16>) {
    && |b| >= 7 + 2 * |u|
    && forall i | 0 <= i < |u| :: b[7 + 2 * i] as int + 0x100 * b[8 + 2 * i] as int == u[i] as int
  }

  lemma {:induction false} WordsExact(b: seq<u8>, u: seq<u16>)
    requires Carries(b, u)
    ensures Words(b[7..7 + 2 * |u|]) == u
    decreases |u|
  {
    var w := b[7..7 + 2 * |u|];
    if u != [] {
      var b' := b[..7] + b[9..];
      forall i | 0 <= i < |u| - 1
        ensures b'[7 + 2 * i] as int + 0x100 * b'[8 + 2 * i] as int == u[1..][i] as int
      {
        assert b'[7 + 2 * i] == b[7 + 2 * (i + 1)] && b'[8 + 2 * i] == b[8 + 2 * (i + 1)];
      }
      WordsExact(b', u[1..]);
      assert w[2..] == b'[7..7 + 2 * (|u| - 1)] && w[..2] == [b[7], b[8]];
      assert b[7 + 2 * 0] as int + 0x100 * b[8 + 2 * 0] as int == u[0] as int;
    }
  }

  // A buffer holds no record when its header is short, its operation is neither 1 nor 2, or its
  // path is not all there; otherwise the record is what the numbers in it say.
  lemma {:induction false} DecodeExact(b: seq<u8>, u: seq<u16>)
    ensures Decode(b).None? <==>
      |b| < 7 || (b[0] != 1 && b[0] != 2) || |b| < 7 + 2 * (b[5] as int + 0x100 * b[6] as int)
    ensures Decode(b).Some? && |u| == b[5] as int + 0x100 * b[6] as int && Carries(b, u) ==>
      var (e, n) := Decode(b).value;
      && n == 7 + 2 * |u| && (e.Read? <==> b[0] == 1) && e.path == DecodeUtf16Lossy(u)
      && e.pid as int == b[1] as int + 0x100 * b[2] as int + 0x1_0000 * b[3] as int + 0x100_0000 * b[4] as int
  {
    hide Words, DecodeUtf16Lossy;
    if Decode(b).Some? && |u| == b[5] as int + 0x100 * b[6] as int && Carries(b, u) {
      WordsExact(b, u);
    }
  }

  // Appends a record to a buffer, byte by byte.
  method EncodeEvent(e: AccessEvent, buf: seq<u8>) returns (buf': seq<u8>)
    ensures buf' == buf + Encode(e)
  {
    var utf16 := EncodeUtf16(e.path);
    var pathLen := (|utf16| % 0x1_0000) as u16;
    buf' := buf + [Op(e)];
    buf' := buf' + Le32(e.pid);
    buf' := buf' + Le16(pathLen);
    ghost var head := buf';
    for i := 0 to |utf16|
      invariant buf' == head + WordBytes(utf16[..i])
    {
      WordBytesSnoc(utf16[..i], utf16[i]);
      assert utf16[..i + 1] == utf16[..i] + [utf16[i]];
      buf' := buf' + Le16(utf16[i]);
    }
    assert utf16[..|utf16|] == utf16;
  }

  lemma Le16Length(x: u16)
    ensures |Le16(x)| == 2
  {
  }

  lemma Le16Back(x: u16)
    ensures FromLe16(Le16(x)) == x
  {
  }

  lemma Le32Back(x: u32)
    ensures FromLe32(Le32(x)) == x
  {
    var n := x as int;
    assert n == n % 0x100 + n / 0x100 * 0x100;
    assert n / 0x100 == n / 0x100 % 0x100 + n / 0x1_0000 * 0x100;
    assert n / 0x1_0000 == n / 0x1_0000 % 0x100 + n / 0x100_0000 * 0x100;
  }

  lemma {:induction false} WordsBack(u: seq<u16>)
    ensures |WordBytes(u)| == 2 * |u| && Words(WordBytes(u)) == u
  {
    if u != [] {
      WordsBack(u[1..]);
      Le16Back(u[0]);
      Le16Length(u[0]);
      hide Le16, FromLe16;
      assert WordBytes(u)[..2] == Le16(u[0]) && WordBytes(u)[2..] == WordBytes(u[1..]);
      assert u == [u[0]] + u[1..];
    }
  }

  lemma {:induction false} WordBytesPrefix(u: seq<u16>, n: nat)
    requires n <= |u|
    ensures |WordBytes(u)| == 2 * |u| && WordBytes(u)[..2 * n] == WordBytes(u[..n])
  {
    if u != [] {
      WordBytesPrefix(u[1..], if n > 0 then n - 1 else 0);
      if n > 0 {
        assert u[..n][1..] == u[1..][..n - 1];
        assert WordBytes(u)[..2 * n] == Le16(u[0]) + WordBytes(u[1..])[..2 * (n - 1)];
      }
    }
  }

  // What the front of any record decodes to: the first (length mod 65536) units of its path.
  lemma DecodeFront(e: AccessEvent, rest: seq<u8>)
    ensures var u := EncodeUtf16(e.path);
      var n := |u| % 0x1_0000;
      var path := DecodeUtf16Lossy(u[..n]);
      Decode(Encode(e) + rest) == Some((if e.Read? then Read(path, e.pid) else Write(path, e.pid), HEADER_LEN + 2 * n))
  {
    hide EncodeUtf16, DecodeUtf16Lossy, FromLe32, FromLe16, Le16, Words;
    var u := EncodeUtf16(e.path);
    var n := |u| % 0x1_0000;
    Le16Length(n as u16);
    var b := Encode(e) + rest;
    assert b[0] == Op(e) && b[1..5] == Le32(e.pid) && b[5..7] == Le16(n as u16);
    Le32Back(e.pid);
    Le16Back(n as u16);
    WordBytesPrefix(u, n);
    WordsBack(u[..n]);
    assert b[HEADER_LEN..HEADER_LEN + 2 * n] == WordBytes(u)[..2 * n];
  }

  predicate Short(e: AccessEvent) {
    |EncodeUtf16(e.path)| < 0x1_0000
  }

  lemma Truncated(s: string)
    requires |EncodeUtf16(s)| >= 0x1_0000
    ensures DecodeUtf16Lossy(EncodeUtf16(s)[..|EncodeUtf16(s)| % 0x1_0000]) != s
  {
    LossyLength(EncodeUtf16(s)[..|EncodeUtf16(s)| % 0x1_0000]);
  }

  // A record decodes to its event, whatever follows it, exactly when its path is short.
  lemma DecodeEncode(e: AccessEvent, rest: seq<u8>)
    ensures Decode(Encode(e) + rest) == Some((e, |Encode(e)|)) <==> Short(e)
  {
    var u := EncodeUtf16(e.path);
    DecodeFront(e, rest);
    WordsBack(u);
    if Short(e) {
      assert u[..|u|] == u;
      Utf16RoundTrip(e.path);
    } else {
      Truncated(e.path);
    }
  }

  // Decoding a complete record does not look past it.
  lemma DecodeStable(b: seq<u8>, more: seq<u8>)
    requires Decode(b).Some?
    ensures Decode(b + more) == Decode(b)
  {
    var total := Decode(b).value.1;
    assert (b + more)[1..5] == b[1..5] && (b + more)[5..7] == b[5..7];
    assert (b + more)[HEADER_LEN..total] == b[HEADER_LEN..total];
  }

  // ---- The reader -------------------------------------------------------------------------

  // All complete records at the front of a stream, and what is left after them.
  function DecodeAll(b: seq<u8>): (seq<AccessEvent>, seq<u8>)
    decreases |b|
  {
    var r := Decode(b);
    if r.None? then ([], b) else
      var rest := DecodeAll(b[r.value.1..]);
      ([r.value.0] + rest.0, rest.1)
  }

  function Concat(chunks: seq<seq<u8>>): seq<u8> {
    if chunks == [] then [] else chunks[0] + Concat(chunks[1..])
  }

  function EncodeAll(es: seq<AccessEvent>): seq<u8> {
    if es == [] then [] else Encode(es[0]) + EncodeAll(es[1..])
  }

  // The inner loop: decodes from an offset into the buffer, then drops what was consumed.
  method Drain(raw: seq<u8>) returns (events: seq<AccessEvent>, raw': seq<u8>)
    ensures (events, raw') == DecodeAll(raw)
  {
    hide Decode;
    events := [];
    var offset := 0;
    var next := Decode(raw[offset..]);
    assert raw[0..] == raw;
    while next.Some?
      invariant offset <= |raw| && next == Decode(raw[offset..])
      invariant DecodeAll(raw).0 == events + DecodeAll(raw[offset..]).0
      invariant DecodeAll(raw).1 == DecodeAll(raw[offset..]).1
      decreases |raw| - offset
    {
      assert raw[offset..][next.value.1..] == raw[offset + next.value.1..];
      assert DecodeAll(raw[offset..]).0 == [next.value.0] + DecodeAll(raw[offset + next.value.1..]).0;
      events := events + [next.value.0];
      offset := offset + next.value.1;
      next := Decode(raw[offset..]);
    }
    raw' := raw[offset..];
    assert DecodeAll(raw').0 == [] && events + [] == events;
  }

  // Reads chunks until the pipe closes; a zero-length read counts as the end.
  method ReadEvents(chunks: seq<seq<u8>>) returns (events: seq<AccessEvent>)
    ensures events == DecodeAll(Concat(Received(chunks))).0
  {
    hide DecodeAll;
    var raw: seq<u8> := [];
    events := [];
    var i := 0;
    DecodeNothing();
    while i < |chunks| && chunks[i] != []
      invariant i <= |chunks| && forall j :: 0 <= j < i ==> chunks[j] != []
      invariant (events, raw) == DecodeAll(Concat(chunks[..i]))
    {
      DecodeResumes(Concat(chunks[..i]), chunks[i]);
      ConcatSnoc(chunks[..i], chunks[i]);
      assert chunks[..i + 1] == chunks[..i] + [chunks[i]];
      raw := raw + chunks[i];
      var more: seq<AccessEvent>;
      more, raw := Drain(raw);
      events := events + more;
      i := i + 1;
    }
    ReceivedIs(chunks, i);
    DecodeResumes(Concat(chunks[..i]), []);
    assert Concat(chunks[..i]) + [] == Concat(chunks[..i]) && raw + [] == raw;
    var tail, _ := Drain(raw);
    events := events + tail;
  }

  lemma DecodeNothing()
    ensures DecodeAll(Concat([])) == ([], [])
  {
  }

  lemma {:induction false} ReceivedIs(chunks: seq<seq<u8>>, n: nat)
    requires n <= |chunks| && (forall j :: 0 <= j < n ==> chunks[j] != []) && (n < |chunks| ==> chunks[n] == [])
    ensures Received(chunks) == chunks[..n]
  {
    if n > 0 {
      ReceivedIs(chunks[1..], n - 1);
      assert chunks[..n] == [chunks[0]] + chunks[1..][..n - 1];
    }
  }

  // The chunks before the first empty one.
  function Received(chunks: seq<seq<u8>>): seq<seq<u8>> {
    if chunks == [] || chunks[0] == [] then [] else [chunks[0]] + Received(chunks[1..])
  }

  lemma {:induction false} ConcatSnoc(chunks: seq<seq<u8>>, c: seq<u8>)
    ensures Concat(chunks + [c]) == Concat(chunks) + c
  {
    if chunks == [] {
      assert chunks + [c] == [c] && [c][1..] == [];
    } else {
      ConcatSnoc(chunks[1..], c);
      assert (chunks + [c])[1..] == chunks[1..] + [c];
    }
  }

  // Decoding a stream in two parts, keeping the undecoded rest of the first, is decoding it whole.
  lemma {:induction false} DecodeResumes(a: seq<u8>, b: seq<u8>)
    ensures var first := DecodeAll(a);
      var second := DecodeAll(first.1 + b);
      DecodeAll(a + b) == (first.0 + second.0, second.1)
    decreases |a|
  {
    var r := Decode(a);
    if r.Some? {
      DecodeStable(a, b);
      hide Decode;
      var n := r.value.1;
      assert (a + b)[n..] == a[n..] + b;
      DecodeResumes(a[n..], b);
      var first := DecodeAll(a[n..]);
      assert [r.value.0] + (first.0 + DecodeAll(first.1 + b).0) == ([r.value.0] + first.0) + DecodeAll(first.1 + b).0;
    } else {
      assert [] + DecodeAll(a + b).0 == DecodeAll(a + b).0;
    }
  }

  lemma DecodeAllStep(e: AccessEvent, tail: seq<u8>)
    requires Short(e)
    ensures DecodeAll(Encode(e) + tail) == ([e] + DecodeAll(tail).0, DecodeAll(tail).1)
  {
    DecodeEncode(e, tail);
    hide Decode, Encode, Short;
    assert (Encode(e) + tail)[|Encode(e)|..] == tail;
  }

  lemma {:induction false} ReadsBack(es: seq<AccessEvent>)
    requires forall e :: e in es ==> Short(e)
    ensures DecodeAll(EncodeAll(es)) == (es, [])
  {
    hide Encode, Short, Decode;
    if es != [] {
      assert es[0] in es;
      DecodeAllStep(es[0], EncodeAll(es[1..]));
      ReadsBack(es[1..]);
      assert es == [es[0]] + es[1..];
      hide DecodeAll;
    }
  }

  lemma {:induction false} LongBreaks(es: seq<AccessEvent>)
    requires DecodeAll(EncodeAll(es)).0 == es
    ensures forall e :: e in es ==> Short(e)
  {
    if es != [] {
      var tail := EncodeAll(es[1..]);
      DecodeFront(es[0], tail);
      var got := DecodeAll(EncodeAll(es)).0;
      assert got[0] == es[0];
      if !Short(es[0]) {
        Truncated(es[0].path);
      }
      DecodeEncode(es[0], tail);
      assert (Encode(es[0]) + tail)[|Encode(es[0])|..] == tail;
      assert got[1..] == DecodeAll(tail).0;
      LongBreaks(es[1..]);
    }
  }

  // However a client's records are split into reads, and whatever follows a read that returns
  // nothing, the reader returns exactly its events, in order - if and only if every path is under
  // 65536 UTF-16 units.
  lemma ReaderExact(es: seq<AccessEvent>, chunks: seq<seq<u8>>, later: seq<seq<u8>>)
    requires Concat(chunks) == EncodeAll(es) && [] !in chunks && (later == [] || later[0] == [])
    ensures DecodeAll(Concat(Received(chunks + later))).0 == es <==>
      forall e :: e in es ==> |EncodeUtf16(e.path)| < 0x1_0000
  {
    ReceivedIs(chunks + later, |chunks|);
    assert (chunks + later)[..|chunks|] == chunks;
    if forall e :: e in es ==> Short(e) {
      ReadsBack(es);
    }
    if DecodeAll(EncodeAll(es)).0 == es {
      LongBreaks(es);
    }
  }

  // What the reader keeps back is the end of what it received, and no record starts there.
  lemma {:induction false} RestStuck(b: seq<u8>)
    ensures var rest := DecodeAll(b).1; |rest| <= |b| && b[|b| - |rest|..] == rest && Decode(rest).None?
    decreases |b|
  {
    hide Decode;
    if Decode(b).Some? {
      RestStuck(b[Decode(b).value.1..]);
    }
  }
}
