/**
 The byte string an audit entry is hashed over, and a parser that reads it back.

 Go strings are byte strings. The JSON encoder copies well-formed UTF-8, escapes what JSON requires
 (and U+2028, U+2029), and writes the six characters \ufffd for every byte that is not part of a
 well-formed sequence, so distinct malformed strings can share one encoding.
 */
module AuditEncoding {
  import opened QueueTypes
  import opened Sequences

  type Bytes = seq<byte>
  type PayloadMap = map<Bytes, Bytes>

  const QUOTE: byte := 0x22
  const BACKSLASH: byte := 0x5C
  const COLON: byte := 0x3A
  const COMMA: byte := 0x2C
  const OPEN: byte := 0x7B
  const CLOSE: byte := 0x7D

  /** The escape \ufffd, the escapes \u2028 and \u2029, and the UTF-8 of the three characters. */
  const ESC_FFFD: Bytes := [0x5C, 0x75, 0x66, 0x66, 0x66, 0x64]
  const ESC_2028: Bytes := [0x5C, 0x75, 0x32, 0x30, 0x32, 0x38]
  const ESC_2029: Bytes := [0x5C, 0x75, 0x32, 0x30, 0x32, 0x39]
  const UTF8_FFFD: Bytes := [0xEF, 0xBF, 0xBD]
  const UTF8_2028: Bytes := [0xE2, 0x80, 0xA8]
  const UTF8_2029: Bytes := [0xE2, 0x80, 0xA9]

  // ---------------------------------------------------------------- UTF-8

  predicate Between(b: byte, lo: int, hi: int) {
    lo <= b <= hi
  }

  /** Length of the well-formed UTF-8 sequence s starts with; 0 when its first byte starts none. */
  function RuneSize(s: Bytes): (n: nat)
    requires s != []
    ensures n <= 4 && n <= |s|
    ensures s[0] < 0x80 <==> n == 1
    ensures 1 < n ==> forall k :: 0 <= k < n ==> 0x80 <= s[k]
  {
    var b := s[0];
    if b < 0x80 then 1
    else if Between(b, 0xC2, 0xDF) then
      if 2 <= |s| && Between(s[1], 0x80, 0xBF) then 2 else 0
    else if Between(b, 0xE0, 0xEF) then
      var lo := if b == 0xE0 then 0xA0 else 0x80;
      var hi := if b == 0xED then 0x9F else 0xBF;
      if 3 <= |s| && Between(s[1], lo, hi) && Between(s[2], 0x80, 0xBF) then 3 else 0
    else if Between(b, 0xF0, 0xF4) then
      var lo := if b == 0xF0 then 0x90 else 0x80;
      var hi := if b == 0xF4 then 0x8F else 0xBF;
      if 4 <= |s| && Between(s[1], lo, hi) && Between(s[2], 0x80, 0xBF) && Between(s[3], 0x80, 0xBF) then 4 else 0
    else 0
  }

  /** One byte of a string as the encoder distinguishes it. */
  datatype Mark = Lit(b: byte) | Bad

  function Lits(s: Bytes): seq<Mark> {
    if s == [] then [] else [Lit(s[0])] + Lits(s[1..])
  }

  /** The string with every byte outside a well-formed sequence replaced by the same mark. */
  function Marks(s: Bytes): seq<Mark> {
    if s == [] then []
    else if RuneSize(s) == 0 then [Bad] + Marks(s[1..])
    else Lits(s[..RuneSize(s)]) + Marks(s[RuneSize(s)..])
  }

  predicate WellFormed(s: Bytes) {
    Bad !in Marks(s)
  }

  // ---------------------------------------------------------------- string encoding

  function HexDigit(d: nat): byte
    requires d < 16
  {
    if d < 10 then 0x30 + d else 0x61 + d - 10
  }

  function HexValue(b: byte): Option<nat> {
    if Between(b, 0x30, 0x39) then Some(b - 0x30)
    else if Between(b, 0x61, 0x66) then Some(b - 0x61 + 10)
    else None
  }

  function EscapeAscii(b: byte): Bytes
    requires b < 0x80
  {
    if b == QUOTE || b == BACKSLASH then [BACKSLASH, b]
    else if b == 0x08 then [BACKSLASH, 0x62]
    else if b == 0x0C then [BACKSLASH, 0x66]
    else if b == 0x0A then [BACKSLASH, 0x6E]
    else if b == 0x0D then [BACKSLASH, 0x72]
    else if b == 0x09 then [BACKSLASH, 0x74]
    else if b < 0x20 then [BACKSLASH, 0x75, 0x30, 0x30, HexDigit(b / 16), HexDigit(b % 16)]
    else [b]
  }

  /** How many bytes the encoder consumes at the front of s. */
  function Step(s: Bytes): (n: nat)
    requires s != []
    ensures 1 <= n <= |s|
  {
    if RuneSize(s) == 0 then 1 else RuneSize(s)
  }

  function Chunk(s: Bytes): Bytes
    requires s != []
  {
    var n := RuneSize(s);
    if n == 0 then ESC_FFFD
    else if n == 1 then EscapeAscii(s[0])
    else if s[..n] == UTF8_2028 then ESC_2028
    else if s[..n] == UTF8_2029 then ESC_2029
    else s[..n]
  }

  function EncodeBody(s: Bytes): Bytes {
    if s == [] then [] else Chunk(s) + EncodeBody(s[Step(s)..])
  }

  function EncodeString(s: Bytes): Bytes {
    [QUOTE] + EncodeBody(s) + [QUOTE]
  }

  // ---------------------------------------------------------------- string parser

  datatype Parsed<T> = Parsed(value: T, rest: Bytes)

  function Prepend(ms: seq<Mark>, r: Option<Parsed<seq<Mark>>>): Option<Parsed<seq<Mark>>> {
    match r
    case None => None
    case Some(p) => Some(Parsed(ms + p.value, p.rest))
  }

  /** The marks one escape sequence stands for, and its length. */
  function Unescape(t: Bytes): Option<(seq<Mark>, nat)>
    requires t != [] && t[0] == BACKSLASH
  {
    if |t| < 2 then None
    else if t[1] == QUOTE || t[1] == BACKSLASH then Some(([Lit(t[1])], 2))
    else if t[1] == 0x62 then Some(([Lit(0x08)], 2))
    else if t[1] == 0x66 then Some(([Lit(0x0C)], 2))
    else if t[1] == 0x6E then Some(([Lit(0x0A)], 2))
    else if t[1] == 0x72 then Some(([Lit(0x0D)], 2))
    else if t[1] == 0x74 then Some(([Lit(0x09)], 2))
    else if |t| < 6 then None
    else if t[..6] == ESC_FFFD then Some(([Bad], 6))
    else if t[..6] == ESC_2028 then Some((Lits(UTF8_2028), 6))
    else if t[..6] == ESC_2029 then Some((Lits(UTF8_2029), 6))
    else if t[1] == 0x75 && t[2] == 0x30 && t[3] == 0x30 then
      match (HexValue(t[4]), HexValue(t[5]))
      case (Some(h), Some(l)) => if h < 8 then Some(([Lit(16 * h + l)], 6)) else None
      case _ => None
    else None
  }

  /** Reads up to and including the closing quote; control characters must be escaped. */
  function ParseBody(t: Bytes): (r: Option<Parsed<seq<Mark>>>)
    ensures r.Some? ==> |r.value.rest| < |t|
    decreases |t|
  {
    if t == [] then None
    else if t[0] == QUOTE then Some(Parsed([], t[1..]))
    else if t[0] == BACKSLASH then
      match Unescape(t)
      case None => None
      case Some((ms, n)) => if 1 <= n <= |t| then Prepend(ms, ParseBody(t[n..])) else None
    else if t[0] < 0x20 then None
    else Prepend([Lit(t[0])], ParseBody(t[1..]))
  }

  function ParseString(t: Bytes): (r: Option<Parsed<seq<Mark>>>)
    ensures r.Some? ==> |r.value.rest| < |t|
  {
    if t == [] || t[0] != QUOTE then None else ParseBody(t[1..])
  }

  /** A two-byte escape stands for one byte. */
  lemma {:induction false} ShortEscapeParses(b: byte, tail: Bytes)
    requires b < 0x80 && |EscapeAscii(b)| == 2
    ensures ParseBody(EscapeAscii(b) + tail) == Prepend([Lit(b)], ParseBody(tail))
  {
    var t := EscapeAscii(b) + tail;
    CutFront(EscapeAscii(b), tail);
    assert t[0] == BACKSLASH && t[1] == EscapeAscii(b)[1];
  }

  /** Other control characters are written with two hex digits. */
  lemma {:induction false} HexEscapeParses(b: byte, tail: Bytes)
    requires b < 0x80 && |EscapeAscii(b)| == 6
    ensures ParseBody(EscapeAscii(b) + tail) == Prepend([Lit(b)], ParseBody(tail))
  {
    var t := EscapeAscii(b) + tail;
    CutFront(EscapeAscii(b), tail);
    assert HexValue(t[4]) == Some(b / 16) && HexValue(t[5]) == Some(b % 16);
  }

  lemma {:induction false} AsciiParses(b: byte, tail: Bytes)
    requires b < 0x80
    ensures ParseBody(EscapeAscii(b) + tail) == Prepend([Lit(b)], ParseBody(tail))
  {
    if |EscapeAscii(b)| == 6 {
      HexEscapeParses(b, tail);
    } else if |EscapeAscii(b)| == 2 {
      ShortEscapeParses(b, tail);
    } else {
      CutFront([b], tail);
    }
  }

  lemma {:induction false} EscapeParses(e: Bytes, tail: Bytes)
    requires e == ESC_FFFD || e == ESC_2028 || e == ESC_2029
    ensures ParseBody(e + tail) ==
      Prepend(if e == ESC_FFFD then [Bad] else if e == ESC_2028 then Lits(UTF8_2028) else Lits(UTF8_2029),
              ParseBody(tail))
  {
    var t := e + tail;
    assert t[..6] == e && t[6..] == tail;
    assert t[0] == BACKSLASH && t[1] == 0x75;
  }

  lemma {:induction false} PrependTwice(a: seq<Mark>, b: seq<Mark>, r: Option<Parsed<seq<Mark>>>)
    ensures Prepend(a, Prepend(b, r)) == Prepend(a + b, r)
  {
    if r.Some? { assert a + (b + r.value.value) == (a + b) + r.value.value; }
  }

  lemma {:induction false} RawParses(raw: Bytes, tail: Bytes)
    requires forall k :: 0 <= k < |raw| ==> 0x80 <= raw[k]
    ensures ParseBody(raw + tail) == Prepend(Lits(raw), ParseBody(tail))
    decreases |raw|
  {
    if raw == [] {
      assert raw + tail == tail;
      if ParseBody(tail).Some? { assert [] + ParseBody(tail).value.value == ParseBody(tail).value.value; }
    } else {
      RawParses(raw[1..], tail);
      assert (raw + tail)[1..] == raw[1..] + tail;
      PrependTwice([Lit(raw[0])], Lits(raw[1..]), ParseBody(tail));
    }
  }

  lemma {:induction false} ChunkParses(s: Bytes, tail: Bytes)
    requires s != []
    ensures ParseBody(Chunk(s) + tail) ==
      Prepend(if RuneSize(s) == 0 then [Bad] else Lits(s[..RuneSize(s)]), ParseBody(tail))
  {
    var n := RuneSize(s);
    if n == 0 {
      EscapeParses(ESC_FFFD, tail);
    } else if n == 1 {
      AsciiParses(s[0], tail);
      assert s[..1] == [s[0]];
      assert Lits([s[0]]) == [Lit(s[0])];
    } else if s[..n] == UTF8_2028 {
      EscapeParses(ESC_2028, tail);
    } else if s[..n] == UTF8_2029 {
      EscapeParses(ESC_2029, tail);
    } else {
      RawParses(s[..n], tail);
    }
  }

  /** Parsing what the encoder wrote gives the marks of the string, for every byte string. */
  lemma {:induction false} BodyRoundTrip(s: Bytes, rest: Bytes)
    ensures ParseBody(EncodeBody(s) + ([QUOTE] + rest)) == Some(Parsed(Marks(s), rest))
    decreases |s|
  {
    if s == [] {
      CutFront([QUOTE], rest);
      assert EncodeBody(s) + ([QUOTE] + rest) == [QUOTE] + rest;
    } else {
      var n := Step(s);
      var more, close := EncodeBody(s[n..]), [QUOTE] + rest;
      BodyRoundTrip(s[n..], rest);
      Regroup(Chunk(s), more, close);
      ChunkParses(s, more + close);
    }
  }

  lemma {:induction false} StringRoundTrip(s: Bytes, rest: Bytes)
    ensures ParseString(EncodeString(s) + rest) == Some(Parsed(Marks(s), rest))
  {
    Regroup4([QUOTE], EncodeBody(s), [QUOTE], rest);
    CutFront([QUOTE], EncodeBody(s) + ([QUOTE] + rest));
    BodyRoundTrip(s, rest);
  }

  // ---------------------------------------------------------------- key order

  /** Byte-wise lexicographic order, as sort.Strings uses. */
  predicate Leq(a: Bytes, b: Bytes) {
    a == [] || (b != [] && (a[0] < b[0] || (a[0] == b[0] && Leq(a[1..], b[1..]))))
  }

  lemma {:induction false} LeqTotal(a: Bytes, b: Bytes)
    ensures Leq(a, b) || Leq(b, a)
    ensures Leq(a, b) && Leq(b, a) ==> a == b
  {
    if a != [] && b != [] && a[0] == b[0] {
      LeqTotal(a[1..], b[1..]);
      assert a == [a[0]] + a[1..] && b == [b[0]] + b[1..];
    }
  }

  lemma {:induction false} LeqTransitive(a: Bytes, b: Bytes, c: Bytes)
    requires Leq(a, b) && Leq(b, c)
    ensures Leq(a, c)
  {
    if a != [] && a[0] == b[0] && b[0] == c[0] {
      LeqTransitive(a[1..], b[1..], c[1..]);
    }
  }

  lemma {:induction false} LeastExists(ks: set<Bytes>) returns (k: Bytes)
    requires ks != {}
    ensures k in ks && forall o :: o in ks ==> Leq(k, o)
  {
    var a :| a in ks;
    if ks == {a} {
      k := a;
      LeqTotal(a, a);
    } else {
      var m := LeastExists(ks - {a});
      LeqTotal(a, m);
      LeqTotal(a, a);
      k := if Leq(a, m) then a else m;
      forall o | o in ks
        ensures Leq(k, o)
      {
        if o != a && k == a { LeqTransitive(a, m, o); }
      }
    }
  }

  function Least(ks: set<Bytes>): (k: Bytes)
    requires ks != {}
    ensures k in ks && forall o :: o in ks ==> Leq(k, o)
  {
    assert exists k :: k in ks && forall o :: o in ks ==> Leq(k, o) by {
      var k := LeastExists(ks);
    }
    assert forall a, b :: a in ks && b in ks && Leq(a, b) && Leq(b, a) ==> a == b by {
      forall a, b | a in ks && b in ks && Leq(a, b) && Leq(b, a)
        ensures a == b
      {
        LeqTotal(a, b);
      }
    }
    var k :| k in ks && forall o :: o in ks ==> Leq(k, o);
    k
  }

  function SortedKeys(ks: set<Bytes>): (l: seq<Bytes>)
    ensures forall k :: k in l <==> k in ks
    ensures |l| == |ks|
  {
    if ks == {} then [] else [Least(ks)] + SortedKeys(ks - {Least(ks)})
  }

  predicate Sorted(l: seq<Bytes>) {
    forall a, b :: 0 <= a < b < |l| ==> Leq(l[a], l[b]) && l[a] != l[b]
  }

  lemma {:induction false} TailMembers(l: seq<Bytes>, k: Bytes)
    requires l != [] && Sorted(l)
    ensures k in l[1..] <==> k in l && k != l[0]
  {
    if k in l && k != l[0] {
      var a :| 0 <= a < |l| && l[a] == k;
      assert l[1..][a - 1] == k;
    }
    if k in l[1..] {
      var a :| 0 <= a < |l[1..]| && l[1..][a] == k;
      assert l[a + 1] == k;
    }
  }

  lemma {:induction false} FirstIsLeast(ks: set<Bytes>, l: seq<Bytes>)
    requires l != [] && Sorted(l) && forall k :: k in l <==> k in ks
    ensures ks != {} && l[0] == Least(ks)
  {
    assert l[0] in l;
    var k := Least(ks);
    var a :| 0 <= a < |l| && l[a] == k;
    LeqTotal(l[0], k);
  }

  lemma {:induction false} SortedTail(l: seq<Bytes>)
    requires l != [] && Sorted(l)
    ensures Sorted(l[1..])
  {
  }

  /** Any sorted listing of the keys is this one, so the order in which a Go map is ranged over is immaterial. */
  lemma {:induction false} SortedKeysUnique(ks: set<Bytes>, l: seq<Bytes>)
    requires Sorted(l) && forall k :: k in l <==> k in ks
    ensures l == SortedKeys(ks)
    decreases |l|
  {
    if l != [] {
      FirstIsLeast(ks, l);
      SortedTail(l);
      forall o
        ensures o in l[1..] <==> o in ks - {l[0]}
      {
        TailMembers(l, o);
      }
      SortedKeysUnique(ks - {l[0]}, l[1..]);
    } else {
      assert ks == {};
    }
  }

  // ---------------------------------------------------------------- object encoding

  function PairsOf(m: PayloadMap, ks: seq<Bytes>): seq<(Bytes, Bytes)>
    requires forall k :: k in ks ==> k in m
  {
    if ks == [] then [] else [(ks[0], m[ks[0]])] + PairsOf(m, ks[1..])
  }

  function Pairs(m: PayloadMap): seq<(Bytes, Bytes)> {
    PairsOf(m, SortedKeys(m.Keys))
  }

  function EncodePair(p: (Bytes, Bytes)): Bytes {
    EncodeString(p.0) + [COLON] + EncodeString(p.1)
  }

  function EncodePairs(ps: seq<(Bytes, Bytes)>): Bytes {
    if ps == [] then []
    else if |ps| == 1 then EncodePair(ps[0])
    else EncodePair(ps[0]) + [COMMA] + EncodePairs(ps[1..])
  }

  /** canonicalJSON */
  function Canonical(m: PayloadMap): Bytes {
    [OPEN] + EncodePairs(Pairs(m)) + [CLOSE]
  }

  // ---------------------------------------------------------------- object parser

  type MarkPair = (seq<Mark>, seq<Mark>)

  function ParsePair(t: Bytes): (r: Option<Parsed<MarkPair>>)
    ensures r.Some? ==> |r.value.rest| < |t|
  {
    match ParseString(t)
    case None => None
    case Some(k) =>
      if k.rest == [] || k.rest[0] != COLON then None else
      match ParseString(k.rest[1..])
      case None => None
      case Some(v) => Some(Parsed((k.value, v.value), v.rest))
  }

  function ParsePairs(t: Bytes): (r: Option<Parsed<seq<MarkPair>>>)
    decreases |t|
  {
    match ParsePair(t)
    case None => None
    case Some(p) =>
      if p.rest == [] then None
      else if p.rest[0] == CLOSE then Some(Parsed([p.value], p.rest[1..]))
      else if p.rest[0] != COMMA then None else
      match ParsePairs(p.rest[1..])
      case None => None
      case Some(q) => Some(Parsed([p.value] + q.value, q.rest))
  }

  function ParseObject(t: Bytes): Option<Parsed<seq<MarkPair>>> {
    if |t| < 2 || t[0] != OPEN then None
    else if t[1] == CLOSE then Some(Parsed([], t[2..]))
    else ParsePairs(t[1..])
  }

  function MarkPairs(ps: seq<(Bytes, Bytes)>): seq<MarkPair> {
    if ps == [] then [] else [(Marks(ps[0].0), Marks(ps[0].1))] + MarkPairs(ps[1..])
  }

  lemma {:induction false} ColonParses(t: Bytes, k: seq<Mark>, u: Bytes, v: seq<Mark>, rest: Bytes)
    requires ParseString(t) == Some(Parsed(k, [COLON] + u)) && ParseString(u) == Some(Parsed(v, rest))
    ensures ParsePair(t) == Some(Parsed((k, v), rest))
  {
    CutFront([COLON], u);
  }

  lemma {:induction false} PairRoundTrip(p: (Bytes, Bytes), rest: Bytes)
    ensures ParsePair(EncodePair(p) + rest) == Some(Parsed((Marks(p.0), Marks(p.1)), rest))
  {
    var u := EncodeString(p.1) + rest;
    Regroup4(EncodeString(p.0), [COLON], EncodeString(p.1), rest);
    StringRoundTrip(p.0, [COLON] + u);
    StringRoundTrip(p.1, rest);
    ColonParses(EncodePair(p) + rest, Marks(p.0), u, Marks(p.1), rest);
  }

  lemma {:induction false} LastPair(t: Bytes, v: MarkPair, rest: Bytes)
    requires ParsePair(t) == Some(Parsed(v, [CLOSE] + rest))
    ensures ParsePairs(t) == Some(Parsed([v], rest))
  {
    CutFront([CLOSE], rest);
  }

  lemma {:induction false} NextPair(t: Bytes, v: MarkPair, tail: Bytes, vs: seq<MarkPair>, rest: Bytes)
    requires ParsePair(t) == Some(Parsed(v, [COMMA] + tail)) && ParsePairs(tail) == Some(Parsed(vs, rest))
    ensures ParsePairs(t) == Some(Parsed([v] + vs, rest))
  {
    CutFront([COMMA], tail);
  }

  lemma {:induction false} PairsRoundTrip(ps: seq<(Bytes, Bytes)>, rest: Bytes)
    requires ps != []
    ensures ParsePairs(EncodePairs(ps) + ([CLOSE] + rest)) == Some(Parsed(MarkPairs(ps), rest))
    decreases |ps|
  {
    var v, close := (Marks(ps[0].0), Marks(ps[0].1)), [CLOSE] + rest;
    if |ps| == 1 {
      PairRoundTrip(ps[0], close);
      LastPair(EncodePair(ps[0]) + close, v, rest);
      assert MarkPairs(ps[1..]) == [] && [v] + [] == [v];
    } else {
      var others := EncodePairs(ps[1..]);
      PairsRoundTrip(ps[1..], rest);
      Regroup4(EncodePair(ps[0]), [COMMA], others, close);
      PairRoundTrip(ps[0], [COMMA] + (others + close));
      NextPair(EncodePairs(ps) + close, v, others + close, MarkPairs(ps[1..]), rest);
    }
  }

  lemma {:induction false} ObjectParses(body: Bytes, ps: seq<MarkPair>, rest: Bytes)
    requires body != [] && body[0] == QUOTE && ParsePairs(body + ([CLOSE] + rest)) == Some(Parsed(ps, rest))
    ensures ParseObject([OPEN] + body + [CLOSE] + rest) == Some(Parsed(ps, rest))
  {
    Regroup4([OPEN], body, [CLOSE], rest);
    CutFront([OPEN], body + ([CLOSE] + rest));
    var t := [OPEN] + (body + ([CLOSE] + rest));
    assert t[1] == QUOTE;
  }

  /** Parsing the canonical object gives the marks of the sorted members, for every map of byte strings. */
  lemma {:induction false} ObjectRoundTrip(m: PayloadMap, rest: Bytes)
    ensures ParseObject(Canonical(m) + rest) == Some(Parsed(MarkPairs(Pairs(m)), rest))
  {
    var ps := Pairs(m);
    if ps == [] {
      var t := Canonical(m) + rest;
      assert t == [OPEN, CLOSE] + rest;
      CutFront([OPEN, CLOSE], rest);
    } else {
      PairsStart(ps);
      PairsRoundTrip(ps, rest);
      ObjectParses(EncodePairs(ps), MarkPairs(ps), rest);
    }
  }

  lemma {:induction false} PairsStart(ps: seq<(Bytes, Bytes)>)
    requires ps != []
    ensures EncodePairs(ps) != [] && EncodePairs(ps)[0] == QUOTE
  {
  }
}
