/**
 Which of the many JSON texts of a payload is the one that is hashed: the shortest, with its members in byte order.
 RFC 8785, section 3.2.2.2, asks for minimal escaping; the line separators U+2028 and U+2029 are the exception.
 */
module AuditMinimal {
  import opened QueueTypes
  import opened Sequences
  import opened AuditEncoding

  // ---------------------------------------------------------------- text that is copied

  /** How often s holds U+2028 or U+2029. */
  function Separators(s: Bytes): nat {
    if s == [] then 0
    else (if RuneSize(s) == 3 && (s[..3] == [0xE2, 0x80, 0xA8] || s[..3] == [0xE2, 0x80, 0xA9]) then 1 else 0)
         + Separators(s[Step(s)..])
  }

  /** Bytes a JSON string may hold as they are: no control character, quote or backslash. */
  predicate Printable(s: Bytes) {
    forall k :: 0 <= k < |s| ==> 0x20 <= s[k] && s[k] != 0x22 && s[k] != 0x5C
  }

  lemma {:induction false} WellFormedStep(s: Bytes)
    requires WellFormed(s) && s != []
    ensures RuneSize(s) > 0 && Step(s) == RuneSize(s) && WellFormed(s[RuneSize(s)..])
  {
  }

  lemma {:induction false} BodyIsCopied(s: Bytes)
    requires WellFormed(s) && Printable(s) && Separators(s) == 0
    ensures EncodeBody(s) == s
    decreases |s|
  {
    if s != [] {
      var n := RuneSize(s);
      WellFormedStep(s);
      BodyIsCopied(s[n..]);
      assert s[..1] == [s[0]] && s[..n] + s[n..] == s;
    }
  }

  /** Well-formed text without control characters, quotes, backslashes and line separators is hashed as it is:
      angle brackets and ampersands are not escaped. */
  lemma {:induction false} PlainTextIsCopied(s: Bytes)
    requires WellFormed(s) && Printable(s) && Separators(s) == 0
    ensures EncodeString(s) == [0x22] + s + [0x22]
  {
    BodyIsCopied(s);
  }

  lemma {:induction false} AsciiIsPlain(s: Bytes)
    requires forall k :: 0 <= k < |s| ==> s[k] < 0x80
    ensures WellFormed(s) && Separators(s) == 0
    decreases |s|
  {
    if s != [] {
      AsciiIsPlain(s[1..]);
      assert RuneSize(s) == 1 && Lits(s[..1]) == [Lit(s[0])];
    }
  }

  /** In particular every string over the printable ASCII characters other than quote and backslash. */
  lemma {:induction false} AsciiIsCopied(s: Bytes)
    requires forall k :: 0 <= k < |s| ==> 0x20 <= s[k] < 0x80 && s[k] != 0x22 && s[k] != 0x5C
    ensures EncodeString(s) == [0x22] + s + [0x22]
  {
    AsciiIsPlain(s);
    PlainTextIsCopied(s);
  }

  lemma {:induction false} OneByte(b: byte)
    requires b < 0x80
    ensures EncodeString([b]) == [0x22] + Chunk([b]) + [0x22]
  {
    assert [b][1..] == [] && EncodeBody([]) == [];
    assert Chunk([b]) + [] == Chunk([b]);
  }

  /** The escapes of RFC 8785, one by one: two characters where JSON has such an escape, lower-case hex otherwise. */
  lemma {:induction false} EscapesByTable(b: byte)
    requires b < 0x20 || b == 0x22 || b == 0x5C
    ensures EncodeString([b]) ==
      if b == 0x22 || b == 0x5C then [0x22, 0x5C, b, 0x22]
      else if b == 0x08 then [0x22, 0x5C, 'b' as int, 0x22]
      else if b == 0x09 then [0x22, 0x5C, 't' as int, 0x22]
      else if b == 0x0A then [0x22, 0x5C, 'n' as int, 0x22]
      else if b == 0x0C then [0x22, 0x5C, 'f' as int, 0x22]
      else if b == 0x0D then [0x22, 0x5C, 'r' as int, 0x22]
      else [0x22, 0x5C, 'u' as int, '0' as int, '0' as int, if b < 16 then '0' as int else '1' as int,
            "0123456789abcdef"[b % 16] as int, 0x22]
  {
    OneByte(b);
    HexDigits(b % 16);
  }

  lemma {:induction false} OneRune(c: Bytes)
    requires c != [] && (RuneSize(c) == |c| || (RuneSize(c) == 0 && |c| == 1))
    ensures EncodeBody(c) == Chunk(c)
  {
    assert c[Step(c)..] == [] && EncodeBody([]) == [];
    assert Chunk(c) + [] == Chunk(c);
  }

  /** A byte that is part of no character is written \ufffd, and the line separators \u2028 and \u2029. */
  lemma {:induction false} SpecialEscapes(bad: byte)
    requires RuneSize([bad]) == 0
    ensures EncodeBody([bad]) == ['\\' as int, 'u' as int, 'f' as int, 'f' as int, 'f' as int, 'd' as int]
    ensures EncodeBody([0xE2, 0x80, 0xA8]) == ['\\' as int, 'u' as int, '2' as int, '0' as int, '2' as int, '8' as int]
    ensures EncodeBody([0xE2, 0x80, 0xA9]) == ['\\' as int, 'u' as int, '2' as int, '0' as int, '2' as int, '9' as int]
  {
    OneRune([bad]);
    OneRune([0xE2, 0x80, 0xA8]);
    OneRune([0xE2, 0x80, 0xA9]);
  }

  lemma {:induction false} HexDigits(d: nat)
    requires d < 16
    ensures HexDigit(d) == "0123456789abcdef"[d] as int
  {
  }

  /** How a byte is written does not depend on what follows. */
  lemma {:induction false} AsciiStandsAlone(b: byte, t: Bytes)
    requires b < 0x80
    ensures EncodeBody([b] + t) == EncodeBody([b]) + EncodeBody(t)
  {
    assert ([b] + t)[1..] == t && [b][1..] == [] && EncodeBody([]) == [];
    assert Chunk([b] + t) == Chunk([b]) && Chunk([b]) + [] == Chunk([b]);
  }

  // ---------------------------------------------------------------- nothing shorter reads back alike

  /** Bytes a mark takes at least. */
  function Cost(m: Mark): nat {
    match m
    case Bad => 6
    case Lit(b) =>
      if b == 0x22 || b == 0x5C || 0x08 <= b <= 0x0A || b == 0x0C || b == 0x0D then 2
      else if b < 0x20 then 6
      else 1
  }

  function Needed(ms: seq<Mark>): nat {
    if ms == [] then 0 else Cost(ms[0]) + Needed(ms[1..])
  }

  lemma {:induction false} NeededSplit(a: seq<Mark>, b: seq<Mark>)
    ensures Needed(a + b) == Needed(a) + Needed(b)
    decreases |a|
  {
    if a == [] {
      assert a + b == b;
    } else {
      assert (a + b)[1..] == a[1..] + b;
      NeededSplit(a[1..], b);
    }
  }

  lemma {:induction false} NeededOne(m: Mark)
    ensures Needed([m]) == Cost(m)
  {
    assert [m][1..] == [];
  }

  lemma {:induction false} NeededRaw(s: Bytes)
    requires forall k :: 0 <= k < |s| ==> 0x80 <= s[k]
    ensures Needed(Lits(s)) == |s|
  {
    if s != [] {
      NeededRaw(s[1..]);
      assert Lits(s)[1..] == Lits(s[1..]);
    }
  }

  lemma {:induction false} EscapeCosts(t: Bytes)
    requires t != [] && t[0] == BACKSLASH && Unescape(t).Some?
    ensures Needed(Unescape(t).value.0) <= Unescape(t).value.1 <= |t|
  {
    var (ms, n) := Unescape(t).value;
    if |ms| == 1 {
      NeededOne(ms[0]);
      assert ms == [ms[0]];
    } else {
      NeededRaw(UTF8_2028);
      NeededRaw(UTF8_2029);
    }
  }

  /** Whatever text is read, it is at least as long as its marks need. */
  lemma {:induction false} ReadingCosts(t: Bytes)
    requires ParseBody(t).Some?
    ensures |t| >= |ParseBody(t).value.rest| + 1 + Needed(ParseBody(t).value.value)
    decreases |t|
  {
    if t[0] == BACKSLASH {
      var (ms, n) := Unescape(t).value;
      EscapeCosts(t);
      ReadingCosts(t[n..]);
      NeededSplit(ms, ParseBody(t[n..]).value.value);
    } else if t[0] != QUOTE {
      ReadingCosts(t[1..]);
      NeededSplit([Lit(t[0])], ParseBody(t[1..]).value.value);
      NeededOne(Lit(t[0]));
    }
  }

  /** The encoder spends no more than that, except three bytes on every line separator. */
  lemma {:induction false} WritingCosts(s: Bytes)
    ensures |EncodeBody(s)| == Needed(Marks(s)) + 3 * Separators(s)
    decreases |s|
  {
    if s != [] {
      var n := RuneSize(s);
      WritingCosts(s[Step(s)..]);
      NeededSplit(if n == 0 then [Bad] else Lits(s[..n]), Marks(s[Step(s)..]));
      if n == 0 {
        NeededOne(Bad);
      } else if n == 1 {
        assert s[..1] == [s[0]] && Lits([s[0]]) == [Lit(s[0])];
        NeededOne(Lit(s[0]));
      } else {
        NeededRaw(s[..n]);
      }
    }
  }

  /** Reads back as s. */
  predicate Spells(t: Bytes, s: Bytes) {
    ParseString(t) == Some(Parsed(Marks(s), []))
  }

  /** No text that reads back as s is shorter than what is hashed, up to three bytes for every line separator. */
  lemma {:induction false} NothingShorter(s: Bytes, t: Bytes)
    requires Spells(t, s)
    ensures |EncodeString(s)| <= |t| + 3 * Separators(s)
  {
    ReadingCosts(t[1..]);
    WritingCosts(s);
  }

  // ---------------------------------------------------------------- and nothing else as short does

  /** The one shortest way to write a mark. */
  function Shortest(ms: seq<Mark>): Bytes {
    if ms == [] then [] else ShortestOne(ms[0]) + Shortest(ms[1..])
  }

  function ShortestOne(m: Mark): Bytes {
    if m.Bad? then ESC_FFFD else if m.b < 0x80 then EscapeAscii(m.b) else [m.b]
  }

  lemma {:induction false} ShortestOneReads(m: Mark, t: Bytes)
    ensures ParseBody(ShortestOne(m) + t) == Prepend([m], ParseBody(t))
    ensures |ShortestOne(m)| == Cost(m)
  {
    if m.Bad? {
      EscapeParses(ESC_FFFD, t);
    } else if m.b < 0x80 {
      AsciiParses(m.b, t);
    } else {
      CutFront([m.b], t);
    }
  }

  lemma {:induction false} ShortestReads(ms: seq<Mark>, rest: Bytes)
    ensures ParseBody(Shortest(ms) + ([QUOTE] + rest)) == Some(Parsed(ms, rest))
    ensures |Shortest(ms)| == Needed(ms)
  {
    var tail := [QUOTE] + rest;
    if ms == [] {
      CutFront([QUOTE], rest);
      assert Shortest(ms) + tail == tail;
    } else {
      ShortestReads(ms[1..], rest);
      Regroup(ShortestOne(ms[0]), Shortest(ms[1..]), tail);
      ShortestOneReads(ms[0], Shortest(ms[1..]) + tail);
      HeadAndTail(ms);
    }
  }

  /** An escape that wastes nothing is the escape the encoder writes. */
  lemma {:induction false} TightEscape(t: Bytes)
    requires t != [] && t[0] == BACKSLASH && Unescape(t).Some?
    requires Needed(Unescape(t).value.0) == Unescape(t).value.1 && 1 <= Unescape(t).value.1 <= |t|
    ensures t[..Unescape(t).value.1] == Shortest(Unescape(t).value.0)
  {
    var (ms, n) := Unescape(t).value;
    if |ms| == 1 {
      NeededOne(ms[0]);
      assert ms == [ms[0]] && ms[1..] == [];
      assert Shortest(ms) == ShortestOne(ms[0]) + [] == ShortestOne(ms[0]);
    } else {
      NeededRaw(UTF8_2028);
      NeededRaw(UTF8_2029);
      assert false;
    }
  }

  lemma {:induction false} ShortestSplit(a: seq<Mark>, b: seq<Mark>)
    ensures Shortest(a + b) == Shortest(a) + Shortest(b)
    decreases |a|
  {
    if a == [] {
      assert a + b == b;
    } else {
      assert (a + b)[1..] == a[1..] + b;
      ShortestSplit(a[1..], b);
      Regroup(ShortestOne(a[0]), Shortest(a[1..]), Shortest(b));
    }
  }

  lemma {:induction false} TightText(t: Bytes)
    requires ParseBody(t).Some? && |t| == |ParseBody(t).value.rest| + 1 + Needed(ParseBody(t).value.value)
    ensures t == Shortest(ParseBody(t).value.value) + ([QUOTE] + ParseBody(t).value.rest)
    decreases |t|
  {
    if t[0] == QUOTE {
      assert t == [QUOTE] + t[1..];
    } else if t[0] == BACKSLASH {
      var (ms, n) := Unescape(t).value;
      EscapeCosts(t);
      ReadingCosts(t[n..]);
      NeededSplit(ms, ParseBody(t[n..]).value.value);
      TightEscape(t);
      TightText(t[n..]);
      TightStep(t, n, ms);
    } else {
      ReadingCosts(t[1..]);
      NeededSplit([Lit(t[0])], ParseBody(t[1..]).value.value);
      NeededOne(Lit(t[0]));
      TightText(t[1..]);
      assert t[..1] == [t[0]] && Shortest([Lit(t[0])]) == ShortestOne(Lit(t[0])) + [];
      TightStep(t, 1, [Lit(t[0])]);
    }
  }

  lemma {:induction false} TightStep(t: Bytes, n: nat, ms: seq<Mark>)
    requires n <= |t| && ParseBody(t[n..]).Some? && t[..n] == Shortest(ms)
    requires var p := ParseBody(t[n..]).value; t[n..] == Shortest(p.value) + ([QUOTE] + p.rest)
    ensures var p := ParseBody(t[n..]).value; t == Shortest(ms + p.value) + ([QUOTE] + p.rest)
  {
    var p := ParseBody(t[n..]).value;
    ShortestSplit(ms, p.value);
    Regroup(Shortest(ms), Shortest(p.value), [QUOTE] + p.rest);
    assert t == t[..n] + t[n..];
  }

  /** Without line separators the text that is hashed is the only one of its length that reads back as s. */
  lemma {:induction false} ShortestIsUnique(s: Bytes, t: Bytes)
    requires Separators(s) == 0 && Spells(t, s) && |t| <= |EncodeString(s)|
    ensures t == EncodeString(s)
  {
    StringRoundTrip(s, []);
    assert EncodeString(s) + [] == EncodeString(s);
    NothingShorter(s, t);
    WritingCosts(s);
    TightText(t[1..]);
    TightText(EncodeString(s)[1..]);
    assert t == [QUOTE] + t[1..];
  }

  /** With line separators there is a shorter one. */
  lemma {:induction false} ShorterExists(s: Bytes) returns (t: Bytes)
    ensures Spells(t, s) && |t| + 3 * Separators(s) == |EncodeString(s)|
  {
    var body := Shortest(Marks(s)) + [QUOTE];
    t := [QUOTE] + body;
    ShortestReads(Marks(s), []);
    assert [QUOTE] + [] == [QUOTE];
    CutFront([QUOTE], body);
    WritingCosts(s);
  }

  /** The encoding is the shortest text that reads back as s exactly when s holds no line separator. */
  lemma {:induction false} ShortestIff(s: Bytes)
    ensures (forall t :: Spells(t, s) ==> |EncodeString(s)| <= |t|) <==> Separators(s) == 0
  {
    if Separators(s) == 0 {
      forall t | Spells(t, s)
        ensures |EncodeString(s)| <= |t|
      {
        NothingShorter(s, t);
      }
    } else {
      var t := ShorterExists(s);
      assert Spells(t, s);
    }
  }

  // ---------------------------------------------------------------- members

  /** Keys stand in byte order: a proper prefix first, else by the first byte that differs. */
  lemma {:induction false} KeyOrder(a: Bytes, b: Bytes)
    ensures Leq(a, b) <==> a <= b || exists k :: 0 <= k < |a| && k < |b| && a[..k] == b[..k] && a[k] < b[k]
  {
    if a != [] && b != [] {
      if a[0] == b[0] {
        KeyOrder(a[1..], b[1..]);
        assert a <= b <==> a[1..] <= b[1..];
        DiffersLater(a, b);
      } else if a[0] < b[0] {
        assert a[..0] == b[..0];
      }
    }
  }

  lemma {:induction false} DiffersLater(a: Bytes, b: Bytes)
    requires a != [] && b != [] && a[0] == b[0]
    ensures (exists k :: 0 <= k < |a| && k < |b| && a[..k] == b[..k] && a[k] < b[k]) <==>
      (exists k :: 0 <= k < |a[1..]| && k < |b[1..]| && a[1..][..k] == b[1..][..k] && a[1..][k] < b[1..][k])
  {
    if k :| 0 <= k < |a| && k < |b| && a[..k] == b[..k] && a[k] < b[k] {
      assert a[1..][..k - 1] == a[..k][1..] && b[1..][..k - 1] == b[..k][1..];
      assert a[1..][k - 1] < b[1..][k - 1];
    }
    if k :| 0 <= k < |a[1..]| && k < |b[1..]| && a[1..][..k] == b[1..][..k] && a[1..][k] < b[1..][k] {
      assert a[..k + 1] == [a[0]] + a[1..][..k] && b[..k + 1] == [b[0]] + b[1..][..k];
      assert a[k + 1] < b[k + 1];
    }
  }

  /** The text of an object: braces around members in key order, a colon and commas, no spaces. */
  lemma {:induction false} ObjectText(k: Bytes, v: Bytes, l: Bytes, w: Bytes)
    requires Leq(k, l) && k != l
    ensures Canonical(map[]) == ['{' as int, '}' as int]
    ensures Canonical(map[k := v]) == ['{' as int] + EncodeString(k) + [':' as int] + EncodeString(v) + ['}' as int]
    ensures Canonical(map[l := w, k := v]) ==
      ['{' as int] + EncodeString(k) + [':' as int] + EncodeString(v) + [',' as int]
      + EncodeString(l) + [':' as int] + EncodeString(w) + ['}' as int]
  {
    SortedKeysUnique({}, []);
    assert Canonical(map[]) == [OPEN] + [] + [CLOSE];
    OneMember(k, v);
    OneMemberText(EncodeString(k), EncodeString(v), [OPEN], [COLON], [CLOSE]);
    TwoMembers(k, v, l, w);
    TwoMembersText(EncodeString(k), EncodeString(v), EncodeString(l), EncodeString(w), [OPEN], [COLON], [COMMA], [CLOSE]);
  }

  lemma {:induction false} OneMember(k: Bytes, v: Bytes)
    ensures Pairs(map[k := v]) == [(k, v)]
  {
    SortedKeysUnique({k}, [k]);
    assert (map[k := v]).Keys == {k};
    assert [k][1..] == [] && PairsOf(map[k := v], []) == [];
  }

  lemma {:induction false} TwoMembers(k: Bytes, v: Bytes, l: Bytes, w: Bytes)
    requires Leq(k, l) && k != l
    ensures Pairs(map[l := w, k := v]) == [(k, v), (l, w)]
    ensures EncodePairs([(k, v), (l, w)]) == EncodePair((k, v)) + [COMMA] + EncodePair((l, w))
  {
    var m: PayloadMap := map[l := w, k := v];
    SortedKeysUnique({k, l}, [k, l]);
    assert m.Keys == {k, l};
    assert [k, l][1..] == [l] && [l][1..] == [] && PairsOf(m, []) == [];
    assert PairsOf(m, [l]) == [(l, w)];
    assert [(k, v), (l, w)][1..] == [(l, w)];
  }

  lemma {:induction false} OneMemberText(a: Bytes, b: Bytes, open: Bytes, colon: Bytes, close: Bytes)
    ensures open + (a + colon + b) + close == open + a + colon + b + close
  {
  }

  lemma {:induction false} TwoMembersText(a: Bytes, b: Bytes, c: Bytes, d: Bytes,
                                          open: Bytes, colon: Bytes, comma: Bytes, close: Bytes)
    ensures open + ((a + colon + b) + comma + (c + colon + d)) + close
         == open + a + colon + b + comma + c + colon + d + close
  {
    OneMemberText(a, b, open, colon, comma);
    OneMemberText(c, d, open + a + colon + b + comma, colon, close);
    Regroup(open, (a + colon + b) + comma, c + colon + d);
    Regroup(open, a + colon + b, comma);
  }
}
