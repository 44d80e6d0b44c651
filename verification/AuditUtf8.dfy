/**
 The decoder that decides which bytes the encoder copies is UTF-8 as RFC 3629 defines it:
 the shortest sequence of every Unicode scalar value and nothing else.
 */
module AuditUtf8 {
  import opened QueueTypes
  import opened Sequences
  import opened AuditEncoding
  import opened AuditEntry

  /** A code point that is not a surrogate. */
  predicate Scalar(c: nat) {
    c < 0xD800 || 0xE000 <= c < 0x11_0000
  }

  /** Continuation byte for the low six bits of c. */
  function Low(c: nat): byte {
    0x80 + c % 64
  }

  /** RFC 3629, section 3. */
  function Utf8(c: nat): (s: Bytes)
    requires c < 0x11_0000
  {
    if c < 0x80 then [c]
    else if c < 0x800 then [0xC0 + c / 64, Low(c)]
    else if c < 0x1_0000 then [0xE0 + c / 64 / 64, Low(c / 64), Low(c)]
    else [0xF0 + c / 64 / 64 / 64, Low(c / 64 / 64), Low(c / 64), Low(c)]
  }

  /** The replacement character and the line separators. */
  lemma {:induction false} SpecialCharacters()
    ensures UTF8_FFFD == Utf8(0xFFFD) && UTF8_2028 == Utf8(0x2028) && UTF8_2029 == Utf8(0x2029)
  {
  }

  /** What is read back of a byte that is part of no character. */
  lemma {:induction false} BadReadsAsReplacement(bad: byte)
    requires RuneSize([bad]) == 0
    ensures Sanitise([bad]) == Utf8(0xFFFD)
  {
    SpecialCharacters();
    assert [bad][1..] == [] && Marks([bad]) == [Bad];
    assert [Bad][1..] == [] && Unmark([Bad]) == UTF8_FFFD + [] == UTF8_FFFD;
  }

  lemma {:induction false} Sixes(q: nat, b: byte) returns (c: nat)
    requires 0x80 <= b <= 0xBF
    ensures c == 64 * q + (b - 0x80) && c / 64 == q && Low(c) == b
  {
    c := 64 * q + (b - 0x80);
  }

  lemma {:induction false} TwoBytes(s: Bytes) returns (c: nat)
    requires s != [] && RuneSize(s) == 2
    ensures Scalar(c) && Utf8(c) == s[..2]
  {
    c := Sixes(s[0] - 0xC0, s[1]);
  }

  lemma {:induction false} ThreeBytes(s: Bytes) returns (c: nat)
    requires s != [] && RuneSize(s) == 3
    ensures Scalar(c) && Utf8(c) == s[..3]
  {
    var d := Sixes(s[0] - 0xE0, s[1]);
    c := Sixes(d, s[2]);
  }

  lemma {:induction false} FourBytes(s: Bytes) returns (c: nat)
    requires s != [] && RuneSize(s) == 4
    ensures Scalar(c) && Utf8(c) == s[..4]
  {
    var e := Sixes(s[0] - 0xF0, s[1]);
    var d := Sixes(e, s[2]);
    c := Sixes(d, s[3]);
  }

  /** What the decoder takes is the encoding of a scalar value. */
  lemma {:induction false} RuneIsScalar(s: Bytes) returns (c: nat)
    requires s != [] && RuneSize(s) > 0
    ensures Scalar(c) && Utf8(c) == s[..RuneSize(s)]
  {
    match RuneSize(s) {
      case 1 => c := s[0];
      case 2 => c := TwoBytes(s);
      case 3 => c := ThreeBytes(s);
      case 4 => c := FourBytes(s);
    }
  }

  lemma {:induction false} ScalarIsRune(c: nat, t: Bytes)
    requires Scalar(c)
    ensures RuneSize(Utf8(c) + t) == |Utf8(c)|
  {
    var s := Utf8(c) + t;
    var d := c / 64;
    var e := d / 64;
    assert c == 64 * d + c % 64 && d == 64 * e + d % 64 && e == 64 * (e / 64) + e % 64;
  }

  /** The decoder takes n bytes exactly when they are the encoding of a scalar value. */
  lemma {:induction false} RuneExactly(s: Bytes, n: nat)
    requires s != [] && 0 < n <= |s|
    ensures RuneSize(s) == n <==> exists c :: Scalar(c) && Utf8(c) == s[..n]
  {
    if RuneSize(s) == n {
      var c := RuneIsScalar(s);
      assert Scalar(c) && Utf8(c) == s[..n];
    }
    if c :| Scalar(c) && Utf8(c) == s[..n] {
      ScalarIsRune(c, s[n..]);
      assert s[..n] + s[n..] == s;
    }
  }

  predicate Scalars(cs: seq<nat>) {
    forall k :: 0 <= k < |cs| ==> Scalar(cs[k])
  }

  function Text(cs: seq<nat>): Bytes
    requires Scalars(cs)
  {
    if cs == [] then [] else Utf8(cs[0]) + Text(cs[1..])
  }

  lemma {:induction false} TextIsWellFormed(cs: seq<nat>)
    requires Scalars(cs)
    ensures WellFormed(Text(cs))
  {
    if cs != [] {
      var c := Utf8(cs[0]);
      TextIsWellFormed(cs[1..]);
      ScalarIsRune(cs[0], []);
      assert c + [] == c;
      MarksOfRune(c, Text(cs[1..]));
      LitsNotBad(c);
    }
  }

  lemma {:induction false} WellFormedIsText(s: Bytes) returns (cs: seq<nat>)
    requires WellFormed(s)
    ensures Scalars(cs) && Text(cs) == s
    decreases |s|
  {
    if s == [] {
      cs := [];
    } else {
      var n := RuneSize(s);
      FrontMark(s);
      var c := RuneIsScalar(s);
      var more := WellFormedIsText(s[n..]);
      cs := [c] + more;
      assert cs[1..] == more && s[..n] + s[n..] == s;
    }
  }

  /** A string is well-formed exactly when it is the UTF-8 of some scalar values. */
  lemma {:induction false} WellFormedIff(s: Bytes)
    ensures WellFormed(s) <==> exists cs: seq<nat> :: Scalars(cs) && Text(cs) == s
  {
    if WellFormed(s) {
      var cs := WellFormedIsText(s);
      assert Scalars(cs) && Text(cs) == s;
    }
    if cs: seq<nat> :| Scalars(cs) && Text(cs) == s {
      TextIsWellFormed(cs);
    }
  }
}
