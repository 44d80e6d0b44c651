/** The layout of what is hashed and written, byte by byte: fixed-width numbers, entries and hexadecimal digests. */
module AuditFormat {
  import opened QueueTypes
  import opened Sequences
  import opened AuditEncoding
  import opened AuditEntry
  import opened AuditChain
  import AuditMinimal

  /** Byte i of a fixed-width number, counted from the most significant end. */
  lemma {:induction false} BigEndianAt(n: nat, k: nat, i: nat)
    requires i < k
    ensures BigEndian(n, k)[i] == n / Pow256(k - 1 - i) % 256
  {
    if i + 1 < k {
      BigEndianAt(n / 256, k - 1, i);
      DivideTwice(n, Pow256(k - 2 - i));
    }
  }

  lemma {:induction false} DivideTwice(n: nat, p: nat)
    requires p > 0
    ensures n / 256 / p == n / (256 * p)
  {
    var m := n / 256;
    SameQuotient(256 * p, n, m / p, 256 * (m % p) + n % 256);
  }

  lemma {:induction false} SameQuotient(p: nat, n: nat, q: nat, r: nat)
    requires r < p && n == p * q + r
    ensures n / p == q
  {
    var d := n / p;
    if d < q { FewerIsLess(p, d, q, n % p, r); }
    if q < d { FewerIsLess(p, q, d, r, n % p); }
  }

  lemma {:induction false} FewerIsLess(p: nat, d: nat, q: nat, e: nat, r: nat)
    requires e < p && d < q
    ensures p * d + e < p * q + r
  {
    assert p * q == p * (q - d - 1) + p * d + p;
  }

  lemma {:induction false} BigEndianLow(n: nat, k: nat)
    ensures BigEndian(n % Pow256(k), k) == BigEndian(n, k)
  {
    if k > 0 {
      var m, p := Pow256(k), Pow256(k - 1);
      var q, r := Divide(n, m);
      LowDigits(n, m, p, q, r);
      BigEndianLow(n / 256, k - 1);
      assert BigEndian(r, k) == BigEndian(r / 256, k - 1) + [r % 256];
    }
  }

  lemma {:induction false} Divide(n: nat, m: nat) returns (q: nat, r: nat)
    requires m > 0
    ensures q == n / m && r == n % m && r < m && n == m * q + r
  {
    q, r := n / m, n % m;
  }

  lemma {:induction false} LowDigits(n: nat, m: nat, p: nat, q: nat, r: nat)
    requires p > 0 && m == 256 * p && n == m * q + r && r < m
    ensures r % 256 == n % 256 && r / 256 == n / 256 % p
  {
    assert m * q == 256 * (p * q);
    ByteOf(n, p * q, r);
    SameRemainder(p, n / 256, q, r / 256);
  }

  lemma {:induction false} ByteOf(n: nat, m: nat, r: nat)
    requires n == 256 * m + r
    ensures n % 256 == r % 256 && n / 256 == m + r / 256
  {
  }

  lemma {:induction false} SameRemainder(p: nat, n: nat, q: nat, r: nat)
    requires r < p && n == p * q + r
    ensures n % p == r
  {
    SameQuotient(p, n, q, r);
  }

  lemma {:induction false} EightBytes()
    ensures Pow256(8) == 0x1_0000_0000_0000_0000
  {
    assert Pow256(2) == 0x1_0000;
    assert Pow256(4) == 0x1_0000_0000;
    assert Pow256(6) == 0x1_0000_0000_0000;
  }

  /** A word is the low 64 bits, most significant byte first. */
  lemma {:induction false} WordAt(n: nat, i: nat)
    requires i < 8
    ensures |Word(n)| == 8 && Word(n)[i] == n / Pow256(7 - i) % 256
  {
    EightBytes();
    BigEndianLow(n, 8);
    BigEndianAt(n, 8, i);
  }

  /** The eight bytes of t from `at` on spell the low 64 bits of n, most significant byte first. */
  predicate SpellsAt(t: Bytes, at: nat, n: nat) {
    at + 8 <= |t| && forall i :: at <= i < at + 8 ==> t[i] == n / Pow256(at + 7 - i) % 256
  }

  /** Sequence number, length and text of the timestamp, previous digest, length and text of the payload. */
  lemma {:induction false} EntryLayout(seqNo: nat, ts: Bytes, prev: Digest, payload: PayloadMap)
    ensures
      var t, n, canon := EntryBytes(seqNo, ts, prev, payload), |ts|, Canonical(payload);
      && |t| == 8 + 8 + n + 32 + 8 + |canon|
      && SpellsAt(t, 0, seqNo) && SpellsAt(t, 8, n)
      && t[16..16 + n] == ts && t[16 + n..48 + n] == prev
      && SpellsAt(t, 48 + n, |canon|)
      && t[56 + n..] == canon
  {
    var canon := Canonical(payload);
    var a, b, c := Word(seqNo), Word(|ts|), Word(|canon|);
    WordSpells(seqNo);
    WordSpells(|ts|);
    WordSpells(|canon|);
    WordRoundTrip(seqNo);
    WordRoundTrip(|ts|);
    WordRoundTrip(|canon|);
    Fields(a, b, ts, prev, c, canon);
    LayoutAt(a, b, ts, prev, c, canon, seqNo, |ts|, |canon|);
  }

  lemma {:induction false} WordSpells(n: nat)
    ensures SpellsAt(Word(n), 0, n)
  {
    forall i | 0 <= i < 8
      ensures |Word(n)| == 8 && Word(n)[i] == n / Pow256(7 - i) % 256
    {
      WordAt(n, i);
    }
  }

  lemma {:induction false} PartAt(w: Bytes, t: Bytes, at: nat, n: nat)
    requires |w| == 8 && at + 8 <= |t| && t[at..at + 8] == w && SpellsAt(w, 0, n)
    ensures SpellsAt(t, at, n)
  {
    forall i | at <= i < at + 8
      ensures t[i] == n / Pow256(at + 7 - i) % 256
    {
      assert t[i] == w[i - at];
    }
  }

  lemma {:induction false} LayoutAt(
      a: Bytes, b: Bytes, ts: Bytes, prev: Bytes, c: Bytes, canon: Bytes, x: nat, y: nat, z: nat)
    requires |a| == |b| == |c| == 8 && |prev| == 32 && SpellsAt(a, 0, x) && SpellsAt(b, 0, y) && SpellsAt(c, 0, z)
    ensures var t := Layout(a, b, ts, prev, c, canon);
      SpellsAt(t, 0, x) && SpellsAt(t, 8, y) && SpellsAt(t, 48 + |ts|, z)
  {
    var t := Layout(a, b, ts, prev, c, canon);
    Fields(a, b, ts, prev, c, canon);
    PartAt(a, t, 0, x);
    PartAt(b, t, 8, y);
    PartAt(c, t, 48 + |ts|, z);
  }

  // ---------------------------------------------------------------- the anchor

  /** A log contradicts its anchor exactly when the record the anchor names is missing or has another hash. A log
      without an anchor, or with one that names no record, and any log longer than its anchor says, pass. */
  lemma {:induction false} AnchorExactly(rs: seq<Record>, anchor: Option<Head>)
    ensures !AnchorOk(rs, anchor) <==>
      exists n, h :: 0 < n && anchor == Some(Head(n, h)) && (|rs| < n || rs[n - 1].entryHash != h)
  {
    if !AnchorOk(rs, anchor) {
      var n, h := anchor.value.seqNo, anchor.value.entryHash;
      assert 0 < n && anchor == Some(Head(n, h));
    }
  }

  // ---------------------------------------------------------------- digests

  /** Two lower-case digits for each byte, the high half first. */
  lemma {:induction false} HexAt(b: Bytes, i: nat)
    requires i < |b|
    ensures Hex(b)[2 * i] == "0123456789abcdef"[b[i] / 16] as int
    ensures Hex(b)[2 * i + 1] == "0123456789abcdef"[b[i] % 16] as int
  {
    if i == 0 {
      AuditMinimal.HexDigits(b[0] / 16);
      AuditMinimal.HexDigits(b[0] % 16);
    } else {
      HexAt(b[1..], i - 1);
      assert Hex(b)[2 * i] == Hex(b[1..])[2 * (i - 1)] && Hex(b)[2 * i + 1] == Hex(b[1..])[2 * (i - 1) + 1];
    }
  }

  lemma {:induction false} ZerosAt(n: nat, i: nat)
    requires i < n
    ensures Zeros(n)[i] == 0
  {
    if i > 0 { ZerosAt(n - 1, i - 1); }
  }

  lemma {:induction false} HexOfZeros(n: nat, i: nat)
    requires i < n
    ensures Hex(Zeros(n))[2 * i] == '0' as int && Hex(Zeros(n))[2 * i + 1] == '0' as int
  {
    ZerosAt(n, i);
    HexAt(Zeros(n), i);
  }

  /** The chain starts from 64 zeros. */
  lemma {:induction false} GenesisIsZero(i: nat, n: nat)
    requires n == 32 && i < n
    ensures LastHash([]) == Zeros(n)
    ensures Hex(LastHash([]))[2 * i] == '0' as int && Hex(LastHash([]))[2 * i + 1] == '0' as int
  {
    HexOfZeros(n, i);
  }
}
