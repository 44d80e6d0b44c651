/**
 What the hashed byte string determines: which maps share an encoding, what a JSON reader gets back,
 and how the fixed-width and length-prefixed parts of an entry come apart again.
 */
module AuditEntry {
  import opened QueueTypes
  import opened AuditEncoding
  import opened Sequences

  // ---------------------------------------------------------------- reading back

  function Unmark(ms: seq<Mark>): Bytes {
    if ms == [] then []
    else (if ms[0].Bad? then UTF8_FFFD else [ms[0].b]) + Unmark(ms[1..])
  }

  /** What decoding the JSON string yields: malformed bytes come back as U+FFFD. */
  function Sanitise(s: Bytes): Bytes {
    Unmark(Marks(s))
  }

  lemma {:induction false} UnmarkConcat(a: seq<Mark>, b: seq<Mark>)
    ensures Unmark(a + b) == Unmark(a) + Unmark(b)
    decreases |a|
  {
    if a == [] {
      assert a + b == b;
    } else {
      UnmarkConcat(a[1..], b);
      TailOfConcat(a, b);
      Regroup(if a[0].Bad? then UTF8_FFFD else [a[0].b], Unmark(a[1..]), Unmark(b));
    }
  }

  lemma {:induction false} UnmarkLits(s: Bytes)
    ensures Unmark(Lits(s)) == s
  {
    if s != [] {
      UnmarkLits(s[1..]);
      assert Lits(s)[1..] == Lits(s[1..]);
      assert s == [s[0]] + s[1..];
    }
  }

  lemma LitsNotBad(s: Bytes)
    ensures Bad !in Lits(s)
  {
  }

  lemma {:induction false} FrontMark(s: Bytes)
    requires s != []
    ensures Marks(s) != [] && Marks(s)[0] == if RuneSize(s) == 0 then Bad else Lit(s[0])
  {
    if RuneSize(s) != 0 { assert Lits(s[..RuneSize(s)])[0] == Lit(s[0]); }
  }

  lemma {:induction false} WellFormedFront(s: Bytes) returns (n: nat)
    requires WellFormed(s) && s != []
    ensures 0 < n <= |s| && Marks(s) == Lits(s[..n]) + Marks(s[n..]) && WellFormed(s[n..])
  {
    n := RuneSize(s);
    FrontMark(s);
  }

  lemma {:induction false} UnmarkFront(s: Bytes, n: nat, ms: seq<Mark>)
    requires n <= |s| && Unmark(ms) == s[n..]
    ensures Unmark(Lits(s[..n]) + ms) == s
  {
    UnmarkConcat(Lits(s[..n]), ms);
    UnmarkLits(s[..n]);
    assert s[..n] + s[n..] == s;
  }

  lemma {:induction false} SanitiseWellFormed(s: Bytes)
    requires WellFormed(s)
    ensures Sanitise(s) == s
    decreases |s|
  {
    if s != [] {
      var n := WellFormedFront(s);
      SanitiseWellFormed(s[n..]);
      UnmarkFront(s, n, Marks(s[n..]));
    }
  }

  /** A well-formed sequence is recognised whatever follows it. */
  lemma {:induction false} MarksOfRune(c: Bytes, t: Bytes)
    requires c != [] && RuneSize(c) == |c|
    ensures Marks(c + t) == Lits(c) + Marks(t)
  {
    var s := c + t;
    assert RuneSize(s) == |c|;
    assert s[..|c|] == c && s[|c|..] == t;
  }

  lemma {:induction false} SanitiseIsWellFormed(s: Bytes)
    ensures WellFormed(Sanitise(s))
    decreases |s|
  {
    if s != [] {
      var n := Step(s);
      SanitiseIsWellFormed(s[n..]);
      if RuneSize(s) == 0 {
        UnmarkConcat([Bad], Marks(s[1..]));
        assert Unmark([Bad]) == UTF8_FFFD;
        MarksOfRune(UTF8_FFFD, Sanitise(s[1..]));
        LitsNotBad(UTF8_FFFD);
      } else {
        var c := s[..n];
        UnmarkConcat(Lits(c), Marks(s[n..]));
        UnmarkLits(c);
        assert RuneSize(c) == |c|;
        MarksOfRune(c, Sanitise(s[n..]));
        LitsNotBad(c);
      }
    }
  }

  // ---------------------------------------------------------------- which strings collide

  lemma {:induction false} LitsInjective(a: Bytes, b: Bytes)
    requires |a| <= |b| && Lits(a) <= Lits(b)
    ensures a <= b
  {
    if a != [] {
      assert Lits(a)[0] == Lits(b)[0];
      assert Lits(a)[1..] <= Lits(b)[1..];
      LitsInjective(a[1..], b[1..]);
      assert a == [a[0]] + a[1..] && b == [b[0]] + b[1..];
    }
  }

  lemma LitsLength(a: Bytes)
    ensures |Lits(a)| == |a|
  {
  }

  /** Equal marks start with the same sequence. */
  lemma {:induction false} SameFront(s: Bytes, t: Bytes)
    requires s != [] && Marks(s) == Marks(t)
    ensures t != [] && RuneSize(s) == RuneSize(t)
    ensures RuneSize(s) != 0 ==> s[..RuneSize(s)] == t[..RuneSize(t)]
    ensures Marks(s[Step(s)..]) == Marks(t[Step(t)..])
  {
    FrontMark(s);
    assert t != [];
    FrontMark(t);
    var n, m := RuneSize(s), RuneSize(t);
    LitsLength(s[..n]);
    LitsLength(t[..m]);
    if n == 0 {
      assert Marks(s)[1..] == Marks(t)[1..];
    } else {
      assert n == m;
      assert Lits(s[..n]) == Marks(s)[..n] && Lits(t[..n]) == Marks(t)[..n];
      LitsInjective(s[..n], t[..n]);
      assert Marks(s[n..]) == Marks(s)[n..] && Marks(t[n..]) == Marks(t)[n..];
    }
  }

  lemma {:induction false} MarksDetermineBody(s: Bytes, t: Bytes)
    requires Marks(s) == Marks(t)
    ensures EncodeBody(s) == EncodeBody(t)
    decreases |s|
  {
    if s == [] {
      if t != [] { SameFront(t, s); }
    } else {
      SameFront(s, t);
      MarksDetermineBody(s[Step(s)..], t[Step(t)..]);
      if RuneSize(s) != 0 { assert s[..1] == s[..RuneSize(s)][..1] == t[..1]; }
      assert Chunk(s) == Chunk(t);
    }
  }

  /** Two strings have one encoding exactly when they differ in nothing but the values of malformed bytes. */
  lemma {:induction false} StringCollision(s: Bytes, t: Bytes)
    ensures EncodeString(s) == EncodeString(t) <==> Marks(s) == Marks(t)
  {
    StringRoundTrip(s, []);
    StringRoundTrip(t, []);
    if Marks(s) == Marks(t) { MarksDetermineBody(s, t); }
    assert EncodeString(s) + [] == EncodeString(s) && EncodeString(t) + [] == EncodeString(t);
  }

  /** Such strings exist: two different malformed bytes. */
  lemma {:induction false} MalformedBytesCollide()
    ensures EncodeString([0xFF]) == EncodeString([0xFE])
  {
    assert Marks([0xFF]) == [Bad] && Marks([0xFE]) == [Bad];
    StringCollision([0xFF], [0xFE]);
  }

  // ---------------------------------------------------------------- which maps collide

  ghost predicate WellFormedMap(m: PayloadMap) {
    forall k :: k in m ==> WellFormed(k) && WellFormed(m[k])
  }

  lemma {:induction false} PairsRestored(a: seq<(Bytes, Bytes)>, b: seq<(Bytes, Bytes)>)
    requires MarkPairs(a) == MarkPairs(b)
    ensures EncodePairs(a) == EncodePairs(b)
  {
    if a != [] && b != [] {
      StringCollision(a[0].0, b[0].0);
      StringCollision(a[0].1, b[0].1);
      assert MarkPairs(a)[1..] == MarkPairs(a[1..]) && MarkPairs(b)[1..] == MarkPairs(b[1..]);
      PairsRestored(a[1..], b[1..]);
      MarkPairsLength(a);
      MarkPairsLength(b);
    }
  }

  lemma MarkPairsLength(a: seq<(Bytes, Bytes)>)
    ensures |MarkPairs(a)| == |a|
  {
  }

  /** Two payloads have one canonical form exactly when their sorted members have the same marks. */
  lemma {:induction false} CanonicalCollision(m: PayloadMap, o: PayloadMap)
    ensures Canonical(m) == Canonical(o) <==> MarkPairs(Pairs(m)) == MarkPairs(Pairs(o))
  {
    ObjectRoundTrip(m, []);
    ObjectRoundTrip(o, []);
    assert Canonical(m) + [] == Canonical(m) && Canonical(o) + [] == Canonical(o);
    if MarkPairs(Pairs(m)) == MarkPairs(Pairs(o)) { PairsRestored(Pairs(m), Pairs(o)); }
  }

  // ---------------------------------------------------------------- decoding a payload

  /** Members in file order, a later one replacing an earlier one of the same key. */
  function ToMap(ps: seq<MarkPair>): PayloadMap {
    if ps == [] then map[]
    else ToMap(ps[..|ps| - 1])[Unmark(ps[|ps| - 1].0) := Unmark(ps[|ps| - 1].1)]
  }

  /** Of members that read back to one key the last in the file counts. */
  lemma {:induction false} LastMemberCounts(ps: seq<MarkPair>, i: nat)
    requires i < |ps| && forall j :: i < j < |ps| ==> Unmark(ps[j].0) != Unmark(ps[i].0)
    ensures Unmark(ps[i].0) in ToMap(ps) && ToMap(ps)[Unmark(ps[i].0)] == Unmark(ps[i].1)
  {
    if i < |ps| - 1 { LastMemberCounts(ps[..|ps| - 1], i); }
  }

  /** And nothing else is read. */
  lemma {:induction false} OnlyMembersCount(ps: seq<MarkPair>, k: Bytes)
    requires k in ToMap(ps)
    ensures exists i :: 0 <= i < |ps| && Unmark(ps[i].0) == k
  {
    var n := |ps| - 1;
    if Unmark(ps[n].0) != k {
      OnlyMembersCount(ps[..n], k);
      var i :| 0 <= i < n && Unmark(ps[..n][i].0) == k;
      assert Unmark(ps[i].0) == k;
    }
  }

  function DecodeObject(t: Bytes): Option<PayloadMap> {
    match ParseObject(t)
    case Some(p) => if p.rest == [] then Some(ToMap(p.value)) else None
    case None => None
  }

  /** The payload a reader of the log gets for a payload m that was written. */
  function ReadBack(m: PayloadMap): PayloadMap {
    ToMap(MarkPairs(Pairs(m)))
  }

  /** Decoding the canonical object. */
  lemma {:induction false} DecodeCanonical(m: PayloadMap)
    ensures DecodeObject(Canonical(m)) == Some(ReadBack(m))
  {
    ObjectRoundTrip(m, []);
    assert Canonical(m) + [] == Canonical(m);
  }

  lemma {:induction false} PairsOfSnoc(m: PayloadMap, ks: seq<Bytes>, k: Bytes)
    requires forall o :: o in ks + [k] ==> o in m
    ensures (forall o :: o in ks ==> o in m) && k in m
    ensures PairsOf(m, ks + [k]) == PairsOf(m, ks) + [(k, m[k])]
  {
    assert forall o :: o in ks ==> o in ks + [k];
    assert k in ks + [k];
    if ks == [] {
      assert ks + [k] == [k];
      assert PairsOf(m, [k]) == [(k, m[k])];
    } else {
      assert (ks + [k])[1..] == ks[1..] + [k];
      PairsOfSnoc(m, ks[1..], k);
    }
  }

  lemma {:induction false} MarkPairsSnoc(ps: seq<(Bytes, Bytes)>, p: (Bytes, Bytes))
    ensures MarkPairs(ps + [p]) == MarkPairs(ps) + [(Marks(p.0), Marks(p.1))]
  {
    if ps == [] {
      assert ps + [p] == [p];
      assert MarkPairs([p]) == [(Marks(p.0), Marks(p.1))];
    } else {
      assert (ps + [p])[1..] == ps[1..] + [p];
      MarkPairsSnoc(ps[1..], p);
    }
  }

  ghost function MarkedUpTo(m: PayloadMap, ks: seq<Bytes>): seq<MarkPair>
    requires forall k :: k in ks ==> k in m
  {
    MarkPairs(PairsOf(m, ks))
  }

  lemma {:induction false} ToMapSnoc(m: PayloadMap, ks: seq<Bytes>, k: Bytes)
    requires forall o :: o in ks + [k] ==> o in m
    ensures (forall o :: o in ks ==> o in m) && k in m
    ensures ToMap(MarkedUpTo(m, ks + [k])) == ToMap(MarkedUpTo(m, ks))[Sanitise(k) := Sanitise(m[k])]
  {
    PairsOfSnoc(m, ks, k);
    MarkPairsSnoc(PairsOf(m, ks), (k, m[k]));
    var ps := MarkedUpTo(m, ks);
    var q := (Marks(k), Marks(m[k]));
    assert (ps + [q])[..|ps + [q]| - 1] == ps;
  }

  lemma {:induction false} RestrictSnoc(m: PayloadMap, ks: seq<Bytes>, k: Bytes)
    requires k in m
    ensures (map x | x in m && x in ks + [k] :: m[x]) == (map x | x in m && x in ks :: m[x])[k := m[k]]
  {
    assert forall x :: x in ks + [k] <==> x in ks || x == k;
  }

  /** Reading back the members of well-formed keys ks restores exactly those members. */
  lemma {:induction false} RestoresKeys(m: PayloadMap, ks: seq<Bytes>)
    requires WellFormedMap(m) && forall k :: k in ks ==> k in m
    ensures ToMap(MarkedUpTo(m, ks)) == map k | k in m && k in ks :: m[k]
    decreases |ks|
  {
    if ks != [] {
      var n := |ks| - 1;
      var init, k := ks[..n], ks[n];
      assert ks == init + [k];
      RestoresKeys(m, init);
      ToMapSnoc(m, init, k);
      SanitiseWellFormed(k);
      SanitiseWellFormed(m[k]);
      RestrictSnoc(m, init, k);
    }
  }

  /** A well-formed payload survives the round trip through its canonical form. */
  lemma {:induction false} ReadBackWellFormed(m: PayloadMap)
    requires WellFormedMap(m)
    ensures ReadBack(m) == m
  {
    RestoresKeys(m, SortedKeys(m.Keys));
  }

  lemma {:induction false} ReadsWellFormed(m: PayloadMap, ks: seq<Bytes>)
    requires forall k :: k in ks ==> k in m
    ensures WellFormedMap(ToMap(MarkedUpTo(m, ks)))
    decreases |ks|
  {
    if ks != [] {
      var n := |ks| - 1;
      assert ks == ks[..n] + [ks[n]];
      ReadsWellFormed(m, ks[..n]);
      ToMapSnoc(m, ks[..n], ks[n]);
      SanitiseIsWellFormed(ks[n]);
      SanitiseIsWellFormed(m[ks[n]]);
    }
  }

  /** Whatever was written, what is read back is well-formed. */
  lemma {:induction false} ReadBackIsWellFormed(m: PayloadMap)
    ensures WellFormedMap(ReadBack(m))
  {
    ReadsWellFormed(m, SortedKeys(m.Keys));
  }

  ghost predicate CleanPairs(ps: seq<MarkPair>) {
    ps == [] || (Bad !in ps[0].0 && Bad !in ps[0].1 && CleanPairs(ps[1..]))
  }

  lemma {:induction false} MarkedFirst(m: PayloadMap, ks: seq<Bytes>)
    requires ks != [] && forall k :: k in ks ==> k in m
    ensures MarkedUpTo(m, ks) == [(Marks(ks[0]), Marks(m[ks[0]]))] + MarkedUpTo(m, ks[1..])
  {
    var p := (ks[0], m[ks[0]]);
    CutFront([p], PairsOf(m, ks[1..]));
  }

  lemma {:induction false} CleanCons(p: MarkPair, ps: seq<MarkPair>)
    ensures CleanPairs([p] + ps) <==> Bad !in p.0 && Bad !in p.1 && CleanPairs(ps)
  {
    CutFront([p], ps);
  }

  ghost predicate GoodMember(m: PayloadMap, k: Bytes) {
    k in m && WellFormed(k) && WellFormed(m[k])
  }

  lemma {:induction false} GoodMembers(m: PayloadMap, ks: seq<Bytes>)
    requires ks != []
    ensures (forall k :: k in ks ==> GoodMember(m, k)) <==>
      GoodMember(m, ks[0]) && forall k :: k in ks[1..] ==> GoodMember(m, k)
  {
    HeadAndTail(ks);
    assert forall k :: k in ks <==> k == ks[0] || k in ks[1..];
  }

  lemma {:induction false} CleanPairsOf(m: PayloadMap, ks: seq<Bytes>)
    requires forall k :: k in ks ==> k in m
    ensures CleanPairs(MarkedUpTo(m, ks)) <==> forall k :: k in ks ==> GoodMember(m, k)
  {
    if ks != [] {
      assert ks[0] in m;
      CleanPairsOf(m, ks[1..]);
      MarkedFirst(m, ks);
      CleanCons((Marks(ks[0]), Marks(m[ks[0]])), MarkedUpTo(m, ks[1..]));
      GoodMembers(m, ks);
    }
  }

  lemma {:induction false} AllGood(m: PayloadMap)
    ensures WellFormedMap(m) <==> forall k :: k in SortedKeys(m.Keys) ==> GoodMember(m, k)
  {
    if forall k :: k in SortedKeys(m.Keys) ==> GoodMember(m, k) {
      forall k | k in m
        ensures WellFormed(k) && WellFormed(m[k])
      {
        assert k in SortedKeys(m.Keys) && GoodMember(m, k);
      }
    }
  }

  /** Re-encoding what was read back gives the same bytes exactly when the payload was well-formed. */
  lemma {:induction false} ReencodesIffWellFormed(m: PayloadMap)
    ensures Canonical(ReadBack(m)) == Canonical(m) <==> WellFormedMap(m)
  {
    if WellFormedMap(m) {
      ReadBackWellFormed(m);
    } else {
      var o := ReadBack(m);
      ReadBackIsWellFormed(m);
      CanonicalCollision(o, m);
      CleanPairsOf(m, SortedKeys(m.Keys));
      CleanPairsOf(o, SortedKeys(o.Keys));
      AllGood(m);
      AllGood(o);
    }
  }

  // ---------------------------------------------------------------- fixed-width integers

  const TWO_64: nat := 0x1_0000_0000_0000_0000

  function Pow256(k: nat): (p: nat)
    ensures 0 < p
  {
    if k == 0 then 1 else 256 * Pow256(k - 1)
  }

  /** The k low-order bytes of n, most significant first. */
  function BigEndian(n: nat, k: nat): (b: Bytes)
    ensures |b| == k
  {
    if k == 0 then [] else BigEndian(n / 256, k - 1) + [n % 256]
  }

  function FromBigEndian(b: Bytes): nat {
    if b == [] then 0 else 256 * FromBigEndian(b[..|b| - 1]) + b[|b| - 1]
  }

  lemma {:induction false} Digits(n: nat, p: nat)
    requires n < 256 * p
    ensures n / 256 < p && n == 256 * (n / 256) + n % 256
  {
  }

  lemma {:induction false} FromSnoc(b: Bytes, x: byte)
    ensures FromBigEndian(b + [x]) == 256 * FromBigEndian(b) + x
  {
    assert (b + [x])[..|b|] == b;
  }

  lemma {:induction false} OneMoreByte(n: nat, k: nat, q: nat, d: byte)
    requires k > 0 && q == n / 256 && d == n % 256 && n == 256 * q + d && FromBigEndian(BigEndian(q, k - 1)) == q
    ensures FromBigEndian(BigEndian(n, k)) == n
  {
    FromSnoc(BigEndian(q, k - 1), d);
  }

  lemma {:induction false} BigEndianRoundTrip(n: nat, k: nat)
    requires n < Pow256(k)
    ensures FromBigEndian(BigEndian(n, k)) == n
  {
    if k != 0 {
      Digits(n, Pow256(k - 1));
      BigEndianRoundTrip(n / 256, k - 1);
      OneMoreByte(n, k, n / 256, n % 256);
    }
  }

  /** binary.BigEndian.PutUint64 of a uint64. */
  function Word(n: nat): Bytes {
    BigEndian(n % TWO_64, 8)
  }

  lemma {:induction false} WordRoundTrip(n: nat)
    ensures |Word(n)| == 8 && FromBigEndian(Word(n)) == n % TWO_64
  {
    assert Pow256(8) == TWO_64 by {
      assert Pow256(2) == 0x1_0000;
      assert Pow256(4) == 0x1_0000_0000;
      assert Pow256(6) == 0x1_0000_0000_0000;
    }
    BigEndianRoundTrip(n % TWO_64, 8);
  }

  // ---------------------------------------------------------------- the entry

  /** SHA-256 sums. */
  type Digest = d: Bytes | |d| == 32 witness Zeros(32)

  function Zeros(n: nat): (b: Bytes)
    ensures |b| == n
  {
    if n == 0 then [] else [0] + Zeros(n - 1)
  }

  /** The input of entryHash. */
  function EntryBytes(seqNo: nat, ts: Bytes, prev: Digest, payload: PayloadMap): Bytes {
    Layout(Word(seqNo), Word(|ts|), ts, prev, Word(|Canonical(payload)|), Canonical(payload))
  }

  function Layout(a: Bytes, b: Bytes, ts: Bytes, prev: Bytes, c: Bytes, canon: Bytes): (t: Bytes)
    ensures |t| == |a| + |b| + |ts| + |prev| + |c| + |canon|
  {
    a + b + ts + prev + c + canon
  }

  datatype Entry = Entry(seqNo: nat, ts: Bytes, prev: Digest, payload: PayloadMap)

  /** Reads an entry back from the hashed bytes. */
  function ParseEntry(t: Bytes): Option<Entry> {
    if |t| < 16 then None else
    var n := FromBigEndian(t[8..16]);
    if |t| < 16 + n + 40 then None else
    var canon := t[16 + n + 40..];
    if FromBigEndian(t[16 + n + 32..16 + n + 40]) != |canon| % TWO_64 then None else
    match DecodeObject(canon)
    case Some(m) => Some(Entry(FromBigEndian(t[..8]), t[16..16 + n], t[16 + n..16 + n + 32], m))
    case None => None
  }

  lemma {:induction false} Fields(a: Bytes, b: Bytes, ts: Bytes, prev: Bytes, c: Bytes, canon: Bytes)
    requires |a| == |b| == |c| == 8 && |prev| == 32
    ensures
      var t := Layout(a, b, ts, prev, c, canon);
      var n := |ts|;
      && |t| == 56 + n + |canon|
      && t[..8] == a && t[8..16] == b && t[16..16 + n] == ts && t[16 + n..16 + n + 32] == prev
      && t[16 + n + 32..16 + n + 40] == c && t[16 + n + 40..] == canon
  {
  }

  lemma {:induction false} ParsedFields(a: Bytes, b: Bytes, ts: Bytes, prev: Digest, c: Bytes, canon: Bytes, m: PayloadMap)
    requires |a| == |b| == |c| == 8
    requires FromBigEndian(b) == |ts| && FromBigEndian(c) == |canon| % TWO_64
    requires DecodeObject(canon) == Some(m)
    ensures ParseEntry(Layout(a, b, ts, prev, c, canon)) == Some(Entry(FromBigEndian(a), ts, prev, m))
  {
    Fields(a, b, ts, prev, c, canon);
  }

  /** The hashed bytes give back sequence number, timestamp, previous hash and payload. */
  lemma {:induction false} EntryRoundTrip(e: Entry)
    requires e.seqNo < TWO_64 && |e.ts| < TWO_64 && WellFormedMap(e.payload)
    ensures ParseEntry(EntryBytes(e.seqNo, e.ts, e.prev, e.payload)) == Some(e)
  {
    DecodeCanonical(e.payload);
    ReadBackWellFormed(e.payload);
    var canon := Canonical(e.payload);
    WordsRead(e, canon);
    SmallWord(e.seqNo);
    ParsedFields(Word(e.seqNo), Word(|e.ts|), e.ts, e.prev, Word(|canon|), canon, e.payload);
  }

  lemma {:induction false} SameFields(a: Bytes, b: Bytes, ts: Bytes, prev: Digest, c: Bytes, canon: Bytes,
                   a': Bytes, b': Bytes, ts': Bytes, prev': Digest, c': Bytes, canon': Bytes)
    requires |a| == |b| == |c| == |a'| == |b'| == |c'| == 8
    requires FromBigEndian(b) == |ts| && FromBigEndian(b') == |ts'|
    requires Layout(a, b, ts, prev, c, canon) == Layout(a', b', ts', prev', c', canon')
    ensures a == a' && ts == ts' && prev == prev' && canon == canon'
  {
    Fields(a, b, ts, prev, c, canon);
    Fields(a', b', ts', prev', c', canon');
  }

  lemma {:induction false} LayoutDetermines(x: Entry, cx: Bytes, a: Bytes, b: Bytes, c: Bytes,
                                            y: Entry, cy: Bytes, a': Bytes, b': Bytes, c': Bytes)
    requires |a| == |b| == |c| == |a'| == |b'| == |c'| == 8
    requires FromBigEndian(a) == x.seqNo % TWO_64 && FromBigEndian(a') == y.seqNo % TWO_64
    requires FromBigEndian(b) == |x.ts| && FromBigEndian(b') == |y.ts|
    requires Layout(a, b, x.ts, x.prev, c, cx) == Layout(a', b', y.ts, y.prev, c', cy)
    ensures x.seqNo % TWO_64 == y.seqNo % TWO_64 && x.ts == y.ts && x.prev == y.prev && cx == cy
  {
    SameFields(a, b, x.ts, x.prev, c, cx, a', b', y.ts, y.prev, c', cy);
  }

  lemma {:induction false} SmallWord(n: nat)
    requires n < TWO_64
    ensures |Word(n)| == 8 && FromBigEndian(Word(n)) == n
  {
    WordRoundTrip(n);
  }

  lemma {:induction false} WordsRead(x: Entry, cx: Bytes)
    requires |x.ts| < TWO_64
    ensures |Word(x.seqNo)| == |Word(|x.ts|)| == |Word(|cx|)| == 8
    ensures FromBigEndian(Word(x.seqNo)) == x.seqNo % TWO_64 && FromBigEndian(Word(|x.ts|)) == |x.ts|
    ensures FromBigEndian(Word(|cx|)) == |cx| % TWO_64
  {
    WordRoundTrip(x.seqNo);
    WordRoundTrip(|cx|);
    SmallWord(|x.ts|);
  }

  /** Equal hashed bytes mean equal fields; the payloads agree up to their canonical form. */
  lemma {:induction false} EntryBytesDetermine(x: Entry, y: Entry)
    requires |x.ts| < TWO_64 && |y.ts| < TWO_64
    requires EntryBytes(x.seqNo, x.ts, x.prev, x.payload) == EntryBytes(y.seqNo, y.ts, y.prev, y.payload)
    ensures x.seqNo % TWO_64 == y.seqNo % TWO_64 && x.ts == y.ts && x.prev == y.prev
    ensures Canonical(x.payload) == Canonical(y.payload)
  {
    var cx, cy := Canonical(x.payload), Canonical(y.payload);
    WordsRead(x, cx);
    WordsRead(y, cy);
    LayoutDetermines(x, cx, Word(x.seqNo), Word(|x.ts|), Word(|cx|), y, cy, Word(y.seqNo), Word(|y.ts|), Word(|cy|));
  }

  /** On well-formed payloads the canonical form is injective. */
  lemma {:induction false} CanonicalInjective(m: PayloadMap, o: PayloadMap)
    requires WellFormedMap(m) && WellFormedMap(o) && Canonical(m) == Canonical(o)
    ensures m == o
  {
    DecodeCanonical(m);
    DecodeCanonical(o);
    ReadBackWellFormed(m);
    ReadBackWellFormed(o);
  }
}
