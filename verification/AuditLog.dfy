/**
 The audit log file: reading, verifying and reopening it, with a hash over the encoded entry.

 The hash is an arbitrary function into 32-byte digests; results that rest on collision resistance
 name the two colliding inputs instead of assuming there are none.
 */
module AuditLog {
  import opened QueueTypes
  import opened AuditEncoding
  import opened AuditEntry
  import opened AuditChain

  type Hash = Bytes -> Digest

  /** entryHash for the hash h. */
  function Sha(h: Hash): EntrySum {
    (seqNo: nat, ts: Bytes, prev: Digest, payload: PayloadMap) => h(EntryBytes(seqNo, ts, prev, payload))
  }

  /** What decoding a written line yields. */
  function ReadRecord(r: Record): Record {
    r.(payload := ReadBack(r.payload))
  }

  function ReadRecords(rs: seq<Record>): (out: seq<Record>)
    ensures |out| == |rs|
    ensures forall i :: 0 <= i < |rs| ==> out[i] == ReadRecord(rs[i])
  {
    seq(|rs|, i requires 0 <= i < |rs| => ReadRecord(rs[i]))
  }

  /** VerifyWith, without a signature verifier. */
  method VerifyWith(e: EntrySum, file: seq<Record>, anchor: Option<Head>) returns (n: nat, v: CheckResult)
    ensures n <= |file| && ChainOk(e, ReadRecords(file)[..n])
    ensures v == Valid <==> ChainOk(e, ReadRecords(file)) && AnchorOk(ReadRecords(file), anchor)
    ensures v == Broken <==> n < |file|
    ensures v == Broken ==> !ChainOk(e, ReadRecords(file)[..n + 1])
  {
    n, v := VerifyRecords(e, ReadRecords(file), anchor);
  }

  /** Open: replays the chain and refuses a broken or truncated one. */
  method Open(e: EntrySum, disk: Disk) returns (log: Option<Log>)
    ensures log.Some? <==> ChainOk(e, ReadRecords(disk.records)) && AnchorOk(ReadRecords(disk.records), disk.head)
    ensures log.Some? ==>
              log.value.e == e && log.value.disk == disk && log.value.Memory() == Replay(ReadRecords(disk.records))
  {
    var existing := ReadRecords(disk.records);
    var m := ReplayRecords(e, existing);
    if m.None? || !AnchorOk(existing, disk.head) { return None; }
    var l := new Log(e, disk, m.value);
    log := Some(l);
  }

  // ---------------------------------------------------------------- tamper evidence

  function Input(r: Record, prev: Digest): Bytes {
    EntryBytes(r.seqNo, r.ts, prev, r.payload)
  }

  ghost predicate Collide(h: Hash, x: Bytes, y: Bytes) {
    x != y && h(x) == h(y)
  }

  ghost predicate CollisionAt(h: Hash, a: seq<Record>, b: seq<Record>, i: nat)
    requires i < |a| && i < |b|
  {
    Collide(h, Input(a[i], LastHash(a[..i])), Input(b[i], LastHash(b[..i])))
  }

  /** Different entries with one digest are a collision of the hash: the encoding told them apart. */
  lemma {:induction false} SumCollision(h: Hash, r: Record, p: Digest, r': Record, p': Digest)
    requires |r.ts| < TWO_64 && |r'.ts| < TWO_64
    requires WellFormedMap(r.payload) && WellFormedMap(r'.payload)
    requires Sum(Sha(h), r, p) == Sum(Sha(h), r', p') && r.seqNo == r'.seqNo
    requires r.ts != r'.ts || r.payload != r'.payload || p != p'
    ensures Collide(h, Input(r, p), Input(r', p'))
  {
    if Input(r, p) == Input(r', p') {
      EntryBytesDetermine(Entry(r.seqNo, r.ts, p, r.payload), Entry(r'.seqNo, r'.ts, p', r'.payload));
      CanonicalInjective(r.payload, r'.payload);
      assert false;
    }
  }

  ghost predicate ShortTimestamps(rs: seq<Record>) {
    forall i :: 0 <= i < |rs| ==> |rs[i].ts| < TWO_64
  }

  lemma {:induction false} ReadWellFormed(rs: seq<Record>, i: nat)
    requires i < |rs|
    ensures WellFormedMap(ReadRecords(rs)[i].payload)
  {
    ReadBackIsWellFormed(rs[i].payload);
  }

  lemma {:induction false} CollisionFound(h: Hash, honest: seq<Record>, file: seq<Record>, i: nat)
    requires i < |honest| && i < |file| && ShortTimestamps(honest) && ShortTimestamps(file)
    requires ChainOk(Sha(h), ReadRecords(honest)) && ChainOk(Sha(h), ReadRecords(file))
    requires SameSumAt(Sha(h), ReadRecords(honest), ReadRecords(file), i)
    ensures CollisionAt(h, ReadRecords(honest), ReadRecords(file), i)
  {
    var a, b := ReadRecords(honest), ReadRecords(file);
    ReadWellFormed(honest, i);
    ReadWellFormed(file, i);
    ChainPrefix(Sha(h), a, i + 1);
    ChainPrefix(Sha(h), b, i + 1);
    SumCollision(h, a[i], LastHash(a[..i]), b[i], LastHash(b[..i]));
  }

  /** Any file VerifyWith accepts against an anchor taken from an honest log agrees with that log in every
      field of the first n records, or exhibits a hash collision. An edit, deletion, reordering or truncation
      at or below the anchor is therefore rejected. */
  lemma {:induction false} AnchoredHistoryIsIntact(h: Hash, honest: seq<Record>, file: seq<Record>, n: nat)
    requires 0 < n <= |honest| && ChainOk(Sha(h), ReadRecords(honest))
    requires ShortTimestamps(honest) && ShortTimestamps(file)
    requires ChainOk(Sha(h), ReadRecords(file))
    requires AnchorOk(ReadRecords(file), Some(HeadOf(ReadRecords(honest)[n - 1])))
    ensures n <= |file|
    ensures ReadRecords(file)[..n] == ReadRecords(honest)[..n]
            || exists i :: 0 <= i < n && CollisionAt(h, ReadRecords(honest), ReadRecords(file), i)
  {
    var a, b := ReadRecords(honest), ReadRecords(file);
    ChainPrefix(Sha(h), a, n);
    SameHistory(Sha(h), a, b, n);
    if a[..n] != b[..n] {
      var i :| 0 <= i < n && SameSumAt(Sha(h), a, b, i);
      CollisionFound(h, honest, file, i);
    }
  }

  // ---------------------------------------------------------------- which appends can be read again

  ghost predicate AllWellFormed(rs: seq<Record>) {
    forall i :: 0 <= i < |rs| ==> WellFormedMap(rs[i].payload)
  }

  lemma {:induction false} ReadUnchanged(rs: seq<Record>)
    requires AllWellFormed(rs)
    ensures ReadRecords(rs) == rs
  {
    forall i | 0 <= i < |rs|
      ensures ReadRecords(rs)[i] == rs[i]
    {
      ReadBackWellFormed(rs[i].payload);
    }
  }

  lemma {:induction false} ReadSnoc(rs: seq<Record>, r: Record)
    ensures ReadRecords(rs + [r]) == ReadRecords(rs) + [ReadRecord(r)]
  {
  }

  lemma {:induction false} RereadLink(e: EntrySum, m: Mem, ts: Bytes, p: PayloadMap, q: PayloadMap)
    ensures RecordOk(e, MakeRecord(e, m, ts, p).(payload := q), m.seqNo + 1, m.prev) <==>
            e(m.seqNo + 1, ts, m.prev, p) == e(m.seqNo + 1, ts, m.prev, q)
  {
    var x, y := e(m.seqNo + 1, ts, m.prev, p), e(m.seqNo + 1, ts, m.prev, q);
    if Hex(x) == Hex(y) { HexInjective(x, y); }
  }

  /** Whatever gives entries their digests, an appended record can be read again exactly when the payload
      read back has the digest of the payload written. */
  lemma {:induction false} ReadableIffSameSum(e: EntrySum, rs: seq<Record>, ts: Bytes, p: PayloadMap)
    requires AllWellFormed(rs) && ChainOk(e, rs)
    ensures ChainOk(e, ReadRecords(rs + [MakeRecord(e, Replay(rs), ts, p)])) <==>
            e(|rs| + 1, ts, LastHash(rs), p) == e(|rs| + 1, ts, LastHash(rs), ReadBack(p))
  {
    RereadChain(e, rs, MakeRecord(e, Replay(rs), ts, p));
    RereadLink(e, Replay(rs), ts, p, ReadBack(p));
  }

  lemma {:induction false} RereadChain(e: EntrySum, rs: seq<Record>, r: Record)
    requires AllWellFormed(rs) && ChainOk(e, rs)
    ensures ChainOk(e, ReadRecords(rs + [r])) <==>
            RecordOk(e, r.(payload := ReadBack(r.payload)), |rs| + 1, LastHash(rs))
  {
    ReadUnchanged(rs);
    ReadSnoc(rs, r);
    ChainSnoc(e, rs, ReadRecord(r));
  }

  lemma {:induction false} SameBytesIffWellFormed(seqNo: nat, ts: Bytes, prev: Digest, p: PayloadMap)
    ensures EntryBytes(seqNo, ts, prev, p) == EntryBytes(seqNo, ts, prev, ReadBack(p)) <==> WellFormedMap(p)
  {
    ReencodesIffWellFormed(p);
    if WellFormedMap(p) {
      ReadBackWellFormed(p);
    } else {
      DifferentCanonical(seqNo, ts, prev, p, ReadBack(p));
    }
  }

  /** After appending p to a sound log the chain can be read again exactly when p is well-formed UTF-8, or
      the hash happens to collide on what was hashed and what is read back. */
  lemma {:induction false} ReadableIffWellFormed(h: Hash, rs: seq<Record>, ts: Bytes, p: PayloadMap)
    requires AllWellFormed(rs) && ChainOk(Sha(h), rs)
    ensures ChainOk(Sha(h), ReadRecords(rs + [MakeRecord(Sha(h), Replay(rs), ts, p)])) <==>
            WellFormedMap(p) || Collide(h, EntryBytes(|rs| + 1, ts, LastHash(rs), p),
                                           EntryBytes(|rs| + 1, ts, LastHash(rs), ReadBack(p)))
  {
    ReadableIffSameSum(Sha(h), rs, ts, p);
    SameBytesIffWellFormed(|rs| + 1, ts, LastHash(rs), p);
  }

  lemma {:induction false} DifferentCanonical(seqNo: nat, ts: Bytes, prev: Digest, p: PayloadMap, q: PayloadMap)
    requires Canonical(p) != Canonical(q)
    ensures EntryBytes(seqNo, ts, prev, p) != EntryBytes(seqNo, ts, prev, q)
  {
    var a, b := Word(seqNo), Word(|ts|);
    var cp, cq := Canonical(p), Canonical(q);
    WordRoundTrip(seqNo);
    WordRoundTrip(|ts|);
    WordRoundTrip(|cp|);
    WordRoundTrip(|cq|);
    LayoutTail(a, b, ts, prev, Word(|cp|), cp, Word(|cq|), cq);
  }

  lemma {:induction false} LayoutTail(a: Bytes, b: Bytes, ts: Bytes, prev: Digest, c: Bytes, canon: Bytes, c': Bytes, canon': Bytes)
    requires |a| == |b| == |c| == |c'| == 8 && canon != canon'
    ensures Layout(a, b, ts, prev, c, canon) != Layout(a, b, ts, prev, c', canon')
  {
    Fields(a, b, ts, prev, c, canon);
    Fields(a, b, ts, prev, c', canon');
  }
}
