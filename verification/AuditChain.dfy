/**
 The chain of audit records: what appending, replaying and verifying do to it.

 Everything here holds for any function that gives an entry its digest; AuditLog instantiates it with
 a hash of the encoded entry.
 */
module AuditChain {
  import opened QueueTypes
  import opened AuditEncoding
  import opened Sequences
  import opened AuditEntry

  /** entryHash(seq, timestamp, prev, payload) */
  type EntrySum = (nat, Bytes, Digest, PayloadMap) -> Digest

  const GENESIS: Digest := Zeros(32)

  /** "job_id" and "event". */
  const JOB_ID: Bytes := [0x6A, 0x6F, 0x62, 0x5F, 0x69, 0x64]
  const EVENT: Bytes := [0x65, 0x76, 0x65, 0x6E, 0x74]

  // ---------------------------------------------------------------- hexadecimal

  function Hex(b: Bytes): (t: Bytes)
    ensures |t| == 2 * |b|
  {
    if b == [] then [] else [HexDigit(b[0] / 16), HexDigit(b[0] % 16)] + Hex(b[1..])
  }

  /** hex.DecodeString, which also takes upper-case digits. */
  function HexNibble(c: byte): Option<nat> {
    if Between(c, 0x41, 0x46) then Some(c - 0x41 + 10) else HexValue(c)
  }

  function UnHex(t: Bytes): Option<Bytes> {
    if t == [] then Some([])
    else if |t| == 1 then None
    else
      match (HexNibble(t[0]), HexNibble(t[1]), UnHex(t[2..]))
      case (Some(h), Some(l), Some(rest)) => if h < 16 && l < 16 then Some([16 * h + l] + rest) else None
      case _ => None
  }

  lemma {:induction false} NibbleRoundTrip(d: nat)
    requires d < 16
    ensures HexNibble(HexDigit(d)) == Some(d)
  {
  }

  lemma {:induction false} HexRoundTrip(b: Bytes)
    ensures UnHex(Hex(b)) == Some(b)
  {
    if b != [] {
      var pair := [HexDigit(b[0] / 16), HexDigit(b[0] % 16)];
      HexRoundTrip(b[1..]);
      CutFront(pair, Hex(b[1..]));
      NibbleRoundTrip(b[0] / 16);
      NibbleRoundTrip(b[0] % 16);
      HeadAndTail(b);
    }
  }

  /** The digest a verified entry hash spells. */
  function DigestOf(t: Bytes): Digest {
    match UnHex(t)
    case Some(d) => if |d| == 32 then d else GENESIS
    case None => GENESIS
  }

  lemma {:induction false} DigestOfHex(d: Digest)
    ensures DigestOf(Hex(d)) == d
  {
    HexRoundTrip(d);
  }

  // ---------------------------------------------------------------- records

  datatype Record = Record(seqNo: nat, ts: Bytes, prevHash: Bytes, payload: PayloadMap, entryHash: Bytes)

  datatype Head = Head(seqNo: nat, entryHash: Bytes)

  function Sum(e: EntrySum, r: Record, prev: Digest): Digest {
    e(r.seqNo, r.ts, prev, r.payload)
  }

  /** verifyRecord */
  predicate RecordOk(e: EntrySum, r: Record, want: nat, prev: Digest) {
    && r.seqNo == want
    && r.prevHash == Hex(prev)
    && |r.entryHash| == 64
    && Hex(Sum(e, r, prev)) == r.entryHash
  }

  function LastHash(rs: seq<Record>): Digest {
    if rs == [] then GENESIS else DigestOf(rs[|rs| - 1].entryHash)
  }

  predicate ChainOk(e: EntrySum, rs: seq<Record>) {
    rs == [] ||
    (ChainOk(e, rs[..|rs| - 1]) && RecordOk(e, rs[|rs| - 1], |rs|, LastHash(rs[..|rs| - 1])))
  }

  lemma {:induction false} ChainPrefix(e: EntrySum, rs: seq<Record>, n: nat)
    requires n <= |rs| && ChainOk(e, rs)
    ensures ChainOk(e, rs[..n])
    ensures 0 < n ==> RecordOk(e, rs[n - 1], n, LastHash(rs[..n - 1]))
    decreases |rs|
  {
    if n < |rs| {
      var init := rs[..|rs| - 1];
      ChainPrefix(e, init, n);
      PrefixOfPrefix(rs, |rs| - 1, n);
      if 0 < n { PrefixOfPrefix(rs, |rs| - 1, n - 1); }
    } else {
      assert rs[..n] == rs;
    }
  }

  lemma {:induction false} PrefixOfPrefix<T>(s: seq<T>, m: nat, n: nat)
    requires n <= m <= |s|
    ensures s[..m][..n] == s[..n]
  {
  }

  lemma {:induction false} ChainSnoc(e: EntrySum, rs: seq<Record>, r: Record)
    requires ChainOk(e, rs)
    ensures ChainOk(e, rs + [r]) <==> RecordOk(e, r, |rs| + 1, LastHash(rs))
  {
    var all := rs + [r];
    assert all[..|all| - 1] == rs && all[|all| - 1] == r;
  }

  /** A chain of n records with one broken link is not a chain, however it goes on. */
  lemma {:induction false} BrokenStaysBroken(e: EntrySum, rs: seq<Record>, n: nat)
    requires n < |rs| && !RecordOk(e, rs[n], n + 1, LastHash(rs[..n]))
    ensures !ChainOk(e, rs)
  {
    if ChainOk(e, rs) { ChainPrefix(e, rs, n + 1); }
  }

  /** checkAnchor */
  predicate AnchorOk(rs: seq<Record>, anchor: Option<Head>) {
    anchor.Some? && anchor.value.seqNo != 0 ==>
      anchor.value.seqNo <= |rs| && rs[anchor.value.seqNo - 1].entryHash == anchor.value.entryHash
  }

  // ---------------------------------------------------------------- in-memory state

  function IdOf(p: PayloadMap): Bytes {
    if JOB_ID in p then p[JOB_ID] else []
  }

  function IdsOf(p: PayloadMap): set<Bytes> {
    if IdOf(p) == [] then {} else {IdOf(p)}
  }

  /** The job ids the records name. */
  function Seen(rs: seq<Record>): set<Bytes> {
    if rs == [] then {} else Seen(rs[..|rs| - 1]) + IdsOf(rs[|rs| - 1].payload)
  }

  datatype Mem = Mem(seqNo: nat, prev: Digest, seen: set<Bytes>)

  /** What replaying a verified log must restore. */
  function Replay(rs: seq<Record>): Mem {
    Mem(|rs|, LastHash(rs), Seen(rs))
  }

  function MakeRecord(e: EntrySum, m: Mem, ts: Bytes, p: PayloadMap): Record {
    Record(m.seqNo + 1, ts, Hex(m.prev), p, Hex(e(m.seqNo + 1, ts, m.prev, p)))
  }

  /** The fields appendLocked sets once record and anchor are on disk. */
  function Advance(e: EntrySum, m: Mem, ts: Bytes, p: PayloadMap): Mem {
    Mem(m.seqNo + 1, e(m.seqNo + 1, ts, m.prev, p),
        m.seen + IdsOf(p))
  }

  function HeadOf(r: Record): Head {
    Head(r.seqNo, r.entryHash)
  }

  lemma {:induction false} SeenSnoc(rs: seq<Record>, r: Record)
    ensures Seen(rs + [r]) == Seen(rs) + IdsOf(r.payload)
  {
    assert (rs + [r])[..|rs|] == rs;
  }

  /** What one verified record adds. */
  function Absorb(m: Mem, r: Record): Mem {
    Mem(r.seqNo, DigestOf(r.entryHash), m.seen + IdsOf(r.payload))
  }

  lemma {:induction false} ReplaySnoc(rs: seq<Record>, r: Record)
    requires r.seqNo == |rs| + 1
    ensures Replay(rs + [r]) == Absorb(Replay(rs), r)
  {
    SeenSnoc(rs, r);
  }

  /** Replaying a log with one more record on disk restores exactly what the appending process would have
      held had it lived to set its fields. */
  lemma {:induction false} ReplayAppended(e: EntrySum, rs: seq<Record>, ts: Bytes, p: PayloadMap)
    ensures Replay(rs + [MakeRecord(e, Replay(rs), ts, p)]) == Advance(e, Replay(rs), ts, p)
  {
    var r := MakeRecord(e, Replay(rs), ts, p);
    SeenSnoc(rs, r);
    DigestOfHex(e(|rs| + 1, ts, LastHash(rs), p));
  }

  /** The record appendLocked writes extends the chain. */
  lemma {:induction false} AppendExtendsChain(e: EntrySum, rs: seq<Record>, ts: Bytes, p: PayloadMap)
    requires ChainOk(e, rs)
    ensures ChainOk(e, rs + [MakeRecord(e, Replay(rs), ts, p)])
  {
    ChainSnoc(e, rs, MakeRecord(e, Replay(rs), ts, p));
  }

  // ---------------------------------------------------------------- the log on disk and in a process

  class Disk {
    var records: seq<Record>
    var head: Option<Head>

    constructor ()
      ensures records == [] && head == None
    {
      records, head := [], None;
    }
  }

  /** Which file operation of an append fails. */
  datatype Fault = NoFault | WriteFails | HeadFails

  datatype CheckResult = Valid | Broken | AnchorMismatch

  lemma {:induction false} NextChains(e: EntrySum, rs: seq<Record>, n: nat)
    requires n < |rs| && ChainOk(e, rs[..n])
    ensures ChainOk(e, rs[..n + 1]) <==> RecordOk(e, rs[n], n + 1, LastHash(rs[..n]))
    ensures LastHash(rs[..n + 1]) == DigestOf(rs[n].entryHash)
  {
    assert rs[..n + 1] == rs[..n] + [rs[n]];
    ChainSnoc(e, rs[..n], rs[n]);
  }

  /** The loop of VerifyWith: counts the valid records and stops at the first broken link. */
  method VerifyRecords(e: EntrySum, records: seq<Record>, anchor: Option<Head>) returns (n: nat, v: CheckResult)
    ensures n <= |records| && ChainOk(e, records[..n])
    ensures v == Valid <==> ChainOk(e, records) && AnchorOk(records, anchor)
    ensures v == Broken <==> !ChainOk(e, records)
    ensures v == Broken ==> n < |records| && !ChainOk(e, records[..n + 1])
    ensures v != Broken ==> n == |records|
  {
    var prev := GENESIS;
    n := 0;
    while n < |records|
      invariant 0 <= n <= |records|
      invariant ChainOk(e, records[..n]) && prev == LastHash(records[..n])
    {
      NextChains(e, records, n);
      if !RecordOk(e, records[n], n + 1, prev) {
        BrokenStaysBroken(e, records, n);
        return n, Broken;
      }
      prev := DigestOf(records[n].entryHash);
      n := n + 1;
    }
    assert records[..n] == records;
    v := if AnchorOk(records, anchor) then Valid else AnchorMismatch;
  }

  lemma {:induction false} AbsorbNext(e: EntrySum, rs: seq<Record>, i: nat)
    requires i < |rs| && ChainOk(e, rs[..i]) && RecordOk(e, rs[i], i + 1, LastHash(rs[..i]))
    ensures ChainOk(e, rs[..i + 1]) && Replay(rs[..i + 1]) == Absorb(Replay(rs[..i]), rs[i])
  {
    assert rs[..i + 1] == rs[..i] + [rs[i]];
    ChainSnoc(e, rs[..i], rs[i]);
    ReplaySnoc(rs[..i], rs[i]);
  }

  /** The loop of Open: rebuilds sequence number, previous hash and the set of seen job ids. */
  method ReplayRecords(e: EntrySum, existing: seq<Record>) returns (m: Option<Mem>)
    ensures m == if ChainOk(e, existing) then Some(Replay(existing)) else None
  {
    var mem := Mem(0, GENESIS, {});
    var i := 0;
    while i < |existing|
      invariant 0 <= i <= |existing|
      invariant ChainOk(e, existing[..i]) && mem == Replay(existing[..i])
    {
      var r := existing[i];
      if !RecordOk(e, r, i + 1, mem.prev) {
        BrokenStaysBroken(e, existing, i);
        return None;
      }
      AbsorbNext(e, existing, i);
      mem := Absorb(mem, r);
      i := i + 1;
    }
    assert existing[..i] == existing;
    m := Some(mem);
  }

  class Log {
    const e: EntrySum
    const disk: Disk
    var seqNo: nat
    var prev: Digest
    var seen: set<Bytes>

    ghost function Memory(): Mem
      reads this
    {
      Mem(seqNo, prev, seen)
    }

    constructor (e: EntrySum, disk: Disk, m: Mem)
      ensures this.e == e && this.disk == disk && Memory() == m
    {
      this.e, this.disk := e, disk;
      seqNo, prev, seen := m.seqNo, m.prev, m.seen;
    }

    /** appendLocked */
    method Append(payload: PayloadMap, ts: Bytes, fault: Fault) returns (ok: bool)
      modifies this, disk
      ensures ok <==> fault.NoFault?
      ensures
        var r := MakeRecord(e, old(Memory()), ts, payload);
        && Memory() == (if ok then Advance(e, old(Memory()), ts, payload) else old(Memory()))
        && disk.records == (if fault.WriteFails? then old(disk.records) else old(disk.records) + [r])
        && disk.head == (if ok then Some(HeadOf(r)) else old(disk.head))
    {
      var next := seqNo + 1;
      var entry := e(next, ts, prev, payload);
      var rec := Record(next, ts, Hex(prev), payload, Hex(entry));
      if fault.WriteFails? { return false; }
      disk.records := disk.records + [rec];
      if fault.HeadFails? { return false; }
      disk.head := Some(Head(next, rec.entryHash));
      seqNo, prev := next, entry;
      if IdOf(payload) != [] { seen := seen + {IdOf(payload)}; }
      return true;
    }

    /** Record: a job id already in the chain costs no new sequence number. */
    method RecordDecision(payload: PayloadMap, ts: Bytes, fault: Fault) returns (ok: bool)
      modifies this, disk
      ensures
        if IdOf(payload) in old(seen) then
          ok && Memory() == old(Memory()) && disk.records == old(disk.records) && disk.head == old(disk.head)
        else
          var r := MakeRecord(e, old(Memory()), ts, payload);
          && (ok <==> fault.NoFault?)
          && Memory() == (if ok then Advance(e, old(Memory()), ts, payload) else old(Memory()))
          && disk.records == (if fault.WriteFails? then old(disk.records) else old(disk.records) + [r])
          && disk.head == (if ok then Some(HeadOf(r)) else old(disk.head))
    {
      if IdOf(payload) in seen { return true; }
      ok := Append(payload, ts, fault);
    }
  }

  // ---------------------------------------------------------------- agreement of two chains

  /** Two different entries, at the same position of the two logs, with one digest. */
  ghost predicate SameSumAt(e: EntrySum, a: seq<Record>, b: seq<Record>, i: nat)
    requires i < |a| && i < |b|
  {
    && Sum(e, a[i], LastHash(a[..i])) == Sum(e, b[i], LastHash(b[..i]))
    && (a[i].seqNo != b[i].seqNo || a[i].ts != b[i].ts || a[i].payload != b[i].payload
        || LastHash(a[..i]) != LastHash(b[..i]))
  }

  lemma {:induction false} HexInjective(a: Digest, b: Digest)
    requires Hex(a) == Hex(b)
    ensures a == b
  {
    HexRoundTrip(a);
    HexRoundTrip(b);
  }

  lemma {:induction false} LastHashSpelled(e: EntrySum, rs: seq<Record>, i: nat)
    requires 0 < i <= |rs| && ChainOk(e, rs)
    ensures Hex(LastHash(rs[..i])) == rs[i - 1].entryHash
  {
    ChainPrefix(e, rs, i);
    DigestOfHex(Sum(e, rs[i - 1], LastHash(rs[..i - 1])));
    assert rs[..i][i - 1] == rs[i - 1];
  }

  /** Equal entry hashes at one position: equal records there and equal hashes one position earlier. */
  lemma {:induction false} SameLink(e: EntrySum, a: seq<Record>, b: seq<Record>, i: nat)
    requires i < |a| && i < |b| && ChainOk(e, a) && ChainOk(e, b)
    requires a[i].entryHash == b[i].entryHash && !SameSumAt(e, a, b, i)
    ensures a[i] == b[i]
    ensures 0 < i ==> a[i - 1].entryHash == b[i - 1].entryHash
  {
    ChainPrefix(e, a, i + 1);
    ChainPrefix(e, b, i + 1);
    HexInjective(Sum(e, a[i], LastHash(a[..i])), Sum(e, b[i], LastHash(b[..i])));
    if 0 < i {
      LastHashSpelled(e, a, i);
      LastHashSpelled(e, b, i);
    }
  }

  lemma {:induction false} OneMoreAlike(a: seq<Record>, b: seq<Record>, n: nat)
    requires n < |a| && n < |b| && a[..n] == b[..n] && a[n] == b[n]
    ensures a[..n + 1] == b[..n + 1]
  {
    assert a[..n + 1] == a[..n] + [a[n]] && b[..n + 1] == b[..n] + [b[n]];
  }

  /** Two valid chains with the same entry hash at position n - 1 have the same first n records, unless two
      different entries share a digest. */
  lemma {:induction false} SameHistory(e: EntrySum, a: seq<Record>, b: seq<Record>, n: nat)
    requires n <= |a| && n <= |b| && ChainOk(e, a) && ChainOk(e, b)
    requires 0 < n ==> a[n - 1].entryHash == b[n - 1].entryHash
    ensures a[..n] == b[..n] || exists i :: 0 <= i < n && SameSumAt(e, a, b, i)
    decreases n
  {
    if 0 < n && !SameSumAt(e, a, b, n - 1) {
      SameLink(e, a, b, n - 1);
      SameHistory(e, a, b, n - 1);
      if a[..n - 1] == b[..n - 1] { OneMoreAlike(a, b, n - 1); }
    }
  }
}
