/**
 Whole runs of the audit log: appends, failed writes, crashes at any point of an append, and reopens.
 */
module AuditRuns {
  import opened QueueTypes
  import opened AuditEncoding
  import opened AuditEntry
  import opened AuditChain
  import opened AuditLog

  /** The files survive a crash; the in-memory part exists while a process has the log open. */
  datatype System = System(records: seq<Record>, head: Option<Head>, mem: Option<Mem>)

  /** How one append ends. The process goes on after an error; `HeadError` leaves the record on disk. */
  datatype Ending = Completes | WriteError | HeadError | DiesBeforeWrite | DiesBeforeHead
  {
    /** The record reached the file. */
    predicate Writes() { Completes? || HeadError? || DiesBeforeHead? }

    predicate Dies() { DiesBeforeWrite? || DiesBeforeHead? }
  }

  datatype Event =
    | Start
    | Crash
    | Decide(payload: PayloadMap, ts: Bytes, ending: Ending)  // Record
    | Note(payload: PayloadMap, ts: Bytes, ending: Ending)    // AppendEvent

  predicate CanOpen(e: EntrySum, s: System) {
    ChainOk(e, ReadRecords(s.records)) && AnchorOk(ReadRecords(s.records), s.head)
  }

  function Appended(e: EntrySum, s: System, p: PayloadMap, ts: Bytes, ending: Ending): System
    requires s.mem.Some?
  {
    var r := MakeRecord(e, s.mem.value, ts, p);
    System(
      if ending.Writes() then s.records + [r] else s.records,
      if ending.Completes? then Some(HeadOf(r)) else s.head,
      if ending.Completes? then Some(Advance(e, s.mem.value, ts, p)) else if ending.Dies() then None else s.mem)
  }

  /** The event gets as far as an append: Record skips a job id it has seen. */
  predicate Appends(s: System, ev: Event) {
    s.mem.Some? && ((ev.Decide? && IdOf(ev.payload) !in s.mem.value.seen) || ev.Note?)
  }

  function Apply(e: EntrySum, s: System, ev: Event): System {
    if Appends(s, ev) then Appended(e, s, ev.payload, ev.ts, ev.ending)
    else if ev.Start? && s.mem.None? && CanOpen(e, s) then s.(mem := Some(Replay(ReadRecords(s.records))))
    else if ev.Crash? then s.(mem := None)
    else s
  }

  const Empty: System := System([], None, None)

  function After(e: EntrySum, es: seq<Event>): System {
    if es == [] then Empty else Apply(e, After(e, es[..|es| - 1]), es[|es| - 1])
  }

  /** The event puts a record into the file. */
  predicate Writes(s: System, ev: Event) {
    Appends(s, ev) && ev.ending.Writes()
  }

  // ---------------------------------------------------------------- failed anchor writes

  /** Anchor writes that failed in the running process and were survived; each leaves it one number behind. */
  function Survived(e: EntrySum, es: seq<Event>): nat {
    if es == [] then 0
    else
      var s, ev, before := After(e, es[..|es| - 1]), es[|es| - 1], Survived(e, es[..|es| - 1]);
      if s.mem.None? then 0 else if Writes(s, ev) && ev.ending.HeadError? then before + 1 else before
  }

  /** Records the anchor is behind: each write without its anchor adds one, and one that completes catches up
      except for what its process had survived. */
  function Lag(e: EntrySum, es: seq<Event>): nat {
    if es == [] then 0
    else
      var s, ev, before := After(e, es[..|es| - 1]), es[|es| - 1], Lag(e, es[..|es| - 1]);
      if !Writes(s, ev) then before
      else if ev.ending.Completes? then Survived(e, es[..|es| - 1])
      else before + 1
  }

  function HeadSeq(s: System): nat {
    if s.head.None? then 0 else s.head.value.seqNo
  }

  lemma {:induction false} AppendNumbers(e: EntrySum, s: System, p: PayloadMap, ts: Bytes, ending: Ending)
    requires s.mem.Some?
    ensures
      var s' := Appended(e, s, p, ts, ending);
      && |s'.records| == |s.records| + (if ending.Writes() then 1 else 0)
      && HeadSeq(s') == (if ending.Completes? then s.mem.value.seqNo + 1 else HeadSeq(s))
      && (s'.mem.Some? <==> !ending.Dies())
      && (s'.mem.Some? ==> s'.mem.value.seqNo == s.mem.value.seqNo + if ending.Completes? then 1 else 0)
  {
  }

  /** After every run the process is behind the file by the anchor failures it survived, and the anchor by Lag. */
  lemma {:induction false} AnchorLag(e: EntrySum, es: seq<Event>)
    ensures |After(e, es).records| == HeadSeq(After(e, es)) + Lag(e, es)
    ensures After(e, es).mem.Some? ==> |After(e, es).records| == After(e, es).mem.value.seqNo + Survived(e, es)
  {
    if es != [] {
      var s, ev := After(e, es[..|es| - 1]), es[|es| - 1];
      AnchorLag(e, es[..|es| - 1]);
      if Appends(s, ev) { AppendNumbers(e, s, ev.payload, ev.ts, ev.ending); }
    }
  }

  // ---------------------------------------------------------------- when the log opens

  /** Every record written so far was written by a process that was not behind, and reads back with the digest
      it was given. */
  ghost predicate Clean(e: EntrySum, es: seq<Event>) {
    es == [] ||
    (&& Clean(e, es[..|es| - 1])
     && (Writes(After(e, es[..|es| - 1]), es[|es| - 1]) ==>
           && Survived(e, es[..|es| - 1]) == 0
           && Rereads(e, After(e, es[..|es| - 1]).mem.value, es[|es| - 1].ts, es[|es| - 1].payload)))
  }

  ghost predicate Rereads(e: EntrySum, m: Mem, ts: Bytes, p: PayloadMap) {
    e(m.seqNo + 1, ts, m.prev, p) == e(m.seqNo + 1, ts, m.prev, ReadBack(p))
  }

  /** The anchor names one of the records, if there is one. */
  ghost predicate HeadInLog(s: System) {
    s.head.Some? ==> 0 < s.head.value.seqNo <= |s.records| && s.head.value == HeadOf(s.records[s.head.value.seqNo - 1])
  }

  /** The log opens, and a process that is not behind holds the hash to go on from. */
  ghost predicate Linked(e: EntrySum, s: System) {
    && ChainOk(e, ReadRecords(s.records))
    && HeadInLog(s)
    && (s.mem.Some? && s.mem.value.seqNo == |s.records| ==> s.mem.value.prev == LastHash(s.records))
  }

  lemma {:induction false} LastHashRead(rs: seq<Record>)
    ensures LastHash(ReadRecords(rs)) == LastHash(rs)
  {
  }

  lemma {:induction false} LinkedOpens(e: EntrySum, s: System)
    requires ChainOk(e, ReadRecords(s.records)) && HeadInLog(s)
    ensures CanOpen(e, s)
  {
  }

  lemma {:induction false} LinkNext(e: EntrySum, read: seq<Record>, m: Mem, ts: Bytes, p: PayloadMap, q: PayloadMap)
    requires ChainOk(e, read) && (m.seqNo == |read| ==> m.prev == LastHash(read))
    ensures ChainOk(e, read + [MakeRecord(e, m, ts, p).(payload := q)]) <==>
      m.seqNo == |read| && e(m.seqNo + 1, ts, m.prev, p) == e(m.seqNo + 1, ts, m.prev, q)
  {
    ChainSnoc(e, read, MakeRecord(e, m, ts, p).(payload := q));
    if m.seqNo == |read| { RereadLink(e, m, ts, p, q); }
  }

  /** The next record reads back as a link of the chain exactly when its number is next and its digest holds. */
  lemma {:induction false} NextLink(e: EntrySum, rs: seq<Record>, m: Mem, ts: Bytes, p: PayloadMap)
    requires ChainOk(e, ReadRecords(rs)) && (m.seqNo == |rs| ==> m.prev == LastHash(rs))
    ensures ChainOk(e, ReadRecords(rs + [MakeRecord(e, m, ts, p)])) <==> m.seqNo == |rs| && Rereads(e, m, ts, p)
  {
    var r := MakeRecord(e, m, ts, p);
    ReadSnoc(rs, r);
    LastHashRead(rs);
    assert ReadRecord(r) == r.(payload := ReadBack(p));
    LinkNext(e, ReadRecords(rs), m, ts, p, ReadBack(p));
  }

  lemma {:induction false} AppendHead(e: EntrySum, s: System, p: PayloadMap, ts: Bytes, ending: Ending)
    requires HeadInLog(s) && s.mem.Some? && (ending.Writes() ==> s.mem.value.seqNo == |s.records|)
    ensures HeadInLog(Appended(e, s, p, ts, ending))
  {
    var r := MakeRecord(e, s.mem.value, ts, p);
    var all := s.records + [r];
    assert all[|s.records|] == r && forall i :: 0 <= i < |s.records| ==> all[i] == s.records[i];
  }

  lemma {:induction false} AppendPrev(e: EntrySum, rs: seq<Record>, m: Mem, ts: Bytes, p: PayloadMap)
    ensures Advance(e, m, ts, p).prev == LastHash(rs + [MakeRecord(e, m, ts, p)])
  {
    DigestOfHex(e(m.seqNo + 1, ts, m.prev, p));
  }

  lemma {:induction false} WriteLinks(e: EntrySum, s: System, p: PayloadMap, ts: Bytes, ending: Ending)
    requires Linked(e, s) && s.mem.Some? && ending.Writes()
    requires s.mem.value.seqNo == |s.records| && Rereads(e, s.mem.value, ts, p)
    ensures Linked(e, Appended(e, s, p, ts, ending))
  {
    NextLink(e, s.records, s.mem.value, ts, p);
    AppendHead(e, s, p, ts, ending);
    AppendPrev(e, s.records, s.mem.value, ts, p);
  }

  lemma {:induction false} SameFilesLink(e: EntrySum, s: System, s': System)
    requires Linked(e, s) && s'.records == s.records && s'.head == s.head && (s'.mem.Some? ==> s'.mem == s.mem)
    ensures Linked(e, s')
  {
  }

  lemma {:induction false} AppendLinks(e: EntrySum, s: System, p: PayloadMap, ts: Bytes, ending: Ending)
    requires Linked(e, s) && s.mem.Some?
    requires ending.Writes() ==> s.mem.value.seqNo == |s.records| && Rereads(e, s.mem.value, ts, p)
    ensures Linked(e, Appended(e, s, p, ts, ending))
  {
    if ending.Writes() {
      WriteLinks(e, s, p, ts, ending);
    } else {
      SameFilesLink(e, s, Appended(e, s, p, ts, ending));
    }
  }

  lemma {:induction false} AppendBreaks(e: EntrySum, s: System, p: PayloadMap, ts: Bytes, ending: Ending)
    requires Linked(e, s) && s.mem.Some? && ending.Writes()
    requires s.mem.value.seqNo != |s.records| || !Rereads(e, s.mem.value, ts, p)
    ensures !ChainOk(e, ReadRecords(Appended(e, s, p, ts, ending).records))
  {
    NextLink(e, s.records, s.mem.value, ts, p);
  }

  lemma {:induction false} Opened(e: EntrySum, s: System)
    requires CanOpen(e, s) && s.mem.None?
    ensures Apply(e, s, Start) == s.(mem := Some(Replay(ReadRecords(s.records))))
  {
  }

  lemma {:induction false} StartLinks(e: EntrySum, s: System)
    requires Linked(e, s) && s.mem.None?
    ensures Linked(e, Apply(e, s, Start))
  {
    LinkedOpens(e, s);
    Opened(e, s);
    LastHashRead(s.records);
    OpenedLinks(e, s, Replay(ReadRecords(s.records)));
  }

  lemma {:induction false} OpenedLinks(e: EntrySum, s: System, m: Mem)
    requires ChainOk(e, ReadRecords(s.records)) && HeadInLog(s) && m.prev == LastHash(s.records)
    ensures Linked(e, s.(mem := Some(m)))
  {
  }

  lemma {:induction false} BrokenGrows(e: EntrySum, rs: seq<Record>, r: Record)
    requires !ChainOk(e, ReadRecords(rs))
    ensures !ChainOk(e, ReadRecords(rs + [r]))
  {
    ReadSnoc(rs, r);
    var all := ReadRecords(rs) + [ReadRecord(r)];
    assert all[..|all| - 1] == ReadRecords(rs);
  }

  lemma {:induction false} StaysBroken(e: EntrySum, s: System, ev: Event)
    requires !ChainOk(e, ReadRecords(s.records))
    ensures !ChainOk(e, ReadRecords(Apply(e, s, ev).records))
  {
    RecordsAfter(e, s, ev);
    if Writes(s, ev) { BrokenGrows(e, s.records, MakeRecord(e, s.mem.value, ev.ts, ev.payload)); }
  }

  lemma {:induction false} RecordsAfter(e: EntrySum, s: System, ev: Event)
    ensures Apply(e, s, ev).records ==
      if Writes(s, ev) then s.records + [MakeRecord(e, s.mem.value, ev.ts, ev.payload)] else s.records
  {
  }

  lemma {:induction false} StepLinks(e: EntrySum, s: System, ev: Event)
    requires Linked(e, s)
    requires Writes(s, ev) ==> s.mem.value.seqNo == |s.records| && Rereads(e, s.mem.value, ev.ts, ev.payload)
    ensures Linked(e, Apply(e, s, ev))
  {
    if Appends(s, ev) {
      AppendLinks(e, s, ev.payload, ev.ts, ev.ending);
    } else if ev.Start? && s.mem.None? {
      StartLinks(e, s);
    } else {
      SameFilesLink(e, s, Apply(e, s, ev));
    }
  }

  lemma {:induction false} RunLinks(e: EntrySum, es: seq<Event>)
    ensures Clean(e, es) ==> Linked(e, After(e, es))
    ensures !Clean(e, es) ==> !ChainOk(e, ReadRecords(After(e, es).records))
  {
    if es != [] {
      var s, ev := After(e, es[..|es| - 1]), es[|es| - 1];
      RunLinks(e, es[..|es| - 1]);
      AnchorLag(e, es[..|es| - 1]);
      if Clean(e, es) {
        StepLinks(e, s, ev);
      } else if Clean(e, es[..|es| - 1]) {
        AppendBreaks(e, s, ev.payload, ev.ts, ev.ending);
      } else {
        StaysBroken(e, s, ev);
      }
    }
  }

  /**
   * After any run, survived failures and malformed payloads included, the log opens exactly when no record was
   * written by a process behind its file or with a payload whose digest does not survive reading back.
   */
  lemma {:induction false} LogOpensIff(e: EntrySum, es: seq<Event>)
    ensures CanOpen(e, After(e, es)) <==> Clean(e, es)
  {
    RunLinks(e, es);
    if Clean(e, es) { LinkedOpens(e, After(e, es)); }
  }

  /** A log that does not open never opens again, whatever the process and its successors do. */
  lemma {:induction false} UnopenableForGood(e: EntrySum, es: seq<Event>, more: seq<Event>)
    requires !CanOpen(e, After(e, es))
    ensures !CanOpen(e, After(e, es + more))
    decreases |more|
  {
    if more == [] {
      assert es + more == es;
    } else {
      var n := |more| - 1;
      UnopenableForGood(e, es, more[..n]);
      assert (es + more)[..|es + more| - 1] == es + more[..n];
      LogOpensIff(e, es + more[..n]);
      LogOpensIff(e, es + more);
    }
  }

  // ---------------------------------------------------------------- well-formed payloads

  ghost predicate WellFormedEvents(es: seq<Event>) {
    forall i :: 0 <= i < |es| && (es[i].Decide? || es[i].Note?) ==> WellFormedMap(es[i].payload)
  }

  /** No record was written by a process that had survived a failed anchor write. */
  ghost predicate NeverBehind(e: EntrySum, es: seq<Event>) {
    es == [] ||
    (&& NeverBehind(e, es[..|es| - 1])
     && (Writes(After(e, es[..|es| - 1]), es[|es| - 1]) ==> Survived(e, es[..|es| - 1]) == 0))
  }

  lemma {:induction false} CleanIffNeverBehind(e: EntrySum, es: seq<Event>)
    requires WellFormedEvents(es)
    ensures Clean(e, es) <==> NeverBehind(e, es)
  {
    if es != [] {
      CleanIffNeverBehind(e, es[..|es| - 1]);
      if Writes(After(e, es[..|es| - 1]), es[|es| - 1]) { ReadBackWellFormed(es[|es| - 1].payload); }
    }
  }

  /** Reading back changes nothing, and a process that is not behind knows every id on disk. */
  ghost predicate Faithful(s: System) {
    && AllWellFormed(s.records)
    && (s.mem.Some? && s.mem.value.seqNo >= |s.records| ==> s.mem.value.seqNo == |s.records| && s.mem.value.seen == Seen(s.records))
  }

  lemma {:induction false} AppendFaithful(e: EntrySum, s: System, p: PayloadMap, ts: Bytes, ending: Ending)
    requires Faithful(s) && s.mem.Some? && WellFormedMap(p)
    ensures Faithful(Appended(e, s, p, ts, ending))
  {
    var r := MakeRecord(e, s.mem.value, ts, p);
    SeenSnoc(s.records, r);
    if ending.Writes() { StillWellFormed(s.records, r); }
  }

  lemma {:induction false} StillWellFormed(rs: seq<Record>, r: Record)
    requires AllWellFormed(rs) && WellFormedMap(r.payload)
    ensures AllWellFormed(rs + [r])
  {
  }

  lemma {:induction false} StepFaithful(e: EntrySum, s: System, ev: Event)
    requires Faithful(s) && (ev.Decide? || ev.Note? ==> WellFormedMap(ev.payload))
    ensures Faithful(Apply(e, s, ev))
  {
    if Appends(s, ev) {
      AppendFaithful(e, s, ev.payload, ev.ts, ev.ending);
    } else if ev.Start? {
      ReadUnchanged(s.records);
    }
  }

  lemma {:induction false} RunFaithful(e: EntrySum, es: seq<Event>)
    requires WellFormedEvents(es)
    ensures Faithful(After(e, es))
  {
    if es != [] {
      RunFaithful(e, es[..|es| - 1]);
      StepFaithful(e, After(e, es[..|es| - 1]), es[|es| - 1]);
    }
  }

  /**
   * With well-formed payloads the log opens exactly when nothing was written behind its back, and then opening
   * restores the replay of its records, which a running process that survived no anchor failure holds already.
   */
  lemma {:induction false} LogReopensIff(e: EntrySum, es: seq<Event>)
    requires WellFormedEvents(es)
    ensures CanOpen(e, After(e, es)) <==> NeverBehind(e, es)
    ensures
      var s := After(e, es);
      NeverBehind(e, es) ==>
        && (s.mem.None? ==> Apply(e, s, Start).mem == Some(Replay(s.records)))
        && (s.mem.Some? && Survived(e, es) == 0 ==> s.mem == Some(Replay(s.records)))
  {
    LogOpensIff(e, es);
    CleanIffNeverBehind(e, es);
    RunLinks(e, es);
    RunFaithful(e, es);
    AnchorLag(e, es);
    ReadUnchanged(After(e, es).records);
  }

  lemma {:induction false} LostAppendReplays(e: EntrySum, s: System, p: PayloadMap, ts: Bytes)
    requires s.mem == Some(Replay(s.records))
    ensures Replay(Appended(e, s, p, ts, DiesBeforeHead).records) == Advance(e, s.mem.value, ts, p)
  {
    ReplayAppended(e, s.records, ts, p);
  }

  /** A crash between record and anchor loses nothing: reopening gives the state the lost process was about to
      set, for any run that leads there and leaves the process up to date. */
  lemma {:induction false} CrashLosesNothing(e: EntrySum, es: seq<Event>, p: PayloadMap, ts: Bytes)
    requires WellFormedEvents(es) && WellFormedMap(p)
    requires After(e, es).mem.Some? && CanOpen(e, After(e, es)) && Survived(e, es) == 0
    ensures
      var s := After(e, es);
      var lost := After(e, es + [Note(p, ts, DiesBeforeHead)]);
      lost.records == s.records + [MakeRecord(e, s.mem.value, ts, p)]
      && Apply(e, lost, Start).mem == Some(Advance(e, s.mem.value, ts, p))
  {
    var ev := Note(p, ts, DiesBeforeHead);
    LogReopensIff(e, es);
    LostAppendReplays(e, After(e, es), p, ts);
    NoteDies(e, es, p, ts);
    StartRestores(e, es + [ev]);
  }

  lemma {:induction false} NoteDies(e: EntrySum, es: seq<Event>, p: PayloadMap, ts: Bytes)
    requires WellFormedEvents(es) && WellFormedMap(p)
    requires NeverBehind(e, es) && After(e, es).mem.Some? && Survived(e, es) == 0
    ensures var all := es + [Note(p, ts, DiesBeforeHead)];
      && WellFormedEvents(all) && NeverBehind(e, all) && After(e, all).mem.None?
      && After(e, all).records == Appended(e, After(e, es), p, ts, DiesBeforeHead).records
  {
    OneMore(e, es, Note(p, ts, DiesBeforeHead));
  }

  lemma {:induction false} StartRestores(e: EntrySum, es: seq<Event>)
    requires WellFormedEvents(es) && NeverBehind(e, es) && After(e, es).mem.None?
    ensures Apply(e, After(e, es), Start).mem == Some(Replay(After(e, es).records))
  {
    LogReopensIff(e, es);
  }

  // ---------------------------------------------------------------- runs that show the limits

  /** The history one event further. */
  lemma {:induction false} OneMore(e: EntrySum, es: seq<Event>, ev: Event)
    ensures var s, all := After(e, es), es + [ev];
      && After(e, all) == Apply(e, s, ev)
      && (NeverBehind(e, all) <==> NeverBehind(e, es) && (Writes(s, ev) ==> Survived(e, es) == 0))
      && Survived(e, all) ==
           (if s.mem.None? then 0 else if Writes(s, ev) && ev.ending.HeadError? then Survived(e, es) + 1 else Survived(e, es))
      && Lag(e, all) ==
           (if !Writes(s, ev) then Lag(e, es) else if ev.ending.Completes? then Survived(e, es) else Lag(e, es) + 1)
  {
    assert (es + [ev])[..|es|] == es;
  }

  /** A process is running, has survived nothing, and nothing was written behind the log's back. */
  ghost predicate Running(e: EntrySum, es: seq<Event>, lag: nat) {
    WellFormedEvents(es) && NeverBehind(e, es) && After(e, es).mem.Some? && Survived(e, es) == 0 && Lag(e, es) == lag
  }

  ghost predicate Down(e: EntrySum, es: seq<Event>, lag: nat) {
    WellFormedEvents(es) && NeverBehind(e, es) && After(e, es).mem.None? && Lag(e, es) == lag
  }

  lemma {:induction false} Restarted(e: EntrySum, es: seq<Event>, lag: nat)
    requires Down(e, es, lag)
    ensures Running(e, es + [Start], lag)
  {
    OneMore(e, es, Start);
    StartRestores(e, es);
    assert WellFormedEvents(es + [Start]);
  }

  lemma {:induction false} Died(e: EntrySum, es: seq<Event>, lag: nat, p: PayloadMap, ts: Bytes)
    requires Running(e, es, lag) && WellFormedMap(p)
    ensures Down(e, es + [Note(p, ts, DiesBeforeHead)], lag + 1)
  {
    var ev := Note(p, ts, DiesBeforeHead);
    OneMore(e, es, ev);
    assert Writes(After(e, es), ev);
  }

  lemma {:induction false} CrashCycle(e: EntrySum, es: seq<Event>, lag: nat, p: PayloadMap, ts: Bytes)
    requires Down(e, es, lag) && WellFormedMap(p)
    ensures Down(e, es + [Start] + [Note(p, ts, DiesBeforeHead)], lag + 1)
  {
    Restarted(e, es, lag);
    Died(e, es + [Start], lag, p, ts);
  }

  /** n times over: a process starts, writes a record and dies before the anchor. */
  lemma {:induction false} CrashCycles(e: EntrySum, p: PayloadMap, ts: Bytes, n: nat) returns (es: seq<Event>)
    requires WellFormedMap(p)
    ensures Down(e, es, n)
  {
    if n == 0 {
      es := [];
      NothingYet(e);
    } else {
      var before := CrashCycles(e, p, ts, n - 1);
      CrashCycle(e, before, n - 1, p, ts);
      es := before + [Start] + [Note(p, ts, DiesBeforeHead)];
    }
  }

  lemma {:induction false} NothingYet(e: EntrySum)
    ensures Down(e, [], 0)
  {
  }

  /** The anchor can be any number of records behind a log that still opens: some run gets it there. */
  lemma {:induction false} AnchorFarBehind(e: EntrySum, p: PayloadMap, ts: Bytes, n: nat) returns (es: seq<Event>)
    requires WellFormedMap(p)
    ensures |After(e, es).records| == HeadSeq(After(e, es)) + n && CanOpen(e, After(e, es))
  {
    es := CrashCycles(e, p, ts, n);
    AnchorLag(e, es);
    LogReopensIff(e, es);
  }

  lemma {:induction false} AnchorFails(e: EntrySum, es: seq<Event>, lag: nat, p: PayloadMap, ts: Bytes)
    requires Running(e, es, lag) && WellFormedMap(p)
    ensures
      var all := es + [Note(p, ts, HeadError)];
      WellFormedEvents(all) && NeverBehind(e, all) && After(e, all).mem.Some? && Survived(e, all) == 1
  {
    var ev := Note(p, ts, HeadError);
    OneMore(e, es, ev);
    assert Writes(After(e, es), ev);
  }

  lemma {:induction false} LateAppend(e: EntrySum, es: seq<Event>, q: PayloadMap, ts: Bytes, ending: Ending)
    requires After(e, es).mem.Some? && Survived(e, es) > 0 && ending.Writes()
    ensures !NeverBehind(e, es + [Note(q, ts, ending)])
  {
    var ev := Note(q, ts, ending);
    OneMore(e, es, ev);
    assert Writes(After(e, es), ev);
  }

  /** A failed anchor write that the process survives leaves a log that opens; one more record from that process,
      however its append ends, and no continuation ever opens it again. */
  lemma {:induction false} FailedAnchorThenAppendBreaks(
      e: EntrySum, es: seq<Event>, p: PayloadMap, ts: Bytes, q: PayloadMap, ts': Bytes, ending: Ending, more: seq<Event>)
    requires WellFormedEvents(es) && WellFormedMap(p) && WellFormedMap(q) && ending.Writes()
    requires CanOpen(e, After(e, es)) && After(e, es).mem.Some? && Survived(e, es) == 0
    ensures CanOpen(e, After(e, es + [Note(p, ts, HeadError)]))
    ensures !CanOpen(e, After(e, es + [Note(p, ts, HeadError)] + [Note(q, ts', ending)] + more))
  {
    LogReopensIff(e, es);
    AnchorFails(e, es, Lag(e, es), p, ts);
    AfterFailure(e, es + [Note(p, ts, HeadError)], q, ts', ending, more);
  }

  lemma {:induction false} AfterFailure(
      e: EntrySum, es: seq<Event>, q: PayloadMap, ts: Bytes, ending: Ending, more: seq<Event>)
    requires WellFormedEvents(es) && WellFormedMap(q) && ending.Writes()
    requires NeverBehind(e, es) && After(e, es).mem.Some? && Survived(e, es) > 0
    ensures CanOpen(e, After(e, es)) && !CanOpen(e, After(e, es + [Note(q, ts, ending)] + more))
  {
    var all := es + [Note(q, ts, ending)];
    LogReopensIff(e, es);
    LateAppend(e, es, q, ts, ending);
    LogReopensIff(e, all);
    UnopenableForGood(e, all, more);
  }
}
