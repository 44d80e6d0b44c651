/**
 What a processed job leaves behind: its disposition and its audit record, over redeliveries, crashes
 and restarts of one replica.
 */
module Pipeline {
  import opened QueueTypes
  import opened Moderation
  import opened Thresholds
  import opened Rollup
  import opened AuditEncoding
  import opened AuditEntry
  import opened AuditChain
  import opened AuditLog
  import opened AuditRuns

  /** How evaluating the source went: an empty video under the operator's skip override, no evidence at all,
      or one result per frame. */
  datatype Outcome = EmptySkipped | CouldNotEvaluate | Evaluated(frames: seq<FrameResult>)

  datatype Attempt = Attempt(
    id: Bytes, assetId: Bytes, adapter: Bytes, modelVersion: Bytes, configHash: Bytes, rawSha: Bytes,
    outcome: Outcome, sinkOk: bool, ts: Bytes)

  /** errorResult: a single errored frame stands in for missing evidence. */
  function FramesOf(o: Outcome): seq<FrameResult> {
    match o
    case Evaluated(frames) => frames
    case _ => [FrameResult(None, FrameError, "", [])]
  }

  // ---------------------------------------------------------------- payloads

  // The keys asset_id, adapter, model_version, config_hash, verdict and raw_sha256.
  const ASSET_ID: Bytes := [0x61, 0x73, 0x73, 0x65, 0x74, 0x5F, 0x69, 0x64]
  const ADAPTER: Bytes := [0x61, 0x64, 0x61, 0x70, 0x74, 0x65, 0x72]
  const MODEL_VERSION: Bytes := [0x6D, 0x6F, 0x64, 0x65, 0x6C, 0x5F, 0x76, 0x65, 0x72, 0x73, 0x69, 0x6F, 0x6E]
  const CONFIG_HASH: Bytes := [0x63, 0x6F, 0x6E, 0x66, 0x69, 0x67, 0x5F, 0x68, 0x61, 0x73, 0x68]
  const VERDICT: Bytes := [0x76, 0x65, 0x72, 0x64, 0x69, 0x63, 0x74]
  const RAW_SHA: Bytes := [0x72, 0x61, 0x77, 0x5F, 0x73, 0x68, 0x61, 0x32, 0x35, 0x36]

  /** "empty_video_skip_override" */
  const SKIP_EVENT: Bytes := [
    0x65, 0x6D, 0x70, 0x74, 0x79, 0x5F, 0x76, 0x69, 0x64, 0x65, 0x6F, 0x5F, 0x73,
    0x6B, 0x69, 0x70, 0x5F, 0x6F, 0x76, 0x65, 0x72, 0x72, 0x69, 0x64, 0x65]

  function VerdictText(v: Verdict): Bytes {
    match v
    case Allow => [0x61, 0x6C, 0x6C, 0x6F, 0x77]
    case Flag => [0x66, 0x6C, 0x61, 0x67]
    case Block => [0x62, 0x6C, 0x6F, 0x63, 0x6B]
    case Error => [0x65, 0x72, 0x72, 0x6F, 0x72]
  }

  /** payloadFor */
  function DecisionPayload(a: Attempt, v: Verdict): PayloadMap {
    map[ASSET_ID := a.assetId, ADAPTER := a.adapter, MODEL_VERSION := a.modelVersion, CONFIG_HASH := a.configHash,
        VERDICT := VerdictText(v), RAW_SHA := a.rawSha, JOB_ID := a.id]
  }

  function SkipPayload(a: Attempt): PayloadMap {
    map[EVENT := SKIP_EVENT, ASSET_ID := a.assetId, ADAPTER := a.adapter, CONFIG_HASH := a.configHash, JOB_ID := a.id]
  }

  /** b is the ASCII text s. */
  predicate Spells(b: Bytes, s: string) {
    |b| == |s| && forall i :: 0 <= i < |s| ==> b[i] == s[i] as int
  }

  lemma {:induction false} KeysSpelled()
    ensures Spells(ASSET_ID, "asset_id") && Spells(ADAPTER, "adapter") && Spells(MODEL_VERSION, "model_version")
    ensures Spells(CONFIG_HASH, "config_hash") && Spells(VERDICT, "verdict") && Spells(RAW_SHA, "raw_sha256")
    ensures Spells(JOB_ID, "job_id") && Spells(EVENT, "event")
  {
  }

  lemma {:induction false} ValuesSpelled()
    ensures Spells(SKIP_EVENT, "empty_video_skip_override")
    ensures Spells(VerdictText(Allow), "allow") && Spells(VerdictText(Flag), "flag")
    ensures Spells(VerdictText(Block), "block") && Spells(VerdictText(Error), "error")
  {
  }

  lemma {:induction false} KeysDiffer()
    ensures |EVENT| == 5 && |JOB_ID| == 6 && |ASSET_ID| == 8 && |ADAPTER| == 7 && |MODEL_VERSION| == 13
    ensures |CONFIG_HASH| == 11 && |VERDICT| == 7 && |RAW_SHA| == 10 && ADAPTER != VERDICT
  {
  }

  lemma {:induction false} SevenKeys(a: Bytes, b: Bytes, c: Bytes, d: Bytes, e: Bytes, f: Bytes, g: Bytes)
    requires |a| == 8 && |b| == 7 && |c| == 13 && |d| == 11 && |e| == 7 && |f| == 10 && |g| == 6 && b != e
    ensures |{a, b, c, d, e, f, g}| == 7
  {
    assert {a, b, c, d, e, f, g} == {a} + ({b} + ({c} + ({d} + ({e} + ({f} + {g})))));
  }

  /** A decision names its job, asset, model, configuration, evidence and verdict, each under its own key, and
      nothing else. */
  lemma {:induction false} DecisionBinds(a: Attempt, v: Verdict)
    ensures
      var p := DecisionPayload(a, v);
      && p.Keys == {JOB_ID, ASSET_ID, ADAPTER, MODEL_VERSION, CONFIG_HASH, VERDICT, RAW_SHA} && |p| == 7
      && p[JOB_ID] == a.id && p[ASSET_ID] == a.assetId && p[ADAPTER] == a.adapter && p[MODEL_VERSION] == a.modelVersion
      && p[CONFIG_HASH] == a.configHash && p[VERDICT] == VerdictText(v) && p[RAW_SHA] == a.rawSha
  {
    KeysDiffer();
    SevenKeys(ASSET_ID, ADAPTER, MODEL_VERSION, CONFIG_HASH, VERDICT, RAW_SHA, JOB_ID);
    var p := DecisionPayload(a, v);
    assert p.Keys == {ASSET_ID, ADAPTER, MODEL_VERSION, CONFIG_HASH, VERDICT, RAW_SHA, JOB_ID};
    assert |p| == |p.Keys|;
  }

  /** An override is noted with its job, asset, adapter and configuration, and no verdict. */
  lemma {:induction false} SkipBinds(a: Attempt)
    ensures
      var p := SkipPayload(a);
      && p.Keys == {EVENT, JOB_ID, ASSET_ID, ADAPTER, CONFIG_HASH} && VERDICT !in p
      && p[EVENT] == SKIP_EVENT && p[JOB_ID] == a.id && p[ASSET_ID] == a.assetId && p[ADAPTER] == a.adapter
      && p[CONFIG_HASH] == a.configHash
  {
    KeysDiffer();
  }

  predicate IsDecision(r: Record) {
    EVENT !in r.payload
  }

  lemma {:induction false} PayloadFacts(a: Attempt, v: Verdict)
    ensures IdOf(DecisionPayload(a, v)) == a.id && EVENT !in DecisionPayload(a, v)
    ensures IdOf(SkipPayload(a)) == a.id && EVENT in SkipPayload(a)
  {
    assert |EVENT| == 5 && |JOB_ID| == 6 && |ASSET_ID| == 8 && |ADAPTER| == 7 && |MODEL_VERSION| == 13;
    assert |CONFIG_HASH| == 11 && |VERDICT| == 7 && |RAW_SHA| == 10;
  }

  predicate Ascii(s: Bytes) {
    forall k :: 0 <= k < |s| ==> s[k] < 0x80
  }

  lemma {:induction false} AsciiWellFormed(s: Bytes)
    requires Ascii(s)
    ensures WellFormed(s)
    decreases |s|
  {
    if s != [] {
      AsciiWellFormed(s[1..]);
      assert RuneSize(s) == 1;
      assert Lits(s[..1]) == [Lit(s[0])];
    }
  }

  ghost predicate WellFormedAttempt(a: Attempt) {
    WellFormed(a.id) && WellFormed(a.assetId) && WellFormed(a.adapter) && WellFormed(a.modelVersion)
    && WellFormed(a.configHash) && WellFormed(a.rawSha)
  }

  lemma {:induction false} KeysAscii()
    ensures Ascii(EVENT) && Ascii(JOB_ID) && Ascii(ASSET_ID) && Ascii(ADAPTER)
    ensures Ascii(MODEL_VERSION) && Ascii(CONFIG_HASH) && Ascii(VERDICT) && Ascii(RAW_SHA)
  {
  }

  lemma {:induction false} AddMember(m: PayloadMap, k: Bytes, v: Bytes)
    requires WellFormedMap(m) && Ascii(k) && WellFormed(v)
    ensures WellFormedMap(m[k := v])
  {
    AsciiWellFormed(k);
  }

  lemma {:induction false} AddAscii(m: PayloadMap, k: Bytes, v: Bytes)
    requires WellFormedMap(m) && Ascii(k) && Ascii(v)
    ensures WellFormedMap(m[k := v])
  {
    AsciiWellFormed(v);
    AddMember(m, k, v);
  }

  lemma {:induction false} DecisionWellFormed(a: Attempt, v: Verdict)
    requires WellFormedAttempt(a)
    ensures WellFormedMap(DecisionPayload(a, v))
  {
    KeysAscii();
    var m: PayloadMap := map[];
    AddMember(m, ASSET_ID, a.assetId);
    m := m[ASSET_ID := a.assetId];
    AddMember(m, ADAPTER, a.adapter);
    m := m[ADAPTER := a.adapter];
    AddMember(m, MODEL_VERSION, a.modelVersion);
    m := m[MODEL_VERSION := a.modelVersion];
    AddMember(m, CONFIG_HASH, a.configHash);
    m := m[CONFIG_HASH := a.configHash];
    AddAscii(m, VERDICT, VerdictText(v));
    m := m[VERDICT := VerdictText(v)];
    AddMember(m, RAW_SHA, a.rawSha);
    m := m[RAW_SHA := a.rawSha];
    AddMember(m, JOB_ID, a.id);
  }

  lemma {:induction false} SkipWellFormed(a: Attempt)
    requires WellFormedAttempt(a)
    ensures WellFormedMap(SkipPayload(a))
  {
    KeysAscii();
    var m: PayloadMap := map[];
    AddAscii(m, EVENT, SKIP_EVENT);
    m := m[EVENT := SKIP_EVENT];
    AddMember(m, ASSET_ID, a.assetId);
    m := m[ASSET_ID := a.assetId];
    AddMember(m, ADAPTER, a.adapter);
    m := m[ADAPTER := a.adapter];
    AddMember(m, CONFIG_HASH, a.configHash);
    m := m[CONFIG_HASH := a.configHash];
    AddMember(m, JOB_ID, a.id);
  }

  // ---------------------------------------------------------------- one delivery

  /** The disposition once the sink and the audit log have accepted the result. */
  function Accepted(v: Verdict): Disposition {
    if v.Error? then DeadLetter else Ack
  }

  /** The append a delivery asks of the audit log, if it gets that far. */
  ghost function EventOf(t: Table, a: Attempt, ending: Ending): Event {
    if a.outcome.EmptySkipped? then Note(SkipPayload(a), a.ts, ending)
    else Decide(DecisionPayload(a, VerdictOf(FramesOf(a.outcome), t)), a.ts, ending)
  }

  /** A result the sink refused is not recorded. */
  predicate Recorded(a: Attempt) {
    a.outcome.EmptySkipped? || a.sinkOk
  }

  /** ProcessJob against the state of the audit log; no disposition if the process dies in the append. */
  ghost function Process(e: EntrySum, t: Table, s: System, a: Attempt, ending: Ending): (System, Option<Disposition>)
    requires s.mem.Some?
  {
    if !Recorded(a) then (s, Some(Retry))
    else
      var ev := EventOf(t, a, ending);
      var accepted := if a.outcome.EmptySkipped? then Ack else Accepted(VerdictOf(FramesOf(a.outcome), t));
      (Apply(e, s, ev),
       if !Appends(s, ev) || ending.Completes? then Some(accepted)
       else if ending.Dies() then None
       else Some(DeadLetter))
  }

  function EndingOf(fault: Fault): Ending {
    match fault
    case NoFault => Completes
    case WriteFails => WriteError
    case HeadFails => HeadError
  }

  /** The delivery gets as far as an append: the override is always noted, a result the sink took once per job. */
  predicate ReachesLog(seen: set<Bytes>, a: Attempt) {
    a.outcome.EmptySkipped? || (a.sinkOk && a.id !in seen)
  }

  /** The sink took a result whose verdict is error. */
  ghost predicate SinkTookError(t: Table, a: Attempt) {
    !a.outcome.EmptySkipped? && a.sinkOk && VerdictOf(FramesOf(a.outcome), t) == Error
  }

  lemma {:induction false} LoggedExactly(e: EntrySum, t: Table, s: System, a: Attempt, fault: Fault)
    requires s.mem.Some?
    ensures
      var (s', d) := Process(e, t, s, a, EndingOf(fault));
      var logged := ReachesLog(s.mem.value.seen, a);
      && IdOf(SkipPayload(a)) == a.id && (forall v :: IdOf(DecisionPayload(a, v)) == a.id)
      && (d == Some(DeadLetter) <==> (logged && fault != NoFault) || SinkTookError(t, a))
      && s'.records == s.records +
           (if !logged || fault == WriteFails then []
            else [MakeRecord(e, s.mem.value, a.ts,
                    if a.outcome.EmptySkipped? then SkipPayload(a)
                    else DecisionPayload(a, VerdictOf(FramesOf(a.outcome), t)))])
      && s'.mem.Some?
      && s'.mem.value.seen == s.mem.value.seen + if logged && fault == NoFault && a.id != [] then {a.id} else {}
  {
    IdsInPayloads(a);
    assert s.records + [] == s.records;
  }

  /** ProcessJob over a live log, for every way its file operations can fail. */
  method ProcessJob(log: Log, t: Table, a: Attempt, fault: Fault) returns (disp: Disposition)
    modifies log, log.disk
    ensures disp == Retry <==> !a.outcome.EmptySkipped? && !a.sinkOk
    ensures disp == DeadLetter <==> (ReachesLog(old(log.seen), a) && fault != NoFault) || SinkTookError(t, a)
    ensures disp in {Ack, Retry, DeadLetter}
    ensures log.disk.records == old(log.disk.records) +
      if !ReachesLog(old(log.seen), a) || fault == WriteFails then []
      else [MakeRecord(log.e, old(log.Memory()), a.ts,
              if a.outcome.EmptySkipped? then SkipPayload(a)
              else DecisionPayload(a, VerdictOf(FramesOf(a.outcome), t)))]
    ensures log.seen == old(log.seen) + if ReachesLog(old(log.seen), a) && fault == NoFault && a.id != [] then {a.id} else {}
    ensures
      var s := old(System(log.disk.records, log.disk.head, Some(log.Memory())));
      (System(log.disk.records, log.disk.head, Some(log.Memory())), Some(disp)) == Process(log.e, t, s, a, EndingOf(fault))
  {
    ghost var m := log.Memory();
    LoggedExactly(log.e, t, System(log.disk.records, log.disk.head, Some(m)), a, fault);
    if a.outcome.EmptySkipped? {
      var ok := log.Append(SkipPayload(a), a.ts, fault);
      return if ok then Ack else DeadLetter;
    }
    var overall := RollupFrames(FramesOf(a.outcome), t);
    if !a.sinkOk { return Retry; }
    var ok := log.RecordDecision(DecisionPayload(a, overall.verdict), a.ts, fault);
    if !ok { return DeadLetter; }
    disp := Accepted(overall.verdict);
  }

  lemma {:induction false} IdsInPayloads(a: Attempt)
    ensures IdOf(SkipPayload(a)) == a.id && forall v :: IdOf(DecisionPayload(a, v)) == a.id
  {
    forall v
      ensures IdOf(DecisionPayload(a, v)) == a.id
    {
      PayloadFacts(a, v);
    }
    PayloadFacts(a, Allow);
  }

  /** Each answer has its one cause, for every way the append can end: it is retried when the sink refused it; there
      is no answer when the process died in the append; it is dead-lettered when the append failed otherwise or
      the sink took an error verdict; and every other delivery is acked. */
  lemma {:induction false} DispositionExactly(e: EntrySum, t: Table, s: System, a: Attempt, ending: Ending)
    requires s.mem.Some?
    ensures
      var d, logged := Process(e, t, s, a, ending).1, ReachesLog(s.mem.value.seen, a);
      && (d == Some(Retry) <==> !a.outcome.EmptySkipped? && !a.sinkOk)
      && (d == None <==> logged && (ending == DiesBeforeWrite || ending == DiesBeforeHead))
      && (d == Some(DeadLetter) <==> (logged && (ending == WriteError || ending == HeadError))
                                     || (SinkTookError(t, a) && (logged ==> ending == Completes)))
      && (d == Some(Ack) <==> (a.outcome.EmptySkipped? || a.sinkOk) && !SinkTookError(t, a)
                              && (logged ==> ending == Completes))
  {
    IdsInPayloads(a);
  }

  // ---------------------------------------------------------------- runs

  datatype Step = Restart | Die | Deliver(a: Attempt, ending: Ending)

  datatype Run = Run(log: System, acked: set<Bytes>)

  ghost function Next(e: EntrySum, t: Table, r: Run, step: Step): Run {
    match step
    case Restart => r.(log := Apply(e, r.log, Start))
    case Die => r.(log := Apply(e, r.log, Crash))
    case Deliver(a, ending) =>
      if r.log.mem.None? then r else
      var (log', disp) := Process(e, t, r.log, a, ending);
      Run(log', if disp == Some(Ack) then r.acked + {a.id} else r.acked)
  }

  ghost function RunOf(e: EntrySum, t: Table, steps: seq<Step>): Run {
    if steps == [] then Run(Empty, {})
    else Next(e, t, RunOf(e, t, steps[..|steps| - 1]), steps[|steps| - 1])
  }

  ghost predicate WellFormedSteps(steps: seq<Step>) {
    forall i :: 0 <= i < |steps| && steps[i].Deliver? ==> WellFormedAttempt(steps[i].a)
  }

  /** What the steps ask of the audit log. */
  ghost function EventsOf(t: Table, steps: seq<Step>): seq<Event> {
    if steps == [] then [] else EventsOf(t, steps[..|steps| - 1]) + EventsFor(t, steps[|steps| - 1])
  }

  ghost function EventsFor(t: Table, step: Step): seq<Event> {
    match step
    case Restart => [Start]
    case Die => [Crash]
    case Deliver(a, ending) => if Recorded(a) then [EventOf(t, a, ending)] else []
  }

  lemma {:induction false} NextAppliesEvents(e: EntrySum, t: Table, es: seq<Event>, r: Run, step: Step)
    requires r.log == After(e, es)
    ensures Next(e, t, r, step).log == After(e, es + EventsFor(t, step))
  {
    match step
    case Restart => OneMore(e, es, Start);
    case Die => OneMore(e, es, Crash);
    case Deliver(a, ending) =>
      if Recorded(a) { OneMore(e, es, EventOf(t, a, ending)); } else { assert es + [] == es; }
  }

  /** The pipeline's log goes through a run of the audit log. */
  lemma {:induction false} LogIsRun(e: EntrySum, t: Table, steps: seq<Step>)
    ensures RunOf(e, t, steps).log == After(e, EventsOf(t, steps))
  {
    if steps != [] {
      var n := |steps| - 1;
      LogIsRun(e, t, steps[..n]);
      NextAppliesEvents(e, t, EventsOf(t, steps[..n]), RunOf(e, t, steps[..n]), steps[n]);
    }
  }

  /** The payload a delivery appends, if it gets that far. */
  lemma {:induction false} EventFacts(t: Table, a: Attempt, ending: Ending)
    requires WellFormedAttempt(a)
    ensures var p := EventOf(t, a, ending).payload;
      IdOf(p) == a.id && WellFormedMap(p) && (EVENT in p <==> a.outcome.EmptySkipped?)
  {
    PayloadFacts(a, VerdictOf(FramesOf(a.outcome), t));
    if a.outcome.EmptySkipped? {
      SkipWellFormed(a);
    } else {
      DecisionWellFormed(a, VerdictOf(FramesOf(a.outcome), t));
    }
  }

  lemma {:induction false} EventsForWellFormed(t: Table, step: Step)
    requires step.Deliver? ==> WellFormedAttempt(step.a)
    ensures WellFormedEvents(EventsFor(t, step))
  {
    if step.Deliver? { EventFacts(t, step.a, step.ending); }
  }

  lemma {:induction false} EventsWellFormed(t: Table, steps: seq<Step>)
    requires WellFormedSteps(steps)
    ensures WellFormedEvents(EventsOf(t, steps))
  {
    if steps != [] {
      var n := |steps| - 1;
      EventsWellFormed(t, steps[..n]);
      EventsForWellFormed(t, steps[n]);
    }
  }

  // ---------------------------------------------------------------- decision records

  /** The ids decision records name. */
  ghost function Decided(rs: seq<Record>): set<Bytes> {
    if rs == [] then {} else Decided(rs[..|rs| - 1]) + DecidedBy(rs[|rs| - 1])
  }

  ghost function DecidedBy(r: Record): set<Bytes> {
    if IsDecision(r) then IdsOf(r.payload) else {}
  }

  ghost function Decisions(rs: seq<Record>, id: Bytes): nat {
    if rs == [] then 0 else Decisions(rs[..|rs| - 1], id) + if id in DecidedBy(rs[|rs| - 1]) then 1 else 0
  }

  ghost predicate OneDecisionEach(rs: seq<Record>) {
    forall id :: Decisions(rs, id) <= 1
  }

  lemma {:induction false} DecidedIff(rs: seq<Record>, id: Bytes)
    ensures id in Decided(rs) <==> Decisions(rs, id) > 0
    ensures id in Decided(rs) ==> id in Seen(rs)
  {
    if rs != [] { DecidedIff(rs[..|rs| - 1], id); }
  }

  lemma {:induction false} DecidedSnoc(rs: seq<Record>, r: Record)
    ensures Decided(rs + [r]) == Decided(rs) + DecidedBy(r)
    ensures OneDecisionEach(rs + [r]) <==> OneDecisionEach(rs) && DecidedBy(r) !! Decided(rs)
  {
    var all := rs + [r];
    assert all[..|rs|] == rs;
    forall id
      ensures Decisions(all, id) == Decisions(rs, id) + if id in DecidedBy(r) then 1 else 0
      ensures id in Decided(rs) <==> Decisions(rs, id) > 0
    {
      DecidedIff(rs, id);
    }
    if id :| id in DecidedBy(r) && id in Decided(rs) { assert Decisions(all, id) > 1; }
  }

  /** The event a step hands to the log of a running process. */
  ghost predicate Hands(s: System, step: Step) {
    s.mem.Some? && step.Deliver? && Recorded(step.a)
  }

  /** Jobs whose decision is on disk although the running process was told its append failed: the anchor write
      did, so it does not remember them. */
  ghost function Orphans(e: EntrySum, t: Table, steps: seq<Step>): set<Bytes> {
    if steps == [] then {}
    else
      var s, step, before := RunOf(e, t, steps[..|steps| - 1]).log, steps[|steps| - 1], Orphans(e, t, steps[..|steps| - 1]);
      if s.mem.None? then {}
      else if Hands(s, step) then before + NewOrphan(s, EventOf(t, step.a, step.ending))
      else before
  }

  /** Some job was redelivered to the process that had orphaned its decision, and got as far as a record. */
  ghost predicate Repeats(e: EntrySum, t: Table, steps: seq<Step>) {
    steps != [] &&
    var s, step := RunOf(e, t, steps[..|steps| - 1]).log, steps[|steps| - 1];
    || Repeats(e, t, steps[..|steps| - 1])
    || (Hands(s, step) && !(NewDecision(s, EventOf(t, step.a, step.ending)) !! Orphans(e, t, steps[..|steps| - 1])))
  }

  /** What the process remembers is on disk, and what it does not remember of the decisions there is orphaned. */
  ghost predicate Books(s: System, orphans: set<Bytes>) {
    && (s.mem.Some? ==> s.mem.value.seen <= Seen(s.records) && Decided(s.records) <= s.mem.value.seen + orphans)
    && orphans <= Decided(s.records)
  }

  lemma {:induction false} DecidedAreSeen(rs: seq<Record>)
    ensures Decided(rs) <= Seen(rs)
  {
    forall id | id in Decided(rs)
      ensures id in Seen(rs)
    {
      DecidedIff(rs, id);
    }
  }

  lemma {:induction false} StartBooks(e: EntrySum, s: System)
    requires AllWellFormed(s.records) && s.mem.None?
    ensures Books(Apply(e, s, Start), {})
  {
    if CanOpen(e, s) {
      Opened(e, s);
      ReadUnchanged(s.records);
      DecidedAreSeen(s.records);
    }
  }

  lemma {:induction false} AppendBooks(e: EntrySum, s: System, orphans: set<Bytes>, p: PayloadMap, ts: Bytes, ending: Ending)
    requires Books(s, orphans) && s.mem.Some?
    ensures Books(Appended(e, s, p, ts, ending),
      if ending.HeadError? && EVENT !in p then orphans + IdsOf(p) else orphans)
  {
    var r := MakeRecord(e, s.mem.value, ts, p);
    SeenSnoc(s.records, r);
    DecidedSnoc(s.records, r);
  }

  /** What an event writes into the books: its id, if it writes a decision. */
  ghost function NewDecision(s: System, ev: Event): set<Bytes> {
    if Writes(s, ev) && EVENT !in ev.payload then IdsOf(ev.payload) else {}
  }

  ghost function NewOrphan(s: System, ev: Event): set<Bytes> {
    if Writes(s, ev) && ev.ending.HeadError? then NewDecision(s, ev) else {}
  }

  lemma {:induction false} EventBooks(e: EntrySum, s: System, orphans: set<Bytes>, ev: Event)
    requires Books(s, orphans) && s.mem.Some? && (ev.Decide? || ev.Note?)
    ensures Books(Apply(e, s, ev), orphans + NewOrphan(s, ev))
  {
    if Appends(s, ev) { AppendBooks(e, s, orphans, ev.payload, ev.ts, ev.ending); }
  }

  /** One more event: ids stay named, and decisions stay single unless this one was there before. */
  lemma {:induction false} EventRecords(e: EntrySum, s: System, ev: Event)
    requires s.mem.Some? && (ev.Decide? || ev.Note?)
    ensures var s' := Apply(e, s, ev);
      && (OneDecisionEach(s'.records) <==> OneDecisionEach(s.records) && NewDecision(s, ev) !! Decided(s.records))
      && Seen(s.records) <= Seen(s'.records)
      && (Writes(s, ev) ==> IdsOf(ev.payload) <= Seen(s'.records))
  {
    if Writes(s, ev) {
      var r := MakeRecord(e, s.mem.value, ev.ts, ev.payload);
      SeenSnoc(s.records, r);
      DecidedSnoc(s.records, r);
    }
  }

  /** State after some steps, with the orphans of its process and whether a decision was repeated. */
  ghost predicate Balanced(r: Run, orphans: set<Bytes>, repeated: bool) {
    && AllWellFormed(r.log.records)
    && Books(r.log, orphans)
    && r.acked - {[]} <= Seen(r.log.records)
    && (OneDecisionEach(r.log.records) <==> !repeated)
  }

  lemma {:induction false} EventAccounted(
      e: EntrySum, r: Run, orphans: set<Bytes>, repeated: bool, ev: Event, acked: set<Bytes>)
    requires Balanced(r, orphans, repeated) && r.log.mem.Some?
    requires (ev.Decide? || (ev.Note? && EVENT in ev.payload)) && WellFormedMap(ev.payload)
    requires acked == r.acked || (acked == r.acked + {IdOf(ev.payload)} && (Writes(r.log, ev) || (ev.Decide? && !Appends(r.log, ev))))
    ensures Balanced(Run(Apply(e, r.log, ev), acked), orphans + NewOrphan(r.log, ev),
      repeated || !(NewDecision(r.log, ev) !! orphans))
  {
    EventBooks(e, r.log, orphans, ev);
    EventRecords(e, r.log, ev);
    EventWellFormed(e, r.log, ev);
    RepeatIsOrphaned(r.log, orphans, ev);
    AckedStaySeen(e, r, ev, acked);
  }

  /** A decision the log accepts is on disk already exactly when its job is orphaned. */
  lemma {:induction false} RepeatIsOrphaned(s: System, orphans: set<Bytes>, ev: Event)
    requires Books(s, orphans) && (ev.Decide? || (ev.Note? && EVENT in ev.payload))
    ensures NewDecision(s, ev) !! Decided(s.records) <==> NewDecision(s, ev) !! orphans
  {
    if id :| id in NewDecision(s, ev) && id in Decided(s.records) { assert id in s.mem.value.seen + orphans; }
  }

  lemma {:induction false} AckedStaySeen(e: EntrySum, r: Run, ev: Event, acked: set<Bytes>)
    requires r.log.mem.Some? && (ev.Decide? || ev.Note?)
    requires r.acked - {[]} <= Seen(r.log.records) && r.log.mem.value.seen <= Seen(r.log.records)
    requires acked == r.acked || (acked == r.acked + {IdOf(ev.payload)} && (Writes(r.log, ev) || (ev.Decide? && !Appends(r.log, ev))))
    ensures acked - {[]} <= Seen(Apply(e, r.log, ev).records)
  {
    EventRecords(e, r.log, ev);
  }

  lemma {:induction false} EventWellFormed(e: EntrySum, s: System, ev: Event)
    requires AllWellFormed(s.records) && (ev.Decide? || ev.Note? ==> WellFormedMap(ev.payload))
    ensures AllWellFormed(Apply(e, s, ev).records)
  {
  }

  /** A delivery to a running process applies its event, and acks only what is on disk or remembered. */
  lemma {:induction false} DeliverIsEvent(e: EntrySum, t: Table, r: Run, a: Attempt, ending: Ending)
    requires r.log.mem.Some? && Recorded(a)
    ensures var ev, r' := EventOf(t, a, ending), Next(e, t, r, Deliver(a, ending));
      && r'.log == Apply(e, r.log, ev)
      && (r'.acked == r.acked ||
          (r'.acked == r.acked + {a.id} && (Writes(r.log, ev) || (ev.Decide? && !Appends(r.log, ev)))))
  {
  }

  lemma {:induction false} DeliverAccounted(
      e: EntrySum, t: Table, r: Run, orphans: set<Bytes>, repeated: bool, a: Attempt, ending: Ending)
    requires Balanced(r, orphans, repeated) && r.log.mem.Some? && Recorded(a) && WellFormedAttempt(a)
    ensures var ev := EventOf(t, a, ending);
      Balanced(Next(e, t, r, Deliver(a, ending)), orphans + NewOrphan(r.log, ev),
        repeated || !(NewDecision(r.log, ev) !! orphans))
  {
    var ev, r' := EventOf(t, a, ending), Next(e, t, r, Deliver(a, ending));
    EventFacts(t, a, ending);
    DeliverIsEvent(e, t, r, a, ending);
    EventAccounted(e, r, orphans, repeated, ev, r'.acked);
  }

  lemma {:induction false} OtherAccounted(e: EntrySum, t: Table, r: Run, orphans: set<Bytes>, repeated: bool, step: Step)
    requires Balanced(r, orphans, repeated) && !Hands(r.log, step)
    ensures Balanced(Next(e, t, r, step), if r.log.mem.None? then {} else orphans, repeated)
  {
    if step.Restart? && r.log.mem.None? { StartBooks(e, r.log); }
  }

  lemma {:induction false} RunAccounted(e: EntrySum, t: Table, steps: seq<Step>)
    requires WellFormedSteps(steps)
    ensures Balanced(RunOf(e, t, steps), Orphans(e, t, steps), Repeats(e, t, steps))
  {
    if steps != [] {
      var n := |steps| - 1;
      var r, step := RunOf(e, t, steps[..n]), steps[n];
      var orphans, repeated := Orphans(e, t, steps[..n]), Repeats(e, t, steps[..n]);
      RunAccounted(e, t, steps[..n]);
      if Hands(r.log, step) {
        DeliverAccounted(e, t, r, orphans, repeated, step.a, step.ending);
      } else {
        OtherAccounted(e, t, r, orphans, repeated, step);
      }
    }
  }

  lemma {:induction false} OrphanNeedsFailure(e: EntrySum, es: seq<Event>, ev: Event, orphans: set<Bytes>)
    requires orphans != {} ==> Survived(e, es) > 0
    ensures var s, all := After(e, es), es + [ev];
      && (s.mem.Some? && orphans + NewOrphan(s, ev) != {} ==> Survived(e, all) > 0)
      && (!NeverBehind(e, es) || !(NewDecision(s, ev) !! orphans) ==> !NeverBehind(e, all))
  {
    OneMore(e, es, ev);
  }

  lemma {:induction false} HandedEvent(t: Table, steps: seq<Step>)
    requires steps != []
    ensures var step, es := steps[|steps| - 1], EventsOf(t, steps[..|steps| - 1]);
      EventsOf(t, steps) ==
        match step
        case Restart => es + [Start]
        case Die => es + [Crash]
        case Deliver(a, ending) => if Recorded(a) then es + [EventOf(t, a, ending)] else es
  {
  }

  /** A process with orphans has survived a failed anchor write, and a repeated decision is one behind the log. */
  lemma {:induction false} OrphansSurvived(e: EntrySum, t: Table, steps: seq<Step>)
    ensures Orphans(e, t, steps) != {} ==> Survived(e, EventsOf(t, steps)) > 0
    ensures Repeats(e, t, steps) ==> !NeverBehind(e, EventsOf(t, steps))
  {
    if steps != [] {
      var n := |steps| - 1;
      var step, es, orphans := steps[n], EventsOf(t, steps[..n]), Orphans(e, t, steps[..n]);
      OrphansSurvived(e, t, steps[..n]);
      LogIsRun(e, t, steps[..n]);
      HandedEvent(t, steps);
      match step
      case Restart => OrphanNeedsFailure(e, es, Start, orphans);
      case Die => OrphanNeedsFailure(e, es, Crash, orphans);
      case Deliver(a, ending) => if Recorded(a) { OrphanNeedsFailure(e, es, EventOf(t, a, ending), orphans); }
    }
  }

  /**
   * Within one log, over any redeliveries, crashes, restarts and failed writes: every acked job with an id is
   * named by a record; no id has two decision records exactly when no job was redelivered to a process that had
   * orphaned it; the log opens exactly when no record was written behind its back; and while it opens both hold.
   */
  lemma {:induction false} AckedJobsAreRecorded(e: EntrySum, t: Table, steps: seq<Step>)
    requires WellFormedSteps(steps)
    ensures forall id :: id in RunOf(e, t, steps).acked && id != [] ==> id in Seen(RunOf(e, t, steps).log.records)
    ensures OneDecisionEach(RunOf(e, t, steps).log.records) <==> !Repeats(e, t, steps)
    ensures CanOpen(e, RunOf(e, t, steps).log) <==> NeverBehind(e, EventsOf(t, steps))
    ensures CanOpen(e, RunOf(e, t, steps).log) ==> OneDecisionEach(RunOf(e, t, steps).log.records)
  {
    RunAccounted(e, t, steps);
    OrphansSurvived(e, t, steps);
    LogIsRun(e, t, steps);
    EventsWellFormed(t, steps);
    LogReopensIff(e, EventsOf(t, steps));
  }

  lemma {:induction false} OneMoreStep(e: EntrySum, t: Table, steps: seq<Step>, step: Step)
    ensures var r, all := RunOf(e, t, steps), steps + [step];
      && RunOf(e, t, all) == Next(e, t, r, step)
      && (Hands(r.log, step) ==>
            var ev := EventOf(t, step.a, step.ending);
            && Orphans(e, t, all) == Orphans(e, t, steps) + NewOrphan(r.log, ev)
            && (Repeats(e, t, all) <==> Repeats(e, t, steps) || !(NewDecision(r.log, ev) !! Orphans(e, t, steps))))
  {
    assert (steps + [step])[..|steps|] == steps;
  }

  /** An evaluated job the sink takes, whose verdict is acked. */
  ghost predicate Settles(t: Table, a: Attempt) {
    WellFormedAttempt(a) && a.id != [] && a.outcome.Evaluated? && a.sinkOk && !VerdictOf(a.outcome.frames, t).Error?
  }

  lemma {:induction false} DecisionEvent(t: Table, a: Attempt, ending: Ending, s: System)
    requires Settles(t, a) && s.mem.Some? && a.id !in s.mem.value.seen && ending.Writes()
    ensures var ev := EventOf(t, a, ending);
      && Writes(s, ev) && ev.ending == ending && NewDecision(s, ev) == {a.id}
  {
    EventFacts(t, a, ending);
  }

  lemma {:induction false} DeliverOrphans(e: EntrySum, t: Table, steps: seq<Step>, a: Attempt)
    requires Settles(t, a) && RunOf(e, t, steps).log.mem.Some? && a.id !in RunOf(e, t, steps).log.mem.value.seen
    ensures var all := steps + [Deliver(a, HeadError)];
      && RunOf(e, t, all).log.mem == RunOf(e, t, steps).log.mem && a.id in Orphans(e, t, all)
  {
    DecisionEvent(t, a, HeadError, RunOf(e, t, steps).log);
    OneMoreStep(e, t, steps, Deliver(a, HeadError));
  }

  lemma {:induction false} DeliverRepeats(e: EntrySum, t: Table, steps: seq<Step>, a: Attempt)
    requires Settles(t, a) && RunOf(e, t, steps).log.mem.Some? && a.id !in RunOf(e, t, steps).log.mem.value.seen
    requires a.id in Orphans(e, t, steps)
    ensures var all := steps + [Deliver(a, Completes)];
      Repeats(e, t, all) && a.id in RunOf(e, t, all).acked
  {
    DecisionEvent(t, a, Completes, RunOf(e, t, steps).log);
    OneMoreStep(e, t, steps, Deliver(a, Completes));
  }

  /** Where the promise fails: from any running process, a job whose anchor write fails and which is delivered to
      that process again is acked with two decision records, in a log that no longer opens. */
  lemma {:induction false} OrphanedJobIsDecidedTwice(e: EntrySum, t: Table, steps: seq<Step>, a: Attempt)
    requires WellFormedSteps(steps) && Settles(t, a)
    requires RunOf(e, t, steps).log.mem.Some? && a.id !in RunOf(e, t, steps).log.mem.value.seen
    ensures var r := RunOf(e, t, steps + [Deliver(a, HeadError)] + [Deliver(a, Completes)]);
      a.id in r.acked && !OneDecisionEach(r.log.records) && !CanOpen(e, r.log)
  {
    var orphaned := steps + [Deliver(a, HeadError)];
    DeliverOrphans(e, t, steps, a);
    DeliverRepeats(e, t, orphaned, a);
    AckedJobsAreRecorded(e, t, orphaned + [Deliver(a, Completes)]);
  }

  /** The first process of a log is one such run. */
  lemma {:induction false} FirstJobDecidedTwice(e: EntrySum, t: Table, a: Attempt)
    requires Settles(t, a)
    ensures var r := RunOf(e, t, [Restart] + [Deliver(a, HeadError)] + [Deliver(a, Completes)]);
      a.id in r.acked && !OneDecisionEach(r.log.records) && !CanOpen(e, r.log)
  {
    assert [] + [Restart] == [Restart];
    OneMoreStep(e, t, [], Restart);
    assert ReadRecords([]) == [];
    OrphanedJobIsDecidedTwice(e, t, [Restart], a);
  }

  /** Fail safe: a job whose evidence is missing or incomplete is acked only by the audited skip override or
      when a boundary was reached anyway and the verdict is block. */
  lemma {:induction false} AckNeedsEvidence(e: EntrySum, t: Table, s: System, a: Attempt, ending: Ending)
    requires s.mem.Some? && Process(e, t, s, a, ending).1 == Some(Ack)
    ensures
      || a.outcome.EmptySkipped?
      || (&& a.sinkOk && a.outcome.Evaluated?
          && var v := VerdictOf(a.outcome.frames, t);
             !v.Error? && (AnyErrored(a.outcome.frames) || !AnyScore(a.outcome.frames) ==> v == Block))
  {
    assert FramesOf(CouldNotEvaluate)[0] in FramesOf(CouldNotEvaluate);
  }
}
