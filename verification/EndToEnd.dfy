/**
 One replica from evaluation to ack: the fan-out over its sinks, then its audit log. The claim sets of the sinks
 live as long as the process; what they wrote and what the log holds stays.
 */
module EndToEnd {
  import opened QueueTypes
  import opened Moderation
  import opened Thresholds
  import opened Rollup
  import opened AuditEncoding
  import opened AuditChain
  import opened AuditLog
  import opened AuditRuns
  import Pipeline
  import opened Sinks
  import SinkMemory

  /** A Go string's bytes as characters. */
  function Text(b: Bytes): JobID {
    if b == [] then "" else [b[0] as char] + Text(b[1..])
  }

  /** The envelope of an evaluated job. */
  ghost function EnvelopeOf(t: Table, a: Pipeline.Attempt, kind: string): Envelope {
    var frames := Pipeline.FramesOf(a.outcome);
    Envelope(Text(a.id), kind, Some(VerdictOf(frames, t)), frames)
  }

  /** A delivery; `works` says which sinks would manage the write. Whether the fan-out succeeds follows from it. */
  datatype Step =
    | Restart
    | Die
    | Deliver(a: Pipeline.Attempt, kind: string, now: int, works: seq<bool>, ending: Ending)

  /** What the replica has acked with an envelope, beside its sinks and its log. */
  datatype Node = Node(run: Pipeline.Run, sinks: seq<SinkState>, settled: seq<(Bytes, Envelope)>)

  predicate Works(works: seq<bool>, k: nat) { k < |works| && works[k] }

  /** MultiSink.Write: every sink is attempted. */
  function WrittenAll(sinks: seq<SinkState>, retain: nat, now: int, env: Envelope, works: seq<bool>, k: nat): (out: seq<SinkState>)
    requires k <= |sinks|
    ensures |out| == k
    ensures forall i :: 0 <= i < k ==> out[i] == Written(sinks[i], retain, now, env, Works(works, i))
  {
    if k == 0 then []
    else WrittenAll(sinks, retain, now, env, works, k - 1) + [Written(sinks[k - 1], retain, now, env, Works(works, k - 1))]
  }

  predicate NoneFails(sinks: seq<SinkState>, retain: nat, now: int, env: Envelope, works: seq<bool>) {
    forall k :: 0 <= k < |sinks| ==> !Fails(sinks[k], retain, now, env, Works(works, k))
  }

  function Forgotten(sinks: seq<SinkState>): (out: seq<SinkState>)
    ensures |out| == |sinks|
    ensures forall k :: 0 <= k < |sinks| ==> out[k] == sinks[k].(claims := Claims(map[], None))
  {
    if sinks == [] then [] else [sinks[0].(claims := Claims(map[], None))] + Forgotten(sinks[1..])
  }

  ghost function Delivered(e: EntrySum, t: Table, retain: nat, y: Node, step: Step): Node
    requires step.Deliver? && y.run.log.mem.Some?
  {
    if step.a.outcome.EmptySkipped? then
      y.(run := Pipeline.Next(e, t, y.run, Pipeline.Deliver(step.a, step.ending)))
    else
      var env := EnvelopeOf(t, step.a, step.kind);
      var a := step.a.(sinkOk := NoneFails(y.sinks, retain, step.now, env, step.works));
      var acked := Pipeline.Process(e, t, y.run.log, a, step.ending).1 == Some(Ack);
      Node(
        Pipeline.Next(e, t, y.run, Pipeline.Deliver(a, step.ending)),
        WrittenAll(y.sinks, retain, step.now, env, step.works, |y.sinks|),
        if acked then y.settled + [(a.id, env)] else y.settled)
  }

  ghost function Next(e: EntrySum, t: Table, retain: nat, y: Node, step: Step): Node {
    match step
    case Restart =>
      Node(Pipeline.Next(e, t, y.run, Pipeline.Restart), if y.run.log.mem.None? then Forgotten(y.sinks) else y.sinks, y.settled)
    case Die => y.(run := Pipeline.Next(e, t, y.run, Pipeline.Die))
    case Deliver(_, _, _, _, _) => if y.run.log.mem.None? then y else Delivered(e, t, retain, y, step)
  }

  function FreshSinks(routes: seq<Predicate>): (out: seq<SinkState>)
    ensures |out| == |routes| && forall k :: 0 <= k < |routes| ==> out[k] == Fresh(routes[k])
  {
    if routes == [] then [] else [Fresh(routes[0])] + FreshSinks(routes[1..])
  }

  ghost function RunOf(e: EntrySum, t: Table, retain: nat, routes: seq<Predicate>, steps: seq<Step>): Node {
    if steps == [] then Node(Pipeline.Run(Empty, {}), FreshSinks(routes), [])
    else Next(e, t, retain, RunOf(e, t, retain, routes, steps[..|steps| - 1]), steps[|steps| - 1])
  }

  // ---------------------------------------------------------------- sinks

  /** A claim that is held was written. */
  ghost predicate ClaimsEmitted(s: SinkState) {
    forall id :: id in s.claims.written ==> HasEmitted(s, id)
  }

  /** Same sink, later. */
  ghost predicate Later(s: SinkState, s': SinkState) {
    s'.route == s.route && s.emitted <= s'.emitted
  }

  lemma {:induction false} EmittedStays(s: SinkState, s': SinkState, id: JobID)
    requires Later(s, s') && HasEmitted(s, id)
    ensures HasEmitted(s', id)
  {
    var i :| 0 <= i < |s.emitted| && s.emitted[i].env.id == id;
    assert s'.emitted[i] == s.emitted[i];
  }

  lemma {:induction false} WriteEmits(s: SinkState, retain: nat, now: int, env: Envelope, works: bool)
    requires ClaimsEmitted(s)
    ensures var s' := Written(s, retain, now, env, works);
      && Later(s, s') && ClaimsEmitted(s')
      && (Matches(s.route, env) && !Fails(s, retain, now, env, works) ==> HasEmitted(s', env.id))
  {
    var s' := Written(s, retain, now, env, works);
    forall id | HasEmitted(s, id)
      ensures HasEmitted(s', id)
    {
      EmittedStays(s, s', id);
    }
    if Matches(s.route, env) && Owns(s.claims, retain, now, env.id) && works {
      assert s'.emitted[|s.emitted|] == Emission(env, now);
    }
  }

  // ---------------------------------------------------------------- the run

  ghost predicate SinksOk(routes: seq<Predicate>, sinks: seq<SinkState>) {
    |sinks| == |routes| && forall k :: 0 <= k < |sinks| ==> sinks[k].route == routes[k] && ClaimsEmitted(sinks[k])
  }

  ghost predicate AllLater(sinks: seq<SinkState>, sinks': seq<SinkState>) {
    |sinks'| == |sinks| && forall k :: 0 <= k < |sinks| ==> Later(sinks[k], sinks'[k])
  }

  /** Every sink that matches the envelope has emitted its id. */
  ghost predicate Emitted(routes: seq<Predicate>, sinks: seq<SinkState>, env: Envelope)
    requires |sinks| == |routes|
  {
    forall k :: 0 <= k < |routes| && Matches(routes[k], env) ==> HasEmitted(sinks[k], env.id)
  }

  lemma {:induction false} EmittedLater(routes: seq<Predicate>, sinks: seq<SinkState>, sinks': seq<SinkState>, env: Envelope)
    requires |sinks| == |routes| && AllLater(sinks, sinks') && Emitted(routes, sinks, env)
    ensures Emitted(routes, sinks', env)
  {
    forall k | 0 <= k < |routes| && Matches(routes[k], env)
      ensures HasEmitted(sinks'[k], env.id)
    {
      EmittedStays(sinks[k], sinks'[k], env.id);
    }
  }

  lemma {:induction false} WriteAllEmits(
      routes: seq<Predicate>, sinks: seq<SinkState>, retain: nat, now: int, env: Envelope, works: seq<bool>)
    requires SinksOk(routes, sinks)
    ensures var sinks' := WrittenAll(sinks, retain, now, env, works, |sinks|);
      && SinksOk(routes, sinks') && AllLater(sinks, sinks')
      && (NoneFails(sinks, retain, now, env, works) ==> Emitted(routes, sinks', env))
  {
    forall k | 0 <= k < |sinks|
      ensures var s' := Written(sinks[k], retain, now, env, Works(works, k));
        && Later(sinks[k], s') && ClaimsEmitted(s')
        && (Matches(routes[k], env) && !Fails(sinks[k], retain, now, env, Works(works, k)) ==> HasEmitted(s', env.id))
    {
      WriteEmits(sinks[k], retain, now, env, Works(works, k));
    }
  }

  ghost predicate AllDelivered(routes: seq<Predicate>, y: Node) {
    && SinksOk(routes, y.sinks)
    && (forall x :: x in y.settled ==> Emitted(routes, y.sinks, x.1) && x.0 in y.run.acked && x.1.id == Text(x.0))
  }

  lemma {:induction false} SettledLater(routes: seq<Predicate>, y: Node, y': Node)
    requires AllDelivered(routes, y) && SinksOk(routes, y'.sinks) && AllLater(y.sinks, y'.sinks)
    requires y'.settled == y.settled && y.run.acked <= y'.run.acked
    ensures AllDelivered(routes, y')
  {
    forall x | x in y'.settled
      ensures Emitted(routes, y'.sinks, x.1)
    {
      EmittedLater(routes, y.sinks, y'.sinks, x.1);
    }
  }

  lemma {:induction false} AckedGrows(e: EntrySum, t: Table, r: Pipeline.Run, step: Pipeline.Step)
    ensures r.acked <= Pipeline.Next(e, t, r, step).acked
    ensures step.Deliver? && r.log.mem.Some? && Pipeline.Process(e, t, r.log, step.a, step.ending).1 == Some(Ack) ==>
      step.a.id in Pipeline.Next(e, t, r, step).acked
  {
  }

  /** Acked after an evaluation means the fan-out reported no failure. */
  lemma {:induction false} AckNeedsSinks(e: EntrySum, t: Table, s: System, a: Pipeline.Attempt, ending: Ending)
    requires s.mem.Some? && !a.outcome.EmptySkipped? && Pipeline.Process(e, t, s, a, ending).1 == Some(Ack)
    ensures a.sinkOk
  {
  }

  lemma {:induction false} DeliveredSettled(
      e: EntrySum, t: Table, retain: nat, routes: seq<Predicate>, y: Node, step: Step)
    requires AllDelivered(routes, y) && step.Deliver? && y.run.log.mem.Some? && !step.a.outcome.EmptySkipped?
    ensures AllDelivered(routes, Delivered(e, t, retain, y, step))
  {
    var env := EnvelopeOf(t, step.a, step.kind);
    var a := step.a.(sinkOk := NoneFails(y.sinks, retain, step.now, env, step.works));
    var y' := Delivered(e, t, retain, y, step);
    WriteAllEmits(routes, y.sinks, retain, step.now, env, step.works);
    AckedGrows(e, t, y.run, Pipeline.Deliver(a, step.ending));
    SettledLater(routes, y, y'.(settled := y.settled));
    if Pipeline.Process(e, t, y.run.log, a, step.ending).1 == Some(Ack) {
      AckNeedsSinks(e, t, y.run.log, a, step.ending);
      assert Emitted(routes, y'.sinks, env);
    }
  }

  lemma {:induction false} NextSettled(e: EntrySum, t: Table, retain: nat, routes: seq<Predicate>, y: Node, step: Step)
    requires AllDelivered(routes, y)
    ensures AllDelivered(routes, Next(e, t, retain, y, step))
  {
    var y' := Next(e, t, retain, y, step);
    match step
    case Restart =>
      AckedGrows(e, t, y.run, Pipeline.Restart);
      SettledLater(routes, y, y');
    case Die =>
      AckedGrows(e, t, y.run, Pipeline.Die);
      SettledLater(routes, y, y');
    case Deliver(a, _, _, _, ending) =>
      if y.run.log.mem.Some? {
        if a.outcome.EmptySkipped? {
          AckedGrows(e, t, y.run, Pipeline.Deliver(a, ending));
          SettledLater(routes, y, y');
        } else {
          DeliveredSettled(e, t, retain, routes, y, step);
        }
      }
  }

  lemma {:induction false} RunSettled(e: EntrySum, t: Table, retain: nat, routes: seq<Predicate>, steps: seq<Step>)
    ensures AllDelivered(routes, RunOf(e, t, retain, routes, steps))
  {
    if steps != [] {
      RunSettled(e, t, retain, routes, steps[..|steps| - 1]);
      NextSettled(e, t, retain, routes, RunOf(e, t, retain, routes, steps[..|steps| - 1]), steps[|steps| - 1]);
    }
  }

  // ---------------------------------------------------------------- the log of the run

  /** What the step is to the pipeline, with the fan-out's outcome filled in. */
  ghost function InnerStep(t: Table, retain: nat, y: Node, step: Step): Pipeline.Step {
    match step
    case Restart => Pipeline.Restart
    case Die => Pipeline.Die
    case Deliver(a, kind, now, works, ending) =>
      if a.outcome.EmptySkipped? then Pipeline.Deliver(a, ending)
      else Pipeline.Deliver(a.(sinkOk := NoneFails(y.sinks, retain, now, EnvelopeOf(t, a, kind), works)), ending)
  }

  ghost function Inner(e: EntrySum, t: Table, retain: nat, routes: seq<Predicate>, steps: seq<Step>): seq<Pipeline.Step> {
    if steps == [] then []
    else
      Inner(e, t, retain, routes, steps[..|steps| - 1])
      + [InnerStep(t, retain, RunOf(e, t, retain, routes, steps[..|steps| - 1]), steps[|steps| - 1])]
  }

  lemma {:induction false} NextIsInner(e: EntrySum, t: Table, retain: nat, y: Node, step: Step)
    ensures Next(e, t, retain, y, step).run == Pipeline.Next(e, t, y.run, InnerStep(t, retain, y, step))
  {
  }

  lemma {:induction false} RunIsInner(e: EntrySum, t: Table, retain: nat, routes: seq<Predicate>, steps: seq<Step>)
    ensures RunOf(e, t, retain, routes, steps).run == Pipeline.RunOf(e, t, Inner(e, t, retain, routes, steps))
  {
    if steps != [] {
      var n := |steps| - 1;
      var y := RunOf(e, t, retain, routes, steps[..n]);
      RunIsInner(e, t, retain, routes, steps[..n]);
      NextIsInner(e, t, retain, y, steps[n]);
      Pipeline.OneMoreStep(e, t, Inner(e, t, retain, routes, steps[..n]), InnerStep(t, retain, y, steps[n]));
    }
  }

  ghost predicate WellFormedSteps(steps: seq<Step>) {
    forall i :: 0 <= i < |steps| && steps[i].Deliver? ==> Pipeline.WellFormedAttempt(steps[i].a)
  }

  lemma {:induction false} InnerWellFormed(e: EntrySum, t: Table, retain: nat, routes: seq<Predicate>, steps: seq<Step>)
    requires WellFormedSteps(steps)
    ensures Pipeline.WellFormedSteps(Inner(e, t, retain, routes, steps))
  {
    if steps != [] { InnerWellFormed(e, t, retain, routes, steps[..|steps| - 1]); }
  }

  /**
   * Over any deliveries, redeliveries, failures, crashes and restarts of a replica: a job acked after evaluation is
   * named in the audit log, and every sink whose route matches its envelope has emitted it, at least one of them if
   * the configuration has an unconditional sink.
   */
  lemma {:induction false} AckedMeansDelivered(
      e: EntrySum, t: Table, retain: nat, routes: seq<Predicate>, steps: seq<Step>, id: Bytes, env: Envelope)
    requires WellFormedSteps(steps) && (id, env) in RunOf(e, t, retain, routes, steps).settled
    ensures var y := RunOf(e, t, retain, routes, steps);
      && |y.sinks| == |routes| && Emitted(routes, y.sinks, env) && env.id == Text(id)
      && (id != [] ==> id in Seen(y.run.log.records))
      && (RoutesAccepted(routes, false) ==>
            exists k :: 0 <= k < |routes| && Matches(routes[k], env) && HasEmitted(y.sinks[k], env.id))
  {
    RunSettled(e, t, retain, routes, steps);
    RunIsInner(e, t, retain, routes, steps);
    InnerWellFormed(e, t, retain, routes, steps);
    Pipeline.AckedJobsAreRecorded(e, t, Inner(e, t, retain, routes, steps));
    if RoutesAccepted(routes, false) {
      var k :| 0 <= k < |routes| && routes[k].IsEmpty();
      EmptyMatchesAll(routes[k], env);
    }
  }

  // ---------------------------------------------------------------- which verdict went where

  ghost function VerdictFor(t: Table, a: Pipeline.Attempt): Verdict {
    VerdictOf(Pipeline.FramesOf(a.outcome), t)
  }

  /** The step evaluates job id, to v, in a running process. */
  ghost predicate Evaluates(t: Table, y: Node, step: Step, id: Bytes, v: Verdict) {
    step.Deliver? && y.run.log.mem.Some? && !step.a.outcome.EmptySkipped? && step.a.id == id && VerdictFor(t, step.a) == v
  }

  /** Sink k writes the envelope of this step. */
  ghost predicate Emits(t: Table, retain: nat, y: Node, step: Step, k: nat)
    requires step.Deliver? && k < |y.sinks|
  {
    var env := EnvelopeOf(t, step.a, step.kind);
    Matches(y.sinks[k].route, env) && Owns(y.sinks[k].claims, retain, step.now, env.id) && Works(step.works, k)
  }

  /** Some delivery of id that evaluated to v was written by some sink. */
  ghost predicate EmittedBy(
      e: EntrySum, t: Table, retain: nat, routes: seq<Predicate>, steps: seq<Step>, id: Bytes, v: Verdict)
  {
    steps != [] &&
    var y, step := RunOf(e, t, retain, routes, steps[..|steps| - 1]), steps[|steps| - 1];
    || EmittedBy(e, t, retain, routes, steps[..|steps| - 1], id, v)
    || (Evaluates(t, y, step, id, v) && exists k :: 0 <= k < |y.sinks| && Emits(t, retain, y, step, k))
  }

  /** Some delivery of id that evaluated to v put its decision into the audit log. */
  ghost predicate RecordedBy(
      e: EntrySum, t: Table, retain: nat, routes: seq<Predicate>, steps: seq<Step>, id: Bytes, v: Verdict)
  {
    steps != [] &&
    var y, step := RunOf(e, t, retain, routes, steps[..|steps| - 1]), steps[|steps| - 1];
    || RecordedBy(e, t, retain, routes, steps[..|steps| - 1], id, v)
    || (Evaluates(t, y, step, id, v) && Records(t, retain, y, step))
  }

  ghost predicate Records(t: Table, retain: nat, y: Node, step: Step)
    requires step.Deliver?
  {
    && NoneFails(y.sinks, retain, step.now, EnvelopeOf(t, step.a, step.kind), step.works)
    && Writes(y.run.log, Pipeline.EventOf(t, step.a, step.ending))
  }

  /** A sink holds an emission of id with verdict v. */
  ghost predicate SinkHas(s: SinkState, id: Bytes, v: Verdict) {
    exists i :: 0 <= i < |s.emitted| && s.emitted[i].env.id == Text(id) && s.emitted[i].env.verdict == Some(v)
  }

  ghost predicate Out(sinks: seq<SinkState>, id: Bytes, v: Verdict) {
    exists k :: 0 <= k < |sinks| && SinkHas(sinks[k], id, v)
  }

  /** The decision record of id says v. */
  ghost predicate Audited(rs: seq<Record>, id: Bytes, v: Verdict) {
    exists i :: 0 <= i < |rs| && DecidesAs(rs[i], id, v)
  }

  ghost predicate DecidesAs(r: Record, id: Bytes, v: Verdict) {
    && EVENT !in r.payload && IdOf(r.payload) == id
    && Pipeline.VERDICT in r.payload && r.payload[Pipeline.VERDICT] == Pipeline.VerdictText(v)
  }

  lemma {:induction false} TextInjective(a: Bytes, b: Bytes)
    requires Text(a) == Text(b)
    ensures a == b
    decreases |a|
  {
    if a != [] && b != [] {
      assert Text(a)[1..] == Text(a[1..]) && Text(b)[1..] == Text(b[1..]);
      assert Text(a)[0] == Text(b)[0];
      TextInjective(a[1..], b[1..]);
      assert a == [a[0]] + a[1..] && b == [b[0]] + b[1..];
    }
  }

  lemma {:induction false} SinkHasSnoc(s: SinkState, s': SinkState, x: Emission, id: Bytes, v: Verdict)
    requires s'.emitted == s.emitted + [x]
    ensures SinkHas(s', id, v) <==> SinkHas(s, id, v) || (x.env.id == Text(id) && x.env.verdict == Some(v))
  {
    assert s'.emitted[|s.emitted|] == x;
    if SinkHas(s, id, v) {
      var i :| 0 <= i < |s.emitted| && s.emitted[i].env.id == Text(id) && s.emitted[i].env.verdict == Some(v);
      assert s'.emitted[i] == s.emitted[i];
    }
  }

  /** What one delivery adds to one sink. */
  lemma {:induction false} SinkStep(t: Table, retain: nat, y: Node, step: Step, k: nat, id: Bytes, v: Verdict)
    requires step.Deliver? && !step.a.outcome.EmptySkipped? && y.run.log.mem.Some? && k < |y.sinks|
    ensures var env := EnvelopeOf(t, step.a, step.kind);
      SinkHas(Written(y.sinks[k], retain, step.now, env, Works(step.works, k)), id, v)
      <==> SinkHas(y.sinks[k], id, v) || (Evaluates(t, y, step, id, v) && Emits(t, retain, y, step, k))
  {
    var env := EnvelopeOf(t, step.a, step.kind);
    var s' := Written(y.sinks[k], retain, step.now, env, Works(step.works, k));
    if Emits(t, retain, y, step, k) {
      SinkHasSnoc(y.sinks[k], s', Emission(env, step.now), id, v);
      if env.id == Text(id) { TextInjective(step.a.id, id); }
    } else {
      assert s'.emitted == y.sinks[k].emitted;
    }
  }

  lemma {:induction false} SameEmissions(sinks: seq<SinkState>, sinks': seq<SinkState>, id: Bytes, v: Verdict)
    requires |sinks'| == |sinks| && forall k :: 0 <= k < |sinks| ==> sinks'[k].emitted == sinks[k].emitted
    ensures Out(sinks', id, v) <==> Out(sinks, id, v)
  {
    forall k | 0 <= k < |sinks|
      ensures SinkHas(sinks'[k], id, v) <==> SinkHas(sinks[k], id, v)
    {
    }
  }

  lemma {:induction false} OutStep(e: EntrySum, t: Table, retain: nat, y: Node, step: Step, id: Bytes, v: Verdict)
    ensures Out(Next(e, t, retain, y, step).sinks, id, v) <==>
      Out(y.sinks, id, v) || (Evaluates(t, y, step, id, v) && exists k :: 0 <= k < |y.sinks| && Emits(t, retain, y, step, k))
  {
    var y' := Next(e, t, retain, y, step);
    if step.Deliver? && y.run.log.mem.Some? && !step.a.outcome.EmptySkipped? {
      forall k | 0 <= k < |y.sinks|
        ensures SinkHas(y'.sinks[k], id, v)
          <==> SinkHas(y.sinks[k], id, v) || (Evaluates(t, y, step, id, v) && Emits(t, retain, y, step, k))
      {
        SinkStep(t, retain, y, step, k, id, v);
      }
    } else {
      SameEmissions(y.sinks, y'.sinks, id, v);
    }
  }

  /** The emissions of a run are those of its deliveries. */
  lemma {:induction false} EmittedVerdicts(
      e: EntrySum, t: Table, retain: nat, routes: seq<Predicate>, steps: seq<Step>, id: Bytes, v: Verdict)
    ensures Out(RunOf(e, t, retain, routes, steps).sinks, id, v) <==> EmittedBy(e, t, retain, routes, steps, id, v)
  {
    if steps != [] {
      EmittedVerdicts(e, t, retain, routes, steps[..|steps| - 1], id, v);
      OutStep(e, t, retain, RunOf(e, t, retain, routes, steps[..|steps| - 1]), steps[|steps| - 1], id, v);
    }
  }

  lemma {:induction false} VerdictTextInjective(v: Verdict, w: Verdict)
    requires Pipeline.VerdictText(v) == Pipeline.VerdictText(w)
    ensures v == w
  {
    assert Pipeline.VerdictText(v)[0] == Pipeline.VerdictText(w)[0];
  }

  /** A decision payload names its job and says its verdict. */
  lemma {:induction false} DecisionSays(a: Pipeline.Attempt, w: Verdict, r: Record, id: Bytes, v: Verdict)
    requires r.payload == Pipeline.DecisionPayload(a, w)
    ensures DecidesAs(r, id, v) <==> a.id == id && w == v
  {
    Pipeline.PayloadFacts(a, w);
    assert |Pipeline.VERDICT| == 7 && |Pipeline.RAW_SHA| == 10 && |JOB_ID| == 6;
    assert r.payload[Pipeline.VERDICT] == Pipeline.VerdictText(w);
    if DecidesAs(r, id, v) { VerdictTextInjective(v, w); }
  }

  lemma {:induction false} SkipDecidesNothing(a: Pipeline.Attempt, r: Record, id: Bytes, v: Verdict)
    requires r.payload == Pipeline.SkipPayload(a)
    ensures !DecidesAs(r, id, v)
  {
    Pipeline.PayloadFacts(a, v);
  }

  lemma {:induction false} AuditedSnoc(rs: seq<Record>, r: Record, id: Bytes, v: Verdict)
    ensures Audited(rs + [r], id, v) <==> Audited(rs, id, v) || DecidesAs(r, id, v)
  {
    var all := rs + [r];
    assert all[|rs|] == r;
    if Audited(rs, id, v) {
      var i :| 0 <= i < |rs| && DecidesAs(rs[i], id, v);
      assert all[i] == rs[i];
    }
  }

  /** What one delivery adds to the log. */
  lemma {:induction false} AuditEvent(e: EntrySum, t: Table, s: System, a: Pipeline.Attempt, ending: Ending, id: Bytes, v: Verdict)
    requires s.mem.Some?
    ensures var ev := Pipeline.EventOf(t, a, ending);
      Audited(Apply(e, s, ev).records, id, v) <==>
        Audited(s.records, id, v) || (Writes(s, ev) && !a.outcome.EmptySkipped? && a.id == id && VerdictFor(t, a) == v)
  {
    var ev := Pipeline.EventOf(t, a, ending);
    RecordsAfter(e, s, ev);
    if Writes(s, ev) {
      var r := MakeRecord(e, s.mem.value, ev.ts, ev.payload);
      AuditedSnoc(s.records, r, id, v);
      if a.outcome.EmptySkipped? { SkipDecidesNothing(a, r, id, v); } else { DecisionSays(a, VerdictFor(t, a), r, id, v); }
    }
  }

  /** The log after a delivery. */
  lemma {:induction false} DeliveredLog(e: EntrySum, t: Table, retain: nat, y: Node, step: Step)
    requires step.Deliver? && y.run.log.mem.Some?
    ensures var ev := Pipeline.EventOf(t, step.a, step.ending);
      Next(e, t, retain, y, step).run.log ==
        if step.a.outcome.EmptySkipped? || NoneFails(y.sinks, retain, step.now, EnvelopeOf(t, step.a, step.kind), step.works)
        then Apply(e, y.run.log, ev) else y.run.log
  {
    NextIsInner(e, t, retain, y, step);
  }

  lemma {:induction false} AuditStep(e: EntrySum, t: Table, retain: nat, y: Node, step: Step, id: Bytes, v: Verdict)
    ensures Audited(Next(e, t, retain, y, step).run.log.records, id, v) <==>
      Audited(y.run.log.records, id, v) || (Evaluates(t, y, step, id, v) && Records(t, retain, y, step))
  {
    if step.Deliver? && y.run.log.mem.Some? {
      DeliveredLog(e, t, retain, y, step);
      AuditEvent(e, t, y.run.log, step.a, step.ending, id, v);
    } else {
      NextIsInner(e, t, retain, y, step);
    }
  }

  /** The decisions in the log are those of its deliveries. */
  lemma {:induction false} AuditedVerdicts(
      e: EntrySum, t: Table, retain: nat, routes: seq<Predicate>, steps: seq<Step>, id: Bytes, v: Verdict)
    ensures Audited(RunOf(e, t, retain, routes, steps).run.log.records, id, v) <==> RecordedBy(e, t, retain, routes, steps, id, v)
  {
    if steps != [] {
      AuditedVerdicts(e, t, retain, routes, steps[..|steps| - 1], id, v);
      AuditStep(e, t, retain, RunOf(e, t, retain, routes, steps[..|steps| - 1]), steps[|steps| - 1], id, v);
    }
  }

  /** Every emission of id, by any sink, carries the verdict its decision record says. */
  ghost predicate VerdictsAgree(y: Node, id: Bytes) {
    forall v, w :: Audited(y.run.log.records, id, v) && Out(y.sinks, id, w) ==> v == w
  }

  /**
   * Over any run, what the sinks wrote of a job and what the audit log says of it agree exactly when every delivery
   * of it that some sink wrote evaluated as the delivery that was recorded did.
   */
  lemma {:induction false} VerdictsAgreeIff(
      e: EntrySum, t: Table, retain: nat, routes: seq<Predicate>, steps: seq<Step>, id: Bytes)
    ensures VerdictsAgree(RunOf(e, t, retain, routes, steps), id) <==>
      forall v, w :: RecordedBy(e, t, retain, routes, steps, id, v) && EmittedBy(e, t, retain, routes, steps, id, w) ==> v == w
  {
    var y := RunOf(e, t, retain, routes, steps);
    if VerdictsAgree(y, id) {
      forall v, w | RecordedBy(e, t, retain, routes, steps, id, v) && EmittedBy(e, t, retain, routes, steps, id, w)
        ensures v == w
      {
        AuditedVerdicts(e, t, retain, routes, steps, id, v);
        EmittedVerdicts(e, t, retain, routes, steps, id, w);
      }
    } else {
      var v, w :| Audited(y.run.log.records, id, v) && Out(y.sinks, id, w) && v != w;
      AuditedVerdicts(e, t, retain, routes, steps, id, v);
      EmittedVerdicts(e, t, retain, routes, steps, id, w);
    }
  }

  /** The job evaluates to v every time it is delivered. */
  ghost predicate Steady(t: Table, steps: seq<Step>, id: Bytes, v: Verdict) {
    forall n :: 0 <= n < |steps| && steps[n].Deliver? && steps[n].a.id == id && !steps[n].a.outcome.EmptySkipped? ==>
      VerdictFor(t, steps[n].a) == v
  }

  lemma {:induction false} SteadyVerdict(
      e: EntrySum, t: Table, retain: nat, routes: seq<Predicate>, steps: seq<Step>, id: Bytes, v: Verdict, w: Verdict)
    requires Steady(t, steps, id, v)
    ensures RecordedBy(e, t, retain, routes, steps, id, w) || EmittedBy(e, t, retain, routes, steps, id, w) ==> w == v
  {
    if steps != [] {
      var n := |steps| - 1;
      SteadyVerdict(e, t, retain, routes, steps[..n], id, v, w);
      assert Evaluates(t, RunOf(e, t, retain, routes, steps[..n]), steps[n], id, w) ==> w == v;
    }
  }

  /** In particular they agree when evaluation is repeatable. */
  lemma {:induction false} SteadyJobsAgree(
      e: EntrySum, t: Table, retain: nat, routes: seq<Predicate>, steps: seq<Step>, id: Bytes, v: Verdict)
    requires Steady(t, steps, id, v)
    ensures VerdictsAgree(RunOf(e, t, retain, routes, steps), id)
  {
    forall w
      ensures RecordedBy(e, t, retain, routes, steps, id, w) || EmittedBy(e, t, retain, routes, steps, id, w) ==> w == v
    {
      SteadyVerdict(e, t, retain, routes, steps, id, v, w);
    }
    VerdictsAgreeIff(e, t, retain, routes, steps, id);
  }

  // ---------------------------------------------------------------- where they do not

  const EVERYTHING: Predicate := Predicate([], map[], [])

  lemma {:induction false} OneMoreStep(
      e: EntrySum, t: Table, retain: nat, routes: seq<Predicate>, steps: seq<Step>, step: Step, id: Bytes, v: Verdict)
    ensures var y, all := RunOf(e, t, retain, routes, steps), steps + [step];
      && RunOf(e, t, retain, routes, all) == Next(e, t, retain, y, step)
      && (EmittedBy(e, t, retain, routes, all, id, v) <==>
            || EmittedBy(e, t, retain, routes, steps, id, v)
            || (Evaluates(t, y, step, id, v) && exists k :: 0 <= k < |y.sinks| && Emits(t, retain, y, step, k)))
      && (RecordedBy(e, t, retain, routes, all, id, v) <==>
            || RecordedBy(e, t, retain, routes, steps, id, v)
            || (Evaluates(t, y, step, id, v) && Records(t, retain, y, step)))
  {
    assert (steps + [step])[..|steps|] == steps;
  }

  /** A running process that remembers nothing, with two unconditional sinks whose claims are c and d. */
  ghost predicate TwoSinks(y: Node, c: Claims, d: Claims) {
    && y.run.log.mem.Some? && y.run.log.mem.value.seen == {}
    && |y.sinks| == 2 && y.sinks[0].route == EVERYTHING && y.sinks[1].route == EVERYTHING
    && y.sinks[0].claims == c && y.sinks[1].claims == d
  }

  lemma {:induction false} FirstProcess(e: EntrySum, t: Table, retain: nat)
    ensures TwoSinks(RunOf(e, t, retain, [EVERYTHING, EVERYTHING], [Restart]), Claims(map[], None), Claims(map[], None))
  {
    var routes := [EVERYTHING, EVERYTHING];
    assert [Restart][..0] == [];
    var y := RunOf(e, t, retain, routes, []);
    assert y.run == Pipeline.Run(Empty, {}) && |y.sinks| == 2;
    assert CanOpen(e, Empty);
    Opened(e, Empty);
    assert ReadRecords([]) == [];
  }

  /** The first delivery reaches one sink and not the other, and is not recorded. */
  lemma {:induction false} HalfDelivered(e: EntrySum, t: Table, retain: nat, y: Node, a: Pipeline.Attempt, kind: string, now: int)
    requires TwoSinks(y, Claims(map[], None), Claims(map[], None)) && a.outcome.Evaluated?
    ensures var step := Deliver(a, kind, now, [true, false], Completes);
      && Emits(t, retain, y, step, 0)
      && TwoSinks(Next(e, t, retain, y, step), Claims(map[Text(a.id) := now], Some(now)), Claims(map[], Some(now)))
  {
    var step := Deliver(a, kind, now, [true, false], Completes);
    var env := EnvelopeOf(t, a, kind);
    EmptyMatchesAll(EVERYTHING, env);
    assert Fails(y.sinks[1], retain, now, env, Works(step.works, 1));
    DeliveredLog(e, t, retain, y, step);
    assert Swept(Claims(map[], None), retain, now) == Claims(map[], Some(now));
  }

  /** The second delivery completes the other sink and is recorded; the first sink skips it. */
  lemma {:induction false} OtherHalfDelivered(t: Table, retain: nat, y: Node, a: Pipeline.Attempt, kind: string, now: int)
    requires TwoSinks(y, Claims(map[Text(a.id) := now], Some(now)), Claims(map[], Some(now))) && a.outcome.Evaluated?
    ensures Records(t, retain, y, Deliver(a, kind, now, [true, true], Completes))
  {
    var step := Deliver(a, kind, now, [true, true], Completes);
    var env := EnvelopeOf(t, a, kind);
    forall k | 0 <= k < 2
      ensures !Fails(y.sinks[k], retain, now, env, Works(step.works, k))
    {
    }
  }

  /**
   * The verdict a sink wrote can differ from the one the log holds: a fan-out that fails halfway is retried, the job
   * evaluates differently, and the sink that had written it the first time skips it as a duplicate.
   */
  lemma {:induction false} RetryChangesVerdict(
      e: EntrySum, t: Table, retain: nat, first: Pipeline.Attempt, again: Pipeline.Attempt, kind: string, now: int)
    requires first.id == again.id && first.outcome.Evaluated? && again.outcome.Evaluated?
    requires VerdictFor(t, first) != VerdictFor(t, again)
    ensures !VerdictsAgree(
      RunOf(e, t, retain, [EVERYTHING, EVERYTHING],
        [Restart] + [Deliver(first, kind, now, [true, false], Completes)] + [Deliver(again, kind, now, [true, true], Completes)]),
      first.id)
  {
    var routes, id := [EVERYTHING, EVERYTHING], first.id;
    var v, w := VerdictFor(t, first), VerdictFor(t, again);
    var d1, d2 := Deliver(first, kind, now, [true, false], Completes), Deliver(again, kind, now, [true, true], Completes);
    var half := [Restart] + [d1];
    FirstProcess(e, t, retain);
    HalfDelivered(e, t, retain, RunOf(e, t, retain, routes, [Restart]), first, kind, now);
    OneMoreStep(e, t, retain, routes, [Restart], d1, id, v);
    OneMoreStep(e, t, retain, routes, half, d2, id, v);
    OtherHalfDelivered(t, retain, RunOf(e, t, retain, routes, half), again, kind, now);
    OneMoreStep(e, t, retain, routes, half, d2, id, w);
    VerdictsAgreeIff(e, t, retain, routes, half + [d2], id);
  }

  // ---------------------------------------------------------------- one delivery

  /** The sink writes under this envelope's id, and does not remember it or is about to forget it. */
  predicate Free(s: SinkState, retain: nat, now: int, env: Envelope) {
    && Matches(s.route, env)
    && (env.id in s.claims.written ==> SinkMemory.SweepDue(s.claims, now) && now - s.claims.written[env.id] > retain)
  }

  /** What one delivery to a running replica writes: a skipped job nothing, any other its id, source, frames and their
      verdict to every matching sink that works and is free to. */
  lemma {:induction false} DeliveryEmits(e: EntrySum, t: Table, retain: nat, y: Node, step: Step, k: nat)
    requires step.Deliver? && y.run.log.mem.Some? && k < |y.sinks|
    ensures
      var y', frames := Next(e, t, retain, y, step), Pipeline.FramesOf(step.a.outcome);
      var env := Envelope(Text(step.a.id), step.kind, Some(VerdictOf(frames, t)), frames);
      && |y'.sinks| == |y.sinks|
      && (step.a.outcome.EmptySkipped? ==> y'.sinks == y.sinks && y'.settled == y.settled)
      && (!step.a.outcome.EmptySkipped? ==>
            y'.sinks[k].emitted == y.sinks[k].emitted +
              if Free(y.sinks[k], retain, step.now, env) && k < |step.works| && step.works[k] then [Emission(env, step.now)]
              else [])
  {
    if !step.a.outcome.EmptySkipped? {
      SinkMemory.EmitsIff(y.sinks[k], retain, step.now, EnvelopeOf(t, step.a, step.kind), Works(step.works, k));
    }
  }

  // ---------------------------------------------------------------- across restarts

  lemma {:induction false} FreshClaimEmits(s: SinkState, retain: nat, now: int, env: Envelope)
    requires s.claims == Claims(map[], None) && Matches(s.route, env)
    ensures Written(s, retain, now, env, true).emitted == s.emitted + [Emission(env, now)]
  {
  }

  lemma {:induction false} TwoMoreSteps(
      e: EntrySum, t: Table, retain: nat, routes: seq<Predicate>, steps: seq<Step>, first: Step, second: Step)
    ensures RunOf(e, t, retain, routes, steps + [first] + [second]) ==
      Next(e, t, retain, Next(e, t, retain, RunOf(e, t, retain, routes, steps), first), second)
  {
    var one := steps + [first];
    assert one[..|steps|] == steps && (one + [second])[..|one|] == one;
  }

  /**
   * A sink writes an id once per window only as long as its process lives: after a restart the job's next delivery
   * is written again by every matching sink that works, whatever the sink wrote before.
   */
  lemma {:induction false} RestartEmitsAgain(
      e: EntrySum, t: Table, retain: nat, routes: seq<Predicate>, steps: seq<Step>, step: Step, k: nat)
    requires RunOf(e, t, retain, routes, steps).run.log.mem.None? && CanOpen(e, RunOf(e, t, retain, routes, steps).run.log)
    requires step.Deliver? && !step.a.outcome.EmptySkipped?
    requires k < |routes| && Works(step.works, k) && Matches(routes[k], EnvelopeOf(t, step.a, step.kind))
    ensures
      var y, y' := RunOf(e, t, retain, routes, steps), RunOf(e, t, retain, routes, steps + [Restart] + [step]);
      && k < |y.sinks| == |y'.sinks|
      && y'.sinks[k].emitted == y.sinks[k].emitted + [Emission(EnvelopeOf(t, step.a, step.kind), step.now)]
  {
    var y := RunOf(e, t, retain, routes, steps);
    RunSettled(e, t, retain, routes, steps);
    TwoMoreSteps(e, t, retain, routes, steps, Restart, step);
    var up := Next(e, t, retain, y, Restart);
    Opened(e, y.run.log);
    assert up.run.log.mem.Some? && up.sinks == Forgotten(y.sinks);
    FreshClaimEmits(up.sinks[k], retain, step.now, EnvelopeOf(t, step.a, step.kind));
  }
}
