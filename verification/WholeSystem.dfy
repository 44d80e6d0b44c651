/**
 From enqueue to evidence: replicas share the Redis queue, and each answers its deliveries from its own pipeline,
 with its own sinks and its own audit log.
 */
module WholeSystem {
  import opened QueueTypes
  import opened AuditEncoding
  import opened AuditChain
  import opened AuditRuns
  import opened Thresholds
  import Sinks
  import Pipeline
  import EndToEnd
  import RedisProtocol
  import RedisNoLoss
  import RedisFate

  /** What every replica is configured with, and what each has been through. */
  datatype Fleet = Fleet(
    e: EntrySum, t: Table, retain: nat, routes: seq<Sinks.Predicate>, pasts: map<RedisProtocol.Instance, seq<EndToEnd.Step>>)
  {
    ghost function Node(i: RedisProtocol.Instance): EndToEnd.Node {
      EndToEnd.RunOf(e, t, retain, routes, if i in pasts then pasts[i] else [])
    }

    /** Some replica's pipeline acked the job. */
    ghost predicate Acked(i: RedisProtocol.Instance, j: Job) {
      exists id :: EndToEnd.Text(id) == j.id && id in Node(i).run.acked
    }
  }

  ghost predicate WellFormed(f: Fleet) {
    forall i :: i in f.pasts ==> EndToEnd.WellFormedSteps(f.pasts[i])
  }

  /** Every Ack a worker of the queue run got came from its replica's pipeline. */
  ghost predicate Backed(f: Fleet, cfg: RedisProtocol.Config, legacy: seq<Payload>, es: seq<RedisProtocol.Event>) {
    es == [] ||
    (var s, e := RedisProtocol.After(cfg, legacy, es[..|es| - 1]), es[|es| - 1];
     && Backed(f, cfg, legacy, es[..|es| - 1])
     && (e.Work? && e.worker.Handle? && e.worker.disp.Ack? && RedisProtocol.Enabled(cfg, s, e) ==>
           f.Acked(e.i, s.live[e.i].Worker(e.w).p.job)))
  }

  ghost function AckedSomewhere(f: Fleet): RedisFate.Marks {
    RedisFate.Marks((p: Payload) => true, (e: DeadEntry) => true, (p: Payload) => exists i :: f.Acked(i, p.job))
  }

  lemma {:induction false} RunBacked(f: Fleet, cfg: RedisProtocol.Config, legacy: seq<Payload>, es: seq<RedisProtocol.Event>)
    requires Backed(f, cfg, legacy, es)
    ensures RedisFate.StoredMarked(AckedSomewhere(f), RedisProtocol.After(cfg, legacy, es))
    ensures RedisFate.LocalsMarked(AckedSomewhere(f), RedisProtocol.After(cfg, legacy, es))
  {
    if es != [] {
      var s, e := RedisProtocol.After(cfg, legacy, es[..|es| - 1]), es[|es| - 1];
      RunBacked(f, cfg, legacy, es[..|es| - 1]);
      RedisFate.StepMarked(AckedSomewhere(f), cfg, s, e);
    }
  }

  // ---------------------------------------------------------------- what an ack stands on

  /** The override record of an empty video names id. */
  ghost predicate Skipped(rs: seq<Record>, id: Bytes) {
    exists k :: 0 <= k < |rs| && EVENT in rs[k].payload && IdOf(rs[k].payload) == id
  }

  /** Named in the log, and either skipped on the record or written by every sink its envelope matches. */
  ghost predicate Evidenced(f: Fleet, i: RedisProtocol.Instance, id: Bytes) {
    var y := f.Node(i);
    && (id != [] ==> id in Seen(y.run.log.records))
    && (|| Skipped(y.run.log.records, id)
        || exists env :: HasEvidence(f, y, id, env))
  }

  ghost predicate HasEvidence(f: Fleet, y: EndToEnd.Node, id: Bytes, env: Sinks.Envelope) {
    && (id, env) in y.settled && env.id == EndToEnd.Text(id)
    && |y.sinks| == |f.routes| && EndToEnd.Emitted(f.routes, y.sinks, env)
    && (Sinks.RoutesAccepted(f.routes, false) ==>
          exists k :: 0 <= k < |f.routes| && Sinks.Matches(f.routes[k], env) && Sinks.HasEmitted(y.sinks[k], env.id))
  }

  /** Every acked id was settled with an envelope or skipped on the record. */
  ghost predicate AcksExplained(y: EndToEnd.Node) {
    forall id :: id in y.run.acked ==> Skipped(y.run.log.records, id) || exists env :: (id, env) in y.settled
  }

  lemma {:induction false} SkippedGrows(rs: seq<Record>, more: seq<Record>, id: Bytes)
    requires rs <= more && Skipped(rs, id)
    ensures Skipped(more, id)
  {
    var k :| 0 <= k < |rs| && EVENT in rs[k].payload && IdOf(rs[k].payload) == id;
    assert more[k] == rs[k];
  }

  lemma {:induction false} RecordsGrow(e: EntrySum, s: System, ev: Event)
    ensures s.records <= Apply(e, s, ev).records
  {
    RecordsAfter(e, s, ev);
  }

  lemma {:induction false} NextGrows(f: Fleet, y: EndToEnd.Node, step: EndToEnd.Step)
    ensures var y' := EndToEnd.Next(f.e, f.t, f.retain, y, step);
      y.run.log.records <= y'.run.log.records && y.settled <= y'.settled
  {
    if step.Deliver? && y.run.log.mem.Some? {
      EndToEnd.DeliveredLog(f.e, f.t, f.retain, y, step);
      RecordsGrow(f.e, y.run.log, Pipeline.EventOf(f.t, step.a, step.ending));
    } else {
      EndToEnd.NextIsInner(f.e, f.t, f.retain, y, step);
      RecordsGrow(f.e, y.run.log, if step.Restart? then Start else Crash);
    }
  }

  /** An id acked by this step was skipped on the record or settled by it. */
  lemma {:induction false} NewAck(f: Fleet, y: EndToEnd.Node, step: EndToEnd.Step, id: Bytes)
    requires var y' := EndToEnd.Next(f.e, f.t, f.retain, y, step); id in y'.run.acked && id !in y.run.acked
    ensures var y' := EndToEnd.Next(f.e, f.t, f.retain, y, step);
      Skipped(y'.run.log.records, id) || exists env :: (id, env) in y'.settled
  {
    var y' := EndToEnd.Next(f.e, f.t, f.retain, y, step);
    assert step.Deliver? && y.run.log.mem.Some? && id == step.a.id;
    if step.a.outcome.EmptySkipped? {
      SkipRecorded(f, y, step);
    } else {
      var env := EndToEnd.EnvelopeOf(f.t, step.a, step.kind);
      assert y'.settled[|y'.settled| - 1] == (id, env);
    }
  }

  lemma {:induction false} SkipRecorded(f: Fleet, y: EndToEnd.Node, step: EndToEnd.Step)
    requires step.Deliver? && y.run.log.mem.Some? && step.a.outcome.EmptySkipped?
    requires step.a.id in EndToEnd.Next(f.e, f.t, f.retain, y, step).run.acked && step.a.id !in y.run.acked
    ensures Skipped(EndToEnd.Next(f.e, f.t, f.retain, y, step).run.log.records, step.a.id)
  {
    var ev := Pipeline.EventOf(f.t, step.a, step.ending);
    var rs := EndToEnd.Next(f.e, f.t, f.retain, y, step).run.log.records;
    EndToEnd.DeliveredLog(f.e, f.t, f.retain, y, step);
    RecordsAfter(f.e, y.run.log, ev);
    Pipeline.PayloadFacts(step.a, EndToEnd.VerdictFor(f.t, step.a));
    assert step.ending.Completes?;
    var r := rs[|rs| - 1];
    assert r.payload == Pipeline.SkipPayload(step.a);
  }

  lemma {:induction false} NextExplained(f: Fleet, y: EndToEnd.Node, step: EndToEnd.Step)
    requires AcksExplained(y)
    ensures AcksExplained(EndToEnd.Next(f.e, f.t, f.retain, y, step))
  {
    var y' := EndToEnd.Next(f.e, f.t, f.retain, y, step);
    NextGrows(f, y, step);
    forall id | id in y'.run.acked
      ensures Skipped(y'.run.log.records, id) || exists env :: (id, env) in y'.settled
    {
      if id !in y.run.acked {
        NewAck(f, y, step, id);
      } else if Skipped(y.run.log.records, id) {
        SkippedGrows(y.run.log.records, y'.run.log.records, id);
      } else {
        var env :| (id, env) in y.settled;
        assert (id, env) in y'.settled;
      }
    }
  }

  lemma {:induction false} RunExplained(f: Fleet, steps: seq<EndToEnd.Step>)
    ensures AcksExplained(EndToEnd.RunOf(f.e, f.t, f.retain, f.routes, steps))
  {
    if steps != [] {
      RunExplained(f, steps[..|steps| - 1]);
      NextExplained(f, EndToEnd.RunOf(f.e, f.t, f.retain, f.routes, steps[..|steps| - 1]), steps[|steps| - 1]);
    }
  }

  lemma {:induction false} AckedIsNamed(f: Fleet, steps: seq<EndToEnd.Step>, id: Bytes)
    requires EndToEnd.WellFormedSteps(steps) && id != []
    requires id in EndToEnd.RunOf(f.e, f.t, f.retain, f.routes, steps).run.acked
    ensures id in Seen(EndToEnd.RunOf(f.e, f.t, f.retain, f.routes, steps).run.log.records)
  {
    EndToEnd.RunIsInner(f.e, f.t, f.retain, f.routes, steps);
    EndToEnd.InnerWellFormed(f.e, f.t, f.retain, f.routes, steps);
    Pipeline.AckedJobsAreRecorded(f.e, f.t, EndToEnd.Inner(f.e, f.t, f.retain, f.routes, steps));
  }

  lemma {:induction false} AckIsEvidenced(f: Fleet, i: RedisProtocol.Instance, id: Bytes)
    requires WellFormed(f) && id in f.Node(i).run.acked
    ensures Evidenced(f, i, id)
  {
    var steps := if i in f.pasts then f.pasts[i] else [];
    var y := f.Node(i);
    RunExplained(f, steps);
    if id != [] { AckedIsNamed(f, steps, id); }
    if !Skipped(y.run.log.records, id) {
      var env :| (id, env) in y.settled;
      EndToEnd.AckedMeansDelivered(f.e, f.t, f.retain, f.routes, steps, id, env);
      assert HasEvidence(f, y, id, env);
    }
  }

  // ---------------------------------------------------------------- the results

  /**
   * Over any run of the queue, crashes and lost replies included, in which workers pass on their pipelines' acks: a
   * job the queue has acked is named in some replica's audit log, and there either skipped on the record or written by
   * every sink its envelope matches.
   */
  lemma {:induction false} QueueAckIsEvidenced(
      f: Fleet, cfg: RedisProtocol.Config, legacy: seq<Payload>, es: seq<RedisProtocol.Event>, j: Job)
    requires WellFormed(f) && Backed(f, cfg, legacy, es) && j in RedisProtocol.After(cfg, legacy, es).acked
    ensures exists i, id :: EndToEnd.Text(id) == j.id && Evidenced(f, i, id)
  {
    RunBacked(f, cfg, legacy, es);
    var s := RedisProtocol.After(cfg, legacy, es);
    var n: nat :| Payload(j, n) in s.acks;
    assert AckedSomewhere(f).done(Payload(j, n));
    var i :| f.Acked(i, j);
    var id :| EndToEnd.Text(id) == j.id && id in f.Node(i).run.acked;
    AckIsEvidenced(f, i, id);
  }

  /** So of every enqueued job, at every moment, something is left: it is still in Redis, in the dead-letter queue, or
      it has left its evidence. */
  lemma {:induction false} EnqueuedJobIsAccountedFor(
      f: Fleet, cfg: RedisProtocol.Config, legacy: seq<Payload>, es: seq<RedisProtocol.Event>, j: Job)
    requires WellFormed(f) && Backed(f, cfg, legacy, es) && j in RedisProtocol.After(cfg, legacy, es).enqueued
    ensures var s := RedisProtocol.After(cfg, legacy, es);
      || RedisNoLoss.Present(s.redis, j)
      || (exists d :: d in s.redis.dead && d.job == j)
      || (exists i, id :: EndToEnd.Text(id) == j.id && Evidenced(f, i, id))
  {
    RedisNoLoss.NoJobLost(cfg, legacy, es, j);
    if j in RedisProtocol.After(cfg, legacy, es).acked { QueueAckIsEvidenced(f, cfg, legacy, es, j); }
  }
}
