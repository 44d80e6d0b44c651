/** When the Redis driver lets work in: no job past a full dead-letter queue, no retry before its time. */
module RedisTiming {
  import opened QueueTypes
  import opened RedisProtocol
  import RedisNoLoss

  // ---------------------------------------------------------------- intake

  /** The payloads that intake may have pushed, read off the calls alone. */
  function Admissions(max: nat, es: seq<Event>): seq<Payload> {
    if es == [] then []
    else Admissions(max, es[..|es| - 1]) + (if Admits(max, es[|es| - 1]) then [Payload(es[|es| - 1].job, 0)] else [])
  }

  predicate Admits(max: nat, e: Event) {
    e.Enqueue? && e.depth < max && !e.reply.Failed?
  }

  /** Enqueue told its caller that it took j, with room in the dead-letter queue. */
  predicate Took(max: nat, es: seq<Event>, j: Job) {
    exists k :: 0 <= k < |es| && es[k].Enqueue? && es[k].job == j && es[k].depth < max && es[k].reply.Done?
  }

  lemma {:induction false} TookSnoc(max: nat, es: seq<Event>, e: Event, j: Job)
    ensures Took(max, es + [e], j) <==>
      Took(max, es, j) || (e.Enqueue? && e.job == j && e.depth < max && e.reply.Done?)
  {
    var all := es + [e];
    assert all[|es|] == e && forall k :: 0 <= k < |es| ==> all[k] == es[k];
  }

  /** What one event pushes and takes. */
  lemma {:induction false} StepAdmits(cfg: Config, s: State, e: Event, j: Job)
    ensures Apply(cfg, s, e).pushes == s.pushes + if Admits(cfg.deadLetterMax, e) then [Payload(e.job, 0)] else []
    ensures j in Apply(cfg, s, e).enqueued <==>
      j in s.enqueued || (e.Enqueue? && e.job == j && e.depth < cfg.deadLetterMax && e.reply.Done?)
  {
    if Enabled(cfg, s, e) && e.Work? { assert WorkerLeaves(s, WorkerApply(cfg, s, e.i, e.w, e.worker), e.i, e.w); }
    if Enabled(cfg, s, e) && e.Move? { assert MoverLeaves(s, MoverApply(s, e.i, e.mover), e.i); }
  }

  /**
   * Over any run, intake has pushed exactly what was offered while the dead-letter queue had room and the command took
   * effect, and has taken exactly what it said it took; beside those there are only an older release's jobs.
   */
  lemma {:induction false} FullQueueRefuses(cfg: Config, legacy: seq<Payload>, es: seq<Event>, j: Job)
    ensures After(cfg, legacy, es).pushes == Admissions(cfg.deadLetterMax, es)
    ensures j in After(cfg, legacy, es).enqueued <==>
      Took(cfg.deadLetterMax, es, j) || exists p :: p in legacy && p.job == j
  {
    if es != [] {
      var n := |es| - 1;
      FullQueueRefuses(cfg, legacy, es[..n], j);
      StepAdmits(cfg, After(cfg, legacy, es[..n]), es[n], j);
      TookSnoc(cfg.deadLetterMax, es[..n], es[n], j);
      assert es[..n] + [es[n]] == es;
    }
  }

  // ---------------------------------------------------------------- retries

  /** The handler asks for the attempt p. */
  predicate Asks(cfg: Config, s: State, e: Event, p: Payload) {
    && Enabled(cfg, s, e) && e.Work? && e.worker == Handle(Disposition.Retry)
    && s.live[e.i].Worker(e.w).Handling? && Retried(s.live[e.i].Worker(e.w).p) == p
  }

  /** A worker puts p into the retry set with a ready time no later than `at`. */
  predicate Schedules(cfg: Config, s: State, e: Event, p: Payload, at: int) {
    && Enabled(cfg, s, e) && e.Work? && e.worker.AddRetry? && e.worker.reply.Applied()
    && s.live[e.i].Worker(e.w).AddingRetry? && Retried(s.live[e.i].Worker(e.w).p) == p
    && s.live[e.i].Worker(e.w).readyAt <= at
  }

  /** The handler asked for p long enough before `at`: once the backoff for every attempt behind p. */
  ghost predicate AskedBy(cfg: Config, legacy: seq<Payload>, es: seq<Event>, p: Payload, at: int) {
    exists k :: 0 <= k < |es| &&
      Asks(cfg, After(cfg, legacy, es[..k]), es[k], p) && After(cfg, legacy, es[..k]).now + cfg.retryBackoff * p.attempts <= at
  }

  ghost predicate ScheduledBy(cfg: Config, legacy: seq<Payload>, es: seq<Event>, p: Payload, at: int) {
    exists k :: 0 <= k < |es| && Schedules(cfg, After(cfg, legacy, es[..k]), es[k], p, at)
  }

  lemma {:induction false} AskedSnoc(cfg: Config, legacy: seq<Payload>, es: seq<Event>, e: Event, p: Payload, at: int)
    requires var s := After(cfg, legacy, es);
      AskedBy(cfg, legacy, es, p, at) || (Asks(cfg, s, e, p) && s.now + cfg.retryBackoff * p.attempts <= at)
    ensures AskedBy(cfg, legacy, es + [e], p, at)
  {
    var all := es + [e];
    if AskedBy(cfg, legacy, es, p, at) {
      var k :| 0 <= k < |es| && Asks(cfg, After(cfg, legacy, es[..k]), es[k], p) && After(cfg, legacy, es[..k]).now + cfg.retryBackoff * p.attempts <= at;
      assert all[..k] == es[..k] && all[k] == es[k];
    } else {
      assert all[..|es|] == es && all[|es|] == e;
    }
  }

  lemma {:induction false} ScheduledSnoc(cfg: Config, legacy: seq<Payload>, es: seq<Event>, e: Event, p: Payload, at: int)
    requires ScheduledBy(cfg, legacy, es, p, at) || Schedules(cfg, After(cfg, legacy, es), e, p, at)
    ensures ScheduledBy(cfg, legacy, es + [e], p, at)
  {
    var all := es + [e];
    if k :| 0 <= k < |es| && Schedules(cfg, After(cfg, legacy, es[..k]), es[k], p, at) {
      assert all[..k] == es[..k] && all[k] == es[k];
    } else {
      assert all[..|es|] == es && all[|es|] == e;
    }
  }

  /** What is due by a time is due later. */
  lemma {:induction false} Later(cfg: Config, legacy: seq<Payload>, es: seq<Event>, p: Payload, at: int, later: int)
    requires at <= later
    ensures AskedBy(cfg, legacy, es, p, at) ==> AskedBy(cfg, legacy, es, p, later)
    ensures ScheduledBy(cfg, legacy, es, p, at) ==> ScheduledBy(cfg, legacy, es, p, later)
  {
    if k :| 0 <= k < |es| && Schedules(cfg, After(cfg, legacy, es[..k]), es[k], p, at) {
      assert Schedules(cfg, After(cfg, legacy, es[..k]), es[k], p, later);
    }
  }

  ghost predicate WorkersWait(cfg: Config, legacy: seq<Payload>, es: seq<Event>) {
    var s := After(cfg, legacy, es);
    forall i, w: nat :: i in s.live && s.live[i].Worker(w).AddingRetry? ==>
      AskedBy(cfg, legacy, es, Retried(s.live[i].Worker(w).p), s.live[i].Worker(w).readyAt)
  }

  ghost predicate Waited(cfg: Config, legacy: seq<Payload>, es: seq<Event>, p: Payload, at: int) {
    AskedBy(cfg, legacy, es, p, at) && ScheduledBy(cfg, legacy, es, p, at)
  }

  ghost predicate RetriesWait(cfg: Config, legacy: seq<Payload>, es: seq<Event>) {
    var s := After(cfg, legacy, es);
    forall p :: p in s.redis.retry ==> Waited(cfg, legacy, es, p, s.redis.retry[p])
  }

  ghost predicate MoversWait(cfg: Config, legacy: seq<Payload>, es: seq<Event>) {
    var s := After(cfg, legacy, es);
    forall i, p :: i in s.live && !s.live[i].mover.Waiting? && p in s.live[i].mover.due ==> Waited(cfg, legacy, es, p, s.now)
  }

  lemma {:induction false} NewWorker(cfg: Config, s: State, e: Event, i: Instance, w: nat)
    requires i in Apply(cfg, s, e).live && Apply(cfg, s, e).live[i].Worker(w).AddingRetry?
    ensures var pc := Apply(cfg, s, e).live[i].Worker(w);
      || (i in s.live && s.live[i].Worker(w) == pc)
      || (Asks(cfg, s, e, Retried(pc.p)) && pc.readyAt == s.now + cfg.retryBackoff * Retried(pc.p).attempts)
  {
    if Enabled(cfg, s, e) {
      if e.Work? && e.i == i {
        if e.w != w { RedisNoLoss.OtherWorkers(cfg, s, i, e.w, e.worker, w); }
      } else {
        RedisNoLoss.WorkersFrame(cfg, s, e, i);
      }
    }
  }

  lemma {:induction false} WorkersStay(cfg: Config, legacy: seq<Payload>, es: seq<Event>, e: Event)
    requires WorkersWait(cfg, legacy, es)
    ensures WorkersWait(cfg, legacy, es + [e])
  {
    var s, s' := After(cfg, legacy, es), After(cfg, legacy, es + [e]);
    assert (es + [e])[..|es|] == es;
    forall i, w: nat | i in s'.live && s'.live[i].Worker(w).AddingRetry?
      ensures AskedBy(cfg, legacy, es + [e], Retried(s'.live[i].Worker(w).p), s'.live[i].Worker(w).readyAt)
    {
      NewWorker(cfg, s, e, i, w);
      AskedSnoc(cfg, legacy, es, e, Retried(s'.live[i].Worker(w).p), s'.live[i].Worker(w).readyAt);
    }
  }

  /** A member of the retry set keeps its score, or a worker has just set it. */
  lemma {:induction false} NewScore(cfg: Config, s: State, e: Event, p: Payload)
    requires p in Apply(cfg, s, e).redis.retry
    ensures var score := Apply(cfg, s, e).redis.retry[p];
      || (p in s.redis.retry && s.redis.retry[p] == score)
      || (Schedules(cfg, s, e, p, score) && s.live[e.i].Worker(e.w).readyAt == score)
  {
    if Enabled(cfg, s, e) {
      match e
      case Work(i, w, k) => WorkerScore(cfg, s, i, w, k, p);
      case Move(i, k) => MoverScore(s, i, k, p);
      case Keep(_, _) =>
      case _ =>
    }
  }

  lemma {:induction false} WorkerScore(cfg: Config, s: State, i: Instance, w: nat, k: WorkerStep, p: Payload)
    requires WorkerEnabled(s, i, w, k) && p in WorkerApply(cfg, s, i, w, k).redis.retry
    ensures var score := WorkerApply(cfg, s, i, w, k).redis.retry[p];
      || (p in s.redis.retry && s.redis.retry[p] == score)
      || (Schedules(cfg, s, Work(i, w, k), p, score) && s.live[i].Worker(w).readyAt == score)
  {
    if !k.AddRetry? { OtherScores(cfg, s, i, w, k); }
  }

  lemma {:induction false} ClaimScores(s: State, i: Instance, w: nat, reply: Reply)
    requires WorkerEnabled(s, i, w, Claim(reply))
    ensures Claimed(s, i, w, reply).redis.retry == s.redis.retry
  {
  }

  lemma {:induction false} RemoveScores(s: State, i: Instance, w: nat, reply: Reply)
    requires WorkerEnabled(s, i, w, Remove(reply))
    ensures Removed(s, i, w, reply).redis.retry == s.redis.retry
  {
  }

  lemma {:induction false} OtherScores(cfg: Config, s: State, i: Instance, w: nat, k: WorkerStep)
    requires WorkerEnabled(s, i, w, k) && !k.AddRetry?
    ensures WorkerApply(cfg, s, i, w, k).redis.retry == s.redis.retry
  {
    match k
    case Claim(reply) => ClaimScores(s, i, w, reply);
    case Remove(reply) => RemoveScores(s, i, w, reply);
    case _ =>
  }

  lemma {:induction false} MoverScore(s: State, i: Instance, k: MoverStep, p: Payload)
    requires MoverEnabled(s, i, k) && p in MoverApply(s, i, k).redis.retry
    ensures p in s.redis.retry && s.redis.retry[p] == MoverApply(s, i, k).redis.retry[p]
  {
  }

  lemma {:induction false} RetriesStay(cfg: Config, legacy: seq<Payload>, es: seq<Event>, e: Event)
    requires RetriesWait(cfg, legacy, es) && WorkersWait(cfg, legacy, es)
    ensures RetriesWait(cfg, legacy, es + [e])
  {
    var s, s' := After(cfg, legacy, es), After(cfg, legacy, es + [e]);
    assert (es + [e])[..|es|] == es;
    forall p | p in s'.redis.retry
      ensures Waited(cfg, legacy, es + [e], p, s'.redis.retry[p])
    {
      NewScore(cfg, s, e, p);
      AskedSnoc(cfg, legacy, es, e, p, s'.redis.retry[p]);
      ScheduledSnoc(cfg, legacy, es, e, p, s'.redis.retry[p]);
    }
  }

  /** What a mover has in hand it had before, or found in the retry set with its time come. */
  lemma {:induction false} NewDue(cfg: Config, s: State, e: Event, i: Instance, p: Payload)
    requires i in Apply(cfg, s, e).live && !Apply(cfg, s, e).live[i].mover.Waiting? && p in Apply(cfg, s, e).live[i].mover.due
    ensures s.now <= Apply(cfg, s, e).now
    ensures
      || (i in s.live && !s.live[i].mover.Waiting? && p in s.live[i].mover.due)
      || (p in s.redis.retry && s.redis.retry[p] <= s.now)
  {
    if !(e.Move? && e.i == i) { RedisNoLoss.MoverFrame(cfg, s, e, i); }
  }

  /** What is due by a time is due at every later point of the run. */
  lemma {:induction false} WaitedLater(
      cfg: Config, legacy: seq<Payload>, es: seq<Event>, e: Event, p: Payload, at: int, later: int)
    requires Waited(cfg, legacy, es, p, at) && at <= later
    ensures Waited(cfg, legacy, es + [e], p, later)
  {
    Later(cfg, legacy, es, p, at, later);
    AskedSnoc(cfg, legacy, es, e, p, later);
    ScheduledSnoc(cfg, legacy, es, e, p, later);
  }

  lemma {:induction false} DueStays(cfg: Config, legacy: seq<Payload>, es: seq<Event>, e: Event, i: Instance, p: Payload)
    requires MoversWait(cfg, legacy, es) && RetriesWait(cfg, legacy, es)
    requires var s' := Apply(cfg, After(cfg, legacy, es), e);
      i in s'.live && !s'.live[i].mover.Waiting? && p in s'.live[i].mover.due
    ensures Waited(cfg, legacy, es + [e], p, Apply(cfg, After(cfg, legacy, es), e).now)
  {
    var s, s' := After(cfg, legacy, es), Apply(cfg, After(cfg, legacy, es), e);
    NewDue(cfg, s, e, i, p);
    if p in s.redis.retry && s.redis.retry[p] <= s.now {
      WaitedLater(cfg, legacy, es, e, p, s.redis.retry[p], s'.now);
    } else {
      WaitedLater(cfg, legacy, es, e, p, s.now, s'.now);
    }
  }

  lemma {:induction false} MoversStay(cfg: Config, legacy: seq<Payload>, es: seq<Event>, e: Event)
    requires MoversWait(cfg, legacy, es) && RetriesWait(cfg, legacy, es)
    ensures MoversWait(cfg, legacy, es + [e])
  {
    var s, s' := After(cfg, legacy, es), After(cfg, legacy, es + [e]);
    assert (es + [e])[..|es|] == es;
    forall i, p | i in s'.live && !s'.live[i].mover.Waiting? && p in s'.live[i].mover.due
      ensures Waited(cfg, legacy, es + [e], p, s'.now)
    {
      DueStays(cfg, legacy, es, e, i, p);
    }
  }

  ghost predicate AllWait(cfg: Config, legacy: seq<Payload>, es: seq<Event>) {
    WorkersWait(cfg, legacy, es) && RetriesWait(cfg, legacy, es) && MoversWait(cfg, legacy, es)
  }

  lemma {:induction false} AllStay(cfg: Config, legacy: seq<Payload>, es: seq<Event>, e: Event)
    requires AllWait(cfg, legacy, es)
    ensures AllWait(cfg, legacy, es + [e])
  {
    WorkersStay(cfg, legacy, es, e);
    RetriesStay(cfg, legacy, es, e);
    MoversStay(cfg, legacy, es, e);
  }

  lemma {:induction false} EveryoneWaits(cfg: Config, legacy: seq<Payload>, es: seq<Event>)
    ensures AllWait(cfg, legacy, es)
  {
    if es != [] {
      var init, last := es[..|es| - 1], es[|es| - 1];
      EveryoneWaits(cfg, legacy, init);
      AllStay(cfg, legacy, init, last);
      assert init + [last] == es;
    }
  }

  /**
   * No retry is early, in any interleaving with crashes, failed commands and lost replies: when some replica's mover
   * is about to push p, a worker had scheduled p for that time or before, and the handler had asked for p at least
   * the backoff times p's attempts earlier.
   */
  lemma {:induction false} RetryWaitsItsTime(cfg: Config, legacy: seq<Payload>, es: seq<Event>, i: Instance, reply: Reply)
    requires Enabled(cfg, After(cfg, legacy, es), Move(i, Push(reply)))
    ensures var s := After(cfg, legacy, es);
      var p := s.live[i].mover.due[0];
      && (exists k :: 0 <= k < |es| && Schedules(cfg, After(cfg, legacy, es[..k]), es[k], p, s.now))
      && (exists k :: 0 <= k < |es| && Asks(cfg, After(cfg, legacy, es[..k]), es[k], p)
            && After(cfg, legacy, es[..k]).now + cfg.retryBackoff * p.attempts <= s.now)
  {
    var s := After(cfg, legacy, es);
    EveryoneWaits(cfg, legacy, es);
    assert s.live[i].mover.due[0] in s.live[i].mover.due;
    assert Waited(cfg, legacy, es, s.live[i].mover.due[0], s.now);
  }
}
