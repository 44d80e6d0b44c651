/** Fates over every run of the in-process driver, and its parity with the Redis driver. */
module MemqFate {
  import opened QueueTypes
  import opened MemqProtocol
  import opened Fate
  import MemqCounters
  import RedisProtocol
  import RedisFate

  /** What a goroutine holds is on course for the fate the policy gives its job. */
  ghost predicate OnCourse(h: Handler, max: nat, pc: Pc) {
    match pc
    case Burying(q) => FateOf(h, max, q.job) == Outcome.Buried(q.attempts)
    case _ => MemqCounters.Held(pc).Some? ==> Underway(h, max, MemqCounters.Held(pc).value)
  }

  ghost predicate Fated(h: Handler, max: nat, sh: Shared) {
    && (forall p :: p in sh.buffer ==> Underway(h, max, p))
    && (forall p :: p in sh.acked ==> FateOf(h, max, p.job) == Outcome.Acked(p.attempts))
    && (forall e :: e in sh.dead ==> FateOf(h, max, e.job) == Outcome.Buried(e.attempts))
  }

  ghost predicate AllOnCourse(h: Handler, max: nat, s: State) {
    && Fated(h, max, s.sh)
    && forall i :: 0 <= i < |s.procs| ==> OnCourse(h, max, s.procs[i])
  }

  /** The handler's answer at this step is the one h gives for that job and attempt. */
  ghost predicate AnsweredBy(h: Handler, pc: Pc, c: Choice) {
    pc.Running? && c.Answer? ==> c.disp == h(pc.p.job, pc.p.attempts)
  }

  ghost predicate Answered(h: Handler, cfg: Config, es: seq<Event>) {
    es == [] ||
    (var s, e := After(cfg, es[..|es| - 1]), es[|es| - 1];
     && Answered(h, cfg, es[..|es| - 1])
     && (e.Step? && e.i < |s.procs| ==> AnsweredBy(h, s.procs[e.i], e.choice)))
  }

  lemma {:induction false} DecideFollowsPolicy(h: Handler, cfg: Config, p: Payload)
    requires Underway(h, cfg.maxRetries, p)
    ensures var m := Decide(cfg, Tried(p), h(p.job, p.attempts));
      && OnCourse(h, cfg.maxRetries, m.pc)
      && (m.effect.Finish? ==> FateOf(h, cfg.maxRetries, m.effect.p.job) == Outcome.Acked(m.effect.p.attempts))
      && (m.effect.Finish? || m.effect.Nothing?)
  {
    RetriesKeepFate(h, cfg.maxRetries, p.job, 0, p.attempts);
  }

  /** What an effect adds to the shared places is on course too. */
  ghost predicate EffectOnCourse(h: Handler, max: nat, f: Effect) {
    match f
    case Resend(p) => Underway(h, max, p)
    case Spawn(p) => Underway(h, max, p)
    case Finish(p) => FateOf(h, max, p.job) == Outcome.Acked(p.attempts)
    case Bury(e) => FateOf(h, max, e.job) == Outcome.Buried(e.attempts)
    case _ => true
  }

  lemma {:induction false} MoveOnCourse(h: Handler, cfg: Config, sh: Shared, pc: Pc, c: Choice)
    requires Fated(h, cfg.maxRetries, sh) && OnCourse(h, cfg.maxRetries, pc) && AnsweredBy(h, pc, c)
    ensures OnCourse(h, cfg.maxRetries, Next(cfg, sh, pc, c).pc)
    ensures EffectOnCourse(h, cfg.maxRetries, Next(cfg, sh, pc, c).effect)
  {
    if pc.Running? && c.Answer? { DecideFollowsPolicy(h, cfg, pc.p); }
  }

  lemma {:induction false} PerformFated(h: Handler, max: nat, sh: Shared, f: Effect)
    requires Fated(h, max, sh) && EffectOnCourse(h, max, f)
    ensures Fated(h, max, Perform(sh, f))
  {
  }

  lemma {:induction false} RunOnCourse(h: Handler, cfg: Config, es: seq<Event>)
    requires Answered(h, cfg, es)
    ensures AllOnCourse(h, cfg.maxRetries, After(cfg, es))
  {
    if es != [] {
      var s, e := After(cfg, es[..|es| - 1]), es[|es| - 1];
      RunOnCourse(h, cfg, es[..|es| - 1]);
      if e.Step? && e.i < |s.procs| {
        MoveOnCourse(h, cfg, s.sh, s.procs[e.i], e.choice);
        PerformFated(h, cfg.maxRetries, s.sh, Next(cfg, s.sh, s.procs[e.i], e.choice).effect);
      }
    }
  }

  /** Whatever the interleaving, every ack and every dead letter of the in-process driver is the policy's. */
  lemma {:induction false} MemqFollowsPolicy(h: Handler, cfg: Config, es: seq<Event>)
    requires Answered(h, cfg, es)
    ensures forall p :: p in After(cfg, es).sh.acked ==> FateOf(h, cfg.maxRetries, p.job) == Outcome.Acked(p.attempts)
    ensures forall e :: e in After(cfg, es).sh.dead ==> FateOf(h, cfg.maxRetries, e.job) == Outcome.Buried(e.attempts)
    ensures forall i :: 0 <= i < |After(cfg, es).procs| && After(cfg, es).procs[i].Running? ==>
      After(cfg, es).procs[i].p.attempts <= cfg.maxRetries
  {
    RunOnCourse(h, cfg, es);
  }

  lemma {:induction false} NoneHeld(ps: seq<Pc>, j: Job)
    requires forall i :: 0 <= i < |ps| ==> MemqCounters.Held(ps[i]).None?
    ensures MemqCounters.HeldBy(ps, j) == 0
  {
    if ps != [] { NoneHeld(ps[..|ps| - 1], j); }
  }

  lemma {:induction false} CopiesIn(l: seq<Payload>, j: Job)
    ensures MemqCounters.Copies(l, j) == 0 <==> forall p :: p in l ==> p.job != j
  {
    if l != [] {
      var n := |l| - 1;
      CopiesIn(l[..n], j);
      assert forall p :: p in l <==> p in l[..n] || p == l[n];
    }
  }

  lemma {:induction false} LettersIn(l: seq<DeadEntry>, j: Job)
    ensures MemqCounters.Letters(l, j) == 0 <==> forall e :: e in l ==> e.job != j
  {
    if l != [] {
      var n := |l| - 1;
      LettersIn(l[..n], j);
      assert forall e :: e in l <==> e in l[..n] || e == l[n];
    }
  }

  /** The channel is empty, no goroutine holds a copy, Close was not called and no dead letter was refused. */
  ghost predicate AtRest(s: State) {
    && s.sh.buffer == [] && !s.sh.closed && !s.sh.sinkFailed
    && forall i :: 0 <= i < |s.procs| ==> MemqCounters.Held(s.procs[i]).None?
  }

  ghost predicate HasFate(sh: Shared, j: Job, r: Outcome) {
    match r
    case Acked(n) =>
      && MemqCounters.Copies(sh.acked, j) == sh.accepted[j] && MemqCounters.Letters(sh.dead, j) == 0
      && forall p :: p in sh.acked && p.job == j ==> p.attempts == n
    case Buried(n) =>
      && MemqCounters.Letters(sh.dead, j) == sh.accepted[j] && MemqCounters.Copies(sh.acked, j) == 0
      && forall e :: e in sh.dead && e.job == j ==> e.attempts == n
  }

  /** When a run has come to rest, every accepted copy of a job has exactly its fate. */
  lemma {:induction false} RestingJobsHaveTheirFate(h: Handler, cfg: Config, es: seq<Event>, j: Job)
    requires Answered(h, cfg, es) && AtRest(After(cfg, es))
    ensures HasFate(After(cfg, es).sh, j, FateOf(h, cfg.maxRetries, j))
  {
    var s := After(cfg, es);
    MemqCounters.NoCopyLost(cfg, es, j);
    MemqFollowsPolicy(h, cfg, es);
    NoneHeld(s.procs, j);
    CopiesIn(s.sh.acked, j);
    LettersIn(s.sh.dead, j);
    assert MemqCounters.Copies(s.sh.buffer, j) == 0;
    assert s.sh.lost[j] == 0;
  }

  /**
   * Swapping drivers preserves behaviour. Take any run of the in-process driver that has come to rest and any run
   * of the Redis driver, crashes included, that has nothing left to do, with the same retry limit and the same
   * handler answers: a job both took is acked by both after the same attempts, or dead-lettered by both with the
   * same entry.
   */
  lemma {:induction false} DriversAgree(
    h: Handler, mcfg: Config, mes: seq<Event>, rcfg: RedisProtocol.Config, res: seq<RedisProtocol.Event>, j: Job)
    requires mcfg.maxRetries == rcfg.maxRetries
    requires Answered(h, mcfg, mes) && RedisFate.Answered(h, rcfg, [], res)
    requires AtRest(After(mcfg, mes)) && RedisFate.NothingLeft(RedisProtocol.After(rcfg, [], res).redis)
    requires After(mcfg, mes).sh.accepted[j] > 0 && j in RedisProtocol.After(rcfg, [], res).enqueued
    ensures var m, r := After(mcfg, mes).sh, RedisProtocol.After(rcfg, [], res);
      || (exists n: nat :: Payload(j, n + 1) in m.acked && Payload(j, n) in r.acks)
      || (exists e: DeadEntry :: e.job == j && e in m.dead && e in r.redis.dead)
    ensures var m, r := After(mcfg, mes).sh, RedisProtocol.After(rcfg, [], res);
      && (forall p, q :: p in m.acked && q in r.acks && p.job == q.job == j ==> p.attempts == q.attempts + 1)
      && (forall e, f :: e in m.dead && f in r.redis.dead && e.job == f.job == j ==> e == f)
  {
    var m, r := After(mcfg, mes).sh, RedisProtocol.After(rcfg, [], res);
    var fate := FateOf(h, mcfg.maxRetries, j);
    RestingJobsHaveTheirFate(h, mcfg, mes, j);
    RedisFate.DrainedJobsHaveTheirFate(h, rcfg, res, j);
    MemqFollowsPolicy(h, mcfg, mes);
    RedisFate.RedisFollowsPolicy(h, rcfg, [], res);
    CopiesIn(m.acked, j);
    LettersIn(m.dead, j);
    forall n: nat
      ensures Payload(j, n) in r.acks ==> fate == Outcome.Acked(n + 1)
      ensures DeadEntry(j, n) in r.redis.dead ==> fate == Outcome.Buried(n)
    {
      RedisFate.DeservedIsFate(h, rcfg.maxRetries, j, Outcome.Acked(n + 1));
      RedisFate.DeservedIsFate(h, rcfg.maxRetries, j, Outcome.Buried(n));
    }
    if fate.Acked? {
      var p :| p in m.acked && p.job == j;
      assert p == Payload(j, (p.attempts - 1) + 1);
    } else {
      var e :| e in m.dead && e.job == j;
      assert e == DeadEntry(j, fate.attempts);
    }
  }
}
