/** Runs in which the Redis driver hands one enqueued job to its handler more often than MaxRetries + 1 times. */
module RedisRepeats {
  import opened QueueTypes
  import opened RedisProtocol
  import opened RedisHandlings
  import opened RedisLateReplica

  /** One event further, with the handlings counted. */
  lemma {:induction false} Then(cfg: Config, es: seq<Event>, e: Event, j: Job) returns (all: seq<Event>)
    ensures After(cfg, [], all) == Apply(cfg, After(cfg, [], es), e)
    ensures RedisHandlings.Handlings(cfg, [], all, j)
      == RedisHandlings.Handlings(cfg, [], es, j) + RedisHandlings.Bit(HandlesJob(cfg, After(cfg, [], es), e, j))
  {
    all := es + [e];
    assert all[..|es|] == es;
  }

  /** A worker of d that is handling j gets its answer. */
  lemma {:induction false} Answers(cfg: Config, es: seq<Event>, d: Instance, w: nat, j: Job) returns (all: seq<Event>)
    requires var s := After(cfg, [], es);
      d in s.live && s.live[d].booted && s.live[d].Worker(w).Handling? && s.live[d].Worker(w).p.job == j
    ensures After(cfg, [], all) == Apply(cfg, After(cfg, [], es), Work(d, w, Handle(Ack)))
    ensures RedisHandlings.Handlings(cfg, [], all, j) == RedisHandlings.Handlings(cfg, [], es, j) + 1
  {
    all := Then(cfg, es, Work(d, w, Handle(Ack)), j);
  }

  /** Two workers of d hold copies of j; both get their answers. */
  lemma {:induction false} BothAnswer(cfg: Config, s: State, d: Instance, j: Job, p: Payload, es: seq<Event>)
    returns (all: seq<Event>)
    requires After(cfg, [], es) == s && p.job == j
    requires d in s.live && s.live[d].booted && s.live[d].Worker(0) == Handling(p) && s.live[d].Worker(1) == Handling(p)
    ensures After(cfg, [], all).pushes == s.pushes
    ensures RedisHandlings.Handlings(cfg, [], all, j) == RedisHandlings.Handlings(cfg, [], es, j) + 2
  {
    var one := Answers(cfg, es, d, 0, j);
    all := Answers(cfg, one, d, 1, j);
  }

  /** A late replica is drained while it works on a job, and claims that job again: with no retries allowed and one
      enqueue, the handler has run twice. */
  lemma {:induction false} LateJobHandledTwice(cfg: Config, d: Instance, i: Instance, j: Job) returns (es: seq<Event>)
    requires cfg.deadLetterMax > 0 && cfg.maxRetries == 0 && d != LEGACY && i != LEGACY && i != d
    ensures Entries(cfg, [], es, j) == 1
    ensures RedisHandlings.Handlings(cfg, [], es, j) > (cfg.maxRetries + 1) * Entries(cfg, [], es, j)
  {
    var s0 := LateReplicaIsDrained(cfg, d, i, j);
    var s := Reach(cfg, s0, Work(d, 1, Claim(Done)));
    var before :| After(cfg, [], before) == s;
    es := BothAnswer(cfg, s, d, j, Payload(j, 0), before);
    EntriesArePushes(cfg, [], es, j);
  }

  // ---------------------------------------------------------------- two movers, nothing failing

  const FRESH: Replica := Replica(true, Beating, Waiting, map[])

  lemma {:induction false} BothUp(cfg: Config, d: Instance, i: Instance) returns (s: State)
    requires d != LEGACY && i != LEGACY && i != d
    ensures Reachable(cfg, s) && s.live == map[d := FRESH, i := FRESH]
    ensures s.redis.pending == [] && s.redis.retry == map[] && d !in s.redis.processing && s.pushes == []
  {
    Start(cfg);
    var s0 := BootScanning(cfg, Init([]), d);
    var s1 := ScanNobody(cfg, s0, d);
    var s2 := BootScanning(cfg, s1, i);
    s := ScanNobody(cfg, s2, i);
  }

  /** j fails its first attempt on d and is due for its second. */
  ghost predicate Due(s: State, d: Instance, i: Instance, j: Job) {
    && d in s.live && i in s.live && d != i && s.live[d].booted && s.live[i].booted
    && s.live[d].mover == Waiting && s.live[i].mover == Waiting
    && s.live[d].Worker(0) == Idle && s.live[d].Worker(1) == Idle
    && s.redis.pending == [] && s.redis.retry == map[Payload(j, 1) := s.now] && s.pushes == [Payload(j, 0)]
  }

  /** Worker 0 of d at pc, its other goroutines and all of i idle. */
  ghost predicate Busy(s: State, d: Instance, i: Instance, j: Job, pc: WorkerPc) {
    && d in s.live && i in s.live && d != i && s.live[d].booted && s.live[i].booted
    && s.live[d].mover == Waiting && s.live[i].mover == Waiting
    && s.live[d].Worker(0) == pc && s.live[d].Worker(1) == Idle
    && s.redis.pending == [] && s.pushes == [Payload(j, 0)]
  }

  lemma {:induction false} FirstClaim(cfg: Config, d: Instance, i: Instance, j: Job) returns (es: seq<Event>)
    requires cfg.deadLetterMax > 0 && d != LEGACY && i != LEGACY && i != d
    ensures Busy(After(cfg, [], es), d, i, j, Handling(Payload(j, 0))) && After(cfg, [], es).redis.retry == map[]
  {
    var s0 := BothUp(cfg, d, i);
    var s1 := EnqueueAndClaim(cfg, s0, d, j);
    es :| After(cfg, [], es) == s1;
  }

  lemma {:induction false} FirstAnswer(cfg: Config, before: seq<Event>, d: Instance, i: Instance, j: Job) returns (es: seq<Event>)
    requires cfg.maxRetries > 0
    requires Busy(After(cfg, [], before), d, i, j, Handling(Payload(j, 0))) && After(cfg, [], before).redis.retry == map[]
    ensures var s := After(cfg, [], es);
      Busy(s, d, i, j, AddingRetry(Payload(j, 0), s.now + cfg.retryBackoff)) && s.redis.retry == map[]
    ensures RedisHandlings.Handlings(cfg, [], es, j) >= 1
  {
    es := Then(cfg, before, Work(d, 0, Handle(Retry)), j);
  }

  lemma {:induction false} FirstScheduled(cfg: Config, before: seq<Event>, d: Instance, i: Instance, j: Job)
    returns (es: seq<Event>)
    requires var s := After(cfg, [], before);
      Busy(s, d, i, j, AddingRetry(Payload(j, 0), s.now + cfg.retryBackoff)) && s.redis.retry == map[]
    ensures var s := After(cfg, [], es);
      Busy(s, d, i, j, Removing(Payload(j, 0), Rescheduled))
      && s.redis.retry == map[Payload(j, 1) := s.now + cfg.retryBackoff]
    ensures RedisHandlings.Handlings(cfg, [], es, j) >= RedisHandlings.Handlings(cfg, [], before, j)
  {
    es := Then(cfg, before, Work(d, 0, AddRetry(Done)), j);
  }

  lemma {:induction false} FirstRetry(cfg: Config, before: seq<Event>, d: Instance, i: Instance, j: Job) returns (es: seq<Event>)
    requires var s := After(cfg, [], before);
      Busy(s, d, i, j, AddingRetry(Payload(j, 0), s.now + cfg.retryBackoff)) && s.redis.retry == map[]
    ensures var s := After(cfg, [], es);
      Busy(s, d, i, j, Removing(Payload(j, 0), Rescheduled)) && s.redis.retry == map[Payload(j, 1) := s.now]
    ensures RedisHandlings.Handlings(cfg, [], es, j) >= RedisHandlings.Handlings(cfg, [], before, j)
  {
    var added := FirstScheduled(cfg, before, d, i, j);
    es := Then(cfg, added, Tick(cfg.retryBackoff), j);
  }

  lemma {:induction false} FailsOnce(cfg: Config, d: Instance, i: Instance, j: Job) returns (es: seq<Event>)
    requires cfg.deadLetterMax > 0 && cfg.maxRetries > 0 && d != LEGACY && i != LEGACY && i != d
    ensures Due(After(cfg, [], es), d, i, j) && RedisHandlings.Handlings(cfg, [], es, j) >= 1
  {
    var e1 := FirstClaim(cfg, d, i, j);
    var e2 := FirstAnswer(cfg, e1, d, i, j);
    var e3 := FirstRetry(cfg, e2, d, i, j);
    es := Then(cfg, e3, Work(d, 0, Remove(Done)), j);
  }

  lemma {:induction false} OneScan(cfg: Config, before: seq<Event>, i: Instance, p: Payload, j: Job) returns (es: seq<Event>)
    requires var s := After(cfg, [], before);
      i in s.live && s.live[i].booted && s.live[i].mover == Waiting && s.redis.retry == map[p := s.now]
    ensures After(cfg, [], es) == SetMover(After(cfg, [], before), i, Moving([p]))
    ensures RedisHandlings.Handlings(cfg, [], es, j) == RedisHandlings.Handlings(cfg, [], before, j)
  {
    es := Then(cfg, before, Move(i, ScanDue(After(cfg, [], before).now, [p])), j);
  }

  /** Both movers have read the retry set before either removes anything from it. */
  lemma {:induction false} BothScan(cfg: Config, before: seq<Event>, d: Instance, i: Instance, j: Job) returns (es: seq<Event>)
    requires Due(After(cfg, [], before), d, i, j)
    ensures var s := After(cfg, [], es);
      && s.redis == After(cfg, [], before).redis && s.pushes == [Payload(j, 0)] && d in s.live && i in s.live
      && s.live[d].booted && s.live[i].booted && s.live[d].Worker(0) == Idle && s.live[d].Worker(1) == Idle
      && s.live[d].mover == Moving([Payload(j, 1)]) && s.live[i].mover == Moving([Payload(j, 1)])
    ensures RedisHandlings.Handlings(cfg, [], es, j) == RedisHandlings.Handlings(cfg, [], before, j)
  {
    var e1 := OneScan(cfg, before, d, Payload(j, 1), j);
    es := OneScan(cfg, e1, i, Payload(j, 1), j);
  }

  /** So both promote it, without a crash, a failure or a lost reply anywhere. */
  lemma {:induction false} BothPush(cfg: Config, before: seq<Event>, d: Instance, i: Instance, j: Job) returns (es: seq<Event>)
    requires var s := After(cfg, [], before);
      && d in s.live && i in s.live && d != i && s.pushes == [Payload(j, 0)] && s.redis.pending == []
      && s.live[d].booted && s.live[i].booted && s.live[d].Worker(0) == Idle && s.live[d].Worker(1) == Idle
      && s.live[d].mover == Moving([Payload(j, 1)]) && s.live[i].mover == Moving([Payload(j, 1)])
    ensures var s := After(cfg, [], es);
      && s.redis.pending == [Payload(j, 1), Payload(j, 1)] && s.pushes == [Payload(j, 0)]
      && d in s.live && s.live[d].booted && s.live[d].Worker(0) == Idle && s.live[d].Worker(1) == Idle
    ensures RedisHandlings.Handlings(cfg, [], es, j) == RedisHandlings.Handlings(cfg, [], before, j)
  {
    var e1 := Then(cfg, before, Move(d, Push(Done)), j);
    assert After(cfg, [], e1).live[i].mover == Moving([Payload(j, 1)]);
    es := Then(cfg, e1, Move(i, Push(Done)), j);
  }

  lemma {:induction false} BothClaim(cfg: Config, before: seq<Event>, d: Instance, j: Job, p: Payload) returns (es: seq<Event>)
    requires var s := After(cfg, [], before);
      && s.redis.pending == [p, p] && d in s.live && s.live[d].booted && s.live[d].Worker(0) == Idle && s.live[d].Worker(1) == Idle
    ensures var s := After(cfg, [], es);
      && s.pushes == After(cfg, [], before).pushes
      && d in s.live && s.live[d].booted && s.live[d].Worker(0) == Handling(p) && s.live[d].Worker(1) == Handling(p)
    ensures RedisHandlings.Handlings(cfg, [], es, j) == RedisHandlings.Handlings(cfg, [], before, j)
  {
    var e1 := Then(cfg, before, Work(d, 0, Claim(Done)), j);
    assert After(cfg, [], e1).redis.pending == [p];
    es := Then(cfg, e1, Work(d, 1, Claim(Done)), j);
  }

  /** Two replicas' movers race for one due retry, nothing fails, and a job with one retry allowed and one enqueue is
      handled three times. */
  lemma {:induction false} RacingMoversRepeat(cfg: Config, d: Instance, i: Instance, j: Job) returns (es: seq<Event>)
    requires cfg.deadLetterMax > 0 && cfg.maxRetries == 1 && d != LEGACY && i != LEGACY && i != d
    ensures Entries(cfg, [], es, j) == 1
    ensures RedisHandlings.Handlings(cfg, [], es, j) > (cfg.maxRetries + 1) * Entries(cfg, [], es, j)
  {
    var e1 := FailsOnce(cfg, d, i, j);
    var e2 := BothScan(cfg, e1, d, i, j);
    var e3 := BothPush(cfg, e2, d, i, j);
    var e4 := BothClaim(cfg, e3, d, j, Payload(j, 1));
    es := BothAnswer(cfg, After(cfg, [], e4), d, j, Payload(j, 1), e4);
    EntriesArePushes(cfg, [], es, j);
  }
}
