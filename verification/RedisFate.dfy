/** Attempt counts and fates over every run of the Redis driver. */
module RedisFate {
  import opened QueueTypes
  import opened RedisProtocol
  import opened RedisNoLoss
  import opened Fate

  /** What is to hold of queued copies, of dead letters, and of copies the handler acked. */
  datatype Marks = Marks(alive: Payload -> bool, dead: DeadEntry -> bool, done: Payload -> bool)

  function Entry(p: Payload): DeadEntry {
    DeadEntry(p.job, p.attempts + 1)
  }

  ghost predicate StoredMarked(m: Marks, s: State) {
    && (forall p :: s.redis.Listed(p) ==> m.alive(p))
    && (forall p :: p in s.redis.retry ==> m.alive(p))
    && (forall e :: e in s.redis.dead ==> m.dead(e))
    && (forall p :: p in s.acks ==> m.done(p))
    && (forall j :: j in s.acked ==> exists n: nat :: Payload(j, n) in s.acks)
  }

  ghost predicate WorkerMarked(m: Marks, pc: WorkerPc) {
    match pc
    case Idle => true
    case Handling(p) => m.alive(p)
    case WritingDead(p) => m.dead(Entry(p))
    case AddingRetry(p, _) => m.alive(Retried(p))
    case Removing(p, why) => why.Finished? ==> m.done(p)
  }

  ghost predicate LocalsMarked(m: Marks, s: State) {
    && (forall i, w: nat :: i in s.live ==> WorkerMarked(m, s.live[i].Worker(w)))
    && (forall i, p :: i in s.live && !s.live[i].mover.Waiting? && p in s.live[i].mover.due ==> m.alive(p))
  }

  /** New jobs and every handler answer agree with the marks. */
  ghost predicate Agrees(m: Marks, cfg: Config, s: State, e: Event) {
    && (forall j :: m.alive(Payload(j, 0)))
    && (e.Work? && e.worker.Handle? && Enabled(cfg, s, e) ==>
        var p := s.live[e.i].Worker(e.w).p;
        m.alive(p) ==> WorkerMarked(m, Decide(cfg, p, e.worker.disp, s.now)))
  }

  lemma {:induction false} RemoveFirstSub(l: seq<Payload>, p: Payload, q: Payload)
    requires q in RemoveFirst(l, p)
    ensures q in l
  {
    if l[0] != p && l[0] != q {
      RemoveFirstSub(l[1..], p, q);
    }
  }

  ghost predicate Sourced(s: State, p: Payload) {
    || s.redis.Listed(p)
    || (exists j :: p == Payload(j, 0))
    || (exists i :: i in s.live && s.live[i].mover.Moving? && p in s.live[i].mover.due)
  }

  lemma {:induction false} DrainSourced(r: Redis, d: Instance, p: Payload)
    requires r.Processing(d) != [] && r.DrainOne(d).Listed(p)
    ensures r.Listed(p)
  {
    var r' := r.DrainOne(d);
    if p in r'.pending {
      if p !in r.pending { ListedByOwner(r, d, p); }
    } else {
      var o :| o in r'.processing && p in r'.processing[o];
      ListedByOwner(r, o, p);
    }
  }

  lemma {:induction false} ClaimSourced(r: Redis, i: Instance, p: Payload)
    requires r.pending != [] && r.Claim(i).Listed(p)
    ensures r.Listed(p)
  {
    var r' := r.Claim(i);
    if p !in r'.pending {
      var o :| o in r'.processing && p in r'.processing[o];
      if p !in r.pending { ListedByOwner(r, o, p); }
    }
  }

  lemma {:induction false} RemoveSourced(r: Redis, i: Instance, gone: Payload, p: Payload)
    requires r.Remove(i, gone).Listed(p)
    ensures r.Listed(p)
  {
    var r' := r.Remove(i, gone);
    if p !in r.pending {
      var o :| o in r'.processing && p in r'.processing[o];
      if o == i { RemoveFirstSub(r.Processing(i), gone, p); }
      ListedByOwner(r, o, p);
    }
  }

  /** No step makes a list entry out of anything but an older entry, a due member or a new job. */
  lemma {:induction false} ListedOrigin(cfg: Config, s: State, e: Event, p: Payload)
    requires Enabled(cfg, s, e) && Apply(cfg, s, e).redis.Listed(p)
    ensures Sourced(s, p)
  {
    match e
    case Keep(i, k) => KeeperListedOrigin(s, i, k, p);
    case Work(i, w, k) => WorkerListedOrigin(cfg, s, i, w, k, p);
    case Move(i, k) => MoverListedOrigin(s, i, k, p);
    case Enqueue(j, _, _) =>
      assert p in s.redis.pending || p == Payload(j, 0) || s.redis.Listed(p);
    case _ =>
  }

  lemma {:induction false} KeeperListedOrigin(s: State, i: Instance, k: KeeperStep, p: Payload)
    requires KeeperEnabled(s, i, k) && KeeperApply(s, i, k).redis.Listed(p)
    ensures s.redis.Listed(p)
  {
    var r' := KeeperApply(s, i, k).redis;
    if k.DrainOwn? {
      if r' != s.redis { DrainSourced(s.redis, i, p); }
    } else if k.DrainStale? {
      if r' != s.redis { DrainSourced(s.redis, s.live[i].keeper.stale[0], p); }
    }
  }

  lemma {:induction false} MoverListedOrigin(s: State, i: Instance, k: MoverStep, p: Payload)
    requires MoverEnabled(s, i, k) && MoverApply(s, i, k).redis.Listed(p)
    ensures Sourced(s, p)
  {
    var r' := MoverApply(s, i, k).redis;
    if k.Push? && r' != s.redis {
      assert r' == s.redis.PushLeft(s.live[i].mover.due[0]);
      assert p in s.redis.pending || p == s.live[i].mover.due[0] || s.redis.Listed(p);
    }
  }

  lemma {:induction false} WorkerListedOrigin(cfg: Config, s: State, i: Instance, w: nat, k: WorkerStep, p: Payload)
    requires WorkerEnabled(s, i, w, k) && WorkerApply(cfg, s, i, w, k).redis.Listed(p)
    ensures s.redis.Listed(p)
  {
    var r' := WorkerApply(cfg, s, i, w, k).redis;
    if k.Claim? {
      if r' != s.redis { ClaimSourced(s.redis, i, p); }
    } else if k.Remove? {
      if r' != s.redis { RemoveSourced(s.redis, i, s.live[i].Worker(w).p, p); }
    }
  }

  lemma {:induction false} ListedStayMarked(m: Marks, cfg: Config, s: State, e: Event, p: Payload)
    requires StoredMarked(m, s) && LocalsMarked(m, s) && Enabled(cfg, s, e) && Agrees(m, cfg, s, e)
    requires Apply(cfg, s, e).redis.Listed(p)
    ensures m.alive(p)
  {
    ListedOrigin(cfg, s, e, p);
  }

  /** What is stored outside the lists. */
  ghost predicate RestMarked(m: Marks, s: State) {
    && (forall p :: p in s.redis.retry ==> m.alive(p))
    && (forall e :: e in s.redis.dead ==> m.dead(e))
    && (forall p :: p in s.acks ==> m.done(p))
    && (forall j :: j in s.acked ==> exists n: nat :: Payload(j, n) in s.acks)
  }

  lemma {:induction false} StoredStayMarked(m: Marks, cfg: Config, s: State, e: Event)
    requires StoredMarked(m, s) && LocalsMarked(m, s) && Enabled(cfg, s, e) && Agrees(m, cfg, s, e)
    ensures StoredMarked(m, Apply(cfg, s, e))
  {
    forall p | Apply(cfg, s, e).redis.Listed(p)
      ensures m.alive(p)
    {
      ListedStayMarked(m, cfg, s, e, p);
    }
    RestStaysMarked(m, cfg, s, e);
  }

  lemma {:induction false} RestStaysMarked(m: Marks, cfg: Config, s: State, e: Event)
    requires RestMarked(m, s) && LocalsMarked(m, s) && Enabled(cfg, s, e)
    ensures RestMarked(m, Apply(cfg, s, e))
  {
    match e
    case Work(i, w, k) => WorkerRest(m, cfg, s, i, w, k);
    case Keep(i, k) => KeeperRest(m, s, i, k);
    case Move(i, k) => MoverRest(m, s, i, k);
    case Enqueue(j, _, reply) => RestUntouched(m, s, Enqueued(s, j, reply));
    case Boot(i, score, reply) => RestUntouched(m, s, Booted(s, i, score, reply));
    case Crash(i) => RestUntouched(m, s, Stop(s, i));
    case Tick(ms) => RestUntouched(m, s, s.(now := s.now + ms));
  }

  lemma {:induction false} WorkerRest(m: Marks, cfg: Config, s: State, i: Instance, w: nat, k: WorkerStep)
    requires WorkerEnabled(s, i, w, k) && RestMarked(m, s) && LocalsMarked(m, s)
    ensures RestMarked(m, WorkerApply(cfg, s, i, w, k))
  {
    assert WorkerMarked(m, s.live[i].Worker(w));
    WorkerWritesMarked(m, cfg, s, i, w, k);
  }

  lemma {:induction false} KeeperRest(m: Marks, s: State, i: Instance, k: KeeperStep)
    requires KeeperEnabled(s, i, k) && RestMarked(m, s)
    ensures RestMarked(m, KeeperApply(s, i, k))
  {
    RestUntouched(m, s, KeeperApply(s, i, k));
  }

  lemma {:induction false} RestUntouched(m: Marks, s: State, s': State)
    requires RestMarked(m, s) && s'.acked == s.acked && s'.acks == s.acks
    requires s'.redis.dead == s.redis.dead && s'.redis.retry == s.redis.retry
    ensures RestMarked(m, s')
  {
  }

  lemma {:induction false} MoverRest(m: Marks, s: State, i: Instance, k: MoverStep)
    requires RestMarked(m, s) && MoverEnabled(s, i, k)
    ensures RestMarked(m, MoverApply(s, i, k))
  {
  }

  lemma {:induction false} WorkerWritesMarked(m: Marks, cfg: Config, s: State, i: Instance, w: nat, k: WorkerStep)
    requires WorkerEnabled(s, i, w, k) && RestMarked(m, s) && WorkerMarked(m, s.live[i].Worker(w))
    ensures RestMarked(m, WorkerApply(cfg, s, i, w, k))
  {
    match k
    case WriteDead(reply) => DeadMarked(m, s, i, w, reply);
    case Remove(reply) => AckMarked(m, s, i, w, reply);
    case _ =>
  }

  lemma {:induction false} DeadMarked(m: Marks, s: State, i: Instance, w: nat, reply: Reply)
    requires i in s.live && s.live[i].Worker(w).WritingDead? && RestMarked(m, s) && WorkerMarked(m, s.live[i].Worker(w))
    ensures RestMarked(m, WroteDead(s, i, w, reply))
  {
  }

  lemma {:induction false} AckMarked(m: Marks, s: State, i: Instance, w: nat, reply: Reply)
    requires i in s.live && s.live[i].Worker(w).Removing? && RestMarked(m, s) && WorkerMarked(m, s.live[i].Worker(w))
    ensures RestMarked(m, Removed(s, i, w, reply))
  {
    var p := s.live[i].Worker(w).p;
    assert p == Payload(p.job, p.attempts);
  }

  lemma {:induction false} OwnWorkerMarked(m: Marks, cfg: Config, s: State, i: Instance, w: nat, k: WorkerStep)
    requires WorkerEnabled(s, i, w, k) && Agrees(m, cfg, s, Work(i, w, k))
    requires StoredMarked(m, s) && WorkerMarked(m, s.live[i].Worker(w))
    ensures i in WorkerApply(cfg, s, i, w, k).live
    ensures WorkerMarked(m, WorkerApply(cfg, s, i, w, k).live[i].Worker(w))
  {
    if k.Claim? {
      assert s.redis.Listed(s.redis.pending[|s.redis.pending| - 1]);
    }
  }

  lemma {:induction false} WorkersStayMarked(m: Marks, cfg: Config, s: State, e: Event, i: Instance, w: nat)
    requires StoredMarked(m, s) && LocalsMarked(m, s) && Agrees(m, cfg, s, e)
    requires Enabled(cfg, s, e) && i in Apply(cfg, s, e).live
    ensures WorkerMarked(m, Apply(cfg, s, e).live[i].Worker(w))
  {
    assert i in s.live ==> WorkerMarked(m, s.live[i].Worker(w));
    if e.Work? && e.i == i {
      if e.w == w {
        OwnWorkerMarked(m, cfg, s, i, w, e.worker);
      } else {
        OtherWorkers(cfg, s, i, e.w, e.worker, w);
      }
    } else {
      WorkersFrame(cfg, s, e, i);
    }
  }

  lemma {:induction false} MoversStayMarked(m: Marks, cfg: Config, s: State, e: Event, i: Instance, p: Payload)
    requires StoredMarked(m, s) && LocalsMarked(m, s)
    requires Enabled(cfg, s, e) && i in Apply(cfg, s, e).live
    requires !Apply(cfg, s, e).live[i].mover.Waiting? && p in Apply(cfg, s, e).live[i].mover.due
    ensures m.alive(p)
  {
    if !(e.Move? && e.i == i) { MoverFrame(cfg, s, e, i); }
  }

  lemma {:induction false} StepMarked(m: Marks, cfg: Config, s: State, e: Event)
    requires StoredMarked(m, s) && LocalsMarked(m, s) && Agrees(m, cfg, s, e)
    ensures StoredMarked(m, Apply(cfg, s, e)) && LocalsMarked(m, Apply(cfg, s, e))
  {
    if Enabled(cfg, s, e) {
      var s' := Apply(cfg, s, e);
      StoredStayMarked(m, cfg, s, e);
      forall i, w: nat | i in s'.live
        ensures WorkerMarked(m, s'.live[i].Worker(w))
      {
        WorkersStayMarked(m, cfg, s, e, i, w);
      }
      forall i, p | i in s'.live && !s'.live[i].mover.Waiting? && p in s'.live[i].mover.due
        ensures m.alive(p)
      {
        MoversStayMarked(m, cfg, s, e, i, p);
      }
    }
  }

  // ---------------------------------------------------------------- attempts

  ghost function Limited(max: nat, legacy: seq<Payload>): Marks {
    Marks(
      (p: Payload) => p.attempts <= max || p in legacy,
      (e: DeadEntry) => 1 <= e.attempts && (e.attempts <= max + 1 || Payload(e.job, e.attempts - 1) in legacy),
      (p: Payload) => p.attempts <= max || p in legacy)
  }

  /** In every run whatever a worker holds has completed at most MaxRetries attempts, or is a copy an older release
      left behind with more, which is not retried again; dead letters report one more attempt than such a copy. */
  lemma {:induction false} AttemptsBounded(cfg: Config, legacy: seq<Payload>, es: seq<Event>)
    ensures StoredMarked(Limited(cfg.maxRetries, legacy), After(cfg, legacy, es))
    ensures LocalsMarked(Limited(cfg.maxRetries, legacy), After(cfg, legacy, es))
  {
    var m := Limited(cfg.maxRetries, legacy);
    if es == [] {
      InitLimited(cfg.maxRetries, legacy);
    } else {
      var s, e := After(cfg, legacy, es[..|es| - 1]), es[|es| - 1];
      AttemptsBounded(cfg, legacy, es[..|es| - 1]);
      AnyAnswerAgrees(cfg, legacy, s, e);
      StepMarked(m, cfg, s, e);
    }
  }

  lemma {:induction false} InitLimited(max: nat, legacy: seq<Payload>)
    ensures StoredMarked(Limited(max, legacy), Init(legacy)) && LocalsMarked(Limited(max, legacy), Init(legacy))
  {
  }

  lemma {:induction false} AnyAnswerAgrees(cfg: Config, legacy: seq<Payload>, s: State, e: Event)
    ensures Agrees(Limited(cfg.maxRetries, legacy), cfg, s, e)
  {
  }

  // ---------------------------------------------------------------- fates

  /** Where a copy may come from: a new job, or the list of an older release. */
  predicate Begins(legacy: seq<Payload>, q: Payload) {
    q.attempts == 0 || q in legacy
  }

  ghost predicate Descends(h: Handler, max: nat, legacy: seq<Payload>, p: Payload) {
    exists q :: Begins(legacy, q) && Leads(h, max, q, p)
  }

  /** Some beginning of the job has this outcome. */
  ghost predicate Deserved(h: Handler, max: nat, legacy: seq<Payload>, j: Job, r: Outcome) {
    exists q :: Begins(legacy, q) && q.job == j && Settle(h, max, j, q.attempts) == r
  }

  ghost function Fated(h: Handler, max: nat, legacy: seq<Payload>): Marks {
    Marks(
      (p: Payload) => Descends(h, max, legacy, p),
      (e: DeadEntry) => Deserved(h, max, legacy, e.job, Outcome.Buried(e.attempts)),
      (p: Payload) => Deserved(h, max, legacy, p.job, Outcome.Acked(p.attempts + 1)))
  }

  /** Every handling in the run got the answer h gives for that job and attempt. */
  ghost predicate Answered(h: Handler, cfg: Config, legacy: seq<Payload>, es: seq<Event>) {
    es == [] ||
    (var s, e := After(cfg, legacy, es[..|es| - 1]), es[|es| - 1];
     && Answered(h, cfg, legacy, es[..|es| - 1])
     && (e.Work? && e.worker.Handle? && Enabled(cfg, s, e) ==>
         var p := s.live[e.i].Worker(e.w).p; e.worker.disp == h(p.job, p.attempts)))
  }

  lemma {:induction false} NewJobUnderway(h: Handler, max: nat, legacy: seq<Payload>, p: Payload)
    requires Begins(legacy, p)
    ensures Descends(h, max, legacy, p)
  {
    assert Leads(h, max, p, p);
  }

  lemma {:induction false} DecideFollowsPolicy(h: Handler, cfg: Config, legacy: seq<Payload>, p: Payload, now: int)
    requires Descends(h, cfg.maxRetries, legacy, p)
    ensures WorkerMarked(Fated(h, cfg.maxRetries, legacy), Decide(cfg, p, h(p.job, p.attempts), now))
  {
    var q :| Begins(legacy, q) && Leads(h, cfg.maxRetries, q, p);
    LeadsKeepsFate(h, cfg.maxRetries, q, p);
    if Decide(cfg, p, h(p.job, p.attempts), now).AddingRetry? {
      assert Leads(h, cfg.maxRetries, q, Retried(p));
    }
  }

  lemma {:induction false} InitFated(h: Handler, cfg: Config, legacy: seq<Payload>)
    ensures StoredMarked(Fated(h, cfg.maxRetries, legacy), Init(legacy))
    ensures LocalsMarked(Fated(h, cfg.maxRetries, legacy), Init(legacy))
  {
    forall p | Init(legacy).redis.Listed(p)
      ensures Descends(h, cfg.maxRetries, legacy, p)
    {
      NewJobUnderway(h, cfg.maxRetries, legacy, p);
    }
  }

  lemma {:induction false} AnswerAgrees(h: Handler, cfg: Config, legacy: seq<Payload>, s: State, e: Event)
    requires e.Work? && e.worker.Handle? && Enabled(cfg, s, e) ==>
      var p := s.live[e.i].Worker(e.w).p; e.worker.disp == h(p.job, p.attempts)
    ensures Agrees(Fated(h, cfg.maxRetries, legacy), cfg, s, e)
  {
    forall j
      ensures Descends(h, cfg.maxRetries, legacy, Payload(j, 0))
    {
      NewJobUnderway(h, cfg.maxRetries, legacy, Payload(j, 0));
    }
    if e.Work? && e.worker.Handle? && Enabled(cfg, s, e) {
      var p := s.live[e.i].Worker(e.w).p;
      if Descends(h, cfg.maxRetries, legacy, p) { DecideFollowsPolicy(h, cfg, legacy, p, s.now); }
    }
  }

  lemma {:induction false} RunFated(h: Handler, cfg: Config, legacy: seq<Payload>, es: seq<Event>)
    requires Answered(h, cfg, legacy, es)
    ensures StoredMarked(Fated(h, cfg.maxRetries, legacy), After(cfg, legacy, es))
    ensures LocalsMarked(Fated(h, cfg.maxRetries, legacy), After(cfg, legacy, es))
  {
    if es == [] {
      InitFated(h, cfg, legacy);
    } else {
      var s, e := After(cfg, legacy, es[..|es| - 1]), es[|es| - 1];
      RunFated(h, cfg, legacy, es[..|es| - 1]);
      AnswerAgrees(h, cfg, legacy, s, e);
      StepMarked(Fated(h, cfg.maxRetries, legacy), cfg, s, e);
    }
  }

  /**
   * Whatever the interleaving, the crashes and the lost replies: every copy acked and every dead letter is the
   * outcome, attempts included, that the policy gives a beginning of that job, be it new or left by an older release.
   */
  lemma {:induction false} RedisFollowsPolicy(h: Handler, cfg: Config, legacy: seq<Payload>, es: seq<Event>)
    requires Answered(h, cfg, legacy, es)
    ensures var s := After(cfg, legacy, es);
      && (forall p :: p in s.acks ==> Deserved(h, cfg.maxRetries, legacy, p.job, Outcome.Acked(p.attempts + 1)))
      && (forall e :: e in s.redis.dead ==> Deserved(h, cfg.maxRetries, legacy, e.job, Outcome.Buried(e.attempts)))
      && (forall j :: j in s.acked ==> exists n: nat :: Payload(j, n) in s.acks)
  {
    RunFated(h, cfg, legacy, es);
  }

  lemma {:induction false} DeservedIsFate(h: Handler, max: nat, j: Job, r: Outcome)
    ensures Deserved(h, max, [], j, r) <==> FateOf(h, max, j) == r
  {
    if FateOf(h, max, j) == r { assert Begins([], Payload(j, 0)); }
  }

  /** Nothing is waiting, claimed or scheduled. */
  ghost predicate NothingLeft(r: Redis) {
    r.pending == [] && r.retry == map[] && forall i :: i in r.processing ==> r.processing[i] == []
  }

  /** The job has its fate and no other trace. */
  ghost predicate HasFate(s: State, j: Job, r: Outcome) {
    match r
    case Acked(n) => n > 0 && Payload(j, n - 1) in s.acks && forall e :: e in s.redis.dead ==> e.job != j
    case Buried(n) => DeadEntry(j, n) in s.redis.dead && j !in s.acked
  }

  /** When a run, crashes included, has left nothing in Redis to do, every enqueued job has exactly its fate. */
  lemma {:induction false} DrainedJobsHaveTheirFate(h: Handler, cfg: Config, es: seq<Event>, j: Job)
    requires Answered(h, cfg, [], es) && j in After(cfg, [], es).enqueued && NothingLeft(After(cfg, [], es).redis)
    ensures HasFate(After(cfg, [], es), j, FateOf(h, cfg.maxRetries, j))
  {
    var s := After(cfg, [], es);
    RedisFollowsPolicy(h, cfg, [], es);
    RedisNoLoss.NoJobLost(cfg, [], es, j);
    forall n: nat
      ensures Payload(j, n) in s.acks ==> FateOf(h, cfg.maxRetries, j) == Outcome.Acked(n + 1)
      ensures DeadEntry(j, n) in s.redis.dead ==> FateOf(h, cfg.maxRetries, j) == Outcome.Buried(n)
    {
      DeservedIsFate(h, cfg.maxRetries, j, Outcome.Acked(n + 1));
      DeservedIsFate(h, cfg.maxRetries, j, Outcome.Buried(n));
    }
    assert forall e :: e in s.redis.dead && e.job == j ==> e == DeadEntry(j, e.attempts);
  }
}
