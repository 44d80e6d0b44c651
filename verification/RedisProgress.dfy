/** No failed command stops a goroutine of a running replica; registrations are dated, and an older release's ages. */
module RedisProgress {
  import opened QueueTypes
  import opened RedisProtocol

  // ---------------------------------------------------------------- failed commands

  predicate CommandFails(e: Event) {
    match e
    case Enqueue(_, _, reply) => reply.Failed?
    case Boot(_, _, reply) => reply.Failed?
    case Keep(_, k) =>
      (k.RegisterLegacy? || k.DrainOwn? || k.DrainStale? || k.Deregister? || k.Heartbeat?) && k.reply.Failed?
    case Work(_, _, k) => !k.Handle? && k.reply.Failed?
    case Move(_, k) => (k.Push? || k.Unretry?) && k.reply.Failed?
    case _ => false
  }

  /** A command that fails changes nothing in Redis and settles nothing. */
  lemma {:induction false} FailureChangesNothing(cfg: Config, s: State, e: Event)
    requires CommandFails(e)
    ensures var t := Apply(cfg, s, e); t.redis == s.redis && t.acked == s.acked && t.enqueued == s.enqueued
  {
  }

  // ---------------------------------------------------------------- own steps lead on

  /** Steps a worker may still take before it is idle. */
  function WorkerSteps(pc: WorkerPc): nat {
    match pc
    case Idle => 0
    case Handling(_) => 3
    case WritingDead(_) => 2
    case AddingRetry(_, _) => 2
    case Removing(_, _) => 1
  }

  /** Whatever is replied, each step of a worker with a claim brings it nearer to its next one. */
  lemma {:induction false} WorkerLeadsOn(cfg: Config, s: State, i: Instance, w: nat, k: WorkerStep)
    requires Enabled(cfg, s, Work(i, w, k)) && s.live[i].Worker(w) != RedisProtocol.Idle
    ensures var t := Apply(cfg, s, Work(i, w, k));
      i in t.live && WorkerSteps(t.live[i].Worker(w)) < WorkerSteps(s.live[i].Worker(w))
  {
  }

  /** Steps a mover may still take before it waits for its next tick. */
  function MoverSteps(pc: MoverPc): nat {
    match pc
    case Waiting => 0
    case Moving(due) => 2 * |due| + 1
    case Pushed(due) => 2 * |due|
  }

  lemma {:induction false} MoverLeadsOn(cfg: Config, s: State, i: Instance, k: MoverStep)
    requires Enabled(cfg, s, Move(i, k)) && s.live[i].mover != Waiting
    ensures var t := Apply(cfg, s, Move(i, k));
      i in t.live && MoverSteps(t.live[i].mover) < MoverSteps(s.live[i].mover)
  {
  }

  /** Phase of a keeper on its way to beating, instances still to reap, and what is left to do for the first. */
  function KeeperWork(r: Redis, i: Instance, pc: KeeperPc): (nat, nat, nat) {
    match pc
    case Registered => (5, 0, 0)
    case LegacySeen => (4, 0, 0)
    case Recovering => (3, 0, |r.Processing(i)|)
    case Scanning => (2, 0, 0)
    case Draining(stale) => (1, |stale|, if stale == [] then 0 else |r.Processing(stale[0])| + 1)
    case Deregistering(stale) => (1, |stale|, 0)
    case Beating => (0, 0, 0)
  }

  predicate Less(a: (nat, nat, nat), b: (nat, nat, nat)) {
    a.0 < b.0 || (a.0 == b.0 && (a.1 < b.1 || (a.1 == b.1 && a.2 < b.2)))
  }

  lemma {:induction false} DrainShortens(r: Redis, d: Instance)
    requires r.Processing(d) != []
    ensures |r.DrainOne(d).Processing(d)| == |r.Processing(d)| - 1
  {
  }

  lemma {:induction false} RecoveryLeadsOn(s: State, i: Instance, reply: Reply)
    requires KeeperEnabled(s, i, DrainOwn(reply))
    ensures var t := DrainedOwn(s, i, reply);
      i in t.live ==> Less(KeeperWork(t.redis, i, t.live[i].keeper), KeeperWork(s.redis, i, s.live[i].keeper))
  {
    if s.redis.Processing(i) != [] { DrainShortens(s.redis, i); }
  }

  lemma {:induction false} DrainLeadsOn(s: State, i: Instance, reply: Reply)
    requires KeeperEnabled(s, i, DrainStale(reply))
    ensures var t := DrainedStale(s, i, reply);
      i in t.live ==> Less(KeeperWork(t.redis, i, t.live[i].keeper), KeeperWork(s.redis, i, s.live[i].keeper))
  {
    var d := s.live[i].keeper.stale[0];
    if s.redis.Processing(d) != [] { DrainShortens(s.redis, d); }
  }

  lemma {:induction false} OtherLeadsOn(s: State, i: Instance, k: KeeperStep)
    requires KeeperEnabled(s, i, k) && !k.DrainOwn? && !k.DrainStale? && s.live[i].keeper != Beating
    ensures var t := KeeperApply(s, i, k);
      i in t.live ==> Less(KeeperWork(t.redis, i, t.live[i].keeper), KeeperWork(s.redis, i, s.live[i].keeper))
  {
  }

  /** Whatever is replied, each step of a booting or reaping keeper brings it nearer to beating, or ends the process. */
  lemma {:induction false} KeeperLeadsOn(cfg: Config, s: State, i: Instance, k: KeeperStep)
    requires Enabled(cfg, s, Keep(i, k)) && s.live[i].keeper != Beating
    ensures var t := Apply(cfg, s, Keep(i, k));
      i in t.live ==> Less(KeeperWork(t.redis, i, t.live[i].keeper), KeeperWork(s.redis, i, s.live[i].keeper))
  {
    match k
    case DrainOwn(reply) => RecoveryLeadsOn(s, i, reply);
    case DrainStale(reply) => DrainLeadsOn(s, i, reply);
    case _ => OtherLeadsOn(s, i, k);
  }

  /** A mover or keeper in the middle of a member has that member. */
  ghost predicate HasTarget(r: Replica) {
    && (r.mover.Pushed? ==> r.mover.due != [])
    && (r.keeper.Deregistering? ==> r.keeper.stale != [])
  }

  ghost predicate AllHaveTargets(s: State) {
    forall i :: i in s.live ==> HasTarget(s.live[i])
  }

  lemma {:induction false} StepKeepsTargets(cfg: Config, s: State, e: Event)
    requires AllHaveTargets(s)
    ensures AllHaveTargets(Apply(cfg, s, e))
  {
    if Enabled(cfg, s, e) {
      match e
      case Keep(i, k) => assert KeeperLeaves(s, KeeperApply(s, i, k), i);
      case Work(i, w, k) => assert WorkerLeaves(s, WorkerApply(cfg, s, i, w, k), i, w);
      case Move(i, k) => assert MoverLeaves(s, MoverApply(s, i, k), i);
      case _ =>
    }
  }

  lemma {:induction false} RunKeepsTargets(cfg: Config, legacy: seq<Payload>, es: seq<Event>)
    ensures AllHaveTargets(After(cfg, legacy, es))
  {
    if es != [] {
      RunKeepsTargets(cfg, legacy, es[..|es| - 1]);
      StepKeepsTargets(cfg, After(cfg, legacy, es[..|es| - 1]), es[|es| - 1]);
    }
  }

  /** Over every run: no goroutine of a running replica waits on another. A worker with a claim, a mover with a page
      and a keeper that is booting or reaping can always take its next step. */
  lemma {:induction false} NobodyWaits(cfg: Config, legacy: seq<Payload>, es: seq<Event>, i: Instance, w: nat)
    requires i in After(cfg, legacy, es).live
    ensures
      var s := After(cfg, legacy, es);
      && (s.live[i].booted && s.live[i].Worker(w) != RedisProtocol.Idle ==> exists k :: Enabled(cfg, s, Work(i, w, k)))
      && (s.live[i].booted && s.live[i].mover != Waiting ==> exists k :: Enabled(cfg, s, Move(i, k)))
      && (s.live[i].keeper != Beating ==> exists k :: Enabled(cfg, s, Keep(i, k)))
  {
    var s := After(cfg, legacy, es);
    RunKeepsTargets(cfg, legacy, es);
    if s.live[i].booted {
      WorkerCan(cfg, s, i, w);
      MoverCan(cfg, s, i);
    }
    KeeperCan(cfg, s, i);
  }

  lemma {:induction false} WorkerCan(cfg: Config, s: State, i: Instance, w: nat)
    requires i in s.live && s.live[i].booted
    ensures s.live[i].Worker(w) != RedisProtocol.Idle ==> exists k :: Enabled(cfg, s, Work(i, w, k))
  {
    match s.live[i].Worker(w)
    case Idle =>
    case Handling(_) => assert Enabled(cfg, s, Work(i, w, Handle(Ack)));
    case WritingDead(_) => assert Enabled(cfg, s, Work(i, w, WriteDead(Done)));
    case AddingRetry(_, _) => assert Enabled(cfg, s, Work(i, w, AddRetry(Done)));
    case Removing(_, _) => assert Enabled(cfg, s, Work(i, w, Remove(Done)));
  }

  lemma {:induction false} MoverCan(cfg: Config, s: State, i: Instance)
    requires i in s.live && s.live[i].booted && HasTarget(s.live[i])
    ensures s.live[i].mover != Waiting ==> exists k :: Enabled(cfg, s, Move(i, k))
  {
    match s.live[i].mover
    case Waiting =>
    case Moving(due) => assert Enabled(cfg, s, Move(i, if due == [] then MoverDone else Push(Done)));
    case Pushed(_) => assert Enabled(cfg, s, Move(i, Unretry(Done)));
  }

  lemma {:induction false} KeeperCan(cfg: Config, s: State, i: Instance)
    requires i in s.live && HasTarget(s.live[i])
    ensures s.live[i].keeper != Beating ==> exists k :: Enabled(cfg, s, Keep(i, k))
  {
    match s.live[i].keeper
    case Registered => assert Enabled(cfg, s, Keep(i, CheckLegacy));
    case LegacySeen => assert Enabled(cfg, s, Keep(i, RegisterLegacy(s.now, Done)));
    case Recovering => assert Enabled(cfg, s, Keep(i, DrainOwn(Done)));
    case Scanning => assert Enabled(cfg, s, Keep(i, ScanFailed));
    case Draining(stale) => assert Enabled(cfg, s, Keep(i, if stale == [] then ReapDone else DrainStale(Done)));
    case Deregistering(_) => assert Enabled(cfg, s, Keep(i, Deregister(Done)));
    case Beating =>
  }

  // ---------------------------------------------------------------- heartbeats

  /** A first registration or a heartbeat that reaches Redis dates the replica. */
  lemma {:induction false} BeatDates(cfg: Config, s: State, i: Instance, score: int, reply: Reply, e: Event)
    requires Enabled(cfg, s, e) && reply != Failed && (e == Boot(i, score, reply) || e == Keep(i, Heartbeat(score, reply)))
    ensures Apply(cfg, s, e).redis.instances == s.redis.instances[i := score] && Apply(cfg, s, e).beat[i := score] == Apply(cfg, s, e).beat
  {
  }

  ghost predicate DatedPast(instances: map<Instance, int>, now: int) {
    forall i :: i in instances ==> instances[i] <= now
  }

  lemma {:induction false} KeeperDatesPast(s: State, i: Instance, k: KeeperStep)
    requires KeeperEnabled(s, i, k) && DatedPast(s.redis.instances, s.now)
    ensures DatedPast(KeeperApply(s, i, k).redis.instances, s.now)
  {
  }

  lemma {:induction false} StepDatesPast(cfg: Config, s: State, e: Event)
    requires DatedPast(s.redis.instances, s.now)
    ensures DatedPast(Apply(cfg, s, e).redis.instances, Apply(cfg, s, e).now)
  {
    if e.Keep? && Enabled(cfg, s, e) {
      KeeperDatesPast(s, e.i, e.keeper);
      assert KeeperLeaves(s, Apply(cfg, s, e), e.i);
    } else if e.Work? && Enabled(cfg, s, e) {
      assert WorkerLeaves(s, Apply(cfg, s, e), e.i, e.w);
    } else if e.Move? && Enabled(cfg, s, e) {
      assert MoverLeaves(s, Apply(cfg, s, e), e.i);
    }
  }

  /** Over every run no registration is dated ahead of the clock, so none delays its own reaping. */
  lemma {:induction false} DatesArePast(cfg: Config, legacy: seq<Payload>, es: seq<Event>)
    ensures DatedPast(After(cfg, legacy, es).redis.instances, After(cfg, legacy, es).now)
  {
    if es != [] {
      DatesArePast(cfg, legacy, es[..|es| - 1]);
      StepDatesPast(cfg, After(cfg, legacy, es[..|es| - 1]), es[|es| - 1]);
    }
  }

  // ---------------------------------------------------------------- the older release's list

  lemma {:induction false} LegacyNotLive(cfg: Config, legacy: seq<Payload>, es: seq<Event>)
    ensures LEGACY !in After(cfg, legacy, es).live
  {
    if es != [] { LegacyNotLive(cfg, legacy, es[..|es| - 1]); }
  }

  lemma {:induction false} KeeperKeepsLegacy(s: State, i: Instance, k: KeeperStep)
    requires KeeperEnabled(s, i, k) && i != LEGACY
    requires LEGACY in s.redis.instances && LEGACY in KeeperApply(s, i, k).redis.instances
    ensures KeeperApply(s, i, k).redis.instances[LEGACY] == s.redis.instances[LEGACY]
  {
  }

  lemma {:induction false} StepKeepsLegacy(cfg: Config, s: State, e: Event)
    requires LEGACY !in s.live && LEGACY in s.redis.instances && LEGACY in Apply(cfg, s, e).redis.instances
    ensures Apply(cfg, s, e).redis.instances[LEGACY] == s.redis.instances[LEGACY]
  {
    if e.Keep? && Enabled(cfg, s, e) {
      KeeperKeepsLegacy(s, e.i, e.keeper);
    } else if e.Work? && Enabled(cfg, s, e) {
      assert WorkerLeaves(s, Apply(cfg, s, e), e.i, e.w);
    } else if e.Move? && Enabled(cfg, s, e) {
      assert MoverLeaves(s, Apply(cfg, s, e), e.i);
    }
  }

  ghost predicate LegacyRegistered(cfg: Config, legacy: seq<Payload>, es: seq<Event>, from: nat)
    requires from <= |es|
  {
    forall n :: from <= n <= |es| ==> LEGACY in After(cfg, legacy, es[..n]).redis.instances
  }

  /** Over every run: however many replicas start and find the older release's list, its registration keeps the date
      it got first, so it does age out. */
  lemma {:induction false} LegacyAges(cfg: Config, legacy: seq<Payload>, es: seq<Event>, from: nat)
    requires from <= |es| && LegacyRegistered(cfg, legacy, es, from)
    ensures LEGACY in After(cfg, legacy, es[..from]).redis.instances && LEGACY in After(cfg, legacy, es).redis.instances
    ensures After(cfg, legacy, es).redis.instances[LEGACY] == After(cfg, legacy, es[..from]).redis.instances[LEGACY]
    decreases |es|
  {
    assert es[..|es|] == es && LEGACY in After(cfg, legacy, es[..|es|]).redis.instances;
    if from < |es| {
      var init := es[..|es| - 1];
      forall n | from <= n <= |init|
        ensures LEGACY in After(cfg, legacy, init[..n]).redis.instances
      {
        assert init[..n] == es[..n];
      }
      assert init[..from] == es[..from];
      LegacyAges(cfg, legacy, init, from);
      LegacyNotLive(cfg, legacy, init);
      StepKeepsLegacy(cfg, After(cfg, legacy, init), es[|es| - 1]);
    }
  }
}
