/**
 No job is lost, whatever the interleaving, the crashes and the failed commands.

 Copies of a job are ranked by level: a member (j, m) of the retry set has level 2m, an entry
 (j, m) of any list has level 2m + 1. Every command that deletes a copy is issued only after the
 job is done or a copy of strictly higher level exists, so the highest level a job has reached is
 never given up before the job is acked or dead-lettered.
 */
module RedisNoLoss {
  import opened QueueTypes
  import opened RedisProtocol

  ghost predicate Settled(s: State, j: Job) {
    j in s.acked || exists e :: e in s.redis.dead && e.job == j
  }

  ghost predicate CopyAt(r: Redis, p: Payload, level: int) {
    (r.Listed(p) && level <= 2 * p.attempts + 1) || (p in r.retry && level <= 2 * p.attempts)
  }

  /** The job is settled, or some copy of it has at least the given level. */
  ghost predicate Holds(s: State, j: Job, level: int) {
    Settled(s, j) || exists p: Payload :: p.job == j && CopyAt(s.redis, p, level)
  }

  /** What a goroutine that is about to delete a copy relies on. */
  ghost predicate WorkerSafe(s: State, pc: WorkerPc) {
    pc.Removing? && !pc.why.Finished? ==> Holds(s, pc.p.job, 2 * pc.p.attempts + 2)
  }

  ghost predicate MoverSafe(s: State, pc: MoverPc) {
    pc.Pushed? && pc.due != [] ==> Holds(s, pc.due[0].job, 2 * pc.due[0].attempts + 1)
  }

  ghost predicate Inv(s: State) {
    && (forall j :: j in s.enqueued ==> Holds(s, j, 0))
    && (forall i, w: nat :: i in s.live ==> WorkerSafe(s, s.live[i].Worker(w)))
    && (forall i :: i in s.live ==> MoverSafe(s, s.live[i].mover))
  }

  /** s' forgets nothing that s holds. */
  ghost predicate Grows(s: State, s': State) {
    && s.acked <= s'.acked
    && (forall e :: e in s.redis.dead ==> e in s'.redis.dead)
    && (forall p :: s.redis.Listed(p) ==> s'.redis.Listed(p))
    && (forall p :: p in s.redis.retry ==> p in s'.redis.retry)
  }

  ghost predicate Keeps(s: State, s': State) {
    forall j, level :: Holds(s, j, level) ==> Holds(s', j, level)
  }

  lemma {:induction false} GrowsKeeps(s: State, s': State)
    requires Grows(s, s')
    ensures Keeps(s, s')
  {
    forall j, level | Holds(s, j, level)
      ensures Holds(s', j, level)
    {
      if !Settled(s, j) {
        var p: Payload :| p.job == j && CopyAt(s.redis, p, level);
        assert CopyAt(s'.redis, p, level);
      }
    }
  }

  // ---------------------------------------------------------------- lists

  lemma {:induction false} RemoveFirstIn(l: seq<Payload>, p: Payload, q: Payload)
    requires q in l && q != p
    ensures q in RemoveFirst(l, p)
  {
    if l[0] != p && l[0] != q {
      RemoveFirstIn(l[1..], p, q);
    }
  }

  lemma {:induction false} ListedByOwner(r: Redis, i: Instance, p: Payload)
    requires p in r.Processing(i)
    ensures r.Listed(p)
  {
  }

  lemma {:induction false} ClaimListed(r: Redis, i: Instance, p: Payload)
    requires r.pending != [] && r.Listed(p)
    ensures r.Claim(i).Listed(p)
  {
    var n := |r.pending| - 1;
    var r' := r.Claim(i);
    assert r.pending == r.pending[..n] + [r.pending[n]];
    if p in r.pending {
      assert p in r'.pending || p in r'.Processing(i);
    } else {
      var o :| o in r.processing && p in r.processing[o];
      assert p in r'.Processing(o);
      ListedByOwner(r', o, p);
    }
  }

  lemma {:induction false} DrainListed(r: Redis, d: Instance, p: Payload)
    requires r.Processing(d) != [] && r.Listed(p)
    ensures r.DrainOne(d).Listed(p)
  {
    var l := r.Processing(d);
    var n := |l| - 1;
    var r' := r.DrainOne(d);
    assert l == l[..n] + [l[n]];
    if p !in r.pending {
      var o :| o in r.processing && p in r.processing[o];
      if o == d {
        assert p in r'.pending || p in r'.Processing(d);
      } else {
        assert p in r'.Processing(o);
      }
    }
  }

  lemma {:induction false} RemoveListed(r: Redis, i: Instance, p: Payload, q: Payload)
    requires r.Listed(q) && q != p
    ensures r.Remove(i, p).Listed(q)
  {
    var r' := r.Remove(i, p);
    if q !in r.pending {
      var o :| o in r.processing && q in r.processing[o];
      if o == i {
        RemoveFirstIn(r.Processing(i), p, q);
      }
      assert q in r'.Processing(o);
    }
  }

  // ---------------------------------------------------------------- the deleting commands

  /** Deleting a copy keeps every level when a higher copy exists. */
  lemma {:induction false} DeletionKeeps(s: State, s': State, gone: Payload, level: int)
    requires s'.acked == s.acked && s'.redis.dead == s.redis.dead
    requires Holds(s, gone.job, level + 1)
    requires forall p, l :: CopyAt(s.redis, p, l) && (p != gone || level < l) ==> CopyAt(s'.redis, p, l)
    ensures Keeps(s, s')
  {
    forall j, l | Holds(s, j, l)
      ensures Holds(s', j, l)
    {
      if !Settled(s, j) {
        var p: Payload :| p.job == j && CopyAt(s.redis, p, l);
        if p == gone && l <= level {
          var q: Payload :| q.job == j && CopyAt(s.redis, q, level + 1);
          assert CopyAt(s'.redis, q, level + 1);
          assert CopyAt(s'.redis, q, l);
        } else {
          assert CopyAt(s'.redis, p, l);
        }
      }
    }
  }

  lemma {:induction false} RemovedKeeps(s: State, i: Instance, w: nat, reply: Reply)
    requires i in s.live && s.live[i].Worker(w).Removing? && WorkerSafe(s, s.live[i].Worker(w))
    ensures Keeps(s, Removed(s, i, w, reply))
  {
    var s' := Removed(s, i, w, reply);
    var pc := s.live[i].Worker(w);
    if !reply.Applied() {
      GrowsKeeps(s, s');
    } else if pc.why.Finished? {
      forall j, l | Holds(s, j, l)
        ensures Holds(s', j, l)
      {
        if !Settled(s', j) {
          var q: Payload :| q.job == j && CopyAt(s.redis, q, l);
          if s.redis.Listed(q) {
            RemoveListed(s.redis, i, pc.p, q);
          }
          assert CopyAt(s'.redis, q, l);
        }
      }
    } else {
      var level := 2 * pc.p.attempts + 1;
      forall q, l | CopyAt(s.redis, q, l) && (q != pc.p || level < l)
        ensures CopyAt(s'.redis, q, l)
      {
        if s.redis.Listed(q) && q != pc.p {
          RemoveListed(s.redis, i, pc.p, q);
        }
      }
      DeletionKeeps(s, s', pc.p, level);
    }
  }

  lemma {:induction false} UnretriedKeeps(s: State, i: Instance, reply: Reply)
    requires i in s.live && s.live[i].mover.Pushed? && s.live[i].mover.due != []
    requires MoverSafe(s, s.live[i].mover)
    ensures Keeps(s, Unretried(s, i, reply))
  {
    var s' := Unretried(s, i, reply);
    var gone := s.live[i].mover.due[0];
    if reply.Applied() {
      var level := 2 * gone.attempts;
      assert forall q :: s.redis.Listed(q) ==> s'.redis.Listed(q);
      forall q, l | CopyAt(s.redis, q, l) && (q != gone || level < l)
        ensures CopyAt(s'.redis, q, l)
      {
      }
      DeletionKeeps(s, s', gone, level);
    } else {
      GrowsKeeps(s, s');
    }
  }

  // ---------------------------------------------------------------- every event

  lemma {:induction false} ClaimedKeeps(s: State, i: Instance, w: nat, reply: Reply)
    requires i in s.live && s.redis.pending != []
    ensures Keeps(s, Claimed(s, i, w, reply))
  {
    var s' := Claimed(s, i, w, reply);
    forall p | s.redis.Listed(p)
      ensures s'.redis.Listed(p)
    {
      ClaimListed(s.redis, i, p);
    }
    GrowsKeeps(s, s');
  }

  /** Draining moves entries, whoever does it and whether or not the reply arrives. */
  lemma {:induction false} DrainKeeps(s: State, s': State, d: Instance)
    requires s'.acked == s.acked
    requires s'.redis == s.redis || (s.redis.Processing(d) != [] && s'.redis == s.redis.DrainOne(d))
    ensures Keeps(s, s')
  {
    forall p | s.redis.Listed(p)
      ensures s'.redis.Listed(p)
    {
      if s'.redis != s.redis { DrainListed(s.redis, d, p); }
    }
    GrowsKeeps(s, s');
  }

  lemma {:induction false} PushLeftListed(r: Redis, p: Payload, q: Payload)
    requires r.Listed(q) || q == p
    ensures r.PushLeft(p).Listed(q)
  {
    var r' := r.PushLeft(p);
    if q in r.pending || q == p {
      assert r'.pending[0] == p && r'.pending[1..] == r.pending;
    }
  }

  lemma {:induction false} KeeperKeeps(s: State, i: Instance, k: KeeperStep)
    requires KeeperEnabled(s, i, k)
    ensures Keeps(s, KeeperApply(s, i, k))
  {
    if k.DrainOwn? {
      DrainKeeps(s, DrainedOwn(s, i, k.reply), i);
    } else if k.DrainStale? {
      DrainKeeps(s, DrainedStale(s, i, k.reply), s.live[i].keeper.stale[0]);
    } else {
      GrowsKeeps(s, KeeperApply(s, i, k));
    }
  }

  lemma {:induction false} WorkerKeeps(cfg: Config, s: State, i: Instance, w: nat, k: WorkerStep)
    requires WorkerEnabled(s, i, w, k) && Inv(s)
    ensures Keeps(s, WorkerApply(cfg, s, i, w, k))
  {
    if k.Claim? {
      ClaimedKeeps(s, i, w, k.reply);
    } else if k.Remove? {
      RemovedKeeps(s, i, w, k.reply);
    } else {
      GrowsKeeps(s, WorkerApply(cfg, s, i, w, k));
    }
  }

  lemma {:induction false} PushKeeps(s: State, s': State, p: Payload)
    requires s'.acked == s.acked
    requires s'.redis == s.redis || s'.redis == s.redis.PushLeft(p)
    ensures Keeps(s, s')
  {
    forall q | s.redis.Listed(q)
      ensures s'.redis.Listed(q)
    {
      if s'.redis != s.redis { PushLeftListed(s.redis, p, q); }
    }
    GrowsKeeps(s, s');
  }

  lemma {:induction false} MoverKeeps(s: State, i: Instance, k: MoverStep)
    requires MoverEnabled(s, i, k) && Inv(s)
    ensures Keeps(s, MoverApply(s, i, k))
  {
    if k.Unretry? {
      UnretriedKeeps(s, i, k.reply);
    } else if k.Push? {
      PushKeeps(s, PushedDue(s, i, k.reply), s.live[i].mover.due[0]);
    } else {
      GrowsKeeps(s, MoverApply(s, i, k));
    }
  }

  /** The highest level a job has reached is never lost, at any step from a state that satisfies Inv. */
  lemma {:induction false} StepKeeps(cfg: Config, s: State, e: Event)
    requires Inv(s)
    ensures Keeps(s, Apply(cfg, s, e))
  {
    if Enabled(cfg, s, e) {
      match e
      case Keep(i, k) => KeeperKeeps(s, i, k);
      case Work(i, w, k) => WorkerKeeps(cfg, s, i, w, k);
      case Move(i, k) => MoverKeeps(s, i, k);
      case Enqueue(j, _, reply) => PushKeeps(s, Enqueued(s, j, reply), Payload(j, 0));
      case _ => GrowsKeeps(s, Apply(cfg, s, e));
    }
  }

  // ---------------------------------------------------------------- obligations

  /** Only a replica's own worker steps change its workers; a new replica starts with none busy. */
  lemma {:induction false} WorkersFrame(cfg: Config, s: State, e: Event, i: Instance)
    requires i in Apply(cfg, s, e).live && !(e.Work? && e.i == i)
    ensures Apply(cfg, s, e).live[i].workers == if i in s.live then s.live[i].workers else map[]
  {
  }

  lemma {:induction false} MoverFrame(cfg: Config, s: State, e: Event, i: Instance)
    requires i in Apply(cfg, s, e).live && !(e.Move? && e.i == i)
    ensures Apply(cfg, s, e).live[i].mover == if i in s.live then s.live[i].mover else Waiting
  {
  }

  lemma {:induction false} OtherWorkers(cfg: Config, s: State, i: Instance, w: nat, k: WorkerStep, w': nat)
    requires WorkerEnabled(s, i, w, k) && w' != w
    ensures i in WorkerApply(cfg, s, i, w, k).live
    ensures WorkerApply(cfg, s, i, w, k).live[i].Worker(w') == s.live[i].Worker(w')
  {
  }

  /** A worker enters a deleting state only with its obligation already met. */
  lemma {:induction false} OwnObligation(cfg: Config, s: State, i: Instance, w: nat, k: WorkerStep)
    requires WorkerEnabled(s, i, w, k)
    ensures
      var s' := WorkerApply(cfg, s, i, w, k);
      && i in s'.live
      && (s'.live[i].Worker(w) == s.live[i].Worker(w) || WorkerSafe(s', s'.live[i].Worker(w)))
  {
    var s' := WorkerApply(cfg, s, i, w, k);
    if k.WriteDead? && k.reply.Done? {
      var p := s.live[i].Worker(w).p;
      assert s'.redis.dead[0] == DeadEntry(p.job, p.attempts + 1);
      assert Settled(s', p.job);
    } else if k.AddRetry? && k.reply.Done? {
      var p := s.live[i].Worker(w).p;
      assert CopyAt(s'.redis, Retried(p), 2 * p.attempts + 2);
      assert Holds(s', p.job, 2 * p.attempts + 2);
    }
  }

  lemma {:induction false} WorkerObligation(cfg: Config, s: State, e: Event, i: Instance, w: nat)
    requires Inv(s) && Keeps(s, Apply(cfg, s, e)) && i in Apply(cfg, s, e).live
    ensures WorkerSafe(Apply(cfg, s, e), Apply(cfg, s, e).live[i].Worker(w))
  {
    if e.Work? && e.i == i {
      if Enabled(cfg, s, e) {
        if e.w == w {
          OwnObligation(cfg, s, i, w, e.worker);
        } else {
          OtherWorkers(cfg, s, i, e.w, e.worker, w);
        }
      }
    } else {
      WorkersFrame(cfg, s, e, i);
    }
    assert i in s.live ==> WorkerSafe(s, s.live[i].Worker(w));
  }

  /** The mover reaches its ZREM only with its obligation already met. */
  lemma {:induction false} MoverObligation(cfg: Config, s: State, e: Event, i: Instance)
    requires Inv(s) && Keeps(s, Apply(cfg, s, e)) && i in Apply(cfg, s, e).live
    ensures MoverSafe(Apply(cfg, s, e), Apply(cfg, s, e).live[i].mover)
  {
    if e.Move? && e.i == i {
      if Enabled(cfg, s, e) && e.mover.Push? && e.mover.reply.Done? {
        var p := s.live[i].mover.due[0];
        PushLeftListed(s.redis, p, p);
        assert CopyAt(Apply(cfg, s, e).redis, p, 2 * p.attempts + 1);
      }
    } else {
      MoverFrame(cfg, s, e, i);
    }
    assert i in s.live ==> MoverSafe(s, s.live[i].mover);
  }

  lemma {:induction false} OnlyEnqueueAdds(cfg: Config, s: State, e: Event)
    requires !e.Enqueue?
    ensures Apply(cfg, s, e).enqueued == s.enqueued
  {
  }

  lemma {:induction false} NewJobHolds(s: State, j: Job, reply: Reply)
    requires reply.Done?
    ensures Holds(Enqueued(s, j, reply), j, 0)
  {
    PushLeftListed(s.redis, Payload(j, 0), Payload(j, 0));
    assert CopyAt(Enqueued(s, j, reply).redis, Payload(j, 0), 0);
  }

  lemma {:induction false} StepInv(cfg: Config, s: State, e: Event)
    requires Inv(s)
    ensures Inv(Apply(cfg, s, e))
  {
    var s' := Apply(cfg, s, e);
    StepKeeps(cfg, s, e);
    forall j | j in s'.enqueued
      ensures Holds(s', j, 0)
    {
      if j !in s.enqueued {
        if !e.Enqueue? { OnlyEnqueueAdds(cfg, s, e); }
        NewJobHolds(s, j, e.reply);
      }
    }
    forall i, w: nat | i in s'.live
      ensures WorkerSafe(s', s'.live[i].Worker(w))
    {
      WorkerObligation(cfg, s, e, i, w);
    }
    forall i | i in s'.live
      ensures MoverSafe(s', s'.live[i].mover)
    {
      MoverObligation(cfg, s, e, i);
    }
  }

  lemma {:induction false} RunInv(cfg: Config, legacy: seq<Payload>, es: seq<Event>)
    ensures Inv(After(cfg, legacy, es))
  {
    if es == [] {
      var s := Init(legacy);
      forall j | j in s.enqueued
        ensures Holds(s, j, 0)
      {
        var p :| p in legacy && p.job == j;
        assert p in s.redis.Processing(LEGACY);
        assert CopyAt(s.redis, p, 0);
      }
    } else {
      RunInv(cfg, legacy, es[..|es| - 1]);
      StepInv(cfg, After(cfg, legacy, es[..|es| - 1]), es[|es| - 1]);
    }
  }

  // ---------------------------------------------------------------- results

  ghost predicate Present(r: Redis, j: Job) {
    exists p: Payload :: p.job == j && (r.Listed(p) || p in r.retry)
  }

  /** After any run, every successfully enqueued job is acked, dead-lettered or still in Redis. */
  lemma {:induction false} NoJobLost(cfg: Config, legacy: seq<Payload>, es: seq<Event>, j: Job)
    requires j in After(cfg, legacy, es).enqueued
    ensures
      var s := After(cfg, legacy, es);
      j in s.acked || (exists e :: e in s.redis.dead && e.job == j) || Present(s.redis, j)
  {
    RunInv(cfg, legacy, es);
    var s := After(cfg, legacy, es);
    assert Holds(s, j, 0);
    if !Settled(s, j) {
      var p: Payload :| p.job == j && CopyAt(s.redis, p, 0);
    }
  }

  /** Progress is never given up: a level reached at some point of a run is held at every later point. */
  lemma {:induction false} LevelNeverDrops(
      cfg: Config, legacy: seq<Payload>, es: seq<Event>, more: seq<Event>, j: Job, level: int)
    requires Holds(After(cfg, legacy, es), j, level)
    ensures Holds(After(cfg, legacy, es + more), j, level)
    decreases |more|
  {
    if more == [] {
      assert es + more == es;
    } else {
      var n := |more| - 1;
      LevelNeverDrops(cfg, legacy, es, more[..n], j, level);
      assert (es + more)[..|es + more| - 1] == es + more[..n];
      RunInv(cfg, legacy, es + more[..n]);
      StepKeeps(cfg, After(cfg, legacy, es + more[..n]), more[n]);
    }
  }
}
