/**
 Why reaping needs timely heartbeats: runs in which a replica that is only late loses its claims to another,
 and goes on to claim where no reaper looks.
 */
module RedisLateReplica {
  import opened QueueTypes
  import opened RedisProtocol

  /** Some run from an empty Redis ends in s. */
  ghost predicate Reachable(cfg: Config, s: State) {
    exists es :: After(cfg, [], es) == s
  }

  lemma {:induction false} Start(cfg: Config)
    ensures Reachable(cfg, Init([]))
  {
    assert After(cfg, [], []) == Init([]);
  }

  lemma {:induction false} Reach(cfg: Config, s: State, e: Event) returns (s': State)
    requires Reachable(cfg, s)
    ensures s' == Apply(cfg, s, e) && Reachable(cfg, s')
  {
    var es :| After(cfg, [], es) == s;
    assert (es + [e])[..|es|] == es;
    s' := Apply(cfg, s, e);
    assert After(cfg, [], es + [e]) == s';
  }

  /** A boot up to the point where the replica looks for dead ones. */
  lemma {:induction false} BootScanning(cfg: Config, s: State, i: Instance) returns (t: State)
    requires Reachable(cfg, s) && i !in s.born && i !in s.live && i != LEGACY
    requires s.redis.Processing(LEGACY) == [] && s.redis.Processing(i) == []
    ensures Reachable(cfg, t) && t.now == s.now && t.pushes == s.pushes
    ensures t.live == s.live[i := Replica(false, Scanning, Waiting, map[])] && t.born == s.born + {i}
    ensures t.redis == s.redis.(instances := s.redis.instances[i := s.now])
  {
    var s1 := Reach(cfg, s, Boot(i, s.now, Done));
    assert s1.live[i] == Replica(false, Registered, Waiting, map[]);
    t := RecoverNothing(cfg, s1, i);
  }

  lemma {:induction false} RecoverNothing(cfg: Config, s: State, i: Instance) returns (t: State)
    requires Reachable(cfg, s) && i in s.live && s.live[i] == Replica(false, Registered, Waiting, map[])
    requires s.redis.Processing(LEGACY) == [] && s.redis.Processing(i) == []
    ensures Reachable(cfg, t) && t.now == s.now && t.born == s.born && t.redis == s.redis && t.pushes == s.pushes
    ensures t.live == s.live[i := Replica(false, Scanning, Waiting, map[])]
  {
    var s1 := Reach(cfg, s, Keep(i, CheckLegacy));
    assert s1.live[i] == Replica(false, Recovering, Waiting, map[]);
    t := Reach(cfg, s1, Keep(i, DrainOwn(Done)));
  }

  lemma {:induction false} ScanNobody(cfg: Config, s: State, i: Instance) returns (t: State)
    requires forall d :: d in s.redis.instances ==> s.now - RECLAIM_AFTER < s.redis.instances[d]
    requires Reachable(cfg, s) && i in s.live && s.live[i] == Replica(false, Scanning, Waiting, map[])
    ensures Reachable(cfg, t) && t.now == s.now && t.redis == s.redis && t.born == s.born && t.pushes == s.pushes
    ensures t.live == s.live[i := Replica(true, Beating, Waiting, map[])]
  {
    var s1 := ScanFor(cfg, s, i, []);
    t := Reach(cfg, s1, Keep(i, ReapDone));
  }

  lemma {:induction false} ScanFor(cfg: Config, s: State, i: Instance, stale: seq<Instance>) returns (t: State)
    requires Reachable(cfg, s) && i in s.live && s.live[i] == Replica(false, Scanning, Waiting, map[]) && |stale| <= 1
    requires IsPage(s.redis.instances, s.now - RECLAIM_AFTER, stale) && i !in stale
    ensures Reachable(cfg, t) && t == s.(live := s.live[i := Replica(false, Draining(stale), Waiting, map[])])
  {
    assert Others(stale, i) == stale;
    t := Reach(cfg, s, Keep(i, Scan(s.now - RECLAIM_AFTER, stale)));
  }

  /** A job is enqueued and an idle replica's first worker claims it. */
  lemma {:induction false} EnqueueAndClaim(cfg: Config, s: State, d: Instance, j: Job) returns (t: State)
    requires Reachable(cfg, s) && cfg.deadLetterMax > 0 && s.redis.pending == [] && d !in s.redis.processing
    requires d in s.live && s.live[d] == Replica(true, Beating, Waiting, map[])
    ensures Reachable(cfg, t) && t.now == s.now && t.born == s.born && t.pushes == s.pushes + [Payload(j, 0)]
    ensures t.live == s.live[d := Replica(true, Beating, Waiting, map[0 := Handling(Payload(j, 0))])]
    ensures t.redis == s.redis.(processing := s.redis.processing[d := [Payload(j, 0)]])
  {
    var s1 := Reach(cfg, s, Enqueue(j, 0, Done));
    assert s1.redis.pending == [Payload(j, 0)];
    t := Reach(cfg, s1, Work(d, 0, Claim(Done)));
  }

  /** d boots, claims a job, and then is silent for a whole reclaim window. */
  lemma {:induction false} LateClaim(cfg: Config, d: Instance, j: Job) returns (s: State)
    requires cfg.deadLetterMax > 0 && d != LEGACY
    ensures Reachable(cfg, s) && s.now == RECLAIM_AFTER && s.born == {d} && s.pushes == [Payload(j, 0)]
    ensures s.live == map[d := Replica(true, Beating, Waiting, map[0 := Handling(Payload(j, 0))])]
    ensures s.redis.pending == [] && s.redis.instances == map[d := 0]
    ensures s.redis.processing == map[LEGACY := [], d := [Payload(j, 0)]]
  {
    Start(cfg);
    var s0 := BootScanning(cfg, Init([]), d);
    var s1 := ScanNobody(cfg, s0, d);
    var s2 := EnqueueAndClaim(cfg, s1, d, j);
    s := Reach(cfg, s2, Tick(RECLAIM_AFTER));
  }

  /** Another replica boots and finds d's registration a window old. */
  lemma {:induction false} Rival(cfg: Config, d: Instance, i: Instance, j: Job) returns (s: State)
    requires cfg.deadLetterMax > 0 && d != LEGACY && i != LEGACY && i != d
    ensures Reachable(cfg, s) && s.redis.pending == [] && s.redis.instances == map[d := 0, i := RECLAIM_AFTER]
    ensures s.pushes == [Payload(j, 0)]
    ensures s.live == map[
      d := Replica(true, Beating, Waiting, map[0 := Handling(Payload(j, 0))]), i := Replica(false, Draining([d]), Waiting, map[])]
    ensures s.redis.processing == map[LEGACY := [], d := [Payload(j, 0)]]
  {
    var s0 := LateClaim(cfg, d, j);
    var s1 := BootScanning(cfg, s0, i);
    s := ScanFor(cfg, s1, i, [d]);
  }

  /** A late but live replica's claim is taken while its worker is still handling the job. */
  lemma {:induction false} LateReplicaIsDrained(cfg: Config, d: Instance, i: Instance, j: Job) returns (s: State)
    requires cfg.deadLetterMax > 0 && d != LEGACY && i != LEGACY && i != d
    ensures Reachable(cfg, s) && s.pushes == [Payload(j, 0)]
    ensures d in s.live && s.live[d].Worker(0) == Handling(Payload(j, 0))
    ensures s.redis.Processing(d) == [] && s.redis.pending == [Payload(j, 0)]
    ensures i in s.live && s.live[i].keeper == Draining([d])
    ensures s.live[d].booted && s.live[d].Worker(1) == Idle
  {
    var s0 := Rival(cfg, d, i, j);
    s := Reach(cfg, s0, Keep(i, DrainStale(Done)));
  }

  /** It is then deregistered while it runs. */
  lemma {:induction false} Deregisters(cfg: Config, d: Instance, i: Instance, j: Job) returns (s: State)
    requires cfg.deadLetterMax > 0 && d != LEGACY && i != LEGACY && i != d
    ensures Reachable(cfg, s) && d in s.live && s.live[d].booted && s.live[d].Worker(1) == Idle
    ensures s.redis.Processing(d) == [] && s.redis.pending == [Payload(j, 0)] && d !in s.redis.instances
  {
    var s0 := LateReplicaIsDrained(cfg, d, i, j);
    var s1 := Reach(cfg, s0, Keep(i, DrainStale(Done)));
    assert s1.live[i].keeper == Deregistering([d]);
    s := Reach(cfg, s1, Keep(i, Deregister(Done)));
  }

  /** And its next claim sits in a list no reaper looks at. */
  lemma {:induction false} DeregisteredReplicaStrands(cfg: Config, d: Instance, i: Instance, j: Job) returns (s: State)
    requires cfg.deadLetterMax > 0 && d != LEGACY && i != LEGACY && i != d
    ensures Reachable(cfg, s)
    ensures d in s.live && s.redis.Processing(d) == [Payload(j, 0)] && d !in s.redis.instances
  {
    var s0 := Deregisters(cfg, d, i, j);
    s := Reach(cfg, s0, Work(d, 1, Claim(Done)));
  }
}
