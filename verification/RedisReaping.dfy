/**
 When reaping is safe: a live replica's claims are left alone and every claim stays reachable by some reaper,
 exactly as long as no scan for stale instances names a live one. Timely heartbeats see to that.
 */
module RedisReaping {
  import opened QueueTypes
  import opened RedisProtocol
  import RedisConservation

  /** Every live replica has written a heartbeat within the reclaim window. */
  ghost predicate Timely(s: State) {
    forall i :: i in s.live ==> i in s.beat && s.now - RECLAIM_AFTER < s.beat[i]
  }

  ghost predicate TimelyRun(cfg: Config, legacy: seq<Payload>, es: seq<Event>) {
    forall k :: 0 <= k <= |es| ==> Timely(After(cfg, legacy, es[..k]))
  }

  /** The scan takes a live replica for a dead one. */
  ghost predicate ScansLive(s: State, i: Instance, k: KeeperStep) {
    k.Scan? && exists d :: d in k.page && d != i && d in s.live
  }

  ghost predicate NamesLive(cfg: Config, s: State, e: Event) {
    e.Keep? && Enabled(cfg, s, e) && ScansLive(s, e.i, e.keeper)
  }

  /** No scan of the run names a live replica. */
  ghost predicate SparingRun(cfg: Config, legacy: seq<Payload>, es: seq<Event>) {
    es == [] ||
    (&& SparingRun(cfg, legacy, es[..|es| - 1])
     && !NamesLive(cfg, After(cfg, legacy, es[..|es| - 1]), es[|es| - 1]))
  }

  // ---------------------------------------------------------------- invariant

  ghost predicate Names(s: State) {
    && s.live.Keys <= s.born
    && LEGACY !in s.born
    && s.redis.instances.Keys <= s.born + {LEGACY}
  }

  ghost predicate Beats(s: State) {
    forall i :: i in s.live ==> BeatOk(s, i)
  }

  /** A reaper's work list names dead instances only; it deregisters only an empty list. */
  ghost predicate TargetsOk(s: State, pc: KeeperPc) {
    && (pc.Draining? || pc.Deregistering? ==>
          forall d :: d in pc.stale ==> d !in s.live && d in s.born + {LEGACY})
    && (pc.Deregistering? && pc.stale != [] ==> s.redis.Processing(pc.stale[0]) == [])
  }

  ghost predicate Targets(s: State) {
    forall i :: i in s.live ==> TargetsOk(s, s.live[i].keeper)
  }

  ghost predicate OwnerOk(s: State, i: Instance) {
    s.redis.Processing(i) != [] ==>
      if i == LEGACY then s.legacyChecked ==> LEGACY in s.redis.instances
      else i in s.born && i in s.redis.instances
  }

  ghost predicate Owned(s: State) {
    forall i :: OwnerOk(s, i)
  }

  ghost predicate Registry(s: State) {
    Names(s) && Beats(s) && Targets(s) && Owned(s)
  }

  // ---------------------------------------------------------------- keeper steps

  lemma {:induction false} KeeperNames(s: State, i: Instance, k: KeeperStep)
    requires KeeperEnabled(s, i, k) && Names(s)
    ensures Names(KeeperApply(s, i, k))
  {
  }

  ghost predicate BeatOk(s: State, o: Instance) {
    o in s.redis.instances && o in s.beat && s.redis.instances[o] == s.beat[o]
  }

  /** A reaper deregisters dead instances only, so no live heartbeat is touched by another. */
  lemma {:induction false} KeeperBeat(s: State, i: Instance, k: KeeperStep, o: Instance)
    requires KeeperEnabled(s, i, k) && TargetsOk(s, s.live[i].keeper) && LEGACY !in s.live
    requires o in s.live && BeatOk(s, o)
    ensures BeatOk(KeeperApply(s, i, k), o)
  {
    match k
    case Deregister(reply) => DeregisterBeat(s, i, reply, o);
    case Heartbeat(score, reply) => assert o != i || BeatOk(Beat(s, i, score, reply), i);
    case _ =>
  }

  lemma {:induction false} DeregisterBeat(s: State, i: Instance, reply: Reply, o: Instance)
    requires i in s.live && s.live[i].keeper.Deregistering? && s.live[i].keeper.stale != []
    requires TargetsOk(s, s.live[i].keeper) && o in s.live && BeatOk(s, o)
    ensures BeatOk(Deregistered(s, i, reply), o)
  {
  }

  lemma {:induction false} KeeperBeats(s: State, i: Instance, k: KeeperStep)
    requires KeeperEnabled(s, i, k) && Names(s) && Beats(s) && Targets(s)
    ensures Beats(KeeperApply(s, i, k))
  {
    forall o | o in KeeperApply(s, i, k).live
      ensures BeatOk(KeeperApply(s, i, k), o)
    {
      assert BeatOk(s, o);
      KeeperBeat(s, i, k, o);
    }
  }

  /** No list grows except the one a worker claims into. */
  lemma {:induction false} KeeperShrinks(s: State, i: Instance, k: KeeperStep, o: Instance)
    requires KeeperEnabled(s, i, k) && s.redis.Processing(o) == []
    ensures KeeperApply(s, i, k).redis.Processing(o) == []
  {
    RedisConservation.KeeperFlows(s, i, k);
  }

  /** What a keeper is about to do to others, after its own step. */
  lemma {:induction false} OwnTargets(s: State, i: Instance, k: KeeperStep)
    requires KeeperEnabled(s, i, k) && Registry(s) && !ScansLive(s, i, k)
    ensures
      var s' := KeeperApply(s, i, k);
      i in s'.live ==> TargetsOk(s', s'.live[i].keeper)
  {
    assert TargetsOk(s, s.live[i].keeper);
  }

  lemma {:induction false} KeeperTargets(s: State, i: Instance, k: KeeperStep)
    requires KeeperEnabled(s, i, k) && Registry(s) && !ScansLive(s, i, k)
    ensures Targets(KeeperApply(s, i, k))
  {
    var s' := KeeperApply(s, i, k);
    forall o | o in s'.live
      ensures TargetsOk(s', s'.live[o].keeper)
    {
      if o == i {
        OwnTargets(s, i, k);
      } else {
        var pc := s.live[o].keeper;
        assert TargetsOk(s, pc);
        if pc.Deregistering? && pc.stale != [] { KeeperShrinks(s, i, k, pc.stale[0]); }
      }
    }
  }

  lemma {:induction false} KeeperOwner(s: State, i: Instance, k: KeeperStep, o: Instance)
    requires KeeperEnabled(s, i, k) && Registry(s)
    ensures OwnerOk(KeeperApply(s, i, k), o)
  {
    assert OwnerOk(s, o);
    if s.redis.Processing(o) == [] {
      KeeperShrinks(s, i, k, o);
    } else {
      assert TargetsOk(s, s.live[i].keeper);
    }
  }

  lemma {:induction false} KeeperRegistry(s: State, i: Instance, k: KeeperStep)
    requires KeeperEnabled(s, i, k) && Registry(s) && !ScansLive(s, i, k)
    ensures Registry(KeeperApply(s, i, k))
  {
    KeeperNames(s, i, k);
    KeeperBeats(s, i, k);
    KeeperTargets(s, i, k);
    forall o
      ensures OwnerOk(KeeperApply(s, i, k), o)
    {
      KeeperOwner(s, i, k, o);
    }
  }

  // ---------------------------------------------------------------- the other steps

  /** A worker touches its own processing list only. */
  lemma {:induction false} WorkerLists(cfg: Config, s: State, i: Instance, w: nat, k: WorkerStep, o: Instance)
    requires WorkerEnabled(s, i, w, k) && o != i
    ensures WorkerApply(cfg, s, i, w, k).redis.Processing(o) == s.redis.Processing(o)
  {
    RedisConservation.WorkerFlows(cfg, s, i, w, k);
  }

  lemma {:induction false} WorkerRegistry(cfg: Config, s: State, i: Instance, w: nat, k: WorkerStep)
    requires WorkerEnabled(s, i, w, k) && Registry(s)
    ensures Registry(WorkerApply(cfg, s, i, w, k))
  {
    var s' := WorkerApply(cfg, s, i, w, k);
    forall o | o in s'.live
      ensures TargetsOk(s', s'.live[o].keeper)
    {
      var pc := s.live[o].keeper;
      assert TargetsOk(s, pc);
      if pc.Deregistering? && pc.stale != [] { WorkerLists(cfg, s, i, w, k, pc.stale[0]); }
    }
    forall o
      ensures OwnerOk(s', o)
    {
      assert OwnerOk(s, o);
      if o != i { WorkerLists(cfg, s, i, w, k, o); }
    }
  }

  lemma {:induction false} SameRegistry(s: State, s': State)
    requires Registry(s)
    requires s'.born == s.born && s'.live.Keys <= s.live.Keys && s'.beat == s.beat
    requires s'.legacyChecked == s.legacyChecked
    requires s'.redis.instances == s.redis.instances && s'.redis.processing == s.redis.processing
    requires forall o :: o in s'.live ==> s'.live[o].keeper == s.live[o].keeper
    ensures Registry(s')
  {
    forall o | o in s'.live
      ensures TargetsOk(s', s'.live[o].keeper)
    {
      assert TargetsOk(s, s.live[o].keeper);
    }
    forall o
      ensures OwnerOk(s', o)
    {
      assert OwnerOk(s, o);
    }
  }

  lemma {:induction false} BootRegistry(s: State, i: Instance, score: int, reply: Reply)
    requires Registry(s) && i !in s.born && i !in s.live && i != LEGACY
    ensures Registry(Booted(s, i, score, reply))
  {
    var s' := Booted(s, i, score, reply);
    forall o | o in s'.live
      ensures TargetsOk(s', s'.live[o].keeper)
    {
      if o != i { assert TargetsOk(s, s.live[o].keeper); }
    }
    forall o
      ensures OwnerOk(s', o)
    {
      assert OwnerOk(s, o);
    }
  }

  lemma {:induction false} MoverRegistry(s: State, i: Instance, k: MoverStep)
    requires Registry(s) && MoverEnabled(s, i, k)
    ensures Registry(MoverApply(s, i, k))
  {
    SameRegistry(s, MoverApply(s, i, k));
  }

  lemma {:induction false} EnqueueRegistry(s: State, j: Job, reply: Reply)
    requires Registry(s)
    ensures Registry(Enqueued(s, j, reply))
  {
    SameRegistry(s, Enqueued(s, j, reply));
  }

  lemma {:induction false} CrashRegistry(s: State, i: Instance)
    requires Registry(s)
    ensures Registry(Stop(s, i))
  {
    SameRegistry(s, Stop(s, i));
  }

  lemma {:induction false} TickRegistry(s: State, ms: nat)
    requires Registry(s)
    ensures Registry(s.(now := s.now + ms))
  {
    SameRegistry(s, s.(now := s.now + ms));
  }

  lemma {:induction false} StepRegistry(cfg: Config, s: State, e: Event)
    requires Registry(s) && !NamesLive(cfg, s, e)
    ensures Registry(Apply(cfg, s, e))
  {
    if Enabled(cfg, s, e) {
      match e
      case Keep(i, k) => KeeperRegistry(s, i, k);
      case Work(i, w, k) => WorkerRegistry(cfg, s, i, w, k);
      case Move(i, k) => MoverRegistry(s, i, k);
      case Boot(i, score, reply) => BootRegistry(s, i, score, reply);
      case Tick(ms) => TickRegistry(s, ms);
      case Enqueue(j, _, reply) => EnqueueRegistry(s, j, reply);
      case Crash(i) => CrashRegistry(s, i);
    }
  }

  lemma {:induction false} InitRegistry(legacy: seq<Payload>)
    ensures Registry(Init(legacy))
  {
    forall o
      ensures OwnerOk(Init(legacy), o)
    {
    }
  }

  lemma {:induction false} RunRegistry(cfg: Config, legacy: seq<Payload>, es: seq<Event>)
    requires SparingRun(cfg, legacy, es)
    ensures Registry(After(cfg, legacy, es))
  {
    if es == [] {
      InitRegistry(legacy);
    } else {
      var n := |es| - 1;
      RunRegistry(cfg, legacy, es[..n]);
      StepRegistry(cfg, After(cfg, legacy, es[..n]), es[n]);
    }
  }

  /** With its heartbeat within the window a registered live replica is not stale. */
  lemma {:induction false} TimelyScansSpare(cfg: Config, s: State, e: Event)
    requires Registry(s) && Timely(s)
    ensures !NamesLive(cfg, s, e)
  {
    forall d | d in s.live
      ensures BeatOk(s, d)
    {
    }
  }

  /** Timely heartbeats keep every scan off live replicas. */
  lemma {:induction false} TimelyRunSpares(cfg: Config, legacy: seq<Payload>, es: seq<Event>)
    requires TimelyRun(cfg, legacy, es)
    ensures SparingRun(cfg, legacy, es)
  {
    if es != [] {
      var n := |es| - 1;
      forall k | 0 <= k <= n
        ensures Timely(After(cfg, legacy, es[..n][..k]))
      {
        assert es[..n][..k] == es[..k];
      }
      TimelyRunSpares(cfg, legacy, es[..n]);
      RunRegistry(cfg, legacy, es[..n]);
      TimelyScansSpare(cfg, After(cfg, legacy, es[..n]), es[n]);
    }
  }

  // ---------------------------------------------------------------- results

  /** After any sparing run, every non-empty processing list is registered, hence reapable; the list an
      older release left behind is registered once some replica has finished its boot check. */
  lemma {:induction false} EveryClaimReapable(cfg: Config, legacy: seq<Payload>, es: seq<Event>, i: Instance)
    requires SparingRun(cfg, legacy, es)
    requires After(cfg, legacy, es).redis.Processing(i) != []
    requires i == LEGACY ==> After(cfg, legacy, es).legacyChecked
    ensures i in After(cfg, legacy, es).redis.instances
  {
    RunRegistry(cfg, legacy, es);
    assert OwnerOk(After(cfg, legacy, es), i);
  }

  /** Whose goroutine issues the command, if any replica's. */
  function Actor(e: Event): Option<Instance> {
    match e
    case Keep(i, _) => Some(i)
    case Work(i, _, _) => Some(i)
    case Move(i, _) => Some(i)
    case _ => None
  }

  lemma {:induction false} DrainTouchesTarget(s: State, i: Instance, k: KeeperStep, d: Instance)
    requires KeeperEnabled(s, i, k) && Registry(s) && d in s.live && d != i
    ensures KeeperApply(s, i, k).redis.Processing(d) == s.redis.Processing(d)
  {
    assert TargetsOk(s, s.live[i].keeper);
    RedisConservation.KeeperFlows(s, i, k);
  }

  lemma {:induction false} OthersLeaveList(cfg: Config, s: State, e: Event, d: Instance)
    requires Registry(s) && d in s.live && Actor(e) != Some(d)
    ensures Apply(cfg, s, e).redis.Processing(d) == s.redis.Processing(d)
  {
    if Enabled(cfg, s, e) {
      match e
      case Keep(i, step) => DrainTouchesTarget(s, i, step, d);
      case Work(i, w, step) => WorkerLists(cfg, s, i, w, step, d);
      case Move(_, _) =>
      case _ =>
    }
  }

  lemma {:induction false} RegisteredStays(cfg: Config, s: State, e: Event, d: Instance)
    requires Registry(s) && d in s.live && d in Apply(cfg, s, e).live
    ensures d in Apply(cfg, s, e).redis.instances
  {
    assert BeatOk(s, d);
    if Enabled(cfg, s, e) && e.Keep? {
      assert TargetsOk(s, s.live[e.i].keeper);
      KeeperBeat(s, e.i, e.keeper, d);
    }
  }

  /** After a sparing run no event of another replica changes a live replica's processing list, and no live
      replica is deregistered. */
  lemma {:induction false} LiveClaimsUntouched(cfg: Config, legacy: seq<Payload>, es: seq<Event>, e: Event, d: Instance)
    requires SparingRun(cfg, legacy, es) && d in After(cfg, legacy, es).live
    ensures
      var s := After(cfg, legacy, es);
      var s' := Apply(cfg, s, e);
      && (Actor(e) != Some(d) ==> s'.redis.Processing(d) == s.redis.Processing(d))
      && d in s.redis.instances
      && (d in s'.live ==> d in s'.redis.instances)
  {
    var s := After(cfg, legacy, es);
    RunRegistry(cfg, legacy, es);
    assert BeatOk(s, d);
    if d in Apply(cfg, s, e).live { RegisteredStays(cfg, s, e, d); }
    if Actor(e) != Some(d) { OthersLeaveList(cfg, s, e, d); }
  }

  // ---------------------------------------------------------------- the exact condition

  /** One keeper finishing the reap it has begun: no new scan, nobody else acts. */
  ghost predicate FinishesReap(i: Instance, es: seq<Event>) {
    forall k :: 0 <= k < |es| ==> es[k].Keep? && es[k].i == i && !es[k].keeper.Scan?
  }

  /** Some replica need only finish its reap, and d, still running, has lost its claims and its registration. */
  ghost predicate Doomed(cfg: Config, s: State, d: Instance) {
    exists i, es :: i != d && FinishesReap(i, es) && LostTo(cfg, s, i, es, d)
  }

  ghost predicate LostTo(cfg: Config, s: State, i: Instance, es: seq<Event>, d: Instance) {
    var t := RedisConservation.RunFrom(cfg, s, es);
    i in s.live && d in t.live && d !in t.redis.instances && t.redis.Processing(d) == []
  }

  lemma {:induction false} FinishingKeepsRegistry(cfg: Config, s: State, i: Instance, es: seq<Event>)
    requires Registry(s) && FinishesReap(i, es)
    ensures Registry(RedisConservation.RunFrom(cfg, s, es))
    decreases |es|
  {
    if es != [] {
      StepRegistry(cfg, s, es[0]);
      FinishingKeepsRegistry(cfg, Apply(cfg, s, es[0]), i, es[1..]);
    }
  }

  /** While the registry is in order nobody is doomed. */
  lemma {:induction false} RegistryDoomsNobody(cfg: Config, s: State, d: Instance)
    requires Registry(s)
    ensures !Doomed(cfg, s, d)
  {
    forall i, es | i != d && FinishesReap(i, es)
      ensures !LostTo(cfg, s, i, es, d)
    {
      var t := RedisConservation.RunFrom(cfg, s, es);
      FinishingKeepsRegistry(cfg, s, i, es);
      assert d in t.live ==> BeatOk(t, d);
    }
  }

  /** One step of a finishing reap in front of the rest. */
  lemma {:induction false} FinishStep(cfg: Config, s: State, i: Instance, k: KeeperStep, es: seq<Event>, d: Instance)
    requires !k.Scan? && i in s.live && FinishesReap(i, es) && LostTo(cfg, Apply(cfg, s, Keep(i, k)), i, es, d)
    ensures FinishesReap(i, [Keep(i, k)] + es) && LostTo(cfg, s, i, [Keep(i, k)] + es, d)
  {
    assert ([Keep(i, k)] + es)[1..] == es;
  }

  /** The keeper of i is about to drain d, and both run. */
  ghost predicate Hunts(s: State, i: Instance, d: Instance, stale: seq<Instance>) {
    i in s.live && d in s.live && i != d && s.live[i].keeper == Draining(stale)
  }

  lemma {:induction false} DeregisterLoses(cfg: Config, s: State, i: Instance, d: Instance) returns (es: seq<Event>)
    requires i in s.live && d in s.live && i != d && s.redis.Processing(d) == []
    requires s.live[i].keeper.Deregistering? && s.live[i].keeper.stale != [] && s.live[i].keeper.stale[0] == d
    ensures FinishesReap(i, es) && LostTo(cfg, s, i, es, d)
  {
    var s1 := Apply(cfg, s, Keep(i, Deregister(Done)));
    assert d in s1.live && d !in s1.redis.instances;
    assert LostTo(cfg, s1, i, [], d);
    es := [Keep(i, Deregister(Done))] + [];
    FinishStep(cfg, s, i, Deregister(Done), [], d);
  }

  lemma {:induction false} DrainLoses(cfg: Config, s: State, i: Instance, d: Instance, stale: seq<Instance>) returns (es: seq<Event>)
    requires Hunts(s, i, d, stale) && stale != [] && stale[0] == d
    ensures FinishesReap(i, es) && LostTo(cfg, s, i, es, d)
    decreases |s.redis.Processing(d)|
  {
    var s1 := Apply(cfg, s, Keep(i, DrainStale(Done)));
    var rest;
    if s.redis.Processing(d) == [] {
      rest := DeregisterLoses(cfg, s1, i, d);
    } else {
      RedisConservation.DrainFlows(s.redis, d);
      rest := DrainLoses(cfg, s1, i, d, stale);
    }
    es := [Keep(i, DrainStale(Done))] + rest;
    FinishStep(cfg, s, i, DrainStale(Done), rest, d);
  }

  /** Whatever stands before d on the list, the reaper can get to d. */
  lemma {:induction false} HuntedIsLost(cfg: Config, s: State, i: Instance, d: Instance, stale: seq<Instance>) returns (es: seq<Event>)
    requires Hunts(s, i, d, stale) && d in stale
    ensures FinishesReap(i, es) && LostTo(cfg, s, i, es, d)
    decreases |stale|
  {
    if stale[0] == d {
      es := DrainLoses(cfg, s, i, d, stale);
    } else {
      var s1 := Apply(cfg, s, Keep(i, DrainStale(Failed)));
      var rest := HuntedIsLost(cfg, s1, i, d, stale[1..]);
      es := [Keep(i, DrainStale(Failed))] + rest;
      FinishStep(cfg, s, i, DrainStale(Failed), rest, d);
    }
  }

  /** A scan that names a live replica dooms it. */
  lemma {:induction false} ScanDooms(cfg: Config, s: State, e: Event, d: Instance)
    requires e.Keep? && Enabled(cfg, s, e) && e.keeper.Scan? && d in e.keeper.page && d != e.i && d in s.live
    ensures Doomed(cfg, Apply(cfg, s, e), d) && d in Apply(cfg, s, e).live
  {
    var s1 := Apply(cfg, s, e);
    var es := HuntedIsLost(cfg, s1, e.i, d, Others(e.keeper.page, e.i));
  }

  ghost predicate NobodyDoomed(cfg: Config, s: State) {
    forall d :: d in s.live ==> !Doomed(cfg, s, d)
  }

  /** At no point of the run has a live replica been doomed. */
  ghost predicate HarmlessRun(cfg: Config, legacy: seq<Payload>, es: seq<Event>) {
    NobodyDoomed(cfg, After(cfg, legacy, es)) && (es == [] || HarmlessRun(cfg, legacy, es[..|es| - 1]))
  }

  /**
   * The condition is exact. A run never comes to a point where some replica, merely by finishing its reap, takes a
   * running replica's claims and registration, if and only if none of its scans named a live replica.
   */
  lemma {:induction false} HarmlessIffSparing(cfg: Config, legacy: seq<Payload>, es: seq<Event>)
    ensures HarmlessRun(cfg, legacy, es) <==> SparingRun(cfg, legacy, es)
  {
    var s := After(cfg, legacy, es);
    if es != [] { HarmlessIffSparing(cfg, legacy, es[..|es| - 1]); }
    if SparingRun(cfg, legacy, es) {
      RunRegistry(cfg, legacy, es);
      forall d | d in s.live
        ensures !Doomed(cfg, s, d)
      {
        RegistryDoomsNobody(cfg, s, d);
      }
    } else if NamesLive(cfg, After(cfg, legacy, es[..|es| - 1]), es[|es| - 1]) {
      var before, e := After(cfg, legacy, es[..|es| - 1]), es[|es| - 1];
      var d :| d in e.keeper.page && d != e.i && d in before.live;
      ScanDooms(cfg, before, e, d);
    }
  }
}
