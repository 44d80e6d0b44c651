/**
 The Redis-backed driver as a transition system.

 Every event below is one Redis command (or one purely local decision) of one goroutine of one
 replica, so a run is an arbitrary interleaving. A `Crash` may come between any two commands.
 Commands can also fail, or take effect while the reply is lost.
 */
module RedisProtocol {
  import opened QueueTypes

  type Instance = string

  /** Pseudo-instance that owns the processing key of an older release. */
  const LEGACY: Instance := "legacy"

  /** instanceReclaimAfter, in milliseconds. */
  const RECLAIM_AFTER: nat := 60_000

  /** Count of one ZRANGEBYSCORE page. */
  const SCAN_PAGE: nat := 100

  /** Durations are in milliseconds; retryBackoff is the delay for each completed attempt. */
  datatype Config = Config(maxRetries: nat, deadLetterMax: nat, retryBackoff: nat)

  /** What the caller of a Redis command observes. */
  datatype Reply = Done | LostReply | Failed
  {
    predicate Applied() { !Failed? }
  }

  // ---------------------------------------------------------------- shared Redis keys

  datatype Redis = Redis(
    pending: seq<Payload>,                    // index 0 is the LEFT end
    processing: map<Instance, seq<Payload>>,  // a missing key is an empty list
    retry: map<Payload, int>,                 // sorted set: member -> ready-at
    dead: seq<DeadEntry>,
    instances: map<Instance, int>)            // sorted set: replica -> last heartbeat
  {
    function Processing(i: Instance): seq<Payload> {
      if i in processing then processing[i] else []
    }

    /** Some list, pending or processing, holds p. */
    ghost predicate Listed(p: Payload) {
      p in pending || exists i :: i in processing && p in processing[i]
    }

    function PushLeft(p: Payload): Redis {
      this.(pending := [p] + pending)
    }

    /** LMOVE pending processing:i RIGHT LEFT */
    function Claim(i: Instance): Redis
      requires pending != []
    {
      var n := |pending| - 1;
      this.(pending := pending[..n], processing := processing[i := [pending[n]] + Processing(i)])
    }

    /** LMOVE processing:d pending RIGHT RIGHT */
    function DrainOne(d: Instance): Redis
      requires Processing(d) != []
    {
      var l := Processing(d);
      var n := |l| - 1;
      this.(pending := pending + [l[n]], processing := processing[d := l[..n]])
    }

    /** LREM processing:i 1 p */
    function Remove(i: Instance, p: Payload): Redis {
      this.(processing := processing[i := RemoveFirst(Processing(i), p)])
    }
  }

  function RemoveFirst(l: seq<Payload>, p: Payload): seq<Payload> {
    if l == [] then []
    else if l[0] == p then l[1..]
    else [l[0]] + RemoveFirst(l[1..], p)
  }

  // ---------------------------------------------------------------- goroutine-local state

  /** Why a worker is about to remove its claim. */
  datatype Why = Finished | Buried | Rescheduled

  datatype WorkerPc =
    | Idle
    | Handling(p: Payload)
    | WritingDead(p: Payload)
    | AddingRetry(p: Payload, readyAt: int)
    | Removing(p: Payload, why: Why)

  /** The retry mover walks one page of due members; `Pushed` sits between LPUSH and ZREM of due[0]. */
  datatype MoverPc = Waiting | Moving(due: seq<Payload>) | Pushed(due: seq<Payload>)

  /** Boot, heartbeat and reaping run on one goroutine; draining works on stale[0]. */
  datatype KeeperPc =
    | Registered
    | LegacySeen
    | Recovering
    | Scanning
    | Beating
    | Draining(stale: seq<Instance>)
    | Deregistering(stale: seq<Instance>)

  datatype Replica = Replica(booted: bool, keeper: KeeperPc, mover: MoverPc, workers: map<nat, WorkerPc>)
  {
    function Worker(w: nat): WorkerPc {
      if w in workers then workers[w] else Idle
    }
  }

  datatype State = State(
    redis: Redis,
    live: map<Instance, Replica>,  // replicas whose process is running
    born: set<Instance>,           // instance ids ever drawn; they are random and never reused
    now: int,
    beat: map<Instance, int>,      // last heartbeat each replica itself wrote
    enqueued: set<Job>,            // jobs whose Enqueue returned success
    acked: set<Job>,               // jobs whose Ack reached the LREM
    acks: set<Payload>,            // the copies they were acked on
    pushes: seq<Payload>,          // payloads LPUSHed by Enqueue, oldest first
    claims: seq<Payload>,          // payloads moved to a processing list by workers, oldest first
    legacyChecked: bool)           // some replica finished registerLegacyIfPresent

  /** Steps of the goroutine that boots the replica, then beats and reaps. */
  datatype KeeperStep =
    | CheckLegacy
    | RegisterLegacy(score: int, reply: Reply)
    | DrainOwn(reply: Reply)
    | Scan(cutoff: int, page: seq<Instance>)
    | ScanFailed
    | DrainStale(reply: Reply)
    | Deregister(reply: Reply)
    | ReapDone
    | Heartbeat(score: int, reply: Reply)

  datatype WorkerStep =
    | Claim(reply: Reply)
    | Handle(disp: Disposition)
    | WriteDead(reply: Reply)
    | AddRetry(reply: Reply)
    | Remove(reply: Reply)

  datatype MoverStep =
    | ScanDue(cutoff: int, due: seq<Payload>)
    | Push(reply: Reply)
    | Unretry(reply: Reply)
    | MoverDone

  datatype Event =
    | Tick(ms: nat)
    | Enqueue(job: Job, depth: nat, reply: Reply)
    | Boot(i: Instance, score: int, reply: Reply)
    | Crash(i: Instance)
    | Keep(i: Instance, keeper: KeeperStep)
    | Work(i: Instance, w: nat, worker: WorkerStep)
    | Move(i: Instance, mover: MoverStep)

  // ---------------------------------------------------------------- what a goroutine leaves alone

  /** What no keeper step changes. */
  ghost function UntouchedByKeeper(s: State)
    : (set<Job>, set<Job>, set<Payload>, seq<Payload>, seq<Payload>, int, set<Instance>, seq<DeadEntry>, map<Payload, int>)
  {
    (s.enqueued, s.acked, s.acks, s.pushes, s.claims, s.now, s.born, s.redis.dead, s.redis.retry)
  }

  /** What no worker step changes. */
  ghost function UntouchedByWorker(s: State)
    : (set<Job>, seq<Payload>, int, set<Instance>, map<Instance, int>, map<Instance, int>, bool)
  {
    (s.enqueued, s.pushes, s.now, s.born, s.beat, s.redis.instances, s.legacyChecked)
  }

  /** What no mover step changes. */
  ghost function UntouchedByMover(s: State)
    : (set<Job>, set<Job>, set<Payload>, seq<Payload>, map<Instance, seq<Payload>>, seq<DeadEntry>)
  {
    (s.acked, s.enqueued, s.acks, s.claims, s.redis.processing, s.redis.dead)
  }

  /** The keeper of i moves list entries and registrations; it settles nothing and starts nobody. */
  ghost predicate KeeperLeaves(s: State, s': State, i: Instance) {
    && UntouchedByKeeper(s') == UntouchedByKeeper(s)
    && s'.live.Keys <= s.live.Keys
    && (forall o :: o in s'.live ==>
          && s'.live[o].workers == s.live[o].workers && s'.live[o].mover == s.live[o].mover
          && (o != i ==> s'.live[o].keeper == s.live[o].keeper))
  }

  ghost predicate SameRegistrations(s: State, s': State) {
    (s'.redis.instances, s'.beat) == (s.redis.instances, s.beat)
  }

  ghost predicate SameLists(s: State, s': State) {
    (s'.redis.pending, s'.redis.processing) == (s.redis.pending, s.redis.processing)
  }

  /** Worker w of i moves copies; it registers nobody. */
  ghost predicate WorkerLeaves(s: State, s': State, i: Instance, w: nat) {
    && UntouchedByWorker(s') == UntouchedByWorker(s) && s'.live.Keys == s.live.Keys
    && (forall o :: o in s.live ==>
          && s'.live[o].keeper == s.live[o].keeper && s'.live[o].mover == s.live[o].mover
          && (o != i ==> s'.live[o].workers == s.live[o].workers))
    && (i in s.live ==> forall v: nat :: v != w ==> s'.live[i].Worker(v) == s.live[i].Worker(v))
  }

  /** The mover of i promotes retries; it claims and settles nothing. */
  ghost predicate MoverLeaves(s: State, s': State, i: Instance) {
    && UntouchedByWorker(s') == UntouchedByWorker(s) && UntouchedByMover(s') == UntouchedByMover(s)
    && s'.live.Keys == s.live.Keys
    && (forall o :: o in s.live ==>
          && s'.live[o].keeper == s.live[o].keeper && s'.live[o].workers == s.live[o].workers
          && (o != i ==> s'.live[o].mover == s.live[o].mover))
  }

  function SetReplica(s: State, i: Instance, r: Replica): State {
    s.(live := s.live[i := r])
  }

  function SetWorker(s: State, i: Instance, w: nat, pc: WorkerPc): (s': State)
    requires i in s.live
    ensures WorkerLeaves(s, s', i, w) && s'.live[i].Worker(w) == pc
  {
    SetReplica(s, i, s.live[i].(workers := s.live[i].workers[w := pc]))
  }

  function SetKeeper(s: State, i: Instance, pc: KeeperPc): (s': State)
    requires i in s.live
    ensures KeeperLeaves(s, s', i) && i in s'.live && s'.live[i].keeper == pc
  {
    SetReplica(s, i, s.live[i].(keeper := pc))
  }

  function SetMover(s: State, i: Instance, pc: MoverPc): (s': State)
    requires i in s.live
    ensures MoverLeaves(s, s', i) && s'.live[i].mover == pc
  {
    SetReplica(s, i, s.live[i].(mover := pc))
  }

  /** The process of i is gone; Redis is untouched. */
  function Stop(s: State, i: Instance): State {
    s.(live := s.live - {i})
  }

  /** A reaper skips itself. */
  function Others(page: seq<Instance>, i: Instance): (stale: seq<Instance>)
    ensures forall d :: d in stale <==> d in page && d != i
  {
    if page == [] then []
    else (if page[0] == i then [] else [page[0]]) + Others(page[1..], i)
  }

  function Retried(p: Payload): Payload {
    Payload(p.job, p.attempts + 1)
  }

  /** process: where a worker goes once the handler has returned; a retry reads the clock for its ready time. */
  function Decide(cfg: Config, p: Payload, disp: Disposition, now: int): WorkerPc {
    match disp
    case Ack => Removing(p, Finished)
    case Retry =>
      if p.attempts + 1 > cfg.maxRetries then WritingDead(p)
      else AddingRetry(p, now + cfg.retryBackoff * (p.attempts + 1))
    case _ => WritingDead(p)
  }

  // ---------------------------------------------------------------- one step per event

  /** ZRANGEBYSCORE -inf cutoff LIMIT 0 100: members by score, lowest first. */
  predicate IsPage<K>(z: map<K, int>, cutoff: int, page: seq<K>) {
    && |page| <= SCAN_PAGE
    && (forall a, b :: 0 <= a < b < |page| ==> page[a] != page[b])
    && (forall p <- page :: p in z && z[p] <= cutoff)
    && (forall a, b :: 0 <= a < b < |page| ==> z[page[a]] <= z[page[b]])
    && (forall p :: p in z && z[p] <= cutoff && p !in page ==>
          |page| == SCAN_PAGE && forall q <- page :: z[q] <= z[p])
  }

  predicate KeeperEnabled(s: State, i: Instance, k: KeeperStep) {
    i in s.live &&
    var pc := s.live[i].keeper;
    match k
    case CheckLegacy => pc.Registered?
    case RegisterLegacy(score, _) => pc.LegacySeen? && score <= s.now
    case DrainOwn(_) => pc.Recovering?
    case Scan(cutoff, page) =>
      && (pc.Scanning? || pc.Beating?)
      && cutoff <= s.now - RECLAIM_AFTER
      && IsPage(s.redis.instances, cutoff, page)
    case ScanFailed => pc.Scanning? || pc.Beating?
    case DrainStale(_) => pc.Draining? && pc.stale != []
    case Deregister(_) => pc.Deregistering? && pc.stale != []
    case ReapDone => pc == Draining([])
    case Heartbeat(score, _) => pc.Beating? && score <= s.now
  }

  predicate WorkerEnabled(s: State, i: Instance, w: nat, k: WorkerStep) {
    i in s.live && s.live[i].booted &&
    var pc := s.live[i].Worker(w);
    match k
    case Claim(_) => pc.Idle? && s.redis.pending != []
    case Handle(_) => pc.Handling?
    case WriteDead(_) => pc.WritingDead?
    case AddRetry(_) => pc.AddingRetry?
    case Remove(_) => pc.Removing?
  }

  predicate MoverEnabled(s: State, i: Instance, k: MoverStep) {
    i in s.live && s.live[i].booted &&
    var pc := s.live[i].mover;
    match k
    case ScanDue(cutoff, due) => pc.Waiting? && cutoff <= s.now && IsPage(s.redis.retry, cutoff, due)
    case Push(_) => pc.Moving? && pc.due != []
    case Unretry(_) => pc.Pushed? && pc.due != []
    case MoverDone => pc == Moving([])
  }

  predicate Enabled(cfg: Config, s: State, e: Event) {
    match e
    case Tick(_) => true
    case Enqueue(_, depth, _) => depth < cfg.deadLetterMax
    case Boot(i, score, _) => i !in s.born && i !in s.live && i != LEGACY && score <= s.now
    case Crash(i) => i in s.live
    case Keep(i, k) => KeeperEnabled(s, i, k)
    case Work(i, w, k) => WorkerEnabled(s, i, w, k)
    case Move(i, k) => MoverEnabled(s, i, k)
  }

  function Enqueued(s: State, j: Job, reply: Reply): State {
    var p := Payload(j, 0);
    var s1 := if reply.Applied() then s.(redis := s.redis.PushLeft(p), pushes := s.pushes + [p]) else s;
    if reply.Done? then s1.(enqueued := s1.enqueued + {j}) else s1
  }

  function Booted(s: State, i: Instance, score: int, reply: Reply): State {
    var s1 := s.(born := s.born + {i});
    var s2 := if reply.Applied()
              then s1.(redis := s1.redis.(instances := s1.redis.instances[i := score]), beat := s1.beat[i := score])
              else s1;
    if reply.Done? then SetReplica(s2, i, Replica(false, Registered, Waiting, map[])) else s2
  }

  function CheckedLegacy(s: State, i: Instance): (s': State)
    requires i in s.live
    ensures KeeperLeaves(s, s', i)
    ensures SameLists(s, s')
    ensures SameRegistrations(s, s')
  {
    if s.redis.Processing(LEGACY) == []
    then SetKeeper(s, i, Recovering).(legacyChecked := true)
    else SetKeeper(s, i, LegacySeen)
  }

  /** ZADD NX: an existing entry keeps its score. */
  function RegisteredLegacy(s: State, i: Instance, score: int, reply: Reply): (s': State)
    requires i in s.live
    ensures KeeperLeaves(s, s', i)
    ensures SameLists(s, s')
  {
    var s1 := if reply.Applied() && LEGACY !in s.redis.instances
              then s.(redis := s.redis.(instances := s.redis.instances[LEGACY := score]))
              else s;
    if reply.Done? then SetKeeper(s1, i, Recovering).(legacyChecked := true) else Stop(s1, i)
  }

  function DrainedOwn(s: State, i: Instance, reply: Reply): (s': State)
    requires i in s.live
    ensures KeeperLeaves(s, s', i)
    ensures SameRegistrations(s, s')
  {
    var s1 := if reply.Applied() && s.redis.Processing(i) != [] then s.(redis := s.redis.DrainOne(i)) else s;
    if !reply.Done? then Stop(s1, i)
    else if s.redis.Processing(i) == [] then SetKeeper(s1, i, Scanning)
    else s1
  }

  function DrainedStale(s: State, i: Instance, reply: Reply): (s': State)
    requires i in s.live && s.live[i].keeper.Draining? && s.live[i].keeper.stale != []
    ensures KeeperLeaves(s, s', i)
    ensures SameRegistrations(s, s')
  {
    var stale := s.live[i].keeper.stale;
    var d := stale[0];
    var s1 := if reply.Applied() && s.redis.Processing(d) != [] then s.(redis := s.redis.DrainOne(d)) else s;
    if !reply.Done? then SetKeeper(s1, i, Draining(stale[1..]))
    else if s.redis.Processing(d) == [] then SetKeeper(s1, i, Deregistering(stale))
    else s1
  }

  function Deregistered(s: State, i: Instance, reply: Reply): (s': State)
    requires i in s.live && s.live[i].keeper.Deregistering? && s.live[i].keeper.stale != []
    ensures KeeperLeaves(s, s', i)
    ensures SameLists(s, s')
  {
    var stale := s.live[i].keeper.stale;
    var s1 := if reply.Applied()
              then s.(redis := s.redis.(instances := s.redis.instances - {stale[0]}))
              else s;
    SetKeeper(s1, i, Draining(stale[1..]))
  }

  function FinishReap(s: State, i: Instance): (s': State)
    requires i in s.live
    ensures KeeperLeaves(s, s', i)
    ensures SameLists(s, s')
    ensures SameRegistrations(s, s')
  {
    SetReplica(s, i, s.live[i].(booted := true, keeper := Beating))
  }

  function Beat(s: State, i: Instance, score: int, reply: Reply): (s': State)
    ensures KeeperLeaves(s, s', i)
    ensures SameLists(s, s')
  {
    if reply.Applied()
    then s.(redis := s.redis.(instances := s.redis.instances[i := score]), beat := s.beat[i := score])
    else s
  }

  function Claimed(s: State, i: Instance, w: nat, reply: Reply): (s': State)
    requires i in s.live && s.redis.pending != []
    ensures WorkerLeaves(s, s', i, w)
  {
    var p := s.redis.pending[|s.redis.pending| - 1];
    var s1 := if reply.Applied() then s.(redis := s.redis.Claim(i), claims := s.claims + [p]) else s;
    if reply.Done? then SetWorker(s1, i, w, Handling(p)) else s1
  }

  function WroteDead(s: State, i: Instance, w: nat, reply: Reply): (s': State)
    requires i in s.live && s.live[i].Worker(w).WritingDead?
    ensures WorkerLeaves(s, s', i, w)
    ensures s'.claims == s.claims && s'.redis.pending == s.redis.pending
  {
    var p := s.live[i].Worker(w).p;
    var entry := DeadEntry(p.job, p.attempts + 1);
    var s1 := if reply.Applied() then s.(redis := s.redis.(dead := [entry] + s.redis.dead)) else s;
    SetWorker(s1, i, w, if reply.Done? then Removing(p, Buried) else Idle)
  }

  function AddedRetry(s: State, i: Instance, w: nat, reply: Reply): (s': State)
    requires i in s.live && s.live[i].Worker(w).AddingRetry?
    ensures WorkerLeaves(s, s', i, w)
    ensures s'.claims == s.claims && s'.redis.pending == s.redis.pending
  {
    var pc := s.live[i].Worker(w);
    var s1 := if reply.Applied()
              then s.(redis := s.redis.(retry := s.redis.retry[Retried(pc.p) := pc.readyAt]))
              else s;
    SetWorker(s1, i, w, if reply.Done? then Removing(pc.p, Rescheduled) else Idle)
  }

  function Removed(s: State, i: Instance, w: nat, reply: Reply): (s': State)
    requires i in s.live && s.live[i].Worker(w).Removing?
    ensures WorkerLeaves(s, s', i, w)
    ensures s'.claims == s.claims && s'.redis.pending == s.redis.pending
  {
    var pc := s.live[i].Worker(w);
    var s1 := if reply.Applied() then s.(redis := s.redis.Remove(i, pc.p)) else s;
    var s2 := if reply.Applied() && pc.why.Finished? then s1.(acked := s1.acked + {pc.p.job}, acks := s1.acks + {pc.p}) else s1;
    SetWorker(s2, i, w, Idle)
  }

  function PushedDue(s: State, i: Instance, reply: Reply): (s': State)
    requires i in s.live && s.live[i].mover.Moving? && s.live[i].mover.due != []
    ensures MoverLeaves(s, s', i)
  {
    var due := s.live[i].mover.due;
    var s1 := if reply.Applied() then s.(redis := s.redis.PushLeft(due[0])) else s;
    SetMover(s1, i, if reply.Done? then Pushed(due) else Moving(due[1..]))
  }

  function Unretried(s: State, i: Instance, reply: Reply): (s': State)
    requires i in s.live && s.live[i].mover.Pushed? && s.live[i].mover.due != []
    ensures MoverLeaves(s, s', i)
  {
    var due := s.live[i].mover.due;
    var s1 := if reply.Applied() then s.(redis := s.redis.(retry := s.redis.retry - {due[0]})) else s;
    SetMover(s1, i, Moving(due[1..]))
  }

  function KeeperApply(s: State, i: Instance, k: KeeperStep): (s': State)
    requires KeeperEnabled(s, i, k)
    ensures KeeperLeaves(s, s', i)
    ensures !k.DrainOwn? && !k.DrainStale? ==> SameLists(s, s')
    ensures !k.RegisterLegacy? && !k.Deregister? && !k.Heartbeat? ==> SameRegistrations(s, s')
  {
    match k
    case CheckLegacy => CheckedLegacy(s, i)
    case RegisterLegacy(score, reply) => RegisteredLegacy(s, i, score, reply)
    case DrainOwn(reply) => DrainedOwn(s, i, reply)
    case Scan(_, page) => SetKeeper(s, i, Draining(Others(page, i)))
    case ScanFailed => FinishReap(s, i)
    case DrainStale(reply) => DrainedStale(s, i, reply)
    case Deregister(reply) => Deregistered(s, i, reply)
    case ReapDone => FinishReap(s, i)
    case Heartbeat(score, reply) => Beat(s, i, score, reply)
  }

  function WorkerApply(cfg: Config, s: State, i: Instance, w: nat, k: WorkerStep): (s': State)
    requires WorkerEnabled(s, i, w, k)
    ensures WorkerLeaves(s, s', i, w)
    ensures !k.Claim? ==> s'.claims == s.claims && s'.redis.pending == s.redis.pending
  {
    match k
    case Claim(reply) => Claimed(s, i, w, reply)
    case Handle(disp) => SetWorker(s, i, w, Decide(cfg, s.live[i].Worker(w).p, disp, s.now))
    case WriteDead(reply) => WroteDead(s, i, w, reply)
    case AddRetry(reply) => AddedRetry(s, i, w, reply)
    case Remove(reply) => Removed(s, i, w, reply)
  }

  function MoverApply(s: State, i: Instance, k: MoverStep): (s': State)
    requires MoverEnabled(s, i, k)
    ensures MoverLeaves(s, s', i)
  {
    match k
    case ScanDue(_, due) => SetMover(s, i, Moving(due))
    case Push(reply) => PushedDue(s, i, reply)
    case Unretry(reply) => Unretried(s, i, reply)
    case MoverDone => SetMover(s, i, Waiting)
  }

  /** The effect of an event; one that is not enabled changes nothing. */
  function Apply(cfg: Config, s: State, e: Event): State {
    if !Enabled(cfg, s, e) then s else
    match e
    case Tick(ms) => s.(now := s.now + ms)
    case Enqueue(j, _, reply) => Enqueued(s, j, reply)
    case Boot(i, score, reply) => Booted(s, i, score, reply)
    case Crash(i) => Stop(s, i)
    case Keep(i, k) => KeeperApply(s, i, k)
    case Work(i, w, k) => WorkerApply(cfg, s, i, w, k)
    case Move(i, k) => MoverApply(s, i, k)
  }

  /** An empty Redis, except for what an older release may have left in its shared processing key. */
  function Init(legacy: seq<Payload>): State {
    State(Redis([], map[LEGACY := legacy], map[], [], map[]), map[], {}, 0, map[],
          set p | p in legacy :: p.job, {}, {}, [], [], false)
  }

  function After(cfg: Config, legacy: seq<Payload>, es: seq<Event>): State {
    if es == [] then Init(legacy)
    else Apply(cfg, After(cfg, legacy, es[..|es| - 1]), es[|es| - 1])
  }
}
