/** What one pass of a worker, a retry mover or a reaper achieves when nothing fails and nobody else acts. */
module RedisPasses {
  import opened QueueTypes
  import opened RedisProtocol
  import opened RedisConservation
  import RedisOrder

  lemma {:induction false} RunsOn(cfg: Config, s: State, a: seq<Event>, b: seq<Event>)
    ensures RunFrom(cfg, s, a + b) == RunFrom(cfg, RunFrom(cfg, s, a), b)
    decreases |a|
  {
    if a == [] {
      assert a + b == b;
    } else {
      assert (a + b)[1..] == a[1..] + b;
      RunsOn(cfg, Apply(cfg, s, a[0]), a[1..], b);
    }
  }

  lemma {:induction false} RunsOne(cfg: Config, s: State, e: Event)
    ensures RunFrom(cfg, s, [e]) == Apply(cfg, s, e)
  {
    assert RunFrom(cfg, Apply(cfg, s, e), []) == Apply(cfg, s, e);
  }

  // ---------------------------------------------------------------- a worker

  ghost predicate WorkerAt(s: State, i: Instance, w: nat, pc: WorkerPc) {
    i in s.live && s.live[i].booted && s.live[i].Worker(w) == pc
  }

  /** The job a worker claims next is the last of pending. */
  function NextJob(s: State): Payload
    requires s.redis.pending != []
  {
    s.redis.pending[|s.redis.pending| - 1]
  }

  lemma {:induction false} ClaimOne(cfg: Config, s: State, i: Instance, w: nat) returns (t: State)
    requires WorkerAt(s, i, w, Idle) && s.redis.pending != []
    ensures t == Apply(cfg, s, Work(i, w, Claim(Done))) && WorkerAt(t, i, w, Handling(NextJob(s)))
    ensures s.redis.pending == t.redis.pending + [NextJob(s)] && t.claims == s.claims + [NextJob(s)]
    ensures t.redis.Processing(i) == [NextJob(s)] + s.redis.Processing(i)
    ensures forall o :: o != i ==> t.redis.Processing(o) == s.redis.Processing(o)
    ensures t.redis.retry == s.redis.retry && t.redis.dead == s.redis.dead && t.acked == s.acked && t.now == s.now
    ensures t.redis.instances == s.redis.instances
  {
    t := Apply(cfg, s, Work(i, w, Claim(Done)));
  }

  lemma {:induction false} HandleOne(cfg: Config, s: State, i: Instance, w: nat, p: Payload, d: Disposition) returns (t: State)
    requires WorkerAt(s, i, w, Handling(p))
    ensures t == Apply(cfg, s, Work(i, w, Handle(d))) && WorkerAt(t, i, w, Decide(cfg, p, d, s.now))
    ensures t.redis == s.redis && t.acked == s.acked && t.claims == s.claims
  {
    t := Apply(cfg, s, Work(i, w, Handle(d)));
  }

  lemma {:induction false} RetryOne(cfg: Config, s: State, i: Instance, w: nat, p: Payload, at: int) returns (t: State)
    requires WorkerAt(s, i, w, AddingRetry(p, at))
    ensures t == Apply(cfg, s, Work(i, w, AddRetry(Done))) && WorkerAt(t, i, w, Removing(p, Rescheduled))
    ensures t.redis == s.redis.(retry := s.redis.retry[Payload(p.job, p.attempts + 1) := at])
    ensures t.acked == s.acked && t.claims == s.claims
  {
    t := Apply(cfg, s, Work(i, w, AddRetry(Done)));
  }

  lemma {:induction false} BuryOne(cfg: Config, s: State, i: Instance, w: nat, p: Payload) returns (t: State)
    requires WorkerAt(s, i, w, WritingDead(p))
    ensures t == Apply(cfg, s, Work(i, w, WriteDead(Done))) && WorkerAt(t, i, w, Removing(p, Buried))
    ensures t.redis == s.redis.(dead := [DeadEntry(p.job, p.attempts + 1)] + s.redis.dead)
    ensures t.acked == s.acked && t.claims == s.claims
  {
    t := Apply(cfg, s, Work(i, w, WriteDead(Done)));
  }

  lemma {:induction false} RemoveOne(cfg: Config, s: State, i: Instance, w: nat, why: Why, p: Payload, l: seq<Payload>)
    returns (t: State)
    requires WorkerAt(s, i, w, Removing(p, why)) && s.redis.Processing(i) == [p] + l
    ensures t == Apply(cfg, s, Work(i, w, Remove(Done))) && WorkerAt(t, i, w, Idle) && t.redis.Processing(i) == l
    ensures forall o :: o != i ==> t.redis.Processing(o) == s.redis.Processing(o)
    ensures t.redis.(processing := s.redis.processing) == s.redis
    ensures t.acked == s.acked + (if why.Finished? then {p.job} else {}) && t.claims == s.claims
  {
    t := Apply(cfg, s, Work(i, w, Remove(Done)));
  }

  /** The worker is idle again, the claim is off its list, and nothing but the retry set and the dead letters can
      have changed otherwise. */
  ghost predicate Served(s: State, t: State, i: Instance, w: nat)
    requires s.redis.pending != []
  {
    && WorkerAt(t, i, w, Idle)
    && s.redis.pending == t.redis.pending + [NextJob(s)] && t.claims == s.claims + [NextJob(s)]
    && (forall o :: t.redis.Processing(o) == s.redis.Processing(o))
    && t.redis.instances == s.redis.instances
  }

  /** Commands of worker w of i whose handler answers d. */
  predicate ByWorker(es: seq<Event>, i: Instance, w: nat, d: Disposition) {
    forall e <- es :: e.Work? && e.i == i && e.w == w && (e.worker.Handle? ==> e.worker.disp == d)
  }

  /** The worker's own commands lead from s to t when its handler answers d. */
  ghost predicate Leads(cfg: Config, s: State, i: Instance, w: nat, d: Disposition, t: State) {
    exists es :: ByWorker(es, i, w, d) && RunFrom(cfg, s, es) == t
  }

  lemma {:induction false} LeadsOn(cfg: Config, s: State, i: Instance, w: nat, d: Disposition, s1: State, t: State)
    requires Leads(cfg, s, i, w, d, s1) && Leads(cfg, s1, i, w, d, t)
    ensures Leads(cfg, s, i, w, d, t)
  {
    var a :| ByWorker(a, i, w, d) && RunFrom(cfg, s, a) == s1;
    var b :| ByWorker(b, i, w, d) && RunFrom(cfg, s1, b) == t;
    RunsOn(cfg, s, a, b);
    assert ByWorker(a + b, i, w, d);
  }

  lemma {:induction false} LeadsOne(cfg: Config, s: State, i: Instance, w: nat, d: Disposition, k: WorkerStep)
    requires k.Handle? ==> k.disp == d
    ensures Leads(cfg, s, i, w, d, Apply(cfg, s, Work(i, w, k)))
  {
    RunsOne(cfg, s, Work(i, w, k));
    assert ByWorker([Work(i, w, k)], i, w, d);
  }

  /** Between s and t worker w of i has claimed its next job and settles it. */
  ghost predicate Holds(s: State, t: State, i: Instance)
    requires s.redis.pending != []
  {
    && s.redis.pending == t.redis.pending + [NextJob(s)] && t.claims == s.claims + [NextJob(s)]
    && t.redis.Processing(i) == [NextJob(s)] + s.redis.Processing(i)
    && (forall o :: o != i ==> t.redis.Processing(o) == s.redis.Processing(o))
    && t.redis.instances == s.redis.instances
  }

  lemma {:induction false} AskOne(cfg: Config, s: State, i: Instance, w: nat, d: Disposition) returns (t: State)
    requires WorkerAt(s, i, w, Idle) && s.redis.pending != []
    ensures Leads(cfg, s, i, w, d, t)
    ensures WorkerAt(t, i, w, Decide(cfg, NextJob(s), d, s.now)) && Holds(s, t, i)
    ensures t.redis.retry == s.redis.retry && t.redis.dead == s.redis.dead && t.acked == s.acked
  {
    var s1 := ClaimOne(cfg, s, i, w);
    t := HandleOne(cfg, s1, i, w, NextJob(s), d);
    LeadsOne(cfg, s, i, w, d, Claim(Done));
    LeadsOne(cfg, s1, i, w, d, Handle(d));
    LeadsOn(cfg, s, i, w, d, s1, t);
  }

  lemma {:induction false} RetryThenRemove(
      cfg: Config, s: State, i: Instance, w: nat, d: Disposition, p: Payload, at: int, l: seq<Payload>)
    returns (t: State)
    requires WorkerAt(s, i, w, AddingRetry(p, at)) && s.redis.Processing(i) == [p] + l
    ensures Leads(cfg, s, i, w, d, t) && WorkerAt(t, i, w, Idle) && t.redis.Processing(i) == l
    ensures forall o :: o != i ==> t.redis.Processing(o) == s.redis.Processing(o)
    ensures t.redis.(processing := s.redis.processing) ==
            s.redis.(retry := s.redis.retry[Payload(p.job, p.attempts + 1) := at])
    ensures t.acked == s.acked && t.claims == s.claims
  {
    var s1 := RetryOne(cfg, s, i, w, p, at);
    t := RemoveOne(cfg, s1, i, w, Rescheduled, p, l);
    LeadsOne(cfg, s, i, w, d, AddRetry(Done));
    LeadsOne(cfg, s1, i, w, d, Remove(Done));
    LeadsOn(cfg, s, i, w, d, s1, t);
  }

  lemma {:induction false} BuryThenRemove(
      cfg: Config, s: State, i: Instance, w: nat, d: Disposition, p: Payload, l: seq<Payload>)
    returns (t: State)
    requires WorkerAt(s, i, w, WritingDead(p)) && s.redis.Processing(i) == [p] + l
    ensures Leads(cfg, s, i, w, d, t) && WorkerAt(t, i, w, Idle) && t.redis.Processing(i) == l
    ensures forall o :: o != i ==> t.redis.Processing(o) == s.redis.Processing(o)
    ensures t.redis.(processing := s.redis.processing) ==
            s.redis.(dead := [DeadEntry(p.job, p.attempts + 1)] + s.redis.dead)
    ensures t.acked == s.acked && t.claims == s.claims
  {
    var s1 := BuryOne(cfg, s, i, w, p);
    t := RemoveOne(cfg, s1, i, w, Buried, p, l);
    LeadsOne(cfg, s, i, w, d, WriteDead(Done));
    LeadsOne(cfg, s1, i, w, d, Remove(Done));
    LeadsOn(cfg, s, i, w, d, s1, t);
  }

  /** The claim taken between s and s1 is gone from the worker's list in t. */
  lemma {:induction false} ServedBy(s: State, s1: State, t: State, i: Instance, w: nat)
    requires s.redis.pending != [] && Holds(s, s1, i) && WorkerAt(t, i, w, Idle)
    requires t.redis.Processing(i) == s.redis.Processing(i) && t.redis.pending == s1.redis.pending
    requires forall o :: o != i ==> t.redis.Processing(o) == s1.redis.Processing(o)
    requires t.claims == s1.claims && t.redis.instances == s1.redis.instances
    ensures Served(s, t, i, w)
  {
  }

  /** Serving a job whose handler acks it. */
  lemma {:induction false} AckPass(cfg: Config, s: State, i: Instance, w: nat) returns (t: State)
    requires WorkerAt(s, i, w, Idle) && s.redis.pending != []
    ensures Leads(cfg, s, i, w, Ack, t) && Served(s, t, i, w) && t.acked == s.acked + {NextJob(s).job}
    ensures t.redis.retry == s.redis.retry && t.redis.dead == s.redis.dead
  {
    var s1 := AskOne(cfg, s, i, w, Ack);
    t := RemoveOne(cfg, s1, i, w, Finished, NextJob(s), s.redis.Processing(i));
    ServedBy(s, s1, t, i, w);
    LeadsOne(cfg, s1, i, w, Ack, Remove(Done));
    LeadsOn(cfg, s, i, w, Ack, s1, t);
  }

  /** Serving a job whose handler asks for a retry within the limit: it waits, one attempt on, for its backoff. */
  lemma {:induction false} RetryPass(cfg: Config, s: State, i: Instance, w: nat) returns (t: State)
    requires WorkerAt(s, i, w, Idle) && s.redis.pending != [] && NextJob(s).attempts < cfg.maxRetries
    ensures Leads(cfg, s, i, w, Retry, t) && Served(s, t, i, w) && t.acked == s.acked && t.redis.dead == s.redis.dead
    ensures t.redis.retry == s.redis.retry[Payload(NextJob(s).job, NextJob(s).attempts + 1) :=
      s.now + cfg.retryBackoff * (NextJob(s).attempts + 1)]
  {
    var p := NextJob(s);
    var s1 := AskOne(cfg, s, i, w, Retry);
    t := RetryThenRemove(cfg, s1, i, w, Retry, p, s.now + cfg.retryBackoff * (p.attempts + 1), s.redis.Processing(i));
    ServedBy(s, s1, t, i, w);
    LeadsOn(cfg, s, i, w, Retry, s1, t);
  }

  /** Serving a job with any other answer, or a retry at the limit: it becomes a dead letter. */
  lemma {:induction false} BuryPass(cfg: Config, s: State, i: Instance, w: nat, d: Disposition) returns (t: State)
    requires WorkerAt(s, i, w, Idle) && s.redis.pending != []
    requires d != Ack && (d == Retry ==> NextJob(s).attempts >= cfg.maxRetries)
    ensures Leads(cfg, s, i, w, d, t) && Served(s, t, i, w) && t.acked == s.acked && t.redis.retry == s.redis.retry
    ensures t.redis.dead == [DeadEntry(NextJob(s).job, NextJob(s).attempts + 1)] + s.redis.dead
  {
    var s1 := AskOne(cfg, s, i, w, d);
    t := BuryThenRemove(cfg, s1, i, w, d, NextJob(s), s.redis.Processing(i));
    ServedBy(s, s1, t, i, w);
    LeadsOn(cfg, s, i, w, d, s1, t);
  }

  // ---------------------------------------------------------------- the retry mover

  /** The mover's commands for n due members. */
  function Promotions(i: Instance, n: nat): seq<Event> {
    if n == 0 then [] else [Move(i, Push(Done)), Move(i, Unretry(Done))] + Promotions(i, n - 1)
  }

  ghost predicate MoverAt(s: State, i: Instance, pc: MoverPc) {
    i in s.live && s.live[i].booted && s.live[i].mover == pc
  }

  /** Only the retry set, pending and the mover of i differ. */
  ghost predicate OnlyRetries(s: State, s': State, i: Instance, pc: MoverPc) {
    && i in s.live && s'.live == s.live[i := s.live[i].(mover := pc)]
    && s' == s.(redis := s.redis.(pending := s'.redis.pending, retry := s'.redis.retry), live := s'.live)
  }

  lemma {:induction false} PromoteOne(cfg: Config, s: State, i: Instance, due: seq<Payload>) returns (t: State)
    requires MoverAt(s, i, Moving(due)) && due != []
    ensures t == Apply(cfg, Apply(cfg, s, Move(i, Push(Done))), Move(i, Unretry(Done)))
    ensures MoverAt(t, i, Moving(due[1..])) && OnlyRetries(s, t, i, Moving(due[1..]))
    ensures t.redis.pending == [due[0]] + s.redis.pending && t.redis.retry == s.redis.retry - {due[0]}
  {
    var s1 := Apply(cfg, s, Move(i, Push(Done)));
    assert s1.live[i].mover == Pushed(due);
    t := Apply(cfg, s1, Move(i, Unretry(Done)));
    assert t.live == s.live[i := s.live[i].(mover := Moving(due[1..]))];
  }

  ghost function Members(l: seq<Payload>): set<Payload> {
    set p | p in l
  }

  lemma {:induction false} PromoteAll(cfg: Config, s: State, i: Instance, due: seq<Payload>)
    requires MoverAt(s, i, Moving(due))
    ensures var t := RunFrom(cfg, s, Promotions(i, |due|));
      && MoverAt(t, i, Moving([])) && OnlyRetries(s, t, i, Moving([]))
      && t.redis.pending == RedisOrder.Rev(due) + s.redis.pending && t.redis.retry == s.redis.retry - Members(due)
    decreases |due|
  {
    if due == [] {
      assert s.live[i := s.live[i].(mover := Moving([]))] == s.live;
      assert [] + s.redis.pending == s.redis.pending && s.redis.retry - {} == s.redis.retry;
    } else {
      var pair, more := [Move(i, Push(Done)), Move(i, Unretry(Done))], Promotions(i, |due| - 1);
      var t := PromoteOne(cfg, s, i, due);
      RunsOn(cfg, s, pair, more);
      RunsPair(cfg, s, pair[0], pair[1]);
      PromoteAll(cfg, t, i, due[1..]);
      PromotedCons(s, t, RunFrom(cfg, t, more), i, due);
    }
  }

  lemma {:induction false} PromotedCons(s: State, t: State, u: State, i: Instance, due: seq<Payload>)
    requires due != [] && OnlyRetries(s, t, i, Moving(due[1..])) && OnlyRetries(t, u, i, Moving([]))
    requires t.redis.pending == [due[0]] + s.redis.pending && t.redis.retry == s.redis.retry - {due[0]}
    requires u.redis.pending == RedisOrder.Rev(due[1..]) + t.redis.pending && u.redis.retry == t.redis.retry - Members(due[1..])
    ensures OnlyRetries(s, u, i, Moving([]))
    ensures u.redis.pending == RedisOrder.Rev(due) + s.redis.pending && u.redis.retry == s.redis.retry - Members(due)
  {
    assert u.live == s.live[i := s.live[i].(mover := Moving([]))];
    assert Members(due) == {due[0]} + Members(due[1..]);
  }

  lemma {:induction false} RunsPair(cfg: Config, s: State, a: Event, b: Event)
    ensures RunFrom(cfg, s, [a, b]) == Apply(cfg, Apply(cfg, s, a), b)
  {
    assert [a, b][1..] == [b];
    RunsOne(cfg, Apply(cfg, s, a), b);
  }

  /**
   * One pass of a retry mover with a page of due members: they leave the retry set for pending, where workers reach
   * them after everything already pending and in the order of their ready times. Unless the page was full, no retry
   * that was due is left behind.
   */
  lemma {:induction false} PassPromotes(cfg: Config, s: State, i: Instance, cutoff: int, due: seq<Payload>)
    requires i in s.live && s.live[i].booted && s.live[i].mover == Waiting
    requires cutoff <= s.now && IsPage(s.redis.retry, cutoff, due)
    ensures var t := RunFrom(cfg, s, [Move(i, ScanDue(cutoff, due))] + Promotions(i, |due|) + [Move(i, MoverDone)]);
      && OnlyRetries(s, t, i, Waiting)
      && t.redis.pending == RedisOrder.Rev(due) + s.redis.pending
      && t.redis.retry == s.redis.retry - Members(due)
      && (|due| < 100 ==> forall p :: p in t.redis.retry ==> cutoff < s.redis.retry[p])
    ensures forall a, b :: 0 <= a < b < |due| ==> s.redis.retry[due[a]] <= s.redis.retry[due[b]]
  {
    var first, last := Move(i, ScanDue(cutoff, due)), Move(i, MoverDone);
    var s1 := Apply(cfg, s, first);
    RunsOne(cfg, s, first);
    RunsOn(cfg, s, [first], Promotions(i, |due|));
    RunsOn(cfg, s, [first] + Promotions(i, |due|), [last]);
    PromoteAll(cfg, s1, i, due);
    EndsPass(cfg, s, s1, RunFrom(cfg, s1, Promotions(i, |due|)), i, due);
  }

  lemma {:induction false} EndsPass(cfg: Config, s: State, s1: State, s2: State, i: Instance, due: seq<Payload>)
    requires MoverAt(s, i, Waiting) && s1 == SetMover(s, i, Moving(due))
    requires MoverAt(s2, i, Moving([])) && OnlyRetries(s1, s2, i, Moving([]))
    ensures var t := RunFrom(cfg, s2, [Move(i, MoverDone)]); OnlyRetries(s, t, i, Waiting) && t.redis == s2.redis
  {
    RunsOne(cfg, s2, Move(i, MoverDone));
    assert Apply(cfg, s2, Move(i, MoverDone)).live == s.live[i := s.live[i].(mover := Waiting)];
  }

  // ---------------------------------------------------------------- the reaper

  function Times(e: Event, n: nat): seq<Event> {
    if n == 0 then [] else [e] + Times(e, n - 1)
  }

  /** A reaper's commands for the instances it found stale: drain until the list is empty, then deregister. */
  function Reclaims(r: Redis, i: Instance, stale: seq<Instance>): seq<Event> {
    if stale == [] then []
    else Times(Keep(i, DrainStale(Done)), |r.Processing(stale[0])| + 1) + [Keep(i, Deregister(Done))] + Reclaims(r, i, stale[1..])
  }

  /** The lists of these instances, each from its right end. */
  function Handed(r: Redis, stale: seq<Instance>): seq<Payload> {
    if stale == [] then [] else RedisOrder.Rev(r.Processing(stale[0])) + Handed(r, stale[1..])
  }

  ghost predicate KeeperAt(s: State, i: Instance, pc: KeeperPc) {
    i in s.live && s.live[i].keeper == pc
  }

  /** Only pending, processing lists, registrations and the keeper of i differ. */
  ghost predicate OnlyReaped(s: State, s': State, i: Instance) {
    && i in s.live && i in s'.live && s'.live == s.live[i := s.live[i].(keeper := s'.live[i].keeper)]
    && s' == s.(redis := s.redis.(
         pending := s'.redis.pending, processing := s'.redis.processing, instances := s'.redis.instances), live := s'.live)
  }

  lemma {:induction false} DrainOnce(cfg: Config, s: State, i: Instance, stale: seq<Instance>) returns (t: State)
    requires KeeperAt(s, i, Draining(stale)) && stale != []
    ensures t == Apply(cfg, s, Keep(i, DrainStale(Done))) && OnlyReaped(s, t, i)
    ensures t.redis.instances == s.redis.instances && forall o :: o != stale[0] ==> t.redis.Processing(o) == s.redis.Processing(o)
    ensures var l := s.redis.Processing(stale[0]);
      if l == [] then KeeperAt(t, i, Deregistering(stale)) && t.redis == s.redis
      else
        && KeeperAt(t, i, Draining(stale)) && l == t.redis.Processing(stale[0]) + [Last(l)]
        && t.redis.pending == s.redis.pending + [Last(l)]
  {
    t := Apply(cfg, s, Keep(i, DrainStale(Done)));
    if s.redis.Processing(stale[0]) != [] { DrainFlows(s.redis, stale[0]); }
    assert t.live == s.live[i := s.live[i].(keeper := t.live[i].keeper)];
  }

  /** Draining one list to its end. */
  lemma {:induction false} DrainAll(cfg: Config, s: State, i: Instance, stale: seq<Instance>)
    requires KeeperAt(s, i, Draining(stale)) && stale != []
    ensures var t := RunFrom(cfg, s, Times(Keep(i, DrainStale(Done)), |s.redis.Processing(stale[0])| + 1));
      && KeeperAt(t, i, Deregistering(stale)) && OnlyReaped(s, t, i)
      && t.redis.instances == s.redis.instances && t.redis.Processing(stale[0]) == []
      && (forall o :: o != stale[0] ==> t.redis.Processing(o) == s.redis.Processing(o))
      && t.redis.pending == s.redis.pending + RedisOrder.Rev(s.redis.Processing(stale[0]))
    decreases |s.redis.Processing(stale[0])|
  {
    var l := s.redis.Processing(stale[0]);
    var t := DrainOnce(cfg, s, i, stale);
    assert Times(Keep(i, DrainStale(Done)), |l| + 1)[1..] == Times(Keep(i, DrainStale(Done)), |l|);
    if l == [] {
      assert s.redis.pending + [] == s.redis.pending;
    } else {
      DrainAll(cfg, t, i, stale);
      LastFirst(s.redis.pending, t.redis.Processing(stale[0]), Last(l));
      OnlyReapedOn(s, t, RunFrom(cfg, t, Times(Keep(i, DrainStale(Done)), |l|)), i);
    }
  }

  lemma {:induction false} LastFirst(pending: seq<Payload>, l: seq<Payload>, x: Payload)
    ensures (pending + [x]) + RedisOrder.Rev(l) == pending + RedisOrder.Rev(l + [x])
  {
    RedisOrder.RevConcat(l, [x]);
    assert RedisOrder.Rev([x]) == [x];
  }

  lemma {:induction false} OnlyReapedOn(s: State, t: State, u: State, i: Instance)
    requires OnlyReaped(s, t, i) && OnlyReaped(t, u, i)
    ensures OnlyReaped(s, u, i)
  {
    assert u.live == s.live[i := s.live[i].(keeper := u.live[i].keeper)];
  }

  lemma {:induction false} DeregisterOnce(cfg: Config, s: State, i: Instance, stale: seq<Instance>) returns (t: State)
    requires KeeperAt(s, i, Deregistering(stale)) && stale != []
    ensures t == Apply(cfg, s, Keep(i, Deregister(Done))) && OnlyReaped(s, t, i) && KeeperAt(t, i, Draining(stale[1..]))
    ensures t.redis == s.redis.(instances := s.redis.instances - {stale[0]})
  {
    t := Apply(cfg, s, Keep(i, Deregister(Done)));
    assert t.live == s.live[i := s.live[i].(keeper := t.live[i].keeper)];
  }

  lemma {:induction false} ReclaimOne(cfg: Config, s: State, i: Instance, stale: seq<Instance>) returns (t: State)
    requires KeeperAt(s, i, Draining(stale)) && stale != []
    ensures t == RunFrom(cfg, s, Times(Keep(i, DrainStale(Done)), |s.redis.Processing(stale[0])| + 1) + [Keep(i, Deregister(Done))])
    ensures KeeperAt(t, i, Draining(stale[1..])) && OnlyReaped(s, t, i)
    ensures t.redis.instances == s.redis.instances - {stale[0]} && t.redis.Processing(stale[0]) == []
    ensures forall o :: o != stale[0] ==> t.redis.Processing(o) == s.redis.Processing(o)
    ensures t.redis.pending == s.redis.pending + RedisOrder.Rev(s.redis.Processing(stale[0]))
  {
    var drains := Times(Keep(i, DrainStale(Done)), |s.redis.Processing(stale[0])| + 1);
    DrainAll(cfg, s, i, stale);
    RunsOn(cfg, s, drains, [Keep(i, Deregister(Done))]);
    var s1 := RunFrom(cfg, s, drains);
    t := DeregisterOnce(cfg, s1, i, stale);
    RunsOne(cfg, s1, Keep(i, Deregister(Done)));
    OnlyReapedOn(s, s1, t, i);
  }

  ghost predicate Reclaimed(s: State, t: State, stale: seq<Instance>) {
    && (forall d :: d in stale ==> t.redis.Processing(d) == [])
    && (forall o :: o !in stale ==> t.redis.Processing(o) == s.redis.Processing(o))
    && t.redis.instances == s.redis.instances - (set d | d in stale)
    && t.redis.pending == s.redis.pending + Handed(s.redis, stale)
  }

  /** The commands and what they hand back depend on the named lists only. */
  lemma {:induction false} SameReclaims(r: Redis, r': Redis, i: Instance, stale: seq<Instance>)
    requires forall d :: d in stale ==> r'.Processing(d) == r.Processing(d)
    ensures Reclaims(r', i, stale) == Reclaims(r, i, stale) && Handed(r', stale) == Handed(r, stale)
  {
    if stale != [] { SameReclaims(r, r', i, stale[1..]); }
  }

  lemma {:induction false} ReclaimAll(cfg: Config, s: State, i: Instance, stale: seq<Instance>)
    requires KeeperAt(s, i, Draining(stale)) && Distinct(stale)
    ensures var t := RunFrom(cfg, s, Reclaims(s.redis, i, stale));
      KeeperAt(t, i, Draining([])) && OnlyReaped(s, t, i) && Reclaimed(s, t, stale)
    decreases |stale|
  {
    if stale == [] {
      assert s.redis.pending + [] == s.redis.pending;
      assert s.live[i := s.live[i]] == s.live;
    } else {
      var d, rest := stale[0], stale[1..];
      var t := ReclaimOne(cfg, s, i, stale);
      SameReclaims(s.redis, t.redis, i, rest);
      ReclaimAll(cfg, t, i, rest);
      var one := Times(Keep(i, DrainStale(Done)), |s.redis.Processing(d)| + 1) + [Keep(i, Deregister(Done))];
      RunsOn(cfg, s, one, Reclaims(s.redis, i, rest));
      var u := RunFrom(cfg, t, Reclaims(s.redis, i, rest));
      OnlyReapedOn(s, t, u, i);
      ReclaimedCons(s, t, u, stale);
    }
  }

  lemma {:induction false} ReclaimedCons(s: State, t: State, u: State, stale: seq<Instance>)
    requires stale != [] && stale[0] !in stale[1..] && Reclaimed(t, u, stale[1..])
    requires t.redis.instances == s.redis.instances - {stale[0]} && t.redis.Processing(stale[0]) == []
    requires forall o :: o != stale[0] ==> t.redis.Processing(o) == s.redis.Processing(o)
    requires t.redis.pending == s.redis.pending + RedisOrder.Rev(s.redis.Processing(stale[0]))
    requires Handed(t.redis, stale[1..]) == Handed(s.redis, stale[1..])
    ensures Reclaimed(s, u, stale)
  {
    assert forall d :: d in stale <==> d == stale[0] || d in stale[1..];
    assert (set d | d in stale) == {stale[0]} + (set d | d in stale[1..]);
  }

  /** A reaper takes the instances in the order of the page, oldest heartbeat first. */
  lemma {:induction false} OthersInOrder(a: seq<Instance>, b: seq<Instance>, i: Instance)
    ensures Others(a + b, i) == Others(a, i) + Others(b, i)
  {
    if a == [] {
      assert a + b == b;
    } else {
      assert (a + b)[1..] == a[1..] + b;
      OthersInOrder(a[1..], b, i);
    }
  }

  lemma {:induction false} OthersDistinct(page: seq<Instance>, i: Instance)
    requires forall a, b :: 0 <= a < b < |page| ==> page[a] != page[b]
    ensures Distinct(Others(page, i))
  {
    if page != [] {
      OthersDistinct(page[1..], i);
      var rest := Others(page[1..], i);
      if page[0] == i {
        assert Others(page, i) == rest;
      } else {
        assert Others(page, i)[1..] == rest;
      }
    }
  }

  /**
   * One reap that nothing disturbs: every stale instance it found has an empty list and is no longer registered, its
   * jobs are at the claiming end of pending, and no other list and no other registration is touched. All of them had been
   silent for a minute. Unless the page
   * was full, nobody else with so old a heartbeat is left.
   */
  lemma {:induction false} ReapReturnsWork(cfg: Config, s: State, i: Instance, cutoff: int, page: seq<Instance>)
    requires i in s.live && (s.live[i].keeper == Scanning || s.live[i].keeper == Beating)
    requires cutoff <= s.now - 60_000 && IsPage(s.redis.instances, cutoff, page)
    ensures var stale := Others(page, i);
      var t := RunFrom(cfg, s, [Keep(i, Scan(cutoff, page))] + Reclaims(s.redis, i, stale));
      && KeeperAt(t, i, Draining([])) && OnlyReaped(s, t, i) && Reclaimed(s, t, stale)
      && (|page| < 100 ==> forall o :: o in t.redis.instances && o != i ==> cutoff < s.redis.instances[o])
    ensures forall d :: d in Others(page, i) ==> d != i && d in s.redis.instances && s.redis.instances[d] <= s.now - 60_000
  {
    var first, stale := Keep(i, Scan(cutoff, page)), Others(page, i);
    var s1 := Apply(cfg, s, first);
    RunsOne(cfg, s, first);
    RunsOn(cfg, s, [first], Reclaims(s.redis, i, stale));
    OthersDistinct(page, i);
    ReclaimAll(cfg, s1, i, stale);
    OnlyReapedOn(s, s1, RunFrom(cfg, s1, Reclaims(s.redis, i, stale)), i);
  }
}
