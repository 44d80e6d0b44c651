/**
 What every step does to the Redis lists, and what that adds up to over arbitrary runs: a dead replica's
 entries reach pending once each, in order, whoever else is working meanwhile.
 */
module RedisConservation {
  import opened QueueTypes
  import opened RedisProtocol
  import RedisOrder
  import opened Sequences

  /** The one entry a step moves: into pending from outside, into a claim, back from one, or out for good. */
  datatype Flow =
    | Still
    | Arrives(p: Payload)
    | Claimed(i: Instance, p: Payload)
    | Returned(d: Instance, p: Payload)
    | Dropped(i: Instance, p: Payload)

  function Last(l: seq<Payload>): Payload
    requires l != []
  {
    l[|l| - 1]
  }

  function DrainFlow(r: Redis, d: Instance, reply: Reply): Flow {
    if reply.Applied() && r.Processing(d) != [] then Returned(d, Last(r.Processing(d))) else Still
  }

  function KeeperFlow(s: State, i: Instance, k: KeeperStep): Flow
    requires KeeperEnabled(s, i, k)
  {
    match k
    case DrainOwn(reply) => DrainFlow(s.redis, i, reply)
    case DrainStale(reply) => DrainFlow(s.redis, s.live[i].keeper.stale[0], reply)
    case _ => Still
  }

  function WorkerFlow(s: State, i: Instance, w: nat, k: WorkerStep): Flow
    requires WorkerEnabled(s, i, w, k)
  {
    match k
    case Claim(reply) => if reply.Applied() then Claimed(i, Last(s.redis.pending)) else Still
    case Remove(reply) =>
      var p := s.live[i].Worker(w).p;
      if reply.Applied() && p in s.redis.Processing(i) then Dropped(i, p) else Still
    case _ => Still
  }

  function FlowOf(cfg: Config, s: State, e: Event): Flow {
    if !Enabled(cfg, s, e) then Still else
    match e
    case Enqueue(j, _, reply) => if reply.Applied() then Arrives(Payload(j, 0)) else Still
    case Keep(i, k) => KeeperFlow(s, i, k)
    case Work(i, w, k) => WorkerFlow(s, i, w, k)
    case Move(i, k) => MoverFlow(s, i, k)
    case _ => Still
  }

  ghost predicate OtherLists(r: Redis, r': Redis, i: Instance) {
    forall o :: o != i ==> r'.Processing(o) == r.Processing(o)
  }

  /** The lists after a flow. */
  ghost predicate Flows(r: Redis, r': Redis, f: Flow) {
    match f
    case Still => r'.pending == r.pending && forall o :: r'.Processing(o) == r.Processing(o)
    case Arrives(p) => r'.pending == [p] + r.pending && forall o :: r'.Processing(o) == r.Processing(o)
    case Claimed(i, p) => r.pending == r'.pending + [p] && r'.Processing(i) == [p] + r.Processing(i) && OtherLists(r, r', i)
    case Returned(d, p) => r'.pending == r.pending + [p] && r.Processing(d) == r'.Processing(d) + [p] && OtherLists(r, r', d)
    case Dropped(i, p) => r'.pending == r.pending && r'.Processing(i) == RemoveFirst(r.Processing(i), p) && OtherLists(r, r', i)
  }

  lemma {:induction false} DrainFlows(r: Redis, d: Instance)
    requires r.Processing(d) != []
    ensures Flows(r, r.DrainOne(d), Returned(d, Last(r.Processing(d))))
  {
  }

  lemma {:induction false} KeeperFlows(s: State, i: Instance, k: KeeperStep)
    requires KeeperEnabled(s, i, k)
    ensures Flows(s.redis, KeeperApply(s, i, k).redis, KeeperFlow(s, i, k))
  {
    if k.DrainOwn? {
      if s.redis.Processing(i) != [] { DrainFlows(s.redis, i); }
    } else if k.DrainStale? {
      var d := s.live[i].keeper.stale[0];
      if s.redis.Processing(d) != [] { DrainFlows(s.redis, d); }
    }
  }

  lemma {:induction false} RemoveAbsent(l: seq<Payload>, p: Payload)
    requires p !in l
    ensures RemoveFirst(l, p) == l
  {
    if l != [] { RemoveAbsent(l[1..], p); }
  }

  lemma {:induction false} ClaimFlows(r: Redis, i: Instance)
    requires r.pending != []
    ensures Flows(r, r.Claim(i), Claimed(i, Last(r.pending)))
  {
    var l := r.pending;
    assert l == l[..|l| - 1] + [Last(l)];
  }

  lemma {:induction false} RemoveFlows(r: Redis, i: Instance, p: Payload)
    ensures Flows(r, r.Remove(i, p), if p in r.Processing(i) then Dropped(i, p) else Still)
  {
    if p !in r.Processing(i) { RemoveAbsent(r.Processing(i), p); }
  }

  lemma {:induction false} WorkerFlows(cfg: Config, s: State, i: Instance, w: nat, k: WorkerStep)
    requires WorkerEnabled(s, i, w, k)
    ensures Flows(s.redis, WorkerApply(cfg, s, i, w, k).redis, WorkerFlow(s, i, w, k))
  {
    match k
    case Claim(_) => ClaimFlows(s.redis, i);
    case Remove(_) => RemoveFlows(s.redis, i, s.live[i].Worker(w).p);
    case _ =>
  }

  /** Every step of every goroutine changes the lists by exactly its flow. */
  lemma {:induction false} StepFlows(cfg: Config, s: State, e: Event)
    ensures Flows(s.redis, Apply(cfg, s, e).redis, FlowOf(cfg, s, e))
  {
    if Enabled(cfg, s, e) {
      match e
      case Keep(i, k) => KeeperFlows(s, i, k);
      case Work(i, w, k) => WorkerFlows(cfg, s, i, w, k);
      case Move(i, k) => MoverFlows(s, i, k);
      case _ =>
    }
  }

  function MoverFlow(s: State, i: Instance, k: MoverStep): Flow
    requires MoverEnabled(s, i, k)
  {
    if k.Push? && k.reply.Applied() then Arrives(s.live[i].mover.due[0]) else Still
  }

  lemma {:induction false} MoverFlows(s: State, i: Instance, k: MoverStep)
    requires MoverEnabled(s, i, k)
    ensures Flows(s.redis, MoverApply(s, i, k).redis, MoverFlow(s, i, k))
  {
  }

  // ---------------------------------------------------------------- dead replicas

  /** The process is gone for good: instance ids are never drawn twice, and nobody is called legacy. */
  predicate Dead(s: State, d: Instance) {
    d !in s.live && (d in s.born || d == LEGACY)
  }

  lemma {:induction false} DeadStays(cfg: Config, s: State, e: Event, d: Instance)
    requires Dead(s, d)
    ensures Dead(Apply(cfg, s, e), d)
  {
  }

  /** Only live replicas claim and remove. */
  lemma {:induction false} FlowActor(cfg: Config, s: State, e: Event)
    ensures var f := FlowOf(cfg, s, e); f.Claimed? || f.Dropped? ==> f.i in s.live
  {
  }

  /** A dead replica's list stands still or loses its last entry to the right end of pending. */
  lemma {:induction false} DeadListStep(cfg: Config, s: State, e: Event, d: Instance)
    requires Dead(s, d)
    ensures var f, r, r' := FlowOf(cfg, s, e), s.redis, Apply(cfg, s, e).redis;
      if f.Returned? && f.d == d then r.Processing(d) == r'.Processing(d) + [f.p] && r'.pending == r.pending + [f.p]
      else r'.Processing(d) == r.Processing(d)
  {
    StepFlows(cfg, s, e);
    FlowActor(cfg, s, e);
  }

  /** The run of es from an arbitrary state. */
  ghost function RunFrom(cfg: Config, s: State, es: seq<Event>): State
    decreases |es|
  {
    if es == [] then s else RunFrom(cfg, Apply(cfg, s, es[0]), es[1..])
  }

  /** What es moves from d's list to pending, the entry moved last in front. */
  ghost function Drained(cfg: Config, s: State, es: seq<Event>, d: Instance): seq<Payload>
    decreases |es|
  {
    if es == [] then []
    else
      var f := FlowOf(cfg, s, es[0]);
      Drained(cfg, Apply(cfg, s, es[0]), es[1..], d) + if f.Returned? && f.d == d then [f.p] else []
  }

  /**
   * Over any run whatever, with workers, movers, boots, enqueues and crashes between racing reapers: what is left
   * of a dead replica's list followed by what was drained from it is the list as it was. Each drained entry was
   * put on pending by the command that took it, so none is lost or duplicated.
   */
  lemma {:induction false} DeadListDrains(cfg: Config, s: State, es: seq<Event>, d: Instance)
    requires Dead(s, d)
    ensures s.redis.Processing(d) == RunFrom(cfg, s, es).redis.Processing(d) + Drained(cfg, s, es, d)
    decreases |es|
  {
    if es != [] {
      DeadListStep(cfg, s, es[0], d);
      DeadStays(cfg, s, es[0], d);
      DeadListDrains(cfg, Apply(cfg, s, es[0]), es[1..], d);
    }
  }

  // ---------------------------------------------------------------- the ledger of pending

  function In(f: Flow): multiset<Payload> {
    if f.Arrives? then multiset{f.p} else multiset{}
  }

  function Out(f: Flow): multiset<Payload> {
    if f.Claimed? then multiset{f.p} else multiset{}
  }

  /** Put back from a list of one of ids, or of anyone else. */
  function Back(f: Flow, ids: seq<Instance>, inside: bool): multiset<Payload> {
    if f.Returned? && (f.d in ids <==> inside) then multiset{f.p} else multiset{}
  }

  ghost function Arrivals(cfg: Config, s: State, es: seq<Event>): multiset<Payload>
    decreases |es|
  {
    if es == [] then multiset{} else In(FlowOf(cfg, s, es[0])) + Arrivals(cfg, Apply(cfg, s, es[0]), es[1..])
  }

  ghost function Claims(cfg: Config, s: State, es: seq<Event>): multiset<Payload>
    decreases |es|
  {
    if es == [] then multiset{} else Out(FlowOf(cfg, s, es[0])) + Claims(cfg, Apply(cfg, s, es[0]), es[1..])
  }

  ghost function Returns(cfg: Config, s: State, es: seq<Event>, ids: seq<Instance>, inside: bool): multiset<Payload>
    decreases |es|
  {
    if es == [] then multiset{}
    else Back(FlowOf(cfg, s, es[0]), ids, inside) + Returns(cfg, Apply(cfg, s, es[0]), es[1..], ids, inside)
  }

  lemma {:induction false} FlowLedger(r: Redis, r': Redis, f: Flow, ids: seq<Instance>)
    requires Flows(r, r', f)
    ensures multiset(r'.pending) + Out(f) == multiset(r.pending) + In(f) + Back(f, ids, true) + Back(f, ids, false)
  {
  }

  lemma {:induction false} AddLedgers(
      a: multiset<Payload>, b: multiset<Payload>, c: multiset<Payload>,
      o1: multiset<Payload>, i1: multiset<Payload>, x1: multiset<Payload>, y1: multiset<Payload>,
      o2: multiset<Payload>, i2: multiset<Payload>, x2: multiset<Payload>, y2: multiset<Payload>)
    requires b + o1 == a + i1 + x1 + y1 && c + o2 == b + i2 + x2 + y2
    ensures c + (o1 + o2) == a + (i1 + i2) + (x1 + x2) + (y1 + y2)
  {
    forall p
      ensures (c + (o1 + o2))[p] == (a + (i1 + i2) + (x1 + x2) + (y1 + y2))[p]
    {
      assert (b + o1)[p] == (a + i1 + x1 + y1)[p] && (c + o2)[p] == (b + i2 + x2 + y2)[p];
    }
  }

  /** Over any run pending gains what arrives and what is put back, and loses what is claimed: nothing else. */
  lemma {:induction false} PendingLedger(cfg: Config, s: State, es: seq<Event>, ids: seq<Instance>)
    ensures multiset(RunFrom(cfg, s, es).redis.pending) + Claims(cfg, s, es)
      == multiset(s.redis.pending) + Arrivals(cfg, s, es) + Returns(cfg, s, es, ids, true) + Returns(cfg, s, es, ids, false)
    decreases |es|
  {
    if es != [] {
      var s1, more, f := Apply(cfg, s, es[0]), es[1..], FlowOf(cfg, s, es[0]);
      StepFlows(cfg, s, es[0]);
      FlowLedger(s.redis, s1.redis, f, ids);
      PendingLedger(cfg, s1, more, ids);
      AddLedgers(multiset(s.redis.pending), multiset(s1.redis.pending), multiset(RunFrom(cfg, s1, more).redis.pending),
        Out(f), In(f), Back(f, ids, true), Back(f, ids, false),
        Claims(cfg, s1, more), Arrivals(cfg, s1, more), Returns(cfg, s1, more, ids, true), Returns(cfg, s1, more, ids, false));
    }
  }

  /** Everything in the named lists. */
  ghost function Lists(r: Redis, ids: seq<Instance>): multiset<Payload> {
    if ids == [] then multiset{} else multiset(r.Processing(ids[0])) + Lists(r, ids[1..])
  }

  predicate Distinct(ids: seq<Instance>) {
    ids == [] || (ids[0] !in ids[1..] && Distinct(ids[1..]))
  }

  lemma {:induction false} ReturnsSplit(cfg: Config, s: State, es: seq<Event>, d: Instance, ids: seq<Instance>)
    requires d !in ids
    ensures Returns(cfg, s, es, [d] + ids, true) == multiset(Drained(cfg, s, es, d)) + Returns(cfg, s, es, ids, true)
    decreases |es|
  {
    if es != [] {
      var f, s1, more := FlowOf(cfg, s, es[0]), Apply(cfg, s, es[0]), es[1..];
      ReturnsSplit(cfg, s1, more, d, ids);
      BackSplit(f, d, ids, Drained(cfg, s1, more, d), Returns(cfg, s1, more, ids, true));
    }
  }

  lemma {:induction false} BackSplit(f: Flow, d: Instance, ids: seq<Instance>, later: seq<Payload>, rest: multiset<Payload>)
    requires d !in ids
    ensures Back(f, [d] + ids, true) + (multiset(later) + rest)
      == multiset(later + if f.Returned? && f.d == d then [f.p] else []) + (Back(f, ids, true) + rest)
  {
  }

  /** What dead lists lose over any run is what was put back from them. */
  lemma {:induction false} ReapersConserve(cfg: Config, s: State, es: seq<Event>, dead: seq<Instance>)
    requires Distinct(dead) && forall d :: d in dead ==> Dead(s, d)
    ensures Lists(s.redis, dead) == Lists(RunFrom(cfg, s, es).redis, dead) + Returns(cfg, s, es, dead, true)
    decreases |dead|
  {
    if dead == [] {
      NoReturns(cfg, s, es);
    } else {
      var d, rest := dead[0], dead[1..];
      DeadListDrains(cfg, s, es, d);
      ReapersConserve(cfg, s, es, rest);
      ReturnsSplit(cfg, s, es, d, rest);
      assert [d] + rest == dead;
      AddParts(RunFrom(cfg, s, es).redis.Processing(d), Drained(cfg, s, es, d),
        Lists(RunFrom(cfg, s, es).redis, rest), Returns(cfg, s, es, rest, true));
    }
  }

  lemma {:induction false} AddParts(kept: seq<Payload>, gone: seq<Payload>, a: multiset<Payload>, b: multiset<Payload>)
    ensures multiset(kept + gone) + (a + b) == (multiset(kept) + a) + (multiset(gone) + b)
  {
  }

  lemma {:induction false} NoReturns(cfg: Config, s: State, es: seq<Event>)
    ensures Returns(cfg, s, es, [], true) == multiset{}
    decreases |es|
  {
    if es != [] { NoReturns(cfg, Apply(cfg, s, es[0]), es[1..]); }
  }

  /**
   * Once the dead replicas' lists are empty, pending has gained exactly their entries, each once, beside what
   * arrived, was put back by others and was claimed in the same run.
   */
  lemma {:induction false} ReapedIntoPending(cfg: Config, s: State, es: seq<Event>, dead: seq<Instance>)
    requires Distinct(dead) && forall d :: d in dead ==> Dead(s, d)
    requires forall d :: d in dead ==> RunFrom(cfg, s, es).redis.Processing(d) == []
    ensures multiset(RunFrom(cfg, s, es).redis.pending) + Claims(cfg, s, es)
      == multiset(s.redis.pending) + Arrivals(cfg, s, es) + Lists(s.redis, dead) + Returns(cfg, s, es, dead, false)
  {
    PendingLedger(cfg, s, es, dead);
    ReapersConserve(cfg, s, es, dead);
    EmptyLists(RunFrom(cfg, s, es).redis, dead);
  }

  lemma {:induction false} EmptyLists(r: Redis, ids: seq<Instance>)
    requires forall i :: i in ids ==> r.Processing(i) == []
    ensures Lists(r, ids) == multiset{}
  {
    if ids != [] { EmptyLists(r, ids[1..]); }
  }

  // ---------------------------------------------------------------- one uninterrupted drain

  /** The state after n moves in a row of the keeper of i, draining its current target. */
  ghost function DrainMoves(cfg: Config, s: State, i: Instance, n: nat): State
    decreases n
  {
    if n == 0 then s else DrainMoves(cfg, Apply(cfg, s, Keep(i, DrainStale(Done))), i, n - 1)
  }

  ghost predicate Drains(s: State, i: Instance, d: Instance) {
    i in s.live && s.live[i].keeper.Draining? && s.live[i].keeper.stale != [] && s.live[i].keeper.stale[0] == d
  }

  /** One move of the drain, and the rest of the run. */
  lemma {:induction false} DrainMove(cfg: Config, s: State, i: Instance, d: Instance, n: nat) returns (s1: State, x: Payload)
    requires Drains(s, i, d) && s.redis.Processing(d) != [] && n > 0
    ensures Drains(s1, i, d) && s.redis.Processing(d) == s1.redis.Processing(d) + [x] && s1.redis.pending == s.redis.pending + [x]
    ensures DrainMoves(cfg, s, i, n) == DrainMoves(cfg, s1, i, n - 1)
  {
    s1, x := Apply(cfg, s, Keep(i, DrainStale(Done))), Last(s.redis.Processing(d));
    DrainFlows(s.redis, d);
  }

  /** r is what ListPair.DrainProcessing makes of the two lists in n moves. */
  ghost predicate ReversedOnto(pending: seq<Payload>, l: seq<Payload>, n: nat, r: Redis, d: Instance)
    requires n <= |l|
  {
    r.Processing(d) == l[..|l| - n] && r.pending == pending + RedisOrder.Rev(l[|l| - n..])
  }

  lemma {:induction false} ReversedOneMore(pending: seq<Payload>, l: seq<Payload>, x: Payload, n: nat, r: Redis, d: Instance)
    requires n <= |l| && ReversedOnto(pending + [x], l, n, r, d)
    ensures ReversedOnto(pending, l + [x], n + 1, r, d)
  {
    ReverseEnd(l, x, n);
    Regroup(pending, [x], RedisOrder.Rev(l[|l| - n..]));
  }

  lemma {:induction false} NothingReversed(r: Redis, d: Instance)
    ensures ReversedOnto(r.pending, r.Processing(d), 0, r, d)
  {
    assert r.pending + [] == r.pending;
  }

  /** The protocol's drain steps do to the two lists what ListPair.DrainProcessing does. */
  lemma {:induction false} DrainMovesReverse(cfg: Config, s: State, i: Instance, d: Instance, n: nat)
    requires Drains(s, i, d) && n <= |s.redis.Processing(d)|
    ensures ReversedOnto(s.redis.pending, s.redis.Processing(d), n, DrainMoves(cfg, s, i, n).redis, d)
    decreases n
  {
    if n == 0 {
      NothingReversed(s.redis, d);
    } else {
      var s1, x := DrainMove(cfg, s, i, d, n);
      DrainMovesReverse(cfg, s1, i, d, n - 1);
      ReversedOneMore(s.redis.pending, s1.redis.Processing(d), x, n - 1, DrainMoves(cfg, s1, i, n - 1).redis, d);
    }
  }

  lemma {:induction false} ReverseEnd(l: seq<Payload>, x: Payload, n: nat)
    requires n <= |l|
    ensures var all := l + [x];
      && all[..|all| - (n + 1)] == l[..|l| - n]
      && RedisOrder.Rev(all[|all| - (n + 1)..]) == [x] + RedisOrder.Rev(l[|l| - n..])
  {
    assert (l + [x])[|l| - n..] == l[|l| - n..] + [x];
    RedisOrder.RevConcat(l[|l| - n..], [x]);
    assert RedisOrder.Rev([x]) == [x];
  }
}
