/**
 How often the Redis driver hands a job to its handler: once per attempt for each enqueue, and once more for each
 event that puts a copy into play twice.
 */
module RedisHandlings {
  import opened QueueTypes
  import opened RedisProtocol
  import opened RedisConservation
  import RedisNoLoss
  import RedisFate

  // ---------------------------------------------------------------- what is counted

  /** Some mover has pushed p and is about to remove it from the retry set. */
  ghost predicate Owed(s: State, p: Payload) {
    exists i :: i in s.live && s.live[i].mover.Pushed? && s.live[i].mover.due != [] && s.live[i].mover.due[0] == p
  }

  /** The handler answers for p. */
  predicate Handles(cfg: Config, s: State, e: Event, p: Payload) {
    Enabled(cfg, s, e) && e.Work? && e.worker.Handle? && s.live[e.i].Worker(e.w) == Handling(p)
  }

  predicate Enqueues(cfg: Config, s: State, e: Event, p: Payload) {
    Enabled(cfg, s, e) && e.Enqueue? && e.reply.Applied() && p == Payload(e.job, 0)
  }

  /** A mover puts p on pending. */
  predicate Promotes(cfg: Config, s: State, e: Event, p: Payload) {
    Enabled(cfg, s, e) && e.Move? && e.mover.Push? && e.mover.reply.Applied() && s.live[e.i].mover.due[0] == p
  }

  /** A worker schedules p. */
  predicate Adds(cfg: Config, s: State, e: Event, p: Payload) {
    Enabled(cfg, s, e) && e.Work? && e.worker.AddRetry? && e.worker.reply.Applied() && Retried(s.live[e.i].Worker(e.w).p) == p
  }

  /** A drain puts p back on pending, whoever may still be working on it. */
  predicate Returns(cfg: Config, s: State, e: Event, p: Payload) {
    FlowOf(cfg, s, e).Returned? && FlowOf(cfg, s, e).p == p
  }

  /**
   * p is promoted without being taken off the retry set in turn: it was not there any more, another mover is
   * promoting it too, or its own mover moves on, fails or dies before the removal.
   */
  ghost predicate Doubles(cfg: Config, s: State, e: Event, p: Payload) {
    var s' := Apply(cfg, s, e);
    || (Promotes(cfg, s, e, p) && !(p in s.redis.retry && !Owed(s, p) && Owed(s', p)))
    || (Owed(s, p) && !Owed(s', p) && p in s'.redis.retry)
  }

  datatype Kind = Answer | Claiming | Arrival | Return | Entry | Promotion | Scheduling | Doubling

  ghost predicate Is(cfg: Config, s: State, e: Event, p: Payload, k: Kind) {
    match k
    case Answer => Handles(cfg, s, e, p)
    case Claiming => FlowOf(cfg, s, e).Claimed? && FlowOf(cfg, s, e).p == p
    case Arrival => FlowOf(cfg, s, e) == Arrives(p)
    case Return => Returns(cfg, s, e, p)
    case Entry => Enqueues(cfg, s, e, p)
    case Promotion => Promotes(cfg, s, e, p)
    case Scheduling => Adds(cfg, s, e, p)
    case Doubling => Doubles(cfg, s, e, p)
  }

  function Bit(b: bool): nat { if b then 1 else 0 }

  /** How many events of the run are of kind k for p. */
  ghost function Times(cfg: Config, legacy: seq<Payload>, es: seq<Event>, p: Payload, k: Kind): nat {
    if es == [] then 0
    else Times(cfg, legacy, es[..|es| - 1], p, k) + Bit(Is(cfg, After(cfg, legacy, es[..|es| - 1]), es[|es| - 1], p, k))
  }

  // ---------------------------------------------------------------- workers at one program point

  /** The program point, whatever ready time the worker has read. */
  function Point(pc: WorkerPc): WorkerPc {
    if pc.AddingRetry? then pc.(readyAt := 0) else pc
  }

  ghost function At(s: State, pc: WorkerPc): set<(Instance, nat)> {
    set i, w | i in s.live && w in s.live[i].workers && Point(s.live[i].workers[w]) == pc :: (i, w)
  }

  /** Only its own step brings a worker somewhere. */
  lemma {:induction false} AtStep(cfg: Config, s: State, e: Event, pc: WorkerPc, i: Instance, w: nat)
    requires pc != Idle && (i, w) in At(Apply(cfg, s, e), pc)
    ensures (i, w) in At(s, pc) || (Enabled(cfg, s, e) && e.Work? && e.i == i && e.w == w)
  {
    if Enabled(cfg, s, e) {
      if e.Work? && e.i == i {
        if e.w != w { RedisNoLoss.OtherWorkers(cfg, s, i, e.w, e.worker, w); }
      } else {
        RedisNoLoss.WorkersFrame(cfg, s, e, i);
      }
    }
  }

  lemma {:induction false} SmallerSet<T>(a: set<T>, b: set<T>)
    requires a <= b
    ensures |a| <= |b|
  {
    if a != {} {
      var x :| x in a;
      SmallerSet(a - {x}, b - {x});
    }
  }

  /** At most one worker arrives at pc, and the one that acts from there leaves. */
  lemma {:induction false} AtCount(cfg: Config, s: State, e: Event, pc: WorkerPc, arrives: bool, leaves: bool)
    requires pc != Idle
    requires Enabled(cfg, s, e) && e.Work? && (e.i, e.w) !in At(s, pc) && (e.i, e.w) in At(Apply(cfg, s, e), pc) ==> arrives
    requires leaves ==> Enabled(cfg, s, e) && e.Work? && (e.i, e.w) in At(s, pc) && (e.i, e.w) !in At(Apply(cfg, s, e), pc)
    ensures |At(Apply(cfg, s, e), pc)| + Bit(leaves) <= |At(s, pc)| + Bit(arrives)
  {
    var a, b := At(s, pc), At(Apply(cfg, s, e), pc);
    forall x | x in b && x !in a
      ensures e.Work? && x == (e.i, e.w) && arrives
    {
      AtStep(cfg, s, e, pc, x.0, x.1);
    }
    if leaves {
      var x := (e.i, e.w);
      SmallerSet(b, a - {x});
    } else if b <= a {
      SmallerSet(b, a);
    } else {
      SmallerSet(b, a + {(e.i, e.w)});
    }
  }

  lemma {:induction false} InAt(s: State, pc: WorkerPc, i: Instance, w: nat)
    requires pc != Idle
    ensures (i, w) in At(s, pc) <==> i in s.live && Point(s.live[i].Worker(w)) == pc
  {
  }

  // ---------------------------------------------------------------- one step of each account

  /** Every handling was claimed. */
  lemma {:induction false} HandleStep(cfg: Config, s: State, e: Event, p: Payload)
    ensures |At(Apply(cfg, s, e), Handling(p))| + Bit(Is(cfg, s, e, p, Answer)) <= |At(s, Handling(p))| + Bit(Is(cfg, s, e, p, Claiming))
  {
    if e.Work? {
      InAt(s, Handling(p), e.i, e.w);
      InAt(Apply(cfg, s, e), Handling(p), e.i, e.w);
    }
    AtCount(cfg, s, e, Handling(p), Is(cfg, s, e, p, Claiming), Handles(cfg, s, e, p));
  }

  /** Every retry was scheduled after a handling of the attempt before. */
  lemma {:induction false} AddStep(cfg: Config, s: State, e: Event, q: Payload)
    ensures |At(Apply(cfg, s, e), AddingRetry(q, 0))| + Bit(Is(cfg, s, e, Retried(q), Scheduling))
      <= |At(s, AddingRetry(q, 0))| + Bit(Is(cfg, s, e, q, Answer))
  {
    if e.Work? {
      InAt(s, AddingRetry(q, 0), e.i, e.w);
      InAt(Apply(cfg, s, e), AddingRetry(q, 0), e.i, e.w);
    }
    AtCount(cfg, s, e, AddingRetry(q, 0), Handles(cfg, s, e, q), Adds(cfg, s, e, Retried(q)));
  }

  /** What is claimed was put on pending. */
  lemma {:induction false} ClaimStep(cfg: Config, s: State, e: Event, p: Payload)
    ensures multiset(Apply(cfg, s, e).redis.pending)[p] + Bit(Is(cfg, s, e, p, Claiming))
      == multiset(s.redis.pending)[p] + Bit(Is(cfg, s, e, p, Arrival)) + Bit(Is(cfg, s, e, p, Return))
  {
    StepFlows(cfg, s, e);
    FlowCount(s.redis, Apply(cfg, s, e).redis, FlowOf(cfg, s, e), p);
  }

  lemma {:induction false} FlowCount(r: Redis, r': Redis, f: Flow, p: Payload)
    requires Flows(r, r', f)
    ensures multiset(r'.pending)[p] + Bit(f.Claimed? && f.p == p)
      == multiset(r.pending)[p] + Bit(f == Arrives(p)) + Bit(f.Returned? && f.p == p)
  {
  }

  /** What arrives is a new job or a promoted retry. */
  lemma {:induction false} ArriveStep(cfg: Config, s: State, e: Event, p: Payload)
    ensures Bit(Is(cfg, s, e, p, Arrival)) == Bit(Is(cfg, s, e, p, Entry)) + Bit(Is(cfg, s, e, p, Promotion))
  {
  }

  /** p waits in the retry set and nobody is about to remove it. */
  ghost predicate Waits(s: State, p: Payload) {
    p in s.redis.retry && !Owed(s, p)
  }

  lemma {:induction false} MoverOwes(s: State, i: Instance, k: MoverStep, p: Payload)
    requires MoverEnabled(s, i, k) && !k.Unretry?
    ensures Owed(s, p) ==> Owed(MoverApply(s, i, k), p)
  {
    var s' := MoverApply(s, i, k);
    if Owed(s, p) {
      var o :| o in s.live && s.live[o].mover.Pushed? && s.live[o].mover.due != [] && s.live[o].mover.due[0] == p;
      assert s'.live[o].mover == s.live[o].mover;
    }
  }

  /** Only scheduling adds to the retry set. */
  lemma {:induction false} RetryGrows(cfg: Config, s: State, e: Event, p: Payload)
    ensures p in Apply(cfg, s, e).redis.retry ==> p in s.redis.retry || Adds(cfg, s, e, p)
  {
    if Enabled(cfg, s, e) && p in Apply(cfg, s, e).redis.retry {
      match e
      case Work(i, w, k) => WorkerRetry(cfg, s, i, w, k, p);
      case Move(i, k) => MoverRetry(s, i, k, p);
      case Keep(i, k) =>
      case _ =>
    }
  }

  lemma {:induction false} WorkerRetry(cfg: Config, s: State, i: Instance, w: nat, k: WorkerStep, p: Payload)
    requires WorkerEnabled(s, i, w, k) && p in WorkerApply(cfg, s, i, w, k).redis.retry
    ensures p in s.redis.retry || (k.AddRetry? && k.reply.Applied() && Retried(s.live[i].Worker(w).p) == p)
  {
  }

  lemma {:induction false} MoverRetry(s: State, i: Instance, k: MoverStep, p: Payload)
    requires MoverEnabled(s, i, k) && p in MoverApply(s, i, k).redis.retry
    ensures p in s.redis.retry
  {
  }

  /** A push leaves the retry set alone and keeps what is owed. */
  lemma {:induction false} PushKeeps(cfg: Config, s: State, e: Event, p: Payload)
    requires Promotes(cfg, s, e, p)
    ensures Apply(cfg, s, e).redis.retry == s.redis.retry && (Owed(s, p) ==> Owed(Apply(cfg, s, e), p)) && !Adds(cfg, s, e, p)
  {
    MoverOwes(s, e.i, e.mover, p);
  }

  /** A promotion takes p off the retry set, unless it doubles p. */
  lemma {:induction false} PromoteStep(cfg: Config, s: State, e: Event, p: Payload)
    ensures Bit(Is(cfg, s, e, p, Promotion)) + Bit(Waits(Apply(cfg, s, e), p))
      <= Bit(Waits(s, p)) + Bit(Is(cfg, s, e, p, Scheduling)) + Bit(Is(cfg, s, e, p, Doubling))
  {
    RetryGrows(cfg, s, e, p);
    if Promotes(cfg, s, e, p) { PushKeeps(cfg, s, e, p); }
  }

  // ---------------------------------------------------------------- over whole runs

  lemma {:induction false} RunHandles(cfg: Config, legacy: seq<Payload>, es: seq<Event>, p: Payload)
    ensures Times(cfg, legacy, es, p, Answer) + |At(After(cfg, legacy, es), Handling(p))| <= Times(cfg, legacy, es, p, Claiming)
  {
    if es != [] {
      RunHandles(cfg, legacy, es[..|es| - 1], p);
      HandleStep(cfg, After(cfg, legacy, es[..|es| - 1]), es[|es| - 1], p);
    }
  }

  lemma {:induction false} RunAdds(cfg: Config, legacy: seq<Payload>, es: seq<Event>, q: Payload)
    ensures Times(cfg, legacy, es, Retried(q), Scheduling) + |At(After(cfg, legacy, es), AddingRetry(q, 0))|
      <= Times(cfg, legacy, es, q, Answer)
  {
    if es != [] {
      RunAdds(cfg, legacy, es[..|es| - 1], q);
      AddStep(cfg, After(cfg, legacy, es[..|es| - 1]), es[|es| - 1], q);
    }
  }

  lemma {:induction false} RunClaims(cfg: Config, legacy: seq<Payload>, es: seq<Event>, p: Payload)
    ensures Times(cfg, legacy, es, p, Claiming) + multiset(After(cfg, legacy, es).redis.pending)[p]
      == Times(cfg, legacy, es, p, Entry) + Times(cfg, legacy, es, p, Promotion) + Times(cfg, legacy, es, p, Return)
  {
    if es != [] {
      RunClaims(cfg, legacy, es[..|es| - 1], p);
      ClaimStep(cfg, After(cfg, legacy, es[..|es| - 1]), es[|es| - 1], p);
      ArriveStep(cfg, After(cfg, legacy, es[..|es| - 1]), es[|es| - 1], p);
    }
  }

  lemma {:induction false} RunPromotes(cfg: Config, legacy: seq<Payload>, es: seq<Event>, p: Payload)
    ensures Times(cfg, legacy, es, p, Promotion) + Bit(Waits(After(cfg, legacy, es), p))
      <= Times(cfg, legacy, es, p, Scheduling) + Times(cfg, legacy, es, p, Doubling)
  {
    if es != [] {
      RunPromotes(cfg, legacy, es[..|es| - 1], p);
      PromoteStep(cfg, After(cfg, legacy, es[..|es| - 1]), es[|es| - 1], p);
    }
  }

  /** New jobs have no attempts behind them, and scheduled copies at least one. */
  lemma {:induction false} Beginnings(cfg: Config, legacy: seq<Payload>, es: seq<Event>, p: Payload)
    ensures p.attempts > 0 ==> Times(cfg, legacy, es, p, Entry) == 0
    ensures p.attempts == 0 ==> Times(cfg, legacy, es, p, Scheduling) == 0
  {
    if es != [] { Beginnings(cfg, legacy, es[..|es| - 1], p); }
  }

  /** Events that put an attempt of j up to k into play once more than its enqueues and handlings account for. */
  ghost function Extra(cfg: Config, legacy: seq<Payload>, es: seq<Event>, j: Job, k: nat): nat {
    Times(cfg, legacy, es, Payload(j, k), Return) + Times(cfg, legacy, es, Payload(j, k), Doubling)
    + if k == 0 then 0 else Extra(cfg, legacy, es, j, k - 1)
  }

  ghost function Entries(cfg: Config, legacy: seq<Payload>, es: seq<Event>, j: Job): nat {
    Times(cfg, legacy, es, Payload(j, 0), Entry)
  }

  /**
   * In every run, with any crashes, lost replies and leftovers: the handler sees attempt k of a job at most once for
   * each time the job was enqueued, and once more for each drain or doubled promotion of an attempt up to k.
   */
  lemma {:induction false} AttemptHandledOnce(cfg: Config, legacy: seq<Payload>, es: seq<Event>, j: Job, k: nat)
    ensures Times(cfg, legacy, es, Payload(j, k), Answer) <= Entries(cfg, legacy, es, j) + Extra(cfg, legacy, es, j, k)
  {
    var p := Payload(j, k);
    RunHandles(cfg, legacy, es, p);
    RunClaims(cfg, legacy, es, p);
    RunPromotes(cfg, legacy, es, p);
    Beginnings(cfg, legacy, es, p);
    if k > 0 {
      AttemptHandledOnce(cfg, legacy, es, j, k - 1);
      assert Retried(Payload(j, k - 1)) == p;
      RunAdds(cfg, legacy, es, Payload(j, k - 1));
    }
  }

  // ---------------------------------------------------------------- all attempts together

  /** The handler answers for some copy of j. */
  predicate HandlesJob(cfg: Config, s: State, e: Event, j: Job) {
    Enabled(cfg, s, e) && e.Work? && e.worker.Handle? && s.live[e.i].Worker(e.w).p.job == j
  }

  ghost function Handlings(cfg: Config, legacy: seq<Payload>, es: seq<Event>, j: Job): nat {
    if es == [] then 0
    else Handlings(cfg, legacy, es[..|es| - 1], j)
         + Bit(HandlesJob(cfg, After(cfg, legacy, es[..|es| - 1]), es[|es| - 1], j))
  }

  ghost function ByAttempt(cfg: Config, legacy: seq<Payload>, es: seq<Event>, j: Job, k: nat): nat {
    Times(cfg, legacy, es, Payload(j, k), Answer) + if k == 0 then 0 else ByAttempt(cfg, legacy, es, j, k - 1)
  }

  ghost predicate HandlesUpTo(cfg: Config, s: State, e: Event, j: Job, k: nat) {
    HandlesJob(cfg, s, e, j) && s.live[e.i].Worker(e.w).p.attempts <= k
  }

  lemma {:induction false} ByAttemptStep(cfg: Config, legacy: seq<Payload>, es: seq<Event>, j: Job, k: nat)
    requires es != []
    ensures ByAttempt(cfg, legacy, es, j, k) == ByAttempt(cfg, legacy, es[..|es| - 1], j, k)
      + Bit(HandlesUpTo(cfg, After(cfg, legacy, es[..|es| - 1]), es[|es| - 1], j, k))
    decreases k
  {
    AttemptsSplit(cfg, After(cfg, legacy, es[..|es| - 1]), es[|es| - 1], j, k);
    if k > 0 { ByAttemptStep(cfg, legacy, es, j, k - 1); }
  }

  lemma {:induction false} AttemptsSplit(cfg: Config, s: State, e: Event, j: Job, k: nat)
    ensures Bit(HandlesUpTo(cfg, s, e, j, k)) == Bit(Handles(cfg, s, e, Payload(j, k)))
      + if k == 0 then 0 else Bit(HandlesUpTo(cfg, s, e, j, k - 1))
  {
    if HandlesJob(cfg, s, e, j) {
      var p := s.live[e.i].Worker(e.w).p;
      assert p == Payload(p.job, p.attempts);
    }
  }

  /** No copy beyond attempt `top` is ever handled. */
  lemma {:induction false} AllByAttempt(cfg: Config, legacy: seq<Payload>, es: seq<Event>, j: Job, top: nat)
    requires cfg.maxRetries <= top && forall p :: p in legacy ==> p.attempts <= top
    ensures Handlings(cfg, legacy, es, j) == ByAttempt(cfg, legacy, es, j, top)
  {
    if es == [] {
      NothingByAttempt(cfg, legacy, j, top);
    } else {
      var s, e := After(cfg, legacy, es[..|es| - 1]), es[|es| - 1];
      AllByAttempt(cfg, legacy, es[..|es| - 1], j, top);
      ByAttemptStep(cfg, legacy, es, j, top);
      RedisFate.AttemptsBounded(cfg, legacy, es[..|es| - 1]);
      if HandlesJob(cfg, s, e, j) {
        assert RedisFate.WorkerMarked(RedisFate.Limited(cfg.maxRetries, legacy), s.live[e.i].Worker(e.w));
      }
    }
  }

  lemma {:induction false} NothingByAttempt(cfg: Config, legacy: seq<Payload>, j: Job, k: nat)
    ensures ByAttempt(cfg, legacy, [], j, k) == 0
  {
    if k > 0 { NothingByAttempt(cfg, legacy, j, k - 1); }
  }

  lemma {:induction false} ExtraGrows(cfg: Config, legacy: seq<Payload>, es: seq<Event>, j: Job, k: nat, top: nat)
    requires k <= top
    ensures Extra(cfg, legacy, es, j, k) <= Extra(cfg, legacy, es, j, top)
    decreases top
  {
    if k < top { ExtraGrows(cfg, legacy, es, j, k, top - 1); }
  }

  ghost function Multiple(n: nat, each: nat): nat {
    if n == 0 then 0 else Multiple(n - 1, each) + each
  }

  lemma {:induction false} MultipleIsProduct(n: nat, each: nat)
    ensures Multiple(n, each) == n * each
  {
    if n > 0 {
      MultipleIsProduct(n - 1, each);
      assert n * each == (n - 1) * each + each;
    }
  }

  lemma {:induction false} SumOfAttempts(cfg: Config, legacy: seq<Payload>, es: seq<Event>, j: Job, k: nat, top: nat)
    requires k <= top
    ensures ByAttempt(cfg, legacy, es, j, k) <= Multiple(k + 1, Entries(cfg, legacy, es, j) + Extra(cfg, legacy, es, j, top))
    decreases k
  {
    AttemptHandledOnce(cfg, legacy, es, j, k);
    ExtraGrows(cfg, legacy, es, j, k, top);
    if k > 0 { SumOfAttempts(cfg, legacy, es, j, k - 1, top); }
  }

  /**
   * So a job is handled at most MaxRetries + 1 times for each enqueue and each event that doubles one of its copies;
   * where an older release left copies with more attempts behind, their highest count takes MaxRetries' place.
   */
  lemma {:induction false} HandledWithinLimit(cfg: Config, legacy: seq<Payload>, es: seq<Event>, j: Job, top: nat)
    requires cfg.maxRetries <= top && forall p :: p in legacy ==> p.attempts <= top
    ensures Handlings(cfg, legacy, es, j) <= (top + 1) * (Entries(cfg, legacy, es, j) + Extra(cfg, legacy, es, j, top))
  {
    AllByAttempt(cfg, legacy, es, j, top);
    SumOfAttempts(cfg, legacy, es, j, top, top);
    MultipleIsProduct(top + 1, Entries(cfg, legacy, es, j) + Extra(cfg, legacy, es, j, top));
  }

  /** Nothing of j was drained, and every promotion of j was removed from the retry set in turn. */
  ghost predicate Undisturbed(cfg: Config, es: seq<Event>, j: Job) {
    forall k: nat :: Times(cfg, [], es, Payload(j, k), Return) == 0 && Times(cfg, [], es, Payload(j, k), Doubling) == 0
  }

  lemma {:induction false} UndisturbedHasNoExtra(cfg: Config, es: seq<Event>, j: Job, k: nat)
    requires Undisturbed(cfg, es, j)
    ensures Extra(cfg, [], es, j, k) == 0
  {
    if k > 0 { UndisturbedHasNoExtra(cfg, es, j, k - 1); }
  }

  /** Undisturbed, a job is handled at most MaxRetries + 1 times per enqueue and each attempt at most once. */
  lemma {:induction false} UndisturbedWithinLimit(cfg: Config, es: seq<Event>, j: Job)
    requires Undisturbed(cfg, es, j)
    ensures Handlings(cfg, [], es, j) <= (cfg.maxRetries + 1) * Entries(cfg, [], es, j)
    ensures forall k: nat :: Times(cfg, [], es, Payload(j, k), Answer) <= Entries(cfg, [], es, j)
  {
    HandledWithinLimit(cfg, [], es, j, cfg.maxRetries);
    UndisturbedHasNoExtra(cfg, es, j, cfg.maxRetries);
    forall k: nat
      ensures Times(cfg, [], es, Payload(j, k), Answer) <= Entries(cfg, [], es, j)
    {
      AttemptHandledOnce(cfg, [], es, j, k);
      UndisturbedHasNoExtra(cfg, es, j, k);
    }
  }

  /** Entries are the pushes of Enqueue. */
  lemma {:induction false} EntriesArePushes(cfg: Config, legacy: seq<Payload>, es: seq<Event>, j: Job)
    ensures Entries(cfg, legacy, es, j) == multiset(After(cfg, legacy, es).pushes)[Payload(j, 0)]
  {
    if es != [] {
      EntriesArePushes(cfg, legacy, es[..|es| - 1], j);
      PushStep(cfg, After(cfg, legacy, es[..|es| - 1]), es[|es| - 1], Payload(j, 0));
    }
  }

  lemma {:induction false} PushStep(cfg: Config, s: State, e: Event, p: Payload)
    ensures multiset(Apply(cfg, s, e).pushes)[p] == multiset(s.pushes)[p] + Bit(Enqueues(cfg, s, e, p))
  {
  }
}
