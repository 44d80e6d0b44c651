/** The pending and active counters, and where every accepted job is, in every interleaving. */
module MemqCounters {
  import opened QueueTypes
  import opened MemqProtocol

  /** Sent on the channel, pending.Add(1) still to come. */
  predicate OwesIncrement(pc: Pc) { pc.Sent? }

  /** Received or given up, pending.Add(-1) still to come. */
  predicate OwesDecrement(pc: Pc) { pc.Taken? || pc.Abandoning? || pc.Drained? }

  /** A retry that has been counted and is not back on the channel. */
  predicate AwaitsRetry(pc: Pc) { pc.Spawning? || pc.Ticking? }

  /** Between active.Add(1) and the deferred active.Add(-1). */
  predicate InHandler(pc: Pc) {
    pc.Running? || pc.Burying? || pc.Scheduling? || pc.Spawning? || pc.Leaving?
  }

  function Bit(b: bool): nat { if b then 1 else 0 }

  function Count(ps: seq<Pc>, f: Pc -> bool): nat {
    if ps == [] then 0 else Count(ps[..|ps| - 1], f) + Bit(f(ps[|ps| - 1]))
  }

  /** The copy a goroutine has in hand and no shared structure holds. */
  function Held(pc: Pc): Option<Payload> {
    match pc
    case Taken(p) => Some(p)
    case Starting(p) => Some(p)
    case Running(p) => Some(p)
    case Burying(p) => Some(p)
    case Scheduling(p) => Some(p)
    case Spawning(p) => Some(p)
    case Ticking(p) => Some(p)
    case Abandoning(p) => Some(p)
    case Drained(p) => Some(p)
    case _ => None
  }

  function HeldOne(pc: Pc, j: Job): nat {
    if Held(pc).Some? && Held(pc).value.job == j then 1 else 0
  }

  function HeldBy(ps: seq<Pc>, j: Job): nat {
    if ps == [] then 0 else HeldBy(ps[..|ps| - 1], j) + HeldOne(ps[|ps| - 1], j)
  }

  function One(j: Job, k: Job): nat { if j == k then 1 else 0 }

  function Copies(l: seq<Payload>, j: Job): nat {
    if l == [] then 0 else Copies(l[..|l| - 1], j) + One(l[|l| - 1].job, j)
  }

  function Letters(l: seq<DeadEntry>, j: Job): nat {
    if l == [] then 0 else Letters(l[..|l| - 1], j) + One(l[|l| - 1].job, j)
  }

  // ---------------------------------------------------------------- sums over goroutines

  lemma {:induction false} CountUpdate(ps: seq<Pc>, f: Pc -> bool, i: nat, x: Pc)
    requires i < |ps|
    ensures Count(ps[i := x], f) == Count(ps, f) - Bit(f(ps[i])) + Bit(f(x))
  {
    var n := |ps| - 1;
    if i == n {
      assert ps[i := x][..n] == ps[..n];
    } else {
      CountUpdate(ps[..n], f, i, x);
      assert ps[i := x][..n] == ps[..n][i := x];
    }
  }

  lemma {:induction false} CountPush(ps: seq<Pc>, f: Pc -> bool, x: Pc)
    ensures Count(ps + [x], f) == Count(ps, f) + Bit(f(x))
  {
    assert (ps + [x])[..|ps|] == ps;
  }

  lemma {:induction false} HeldUpdate(ps: seq<Pc>, i: nat, x: Pc, j: Job)
    requires i < |ps|
    ensures HeldBy(ps[i := x], j) == HeldBy(ps, j) - HeldOne(ps[i], j) + HeldOne(x, j)
  {
    var n := |ps| - 1;
    if i == n {
      assert ps[i := x][..n] == ps[..n];
    } else {
      HeldUpdate(ps[..n], i, x, j);
      assert ps[i := x][..n] == ps[..n][i := x];
    }
  }

  lemma {:induction false} HeldPush(ps: seq<Pc>, x: Pc, j: Job)
    ensures HeldBy(ps + [x], j) == HeldBy(ps, j) + HeldOne(x, j)
  {
    assert (ps + [x])[..|ps|] == ps;
  }

  lemma {:induction false} CopiesPush(l: seq<Payload>, p: Payload, j: Job)
    ensures Copies(l + [p], j) == Copies(l, j) + One(p.job, j)
  {
    assert (l + [p])[..|l|] == l;
  }

  lemma {:induction false} CopiesPop(l: seq<Payload>, j: Job)
    requires l != []
    ensures Copies(l, j) == One(l[0].job, j) + Copies(l[1..], j)
  {
    var n := |l| - 1;
    if n > 0 {
      CopiesPop(l[..n], j);
      assert l[..n][1..] == l[1..][..n - 1];
    }
  }

  lemma {:induction false} LettersPush(l: seq<DeadEntry>, e: DeadEntry, j: Job)
    ensures Letters(l + [e], j) == Letters(l, j) + One(e.job, j)
  {
    assert (l + [e])[..|l|] == l;
  }

  // ---------------------------------------------------------------- the counters

  /** Retries waiting to come back, corrected by the counter updates still to come. */
  ghost function Owed(ps: seq<Pc>): int {
    Count(ps, AwaitsRetry) + Count(ps, OwesDecrement) - Count(ps, OwesIncrement)
  }

  ghost predicate PendingExact(s: State) {
    s.sh.pending == |s.sh.buffer| + Owed(s.procs)
  }

  ghost predicate ActiveExact(s: State) {
    s.sh.active == Count(s.procs, InHandler)
  }

  ghost predicate Exact(s: State) {
    PendingExact(s) && ActiveExact(s)
  }

  /** One goroutine's share of pending beyond the channel. */
  ghost function Owes(pc: Pc): int {
    Bit(AwaitsRetry(pc)) + Bit(OwesDecrement(pc)) - Bit(OwesIncrement(pc))
  }

  lemma {:induction false} CountsUpdate(ps: seq<Pc>, i: nat, x: Pc)
    requires i < |ps|
    ensures Owed(ps[i := x]) == Owed(ps) - Owes(ps[i]) + Owes(x)
    ensures Count(ps[i := x], InHandler) == Count(ps, InHandler) - Bit(InHandler(ps[i])) + Bit(InHandler(x))
  {
    CountUpdate(ps, AwaitsRetry, i, x);
    CountUpdate(ps, OwesDecrement, i, x);
    CountUpdate(ps, OwesIncrement, i, x);
    CountUpdate(ps, InHandler, i, x);
  }

  lemma {:induction false} CountsPush(ps: seq<Pc>, x: Pc)
    ensures Owed(ps + [x]) == Owed(ps) + Owes(x)
    ensures Count(ps + [x], InHandler) == Count(ps, InHandler) + Bit(InHandler(x))
  {
    CountPush(ps, AwaitsRetry, x);
    CountPush(ps, OwesDecrement, x);
    CountPush(ps, OwesIncrement, x);
    CountPush(ps, InHandler, x);
  }

  /** How an effect moves pending relative to the channel's length. */
  ghost function Gain(sh: Shared, f: Effect): int {
    match f
    case Admit(_) => 0 - 1
    case Resend(_) => 0 - 1
    case Receive => if sh.buffer == [] then 0 else 1
    case Up => 1
    case Down => 0 - 1
    case Forget(_) => 0 - 1
    case _ => 0
  }

  lemma {:induction false} PerformGains(sh: Shared, f: Effect)
    ensures var sh' := Perform(sh, f);
      && sh'.pending - |sh'.buffer| == sh.pending - |sh.buffer| + Gain(sh, f)
      && sh'.active == sh.active + Bit(f.Enter?) - Bit(f.Exit?)
  {
  }

  /** Every step moves pending and the goroutine together; a spawned retry takes its share along. */
  lemma {:induction false} MoveBalances(cfg: Config, sh: Shared, pc: Pc, c: Choice)
    ensures var m := Next(cfg, sh, pc, c); Owes(m.pc) + Bit(m.effect.Spawn?) == Owes(pc) + Gain(sh, m.effect)
  {
  }

  /** The same for active. */
  lemma {:induction false} MoveEnters(cfg: Config, sh: Shared, pc: Pc, c: Choice)
    ensures var m := Next(cfg, sh, pc, c);
      Bit(InHandler(m.pc)) == Bit(InHandler(pc)) + Bit(m.effect.Enter?) - Bit(m.effect.Exit?)
  {
  }

  lemma {:induction false} StepExact(cfg: Config, s: State, i: nat, c: Choice)
    requires Exact(s) && i < |s.procs|
    ensures Exact(Advance(cfg, s, i, c))
  {
    var m := Next(cfg, s.sh, s.procs[i], c);
    MoveBalances(cfg, s.sh, s.procs[i], c);
    MoveEnters(cfg, s.sh, s.procs[i], c);
    PerformGains(s.sh, m.effect);
    CountsUpdate(s.procs, i, m.pc);
    if m.effect.Spawn? { CountsPush(s.procs[i := m.pc], Ticking(m.effect.p)); }
  }

  /** A goroutine that has touched nothing yet changes no count. */
  lemma {:induction false} NewcomerExact(s: State, x: Pc)
    requires Exact(s) && Owes(x) == 0 && !InHandler(x)
    ensures Exact(State(s.sh, s.procs + [x]))
  {
    var ps := s.procs + [x];
    CountsPush(s.procs, x);
    assert Owed(ps) == Owed(s.procs);
  }

  lemma {:induction false} EventExact(cfg: Config, s: State, e: Event)
    requires Exact(s)
    ensures Exact(Apply(cfg, s, e))
  {
    match e
    case Call(j) => NewcomerExact(s, Calling(j));
    case Boot => NewcomerExact(s, Idle);
    case Close => NewcomerExact(s, Stopping);
    case Step(i, c) => if i < |s.procs| { StepExact(cfg, s, i, c); }
  }

  /** In every interleaving, Close included, both counters are off by exactly the updates still to come. */
  lemma {:induction false} CountersExact(cfg: Config, es: seq<Event>)
    ensures PendingExact(After(cfg, es)) && ActiveExact(After(cfg, es))
  {
    if es != [] {
      CountersExact(cfg, es[..|es| - 1]);
      EventExact(cfg, After(cfg, es[..|es| - 1]), es[|es| - 1]);
    }
  }

  lemma {:induction false} CountZero(ps: seq<Pc>, f: Pc -> bool)
    ensures Count(ps, f) == 0 <==> forall i :: 0 <= i < |ps| ==> !f(ps[i])
  {
    if ps != [] {
      var n := |ps| - 1;
      CountZero(ps[..n], f);
      assert forall i :: 0 <= i < n ==> ps[..n][i] == ps[i];
    }
  }

  /** QueueDepth is buffered plus waiting exactly when as many increments as decrements are still to come. */
  lemma {:induction false} DepthExactIff(cfg: Config, es: seq<Event>)
    ensures var s := After(cfg, es);
      s.sh.pending == |s.sh.buffer| + Count(s.procs, AwaitsRetry) <==> Count(s.procs, OwesIncrement) == Count(s.procs, OwesDecrement)
  {
    CountersExact(cfg, es);
  }

  /** With no goroutine between a channel operation and its update, QueueDepth is buffered plus waiting. */
  lemma {:induction false} DepthExactWhenSettled(cfg: Config, es: seq<Event>)
    requires forall i :: 0 <= i < |After(cfg, es).procs| ==>
      !OwesIncrement(After(cfg, es).procs[i]) && !OwesDecrement(After(cfg, es).procs[i])
    ensures After(cfg, es).sh.pending == |After(cfg, es).sh.buffer| + Count(After(cfg, es).procs, AwaitsRetry)
  {
    CountersExact(cfg, es);
    CountZero(After(cfg, es).procs, OwesIncrement);
    CountZero(After(cfg, es).procs, OwesDecrement);
  }

  /** Two goroutines at a and b; the one at i makes the move m. */
  lemma {:induction false} PairStep(cfg: Config, es: seq<Event>, sh: Shared, a: Pc, b: Pc, i: nat, c: Choice, m: Move)
    requires After(cfg, es) == State(sh, [a, b]) && i < 2 && !m.effect.Spawn?
    requires Next(cfg, sh, if i == 0 then a else b, c) == m
    ensures After(cfg, es + [Step(i, c)]) ==
      State(Perform(sh, m.effect), if i == 0 then [m.pc, b] else [a, m.pc])
  {
    assert (es + [Step(i, c)])[..|es|] == es;
    assert [a, b][i := m.pc] == if i == 0 then [m.pc, b] else [a, m.pc];
  }

  lemma {:induction false} OneSent(cfg: Config, j: Job) returns (es: seq<Event>)
    requires cfg.buffer > 0 && cfg.deadLetterMax > 0
    ensures After(cfg, es) == State(Perform(Init.sh, Admit(j)), [Idle, Sent(j)])
  {
    var e0 := [Boot] + [Call(j)];
    assert e0[..1] == [Boot] && After(cfg, [Boot]) == State(Init.sh, [Idle]);
    assert After(cfg, e0) == State(Init.sh, [Idle, Calling(j)]);
    var e1 := e0 + [Step(1, Go)];
    PairStep(cfg, e0, Init.sh, Idle, Calling(j), 1, Go, Move(Admitting(j), Nothing));
    var e2 := e1 + [Step(1, Depth(0))];
    PairStep(cfg, e1, Init.sh, Idle, Admitting(j), 1, Depth(0), Move(Offering(j), Nothing));
    es := e2 + [Step(1, Go)];
    PairStep(cfg, e2, Init.sh, Idle, Offering(j), 1, Go, Move(Sent(j), Admit(j)));
  }

  /** QueueDepth can be negative: a worker may count a job out before its caller has counted it in. */
  lemma {:induction false} DepthCanBeNegative(cfg: Config, j: Job)
    requires cfg.buffer > 0 && cfg.deadLetterMax > 0
    ensures exists es :: After(cfg, es).sh.pending == -1
  {
    var es := OneSent(cfg, j);
    var sent := Perform(Init.sh, Admit(j));
    var es' := es + [Step(0, Go)];
    PairStep(cfg, es, sent, Idle, Sent(j), 0, Go, Move(Taken(Payload(j, 0)), Receive));
    PairStep(cfg, es', Perform(sent, Receive), Taken(Payload(j, 0)), Sent(j), 0, Go, Move(Starting(Payload(j, 0)), Down));
    assert After(cfg, es' + [Step(0, Go)]).sh.pending == -1;
  }

  // ---------------------------------------------------------------- where every job is

  /** Copies of j in shared places, accepted ones counted against them. */
  ghost function Resting(sh: Shared, j: Job): int {
    Copies(sh.buffer, j) + Copies(sh.acked, j) + Letters(sh.dead, j) + sh.lost[j] - sh.accepted[j]
  }

  /** Each accepted copy is on the channel, in one goroutine's hands, acked, buried or lost: once. */
  ghost predicate Accounted(s: State, j: Job) {
    s.sh.accepted[j] == Copies(s.sh.buffer, j) + HeldBy(s.procs, j)
                        + Copies(s.sh.acked, j) + Letters(s.sh.dead, j) + s.sh.lost[j]
  }

  /** What an effect takes out of, or puts into, the shared places. */
  ghost function Drawn(sh: Shared, f: Effect, j: Job): int {
    match f
    case Receive => if sh.buffer == [] then 0 else One(sh.buffer[0].job, j)
    case Resend(p) => 0 - One(p.job, j)
    case Forget(k) => 0 - One(k, j)
    case Finish(p) => 0 - One(p.job, j)
    case Bury(e) => 0 - One(e.job, j)
    case Refuse(k) => 0 - One(k, j)
    case _ => 0
  }

  lemma {:induction false} PerformDraws(sh: Shared, f: Effect, j: Job)
    ensures Resting(Perform(sh, f), j) == Resting(sh, j) - Drawn(sh, f, j)
  {
    match f
    case Admit(k) => CopiesPush(sh.buffer, Payload(k, 0), j);
    case Resend(p) => CopiesPush(sh.buffer, p, j);
    case Receive => if sh.buffer != [] { CopiesPop(sh.buffer, j); }
    case Finish(p) => CopiesPush(sh.acked, p, j);
    case Bury(e) => LettersPush(sh.dead, e, j);
    case _ =>
  }

  lemma {:induction false} MoveCarries(cfg: Config, sh: Shared, pc: Pc, c: Choice, j: Job)
    ensures var m := Next(cfg, sh, pc, c);
      HeldOne(m.pc, j) + (if m.effect.Spawn? then One(m.effect.p.job, j) else 0)
        == HeldOne(pc, j) + Drawn(sh, m.effect, j)
  {
  }

  lemma {:induction false} StepAccounts(cfg: Config, s: State, i: nat, c: Choice, j: Job)
    requires Accounted(s, j) && i < |s.procs|
    ensures Accounted(Advance(cfg, s, i, c), j)
  {
    var m := Next(cfg, s.sh, s.procs[i], c);
    MoveCarries(cfg, s.sh, s.procs[i], c, j);
    PerformDraws(s.sh, m.effect, j);
    HeldUpdate(s.procs, i, m.pc, j);
    if m.effect.Spawn? { HeldPush(s.procs[i := m.pc], Ticking(m.effect.p), j); }
  }

  lemma {:induction false} EventAccounts(cfg: Config, s: State, e: Event, j: Job)
    requires Accounted(s, j)
    ensures Accounted(Apply(cfg, s, e), j)
  {
    match e
    case Call(k) => NewcomerAccounts(s, Calling(k), j);
    case Boot => NewcomerAccounts(s, Idle, j);
    case Close => NewcomerAccounts(s, Stopping, j);
    case Step(i, c) => if i < |s.procs| { StepAccounts(cfg, s, i, c, j); }
  }

  lemma {:induction false} NewcomerAccounts(s: State, x: Pc, j: Job)
    requires Accounted(s, j) && Held(x).None?
    ensures Accounted(State(s.sh, s.procs + [x]), j)
  {
    HeldPush(s.procs, x, j);
  }

  /** Program points only reached once Close has been called. */
  predicate AfterClose(pc: Pc) {
    pc.Abandoning? || pc.Stopping? || pc.Draining? || pc.Drained?
  }

  ghost predicate LossExplained(s: State) {
    && (s.sh.lost != multiset{} ==> s.sh.closed || s.sh.sinkFailed)
    && (s.sh.stopped ==> s.sh.closed)
    && (forall i :: 0 <= i < |s.procs| && AfterClose(s.procs[i]) ==> s.sh.closed)
  }

  lemma {:induction false} PerformLoses(sh: Shared, f: Effect)
    ensures var sh' := Perform(sh, f);
      && sh'.closed == sh.closed && sh'.stopped == (sh.stopped || f.Stop?)
      && sh'.sinkFailed == (sh.sinkFailed || f.Refuse?)
      && (f.Forget? || f.Refuse? || sh'.lost == sh.lost)
  {
  }

  lemma {:induction false} MoveNeedsClose(cfg: Config, sh: Shared, pc: Pc, c: Choice)
    ensures var m := Next(cfg, sh, pc, c);
      (m.effect.Forget? || m.effect.Stop? || AfterClose(m.pc)) ==> AfterClose(pc) || sh.stopped
  {
  }

  lemma {:induction false} LossStaysExplained(cfg: Config, s: State, e: Event)
    requires LossExplained(s)
    ensures LossExplained(Apply(cfg, s, e))
  {
    if e.Step? && e.i < |s.procs| {
      MoveNeedsClose(cfg, s.sh, s.procs[e.i], e.choice);
      PerformLoses(s.sh, Next(cfg, s.sh, s.procs[e.i], e.choice).effect);
    }
  }

  /**
   * Every accepted copy is at all times in exactly one place, and as long as Close has not been called and the
   * dead-letter sink accepts what it is given, none of them is a lost one.
   */
  lemma {:induction false} NoCopyLost(cfg: Config, es: seq<Event>, j: Job)
    ensures Accounted(After(cfg, es), j)
    ensures LossExplained(After(cfg, es))
  {
    if es != [] {
      NoCopyLost(cfg, es[..|es| - 1], j);
      EventAccounts(cfg, After(cfg, es[..|es| - 1]), es[|es| - 1], j);
      LossStaysExplained(cfg, After(cfg, es[..|es| - 1]), es[|es| - 1]);
    }
  }

  // ---------------------------------------------------------------- order

  lemma {:induction false} PerformInOrder(sh: Shared, f: Effect)
    requires sh.sends == sh.takes + sh.buffer
    ensures Perform(sh, f).sends == Perform(sh, f).takes + Perform(sh, f).buffer
  {
    if f.Receive? && sh.buffer != [] {
      assert sh.buffer == [sh.buffer[0]] + sh.buffer[1..];
    }
  }

  /** The channel is first in, first out across every goroutine that uses it. */
  lemma {:induction false} TakesArePrefixOfSends(cfg: Config, es: seq<Event>)
    ensures After(cfg, es).sh.sends == After(cfg, es).sh.takes + After(cfg, es).sh.buffer
  {
    if es != [] {
      TakesArePrefixOfSends(cfg, es[..|es| - 1]);
      var s, e := After(cfg, es[..|es| - 1]), es[|es| - 1];
      if e.Step? && e.i < |s.procs| {
        PerformInOrder(s.sh, Next(cfg, s.sh, s.procs[e.i], e.choice).effect);
      }
    }
  }
}
