/** How often the in-process driver hands a job to its handler. */
module MemqHandlings {
  import opened QueueTypes
  import opened MemqProtocol
  import opened MemqCounters

  /** The event is the handler's answer to a delivery of j. */
  predicate Handles(s: State, e: Event, j: Job) {
    e.Step? && e.i < |s.procs| && s.procs[e.i].Running? && s.procs[e.i].p.job == j && e.choice.Answer?
  }

  ghost function Handlings(cfg: Config, es: seq<Event>, j: Job): nat {
    if es == [] then 0
    else Handlings(cfg, es[..|es| - 1], j) + Bit(Handles(After(cfg, es[..|es| - 1]), es[|es| - 1], j))
  }

  // ---------------------------------------------------------------- attempts left

  /** Handlings a copy still has in it. */
  function Left(max: nat, p: Payload, j: Job): int {
    if p.job == j then max + 1 - p.attempts else 0
  }

  function LeftHeld(max: nat, pc: Pc, j: Job): int {
    if Held(pc).Some? then Left(max, Held(pc).value, j) else 0
  }

  function LeftIn(max: nat, l: seq<Payload>, j: Job): int {
    if l == [] then 0 else LeftIn(max, l[..|l| - 1], j) + Left(max, l[|l| - 1], j)
  }

  function LeftWith(max: nat, ps: seq<Pc>, j: Job): int {
    if ps == [] then 0 else LeftWith(max, ps[..|ps| - 1], j) + LeftHeld(max, ps[|ps| - 1], j)
  }

  lemma {:induction false} LeftPush(max: nat, l: seq<Payload>, p: Payload, j: Job)
    ensures LeftIn(max, l + [p], j) == LeftIn(max, l, j) + Left(max, p, j)
  {
    assert (l + [p])[..|l|] == l;
  }

  lemma {:induction false} LeftPop(max: nat, l: seq<Payload>, j: Job)
    requires l != []
    ensures LeftIn(max, l, j) == Left(max, l[0], j) + LeftIn(max, l[1..], j)
  {
    var n := |l| - 1;
    if n > 0 {
      LeftPop(max, l[..n], j);
      assert l[..n][1..] == l[1..][..n - 1];
    }
  }

  lemma {:induction false} LeftUpdate(max: nat, ps: seq<Pc>, i: nat, x: Pc, j: Job)
    requires i < |ps|
    ensures LeftWith(max, ps[i := x], j) == LeftWith(max, ps, j) - LeftHeld(max, ps[i], j) + LeftHeld(max, x, j)
  {
    var n := |ps| - 1;
    if i == n {
      assert ps[i := x][..n] == ps[..n];
    } else {
      LeftUpdate(max, ps[..n], i, x, j);
      assert ps[i := x][..n] == ps[..n][i := x];
    }
  }

  lemma {:induction false} LeftNewcomer(max: nat, ps: seq<Pc>, x: Pc, j: Job)
    ensures LeftWith(max, ps + [x], j) == LeftWith(max, ps, j) + LeftHeld(max, x, j)
  {
    assert (ps + [x])[..|ps|] == ps;
  }

  // ---------------------------------------------------------------- copies within the limit

  predicate PcWithin(max: nat, pc: Pc) {
    Held(pc).Some? ==> Held(pc).value.attempts <= if pc.Burying? then max + 1 else max
  }

  ghost predicate AllWithin(max: nat, s: State) {
    && (forall p :: p in s.sh.buffer ==> p.attempts <= max)
    && (forall i :: 0 <= i < |s.procs| ==> PcWithin(max, s.procs[i]))
  }

  predicate EffectWithin(max: nat, f: Effect) {
    f.Resend? || f.Spawn? ==> f.p.attempts <= max
  }

  lemma {:induction false} MoveWithin(cfg: Config, sh: Shared, pc: Pc, c: Choice)
    requires PcWithin(cfg.maxRetries, pc) && forall p :: p in sh.buffer ==> p.attempts <= cfg.maxRetries
    ensures var m := Next(cfg, sh, pc, c);
      PcWithin(cfg.maxRetries, m.pc) && EffectWithin(cfg.maxRetries, m.effect)
  {
  }

  lemma {:induction false} PerformWithin(max: nat, sh: Shared, f: Effect)
    requires EffectWithin(max, f) && forall p :: p in sh.buffer ==> p.attempts <= max
    ensures forall p :: p in Perform(sh, f).buffer ==> p.attempts <= max
  {
  }

  lemma {:induction false} RunWithin(cfg: Config, es: seq<Event>)
    ensures AllWithin(cfg.maxRetries, After(cfg, es))
  {
    if es != [] {
      var s, e := After(cfg, es[..|es| - 1]), es[|es| - 1];
      RunWithin(cfg, es[..|es| - 1]);
      if e.Step? && e.i < |s.procs| {
        MoveWithin(cfg, s.sh, s.procs[e.i], e.choice);
        PerformWithin(cfg.maxRetries, s.sh, Next(cfg, s.sh, s.procs[e.i], e.choice).effect);
      }
    }
  }

  // ---------------------------------------------------------------- every handling uses one up

  /** What n copies start with. */
  ghost function Allowance(max: nat, n: nat): nat {
    if n == 0 then 0 else Allowance(max, n - 1) + max + 1
  }

  /** What an effect takes from the channel, less what it puts there beyond a new job's allowance. */
  ghost function Taken(max: nat, sh: Shared, f: Effect, j: Job): int {
    match f
    case Receive => if sh.buffer == [] then 0 else Left(max, sh.buffer[0], j)
    case Resend(p) => 0 - Left(max, p, j)
    case _ => 0
  }

  lemma {:induction false} PerformTakes(max: nat, sh: Shared, f: Effect, j: Job)
    ensures var sh' := Perform(sh, f);
      LeftIn(max, sh'.buffer, j) - Allowance(max, sh'.accepted[j])
        == LeftIn(max, sh.buffer, j) - Allowance(max, sh.accepted[j]) - Taken(max, sh, f, j)
  {
    match f
    case Admit(k) =>
      LeftPush(max, sh.buffer, Payload(k, 0), j);
    case Resend(p) => LeftPush(max, sh.buffer, p, j);
    case Receive => if sh.buffer != [] { LeftPop(max, sh.buffer, j); }
    case _ =>
  }

  lemma {:induction false} AllowanceIsProduct(max: nat, n: nat)
    ensures Allowance(max, n) == (max + 1) * n
  {
    if n > 0 {
      AllowanceIsProduct(max, n - 1);
      assert (max + 1) * n == (max + 1) * (n - 1) + (max + 1);
    }
  }

  /** A goroutine's step passes on what its copy has left, less the handling it makes. */
  lemma {:induction false} MoveUses(cfg: Config, sh: Shared, pc: Pc, c: Choice, j: Job)
    requires PcWithin(cfg.maxRetries, pc)
    ensures var max, m := cfg.maxRetries, Next(cfg, sh, pc, c);
      LeftHeld(max, m.pc, j) + (if m.effect.Spawn? then Left(max, m.effect.p, j) else 0)
        + Bit(pc.Running? && pc.p.job == j && c.Answer?)
      <= LeftHeld(max, pc, j) + Taken(max, sh, m.effect, j)
  {
  }

  /** Handlings so far and handlings left stay within what the accepted copies started with. */
  ghost predicate Paid(max: nat, s: State, n: nat, j: Job) {
    n + LeftIn(max, s.sh.buffer, j) + LeftWith(max, s.procs, j) <= Allowance(max, s.sh.accepted[j])
  }

  lemma {:induction false} AdvancePays(cfg: Config, s: State, i: nat, c: Choice, n: nat, j: Job)
    requires Paid(cfg.maxRetries, s, n, j) && AllWithin(cfg.maxRetries, s) && i < |s.procs|
    ensures Paid(cfg.maxRetries, Advance(cfg, s, i, c), n + Bit(Handles(s, Step(i, c), j)), j)
  {
    var max, m := cfg.maxRetries, Next(cfg, s.sh, s.procs[i], c);
    PerformTakes(max, s.sh, m.effect, j);
    ProcsUse(cfg, s, i, c, j);
    var s' := Advance(cfg, s, i, c);
    Balance(n, Bit(Handles(s, Step(i, c), j)), LeftIn(max, s.sh.buffer, j), LeftIn(max, s'.sh.buffer, j),
      LeftWith(max, s.procs, j), LeftWith(max, s'.procs, j), Taken(max, s.sh, m.effect, j),
      Allowance(max, s.sh.accepted[j]), Allowance(max, s'.sh.accepted[j]));
  }

  lemma {:induction false} ProcsUse(cfg: Config, s: State, i: nat, c: Choice, j: Job)
    requires i < |s.procs| && PcWithin(cfg.maxRetries, s.procs[i])
    ensures var max := cfg.maxRetries;
      LeftWith(max, Advance(cfg, s, i, c).procs, j) + Bit(Handles(s, Step(i, c), j))
      <= LeftWith(max, s.procs, j) + Taken(max, s.sh, Next(cfg, s.sh, s.procs[i], c).effect, j)
  {
    var max, m := cfg.maxRetries, Next(cfg, s.sh, s.procs[i], c);
    MoveUses(cfg, s.sh, s.procs[i], c, j);
    LeftUpdate(max, s.procs, i, m.pc, j);
    if m.effect.Spawn? { LeftNewcomer(max, s.procs[i := m.pc], Ticking(m.effect.p), j); }
  }

  lemma {:induction false} Balance(n: int, used: int, l: int, l': int, w: int, w': int, taken: int, g: int, g': int)
    requires n + l + w <= g && l' - g' == l - g - taken && w' + used <= w + taken
    ensures n + used + l' + w' <= g'
  {
  }

  lemma {:induction false} NewcomerPays(max: nat, s: State, x: Pc, n: nat, j: Job)
    requires Paid(max, s, n, j) && Held(x).None?
    ensures Paid(max, State(s.sh, s.procs + [x]), n, j)
  {
    LeftNewcomer(max, s.procs, x, j);
  }

  lemma {:induction false} EventPays(cfg: Config, s: State, e: Event, n: nat, j: Job)
    requires Paid(cfg.maxRetries, s, n, j) && AllWithin(cfg.maxRetries, s)
    ensures Paid(cfg.maxRetries, Apply(cfg, s, e), n + Bit(Handles(s, e, j)), j)
  {
    match e
    case Call(k) => NewcomerPays(cfg.maxRetries, s, Calling(k), n, j);
    case Boot => NewcomerPays(cfg.maxRetries, s, Idle, n, j);
    case Close => NewcomerPays(cfg.maxRetries, s, Stopping, n, j);
    case Step(i, c) => if i < |s.procs| { AdvancePays(cfg, s, i, c, n, j); }
  }

  lemma {:induction false} RunPays(cfg: Config, es: seq<Event>, j: Job)
    ensures Paid(cfg.maxRetries, After(cfg, es), Handlings(cfg, es, j), j)
  {
    if es != [] {
      var s := After(cfg, es[..|es| - 1]);
      RunPays(cfg, es[..|es| - 1], j);
      RunWithin(cfg, es[..|es| - 1]);
      EventPays(cfg, s, es[|es| - 1], Handlings(cfg, es[..|es| - 1], j), j);
    }
  }

  lemma {:induction false} LeftInPositive(max: nat, l: seq<Payload>, j: Job)
    requires forall p :: p in l ==> p.attempts <= max
    ensures LeftIn(max, l, j) >= 0
  {
    if l != [] { LeftInPositive(max, l[..|l| - 1], j); }
  }

  lemma {:induction false} LeftWithPositive(max: nat, ps: seq<Pc>, j: Job)
    requires forall i :: 0 <= i < |ps| ==> PcWithin(max, ps[i])
    ensures LeftWith(max, ps, j) >= 0
  {
    if ps != [] { LeftWithPositive(max, ps[..|ps| - 1], j); }
  }

  lemma {:induction false} HandledWithinAllowance(cfg: Config, es: seq<Event>, j: Job)
    ensures Handlings(cfg, es, j) <= Allowance(cfg.maxRetries, After(cfg, es).sh.accepted[j])
  {
    RunPays(cfg, es, j);
    RunWithin(cfg, es);
    LeftInPositive(cfg.maxRetries, After(cfg, es).sh.buffer, j);
    LeftWithPositive(cfg.maxRetries, After(cfg, es).procs, j);
  }

  /**
   * In every interleaving, Close included, and whatever the handler answers: a job is handled at most
   * MaxRetries + 1 times for each time it was accepted.
   */
  lemma {:induction false} HandledWithinLimit(cfg: Config, es: seq<Event>, j: Job)
    ensures Handlings(cfg, es, j) <= (cfg.maxRetries + 1) * After(cfg, es).sh.accepted[j]
  {
    HandledWithinAllowance(cfg, es, j);
    AllowanceIsProduct(cfg.maxRetries, After(cfg, es).sh.accepted[j]);
  }
}
