/** Claim order: first in, first out until something is put back, and what putting back does to it. */
module RedisOrder {
  import opened QueueTypes
  import opened RedisProtocol

  function Rev(l: seq<Payload>): seq<Payload> {
    if l == [] then [] else Rev(l[1..]) + [l[0]]
  }

  lemma {:induction false} RevConcat(a: seq<Payload>, b: seq<Payload>)
    ensures Rev(a + b) == Rev(b) + Rev(a)
  {
    if a == [] {
      assert a + b == b;
    } else {
      RevConcat(a[1..], b);
      assert (a + b)[1..] == a[1..] + b;
    }
  }

  lemma {:induction false} RevRev(l: seq<Payload>)
    ensures Rev(Rev(l)) == l
  {
    if l != [] {
      RevRev(l[1..]);
      RevConcat(Rev(l[1..]), [l[0]]);
      assert Rev([l[0]]) == [l[0]];
    }
  }

  lemma RevAt(l: seq<Payload>)
    ensures |Rev(l)| == |l|
    ensures forall k :: 0 <= k < |l| ==> Rev(l)[k] == l[|l| - 1 - k]
  {
  }

  /** The event puts a payload back on pending: a promoted retry or a drained claim. */
  predicate Reinserts(s: State, e: Event) {
    match e
    case Move(_, Push(_)) => true
    case Keep(i, DrainOwn(_)) => s.redis.Processing(i) != []
    case Keep(i, DrainStale(_)) =>
      i in s.live && s.live[i].keeper.Draining? && s.live[i].keeper.stale != []
      && s.redis.Processing(s.live[i].keeper.stale[0]) != []
    case _ => false
  }

  ghost predicate FifoRun(cfg: Config, legacy: seq<Payload>, es: seq<Event>) {
    forall k :: 0 <= k < |es| ==> !Reinserts(After(cfg, legacy, es[..k]), es[k])
  }

  ghost predicate InOrder(s: State) {
    s.claims + Rev(s.redis.pending) == s.pushes
  }

  lemma {:induction false} ClaimInOrder(s: State, i: Instance, w: nat, reply: Reply)
    requires i in s.live && s.redis.pending != [] && InOrder(s)
    ensures InOrder(Claimed(s, i, w, reply))
  {
    var n := |s.redis.pending| - 1;
    var init, last := s.redis.pending[..n], s.redis.pending[n];
    assert s.redis.pending == init + [last];
    RevConcat(init, [last]);
    assert Rev([last]) == [last];
    if reply.Applied() {
      assert s.claims + Rev(s.redis.pending) == (s.claims + [last]) + Rev(init);
    }
  }

  lemma {:induction false} EnqueueInOrder(s: State, j: Job, reply: Reply)
    requires InOrder(s)
    ensures InOrder(Enqueued(s, j, reply))
  {
    var p := Payload(j, 0);
    if reply.Applied() {
      assert ([p] + s.redis.pending)[1..] == s.redis.pending;
      assert s.claims + (Rev(s.redis.pending) + [p]) == (s.claims + Rev(s.redis.pending)) + [p];
    }
  }

  lemma {:induction false} KeeperInOrder(s: State, i: Instance, k: KeeperStep)
    requires KeeperEnabled(s, i, k) && InOrder(s) && !Reinserts(s, Keep(i, k))
    ensures InOrder(KeeperApply(s, i, k))
  {
  }

  lemma {:induction false} WorkerInOrder(cfg: Config, s: State, i: Instance, w: nat, k: WorkerStep)
    requires WorkerEnabled(s, i, w, k) && InOrder(s)
    ensures InOrder(WorkerApply(cfg, s, i, w, k))
  {
    if k.Claim? { ClaimInOrder(s, i, w, k.reply); }
  }

  lemma {:induction false} MoverInOrder(s: State, i: Instance, k: MoverStep)
    requires MoverEnabled(s, i, k) && InOrder(s) && !Reinserts(s, Move(i, k))
    ensures InOrder(MoverApply(s, i, k))
  {
  }

  lemma {:induction false} StepInOrder(cfg: Config, s: State, e: Event)
    requires InOrder(s) && !Reinserts(s, e)
    ensures InOrder(Apply(cfg, s, e))
  {
    if Enabled(cfg, s, e) {
      match e
      case Keep(i, k) => KeeperInOrder(s, i, k);
      case Work(i, w, k) => WorkerInOrder(cfg, s, i, w, k);
      case Move(i, k) => MoverInOrder(s, i, k);
      case Enqueue(j, _, reply) => EnqueueInOrder(s, j, reply);
      case _ =>
    }
  }

  /** Without promoted retries and without drained claims, the payloads claimed by all replicas together,
      in claim order, are a prefix of the payloads enqueued, in enqueue order. */
  lemma {:induction false} ClaimsAreEnqueuePrefix(cfg: Config, legacy: seq<Payload>, es: seq<Event>)
    requires FifoRun(cfg, legacy, es)
    ensures After(cfg, legacy, es).claims <= After(cfg, legacy, es).pushes
    ensures InOrder(After(cfg, legacy, es))
  {
    if es != [] {
      var n := |es| - 1;
      forall k | 0 <= k < n
        ensures !Reinserts(After(cfg, legacy, es[..n][..k]), es[..n][k])
      {
        assert es[..n][..k] == es[..k];
      }
      ClaimsAreEnqueuePrefix(cfg, legacy, es[..n]);
      StepInOrder(cfg, After(cfg, legacy, es[..n]), es[n]);
    }
  }

  // ---------------------------------------------------------------- drainProcessing

  /** The two lists drainProcessing works on. */
  class ListPair {
    var pending: seq<Payload>
    var processing: seq<Payload>

    constructor (pending: seq<Payload>, processing: seq<Payload>)
      ensures this.pending == pending && this.processing == processing
    {
      this.pending, this.processing := pending, processing;
    }

    /** Moves the whole processing list to the right end of pending, tail first. `calls` bounds how many
        commands succeed before the client reports an error. */
    method DrainProcessing(calls: nat) returns (n: nat, ok: bool)
      modifies this
      ensures n <= |old(processing)|
      ensures processing == old(processing)[..|old(processing)| - n]
      ensures pending == old(pending) + Rev(old(processing)[|old(processing)| - n..])
      ensures ok ==> n == |old(processing)|
      ensures ok <==> |old(processing)| < calls
    {
      n, ok := 0, false;
      ghost var all := processing;
      assert Rev(all[|all|..]) == [];
      while n < calls
        invariant n <= |all| && n <= calls
        invariant processing == all[..|all| - n]
        invariant pending == old(pending) + Rev(all[|all| - n..])
        decreases calls - n
      {
        if processing == [] {
          ok := true;
          return;
        }
        var last := |processing| - 1;
        ghost var kept := all[|all| - n..];
        assert all[last..] == [all[last]] + kept;
        RevConcat([all[last]], kept);
        assert Rev([all[last]]) == [all[last]];
        pending, processing := pending + [processing[last]], processing[..last];
        n := n + 1;
      }
    }
  }

  /** Tail-popping pending after a full drain hands out the drained list from its left end, that is the
      latest claim first, and only then what was pending before. */
  lemma {:induction false} DrainedComeFirst(pending: seq<Payload>, processing: seq<Payload>)
    ensures Rev(pending + Rev(processing)) == processing + Rev(pending)
  {
    RevConcat(pending, Rev(processing));
    RevRev(processing);
  }

  /** The drained jobs come back in arrival order exactly when the list reads the same both ways, and for
      distinct entries that is exactly when it has at most one. */
  lemma {:induction false} ArrivalOrderKept(pending: seq<Payload>, processing: seq<Payload>)
    ensures Rev(pending + Rev(processing)) == Rev(processing) + Rev(pending) <==> processing == Rev(processing)
    ensures (forall a, b :: 0 <= a < b < |processing| ==> processing[a] != processing[b]) ==>
              (processing == Rev(processing) <==> |processing| <= 1)
  {
    DrainedComeFirst(pending, processing);
    RevAt(processing);
    var n := |processing|;
    if processing + Rev(pending) == Rev(processing) + Rev(pending) {
      assert processing == (processing + Rev(pending))[..n];
      assert Rev(processing) == (Rev(processing) + Rev(pending))[..n];
    }
    if 1 < n && processing == Rev(processing) {
      assert processing[0] == processing[n - 1];
    }
  }
}
