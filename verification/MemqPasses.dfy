/** What a caller, a worker, a retry timer and Close of the in-process driver achieve, and what admits a job. */
module MemqPasses {
  import opened QueueTypes
  import opened MemqProtocol

  // ---------------------------------------------------------------- the gates of Enqueue

  lemma {:induction false} AfterSnoc(cfg: Config, es: seq<Event>, e: Event)
    ensures After(cfg, es + [e]) == Apply(cfg, After(cfg, es), e)
  {
    assert (es + [e])[..|es|] == es;
  }

  /** Goroutine i looked at the closed flag in event a and found it clear. */
  predicate SawOpen(cfg: Config, es: seq<Event>, i: nat, a: nat) {
    a < |es| && es[a].Step? && es[a].i == i && !After(cfg, es[..a]).sh.closed
  }

  /** In event b it was told a dead-letter depth below the cap. */
  predicate SawRoom(cfg: Config, es: seq<Event>, i: nat, b: nat) {
    b < |es| && es[b].Step? && es[b].i == i && es[b].choice.Depth? && es[b].choice.n < cfg.deadLetterMax
  }

  ghost predicate PassedClosed(cfg: Config, es: seq<Event>, i: nat) {
    exists a: nat :: SawOpen(cfg, es, i, a)
  }

  /** It passed both gates, the closed flag first. */
  ghost predicate PassedBoth(cfg: Config, es: seq<Event>, i: nat) {
    exists a: nat, b: nat :: a < b && SawOpen(cfg, es, i, a) && SawRoom(cfg, es, i, b)
  }

  ghost predicate Vetted(cfg: Config, es: seq<Event>, i: nat)
  {
    var procs := After(cfg, es).procs;
    i < |procs| ==>
      && (procs[i].Admitting? ==> PassedClosed(cfg, es, i))
      && (procs[i].Offering? ==> PassedBoth(cfg, es, i))
  }

  lemma {:induction false} PassedStays(cfg: Config, es: seq<Event>, e: Event, i: nat)
    ensures PassedClosed(cfg, es, i) ==> PassedClosed(cfg, es + [e], i)
    ensures PassedBoth(cfg, es, i) ==> PassedBoth(cfg, es + [e], i)
  {
    var all := es + [e];
    assert forall a :: 0 <= a < |es| ==> all[a] == es[a] && all[..a] == es[..a];
    if a: nat :| SawOpen(cfg, es, i, a) { assert SawOpen(cfg, all, i, a); }
    if a: nat, b: nat :| a < b && SawOpen(cfg, es, i, a) && SawRoom(cfg, es, i, b) {
      assert SawOpen(cfg, all, i, a) && SawRoom(cfg, all, i, b);
    }
  }

  /** Where a goroutine stands after its own step, and how it can come to the gates. */
  lemma {:induction false} OwnStep(cfg: Config, s: State, i: nat, c: Choice)
    requires i < |s.procs|
    ensures var s', pc := Apply(cfg, s, Step(i, c)), Next(cfg, s.sh, s.procs[i], c).pc;
      && i < |s'.procs| && s'.procs[i] == pc
      && (pc.Admitting? ==> s.procs[i].Admitting? || (s.procs[i].Calling? && !s.sh.closed))
      && (pc.Offering? ==> s.procs[i].Admitting? && c.Depth? && c.n < cfg.deadLetterMax)
  {
    var m := Next(cfg, s.sh, s.procs[i], c);
    assert s.procs[i := m.pc][i] == m.pc;
  }

  lemma {:induction false} StepVets(cfg: Config, es: seq<Event>, i: nat, c: Choice)
    requires i < |After(cfg, es).procs| && Vetted(cfg, es, i)
    ensures Vetted(cfg, es + [Step(i, c)], i)
  {
    var e := Step(i, c);
    var s, all, n := After(cfg, es), es + [Step(i, c)], |es|;
    AfterSnoc(cfg, es, e);
    OwnStep(cfg, s, i, c);
    PassedStays(cfg, es, e, i);
    assert all[n] == e && all[..n] == es;
    var pc := After(cfg, all).procs[i];
    if pc.Admitting? && s.procs[i].Calling? {
      assert SawOpen(cfg, all, i, n);
    } else if pc.Offering? {
      var a: nat :| SawOpen(cfg, es, i, a);
      assert all[..a] == es[..a] && SawOpen(cfg, all, i, a) && SawRoom(cfg, all, i, n);
    }
  }

  lemma {:induction false} OtherVets(cfg: Config, es: seq<Event>, e: Event, i: nat)
    requires Vetted(cfg, es, i) && !(e.Step? && e.i == i)
    ensures Vetted(cfg, es + [e], i)
  {
    AfterSnoc(cfg, es, e);
    PassedStays(cfg, es, e, i);
  }

  lemma {:induction false} AllVetted(cfg: Config, es: seq<Event>, i: nat)
    ensures Vetted(cfg, es, i)
    decreases |es|
  {
    if es != [] {
      var n := |es| - 1;
      var e := es[n];
      AllVetted(cfg, es[..n], i);
      assert es == es[..n] + [e];
      if e.Step? && e.i == i && i < |After(cfg, es[..n]).procs| {
        StepVets(cfg, es[..n], i, e.choice);
      } else if e.Step? && e.i == i {
        AfterSnoc(cfg, es[..n], e);
      } else {
        OtherVets(cfg, es[..n], e, i);
      }
    }
  }

  lemma {:induction false} AcceptingStep(cfg: Config, sh: Shared, pc: Pc, c: Choice)
    requires Perform(sh, Next(cfg, sh, pc, c).effect).accepted != sh.accepted
    ensures pc.Offering? && |sh.buffer| < cfg.buffer
  {
  }

  /** In every interleaving a job is accepted only by a caller that had found the queue open and then been told a
      dead-letter depth below the cap, and only while the channel has room. */
  lemma {:induction false} FullQueueRefuses(cfg: Config, es: seq<Event>, e: Event)
    requires After(cfg, es + [e]).sh.accepted != After(cfg, es).sh.accepted
    ensures e.Step? && PassedBoth(cfg, es, e.i) && |After(cfg, es).sh.buffer| < cfg.buffer
  {
    var s := After(cfg, es);
    AfterSnoc(cfg, es, e);
    if e.Step? && e.i < |s.procs| {
      AcceptingStep(cfg, s.sh, s.procs[e.i], e.choice);
      AllVetted(cfg, es, e.i);
    }
  }

  lemma {:induction false} MoveBounded(cfg: Config, sh: Shared, pc: Pc, c: Choice)
    requires |sh.buffer| <= cfg.buffer
    ensures |Perform(sh, Next(cfg, sh, pc, c).effect).buffer| <= cfg.buffer
  {
  }

  /** The channel never holds more than its capacity. */
  lemma {:induction false} BufferBounded(cfg: Config, es: seq<Event>)
    ensures |After(cfg, es).sh.buffer| <= cfg.buffer
  {
    if es != [] {
      var s, e := After(cfg, es[..|es| - 1]), es[|es| - 1];
      BufferBounded(cfg, es[..|es| - 1]);
      if e.Step? && e.i < |s.procs| { MoveBounded(cfg, s.sh, s.procs[e.i], e.choice); }
    }
  }

  // ---------------------------------------------------------------- undisturbed passes

  function Steps(cfg: Config, s: State, i: nat, cs: seq<Choice>): State
    decreases |cs|
  {
    if cs == [] then s else Steps(cfg, Apply(cfg, s, Step(i, cs[0])), i, cs[1..])
  }

  lemma {:induction false} StepsFirst(cfg: Config, s: State, i: nat, c: Choice, cs: seq<Choice>)
    ensures Steps(cfg, s, i, [c] + cs) == Steps(cfg, Apply(cfg, s, Step(i, c)), i, cs)
  {
    assert ([c] + cs)[0] == c && ([c] + cs)[1..] == cs;
  }

  /** One step of goroutine i that starts no other. */
  lemma {:induction false} Stepped(cfg: Config, s: State, i: nat, c: Choice)
    requires i < |s.procs| && !Next(cfg, s.sh, s.procs[i], c).effect.Spawn?
    ensures var m := Next(cfg, s.sh, s.procs[i], c);
      Apply(cfg, s, Step(i, c)) == State(Perform(s.sh, m.effect), s.procs[i := m.pc])
  {
  }

  /** Enqueue from its first check to its return: the job is on the channel and counted exactly when the queue is
      open, the dead-letter queue below its cap and the channel not full; otherwise nothing changes. */
  lemma {:induction false} EnqueuePass(cfg: Config, s: State, i: nat, j: Job, n: nat)
    requires i < |s.procs| && s.procs[i] == Calling(j)
    ensures
      var s' := Steps(cfg, s, i, [Go] + ([Depth(n)] + ([Go] + ([Go] + []))));
      && s'.procs == s.procs[i := Gone]
      && if !s.sh.closed && n < cfg.deadLetterMax && |s.sh.buffer| < cfg.buffer then
           s'.sh == s.sh.(buffer := s.sh.buffer + [Payload(j, 0)], sends := s.sh.sends + [Payload(j, 0)],
                          pending := s.sh.pending + 1, accepted := s.sh.accepted + multiset{j})
         else s'.sh == s.sh
  {
    Stepped(cfg, s, i, Go);
    var s1 := Apply(cfg, s, Step(i, Go));
    Stepped(cfg, s1, i, Depth(n));
    var s2 := Apply(cfg, s1, Step(i, Depth(n)));
    Stepped(cfg, s2, i, Go);
    var s3 := Apply(cfg, s2, Step(i, Go));
    Stepped(cfg, s3, i, Go);
    var s4 := Apply(cfg, s3, Step(i, Go));
    StepsFirst(cfg, s3, i, Go, []);
    StepsFirst(cfg, s2, i, Go, [Go] + []);
    StepsFirst(cfg, s1, i, Depth(n), [Go] + ([Go] + []));
    StepsFirst(cfg, s, i, Go, [Depth(n)] + ([Go] + ([Go] + [])));
  }

  /** A worker takes the head of the channel to its handler, counting it out of pending and into active. */
  lemma {:induction false} TakePass(cfg: Config, s: State, i: nat)
    requires i < |s.procs| && s.procs[i] == Idle && s.sh.buffer != []
    ensures
      var p := s.sh.buffer[0];
      Steps(cfg, s, i, [Go] + ([Go] + ([Go] + []))) ==
        State(s.sh.(buffer := s.sh.buffer[1..], takes := s.sh.takes + [p], pending := s.sh.pending - 1,
                    active := s.sh.active + 1),
              s.procs[i := Running(p)])
  {
    Stepped(cfg, s, i, Go);
    var s1 := Apply(cfg, s, Step(i, Go));
    Stepped(cfg, s1, i, Go);
    var s2 := Apply(cfg, s1, Step(i, Go));
    Stepped(cfg, s2, i, Go);
    StepsFirst(cfg, s2, i, Go, []);
    StepsFirst(cfg, s1, i, Go, [Go] + []);
    StepsFirst(cfg, s, i, Go, [Go] + ([Go] + []));
  }

  /** An acked job is finished and the worker idle again. */
  lemma {:induction false} AckPass(cfg: Config, s: State, i: nat, p: Payload)
    requires i < |s.procs| && s.procs[i] == Running(p)
    ensures Steps(cfg, s, i, [Answer(Ack)] + ([Go] + [])) ==
      State(s.sh.(acked := s.sh.acked + [Payload(p.job, p.attempts + 1)], active := s.sh.active - 1), s.procs[i := Idle])
  {
    Stepped(cfg, s, i, Answer(Ack));
    var s1 := Apply(cfg, s, Step(i, Answer(Ack)));
    Stepped(cfg, s1, i, Go);
    StepsFirst(cfg, s1, i, Go, []);
    StepsFirst(cfg, s, i, Answer(Ack), [Go] + []);
  }

  /** A retry within the limit is counted as pending again and handed to a timer of its own. */
  lemma {:induction false} RetryPass(cfg: Config, s: State, i: nat, p: Payload)
    requires i < |s.procs| && s.procs[i] == Running(p) && p.attempts < cfg.maxRetries
    ensures Steps(cfg, s, i, [Answer(Retry)] + ([Go] + ([Go] + ([Go] + [])))) ==
      State(s.sh.(pending := s.sh.pending + 1, active := s.sh.active - 1),
            s.procs[i := Idle] + [Ticking(Payload(p.job, p.attempts + 1))])
  {
    Stepped(cfg, s, i, Answer(Retry));
    var s1 := Apply(cfg, s, Step(i, Answer(Retry)));
    Stepped(cfg, s1, i, Go);
    var s2 := Apply(cfg, s1, Step(i, Go));
    var s3 := Apply(cfg, s2, Step(i, Go));
    assert s3.procs == s.procs[i := Leaving] + [Ticking(Payload(p.job, p.attempts + 1))];
    Stepped(cfg, s3, i, Go);
    StepsFirst(cfg, s3, i, Go, []);
    StepsFirst(cfg, s2, i, Go, [Go] + []);
    StepsFirst(cfg, s1, i, Go, [Go] + ([Go] + []));
    StepsFirst(cfg, s, i, Answer(Retry), [Go] + ([Go] + ([Go] + [])));
  }

  /** Any other answer, and a retry at the limit, leaves a dead letter. */
  lemma {:induction false} BuryPass(cfg: Config, s: State, i: nat, p: Payload, d: Disposition)
    requires i < |s.procs| && s.procs[i] == Running(p) && d != Ack && (d == Retry ==> p.attempts >= cfg.maxRetries)
    ensures Steps(cfg, s, i, [Answer(d)] + ([Go] + ([Go] + []))) ==
      State(s.sh.(dead := s.sh.dead + [DeadEntry(p.job, p.attempts + 1)], active := s.sh.active - 1), s.procs[i := Idle])
  {
    Stepped(cfg, s, i, Answer(d));
    var s1 := Apply(cfg, s, Step(i, Answer(d)));
    Stepped(cfg, s1, i, Go);
    var s2 := Apply(cfg, s1, Step(i, Go));
    Stepped(cfg, s2, i, Go);
    StepsFirst(cfg, s2, i, Go, []);
    StepsFirst(cfg, s1, i, Go, [Go] + []);
    StepsFirst(cfg, s, i, Answer(d), [Go] + ([Go] + []));
  }

  /** A retry whose timer fires goes back on the channel as soon as there is room; after Close it is given up. */
  lemma {:induction false} TimerPass(cfg: Config, s: State, i: nat, q: Payload)
    requires i < |s.procs| && s.procs[i] == Ticking(q)
    ensures Steps(cfg, s, i, [Go] + []) ==
      if |s.sh.buffer| < cfg.buffer then
        State(s.sh.(buffer := s.sh.buffer + [q], sends := s.sh.sends + [q]), s.procs[i := Gone])
      else s
    ensures Steps(cfg, s, i, [Quit] + ([Go] + [])) ==
      if s.sh.stopped then
        State(s.sh.(pending := s.sh.pending - 1, lost := s.sh.lost + multiset{q.job}), s.procs[i := Gone])
      else Steps(cfg, s, i, [Go] + [])
  {
    Stepped(cfg, s, i, Go);
    Stepped(cfg, s, i, Quit);
    var s1 := Apply(cfg, s, Step(i, Quit));
    Stepped(cfg, s1, i, Go);
    StepsFirst(cfg, s, i, Go, []);
    StepsFirst(cfg, s1, i, Go, []);
    StepsFirst(cfg, s, i, Quit, [Go] + []);
  }

  /** An idle worker that is told to stop is gone, and nothing else changes. */
  lemma {:induction false} QuitPass(cfg: Config, s: State, i: nat)
    requires i < |s.procs| && s.procs[i] == Idle
    ensures Steps(cfg, s, i, [Quit] + []) == s.(procs := s.procs[i := Gone])
  {
    Stepped(cfg, s, i, Quit);
    StepsFirst(cfg, s, i, Quit, []);
  }

  /** The first Close shuts intake at once and then stops workers and timers; a second one does nothing. */
  lemma {:induction false} CloseOnce(cfg: Config, s: State)
    ensures
      var t := Apply(cfg, s, Close);
      var i := |s.procs|;
      if s.sh.closed then t == s
      else
        && t == State(s.sh.(closed := true), s.procs + [Stopping])
        && Steps(cfg, t, i, [Go] + []) == State(t.sh.(stopped := true), t.procs[i := Draining])
  {
    var t := Apply(cfg, s, Close);
    if !s.sh.closed {
      Stepped(cfg, t, |s.procs|, Go);
      StepsFirst(cfg, t, |s.procs|, Go, []);
    }
  }

  function Jobs(l: seq<Payload>): multiset<Job> {
    if l == [] then multiset{} else multiset{l[0].job} + Jobs(l[1..])
  }

  /** Close's steps for a channel that holds n jobs. */
  function Emptying(n: nat): seq<Choice> {
    if n == 0 then [Go] + [] else [Go] + ([Go] + Emptying(n - 1))
  }

  /** s with everything that was on the channel received and given up, and goroutine i done. */
  function GivenUp(s: State, i: nat): State
    requires i < |s.procs|
  {
    var b := s.sh.buffer;
    State(s.sh.(buffer := [], takes := s.sh.takes + b, pending := s.sh.pending - |b|, lost := s.sh.lost + Jobs(b)),
          s.procs[i := Gone])
  }

  lemma {:induction false} GiveUpOne(cfg: Config, s: State, i: nat) returns (s': State)
    requires i < |s.procs| && s.procs[i] == Draining && s.sh.buffer != []
    ensures s' == Apply(cfg, Apply(cfg, s, Step(i, Go)), Step(i, Go))
    ensures i < |s'.procs| && s'.procs[i] == Draining && s'.sh.buffer == s.sh.buffer[1..]
    ensures GivenUp(s', i) == GivenUp(s, i)
  {
    var b := s.sh.buffer;
    Stepped(cfg, s, i, Go);
    var s1 := Apply(cfg, s, Step(i, Go));
    Stepped(cfg, s1, i, Go);
    s' := Apply(cfg, s1, Step(i, Go));
    assert s.sh.takes + [b[0]] + b[1..] == s.sh.takes + b;
    assert s.sh.lost + multiset{b[0].job} + Jobs(b[1..]) == s.sh.lost + Jobs(b);
  }

  /** What is still on the channel when Close empties it is given up, job by job. */
  lemma {:induction false} ClosePass(cfg: Config, s: State, i: nat)
    requires i < |s.procs| && s.procs[i] == Draining
    ensures Steps(cfg, s, i, Emptying(|s.sh.buffer|)) == GivenUp(s, i)
    decreases |s.sh.buffer|
  {
    var n := |s.sh.buffer|;
    if n == 0 {
      Stepped(cfg, s, i, Go);
      StepsFirst(cfg, s, i, Go, []);
      assert s.sh.takes + [] == s.sh.takes;
    } else {
      var s' := GiveUpOne(cfg, s, i);
      StepsFirst(cfg, Apply(cfg, s, Step(i, Go)), i, Go, Emptying(n - 1));
      StepsFirst(cfg, s, i, Go, [Go] + Emptying(n - 1));
      ClosePass(cfg, s', i);
    }
  }
}
