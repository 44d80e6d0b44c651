/** The intake gate: trips on sustained failure, recovers only after a run of successes. */
module Backpressure {

  datatype Outcome = Outcome(at: int, ok: bool)

  /** Thresholds: consecutive errors, error rate in percent over a window, successes to recover. */
  datatype Policy = Policy(n: int, ratePct: real, window: int, m: int)

  /** minWindowSamples */
  const MIN_SAMPLES: nat := 10

  function Errors(s: seq<Outcome>): (e: nat)
    ensures e <= |s|
  {
    if s == [] then 0 else Errors(s[..|s| - 1]) + if s[|s| - 1].ok then 0 else 1
  }

  predicate RateHigh(p: Policy, s: seq<Outcome>) {
    |s| >= MIN_SAMPLES && Errors(s) as real * 100.0 / |s| as real >= p.ratePct
  }

  function Failures(s: seq<Outcome>): set<nat> {
    set k: nat | k < |s| && !s[k].ok
  }

  lemma {:induction false} ErrorsCounted(s: seq<Outcome>)
    ensures Errors(s) == |Failures(s)|
  {
    if s != [] {
      var n := |s| - 1;
      ErrorsCounted(s[..n]);
      assert Failures(s) == Failures(s[..n]) + if s[n].ok then {} else {n};
    }
  }

  /** The rate trips on ten outcomes or more of which at least the given percentage failed. */
  lemma {:induction false} RateHighIff(p: Policy, s: seq<Outcome>)
    ensures RateHigh(p, s) <==> |s| >= 10 && 100.0 * |Failures(s)| as real >= p.ratePct * |s| as real
  {
    ErrorsCounted(s);
    if |s| >= 10 { Cross(100.0 * |Failures(s)| as real, |s| as real, p.ratePct); }
  }

  lemma {:induction false} Cross(a: real, b: real, c: real)
    requires b > 0.0
    ensures a / b >= c <==> a >= c * b
  {
    var q := a / b;
    assert q * b == a;
    if q >= c {
      assert (q - c) * b >= 0.0;
    } else {
      assert (c - q) * b > 0.0;
    }
  }

  // ---------------------------------------------------------------- the tracker

  datatype Tracker = Tracker(consecErr: nat, consecOK: nat, tripped: bool, outcomes: seq<Outcome>)

  /** Drops outcomes from the front up to the first one after the cut. */
  function Pruned(s: seq<Outcome>, cut: int): seq<Outcome> {
    if s == [] || s[0].at > cut then s else Pruned(s[1..], cut)
  }

  function Step(p: Policy, b: Tracker, o: Outcome): Tracker {
    var kept := Pruned(b.outcomes + [o], o.at - p.window);
    if o.ok then
      var recovers := b.tripped && b.consecOK + 1 >= p.m;
      Tracker(0, b.consecOK + 1, b.tripped && !recovers, if recovers then [] else kept)
    else
      Tracker(b.consecErr + 1, 0, b.tripped || b.consecErr + 1 >= p.n || RateHigh(p, kept), kept)
  }

  class Gate {
    const policy: Policy
    var consecErr: nat
    var consecOK: nat
    var tripped: bool
    var outcomes: seq<Outcome>

    ghost function Value(): Tracker
      reads this
    {
      Tracker(consecErr, consecOK, tripped, outcomes)
    }

    constructor (policy: Policy)
      ensures this.policy == policy && Value() == Tracker(0, 0, false, [])
    {
      this.policy := policy;
      consecErr, consecOK, tripped, outcomes := 0, 0, false, [];
    }

    method Record(success: bool, now: int)
      modifies this
      ensures Value() == Step(policy, old(Value()), Outcome(now, success))
    {
      outcomes := outcomes + [Outcome(now, success)];
      Prune(now);
      if success {
        consecOK := consecOK + 1;
        consecErr := 0;
        if tripped && consecOK >= policy.m {
          tripped := false;
          outcomes := [];
        }
        return;
      }
      consecErr := consecErr + 1;
      consecOK := 0;
      if consecErr >= policy.n {
        tripped := true;
        return;
      }
      var total, errs := 0, 0;
      while total < |outcomes|
        invariant total <= |outcomes| && errs == Errors(outcomes[..total])
      {
        assert outcomes[..total + 1][..total] == outcomes[..total];
        if !outcomes[total].ok { errs := errs + 1; }
        total := total + 1;
      }
      assert outcomes[..total] == outcomes;
      if total >= MIN_SAMPLES && errs as real * 100.0 / total as real >= policy.ratePct {
        tripped := true;
      }
    }

    method Prune(now: int)
      modifies `outcomes
      ensures outcomes == Pruned(old(outcomes), now - policy.window)
    {
      var cut := now - policy.window;
      var i := 0;
      while i < |outcomes| && outcomes[i].at <= cut
        invariant 0 <= i <= |outcomes| && Pruned(outcomes, cut) == Pruned(outcomes[i..], cut)
      {
        i := i + 1;
      }
      outcomes := outcomes[i..];
    }

    method Ready() returns (r: bool)
      ensures r == !Value().tripped
    {
      r := !tripped;
    }
  }

  // ---------------------------------------------------------------- a definition over histories alone

  /** How many of the latest outcomes in a row are successes (ok) or errors. */
  function Trailing(h: seq<Outcome>, ok: bool): (n: nat)
    ensures n <= |h|
  {
    if h == [] || h[|h| - 1].ok != ok then 0 else 1 + Trailing(h[..|h| - 1], ok)
  }

  function InWindow(s: seq<Outcome>, cut: int): seq<Outcome> {
    if s == [] then []
    else InWindow(s[..|s| - 1], cut) + if s[|s| - 1].at > cut then [s[|s| - 1]] else []
  }

  /** The success that ends an outage: the m-th in a row, or the first when m asks for fewer. */
  predicate RecoversAt(p: Policy, h: seq<Outcome>) {
    Trailing(h, true) == if p.m > 1 then p.m else 1
  }

  /** The window holds exactly the outcomes after the cut, each as often as it occurred. */
  lemma {:induction false} WindowExactly(s: seq<Outcome>, cut: int, o: Outcome)
    ensures multiset(InWindow(s, cut))[o] == if o.at > cut then multiset(s)[o] else 0
  {
    if s != [] {
      var n := |s| - 1;
      WindowExactly(s[..n], cut, o);
      assert s == s[..n] + [s[n]];
    }
  }

  /** Whether the gate is shut after h. */
  function Shut(p: Policy, h: seq<Outcome>): bool
    decreases |h|, 0
  {
    if h == [] then false
    else
      var before, o := h[..|h| - 1], h[|h| - 1];
      if Shut(p, before) then !RecoversAt(p, h)
      else !o.ok && (Trailing(h, false) >= p.n || RateHigh(p, InWindow(Since(p, before) + [o], o.at - p.window)))
  }

  /** The history since the last recovery. */
  function Since(p: Policy, h: seq<Outcome>): seq<Outcome>
    decreases |h|, 1
  {
    if h == [] then []
    else if Shut(p, h[..|h| - 1]) && !Shut(p, h) then []
    else Since(p, h[..|h| - 1]) + [h[|h| - 1]]
  }

  function Play(p: Policy, h: seq<Outcome>): Tracker {
    if h == [] then Tracker(0, 0, false, []) else Step(p, Play(p, h[..|h| - 1]), h[|h| - 1])
  }

  /** Times never decrease and stop at or before last. */
  ghost predicate InTimeOrder(h: seq<Outcome>, last: int) {
    h == [] || (h[|h| - 1].at <= last && InTimeOrder(h[..|h| - 1], h[|h| - 1].at))
  }

  // ---------------------------------------------------------------- pruning is filtering

  lemma {:induction false} WindowSnoc(s: seq<Outcome>, o: Outcome, cut: int)
    ensures InWindow(s + [o], cut) == InWindow(s, cut) + if o.at > cut then [o] else []
  {
    assert (s + [o])[..|s|] == s;
  }

  lemma {:induction false} WindowCons(s: seq<Outcome>, cut: int)
    requires s != []
    ensures InWindow(s, cut) == (if s[0].at > cut then [s[0]] else []) + InWindow(s[1..], cut)
  {
    var n := |s| - 1;
    if n > 0 {
      WindowCons(s[..n], cut);
      assert s[..n][1..] == s[1..][..n - 1];
    }
  }

  lemma {:induction false} ForwardLater(s: seq<Outcome>, last: int, later: int)
    requires InTimeOrder(s, last) && last <= later
    ensures InTimeOrder(s, later)
  {
  }

  lemma {:induction false} ForwardTail(s: seq<Outcome>, last: int)
    requires s != [] && InTimeOrder(s, last)
    ensures s[0].at <= last && InTimeOrder(s[1..], last)
  {
    var n := |s| - 1;
    if n > 0 {
      ForwardTail(s[..n], s[n].at);
      assert s[..n][1..] == s[1..][..n - 1];
    }
  }

  lemma {:induction false} WindowAll(s: seq<Outcome>, cut: int, last: int)
    requires InTimeOrder(s, last) && (s != [] ==> s[0].at > cut)
    ensures InWindow(s, cut) == s
  {
    if s != [] {
      var n := |s| - 1;
      WindowAll(s[..n], cut, s[n].at);
      if n > 0 { ForwardTail(s[..n], s[n].at); }
      assert s == s[..n] + [s[n]];
    }
  }

  /** In time order, dropping the stale front is dropping everything stale. */
  lemma {:induction false} PrunedIsWindow(s: seq<Outcome>, cut: int, last: int)
    requires InTimeOrder(s, last)
    ensures Pruned(s, cut) == InWindow(s, cut)
  {
    if s != [] {
      if s[0].at > cut {
        WindowAll(s, cut, last);
      } else {
        WindowCons(s, cut);
        ForwardTail(s, last);
        PrunedIsWindow(s[1..], cut, last);
      }
    }
  }

  /** A later, narrower window need only look at what an earlier one kept. */
  lemma {:induction false} WindowNarrows(s: seq<Outcome>, early: int, late: int)
    requires early <= late
    ensures InWindow(InWindow(s, early), late) == InWindow(s, late)
  {
    if s != [] {
      var n := |s| - 1;
      WindowNarrows(s[..n], early, late);
      var kept := InWindow(s[..n], early);
      if s[n].at > early {
        WindowSnoc(kept, s[n], late);
      } else {
        assert kept + [] == kept && InWindow(kept, late) + [] == InWindow(kept, late);
      }
    }
  }

  lemma {:induction false} ForwardSnoc(s: seq<Outcome>, o: Outcome, last: int)
    requires InTimeOrder(s, o.at) && o.at <= last
    ensures InTimeOrder(s + [o], last)
  {
    assert (s + [o])[..|s|] == s;
  }

  lemma {:induction false} WindowForward(s: seq<Outcome>, cut: int, last: int)
    requires InTimeOrder(s, last)
    ensures InTimeOrder(InWindow(s, cut), last)
  {
    if s != [] {
      var n := |s| - 1;
      var kept := InWindow(s[..n], cut);
      WindowForward(s[..n], cut, s[n].at);
      if s[n].at > cut {
        ForwardSnoc(kept, s[n], last);
      } else {
        assert kept + [] == kept;
        ForwardLater(kept, s[n].at, last);
      }
    }
  }

  /** Since is a part of the history in its order. */
  lemma {:induction false} SinceForward(p: Policy, h: seq<Outcome>, last: int)
    requires InTimeOrder(h, last)
    ensures InTimeOrder(Since(p, h), last)
  {
    if h != [] {
      var n := |h| - 1;
      SinceForward(p, h[..n], h[n].at);
      ForwardSnoc(Since(p, h[..n]), h[n], last);
    }
  }

  // ---------------------------------------------------------------- the tracker computes it

  function Now(h: seq<Outcome>): int
    requires h != []
  {
    h[|h| - 1].at
  }

  /** The kept list after one more outcome, before any recovery. */
  lemma {:induction false} KeptIsWindow(since: seq<Outcome>, window: int, last: int, o: Outcome)
    requires InTimeOrder(since, last) && last <= o.at
    ensures Pruned(InWindow(since, last - window) + [o], o.at - window) == InWindow(since + [o], o.at - window)
  {
    var cut := o.at - window;
    var kept := InWindow(since, last - window);
    WindowForward(since, last - window, last);
    PrunedSnoc(kept, last, o, cut);
    WindowSnoc(since, o, cut);
    WindowNarrows(since, last - window, cut);
    assert InWindow(kept, cut) == InWindow(since, cut);
  }

  lemma {:induction false} PrunedSnoc(kept: seq<Outcome>, last: int, o: Outcome, cut: int)
    requires InTimeOrder(kept, last) && last <= o.at
    ensures Pruned(kept + [o], cut) == InWindow(kept, cut) + if o.at > cut then [o] else []
  {
    ForwardLater(kept, last, o.at);
    ForwardSnoc(kept, o, o.at);
    PrunedIsWindow(kept + [o], cut, o.at);
    WindowSnoc(kept, o, cut);
  }

  /** While the gate is shut the run of successes is still too short to open it. */
  lemma {:induction false} ShutMeansFewSuccesses(p: Policy, h: seq<Outcome>)
    requires Shut(p, h)
    ensures Trailing(h, true) == 0 || Trailing(h, true) < p.m
  {
    var n := |h| - 1;
    if Shut(p, h[..n]) { ShutMeansFewSuccesses(p, h[..n]); }
  }

  /** While it is open the run of errors is still too short to shut it. */
  lemma {:induction false} OpenMeansFewErrors(p: Policy, h: seq<Outcome>)
    requires !Shut(p, h)
    ensures Trailing(h, false) == 0 || Trailing(h, false) < p.n
  {
    if h != [] {
      var n := |h| - 1;
      if Shut(p, h[..n]) { assert Trailing(h, true) > 0; }
    }
  }

  ghost predicate Tracks(p: Policy, h: seq<Outcome>, b: Tracker) {
    && b.consecErr == Trailing(h, false)
    && b.consecOK == Trailing(h, true)
    && b.tripped == Shut(p, h)
    && b.outcomes == if h == [] then [] else InWindow(Since(p, h), Now(h) - p.window)
  }

  lemma {:induction false} KeptStep(p: Policy, h: seq<Outcome>, o: Outcome, b: Tracker)
    requires InTimeOrder(h, o.at) && Tracks(p, h, b)
    ensures Pruned(b.outcomes + [o], o.at - p.window) == InWindow(Since(p, h) + [o], o.at - p.window)
  {
    if h == [] {
      KeptIsWindow([], p.window, o.at, o);
    } else {
      SinceForward(p, h, Now(h));
      KeptIsWindow(Since(p, h), p.window, Now(h), o);
    }
  }

  /** The definitions over histories, one outcome further. */
  lemma {:induction false} HistorySnoc(p: Policy, h: seq<Outcome>, o: Outcome, kept: seq<Outcome>)
    requires kept == InWindow(Since(p, h) + [o], o.at - p.window)
    ensures var g := h + [o];
      && Now(g) == o.at
      && (forall ok :: Trailing(g, ok) == if o.ok == ok then Trailing(h, ok) + 1 else 0)
      && Shut(p, g) == (if Shut(p, h) then !RecoversAt(p, g)
                        else !o.ok && (Trailing(g, false) >= p.n || RateHigh(p, kept)))
      && Since(p, g) == if Shut(p, h) && !Shut(p, g) then [] else Since(p, h) + [o]
  {
    var g := h + [o];
    assert g[..|g| - 1] == h && g[|g| - 1] == o;
  }

  lemma {:induction false} StepTracks(p: Policy, h: seq<Outcome>, o: Outcome, b: Tracker)
    requires InTimeOrder(h, o.at) && Tracks(p, h, b)
    ensures Tracks(p, h + [o], Step(p, b, o))
  {
    var kept := Pruned(b.outcomes + [o], o.at - p.window);
    KeptStep(p, h, o, b);
    HistorySnoc(p, h, o, kept);
    if b.tripped { ShutMeansFewSuccesses(p, h); }
  }

  /**
   * Under a clock that never runs backwards, the tracker's counters, gate and pruned list are exactly the
   * trailing runs, the gate and the windowed history since the last recovery, read off the history alone.
   */
  lemma {:induction false} TrackerIsHistory(p: Policy, h: seq<Outcome>, last: int)
    requires InTimeOrder(h, last)
    ensures Tracks(p, h, Play(p, h))
  {
    if h != [] {
      var n := |h| - 1;
      TrackerIsHistory(p, h[..n], h[n].at);
      assert h[..n] + [h[n]] == h;
      StepTracks(p, h[..n], h[n], Play(p, h[..n]));
    }
  }

  /** Hysteresis, as operators rely on it. */
  lemma {:induction false} Hysteresis(p: Policy, h: seq<Outcome>, last: int)
    requires InTimeOrder(h, last)
    ensures !Play(p, h).tripped ==> Trailing(h, false) == 0 || Trailing(h, false) < p.n
    ensures Play(p, h).tripped ==> Trailing(h, true) == 0 || Trailing(h, true) < p.m
    ensures h != [] && Play(p, h[..|h| - 1]).tripped ==> (!Play(p, h).tripped <==> RecoversAt(p, h))
  {
    TrackerIsHistory(p, h, last);
    if Shut(p, h) { ShutMeansFewSuccesses(p, h); } else { OpenMeansFewErrors(p, h); }
    if h != [] { TrackerIsHistory(p, h[..|h| - 1], Now(h)); }
  }
}
