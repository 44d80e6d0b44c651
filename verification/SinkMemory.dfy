/** How long a sink remembers what it has written. */
module SinkMemory {
  import opened QueueTypes
  import opened Moderation
  import opened Sinks

  /** A sweep is due when there has been none yet, or none for a minute. */
  predicate SweepDue(d: Claims, now: int) {
    d.lastSweep == None || now - d.lastSweep.value >= 60
  }

  /** A claim is forgotten exactly when a sweep is due and the claim is older than the window. */
  lemma {:induction false} ForgottenIff(d: Claims, retain: nat, now: int, id: JobID)
    requires id in d.written
    ensures Owns(d, retain, now, id) <==> SweepDue(d, now) && now - d.written[id] > retain
  {
  }

  /** A write reaches the file exactly when the envelope matches, writing works and the id is not remembered, or is
      about to be forgotten. */
  lemma {:induction false} EmitsIff(s: SinkState, retain: nat, now: int, env: Envelope, works: bool)
    ensures Written(s, retain, now, env, works).emitted ==
      s.emitted +
        if Matches(s.route, env) && works
           && (env.id in s.claims.written ==> SweepDue(s.claims, now) && now - s.claims.written[env.id] > retain)
        then [Emission(env, now)] else []
  {
    if env.id in s.claims.written { ForgottenIff(s.claims, retain, now, env.id); }
    assert s.emitted + [] == s.emitted;
  }

  /** At its last sweep every claim that is held was within the window. */
  predicate Timely(d: Claims, retain: nat, now: int) {
    d.lastSweep.Some? ==>
      d.lastSweep.value <= now && forall id :: id in d.written ==> d.lastSweep.value - d.written[id] <= retain
  }

  lemma {:induction false} WrittenTimely(s: SinkState, retain: nat, before: int, now: int, env: Envelope, works: bool)
    requires Timely(s.claims, retain, before) && before <= now
    ensures Timely(Written(s, retain, now, env, works).claims, retain, now)
  {
  }

  lemma {:induction false} DeliveriesTimely(route: Predicate, retain: nat, ds: seq<Delivery>, now: int)
    requires NonDecreasing(ds) && (ds != [] ==> ds[|ds| - 1].now <= now)
    ensures Timely(AfterDeliveries(Fresh(route), retain, ds).claims, retain, now)
  {
    if ds != [] {
      var n := |ds| - 1;
      DeliveriesTimely(route, retain, ds[..n], ds[n].now);
      WrittenTimely(AfterDeliveries(Fresh(route), retain, ds[..n]), retain, ds[n].now, ds[n].now, ds[n].env, ds[n].works);
    }
  }

  /** A claim that old is forgotten by the sweep that is due, or was by the last one. */
  lemma {:induction false} OldIsForgotten(d: Claims, retain: nat, now: int, id: JobID)
    requires Timely(d, retain, now) && (id in d.written ==> now - d.written[id] >= retain + 60)
    ensures Owns(d, retain, now, id)
  {
    if id in d.written {
      ForgottenIff(d, retain, now, id);
    }
  }

  /** Over any series of deliveries under a non-decreasing clock: an id whose last emission is a minute longer ago
      than the window is emitted again. */
  lemma {:induction false} EmittedAgain(route: Predicate, retain: nat, ds: seq<Delivery>, d: Delivery)
    requires NonDecreasing(ds + [d]) && Matches(route, d.env) && d.works
    requires var e := AfterDeliveries(Fresh(route), retain, ds).emitted;
      forall i :: 0 <= i < |e| && e[i].env.id == d.env.id ==> d.now - e[i].at >= retain + 60
    ensures AfterDeliveries(Fresh(route), retain, ds + [d]).emitted ==
      AfterDeliveries(Fresh(route), retain, ds).emitted + [Emission(d.env, d.now)]
  {
    var all := ds + [d];
    var s := AfterDeliveries(Fresh(route), retain, ds);
    assert all[..|ds|] == ds && all[|ds|] == d && forall i :: 0 <= i < |ds| ==> all[i] == ds[i];
    assert ds != [] ==> all[|ds| - 1].now <= all[|ds|].now;
    DeliveriesOk(route, retain, ds, d.now);
    DeliveriesTimely(route, retain, ds, d.now);
    RouteKept(route, retain, ds);
    if d.env.id in s.claims.written { assert WroteAt(s.emitted, d.env.id, s.claims.written[d.env.id]); }
    OldIsForgotten(s.claims, retain, d.now, d.env.id);
  }

  // ---------------------------------------------------------------- routes

  /** Some category result of the job's frames, folded into the taxonomy, scores at least min. */
  ghost predicate Scores(env: Envelope, cat: string, min: real) {
    exists f, c :: f in env.frames && c in f.categories && c.score.Some? && c.score.value >= min
      && (c.category == cat || (cat == "OTHER" && c.category !in CANONICAL))
  }

  lemma {:induction false} ScoresExactly(env: Envelope, cat: string, min: real)
    requires cat in CANONICAL
    ensures ScoreAtLeast(env, cat, min) <==> env.verdict.Some? && Scores(env, cat, min)
  {
    if ScoreAtLeast(env, cat, min) {
      var f, c :| f in env.frames && c in f.categories && Canonicalize(c.category) == cat && Reaches(c.score, Some(min));
      assert f in env.frames && c in f.categories && c.score.value >= min;
    }
    if env.verdict.Some? && Scores(env, cat, min) {
      var f, c :| f in env.frames && c in f.categories && c.score.Some? && c.score.value >= min && (c.category == cat || (cat == "OTHER" && c.category !in CANONICAL));
      assert f in env.frames && c in f.categories && Canonicalize(c.category) == cat && Reaches(c.score, Some(min));
    }
  }

  /** What a route takes, group by group: a job without a result counts as an error and has no scores. */
  lemma {:induction false} RouteExactly(p: Predicate, env: Envelope)
    requires forall cat :: cat in p.categories ==> cat in CANONICAL
    ensures Matches(p, env) <==>
      && (p.verdicts == [] || exists k :: 0 <= k < |p.verdicts| && (env.verdict == Some(p.verdicts[k]) || (env.verdict == None && p.verdicts[k] == Error)))
      && (p.sourceKinds == [] || exists k :: 0 <= k < |p.sourceKinds| && p.sourceKinds[k] == env.sourceKind)
      && (forall cat :: cat in p.categories ==> env.verdict.Some? && Scores(env, cat, p.categories[cat]))
  {
    forall cat | cat in p.categories
      ensures ScoreAtLeast(env, cat, p.categories[cat]) <==> env.verdict.Some? && Scores(env, cat, p.categories[cat])
    {
      ScoresExactly(env, cat, p.categories[cat]);
    }
  }
}
