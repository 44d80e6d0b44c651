/** Result delivery: the per-sink claim set, the routed JSON-lines sink and the fan-out over all sinks. */
module Sinks {
  import opened QueueTypes
  import opened Moderation

  // ---------------------------------------------------------------- envelopes and routing

  /** The part of a result envelope that routing reads; a job without a result has verdict None. */
  datatype Envelope = Envelope(id: JobID, sourceKind: string, verdict: Option<Verdict>, frames: seq<FrameResult>)

  datatype Predicate = Predicate(verdicts: seq<Verdict>, categories: map<string, real>, sourceKinds: seq<string>)
  {
    predicate IsEmpty() {
      verdicts == [] && categories == map[] && sourceKinds == []
    }
  }

  function VerdictIn(env: Envelope): Verdict {
    if env.verdict.None? then Error else env.verdict.value
  }

  /** A nil score never satisfies a minimum, not even 0. */
  predicate ScoreAtLeast(env: Envelope, cat: string, min: real) {
    env.verdict.Some? &&
    exists f, c :: f in env.frames && c in f.categories && Canonicalize(c.category) == cat && Reaches(c.score, Some(min))
  }

  /** Every constrained group must accept; each category in the group has its own minimum to meet. */
  predicate Matches(p: Predicate, env: Envelope) {
    && (p.verdicts == [] || VerdictIn(env) in p.verdicts)
    && (p.sourceKinds == [] || env.sourceKind in p.sourceKinds)
    && (forall cat :: cat in p.categories ==> ScoreAtLeast(env, cat, p.categories[cat]))
  }

  /** An unconditional sink takes every envelope. */
  lemma {:induction false} EmptyMatchesAll(p: Predicate, env: Envelope)
    requires p.IsEmpty()
    ensures Matches(p, env)
  {
  }

  /** The documented reading: one listed category that meets its minimum is enough. */
  predicate MatchesAny(p: Predicate, env: Envelope) {
    && (p.verdicts == [] || VerdictIn(env) in p.verdicts)
    && (p.sourceKinds == [] || env.sourceKind in p.sourceKinds)
    && (p.categories == map[] || exists cat :: cat in p.categories && ScoreAtLeast(env, cat, p.categories[cat]))
  }

  /** An envelope the other groups of p accept, with one frame that scores v in one category. */
  function Scoring(p: Predicate, cat: string, v: real): Envelope {
    Envelope("", if p.sourceKinds == [] then "" else p.sourceKinds[0],
             Some(if p.verdicts == [] then Allow else p.verdicts[0]),
             [FrameResult(None, FrameOk, "", [CategoryResult(cat, "", Some(v), None, false)])])
  }

  lemma {:induction false} ScoresOnly(p: Predicate, cat: string, v: real, other: string, min: real)
    requires cat in CANONICAL
    ensures ScoreAtLeast(Scoring(p, cat, v), other, min) <==> other == cat && v >= min
  {
    var env := Scoring(p, cat, v);
    if other == cat && v >= min {
      assert env.frames[0] in env.frames && env.frames[0].categories[0] in env.frames[0].categories;
    }
  }

  /** With two listed categories an envelope that meets only one of them is refused. */
  lemma {:induction false} OneOfTwoIsRefused(p: Predicate, a: string, b: string)
    requires a in p.categories && b in p.categories && a != b && a in CANONICAL
    ensures MatchesAny(p, Scoring(p, a, p.categories[a])) && !Matches(p, Scoring(p, a, p.categories[a]))
  {
    ScoresOnly(p, a, p.categories[a], a, p.categories[a]);
    ScoresOnly(p, a, p.categories[a], b, p.categories[b]);
  }

  lemma {:induction false} TwoKeys<K, V>(m: map<K, V>) returns (a: K, b: K)
    requires |m| > 1
    ensures a in m && b in m && a != b
  {
    a :| a in m;
    var rest := m.Keys - {a};
    assert |rest| > 0;
    b :| b in rest;
  }

  lemma {:induction false} OneKey<K, V>(m: map<K, V>, a: K, b: K)
    requires |m| <= 1 && a in m && b in m
    ensures a == b
  {
    var rest := m.Keys - {a};
    assert |rest| == |m| - 1;
    assert rest == {};
  }

  /** Of a validated predicate the documented reading and the code agree on every envelope exactly when it lists at
      most one category. */
  lemma {:induction false} ReadingsAgreeIff(p: Predicate)
    requires forall cat :: cat in p.categories ==> cat in CANONICAL
    ensures (forall env :: Matches(p, env) <==> MatchesAny(p, env)) <==> |p.categories| <= 1
  {
    if |p.categories| > 1 {
      var a, b := TwoKeys(p.categories);
      OneOfTwoIsRefused(p, a, b);
    } else {
      forall env
        ensures Matches(p, env) <==> MatchesAny(p, env)
      {
        if p.categories != map[] {
          var a :| a in p.categories;
          forall b | b in p.categories
            ensures a == b
          {
            OneKey(p.categories, a, b);
          }
        }
      }
    }
  }

  // ---------------------------------------------------------------- the claim set

  /** dedupeSweepInterval, in seconds; the retention window is a parameter. */
  const SWEEP_EVERY: int := 60

  /** written maps a job id to the time of its claim; lastSweep None is the zero time. */
  datatype Claims = Claims(written: map<JobID, int>, lastSweep: Option<int>)

  function Swept(d: Claims, retain: nat, now: int): Claims {
    if d.lastSweep.Some? && now - d.lastSweep.value < SWEEP_EVERY then d
    else Claims(map id | id in d.written && !(d.written[id] < now - retain) :: d.written[id], Some(now))
  }

  function Claimed(d: Claims, retain: nat, now: int, id: JobID): Claims {
    var s := Swept(d, retain, now);
    if id in s.written then s else s.(written := s.written[id := now])
  }

  predicate Owns(d: Claims, retain: nat, now: int, id: JobID) {
    id !in Swept(d, retain, now).written
  }

  /** What a sink wrote, and when. */
  datatype Emission = Emission(env: Envelope, at: int)

  /** One sink: its route, its claims and what it has written so far. */
  datatype SinkState = SinkState(route: Predicate, claims: Claims, emitted: seq<Emission>)

  /** One routed write at time `now`; `works` says whether marshalling and writing succeed. */
  function Written(s: SinkState, retain: nat, now: int, env: Envelope, works: bool): SinkState {
    if !Matches(s.route, env) then s
    else if !Owns(s.claims, retain, now, env.id) then s.(claims := Claimed(s.claims, retain, now, env.id))
    else if works then
      s.(claims := Claimed(s.claims, retain, now, env.id), emitted := s.emitted + [Emission(env, now)])
    else
      s.(claims := Swept(s.claims, retain, now))
  }

  /** The write reports an error exactly when it owned the id and failed. */
  predicate Fails(s: SinkState, retain: nat, now: int, env: Envelope, works: bool) {
    Matches(s.route, env) && Owns(s.claims, retain, now, env.id) && !works
  }

  class Dedupe {
    var written: map<JobID, int>
    var lastSweep: Option<int>
    const retain: nat

    ghost function State(): Claims
      reads this
    {
      Claims(written, lastSweep)
    }

    constructor (retain: nat)
      ensures this.retain == retain && State() == Claims(map[], None)
    {
      this.retain := retain;
      written, lastSweep := map[], None;
    }

    method Sweep(now: int)
      modifies this
      ensures State() == Swept(old(State()), retain, now)
    {
      if lastSweep.Some? && now - lastSweep.value < SWEEP_EVERY { return; }
      lastSweep := Some(now);
      var cutoff := now - retain;
      var ids := written.Keys;
      ghost var before := written;
      while ids != {}
        invariant ids <= before.Keys && lastSweep == Some(now)
        invariant forall id :: id in written <==> id in before && (id in ids || !(before[id] < cutoff))
        invariant forall id :: id in written ==> written[id] == before[id]
        decreases |ids|
      {
        var id :| id in ids;
        ids := ids - {id};
        if written[id] < cutoff { written := written - {id}; }
      }
      assert written == map id | id in before && !(before[id] < cutoff) :: before[id];
    }

    method Claim(now: int, id: JobID) returns (owned: bool)
      modifies this
      ensures owned <==> Owns(old(State()), retain, now, id)
      ensures State() == Claimed(old(State()), retain, now, id)
    {
      Sweep(now);
      if id in written { return false; }
      written := written[id := now];
      return true;
    }

    method Release(id: JobID)
      modifies this
      ensures written == old(written) - {id} && lastSweep == old(lastSweep)
    {
      written := written - {id};
    }
  }

  class Sink {
    const route: Predicate
    const dedupe: Dedupe
    var emitted: seq<Emission>

    ghost function State(): SinkState
      reads this, dedupe
    {
      SinkState(route, dedupe.State(), emitted)
    }

    constructor (route: Predicate, retain: nat)
      ensures fresh(dedupe) && dedupe.retain == retain
      ensures State() == SinkState(route, Claims(map[], None), [])
    {
      this.route := route;
      this.dedupe := new Dedupe(retain);
      emitted := [];
    }

    /** RoutedSink over JSONLSink: claim, write, release on failure. */
    method Write(now: int, env: Envelope, works: bool) returns (ok: bool)
      modifies this, dedupe
      ensures State() == Written(old(State()), dedupe.retain, now, env, works)
      ensures ok <==> !Fails(old(State()), dedupe.retain, now, env, works)
    {
      if !Matches(route, env) { return true; }
      var owned := dedupe.Claim(now, env.id);
      if !owned { return true; }
      if !works {
        dedupe.Release(env.id);
        ghost var swept := Swept(old(dedupe.State()), dedupe.retain, now);
        assert swept.written[env.id := now] - {env.id} == swept.written;
        return false;
      }
      emitted := emitted + [Emission(env, now)];
      return true;
    }
  }

  /** MultiSink.Write: every sink is attempted, the index of the first failure is returned. */
  method WriteAll(sinks: seq<Sink>, now: int, env: Envelope, works: seq<bool>) returns (firstErr: Option<nat>)
    requires |works| == |sinks|
    requires forall i, j :: 0 <= i < j < |sinks| ==> sinks[i] != sinks[j] && sinks[i].dedupe != sinks[j].dedupe
    modifies set i | 0 <= i < |sinks| :: sinks[i], set i | 0 <= i < |sinks| :: sinks[i].dedupe
    ensures forall i :: 0 <= i < |sinks| ==>
              sinks[i].State() == Written(old(sinks[i].State()), sinks[i].dedupe.retain, now, env, works[i])
    ensures firstErr.None? <==>
              forall i :: 0 <= i < |sinks| ==> !Fails(old(sinks[i].State()), sinks[i].dedupe.retain, now, env, works[i])
    ensures firstErr.Some? ==>
      && firstErr.value < |sinks|
      && Fails(old(sinks[firstErr.value].State()), sinks[firstErr.value].dedupe.retain, now, env, works[firstErr.value])
      && forall i :: 0 <= i < firstErr.value ==> !Fails(old(sinks[i].State()), sinks[i].dedupe.retain, now, env, works[i])
  {
    firstErr := None;
    var k := 0;
    while k < |sinks|
      invariant 0 <= k <= |sinks|
      invariant forall i :: 0 <= i < k ==>
                  sinks[i].State() == Written(old(sinks[i].State()), sinks[i].dedupe.retain, now, env, works[i])
      invariant forall i :: k <= i < |sinks| ==> sinks[i].State() == old(sinks[i].State())
      invariant firstErr.None? <==>
                  forall i :: 0 <= i < k ==> !Fails(old(sinks[i].State()), sinks[i].dedupe.retain, now, env, works[i])
      invariant firstErr.Some? ==>
        && firstErr.value < k
        && Fails(old(sinks[firstErr.value].State()), sinks[firstErr.value].dedupe.retain, now, env, works[firstErr.value])
        && forall i :: 0 <= i < firstErr.value ==> !Fails(old(sinks[i].State()), sinks[i].dedupe.retain, now, env, works[i])
    {
      var ok := sinks[k].Write(now, env, works[k]);
      if !ok && firstErr.None? { firstErr := Some(k); }
      k := k + 1;
    }
  }

  // ---------------------------------------------------------------- one sink over many deliveries

  datatype Delivery = Delivery(now: int, env: Envelope, works: bool)

  function AfterDeliveries(s: SinkState, retain: nat, ds: seq<Delivery>): SinkState {
    if ds == [] then s
    else
      var d := ds[|ds| - 1];
      Written(AfterDeliveries(s, retain, ds[..|ds| - 1]), retain, d.now, d.env, d.works)
  }

  function Fresh(route: Predicate): SinkState {
    SinkState(route, Claims(map[], None), [])
  }

  predicate NonDecreasing(ds: seq<Delivery>) {
    forall i, j :: 0 <= i < j < |ds| ==> ds[i].now <= ds[j].now
  }

  ghost predicate WroteAt(emitted: seq<Emission>, id: JobID, at: int) {
    exists i :: 0 <= i < |emitted| && emitted[i].env.id == id && emitted[i].at == at
  }

  /** Emissions of one id lie more than a retention window apart; a remembered claim is the id's latest
      emission; an id that is not remembered was emitted more than a window ago. */
  ghost predicate SinkOk(s: SinkState, retain: nat, now: int) {
    && (forall i, j :: 0 <= i < j < |s.emitted| && s.emitted[i].env.id == s.emitted[j].env.id ==>
          s.emitted[j].at - s.emitted[i].at > retain)
    && (forall i :: 0 <= i < |s.emitted| ==> s.emitted[i].at <= now)
    && (forall id :: id in s.claims.written ==> WroteAt(s.emitted, id, s.claims.written[id]))
    && (forall i :: 0 <= i < |s.emitted| ==>
          (s.emitted[i].env.id in s.claims.written && s.emitted[i].at <= s.claims.written[s.emitted[i].env.id])
          || now - s.emitted[i].at > retain)
  }

  lemma {:induction false} SweptOk(s: SinkState, retain: nat, before: int, now: int)
    requires SinkOk(s, retain, before) && before <= now
    ensures SinkOk(s.(claims := Swept(s.claims, retain, now)), retain, now)
  {
  }

  lemma {:induction false} WroteBefore(emitted: seq<Emission>, x: Emission, id: JobID, at: int)
    requires WroteAt(emitted, id, at) || (x.env.id == id && x.at == at)
    ensures WroteAt(emitted + [x], id, at)
  {
    var all := emitted + [x];
    if WroteAt(emitted, id, at) {
      var i :| 0 <= i < |emitted| && emitted[i].env.id == id && emitted[i].at == at;
      assert all[i] == emitted[i];
    } else {
      assert all[|emitted|] == x;
    }
  }

  lemma {:induction false} EmitOk(s: SinkState, retain: nat, now: int, env: Envelope)
    requires SinkOk(s, retain, now) && env.id !in s.claims.written
    ensures SinkOk(s.(claims := s.claims.(written := s.claims.written[env.id := now]), emitted := s.emitted + [Emission(env, now)]),
                   retain, now)
  {
    var claims := s.claims.written[env.id := now];
    forall id | id in claims
      ensures WroteAt(s.emitted + [Emission(env, now)], id, claims[id])
    {
      WroteBefore(s.emitted, Emission(env, now), id, claims[id]);
    }
  }

  lemma {:induction false} WrittenOk(s: SinkState, retain: nat, before: int, now: int, env: Envelope, works: bool)
    requires SinkOk(s, retain, before) && before <= now
    ensures SinkOk(Written(s, retain, now, env, works), retain, now)
  {
    SweptOk(s, retain, before, now);
    var swept := s.(claims := Swept(s.claims, retain, now));
    if Matches(s.route, env) && Owns(s.claims, retain, now, env.id) && works {
      EmitOk(swept, retain, now, env);
    } else if !Matches(s.route, env) {
      LaterOk(s, retain, before, now);
    }
  }

  lemma {:induction false} LaterOk(s: SinkState, retain: nat, before: int, now: int)
    requires SinkOk(s, retain, before) && before <= now
    ensures SinkOk(s, retain, now)
  {
  }

  lemma {:induction false} DeliveriesOk(route: Predicate, retain: nat, ds: seq<Delivery>, now: int)
    requires NonDecreasing(ds) && (ds != [] ==> ds[|ds| - 1].now <= now)
    ensures SinkOk(AfterDeliveries(Fresh(route), retain, ds), retain, now)
  {
    if ds != [] {
      var n := |ds| - 1;
      var d := ds[n];
      DeliveriesOk(route, retain, ds[..n], d.now);
      var s := AfterDeliveries(Fresh(route), retain, ds[..n]);
      WrittenOk(s, retain, d.now, d.now, d.env, d.works);
      LaterOk(Written(s, retain, d.now, d.env, d.works), retain, d.now, now);
    }
  }

  /** Over any series of deliveries under a non-decreasing clock, a sink never emits one id twice within the
      retention window. */
  lemma {:induction false} AtMostOncePerWindow(route: Predicate, retain: nat, ds: seq<Delivery>, i: nat, j: nat)
    requires NonDecreasing(ds)
    requires i < j < |AfterDeliveries(Fresh(route), retain, ds).emitted|
    requires
      var e := AfterDeliveries(Fresh(route), retain, ds).emitted;
      e[i].env.id == e[j].env.id
    ensures
      var e := AfterDeliveries(Fresh(route), retain, ds).emitted;
      e[j].at - e[i].at > retain
  {
    var now := if ds == [] then 0 else ds[|ds| - 1].now;
    DeliveriesOk(route, retain, ds, now);
  }

  ghost predicate HasEmitted(s: SinkState, id: JobID) {
    exists i :: 0 <= i < |s.emitted| && s.emitted[i].env.id == id
  }

  /** If a delivery reports no error, a sink that matches the envelope has emitted its id, now or before. */
  lemma {:induction false} SuccessMeansEmitted(route: Predicate, retain: nat, ds: seq<Delivery>, d: Delivery)
    requires NonDecreasing(ds + [d])
    requires Matches(route, d.env)
    requires !Fails(AfterDeliveries(Fresh(route), retain, ds), retain, d.now, d.env, d.works)
    ensures HasEmitted(AfterDeliveries(Fresh(route), retain, ds + [d]), d.env.id)
  {
    var s := AfterDeliveries(Fresh(route), retain, ds);
    RouteKept(route, retain, ds);
    assert (ds + [d])[..|ds|] == ds;
    var s' := Written(s, retain, d.now, d.env, d.works);
    DeliveriesOk(route, retain, ds + [d], d.now);
    assert d.env.id in s'.claims.written;
    assert WroteAt(s'.emitted, d.env.id, s'.claims.written[d.env.id]);
  }

  lemma RouteKept(route: Predicate, retain: nat, ds: seq<Delivery>)
    ensures AfterDeliveries(Fresh(route), retain, ds).route == route
  {
  }

  // ---------------------------------------------------------------- all sinks over many deliveries

  datatype Round = Round(now: int, env: Envelope, works: seq<bool>)

  function Slice(rs: seq<Round>, k: nat): (ds: seq<Delivery>)
    requires forall r :: r in rs ==> k < |r.works|
    ensures |ds| == |rs|
    ensures forall i :: 0 <= i < |rs| ==> ds[i] == Delivery(rs[i].now, rs[i].env, rs[i].works[k])
  {
    if rs == [] then [] else [Delivery(rs[0].now, rs[0].env, rs[0].works[k])] + Slice(rs[1..], k)
  }

  /** validateOutput: some sink has no predicate, unless the operator accepted unrouted results. */
  predicate RoutesAccepted(routes: seq<Predicate>, allowUnrouted: bool) {
    routes != [] && (allowUnrouted || exists k :: 0 <= k < |routes| && routes[k].IsEmpty())
  }

  method ValidateRoutes(routes: seq<Predicate>, allowUnrouted: bool) returns (ok: bool)
    ensures ok <==> RoutesAccepted(routes, allowUnrouted)
    ensures ok <==> routes != [] && (allowUnrouted || exists k ::
      0 <= k < |routes| && routes[k].verdicts == [] && routes[k].categories == map[] && routes[k].sourceKinds == [])
  {
    if routes == [] { return false; }
    var unconditional := 0;
    for i := 0 to |routes|
      invariant 0 <= unconditional
      invariant unconditional == 0 <==> forall k :: 0 <= k < i ==> !routes[k].IsEmpty()
    {
      if routes[i].IsEmpty() { unconditional := unconditional + 1; }
    }
    return unconditional != 0 || allowUnrouted;
  }

  ghost predicate RoundFails(routes: seq<Predicate>, retain: nat, rs: seq<Round>, r: Round, k: nat)
    requires k < |routes| && k < |r.works| && forall x :: x in rs ==> k < |x.works|
  {
    Fails(AfterDeliveries(Fresh(routes[k]), retain, Slice(rs, k)), retain, r.now, r.env, r.works[k])
  }

  /** A fan-out that reports no error leaves the id emitted by every matching sink, and by at least one sink
      when the configuration has an unconditional one. */
  lemma {:induction false} NoErrorMeansDelivered(routes: seq<Predicate>, retain: nat, rs: seq<Round>, r: Round)
    requires |r.works| == |routes| && forall x :: x in rs ==> |x.works| == |routes|
    requires forall i, j :: 0 <= i < j < |rs| + 1 ==> (rs + [r])[i].now <= (rs + [r])[j].now
    requires forall k :: 0 <= k < |routes| ==> !RoundFails(routes, retain, rs, r, k)
    ensures forall k :: 0 <= k < |routes| && Matches(routes[k], r.env) ==>
              HasEmitted(AfterDeliveries(Fresh(routes[k]), retain, Slice(rs + [r], k)), r.env.id)
    ensures RoutesAccepted(routes, false) ==>
      exists k :: 0 <= k < |routes| && Matches(routes[k], r.env) &&
                  HasEmitted(AfterDeliveries(Fresh(routes[k]), retain, Slice(rs + [r], k)), r.env.id)
  {
    forall k | 0 <= k < |routes| && Matches(routes[k], r.env)
      ensures HasEmitted(AfterDeliveries(Fresh(routes[k]), retain, Slice(rs + [r], k)), r.env.id)
    {
      var d := Delivery(r.now, r.env, r.works[k]);
      var ds := Slice(rs, k);
      assert !RoundFails(routes, retain, rs, r, k);
      assert Slice(rs + [r], k) == ds + [d];
      SuccessMeansEmitted(routes[k], retain, ds, d);
    }
    if RoutesAccepted(routes, false) {
      var k :| 0 <= k < |routes| && routes[k].IsEmpty();
      EmptyMatchesAll(routes[k], r.env);
    }
  }
}
