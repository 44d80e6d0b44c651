/** What pollers may rely on over whole runs of the job-status cache. */
module ResultRuns {
  import opened QueueTypes
  import opened ResultStore

  datatype Limits = Limits(max: nat, ttl: int)

  datatype Op = Put(doc: Doc, now: int) | Read(id: JobID, now: int)
  {
    function Id(): JobID { if Put? then doc.id else id }
  }

  function Step(m: Limits, c: seq<Entry>, op: Op): seq<Entry> {
    match op
    case Put(doc, now) => Recorded(c, m.max, m.ttl, doc, now)
    case Read(id, now) => Got(c, id, now).0
  }

  function Play(m: Limits, c: seq<Entry>, ops: seq<Op>): seq<Entry>
    decreases |ops|
  {
    if ops == [] then c else Play(m, Step(m, c, ops[0]), ops[1..])
  }

  /** The clock at or after `from` never runs backwards. */
  ghost predicate Forward(from: int, ops: seq<Op>)
    decreases |ops|
  {
    ops == [] || (from <= ops[0].now && Forward(ops[0].now, ops[1..]))
  }

  /** The time of the last operation. */
  function Latest(from: int, ops: seq<Op>): int
    decreases |ops|
  {
    if ops == [] then from else Latest(ops[0].now, ops[1..])
  }

  // ---------------------------------------------------------------- positions

  lemma {:induction false} WithoutUnique(c: seq<Entry>, i: nat)
    requires Unique(c) && i < |c|
    ensures Unique(Without(c, i)) && forall k :: 0 <= k < |c| - 1 ==> Without(c, i)[k].doc.id != c[i].doc.id
  {
  }

  /** Where the other records go when record i leaves. */
  lemma {:induction false} FindWithoutAt(c: seq<Entry>, i: nat, p: nat)
    requires Unique(c) && i < |c| && p < |c| && i != p
    ensures Find(Without(c, i), c[p].doc.id) == Some(if p < i then p else p - 1)
    ensures Without(c, i)[if p < i then p else p - 1] == c[p]
  {
    WithoutUnique(c, i);
    FindAt(Without(c, i), if p < i then p else p - 1);
  }

  lemma {:induction false} FindPushed(c: seq<Entry>, x: Entry, id: JobID)
    requires x.doc.id != id
    ensures Find([x] + c, id) == match Find(c, id) case None => None case Some(p) => Some(p + 1)
  {
    assert ([x] + c)[1..] == c;
  }

  lemma {:induction false} FindNewest(c: seq<Entry>, max: nat, id: JobID)
    requires Unique(c)
    ensures Find(Newest(c, max), id) == if Find(c, id).Some? && Find(c, id).value < max then Find(c, id) else None
  {
    var n := Newest(c, max);
    if Find(n, id).Some? {
      var q := Find(n, id).value;
      assert c[q].doc.id == id;
      FindAt(c, q);
    }
  }

  // ---------------------------------------------------------------- every run stays within bounds

  /** No id twice, the cap holds, and no record outlives its time to live. */
  ghost predicate Kept(m: Limits, c: seq<Entry>, now: int) {
    && Unique(c)
    && |c| <= m.max
    && forall i :: 0 <= i < |c| ==> c[i].expires <= now + m.ttl
  }

  lemma {:induction false} StepKept(m: Limits, c: seq<Entry>, now: int, op: Op)
    requires Kept(m, c, now) && now <= op.now
    ensures Kept(m, Step(m, c, op), op.now)
  {
    var f := Find(c, op.Id());
    if f.Some? { WithoutUnique(c, f.value); }
  }

  lemma {:induction false} RunKept(m: Limits, c: seq<Entry>, now: int, ops: seq<Op>)
    requires Kept(m, c, now) && Forward(now, ops)
    ensures Kept(m, Play(m, c, ops), Latest(now, ops))
    decreases |ops|
  {
    if ops != [] {
      StepKept(m, c, now, ops[0]);
      RunKept(m, Step(m, c, ops[0]), ops[0].now, ops[1..]);
    }
  }

  // ---------------------------------------------------------------- a status never walks back

  predicate Terminal(s: JobState) { s.Done? || s.DeadLettered? }

  /** The lifecycle runs queued, processing, then one terminal state for good. */
  predicate Onward(before: JobState, after: JobState) {
    match before
    case Queued => true
    case Processing => !after.Queued?
    case _ => after == before
  }

  /** What a later record of the same job may look like. */
  ghost predicate Advances(before: Entry, after: Entry) {
    && before.doc.id == after.doc.id
    && before.expires <= after.expires
    && Rank(before.doc.state) <= Rank(after.doc.state)
    && (Rank(before.doc.state) == Rank(after.doc.state) ==> before == after)
  }

  /** Before every operation, id has a record that has not expired by then. */
  ghost predicate HeldThroughout(m: Limits, c: seq<Entry>, ops: seq<Op>, id: JobID)
    decreases |ops|
  {
    && Find(c, id).Some?
    && (ops == [] ||
        (c[Find(c, id).value].Live(ops[0].now) && HeldThroughout(m, Step(m, c, ops[0]), ops[1..], id)))
  }

  ghost function At(c: seq<Entry>, id: JobID): Entry
    requires Find(c, id).Some?
  {
    c[Find(c, id).value]
  }

  /** Another record moving to the front leaves id's record as it is. */
  lemma {:induction false} FrontedAt(c: seq<Entry>, i: nat, x: Entry, id: JobID)
    requires Unique(c) && Find(c, id).Some? && i < |c| && c[i].doc.id != id && x.doc.id != id
    ensures Find([x] + Without(c, i), id).Some? && At([x] + Without(c, i), id) == At(c, id)
    ensures Find([x] + Without(c, i), id).value == var p := Find(c, id).value; if p < i then p + 1 else p
  {
    FindWithoutAt(c, i, Find(c, id).value);
    FindPushed(Without(c, i), x, id);
  }

  lemma {:induction false} PushedAt(c: seq<Entry>, max: nat, x: Entry, id: JobID)
    requires Unique([x] + c) && Find(c, id).Some? && x.doc.id != id && Find(Newest([x] + c, max), id).Some?
    ensures At(Newest([x] + c, max), id) == At(c, id)
  {
    FindPushed(c, x, id);
    FindNewest([x] + c, max, id);
  }

  lemma {:induction false} PutAdvances(m: Limits, c: seq<Entry>, now: int, doc: Doc, t: int, id: JobID)
    requires Kept(m, c, now) && now <= t && Find(c, id).Some? && At(c, id).Live(t)
    requires Find(Recorded(c, m.max, m.ttl, doc, t), id).Some?
    ensures Advances(At(c, id), At(Recorded(c, m.max, m.ttl, doc, t), id))
  {
    if doc.id == id { OwnPut(m, c, doc, t); } else { OtherPut(m, c, doc, t, id); }
  }

  lemma {:induction false} OwnPut(m: Limits, c: seq<Entry>, doc: Doc, t: int)
    requires Find(c, doc.id).Some? && At(c, doc.id).Live(t) && At(c, doc.id).expires <= t + m.ttl
    ensures var d := Recorded(c, m.max, m.ttl, doc, t);
      Find(d, doc.id).Some? && Advances(At(c, doc.id), At(d, doc.id))
  {
    var i := Find(c, doc.id).value;
    if Rank(doc.state) <= Rank(c[i].doc.state) {
      RecordedRefused(c, i, m.max, m.ttl, doc, t);
    } else {
      RecordedHeld(c, i, m.max, m.ttl, doc, t);
    }
  }

  lemma {:induction false} OtherPut(m: Limits, c: seq<Entry>, doc: Doc, t: int, id: JobID)
    requires Unique(c) && doc.id != id && Find(c, id).Some? && Find(Recorded(c, m.max, m.ttl, doc, t), id).Some?
    ensures At(Recorded(c, m.max, m.ttl, doc, t), id) == At(c, id)
  {
    var x := Entry(doc, t + m.ttl);
    match Find(c, doc.id)
    case Some(i) =>
      if !(c[i].Live(t) && Rank(doc.state) <= Rank(c[i].doc.state)) { FrontedAt(c, i, x, id); }
    case None => PushedAt(c, m.max, x, id);
  }

  lemma {:induction false} ReadAdvances(m: Limits, c: seq<Entry>, now: int, r: JobID, t: int, id: JobID)
    requires Kept(m, c, now) && now <= t && Find(c, id).Some? && At(c, id).Live(t)
    ensures Find(Got(c, r, t).0, id).Some? && At(Got(c, r, t).0, id) == At(c, id)
  {
    var f, p := Find(c, r), Find(c, id).value;
    if r != id && f.Some? {
      FindWithoutAt(c, f.value, p);
      FrontedAt(c, f.value, c[f.value], id);
    }
  }

  lemma {:induction false} StepAdvances(m: Limits, c: seq<Entry>, now: int, op: Op, id: JobID)
    requires Kept(m, c, now) && now <= op.now && Find(c, id).Some? && At(c, id).Live(op.now)
    requires Find(Step(m, c, op), id).Some?
    ensures Advances(At(c, id), At(Step(m, c, op), id))
  {
    match op
    case Put(doc, t) => PutAdvances(m, c, now, doc, t, id);
    case Read(r, t) => ReadAdvances(m, c, now, r, t, id);
  }

  /**
   * While a record is unexpired and unevicted, its rank never drops and a record of the
   * same rank is the same record, so the first terminal document stands unchanged.
   */
  lemma {:induction false} NeverWalksBack(m: Limits, c: seq<Entry>, now: int, ops: seq<Op>, id: JobID)
    requires Kept(m, c, now) && Forward(now, ops) && HeldThroughout(m, c, ops, id)
    ensures Find(Play(m, c, ops), id).Some?
    ensures Advances(At(c, id), At(Play(m, c, ops), id))
    ensures Onward(At(c, id).doc.state, At(Play(m, c, ops), id).doc.state)
    ensures Terminal(At(c, id).doc.state) ==> At(Play(m, c, ops), id) == At(c, id)
    decreases |ops|
  {
    if ops != [] {
      var d := Step(m, c, ops[0]);
      StepAdvances(m, c, now, ops[0], id);
      StepKept(m, c, now, ops[0]);
      NeverWalksBack(m, d, ops[0].now, ops[1..], id);
    }
  }

  // ---------------------------------------------------------------- when a record survives

  /** Ids other than id that the operations name. */
  ghost function Others(ops: seq<Op>, id: JobID): set<JobID> {
    set k | 0 <= k < |ops| && ops[k].Id() != id :: ops[k].Id()
  }

  /** Everything ahead of id in the list is one of `ahead`. */
  ghost predicate Behind(c: seq<Entry>, id: JobID, ahead: set<JobID>) {
    && Find(c, id).Some?
    && forall k :: 0 <= k < Find(c, id).value ==> c[k].doc.id in ahead
  }

  lemma {:induction false} DistinctIds(c: seq<Entry>, p: nat, ids: set<JobID>)
    requires Unique(c) && p <= |c| && forall k :: 0 <= k < p ==> c[k].doc.id in ids
    ensures p <= |ids|
    decreases p
  {
    if p > 0 {
      var last := c[p - 1].doc.id;
      DistinctIds(c, p - 1, ids - {last});
      assert |ids - {last}| == |ids| - 1;
    }
  }

  /** Moving another record to the front leaves only `ahead` before id. */
  lemma {:induction false} FrontedBehind(c: seq<Entry>, i: nat, x: Entry, id: JobID, ahead: set<JobID>)
    requires Unique(c) && Behind(c, id, ahead) && i < |c| && c[i].doc.id != id && x.doc.id in ahead && x.doc.id != id
    ensures Behind([x] + Without(c, i), id, ahead)
  {
    FrontedAt(c, i, x, id);
    var d, p := [x] + Without(c, i), Find(c, id).value;
    forall k | 0 <= k < Find(d, id).value
      ensures d[k].doc.id in ahead
    {
      if k > 0 { assert d[k] == if k - 1 < i then c[k - 1] else c[k]; }
    }
  }

  lemma {:induction false} PushedBehind(c: seq<Entry>, max: nat, x: Entry, id: JobID, ahead: set<JobID>)
    requires Unique([x] + c) && Behind(c, id, ahead) && x.doc.id in ahead && x.doc.id != id && |ahead| < max
    ensures Behind(Newest([x] + c, max), id, ahead)
  {
    var d, p := [x] + c, Find(c, id).value;
    FindPushed(c, x, id);
    FindNewest(d, max, id);
    assert forall k :: 0 <= k < p + 1 ==> d[k].doc.id in ahead;
    DistinctIds(d, p + 1, ahead);
  }

  lemma {:induction false} PutBehind(m: Limits, c: seq<Entry>, doc: Doc, t: int, id: JobID, ahead: set<JobID>)
    requires Unique(c) && Behind(c, id, ahead) && doc.id in ahead + {id} && |ahead| < m.max
    ensures Behind(Recorded(c, m.max, m.ttl, doc, t), id, ahead)
  {
    var x := Entry(doc, t + m.ttl);
    if doc.id != id {
      match Find(c, doc.id)
      case Some(i) => FrontedBehind(c, i, x, id, ahead);
      case None => PushedBehind(c, m.max, x, id, ahead);
    }
  }

  lemma {:induction false} ReadBehind(m: Limits, c: seq<Entry>, r: JobID, t: int, id: JobID, ahead: set<JobID>)
    requires Unique(c) && Behind(c, id, ahead) && r in ahead + {id} && At(c, id).Live(t)
    ensures Behind(Got(c, r, t).0, id, ahead)
  {
    var f := Find(c, r);
    if r != id && f.Some? {
      FindWithoutAt(c, f.value, Find(c, id).value);
      FrontedBehind(c, f.value, c[f.value], id, ahead);
    }
  }

  /**
   * Eviction is least recently used: a record survives as long as it has not expired and
   * fewer than max other jobs were named ahead of it.
   */
  lemma {:induction false} SurvivesUnless(m: Limits, c: seq<Entry>, now: int, ops: seq<Op>, id: JobID, ahead: set<JobID>)
    requires Kept(m, c, now) && Forward(now, ops) && Behind(c, id, ahead)
    requires |ahead| < m.max && Others(ops, id) <= ahead
    requires forall k :: 0 <= k < |ops| ==> ops[k].now < At(c, id).expires
    ensures HeldThroughout(m, c, ops, id)
    decreases |ops|
  {
    if ops != [] {
      var op, d := ops[0], Step(m, c, ops[0]);
      assert op.Id() in Others(ops, id) + {id};
      match op {
        case Put(doc, t) => PutBehind(m, c, doc, t, id, ahead);
        case Read(r, t) => ReadBehind(m, c, r, t, id, ahead);
      }
      StepKept(m, c, now, op);
      StepAdvances(m, c, now, op, id);
      SurvivesUnless(m, d, op.now, ops[1..], id, ahead);
    }
  }

  /**
   * A poller that reads a document and reads again before it expires, with fewer than max
   * other jobs touched in between, sees the same job at the same or a later state, and the
   * very same document once it was terminal.
   */
  lemma {:induction false} PollsAgree(m: Limits, past: seq<Op>, start: int, id: JobID, t: int, ops: seq<Op>, u: int)
    requires Forward(start, past)
    requires var c := Play(m, [], past);
      && Latest(start, past) <= t
      && Got(c, id, t).1.Some?
      && Forward(t, ops) && Latest(t, ops) <= u < At(c, id).expires
      && (forall k :: 0 <= k < |ops| ==> ops[k].now <= u)
      && |Others(ops, id)| < m.max
    ensures var c := Play(m, [], past);
      var first := Got(c, id, t).1.value;
      var second := Got(Play(m, Got(c, id, t).0, ops), id, u).1;
      && second.Some? && second.value.id == first.id
      && Onward(first.state, second.value.state)
      && (Terminal(first.state) ==> second.value == first)
  {
    var c := Play(m, [], past);
    RunKept(m, [], start, past);
    var d := Got(c, id, t).0;
    StepKept(m, c, Latest(start, past), Read(id, t));
    assert d[0] == At(c, id) && Find(d, id) == Some(0);
    SurvivesUnless(m, d, t, ops, id, Others(ops, id));
    NeverWalksBack(m, d, t, ops, id);
  }
}
