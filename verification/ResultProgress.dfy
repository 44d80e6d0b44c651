/** What a read of the job-status cache returns, in terms of the documents recorded so far and the order of stages. */
module ResultProgress {
  import opened QueueTypes
  import opened ResultStore
  import opened ResultRuns

  /** a comes after b in a job's life: queued, then processing, then done or dead-lettered. */
  predicate Later(a: JobState, b: JobState) {
    (a != Queued && b == Queued) || ((a == Done || a == DeadLettered) && b == Processing)
  }

  /** What a read at time u returns after the operations. */
  function Answer(m: Limits, ops: seq<Op>, id: JobID, u: int): Option<Doc> {
    Got(Play(m, [], ops), id, u).1
  }

  // ---------------------------------------------------------------- one more operation

  lemma {:induction false} PlaySnoc(m: Limits, c: seq<Entry>, ops: seq<Op>, op: Op)
    ensures Play(m, c, ops + [op]) == Step(m, Play(m, c, ops), op)
    decreases |ops|
  {
    if ops == [] {
      assert ops + [op] == [op] && [op][1..] == [];
    } else {
      assert (ops + [op])[1..] == ops[1..] + [op];
      PlaySnoc(m, Step(m, c, ops[0]), ops[1..], op);
    }
  }

  lemma {:induction false} ForwardSnoc(from: int, ops: seq<Op>, op: Op)
    ensures Forward(from, ops + [op]) <==> Forward(from, ops) && Latest(from, ops) <= op.now
    ensures Latest(from, ops + [op]) == op.now
    decreases |ops|
  {
    if ops == [] {
      assert ops + [op] == [op] && [op][1..] == [];
    } else {
      assert (ops + [op])[1..] == ops[1..] + [op];
      ForwardSnoc(ops[0].now, ops[1..], op);
    }
  }

  /** Everything known before the last operation. */
  lemma {:induction false} LastOp(m: Limits, start: int, ops: seq<Op>) returns (c: seq<Entry>, now: int)
    requires ops != [] && Forward(start, ops)
    ensures var n := |ops| - 1;
      && Forward(start, ops[..n]) && now == Latest(start, ops[..n]) <= ops[n].now == Latest(start, ops)
      && c == Play(m, [], ops[..n]) && Play(m, [], ops) == Step(m, c, ops[n])
      && Kept(m, c, now)
  {
    var n := |ops| - 1;
    assert ops == ops[..n] + [ops[n]];
    PlaySnoc(m, [], ops[..n], ops[n]);
    ForwardSnoc(start, ops[..n], ops[n]);
    c, now := Play(m, [], ops[..n]), Latest(start, ops[..n]);
    RunKept(m, [], start, ops[..n]);
  }

  lemma {:induction false} FindFirst(x: Entry, c: seq<Entry>)
    ensures Find([x] + c, x.doc.id) == Some(0)
  {
  }

  lemma {:induction false} NewestFront(x: Entry, c: seq<Entry>, max: nat)
    ensures max > 0 ==> Newest([x] + c, max) != [] && Newest([x] + c, max)[0] == x
    ensures max == 0 ==> Newest([x] + c, max) == []
  {
  }

  lemma {:induction false} FrontAnswers(d: seq<Entry>, u: int)
    requires d != []
    ensures Got(d, d[0].doc.id, u).1 == if u < d[0].expires then Some(d[0].doc) else None
  {
    assert Find(d, d[0].doc.id) == Some(0);
  }

  /** The next read after a put: a put at a later stage, or of a job that could not be read, is what is read until
      its time to live is over; any other put changes nothing. */
  lemma {:induction false} PutThenRead(m: Limits, c: seq<Entry>, doc: Doc, t: int, u: int)
    ensures
      var before, after := Got(c, doc.id, t).1, Got(Step(m, c, Put(doc, t)), doc.id, u).1;
      if before.Some? && !Later(doc.state, before.value.state) then after == Got(c, doc.id, u).1
      else if Find(c, doc.id).Some? || m.max > 0 then after == if u < t + m.ttl then Some(doc) else None
      else after == None
  {
    var x, d := Entry(doc, t + m.ttl), Step(m, c, Put(doc, t));
    match Find(c, doc.id)
    case Some(i) =>
      if !(c[i].Live(t) && Rank(doc.state) <= Rank(c[i].doc.state)) {
        RecordedHeld(c, i, m.max, m.ttl, doc, t);
        assert d[0] == x;
        FrontAnswers(d, u);
      }
    case None =>
      NewestFront(x, c, m.max);
      if m.max > 0 { FrontAnswers(d, u); }
  }

  /** Nothing but a put of its own changes what is read of a job, except that the record may go. */
  lemma {:induction false} OthersLeaveAnswer(m: Limits, c: seq<Entry>, now: int, op: Op, id: JobID, u: int)
    requires Kept(m, c, now) && now <= op.now <= u && !(op.Put? && op.doc.id == id)
    requires Got(Step(m, c, op), id, u).1.Some?
    ensures Got(c, id, op.now).1 == Got(c, id, u).1 == Got(Step(m, c, op), id, u).1
  {
    StepHolds(m, c, op, id);
    if Find(c, id).Some? {
      var e := At(c, id);
      match op {
        case Put(doc, t) => OtherPut(m, c, doc, t, id);
        case Read(r, t) => ReadLeaves(c, r, t, id);
      }
    }
  }

  lemma {:induction false} ReadLeaves(c: seq<Entry>, r: JobID, t: int, id: JobID)
    requires Unique(c) && Find(c, id).Some? && Find(Got(c, r, t).0, id).Some?
    ensures At(Got(c, r, t).0, id) == At(c, id)
    ensures r == id ==> At(c, id).Live(t)
  {
    var f := Find(c, r);
    if f.Some? && r == id {
      WithoutUnique(c, f.value);
    } else if f.Some? {
      FindWithoutAt(c, f.value, Find(c, id).value);
      FrontedAt(c, f.value, c[f.value], id);
    }
  }

  /** An operation on another job brings no record of id. */
  lemma {:induction false} StepHolds(m: Limits, c: seq<Entry>, op: Op, id: JobID)
    requires Find(Step(m, c, op), id).Some? && !(op.Put? && op.doc.id == id)
    ensures Find(c, id).Some?
  {
    var d := Step(m, c, op);
    var k := Find(d, id).value;
    assert exists p :: 0 <= p < |c| && c[p].doc.id == id by {
      var f := Find(c, op.Id());
      if op.Put? && f.None? {
        assert d[k] == ([Entry(op.doc, op.now + m.ttl)] + c)[k] && k > 0;
        assert c[k - 1].doc.id == id;
      } else if f.Some? && d != c && k > 0 && |d| == |c| {
        assert d[1..] == Without(c, f.value);
        assert d[k] == Without(c, f.value)[k - 1];
        assert c[if k - 1 < f.value then k - 1 else k].doc.id == id;
      } else if f.Some? && |d| < |c| {
        assert c[if k < f.value then k else k + 1].doc.id == id;
      }
    }
  }

  // ---------------------------------------------------------------- the furthest stage

  predicate Puts(op: Op, id: JobID) {
    op.Put? && op.doc.id == id
  }

  /** The job's record was created by operation i and has been readable ever since. */
  predicate CreatedAt(m: Limits, ops: seq<Op>, id: JobID, i: nat) {
    && i < |ops| && Puts(ops[i], id)
    && Answer(m, ops[..i], id, ops[i].now) == None
    && forall j :: i < j < |ops| ==> Answer(m, ops[..j], id, ops[j].now).Some?
  }

  /** Operation k recorded doc, and of the job's documents since operation i none is at a later stage and all
      before it are at an earlier one. */
  predicate FurthestSince(ops: seq<Op>, id: JobID, i: nat, k: nat, doc: Doc) {
    && i <= k < |ops| && ops[k].Put? && ops[k].doc == doc && doc.id == id
    && (forall j :: i <= j < |ops| && Puts(ops[j], id) ==> !Later(ops[j].doc.state, doc.state))
    && (forall j :: i <= j < k && Puts(ops[j], id) ==> Later(doc.state, ops[j].doc.state))
  }

  /** Operation i created the record and operation k recorded what is read. */
  predicate Explained(m: Limits, ops: seq<Op>, id: JobID, u: int, doc: Doc, i: nat, k: nat) {
    CreatedAt(m, ops, id, i) && FurthestSince(ops, id, i, k, doc) && u < ops[k].now + m.ttl
  }

  lemma {:induction false} CreatedStill(m: Limits, ops: seq<Op>, id: JobID, i: nat)
    requires ops != [] && CreatedAt(m, ops[..|ops| - 1], id, i)
    requires Answer(m, ops[..|ops| - 1], id, ops[|ops| - 1].now).Some?
    ensures CreatedAt(m, ops, id, i)
  {
    var n := |ops| - 1;
    assert forall j :: 0 <= j <= n ==> ops[..n][..j] == ops[..j];
    forall j | i < j < |ops|
      ensures Answer(m, ops[..j], id, ops[j].now).Some?
    {
      if j < n { assert ops[..n][j] == ops[j]; }
    }
  }

  lemma {:induction false} FurthestStill(ops: seq<Op>, id: JobID, i: nat, k: nat, doc: Doc)
    requires ops != [] && FurthestSince(ops[..|ops| - 1], id, i, k, doc)
    requires Puts(ops[|ops| - 1], id) ==> !Later(ops[|ops| - 1].doc.state, doc.state)
    ensures FurthestSince(ops, id, i, k, doc)
  {
    var n := |ops| - 1;
    assert forall j :: 0 <= j < n ==> ops[..n][j] == ops[j];
  }

  lemma {:induction false} FurthestNow(ops: seq<Op>, id: JobID, i: nat, k: nat, doc: Doc)
    requires ops != [] && FurthestSince(ops[..|ops| - 1], id, i, k, doc)
    requires Puts(ops[|ops| - 1], id) && Later(ops[|ops| - 1].doc.state, doc.state)
    ensures FurthestSince(ops, id, i, |ops| - 1, ops[|ops| - 1].doc)
  {
    var n := |ops| - 1;
    assert forall j :: 0 <= j < n ==> ops[..n][j] == ops[j];
  }

  /** Over every run, what a read returns is the first document at the furthest stage recorded since the job's
      record was created, and that document is within its time to live. */
  lemma {:induction false} FurthestStageIsRead(m: Limits, start: int, ops: seq<Op>, id: JobID, u: int)
    requires Forward(start, ops) && Latest(start, ops) <= u && Answer(m, ops, id, u).Some?
    ensures exists i: nat, k: nat :: Explained(m, ops, id, u, Answer(m, ops, id, u).value, i, k)
    decreases |ops|
  {
    if ops != [] {
      var n := |ops| - 1;
      var c, now := LastOp(m, start, ops);
      var op, before := ops[n], Answer(m, ops[..n], id, ops[n].now);
      if Puts(op, id) {
        PutThenRead(m, c, op.doc, op.now, u);
        if before == None {
          assert Explained(m, ops, id, u, op.doc, n, n);
        } else if Later(op.doc.state, before.value.state) {
          FurthestStageIsRead(m, start, ops[..n], id, op.now);
          Overtaken(m, ops, id, u);
        } else {
          FurthestStageIsRead(m, start, ops[..n], id, u);
          assert before == Got(c, id, u).1 by { SameWhileLive(c, id, op.now, u); }
          Unchanged(m, ops, id, u);
        }
      } else {
        OthersLeaveAnswer(m, c, now, op, id, u);
        FurthestStageIsRead(m, start, ops[..n], id, u);
        Unchanged(m, ops, id, u);
      }
    }
  }

  lemma {:induction false} SameWhileLive(c: seq<Entry>, id: JobID, t: int, u: int)
    requires t <= u && Got(c, id, u).1.Some?
    ensures Got(c, id, t).1 == Got(c, id, u).1
  {
  }

  lemma {:induction false} Unchanged(m: Limits, ops: seq<Op>, id: JobID, u: int)
    requires ops != [] && Answer(m, ops, id, u).Some?
    requires var n := |ops| - 1; var doc := Answer(m, ops, id, u).value;
      && Answer(m, ops[..n], id, ops[n].now) == Some(doc)
      && (Puts(ops[n], id) ==> !Later(ops[n].doc.state, doc.state))
      && exists i: nat, k: nat :: Explained(m, ops[..n], id, u, doc, i, k)
    ensures exists i: nat, k: nat :: Explained(m, ops, id, u, Answer(m, ops, id, u).value, i, k)
  {
    var doc := Answer(m, ops, id, u).value;
    var i: nat, k: nat :| Explained(m, ops[..|ops| - 1], id, u, doc, i, k);
    CreatedStill(m, ops, id, i);
    FurthestStill(ops, id, i, k, doc);
    assert Explained(m, ops, id, u, doc, i, k);
  }

  lemma {:induction false} Overtaken(m: Limits, ops: seq<Op>, id: JobID, u: int)
    requires ops != [] && Puts(ops[|ops| - 1], id)
    requires var n := |ops| - 1; var before := Answer(m, ops[..n], id, ops[n].now);
      && Answer(m, ops, id, u) == Some(ops[n].doc) && u < ops[n].now + m.ttl
      && before.Some? && Later(ops[n].doc.state, before.value.state)
      && exists i: nat, k: nat :: Explained(m, ops[..n], id, ops[n].now, before.value, i, k)
    ensures exists i: nat, k: nat :: Explained(m, ops, id, u, Answer(m, ops, id, u).value, i, k)
  {
    var n := |ops| - 1;
    var before := Answer(m, ops[..n], id, ops[n].now).value;
    var i: nat, k: nat :| Explained(m, ops[..n], id, ops[n].now, before, i, k);
    CreatedStill(m, ops, id, i);
    FurthestNow(ops, id, i, k, before);
    assert Explained(m, ops, id, u, ops[n].doc, i, n);
  }

  // ---------------------------------------------------------------- recency

  /** The last operation was a read that found its job, or a put that was not refused. */
  predicate Touches(m: Limits, ops: seq<Op>)
    requires ops != []
  {
    var n := |ops| - 1;
    var before := Answer(m, ops[..n], ops[n].Id(), ops[n].now);
    if ops[n].Put? then before == None || Later(ops[n].doc.state, before.value.state) else before.Some?
  }

  /** When id was last touched, counting operations from one; zero for never. */
  function LastTouch(m: Limits, ops: seq<Op>, id: JobID): (n: nat)
    ensures n <= |ops|
  {
    if ops == [] then 0
    else if ops[|ops| - 1].Id() == id && Touches(m, ops) then |ops|
    else LastTouch(m, ops[..|ops| - 1], id)
  }

  /** Most recently touched first. */
  ghost predicate ByTouch(m: Limits, ops: seq<Op>, c: seq<Entry>) {
    forall p, q :: 0 <= p < q < |c| ==> LastTouch(m, ops, c[p].doc.id) > LastTouch(m, ops, c[q].doc.id)
  }

  lemma {:induction false} UntouchedSame(m: Limits, ops: seq<Op>, c: seq<Entry>)
    requires ops != [] && ByTouch(m, ops[..|ops| - 1], c)
    requires Touches(m, ops) ==> forall p :: 0 <= p < |c| ==> c[p].doc.id != ops[|ops| - 1].Id()
    ensures ByTouch(m, ops, c)
  {
  }

  lemma {:induction false} FrontByTouch(m: Limits, ops: seq<Op>, x: Entry, c: seq<Entry>)
    requires ops != [] && Touches(m, ops) && x.doc.id == ops[|ops| - 1].Id()
    requires ByTouch(m, ops[..|ops| - 1], c) && forall p :: 0 <= p < |c| ==> c[p].doc.id != x.doc.id
    ensures ByTouch(m, ops, [x] + c)
  {
    UntouchedSame(m, ops, c);
    var d := [x] + c;
    forall p, q | 0 <= p < q < |d|
      ensures LastTouch(m, ops, d[p].doc.id) > LastTouch(m, ops, d[q].doc.id)
    {
      assert d[q] == c[q - 1];
      if p > 0 { assert d[p] == c[p - 1]; }
    }
  }

  lemma {:induction false} WithoutByTouch(m: Limits, ops: seq<Op>, c: seq<Entry>, i: nat)
    requires ByTouch(m, ops, c) && i < |c|
    ensures ByTouch(m, ops, Without(c, i))
  {
    var d := Without(c, i);
    assert forall p :: 0 <= p < |d| ==> d[p] == c[if p < i then p else p + 1];
  }

  lemma {:induction false} NewestByTouch(m: Limits, ops: seq<Op>, c: seq<Entry>, max: nat)
    requires ByTouch(m, ops, c)
    ensures ByTouch(m, ops, Newest(c, max))
  {
  }

  lemma {:induction false} PutOrder(m: Limits, ops: seq<Op>, c: seq<Entry>)
    requires ops != [] && ops[|ops| - 1].Put? && Unique(c) && c == Play(m, [], ops[..|ops| - 1])
    requires ByTouch(m, ops[..|ops| - 1], c)
    ensures ByTouch(m, ops, Step(m, c, ops[|ops| - 1]))
  {
    var n := |ops| - 1;
    var doc, t := ops[n].doc, ops[n].now;
    var x := Entry(doc, t + m.ttl);
    match Find(c, doc.id)
    case Some(i) =>
      if c[i].Live(t) && Rank(doc.state) <= Rank(c[i].doc.state) {
        UntouchedSame(m, ops, c);
      } else {
        RecordedHeld(c, i, m.max, m.ttl, doc, t);
        WithoutUnique(c, i);
        WithoutByTouch(m, ops[..n], c, i);
        FrontByTouch(m, ops, x, Without(c, i));
      }
    case None =>
      FrontByTouch(m, ops, x, c);
      NewestByTouch(m, ops, [x] + c, m.max);
  }

  lemma {:induction false} ReadOrder(m: Limits, ops: seq<Op>, c: seq<Entry>)
    requires ops != [] && ops[|ops| - 1].Read? && Unique(c) && c == Play(m, [], ops[..|ops| - 1])
    requires ByTouch(m, ops[..|ops| - 1], c)
    ensures ByTouch(m, ops, Step(m, c, ops[|ops| - 1]))
  {
    var n := |ops| - 1;
    match Find(c, ops[n].id)
    case Some(i) =>
      WithoutUnique(c, i);
      WithoutByTouch(m, ops[..n], c, i);
      if c[i].Live(ops[n].now) {
        FrontByTouch(m, ops, c[i], Without(c, i));
      } else {
        UntouchedSame(m, ops, Without(c, i));
      }
    case None => UntouchedSame(m, ops, c);
  }

  /** After every run the list holds its records by last touch, the latest first. */
  lemma {:induction false} RecencyOrder(m: Limits, start: int, ops: seq<Op>)
    requires Forward(start, ops)
    ensures ByTouch(m, ops, Play(m, [], ops))
    decreases |ops|
  {
    if ops != [] {
      var n := |ops| - 1;
      var c, now := LastOp(m, start, ops);
      RecencyOrder(m, start, ops[..n]);
      if ops[n].Put? { PutOrder(m, ops, c); } else { ReadOrder(m, ops, c); }
    }
  }

  /** id has a record before the last operation and none after it. */
  predicate Leaves(m: Limits, ops: seq<Op>, id: JobID)
    requires ops != []
  {
    Find(Play(m, [], ops[..|ops| - 1]), id).Some? && Find(Play(m, [], ops), id).None?
  }

  lemma {:induction false} StillThere(c: seq<Entry>, i: nat, x: Entry, id: JobID)
    requires Unique(c) && i < |c| && c[i].doc.id == x.doc.id && Find(c, id).Some?
    ensures Find([x] + Without(c, i), id).Some?
  {
    if id != x.doc.id {
      FrontedAt(c, i, x, id);
    } else {
      FindFirst(x, Without(c, i));
    }
  }

  lemma {:induction false} PutDrops(m: Limits, c: seq<Entry>, doc: Doc, t: int, id: JobID)
    requires Unique(c) && |c| <= m.max && Find(c, id).Some? && Find(Recorded(c, m.max, m.ttl, doc, t), id).None?
    ensures Find(c, doc.id).None? && |c| == m.max && c[|c| - 1].doc.id == id
  {
    var x := Entry(doc, t + m.ttl);
    match Find(c, doc.id)
    case Some(i) => StillThere(c, i, x, id);
    case None =>
      FindPushed(c, x, id);
      FindNewest([x] + c, m.max, id);
  }

  lemma {:induction false} ReadDrops(c: seq<Entry>, r: JobID, t: int, id: JobID)
    requires Unique(c) && Find(c, id).Some? && Find(Got(c, r, t).0, id).None?
    ensures r == id && Got(c, id, t).1 == None
  {
    match Find(c, r)
    case Some(i) =>
      StillThere(c, i, c[i], id);
      if r != id { FindWithout(c, i, id); }
    case None =>
  }

  /** A record goes only when a read finds it expired, or when a new job finds the cache full and the record is the
      one whose last touch is the oldest. */
  lemma {:induction false} OnlyOldestGoes(m: Limits, start: int, ops: seq<Op>, id: JobID)
    requires ops != [] && Forward(start, ops) && Leaves(m, ops, id)
    ensures
      var past, op := ops[..|ops| - 1], ops[|ops| - 1];
      var c := Play(m, [], past);
      || (op == Read(id, op.now) && Answer(m, past, id, op.now) == None)
      || (&& op.Put? && Find(c, op.doc.id).None? && |c| == m.max
          && forall e :: e in c && e.doc.id != id ==> LastTouch(m, past, e.doc.id) > LastTouch(m, past, id))
  {
    var n := |ops| - 1;
    var c, now := LastOp(m, start, ops);
    match ops[n]
    case Put(doc, t) =>
      PutDrops(m, c, doc, t, id);
      RecencyOrder(m, start, ops[..n]);
    case Read(r, t) => ReadDrops(c, r, t, id);
  }
}
