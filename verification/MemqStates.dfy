/** The in-process driver's table of job states, which forgets only finished jobs. */
module MemqStates {
  import opened QueueTypes

  datatype Stage = Queued | Running | Retrying | Done | Dead
  {
    predicate Terminal() { Done? || Dead? }
  }

  /** maxFinishedStates */
  const MAX_FINISHED: nat := 500

  datatype Table = Table(states: map<JobID, Stage>, finished: seq<JobID>)
  {
    predicate Finished(id: JobID) { id in states && states[id].Terminal() }
  }

  // ---------------------------------------------------------------- setState on values

  /** The oldest finished id ages out, unless it has gone back in flight. */
  function Pop(t: Table): Table
    requires t.finished != []
  {
    var id := t.finished[0];
    Table(if t.Finished(id) then t.states - {id} else t.states, t.finished[1..])
  }

  function Trim(t: Table): Table
    decreases |t.finished|
  {
    if |t.finished| <= MAX_FINISHED then t else Trim(Pop(t))
  }

  function Set(t: Table, id: JobID, s: Stage): Table {
    var t1 := t.(states := t.states[id := s]);
    if !s.Terminal() || t.Finished(id) then t1 else Trim(t1.(finished := t1.finished + [id]))
  }

  class JobTable {
    var states: map<JobID, Stage>
    var finished: seq<JobID>

    ghost function Value(): Table
      reads this
    {
      Table(states, finished)
    }

    constructor ()
      ensures Value() == Table(map[], [])
    {
      states, finished := map[], [];
    }

    method SetState(id: JobID, s: Stage)
      modifies this
      ensures Value() == Set(old(Value()), id, s)
    {
      var counted := id in states && states[id].Terminal();
      states := states[id := s];
      if !s.Terminal() || counted { return; }
      finished := finished + [id];
      while |finished| > MAX_FINISHED
        invariant Trim(Value()) == Set(old(Value()), id, s)
        decreases |finished|
      {
        var oldest := finished[0];
        finished := finished[1..];
        if oldest in states && states[oldest].Terminal() {
          states := states - {oldest};
        }
      }
    }
  }

  // ---------------------------------------------------------------- every sequence of calls

  datatype Call = Call(id: JobID, state: Stage)

  function Play(h: seq<Call>): Table {
    if h == [] then Table(map[], []) else Set(Play(h[..|h| - 1]), h[|h| - 1].id, h[|h| - 1].state)
  }

  /** The state id was last given. */
  function Last(h: seq<Call>, id: JobID): Option<Stage> {
    if h == [] then None
    else if h[|h| - 1].id == id then Some(h[|h| - 1].state)
    else Last(h[..|h| - 1], id)
  }

  /** Finished ids are queued for ageing out. */
  ghost predicate Tracked(t: Table) {
    forall id :: t.Finished(id) ==> id in t.finished
  }

  /** u is t without some finished ids. */
  ghost predicate Forgets(t: Table, u: Table) {
    && (forall id :: id in u.states ==> id in t.states && u.states[id] == t.states[id])
    && (forall id :: id in t.states && !t.states[id].Terminal() ==> id in u.states)
  }

  lemma {:induction false} TrimForgets(t: Table)
    requires Tracked(t)
    ensures Tracked(Trim(t)) && |Trim(t).finished| <= MAX_FINISHED && Forgets(t, Trim(t))
    decreases |t.finished|
  {
    if |t.finished| > MAX_FINISHED {
      forall id | Pop(t).Finished(id)
        ensures id in Pop(t).finished
      {
        assert id in t.finished && id != t.finished[0];
      }
      TrimForgets(Pop(t));
    }
  }

  lemma {:induction false} SetForgets(t: Table, id: JobID, s: Stage)
    requires Tracked(t) && |t.finished| <= MAX_FINISHED
    ensures Tracked(Set(t, id, s)) && |Set(t, id, s).finished| <= MAX_FINISHED
    ensures Forgets(t.(states := t.states[id := s]), Set(t, id, s))
  {
    var t1 := t.(states := t.states[id := s]);
    if !(!s.Terminal() || t.Finished(id)) {
      var t2 := t1.(finished := t1.finished + [id]);
      forall x | t2.Finished(x)
        ensures x in t2.finished
      {
        if x != id { assert t.Finished(x); }
      }
      TrimForgets(t2);
    } else {
      forall x | t1.Finished(x)
        ensures x in t1.finished
      {
        assert t.Finished(x);
      }
    }
  }

  /**
   * After any sequence of calls every held state is the last one set, every job last seen in flight is held,
   * every finished job that is held is queued for ageing out, and that queue stays within its cap.
   */
  lemma {:induction false} InFlightNeverDropped(h: seq<Call>)
    ensures Tracked(Play(h)) && |Play(h).finished| <= MAX_FINISHED
    ensures forall id :: id in Play(h).states ==> Last(h, id) == Some(Play(h).states[id])
    ensures forall id :: Last(h, id).Some? && !Last(h, id).value.Terminal() ==> id in Play(h).states
  {
    if h != [] {
      var n := |h| - 1;
      InFlightNeverDropped(h[..n]);
      SetForgets(Play(h[..n]), h[n].id, h[n].state);
    }
  }

  lemma {:induction false} DistinctWithin(ids: set<JobID>, l: seq<JobID>)
    requires forall id :: id in ids ==> id in l
    ensures |ids| <= |l|
    decreases |l|
  {
    if l != [] {
      DistinctWithin(ids - {l[0]}, l[1..]);
    }
  }

  /** At most 500 finished jobs are held, however often ids finish, go back in flight and finish again. */
  lemma {:induction false} FinishedBounded(h: seq<Call>)
    ensures |set id | id in Play(h).states && Play(h).Finished(id)| <= MAX_FINISHED
  {
    InFlightNeverDropped(h);
    DistinctWithin((set id | id in Play(h).states && Play(h).Finished(id)), Play(h).finished);
  }

  /**
   * A job that has just finished is held, with one exception: the ageing queue is full and its oldest entry is
   * an earlier finish of this same job, which had gone back in flight since.
   */
  lemma {:induction false} JustFinishedIsHeldIff(h: seq<Call>, id: JobID, s: Stage)
    requires s.Terminal()
    ensures id in Play(h + [Call(id, s)]).states <==>
      var t := Play(h);
      t.Finished(id) || |t.finished| < MAX_FINISHED || t.finished[0] != id
  {
    var t := Play(h);
    InFlightNeverDropped(h);
    assert (h + [Call(id, s)])[..|h|] == h;
    if !t.Finished(id) && |t.finished| == MAX_FINISHED {
      var t2 := Table(t.states[id := s], t.finished + [id]);
      assert Trim(t2) == Trim(Pop(t2)) == Pop(t2);
    }
  }

  // ---------------------------------------------------------------- how long a finished job is held

  /** The ids that finished, in order: each call that makes a job that was not finished terminal. */
  function Ended(h: seq<Call>): seq<JobID> {
    if h == [] then []
    else
      var n := |h| - 1;
      Ended(h[..n]) +
        if (h[n].state == Done || h[n].state == Dead) && !Play(h[..n]).Finished(h[n].id) then [h[n].id] else []
  }

  /** The ageing queue holds the last 500 of them. */
  lemma {:induction false} QueueIsLastEnded(h: seq<Call>)
    ensures Play(h).finished == if |Ended(h)| <= 500 then Ended(h) else Ended(h)[|Ended(h)| - 500..]
  {
    if h != [] {
      var n := |h| - 1;
      QueueIsLastEnded(h[..n]);
      SetQueue(Play(h[..n]), h[n].id, h[n].state);
      LastFew(Ended(h[..n]), h[n].id);
    }
  }

  lemma {:induction false} SetQueue(t: Table, id: JobID, s: Stage)
    requires |t.finished| <= MAX_FINISHED
    ensures Set(t, id, s).finished ==
      if !(s == Done || s == Dead) || t.Finished(id) then t.finished
      else if |t.finished| < MAX_FINISHED then t.finished + [id]
      else t.finished[1..] + [id]
  {
    var t2 := Table(t.states[id := s], t.finished + [id]);
    if |t.finished| == MAX_FINISHED { assert Trim(t2) == Trim(Pop(t2)) == Pop(t2); }
  }

  lemma {:induction false} LastFew(l: seq<JobID>, id: JobID)
    ensures var q, all := if |l| <= 500 then l else l[|l| - 500..], l + [id];
      (if |q| < 500 then q + [id] else q[1..] + [id]) == if |all| <= 500 then all else all[|all| - 500..]
  {
  }

  /** p is where id first stands in the queue. */
  predicate FirstAt(l: seq<JobID>, id: JobID, p: nat) {
    p < |l| && l[p] == id && id !in l[..p]
  }

  /** A call for another job leaves a finished id where it is, moves it up with the queue, or drops it from the front. */
  lemma {:induction false} OtherCall(t: Table, x: JobID, s: Stage, id: JobID, p: nat)
    requires t.Finished(id) && x != id && FirstAt(t.finished, id, p) && |t.finished| <= MAX_FINISHED
    ensures
      var u := Set(t, x, s);
      var drops := (s == Done || s == Dead) && !t.Finished(x) && |t.finished| == MAX_FINISHED;
      if drops && p == 0 then id !in u.states else u.Finished(id) && FirstAt(u.finished, id, if drops then p - 1 else p)
  {
    SetQueue(t, x, s);
    var t2 := Table(t.states[x := s], t.finished + [x]);
    if |t.finished| == MAX_FINISHED {
      assert Trim(t2) == Trim(Pop(t2)) == Pop(t2);
      if p > 0 {
        assert (t.finished[1..] + [x])[..p - 1] == t.finished[..p][1..];
        assert t.finished[0] in t.finished[..p];
      }
    } else {
      assert (t.finished + [x])[..p] == t.finished[..p];
    }
  }

  lemma {:induction false} OneMoreCall(h: seq<Call>, c: Call)
    ensures |Ended(h + [c])| == |Ended(h)| +
      if (c.state == Done || c.state == Dead) && !Play(h).Finished(c.id) then 1 else 0
    ensures Play(h + [c]) == Set(Play(h), c.id, c.state)
  {
    assert (h + [c])[..|h|] == h;
  }

  lemma {:induction false} StaysForgotten(h: seq<Call>, more: seq<Call>, id: JobID)
    requires id !in Play(h).states && forall k :: 0 <= k < |more| ==> more[k].id != id
    ensures id !in Play(h + more).states && |Ended(h + more)| >= |Ended(h)|
    decreases |more|
  {
    if more == [] {
      assert h + more == h;
    } else {
      var c := more[0];
      assert h + more == (h + [c]) + more[1..];
      OneMoreCall(h, c);
      InFlightNeverDropped(h);
      SetForgets(Play(h), c.id, c.state);
      StaysForgotten(h + [c], more[1..], id);
    }
  }

  /**
   * A finished job is held through further calls for other jobs exactly until its first place in the queue is
   * used up: as long as the jobs that finish after it, beyond what the queue still had room for, are at most as
   * many as stood before it.
   */
  lemma {:induction false} HeldUntilItsTurn(h: seq<Call>, more: seq<Call>, id: JobID, p: nat)
    requires Play(h).Finished(id) && FirstAt(Play(h).finished, id, p)
    requires forall k :: 0 <= k < |more| ==> more[k].id != id
    ensures id in Play(h + more).states <==> |Play(h).finished| + |Ended(h + more)| - |Ended(h)| <= 500 + p
    decreases |more|
  {
    InFlightNeverDropped(h);
    if more == [] {
      assert h + more == h;
    } else {
      var c, t := more[0], Play(h);
      assert h + more == (h + [c]) + more[1..];
      OneMoreCall(h, c);
      OtherCall(t, c.id, c.state, id, p);
      SetQueue(t, c.id, c.state);
      if Play(h + [c]).Finished(id) {
        HeldUntilItsTurn(h + [c], more[1..], id,
          if (c.state == Done || c.state == Dead) && !t.Finished(c.id) && |t.finished| == 500 then p - 1 else p);
      } else {
        StaysForgotten(h + [c], more[1..], id);
      }
    }
  }

  /** Distinct ids, told apart by their length. */
  function Name(n: nat): (id: JobID)
    ensures |id| == n
  {
    if n == 0 then "" else Name(n - 1) + "a"
  }

  /** Name(0) finishes, is redelivered, and n other jobs finish meanwhile. */
  function Refinished(n: nat): seq<Call> {
    if n == 0 then [Call(Name(0), Done), Call(Name(0), Running)]
    else Refinished(n - 1) + [Call(Name(n), Done)]
  }

  lemma {:induction false} RefinishedQueue(n: nat)
    requires n < MAX_FINISHED
    ensures var t := Play(Refinished(n));
      && |t.finished| == n + 1 && t.finished[0] == Name(0) && !t.Finished(Name(0))
      && forall id :: id in t.states ==> |id| <= n
  {
    var h := Refinished(n);
    if n == 0 {
      assert h[..1] == [Call(Name(0), Done)] && h[..1][..0] == [];
      assert Play(h[..1]) == Table(map[Name(0) := Done], [Name(0)]);
    } else {
      RefinishedQueue(n - 1);
      assert h[..|h| - 1] == Refinished(n - 1);
    }
  }

  /** The exception does occur: a redelivered job's final state can vanish the moment it is set. */
  lemma {:induction false} JustFinishedCanVanish()
    ensures Name(0) !in Play(Refinished(MAX_FINISHED - 1) + [Call(Name(0), Done)]).states
  {
    RefinishedQueue(MAX_FINISHED - 1);
    JustFinishedIsHeldIff(Refinished(MAX_FINISHED - 1), Name(0), Done);
  }
}
