/** From frame scores to one verdict. */
module Rollup {
  import opened QueueTypes
  import opened Moderation
  import opened Thresholds

  function BoundsFor(t: Table, c: CategoryResult): Bounds {
    Resolved(t, Canonicalize(c.category), c.providerLabel)
  }

  /** A category outside the taxonomy is held to the boundaries of OTHER; the provider's label is used as it came. */
  lemma {:induction false} BoundsExactly(t: Table, c: CategoryResult)
    ensures BoundsFor(t, c) == Resolved(t, if c.category in CANONICAL then c.category else "OTHER", c.providerLabel)
  {
  }

  // ---------------------------------------------------------------- flagging

  /** out is in with its boundary and flag filled in: a score flags from the boundary on, a missing one never. */
  predicate StampedFrom(t: Table, c: CategoryResult, out: CategoryResult) {
    && out.category == c.category && out.providerLabel == c.providerLabel && out.score == c.score
    && out.threshold == BoundsFor(t, c).flagAt
    && (out.flagged <==> c.score.Some? && out.threshold.Some? && c.score.value >= out.threshold.value)
  }

  method ApplyThresholds(cats: seq<CategoryResult>, t: Table) returns (out: seq<CategoryResult>)
    ensures |out| == |cats|
    ensures forall i :: 0 <= i < |cats| ==> StampedFrom(t, cats[i], out[i])
  {
    out := [];
    for i := 0 to |cats|
      invariant |out| == i
      invariant forall j :: 0 <= j < i ==> StampedFrom(t, cats[j], out[j])
    {
      var bounds := ResolveFor(t, Canonicalize(cats[i].category), cats[i].providerLabel);
      out := out + [cats[i].(threshold := bounds.flagAt, flagged := Reaches(cats[i].score, bounds.flagAt))];
    }
  }

  /** Every flag says whether the score reaches the flag boundary. */
  ghost predicate Stamped(t: Table, frames: seq<FrameResult>) {
    forall f, c :: f in frames && c in f.categories ==> c.flagged == Reaches(c.score, BoundsFor(t, c).flagAt)
  }

  /** f holds what ApplyThresholds made of some categories. */
  ghost predicate ThroughThresholds(t: Table, f: FrameResult) {
    forall c :: c in f.categories ==> exists raw :: StampedFrom(t, raw, c)
  }

  /** Frames whose categories went through ApplyThresholds are flagged as the verdict needs it. */
  lemma {:induction false} ThresholdsStamp(t: Table, frames: seq<FrameResult>)
    requires forall f :: f in frames ==> ThroughThresholds(t, f)
    ensures Stamped(t, frames)
  {
    forall f, c | f in frames && c in f.categories
      ensures c.flagged == Reaches(c.score, BoundsFor(t, c).flagAt)
    {
      var raw :| StampedFrom(t, raw, c);
      assert BoundsFor(t, raw) == BoundsFor(t, c);
    }
  }

  // ---------------------------------------------------------------- what the verdict depends on

  /** c is a category result of an evaluated frame. */
  ghost predicate Signal(frames: seq<FrameResult>, c: CategoryResult) {
    exists f :: f in frames && f.status.FrameOk? && c in f.categories
  }

  ghost predicate AnyBlock(frames: seq<FrameResult>, t: Table) {
    exists c :: Signal(frames, c) && Reaches(c.score, BoundsFor(t, c).blockAt)
  }

  ghost predicate AnyFlag(frames: seq<FrameResult>) {
    exists c :: Signal(frames, c) && c.flagged
  }

  ghost predicate AnyScore(frames: seq<FrameResult>) {
    exists c :: Signal(frames, c) && c.score.Some?
  }

  ghost predicate AnyErrored(frames: seq<FrameResult>) {
    exists f :: f in frames && !f.status.FrameOk?
  }

  ghost predicate AnyOk(frames: seq<FrameResult>) {
    exists f :: f in frames && f.status.FrameOk?
  }

  /** Strict precedence: block, error, flag, allow. */
  ghost function VerdictOf(frames: seq<FrameResult>, t: Table): Verdict {
    if AnyBlock(frames, t) then Block
    else if AnyErrored(frames) || !AnyOk(frames) || !AnyScore(frames) then Error
    else if AnyFlag(frames) then Flag
    else Allow
  }

  ghost predicate IsMax(frames: seq<FrameResult>, m: Option<real>) {
    match m
    case None => !AnyScore(frames)
    case Some(v) =>
      && (exists c :: Signal(frames, c) && c.score == Some(v))
      && (forall c :: Signal(frames, c) && c.score.Some? ==> c.score.value <= v)
  }

  // ---------------------------------------------------------------- the loop

  /** The categories of the evaluated frames, in the order Rollup visits them. */
  function Flat(frames: seq<FrameResult>): seq<CategoryResult> {
    if frames == [] then []
    else Flat(frames[..|frames| - 1])
         + (if frames[|frames| - 1].status.FrameOk? then frames[|frames| - 1].categories else [])
  }

  lemma {:induction false} FlatSignals(frames: seq<FrameResult>, c: CategoryResult)
    ensures c in Flat(frames) <==> Signal(frames, c)
  {
    if frames != [] {
      var n := |frames| - 1;
      FlatSignals(frames[..n], c);
      assert frames == frames[..n] + [frames[n]];
      if Signal(frames, c) {
        var f :| f in frames && f.status.FrameOk? && c in f.categories;
        assert f in frames[..n] || f == frames[n];
      }
    }
  }

  datatype Tally = Tally(flagged: bool, block: bool, max: Option<real>, top: Option<string>)

  function Count(t: Table, a: Tally, c: CategoryResult): Tally {
    var higher := c.score.Some? && (a.max.None? || c.score.value > a.max.value);
    Tally(a.flagged || c.flagged,
          a.block || Reaches(c.score, BoundsFor(t, c).blockAt),
          if higher then c.score else a.max,
          if higher then Some(c.category) else a.top)
  }

  /** cs[k] carries the highest score, and no earlier category does. */
  ghost predicate FirstMax(cs: seq<CategoryResult>, k: nat) {
    && k < |cs| && cs[k].score.Some?
    && (forall j :: 0 <= j < |cs| && cs[j].score.Some? ==> cs[j].score.value <= cs[k].score.value)
    && (forall j :: 0 <= j < k && cs[j].score.Some? ==> cs[j].score.value < cs[k].score.value)
  }

  ghost predicate Accounts(t: Table, cs: seq<CategoryResult>, a: Tally) {
    && (a.flagged <==> exists c :: c in cs && c.flagged)
    && (a.block <==> exists c :: c in cs && Reaches(c.score, BoundsFor(t, c).blockAt))
    && (a.max.Some? <==> exists c :: c in cs && c.score.Some?)
    && (a.max.Some? ==> exists k: nat :: FirstMax(cs, k) && a.max == cs[k].score && a.top == Some(cs[k].category))
    && (a.max.None? ==> a.top.None?)
  }

  lemma {:induction false} CountFlags(t: Table, cs: seq<CategoryResult>, a: Tally, c: CategoryResult)
    requires Accounts(t, cs, a)
    ensures Count(t, a, c).flagged <==> exists x :: x in cs + [c] && x.flagged
    ensures Count(t, a, c).block <==> exists x :: x in cs + [c] && Reaches(x.score, BoundsFor(t, x).blockAt)
    ensures Count(t, a, c).max.Some? <==> exists x :: x in cs + [c] && x.score.Some?
  {
    assert forall x :: x in cs + [c] <==> x in cs || x == c;
  }

  lemma {:induction false} CountMax(t: Table, cs: seq<CategoryResult>, a: Tally, c: CategoryResult)
    requires Accounts(t, cs, a) && Count(t, a, c).max.Some?
    ensures
      var a' := Count(t, a, c);
      exists k: nat :: FirstMax(cs + [c], k) && a'.max == (cs + [c])[k].score && a'.top == Some((cs + [c])[k].category)
  {
    if c.score.Some? && (a.max.None? || c.score.value > a.max.value) {
      NewMax(t, cs, a, c);
      assert (cs + [c])[|cs|] == c;
    } else {
      var k: nat :| FirstMax(cs, k) && a.max == cs[k].score && a.top == Some(cs[k].category);
      assert (cs + [c])[k] == cs[k];
      assert FirstMax(cs + [c], k);
    }
  }

  lemma {:induction false} NewMax(t: Table, cs: seq<CategoryResult>, a: Tally, c: CategoryResult)
    requires Accounts(t, cs, a) && c.score.Some? && (a.max.None? || c.score.value > a.max.value)
    ensures FirstMax(cs + [c], |cs|)
  {
    forall j | 0 <= j < |cs| && cs[j].score.Some?
      ensures cs[j].score.value < c.score.value
    {
      assert cs[j] in cs;
      var k: nat :| FirstMax(cs, k) && a.max == cs[k].score && a.top == Some(cs[k].category);
    }
  }

  lemma {:induction false} CountAccounts(t: Table, cs: seq<CategoryResult>, a: Tally, c: CategoryResult)
    requires Accounts(t, cs, a)
    ensures Accounts(t, cs + [c], Count(t, a, c))
  {
    CountFlags(t, cs, a, c);
    if Count(t, a, c).max.Some? { CountMax(t, cs, a, c); }
  }

  lemma {:induction false} CountNext(t: Table, before: seq<CategoryResult>, cats: seq<CategoryResult>, k: nat, a: Tally)
    requires k < |cats| && Accounts(t, before + cats[..k], a)
    ensures Accounts(t, before + cats[..k + 1], Count(t, a, cats[k]))
  {
    assert before + cats[..k + 1] == before + cats[..k] + [cats[k]];
    CountAccounts(t, before + cats[..k], a, cats[k]);
  }

  /** The inner loop, over the categories of one evaluated frame. */
  method CountFrame(t: Table, a0: Tally, cats: seq<CategoryResult>, ghost before: seq<CategoryResult>)
    returns (a: Tally)
    requires Accounts(t, before, a0)
    ensures Accounts(t, before + cats, a)
  {
    a := a0;
    assert before + cats[..0] == before;
    for k := 0 to |cats|
      invariant Accounts(t, before + cats[..k], a)
    {
      CountNext(t, before, cats, k, a);
      a := CountOne(t, a, cats[k]);
    }
    assert cats[..|cats|] == cats;
  }

  /** The body of the inner loop. */
  method CountOne(t: Table, a0: Tally, c: CategoryResult) returns (a: Tally)
    ensures a == Count(t, a0, c)
  {
    a := a0;
    if c.flagged { a := a.(flagged := true); }
    if c.score.Some? {
      if a.max.None? || c.score.value > a.max.value {
        a := a.(max := c.score, top := Some(c.category));
      }
      var bounds := ResolveFor(t, Canonicalize(c.category), c.providerLabel);
      if bounds.blockAt.Some? && c.score.value >= bounds.blockAt.value { a := a.(block := true); }
    }
  }

  lemma {:induction false} AccountsMeaning(t: Table, frames: seq<FrameResult>, a: Tally)
    requires Accounts(t, Flat(frames), a)
    ensures a.flagged <==> AnyFlag(frames)
    ensures a.block <==> AnyBlock(frames, t)
    ensures IsMax(frames, a.max)
  {
    forall c
      ensures c in Flat(frames) <==> Signal(frames, c)
    {
      FlatSignals(frames, c);
    }
    if a.max.Some? {
      var cs := Flat(frames);
      var k: nat :| FirstMax(cs, k) && a.max == cs[k].score;
      assert Signal(frames, cs[k]);
    }
  }

  lemma {:induction false} FlatNext(frames: seq<FrameResult>, i: nat)
    requires i < |frames|
    ensures Flat(frames[..i + 1]) ==
            Flat(frames[..i]) + (if frames[i].status.FrameOk? then frames[i].categories else [])
  {
    assert frames[..i + 1][..i] == frames[..i];
  }

  lemma {:induction false} StatusNext(frames: seq<FrameResult>, i: nat)
    requires i < |frames|
    ensures AnyErrored(frames[..i + 1]) <==> AnyErrored(frames[..i]) || !frames[i].status.FrameOk?
    ensures AnyOk(frames[..i + 1]) <==> AnyOk(frames[..i]) || frames[i].status.FrameOk?
  {
    assert frames[..i + 1] == frames[..i] + [frames[i]];
    assert forall f :: f in frames[..i + 1] <==> f in frames[..i] || f == frames[i];
  }

  /** The outer loop. */
  method ScanFrames(frames: seq<FrameResult>, t: Table) returns (anyError: bool, okFrames: nat, a: Tally)
    ensures Accounts(t, Flat(frames), a)
    ensures anyError <==> AnyErrored(frames)
    ensures okFrames != 0 <==> AnyOk(frames)
  {
    anyError, okFrames := false, 0;
    a := Tally(false, false, None, None);
    var i := 0;
    while i < |frames|
      invariant 0 <= i <= |frames|
      invariant Accounts(t, Flat(frames[..i]), a)
      invariant anyError <==> AnyErrored(frames[..i])
      invariant okFrames != 0 <==> AnyOk(frames[..i])
    {
      a := CountIfOk(t, a, frames, i);
      StatusNext(frames, i);
      if frames[i].status.FrameOk? { okFrames := okFrames + 1; } else { anyError := true; }
      i := i + 1;
    }
    assert frames[..|frames|] == frames;
  }

  /** An errored frame contributes nothing but its status. */
  method CountIfOk(t: Table, a0: Tally, frames: seq<FrameResult>, i: nat) returns (a: Tally)
    requires i < |frames| && Accounts(t, Flat(frames[..i]), a0)
    ensures Accounts(t, Flat(frames[..i + 1]), a)
  {
    FlatNext(frames, i);
    if frames[i].status.FrameOk? {
      a := CountFrame(t, a0, frames[i].categories, Flat(frames[..i]));
    } else {
      a := a0;
      assert Flat(frames[..i]) + [] == Flat(frames[..i]);
    }
  }

  method RollupFrames(frames: seq<FrameResult>, t: Table) returns (o: Overall)
    ensures o.verdict == VerdictOf(frames, t)
    ensures o.flagged <==> AnyFlag(frames)
    ensures IsMax(frames, o.maxScore) && o.confidence == o.maxScore
    ensures o.topCategory.Some? <==> o.maxScore.Some?
    ensures o.topCategory.Some? ==>
              exists k: nat :: FirstMax(Flat(frames), k) && o.topCategory == Some(Flat(frames)[k].category)
  {
    var anyError, okFrames, a := ScanFrames(frames, t);
    AccountsMeaning(t, frames, a);
    var verdict := Allow;
    if a.block {
      verdict := Block;
    } else if anyError || okFrames == 0 || a.max.None? {
      verdict := Error;
    } else if a.flagged {
      verdict := Flag;
    }
    o := Overall(verdict, a.flagged, a.top, a.max, a.max);
  }

  // ---------------------------------------------------------------- results

  /** Some category of an evaluated frame scores at least the block boundary resolved for it. */
  ghost predicate SomeBlocks(frames: seq<FrameResult>, t: Table) {
    exists f, c :: f in frames && f.status == FrameOk && c in f.categories && c.score.Some?
      && BoundsFor(t, c).blockAt.Some? && c.score.value >= BoundsFor(t, c).blockAt.value
  }

  ghost predicate SomeFlags(frames: seq<FrameResult>, t: Table) {
    exists f, c :: f in frames && f.status == FrameOk && c in f.categories && c.score.Some?
      && BoundsFor(t, c).flagAt.Some? && c.score.value >= BoundsFor(t, c).flagAt.value
  }

  /** There are frames, all of them evaluated, and at least one score. */
  ghost predicate Complete(frames: seq<FrameResult>) {
    && frames != []
    && (forall f :: f in frames ==> f.status == FrameOk)
    && (exists f, c :: f in frames && c in f.categories && c.score.Some?)
  }

  /** Block means: some score of an evaluated frame reaches its block boundary, whatever else holds. */
  lemma {:induction false} BlockExactly(frames: seq<FrameResult>, t: Table)
    ensures VerdictOf(frames, t) == Block <==> SomeBlocks(frames, t)
  {
    if AnyBlock(frames, t) {
      var c :| Signal(frames, c) && Reaches(c.score, BoundsFor(t, c).blockAt);
      var f :| f in frames && f.status.FrameOk? && c in f.categories;
    }
    if f, c :| f in frames && f.status == FrameOk && c in f.categories && c.score.Some? && BoundsFor(t, c).blockAt.Some? && c.score.value >= BoundsFor(t, c).blockAt.value {
      assert Signal(frames, c) && Reaches(c.score, BoundsFor(t, c).blockAt);
    }
  }

  lemma {:induction false} CompleteExactly(frames: seq<FrameResult>)
    ensures Complete(frames) <==> !AnyErrored(frames) && AnyOk(frames) && AnyScore(frames)
  {
    if Complete(frames) {
      assert frames[0] in frames;
      var f, c :| f in frames && c in f.categories && c.score.Some?;
      assert Signal(frames, c);
    }
    if !AnyErrored(frames) && AnyScore(frames) {
      var c :| Signal(frames, c) && c.score.Some?;
      var f :| f in frames && f.status.FrameOk? && c in f.categories;
      assert f.status == FrameOk;
    }
  }

  /** Error means: nothing blocks and the evidence is missing or incomplete. */
  lemma {:induction false} ErrorExactly(frames: seq<FrameResult>, t: Table)
    ensures VerdictOf(frames, t) == Error <==> !SomeBlocks(frames, t) && !Complete(frames)
  {
    BlockExactly(frames, t);
    CompleteExactly(frames);
  }

  lemma {:induction false} FlagsExactly(frames: seq<FrameResult>, t: Table)
    requires Stamped(t, frames)
    ensures AnyFlag(frames) <==> SomeFlags(frames, t)
  {
    if AnyFlag(frames) {
      var c :| Signal(frames, c) && c.flagged;
      var f :| f in frames && f.status.FrameOk? && c in f.categories;
    }
    if f, c :| f in frames && f.status == FrameOk && c in f.categories && c.score.Some? && BoundsFor(t, c).flagAt.Some? && c.score.value >= BoundsFor(t, c).flagAt.value {
      assert Signal(frames, c) && c.flagged;
    }
  }

  /** Flag means: the evidence is complete, some score reaches its flag boundary and none its block boundary. */
  lemma {:induction false} FlagExactly(frames: seq<FrameResult>, t: Table)
    requires Stamped(t, frames)
    ensures VerdictOf(frames, t) == Flag <==> Complete(frames) && SomeFlags(frames, t) && !SomeBlocks(frames, t)
  {
    BlockExactly(frames, t);
    CompleteExactly(frames);
    FlagsExactly(frames, t);
  }

  /** Allow means: the evidence is complete and no score reaches the flag or block boundary resolved for it. */
  lemma {:induction false} AllowExactly(frames: seq<FrameResult>, t: Table)
    requires Stamped(t, frames)
    ensures VerdictOf(frames, t) == Allow <==> Complete(frames) && !SomeFlags(frames, t) && !SomeBlocks(frames, t)
  {
    BlockExactly(frames, t);
    CompleteExactly(frames);
    FlagsExactly(frames, t);
  }

  lemma {:induction false} SameSignals(a: seq<FrameResult>, b: seq<FrameResult>, c: CategoryResult)
    requires multiset(a) == multiset(b)
    ensures Signal(a, c) <==> Signal(b, c)
  {
    SameMembers(a, b);
  }

  lemma {:induction false} SameMembers(a: seq<FrameResult>, b: seq<FrameResult>)
    requires multiset(a) == multiset(b)
    ensures forall f :: f in a <==> f in b
  {
    assert forall f :: f in a <==> f in multiset(a);
    assert forall f :: f in b <==> f in multiset(b);
  }

  /** The order of the frames changes neither the verdict nor the maximum score. */
  lemma {:induction false} OrderIrrelevant(a: seq<FrameResult>, b: seq<FrameResult>, t: Table, m: Option<real>, m': Option<real>)
    requires multiset(a) == multiset(b)
    ensures VerdictOf(a, t) == VerdictOf(b, t)
    ensures IsMax(a, m) && IsMax(b, m') ==> m == m'
  {
    SameMembers(a, b);
    forall c
      ensures Signal(a, c) <==> Signal(b, c)
    {
      SameSignals(a, b, c);
    }
    SameVerdict(a, b, t);
    if IsMax(a, m) && IsMax(b, m') { SameMax(a, b, m, m'); }
  }

  lemma {:induction false} SameVerdict(a: seq<FrameResult>, b: seq<FrameResult>, t: Table)
    requires (forall f :: f in a <==> f in b) && forall c :: Signal(a, c) <==> Signal(b, c)
    ensures VerdictOf(a, t) == VerdictOf(b, t)
  {
    assert AnyBlock(a, t) <==> AnyBlock(b, t);
    assert AnyErrored(a) <==> AnyErrored(b);
    assert AnyOk(a) <==> AnyOk(b);
    assert AnyScore(a) <==> AnyScore(b);
    assert AnyFlag(a) <==> AnyFlag(b);
  }

  lemma {:induction false} SameMax(a: seq<FrameResult>, b: seq<FrameResult>, m: Option<real>, m': Option<real>)
    requires (forall c :: Signal(a, c) <==> Signal(b, c)) && IsMax(a, m) && IsMax(b, m')
    ensures m == m'
  {
    assert AnyScore(a) <==> AnyScore(b);
  }

  /** One frame that could not be evaluated is enough to rule out allow and flag. */
  lemma {:induction false} ErroredFrameNeverPasses(frames: seq<FrameResult>, t: Table)
    requires AnyErrored(frames) || !AnyScore(frames)
    ensures VerdictOf(frames, t) == Block || VerdictOf(frames, t) == Error
  {
  }
}
