/** Threshold tables: resolution by provider label, category and default, and folding label overrides in. */
module Thresholds {
  import opened QueueTypes
  import opened Moderation

  datatype Bounds = Bounds(flagAt: Option<real>, blockAt: Option<real>)

  const NO_BOUNDS: Bounds := Bounds(None, None)

  type Table = map<string, Bounds>

  const DEFAULT: string := "default"
  const LABEL_PREFIX: string := "label:"

  function LowerChar(c: char): char {
    if 'A' <= c <= 'Z' then (c as int + 32) as char else c
  }

  function Lower(s: string): string {
    if s == "" then "" else [LowerChar(s[0])] + Lower(s[1..])
  }

  function LabelKey(tag: string): (k: string)
    ensures k != "" && k[0] == 'l'
  {
    LABEL_PREFIX + Lower(tag)
  }

  // ---------------------------------------------------------------- resolution

  function Lookup(t: Table, k: string): Bounds {
    if k in t then t[k] else NO_BOUNDS
  }

  function OrElse(a: Option<real>, b: Option<real>): Option<real> {
    if a.Some? then a else b
  }

  function Fallback(a: Bounds, b: Bounds): Bounds {
    Bounds(OrElse(a.flagAt, b.flagAt), OrElse(a.blockAt, b.blockAt))
  }

  /** Field by field: the label's value, else the category's, else the default's. */
  function Resolved(t: Table, cat: string, tag: string): Bounds {
    Fallback(if tag == "" then NO_BOUNDS else Lookup(t, LabelKey(tag)),
             Fallback(Lookup(t, cat), Lookup(t, DEFAULT)))
  }

  /** The label has an entry of its own. */
  predicate Labelled(t: Table, tag: string) {
    tag != "" && LabelKey(tag) in t
  }

  /** Each boundary comes from the label's entry if that sets it, else from the category's, else from the default's. */
  lemma {:induction false} LabelThenCategoryThenDefault(t: Table, cat: string, tag: string)
    ensures
      var b := Resolved(t, cat, tag);
      && b.flagAt == (if Labelled(t, tag) && t[LabelKey(tag)].flagAt.Some? then t[LabelKey(tag)].flagAt
                      else if cat in t && t[cat].flagAt.Some? then t[cat].flagAt
                      else if "default" in t then t["default"].flagAt else None)
      && b.blockAt == (if Labelled(t, tag) && t[LabelKey(tag)].blockAt.Some? then t[LabelKey(tag)].blockAt
                       else if cat in t && t[cat].blockAt.Some? then t[cat].blockAt
                       else if "default" in t then t["default"].blockAt else None)
  {
  }

  /** One letter in either case. */
  predicate SameLetter(x: char, y: char) {
    x == y || ('A' <= x <= 'Z' && y as int == x as int + 32) || ('A' <= y <= 'Z' && x as int == y as int + 32)
  }

  lemma {:induction false} LowerAt(s: string)
    ensures |Lower(s)| == |s| && forall i :: 0 <= i < |s| ==> Lower(s)[i] == LowerChar(s[i])
  {
    if s != "" { LowerAt(s[1..]); }
  }

  /** Keys of labels start with their prefix and hold no capital letter. */
  lemma {:induction false} KeySpelling(tag: string)
    ensures |LabelKey(tag)| == 6 + |tag| && LabelKey(tag)[..6] == "label:"
    ensures forall i :: 0 <= i < |tag| ==> !('A' <= LabelKey(tag)[6 + i] <= 'Z') && SameLetter(LabelKey(tag)[6 + i], tag[i])
  {
    LowerAt(tag);
  }

  /** Labels share a key exactly when they differ in nothing but case. */
  lemma {:induction false} KeysFoldCase(a: string, b: string)
    ensures LabelKey(a) == LabelKey(b) <==> |a| == |b| && forall i :: 0 <= i < |a| ==> SameLetter(a[i], b[i])
  {
    LowerAt(a);
    LowerAt(b);
    assert LabelKey(a)[6..] == Lower(a) && LabelKey(b)[6..] == Lower(b);
    if LabelKey(a) == LabelKey(b) {
      forall i | 0 <= i < |a|
        ensures SameLetter(a[i], b[i])
      {
        assert Lower(a)[i] == Lower(b)[i];
      }
    } else if |a| == |b| {
      assert Lower(a) != Lower(b);
      var i :| 0 <= i < |a| && Lower(a)[i] != Lower(b)[i];
      assert !SameLetter(a[i], b[i]);
    }
  }

  function FoldChain(chain: seq<Bounds>): Bounds {
    if chain == [] then NO_BOUNDS else Fallback(FoldChain(chain[..|chain| - 1]), chain[|chain| - 1])
  }

  /** Walks a chain front to back, taking each field from the first entry that has it. */
  method WalkChain(chain: seq<Bounds>) returns (out: Bounds)
    ensures out == FoldChain(chain)
  {
    out := NO_BOUNDS;
    for i := 0 to |chain|
      invariant out == FoldChain(chain[..i])
    {
      FoldSnoc(chain[..i], chain[i]);
      assert chain[..i + 1] == chain[..i] + [chain[i]];
      if out.flagAt.None? { out := out.(flagAt := chain[i].flagAt); }
      if out.blockAt.None? { out := out.(blockAt := chain[i].blockAt); }
    }
    assert chain[..|chain|] == chain;
  }

  lemma {:induction false} FoldSnoc(chain: seq<Bounds>, b: Bounds)
    ensures FoldChain(chain + [b]) == Fallback(FoldChain(chain), b)
  {
    assert (chain + [b])[..|chain|] == chain;
  }

  function Entry(t: Table, k: string): seq<Bounds> {
    if k in t then [t[k]] else []
  }

  /** The code's chain of at most three entries. */
  method ResolveFor(t: Table, cat: string, tag: string) returns (out: Bounds)
    ensures out == Resolved(t, cat, tag)
  {
    var own := if tag == "" then [] else Entry(t, LabelKey(tag));
    var chain := own + Entry(t, cat) + [Lookup(t, DEFAULT)];
    out := WalkChain(chain);
    FoldSnoc(own + Entry(t, cat), Lookup(t, DEFAULT));
    FoldShort(own, Entry(t, cat));
    FallbackAssociates(First(own), First(Entry(t, cat)), Lookup(t, DEFAULT));
  }

  function First(chain: seq<Bounds>): Bounds {
    if chain == [] then NO_BOUNDS else chain[0]
  }

  lemma {:induction false} FoldShort(a: seq<Bounds>, b: seq<Bounds>)
    requires |a| <= 1 && |b| <= 1
    ensures FoldChain(a + b) == Fallback(First(a), First(b))
  {
    FoldOne(a);
    if b == [] {
      assert a + b == a;
    } else {
      assert b == [b[0]];
      FoldSnoc(a, b[0]);
    }
  }

  lemma {:induction false} FoldOne(a: seq<Bounds>)
    requires |a| <= 1
    ensures FoldChain(a) == First(a)
  {
    if a != [] {
      assert a == [] + [a[0]];
      FoldSnoc([], a[0]);
    }
  }

  lemma {:induction false} FallbackAssociates(a: Bounds, b: Bounds, c: Bounds)
    ensures Fallback(Fallback(a, b), c) == Fallback(a, Fallback(b, c))
  {
  }

  // ---------------------------------------------------------------- merging

  datatype Mode = Off | Hybrid | Override

  predicate Listed(labels: map<string, Bounds>, unarmed: seq<string>, k: string) {
    (exists l :: l in labels && LabelKey(l) == k) || (exists l :: l in unarmed && LabelKey(l) == k)
  }

  /** Some listed label without a boundary has this key. */
  ghost predicate Disarmed(unarmed: seq<string>, k: string) {
    exists u :: u in unarmed && LabelKey(u) == k
  }

  /** What Merge promises about its result, whatever order the label map is ranged in. */
  ghost predicate IsMerge(t: Table, mode: Mode, labels: map<string, Bounds>, unarmed: seq<string>, out: Table) {
    && (forall k :: mode.Off? || !Listed(labels, unarmed, k) ==>
          (k in out <==> !mode.Override? && k in t) && (k in out ==> out[k] == t[k]))
    && (!mode.Off? ==> forall l :: l in unarmed ==> LabelKey(l) in out && out[LabelKey(l)] == NO_BOUNDS)
    && (!mode.Off? ==> forall l :: l in labels && !Disarmed(unarmed, LabelKey(l)) ==>
          FromLabels(labels, out, l))
  }

  ghost predicate FromLabels(labels: map<string, Bounds>, out: Table, l: string) {
    LabelKey(l) in out && exists o :: o in labels && LabelKey(o) == LabelKey(l) && out[LabelKey(l)] == labels[o]
  }

  /** The tables agree outside the listed label keys. */
  ghost predicate SameElsewhere(labels: map<string, Bounds>, unarmed: seq<string>, base: Table, out: Table) {
    forall k :: !Listed(labels, unarmed, k) ==> (k in out <==> k in base) && (k in out ==> out[k] == base[k])
  }

  method ArmLabels(base: Table, labels: map<string, Bounds>, order: seq<string>, ghost unarmed: seq<string>)
    returns (out: Table)
    requires forall l :: l in order <==> l in labels
    ensures SameElsewhere(labels, unarmed, base, out)
    ensures forall l :: l in labels ==> FromLabels(labels, out, l)
  {
    out := base;
    for i := 0 to |order|
      invariant SameElsewhere(labels, unarmed, base, out)
      invariant forall j :: 0 <= j < i ==> FromLabels(labels, out, order[j])
    {
      assert order[i] in labels;
      ghost var before := out;
      out := out[LabelKey(order[i]) := labels[order[i]]];
      forall j | 0 <= j <= i
        ensures FromLabels(labels, out, order[j])
      {
        assert order[j] in labels;
        if LabelKey(order[j]) != LabelKey(order[i]) { assert FromLabels(labels, before, order[j]); }
      }
    }
  }

  method DisarmLabels(armed: Table, ghost labels: map<string, Bounds>, unarmed: seq<string>) returns (out: Table)
    ensures SameElsewhere(labels, unarmed, armed, out)
    ensures forall l :: l in unarmed ==> LabelKey(l) in out && out[LabelKey(l)] == NO_BOUNDS
    ensures forall k :: !Disarmed(unarmed, k) ==>
              (k in out <==> k in armed) && (k in out ==> out[k] == armed[k])
  {
    out := armed;
    for i := 0 to |unarmed|
      invariant SameElsewhere(labels, unarmed, armed, out)
      invariant forall j :: 0 <= j < i ==> LabelKey(unarmed[j]) in out && out[LabelKey(unarmed[j])] == NO_BOUNDS
      invariant forall k :: !Disarmed(unarmed, k) ==>
                  (k in out <==> k in armed) && (k in out ==> out[k] == armed[k])
    {
      assert unarmed[i] in unarmed;
      out := out[LabelKey(unarmed[i]) := NO_BOUNDS];
    }
  }

  /** `order` is the order in which the label map happens to be ranged. */
  method Merge(t: Table, mode: Mode, labels: map<string, Bounds>, order: seq<string>, unarmed: seq<string>)
    returns (out: Table)
    requires forall l :: l in order <==> l in labels
    ensures IsMerge(t, mode, labels, unarmed, out)
  {
    var base: Table := if mode.Override? then map[] else t;
    if mode.Off? { return base; }
    var armed := ArmLabels(base, labels, order, unarmed);
    out := DisarmLabels(armed, labels, unarmed);
    MergedElsewhere(labels, unarmed, base, armed, out);
    MergedLabels(labels, unarmed, armed, out);
  }

  lemma {:induction false} MergedLabels(labels: map<string, Bounds>, unarmed: seq<string>, armed: Table, out: Table)
    requires forall l :: l in labels ==> FromLabels(labels, armed, l)
    requires forall k :: !Disarmed(unarmed, k) ==> (k in out <==> k in armed) && (k in out ==> out[k] == armed[k])
    ensures forall l :: l in labels && !Disarmed(unarmed, LabelKey(l)) ==> FromLabels(labels, out, l)
  {
    forall l | l in labels && !Disarmed(unarmed, LabelKey(l))
      ensures FromLabels(labels, out, l)
    {
      assert FromLabels(labels, armed, l);
    }
  }

  lemma {:induction false} MergedElsewhere(
      labels: map<string, Bounds>, unarmed: seq<string>, base: Table, armed: Table, out: Table)
    requires SameElsewhere(labels, unarmed, base, armed) && SameElsewhere(labels, unarmed, armed, out)
    ensures SameElsewhere(labels, unarmed, base, out)
  {
  }

  lemma {:induction false} NotALabel(k: string, tag: string)
    requires k in CANONICAL || k == DEFAULT
    ensures LabelKey(tag) != k
  {
    assert k[0] != 'l';
  }

  lemma {:induction false} NeverListed(labels: map<string, Bounds>, unarmed: seq<string>, k: string)
    requires k in CANONICAL || k == DEFAULT
    ensures !Listed(labels, unarmed, k)
  {
    forall l
      ensures LabelKey(l) != k
    {
      NotALabel(k, l);
    }
  }

  /** Hybrid merging leaves the resolution of every label that is not listed exactly as it was. */
  lemma {:induction false} HybridKeepsUnlisted(
      t: Table, labels: map<string, Bounds>, unarmed: seq<string>, out: Table, cat: string, tag: string)
    requires IsMerge(t, Hybrid, labels, unarmed, out) && cat in CANONICAL
    requires tag == "" || !Listed(labels, unarmed, LabelKey(tag))
    ensures Resolved(out, cat, tag) == Resolved(t, cat, tag)
  {
    NeverListed(labels, unarmed, cat);
    NeverListed(labels, unarmed, DEFAULT);
  }

  /** A deliberately unarmed label has no boundary at all in override mode, and in hybrid mode it inherits
      exactly what the category alone would give. */
  lemma {:induction false} UnarmedLabels(t: Table, mode: Mode, labels: map<string, Bounds>, unarmed: seq<string>, out: Table,
                      cat: string, tag: string)
    requires IsMerge(t, mode, labels, unarmed, out) && cat in CANONICAL && tag in unarmed && tag != ""
    ensures mode.Override? ==> Resolved(out, cat, tag) == NO_BOUNDS
    ensures mode.Hybrid? ==> Resolved(out, cat, tag) == Resolved(t, cat, "")
  {
    NeverListed(labels, unarmed, cat);
    NeverListed(labels, unarmed, DEFAULT);
  }

  /** A listed label that is not also unarmed resolves to the boundaries listed under its key; what they leave out
      comes from category and default in hybrid mode and from nowhere in override mode. */
  lemma {:induction false} ListedLabels(t: Table, mode: Mode, labels: map<string, Bounds>, unarmed: seq<string>, out: Table,
                      cat: string, tag: string)
    requires IsMerge(t, mode, labels, unarmed, out) && !mode.Off? && cat in CANONICAL
    requires tag in labels && tag != "" && !Disarmed(unarmed, LabelKey(tag))
    ensures exists l ::
      && l in labels && LabelKey(l) == LabelKey(tag)
      && var b, r, inherited := labels[l], Resolved(out, cat, tag),
             if mode.Hybrid? then Resolved(t, cat, "") else Bounds(None, None);
         && r.flagAt == (if b.flagAt.Some? then b.flagAt else inherited.flagAt)
         && r.blockAt == (if b.blockAt.Some? then b.blockAt else inherited.blockAt)
  {
    NeverListed(labels, unarmed, cat);
    NeverListed(labels, unarmed, DEFAULT);
    assert FromLabels(labels, out, tag);
    var l :| l in labels && LabelKey(l) == LabelKey(tag) && out[LabelKey(tag)] == labels[l];
  }

  /** With the mode off provider labels change nothing. */
  lemma {:induction false} OffChangesNothing(t: Table, labels: map<string, Bounds>, unarmed: seq<string>, out: Table)
    requires IsMerge(t, Off, labels, unarmed, out)
    ensures out == t
  {
  }

  /** In override mode a label nobody listed has no boundary either. */
  lemma {:induction false} OverrideDisarmsUnlisted(
      t: Table, labels: map<string, Bounds>, unarmed: seq<string>, out: Table, cat: string, tag: string)
    requires IsMerge(t, Override, labels, unarmed, out) && cat in CANONICAL
    requires tag == "" || !Listed(labels, unarmed, LabelKey(tag))
    ensures Resolved(out, cat, tag) == NO_BOUNDS
  {
    NeverListed(labels, unarmed, cat);
    NeverListed(labels, unarmed, DEFAULT);
  }
}
