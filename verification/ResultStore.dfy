/** The bounded job-status cache: an LRU list with an index and a time to live per record. */
module ResultStore {
  import opened QueueTypes

  datatype JobState = Queued | Processing | Done | DeadLettered

  /** The lifecycle only moves forward; both terminal states share the top rank. */
  function Rank(s: JobState): nat {
    match s
    case Queued => 0
    case Processing => 1
    case _ => 2
  }

  datatype Doc = Doc(id: JobID, state: JobState, detail: string)

  datatype Entry = Entry(doc: Doc, expires: int)
  {
    predicate Live(now: int) { now < expires }
  }

  // ---------------------------------------------------------------- the recency sequence

  ghost predicate Unique(c: seq<Entry>) {
    forall i, j :: 0 <= i < j < |c| ==> c[i].doc.id != c[j].doc.id
  }

  /** Position of id, most recent first. */
  function Find(c: seq<Entry>, id: JobID): (r: Option<nat>)
    ensures r.Some? ==> r.value < |c| && c[r.value].doc.id == id
    ensures r.None? ==> forall i :: 0 <= i < |c| ==> c[i].doc.id != id
  {
    if c == [] then None
    else if c[0].doc.id == id then Some(0)
    else match Find(c[1..], id)
         case None => None
         case Some(i) => Some(i + 1)
  }

  function Without<T>(c: seq<T>, i: nat): seq<T>
    requires i < |c|
  {
    c[..i] + c[i + 1..]
  }

  function Recorded(c: seq<Entry>, max: nat, ttl: int, doc: Doc, now: int): seq<Entry> {
    match Find(c, doc.id)
    case Some(i) =>
      if c[i].Live(now) && Rank(doc.state) <= Rank(c[i].doc.state) then c
      else [Entry(doc, now + ttl)] + Without(c, i)
    case None => Newest([Entry(doc, now + ttl)] + c, max)
  }

  function Newest(c: seq<Entry>, max: nat): seq<Entry> {
    if |c| <= max then c else c[..max]
  }

  function Got(c: seq<Entry>, id: JobID, now: int): (seq<Entry>, Option<Doc>) {
    match Find(c, id)
    case None => (c, None)
    case Some(i) =>
      if !c[i].Live(now) then (Without(c, i), None)
      else ([c[i]] + Without(c, i), Some(c[i].doc))
  }

  lemma {:induction false} FindAt(c: seq<Entry>, i: nat)
    requires Unique(c) && i < |c|
    ensures Find(c, c[i].doc.id) == Some(i)
  {
    var f := Find(c, c[i].doc.id);
    assert f.Some?;
  }

  // ---------------------------------------------------------------- the mutable store

  /** One list element; record and get reach it through the index and change it in place. */
  class Element {
    var doc: Doc
    var expires: int

    constructor (doc: Doc, expires: int)
      ensures this.doc == doc && this.expires == expires
    {
      this.doc, this.expires := doc, expires;
    }
  }

  ghost predicate Shows(e: Element, x: Entry)
    reads e
  {
    e.doc == x.doc && e.expires == x.expires
  }

  /** List and index hold the same elements, one per id, and their values are c. */
  ghost predicate Linked(lru: seq<Element>, idx: map<JobID, Element>, c: seq<Entry>)
    reads lru
  {
    && |lru| == |c|
    && Unique(c)
    && (forall i :: 0 <= i < |c| ==> Shows(lru[i], c[i]))
    && (forall i :: 0 <= i < |c| ==> c[i].doc.id in idx && idx[c[i].doc.id] == lru[i])
    && (forall id :: id in idx ==> Find(c, id).Some?)
  }

  lemma {:induction false} FindWithout(c: seq<Entry>, i: nat, id: JobID)
    requires Unique(c) && i < |c| && id != c[i].doc.id && Find(c, id).Some?
    ensures Find(Without(c, i), id).Some?
  {
    var k := Find(c, id).value;
    assert k < i ==> Without(c, i)[k] == c[k];
    assert i < k ==> Without(c, i)[k - 1] == c[k];
  }

  lemma {:induction false} FindFront(c: seq<Entry>, x: Entry, id: JobID)
    requires x.doc.id == id || Find(c, id).Some?
    ensures Find([x] + c, id).Some?
  {
    assert ([x] + c)[1..] == c;
  }

  lemma {:induction false} DropLinked(lru: seq<Element>, idx: map<JobID, Element>, c: seq<Entry>, i: nat)
    requires Linked(lru, idx, c) && i < |c|
    ensures Linked(Without(lru, i), idx - {c[i].doc.id}, Without(c, i))
  {
    forall id | id in idx - {c[i].doc.id}
      ensures Find(Without(c, i), id).Some?
    {
      FindWithout(c, i, id);
    }
  }

  lemma {:induction false} PushLinked(lru: seq<Element>, idx: map<JobID, Element>, c: seq<Entry>, e: Element, x: Entry)
    requires Linked(lru, idx, c) && Shows(e, x) && x.doc.id !in idx
    ensures Linked([e] + lru, idx[x.doc.id := e], [x] + c)
  {
    forall id | id in idx[x.doc.id := e]
      ensures Find([x] + c, id).Some?
    {
      FindFront(c, x, id);
    }
  }

  /** MoveToFront is a removal and a push of the same element. */
  lemma {:induction false} FrontLinked(lru: seq<Element>, idx: map<JobID, Element>, c: seq<Entry>, i: nat)
    requires Linked(lru, idx, c) && i < |c|
    ensures Linked([lru[i]] + Without(lru, i), idx, [c[i]] + Without(c, i))
  {
    var id := c[i].doc.id;
    DropLinked(lru, idx, c, i);
    PushLinked(Without(lru, i), idx - {id}, Without(c, i), lru[i], c[i]);
    assert (idx - {id})[id := lru[i]] == idx;
  }

  class Store {
    const max: nat
    const ttl: int
    var lru: seq<Element>  // front is the most recently touched
    var idx: map<JobID, Element>
    ghost var contents: seq<Entry>  // the recency sequence the list stands for

    ghost predicate Valid()
      reads this, lru
    {
      |lru| <= max && Linked(lru, idx, contents)
    }

    constructor (max: nat, ttl: int)
      ensures Valid() && contents == [] && this.max == max && this.ttl == ttl
    {
      this.max, this.ttl := max, ttl;
      lru, idx, contents := [], map[], [];
    }

    /** Where the element of an indexed id sits in the list. */
    method Locate(id: JobID) returns (i: nat)
      requires Linked(lru, idx, contents) && id in idx
      ensures i < |lru| && lru[i] == idx[id] && Find(contents, id) == Some(i)
    {
      ghost var at := Find(contents, id).value;
      i := 0;
      while lru[i] != idx[id]
        invariant 0 <= i <= at
        decreases at - i
      {
        i := i + 1;
      }
      FindAt(contents, i);
    }

    method MoveToFront(i: nat)
      requires Linked(lru, idx, contents) && i < |lru|
      modifies `lru, `contents
      ensures lru == [old(lru)[i]] + Without(old(lru), i) && Linked(lru, idx, contents)
      ensures contents == [old(contents)[i]] + Without(old(contents), i)
    {
      FrontLinked(lru, idx, contents, i);
      lru := [lru[i]] + Without(lru, i);
      contents := [contents[i]] + Without(contents, i);
    }

    method Drop(i: nat)
      requires Linked(lru, idx, contents) && i < |lru|
      modifies `lru, `idx, `contents
      ensures lru == Without(old(lru), i) && Linked(lru, idx, contents)
      ensures contents == Without(old(contents), i)
    {
      DropLinked(lru, idx, contents, i);
      idx := idx - {lru[i].doc.id};
      lru := Without(lru, i);
      contents := Without(contents, i);
    }

    /** PushFront of an element for an id the index does not hold. */
    method PushFront(el: Element)
      requires Linked(lru, idx, contents) && el.doc.id !in idx
      modifies `lru, `idx, `contents
      ensures Linked(lru, idx, contents) && lru == [el] + old(lru)
      ensures contents == [Entry(el.doc, el.expires)] + old(contents)
    {
      PushLinked(lru, idx, contents, el, Entry(el.doc, el.expires));
      idx := idx[el.doc.id := el];
      lru := [el] + lru;
      contents := [Entry(el.doc, el.expires)] + contents;
    }

    /** e.doc, e.expires = doc, now + ttl on the element the index names. */
    method Overwrite(i: nat, doc: Doc, expires: int)
      requires Linked(lru, idx, contents) && i < |lru| && lru[i].doc.id == doc.id
      modifies `contents, lru[i]
      ensures Linked(lru, idx, contents)
      ensures contents == old(contents)[i := Entry(doc, expires)]
    {
      OverwriteKeepsIds(contents, i, Entry(doc, expires));
      var el := lru[i];
      el.doc, el.expires := doc, expires;
      contents := contents[i := Entry(doc, expires)];
    }

    /** The eviction loop: only the least recently touched records go. */
    method Evict()
      requires Linked(lru, idx, contents)
      modifies `lru, `idx, `contents
      ensures Valid() && lru <= old(lru) && |lru| == if |old(lru)| < max then |old(lru)| else max
      ensures contents == Newest(old(contents), max)
    {
      while |lru| > max
        invariant Linked(lru, idx, contents)
        invariant lru <= old(lru) && contents <= old(contents)
        invariant |lru| == |old(lru)| || |lru| >= max
        decreases |lru|
      {
        Drop(|lru| - 1);
      }
    }

    /** A held record is overwritten and becomes the most recent one. */
    method Refresh(i: nat, doc: Doc, expires: int)
      requires Valid() && i < |lru| && lru[i].doc.id == doc.id
      modifies `lru, `contents, lru[i]
      ensures Valid() && forall e :: e in lru ==> e in old(lru)
      ensures contents == [Entry(doc, expires)] + Without(old(contents), i)
    {
      ghost var c := contents;
      Overwrite(i, doc, expires);
      MoveToFront(i);
      OverwrittenWithout(c, i, Entry(doc, expires));
    }

    /** record, for an id the index holds */
    method Update(doc: Doc, now: int)
      requires Valid() && doc.id in idx
      modifies `lru, `contents, lru
      ensures Valid() && forall e :: e in lru ==> e in old(lru)
      ensures contents == Recorded(old(contents), max, ttl, doc, now)
    {
      var i := Locate(doc.id);
      if now < lru[i].expires && Rank(doc.state) <= Rank(lru[i].doc.state) {
        RecordedRefused(contents, i, max, ttl, doc, now);
        return;
      }
      RecordedHeld(contents, i, max, ttl, doc, now);
      Refresh(i, doc, now + ttl);
    }

    /** A new record goes to the front, and the least recently touched make room. */
    method PushAndEvict(el: Element)
      requires Valid() && el.doc.id !in idx
      modifies `lru, `idx, `contents
      ensures Valid() && lru <= [el] + old(lru)
      ensures contents == Newest([Entry(el.doc, el.expires)] + old(contents), max)
    {
      PushFront(el);
      Evict();
    }

    /** record, for an id the index does not hold */
    method Insert(el: Element, now: int)
      requires Valid() && el.doc.id !in idx && el.expires == now + ttl
      modifies `lru, `idx, `contents
      ensures Valid() && lru <= [el] + old(lru)
      ensures contents == Recorded(old(contents), max, ttl, el.doc, now)
    {
      AbsentIsNone(lru, idx, contents, el.doc.id);
      RecordedAbsent(contents, max, ttl, el.doc, now);
      PushAndEvict(el);
    }

    /** record */
    method Record(doc: Doc, now: int)
      requires Valid()
      modifies this, lru
      ensures Valid() && forall e :: e in lru ==> e in old(lru) || fresh(e)
      ensures contents == Recorded(old(contents), max, ttl, doc, now)
    {
      if doc.id in idx {
        Update(doc, now);
        return;
      }
      var el := new Element(doc, now + ttl);
      Insert(el, now);
    }

    /** get */
    method Get(id: JobID, now: int) returns (r: Option<Doc>)
      requires Valid()
      modifies this
      ensures Valid() && forall e :: e in lru ==> e in old(lru)
      ensures contents == Got(old(contents), id, now).0
      ensures r == Got(old(contents), id, now).1
    {
      if id !in idx {
        AbsentIsNone(lru, idx, contents, id);
        return None;
      }
      var i := Locate(id);
      if !(now < lru[i].expires) {
        Drop(i);
        return None;
      }
      MoveToFront(i);
      return Some(lru[0].doc);
    }

    method Len() returns (n: nat)
      requires Valid()
      ensures n == |contents| && n <= max
    {
      n := |lru|;
    }
  }

  lemma {:induction false} OverwriteKeepsIds(c: seq<Entry>, i: nat, x: Entry)
    requires Unique(c) && i < |c| && c[i].doc.id == x.doc.id
    ensures Unique(c[i := x])
    ensures forall id :: Find(c, id).Some? ==> Find(c[i := x], id).Some?
  {
    forall id | Find(c, id).Some?
      ensures Find(c[i := x], id).Some?
    {
      assert c[i := x][Find(c, id).value].doc.id == id;
    }
  }

  lemma {:induction false} OverwrittenWithout(c: seq<Entry>, i: nat, x: Entry)
    requires i < |c|
    ensures c[i := x][i] == x && Without(c[i := x], i) == Without(c, i)
  {
  }

  lemma {:induction false} RecordedAbsent(c: seq<Entry>, max: nat, ttl: int, doc: Doc, now: int)
    requires Find(c, doc.id).None?
    ensures Recorded(c, max, ttl, doc, now) == Newest([Entry(doc, now + ttl)] + c, max)
  {
  }

  lemma {:induction false} RecordedRefused(c: seq<Entry>, i: nat, max: nat, ttl: int, doc: Doc, now: int)
    requires i < |c| && Find(c, doc.id) == Some(i) && c[i].Live(now) && Rank(doc.state) <= Rank(c[i].doc.state)
    ensures Recorded(c, max, ttl, doc, now) == c
  {
  }

  /** A record that advances its job is overwritten and moved to the front. */
  lemma {:induction false} RecordedHeld(c: seq<Entry>, i: nat, max: nat, ttl: int, doc: Doc, now: int)
    requires i < |c| && Find(c, doc.id) == Some(i) && !(c[i].Live(now) && Rank(doc.state) <= Rank(c[i].doc.state))
    ensures Recorded(c, max, ttl, doc, now) == [Entry(doc, now + ttl)] + Without(c, i)
  {
  }

  lemma {:induction false} AbsentIsNone(lru: seq<Element>, idx: map<JobID, Element>, c: seq<Entry>, id: JobID)
    requires Linked(lru, idx, c) && id !in idx
    ensures Find(c, id).None?
  {
  }
}
