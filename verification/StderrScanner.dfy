/** The bounded scanner attached to an extraction run's error stream. */
module StderrScanner {
  import opened QueueTypes
  import opened Sequences

  const NL: byte := 10

  /** stderrTailBytes */
  const TAIL: nat := 8192

  /** stderrLineMax */
  const LINE: nat := 65536

  /** The timestamp a line carries, if its pattern and number parse. */
  type Parser = seq<byte> -> Option<real>

  function Found(parse: Parser, l: seq<byte>): seq<real> {
    match parse(l)
    case Some(v) => [v]
    case None => []
  }

  function Clip(l: seq<byte>): seq<byte> {
    if |l| <= LINE then l else l[..LINE]
  }

  function LastBytes(l: seq<byte>): seq<byte> {
    if |l| <= TAIL then l else l[|l| - TAIL..]
  }

  /** Lines end in line feeds, the cut keeps the first 64 KiB of one, and the tail the last 8 KiB of the stream. */
  lemma {:induction false} CutsExactly(l: seq<byte>)
    ensures NL == '\n' as int
    ensures Clip(l) <= l && |Clip(l)| == if |l| < 65536 then |l| else 65536
    ensures |LastBytes(l)| == (if |l| < 8192 then |l| else 8192) && LastBytes(l) == l[|l| - |LastBytes(l)|..]
  {
  }

  /** Position of the first newline, or the length. */
  function Newline(p: seq<byte>): (i: nat)
    ensures i <= |p| && (i < |p| ==> p[i] == NL)
    ensures forall k :: 0 <= k < i ==> p[k] != NL
  {
    if p == [] || p[0] == NL then 0 else Newline(p[1..]) + 1
  }

  // ---------------------------------------------------------------- the scanner

  datatype Scan = Scan(found: seq<real>, partial: seq<byte>)

  /** Write on values: what one chunk does to the timestamps and the unterminated line. */
  function Feed(parse: Parser, s: Scan, p: seq<byte>): Scan
    decreases |p|
  {
    var i := Newline(p);
    if i == |p| then Scan(s.found, Clip(s.partial + p))
    else
      var l := if s.partial == [] then p[..i] else Clip(s.partial + p[..i]);
      Feed(parse, Scan(s.found + Found(parse, l), []), p[i + 1..])
  }

  function Flushed(parse: Parser, s: Scan): seq<real> {
    if s.partial == [] then s.found else s.found + Found(parse, s.partial)
  }

  class Scanner {
    const parse: Parser
    var timestamps: seq<real>
    var tail: seq<byte>
    var partial: seq<byte>

    ghost predicate Valid()
      reads this
    {
      |partial| <= LINE && |tail| <= TAIL
    }

    ghost function Value(): Scan
      reads this
    {
      Scan(timestamps, partial)
    }

    constructor (parse: Parser)
      ensures Valid() && this.parse == parse && Value() == Scan([], []) && tail == []
    {
      this.parse := parse;
      timestamps, tail, partial := [], [], [];
    }

    method Write(p: seq<byte>) returns (n: nat)
      requires Valid()
      modifies this
      ensures Valid() && n == |p|
      ensures Value() == Feed(parse, old(Value()), p)
      ensures tail == LastBytes(old(tail) + p)
    {
      n := |p|;
      AppendTail(p);
      var rest := p;
      while true
        invariant Valid() && tail == LastBytes(old(tail) + p)
        invariant Feed(parse, Value(), rest) == Feed(parse, old(Value()), p)
        decreases |rest|
      {
        var i := IndexNewline(rest);
        if i == |rest| {
          AppendPartial(rest);
          return;
        }
        var line := rest[..i];
        if |partial| > 0 {
          AppendPartial(line);
          line := partial;
        }
        ScanLine(line);
        partial := [];
        rest := rest[i + 1..];
      }
    }

    method ScanLine(line: seq<byte>)
      modifies `timestamps
      ensures timestamps == old(timestamps) + Found(parse, line)
    {
      match parse(line)
      case Some(v) => timestamps := timestamps + [v];
      case None =>
    }

    /** Keeps the head of an over-long line and drops the rest. */
    method AppendPartial(b: seq<byte>)
      requires Valid()
      modifies `partial
      ensures Valid() && partial == Clip(old(partial) + b)
    {
      if |partial| >= LINE { return; }
      var room := LINE - |partial|;
      var kept := if |b| > room then b[..room] else b;
      partial := partial + kept;
    }

    /** Keeps the end of everything written. */
    method AppendTail(p: seq<byte>)
      requires Valid()
      modifies `tail
      ensures Valid() && tail == LastBytes(old(tail) + p)
    {
      if |p| >= TAIL {
        tail := p[|p| - TAIL..];
        return;
      }
      var over := |tail| + |p| - TAIL;
      if over > 0 {
        tail := tail[over..];
      }
      tail := tail + p;
    }

    method Flush()
      requires Valid()
      modifies this
      ensures Valid() && Value() == Scan(Flushed(parse, old(Value())), []) && tail == old(tail)
    {
      if |partial| > 0 {
        ScanLine(partial);
        partial := [];
      }
    }
  }

  method IndexNewline(p: seq<byte>) returns (i: nat)
    ensures i == Newline(p)
  {
    i := 0;
    while i < |p| && p[i] != NL
      invariant 0 <= i <= |p| && Newline(p) == i + Newline(p[i..])
    {
      i := i + 1;
    }
  }

  // ---------------------------------------------------------------- the tail

  function Concat(chunks: seq<seq<byte>>): seq<byte> {
    if chunks == [] then [] else Concat(chunks[..|chunks| - 1]) + chunks[|chunks| - 1]
  }

  function TailOf(chunks: seq<seq<byte>>): seq<byte> {
    if chunks == [] then [] else LastBytes(TailOf(chunks[..|chunks| - 1]) + chunks[|chunks| - 1])
  }

  /** However the stream is split into Writes, the kept tail is its last 8192 bytes. */
  lemma {:induction false} TailIsLastBytes(chunks: seq<seq<byte>>)
    ensures TailOf(chunks) == LastBytes(Concat(chunks))
  {
    if chunks != [] {
      var n := |chunks| - 1;
      TailIsLastBytes(chunks[..n]);
      LastTwice(Concat(chunks[..n]), chunks[n]);
    }
  }

  lemma {:induction false} LastTwice(a: seq<byte>, p: seq<byte>)
    ensures LastBytes(LastBytes(a) + p) == LastBytes(a + p)
  {
  }

  // ---------------------------------------------------------------- line by line

  /** The terminated lines of text, the first of them starting with what came before. */
  function Lines(before: seq<byte>, text: seq<byte>): seq<seq<byte>>
    decreases |text|
  {
    if text == [] then []
    else if text[0] == NL then [before] + Lines([], text[1..])
    else Lines(before + [text[0]], text[1..])
  }

  /** What follows the last newline. */
  function Rest(before: seq<byte>, text: seq<byte>): seq<byte>
    decreases |text|
  {
    if text == [] then before
    else if text[0] == NL then Rest([], text[1..])
    else Rest(before + [text[0]], text[1..])
  }

  function ParseAll(parse: Parser, ls: seq<seq<byte>>): seq<real> {
    if ls == [] then [] else Found(parse, ls[0]) + ParseAll(parse, ls[1..])
  }

  /** Scanning the whole text line by line; an empty last fragment is no line. */
  function Reference(parse: Parser, text: seq<byte>): seq<real> {
    var last := Rest([], text);
    ParseAll(parse, Lines([], text)) + if last == [] then [] else Found(parse, last)
  }

  /** The lines of the text, with what follows the last newline as one more unless it is empty. */
  function AllLines(text: seq<byte>): seq<seq<byte>> {
    Lines([], text) + if Rest([], text) == [] then [] else [Rest([], text)]
  }

  /** found lists, in order, what the lines at the positions ks carry, and no other line carries a timestamp. */
  ghost predicate FoundAt(parse: Parser, ls: seq<seq<byte>>, found: seq<real>, ks: seq<nat>) {
    && |ks| == |found|
    && (forall m :: 0 <= m < |ks| ==> ks[m] < |ls| && parse(ls[ks[m]]) == Some(found[m]))
    && (forall m, n :: 0 <= m < n < |ks| ==> ks[m] < ks[n])
    && (forall k :: 0 <= k < |ls| && parse(ls[k]).Some? ==> k in ks)
  }

  function Moved(ks: seq<nat>): (out: seq<nat>)
    ensures |out| == |ks| && forall m :: 0 <= m < |ks| ==> out[m] == ks[m] + 1
  {
    seq(|ks|, m requires 0 <= m < |ks| => ks[m] + 1)
  }

  lemma {:induction false} MovedAt(parse: Parser, ls: seq<seq<byte>>, found: seq<real>, ks: seq<nat>)
    requires ls != [] && parse(ls[0]).None? && FoundAt(parse, ls[1..], found, ks)
    ensures FoundAt(parse, ls, found, Moved(ks))
  {
    forall k | 0 <= k < |ls| && parse(ls[k]).Some?
      ensures k in Moved(ks)
    {
      assert ls[1..][k - 1] == ls[k];
      var m :| 0 <= m < |ks| && ks[m] == k - 1;
      assert Moved(ks)[m] == k;
    }
  }

  lemma {:induction false} ConsAt<T>(x: T, s: seq<T>)
    ensures ([x] + s)[0] == x && forall m :: 0 < m < |s| + 1 ==> ([x] + s)[m] == s[m - 1]
  {
  }

  /** The first line carries v and stands before everything found after it. */
  lemma {:induction false} FirstAt(parse: Parser, ls: seq<seq<byte>>, v: real, rest: seq<real>, ks: seq<nat>,
                                   found: seq<real>, all: seq<nat>)
    requires ls != [] && parse(ls[0]) == Some(v) && FoundAt(parse, ls[1..], rest, ks)
    requires |found| == |all| == |ks| + 1 && found[0] == v && all[0] == 0
    requires forall m :: 0 < m < |all| ==> found[m] == rest[m - 1] && all[m] == ks[m - 1] + 1
    ensures FoundAt(parse, ls, found, all)
  {
    forall m | 0 <= m < |all|
      ensures all[m] < |ls| && parse(ls[all[m]]) == Some(found[m])
    {
      if m > 0 { assert parse(ls[1..][ks[m - 1]]) == Some(rest[m - 1]); }
    }
    forall k | 0 < k < |ls| && parse(ls[k]).Some?
      ensures k in all
    {
      assert ls[1..][k - 1] == ls[k];
      var m :| 0 <= m < |ks| && ks[m] == k - 1;
      assert all[m + 1] == k;
    }
  }

  lemma {:induction false} ParsedAt(parse: Parser, ls: seq<seq<byte>>) returns (ks: seq<nat>)
    ensures FoundAt(parse, ls, ParseAll(parse, ls), ks)
  {
    if ls == [] {
      ks := [];
    } else {
      var more := ParsedAt(parse, ls[1..]);
      var found := ParseAll(parse, ls[1..]);
      match parse(ls[0]) {
        case None =>
          MovedAt(parse, ls, found, more);
          ks := Moved(more);
          assert ParseAll(parse, ls) == [] + found == found;
        case Some(v) =>
          ks := [0] + Moved(more);
          ConsAt(0, Moved(more));
          ConsAt(v, found);
          FirstAt(parse, ls, v, found, more, [v] + found, ks);
      }
    }
  }

  /** Reading the whole text gives the timestamps of exactly those lines that carry one, in the order of the lines. */
  lemma {:induction false} ReferenceExactly(parse: Parser, text: seq<byte>) returns (ks: seq<nat>)
    ensures FoundAt(parse, AllLines(text), Reference(parse, text), ks)
  {
    var last := Rest([], text);
    ks := ParsedAt(parse, AllLines(text));
    if last == [] {
      assert AllLines(text) == Lines([], text);
    } else {
      ParseSplit(parse, Lines([], text), [last]);
      ParseOne(parse, last);
    }
  }

  function Joined(ls: seq<seq<byte>>): seq<byte> {
    if ls == [] then [] else ls[0] + [NL] + Joined(ls[1..])
  }

  /** Lines and Rest cut the text at its newlines and nowhere else. */
  lemma {:induction false} LinesJoin(before: seq<byte>, text: seq<byte>)
    requires NL !in before
    ensures Joined(Lines(before, text)) + Rest(before, text) == before + text
    ensures NL !in Rest(before, text) && forall l :: l in Lines(before, text) ==> NL !in l
    decreases |text|
  {
    if text != [] {
      if text[0] == NL {
        LinesJoin([], text[1..]);
        var ls := Lines([], text[1..]);
        assert ([before] + ls)[1..] == ls;
        var r := Rest([], text[1..]);
        assert before + [NL] + Joined(ls) + r == before + [NL] + (Joined(ls) + r);
        assert before + text == before + [NL] + ([] + text[1..]);
      } else {
        LinesJoin(before + [text[0]], text[1..]);
        assert before + text == (before + [text[0]]) + text[1..];
      }
    }
  }

  lemma {:induction false} LinesSplit(before: seq<byte>, p: seq<byte>, q: seq<byte>)
    ensures Lines(before, p + q) == Lines(before, p) + Lines(Rest(before, p), q)
    ensures Rest(before, p + q) == Rest(Rest(before, p), q)
    decreases |p|
  {
    if p == [] {
      assert p + q == q;
    } else {
      assert (p + q)[1..] == p[1..] + q;
      LinesSplit(if p[0] == NL then [] else before + [p[0]], p[1..], q);
    }
  }

  lemma {:induction false} LinesSkip(before: seq<byte>, p: seq<byte>)
    requires NL !in p
    ensures Lines(before, p) == [] && Rest(before, p) == before + p
    decreases |p|
  {
    if p != [] {
      LinesSkip(before + [p[0]], p[1..]);
      assert before + p == (before + [p[0]]) + p[1..];
    }
  }

  /** The first newline ends the first line. */
  lemma {:induction false} LinesAt(before: seq<byte>, p: seq<byte>)
    requires Newline(p) < |p|
    ensures var i := Newline(p);
      && Lines(before, p) == [before + p[..i]] + Lines([], p[i + 1..])
      && Rest(before, p) == Rest([], p[i + 1..])
  {
    var i := Newline(p);
    LinesSkip(before, p[..i]);
    LinesSplit(before, p[..i], p[i..]);
    assert p == p[..i] + p[i..] && p[i..][1..] == p[i + 1..];
  }

  lemma {:induction false} ParseSplit(parse: Parser, a: seq<seq<byte>>, b: seq<seq<byte>>)
    ensures ParseAll(parse, a + b) == ParseAll(parse, a) + ParseAll(parse, b)
  {
    if a == [] {
      assert a + b == b;
    } else {
      assert (a + b)[1..] == a[1..] + b;
      ParseSplit(parse, a[1..], b);
    }
  }

  // ---------------------------------------------------------------- any splitting

  /** Cutting the line at 64 KiB does not change what is found in it. */
  ghost predicate Harmless(parse: Parser, l: seq<byte>) {
    parse(Clip(l)) == parse(l)
  }

  ghost predicate AllHarmless(parse: Parser, ls: seq<seq<byte>>) {
    forall l :: l in ls ==> Harmless(parse, l)
  }

  lemma {:induction false} ClipTwice(a: seq<byte>, b: seq<byte>)
    ensures Clip(Clip(a) + b) == Clip(a + b)
  {
  }

  /** The line a newline completes is scanned whole, or cut if part of it was already pending. */
  lemma {:induction false} FeedLine(parse: Parser, found: seq<real>, before: seq<byte>, p: seq<byte>)
    requires Newline(p) < |p| && Harmless(parse, before + p[..Newline(p)])
    ensures Feed(parse, Scan(found, Clip(before)), p)
      == Feed(parse, Scan(found + Found(parse, before + p[..Newline(p)]), []), p[Newline(p) + 1..])
  {
    var h := p[..Newline(p)];
    ClipTwice(before, h);
    if before == [] { assert before + h == h; }
  }

  lemma {:induction false} ParseCons(parse: Parser, found: seq<real>, l: seq<byte>, ls: seq<seq<byte>>)
    ensures found + Found(parse, l) + ParseAll(parse, ls) == found + ParseAll(parse, [l] + ls)
  {
    CutFront([l], ls);
    Regroup(found, Found(parse, l), ParseAll(parse, ls));
  }

  lemma {:induction false} HarmlessCons(parse: Parser, l: seq<byte>, ls: seq<seq<byte>>)
    requires AllHarmless(parse, [l] + ls)
    ensures Harmless(parse, l) && AllHarmless(parse, ls)
  {
    assert ([l] + ls)[0] == l;
  }

  /** A chunk scans the lines it completes, whatever was pending before it. */
  lemma {:induction false} FeedReads(parse: Parser, found: seq<real>, before: seq<byte>, p: seq<byte>)
    requires AllHarmless(parse, Lines(before, p))
    ensures Feed(parse, Scan(found, Clip(before)), p)
      == Scan(found + ParseAll(parse, Lines(before, p)), Clip(Rest(before, p)))
    decreases |p|
  {
    var i := Newline(p);
    if i == |p| {
      ClipTwice(before, p);
      LinesSkip(before, p);
    } else {
      var l, q := before + p[..i], p[i + 1..];
      var ls := Lines([], q);
      LinesAt(before, p);
      HarmlessCons(parse, l, ls);
      FeedLine(parse, found, before, p);
      FeedReads(parse, found + Found(parse, l), [], q);
      ParseCons(parse, found, l, ls);
    }
  }

  function Play(parse: Parser, chunks: seq<seq<byte>>): Scan {
    if chunks == [] then Scan([], [])
    else Feed(parse, Play(parse, chunks[..|chunks| - 1]), chunks[|chunks| - 1])
  }

  lemma {:induction false} PlayReads(parse: Parser, chunks: seq<seq<byte>>)
    requires AllHarmless(parse, Lines([], Concat(chunks)))
    ensures Play(parse, chunks)
      == Scan(ParseAll(parse, Lines([], Concat(chunks))), Clip(Rest([], Concat(chunks))))
  {
    if chunks != [] {
      var n := |chunks| - 1;
      var a, p := Concat(chunks[..n]), chunks[n];
      LinesSplit([], a, p);
      PlayReads(parse, chunks[..n]);
      FeedReads(parse, ParseAll(parse, Lines([], a)), Rest([], a), p);
      ParseSplit(parse, Lines([], a), Lines(Rest([], a), p));
    }
  }

  /**
   * For every splitting of the stream into Writes followed by Flush, the timestamps are those of reading the
   * whole text line by line, provided no line holds its timestamp beyond the 64 KiB cut.
   */
  lemma {:induction false} SplittingIrrelevant(parse: Parser, chunks: seq<seq<byte>>)
    requires AllHarmless(parse, Lines([], Concat(chunks))) && Harmless(parse, Rest([], Concat(chunks)))
    ensures Flushed(parse, Play(parse, chunks)) == Reference(parse, Concat(chunks))
  {
    PlayReads(parse, chunks);
  }

  /** Lines of at most 64 KiB are always safe. */
  lemma {:induction false} ShortLinesAgree(parse: Parser, chunks: seq<seq<byte>>)
    requires forall l :: l in Lines([], Concat(chunks)) ==> |l| <= LINE
    requires |Rest([], Concat(chunks))| <= LINE
    ensures Flushed(parse, Play(parse, chunks)) == Reference(parse, Concat(chunks))
  {
    SplittingIrrelevant(parse, chunks);
  }

  // ---------------------------------------------------------------- the exact condition

  /** A chunk that starts on a line boundary scans its lines whole. */
  lemma {:induction false} FeedWhole(parse: Parser, found: seq<real>, p: seq<byte>)
    ensures Feed(parse, Scan(found, []), p) == Scan(found + ParseAll(parse, Lines([], p)), Clip(Rest([], p)))
    decreases |p|
  {
    var i := Newline(p);
    if i == |p| {
      LinesSkip([], p);
      assert [] + p == p;
    } else {
      var l, q := p[..i], p[i + 1..];
      var ls := Lines([], q);
      LinesAt([], p);
      assert [] + l == l;
      FeedWhole(parse, found + Found(parse, l), q);
      ParseCons(parse, found, l, ls);
    }
  }

  /** Where line l stands in the text. */
  lemma {:induction false} LineAt(text: seq<byte>, l: seq<byte>) returns (a: seq<byte>, b: seq<byte>)
    requires l in Lines([], text)
    ensures text == a + l + ([NL] + b) && NL !in l
    ensures Rest([], a) == [] && Rest([], text) == Rest([], b)
    ensures Lines([], text) == Lines([], a) + [l] + Lines([], b)
    decreases |text|
  {
    var i := Newline(text);
    if i == |text| {
      LinesSkip([], text);
      assert false;
    } else {
      var first, q := text[..i], text[i + 1..];
      LinesAt([], text);
      assert [] + first == first && text == first + ([NL] + q);
      if first == l {
        a, b := [], q;
      } else {
        var ahead;
        InTail(first, Lines([], q), l);
        ahead, b := LineAt(q, l);
        a := first + ([NL] + ahead);
        BoundaryAhead(first, ahead);
        Nested(first, [NL], ahead, l, [NL] + b);
        Nested([first], [], Lines([], ahead), [l], Lines([], b));
        assert [first] + ([] + Lines([], ahead)) == [first] + Lines([], ahead);
      }
    }
  }

  lemma {:induction false} InTail<T>(first: T, ls: seq<T>, l: T)
    requires l in [first] + ls && l != first
    ensures l in ls
  {
  }

  lemma {:induction false} Nested<T>(x: seq<T>, n: seq<T>, a: seq<T>, l: seq<T>, b: seq<T>)
    ensures x + (n + (a + l + b)) == x + (n + a) + l + b
    ensures n == [] ==> x + (a + l + b) == x + (n + a) + l + b
  {
  }

  lemma {:induction false} BoundaryAhead(first: seq<byte>, a: seq<byte>)
    requires NL !in first
    ensures Lines([], first + ([NL] + a)) == [first] + Lines([], a)
    ensures Rest([], first + ([NL] + a)) == Rest([], a)
  {
    LinesSkip([], first);
    LinesSplit([], first, [NL] + a);
    assert [] + first == first && ([NL] + a)[1..] == a;
  }

  /** Two Writes that cut the text right after line l, before its newline. */
  lemma {:induction false} CutAfterLine(parse: Parser, a: seq<byte>, l: seq<byte>, b: seq<byte>)
    requires Rest([], a) == [] && NL !in l && l != []
    ensures Play(parse, [a + l, [NL] + b]) ==
      Scan(ParseAll(parse, Lines([], a)) + Found(parse, Clip(l)) + ParseAll(parse, Lines([], b)), Clip(Rest([], b)))
  {
    var found := ParseAll(parse, Lines([], a));
    PlayTwo(parse, a + l, [NL] + b);
    FeedWhole(parse, [], a + l);
    LinesSplit([], a, l);
    LinesSkip([], l);
    assert Lines([], a) + [] == Lines([], a) && [] + l == l && [] + found == found;
    FeedNewline(parse, found, Clip(l), b);
    FeedWhole(parse, found + Found(parse, Clip(l)), b);
  }

  lemma {:induction false} FeedNewline(parse: Parser, found: seq<real>, partial: seq<byte>, b: seq<byte>)
    requires partial != [] && |partial| <= LINE
    ensures Feed(parse, Scan(found, partial), [NL] + b) == Feed(parse, Scan(found + Found(parse, partial), []), b)
  {
    var p := [NL] + b;
    assert Newline(p) == 0 && p[..0] == [] && p[1..] == b && partial + [] == partial;
  }

  lemma {:induction false} PlayTwo(parse: Parser, p: seq<byte>, q: seq<byte>)
    ensures Play(parse, [p, q]) == Feed(parse, Feed(parse, Scan([], []), p), q)
    ensures Concat([p, q]) == p + q
  {
    assert [p, q][..1] == [p] && [p][..0] == [];
    assert Play(parse, [p]) == Feed(parse, Scan([], []), p);
    assert Concat([p]) == [] + p == p;
  }

  lemma {:induction false} PlayOne(parse: Parser, p: seq<byte>)
    ensures Play(parse, [p]) == Feed(parse, Scan([], []), p) && Concat([p]) == p
  {
    assert [p][..0] == [];
    assert Concat([p]) == [] + p == p;
  }

  lemma {:induction false} Cancel(x: seq<real>, f: seq<real>, g: seq<real>, y: seq<real>)
    requires x + f + y == x + g + y && |f| <= 1 && |g| <= 1
    ensures f == g
  {
    assert |f| == |g|;
    if |f| == 1 { assert (x + f + y)[|x|] == f[0] && (x + g + y)[|x|] == g[0]; }
  }

  /** What Flush adds for the unterminated rest. */
  function AtFlush(parse: Parser, rest: seq<byte>): seq<real> {
    if rest == [] then [] else Found(parse, rest)
  }

  /** One Write with everything reads every line whole, and a harmful rest wrong. */
  lemma {:induction false} HarmfulRest(parse: Parser, text: seq<byte>)
    requires !Harmless(parse, Rest([], text))
    ensures Concat([text]) == text && Flushed(parse, Play(parse, [text])) != Reference(parse, text)
  {
    var x, rest := ParseAll(parse, Lines([], text)), Rest([], text);
    PlayOne(parse, text);
    FeedWhole(parse, [], text);
    assert [] + x == x;
    if x + Found(parse, Clip(rest)) == x + Found(parse, rest) {
      assert x + Found(parse, Clip(rest)) + [] == x + Found(parse, rest) + [];
      Cancel(x, Found(parse, Clip(rest)), Found(parse, rest), []);
    }
  }

  lemma {:induction false} ParseAround(parse: Parser, xs: seq<seq<byte>>, l: seq<byte>, ys: seq<seq<byte>>)
    ensures ParseAll(parse, xs + [l] + ys) == ParseAll(parse, xs) + Found(parse, l) + ParseAll(parse, ys)
  {
    ParseSplit(parse, xs + [l], ys);
    ParseSplit(parse, xs, [l]);
    ParseOne(parse, l);
  }

  lemma {:induction false} ParseOne(parse: Parser, l: seq<byte>)
    ensures ParseAll(parse, [l]) == Found(parse, l)
  {
    assert ParseAll(parse, [l][1..]) == [];
  }

  lemma {:induction false} ReferenceAround(parse: Parser, a: seq<byte>, l: seq<byte>, b: seq<byte>, text: seq<byte>)
    requires Lines([], text) == Lines([], a) + [l] + Lines([], b) && Rest([], text) == Rest([], b)
    ensures Reference(parse, text) ==
      ParseAll(parse, Lines([], a)) + Found(parse, l) + (ParseAll(parse, Lines([], b)) + AtFlush(parse, Rest([], b)))
  {
    ParseAround(parse, Lines([], a), l, Lines([], b));
    Regroup(ParseAll(parse, Lines([], a)) + Found(parse, l), ParseAll(parse, Lines([], b)), AtFlush(parse, Rest([], b)));
  }

  /** A cut after a harmful line reads it wrong and everything else right. */
  lemma {:induction false} HarmfulLine(parse: Parser, text: seq<byte>, l: seq<byte>) returns (chunks: seq<seq<byte>>)
    requires l in Lines([], text) && !Harmless(parse, l) && Harmless(parse, Rest([], text))
    ensures Concat(chunks) == text && Flushed(parse, Play(parse, chunks)) != Reference(parse, text)
  {
    var a, b := LineAt(text, l);
    chunks := [a + l, [NL] + b];
    var x, y := ParseAll(parse, Lines([], a)), ParseAll(parse, Lines([], b)) + AtFlush(parse, Rest([], b));
    PlayTwo(parse, a + l, [NL] + b);
    CutAfterLine(parse, a, l, b);
    ReferenceAround(parse, a, l, b, text);
    Regroup(x + Found(parse, Clip(l)), ParseAll(parse, Lines([], b)), AtFlush(parse, Rest([], b)));
    assert Flushed(parse, Play(parse, chunks)) == x + Found(parse, Clip(l)) + y;
    if x + Found(parse, Clip(l)) + y == x + Found(parse, l) + y {
      Cancel(x, Found(parse, Clip(l)), Found(parse, l), y);
    }
  }

  /**
   * The condition is exact: a stream reads alike under every splitting, namely as its text line by line, if and
   * only if the 64 KiB cut is harmless to each of its lines and to its unterminated rest.
   */
  lemma {:induction false} AgreesIffHarmless(parse: Parser, text: seq<byte>)
    ensures (forall chunks :: Concat(chunks) == text ==> Flushed(parse, Play(parse, chunks)) == Reference(parse, text))
      <==> AllHarmless(parse, Lines([], text)) && Harmless(parse, Rest([], text))
  {
    if AllHarmless(parse, Lines([], text)) && Harmless(parse, Rest([], text)) {
      forall chunks | Concat(chunks) == text
        ensures Flushed(parse, Play(parse, chunks)) == Reference(parse, text)
      {
        SplittingIrrelevant(parse, chunks);
      }
    } else if !Harmless(parse, Rest([], text)) {
      HarmfulRest(parse, text);
    } else {
      var l :| l in Lines([], text) && !Harmless(parse, l);
      var chunks := HarmfulLine(parse, text, l);
    }
  }
}
