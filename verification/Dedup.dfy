/** The near-duplicate filter over extracted frames. */
module Dedup {
  import opened QueueTypes

  /** A 64-bit difference hash, bit by bit. */
  type Hash64 = h: seq<bool> | |h| == 64 witness Blank(64)

  function Blank(n: nat): (h: seq<bool>)
    ensures |h| == n
  {
    if n == 0 then [] else [false] + Blank(n - 1)
  }

  /** bits.OnesCount64(a ^ b) */
  function Differences(a: seq<bool>, b: seq<bool>): (n: nat)
    requires |a| == |b|
    ensures n <= |a|
  {
    if a == [] then 0 else (if a[0] != b[0] then 1 else 0) + Differences(a[1..], b[1..])
  }

  lemma DifferencesSymmetric(a: seq<bool>, b: seq<bool>)
    requires |a| == |b|
    ensures Differences(a, b) == Differences(b, a)
  {
  }

  function DifferingBits(a: seq<bool>, b: seq<bool>): set<nat>
    requires |a| == |b|
  {
    set k: nat | k < |a| && a[k] != b[k]
  }

  function Later(ks: set<nat>): set<nat> {
    set k | k in ks :: k + 1
  }

  lemma {:induction false} LaterSize(ks: set<nat>)
    ensures |Later(ks)| == |ks|
  {
    if ks != {} {
      var k :| k in ks;
      LaterSize(ks - {k});
      forall x: nat
        ensures x in Later(ks) <==> x in Later(ks - {k}) || x == k + 1
      {
        if x in Later(ks) && x != k + 1 { assert x - 1 in ks - {k}; }
        if x in Later(ks - {k}) { assert x - 1 in ks; }
      }
      assert Later(ks) == Later(ks - {k}) + {k + 1};
      assert |ks| == |ks - {k}| + 1;
    }
  }

  /** Two hashes differ in as many places as there are bits in which they differ. */
  lemma {:induction false} DifferencesCounted(a: seq<bool>, b: seq<bool>)
    requires |a| == |b|
    ensures Differences(a, b) == |DifferingBits(a, b)|
  {
    if a != [] {
      var rest := DifferingBits(a[1..], b[1..]);
      DifferencesCounted(a[1..], b[1..]);
      LaterSize(rest);
      ShiftedBits(a, b);
    }
  }

  lemma {:induction false} ShiftedBits(a: seq<bool>, b: seq<bool>)
    requires |a| == |b| && a != []
    ensures DifferingBits(a, b) == Later(DifferingBits(a[1..], b[1..])) + (if a[0] != b[0] then {0} else {})
  {
    forall k: nat
      ensures k in DifferingBits(a, b) <==>
        k in Later(DifferingBits(a[1..], b[1..])) || (k == 0 && a[0] != b[0])
    {
      if 0 < k < |a| && a[k] != b[k] {
        assert a[1..][k - 1] != b[1..][k - 1] && k - 1 in DifferingBits(a[1..], b[1..]);
      }
      if k in Later(DifferingBits(a[1..], b[1..])) {
        assert k - 1 in DifferingBits(a[1..], b[1..]) && a[1..][k - 1] == a[k] && b[1..][k - 1] == b[k];
      }
    }
  }

  datatype Frame = Frame(path: string, index: int, timestamp: real)

  /** Readable, decodable frame files and their hashes; hashing any other path fails. */
  type Files = map<string, Hash64>

  function HashOf(fs: Files, f: Frame): Option<Hash64> {
    if f.path in fs then Some(fs[f.path]) else None
  }

  // ---------------------------------------------------------------- which frames stay

  predicate Near(fs: Files, a: Frame, b: Frame, threshold: int) {
    HashOf(fs, a).Some? && HashOf(fs, b).Some? && Differences(fs[a.path], fs[b.path]) <= threshold
  }

  /** Frames are near when both can be hashed and their hashes differ in at most threshold bits. */
  lemma {:induction false} NearExactly(fs: Files, a: Frame, b: Frame, threshold: int)
    ensures Near(fs, a, b, threshold) <==>
      a.path in fs && b.path in fs && |DifferingBits(fs[a.path], fs[b.path])| <= threshold
  {
    if a.path in fs && b.path in fs { DifferencesCounted(fs[a.path], fs[b.path]); }
  }

  /** A frame stays unless it is within the threshold of an earlier frame that stays. */
  predicate Stays(fs: Files, frames: seq<Frame>, threshold: int, i: nat)
    requires i < |frames|
  {
    forall j :: 0 <= j < i && Stays(fs, frames, threshold, j) ==> !Near(fs, frames[i], frames[j], threshold)
  }

  /** The frames that stay, in order. */
  function Selected(fs: Files, frames: seq<Frame>, threshold: int, n: nat): seq<Frame>
    requires n <= |frames|
  {
    if n == 0 then []
    else Selected(fs, frames, threshold, n - 1) + (if Stays(fs, frames, threshold, n - 1) then [frames[n - 1]] else [])
  }

  function Renumber(frames: seq<Frame>): (out: seq<Frame>)
    ensures |out| == |frames|
    ensures forall k :: 0 <= k < |frames| ==> out[k] == frames[k].(index := k)
  {
    seq(|frames|, k requires 0 <= k < |frames| => frames[k].(index := k))
  }

  ghost predicate DistinctPaths(frames: seq<Frame>) {
    forall i, j :: 0 <= i < j < |frames| ==> frames[i].path != frames[j].path
  }

  ghost function DroppedPaths(fs: Files, frames: seq<Frame>, threshold: int, n: nat): set<string>
    requires n <= |frames|
  {
    if n == 0 then {}
    else DroppedPaths(fs, frames, threshold, n - 1)
         + (if Stays(fs, frames, threshold, n - 1) then {} else {frames[n - 1].path})
  }

  lemma DroppedMember(fs: Files, frames: seq<Frame>, threshold: int, n: nat, p: string)
    requires n <= |frames|
    ensures p in DroppedPaths(fs, frames, threshold, n) <==>
            exists i :: 0 <= i < n && !Stays(fs, frames, threshold, i) && frames[i].path == p
  {
  }

  lemma {:induction false} MinusTwice(fs: Files, a: set<string>, p: string)
    ensures (fs - a) - {p} == fs - (a + {p})
  {
  }

  /** Files of frames that stay, or were not reached yet, are still there. */
  lemma {:induction false} HashUnaffected(fs: Files, frames: seq<Frame>, threshold: int, n: nat, i: nat)
    requires DistinctPaths(frames) && n <= |frames| && i < |frames|
    requires n <= i || Stays(fs, frames, threshold, i)
    ensures HashOf(fs - DroppedPaths(fs, frames, threshold, n), frames[i]) == HashOf(fs, frames[i])
  {
    DroppedMember(fs, frames, threshold, n, frames[i].path);
  }

  /** A negative threshold or fewer than two frames returns the input untouched, indices included. Otherwise
      dropped frames lose their file and the rest is renumbered. */
  method DedupFrames(frames: seq<Frame>, threshold: int, files: Files)
    returns (kept: seq<Frame>, removed: nat, left: Files)
    requires DistinctPaths(frames)
    ensures threshold < 0 || |frames| < 2 ==> kept == frames && removed == 0 && left == files
    ensures 0 <= threshold && 2 <= |frames| ==>
      && kept == Renumber(Selected(files, frames, threshold, |frames|))
      && left == files - DroppedPaths(files, frames, threshold, |frames|)
      && |kept| + removed == |frames|
      && forall k :: 0 <= k < |kept| ==> kept[k].index == k
  {
    if threshold < 0 || |frames| < 2 { return frames, 0, files; }
    kept, removed, left := Scan(frames, threshold, files);
    kept := Renumber(kept);
  }

  /** The loop over the frames. */
  method Scan(frames: seq<Frame>, threshold: int, files: Files)
    returns (kept: seq<Frame>, removed: nat, left: Files)
    requires DistinctPaths(frames)
    ensures kept == Selected(files, frames, threshold, |frames|) && |kept| + removed == |frames|
    ensures left == files - DroppedPaths(files, frames, threshold, |frames|)
  {
    kept, removed, left := [], 0, files;
    var keptHashes: seq<Hash64> := [];
    var i := 0;
    while i < |frames|
      invariant 0 <= i <= |frames|
      invariant kept == Selected(files, frames, threshold, i) && |kept| + removed == i
      invariant left == files - DroppedPaths(files, frames, threshold, i)
      invariant keptHashes == HashesOf(files, frames, threshold, i)
    {
      var dup;
      dup, keptHashes := Compare(files, frames, threshold, i, left, keptHashes);
      MinusTwice(files, DroppedPaths(files, frames, threshold, i), frames[i].path);
      if dup {
        removed := removed + 1;
        left := left - {frames[i].path};
      } else {
        kept := kept + [frames[i]];
      }
      i := i + 1;
    }
  }

  /** Hashes the frame's file as it is now, compares it with the kept hashes and joins them unless it is a
      duplicate; an unhashable frame never is. */
  method Compare(ghost files: Files, frames: seq<Frame>, threshold: int, i: nat, left: Files, keptHashes: seq<Hash64>)
    returns (dup: bool, hashes: seq<Hash64>)
    requires DistinctPaths(frames) && i < |frames|
    requires left == files - DroppedPaths(files, frames, threshold, i)
    requires keptHashes == HashesOf(files, frames, threshold, i)
    ensures dup <==> !Stays(files, frames, threshold, i)
    ensures hashes == HashesOf(files, frames, threshold, i + 1)
  {
    HashUnaffected(files, frames, threshold, i, i);
    HashesOfMeaning(files, frames, threshold, i);
    var h := HashOf(left, frames[i]);
    dup, hashes := false, keptHashes;
    if h.Some? {
      dup := FindNear(h.value, keptHashes, threshold);
      DupIff(files, frames, threshold, i, keptHashes);
      if !dup { hashes := keptHashes + [h.value]; }
    } else {
      StaysMeaning(files, frames, threshold, i);
    }
  }

  /** The hashes of the frames among the first n that stay and can be hashed, in order. */
  function HashesOf(fs: Files, frames: seq<Frame>, threshold: int, n: nat): seq<Hash64>
    requires n <= |frames|
  {
    if n == 0 then []
    else if Stays(fs, frames, threshold, n - 1) && HashOf(fs, frames[n - 1]).Some? then
      HashesOf(fs, frames, threshold, n - 1) + [fs[frames[n - 1].path]]
    else HashesOf(fs, frames, threshold, n - 1)
  }

  lemma {:induction false} HashesOfMeaning(fs: Files, frames: seq<Frame>, threshold: int, n: nat)
    requires n <= |frames|
    ensures Hashes(fs, frames, threshold, n, HashesOf(fs, frames, threshold, n))
  {
    if n > 0 {
      HashesOfMeaning(fs, frames, threshold, n - 1);
      HashesNext(fs, frames, threshold, n - 1, HashesOf(fs, frames, threshold, n - 1));
    }
  }

  /** hs holds exactly the hashes of the frames among the first n that stay and can be hashed. */
  ghost predicate Hashes(fs: Files, frames: seq<Frame>, threshold: int, n: nat, hs: seq<Hash64>)
    requires n <= |frames|
  {
    && (forall h :: h in hs ==> HashIsKept(fs, frames, threshold, n, h))
    && (forall j :: 0 <= j < n && Stays(fs, frames, threshold, j) && HashOf(fs, frames[j]).Some? ==>
          fs[frames[j].path] in hs)
  }

  lemma {:induction false} HashesNext(fs: Files, frames: seq<Frame>, threshold: int, i: nat, hs: seq<Hash64>)
    requires i < |frames| && Hashes(fs, frames, threshold, i, hs)
    ensures HashOf(fs, frames[i]).None? || !Stays(fs, frames, threshold, i) ==>
              Hashes(fs, frames, threshold, i + 1, hs)
    ensures HashOf(fs, frames[i]).Some? && Stays(fs, frames, threshold, i) ==>
              Hashes(fs, frames, threshold, i + 1, hs + [fs[frames[i].path]])
  {
    forall h | h in hs
      ensures HashIsKept(fs, frames, threshold, i + 1, h)
    {
      assert HashIsKept(fs, frames, threshold, i, h);
    }
  }

  ghost predicate HashIsKept(fs: Files, frames: seq<Frame>, threshold: int, n: nat, h: Hash64)
    requires n <= |frames|
  {
    exists j :: 0 <= j < n && Stays(fs, frames, threshold, j) && HashOf(fs, frames[j]) == Some(h)
  }

  method FindNear(h: Hash64, hs: seq<Hash64>, threshold: int) returns (dup: bool)
    ensures dup <==> exists k :: 0 <= k < |hs| && Differences(h, hs[k]) <= threshold
  {
    dup := false;
    var k := 0;
    while k < |hs|
      invariant 0 <= k <= |hs|
      invariant forall m :: 0 <= m < k ==> Differences(h, hs[m]) > threshold
    {
      if Differences(h, hs[k]) <= threshold { return true; }
      k := k + 1;
    }
  }

  /** Comparing with the kept hashes decides whether the frame stays. */
  lemma {:induction false} DupIff(fs: Files, frames: seq<Frame>, threshold: int, i: nat, hs: seq<Hash64>)
    requires i < |frames| && HashOf(fs, frames[i]).Some?
    requires Hashes(fs, frames, threshold, i, hs)
    ensures Stays(fs, frames, threshold, i) <==>
            !exists k :: 0 <= k < |hs| && Differences(fs[frames[i].path], hs[k]) <= threshold
  {
    var h := fs[frames[i].path];
    if k :| 0 <= k < |hs| && Differences(h, hs[k]) <= threshold {
      assert hs[k] in hs;
      var j :| 0 <= j < i && Stays(fs, frames, threshold, j) && HashOf(fs, frames[j]) == Some(hs[k]);
      assert Near(fs, frames[i], frames[j], threshold);
    } else {
      forall j | 0 <= j < i && Stays(fs, frames, threshold, j)
        ensures !Near(fs, frames[i], frames[j], threshold)
      {
        if HashOf(fs, frames[j]).Some? {
          var k :| 0 <= k < |hs| && hs[k] == fs[frames[j].path];
        }
      }
    }
  }

  // ---------------------------------------------------------------- results

  /** Frames that cannot be hashed stay; two hashable frames that stay are farther apart than the threshold;
      a frame is dropped only for being near an earlier one that stays. */
  lemma {:induction false} StaysMeaning(fs: Files, frames: seq<Frame>, threshold: int, i: nat)
    requires i < |frames|
    ensures HashOf(fs, frames[i]).None? ==> Stays(fs, frames, threshold, i)
    ensures Stays(fs, frames, threshold, i) ==>
      forall j :: 0 <= j < |frames| && j != i && Stays(fs, frames, threshold, j) ==> !Near(fs, frames[i], frames[j], threshold)
    ensures !Stays(fs, frames, threshold, i) ==>
      exists j :: 0 <= j < i && Stays(fs, frames, threshold, j) && Near(fs, frames[i], frames[j], threshold)
  {
    if Stays(fs, frames, threshold, i) {
      forall j | 0 <= j < |frames| && j != i && Stays(fs, frames, threshold, j)
        ensures !Near(fs, frames[i], frames[j], threshold)
      {
        if i < j && Near(fs, frames[i], frames[j], threshold) {
          DifferencesSymmetric(fs[frames[i].path], fs[frames[j].path]);
          assert Near(fs, frames[j], frames[i], threshold);
        }
      }
    }
  }

  /** The first frame always stays, so a non-empty video never becomes empty. */
  lemma {:induction false} FirstStays(fs: Files, frames: seq<Frame>, threshold: int)
    requires frames != []
    ensures Selected(fs, frames, threshold, |frames|) != []
    ensures Selected(fs, frames, threshold, |frames|)[0] == frames[0]
  {
    SelectedStart(fs, frames, threshold, |frames|);
  }

  lemma {:induction false} SelectedStart(fs: Files, frames: seq<Frame>, threshold: int, n: nat)
    requires 0 < n <= |frames|
    ensures Selected(fs, frames, threshold, n) != [] && Selected(fs, frames, threshold, n)[0] == frames[0]
  {
    if n == 1 {
      assert Selected(fs, frames, threshold, 0) == [];
      assert Stays(fs, frames, threshold, 0);
    } else {
      SelectedStart(fs, frames, threshold, n - 1);
    }
  }

  /** Positions in the input of the frames that stay. */
  ghost function Positions(fs: Files, frames: seq<Frame>, threshold: int, n: nat): seq<nat>
    requires n <= |frames|
  {
    if n == 0 then []
    else Positions(fs, frames, threshold, n - 1) + (if Stays(fs, frames, threshold, n - 1) then [n - 1] else [])
  }

  /** The output is the subsequence of the input at strictly increasing positions. */
  lemma {:induction false} SelectedInOrder(fs: Files, frames: seq<Frame>, threshold: int, n: nat)
    requires n <= |frames|
    ensures
      var ps := Positions(fs, frames, threshold, n);
      var sel := Selected(fs, frames, threshold, n);
      && |ps| == |sel|
      && (forall k :: 0 <= k < |ps| ==> ps[k] < n && Stays(fs, frames, threshold, ps[k]) && sel[k] == frames[ps[k]])
      && (forall k, m :: 0 <= k < m < |ps| ==> ps[k] < ps[m])
  {
    if n != 0 { SelectedInOrder(fs, frames, threshold, n - 1); }
  }

  lemma {:induction false} AllStay(fs: Files, frames: seq<Frame>, threshold: int, n: nat)
    requires n <= |frames|
    requires forall i, j :: 0 <= j < i < |frames| ==> !Near(fs, frames[i], frames[j], threshold)
    ensures Selected(fs, frames, threshold, n) == frames[..n]
  {
    if n != 0 {
      AllStay(fs, frames, threshold, n - 1);
      assert Stays(fs, frames, threshold, n - 1);
      assert frames[..n] == frames[..n - 1] + [frames[n - 1]];
    }
  }

  /** Filtering what was kept, with the files that are left, keeps everything. */
  lemma {:induction false} Idempotent(fs: Files, frames: seq<Frame>, threshold: int)
    requires DistinctPaths(frames)
    ensures
      var left := fs - DroppedPaths(fs, frames, threshold, |frames|);
      var kept := Renumber(Selected(fs, frames, threshold, |frames|));
      Renumber(Selected(left, kept, threshold, |kept|)) == kept
  {
    var n := |frames|;
    var left := fs - DroppedPaths(fs, frames, threshold, n);
    var sel := Selected(fs, frames, threshold, n);
    var kept := Renumber(sel);
    var ps := Positions(fs, frames, threshold, n);
    SelectedInOrder(fs, frames, threshold, n);
    forall i, j | 0 <= j < i < |kept|
      ensures !Near(left, kept[i], kept[j], threshold)
    {
      HashUnaffected(fs, frames, threshold, n, ps[i]);
      HashUnaffected(fs, frames, threshold, n, ps[j]);
      StaysMeaning(fs, frames, threshold, ps[i]);
      assert !Near(fs, frames[ps[i]], frames[ps[j]], threshold);
    }
    AllStay(left, kept, threshold, |kept|);
    assert kept[..|kept|] == kept;
  }

  // ---------------------------------------------------------------- the job's override

  /** processVideo: a job may tighten the filter or turn it off, never loosen it past the operator's ceiling. */
  function Effective(enabled: bool, ceiling: int, requested: Option<int>): (r: (bool, int))
    ensures r.1 <= ceiling
    ensures requested.Some? ==> (r.0 <==> requested.value >= 0) && r.1 <= requested.value
    ensures requested.Some? ==> r.1 == ceiling || r.1 == requested.value
    ensures requested.None? ==> r == (enabled, ceiling)
  {
    match requested
    case None => (enabled, ceiling)
    case Some(t) => (t >= 0, if t > ceiling then ceiling else t)
  }

  /** Why the ceiling matters: at 64 every hashable frame after the first hashable one is dropped. */
  lemma {:induction false} WideOpenCollapses(fs: Files, frames: seq<Frame>, threshold: int, i: nat, j: nat)
    requires 64 <= threshold && j < i < |frames|
    requires HashOf(fs, frames[j]).Some? && HashOf(fs, frames[i]).Some?
    ensures !Stays(fs, frames, threshold, i)
  {
    if !Stays(fs, frames, threshold, j) {
      StaysMeaning(fs, frames, threshold, j);
      var k :| 0 <= k < j && Stays(fs, frames, threshold, k) && Near(fs, frames[j], frames[k], threshold);
      assert Near(fs, frames[i], frames[k], threshold);
    } else {
      assert Near(fs, frames[i], frames[j], threshold);
    }
  }

  ghost predicate CameFrom(frames: seq<Frame>, f: Frame) {
    exists g :: g in frames && g.path == f.path && g.timestamp == f.timestamp
  }

  lemma {:induction false} KeptCameFrom(fs: Files, frames: seq<Frame>, threshold: int)
    ensures
      var kept := Renumber(Selected(fs, frames, threshold, |frames|));
      |kept| <= |frames| && forall k :: 0 <= k < |kept| ==> CameFrom(frames, kept[k])
  {
    var kept := Renumber(Selected(fs, frames, threshold, |frames|));
    var ps := Positions(fs, frames, threshold, |frames|);
    SelectedInOrder(fs, frames, threshold, |frames|);
    SelectedShort(fs, frames, threshold, |frames|);
    forall k | 0 <= k < |kept|
      ensures CameFrom(frames, kept[k])
    {
      assert frames[ps[k]] in frames;
    }
  }

  lemma SelectedShort(fs: Files, frames: seq<Frame>, threshold: int, n: nat)
    requires n <= |frames|
    ensures |Selected(fs, frames, threshold, n)| <= n
  {
  }

  /** What DedupFrames returns. */
  function Filtered(fs: Files, frames: seq<Frame>, threshold: int): seq<Frame> {
    if threshold < 0 || |frames| < 2 then frames else Renumber(Selected(fs, frames, threshold, |frames|))
  }

  /** Frames that reach the moderation fan-out: filter, then cap. The cap cuts the tail of what the filter left. */
  method FramesToScan(frames: seq<Frame>, files: Files, enabled: bool, ceiling: int, requested: Option<int>, maxScan: int)
    returns (scan: seq<Frame>)
    requires DistinctPaths(frames)
    ensures
      var (on, threshold) := Effective(enabled, ceiling, requested);
      && (on ==> scan <= Filtered(files, frames, threshold))
      && (!on ==> scan <= frames)
      && (0 < maxScan ==> |scan| <= maxScan)
      && (maxScan <= 0 || |scan| < maxScan ==> scan == if on then Filtered(files, frames, threshold) else frames)
    ensures frames != [] ==> scan != []
    ensures |scan| <= |frames|
    ensures forall k :: 0 <= k < |scan| ==> CameFrom(frames, scan[k])
  {
    var (on, threshold) := Effective(enabled, ceiling, requested);
    FilteredFacts(files, frames, if on then threshold else -1);
    scan := frames;
    if on {
      var kept, removed, left := DedupFrames(frames, threshold, files);
      scan := kept;
    }
    if 0 < maxScan && maxScan < |scan| { scan := scan[..maxScan]; }
  }

  lemma {:induction false} FilteredFacts(fs: Files, frames: seq<Frame>, threshold: int)
    ensures var kept := Filtered(fs, frames, threshold);
      && (frames != [] ==> kept != []) && |kept| <= |frames|
      && forall k :: 0 <= k < |kept| ==> CameFrom(frames, kept[k])
  {
    if threshold < 0 || |frames| < 2 {
      forall k | 0 <= k < |frames|
        ensures CameFrom(frames, frames[k])
      {
        assert frames[k] in frames;
      }
    } else {
      FirstStays(fs, frames, threshold);
      KeptCameFrom(fs, frames, threshold);
    }
  }
}
