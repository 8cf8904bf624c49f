/** Which time ranges the prune may delete. Times are ISO strings compared as strings; only their order
    is used, so they are reals here, with 0 for the empty string that sorts before every time. */
module PruneGaps {
  import opened Sorting

  /** A kept window, both ends included. Nothing in the code makes `end` come after `start`. */
  datatype Window = Window(start: real, end: real)

  /** lo <= time < hi, or lo < time < hi. */
  datatype Gap = Gap(lo: real, inclusive: bool, hi: real)

  predicate Proper(w: Window) { w.start <= w.end }
  predicate Contains(w: Window, t: real) { w.start <= t <= w.end }
  predicate InGap(g: Gap, t: real) { t < g.hi && (g.lo < t || (g.inclusive && g.lo == t)) }

  ghost predicate Kept(wins: seq<Window>, t: real) {
    exists w :: w in wins && Contains(w, t)
  }

  ghost predicate InSomeGap(gaps: seq<Gap>, t: real) {
    exists g :: g in gaps && InGap(g, t)
  }

  predicate WindowLeq(w: Window, v: Window) {
    w.start < v.start || (w.start == v.start && w.end <= v.end)
  }

  /** A window that ends before it starts, starts after every earlier window has ended, and ends before
      one of them does. */
  ghost predicate StepsBack(wins: seq<Window>, cutoff: real) {
    exists r, p :: r in wins && p in wins && StepsBackAt(wins, cutoff, r, p)
  }

  ghost predicate Exposed(wins: seq<Window>, r: Window) {
    forall e :: e in wins && e.start < r.start ==> e.end < r.start
  }

  ghost predicate StepsBackAt(wins: seq<Window>, cutoff: real, r: Window, p: Window) {
    && r.end < r.start < cutoff && Exposed(wins, r)
    && Proper(p) && p.start < r.start && r.end < p.end
  }

  // ---- merging -----------------------------------------------------------------------------------

  ghost predicate Covers(merged: seq<Window>, t: real) {
    exists k :: 0 <= k < |merged| && Contains(merged[k], t)
  }

  ghost predicate Laid(merged: seq<Window>) {
    && (forall k :: 0 <= k < |merged| - 1 ==> merged[k].end < merged[k + 1].start)
    && (forall j, k :: 0 <= j < k < |merged| ==> merged[j].start <= merged[k].start)
  }

  /** The merged windows that run backwards are exactly the exposed backward windows. */
  ghost predicate BackwardKept(wins: seq<Window>, merged: seq<Window>) {
    && (forall k :: 0 <= k < |merged| && !Proper(merged[k]) ==> merged[k] in wins && Exposed(wins, merged[k]))
    && (forall r :: r in wins && !Proper(r) && Exposed(wins, r) ==> r in merged)
  }

  ghost predicate StartsIn(wins: seq<Window>, m: Window) {
    exists v :: v in wins && v.start == m.start
  }

  ghost predicate AllStartsIn(wins: seq<Window>, merged: seq<Window>) {
    forall k :: 0 <= k < |merged| ==> StartsIn(wins, merged[k])
  }

  /** Merged windows: each starts after its predecessor's end, together they are the kept times. */
  ghost predicate MergeOf(wins: seq<Window>, merged: seq<Window>) {
    && Laid(merged)
    && (forall t :: Covers(merged, t) <==> Kept(wins, t))
    && BackwardKept(wins, merged)
  }

  /** The ends merged so far lie before the last merged window or inside it. */
  ghost predicate LastEnds(wins: seq<Window>, merged: seq<Window>) {
    && (wins != [] <==> merged != [])
    && (merged != [] ==>
          var last := merged[|merged| - 1];
          && (forall v :: v in wins ==> v.end < last.start || v.end <= last.end)
          && (exists v :: v in wins && v.start == last.start)
          && (Proper(last) ==> exists v :: v in wins && v.end == last.end))
  }

  function MergeIn(merged: seq<Window>, w: Window): seq<Window> {
    var n := |merged| - 1;
    if merged != [] && w.start <= merged[n].end
    then merged[n := Window(merged[n].start, if w.end > merged[n].end then w.end else merged[n].end)]
    else merged + [w]
  }

  lemma KeptMore(wins: seq<Window>, w: Window, t: real)
    ensures Kept(wins + [w], t) <==> Kept(wins, t) || Contains(w, t)
  {
    assert forall v :: v in wins + [w] <==> v in wins || v == w;
  }

  lemma CoversMore(merged: seq<Window>, w: Window, t: real)
    ensures Covers(merged + [w], t) <==> Covers(merged, t) || Contains(w, t)
  {
    var more := merged + [w];
    assert more[|merged|] == w;
    if Covers(merged, t) {
      var k :| 0 <= k < |merged| && Contains(merged[k], t);
      assert Contains(more[k], t);
    }
    if Covers(more, t) {
      var k :| 0 <= k < |more| && Contains(more[k], t);
      assert k < |merged| ==> Contains(merged[k], t);
    }
  }

  lemma ExposedStays(wins: seq<Window>, w: Window, r: Window)
    requires r.start <= w.start
    ensures Exposed(wins + [w], r) <==> Exposed(wins, r)
  {
    assert forall v :: v in wins + [w] <==> v in wins || v == w;
  }

  /** `w` comes next in the sorted order, and whether it joins the last merged window. */
  ghost predicate Next(wins: seq<Window>, merged: seq<Window>, w: Window) {
    MergeOf(wins, merged) && LastEnds(wins, merged) && forall v :: v in wins ==> WindowLeq(v, w)
  }

  predicate Joins(merged: seq<Window>, w: Window) {
    merged != [] && w.start <= merged[|merged| - 1].end
  }

  lemma CoversStep(wins: seq<Window>, merged: seq<Window>, w: Window, t: real)
    requires Next(wins, merged, w)
    ensures Covers(MergeIn(merged, w), t) <==> Kept(wins + [w], t)
  {
    KeptMore(wins, w, t);
    if Joins(merged, w) {
      var n := |merged| - 1;
      assert merged == merged[..n] + [merged[n]] && MergeIn(merged, w) == merged[..n] + [MergeIn(merged, w)[n]];
      CoversMore(merged[..n], merged[n], t);
      CoversMore(merged[..n], MergeIn(merged, w)[n], t);
      var v :| v in wins && v.start == merged[n].start;
    } else {
      CoversMore(merged, w, t);
    }
  }

  lemma LaidStep(wins: seq<Window>, merged: seq<Window>, w: Window)
    requires Next(wins, merged, w)
    ensures Laid(MergeIn(merged, w))
  {
    if merged != [] {
      var v :| v in wins && v.start == merged[|merged| - 1].start;
    }
  }

  lemma EndsStep(wins: seq<Window>, merged: seq<Window>, w: Window)
    requires Next(wins, merged, w)
    ensures LastEnds(wins + [w], MergeIn(merged, w))
  {
    var all, out, n := wins + [w], MergeIn(merged, w), |merged| - 1;
    assert w in all && forall v :: v in all <==> v in wins || v == w;
    if Joins(merged, w) {
      var v :| v in wins && v.start == merged[n].start;
      assert v in all;
      var u :| u in wins && u.end == merged[n].end;
      assert u in all;
    }
  }

  lemma BackwardStep(wins: seq<Window>, merged: seq<Window>, w: Window)
    requires Next(wins, merged, w)
    ensures BackwardKept(wins + [w], MergeIn(merged, w))
  {
    var all, out, n := wins + [w], MergeIn(merged, w), |merged| - 1;
    assert forall v :: v in all <==> v in wins || v == w;
    forall r | r in wins
      ensures Exposed(all, r) <==> Exposed(wins, r)
    {
      ExposedStays(wins, w, r);
    }
    if Joins(merged, w) {
      var v :| v in wins && v.start == merged[n].start;
      BackwardJoin(wins, merged, w);
    } else {
      assert out[|merged|] == w;
      assert Exposed(all, w);
    }
  }

  /** A backward window that joins was not exposed; the window it joins runs forward. */
  lemma BackwardJoin(wins: seq<Window>, merged: seq<Window>, w: Window)
    requires Next(wins, merged, w) && Joins(merged, w)
    requires merged[|merged| - 1].start <= w.start
    ensures Proper(merged[|merged| - 1]) && Proper(MergeIn(merged, w)[|merged| - 1])
    ensures !Proper(w) ==> !Exposed(wins + [w], w)
    ensures forall r :: r in merged && !Proper(r) ==> r in MergeIn(merged, w)
  {
    var n := |merged| - 1;
    var u :| u in wins && u.end == merged[n].end;
    assert u in wins + [w];
    assert !Proper(w) ==> u.start < w.start;
    forall r | r in merged && !Proper(r)
      ensures r in MergeIn(merged, w)
    {
      var k :| 0 <= k < |merged| && merged[k] == r;
      assert MergeIn(merged, w)[k] == r;
    }
  }

  lemma StartsStep(wins: seq<Window>, merged: seq<Window>, w: Window)
    requires AllStartsIn(wins, merged)
    ensures AllStartsIn(wins + [w], MergeIn(merged, w))
  {
    forall k | 0 <= k < |MergeIn(merged, w)|
      ensures StartsIn(wins + [w], MergeIn(merged, w)[k])
    {
      if k < |merged| {
        assert StartsIn(wins, merged[k]);
        var v :| v in wins && v.start == merged[k].start;
        assert v in wins + [w];
      } else {
        assert w in wins + [w];
      }
    }
  }

  lemma MergeStep(wins: seq<Window>, merged: seq<Window>, w: Window)
    requires Next(wins, merged, w)
    ensures MergeOf(wins + [w], MergeIn(merged, w)) && LastEnds(wins + [w], MergeIn(merged, w))
  {
    LaidStep(wins, merged, w);
    EndsStep(wins, merged, w);
    BackwardStep(wins, merged, w);
    forall t
      ensures Covers(MergeIn(merged, w), t) <==> Kept(wins + [w], t)
    {
      CoversStep(wins, merged, w, t);
    }
  }

  ghost predicate Folded(wins: seq<Window>, merged: seq<Window>) {
    MergeOf(wins, merged) && LastEnds(wins, merged) && AllStartsIn(wins, merged)
  }

  lemma FoldStep(wins: seq<Window>, merged: seq<Window>, w: Window, all: seq<Window>)
    requires Folded(wins, merged) && all == wins + [w] && forall v :: v in wins ==> WindowLeq(v, w)
    ensures Folded(all, MergeIn(merged, w))
  {
    MergeStep(wins, merged, w);
    StartsStep(wins, merged, w);
  }

  lemma FoldEnd(wins: seq<Window>, sorted: seq<Window>, merged: seq<Window>)
    requires sorted == Sort(wins, WindowLeq) && Folded(sorted, merged)
    ensures MergeOf(wins, merged) && AllStartsIn(wins, merged)
  {
    SortCorrect(wins, WindowLeq);
    SameWindows(sorted, wins, merged);
  }

  method MergeWindows(wins: seq<Window>) returns (merged: seq<Window>)
    ensures MergeOf(wins, merged) && AllStartsIn(wins, merged)
  {
    var sorted := Sort(wins, WindowLeq);
    SortCorrect(wins, WindowLeq);
    merged := [];
    for i := 0 to |sorted|
      invariant Folded(sorted[..i], merged)
    {
      FoldNext(sorted, i, merged);
      merged := MergeOne(merged, sorted[i]);
    }
    assert sorted[..|sorted|] == sorted;
    FoldEnd(wins, sorted, merged);
  }

  lemma FoldNext(sorted: seq<Window>, i: nat, merged: seq<Window>)
    requires Sorted(sorted, WindowLeq) && i < |sorted| && Folded(sorted[..i], merged)
    ensures Folded(sorted[..i + 1], MergeIn(merged, sorted[i]))
  {
    SortedPrefix(sorted, i);
    FoldStep(sorted[..i], merged, sorted[i], sorted[..i + 1]);
  }

  method MergeOne(merged: seq<Window>, w: Window) returns (longer: seq<Window>)
    ensures longer == MergeIn(merged, w)
  {
    var n := |merged| - 1;
    if merged != [] && w.start <= merged[n].end {
      longer := merged[n := Window(merged[n].start, if w.end > merged[n].end then w.end else merged[n].end)];
    } else {
      longer := merged + [w];
    }
  }

  lemma SortedPrefix(sorted: seq<Window>, i: nat)
    requires Sorted(sorted, WindowLeq) && i < |sorted|
    ensures sorted[..i + 1] == sorted[..i] + [sorted[i]]
    ensures forall v :: v in sorted[..i] ==> WindowLeq(v, sorted[i])
  {
  }

  lemma SameWindows(a: seq<Window>, b: seq<Window>, merged: seq<Window>)
    requires MergeOf(a, merged) && AllStartsIn(a, merged) && forall w :: w in a <==> w in b
    ensures MergeOf(b, merged) && AllStartsIn(b, merged)
  {
    forall t
      ensures Kept(a, t) <==> Kept(b, t)
    {
    }
    forall r
      ensures Exposed(a, r) <==> Exposed(b, r)
    {
    }
    forall k | 0 <= k < |merged|
      ensures StartsIn(b, merged[k])
    {
      assert StartsIn(a, merged[k]);
      var v :| v in a && v.start == merged[k].start;
      assert v in b;
    }
  }

  // ---- the gaps ------------------------------------------------------------------------------------

  /** Where the gap before entry k begins: after its predecessor, or at the very first time. */
  function GapStart(merged: seq<Window>, k: nat): real
    requires k <= |merged|
  {
    if k == 0 then 0.0 else merged[k - 1].end
  }

  function GapEnd(merged: seq<Window>, cutoff: real, k: nat): real
    requires k <= |merged|
  {
    if k == |merged| then cutoff else merged[k].start
  }

  function GapAt(merged: seq<Window>, cutoff: real, k: nat): Gap
    requires k <= |merged|
  {
    Gap(GapStart(merged, k), k == 0, GapEnd(merged, cutoff, k))
  }

  /** Gap k is reached unless an earlier merged window already extends past the cutoff. */
  predicate Reached(merged: seq<Window>, cutoff: real, k: nat) {
    k <= |merged| && forall j :: 0 <= j < k ==> merged[j].end < cutoff
  }

  /** In order, none reaching into the next. */
  ghost predicate Disjoint(gaps: seq<Gap>) {
    forall i, j :: 0 <= i < j < |gaps| ==> gaps[i].hi <= gaps[j].lo
  }

  /** Which gap each one is. */
  ghost predicate AtGaps(merged: seq<Window>, cutoff: real, gaps: seq<Gap>, at: seq<nat>) {
    && |at| == |gaps|
    && (forall i :: 0 <= i < |at| ==> at[i] <= |merged| && gaps[i] == GapAt(merged, cutoff, at[i]))
    && (forall i, j :: 0 <= i < j < |at| ==> at[i] < at[j])
  }

  lemma GapsDisjoint(merged: seq<Window>, cutoff: real, gaps: seq<Gap>, at: seq<nat>)
    requires AtGaps(merged, cutoff, gaps, at) && Laid(merged) && forall k :: 0 <= k < |merged| ==> Proper(merged[k])
    ensures Disjoint(gaps)
  {
    forall i, j | 0 <= i < j < |gaps|
      ensures gaps[i].hi <= gaps[j].lo
    {
      var a, b := at[i], at[j];
      assert a <= b - 1;
      assert merged[a].start <= merged[b - 1].start <= merged[b - 1].end;
    }
  }

  ghost predicate GapsOf(merged: seq<Window>, cutoff: real, gaps: seq<Gap>) {
    && (forall t :: InSomeGap(gaps, t) <==>
          exists k: nat :: Reached(merged, cutoff, k) && InGap(GapAt(merged, cutoff, k), t))
    && (forall i :: 0 <= i < |gaps| ==>
          exists k: nat :: Reached(merged, cutoff, k) && gaps[i] == GapAt(merged, cutoff, k))
  }

  predicate Empty(g: Gap) { g.hi <= g.lo && !(g.inclusive && g.lo < g.hi) }

  /** Of the first k gaps, exactly the ones taken may hold a time. */
  ghost predicate Walked(merged: seq<Window>, cutoff: real, gaps: seq<Gap>, at: seq<nat>, k: nat) {
    && k <= |merged| + 1 && AtGaps(merged, cutoff, gaps, at)
    && (forall i :: 0 <= i < |at| ==> at[i] < k && Reached(merged, cutoff, at[i]))
    && (forall j: nat :: j < k ==> j in at || Empty(GapAt(merged, cutoff, j)))
  }

  lemma WalkOne(merged: seq<Window>, cutoff: real, gaps: seq<Gap>, at: seq<nat>, k: nat)
    requires Walked(merged, cutoff, gaps, at, k) && k <= |merged| && Reached(merged, cutoff, k)
    ensures Walked(merged, cutoff, gaps + [GapAt(merged, cutoff, k)], at + [k], k + 1)
    ensures Empty(GapAt(merged, cutoff, k)) ==> Walked(merged, cutoff, gaps, at, k + 1)
  {
    var more := at + [k];
    forall j: nat | j < k + 1
      ensures j in more || Empty(GapAt(merged, cutoff, j))
    {
      assert j in at ==> j in more;
      assert more[|at|] == k;
    }
  }

  /** Nothing further is reached: the gaps taken are all there are. */
  lemma WalkEnds(merged: seq<Window>, cutoff: real, gaps: seq<Gap>, at: seq<nat>, k: nat)
    requires Walked(merged, cutoff, gaps, at, k) && forall j: nat :: Reached(merged, cutoff, j) ==> j < k
    ensures GapsOf(merged, cutoff, gaps)
  {
    forall t
      ensures InSomeGap(gaps, t) <==> exists j: nat :: Reached(merged, cutoff, j) && InGap(GapAt(merged, cutoff, j), t)
    {
      if InSomeGap(gaps, t) {
        var g :| g in gaps && InGap(g, t);
        var i :| 0 <= i < |gaps| && gaps[i] == g;
        assert Reached(merged, cutoff, at[i]) && InGap(GapAt(merged, cutoff, at[i]), t);
      }
      if j: nat :| Reached(merged, cutoff, j) && InGap(GapAt(merged, cutoff, j), t) {
        assert j in at;
        var i :| 0 <= i < |at| && at[i] == j;
        assert gaps[i] in gaps;
      }
    }
  }

  /** The ranges between the merged windows, up to the cutoff. */
  method GapsBetween(merged: seq<Window>, cutoff: real) returns (gaps: seq<Gap>, ghost at: seq<nat>)
    ensures GapsOf(merged, cutoff, gaps) && AtGaps(merged, cutoff, gaps, at)
  {
    gaps, at := [], [];
    var lo, inclusive, k := 0.0, true, 0;
    while k < |merged|
      invariant 0 <= k <= |merged| && Reached(merged, cutoff, k)
      invariant lo == GapStart(merged, k) && inclusive == (k == 0)
      invariant Walked(merged, cutoff, gaps, at, k)
    {
      WalkOne(merged, cutoff, gaps, at, k);
      if merged[k].start > lo || (inclusive && merged[k].start >= lo) {
        gaps, at := gaps + [Gap(lo, inclusive, merged[k].start)], at + [k];
      }
      if merged[k].end >= cutoff {
        WalkEnds(merged, cutoff, gaps, at, k + 1);
        return;
      }
      lo, inclusive := merged[k].end, false;
      k := k + 1;
    }
    WalkOne(merged, cutoff, gaps, at, k);
    gaps, at := gaps + [Gap(lo, inclusive, cutoff)], at + [k];
    WalkEnds(merged, cutoff, gaps, at, k + 1);
  }

  // ---- what the gaps are ----------------------------------------------------------------------------

  ghost predicate Reaches(merged: seq<Window>, cutoff: real, t: real) {
    exists k: nat :: Reached(merged, cutoff, k) && InGap(GapAt(merged, cutoff, k), t)
  }

  /** A time no merged window covers falls into the gap before the first one that starts after it. */
  lemma {:induction false} UncoveredInGap(merged: seq<Window>, cutoff: real, t: real, k: nat)
    requires Laid(merged) && 0.0 <= t < cutoff && !Covers(merged, t) && k <= |merged|
    requires forall j :: 0 <= j < k ==> merged[j].start <= t
    ensures Reaches(merged, cutoff, t)
    decreases |merged| - k
  {
    forall j | 0 <= j < k
      ensures merged[j].end < t
    {
      assert !Contains(merged[j], t);
    }
    if k == |merged| || t < merged[k].start {
      assert Reached(merged, cutoff, k) && InGap(GapAt(merged, cutoff, k), t);
    } else {
      UncoveredInGap(merged, cutoff, t, k + 1);
    }
  }

  /** A kept time inside a gap: the window just before that gap runs backwards over it. */
  lemma CoveredInGap(wins: seq<Window>, merged: seq<Window>, cutoff: real, t: real)
    requires MergeOf(wins, merged) && forall k :: 0 <= k < |merged| ==> merged[k].start < cutoff
    requires Reaches(merged, cutoff, t) && Kept(wins, t)
    ensures StepsBack(wins, cutoff)
  {
    var k: nat :| Reached(merged, cutoff, k) && InGap(GapAt(merged, cutoff, k), t);
    assert Covers(merged, t);
    var j :| 0 <= j < |merged| && Contains(merged[j], t);
    assert j < k;
    var r := merged[k - 1];
    assert r.end < t <= merged[j].end && j < k - 1;
    assert merged[j].end < merged[j + 1].start <= r.start;
    var p :| p in wins && Contains(p, t);
    PStart(wins, merged, j, r, p, t);
    assert StepsBackAt(wins, cutoff, r, p);
  }

  lemma PStart(wins: seq<Window>, merged: seq<Window>, j: nat, r: Window, p: Window, t: real)
    requires MergeOf(wins, merged) && j < |merged| && Contains(merged[j], t) && Contains(p, t) && r in merged
    requires r.end < t && t < r.start
    ensures r in wins && Exposed(wins, r) && !Proper(r) && Proper(p) && p.start < r.start && r.end < p.end
  {
    var k :| 0 <= k < |merged| && merged[k] == r;
  }

  /** And such a window always exposes one. */
  lemma StepBackInGap(wins: seq<Window>, merged: seq<Window>, cutoff: real, r: Window, p: Window)
    requires MergeOf(wins, merged) && r in wins && p in wins && StepsBackAt(wins, cutoff, r, p)
    ensures Reaches(merged, cutoff, p.end) && Kept(wins, p.end)
  {
    assert r in merged;
    var k :| 0 <= k < |merged| && merged[k] == r;
    forall j | 0 <= j < k + 1
      ensures merged[j].end < cutoff
    {
      assert j < k ==> merged[j].end < merged[j + 1].start <= merged[k].start;
    }
    assert Reached(merged, cutoff, k + 1);
    assert InGap(GapAt(merged, cutoff, k + 1), p.end);
    assert Contains(p, p.end);
  }

  function Before(wins: seq<Window>, cutoff: real): seq<Window> {
    if wins == [] then []
    else (if wins[0].start < cutoff then [wins[0]] else []) + Before(wins[1..], cutoff)
  }

  lemma {:induction false} BeforeIs(wins: seq<Window>, cutoff: real)
    ensures forall w :: w in Before(wins, cutoff) <==> w in wins && w.start < cutoff
  {
    if wins != [] {
      BeforeIs(wins[1..], cutoff);
      assert wins == [wins[0]] + wins[1..];
    }
  }

  /** Windows that start at or after the cutoff decide nothing. */
  lemma LaterIrrelevant(wins: seq<Window>, cutoff: real)
    ensures StepsBack(Before(wins, cutoff), cutoff) <==> StepsBack(wins, cutoff)
    ensures forall t :: t < cutoff ==> (Kept(Before(wins, cutoff), t) <==> Kept(wins, t))
  {
    BeforeIs(wins, cutoff);
    var b := Before(wins, cutoff);
    forall r, p
      ensures r in b && p in b && StepsBackAt(b, cutoff, r, p) <==>
              r in wins && p in wins && StepsBackAt(wins, cutoff, r, p)
    {
    }
    if StepsBack(wins, cutoff) {
      var r, p :| r in wins && p in wins && StepsBackAt(wins, cutoff, r, p);
      assert r in b && p in b && StepsBackAt(b, cutoff, r, p);
    }
    if StepsBack(b, cutoff) {
      var r, p :| r in b && p in b && StepsBackAt(b, cutoff, r, p);
      assert r in wins && p in wins && StepsBackAt(wins, cutoff, r, p);
    }
  }

  predicate Times(wins: seq<Window>) {
    forall w :: w in wins ==> w.start >= 0.0 && w.end >= 0.0
  }

  /** The deletable ranges. They hold every time before the cutoff that no window keeps, and no other
      time EXACTLY WHEN no window steps back over an earlier one. */
  method PruneGaps(wins: seq<Window>, cutoff: real) returns (gaps: seq<Gap>)
    requires cutoff >= 0.0 && Times(wins)
    ensures forall t :: 0.0 <= t < cutoff && !Kept(wins, t) ==> InSomeGap(gaps, t)
    ensures forall t :: InSomeGap(gaps, t) ==> t < cutoff
    ensures (forall t :: InSomeGap(gaps, t) ==> !Kept(wins, t)) <==> !StepsBack(wins, cutoff)
    ensures (forall w :: w in wins ==> Proper(w)) ==> Disjoint(gaps)
  {
    BeforeIs(wins, cutoff);
    LaterIrrelevant(wins, cutoff);
    ghost var b := Before(wins, cutoff);
    var merged := MergeWindows(Before(wins, cutoff));
    forall k | 0 <= k < |merged|
      ensures merged[k].start < cutoff
    {
      assert StartsIn(b, merged[k]);
    }
    ghost var at;
    gaps, at := GapsBetween(merged, cutoff);
    GapsExact(b, merged, cutoff, gaps);
    if forall w :: w in wins ==> Proper(w) {
      GapsDisjoint(merged, cutoff, gaps, at);
    }
  }

  lemma GapsExact(b: seq<Window>, merged: seq<Window>, cutoff: real, gaps: seq<Gap>)
    requires MergeOf(b, merged) && GapsOf(merged, cutoff, gaps)
    requires forall k :: 0 <= k < |merged| ==> merged[k].start < cutoff
    ensures forall t :: 0.0 <= t < cutoff && !Kept(b, t) ==> InSomeGap(gaps, t)
    ensures forall t :: InSomeGap(gaps, t) ==> t < cutoff
    ensures (forall t :: InSomeGap(gaps, t) ==> !Kept(b, t)) <==> !StepsBack(b, cutoff)
  {
    forall t | 0.0 <= t < cutoff && !Kept(b, t)
      ensures InSomeGap(gaps, t)
    {
      UncoveredInGap(merged, cutoff, t, 0);
    }
    if StepsBack(b, cutoff) {
      var r, p :| r in b && p in b && StepsBackAt(b, cutoff, r, p);
      StepBackInGap(b, merged, cutoff, r, p);
      assert InSomeGap(gaps, p.end);
    } else {
      forall t | InSomeGap(gaps, t)
        ensures !Kept(b, t)
      {
        assert Reaches(merged, cutoff, t);
        if Kept(b, t) {
          CoveredInGap(b, merged, cutoff, t);
        }
      }
    }
  }

  /** Windows that run forward are always safe. */
  lemma ForwardIsSafe(wins: seq<Window>, cutoff: real)
    requires forall w :: w in wins ==> Proper(w)
    ensures !StepsBack(wins, cutoff)
  {
  }

  /** A session whose end was stamped before its start, after another session: rows of that other one,
      from 3 to 10, are in a deletable range. */
  lemma BackwardSessionExposesKept()
    ensures var wins := [Window(1.0, 10.0), Window(12.0, 3.0)];
      StepsBack(wins, 20.0) && forall t :: 3.0 < t <= 10.0 ==> Kept(wins, t) && InGap(Gap(3.0, false, 20.0), t)
  {
    var wins := [Window(1.0, 10.0), Window(12.0, 3.0)];
    assert wins[0] in wins && wins[1] in wins && StepsBackAt(wins, 20.0, wins[1], wins[0]);
    assert forall t :: 3.0 < t <= 10.0 ==> Contains(wins[0], t);
  }
}
