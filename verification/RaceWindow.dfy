/** The race window a record supports: stitched markers, the underway run around them, and the turn home. */
module RaceWindow {
  import opened Sorting
  import opened Options

  /** A recorded session; a window still open has no end. */
  datatype Session = Session(start: Option<real>, end: Option<real>, id: int, race: int)
  datatype Marker = Marker(start: real, end: real, id: int)
  datatype Window = Window(start: real, end: real, ids: seq<int>)

  // ---- stitching ---------------------------------------------------------------------------------

  predicate Before(x: Marker, y: Marker) { x.start < y.start || (x.start == y.start && x.end <= y.end) }

  /** The sessions that have a start; an open one is a point. */
  function Markers(sessions: seq<Session>): seq<Marker> {
    if sessions == [] then []
    else
      var s := sessions[|sessions| - 1];
      Markers(sessions[..|sessions| - 1]) +
      if s.start.None? then [] else [Marker(s.start.value, if s.end.None? then s.start.value else s.end.value, s.id)]
  }

  /** In the order of the sessions, one for each that has a start. */
  lemma {:induction false} MarkersCons(s: Session, rest: seq<Session>)
    ensures Markers([]) == []
    ensures s.start.None? ==> Markers([s] + rest) == Markers(rest)
    ensures s.start.Some? && s.end.Some? ==>
              Markers([s] + rest) == [Marker(s.start.value, s.end.value, s.id)] + Markers(rest)
    ensures s.start.Some? && s.end.None? ==>
              Markers([s] + rest) == [Marker(s.start.value, s.start.value, s.id)] + Markers(rest)
  {
    if rest == [] {
      assert [s] + rest == [s] && [s][..0] == [];
    } else {
      MarkersCons(s, rest[..|rest| - 1]);
      assert ([s] + rest)[..|rest|] == [s] + rest[..|rest| - 1];
    }
  }

  /** Marker j starts no more than `gap` after marker i, in order, ends. */
  predicate Near(ms: seq<Marker>, gap: real, i: nat, j: nat)
    requires i < j < |ms|
  {
    ms[j].start - ms[i].end <= gap
  }

  predicate Touch(ms: seq<Marker>, gap: real, i: nat, j: nat)
    requires i < |ms| && j < |ms|
  {
    i == j || (i < j && Near(ms, gap, i, j)) || (j < i && Near(ms, gap, j, i))
  }

  /** A chain of near markers joins i and j. */
  ghost predicate Connected(ms: seq<Marker>, gap: real, i: nat, j: nat)
    requires i < |ms| && j < |ms|
  {
    exists path: seq<nat> :: Path(ms, gap, path, i, j)
  }

  ghost predicate Path(ms: seq<Marker>, gap: real, path: seq<nat>, i: nat, j: nat)
    requires i < |ms| && j < |ms|
    decreases |path|
  {
    if |path| <= 1 then path == [i] && i == j
    else path[0] == i && path[1] < |ms| && Touch(ms, gap, i, path[1]) && Path(ms, gap, path[1..], path[1], j)
  }

  ghost predicate InOrder(ms: seq<Marker>) { forall i, j :: 0 <= i < j < |ms| ==> ms[i].start <= ms[j].start }

  ghost predicate HasNear(ms: seq<Marker>, gap: real, j: nat)
    requires j < |ms|
  {
    exists i: nat :: i < j && Near(ms, gap, i, j)
  }

  lemma TouchStays(ms: seq<Marker>, gap: real, cut: nat, i: nat, k: nat)
    requires InOrder(ms) && cut < |ms| && i < |ms| && k < |ms| && !HasNear(ms, gap, cut)
    ensures Touch(ms, gap, i, k) ==> (i < cut <==> k < cut)
  {
    if i < cut <= k {
      assert !Near(ms, gap, i, cut) && (cut < k ==> ms[cut].start <= ms[k].start);
    }
    if k < cut <= i {
      assert !Near(ms, gap, k, cut) && (cut < i ==> ms[cut].start <= ms[i].start);
    }
  }

  /** A marker that is near none before it starts a group: no chain crosses. */
  lemma {:induction false} NoChainCrosses(ms: seq<Marker>, gap: real, cut: nat, path: seq<nat>, i: nat, j: nat)
    requires InOrder(ms) && cut < |ms| && i < |ms| && j < |ms| && Path(ms, gap, path, i, j)
    requires !HasNear(ms, gap, cut)
    ensures i < cut <==> j < cut
    decreases |path|
  {
    if |path| > 1 {
      TouchStays(ms, gap, cut, i, path[1]);
      NoChainCrosses(ms, gap, cut, path[1..], path[1], j);
    }
  }

  lemma NearIsEarlier(ms: seq<Marker>, gap: real, p: nat, i: nat, j: nat)
    requires InOrder(ms) && p < i <= j < |ms| && Near(ms, gap, p, j)
    ensures Near(ms, gap, p, i)
  {
  }

  /** Markers that no such marker separates are chained together. */
  lemma {:induction false} ChainedBack(ms: seq<Marker>, gap: real, i: nat, j: nat) returns (path: seq<nat>)
    requires InOrder(ms) && i <= j < |ms|
    requires forall k :: i < k <= j ==> HasNear(ms, gap, k)
    ensures Path(ms, gap, path, j, i)
    decreases j
  {
    if i == j { return [j]; }
    assert HasNear(ms, gap, j);
    var p: nat :| p < j && Near(ms, gap, p, j);
    if p >= i {
      path := ChainedBack(ms, gap, i, p);
      assert path[0] == p && ([j] + path)[1..] == path;
      path := [j] + path;
    } else {
      NearIsEarlier(ms, gap, p, i, j);
      path := [j, p, i];
      assert path[1..] == [p, i] && path[1..][1..] == [i];
      assert Path(ms, gap, [i], i, i) && Path(ms, gap, [p, i], p, i);
    }
  }

  /** Being chained is exactly having no such marker in between: the components are the runs between cuts. */
  lemma ConnectedIff(ms: seq<Marker>, gap: real, i: nat, j: nat)
    requires InOrder(ms) && i <= j < |ms|
    ensures Connected(ms, gap, j, i) <==> forall k :: i < k <= j ==> HasNear(ms, gap, k)
  {
    if forall k :: i < k <= j ==> HasNear(ms, gap, k) {
      var path := ChainedBack(ms, gap, i, j);
    }
    if Connected(ms, gap, j, i) {
      var path: seq<nat> :| Path(ms, gap, path, j, i);
      forall k | i < k <= j
        ensures HasNear(ms, gap, k)
      {
        if !HasNear(ms, gap, k) {
          NoChainCrosses(ms, gap, k, path, j, i);
        }
      }
    }
  }

  function MaxEnd(ms: seq<Marker>, p: nat, q: nat): real
    requires p < q <= |ms|
  {
    if q == p + 1 || MaxEnd(ms, p, q - 1) < ms[q - 1].end then ms[q - 1].end else MaxEnd(ms, p, q - 1)
  }

  lemma {:induction false} MaxEndIs(ms: seq<Marker>, p: nat, q: nat)
    requires p < q <= |ms|
    ensures forall i :: p <= i < q ==> ms[i].end <= MaxEnd(ms, p, q)
    ensures exists i :: p <= i < q && ms[i].end == MaxEnd(ms, p, q)
  {
    if q == p + 1 || MaxEnd(ms, p, q - 1) < ms[q - 1].end {
      assert ms[q - 1].end == MaxEnd(ms, p, q);
    }
    if q > p + 1 { MaxEndIs(ms, p, q - 1); }
  }

  function Ids(ms: seq<Marker>, p: nat, q: nat): seq<int>
    requires p <= q <= |ms|
  {
    if p == q then [] else Ids(ms, p, q - 1) + [ms[q - 1].id]
  }

  /** The window of the markers p to q: from the first start to the last end, all their ids in order. */
  function WindowOf(ms: seq<Marker>, p: nat, q: nat): Window
    requires p < q <= |ms|
  {
    Window(ms[p].start, MaxEnd(ms, p, q), Ids(ms, p, q))
  }

  /** The first n markers, one window for each group; a group starts exactly at a marker near none before it. */
  ghost predicate Stitched(ms: seq<Marker>, gap: real, out: seq<Window>, cuts: seq<nat>, n: nat)
    requires n <= |ms|
  {
    && |out| == |cuts| && (n == 0 <==> cuts == [])
    && (forall g :: 0 <= g < |cuts| ==> cuts[g] < GroupEnd(cuts, g, n) <= n)
    && (forall g :: 0 <= g < |cuts| ==> out[g] == WindowOf(ms, cuts[g], GroupEnd(cuts, g, n)))
    && (forall k :: 0 <= k < n ==> (k in cuts <==> !HasNear(ms, gap, k)))
  }

  function GroupEnd(cuts: seq<nat>, g: nat, n: nat): nat
    requires g < |cuts|
  {
    if g + 1 < |cuts| then cuts[g + 1] else n
  }

  /** A marker is near some earlier one exactly when it is within the gap of the last group's latest end. */
  lemma NearLastGroup(ms: seq<Marker>, gap: real, c: nat, j: nat)
    requires InOrder(ms) && c < j < |ms| && !HasNear(ms, gap, c)
    ensures HasNear(ms, gap, j) <==> ms[j].start - MaxEnd(ms, c, j) <= gap
  {
    MaxEndIs(ms, c, j);
    if HasNear(ms, gap, j) {
      var i: nat :| i < j && Near(ms, gap, i, j);
      if i < c { NearIsEarlier(ms, gap, i, c, j); assert HasNear(ms, gap, c); }
    } else {
      var i :| c <= i < j && ms[i].end == MaxEnd(ms, c, j);
      assert !Near(ms, gap, i, j);
    }
  }

  lemma LastGroupDecides(ms: seq<Marker>, gap: real, out: seq<Window>, cuts: seq<nat>, j: nat)
    requires InOrder(ms) && j < |ms| && Stitched(ms, gap, out, cuts, j)
    ensures HasNear(ms, gap, j) <==> out != [] && ms[j].start - out[|out| - 1].end <= gap
  {
    if j > 0 {
      var g := |cuts| - 1;
      assert cuts[g] in cuts && out[g] == WindowOf(ms, cuts[g], j);
      NearLastGroup(ms, gap, cuts[g], j);
    }
  }

  /** The markers in order of their starts. */
  function Ordered(sessions: seq<Session>): seq<Marker> { Sort(Markers(sessions), Before) }

  /** By start, and by end where they start together; the same markers. */
  lemma OrderedIs(sessions: seq<Session>)
    ensures multiset(Ordered(sessions)) == multiset(Markers(sessions))
    ensures forall i, j :: 0 <= i < j < |Ordered(sessions)| ==>
              var x, y := Ordered(sessions)[i], Ordered(sessions)[j];
              x.start < y.start || (x.start == y.start && x.end <= y.end)
  {
    SortCorrect(Markers(sessions), Before);
    forall i, j | 0 <= i < j < |Ordered(sessions)|
      ensures var x, y := Ordered(sessions)[i], Ordered(sessions)[j];
              x.start < y.start || (x.start == y.start && x.end <= y.end)
    {
      assert Before(Ordered(sessions)[i], Ordered(sessions)[j]);
    }
  }

  /** One window for each group, the groups starting at `cuts`. */
  ghost predicate WindowsOf(ms: seq<Marker>, gap: real, out: seq<Window>) {
    exists cuts :: Stitched(ms, gap, out, cuts, |ms|)
  }

  method Stitch(sessions: seq<Session>, gap: real) returns (out: seq<Window>)
    ensures WindowsOf(Ordered(sessions), gap, out)
    ensures out == [] <==> forall s :: s in sessions ==> s.start.None?
    ensures forall s :: s in sessions && s.start.Some? ==> exists w :: w in out && Kept(s, w)
  {
    ghost var cuts;
    SortedInOrder(Markers(sessions));
    SortCorrect(Markers(sessions), Before);
    out, cuts := StitchOrdered(Ordered(sessions), gap);
    assert Stitched(Ordered(sessions), gap, out, cuts, |Ordered(sessions)|);
    forall s | s in sessions && s.start.Some?
      ensures exists w :: w in out && Kept(s, w)
    {
      SessionKept(sessions, gap, out, cuts, s);
    }
    NoneStarted(sessions);
  }

  /** The window holds the session, one still open as the moment it started. */
  predicate Kept(s: Session, w: Window)
    requires s.start.Some?
  {
    && s.id in w.ids && w.start <= s.start.value
    && (s.end.Some? ==> s.end.value <= w.end)
    && (s.end.None? ==> s.start.value <= w.end)
  }

  lemma {:induction false} NoneStarted(sessions: seq<Session>)
    ensures Markers(sessions) == [] <==> forall s :: s in sessions ==> s.start.None?
  {
    if sessions != [] {
      var n := |sessions| - 1;
      NoneStarted(sessions[..n]);
      assert sessions == sessions[..n] + [sessions[n]];
    }
  }

  lemma {:induction false} MarkerOf(sessions: seq<Session>, s: Session)
    requires s in sessions && s.start.Some?
    ensures Marker(s.start.value, if s.end.Some? then s.end.value else s.start.value, s.id) in Markers(sessions)
  {
    var n := |sessions| - 1;
    assert sessions == sessions[..n] + [sessions[n]];
    if s != sessions[n] {
      MarkerOf(sessions[..n], s);
    }
  }

  lemma {:induction false} IdsHas(ms: seq<Marker>, p: nat, q: nat, k: nat)
    requires p <= k < q <= |ms|
    ensures ms[k].id in Ids(ms, p, q)
  {
    if k < q - 1 {
      IdsHas(ms, p, q - 1, k);
    }
  }

  /** The group of marker k, from group g on. */
  lemma GroupOf(ms: seq<Marker>, gap: real, out: seq<Window>, cuts: seq<nat>, k: nat, from: nat) returns (g: nat)
    requires Stitched(ms, gap, out, cuts, |ms|) && from < |cuts| && cuts[from] <= k < |ms|
    ensures g < |cuts| && cuts[g] <= k < GroupEnd(cuts, g, |ms|)
    decreases |cuts| - from
  {
    g := from;
    if GroupEnd(cuts, from, |ms|) <= k {
      g := GroupOf(ms, gap, out, cuts, k, from + 1);
    }
  }

  lemma MarkerKept(ms: seq<Marker>, gap: real, out: seq<Window>, cuts: seq<nat>, k: nat) returns (w: Window)
    requires InOrder(ms) && Stitched(ms, gap, out, cuts, |ms|) && k < |ms|
    ensures w in out && w.start <= ms[k].start && ms[k].end <= w.end && ms[k].id in w.ids
  {
    var first := FirstGroup(ms, gap, out, cuts);
    var g := GroupOf(ms, gap, out, cuts, k, first);
    w := out[g];
    WindowHolds(ms, cuts[g], GroupEnd(cuts, g, |ms|), k);
  }

  lemma FirstGroup(ms: seq<Marker>, gap: real, out: seq<Window>, cuts: seq<nat>) returns (g: nat)
    requires Stitched(ms, gap, out, cuts, |ms|) && ms != []
    ensures g < |cuts| && cuts[g] == 0
  {
    assert !HasNear(ms, gap, 0);
    assert 0 in cuts;
    g :| 0 <= g < |cuts| && cuts[g] == 0;
  }

  /** From the first start to the last end, all the ids in order. */
  lemma {:induction false} WindowIs(ms: seq<Marker>, p: nat, q: nat)
    requires p < q <= |ms|
    ensures var w := WindowOf(ms, p, q);
            && w.start == ms[p].start
            && (forall i :: p <= i < q ==> ms[i].end <= w.end) && (exists i :: p <= i < q && ms[i].end == w.end)
            && |w.ids| == q - p && forall i :: p <= i < q ==> w.ids[i - p] == ms[i].id
  {
    MaxEndIs(ms, p, q);
    if q > p + 1 {
      WindowIs(ms, p, q - 1);
      assert forall i :: p <= i < q - 1 ==> Ids(ms, p, q - 1)[i - p] == ms[i].id;
    } else {
      assert Ids(ms, p, p) == [];
    }
  }

  lemma WindowHolds(ms: seq<Marker>, p: nat, q: nat, k: nat)
    requires InOrder(ms) && p <= k < q <= |ms|
    ensures var w := WindowOf(ms, p, q); w.start <= ms[k].start && ms[k].end <= w.end && ms[k].id in w.ids
  {
    MaxEndIs(ms, p, q);
    IdsHas(ms, p, q, k);
  }

  /** No session that started is lost. */
  lemma SessionKept(sessions: seq<Session>, gap: real, out: seq<Window>, cuts: seq<nat>, s: Session)
    requires Stitched(Ordered(sessions), gap, out, cuts, |Ordered(sessions)|) && s in sessions && s.start.Some?
    ensures exists w :: w in out && Kept(s, w)
  {
    var m := Marker(s.start.value, if s.end.Some? then s.end.value else s.start.value, s.id);
    MarkerOf(sessions, s);
    SortedInOrder(Markers(sessions));
    SortCorrect(Markers(sessions), Before);
    assert m in multiset(Markers(sessions)) && m in multiset(Ordered(sessions)) && m in Ordered(sessions);
    var k :| 0 <= k < |Ordered(sessions)| && Ordered(sessions)[k] == m;
    var w := MarkerKept(Ordered(sessions), gap, out, cuts, k);
    assert Kept(s, w);
  }

  /** The loop: join the last window while within the gap of its latest end, else start another. */
  method StitchOrdered(ms: seq<Marker>, gap: real) returns (out: seq<Window>, ghost cuts: seq<nat>)
    requires InOrder(ms)
    ensures Stitched(ms, gap, out, cuts, |ms|)
  {
    out, cuts := [], [];
    for j := 0 to |ms|
      invariant Stitched(ms, gap, out, cuts, j)
    {
      var m := ms[j];
      LastGroupDecides(ms, gap, out, cuts, j);
      if out != [] && m.start - out[|out| - 1].end <= gap {
        var last := out[|out| - 1];
        GroupGrows(ms, gap, out, cuts, j);
        out := out[|out| - 1 := Window(last.start, if m.end > last.end then m.end else last.end, last.ids + [m.id])];
      } else {
        GroupStarts(ms, gap, out, cuts, j);
        out, cuts := out + [Window(m.start, m.end, [m.id])], cuts + [j];
      }
    }
  }

  lemma SortedInOrder(ms: seq<Marker>)
    ensures InOrder(Sort(ms, Before))
  {
    SortCorrect(ms, Before);
    var s := Sort(ms, Before);
    forall i, j | 0 <= i < j < |s|
      ensures s[i].start <= s[j].start
    {
      assert Before(s[i], s[j]);
    }
  }

  lemma GroupGrows(ms: seq<Marker>, gap: real, out: seq<Window>, cuts: seq<nat>, j: nat)
    requires j < |ms| && Stitched(ms, gap, out, cuts, j) && cuts != [] && HasNear(ms, gap, j)
    ensures var last := out[|out| - 1];
            Stitched(ms, gap, out[|out| - 1 := Window(last.start, if ms[j].end > last.end then ms[j].end else last.end,
                                                      last.ids + [ms[j].id])], cuts, j + 1)
  {
    var c, last := cuts[|cuts| - 1], out[|out| - 1];
    assert last == WindowOf(ms, c, GroupEnd(cuts, |cuts| - 1, j)) == WindowOf(ms, c, j);
    NotYetCut(cuts, j);
    forall g | 0 <= g < |cuts|
      ensures GroupEnd(cuts, g, j + 1) == if g == |cuts| - 1 then j + 1 else GroupEnd(cuts, g, j)
    {
    }
  }

  lemma GroupStarts(ms: seq<Marker>, gap: real, out: seq<Window>, cuts: seq<nat>, j: nat)
    requires j < |ms| && Stitched(ms, gap, out, cuts, j) && !HasNear(ms, gap, j)
    ensures Stitched(ms, gap, out + [Window(ms[j].start, ms[j].end, [ms[j].id])], cuts + [j], j + 1)
  {
    CutsGrow(ms, gap, cuts, j);
    assert Ids(ms, j, j + 1) == [ms[j].id];
    forall g | 0 <= g < |cuts|
      ensures GroupEnd(cuts + [j], g, j + 1) == GroupEnd(cuts, g, j)
    {
    }
  }

  lemma NotYetCut(cuts: seq<nat>, j: nat)
    requires forall g :: 0 <= g < |cuts| ==> cuts[g] < j
    ensures j !in cuts
  {
  }

  lemma CutsGrow(ms: seq<Marker>, gap: real, cuts: seq<nat>, j: nat)
    requires j < |ms| && !HasNear(ms, gap, j)
    requires forall k :: 0 <= k < j ==> (k in cuts <==> !HasNear(ms, gap, k))
    ensures forall k :: 0 <= k < j + 1 ==> (k in cuts + [j] <==> !HasNear(ms, gap, k))
  {
  }

  /** The windows are the connected components: two markers are chained exactly when no group starts between. */
  lemma WindowsAreComponents(ms: seq<Marker>, gap: real, out: seq<Window>, cuts: seq<nat>, i: nat, j: nat)
    requires InOrder(ms) && Stitched(ms, gap, out, cuts, |ms|) && i <= j < |ms|
    ensures Connected(ms, gap, j, i) <==> forall k :: i < k <= j ==> k !in cuts
  {
    ConnectedIff(ms, gap, i, j);
    if forall k :: i < k <= j ==> k !in cuts {
      forall k | i < k <= j
        ensures HasNear(ms, gap, k)
      {
        assert k !in cuts;
      }
    }
  }

  // ---- the underway run ------------------------------------------------------------------------------

  /** A motion sample: time, speed, course. */
  datatype Sample = Sample(ts: real, sog: Option<real>, cog: Option<real>)
  datatype Fix = Fix(ts: real, speed: real)

  function WithSpeed(motion: seq<Sample>): seq<Fix> {
    if motion == [] then []
    else (if motion[0].sog.None? then [] else [Fix(motion[0].ts, motion[0].sog.value)]) + WithSpeed(motion[1..])
  }

  lemma {:induction false} WithSpeedSnoc(motion: seq<Sample>, f: Sample)
    ensures WithSpeed([]) == []
    ensures WithSpeed(motion + [f]) ==
            if f.sog.None? then WithSpeed(motion) else WithSpeed(motion) + [Fix(f.ts, f.sog.value)]
  {
    if motion == [] {
      assert motion + [f] == [f] && [f][1..] == [];
    } else {
      WithSpeedSnoc(motion[1..], f);
      assert (motion + [f])[1..] == motion[1..] + [f] && (motion + [f])[0] == motion[0];
      ghost var first := if motion[0].sog.None? then [] else [Fix(motion[0].ts, motion[0].sog.value)];
      assert WithSpeed(motion + [f]) == first + WithSpeed(motion[1..] + [f]);
      assert WithSpeed(motion) == first + WithSpeed(motion[1..]);
    }
  }

  function Abs(x: real): real { if x < 0.0 then -x else x }

  /** Under way, with no gap in the record from one sample to the next. */
  ghost predicate Underway(rows: seq<Fix>, lo: int, hi: int, kn: real, maxGap: real) {
    && 0 <= lo <= hi < |rows|
    && (forall j :: lo <= j <= hi ==> rows[j].speed >= kn)
    && (forall j :: lo <= j < hi ==> rows[j + 1].ts - rows[j].ts <= maxGap)
  }

  /** Any sample, or only a moving one within a gap of `at`. */
  predicate Qualifies(f: Fix, at: real, kn: real, maxGap: real, moving: bool) {
    !moving || (Abs(f.ts - at) <= maxGap && f.speed >= kn)
  }

  /** The first of the nearest samples that qualify; -1 if none does. */
  function NearestTo(rows: seq<Fix>, at: real, kn: real, maxGap: real, moving: bool): (j: int)
    ensures -1 <= j < |rows|
    decreases |rows|
  {
    if rows == [] then -1
    else
      var n := |rows| - 1;
      var best := NearestTo(rows[..n], at, kn, maxGap, moving);
      if Qualifies(rows[n], at, kn, maxGap, moving)
         && (best == -1 || Abs(rows[n].ts - at) < Abs(rows[best].ts - at))
      then n
      else best
  }

  lemma {:induction false} NearestIs(rows: seq<Fix>, at: real, kn: real, maxGap: real, moving: bool)
    ensures var j := NearestTo(rows, at, kn, maxGap, moving);
            if j == -1 then forall f :: f in rows ==> !Qualifies(f, at, kn, maxGap, moving)
            else
              && Qualifies(rows[j], at, kn, maxGap, moving)
              && forall f :: f in rows && Qualifies(f, at, kn, maxGap, moving) ==>
                 Abs(rows[j].ts - at) <= Abs(f.ts - at)
    decreases |rows|
  {
    if rows != [] {
      var n := |rows| - 1;
      NearestIs(rows[..n], at, kn, maxGap, moving);
      assert rows == rows[..n] + [rows[n]];
    }
  }

  lemma {:induction false} NearestIsFirst(rows: seq<Fix>, at: real, kn: real, maxGap: real, moving: bool, i: nat)
    requires i < NearestTo(rows, at, kn, maxGap, moving) && Qualifies(rows[i], at, kn, maxGap, moving)
    ensures Abs(rows[NearestTo(rows, at, kn, maxGap, moving)].ts - at) < Abs(rows[i].ts - at)
    decreases |rows|
  {
    var n := |rows| - 1;
    if NearestTo(rows, at, kn, maxGap, moving) == n {
      NearestIs(rows[..n], at, kn, maxGap, moving);
      assert rows[..n][i] == rows[i] && rows[i] in rows[..n];
    } else {
      NearestIsFirst(rows[..n], at, kn, maxGap, moving, i);
    }
  }

  /** Where the walk starts: the nearest sample; if the boat is stopped there, the nearest moving one within a gap. */
  function SeedOf(rows: seq<Fix>, at: real, kn: real, maxGap: real): (j: int)
    ensures -1 <= j < |rows| && (j != -1 ==> rows[j].speed >= kn)
  {
    var near := NearestTo(rows, at, kn, maxGap, false);
    if near == -1 || rows[near].speed >= kn then near
    else
      NearestIs(rows, at, kn, maxGap, true);
      NearestTo(rows, at, kn, maxGap, true)
  }

  /** The first of the samples nearest to `at`. */
  ghost predicate FirstNearest(rows: seq<Fix>, at: real, j: int) {
    && 0 <= j < |rows|
    && (forall i :: 0 <= i < |rows| ==> Abs(rows[j].ts - at) <= Abs(rows[i].ts - at))
    && forall i :: 0 <= i < j ==> Abs(rows[j].ts - at) < Abs(rows[i].ts - at)
  }

  /** A moving sample within a gap of `at`. */
  predicate MovingNear(f: Fix, at: real, kn: real, maxGap: real) {
    f.speed >= kn && at - maxGap <= f.ts <= at + maxGap
  }

  /** The seed is the first nearest sample; where that one is stopped it is the first nearest of the moving ones
      within a gap, and there is none exactly when no such sample exists. */
  lemma SeedIs(rows: seq<Fix>, at: real, kn: real, maxGap: real, near: int)
    ensures rows == [] ==> SeedOf(rows, at, kn, maxGap) == -1
    ensures FirstNearest(rows, at, near) && rows[near].speed >= kn ==> SeedOf(rows, at, kn, maxGap) == near
    ensures FirstNearest(rows, at, near) && rows[near].speed < kn ==>
              var seed := SeedOf(rows, at, kn, maxGap);
              if seed == -1 then forall f :: f in rows ==> !MovingNear(f, at, kn, maxGap)
              else
                && MovingNear(rows[seed], at, kn, maxGap)
                && (forall i :: 0 <= i < |rows| && MovingNear(rows[i], at, kn, maxGap) ==>
                    Abs(rows[seed].ts - at) <= Abs(rows[i].ts - at))
                && forall i :: 0 <= i < seed && MovingNear(rows[i], at, kn, maxGap) ==>
                   Abs(rows[seed].ts - at) < Abs(rows[i].ts - at)
    ensures rows != [] ==> exists j :: FirstNearest(rows, at, j)
  {
    NearestIs(rows, at, kn, maxGap, true);
    AnyIsFirst(rows, at, kn, maxGap);
    if FirstNearest(rows, at, near) { assert near == NearestTo(rows, at, kn, maxGap, false); }
    assert forall f :: MovingNear(f, at, kn, maxGap) <==> Qualifies(f, at, kn, maxGap, true);
    var m := NearestTo(rows, at, kn, maxGap, true);
    forall i | 0 <= i < m && MovingNear(rows[i], at, kn, maxGap)
      ensures Abs(rows[m].ts - at) < Abs(rows[i].ts - at)
    {
      NearestIsFirst(rows, at, kn, maxGap, true, i);
    }
  }

  lemma AnyIsFirst(rows: seq<Fix>, at: real, kn: real, maxGap: real)
    ensures rows != [] ==> FirstNearest(rows, at, NearestTo(rows, at, kn, maxGap, false))
  {
    NearestIs(rows, at, kn, maxGap, false);
    var j := NearestTo(rows, at, kn, maxGap, false);
    assert rows != [] ==> rows[0] in rows && Qualifies(rows[0], at, kn, maxGap, false);
    forall i | 0 <= i < j
      ensures Abs(rows[j].ts - at) < Abs(rows[i].ts - at)
    {
      NearestIsFirst(rows, at, kn, maxGap, false, i);
    }
  }

  method FindNearest(rows: seq<Fix>, at: real, kn: real, maxGap: real, moving: bool) returns (best: int)
    ensures best == NearestTo(rows, at, kn, maxGap, moving)
  {
    best := -1;
    for j := 0 to |rows|
      invariant best == NearestTo(rows[..j], at, kn, maxGap, moving)
    {
      assert rows[..j + 1][..j] == rows[..j];
      if Qualifies(rows[j], at, kn, maxGap, moving) && (best == -1 || Abs(rows[j].ts - at) < Abs(rows[best].ts - at)) {
        best := j;
      }
    }
    assert rows[..|rows|] == rows;
  }

  /** An underway run that cannot be longer at either end. */
  ghost predicate Maximal(rows: seq<Fix>, lo: int, hi: int, kn: real, maxGap: real) {
    Underway(rows, lo, hi, kn, maxGap) && !Underway(rows, lo - 1, hi, kn, maxGap)
        && !Underway(rows, lo, hi + 1, kn, maxGap)
  }

  /** Walk outward from a moving sample. */
  method Walk(rows: seq<Fix>, i: nat, kn: real, maxGap: real) returns (lo: nat, hi: nat)
    requires i < |rows| && rows[i].speed >= kn
    ensures lo <= i <= hi && Maximal(rows, lo, hi, kn, maxGap)
  {
    lo, hi := i, i;
    while lo > 0 && rows[lo - 1].speed >= kn && rows[lo].ts - rows[lo - 1].ts <= maxGap
      invariant Underway(rows, lo, i, kn, maxGap)
      decreases lo
    {
      lo := lo - 1;
    }
    while hi + 1 < |rows| && rows[hi + 1].speed >= kn && rows[hi + 1].ts - rows[hi].ts <= maxGap
      invariant Underway(rows, lo, hi, kn, maxGap) && i <= hi
      decreases |rows| - hi
    {
      hi := hi + 1;
    }
    StopsAtEnds(rows, lo, hi, kn, maxGap);
  }

  lemma StopsAtEnds(rows: seq<Fix>, lo: nat, hi: nat, kn: real, maxGap: real)
    requires lo <= hi < |rows|
    ensures Underway(rows, lo - 1, hi, kn, maxGap) ==>
              lo > 0 && rows[lo - 1].speed >= kn && rows[lo].ts - rows[lo - 1].ts <= maxGap
    ensures Underway(rows, lo, hi + 1, kn, maxGap) ==>
              hi + 1 < |rows| && rows[hi + 1].speed >= kn && rows[hi + 1].ts - rows[hi].ts <= maxGap
  {
    if lo > 0 && Underway(rows, lo - 1, hi, kn, maxGap) {
      var j := lo - 1;
      assert rows[j + 1].ts - rows[j].ts <= maxGap;
    }
  }

  /** The underway run around `at`: the maximal one that holds the seed; none exactly when there is no seed. */
  method UnderwaySpan(motion: seq<Sample>, at: real, kn: real, maxGap: real)
    returns (span: Option<(real, real)>, lo: nat, hi: nat)
    ensures var rows := WithSpeed(motion);
            var seed := SeedOf(rows, at, kn, maxGap);
            && (span.None? <==> seed == -1)
            && (span.Some? ==>
                lo <= seed <= hi && Maximal(rows, lo, hi, kn, maxGap) && span.value == (rows[lo].ts, rows[hi].ts))
  {
    var rows := WithSpeed(motion);
    span, lo, hi := None, 0, 0;
    var i := FindNearest(rows, at, kn, maxGap, false);
    if i == -1 { return; }
    if rows[i].speed < kn {
      NearestIs(rows, at, kn, maxGap, true);
      i := FindNearest(rows, at, kn, maxGap, true);
      if i == -1 { return; }
    }
    lo, hi := Walk(rows, i, kn, maxGap);
    span := Some((rows[lo].ts, rows[hi].ts));
  }

  /** A run that holds the seed and reaches further makes the one found extensible. */
  lemma ReachingFurther(rows: seq<Fix>, seed: int, lo: int, hi: int, kn: real, maxGap: real, p: int, q: int)
    requires lo <= seed <= hi && Underway(rows, lo, hi, kn, maxGap)
    requires p <= seed <= q && Underway(rows, p, q, kn, maxGap)
    ensures p < lo ==> Underway(rows, lo - 1, hi, kn, maxGap)
    ensures hi < q ==> Underway(rows, lo, hi + 1, kn, maxGap)
  {
    if p < lo {
      var j := lo - 1;
      assert rows[j].speed >= kn && rows[j + 1].ts - rows[j].ts <= maxGap;
    }
  }

  /** Every underway run that holds the seed lies within the maximal one. */
  lemma SpanIsLargest(rows: seq<Fix>, seed: int, lo: int, hi: int, kn: real, maxGap: real, p: int, q: int)
    requires lo <= seed <= hi && Maximal(rows, lo, hi, kn, maxGap)
    requires p <= seed <= q && Underway(rows, p, q, kn, maxGap)
    ensures lo <= p && q <= hi
  {
    ReachingFurther(rows, seed, lo, hi, kn, maxGap, p, q);
  }

  // ---- the turn home ----------------------------------------------------------------------------------

  datatype Heading = Heading(ts: real, cog: real)

  /** The circular mean, which some lists of courses do not have. */
  type Mean = seq<real> -> Option<real>

  /** The samples with a course, from `after` on. */
  function Headings(motion: seq<Sample>, after: real): (r: seq<Heading>)
    ensures forall h :: h in r ==> h.ts >= after
  {
    if motion == [] then []
    else
      (if motion[0].cog.Some? && motion[0].ts >= after then [Heading(motion[0].ts, motion[0].cog.value)] else []) +
      Headings(motion[1..], after)
  }

  lemma {:induction false} HeadingsSnoc(motion: seq<Sample>, after: real, f: Sample)
    ensures Headings([], after) == []
    ensures Headings(motion + [f], after) ==
            if f.cog.None? || f.ts < after then Headings(motion, after)
            else Headings(motion, after) + [Heading(f.ts, f.cog.value)]
  {
    if motion == [] {
      assert motion + [f] == [f] && [f][1..] == [];
    } else {
      HeadingsSnoc(motion[1..], after, f);
      assert (motion + [f])[1..] == motion[1..] + [f];
      assert (motion + [f])[0] == motion[0];
      ghost var first :=
        if motion[0].cog.Some? && motion[0].ts >= after then [Heading(motion[0].ts, motion[0].cog.value)] else [];
      assert Headings(motion + [f], after) == first + Headings(motion[1..] + [f], after);
      assert Headings(motion, after) == first + Headings(motion[1..], after);
    }
  }

  /** An angle, wrapped to [-180, 180). */
  function Wrap180(deg: real): real {
    var x := deg + 540.0;
    x - 360.0 * (x / 360.0).Floor as real - 180.0
  }

  function Unwound(deg: real, turns: int): real { deg - 360.0 * turns as real }

  lemma WrapIs(deg: real)
    ensures -180.0 <= Wrap180(deg) < 180.0
    ensures exists turns: int :: Wrap180(deg) == Unwound(deg, turns)
  {
    var x := deg + 540.0;
    var n := (x / 360.0).Floor;
    assert x == 360.0 * (x / 360.0);
    assert Wrap180(deg) == Unwound(deg, n - 1);
  }

  /** The courses of the samples from, or up to, a moment. */
  function Since(rows: seq<Heading>, from: real): seq<real> {
    if rows == [] then [] else (if from <= rows[0].ts then [rows[0].cog] else []) + Since(rows[1..], from)
  }

  function Until(rows: seq<Heading>, to: real): seq<real> {
    if rows == [] then [] else (if rows[0].ts <= to then [rows[0].cog] else []) + Until(rows[1..], to)
  }

  lemma {:induction false} SinceSnoc(rows: seq<Heading>, h: Heading, from: real)
    ensures Since([], from) == []
    ensures Since(rows + [h], from) == if h.ts < from then Since(rows, from) else Since(rows, from) + [h.cog]
  {
    if rows == [] {
      assert rows + [h] == [h] && [h][1..] == [];
    } else {
      SinceSnoc(rows[1..], h, from);
      assert (rows + [h])[1..] == rows[1..] + [h];
    }
  }

  lemma {:induction false} UntilSnoc(rows: seq<Heading>, h: Heading, to: real)
    ensures Until([], to) == []
    ensures Until(rows + [h], to) == if h.ts > to then Until(rows, to) else Until(rows, to) + [h.cog]
  {
    if rows == [] {
      assert rows + [h] == [h] && [h][1..] == [];
    } else {
      UntilSnoc(rows[1..], h, to);
      assert (rows + [h])[1..] == rows[1..] + [h];
    }
  }

  lemma {:induction false} UntilHas(rows: seq<Heading>, to: real, i: nat)
    requires i < |rows| && rows[i].ts <= to
    ensures rows[i].cog in Until(rows, to)
  {
    if i > 0 {
      UntilHas(rows[1..], to, i - 1);
      assert rows[1..][i - 1] == rows[i];
    }
  }

  datatype Turning = Turning(minDeg: real, sustain: real, reference: real)

  /** Course made good reverses at sample k, and stays at least half as far from what it was. */
  predicate Reverses(rows: seq<Heading>, k: nat, mean: Mean, w: Turning)
    requires k < |rows|
  {
    var now := rows[k].ts;
    var before, after := Since(rows[..k], now - w.reference), Until(rows[k..], now + w.reference);
    var held := Until(rows[k..], now + w.sustain);
    && |before| >= 3 && |after| >= 3 && mean(before).Some? && mean(after).Some?
    && Abs(Wrap180(mean(after).value - mean(before).value)) >= w.minDeg
    && |held| >= 3 && forall c :: c in held ==> Abs(Wrap180(c - mean(before).value)) >= w.minDeg / 2.0
  }

  /** The body of the loop, for one sample. */
  method ReversesAt(rows: seq<Heading>, k: nat, mean: Mean, w: Turning) returns (yes: bool)
    requires k < |rows|
    ensures yes <==> Reverses(rows, k, mean, w)
  {
    var now := rows[k].ts;
    var before, ahead := Since(rows[..k], now - w.reference), Until(rows[k..], now + w.reference);
    if |before| < 3 || |ahead| < 3 { return false; }
    var a, b := mean(before), mean(ahead);
    if a.None? || b.None? || Abs(Wrap180(b.value - a.value)) < w.minDeg { return false; }
    var held := Until(rows[k..], now + w.sustain);
    yes := |held| >= 3 && forall c :: c in held ==> Abs(Wrap180(c - a.value)) >= w.minDeg / 2.0;
  }

  /** The first sample at which the course reverses and stays reversed. */
  method FindTurnaround(motion: seq<Sample>, after: real, mean: Mean, w: Turning) returns (turn: Option<real>, at: nat)
    ensures var rows := Headings(motion, after);
            && (turn.None? ==> forall k :: 0 <= k < |rows| ==> !Reverses(rows, k, mean, w))
            && (turn.Some? ==>
                  && at < |rows| && Reverses(rows, at, mean, w) && turn.value == rows[at].ts >= after
                  && forall k :: 0 <= k < at ==> !Reverses(rows, k, mean, w))
  {
    var rows := Headings(motion, after);
    for k := 0 to |rows|
      invariant forall j :: 0 <= j < k ==> !Reverses(rows, j, mean, w)
    {
      var yes := ReversesAt(rows, k, mean, w);
      if yes {
        assert rows[k] in rows;
        return Some(rows[k].ts), k;
      }
    }
    turn, at := None, 0;
  }

  /** After the turn, every sample of the next `sustain` seconds is well away from the course before it. */
  lemma TurnIsSustained(rows: seq<Heading>, k: nat, mean: Mean, w: Turning, i: nat)
    requires k <= i < |rows| && Reverses(rows, k, mean, w) && rows[i].ts - rows[k].ts <= w.sustain
    ensures Abs(Wrap180(rows[i].cog - mean(Since(rows[..k], rows[k].ts - w.reference)).value)) >= w.minDeg / 2.0
  {
    UntilHas(rows[k..], rows[k].ts + w.sustain, i - k);
  }

  // ---- the window -------------------------------------------------------------------------------------------

  datatype Limits = Limits(gap: real, kn: real, maxGap: real, turning: Turning, extendStart: bool, stopAtTurn: bool)
  datatype Race = Race(start: real, end: real, markerStart: real, markerEnd: real, turn: Option<real>)

  function Length(w: Window): real { w.end - w.start }

  function ToEdge(w: Window, at: real): real {
    if Abs(w.start - at) <= Abs(w.end - at) then Abs(w.start - at) else Abs(w.end - at)
  }

  predicate Holds(w: Window, at: real) { w.start <= at <= w.end }

  /** One of its edges is within `d` of `at`. */
  predicate EdgeWithin(w: Window, at: real, d: real) {
    at - d <= w.start <= at + d || at - d <= w.end <= at + d
  }

  /** Within some distance of `at` one of v's edges is, and none of w's. */
  ghost predicate Nearer(v: Window, w: Window, at: real) {
    exists d :: EdgeWithin(v, at, d) && !EdgeWithin(w, at, d)
  }

  /** Without an anchor the longest window; else the first that holds it, else the one with the nearest edge;
      of equals the first. */
  ghost predicate Chosen(out: seq<Window>, anchor: Option<real>, g: int) {
    && 0 <= g < |out|
    && match anchor
       case None => (forall h :: 0 <= h < |out| ==> out[h].end - out[h].start <= out[g].end - out[g].start)
                    && forall h :: 0 <= h < g ==> out[h].end - out[h].start < out[g].end - out[g].start
       case Some(at) =>
         if exists h :: 0 <= h < |out| && out[h].start <= at <= out[h].end
         then out[g].start <= at <= out[g].end && forall h :: 0 <= h < g ==> !(out[h].start <= at <= out[h].end)
         else (forall h, d :: 0 <= h < |out| && EdgeWithin(out[h], at, d) ==> EdgeWithin(out[g], at, d))
              && forall h :: 0 <= h < g ==> Nearer(out[g], out[h], at)
  }

  /** The distance to the nearer edge is the least within which an edge is. */
  lemma ToEdgeIs(w: Window, at: real, d: real)
    ensures EdgeWithin(w, at, d) <==> ToEdge(w, at) <= d
  {
  }

  lemma NearestEdge(out: seq<Window>, at: real, g: int)
    requires 0 <= g < |out| && forall h :: 0 <= h < |out| ==> !Holds(out[h], at)
    requires forall h :: 0 <= h < |out| ==> ToEdge(out[g], at) <= ToEdge(out[h], at)
    requires forall h :: 0 <= h < g ==> ToEdge(out[g], at) < ToEdge(out[h], at)
    ensures Chosen(out, Some(at), g)
  {
    forall h, d | 0 <= h < |out| && EdgeWithin(out[h], at, d)
      ensures EdgeWithin(out[g], at, d)
    {
      ToEdgeIs(out[h], at, d);
      ToEdgeIs(out[g], at, d);
    }
    forall h | 0 <= h < g
      ensures Nearer(out[g], out[h], at)
    {
      ToEdgeIs(out[g], at, ToEdge(out[g], at));
      ToEdgeIs(out[h], at, ToEdge(out[g], at));
    }
    assert forall h :: 0 <= h < |out| ==> !(out[h].start <= at <= out[h].end);
  }

  method ChooseSeed(out: seq<Window>, anchor: Option<real>) returns (g: int)
    requires out != []
    ensures Chosen(out, anchor, g)
  {
    g := 0;
    match anchor {
      case None =>
        for h := 1 to |out|
          invariant 0 <= g < h && forall i :: 0 <= i < h ==> Length(out[i]) <= Length(out[g])
          invariant forall i :: 0 <= i < g ==> Length(out[i]) < Length(out[g])
        {
          if Length(out[h]) > Length(out[g]) { g := h; }
        }
      case Some(at) =>
        for h := 0 to |out|
          invariant forall i :: 0 <= i < h ==> !Holds(out[i], at)
        {
          if Holds(out[h], at) { return h; }
        }
        for h := 1 to |out|
          invariant 0 <= g < h && forall i :: 0 <= i < h ==> ToEdge(out[g], at) <= ToEdge(out[i], at)
          invariant forall i :: 0 <= i < g ==> ToEdge(out[g], at) < ToEdge(out[i], at)
        {
          if ToEdge(out[h], at) < ToEdge(out[g], at) { g := h; }
        }
        NearestEdge(out, at, g);
    }
  }

  function OfRace(sessions: seq<Session>, race: Option<int>): seq<Session> {
    if sessions == [] then []
    else (if race.None? || sessions[0].race == race.value then [sessions[0]] else []) + OfRace(sessions[1..], race)
  }

  lemma {:induction false} OfRaceSnoc(sessions: seq<Session>, race: Option<int>, s: Session)
    ensures OfRace([], race) == []
    ensures race == None || race == Some(s.race) ==> OfRace(sessions + [s], race) == OfRace(sessions, race) + [s]
    ensures race != None && race != Some(s.race) ==> OfRace(sessions + [s], race) == OfRace(sessions, race)
  {
    if sessions == [] {
      assert sessions + [s] == [s] && [s][1..] == [];
    } else {
      OfRaceSnoc(sessions[1..], race, s);
      assert (sessions + [s])[1..] == sessions[1..] + [s];
    }
  }

  lemma {:induction false} OfRaceIs(sessions: seq<Session>, race: Option<int>)
    ensures forall s :: s in OfRace(sessions, race) <==> s in sessions && (race == None || race == Some(s.race))
  {
    if sessions != [] {
      OfRaceIs(sessions[1..], race);
    }
  }

  /** The first sample at which the course reverses and stays reversed; none exactly when no sample does. */
  ghost predicate FirstTurn(rows: seq<Heading>, mean: Mean, w: Turning, turn: Option<real>) {
    match turn
    case None => forall k :: 0 <= k < |rows| ==> !Reverses(rows, k, mean, w)
    case Some(t) =>
      exists k :: 0 <= k < |rows| && Reverses(rows, k, mean, w) && rows[k].ts == t
                  && forall j :: 0 <= j < k ==> !Reverses(rows, j, mean, w)
  }

  /** Where the underway run takes the marker's end. */
  function RunEnd(r: Race, rows: seq<Fix>, hi: nat, span: bool): real
    requires span ==> hi < |rows|
  {
    if span && rows[hi].ts > r.markerEnd then rows[hi].ts else r.markerEnd
  }

  /** What a derived window may be: never less than its marker; later than the marker's end only along the
      underway run, and never past the turn home; earlier than its start only if asked, along the same run. */
  ghost predicate Sound(r: Race, rows: seq<Fix>, lo: nat, hi: nat, span: bool, l: Limits) {
    && r.start <= r.markerStart && r.markerEnd <= r.end
    && (span ==> lo <= hi < |rows|)
    && r.start == (if l.extendStart && span && rows[lo].ts < r.markerStart then rows[lo].ts else r.markerStart)
    && (r.end > r.markerEnd ==> span && r.end <= rows[hi].ts)
    && (r.turn.Some? ==> r.markerEnd <= r.turn.value && (r.turn.value > r.start ==> r.end <= r.turn.value))
    // the smaller of the run's end and the turn home
    && r.end == (if r.turn.Some? && r.start < r.turn.value < RunEnd(r, rows, hi, span) then r.turn.value
                 else RunEnd(r, rows, hi, span))
  }

  /** The window around one stitched marker. */
  method Bounds(seed: Window, motion: seq<Sample>, mean: Mean, l: Limits)
    returns (r: Race, ghost span: bool, ghost lo: nat, ghost hi: nat)
    ensures r.markerStart == seed.start && r.markerEnd == seed.end
    ensures span <==> SeedOf(WithSpeed(motion), seed.start, l.kn, l.maxGap) != -1
    ensures span ==> Maximal(WithSpeed(motion), lo, hi, l.kn, l.maxGap)
    ensures Sound(r, WithSpeed(motion), lo, hi, span, l)
    ensures if l.stopAtTurn then FirstTurn(Headings(motion, seed.end), mean, l.turning, r.turn) else r.turn == None
  {
    var start, end := seed.start, seed.end;
    var run, l', h' := UnderwaySpan(motion, start, l.kn, l.maxGap);
    span, lo, hi := run.Some?, l', h';
    if run.Some? {
      if run.value.1 > end { end := run.value.1; }
      if l.extendStart && run.value.0 < start { start := run.value.0; }
    }
    var turn := TurnHome(motion, seed.end, mean, l);
    if turn.Some? && turn.value > start && turn.value < end { end := turn.value; }
    r := Race(start, end, seed.start, seed.end, turn);
  }

  method TurnHome(motion: seq<Sample>, after: real, mean: Mean, l: Limits) returns (turn: Option<real>)
    ensures if l.stopAtTurn then FirstTurn(Headings(motion, after), mean, l.turning, turn) else turn == None
    ensures turn.Some? ==> turn.value >= after
  {
    turn := None;
    if l.stopAtTurn {
      var at;
      turn, at := FindTurnaround(motion, after, mean, l.turning);
    }
  }

  /** A window for every record that has a marker at all; and it always holds the marker it was seeded with. */
  method Derive(sessions: seq<Session>, motion: seq<Sample>, race: Option<int>, anchor: Option<real>, mean: Mean,
                l: Limits)
    returns (r: Option<Race>, out: seq<Window>, ghost g: int, ghost span: bool, ghost lo: nat, ghost hi: nat)
    ensures r.None? <==> forall s :: s in sessions && (race == None || race == Some(s.race)) ==> s.start.None?
    ensures forall s :: s in sessions && (race == None || race == Some(s.race)) && s.start.Some? ==>
                          exists w :: w in out && Kept(s, w)
    ensures WindowsOf(Ordered(OfRace(sessions, race)), l.gap, out)
    ensures r.Some? ==>
              && Chosen(out, anchor, g) && r.value.markerStart == out[g].start && r.value.markerEnd == out[g].end
              && (span <==> SeedOf(WithSpeed(motion), out[g].start, l.kn, l.maxGap) != -1)
              && (span ==> Maximal(WithSpeed(motion), lo, hi, l.kn, l.maxGap))
              && Sound(r.value, WithSpeed(motion), lo, hi, span, l)
              && (if l.stopAtTurn then FirstTurn(Headings(motion, out[g].end), mean, l.turning, r.value.turn)
                  else r.value.turn == None)
  {
    out := Stitch(OfRace(sessions, race), l.gap);
    OfRaceIs(sessions, race);
    r, g, span, lo, hi := None, 0, false, 0, 0;
    if out == [] { return; }
    var chosen := ChooseSeed(out, anchor);
    g := chosen;
    var window, s', l', h' := Bounds(out[chosen], motion, mean, l);
    r, span, lo, hi := Some(window), s', l', h';
  }
}
