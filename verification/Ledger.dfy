/** The ledger's id ranges: what `verified_through_id` means, and the two loops that maintain it. */
module Ledger {
  import opened Sorting

  /** An inclusive id range; one with hi < lo covers nothing. */
  datatype Range = Range(lo: int, hi: int)

  ghost predicate Covered(ranges: seq<Range>, id: int) {
    exists r :: r in ranges && r.lo <= id <= r.hi
  }

  /** h is THE highest id with all of 1..h covered: h + 1 is not. */
  ghost predicate IsContiguousThrough(ranges: seq<Range>, h: int) {
    && 0 <= h
    && (forall id :: 1 <= id <= h ==> Covered(ranges, id))
    && !Covered(ranges, h + 1)
  }

  predicate RangeLeq(r: Range, q: Range) {
    r.lo < q.lo || (r.lo == q.lo && r.hi <= q.hi)
  }

  lemma SortRanges(ranges: seq<Range>) returns (sorted: seq<Range>)
    ensures sorted == Sort(ranges, RangeLeq)
    ensures forall r :: r in sorted <==> r in ranges
    ensures forall i, j :: 0 <= i < j < |sorted| ==> sorted[i].lo <= sorted[j].lo
  {
    sorted := Sort(ranges, RangeLeq);
    SortCorrect(ranges, RangeLeq);
  }

  /** Two ids cannot both be the contiguous top. */
  lemma ContiguousThroughUnique(ranges: seq<Range>, h: int, k: int)
    requires IsContiguousThrough(ranges, h) && IsContiguousThrough(ranges, k)
    ensures h == k
  {
    assert h < k ==> Covered(ranges, h + 1);
    assert k < h ==> Covered(ranges, k + 1);
  }

  /** More coverage never lowers the licence to delete. */
  lemma ContiguousThroughMonotone(ranges: seq<Range>, h: int, wider: seq<Range>, k: int)
    requires IsContiguousThrough(ranges, h) && IsContiguousThrough(wider, k)
    requires forall id :: Covered(ranges, id) ==> Covered(wider, id)
    ensures h <= k
  {
    assert k < h ==> Covered(wider, k + 1);
    assert k < h ==> Covered(ranges, k + 1);
  }

  method ContiguousThrough(ranges: seq<Range>) returns (top: int)
    ensures IsContiguousThrough(ranges, top)
  {
    var sorted := Sort(ranges, RangeLeq);
    ghost var s := SortRanges(ranges);
    top := 0;
    var i := 0;
    while i < |sorted|
      invariant 0 <= i <= |sorted| && 0 <= top
      invariant forall j :: 0 <= j < i ==> sorted[j].hi <= top
      invariant forall id :: 1 <= id <= top ==> Covered(ranges, id)
    {
      if sorted[i].lo > top + 1 {
        break;
      }
      forall id | 1 <= id <= sorted[i].hi
        ensures Covered(ranges, id)
      {
        if id > top {
          assert sorted[i] in ranges;
        }
      }
      top := if sorted[i].hi > top then sorted[i].hi else top;
      i := i + 1;
    }
    forall r | r in ranges
      ensures !(r.lo <= top + 1 <= r.hi)
    {
      assert r in sorted;
      var j :| 0 <= j < |sorted| && sorted[j] == r;
    }
  }

  /** The same ids, as few ranges as possible: no two are adjacent. */
  method Merge(ranges: seq<Range>) returns (out: seq<Range>)
    ensures forall id :: Covered(out, id) <==> Covered(ranges, id)
    ensures forall i :: 0 <= i < |out| - 1 ==> out[i].hi + 1 < out[i + 1].lo
  {
    var sorted := Sort(ranges, RangeLeq);
    ghost var s := SortRanges(ranges);
    out := [];
    var i := 0;
    while i < |sorted|
      invariant 0 <= i <= |sorted|
      invariant forall j :: 0 <= j < |out| - 1 ==> out[j].hi + 1 < out[j + 1].lo
      invariant out != [] ==> forall j :: i <= j < |sorted| ==> out[|out| - 1].lo <= sorted[j].lo
      invariant forall id :: Covered(out, id) <==> Covered(sorted[..i], id)
    {
      var r := sorted[i];
      ghost var before := out;
      ghost var n := |out| - 1;
      if out != [] && r.lo <= out[|out| - 1].hi + 1 {
        out := out[|out| - 1 := Range(out[|out| - 1].lo, if r.hi > out[|out| - 1].hi then r.hi else out[|out| - 1].hi)];
        forall id
          ensures Covered(out, id) <==> Covered(before, id) || r.lo <= id <= r.hi
        {
          WidenLast(before, out, r, id);
        }
      } else {
        out := out + [r];
        forall id
          ensures Covered(out, id) <==> Covered(before, id) || r.lo <= id <= r.hi
        {
          CoveredAppend(before, r, id);
        }
      }
      assert sorted[..i + 1] == sorted[..i] + [r];
      forall id
        ensures Covered(out, id) <==> Covered(sorted[..i + 1], id)
      {
        CoveredAppend(sorted[..i], r, id);
      }
      i := i + 1;
    }
    assert sorted[..i] == sorted;
    forall id
      ensures Covered(out, id) <==> Covered(ranges, id)
    {
      assert Covered(sorted, id) <==> Covered(ranges, id);
    }
  }

  lemma CoveredAppend(ranges: seq<Range>, r: Range, id: int)
    ensures Covered(ranges + [r], id) <==> Covered(ranges, id) || r.lo <= id <= r.hi
  {
    assert forall q :: q in ranges + [r] <==> q in ranges || q == r;
  }

  lemma WidenLast(before: seq<Range>, out: seq<Range>, r: Range, id: int)
    requires before != []
    requires var last := before[|before| - 1];
      last.lo <= r.lo <= last.hi + 1 &&
      out == before[|before| - 1 := Range(last.lo, if r.hi > last.hi then r.hi else last.hi)]
    ensures Covered(out, id) <==> Covered(before, id) || r.lo <= id <= r.hi
  {
    var n := |before| - 1;
    assert before == before[..n] + [before[n]];
    assert out == before[..n] + [out[n]];
    CoveredAppend(before[..n], before[n], id);
    CoveredAppend(before[..n], out[n], id);
  }
}
