/** Reading what can be read out of a damaged archive: bisect a range that fails, chunk by chunk, and
    resume where an earlier run stopped. */
module Salvage {
  import opened IntSets
  import opened Options

  // ---- the damaged table ----------------------------------------------------------------------

  /** A read of a range fails exactly when the range holds a damaged id. */
  datatype Source = Source(rows: set<Row>, bad: set<int>)
  datatype Row = Row(id: int, cells: int)

  function BadIn(src: Source, x: int, y: int): set<int> { set id | id in src.bad && x <= id <= y }

  /** The readable rows of a range. */
  function Good(src: Source, x: int, y: int): set<Row> {
    set r | r in src.rows && x <= r.id <= y && r.id !in src.bad
  }

  /** The damaged ids of a range, in order. */
  function BadList(src: Source, x: int, y: int): seq<int>
    decreases y - x + 1
  {
    if x > y then [] else (if x in src.bad then [x] else []) + BadList(src, x + 1, y)
  }

  lemma {:induction false} BadListIs(src: Source, x: int, y: int)
    ensures forall id :: id in BadList(src, x, y) <==> id in BadIn(src, x, y)
    ensures |BadList(src, x, y)| == |BadIn(src, x, y)|
    decreases y - x + 1
  {
    if x <= y {
      BadListIs(src, x + 1, y);
      var rest := BadIn(src, x + 1, y);
      assert BadIn(src, x, y) == if x in src.bad then {x} + rest else rest;
    }
  }

  lemma {:induction false} BadListAscends(src: Source, x: int, y: int, i: nat, j: nat)
    requires i < j < |BadList(src, x, y)|
    ensures BadList(src, x, y)[i] < BadList(src, x, y)[j]
    decreases y - x + 1
  {
    var rest := BadList(src, x + 1, y);
    if x !in src.bad {
      BadListAscends(src, x + 1, y, i, j);
    } else if i > 0 {
      BadListAscends(src, x + 1, y, i - 1, j - 1);
    } else {
      BadListIs(src, x + 1, y);
      var id := rest[j - 1];
      assert id in BadList(src, x + 1, y);
      assert id in BadIn(src, x + 1, y);
      assert BadList(src, x, y) == [x] + rest;
    }
  }

  lemma {:induction false} BadListSplits(src: Source, x: int, m: int, y: int)
    requires x <= m + 1 && m <= y
    ensures BadList(src, x, y) == BadList(src, x, m) + BadList(src, m + 1, y)
    decreases m - x + 1
  {
    if x <= m {
      BadListSplits(src, x + 1, m, y);
    }
  }

  lemma GoodSplits(src: Source, x: int, m: int, y: int)
    requires x <= m + 1 && m <= y
    ensures Good(src, x, y) == Good(src, x, m) + Good(src, m + 1, y)
    ensures |Good(src, x, y)| == |Good(src, x, m)| + |Good(src, m + 1, y)|
  {
    assert Good(src, x, y) == Good(src, x, m) + Good(src, m + 1, y);
    assert Good(src, x, m) !! Good(src, m + 1, y);
  }

  lemma BadSplits(src: Source, x: int, m: int, y: int)
    requires x <= m + 1 && m <= y
    ensures |BadIn(src, x, y)| == |BadIn(src, x, m)| + |BadIn(src, m + 1, y)|
  {
    assert BadIn(src, x, m) !! BadIn(src, m + 1, y);
    assert BadIn(src, x, y) == BadIn(src, x, m) + BadIn(src, m + 1, y);
  }

  // ---- what it costs --------------------------------------------------------------------------------

  function CeilLog2(n: nat): nat { if n <= 1 then 0 else 1 + CeilLog2((n + 1) / 2) }

  function Pow2(e: nat): nat { if e == 0 then 1 else 2 * Pow2(e - 1) }

  /** It is the least power of two that reaches n. */
  lemma {:induction false} CeilLog2Is(n: nat)
    requires n >= 1
    ensures n <= Pow2(CeilLog2(n))
    ensures n > 1 ==> Pow2(CeilLog2(n) - 1) < n
  {
    if n > 1 {
      CeilLog2Is((n + 1) / 2);
    }
  }

  lemma {:induction false} CeilLog2Monotone(m: nat, n: nat)
    requires m <= n
    ensures CeilLog2(m) <= CeilLog2(n)
    decreases n
  {
    if m > 1 {
      CeilLog2Monotone((m + 1) / 2, (n + 1) / 2);
    }
  }

  /** The reads the bisect makes. */
  function Reads(src: Source, x: int, y: int): nat
    requires x <= y
    decreases y - x
  {
    if BadIn(src, x, y) == {} || x == y then 1
    else 1 + Reads(src, x, (x + y) / 2) + Reads(src, (x + y) / 2 + 1, y)
  }

  lemma Halves(x: int, y: int)
    requires x < y
    ensures var m := (x + y) / 2;
            && x <= m < y && m - x + 1 == (y - x + 1 + 1) / 2 && y - m <= (y - x + 1 + 1) / 2
  {
  }

  lemma Scaled(k: nat, a: nat, b: nat)
    requires a <= b
    ensures k * a <= k * b
  {
  }

  /** Two halves, each within its bound, are within the bound of the whole. */
  lemma TwoHalves(r1: nat, r2: nat, k1: nat, k2: nat, l1: nat, l2: nat, l: nat)
    requires r1 <= 1 + 2 * (k1 * l1) && r2 <= 1 + 2 * (k2 * l2) && l1 <= l && l2 <= l && k1 + k2 >= 1
    ensures 1 + r1 + r2 <= 1 + 2 * ((k1 + k2) * (l + 1))
  {
    Scaled(k1, l1, l);
    Scaled(k2, l2, l);
    assert (k1 + k2) * (l + 1) == k1 * l + k2 * l + k1 + k2;
  }

  /** n ids, k of them damaged: at most 1 + 2 k ceil(log2 n) reads. */
  lemma {:induction false} ReadsBounded(src: Source, x: int, y: int)
    requires x <= y
    ensures Reads(src, x, y) <= 1 + 2 * (|BadIn(src, x, y)| * CeilLog2(y - x + 1))
    decreases y - x
  {
    if BadIn(src, x, y) != {} && x < y {
      var m := (x + y) / 2;
      Halves(x, y);
      BadSplits(src, x, m, y);
      ReadsBounded(src, x, m);
      ReadsBounded(src, m + 1, y);
      CeilLog2Monotone(y - m, m - x + 1);
      TwoHalves(Reads(src, x, m), Reads(src, m + 1, y), |BadIn(src, x, m)|, |BadIn(src, m + 1, y)|,
                CeilLog2(m - x + 1), CeilLog2(y - m), CeilLog2(m - x + 1));
    }
  }

  // ---- the tool ---------------------------------------------------------------------------------------

  /** The destination, the lost list, and the counts kept of both. */
  datatype Progress = Progress(dst: set<Row>, lost: seq<int>, saved: nat, lostCount: nat)

  /** Salvaging [x, y]: every readable row is in the destination (one already there stays), and every damaged
      id is on the lost list, once and in order. */
  function Done(src: Source, x: int, y: int, p: Progress): Progress {
    Progress(p.dst + Good(src, x, y), p.lost + BadList(src, x, y),
             p.saved + |Good(src, x, y)|, p.lostCount + |BadIn(src, x, y)|)
  }

  /** Which rows, which ids, and how many. */
  lemma DoneMeans(src: Source, x: int, y: int, p: Progress)
    ensures var q := Done(src, x, y, p);
            && (forall r :: r in q.dst <==> r in p.dst || (r in src.rows && x <= r.id <= y && r.id !in src.bad))
            && p.lost <= q.lost
            && (forall id :: id in q.lost[|p.lost|..] <==> id in src.bad && x <= id <= y)
            && (forall i, j :: |p.lost| <= i < j < |q.lost| ==> q.lost[i] < q.lost[j])
            && q.lostCount == p.lostCount + |q.lost| - |p.lost|
            && q.saved == p.saved + |set r | r in src.rows && x <= r.id <= y && r.id !in src.bad|
  {
    var q := Done(src, x, y, p);
    BadListIs(src, x, y);
    assert q.lost[|p.lost|..] == BadList(src, x, y);
    forall i, j | |p.lost| <= i < j < |q.lost|
      ensures q.lost[i] < q.lost[j]
    {
      BadListAscends(src, x, y, i - |p.lost|, j - |p.lost|);
    }
    assert Good(src, x, y) == set r | r in src.rows && x <= r.id <= y && r.id !in src.bad;
  }

  lemma DoneSplits(src: Source, x: int, m: int, y: int, p: Progress)
    requires x <= m + 1 && m <= y
    ensures Done(src, m + 1, y, Done(src, x, m, p)) == Done(src, x, y, p)
  {
    GoodSplits(src, x, m, y);
    BadSplits(src, x, m, y);
    BadListSplits(src, x, m, y);
    assert p.lost + BadList(src, x, m) + BadList(src, m + 1, y) == p.lost + BadList(src, x, y);
  }

  lemma DoneReadable(src: Source, x: int, y: int, p: Progress)
    requires BadIn(src, x, y) == {}
    ensures Done(src, x, y, p) == p.(dst := p.dst + Good(src, x, y), saved := p.saved + |Good(src, x, y)|)
  {
    BadListIs(src, x, y);
  }

  lemma DoneLost(src: Source, x: int, p: Progress)
    requires BadIn(src, x, x) != {}
    ensures Done(src, x, x, p) == p.(lost := p.lost + [x], lostCount := p.lostCount + 1)
  {
    BadListIs(src, x, x);
    var id :| id in BadIn(src, x, x);
    assert id == x && BadList(src, x + 1, x) == [];
    assert Good(src, x, x) == {};
  }

  class Salvager {
    const src: Source
    var dst: set<Row>
    var lost: seq<int>
    var savedCount: nat
    var lostCount: nat
    ghost var fetches: nat

    constructor (src: Source, dst: set<Row>, lost: seq<int>)
      ensures this.src == src && this.dst == dst && this.lost == lost
      ensures savedCount == 0 && lostCount == 0 && fetches == 0
    {
      this.src, this.dst, this.lost := src, dst, lost;
      savedCount, lostCount, fetches := 0, 0, 0;
    }

    /** One read. */
    method Fetch(x: int, y: int) returns (rows: set<Row>, ok: bool)
      modifies `fetches
      ensures ok <==> forall id :: id in src.bad ==> !(x <= id <= y)
      ensures ok <==> BadIn(src, x, y) == {}
      ensures ok ==> rows == Good(src, x, y)
      ensures fetches == old(fetches) + 1
    {
      fetches := fetches + 1;
      rows := set r | r in src.rows && x <= r.id <= y;
      ok := (set id | id in src.bad && x <= id <= y) == {};
      assert forall id :: id in src.bad && x <= id <= y ==> id in BadIn(src, x, y);
    }

    function Now(): Progress
      reads this
    {
      Progress(dst, lost, savedCount, lostCount)
    }

    /** Insert what a read returned. */
    method Keep(x: int, y: int, rows: set<Row>)
      requires BadIn(src, x, y) == {} && rows == Good(src, x, y)
      modifies `dst, `savedCount
      ensures Now() == Done(src, x, y, old(Now()))
    {
      DoneReadable(src, x, y, Now());
      dst := dst + rows;
      savedCount := savedCount + |rows|;
    }

    /** A single unreadable row. */
    method Lose(x: int)
      requires BadIn(src, x, x) != {}
      modifies `lost, `lostCount
      ensures Now() == Done(src, x, x, old(Now()))
    {
      DoneLost(src, x, Now());
      lost := lost + [x];
      lostCount := lostCount + 1;
    }

    /** Narrow a range that fails down to single rows. */
    method Bisect(x: int, y: int)
      requires x <= y
      modifies this
      ensures Now() == Done(src, x, y, old(Now()))
      ensures fetches == old(fetches) + Reads(src, x, y)
      decreases y - x
    {
      var rows, ok := Fetch(x, y);
      if ok {
        Keep(x, y, rows);
      } else if x == y {
        Lose(x);
      } else {
        var mid := (x + y) / 2;
        Halves(x, y);
        DoneSplits(src, x, mid, y, Now());
        Bisect(x, mid);
        Bisect(mid + 1, y);
      }
    }

    /** Where `--resume` starts: after the highest id already in the destination. */
    method ResumeAt(lo: int) returns (first: int)
      ensures lo <= first
      ensures first > lo ==> exists r :: r in dst && r.id == first - 1
      ensures if HighestIsZero(dst) then first == lo else forall r :: r in dst ==> r.id < first
    {
      first := lo;
      ghost var ids := set r | r in dst :: r.id;
      if dst != {} {
        var m := HighestId(dst);
        if m != 0 && m + 1 > lo { first := m + 1; }
      }
    }

    /** The chunk loop. After every twentieth chunk or so it looks at the disk, and stops if it finds it nearly
        full. `full`: whether it does, after the chunk that starts there. */
    method Run(lo: int, hi: int, chunk: nat, resume: bool, full: int -> bool)
      returns (first: int, upTo: int, stopped: bool)
      requires chunk >= 1
      modifies this
      ensures lo <= first && (!resume ==> first == lo)
      ensures first > lo ==> exists r :: r in old(dst) && r.id == first - 1
      ensures resume && !HighestIsZero(old(dst)) ==> forall r :: r in old(dst) ==> r.id < first
      ensures first <= hi ==> first - 1 <= upTo <= hi && (!stopped ==> upTo == hi)
      ensures first > hi ==> upTo == first - 1 && !stopped
      ensures match FirstFull(first, hi, chunk, full)
              case None => !stopped
              case Some(at) => stopped && upTo == if at + chunk - 1 < hi then at + chunk - 1 else hi
      ensures Now() == Done(src, first, upTo, old(Now()))
      ensures fetches <= old(fetches) + Chunks(first, hi, chunk) + 2 * (|BadIn(src, first, upTo)| * CeilLog2(chunk))
    {
      first := lo;
      if resume { first := ResumeAt(lo); }
      upTo, stopped := RunFrom(first, hi, chunk, full);
    }

    method RunFrom(first: int, hi: int, chunk: nat, full: int -> bool) returns (upTo: int, stopped: bool)
      requires chunk >= 1
      modifies this
      ensures first <= hi ==> first - 1 <= upTo <= hi && (!stopped ==> upTo == hi)
      ensures first > hi ==> upTo == first - 1 && !stopped
      ensures match FirstFull(first, hi, chunk, full)
              case None => !stopped
              case Some(at) => stopped && upTo == if at + chunk - 1 < hi then at + chunk - 1 else hi
      ensures Now() == Done(src, first, upTo, old(Now()))
      ensures fetches <= old(fetches) + Chunks(first, hi, chunk) + Extra(src, first, upTo, chunk)
    {
      var start := first;
      upTo, stopped := first - 1, false;
      DoneNothing(src, first, Now());
      while start <= hi && !stopped
        invariant first <= start && upTo == (if start - 1 < hi || start == first then start - 1 else hi)
        invariant start > first || stopped ==> first <= hi && upTo <= hi
        invariant if stopped then FirstFull(first, hi, chunk, full) == Some(start - chunk)
                  else FirstFull(first, hi, chunk, full) == FirstFull(start, hi, chunk, full)
        invariant Now() == Done(src, first, upTo, old(Now()))
        invariant fetches + Chunks(start, hi, chunk) <=
                  old(fetches) + Chunks(first, hi, chunk) + Extra(src, first, upTo, chunk)
        decreases hi - start
      {
        var end := if start + chunk - 1 < hi then start + chunk - 1 else hi;
        DoneSplits(src, first, upTo, end, old(Now()));
        OneChunk(src, first, start, end, chunk);
        Bisect(start, end);
        stopped := start / chunk % 20 == 0 && full(start);
        start, upTo := start + chunk, end;
      }
    }
  }

  /** The one highest id that the code takes for "nothing there yet". */
  ghost predicate HighestIsZero(dst: set<Row>) {
    (exists r :: r in dst && r.id == 0) && forall r :: r in dst ==> r.id <= 0
  }

  method HighestId(dst: set<Row>) returns (m: int)
    requires dst != {}
    ensures (exists r :: r in dst && r.id == m) && forall r :: r in dst ==> r.id <= m
  {
    var r :| r in dst;
    m := r.id;
    var left := dst - {r};
    while left != {}
      invariant left <= dst && (exists r :: r in dst && r.id == m)
      invariant forall r :: r in dst && r !in left ==> r.id <= m
      decreases |left|
    {
      var q :| q in left;
      if q.id > m { m := q.id; }
      left := left - {q};
    }
  }

  /** Where the first chunk starts after which the disk is looked at and found nearly full. */
  function FirstFull(start: int, hi: int, chunk: nat, full: int -> bool): Option<int>
    requires chunk >= 1
    decreases hi - start
  {
    if start > hi then None
    else if start / chunk % 20 == 0 && full(start) then Some(start)
    else FirstFull(start + chunk, hi, chunk, full)
  }

  /** Full chunks, and one more for what is left over. */
  lemma {:induction false} ChunksIs(first: int, hi: int, chunk: nat)
    requires chunk >= 1
    ensures first > hi ==> Chunks(first, hi, chunk) == 0
    ensures first <= hi ==>
              && (Chunks(first, hi, chunk) - 1) * chunk <= hi - first < Chunks(first, hi, chunk) * chunk
    decreases hi - first
  {
    if first <= hi {
      ChunksIs(first + chunk, hi, chunk);
      var n := Chunks(first + chunk, hi, chunk);
      assert (n + 1) * chunk == n * chunk + chunk && (n - 1) * chunk == n * chunk - chunk;
    }
  }

  function Chunks(first: int, hi: int, chunk: nat): nat
    requires chunk >= 1
    decreases hi - first
  {
    if first > hi then 0 else 1 + Chunks(first + chunk, hi, chunk)
  }

  lemma DoneNothing(src: Source, x: int, p: Progress)
    ensures Done(src, x, x - 1, p) == p && BadIn(src, x, x - 1) == {}
  {
    assert Good(src, x, x - 1) == {} && BadIn(src, x, x - 1) == {};
  }

  /** What the damaged ids cost beyond one read a chunk: twice the logarithm of the chunk each. */
  function Extra(src: Source, first: int, upTo: int, chunk: nat): nat {
    2 * (|BadIn(src, first, upTo)| * CeilLog2(chunk))
  }

  /** The bound of the chunks so far and of one more. */
  lemma OneChunk(src: Source, first: int, start: int, end: int, chunk: nat)
    requires first <= start <= end < start + chunk
    ensures Reads(src, start, end) + Extra(src, first, start - 1, chunk) <= 1 + Extra(src, first, end, chunk)
  {
    ReadsBounded(src, start, end);
    CeilLog2Monotone(end - start + 1, chunk);
    BadSplits(src, first, start - 1, end);
    ChunkSum(Reads(src, start, end), |BadIn(src, first, start - 1)|, |BadIn(src, start, end)|,
             CeilLog2(end - start + 1), CeilLog2(chunk));
  }

  lemma ChunkSum(r: nat, k: nat, k1: nat, l1: nat, l: nat)
    requires r <= 1 + 2 * (k1 * l1) && l1 <= l
    ensures r + 2 * (k * l) <= 1 + 2 * ((k + k1) * l)
  {
    Scaled(k1, l1, l);
    assert (k + k1) * l == k * l + k1 * l;
  }

  // ---- any number of stops and resumes ---------------------------------------------------------------

  /** Everything readable up to `top` is saved, and every damaged id up to it is listed (perhaps twice). */
  ghost predicate Recovered(src: Source, p: Progress, lo: int, top: int) {
    && (forall r :: r in p.dst <==> r in src.rows && lo <= r.id <= top && r.id !in src.bad)
    && forall id :: id in p.lost <==> id in src.bad && lo <= id <= top
  }

  lemma ResumeContinues(src: Source, p: Progress, lo: int, top: int, first: int, upTo: int)
    requires Recovered(src, p, lo, top) && lo <= first && first - 1 <= upTo && lo - 1 <= top
    requires first > lo ==> exists r :: r in p.dst && r.id == first - 1
    ensures first <= top + 1
    ensures Recovered(src, Done(src, first, upTo, p), lo, if upTo > top then upTo else top)
  {
    var more := if upTo > top then upTo else top;
    assert first <= top + 1;
    BadListIs(src, first, upTo);
    assert Good(src, lo, more) == Good(src, lo, top) + Good(src, first, upTo);
    assert BadIn(src, lo, more) == BadIn(src, lo, top) + BadIn(src, first, upTo);
  }

  lemma {:induction false} NeverFull(start: int, hi: int, chunk: nat, full: int -> bool)
    requires chunk >= 1
    ensures (forall at :: !full(at)) ==> FirstFull(start, hi, chunk, full).None?
    decreases hi - start
  {
    if start <= hi {
      NeverFull(start + chunk, hi, chunk, full);
    }
  }

  /** Stop and resume however often, with whatever chunk sizes: a run that reaches the end leaves exactly
      the readable rows saved and exactly the damaged ids listed. */
  method Recover(src: Source, lo: int, hi: int, chunks: seq<nat>, full: (nat, int) -> bool)
    returns (s: Salvager, finished: bool)
    requires lo <= hi + 1 && forall c :: c in chunks ==> c >= 1
    ensures fresh(s) && s.src == src
    ensures finished ==> Recovered(src, s.Now(), lo, hi)
    ensures exists top :: lo - 1 <= top <= hi && Recovered(src, s.Now(), lo, top)
    ensures chunks != [] && (forall run: nat, at: int :: !full(run, at)) ==> finished
  {
    s := new Salvager(src, {}, []);
    finished := false;
    ghost var top := lo - 1;
    DoneNothing(src, lo, s.Now());
    assert Good(src, lo, top) == {};
    for i := 0 to |chunks|
      invariant fresh(s) && s.src == src
      invariant lo - 1 <= top <= hi && Recovered(src, s.Now(), lo, top)
      invariant finished ==> top == hi
      invariant i > 0 && (forall run: nat, at: int :: !full(run, at)) ==> finished
    {
      ghost var p := s.Now();
      assert chunks[i] in chunks;
      var first, upTo, stopped := s.Run(lo, hi, chunks[i], true, at => full(i, at));
      NeverFull(first, hi, chunks[i], at => full(i, at));
      ResumeContinues(src, p, lo, top, first, upTo);
      if upTo > top { top := upTo; }
      finished := finished || !stopped;
    }
  }
}
