/** The crew rotation schedule: blocks of time, the timeline they show, and the live edits to it. */
module WatchPlan {
  import opened Sorting
  import opened Options

  datatype Team = A | B | AllHandsOn
  datatype Block = Block(start: real, end: real, on: Team, note: Option<string>)

  // ---- blocks and the timeline they show ---------------------------------------------------------

  predicate Covers(b: Block, t: real) { b.start <= t < b.end }

  /** Who is on at `t`: the last block in the list that covers it; None outside every block. */
  function On(blocks: seq<Block>, t: real): Option<Team> {
    if blocks == [] then None
    else
      var last := blocks[|blocks| - 1];
      if Covers(last, t) then Some(last.on) else On(blocks[..|blocks| - 1], t)
  }

  /** Sorted, disjoint, and none of them empty. */
  ghost predicate Canonical(blocks: seq<Block>) {
    blocks == [] ||
    (var n := |blocks| - 1;
     blocks[n].start < blocks[n].end && Canonical(blocks[..n]) && (n > 0 ==> blocks[n - 1].end <= blocks[n].start))
  }

  lemma {:induction false} Apart(blocks: seq<Block>, i: nat, j: nat)
    requires Canonical(blocks) && i <= j < |blocks|
    ensures blocks[i].start < blocks[i].end
    ensures i < j ==> blocks[i].end <= blocks[j].start
  {
    var n := |blocks| - 1;
    if j < n {
      Apart(blocks[..n], i, j);
    } else if i < n {
      Apart(blocks[..n], i, n - 1);
    }
  }

  /** Canonical says it of every block and every pair. */
  lemma {:induction false} CanonicalMeans(blocks: seq<Block>)
    ensures Canonical(blocks) <==>
            && (forall i :: 0 <= i < |blocks| ==> blocks[i].start < blocks[i].end)
            && (forall i, j :: 0 <= i < j < |blocks| ==> blocks[i].end <= blocks[j].start)
  {
    if Canonical(blocks) {
      forall i, j | 0 <= i <= j < |blocks|
        ensures blocks[i].start < blocks[i].end && (i < j ==> blocks[i].end <= blocks[j].start)
      {
        Apart(blocks, i, j);
      }
    } else {
      CanonicalMeans(blocks[..|blocks| - 1]);
    }
  }

  lemma {:induction false} OnConcat(p: seq<Block>, q: seq<Block>, t: real)
    ensures On(p + q, t) == if On(q, t).Some? then On(q, t) else On(p, t)
  {
    if q == [] {
      assert p + q == p;
    } else {
      assert (p + q)[..|p + q| - 1] == p + q[..|q| - 1];
      OnConcat(p, q[..|q| - 1], t);
    }
  }

  lemma {:induction false} NobodyOn(blocks: seq<Block>, t: real)
    requires forall b :: b in blocks ==> !Covers(b, t)
    ensures On(blocks, t) == None
  {
    if blocks != [] {
      assert blocks[|blocks| - 1] in blocks;
      NobodyOn(blocks[..|blocks| - 1], t);
    }
  }

  /** The index of that block. */
  function Current(blocks: seq<Block>, t: real): (i: Option<nat>)
    ensures i.Some? ==> i.value < |blocks| && Covers(blocks[i.value], t) && On(blocks, t) == Some(blocks[i.value].on)
    ensures i.None? ==> On(blocks, t) == None
  {
    if blocks == [] then None
    else
      var n := |blocks| - 1;
      if Covers(blocks[n], t) then Some(n) else Current(blocks[..n], t)
  }

  /** In canonical blocks the one that covers `t` decides. */
  lemma {:induction false} CoveringDecides(blocks: seq<Block>, i: nat, t: real)
    requires Canonical(blocks) && i < |blocks| && Covers(blocks[i], t)
    ensures On(blocks, t) == Some(blocks[i].on)
  {
    var n := |blocks| - 1;
    if i < n {
      Apart(blocks, i, n);
      CoveringDecides(blocks[..n], i, t);
    }
  }

  lemma OnAround(p: seq<Block>, x: Block, q: seq<Block>, t: real)
    ensures On(p + [x] + q, t) == if On(q, t).Some? then On(q, t) else if Covers(x, t) then Some(x.on) else On(p, t)
  {
    OnConcat(p + [x], q, t);
    OnConcat(p, [x], t);
  }

  /** Once the last block has ended, nobody is on. */
  lemma {:induction false} AllEnded(blocks: seq<Block>, t: real)
    requires Canonical(blocks) && (blocks != [] ==> blocks[|blocks| - 1].end <= t)
    ensures On(blocks, t) == None
  {
    if blocks != [] {
      AllEnded(blocks[..|blocks| - 1], t);
    }
  }

  /** Until the first block starts, nobody is on. */
  lemma {:induction false} NoneBegun(blocks: seq<Block>, t: real)
    requires Canonical(blocks) && (blocks != [] ==> t < blocks[0].start)
    ensures On(blocks, t) == None
  {
    if blocks != [] {
      Apart(blocks, 0, |blocks| - 1);
      NoneBegun(blocks[..|blocks| - 1], t);
    }
  }

  lemma {:induction false} TakeCanonical(blocks: seq<Block>, i: nat)
    requires Canonical(blocks) && i <= |blocks|
    ensures Canonical(blocks[..i])
  {
    var n := |blocks| - 1;
    if i <= n {
      TakeCanonical(blocks[..n], i);
      assert blocks[..n][..i] == blocks[..i];
    } else {
      assert blocks[..i] == blocks;
    }
  }

  lemma {:induction false} DropCanonical(blocks: seq<Block>, i: nat)
    requires Canonical(blocks) && i <= |blocks|
    ensures Canonical(blocks[i..])
  {
    var n := |blocks| - 1;
    if i <= n {
      DropCanonical(blocks[..n], i);
      assert blocks[i..][..n - i] == blocks[..n][i..];
    }
  }

  /** Between the end of one block and the start of the next, nobody is on. */
  lemma Gap(blocks: seq<Block>, m: nat, t: real)
    requires Canonical(blocks) && m <= |blocks|
    requires (m > 0 ==> blocks[m - 1].end <= t) && (m < |blocks| ==> t < blocks[m].start)
    ensures On(blocks, t) == None
  {
    TakeCanonical(blocks, m);
    DropCanonical(blocks, m);
    AllEnded(blocks[..m], t);
    NoneBegun(blocks[m..], t);
    assert blocks[..m] + blocks[m..] == blocks;
    OnConcat(blocks[..m], blocks[m..], t);
  }

  /** Blocks before one that has started, and after one that has not ended, show nothing. */
  lemma QuietAround(blocks: seq<Block>, i: nat, t: real)
    requires Canonical(blocks) && i < |blocks|
    ensures t >= blocks[i].start ==> On(blocks[..i], t) == None
    ensures t < blocks[i].end ==> On(blocks[i + 1..], t) == None
  {
    TakeCanonical(blocks, i);
    DropCanonical(blocks, i + 1);
    if i > 0 { Apart(blocks, i - 1, i); }
    if i + 1 < |blocks| { Apart(blocks, i, i + 1); }
    if t >= blocks[i].start { AllEnded(blocks[..i], t); }
    if t < blocks[i].end { NoneBegun(blocks[i + 1..], t); }
  }

  lemma {:induction false} JoinCanonical(p: seq<Block>, x: Block, q: seq<Block>)
    requires Canonical(p) && Canonical(q) && x.start < x.end
    requires p != [] ==> p[|p| - 1].end <= x.start
    requires q != [] ==> x.end <= q[0].start
    ensures Canonical(p + [x] + q)
  {
    if q == [] {
      assert (p + [x] + q)[..|p|] == p;
    } else {
      var n := |q| - 1;
      JoinCanonical(p, x, q[..n]);
      assert (p + [x] + q)[..|p| + 1 + n] == p + [x] + q[..n];
    }
  }

  // ---- normalize -----------------------------------------------------------------------------------

  predicate Earlier(x: Block, y: Block) { x.start <= y.start }

  /** A row that does not parse is None; one that ends before it starts is dropped as well. */
  function Valid(rows: seq<Option<Block>>): seq<Block> {
    if rows == [] then []
    else
      var last := rows[|rows| - 1];
      Valid(rows[..|rows| - 1]) + if last.Some? && last.value.start < last.value.end then [last.value] else []
  }

  /** Cut the last block where `b` starts; drop it if nothing is left; add `b`. */
  function Clip(clipped: seq<Block>, b: Block): seq<Block> {
    var n := |clipped| - 1;
    if clipped == [] || clipped[n].end <= b.start then clipped + [b]
    else if b.start <= clipped[n].start then clipped[..n] + [b]
    else clipped[..n] + [clipped[n].(end := b.start)] + [b]
  }

  function ClipAll(sorted: seq<Block>): seq<Block> {
    if sorted == [] then [] else Clip(ClipAll(sorted[..|sorted| - 1]), sorted[|sorted| - 1])
  }

  function Canon(rows: seq<Option<Block>>): seq<Block> { ClipAll(Sort(Valid(rows), Earlier)) }

  /** Python's `normalize`: filter, sort by start, then clip overlaps from the left. */
  method Normalize(rows: seq<Option<Block>>) returns (blocks: seq<Block>)
    ensures blocks == Canon(rows)
  {
    var valid := [];
    for i := 0 to |rows|
      invariant valid == Valid(rows[..i])
    {
      assert rows[..i + 1][..i] == rows[..i];
      if rows[i].Some? && rows[i].value.start < rows[i].value.end {
        valid := valid + [rows[i].value];
      }
    }
    assert rows[..|rows|] == rows;
    var sorted := Sort(valid, Earlier);
    blocks := [];
    for i := 0 to |sorted|
      invariant blocks == ClipAll(sorted[..i])
    {
      var b := sorted[i];
      assert sorted[..i + 1][..i] == sorted[..i];
      ghost var was := blocks;
      if blocks != [] && b.start < blocks[|blocks| - 1].end {
        var n := |blocks| - 1;
        blocks := blocks[n := blocks[n].(end := b.start)];
        if blocks[n].end <= blocks[n].start {
          blocks := blocks[..n];
        }
      }
      blocks := blocks + [b];
      assert blocks == Clip(was, b);
    }
    assert sorted[..|sorted|] == sorted;
  }

  /** The block that starts last among those started by `t`; a tie goes to the later row. */
  function Latest(rows: seq<Block>, t: real): Option<Block> {
    if rows == [] then None
    else
      var rest := Latest(rows[1..], t);
      if rows[0].start <= t && (rest.None? || rest.value.start < rows[0].start) then Some(rows[0]) else rest
  }

  /** What rows mean, overlaps and all: the last-starting one, if it has not ended. */
  function Shown(rows: seq<Block>, t: real): Option<Team> {
    match Latest(rows, t)
    case None => None
    case Some(b) => if t < b.end then Some(b.on) else None
  }

  lemma {:induction false} LatestWithin(s: seq<Block>, from: real, t: real)
    requires forall i :: 0 <= i < |s| ==> from <= s[i].start
    ensures Latest(s, t).Some? ==> from <= Latest(s, t).value.start <= t
  {
    if s != [] {
      LatestWithin(s[1..], from, t);
    }
  }

  lemma LatestAfterFirst(s: seq<Block>, t: real)
    requires s != [] && Sorted(s, Earlier)
    ensures Latest(s[1..], t).Some? ==> s[0].start <= Latest(s[1..], t).value.start <= t
  {
    forall i | 0 <= i < |s| - 1
      ensures s[0].start <= s[1..][i].start
    {
      assert Earlier(s[0], s[i + 1]);
    }
    LatestWithin(s[1..], s[0].start, t);
  }

  /** Inserting in order changes nothing that is shown: a tie keeps its place. */
  lemma {:induction false} LatestInsert(x: Block, s: seq<Block>, t: real)
    requires Sorted(s, Earlier)
    ensures Latest(Insert(x, s, Earlier), t) == Latest([x] + s, t)
  {
    assert ([x] + s)[1..] == s;
    if s != [] && !Earlier(x, s[0]) {
      var rest := Insert(x, s[1..], Earlier);
      LatestInsert(x, s[1..], t);
      assert ([s[0]] + rest)[1..] == rest && ([x] + s[1..])[1..] == s[1..];
      LatestAfterFirst(s, t);
    }
  }

  lemma {:induction false} LatestSort(s: seq<Block>, t: real)
    ensures Latest(Sort(s, Earlier), t) == Latest(s, t)
  {
    if s != [] {
      LatestSort(s[1..], t);
      SortCorrect(s[1..], Earlier);
      LatestInsert(s[0], Sort(s[1..], Earlier), t);
      assert ([s[0]] + Sort(s[1..], Earlier))[1..] == Sort(s[1..], Earlier);
    }
  }

  lemma {:induction false} LatestSnoc(s: seq<Block>, b: Block, t: real)
    requires forall x :: x in s ==> x.start <= b.start
    ensures Latest(s + [b], t) == if b.start <= t then Some(b) else Latest(s, t)
  {
    if s != [] {
      assert (s + [b])[1..] == s[1..] + [b];
      LatestSnoc(s[1..], b, t);
    } else {
      assert ([b])[1..] == [];
    }
  }

  lemma Snoc(p: seq<Block>, b: Block)
    requires Canonical(p) && b.start < b.end && (p != [] ==> p[|p| - 1].end <= b.start)
    ensures Canonical(p + [b])
  {
    assert (p + [b])[..|p|] == p;
  }

  lemma ClipKeepsCanonical(c: seq<Block>, b: Block)
    requires Canonical(c) && b.start < b.end
    requires c != [] ==> c[|c| - 1].start <= b.start
    ensures Canonical(Clip(c, b)) && Clip(c, b)[|Clip(c, b)| - 1] == b
  {
    var n := |c| - 1;
    if c == [] || c[n].end <= b.start {
      Snoc(c, b);
    } else if b.start <= c[n].start {
      Snoc(c[..n], b);
    } else {
      var cut := c[n].(end := b.start);
      Snoc(c[..n], cut);
      Snoc(c[..n] + [cut], b);
    }
  }

  lemma ClipShows(c: seq<Block>, b: Block, t: real)
    requires Canonical(c) && b.start < b.end
    requires c != [] ==> c[|c| - 1].start <= b.start
    ensures On(Clip(c, b), t) == if b.start <= t then (if t < b.end then Some(b.on) else None) else On(c, t)
  {
    var n := |c| - 1;
    if c == [] || c[n].end <= b.start {
      OnConcat(c, [b], t);
      if b.start <= t { AllEnded(c, t); }
    } else if b.start <= c[n].start {
      OnConcat(c[..n], [b], t);
      if b.start <= t { AllEnded(c[..n], t); }
    } else {
      var cut := c[n].(end := b.start);
      OnConcat(c[..n] + [cut], [b], t);
      OnConcat(c[..n], [cut], t);
      if b.start <= t { AllEnded(c[..n], t); }
    }
  }

  /** Non-empty rows, in order of their starts. */
  ghost predicate Ascending(s: seq<Block>) {
    s == [] ||
    (var n := |s| - 1; s[n].start < s[n].end && Ascending(s[..n]) && (n > 0 ==> s[n - 1].start <= s[n].start))
  }

  lemma {:induction false} SortedAscends(s: seq<Block>)
    requires Sorted(s, Earlier) && forall i :: 0 <= i < |s| ==> s[i].start < s[i].end
    ensures Ascending(s)
  {
    if s != [] {
      var n := |s| - 1;
      SortedAscends(s[..n]);
      assert n > 0 ==> Earlier(s[n - 1], s[n]);
    }
  }

  lemma {:induction false} LastStartsLast(s: seq<Block>, b: Block)
    requires Ascending(s) && (s != [] ==> s[|s| - 1].start <= b.start)
    ensures forall x :: x in s ==> x.start <= b.start
  {
    if s != [] {
      var n := |s| - 1;
      LastStartsLast(s[..n], s[n]);
      assert s == s[..n] + [s[n]];
    }
  }

  lemma {:induction false} ClipAllCanonical(s: seq<Block>)
    requires Ascending(s)
    ensures Canonical(ClipAll(s))
    ensures s != [] ==> ClipAll(s) != [] && ClipAll(s)[|ClipAll(s)| - 1] == s[|s| - 1]
  {
    if s != [] {
      var n := |s| - 1;
      ClipAllCanonical(s[..n]);
      assert n == 0 ==> ClipAll(s[..n]) == [];
      ClipKeepsCanonical(ClipAll(s[..n]), s[n]);
    }
  }

  lemma {:induction false} ClipAllShows(s: seq<Block>, t: real)
    requires Ascending(s)
    ensures On(ClipAll(s), t) == Shown(s, t)
  {
    if s != [] {
      var n := |s| - 1;
      ClipAllShows(s[..n], t);
      ReadyToClip(s);
      ClipShows(ClipAll(s[..n]), s[n], t);
      LatestLast(s, t);
    }
  }

  lemma LatestLast(s: seq<Block>, t: real)
    requires s != [] && Ascending(s)
    ensures Latest(s, t) == if s[|s| - 1].start <= t then Some(s[|s| - 1]) else Latest(s[..|s| - 1], t)
  {
    var n := |s| - 1;
    LastStartsLast(s[..n], s[n]);
    LatestSnoc(s[..n], s[n], t);
    assert s[..n] + [s[n]] == s;
  }

  lemma ReadyToClip(s: seq<Block>)
    requires s != [] && Ascending(s)
    ensures var c := ClipAll(s[..|s| - 1]); Canonical(c) && (c != [] ==> c[|c| - 1].start <= s[|s| - 1].start)
  {
    ClipAllCanonical(s[..|s| - 1]);
    assert |s| == 1 ==> ClipAll(s[..|s| - 1]) == [];
  }

  lemma {:induction false} ValidRows(rows: seq<Option<Block>>)
    ensures forall b :: b in Valid(rows) <==> Some(b) in rows && b.start < b.end
  {
    if rows != [] {
      ValidRows(rows[..|rows| - 1]);
      assert rows == rows[..|rows| - 1] + [rows[|rows| - 1]];
    }
  }

  lemma SortedValid(rows: seq<Option<Block>>)
    ensures Ascending(Sort(Valid(rows), Earlier))
  {
    var s := Sort(Valid(rows), Earlier);
    ValidRows(rows);
    SortCorrect(Valid(rows), Earlier);
    forall i | 0 <= i < |s|
      ensures s[i].start < s[i].end
    {
      assert s[i] in s;
    }
    SortedAscends(s);
  }

  /** Whatever the rows, the result is canonical and shows, at every moment, the last-starting valid row
      if it has not ended. */
  lemma NormalizeCorrect(rows: seq<Option<Block>>, t: real)
    ensures Canonical(Canon(rows))
    ensures On(Canon(rows), t) == Shown(Valid(rows), t)
  {
    SortedValid(rows);
    ClipAllCanonical(Sort(Valid(rows), Earlier));
    ClipAllShows(Sort(Valid(rows), Earlier), t);
    LatestSort(Valid(rows), t);
  }

  /** What is left of a row: its start, team and note, and an end no later than its own. */
  predicate CutFrom(b: Block, row: Block) {
    b.start == row.start && b.on == row.on && b.note == row.note && b.end <= row.end
  }

  ghost predicate FromRows(b: Block, rows: seq<Block>) { exists row :: row in rows && CutFrom(b, row) }

  ghost predicate Begins(start: real, blocks: seq<Block>) { exists b :: b in blocks && b.start == start }

  lemma ClipFromRows(c: seq<Block>, b: Block, x: Block, rows: seq<Block>)
    requires c != [] ==> c[|c| - 1].start <= b.start
    requires x in Clip(c, b) && b in rows && forall y :: y in c ==> FromRows(y, rows)
    ensures FromRows(x, rows)
  {
    var n := |c| - 1;
    if x in c {
    } else if x == b {
      assert CutFrom(b, b);
    } else {
      assert FromRows(c[n], rows);
      var row :| row in rows && CutFrom(c[n], row);
      assert CutFrom(x, row);
    }
  }

  lemma {:induction false} ClipAllFromRows(s: seq<Block>, n: nat, x: Block)
    requires Ascending(s) && n <= |s| && x in ClipAll(s[..n])
    ensures FromRows(x, s)
    decreases n
  {
    if n > 0 {
      var c := ClipAll(s[..n - 1]);
      assert s[..n][..n - 1] == s[..n - 1];
      forall y | y in c ensures FromRows(y, s) {
        ClipAllFromRows(s, n - 1, y);
      }
      AscendingTake(s, n);
      ReadyToClip(s[..n]);
      ClipFromRows(c, s[n - 1], x, s);
    }
  }

  lemma {:induction false} AscendingTake(s: seq<Block>, n: nat)
    requires Ascending(s) && n <= |s|
    ensures Ascending(s[..n])
  {
    if n < |s| {
      AscendingTake(s[..|s| - 1], n);
      assert s[..|s| - 1][..n] == s[..n];
    } else {
      assert s[..n] == s;
    }
  }

  lemma ClipBegins(c: seq<Block>, b: Block, start: real)
    requires c != [] ==> c[|c| - 1].start <= b.start
    requires start == b.start || Begins(start, c)
    ensures Begins(start, Clip(c, b))
  {
    var n, r := |c| - 1, Clip(c, b);
    assert r[|r| - 1] == b;
    if start != b.start {
      var x :| x in c && x.start == start;
      var k :| 0 <= k < |c| && c[k] == x;
      assert r[k].start == start;
    }
  }

  lemma {:induction false} ClipAllBegins(s: seq<Block>, row: Block)
    requires Ascending(s) && row in s
    ensures Begins(row.start, ClipAll(s))
  {
    var n := |s| - 1;
    assert s == s[..n] + [s[n]];
    if row != s[n] {
      ClipAllBegins(s[..n], row);
    }
    ReadyToClip(s);
    ClipBegins(ClipAll(s[..n]), s[n], row.start);
  }

  lemma SortedRows(rows: seq<Option<Block>>, b: Block)
    ensures b in Sort(Valid(rows), Earlier) <==> Some(b) in rows && b.start < b.end
  {
    ValidRows(rows);
    SortCorrect(Valid(rows), Earlier);
    assert b in Sort(Valid(rows), Earlier) <==> b in multiset(Sort(Valid(rows), Earlier));
    assert b in Valid(rows) <==> b in multiset(Valid(rows));
  }

  /** Each block is what is left of a valid row. */
  lemma NormalizeKeepsRows(rows: seq<Option<Block>>, b: Block)
    requires b in Canon(rows)
    ensures exists row :: Some(row) in rows && row.start < row.end && CutFrom(b, row)
  {
    var s := Sort(Valid(rows), Earlier);
    SortedValid(rows);
    assert s[..|s|] == s;
    ClipAllFromRows(s, |s|, b);
    var row :| row in s && CutFrom(b, row);
    SortedRows(rows, row);
  }

  /** And where a valid row starts, a block does. */
  lemma NormalizeKeepsStarts(rows: seq<Option<Block>>, row: Block)
    requires Some(row) in rows && row.start < row.end
    ensures exists b :: b in Canon(rows) && b.start == row.start
  {
    SortedValid(rows);
    SortedRows(rows, row);
    ClipAllBegins(Sort(Valid(rows), Earlier), row);
  }

  lemma CanonIsCanonical(rows: seq<Option<Block>>)
    ensures Canonical(Canon(rows))
  {
    NormalizeCorrect(rows, 0.0);
  }

  function AsRows(blocks: seq<Block>): seq<Option<Block>> {
    if blocks == [] then [] else AsRows(blocks[..|blocks| - 1]) + [Some(blocks[|blocks| - 1])]
  }

  lemma {:induction false} ValidOfCanonical(c: seq<Block>)
    requires Canonical(c)
    ensures Valid(AsRows(c)) == c
  {
    if c != [] {
      var n := |c| - 1;
      ValidOfCanonical(c[..n]);
      ValidSnoc(AsRows(c[..n]), c[n]);
    }
  }

  lemma ValidSnoc(rows: seq<Option<Block>>, b: Block)
    requires b.start < b.end
    ensures Valid(rows + [Some(b)]) == Valid(rows) + [b]
  {
    assert (rows + [Some(b)])[..|rows|] == rows;
  }

  lemma {:induction false} ClipOfCanonical(c: seq<Block>)
    requires Canonical(c)
    ensures ClipAll(c) == c
  {
    if c != [] {
      ClipOfCanonical(c[..|c| - 1]);
      assert c == c[..|c| - 1] + [c[|c| - 1]];
    }
  }

  lemma {:induction false} CanonicalSorted(c: seq<Block>)
    requires Canonical(c)
    ensures Sorted(c, Earlier)
  {
    forall i, j | 0 <= i < j < |c|
      ensures Earlier(c[i], c[j])
    {
      Apart(c, i, j);
    }
  }

  /** Canonical blocks are left as they are. */
  lemma CanonOfCanonical(c: seq<Block>)
    requires Canonical(c)
    ensures Canon(AsRows(c)) == c
  {
    ValidOfCanonical(c);
    CanonicalSorted(c);
    SortOfSorted(c, Earlier);
    ClipOfCanonical(c);
  }

  /** Normalizing twice is normalizing once. */
  lemma NormalizeIdempotent(rows: seq<Option<Block>>)
    ensures Canon(AsRows(Canon(rows))) == Canon(rows)
  {
    NormalizeCorrect(rows, 0.0);
    CanonOfCanonical(Canon(rows));
  }

  // ---- status ---------------------------------------------------------------------------------------

  /** Nobody new takes over between `now` and `change`; with no change to come, nobody is ever on again. */
  ghost predicate ChangeIsNext(blocks: seq<Block>, now: real, change: Option<real>) {
    match change
    case None => forall t :: t >= now ==> On(blocks, t) == None
    case Some(c) =>
      && now < c && (forall t :: now <= t < c ==> On(blocks, t) == On(blocks, now))
      && exists b :: b in blocks && (if Covers(b, now) then b.end == c else On(blocks, now) == None && b.start == c)
  }

  /** The team named as next starts within a second of the change; with none named, that second is empty. */
  ghost predicate NextIsRight(blocks: seq<Block>, change: Option<real>, next: Option<Team>) {
    match change
    case None => next == None
    case Some(c) =>
      if next.None? then forall t :: c <= t < c + 1.0 ==> On(blocks, t) == None
      else exists b :: b in blocks && b.on == next.value && c <= b.start < c + 1.0 &&
                       forall t :: c <= t < b.start ==> On(blocks, t) == None
  }

  /** The loop of `status_at`: the block that covers `now`, and the first that starts after it. */
  method FindAt(blocks: seq<Block>, now: real) returns (cur: Option<nat>, nxt: Option<nat>)
    ensures cur == Current(blocks, now)
    ensures nxt.Some? ==> nxt.value < |blocks| && blocks[nxt.value].start > now
    ensures forall j :: 0 <= j < (if nxt.Some? then nxt.value else |blocks|) ==> blocks[j].start <= now
  {
    cur, nxt := None, None;
    for i := 0 to |blocks|
      invariant cur == Current(blocks[..i], now)
      invariant nxt.Some? ==> nxt.value < i && blocks[nxt.value].start > now
      invariant forall j :: 0 <= j < (if nxt.Some? then nxt.value else i) ==> blocks[j].start <= now
    {
      assert blocks[..i + 1][..i] == blocks[..i];
      if Covers(blocks[i], now) {
        cur := Some(i);
      } else if blocks[i].start > now && nxt.None? {
        nxt := Some(i);
      }
    }
    assert blocks[..|blocks|] == blocks;
  }

  method StatusAt(blocks: seq<Block>, now: real) returns (on: Option<Team>, change: Option<real>, next: Option<Team>)
    ensures on == On(blocks, now)
    // for blocks in any order: the last block that covers `now`, else the first listed start after it
    ensures on.None? <==> forall b :: b in blocks ==> !(b.start <= now < b.end)
    ensures on.Some? ==> exists i ::
                LastCovering(blocks, now, i) && on == Some(blocks[i].on) && change == Some(blocks[i].end)
    ensures on.Some? && next.Some? ==> exists k ::
                FirstAfter(blocks, now, k) && next == Some(blocks[k].on) && -1.0 < blocks[k].start - change.value < 1.0
    ensures on.Some? && next.None? ==>
              forall k :: FirstAfter(blocks, now, k) ==> !(-1.0 < blocks[k].start - change.value < 1.0)
    ensures on.None? ==> if change.None? then next == None && forall b :: b in blocks ==> b.start <= now
                         else exists i ::
                           FirstAfter(blocks, now, i) && change == Some(blocks[i].start) && next == Some(blocks[i].on)
    ensures Canonical(blocks) ==> ChangeIsNext(blocks, now, change) && NextIsRight(blocks, change, next)
  {
    var cur, nxt := FindAt(blocks, now);
    CurrentIsLast(blocks, now);
    if nxt.Some? {
      assert FirstAfter(blocks, now, nxt.value);
    }
    if cur.Some? {
      var b := blocks[cur.value];
      on, change := Some(b.on), Some(b.end);
      next := if nxt.Some? && Abs(blocks[nxt.value].start - b.end) < 1.0 then Some(blocks[nxt.value].on) else None;
      if Canonical(blocks) {
        NextFollows(blocks, cur.value, now, nxt);
        WhileCovered(blocks, cur.value, now);
        AfterCovered(blocks, cur.value, next);
      }
    } else {
      on := None;
      change := if nxt.None? then None else Some(blocks[nxt.value].start);
      next := if nxt.None? then None else Some(blocks[nxt.value].on);
      if Canonical(blocks) {
        BetweenBlocks(blocks, now, nxt);
      }
    }
  }

  predicate FirstAfter(blocks: seq<Block>, now: real, i: int) {
    0 <= i < |blocks| && blocks[i].start > now && forall j :: 0 <= j < i ==> blocks[j].start <= now
  }

  predicate LastCovering(blocks: seq<Block>, now: real, i: int) {
    && 0 <= i < |blocks| && blocks[i].start <= now < blocks[i].end
    && forall j :: i < j < |blocks| ==> !(blocks[j].start <= now < blocks[j].end)
  }

  lemma {:induction false} CurrentIsLast(blocks: seq<Block>, now: real)
    ensures Current(blocks, now).Some? ==> LastCovering(blocks, now, Current(blocks, now).value)
    ensures Current(blocks, now).None? ==> forall b :: b in blocks ==> !(b.start <= now < b.end)
    ensures forall b :: b in blocks && b.start <= now < b.end ==> On(blocks, now).Some?
  {
    if blocks != [] {
      var n := |blocks| - 1;
      CurrentIsLast(blocks[..n], now);
      assert blocks == blocks[..n] + [blocks[n]];
    }
  }

  function Abs(x: real): real { if x < 0.0 then -x else x }

  lemma NextFollows(blocks: seq<Block>, i: nat, now: real, nxt: Option<nat>)
    requires Canonical(blocks) && i < |blocks| && Covers(blocks[i], now)
    requires nxt.Some? ==> nxt.value < |blocks| && blocks[nxt.value].start > now
    requires forall j :: 0 <= j < (if nxt.Some? then nxt.value else |blocks|) ==> blocks[j].start <= now
    ensures nxt == if i + 1 < |blocks| then Some(i + 1) else None
  {
    if i + 1 < |blocks| { Apart(blocks, i, i + 1); }
    forall j | 0 <= j < i
      ensures blocks[j].start <= now
    {
      Apart(blocks, j, i);
    }
  }

  lemma WhileCovered(blocks: seq<Block>, i: nat, now: real)
    requires Canonical(blocks) && i < |blocks| && Covers(blocks[i], now)
    ensures ChangeIsNext(blocks, now, Some(blocks[i].end))
  {
    CoveringDecides(blocks, i, now);
    forall t | now <= t < blocks[i].end
      ensures On(blocks, t) == On(blocks, now)
    {
      CoveringDecides(blocks, i, t);
    }
    assert blocks[i] in blocks;
  }

  lemma AfterCovered(blocks: seq<Block>, i: nat, next: Option<Team>)
    requires Canonical(blocks) && i < |blocks|
    requires next == if i + 1 < |blocks| && Abs(blocks[i + 1].start - blocks[i].end) < 1.0
                     then Some(blocks[i + 1].on) else None
    ensures NextIsRight(blocks, Some(blocks[i].end), next)
  {
    forall t | blocks[i].end <= t && (i + 1 < |blocks| ==> t < blocks[i + 1].start)
      ensures On(blocks, t) == None
    {
      Gap(blocks, i + 1, t);
    }
    if i + 1 < |blocks| {
      Apart(blocks, i, i + 1);
      assert blocks[i + 1] in blocks;
    }
  }

  lemma BetweenBlocks(blocks: seq<Block>, now: real, nxt: Option<nat>)
    requires Canonical(blocks) && Current(blocks, now).None?
    requires nxt.Some? ==> nxt.value < |blocks| && blocks[nxt.value].start > now
    requires forall j :: 0 <= j < (if nxt.Some? then nxt.value else |blocks|) ==> blocks[j].start <= now
    ensures ChangeIsNext(blocks, now, if nxt.None? then None else Some(blocks[nxt.value].start))
    ensures nxt.Some? ==> NextIsRight(blocks, Some(blocks[nxt.value].start), Some(blocks[nxt.value].on))
  {
    var m := if nxt.Some? then nxt.value else |blocks|;
    if m > 0 && blocks[m - 1].end > now { CoveringDecides(blocks, m - 1, now); }
    forall t | now <= t && (nxt.Some? ==> t < blocks[nxt.value].start)
      ensures On(blocks, t) == None
    {
      Gap(blocks, m, t);
    }
    assert nxt.Some? ==> blocks[nxt.value] in blocks;
  }

  // ---- hold ---------------------------------------------------------------------------------------------

  function Later(b: Block, delta: real): Block { b.(start := b.start + delta, end := b.end + delta) }

  function Shift(blocks: seq<Block>, delta: real): seq<Block> {
    if blocks == [] then [] else Shift(blocks[..|blocks| - 1], delta) + [Later(blocks[|blocks| - 1], delta)]
  }

  lemma {:induction false} ShiftAt(blocks: seq<Block>, delta: real)
    ensures |Shift(blocks, delta)| == |blocks|
    ensures forall i :: 0 <= i < |blocks| ==> Shift(blocks, delta)[i] == Later(blocks[i], delta)
  {
    if blocks != [] {
      ShiftAt(blocks[..|blocks| - 1], delta);
    }
  }

  lemma {:induction false} ShiftShows(blocks: seq<Block>, delta: real, t: real)
    ensures On(Shift(blocks, delta), t) == On(blocks, t - delta)
  {
    if blocks != [] {
      var n := |blocks| - 1;
      ShiftShows(blocks[..n], delta, t);
      ShiftAt(blocks[..n], delta);
      assert Shift(blocks, delta)[..n] == Shift(blocks[..n], delta);
    }
  }

  /** Block `i` lasts longer, every later one moves. */
  function Held(blocks: seq<Block>, i: nat, delta: real): seq<Block>
    requires i < |blocks|
  {
    blocks[..i] + [blocks[i].(end := blocks[i].end + delta)] + Shift(blocks[i + 1..], delta)
  }

  lemma HeldCanonical(blocks: seq<Block>, i: nat, delta: real)
    requires Canonical(blocks) && i < |blocks| && delta > 0.0
    ensures Canonical(Held(blocks, i, delta))
  {
    HeldHead(blocks, i);
    HeldTail(blocks, i, delta);
    JoinCanonical(blocks[..i], blocks[i].(end := blocks[i].end + delta), Shift(blocks[i + 1..], delta));
  }

  lemma HeldHead(blocks: seq<Block>, i: nat)
    requires Canonical(blocks) && i < |blocks|
    ensures Canonical(blocks[..i]) && blocks[i].start < blocks[i].end
    ensures i > 0 ==> blocks[i - 1].end <= blocks[i].start
  {
    TakeCanonical(blocks, i);
    Apart(blocks, i, i);
    if i > 0 { Apart(blocks, i - 1, i); }
  }

  lemma HeldTail(blocks: seq<Block>, i: nat, delta: real)
    requires Canonical(blocks) && i < |blocks|
    ensures Canonical(Shift(blocks[i + 1..], delta))
    ensures Shift(blocks[i + 1..], delta) != [] ==> blocks[i].end + delta <= Shift(blocks[i + 1..], delta)[0].start
  {
    DropCanonical(blocks, i + 1);
    ShiftCanonical(blocks[i + 1..], delta);
    if i + 1 < |blocks| { Apart(blocks, i, i + 1); }
  }

  lemma {:induction false} ShiftCanonical(blocks: seq<Block>, delta: real)
    requires Canonical(blocks)
    ensures Canonical(Shift(blocks, delta)) && (Shift(blocks, delta) == [] <==> blocks == [])
    ensures blocks != [] ==> Shift(blocks, delta)[0].start == blocks[0].start + delta
  {
    if blocks != [] {
      var n := |blocks| - 1;
      ShiftCanonical(blocks[..n], delta);
      ShiftAt(blocks[..n], delta);
      assert Shift(blocks, delta)[..n] == Shift(blocks[..n], delta);
    }
  }

  /** The current watch runs `delta` longer; what came before is untouched and what follows is the same, later. */
  lemma HeldShows(blocks: seq<Block>, i: nat, delta: real, t: real)
    requires Canonical(blocks) && i < |blocks| && delta > 0.0
    ensures On(Held(blocks, i, delta), t) ==
            if t < blocks[i].end then On(blocks, t)
            else if t < blocks[i].end + delta then Some(blocks[i].on)
            else On(blocks, t - delta)
  {
    var p, cur, q := blocks[..i], blocks[i], blocks[i + 1..];
    Apart(blocks, i, i);
    OnAround(p, cur.(end := cur.end + delta), Shift(q, delta), t);
    ShiftShows(q, delta, t);
    assert blocks == p + [cur] + q;
    OnAround(p, cur, q, t);
    OnAround(p, cur, q, t - delta);
    QuietAround(blocks, i, t);
    QuietAround(blocks, i, t - delta);
  }

  lemma HeldAt(blocks: seq<Block>, i: nat, delta: real)
    requires i < |blocks|
    ensures |Held(blocks, i, delta)| == |blocks|
    ensures forall j :: 0 <= j < |blocks| ==>
              Held(blocks, i, delta)[j] ==
              if j < i then blocks[j]
              else Block(blocks[j].start + (if j > i then delta else 0.0), blocks[j].end + delta, blocks[j].on,
                         blocks[j].note)
  {
    ShiftAt(blocks[i + 1..], delta);
  }

  /** Held at block `i`, which covers `now`: it ends `delta` later, the blocks before it stay, and those after
      it start and end that much later. */
  predicate HeldBlock(blocks: seq<Block>, i: nat, delta: real, r: seq<Block>, j: nat)
    requires i < |blocks| && j < |blocks| == |r|
  {
    r[j] == if j < i then blocks[j]
            else Block(if j == i then blocks[j].start else blocks[j].start + delta, blocks[j].end + delta,
                       blocks[j].on, blocks[j].note)
  }

  /** As a timeline: the team of that block is on for `delta` more, and what follows is the same, later. */
  ghost predicate HeldMoment(blocks: seq<Block>, i: nat, delta: real, r: seq<Block>, t: real)
    requires i < |blocks|
  {
    On(r, t) == if t < blocks[i].end then On(blocks, t)
                else if t < blocks[i].end + delta then Some(blocks[i].on)
                else On(blocks, t - delta)
  }

  ghost predicate HeldFrom(blocks: seq<Block>, i: nat, delta: real, r: seq<Block>)
    requires i < |blocks| == |r|
  {
    && (forall j :: 0 <= j < |blocks| ==> HeldBlock(blocks, i, delta, r, j))
    && forall t :: HeldMoment(blocks, i, delta, r, t)
  }

  method Hold(rows: seq<Option<Block>>, now: real, minutes: real) returns (blocks: seq<Block>)
    ensures Canonical(blocks) && |blocks| == |Canon(rows)|
    ensures minutes <= 0.0 || (forall b :: b in Canon(rows) ==> !(b.start <= now < b.end)) ==> blocks == Canon(rows)
    ensures forall i :: minutes > 0.0 && 0 <= i < |blocks| && Canon(rows)[i].start <= now < Canon(rows)[i].end ==>
              HeldFrom(Canon(rows), i, minutes * 60.0, blocks)
  {
    var c := Normalize(rows);
    CanonIsCanonical(rows);
    blocks := HoldCanonical(c, now, minutes * 60.0);
  }

  /** At most one block of a canonical plan covers a moment. */
  lemma OneCovers(c: seq<Block>, i: nat, now: real)
    requires Canonical(c) && i < |c| && Covers(c[i], now)
    ensures forall k :: 0 <= k < |c| && Covers(c[k], now) ==> k == i
  {
    forall k | 0 <= k < |c| && Covers(c[k], now)
      ensures k == i
    {
      if k < i { Apart(c, k, i); }
      if i < k { Apart(c, i, k); }
    }
  }

  method HoldCanonical(c: seq<Block>, now: real, delta: real) returns (blocks: seq<Block>)
    requires Canonical(c)
    ensures Canonical(blocks) && |blocks| == |c|
    ensures delta <= 0.0 || (forall b :: b in c ==> !(b.start <= now < b.end)) ==> blocks == c
    ensures forall i :: delta > 0.0 && 0 <= i < |c| && c[i].start <= now < c[i].end ==>
              HeldFrom(c, i, delta, blocks)
  {
    var cur, nxt := FindAt(c, now);
    CurrentIsLast(c, now);
    if cur.None? || delta <= 0.0 {
      return c;
    }
    HeldCanonical(c, cur.value, delta);
    OneCovers(c, cur.value, now);
    blocks := Stretch(c, cur.value, now, delta);
    HeldIsHold(c, cur.value, delta);
    assert c[cur.value] in c;
  }

  lemma HeldIsHold(c: seq<Block>, i: nat, delta: real)
    requires Canonical(c) && i < |c| && delta > 0.0
    ensures |Held(c, i, delta)| == |c| && HeldFrom(c, i, delta, Held(c, i, delta))
  {
    HeldAt(c, i, delta);
    forall t ensures HeldMoment(c, i, delta, Held(c, i, delta), t) {
      HeldShows(c, i, delta, t);
    }
  }

  /** The loop of `hold`. */
  method Stretch(c: seq<Block>, cur: nat, now: real, delta: real) returns (blocks: seq<Block>)
    requires Canonical(c) && cur < |c| && Covers(c[cur], now) && delta > 0.0
    ensures blocks == Held(c, cur, delta)
  {
    blocks := c;
    var curEnd := c[cur].end;
    for k := 0 to |blocks|
      invariant |blocks| == |c|
      invariant forall j :: k <= j < |c| ==> blocks[j] == c[j]
      invariant forall j :: 0 <= j < k ==>
                  blocks[j] == if j < cur then c[j] else if j == cur then c[j].(end := c[j].end + delta)
                      else Later(c[j], delta)
    {
      var b := blocks[k];
      Apart(c, k, k);
      if k < cur { Apart(c, k, cur); }
      if cur < k { Apart(c, cur, k); }
      if b.end >= curEnd && Covers(b, now) {
        blocks := blocks[k := b.(end := b.end + delta)];
      } else if b.start >= curEnd {
        blocks := blocks[k := b.(start := b.start + delta, end := b.end + delta)];
      }
    }
    ShiftAt(c[cur + 1..], delta);
  }

  // ---- swap -----------------------------------------------------------------------------------------------

  function Flip(on: Team): Team {
    match on
    case A => B
    case B => A
    case AllHandsOn => AllHandsOn
  }

  function SwapOne(b: Block, now: real): Block { if b.end > now then b.(on := Flip(b.on)) else b }

  function Swapped(blocks: seq<Block>, now: real): seq<Block> {
    if blocks == [] then [] else Swapped(blocks[..|blocks| - 1], now) + [SwapOne(blocks[|blocks| - 1], now)]
  }

  lemma {:induction false} SwappedAt(blocks: seq<Block>, now: real)
    ensures |Swapped(blocks, now)| == |blocks|
    ensures forall i :: 0 <= i < |blocks| ==> Swapped(blocks, now)[i] == SwapOne(blocks[i], now)
  {
    if blocks != [] {
      SwappedAt(blocks[..|blocks| - 1], now);
    }
  }

  method Swap(rows: seq<Option<Block>>, now: real) returns (blocks: seq<Block>)
    ensures blocks == Swapped(Canon(rows), now) && |blocks| == |Canon(rows)|
    ensures forall i :: 0 <= i < |blocks| ==>
              var b := Canon(rows)[i];
              && blocks[i].start == b.start && blocks[i].end == b.end && blocks[i].note == b.note
              && (b.on == AllHandsOn || b.end <= now ==> blocks[i].on == b.on)
              && (b.on == A && b.end > now ==> blocks[i].on == B)
              && (b.on == B && b.end > now ==> blocks[i].on == A)
  {
    blocks := Normalize(rows);
    ghost var c := Canon(rows);
    SwappedAt(c, now);
    for k := 0 to |blocks|
      invariant |blocks| == |c|
      invariant forall j :: k <= j < |c| ==> blocks[j] == c[j]
      invariant forall j :: 0 <= j < k ==> blocks[j] == SwapOne(c[j], now)
    {
      if blocks[k].end > now && blocks[k].on != AllHandsOn {
        blocks := blocks[k := blocks[k].(on := Flip(blocks[k].on))];
      }
    }
  }

  /** At every moment the same block covers; its team is the other one EXACTLY WHEN it had not ended by
      `now` (all hands stay), so from `now` on every watch is the other team's. */
  lemma {:induction false} SwapShows(blocks: seq<Block>, now: real, t: real)
    ensures On(Swapped(blocks, now), t) ==
            match Current(blocks, t)
            case None => None
            case Some(i) => Some(if t >= now || blocks[i].end > now then Flip(blocks[i].on) else blocks[i].on)
  {
    if blocks != [] {
      var p := blocks[..|blocks| - 1];
      SwapShows(p, now, t);
      SwappedAt(p, now);
      assert Swapped(blocks, now)[..|blocks| - 1] == Swapped(p, now);
    }
  }

  lemma {:induction false} SwappedCanonical(c: seq<Block>, now: real)
    requires Canonical(c)
    ensures Canonical(Swapped(c, now))
  {
    if c != [] {
      var n := |c| - 1;
      SwappedCanonical(c[..n], now);
      SwappedAt(c[..n], now);
      assert Swapped(c, now)[..n] == Swapped(c[..n], now);
    }
  }

  lemma SwappedTwice(c: seq<Block>, now: real)
    ensures Swapped(Swapped(c, now), now) == c
  {
    SwappedAt(c, now);
    SwappedAt(Swapped(c, now), now);
    forall i | 0 <= i < |c|
      ensures SwapOne(SwapOne(c[i], now), now) == c[i]
    {
    }
  }

  /** Swapping twice at the same moment undoes it. */
  lemma SwapUndoesItself(rows: seq<Option<Block>>, now: real)
    ensures Canonical(Swapped(Canon(rows), now))
    ensures Swapped(Canon(AsRows(Swapped(Canon(rows), now))), now) == Canon(rows)
  {
    var c := Canon(rows);
    CanonIsCanonical(rows);
    SwappedCanonical(c, now);
    SwappedTwice(c, now);
    CanonOfCanonical(Swapped(c, now));
  }

  // ---- all hands --------------------------------------------------------------------------------------------

  /** What is kept of a block before `now`, and from `end` on. */
  function PieceBefore(b: Block, now: real): seq<Block> {
    if b.end <= now then [b] else if b.start < now then [b.(end := now)] else []
  }

  function PieceAfter(b: Block, end: real): seq<Block> {
    if b.start >= end then [b] else if b.end > end then [b.(start := end)] else []
  }

  function Before(blocks: seq<Block>, now: real): seq<Block> {
    if blocks == [] then [] else Before(blocks[..|blocks| - 1], now) + PieceBefore(blocks[|blocks| - 1], now)
  }

  function After(blocks: seq<Block>, end: real): seq<Block> {
    if blocks == [] then [] else After(blocks[..|blocks| - 1], end) + PieceAfter(blocks[|blocks| - 1], end)
  }

  /** The pieces of one block on either side of a moment. */
  lemma PiecesShow(b: Block, at: real, t: real)
    ensures On(PieceBefore(b, at), t) == if t < at && Covers(b, t) then Some(b.on) else None
    ensures On(PieceAfter(b, at), t) == if t >= at && Covers(b, t) then Some(b.on) else None
  {
  }

  lemma {:induction false} BeforeShows(blocks: seq<Block>, now: real, t: real)
    ensures On(Before(blocks, now), t) == if t < now then On(blocks, t) else None
  {
    if blocks != [] {
      var p, b := blocks[..|blocks| - 1], blocks[|blocks| - 1];
      BeforeShows(p, now, t);
      PiecesShow(b, now, t);
      OnConcat(Before(p, now), PieceBefore(b, now), t);
    }
  }

  lemma {:induction false} AfterShows(blocks: seq<Block>, end: real, t: real)
    ensures On(After(blocks, end), t) == if t >= end then On(blocks, t) else None
  {
    if blocks != [] {
      var p, b := blocks[..|blocks| - 1], blocks[|blocks| - 1];
      AfterShows(p, end, t);
      PiecesShow(b, end, t);
      OnConcat(After(p, end), PieceAfter(b, end), t);
    }
  }

  lemma {:induction false} BeforeCanonical(blocks: seq<Block>, now: real)
    requires Canonical(blocks)
    ensures Canonical(Before(blocks, now))
    ensures Before(blocks, now) != [] ==>
              var last := Before(blocks, now)[|Before(blocks, now)| - 1];
              last.end <= now && blocks != [] && last.end <= blocks[|blocks| - 1].end
  {
    if blocks != [] {
      var p, b := blocks[..|blocks| - 1], blocks[|blocks| - 1];
      BeforeCanonical(p, now);
      if PieceBefore(b, now) != [] {
        Snoc(Before(p, now), PieceBefore(b, now)[0]);
      } else {
        assert Before(blocks, now) == Before(p, now);
      }
    }
  }

  lemma {:induction false} AfterCanonical(blocks: seq<Block>, end: real)
    requires Canonical(blocks)
    ensures Canonical(After(blocks, end))
    ensures After(blocks, end) != [] ==>
              && After(blocks, end)[0].start >= end && blocks != []
              && end < blocks[|blocks| - 1].end == After(blocks, end)[|After(blocks, end)| - 1].end
  {
    if blocks != [] {
      var p, b := blocks[..|blocks| - 1], blocks[|blocks| - 1];
      AfterCanonical(p, end);
      if PieceAfter(b, end) != [] {
        Snoc(After(p, end), PieceAfter(b, end)[0]);
      } else {
        assert After(blocks, end) == After(p, end);
      }
    }
  }

  lemma {:induction false} SortBehind(q: seq<Block>, x: Block)
    requires Sorted(q, Earlier) && forall b :: b in q ==> x.start < b.start
    ensures Sort(q + [x], Earlier) == [x] + q
  {
    if q != [] {
      assert (q + [x])[1..] == q[1..] + [x];
      SortBehind(q[1..], x);
      assert ([x] + q[1..])[1..] == q[1..];
      assert |q| > 1 ==> Earlier(q[0], q[1]);
      assert Insert(q[0], q[1..], Earlier) == [q[0]] + q[1..];
    } else {
      assert q + [x] == [x] && ([x])[1..] == [];
    }
  }

  lemma SortStep(h: Block, tail: seq<Block>)
    ensures Sort([h] + tail, Earlier) == Insert(h, Sort(tail, Earlier), Earlier)
  {
    assert ([h] + tail)[1..] == tail;
  }

  /** Sorting puts the new block between the two parts. */
  lemma {:induction false} SortAround(p: seq<Block>, q: seq<Block>, x: Block)
    requires Sorted(p, Earlier) && Sorted(q, Earlier)
    requires (forall b :: b in p ==> b.start <= x.start) && forall b :: b in q ==> x.start < b.start
    ensures Sort(p + q + [x], Earlier) == p + [x] + q
  {
    if p == [] {
      assert p + q == q && p + [x] + q == [x] + q;
      SortBehind(q, x);
    } else {
      SortAround(p[1..], q, x);
      SortStep(p[0], p[1..] + q + [x]);
      assert p + q + [x] == [p[0]] + (p[1..] + q + [x]);
      FirstStarts(p, q, x);
      InsertFirst(p[0], p[1..] + [x] + q);
      assert p + [x] + q == [p[0]] + (p[1..] + [x] + q);
    }
  }

  lemma FirstStarts(p: seq<Block>, q: seq<Block>, x: Block)
    requires p != [] && Sorted(p, Earlier) && forall b :: b in p ==> b.start <= x.start
    ensures p[0].start <= (p[1..] + [x] + q)[0].start
  {
    assert p[0] in p;
    assert |p| > 1 ==> Earlier(p[0], p[1]) && (p[1..] + [x] + q)[0] == p[1];
    assert |p| == 1 ==> (p[1..] + [x] + q)[0] == x;
  }

  lemma InsertFirst(h: Block, rest: seq<Block>)
    requires rest != [] ==> h.start <= rest[0].start
    ensures Insert(h, rest, Earlier) == [h] + rest
  {
  }

  lemma StartsWithin(c: seq<Block>, now: real, end: real)
    requires Canonical(c) && c != [] && now < end
    ensures c[|c| - 1].end <= now ==> forall b :: b in c ==> b.start <= now
    ensures c[0].start >= end ==> forall b :: b in c ==> now < b.start
  {
    forall i | 0 <= i < |c|
      ensures c[0].start <= c[i].start < c[|c| - 1].end
    {
      Apart(c, 0, i);
      Apart(c, i, |c| - 1);
    }
  }

  function WithAllHands(blocks: seq<Block>, now: real, end: real): seq<Block> {
    Before(blocks, now) + [Block(now, end, AllHandsOn, None)] + After(blocks, end)
  }

  lemma AllHandsCanonical(blocks: seq<Block>, now: real, end: real)
    requires Canonical(blocks) && now < end
    ensures Canonical(WithAllHands(blocks, now, end))
    ensures Sort(Before(blocks, now) + After(blocks, end) + [Block(now, end, AllHandsOn, None)], Earlier) ==
            WithAllHands(blocks, now, end)
  {
    var p, q, x := Before(blocks, now), After(blocks, end), Block(now, end, AllHandsOn, None);
    BeforeCanonical(blocks, now);
    AfterCanonical(blocks, end);
    JoinCanonical(p, x, q);
    CanonicalSorted(p);
    CanonicalSorted(q);
    if p != [] { StartsWithin(p, now, end); }
    if q != [] { StartsWithin(q, now, end); }
    SortAround(p, q, x);
  }

  /** Everyone is on during [now, end); at every other moment the plan is what it was. */
  lemma AllHandsShows(blocks: seq<Block>, now: real, end: real, t: real)
    requires now < end
    ensures On(WithAllHands(blocks, now, end), t) == if now <= t < end then Some(AllHandsOn) else On(blocks, t)
  {
    var x := Block(now, end, AllHandsOn, None);
    OnConcat(Before(blocks, now) + [x], After(blocks, end), t);
    OnConcat(Before(blocks, now), [x], t);
    BeforeShows(blocks, now, t);
    AfterShows(blocks, end, t);
  }

  method AllHands(rows: seq<Option<Block>>, now: real, minutes: real) returns (blocks: seq<Block>)
    ensures minutes <= 0.0 ==> blocks == Canon(rows)
    ensures Canonical(blocks)
    // the block called for, and pieces of the plan with their teams and notes
    ensures minutes > 0.0 ==>
              var end := now + minutes * 60.0;
              && Block(now, end, AllHandsOn, None) in blocks
              && (forall x :: x in blocks ==>
                  x == Block(now, end, AllHandsOn, None) || exists b :: b in Canon(rows) && PieceOf(x, b, now, end))
              && forall t :: On(blocks, t) == if now <= t < end then Some(AllHandsOn) else On(Canon(rows), t)
  {
    blocks := Normalize(rows);
    CanonIsCanonical(rows);
    if minutes * 60.0 <= 0.0 { return; }
    blocks := CallAllHands(blocks, now, now + minutes * 60.0);
  }

  method CallAllHands(c: seq<Block>, now: real, end: real) returns (blocks: seq<Block>)
    requires Canonical(c) && now < end
    ensures Canonical(blocks) && Block(now, end, AllHandsOn, None) in blocks
    ensures forall x :: x in blocks ==>
              x == Block(now, end, AllHandsOn, None) || exists b :: b in c && PieceOf(x, b, now, end)
    ensures forall t :: On(blocks, t) == if now <= t < end then Some(AllHandsOn) else On(c, t)
  {
    var kept := KeepAround(c, now, end);
    AllHandsCanonical(c, now, end);
    blocks := Sort(kept + [Block(now, end, AllHandsOn, None)], Earlier);
    forall t ensures On(blocks, t) == if now <= t < end then Some(AllHandsOn) else On(c, t) {
      AllHandsShows(c, now, end, t);
    }
    PiecesOf(c, now, end);
    assert blocks == Before(c, now) + [Block(now, end, AllHandsOn, None)] + After(c, end);
    assert forall x :: x in blocks ==> x == Block(now, end, AllHandsOn, None) || x in Before(c, now) + After(c, end);
    assert blocks[|Before(c, now)|] == Block(now, end, AllHandsOn, None);
  }

  /** A block, or its part on one side of [now, end). */
  predicate PieceOf(x: Block, b: Block, now: real, end: real) {
    && x.on == b.on && x.note == b.note
    && (x.start == b.start || x.start == end) && (x.end == b.end || x.end == now)
    && (x.end <= now || end <= x.start)
  }

  lemma {:induction false} PiecesOf(c: seq<Block>, now: real, end: real)
    ensures forall x :: x in Before(c, now) + After(c, end) ==> exists b :: b in c && PieceOf(x, b, now, end)
  {
    if c != [] {
      var n := |c| - 1;
      PiecesOf(c[..n], now, end);
      assert c == c[..n] + [c[n]];
      assert forall x :: x in PieceBefore(c[n], now) + PieceAfter(c[n], end) ==> PieceOf(x, c[n], now, end);
      forall x | x in Before(c, now) + After(c, end)
        ensures exists b :: b in c && PieceOf(x, b, now, end)
      {
        if x in PieceBefore(c[n], now) + PieceAfter(c[n], end) {
          assert c[n] in c;
        } else {
          assert x in Before(c[..n], now) + After(c[..n], end);
        }
      }
    }
  }

  /** Once something is kept after `end`, nothing more is kept before `now`. */
  lemma PiecesApart(blocks: seq<Block>, i: nat, now: real, end: real)
    requires Canonical(blocks) && i < |blocks| && now < end
    ensures After(blocks[..i], end) == [] || PieceBefore(blocks[i], now) == []
  {
    TakeCanonical(blocks, i);
    AfterCanonical(blocks[..i], end);
    Apart(blocks, i, i);
    if i > 0 { Apart(blocks, i - 1, i); }
  }

  /** The loop of `all_hands`: what lies outside [now, end). */
  method KeepAround(blocks: seq<Block>, now: real, end: real) returns (kept: seq<Block>)
    requires Canonical(blocks) && now < end
    ensures kept == Before(blocks, now) + After(blocks, end)
  {
    kept := [];
    for i := 0 to |blocks|
      invariant kept == Before(blocks[..i], now) + After(blocks[..i], end)
    {
      assert blocks[..i + 1][..i] == blocks[..i];
      PiecesApart(blocks, i, now, end);
      Apart(blocks, i, i);
      var pieces := KeepPieces(blocks[i], now, end);
      Regroup(Before(blocks[..i], now), After(blocks[..i], end), PieceBefore(blocks[i], now),
              PieceAfter(blocks[i], end));
      kept := kept + pieces;
    }
    assert blocks[..|blocks|] == blocks;
  }

  method KeepPieces(b: Block, now: real, end: real) returns (pieces: seq<Block>)
    requires b.start < b.end && now < end
    ensures pieces == PieceBefore(b, now) + PieceAfter(b, end)
  {
    if b.end <= now || b.start >= end {
      return [b];
    }
    pieces := [];
    if b.start < now {
      pieces := pieces + [b.(end := now)];
    }
    if b.end > end {
      pieces := pieces + [b.(start := end)];
    }
  }

  lemma Regroup(p: seq<Block>, q: seq<Block>, r: seq<Block>, s: seq<Block>)
    requires q == [] || r == []
    ensures p + q + (r + s) == (p + r) + (q + s)
  {
    assert q == [] ==> p + q == p && q + s == s;
    assert r == [] ==> r + s == s && p + r == p;
  }

  // ---- generate -----------------------------------------------------------------------------------------------

  /** A preset by name, or a list of block lengths in hours; a length that does not parse is None. */
  datatype Pattern = Named(name: string) | Listed(hours: seq<Option<real>>)

  function Preset(name: string): seq<real> {
    match name
    case "4on4off" => [4.0]
    case "3on3off" => [3.0]
    case "6on6off" => [6.0]
    case "swedish" => [4.0, 4.0, 4.0, 6.0, 6.0]
    case _ => []
  }

  function Positive(hours: seq<Option<real>>): (r: seq<real>)
    ensures forall i :: 0 <= i < |r| ==> r[i] > 0.0
  {
    if hours == [] then []
    else (if hours[0].Some? && hours[0].value > 0.0 then [hours[0].value] else []) + Positive(hours[1..])
  }

  function Hours(pattern: Pattern): (r: seq<real>)
    ensures forall i :: 0 <= i < |r| ==> r[i] > 0.0
  {
    match pattern case Named(name) => Preset(name) case Listed(hours) => Positive(hours)
  }

  function Smallest(hours: seq<real>): (m: real)
    requires hours != [] && forall i :: 0 <= i < |hours| ==> hours[i] > 0.0
    ensures 0.0 < m && forall i :: 0 <= i < |hours| ==> m <= hours[i]
  {
    var n := |hours| - 1;
    if n == 0 then hours[0]
    else
      var m := Smallest(hours[..n]);
      if hours[n] <= m then hours[n] else m
  }

  /** The lengths that parse and are above zero, in their order: one more length adds itself or nothing. */
  lemma {:induction false} PositiveSnoc(hours: seq<Option<real>>, h: Option<real>)
    ensures Positive([]) == []
    ensures Positive(hours + [h]) == if h.Some? && h.value > 0.0 then Positive(hours) + [h.value] else Positive(hours)
  {
    if hours == [] {
      assert hours + [h] == [h] && [h][1..] == [];
    } else {
      PositiveSnoc(hours[1..], h);
      assert (hours + [h])[1..] == hours[1..] + [h];
    }
  }

  /** The length of block `i`: the pattern is cycled. */
  function Length(hours: seq<real>, i: nat): (h: real)
    requires hours != []
    ensures h in hours
  {
    hours[i % |hours|]
  }

  /** Back to back from `anchor` to `at`, the teams alternating, each block as long as the pattern says but
      the last, which may be cut short. */
  ghost predicate Tiles(blocks: seq<Block>, anchor: real, at: real, stop: real, hours: seq<real>, first: Team)
    requires hours != []
  {
    && (blocks == [] ==> at == anchor)
    && (blocks != [] ==> blocks[0].start == anchor && blocks[|blocks| - 1].end == at)
    && (forall i :: 0 <= i < |blocks| ==> blocks[i].on == if (first == B) == (i % 2 == 0) then B else A)
    && (forall i :: 0 <= i < |blocks| ==> blocks[i].note == None)
    && (forall i :: 0 <= i < |blocks| ==>
        blocks[i].start < blocks[i].end <= blocks[i].start + hours[i % |hours|] * 3600.0)
    && (forall i :: 0 <= i < |blocks| && blocks[i].end != stop ==>
          blocks[i].end == blocks[i].start + hours[i % |hours|] * 3600.0)
    && (forall i, j :: 0 <= i < |blocks| && j == i + 1 < |blocks| ==> blocks[i].end == blocks[j].start)
  }

  /** How far `n` steps reach. */
  ghost function Reach(n: nat, step: real): real { if n == 0 then 0.0 else Reach(n - 1, step) + step }

  lemma {:induction false} ReachIs(n: nat, step: real)
    ensures Reach(n, step) == n as real * step
  {
    if n > 0 {
      ReachIs(n - 1, step);
      assert n as real * step == (n - 1) as real * step + step;
    }
  }

  lemma RoundedUp(span: real, step: real) returns (left: nat)
    requires step > 0.0 && span > 0.0
    ensures span <= left as real * step
  {
    left := (span / step).Floor + 1;
    var spare := left as real - span / step;
    assert spare * step >= 0.0;
    assert spare * step == left as real * step - span / step * step;
  }

  /** Some number of smallest steps covers any span. */
  lemma EnoughSteps(span: real, step: real) returns (left: nat)
    requires step > 0.0 && span > 0.0
    ensures span <= Reach(left, step)
  {
    left := RoundedUp(span, step);
    ReachIs(left, step);
  }

  /** A turn that takes a whole step, or all that is left, leaves one step fewer to take. */
  lemma OneStepFewer(span: real, step: real, left: nat, taken: real)
    requires step > 0.0 && 0.0 < span <= Reach(left, step) && (taken >= step || taken == span)
    ensures 0 < left && span - taken <= Reach(left - 1, step)
  {
    ReachIs(left - 1, step);
    assert (left - 1) as real * step >= 0.0;
  }

  /** Alternating blocks from `anchor` until `totalHours` are covered; the last one is clipped. */
  method Generate(anchor: Option<real>, totalHours: Option<real>, pattern: Pattern, first: Team)
    returns (blocks: seq<Block>)
    ensures blocks == [] <==> Hours(pattern) == [] || anchor.None? || totalHours.None? || totalHours.value <= 0.0
    ensures blocks != [] ==>
              var stop := anchor.value + totalHours.value * 3600.0;
              Tiles(blocks, anchor.value, stop, stop, Hours(pattern), first)
  {
    var hours := Hours(pattern);
    if hours == [] || anchor.None? || totalHours.None? || totalHours.value <= 0.0 { return []; }
    blocks := Tile(anchor.value, anchor.value + totalHours.value * 3600.0, hours, first);
  }

  /** The loop of `generate`: each turn takes a whole step of the pattern, or all that is left. */
  method Tile(anchor: real, stop: real, hours: seq<real>, first: Team) returns (blocks: seq<Block>)
    requires anchor < stop && hours != []
    requires forall i :: 0 <= i < |hours| ==> hours[i] > 0.0
    ensures blocks != [] && Tiles(blocks, anchor, stop, stop, hours, first)
  {
    blocks := [];
    var t, on := anchor, if first == B then B else A;
    ghost var left: nat := EnoughSteps(stop - t, Smallest(hours) * 3600.0);
    while t < stop
      invariant t <= stop && (blocks == [] ==> t < stop)
      invariant on == if (first == B) == (|blocks| % 2 == 0) then B else A
      invariant Tiles(blocks, anchor, t, stop, hours, first)
      invariant stop - t <= Reach(left, Smallest(hours) * 3600.0)
      decreases left
    {
      var end := NextEnd(t, Length(hours, |blocks|), stop);
      OneTurn(blocks, anchor, t, stop, hours, first, end, on, left);
      blocks := blocks + [Block(t, end, on, None)];
      t, on, left := end, if on == A then B else A, left - 1;
    }
  }

  /** The end of a block of `h` hours that starts at `t`, but not past `stop`. */
  function NextEnd(t: real, h: real, stop: real): (end: real)
    requires t < stop && h > 0.0
    ensures t < end <= stop && end <= t + h * 3600.0 && (end == stop || end == t + h * 3600.0)
  {
    if t + h * 3600.0 < stop then t + h * 3600.0 else stop
  }

  lemma OneTurn(blocks: seq<Block>, anchor: real, t: real, stop: real, hours: seq<real>, first: Team,
                end: real, on: Team, left: nat)
    requires hours != [] && Tiles(blocks, anchor, t, stop, hours, first) && t < stop
    requires on == if (first == B) == (|blocks| % 2 == 0) then B else A
    requires forall i :: 0 <= i < |hours| ==> hours[i] > 0.0
    requires end == NextEnd(t, Length(hours, |blocks|), stop)
    requires stop - t <= Reach(left, Smallest(hours) * 3600.0)
    ensures t < end <= stop && Tiles(blocks + [Block(t, end, on, None)], anchor, end, stop, hours, first)
    ensures left > 0 && stop - end <= Reach(left - 1, Smallest(hours) * 3600.0)
    ensures (if on == A then B else A) == if (first == B) == ((|blocks| + 1) % 2 == 0) then B else A
  {
    OneStepFewer(stop - t, Smallest(hours) * 3600.0, left, end - t);
    TilesGrow(blocks, anchor, t, stop, hours, first, end, on);
  }

  lemma TilesGrow(blocks: seq<Block>, anchor: real, t: real, stop: real, hours: seq<real>, first: Team,
                  end: real, on: Team)
    requires hours != [] && Tiles(blocks, anchor, t, stop, hours, first) && t < stop
    requires on == if (first == B) == (|blocks| % 2 == 0) then B else A
    requires Length(hours, |blocks|) > 0.0 && end == NextEnd(t, Length(hours, |blocks|), stop)
    ensures Tiles(blocks + [Block(t, end, on, None)], anchor, end, stop, hours, first)
  {
    var r := blocks + [Block(t, end, on, None)];
    assert forall i :: 0 <= i < |blocks| ==> r[i] == blocks[i];
  }

  /** The lengths of the named patterns, in seconds; block `i + 5` of the Swedish one starts a day after block
      `i`, with the other team. */
  lemma PresetBlocks(blocks: seq<Block>, anchor: real, stop: real, name: string, first: Team, i: nat)
    requires Preset(name) != [] && Tiles(blocks, anchor, stop, stop, Preset(name), first)
    requires i < |blocks| && blocks[i].end != stop
    ensures name == "4on4off" ==> blocks[i].end == blocks[i].start + 14400.0
    ensures name == "3on3off" ==> blocks[i].end == blocks[i].start + 10800.0
    ensures name == "6on6off" ==> blocks[i].end == blocks[i].start + 21600.0
    ensures name == "swedish" ==> blocks[i].end == blocks[i].start + if i % 5 < 3 then 14400.0 else 21600.0
    ensures name in ["4on4off", "3on3off", "6on6off", "swedish"]
  {
  }

  lemma SwedishStep(blocks: seq<Block>, anchor: real, stop: real, first: Team, i: nat)
    requires Tiles(blocks, anchor, stop, stop, Preset("swedish"), first)
    requires i + 1 < |blocks| && blocks[i].end != stop
    ensures blocks[i + 1].start == blocks[i].start + if i % 5 < 3 then 14400.0 else 21600.0
  {
    PresetBlocks(blocks, anchor, stop, "swedish", first, i);
  }

  lemma InCycle(i: nat, n: nat)
    ensures (i % 5 + n) % 5 == (i + n) % 5
  {
    assert i + n == 5 * (i / 5) + (i % 5 + n);
    Whole(i / 5, i % 5 + n);
  }

  lemma {:induction false} Whole(turns: nat, k: nat)
    ensures (5 * turns + k) % 5 == k % 5
  {
    if turns > 0 {
      Whole(turns - 1, k);
      assert 5 * turns + k == 5 * (turns - 1) + k + 5;
    }
  }

  lemma {:induction false} SwedishNext(blocks: seq<Block>, anchor: real, stop: real, first: Team, i: nat, n: nat)
    requires Tiles(blocks, anchor, stop, stop, Preset("swedish"), first) && n <= 5
    requires i + n < |blocks| && forall j :: i <= j < i + 5 ==> j < |blocks| && blocks[j].end != stop
    ensures blocks[i + n].start == blocks[i].start + SwedishReach(i % 5, n)
    decreases n
  {
    if n > 0 {
      var k := i + n - 1;
      SwedishNext(blocks, anchor, stop, first, i, n - 1);
      SwedishStep(blocks, anchor, stop, first, k);
      InCycle(i, n - 1);
    }
  }

  /** How far the first `n` of its blocks from place `k` of the cycle reach. */
  function SwedishReach(k: nat, n: nat): real {
    if n == 0 then 0.0 else SwedishReach(k, n - 1) + if (k + n - 1) % 5 < 3 then 14400.0 else 21600.0
  }

  lemma SwedishCycle(k: nat)
    requires k < 5
    ensures SwedishReach(k, 5) == 86400.0
  {
    assert SwedishReach(k, 1) == if k < 3 then 14400.0 else 21600.0;
    assert SwedishReach(k, 2) == SwedishReach(k, 1) + if k < 2 || k == 4 then 14400.0 else 21600.0;
    assert SwedishReach(k, 3) == SwedishReach(k, 2) + if k < 1 || k > 2 then 14400.0 else 21600.0;
    assert SwedishReach(k, 4) == SwedishReach(k, 3) + if k > 1 then 14400.0 else 21600.0;
  }

  lemma SwedishDay(blocks: seq<Block>, anchor: real, stop: real, first: Team, i: nat)
    requires Tiles(blocks, anchor, stop, stop, Preset("swedish"), first)
    requires i + 5 < |blocks| && forall j :: i <= j < i + 5 ==> blocks[j].end != stop
    ensures blocks[i + 5].start == blocks[i].start + 86400.0
    ensures blocks[i + 5].on != blocks[i].on
  {
    SwedishNext(blocks, anchor, stop, first, i, 5);
    SwedishCycle(i % 5);
  }

  /** A generated plan is canonical, and somebody is on at exactly the moments of [anchor, at). */
  lemma TilesCover(blocks: seq<Block>, anchor: real, at: real, stop: real, hours: seq<real>, first: Team, t: real)
    requires hours != [] && Tiles(blocks, anchor, at, stop, hours, first)
    ensures Canonical(blocks)
    ensures On(blocks, t).Some? <==> anchor <= t < at
  {
    if blocks != [] {
      OnTiles(blocks, |blocks|, t);
      assert blocks[..|blocks|] == blocks;
    }
  }

  lemma {:induction false} OnTiles(blocks: seq<Block>, n: nat, t: real)
    requires 0 < n <= |blocks| && forall i :: 0 <= i < |blocks| ==> blocks[i].start < blocks[i].end
    requires forall i, j :: 0 <= i < |blocks| && j == i + 1 < |blocks| ==> blocks[i].end == blocks[j].start
    ensures Canonical(blocks[..n]) && blocks[0].start < blocks[n - 1].end
    ensures On(blocks[..n], t).Some? <==> blocks[0].start <= t < blocks[n - 1].end
  {
    var c, k := blocks[..n], n - 2;
    assert c[n - 1] == blocks[n - 1] && c[..n - 1] == blocks[..n - 1];
    if n > 1 {
      OnTiles(blocks, n - 1, t);
      assert c[k] == blocks[k] && blocks[k].end == blocks[n - 1].start;
    }
  }
}
