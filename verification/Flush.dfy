/** The recorder's write path: what happens to a row between its arrival and the disk.

    A row is named by its arrival number. The reader, the pruner and the background check run whenever
    the flusher waits, so every wait may add rows, trim the buffer or ask for a rotation. */
module Flush {
  import opened Options

  type Row = nat

  ghost predicate Increasing(rows: seq<Row>) {
    forall i, j :: 0 <= i < j < |rows| ==> rows[i] < rows[j]
  }

  /** Rows in arrival order, none twice, all among the first `received`. */
  ghost predicate InOrder(rows: seq<Row>, received: nat) {
    Increasing(rows) && forall i :: 0 <= i < |rows| ==> rows[i] < received
  }

  lemma DropMiddle(rows: seq<Row>, received: nat, n: nat, m: nat)
    requires InOrder(rows, received) && n <= m <= |rows|
    ensures InOrder(rows[..n] + rows[m..], received)
  {
  }

  lemma Arrive(rows: seq<Row>, received: nat, more: seq<Row>)
    requires InOrder(rows, received) && forall i :: 0 <= i < |more| ==> more[i] == received + i
    ensures InOrder(rows + more, received + |more|)
  {
  }

  /** Everything committed, file after file. */
  function Flat(files: seq<seq<Row>>): seq<Row> {
    if files == [] then [] else Flat(files[..|files| - 1]) + files[|files| - 1]
  }

  lemma FlatAppend(files: seq<seq<Row>>, rows: seq<Row>)
    requires files != []
    ensures Flat(files[|files| - 1 := files[|files| - 1] + rows]) == Flat(files) + rows
  {
    var more := files[|files| - 1 := files[|files| - 1] + rows];
    assert more[..|more| - 1] == files[..|files| - 1];
  }

  lemma FlatFresh(files: seq<seq<Row>>)
    ensures Flat(files + [[]]) == Flat(files)
  {
    assert (files + [[]])[..|files|] == files;
  }

  /** Earlier files keep what they have; the last one may grow and new ones may follow. */
  ghost predicate FilesGrow(was: seq<seq<Row>>, now: seq<seq<Row>>) {
    |was| <= |now| && forall i :: 0 <= i < |was| ==> was[i] <= now[i]
  }

  lemma GrowTransitive(a: seq<seq<Row>>, b: seq<seq<Row>>, c: seq<seq<Row>>)
    requires FilesGrow(a, b) && FilesGrow(b, c)
    ensures FilesGrow(a, c)
  {
    forall i | 0 <= i < |a|
      ensures a[i] <= c[i]
    {
      assert a[i] <= b[i] && b[i] <= c[i];
    }
  }

  function Good(rows: seq<Row>, bad: Row -> bool): seq<Row> {
    if rows == [] then [] else (if bad(rows[0]) then [] else [rows[0]]) + Good(rows[1..], bad)
  }

  function Bad(rows: seq<Row>, bad: Row -> bool): seq<Row> {
    if rows == [] then [] else (if bad(rows[0]) then [rows[0]] else []) + Bad(rows[1..], bad)
  }

  /** Dropping the unwritable rows keeps the order of the rest, between what came before and after. */
  lemma {:induction false} GoodKeepsOrder(before: seq<Row>, rows: seq<Row>, after: seq<Row>, received: nat,
                                          bad: Row -> bool)
    requires InOrder(before + rows + after, received)
    ensures InOrder(before + Good(rows, bad) + after, received)
    decreases |rows|
  {
    if rows != [] {
      var head, rest := rows[0], rows[1..];
      assert rows == [head] + rest;
      if bad(head) {
        var whole := before + rows + after;
        DropMiddle(whole, received, |before|, |before| + 1);
        assert before + rest + after == whole[..|before|] + whole[|before| + 1..];
        GoodKeepsOrder(before, rest, after, received, bad);
        assert Good(rows, bad) == Good(rest, bad);
      } else {
        assert before + rows + after == (before + [head]) + rest + after;
        GoodKeepsOrder(before + [head], rest, after, received, bad);
        assert before + Good(rows, bad) + after == (before + [head]) + Good(rest, bad) + after;
      }
    }
  }

  lemma {:induction false} InFlat(files: seq<seq<Row>>, f: nat, x: Row)
    requires f < |files| && x in files[f]
    ensures x in Flat(files)
    decreases |files|
  {
    if f < |files| - 1 {
      InFlat(files[..|files| - 1], f, x);
    }
  }

  /** Commits follow arrival order across files, too. */
  lemma {:induction false} EarlierFileEarlierRows(files: seq<seq<Row>>, f: nat, g: nat, x: Row, y: Row)
    requires Increasing(Flat(files)) && f < g < |files| && x in files[f] && y in files[g]
    ensures x < y
    decreases |files|
  {
    var first, last := files[..|files| - 1], files[|files| - 1];
    var all := Flat(files);
    if g < |files| - 1 {
      assert forall i :: 0 <= i < |Flat(first)| ==> Flat(first)[i] == all[i];
      EarlierFileEarlierRows(first, f, g, x, y);
    } else {
      InFlat(first, f, x);
      var i :| 0 <= i < |Flat(first)| && Flat(first)[i] == x;
      var j :| 0 <= j < |last| && last[j] == y;
      assert all[i] == x && all[|Flat(first)| + j] == y;
    }
  }

  lemma {:induction false} GoodOrBad(rows: seq<Row>, bad: Row -> bool)
    ensures |Good(rows, bad)| + |Bad(rows, bad)| == |rows|
    ensures forall r :: r in Good(rows, bad) <==> r in rows && !bad(r)
    ensures forall r :: r in Bad(rows, bad) <==> r in rows && bad(r)
  {
    if rows != [] {
      assert rows == [rows[0]] + rows[1..];
      GoodOrBad(rows[1..], bad);
    }
  }

  /** What waits now was waiting before, or arrived since the count stood at `floor`. */
  ghost predicate NewOnly(was: seq<Row>, floor: nat, now: seq<Row>) {
    forall r :: r in now ==> r in was || r >= floor
  }

  datatype WriteResult = Committed | RowError | Corruption | OtherError
  datatype RecoverResult = Ready | BusyFile | NotYet
  datatype Turn = Wrote | GaveUp | Again

  class Recorder {
    const limit: int                    // MAX_BUFFER_ROWS
    const bad: Row -> bool              // rows whose values cannot be bound
    var buf: seq<Row>
    var files: seq<seq<Row>>            // rows committed to each archive file; the last one is live
    var rotatePending: bool
    var connected: bool
    var total: nat
    var bufferDropped: nat
    var badDropped: nat
    var guardDropped: nat
    var received: nat                   // numbers the rows; the code keeps no such count
    ghost var inFlight: seq<Row>        // the batch the flusher has taken out of the buffer
    ghost var unwritable: seq<Row>      // rows counted in badDropped
    ghost var tried: seq<RecoverResult> // every rotation tried, and how it went

    ghost predicate Valid()
      reads this
    {
      && files != []
      && InOrder(Flat(files) + inFlight + buf, received)
      && received == |Flat(files)| + |inFlight| + |buf| + bufferDropped + guardDropped + badDropped
      && total == |Flat(files)|
      && (forall r :: r in Flat(files) ==> !bad(r))
      && badDropped == |unwritable| && (forall r :: r in unwritable ==> bad(r))
    }

    constructor (limit: int, bad: Row -> bool)
      ensures Valid() && inFlight == [] && received == 0 && this.limit == limit && this.bad == bad
    {
      this.limit, this.bad := limit, bad;
      buf, files, rotatePending, connected := [], [[]], false, true;
      total, bufferDropped, badDropped, guardDropped := 0, 0, 0, 0;
      received, inFlight, unwritable, tried := 0, [], [], [];
      new;
      EmptyFlat();
    }

    /** The counts only grow, and the cap drops nothing while what waited and what has come since fit it. */
    twostate predicate Counted()
      reads this
    {
      && old(received) <= received && old(total) <= total
      && old(badDropped) <= badDropped && old(bufferDropped) <= bufferDropped
      && (limit <= 0 || old(|inFlight| + |buf|) + received - old(received) <= limit ==>
            bufferDropped == old(bufferDropped))
    }

    /** The newest rows up to the cap; a cap of zero or less is no cap. */
    function Newest(rows: seq<Row>): seq<Row> {
      if 0 < limit < |rows| then rows[|rows| - limit..] else rows
    }

    /** By arrival numbers: as many rows as a positive limit allows stay, in order, and every row that is gone
        arrived before every row that stays. */
    ghost predicate KeptNewest(was: seq<Row>, now: seq<Row>)
      reads this
    {
      && |now| == (if 0 < limit < |was| then limit else |was|)
      && Increasing(now) && (forall q :: q in now ==> q in was)
      && (forall r, q :: r in was && r !in now && q in now ==> r < q)
    }

    lemma NewestKeeps(was: seq<Row>)
      requires Increasing(was)
      ensures KeptNewest(was, Newest(was))
    {
      var now := Newest(was);
      var n := |was| - |now|;
      assert forall i :: 0 <= i < |now| ==> now[i] == was[n + i];
      forall k | n <= k < |was|
        ensures was[k] in now
      {
        assert now[k - n] == was[k];
      }
      forall r, q | r in was && r !in now && q in now
        ensures r < q
      {
        var i :| 0 <= i < |was| && was[i] == r;
        var j :| 0 <= j < |now| && now[j] == q;
        assert i < n;
      }
    }

    lemma WaitingInOrder()
      requires Valid()
      ensures Increasing(inFlight + buf) && Increasing(buf)
    {
      var all := Flat(files) + inFlight + buf;
      var n := |Flat(files)|;
      assert forall i :: 0 <= i < |inFlight + buf| ==> (inFlight + buf)[i] == all[n + i];
      assert forall i :: 0 <= i < |buf| ==> buf[i] == all[n + |inFlight| + i];
    }

    /** Drop the oldest rows past the cap, counting them. */
    method CapBuffer()
      requires Valid()
      modifies this`buf, this`bufferDropped
      ensures Valid()
      ensures buf == Newest(old(buf)) && KeptNewest(old(buf), buf) && Counted()
      ensures bufferDropped == old(bufferDropped) + |old(buf)| - |buf|
    {
      WaitingInOrder();
      NewestKeeps(buf);
      var over := |buf| - limit;
      if limit <= 0 || over <= 0 {
        return;
      }
      ghost var all := Flat(files) + inFlight + buf;
      ghost var n := |Flat(files) + inFlight|;
      buf := buf[over..];
      bufferDropped := bufferDropped + over;
      DropMiddle(all, received, n, n + over);
      assert Flat(files) + inFlight + buf == all[..n] + all[n + over..];
    }

    /** The reader: the rows of one delta, then the cap. */
    method Deliver(n: nat)
      requires Valid()
      modifies this`buf, this`bufferDropped, this`received
      ensures Valid() && received == old(received) + n && Counted()
      ensures NewOnly(old(buf), old(received), buf)
      // the newest of what waited and what came
      ensures exists rows: seq<Row> :: |rows| == n && (forall i :: 0 <= i < n ==> rows[i] == old(received) + i)
                                       && KeptNewest(old(buf) + rows, buf)
    {
      ghost var rows := Arrived(n);
      WaitingInOrder();
      NewestKeeps(buf);
      ghost var waiting := buf;
      if |buf| > limit {
        CapBuffer();
      }
      assert KeptNewest(waiting, buf);
    }

    method Arrived(n: nat) returns (ghost rows: seq<Row>)
      requires Valid()
      modifies this`buf, this`received
      ensures Valid() && received == old(received) + n && buf == old(buf) + rows
      ensures |rows| == n && forall i :: 0 <= i < n ==> rows[i] == old(received) + i
    {
      ghost var all := Flat(files) + inFlight + buf;
      var first := received;
      var came := seq(n, i requires 0 <= i < n => first + i);
      rows := came;
      Arrive(all, received, rows);
      buf := buf + came;
      received := received + n;
      assert Flat(files) + inFlight + buf == all + rows;
    }

    lemma EmptyFlat()
      ensures Flat([[]]) == []
    {
      var files: seq<seq<Row>> := [[]];
      assert files[..0] == [];
    }

    /** Any wait: deltas arrive, and the pruner or a check may find the file corrupt. */
    method Wait()
      requires Valid()
      modifies this`buf, this`bufferDropped, this`received, this`rotatePending
      ensures Valid() && Counted() && (old(rotatePending) ==> rotatePending)
      ensures NewOnly(old(buf), old(received), buf) && (old(buf) != [] ==> buf != [])
    {
      var deltas :| 0 <= deltas;
      for i := 0 to deltas
        invariant Valid() && Counted() && (old(rotatePending) ==> rotatePending)
        invariant NewOnly(old(buf), old(received), buf) && (old(buf) != [] ==> buf != [])
      {
        Turnover();
      }
    }

    method Turnover()
      requires Valid()
      modifies this`buf, this`bufferDropped, this`received, this`rotatePending
      ensures Valid() && Counted() && (old(rotatePending) ==> rotatePending)
      ensures NewOnly(old(buf), old(received), buf) && (old(buf) != [] ==> buf != [])
    {
      var n :| 0 <= n;
      Deliver(n);
      if * {
        rotatePending := true;
      }
    }

    /** Take the whole buffer. */
    method Take() returns (rows: seq<Row>)
      requires Valid() && inFlight == []
      modifies this`buf, this`inFlight
      ensures Valid() && rows == inFlight == old(buf) && buf == []
    {
      rows := buf;
      buf, inFlight := [], rows;
      assert Flat(files) + inFlight + buf == Flat(files) + [] + old(buf);
    }

    /** Put the batch back at the FRONT. */
    method PutBack(rows: seq<Row>)
      requires Valid() && inFlight == rows
      modifies this`buf, this`inFlight
      ensures Valid() && inFlight == [] && buf == rows + old(buf)
    {
      ghost var all := Flat(files) + inFlight + buf;
      buf := rows + buf;
      inFlight := [];
      assert Flat(files) + inFlight + buf == all;
    }

    /** One transaction, all or nothing: a failed one leaves no row behind. `corrupt`: the file is. */
    method WriteRows(rows: seq<Row>, calm: bool, corrupt: bool) returns (result: WriteResult)
      requires Valid() && inFlight == rows
      modifies this
      ensures Valid() && FilesGrow(old(files), files) && |files| == |old(files)|
      ensures result.Committed? ==> inFlight == [] && total == old(total) + |rows|
                                    && files[|files| - 1] == old(files)[|files| - 1] + rows
      ensures !result.Committed? ==> inFlight == rows && files == old(files)
      ensures result.RowError? ==> exists r :: r in rows && bad(r)
      ensures calm && !corrupt ==> result.Committed? || result.RowError?
      ensures corrupt ==> result.Corruption?
      ensures Counted() && guardDropped == old(guardDropped) && NewOnly(old(buf), old(received), buf)
      ensures tried == old(tried)
    {
      Wait();
      var fault: Option<WriteResult> := *;
      if corrupt || (!calm && fault == Some(Corruption)) {
        result := Corruption;
      } else if !calm && fault.Some? {
        result := OtherError;
      } else if r :| r in rows && bad(r) {
        result := RowError;
      } else {
        Commit(rows, []);
        result := Committed;
      }
    }

    /** The committed rows go to the end of the live file; `dropped` are counted as unwritable. */
    method Commit(kept: seq<Row>, dropped: seq<Row>)
      requires Valid() && |kept| + |dropped| == |inFlight|
      requires InOrder(Flat(files) + kept + buf, received) && forall r :: r in kept ==> !bad(r)
      requires forall r :: r in dropped ==> bad(r)
      modifies this`files, this`inFlight, this`total, this`badDropped, this`unwritable
      ensures Valid() && inFlight == [] && total == old(total) + |kept|
      ensures badDropped == old(badDropped) + |dropped|
      ensures FilesGrow(old(files), files) && |files| == |old(files)|
      ensures files[|files| - 1] == old(files)[|files| - 1] + kept
    {
      FlatAppend(files, kept);
      assert Flat(files) + kept + [] + buf == Flat(files) + kept + buf;
      files := files[|files| - 1 := files[|files| - 1] + kept];
      inFlight := [];
      total := total + |kept|;
      badDropped := badDropped + |dropped|;
      unwritable := unwritable + dropped;
    }

    /** Row by row in one transaction: only the rows that cannot be bound are left out. */
    method WriteRowsEach(rows: seq<Row>, calm: bool) returns (result: WriteResult, dropped: nat)
      requires Valid() && inFlight == rows
      modifies this
      ensures Valid() && FilesGrow(old(files), files) && |files| == |old(files)|
      ensures result.Committed? ==> inFlight == [] && dropped == |Bad(rows, bad)|
                                    && files[|files| - 1] == old(files)[|files| - 1] + Good(rows, bad)
      ensures !result.Committed? ==> inFlight == rows && files == old(files)
      ensures !result.RowError? && (calm ==> result.Committed?)
      ensures Counted() && guardDropped == old(guardDropped) && NewOnly(old(buf), old(received), buf)
      ensures tried == old(tried)
    {
      Wait();
      dropped := 0;
      var fault: Option<WriteResult> := *;
      if !calm && fault == Some(Corruption) {
        result := Corruption;
      } else if !calm && fault.Some? {
        result := OtherError;
      } else {
        GoodKeepsOrder(Flat(files), rows, buf, received, bad);
        GoodOrBad(rows, bad);
        dropped := |Bad(rows, bad)|;
        Commit(Good(rows, bad), Bad(rows, bad));
        result := Committed;
      }
    }

    /** `_recover`: the rows stay in the buffer whatever happens. */
    method Recover(calm: bool) returns (result: RecoverResult)
      requires Valid() && inFlight == []
      modifies this
      ensures Valid() && inFlight == [] && FilesGrow(old(files), files) && Flat(files) == Flat(old(files))
      ensures result.Ready? ==> connected && !rotatePending && files == old(files) + [[]]
      ensures !result.Ready? ==> files == old(files)
      ensures result.BusyFile? ==> connected == old(connected)
      ensures result.NotYet? ==> !connected && (limit <= 0 || |buf| <= limit)
      ensures Counted() && guardDropped == old(guardDropped) && NewOnly(old(buf), old(received), buf)
      ensures old(buf) != [] ==> buf != []
      ensures tried == old(tried) + [result] && (calm ==> result.Ready?)
    {
      result := Attempt(calm);
      tried := tried + [result];
    }

    method Attempt(calm: bool) returns (result: RecoverResult)
      requires Valid() && inFlight == []
      modifies this
      ensures Valid() && inFlight == [] && FilesGrow(old(files), files) && Flat(files) == Flat(old(files))
      ensures result.Ready? ==> connected && !rotatePending && files == old(files) + [[]]
      ensures !result.Ready? ==> files == old(files)
      ensures result.BusyFile? ==> connected == old(connected)
      ensures result.NotYet? ==> !connected && (limit <= 0 || |buf| <= limit)
      ensures Counted() && guardDropped == old(guardDropped) && NewOnly(old(buf), old(received), buf)
      ensures tried == old(tried) && (calm ==> result.Ready?)
      ensures old(buf) != [] ==> buf != []
    {
      var was := connected;
      connected := false;
      Wait();
      result := Conclude(was, calm);
    }

    method Conclude(was: bool, calm: bool) returns (result: RecoverResult)
      requires Valid() && inFlight == [] && !connected
      modifies this`buf, this`bufferDropped, this`connected, this`rotatePending, this`files
      ensures Valid() && FilesGrow(old(files), files) && Flat(files) == Flat(old(files))
      ensures result.Ready? ==> connected && !rotatePending && files == old(files) + [[]]
      ensures !result.Ready? ==> files == old(files)
      ensures result.BusyFile? ==> connected == was
      ensures result.NotYet? ==> !connected && (limit <= 0 || |buf| <= limit)
      ensures Counted() && NewOnly(old(buf), received, buf) && (old(buf) != [] ==> buf != [])
      ensures calm ==> result.Ready?
    {
      var fault: Option<RecoverResult> := *;
      if !calm && fault == Some(BusyFile) {
        connected := was;                  // a check holds the file: nothing was closed or moved
        return BusyFile;
      } else if !calm && fault.Some? {
        KeepWaiting();
        return NotYet;
      }
      OpenFresh();
      result := Ready;
    }

    /** The rows wait for the next flush, up to the cap. */
    method KeepWaiting()
      requires Valid()
      modifies this`buf, this`bufferDropped
      ensures Valid() && Counted() && NewOnly(old(buf), received, buf) && (limit <= 0 || |buf| <= limit)
      ensures old(buf) != [] ==> buf != []
    {
      CapBuffer();
    }

    method OpenFresh()
      requires Valid()
      modifies this`files, this`rotatePending, this`connected
      ensures Valid() && FilesGrow(old(files), files) && Flat(files) == Flat(old(files))
      ensures connected && !rotatePending && files == old(files) + [[]]
    {
      FlatFresh(files);
      files := files + [[]];
      rotatePending, connected := false, true;
    }

    /** The disk is over its limit: the buffer is counted and thrown away. */
    method DropForDisk()
      requires Valid()
      modifies this`buf, this`guardDropped
      ensures Valid() && buf == [] && guardDropped == old(guardDropped) + |old(buf)|
    {
      ghost var all := Flat(files) + inFlight + buf;
      guardDropped := guardDropped + |buf|;
      buf := [];
      DropMiddle(all, received, |Flat(files) + inFlight|, |all|);
      assert Flat(files) + inFlight + buf == all[..|Flat(files) + inFlight|] + all[|all|..];
    }

    /** The batch goes back in front of what has arrived since, and the cap drops from the front. */
    method Requeue(rows: seq<Row>)
      requires Valid() && inFlight == rows
      modifies this`buf, this`inFlight, this`bufferDropped
      ensures Valid() && inFlight == [] && buf == Newest(rows + old(buf)) && KeptNewest(rows + old(buf), buf)
      ensures bufferDropped == old(bufferDropped) + |rows| + |old(buf)| - |buf| && Counted()
    {
      PutBack(rows);
      WaitingInOrder();
      NewestKeeps(buf);
      CapBuffer();
    }

    /** Write the batch, first as one statement, then row by row if a row cannot be bound. */
    method TryWrite(rows: seq<Row>, calm: bool, corrupt: bool) returns (result: WriteResult)
      requires Valid() && inFlight == rows
      modifies this
      ensures Valid() && FilesGrow(old(files), files) && |files| == |old(files)|
      ensures result.Committed? ==> inFlight == [] && files[|files| - 1] == old(files)[|files| - 1] + Good(rows, bad)
      ensures !result.Committed? ==> inFlight == rows && files == old(files)
      ensures !result.RowError? && (calm && !corrupt ==> result.Committed?) && (corrupt ==> result.Corruption?)
      ensures Counted() && guardDropped == old(guardDropped) && NewOnly(old(buf), old(received), buf)
      ensures tried == old(tried)
    {
      result := WriteRows(rows, calm, corrupt);
      if result.RowError? {
        var dropped;
        result, dropped := WriteRowsEach(rows, calm);
      } else if result.Committed? {
        AllGood(rows);
      }
    }

    lemma {:induction false} AllGood(rows: seq<Row>)
      requires forall r :: r in rows ==> !bad(r)
      ensures Good(rows, bad) == rows && Bad(rows, bad) == []
    {
      if rows != [] {
        AllGood(rows[1..]);
        assert rows == [rows[0]] + rows[1..];
      }
    }

    /** `_flush_once`. At the end nothing is in flight: every row it took is on disk, counted as dropped, or
        back at the front of the buffer. `allowed`: the disk guard's verdict; `corrupt`: the first write finds
        the file corrupt; `calm`: nothing else goes wrong with the database, and no rotation fails. If it wrote,
        nothing that was waiting when it began still is; if it did not, nothing new is on disk. */
    method FlushOnce(allowed: bool, calm: bool, corrupt: bool) returns (written: bool)
      requires Valid() && inFlight == []
      modifies this
      ensures Valid() && inFlight == []
      // if the disk guard allows it and nothing fails, what waits is written; refused, it is thrown away
      ensures calm && allowed && old(buf) != [] ==> written
      ensures calm && !allowed ==> !written && buf == []
      // allowed, nothing is lost but over the cap, or as unwritable
      ensures allowed ==> guardDropped == old(guardDropped)
      ensures Counted()
      ensures FilesGrow(old(files), files)
      ensures written ==> forall r :: r in buf ==> r >= old(received)
      ensures !written ==> Flat(files) == Flat(old(files))
      ensures old(tried) <= tried && (old(rotatePending) ==> |tried| > |old(tried)|)
      // a rotation that fails leaves everything waiting, whatever the disk guard would say; a file a check holds
      // is not tried again
      ensures old(rotatePending) && tried[|old(tried)|] == NotYet ==>
                !written && guardDropped == old(guardDropped) && files == old(files) && |tried| == |old(tried)| + 1
      ensures old(rotatePending) && tried[|old(tried)|] == BusyFile ==> |tried| == |old(tried)| + 1
    {
      var got := RotatePending(calm);
      if got == Some(NotYet) {
        return false;
      }
      ghost var before := files;
      written := FlushGuarded(allowed, got == Some(BusyFile), calm, corrupt);
      GrowTransitive(old(files), before, files);
    }

    /** The rotation asked for, if any, goes first. */
    method RotatePending(calm: bool) returns (got: Option<RecoverResult>)
      requires Valid() && inFlight == []
      modifies this
      ensures Valid() && inFlight == [] && FilesGrow(old(files), files) && Flat(files) == Flat(old(files))
      ensures !old(rotatePending) ==>
                got.None? && files == old(files) && buf == old(buf) && connected == old(connected)
                && received == old(received) && tried == old(tried) && !rotatePending
      ensures old(rotatePending) ==> got.Some? && tried == old(tried) + [got.value]
      ensures got == Some(NotYet) ==> files == old(files)
      ensures NewOnly(old(buf), old(received), buf) && (old(buf) != [] ==> buf != [])
      ensures Counted() && guardDropped == old(guardDropped) && (calm ==> got in {None, Some(Ready)})
    {
      got := None;
      if rotatePending {
        var r := Recover(calm);
        got := Some(r);
      }
    }

    /** With no rotation in the way: the disk guard's word, and then what waits. */
    method FlushGuarded(allowed: bool, busy: bool, calm: bool, corrupt: bool) returns (written: bool)
      requires Valid() && inFlight == []
      modifies this
      ensures Valid() && inFlight == []
      ensures calm && allowed && old(buf) != [] ==> written
      ensures calm && !allowed ==> !written && buf == []
      ensures allowed ==> guardDropped == old(guardDropped)
      ensures FilesGrow(old(files), files) && Counted()
      ensures written ==> NewOnly([], old(received), buf)
      ensures !written ==> Flat(files) == Flat(old(files))
      ensures old(tried) <= tried && (busy ==> tried == old(tried))
    {
      Wait();                                // the disk guard measures
      if !allowed {
        DropForDisk();
        return false;
      }
      if buf == [] {
        return false;
      }
      var rows := Take();
      written := WriteBatch(rows, busy, calm, corrupt);
    }

    /** Two attempts: a corruption error on the first rotates and writes the batch to the fresh file. */
    method WriteBatch(batch: seq<Row>, busyNow: bool, calm: bool, corrupt: bool) returns (written: bool)
      requires Valid() && inFlight == batch && batch != []
      modifies this
      ensures Valid() && inFlight == [] && FilesGrow(old(files), files)
      ensures written ==> NewOnly(old(buf), old(received), buf)
      ensures !written ==> Flat(files) == Flat(old(files))
      ensures old(tried) <= tried && (calm ==> written) && (busyNow ==> tried == old(tried))
      ensures Counted() && guardDropped == old(guardDropped)
      // once corrupt, into a fresh file, unless a check holds the old one
      ensures calm && !busyNow ==>
                |files| == |old(files)| + (if old(rotatePending) then 1 else 0) + (if corrupt then 1 else 0)
    {
      var rows, busy, attempt := batch, busyNow, 1;
      while true
        invariant 1 <= attempt <= 2 && Valid() && inFlight == rows && FilesGrow(old(files), files)
        invariant Flat(files) == Flat(old(files))
        invariant Counted() && guardDropped == old(guardDropped)
        invariant NewOnly(old(buf), old(received), buf) && old(tried) <= tried
        invariant calm ==> busy == busyNow && (attempt == 2 ==> corrupt && rotatePending)
        invariant calm && !busyNow && attempt == 2 ==> |files| == |old(files)| + (if old(rotatePending) then 1 else 0)
        invariant attempt == 1 ==> rotatePending == old(rotatePending) && files == old(files)
        invariant busyNow ==> busy && tried == old(tried)
        decreases 2 - attempt
      {
        ghost var before := files;
        var turn;
        turn, busy, rows := WriteOnce(rows, busy, calm, corrupt && attempt == 1, attempt == 2);
        GrowTransitive(old(files), before, files);
        if turn != Again {
          return turn == Wrote;
        }
        attempt := attempt + 1;
      }
    }

    /** One attempt; a corruption error asks for a rotation, and for another attempt unless this was the last. */
    method WriteOnce(batch: seq<Row>, busyNow: bool, calm: bool, corrupt: bool, last: bool)
      returns (turn: Turn, busy: bool, rows: seq<Row>)
      requires Valid() && inFlight == batch
      modifies this
      ensures Valid() && FilesGrow(old(files), files) && old(tried) <= tried
      ensures Counted() && guardDropped == old(guardDropped)
      ensures if turn == Again then inFlight == rows && rotatePending && !last else inFlight == []
      ensures turn != Wrote ==> Flat(files) == Flat(old(files))
      ensures turn != GaveUp ==> NewOnly(old(buf), old(received), buf)
      ensures busyNow ==> busy && tried == old(tried)
      ensures calm ==> busy == busyNow && turn == if !corrupt then Wrote else if last then GaveUp else Again
      ensures calm && !busyNow ==> |files| == |old(files)| + (if old(rotatePending) then 1 else 0)
    {
      var ready;
      ready, busy, rows := RotateFirst(batch, busyNow, calm);
      if !ready {
        return GaveUp, busy, rows;
      }
      ghost var before := files;
      var result := TryWrite(rows, calm, corrupt);
      GrowTransitive(old(files), before, files);
      if result.Committed? {
        return Wrote, busy, rows;
      }
      var again := PutOff(rows, result.Corruption?, last);
      turn := if again then Again else GaveUp;
    }

    method PutOff(rows: seq<Row>, corrupt: bool, last: bool) returns (again: bool)
      requires Valid() && inFlight == rows
      modifies this`rotatePending, this`buf, this`inFlight, this`bufferDropped
      ensures Valid() && Counted() && (again <==> corrupt && !last)
      ensures rotatePending == (old(rotatePending) || corrupt)
      ensures if again then inFlight == rows && buf == old(buf)
              else inFlight == [] && KeptNewest(rows + old(buf), buf)
    {
      if corrupt {
        rotatePending := true;
      }
      again := corrupt && !last;
      if !again {
        Requeue(rows);
      }
    }

    /** A pending rotation goes before the write, with the batch safe in the buffer meanwhile. */
    method RotateFirst(batch: seq<Row>, busyNow: bool, calm: bool) returns (ready: bool, busy: bool, rows: seq<Row>)
      requires Valid() && inFlight == batch
      modifies this
      ensures Valid() && FilesGrow(old(files), files)
      ensures if ready then inFlight == rows else inFlight == []
      ensures Flat(files) == Flat(old(files)) && Counted() && guardDropped == old(guardDropped)
      ensures ready ==> NewOnly(old(buf), old(received), buf)
      // it is tried exactly when one is pending and the file was not just found busy
      ensures old(rotatePending) && !busyNow ==>
              tried == old(tried) + [if !ready then NotYet else if busy then BusyFile else Ready]
      ensures !old(rotatePending) || busyNow ==> ready && busy == busyNow && rows == batch && tried == old(tried)
                                                 && buf == old(buf) && files == old(files)
      ensures calm ==> ready && busy == busyNow
      ensures ready ==> files == old(files) + (if old(rotatePending) && !busyNow && !busy then [[]] else [])
    {
      ready, busy, rows := true, busyNow, batch;
      if rotatePending && !busy {
        PutBack(rows);
        var got := Recover(calm);
        ready, busy := !got.NotYet?, got.BusyFile?;
        if ready {
          rows := Take();
        }
      }
    }

    /** Rows received = rows on disk + counted drops + rows waiting; none is on disk twice, and a row in
        an earlier file arrived before every row of a later one. */
    lemma Conserved()
      requires Valid() && inFlight == []
      ensures received == total + bufferDropped + guardDropped + badDropped + |buf|
      ensures total == |Flat(files)| && Increasing(Flat(files))
      ensures forall f, g, x, y :: 0 <= f < g < |files| && x in files[f] && y in files[g] ==> x < y
      ensures forall x, y :: x in Flat(files) && y in buf ==> x < y
    {
      var all := Flat(files) + inFlight + buf;
      assert forall i :: 0 <= i < |Flat(files)| ==> Flat(files)[i] == all[i];
      forall f, g, x, y | 0 <= f < g < |files| && x in files[f] && y in files[g]
        ensures x < y
      {
        EarlierFileEarlierRows(files, f, g, x, y);
      }
      forall x, y | x in Flat(files) && y in buf
        ensures x < y
      {
        var i :| 0 <= i < |Flat(files)| && Flat(files)[i] == x;
        var j :| 0 <= j < |buf| && buf[j] == y;
        assert all[i] == x && all[|Flat(files)| + j] == y;
      }
    }
  }
}
