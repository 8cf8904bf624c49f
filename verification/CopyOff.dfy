/** `seal` and `ship` as the programs they are. Every write they make is one event of CopyOffSpec, with
    the recorder's and the receiver's own events anywhere in between and a crash after any write, so each
    call only ever extends a run of that protocol: what CopyOffSafety proves of runs holds of these programs. */
module CopyOff {
  import opened Ledger
  import opened Options
  import opened CopyOffSpec
  import opened CopyOffLimits
  import opened CopyOffSafety

  /** How many segments the events show being picked for shipping, and how many cleaned up. */
  ghost function PicksIn(events: seq<Event>): nat {
    if events == [] then 0
    else
      var last := events[|events| - 1];
      PicksIn(events[..|events| - 1]) + if last.Ship? && last.h.Pick? then 1 else 0
  }

  ghost function CleanUpsIn(events: seq<Event>): nat {
    if events == [] then 0
    else
      var last := events[|events| - 1];
      CleanUpsIn(events[..|events| - 1]) + if last == Ship(RemoveSidecar) then 1 else 0
  }

  lemma CountOne(events: seq<Event>, e: Event)
    ensures PicksIn(events + [e]) == PicksIn(events) + if e.Ship? && e.h.Pick? then 1 else 0
    ensures CleanUpsIn(events + [e]) == CleanUpsIn(events) + if e == Ship(RemoveSidecar) then 1 else 0
  {
    assert (events + [e])[..|events|] == events;
  }

  ghost predicate SameShipments(was: seq<Event>, now: seq<Event>) {
    PicksIn(now) == PicksIn(was) && CleanUpsIn(now) == CleanUpsIn(was)
  }

  /** Why a seal stopped. */
  datatype Stop = NoArchive | NothingLeft | Enough | OverCap | Killed

  /** What a transfer leaves at the destination (None: it fails), and what the receiver then answers. */
  datatype Delivery = Delivery(copied: Option<Object>, receipt: Receipt)

  datatype Outcome = Shipped | Skipped | Refused | Lost

  /** The next rows above the cursor, in one stretch: `maxRows` of them, or all there are. */
  ghost predicate NextRows(rows: map<int, Row>, cursor: int, seg: Segment, content: map<int, Row>, maxRows: nat) {
    && IsCut(rows, cursor, seg, content) && |content| <= maxRows
    && (|content| < maxRows ==> forall id :: id in rows ==> id <= seg.last)
  }

  class Station {
    var files: map<Ino, File>
    var live: Option<Ino>
    var ledger: LedgerFile
    var outbox: map<Segment, map<int, Row>>
    var sides: map<Segment, Sidecar>
    var dest: map<Segment, Object>
    // what the disks may still hold instead
    var oldLedgers: set<LedgerFile>
    var oldSources: set<(Segment, Option<map<int, Row>>)>
    var oldSides: set<(Segment, Option<Sidecar>)>
    var oldDest: set<(Segment, Option<Object>)>
    ghost var committed: map<Ino, map<int, Row>>
    var job: Job
    ghost var events: seq<Event>

    ghost function View(): State
      reads this
    {
      State(files, live, committed, ledger, outbox, sides, dest, oldLedgers, oldSources, oldSides, oldDest, job)
    }

    /** The fields are where the recorded events lead from an empty boat. */
    ghost predicate Valid()
      reads this
    {
      Runs(START, events) && After(START, events) == View()
    }

    constructor ()
      ensures Valid() && events == []
    {
      files, live, ledger, outbox, sides, dest := map[], None, map[], map[], map[], map[];
      oldLedgers, oldSources, oldSides, oldDest := {}, {}, {}, {};
      committed, job, events := map[], Free, [];
    }

    ghost method Record(e: Event, before: State)
      requires Runs(START, events) && After(START, events) == before
      requires Enabled(before, e) && Next(before, e) == View()
      modifies this`events
      ensures Valid() && events == old(events) + [e]
      ensures PicksIn(events) == PicksIn(old(events)) + if e.Ship? && e.h.Pick? then 1 else 0
      ensures CleanUpsIn(events) == CleanUpsIn(old(events)) + if e == Ship(RemoveSidecar) then 1 else 0
    {
      RunAppend(START, events, e);
      CountOne(events, e);
      events := events + [e];
    }

    function CursorOf(ino: Ino): int
      reads this
    {
      if ino in ledger then ledger[ino].sealedThrough else 0
    }

    // ---- the recorder and the receiver, whenever a program waits -------------------------------------

    /** Nothing of the programs' own has changed, and nothing vouched for at the destination. */
    twostate predicate OwnUntouched()
      reads this
    {
      && job == old(job) && ledger == old(ledger) && outbox == old(outbox) && sides == old(sides)
      && oldLedgers == old(oldLedgers) && oldSources == old(oldSources) && oldSides == old(oldSides)
      && old(events) <= events && old(files).Keys <= files.Keys && SameShipments(old(events), events)
      && forall g :: !Unvouched(old(View()), g) ==> At(dest, g) == At(old(dest), g) && !Unvouched(View(), g)
    }

    /** One committed transaction: AUTOINCREMENT gives the rows the next ids. */
    method CommitBatch(rows: seq<Row>)
      requires Valid() && live.Some? && live.value in files
      modifies this`files, this`committed, this`events
      ensures Valid() && old(events) <= events
      ensures old(files).Keys <= files.Keys && SameShipments(old(events), events)
    {
      ghost var before := View();
      var ino := live.value;
      var top := files[ino].top;
      var batch: map<int, Row> := map[];
      for k := 0 to |rows|
        invariant forall id :: id in batch ==> top < id <= top + k
      {
        batch := batch[top + 1 + k := rows[k]];
      }
      files := files[ino := File(files[ino].rows + batch, top + |rows|)];
      committed := committed[ino := (if ino in committed then committed[ino] else map[]) + batch];
      Record(Recorder(RecorderEvent.Commit(batch, top + |rows|)), before);
    }

    /** One prune pass: only ids the ledger it sees calls verified for this very file. */
    method PruneLive(wanted: set<int>)
      requires Valid()
      modifies this`files, this`events
      ensures Valid() && old(events) <= events
      ensures old(files).Keys <= files.Keys && SameShipments(old(events), events)
    {
      if live.None? || live.value !in files {
        return;
      }
      ghost var before := View();
      var ino := live.value;
      var through := if ino in ledger then ledger[ino].verifiedThrough else 0;
      var gone := set id | id in wanted && id <= through;
      files := files[ino := files[ino].(rows := files[ino].rows - gone)];
      Record(Recorder(RecorderEvent.Prune(gone)), before);
    }

    method Rotate(newIno: Ino)
      requires Valid()
      modifies this`files, this`live, this`committed, this`events
      ensures Valid() && old(events) <= events
      ensures old(files).Keys <= files.Keys && SameShipments(old(events), events)
    {
      ghost var before := View();
      if live.Some? {
        live := None;
        Record(Recorder(MoveAside), before);
      } else if newIno !in files {
        live, files, committed := Some(newIno), files[newIno := File(map[], 0)], committed[newIno := map[]];
        Record(Recorder(OpenFresh(newIno)), before);
      }
    }

    /** The receiver loses power: what no receipt vouched for may be as before, or broken. */
    method ReceiverFails(back: seq<(Segment, Option<Object>)>)
      requires Valid()
      modifies this`dest, this`oldDest, this`events
      ensures Valid() && old(events) <= events && OwnUntouched()
    {
      ghost var before := View();
      var now := dest;
      for i := 0 to |back|
        invariant forall g ::
                    At(now, g) == At(dest, g) || (g, At(now, g)) in oldDest || (g in now && Unvouched(before, g))
      {
        if (exists p | p in oldDest :: p.0 == back[i].0) && (back[i].1.Some? || back[i] in oldDest) {
          now := Put(now, back[i].0, back[i].1);
        }
      }
      dest, oldDest := now, {};
      Record(Fault(ReceiverCut(now)), before);
    }

    /** Any number of their steps, of any kind. */
    method Others()
      requires Valid()
      modifies this
      ensures Valid() && OwnUntouched()
    {
      var steps :| 0 <= steps;
      for i := 0 to steps
        invariant Valid() && OwnUntouched()
      {
        OneOther();
      }
    }

    method OneOther()
      requires Valid()
      modifies this
      ensures Valid() && OwnUntouched()
    {
      if * {
        if live.Some? && live.value in files {
          var rows: seq<Row> := *;
          CommitBatch(rows);
        }
      } else if * {
        var wanted: set<int> := *;
        PruneLive(wanted);
      } else if * {
        var newIno: Ino := *;
        Rotate(newIno);
      } else {
        var back: seq<(Segment, Option<Object>)> := *;
        ReceiverFails(back);
      }
    }

    /** fsync of the outbox directory. */
    method Fsync()
      requires Valid() && SyncEnabled(View())
      modifies this`oldLedgers, this`oldSources, this`oldSides, this`job, this`events
      ensures Valid() && old(events) <= events && Synced(View()) && SameShipments(old(events), events)
      ensures job == if old(job).Moved? then Sealing(old(job).ino) else old(job)
    {
      ghost var before := View();
      var next := if job.Moved? then Sealing(job.ino) else job;
      oldLedgers, oldSources, oldSides, job := {}, {}, {}, next;
      Record(SyncDir, before);
    }

    /** Others, then perhaps the end of the program (not when it is calm), or else the fsync. */
    method WaitAndSync(calm: bool) returns (alive: bool)
      requires Valid() && SyncEnabled(View())
      modifies this
      ensures Valid() && old(events) <= events && SameShipments(old(events), events)
      ensures old(files).Keys <= files.Keys
      ensures if alive then Synced(View()) && job == (if old(job).Moved? then Sealing(old(job).ino) else old(job))
              else !calm && Died()
      ensures alive ==> ledger == old(ledger) && outbox == old(outbox) && sides == old(sides)
      ensures alive ==> forall g :: !Unvouched(old(View()), g) ==>
              At(dest, g) == At(old(dest), g) && !Unvouched(View(), g)
    {
      Others();
      alive := *;
      alive := alive || calm;
      if alive {
        Fsync();
      } else {
        Die();
      }
    }

    /** The last thing that happened is a crash or a power cut, and nobody holds the outbox lock. */
    ghost predicate Died()
      reads this
    {
      job == Free && events != [] && events[|events| - 1].Fault?
    }

    /** Killed, or a power cut, which may undo any change to the outbox directory not yet fsynced. */
    method Die()
      requires Valid()
      modifies this`ledger, this`outbox, this`sides, this`oldLedgers, this`oldSources, this`oldSides, this`job,
          this`events
      ensures Valid() && Died() && old(events) <= events && SameShipments(old(events), events)
    {
      if * {
        var was: LedgerFile := *;
        var backSources: seq<(Segment, Option<map<int, Row>>)> := *;
        var backSides: seq<(Segment, Option<Sidecar>)> := *;
        LosePower(was, backSources, backSides);
      } else {
        ghost var before := View();
        job := Free;
        Record(Fault(Crash), before);
      }
    }

    method LosePower(was: LedgerFile, backSources: seq<(Segment, Option<map<int, Row>>)>,
                     backSides: seq<(Segment, Option<Sidecar>)>)
      requires Valid()
      modifies this`ledger, this`outbox, this`sides, this`oldLedgers, this`oldSources, this`oldSides, this`job,
          this`events
      ensures Valid() && Died() && old(events) <= events && SameShipments(old(events), events)
    {
      var left := if was in oldLedgers then was else ledger;
      var copies, notes := Undo(outbox, backSources, oldSources), Undo(sides, backSides, oldSides);
      Settle(left, copies, notes);
    }

    method Settle(left: LedgerFile, copies: map<Segment, map<int, Row>>, notes: map<Segment, Sidecar>)
      requires Valid() && FaultEnabled(View(), PowerCut(left, copies, notes))
      modifies this`ledger, this`outbox, this`sides, this`oldLedgers, this`oldSources, this`oldSides, this`job,
          this`events
      ensures Valid() && Died() && old(events) <= events && SameShipments(old(events), events)
    {
      ghost var before := View();
      PowerLeaves(before, left, copies, notes);
      ledger, outbox, sides, oldLedgers, oldSources, oldSides, job := left, copies, notes, {}, {}, {}, Free;
      Record(Fault(PowerCut(left, copies, notes)), before);
    }

    // ---- seal ------------------------------------------------------------------------------------

    predicate Sealed(ino: Ino, seg: Segment, side: Sidecar)
      reads this
    {
      At(outbox, seg) == Some(side.content) && At(sides, seg) == Some(side) && CursorOf(ino) == seg.last
    }

    /** Nothing is left in the file to cut. */
    ghost predicate AllCut(ino: Ino)
      reads this
    {
      ino in files && forall id :: id in files[ino].rows ==> id <= CursorOf(ino)
    }

    /** Cut, write and record the next segment. Made: the next rows, as many as asked for or else all there
        are, with sidecar and cursor on disk. Not made and not killed: there is nothing to cut. */
    method SealOne(ino: Ino, maxRows: nat, calm: bool) returns (made: bool)
      requires Valid() && job == Sealing(ino) && ino in files
      modifies this
      ensures Valid() && old(events) <= events && ino in files
      ensures job == Sealing(ino) || (!made && !calm && Died())
      ensures !made && job == Sealing(ino) ==> View() == old(View()) && (maxRows > 0 ==> AllCut(ino))
      ensures made ==>
                && job == Sealing(ino) && CursorOf(ino) > old(CursorOf(ino)) && Synced(View())
                && exists seg: Segment, side: Sidecar ::
                     && seg.ino == ino && side.cursorBefore == old(CursorOf(ino)) && Sealed(ino, seg, side)
                     && NextRows(old(files)[ino].rows, side.cursorBefore, seg, side.content, maxRows)
    {
      made := false;
      RowsBelowTop(events);
      var content, first, last := ReadCut(files[ino].rows, CursorOf(ino), files[ino].top, maxRows);
      if content == map[] {
        return;
      }
      var seg, side := Segment(ino, first, last), Sidecar(CursorOf(ino), content);
      assert NextRows(files[ino].rows, side.cursorBefore, seg, content, maxRows);
      BeginCut(ino, seg, side);
      Others();
      var badCopy: bool := *;
      if badCopy && !calm {
        Die();                                     // the copy does not read back, or a power cut
        return;
      }
      made := WriteOut(ino, seg, side, calm);
      assert made ==> seg.ino == ino && side.cursorBefore == old(CursorOf(ino)) && Sealed(ino, seg, side)
                      && NextRows(old(files)[ino].rows, side.cursorBefore, seg, side.content, maxRows);
    }

    method BeginCut(ino: Ino, seg: Segment, side: Sidecar)
      requires Valid() && job == Sealing(ino) && seg.ino == ino && ino in files && side.cursorBefore == CursorOf(ino)
      requires IsCut(files[ino].rows, CursorOf(ino), seg, side.content)
      modifies this`job, this`events
      ensures Valid() && old(events) <= events && job == Cut(ino, seg, side)
    {
      ghost var before := View();
      job := Cut(ino, seg, side);
      Record(Seal(ReadRows(seg, side.content)), before);
    }

    method WriteOut(ino: Ino, seg: Segment, side: Sidecar, calm: bool) returns (made: bool)
      requires Valid() && job == Cut(ino, seg, side)
      modifies this
      ensures Valid() && old(events) <= events && old(files).Keys <= files.Keys
      ensures if made then job == Sealing(ino) && Sealed(ino, seg, side) && Synced(View()) else !calm && Died()
    {
      PlaceCopy(ino, seg, side);
      made := WaitAndSync(calm);
      if made {
        made := WriteSide(ino, seg, side, calm);
      }
    }

    method PlaceCopy(ino: Ino, seg: Segment, side: Sidecar)
      requires Valid() && job == Cut(ino, seg, side)
      modifies this`outbox, this`oldSources, this`job, this`events
      ensures Valid() && old(events) <= events && job == Placed(ino, seg, side)
      ensures outbox == old(outbox)[seg := side.content]
    {
      ghost var before := View();
      outbox, oldSources, job := outbox[seg := side.content], oldSources + {(seg, At(outbox, seg))},
          Placed(ino, seg, side);
      Record(Seal(PlaceSegment), before);
    }

    method WriteSide(ino: Ino, seg: Segment, side: Sidecar, calm: bool) returns (made: bool)
      requires Valid() && job == Placed(ino, seg, side) && Synced(View()) && At(outbox, seg) == Some(side.content)
      modifies this
      ensures Valid() && old(events) <= events && old(files).Keys <= files.Keys
      ensures if made then job == Sealing(ino) && Sealed(ino, seg, side) && Synced(View()) else !calm && Died()
    {
      PlaceSide(ino, seg, side);
      made := WaitAndSync(calm);
      if made {
        made := MoveCursor(ino, seg, calm);
      }
    }

    method PlaceSide(ino: Ino, seg: Segment, side: Sidecar)
      requires Valid() && job == Placed(ino, seg, side) && Synced(View())
      modifies this`sides, this`oldSides, this`job, this`events
      ensures Valid() && old(events) <= events && job == Sided(ino, seg) && sides == old(sides)[seg := side]
    {
      ghost var before := View();
      sides, oldSides, job := sides[seg := side], oldSides + {(seg, At(sides, seg))}, Sided(ino, seg);
      Record(Seal(WriteSidecar), before);
    }

    /** A crash before this leaves the segment and its sidecar behind a cursor that has not moved. */
    method MoveCursor(ino: Ino, seg: Segment, calm: bool) returns (made: bool)
      requires Valid() && job == Sided(ino, seg) && Synced(View())
      modifies this
      ensures Valid() && old(events) <= events && old(files).Keys <= files.Keys
      ensures if made then job == Sealing(ino) && CursorOf(ino) == seg.last && Synced(View()) else !calm && Died()
      ensures made ==> outbox == old(outbox) && sides == old(sides)
    {
      ghost var before := View();
      var entry := if ino in ledger then ledger[ino] else Entry(0, [], 0);
      ledger, oldLedgers, job := ledger[ino := entry.(sealedThrough := seg.last)], oldLedgers + {ledger}, Moved(ino);
      Record(Seal(SaveCursor), before);
      made := WaitAndSync(calm);
    }

    /** `bytes` measures the outbox. Every way to stop has its reason. */
    method SealSegments(maxRows: nat, maxSegments: nat, bytes: map<Segment, map<int, Row>> -> nat, cap: nat, calm: bool)
      returns (made: nat, why: Stop)
      requires Valid() && job == Free
      modifies this
      ensures Valid() && job == Free && old(events) <= events && made <= maxSegments
      ensures why == NoArchive <==> old(live).None? || old(live).value !in old(files)
      ensures why == NoArchive ==> made == 0 && View() == old(View())
      ensures why == Killed ==> !calm && Died()
      ensures why == Enough ==> made == maxSegments
      ensures why == OverCap ==> made < maxSegments && bytes(outbox) > cap
      ensures maxSegments > 0 && why != NoArchive && bytes(old(outbox)) > cap ==> why == OverCap && made == 0
      ensures why == NothingLeft && maxRows > 0 ==> AllCut(old(live).value)
      ensures why != NoArchive && why != Killed ==> CursorOf(old(live).value) >= old(CursorOf(live.value)) + made
    {
      if live.None? || live.value !in files {
        return 0, NoArchive;
      }
      made, why := SealLive(live.value, maxRows, maxSegments, bytes, cap, calm);
    }

    /** The loop, over the file at the live path. */
    method SealLive(ino: Ino, maxRows: nat, maxSegments: nat, bytes: map<Segment, map<int, Row>> -> nat, cap: nat,
                    calm: bool)
      returns (made: nat, why: Stop)
      requires Valid() && job == Free && live == Some(ino) && ino in files
      modifies this
      ensures Valid() && job == Free && old(events) <= events && made <= maxSegments && why != NoArchive
      ensures why == Killed ==> !calm && Died()
      ensures why == Enough ==> made == maxSegments
      ensures why == OverCap ==> made < maxSegments && bytes(outbox) > cap
      ensures maxSegments > 0 && bytes(old(outbox)) > cap ==> why == OverCap && made == 0
      ensures why == NothingLeft && maxRows > 0 ==> AllCut(ino)
      ensures why != Killed ==> CursorOf(ino) >= old(CursorOf(ino)) + made
    {
      BeginSeal(ino);
      made, why := 0, Enough;
      while made < maxSegments
        invariant Valid() && job == Sealing(ino) && old(events) <= events && made <= maxSegments
        invariant why == Enough && ino in files && CursorOf(ino) >= old(CursorOf(ino)) + made
        invariant made == 0 ==> outbox == old(outbox)
        invariant made > 0 ==> bytes(old(outbox)) <= cap
      {
        var stop := SealNext(ino, maxRows, bytes, cap, calm);
        if stop == Some(Killed) {
          return made, Killed;
        }
        if stop.Some? {
          why := stop.value;
          break;
        }
        made := made + 1;
      }
      EndSeal();
    }

    /** One turn of the loop: a segment, never into an outbox that is over its cap, or the reason to stop. */
    method SealNext(ino: Ino, maxRows: nat, bytes: map<Segment, map<int, Row>> -> nat, cap: nat, calm: bool)
      returns (stop: Option<Stop>)
      requires Valid() && job == Sealing(ino) && ino in files
      modifies this
      ensures Valid() && old(events) <= events
      ensures stop in {None, Some(OverCap), Some(NothingLeft), Some(Killed)}
      ensures stop == Some(OverCap) <==> bytes(old(outbox)) > cap
      ensures stop == Some(OverCap) || stop == Some(NothingLeft) ==> View() == old(View())
      ensures stop == Some(NothingLeft) && maxRows > 0 ==> AllCut(ino)
      ensures if stop == Some(Killed) then !calm && Died() else job == Sealing(ino) && ino in files
      ensures stop.None? ==> CursorOf(ino) > old(CursorOf(ino))
    {
      if bytes(outbox) > cap {
        return Some(OverCap);
      }
      var one := SealOne(ino, maxRows, calm);
      if job == Free {
        return Some(Killed);
      }
      stop := if one then None else Some(NothingLeft);
    }

    method BeginSeal(ino: Ino)
      requires Valid() && job == Free && live == Some(ino) && ino in files
      modifies this`job, this`events
      ensures Valid() && old(events) <= events && job == Sealing(ino) && outbox == old(outbox)
    {
      ghost var before := View();
      job := Sealing(ino);
      Record(Seal(SealBegin), before);
    }

    method EndSeal()
      requires Valid() && job.Sealing?
      modifies this`job, this`events
      ensures Valid() && old(events) <= events && job == Free
    {
      ghost var before := View();
      job := Free;
      Record(Seal(SealEnd), before);
    }

    /** Whatever programs ran and wherever they died: if every cut held the rows that have left its file,
        or left them to another name, nothing is lost. */
    lemma NothingLostHere(atomic: bool)
      requires Valid() && CarefulRun(START, events, atomic)
      ensures NoLoss(View(), atomic)
    {
      StartInv(atomic);
      NothingLost(START, events, atomic);
    }

    /** A run never puts an id above the top of its file. */
    lemma RowsBelowTop(ran: seq<Event>)
      requires Runs(START, ran)
      ensures Tops(After(START, ran))
    {
      TopsHold(START, ran);
    }

    // ---- ship ------------------------------------------------------------------------------------

    /** The receiver has exactly what the sidecar names, and has fsynced it. */
    ghost predicate Received(seg: Segment, side: Sidecar)
      reads this
    {
      At(dest, seg) == Some(Whole(side.content)) && !Unvouched(View(), seg)
    }

    /** Send one sealed segment. The transfer may leave anything under its name and the receiver may
        answer anything, but it cannot name the boat's own hash without holding those bytes. A matching
        receipt counts, and nothing else does. */
    method ShipOne(seg: Segment, d: Delivery, calm: bool) returns (o: Outcome)
      requires Valid() && job == Shipping
      modifies this
      ensures Valid() && old(events) <= events
      ensures o == Skipped <==> seg !in old(sides) || seg !in old(outbox)
      ensures o == Skipped ==> View() == old(View())
      ensures o == Shipped ==> d.copied.Some? && Matches(d.receipt, old(sides)[seg])
      ensures o == Shipped ==> Received(seg, old(sides)[seg])
      ensures o == Shipped ==>
                job == Shipping && seg !in outbox && seg !in sides && Claims(old(ledger), seg, old(sides)[seg])
      ensures o == Refused ==>
                job == Shipping && outbox == old(outbox) && sides == old(sides) && ledger == old(ledger)
      ensures o == Refused ==> d.copied.None? || !Matches(d.receipt, old(sides)[seg])
                               || At(dest, seg) != Some(Whole(old(sides)[seg].content))
      ensures o == Lost ==> !calm && Died()
      ensures PicksIn(events) == PicksIn(old(events)) + if o == Skipped then 0 else 1
      ensures o != Lost ==> CleanUpsIn(events) == CleanUpsIn(old(events)) + if o == Shipped then 1 else 0
    {
      if seg !in sides || seg !in outbox {
        return Skipped;                            // shipped and cleaned up already
      }
      var side := sides[seg];
      PickUp(seg, side);
      Others();
      if d.copied.None? {
        GiveUp();
        return Refused;
      }
      o := Send(seg, side, d.copied.value, d.receipt, calm);
    }

    method PickUp(seg: Segment, side: Sidecar)
      requires Valid() && job == Shipping && At(sides, seg) == Some(side) && seg in outbox
      modifies this`job, this`events
      ensures Valid() && old(events) <= events && job == Job.Picked(seg, side)
      ensures PicksIn(events) == PicksIn(old(events)) + 1 && CleanUpsIn(events) == CleanUpsIn(old(events))
    {
      ghost var before := View();
      job := Job.Picked(seg, side);
      Record(Ship(Pick(seg)), before);
    }

    method GiveUp()
      requires Valid() && job.Picked?
      modifies this`job, this`events
      ensures Valid() && old(events) <= events && job == Shipping && SameShipments(old(events), events)
    {
      ghost var before := View();
      job := Shipping;
      Record(Ship(TransferFailed), before);
    }

    method Send(seg: Segment, side: Sidecar, received: Object, receipt: Receipt, calm: bool) returns (o: Outcome)
      requires Valid() && job == Job.Picked(seg, side)
      modifies this
      ensures Valid() && old(events) <= events && o != Skipped
      ensures o == Shipped ==> Matches(receipt, side) && Received(seg, side)
      ensures o == Shipped ==> job == Shipping && seg !in outbox && seg !in sides && Claims(old(ledger), seg, side)
      ensures o == Refused ==>
                job == Shipping && outbox == old(outbox) && sides == old(sides) && ledger == old(ledger)
      ensures o == Refused ==> !Matches(receipt, side) || At(dest, seg) != Some(Whole(side.content))
      ensures o == Lost ==> !calm && Died()
      ensures PicksIn(events) == PicksIn(old(events))
      ensures o != Lost ==> CleanUpsIn(events) == CleanUpsIn(old(events)) + if o == Shipped then 1 else 0
    {
      Copy(seg, side, received);
      Others();
      var matched := AskReceipt(seg, side, receipt);
      if !matched {
        return Refused;                            // kept in the outbox, will retry
      }
      o := Settled(seg, side, calm);
    }

    method Settled(seg: Segment, side: Sidecar, calm: bool) returns (o: Outcome)
      requires Valid() && job == Matched(seg, side) && Received(seg, side)
      modifies this
      ensures Valid() && old(events) <= events && (o == Shipped || (o == Lost && !calm && Died()))
      ensures o == Shipped ==> job == Shipping && seg !in outbox && seg !in sides && Received(seg, side)
      ensures o == Shipped ==> Claims(old(ledger), seg, side)
      ensures PicksIn(events) == PicksIn(old(events))
      ensures o == Shipped ==> CleanUpsIn(events) == CleanUpsIn(old(events)) + 1
    {
      Others();
      var recorded := RecordVerified(seg, side, calm);
      o := if recorded then Shipped else Lost;
    }

    method Copy(seg: Segment, side: Sidecar, received: Object)
      requires Valid() && job == Job.Picked(seg, side)
      modifies this`dest, this`oldDest, this`job, this`events
      ensures Valid() && old(events) <= events && job == Sent(seg, side) && SameShipments(old(events), events)
    {
      ghost var before := View();
      dest, oldDest, job := dest[seg := received], oldDest + {(seg, At(dest, seg))}, Sent(seg, side);
      Record(Ship(Transfer(received)), before);
    }

    method AskReceipt(seg: Segment, side: Sidecar, receipt: Receipt) returns (matched: bool)
      requires Valid() && job == Sent(seg, side)
      modifies this`oldDest, this`job, this`events
      ensures Valid() && old(events) <= events && SameShipments(old(events), events)
      ensures matched <==> Matches(receipt, side) && At(dest, seg) == Some(Whole(side.content))
      ensures if matched then job == Matched(seg, side) && Received(seg, side) else job == Shipping
    {
      var answer := if Matches(receipt, side) && At(dest, seg) != Some(Whole(side.content)) then NoAnswer else receipt;
      ghost var before := View();
      matched := Matches(answer, side);
      if matched {
        oldDest, job := Vouch(oldDest, seg), Matched(seg, side);
      } else {
        job := Shipping;
      }
      Record(Ship(GetReceipt(answer)), before);
    }

    /** The ledger as it was, with this segment's whole range verified and the contiguous top raised. */
    ghost predicate Claims(was: LedgerFile, seg: Segment, side: Sidecar)
      reads this
    {
      && seg.ino in ledger && ledger[seg.ino].sealedThrough == EntryIn(was, seg.ino).sealedThrough
      && (forall i :: i != seg.ino ==> At(ledger, i) == At(was, i))
      && (forall id :: Covered(ledger[seg.ino].verified, id) <==>
            Covered(EntryIn(was, seg.ino).verified, id) || side.cursorBefore < id <= seg.last)
      && IsContiguousThrough(ledger[seg.ino].verified, ledger[seg.ino].verifiedThrough)
    }

    /** The ledger first, then, with it on disk, the outbox copy, then its sidecar. */
    method RecordVerified(seg: Segment, side: Sidecar, calm: bool) returns (verified: bool)
      requires Valid() && job == Matched(seg, side) && Received(seg, side)
      modifies this
      ensures Valid() && old(events) <= events && PicksIn(events) == PicksIn(old(events))
      ensures verified ==> job == Shipping && seg !in outbox && seg !in sides && Received(seg, side)
      ensures verified ==> Claims(old(ledger), seg, side) && oldLedgers == {}
      ensures verified ==> CleanUpsIn(events) == CleanUpsIn(old(events)) + 1
      ensures !verified ==> !calm && Died()
    {
      var dies: bool := *;
      if dies && !calm {
        Die();
        return false;
      }
      SaveLedger(seg, side);
      verified := WaitAndSync(calm);
      if verified {
        verified := CleanUp(seg, calm);
      }
    }

    method SaveLedger(seg: Segment, side: Sidecar)
      requires Valid() && job == Matched(seg, side)
      modifies this`ledger, this`oldLedgers, this`job, this`events
      ensures Valid() && old(events) <= events && job == Recorded(seg) && SameShipments(old(events), events)
      ensures Claims(old(ledger), seg, side)
    {
      ghost var before := View();
      var entry := if seg.ino in ledger then ledger[seg.ino] else Entry(0, [], 0);
      var ranges, through := WithRange(entry.verified, side.cursorBefore + 1, seg.last);
      var now := entry.(verified := ranges, verifiedThrough := through);
      ledger, oldLedgers, job := ledger[seg.ino := now], oldLedgers + {ledger}, Recorded(seg);
      Record(Ship(SaveVerified(ranges, through)), before);
    }

    static method WithRange(verified: seq<Range>, lo: int, hi: int) returns (ranges: seq<Range>, through: int)
      ensures forall id :: Covered(ranges, id) <==> Covered(verified, id) || lo <= id <= hi
      ensures IsContiguousThrough(ranges, through)
    {
      ranges := Merge(verified + [Range(lo, hi)]);
      through := ContiguousThrough(ranges);
      forall id
        ensures Covered(ranges, id) <==> Covered(verified, id) || lo <= id <= hi
      {
        CoveredAppend(verified, Range(lo, hi), id);
      }
    }

    method CleanUp(seg: Segment, calm: bool) returns (clean: bool)
      requires Valid() && job == Recorded(seg) && Synced(View())
      modifies this
      ensures Valid() && old(events) <= events && PicksIn(events) == PicksIn(old(events))
      ensures clean ==> job == Shipping && seg !in outbox && seg !in sides && ledger == old(ledger) && oldLedgers == {}
      ensures clean ==> forall g :: !Unvouched(old(View()), g) ==>
              At(dest, g) == At(old(dest), g) && !Unvouched(View(), g)
      ensures clean ==> CleanUpsIn(events) == CleanUpsIn(old(events)) + 1
      ensures !clean ==> !calm && Died()
    {
      RemoveCopy(seg);
      Others();
      var dies: bool := *;
      if dies && !calm {
        Die();
        return false;
      }
      RemoveSide(seg);
      clean := true;
    }

    method RemoveCopy(seg: Segment)
      requires Valid() && job == Recorded(seg) && Synced(View())
      modifies this`outbox, this`oldSources, this`job, this`events
      ensures Valid() && old(events) <= events && job == SourceGone(seg) && outbox == old(outbox) - {seg}
      ensures SameShipments(old(events), events)
    {
      ghost var before := View();
      outbox, oldSources, job := outbox - {seg}, oldSources + {(seg, At(outbox, seg))}, SourceGone(seg);
      Record(Ship(RemoveSource), before);
    }

    method RemoveSide(seg: Segment)
      requires Valid() && job == SourceGone(seg)
      modifies this`sides, this`oldSides, this`job, this`events
      ensures Valid() && old(events) <= events && job == Shipping && sides == old(sides) - {seg}
      ensures PicksIn(events) == PicksIn(old(events)) && CleanUpsIn(events) == CleanUpsIn(old(events)) + 1
    {
      ghost var before := View();
      sides, oldSides, job := sides - {seg}, oldSides + {(seg, At(sides, seg))}, Shipping;
      Record(Ship(RemoveSidecar), before);
    }

    /** Everything sealed and not yet verified, one sidecar after another. What was cleaned up is done, and
        whatever else was picked has failed; what was already gone is neither. */
    method ShipAll(listing: seq<Segment>, deliveries: seq<Delivery>, calm: bool)
      returns (done: nat, fail: nat, alive: bool)
      requires Valid() && job == Free && |deliveries| == |listing|
      modifies this
      ensures Valid() && job == Free && old(events) <= events && done + fail <= |listing|
      ensures !alive ==> !calm && Died()
      ensures alive ==> done == CleanUpsIn(events) - CleanUpsIn(old(events))
      ensures alive ==> done + fail == PicksIn(events) - PicksIn(old(events))
    {
      done, fail, alive := 0, 0, true;
      BeginShip();
      for i := 0 to |listing|
        invariant Valid() && job == Shipping && old(events) <= events && done + fail <= i
        invariant done == CleanUpsIn(events) - CleanUpsIn(old(events))
        invariant done + fail == PicksIn(events) - PicksIn(old(events))
      {
        var o := ShipOne(listing[i], deliveries[i], calm);
        match o
        case Shipped => done := done + 1;
        case Refused => fail := fail + 1;
        case Skipped =>
        case Lost => return done, fail, false;
      }
      EndShip();
    }

    method BeginShip()
      requires Valid() && job == Free
      modifies this`job, this`events
      ensures Valid() && old(events) <= events && job == Shipping && SameShipments(old(events), events)
    {
      ghost var before := View();
      job := Shipping;
      Record(Ship(ShipBegin), before);
    }

    method EndShip()
      requires Valid() && job == Shipping
      modifies this`job, this`events
      ensures Valid() && old(events) <= events && job == Free && SameShipments(old(events), events)
    {
      ghost var before := View();
      job := Free;
      Record(Ship(ShipEnd), before);
    }
  }

  function Put<K(==,!new), V>(m: map<K, V>, k: K, v: Option<V>): map<K, V> {
    if v.Some? then m[k := v.value] else m - {k}
  }

  /** Some names back to what they held before, each to a value it is known to have held. */
  function Undo<K(==,!new), V(==)>(m: map<K, V>, back: seq<(K, Option<V>)>, was: set<(K, Option<V>)>): (r: map<K, V>)
    ensures forall k :: At(r, k) == At(m, k) || (k, At(r, k)) in was
  {
    if back == [] then m
    else
      var rest := Undo(m, back[1..], was);
      if back[0] in was then Put(rest, back[0].0, back[0].1) else rest
  }

  lemma PowerLeaves(s: State, left: LedgerFile, copies: map<Segment, map<int, Row>>, notes: map<Segment, Sidecar>)
    requires FaultEnabled(s, PowerCut(left, copies, notes))
    ensures Enabled(s, Fault(PowerCut(left, copies, notes)))
    ensures Next(s, Fault(PowerCut(left, copies, notes))) ==
            State(s.files, s.live, s.committed, left, copies, notes, s.dest, {}, {}, {}, s.oldDest, Free)
  {
  }

  ghost predicate Tops(s: State) {
    forall ino, id :: ino in s.files && id in s.files[ino].rows ==> id <= s.files[ino].top
  }

  lemma TopsStep(s: State, e: Event)
    requires Tops(s) && Enabled(s, e)
    ensures Tops(Next(s, e))
  {
    if !e.Recorder? {
      FilesSame(s, e);
    }
  }

  lemma {:induction false} TopsHold(s: State, events: seq<Event>)
    requires Tops(s) && Runs(s, events)
    ensures Tops(After(s, events))
    decreases |events|
  {
    if events != [] {
      TopsStep(s, events[0]);
      TopsHold(Next(s, events[0]), events[1..]);
    }
  }

  /** `SELECT ... WHERE id > cursor ORDER BY id LIMIT max_rows`: a complete stretch above the cursor. */
  method ReadCut(rows: map<int, Row>, cursor: int, top: int, maxRows: nat)
    returns (content: map<int, Row>, first: int, last: int)
    requires forall id :: id in rows ==> id <= top
    ensures forall ino :: content != map[] ==> IsCut(rows, cursor, Segment(ino, first, last), content)
    // as many as asked for, or else all there are
    ensures |content| <= maxRows && (|content| < maxRows ==> forall id :: id in rows ==> id <= last)
    ensures content == map[] ==> last == cursor
  {
    content := map[];
    first, last := cursor + 1, cursor;
    var id, n := cursor + 1, 0;
    while id <= top && n < maxRows
      invariant cursor <= last < id
      invariant forall k :: k in content <==> k in rows && cursor < k < id
      invariant forall k :: k in content ==> first <= k <= last && content[k] == rows[k]
      invariant |content| == n <= maxRows && (n == 0 ==> last == cursor)
      invariant n > 0 ==> cursor < first && first in content && last in content
    {
      if id in rows {
        if n == 0 {
          first := id;
        }
        last := id;
        content := content[id := rows[id]];
        n := n + 1;
      }
      id := id + 1;
    }
    forall k
      ensures k in content <==> k in rows && cursor + 1 <= k <= last
    {
      assert k in rows && cursor < k < id ==> k in content;
    }
    assert n > 0 ==> content == Window(rows, cursor + 1, last);
  }
}
