/** Why the guard and the outbox copy are needed: concrete runs of the protocol. */
module CopyOffLimits {
  import opened Ledger
  import opened Options
  import opened CopyOffSpec
  import opened CopyOffSafety
  import opened CopyOffGuards

  /** Some run leads from s to t. */
  ghost predicate Reaches(s: State, t: State) {
    exists events :: Runs(s, events) && After(s, events) == t
  }

  lemma ReachesSelf(s: State)
    ensures Reaches(s, s)
  {
    assert Runs(s, []) && After(s, []) == s;
  }

  lemma {:induction false} RunAppend(s: State, events: seq<Event>, e: Event)
    requires Runs(s, events) && Enabled(After(s, events), e)
    ensures Runs(s, events + [e]) && After(s, events + [e]) == Next(After(s, events), e)
    decreases |events|
  {
    if events == [] {
      assert Runs(Next(s, e), []);
      assert ([] + [e])[1..] == [];
    } else {
      RunAppend(Next(s, events[0]), events[1..], e);
      assert (events + [e])[1..] == events[1..] + [e];
    }
  }

  lemma ReachesStep(s: State, t: State, e: Event)
    requires Reaches(s, t) && Enabled(t, e)
    ensures Reaches(s, Next(t, e))
  {
    var events :| Runs(s, events) && After(s, events) == t;
    RunAppend(s, events, e);
  }

  // ---- a cut written without its cursor, and a segment sent ---------------------------------------

  const SEG := Segment(7, 1, 3)
  const ALL: map<int, Row> := map[1 := 10, 2 := 20, 3 := 30]
  const KEPT: map<int, Row> := map[1 := 10, 3 := 30]

  /** The outbox directory as it is seen, all of it on disk. */
  function Settled(s: State): State {
    s.(oldLedgers := {}, oldSources := {}, oldSides := {})
  }

  /** Any cut can be written with its sidecar and then lose its cursor to a crash. */
  lemma SealThenCrash(origin: State, s: State, seg: Segment, content: map<int, Row>)
    requires Reaches(origin, s) && SealEnabled(s, SealBegin) && seg.ino == s.live.value
    requires IsCut(s.files[seg.ino].rows, EntryOf(s, seg.ino).sealedThrough, seg, content)
    ensures Reaches(origin, Settled(s.(outbox := s.outbox[seg := content],
                                       sides := s.sides[seg := Sidecar(EntryOf(s, seg.ino).sealedThrough, content)])))
  {
    ReachesStep(origin, s, Seal(SealBegin));
    var s1 := Next(s, Seal(SealBegin));
    ReachesStep(origin, s1, Seal(ReadRows(seg, content)));
    var s2 := Next(s1, Seal(ReadRows(seg, content)));
    ReachesStep(origin, s2, Seal(PlaceSegment));
    var s3 := Next(s2, Seal(PlaceSegment));
    ReachesStep(origin, s3, SyncDir);
    var s4 := Next(s3, SyncDir);
    ReachesStep(origin, s4, Seal(WriteSidecar));
    var s5 := Next(s4, Seal(WriteSidecar));
    ReachesStep(origin, s5, SyncDir);
    ReachesStep(origin, Next(s5, SyncDir), Fault(Crash));
  }

  /** A segment in the outbox can be picked and copied. */
  lemma SendOne(origin: State, s: State, seg: Segment)
    requires Reaches(origin, s) && s.job.Free? && seg in s.outbox && seg in s.sides
    ensures Reaches(origin, s.(dest := s.dest[seg := Whole(s.outbox[seg])],
                               oldDest := s.oldDest + {(seg, At(s.dest, seg))}, job := Sent(seg, s.sides[seg])))
  {
    ReachesStep(origin, s, Ship(ShipBegin));
    var s1 := Next(s, Ship(ShipBegin));
    ReachesStep(origin, s1, Ship(Pick(seg)));
    ReachesStep(origin, Next(s1, Ship(Pick(seg))), Ship(Transfer(Whole(s.outbox[seg]))));
  }

  /** A faithful copy can be verified and recorded. */
  lemma ConfirmOne(origin: State, s: State, ranges: seq<Range>, through: int)
    requires Reaches(origin, s) && s.job.Sent? && At(s.dest, s.job.seg) == Some(Whole(s.job.side.content))
    requires ShipEnabled(s.(job := Matched(s.job.seg, s.job.side)), SaveVerified(ranges, through))
    ensures
      var seg := s.job.seg;
      var entry := EntryOf(s, seg.ino).(verified := ranges, verifiedThrough := through);
      Reaches(origin, s.(ledger := s.ledger[seg.ino := entry], oldLedgers := s.oldLedgers + {s.ledger},
                         oldDest := Vouch(s.oldDest, seg), job := Recorded(seg)))
  {
    var receipt := Ship(GetReceipt(Answer(true, s.job.side.content)));
    ReachesStep(origin, s, receipt);
    ReachesStep(origin, Next(s, receipt), Ship(SaveVerified(ranges, through)));
  }

  /** And cleaned up, once the ledger is on disk. */
  lemma CleanOne(origin: State, s: State)
    requires Reaches(origin, s) && s.job.Recorded?
    ensures
      var seg := s.job.seg;
      Reaches(origin, Settled(s).(outbox := s.outbox - {seg}, sides := s.sides - {seg},
                                  oldSources := {(seg, At(s.outbox, seg))}, oldSides := {(seg, At(s.sides, seg))},
                                  job := Free))
  {
    ReachesStep(origin, s, SyncDir);
    var s1 := Next(s, SyncDir);
    ReachesStep(origin, s1, Ship(RemoveSource));
    var s2 := Next(s1, Ship(RemoveSource));
    ReachesStep(origin, s2, Ship(RemoveSidecar));
    ReachesStep(origin, Next(s2, Ship(RemoveSidecar)), Ship(ShipEnd));
  }

  lemma CutOfAll()
    ensures IsCut(ALL, 0, SEG, ALL) && IsCut(KEPT, 0, SEG, KEPT) && ALL - {2} == KEPT
  {
    assert ALL == Window(ALL, 1, 3);
    assert KEPT == Window(KEPT, 1, 3);
  }

  // ---- the start of both runs: a crash before the cursor, and the orphan is shipped ------------------

  /** Segment and sidecar are on disk; the crash came before the cursor was saved. */
  const CRASHED := State(map[7 := File(ALL, 3)], Some(7), map[7 := ALL], map[],
                         map[SEG := ALL], map[SEG := Sidecar(0, ALL)], map[], {}, {}, {}, {}, Free)

  const VERIFIED: LedgerFile := map[7 := Entry(0, [Range(1, 3)], 3)]

  /** It was shipped and verified all the same; the ledger that says so is not yet on disk. */
  const RECORDED := CRASHED.(ledger := VERIFIED, oldLedgers := {map[]}, dest := map[SEG := Whole(ALL)],
                             job := Recorded(SEG))

  lemma CrashBeforeCursor()
    ensures Reaches(START, CRASHED)
  {
    ReachesSelf(START);
    ReachesStep(START, START, Recorder(OpenFresh(7)));
    var s1 := Next(START, Recorder(OpenFresh(7)));
    ReachesStep(START, s1, Recorder(Commit(ALL, 3)));
    var s2 := Next(s1, Recorder(Commit(ALL, 3)));
    assert map[] + ALL == ALL;
    CutOfAll();
    SealThenCrash(START, s2, SEG, ALL);
    assert Settled(s2.(outbox := map[SEG := ALL], sides := map[SEG := Sidecar(0, ALL)])) == CRASHED;
  }

  lemma ShipTheOrphan()
    ensures Reaches(START, RECORDED)
  {
    CrashBeforeCursor();
    SendOne(START, CRASHED, SEG);
    var s1 := CRASHED.(dest := map[SEG := Whole(ALL)], oldDest := {(SEG, None)}, job := Sent(SEG, Sidecar(0, ALL)));
    assert Range(1, 3) in [Range(1, 3)];
    ConfirmOne(START, s1, [Range(1, 3)], 3);
    assert Vouch({(SEG, None)}, SEG) == {};
  }

  // ---- run 1: the cursor has fallen behind the licence, and the segment is cut again ------------------

  /** The outbox was cleaned up, and row 2 pruned. */
  const PRUNED := RECORDED.(files := map[7 := File(KEPT, 3)], outbox := map[], sides := map[], oldLedgers := {},
                            oldSources := {(SEG, Some(ALL))}, oldSides := {(SEG, Some(Sidecar(0, ALL)))}, job := Free)

  /** The same id range was cut again, and its shipping replaced the first segment at the destination. */
  const REPLACED := PRUNED.(outbox := map[SEG := KEPT], sides := map[SEG := Sidecar(0, KEPT)], oldSources := {},
                            oldSides := {}, dest := map[SEG := Whole(KEPT)], oldDest := {(SEG, Some(Whole(ALL)))},
                            job := Sent(SEG, Sidecar(0, KEPT)))

  lemma PruneAfterShip()
    ensures Reaches(START, PRUNED)
  {
    ShipTheOrphan();
    CleanOne(START, RECORDED);
    var s1 := Settled(RECORDED).(outbox := map[], sides := map[], oldSources := {(SEG, Some(ALL))},
                                 oldSides := {(SEG, Some(Sidecar(0, ALL)))}, job := Free);
    assert map[SEG := ALL] - {SEG} == map[];
    assert map[SEG := Sidecar(0, ALL)] - {SEG} == map[];
    CutOfAll();
    ReachesStep(START, s1, Recorder(Prune({2})));
    assert Next(s1, Recorder(Prune({2}))) == PRUNED;
  }

  lemma CutAndSendAgain(origin: State, s: State)
    requires Reaches(origin, s) && s.job.Free? && s.live == Some(7) && 7 in s.files && s.files[7].rows == KEPT
    requires EntryOf(s, 7).sealedThrough == 0
    ensures Reaches(origin, Settled(s).(outbox := s.outbox[SEG := KEPT], sides := s.sides[SEG := Sidecar(0, KEPT)],
                                        dest := s.dest[SEG := Whole(KEPT)],
                                        oldDest := s.oldDest + {(SEG, At(s.dest, SEG))},
                                        job := Sent(SEG, Sidecar(0, KEPT))))
  {
    CutOfAll();
    SealThenCrash(origin, s, SEG, KEPT);
    SendOne(origin, Settled(s.(outbox := s.outbox[SEG := KEPT], sides := s.sides[SEG := Sidecar(0, KEPT)])), SEG);
  }

  /** THE CODE CAN LOSE A ROW: without the guard this run ends with row 2 nowhere at all. */
  lemma RecutLosesRow()
    ensures Reaches(START, PRUNED) && !CursorAhead(PRUNED, 7) && !CutAllowed(PRUNED, SEG, KEPT, false)
    ensures Reaches(START, REPLACED) && !NoLoss(REPLACED, false)
  {
    PruneAfterShip();
    CutAndSendAgain(START, PRUNED);
    assert Gone(PRUNED, 7, 2) && 2 !in KEPT;
    assert !OnBoat(REPLACED, 7, 2) && !OffBoat(REPLACED, 7, 2, false);
  }

  // ---- run 2: the prune obeyed a ledger that a power cut then undid ----------------------------------

  /** Row 2 was pruned under a ledger not yet on disk, and the power cut brought the one before it back. */
  const UNDONE := RECORDED.(files := map[7 := File(KEPT, 3)], ledger := map[], oldLedgers := {}, job := Free)

  const LOST := UNDONE.(outbox := map[SEG := KEPT], sides := map[SEG := Sidecar(0, KEPT)],
                        dest := map[SEG := Whole(KEPT)], oldDest := {(SEG, Some(Whole(ALL)))},
                        job := Sent(SEG, Sidecar(0, KEPT)))

  lemma PruneThenPowerCut()
    ensures Reaches(START, UNDONE)
    ensures RecorderEnabled(RECORDED, Prune({2})) && !OnDisk(RECORDED, {2})
  {
    ShipTheOrphan();
    CutOfAll();
    ReachesStep(START, RECORDED, Recorder(Prune({2})));
    var s1 := Next(RECORDED, Recorder(Prune({2})));
    var cut := Fault(PowerCut(map[], s1.outbox, s1.sides));
    ReachesStep(START, s1, cut);
    assert Next(s1, cut) == UNDONE;
    var none: LedgerFile := map[];
    assert none in RECORDED.oldLedgers && EntryIn(none, 7).verifiedThrough == 0;
  }

  /** THE CURSOR ALONE IS NO GUARD: the ledger that is left says nothing was verified, so the cursor is not
      behind it; the same range is cut again, shipped over the only carrier, and row 2 is nowhere. */
  lemma UndoneSaveLosesRow()
    ensures Reaches(START, UNDONE) && CursorAhead(UNDONE, 7) && !HalfCleaned(UNDONE, SEG)
    ensures !CutAllowed(UNDONE, SEG, KEPT, false)
    ensures Reaches(START, LOST) && !NoLoss(LOST, false) && !NoLoss(LOST, true)
  {
    PruneThenPowerCut();
    CutAndSendAgain(START, UNDONE);
    assert Gone(UNDONE, 7, 2) && 2 !in KEPT;
    assert !OnBoat(LOST, 7, 2) && !OffBoat(LOST, 7, 2, false) && !OffBoat(LOST, 7, 2, true);
  }

  // ---- run 3: a re-sent segment, and a receiver that does not replace files atomically ---------------

  /** Shipped, recorded and pruned, but killed before the outbox copy was deleted: the next ship has
      just picked the segment up again. */
  const UNCLEAN := State(map[7 := File(KEPT, 3)], Some(7), map[7 := ALL],
                         map[7 := Entry(3, [Range(1, 3)], 3)],
                         map[SEG := ALL], map[SEG := Sidecar(0, ALL)], map[SEG := Whole(ALL)],
                         {}, {}, {}, {}, Picked(SEG, Sidecar(0, ALL)))

  /** In a state the guarded protocol allows, one broken re-send leaves row 2 only in the outbox:
      without an atomic receiver the outbox copy is part of "not lost". */
  lemma ResendNeedsOutbox()
    ensures Inv(UNCLEAN, true) && Inv(UNCLEAN, false)
    ensures Enabled(UNCLEAN, Ship(Transfer(Damaged))) && Careful(UNCLEAN, Ship(Transfer(Damaged)), false)
    ensures NoLoss(Next(UNCLEAN, Ship(Transfer(Damaged))), false)
    ensures !NoLoss(Next(UNCLEAN, Ship(Transfer(Damaged))), true)
  {
    UncleanInv(true);
    UncleanInv(false);
    var t := Next(UNCLEAN, Ship(Transfer(Damaged)));
    StepKeeps(UNCLEAN, Ship(Transfer(Damaged)), false);
    InvImpliesNoLoss(t, false);
    assert 2 in t.committed[7] && !OnBoat(t, 7, 2) && !OffBoat(t, 7, 2, true);
  }

  lemma UncleanFiles()
    ensures FilesOK(UNCLEAN) && LedgersOK(UNCLEAN)
  {
    assert Range(1, 3) in [Range(1, 3)];
    assert forall id :: Covered(UNCLEAN.ledger[7].verified, id) <==> 1 <= id <= 3;
    assert LedgerOK(UNCLEAN, UNCLEAN.ledger);
  }

  lemma UncleanOutbox(atomic: bool)
    requires FilesOK(UNCLEAN)
    ensures JobOK(UNCLEAN) && StandOK(UNCLEAN) && NamesOK(UNCLEAN, atomic)
    ensures forall id :: 1 <= id <= 3 ==> Safe(UNCLEAN, SEG, id, atomic)
  {
    assert Faithful(UNCLEAN, SEG, ALL);
    assert SideOK(UNCLEAN, SEG, Sidecar(0, ALL));
    assert forall o :: (SEG, o) !in UNCLEAN.oldDest;
  }

  lemma UncleanInv(atomic: bool)
    ensures Inv(UNCLEAN, atomic)
  {
    UncleanFiles();
    UncleanOutbox(atomic);
  }
}
