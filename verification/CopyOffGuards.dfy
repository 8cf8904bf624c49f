/** Two guards the programs could test before a cut, and what each of them needs. */
module CopyOffGuards {
  import opened Ledger
  import opened Options
  import opened CopyOffSpec
  import opened CopyOffSafety

  // ---- ask the destination -----------------------------------------------------------------------

  /** Every cut takes a name under which nothing was ever sent. */
  ghost predicate FreshRun(s: State, events: seq<Event>)
    requires Runs(s, events)
    decreases |events|
  {
    events == [] ||
    ((events[0].Seal? && events[0].c.ReadRows? ==> events[0].c.seg !in s.dest)
     && FreshRun(Next(s, events[0]), events[1..]))
  }

  /** What the receiver keeps, whatever the cuts are. */
  ghost predicate GoodReceiver(s: State, e: Event, atomic: bool) {
    (e.Ship? && e.h.Transfer?) || (e.Fault? && e.f.ReceiverCut?) ==> Careful(s, e, atomic)
  }

  ghost predicate GoodReceiverRun(s: State, events: seq<Event>, atomic: bool)
    requires Runs(s, events)
    decreases |events|
  {
    events == [] || (GoodReceiver(s, events[0], atomic) && GoodReceiverRun(Next(s, events[0]), events[1..], atomic))
  }

  lemma FreshCutAllowed(s: State, seg: Segment, content: map<int, Row>, atomic: bool)
    requires Inv(s, atomic) && seg !in s.dest
    ensures CutAllowed(s, seg, content, atomic)
  {
    forall id | Gone(s, seg.ino, id)
      ensures HeldElsewhere(s, seg, id, atomic)
    {
      var seg2: Segment :| seg2.ino == seg.ino && Safe(s, seg2, id, atomic);
      assert seg2 in s.dest;
    }
    if HalfCleaned(s, seg) {
      assert WrittenSide(s, seg, s.sides[seg]);
    }
  }

  lemma {:induction false} FreshIsCareful(s: State, events: seq<Event>, atomic: bool)
    requires Inv(s, atomic) && Runs(s, events) && FreshRun(s, events) && GoodReceiverRun(s, events, atomic)
    ensures CarefulRun(s, events, atomic)
    decreases |events|
  {
    if events != [] {
      var e := events[0];
      if e.Seal? && e.c.ReadRows? {
        FreshCutAllowed(s, e.c.seg, e.c.content, atomic);
      }
      StepKeeps(s, e, atomic);
      FreshIsCareful(Next(s, e), events[1..], atomic);
    }
  }

  /** FRESH NAMES ARE ENOUGH: if no cut takes the name of a segment that is at the destination, nothing is
      lost. */
  lemma FreshNothingLost(events: seq<Event>, atomic: bool)
    requires Runs(START, events) && FreshRun(START, events) && GoodReceiverRun(START, events, atomic)
    ensures NoLoss(After(START, events), atomic)
  {
    StartInv(atomic);
    FreshIsCareful(START, events, atomic);
    NothingLost(START, events, atomic);
  }

  // ---- look at the boat's own ledger ---------------------------------------------------------------

  /** The cursor is not behind the ids the prune is licensed to delete. */
  predicate CursorAhead(s: State, ino: Ino) {
    EntryOf(s, ino).verifiedThrough <= EntryOf(s, ino).sealedThrough
  }

  /** The licence is on disk: no ledger that a power cut could bring back says less. */
  ghost predicate OnDisk(s: State, gone: set<int>) {
    s.live.Some? ==> forall ledger: LedgerFile, id ::
      ledger in s.oldLedgers && id in gone ==> id <= EntryIn(ledger, s.live.value).verifiedThrough
  }

  /** Each prune obeys a licence that is on disk; each cut starts where the licence ends, or later, and not
      under a half cleaned-up name (which only a receiver that writes in place needs), or takes a fresh name. */
  ghost predicate BoatCareful(s: State, e: Event, atomic: bool) {
    match e
    case Recorder(Prune(gone)) => OnDisk(s, gone)
    case Seal(ReadRows(seg, _)) => seg !in s.dest || (CursorAhead(s, seg.ino) && (atomic || !HalfCleaned(s, seg)))
    case _ => GoodReceiver(s, e, atomic)
  }

  ghost predicate BoatCarefulRun(s: State, events: seq<Event>, atomic: bool)
    requires Runs(s, events)
    decreases |events|
  {
    events == [] || (BoatCareful(s, events[0], atomic) && BoatCarefulRun(Next(s, events[0]), events[1..], atomic))
  }

  /** Every possible ledger licenses what is gone. */
  ghost predicate Licensed(s: State) {
    forall ledger: LedgerFile, ino, id :: Possible(s, ledger) && Gone(s, ino, id) ==>
      id <= EntryIn(ledger, ino).verifiedThrough
  }

  lemma RecordRaises(s: State, e: ShipEvent, ino: Ino)
    requires LedgersOK(s) && e.SaveVerified? && ShipEnabled(s, e)
    ensures EntryOf(s, ino).verifiedThrough <= EntryOf(ShipNext(s, e), ino).verifiedThrough
            || (ino == s.job.seg.ino && ino !in s.ledger)
  {
    assert LedgerOK(s, s.ledger);
    if ino == s.job.seg.ino && ino in s.ledger {
      var entry := s.ledger[ino];
      ContiguousThroughMonotone(entry.verified, entry.verifiedThrough, e.ranges, e.through);
    }
  }

  lemma LicenceGrows(s: State, e: Event, ledger: LedgerFile, ino: Ino, id: int)
    requires FilesOK(s) && LedgersOK(s) && Licensed(s) && Enabled(s, e) && Possible(Next(s, e), ledger)
    requires Gone(s, ino, id)
    ensures id <= EntryIn(ledger, ino).verifiedThrough
  {
    LedgersBefore(s, e, ledger);
    assert 1 <= id <= EntryOf(s, ino).verifiedThrough;
    if !Possible(s, ledger) && e.Ship? {
      RecordRaises(s, e.h, ino);
    }
  }

  lemma PrunedOnDisk(s: State, e: Event, ledger: LedgerFile, ino: Ino, id: int, atomic: bool)
    requires FilesOK(s) && Enabled(s, e) && BoatCareful(s, e, atomic) && Possible(Next(s, e), ledger)
    requires Gone(Next(s, e), ino, id) && !Gone(s, ino, id)
    ensures id <= EntryIn(ledger, ino).verifiedThrough
  {
    if !e.Recorder? {
      FilesSame(s, e);
    }
  }

  lemma LicensedKept(s: State, e: Event, atomic: bool)
    requires FilesOK(s) && LedgersOK(s) && Licensed(s) && Enabled(s, e) && BoatCareful(s, e, atomic)
    ensures Licensed(Next(s, e))
  {
    var t := Next(s, e);
    forall ledger: LedgerFile, ino, id | Possible(t, ledger) && Gone(t, ino, id)
      ensures id <= EntryIn(ledger, ino).verifiedThrough
    {
      if Gone(s, ino, id) {
        LicenceGrows(s, e, ledger, ino, id);
      } else {
        PrunedOnDisk(s, e, ledger, ino, id, atomic);
      }
    }
  }

  /** If the licence has not passed the cursor, a cut holds every row ever committed in its range. */
  lemma CutComplete(s: State, seg: Segment, content: map<int, Row>)
    requires FilesOK(s) && Licensed(s) && SealEnabled(s, ReadRows(seg, content)) && CursorAhead(s, seg.ino)
    ensures content == Window(s.committed[seg.ino], EntryOf(s, seg.ino).sealedThrough + 1, seg.last)
  {
    var i := seg.ino;
    forall id | id in s.committed[i] && EntryOf(s, i).sealedThrough < id <= seg.last
      ensures id in content && content[id] == s.committed[i][id]
    {
      assert Possible(s, s.ledger) && !Gone(s, i, id);
    }
  }

  lemma AheadCutAllowed(s: State, seg: Segment, content: map<int, Row>, atomic: bool)
    requires Inv(s, atomic) && Licensed(s) && SealEnabled(s, ReadRows(seg, content))
    requires CursorAhead(s, seg.ino) && (atomic || !HalfCleaned(s, seg))
    ensures CutAllowed(s, seg, content, atomic)
  {
    CutComplete(s, seg, content);
    forall id | Gone(s, seg.ino, id) && id !in content
      ensures HeldElsewhere(s, seg, id, atomic)
    {
      var seg2: Segment :| seg2.ino == seg.ino && Safe(s, seg2, id, atomic);
      assert InRange(s, seg2, id);
    }
  }

  lemma {:induction false} BoatIsCareful(s: State, events: seq<Event>, atomic: bool)
    requires Inv(s, atomic) && Licensed(s) && Runs(s, events) && BoatCarefulRun(s, events, atomic)
    ensures CarefulRun(s, events, atomic)
    decreases |events|
  {
    if events != [] {
      var e := events[0];
      if e.Seal? && e.c.ReadRows? {
        if e.c.seg !in s.dest {
          FreshCutAllowed(s, e.c.seg, e.c.content, atomic);
        } else {
          AheadCutAllowed(s, e.c.seg, e.c.content, atomic);
        }
      }
      StepKeeps(s, e, atomic);
      LicensedKept(s, e, atomic);
      BoatIsCareful(Next(s, e), events[1..], atomic);
    }
  }

  /** A LICENCE ON DISK MAKES THE CURSOR ENOUGH: if the prune obeys only what is fsynced, the boat's own
      ledger tells which cuts are safe, and nothing is lost. */
  lemma BoatNothingLost(events: seq<Event>, atomic: bool)
    requires Runs(START, events) && BoatCarefulRun(START, events, atomic)
    ensures NoLoss(After(START, events), atomic)
  {
    StartInv(atomic);
    BoatIsCareful(START, events, atomic);
    NothingLost(START, events, atomic);
  }
}
