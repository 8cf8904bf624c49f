/** No committed row is lost: when that holds, and why. */
module CopyOffSafety {
  import opened Ledger
  import opened Options
  import opened CopyOffSpec

  // ---- what is claimed -----------------------------------------------------------------------

  /** A committed row of the segment's range. */
  predicate InRange(s: State, seg: Segment, id: int) {
    seg.ino in s.committed && seg.first <= id <= seg.last && id in s.committed[seg.ino]
  }

  predicate Holds(s: State, obj: Object, seg: Segment, id: int)
    requires InRange(s, seg, id)
  {
    obj.Whole? && id in obj.rows && obj.rows[id] == s.committed[seg.ino][id]
  }

  /** The destination holds this row under `seg`; while a sent segment is still in the outbox, that
      copy counts too, unless the receiver replaces files atomically. */
  predicate Carries(s: State, seg: Segment, id: int, atomic: bool) {
    && InRange(s, seg, id) && seg in s.dest
    && (Holds(s, s.dest[seg], seg, id)
        || (!atomic && seg in s.outbox && id in s.outbox[seg] && s.outbox[seg][id] == s.committed[seg.ino][id]))
  }

  ghost predicate OffBoat(s: State, ino: Ino, id: int, atomic: bool) {
    exists seg: Segment :: seg.ino == ino && Carries(s, seg, id, atomic)
  }

  /** In the live file or one moved aside. */
  predicate OnBoat(s: State, ino: Ino, id: int) {
    && ino in s.files && ino in s.committed && id in s.committed[ino]
    && id in s.files[ino].rows && s.files[ino].rows[id] == s.committed[ino][id]
  }

  ghost predicate NoLoss(s: State, atomic: bool) {
    forall ino, id :: ino in s.committed && id in s.committed[ino] ==>
      OnBoat(s, ino, id) || OffBoat(s, ino, id, atomic)
  }

  predicate Gone(s: State, ino: Ino, id: int) {
    ino in s.files && ino in s.committed && id in s.committed[ino] && id !in s.files[ino].rows
  }

  // ---- what stands under a segment's name -----------------------------------------------------------

  /** An outbox copy, or one that a power cut can bring back. */
  ghost predicate Source(s: State, seg: Segment, content: map<int, Row>) {
    At(s.outbox, seg) == Some(content) || (seg, Some(content)) in s.oldSources
  }

  /** The sidecar the current job works with. */
  predicate JobSide(s: State, seg: Segment, side: Sidecar) {
    match s.job
    case Cut(_, g, d) => g == seg && d == side
    case Placed(_, g, d) => g == seg && d == side
    case Picked(g, d) => g == seg && d == side
    case Sent(g, d) => g == seg && d == side
    case Matched(g, d) => g == seg && d == side
    case _ => false
  }

  ghost predicate WrittenSide(s: State, seg: Segment, side: Sidecar) {
    At(s.sides, seg) == Some(side) || (seg, Some(side)) in s.oldSides
  }

  ghost predicate Side(s: State, seg: Segment, side: Sidecar) {
    WrittenSide(s, seg, side) || JobSide(s, seg, side)
  }

  /** Whatever is done with what stands under this name, the row is in it. */
  ghost predicate Solid(s: State, seg: Segment, id: int) {
    && (forall content :: Source(s, seg, content) ==> id in content)
    && (forall side :: Side(s, seg, side) ==> id in side.content)
  }

  /** The receiver will not lose the name itself. */
  predicate Anchored(s: State, seg: Segment) {
    seg in s.dest && (seg, None) !in s.oldDest
  }

  /** A power cut will leave some copy in the outbox. */
  predicate NoGap(s: State, seg: Segment) {
    seg in s.outbox && (seg, None) !in s.oldSources
  }

  /** Whatever a cut at the receiver leaves under the name, the row is in it. */
  ghost predicate DestHolds(s: State, seg: Segment, id: int, atomic: bool)
    requires InRange(s, seg, id)
  {
    && seg in s.dest && Holds(s, s.dest[seg], seg, id)
    && (if atomic then forall o :: (seg, Some(o)) in s.oldDest ==> Holds(s, o, seg, id) else !Unvouched(s, seg))
  }

  ghost predicate CopyHolds(s: State, seg: Segment, id: int) {
    NoGap(s, seg) && forall content :: Source(s, seg, content) ==> id in content
  }

  /** Carried, and still so after a power cut on either side. */
  ghost predicate Lasting(s: State, seg: Segment, id: int, atomic: bool) {
    && InRange(s, seg, id) && Anchored(s, seg)
    && (DestHolds(s, seg, id, atomic) || (!atomic && CopyHolds(s, seg, id)))
  }

  /** And nothing that can be done under that name takes it away. */
  ghost predicate Safe(s: State, seg: Segment, id: int, atomic: bool) {
    Lasting(s, seg, id, atomic) && Solid(s, seg, id)
  }

  ghost predicate Held(s: State, ino: Ino, id: int, atomic: bool) {
    exists seg: Segment :: seg.ino == ino && Safe(s, seg, id, atomic)
  }

  ghost predicate HeldElsewhere(s: State, seg: Segment, id: int, atomic: bool) {
    exists seg2: Segment :: seg2.ino == seg.ino && seg2 != seg && Safe(s, seg2, id, atomic)
  }

  // ---- the guard -----------------------------------------------------------------------------------

  /** A sidecar without its segment: a clean-up cut short. */
  predicate HalfCleaned(s: State, seg: Segment) {
    seg in s.sides && seg !in s.outbox
  }

  /** A cut holds every row that has left its file, or leaves it to another name. With a receiver that
      writes in place, its name is not half cleaned up. */
  ghost predicate CutAllowed(s: State, seg: Segment, content: map<int, Row>, atomic: bool) {
    && (atomic || !HalfCleaned(s, seg))
    && forall id :: Gone(s, seg.ino, id) ==> id in content || HeldElsewhere(s, seg, id, atomic)
  }

  /** Cuts respect the guard; an atomic receiver keeps the whole source or what it had. */
  ghost predicate Careful(s: State, e: Event, atomic: bool) {
    match e
    case Seal(ReadRows(seg, content)) => CutAllowed(s, seg, content, atomic)
    case Ship(Transfer(obj)) => s.job.Picked? && atomic ==> At(s.outbox, s.job.seg) == Some(UnWhole(obj)) && obj.Whole?
    case Fault(ReceiverCut(dest)) =>
      atomic ==> forall seg :: At(dest, seg) == At(s.dest, seg) || (seg, At(dest, seg)) in s.oldDest
    case _ => true
  }

  function UnWhole(obj: Object): map<int, Row> {
    if obj.Whole? then obj.rows else map[]
  }

  ghost predicate CarefulRun(s: State, events: seq<Event>, atomic: bool)
    requires Runs(s, events)
    decreases |events|
  {
    events == [] || (Careful(s, events[0], atomic) && CarefulRun(Next(s, events[0]), events[1..], atomic))
  }

  // ---- the invariant ---------------------------------------------------------------------------

  ghost predicate FilesOK(s: State) {
    && s.files.Keys == s.committed.Keys
    && (s.live.Some? ==> s.live.value in s.files)
    && (forall ino, id :: ino in s.files && id in s.committed[ino] ==> 1 <= id <= s.files[ino].top)
    && (forall ino, id :: ino in s.files && id in s.files[ino].rows ==>
          id in s.committed[ino] && s.files[ino].rows[id] == s.committed[ino][id])
  }

  /** A ledger that is seen, or that a power cut can bring back. */
  predicate Possible(s: State, ledger: LedgerFile) {
    ledger == s.ledger || ledger in s.oldLedgers
  }

  ghost predicate LedgerOK(s: State, ledger: LedgerFile) {
    && ledger.Keys <= s.files.Keys
    && (forall ino :: ino in ledger ==> IsContiguousThrough(ledger[ino].verified, ledger[ino].verifiedThrough))
    && (forall ino, id :: ino in ledger && Covered(ledger[ino].verified, id) ==> id <= s.files[ino].top)
  }

  ghost predicate LedgersOK(s: State) {
    forall ledger: LedgerFile :: Possible(s, ledger) ==> LedgerOK(s, ledger)
  }

  /** Only committed rows of the segment's range, and every one of them that is still in the file; no row
      can be added to that range. */
  ghost predicate Faithful(s: State, seg: Segment, content: map<int, Row>) {
    && seg.ino in s.files && seg.ino in s.committed && seg.first <= seg.last <= s.files[seg.ino].top
    && (forall id :: id in content ==> InRange(s, seg, id) && content[id] == s.committed[seg.ino][id])
    && (forall id :: id in s.files[seg.ino].rows && seg.first <= id <= seg.last ==> id in content)
  }

  /** And nothing in the file lies between the cursor and the first row. */
  ghost predicate SideOK(s: State, seg: Segment, side: Sidecar) {
    && Faithful(s, seg, side.content) && side.cursorBefore < s.files[seg.ino].top
    && (forall id :: id in s.files[seg.ino].rows ==> !(side.cursorBefore < id < seg.first))
  }

  ghost predicate StandOK(s: State) {
    && (forall seg, content :: Source(s, seg, content) ==> Faithful(s, seg, content))
    && (forall seg, side :: Side(s, seg, side) ==> SideOK(s, seg, side))
  }

  /** Where a sidecar stands, or can come back, a copy stands for good, here or at the receiver. */
  ghost predicate SidesBacked(s: State) {
    forall seg, side :: WrittenSide(s, seg, side) ==> NoGap(s, seg) || Anchored(s, seg)
  }

  /** Nothing is sent from a copy that a power cut could take away. */
  ghost predicate SendsLast(s: State) {
    forall seg :: seg in s.sides && (seg in s.outbox || (s.job.Cut? && s.job.seg == seg)) ==> NoGap(s, seg)
  }

  ghost predicate DestKept(s: State) {
    forall seg :: Unvouched(s, seg) ==> seg in s.dest
  }

  ghost predicate NamesOK(s: State, atomic: bool) {
    SidesBacked(s) && DestKept(s) && (!atomic ==> SendsLast(s))
  }

  predicate InOutbox(s: State, seg: Segment, side: Sidecar) {
    At(s.outbox, seg).Some? && At(s.sides, seg) == Some(side)
  }

  ghost predicate Verified(s: State, seg: Segment, side: Sidecar) {
    InOutbox(s, seg, side) && At(s.dest, seg) == Some(Whole(side.content)) && !Unvouched(s, seg)
  }

  ghost predicate JobOK(s: State) {
    match s.job
    case Free => true
    case Sealing(ino) => ino in s.files
    case Cut(ino, seg, side) => seg.ino == ino
    case Placed(ino, seg, side) => seg.ino == ino && At(s.outbox, seg) == Some(side.content)
    case Sided(ino, seg) => seg.ino == ino && ino in s.files
    case Moved(ino) => ino in s.files
    case Shipping => true
    case Picked(seg, side) => InOutbox(s, seg, side)
    case Sent(seg, side) => InOutbox(s, seg, side)
    case Matched(seg, side) => Verified(s, seg, side)
    case Recorded(seg) => At(s.sides, seg).Some? && Verified(s, seg, At(s.sides, seg).value)
    case SourceGone(seg) => true
  }

  /** A row leaves its file only when it is held. */
  ghost predicate GoneOK(s: State, atomic: bool) {
    forall ino, id :: Gone(s, ino, id) ==> Held(s, ino, id, atomic)
  }

  /** So is every row that a ledger, seen or to come back, calls verified. */
  ghost predicate VerifiedOK(s: State, atomic: bool) {
    forall ledger: LedgerFile, ino, id ::
      Possible(s, ledger) && ino in ledger && ino in s.committed && id in s.committed[ino]
      && Covered(ledger[ino].verified, id)
      ==> Held(s, ino, id, atomic)
  }

  /** The files and what stands in the outbox. */
  ghost predicate Standing(s: State, atomic: bool) {
    FilesOK(s) && LedgersOK(s) && StandOK(s) && NamesOK(s, atomic) && JobOK(s)
  }

  ghost predicate Inv(s: State, atomic: bool) {
    Standing(s, atomic) && GoneOK(s, atomic) && VerifiedOK(s, atomic)
  }

  // ---- files -----------------------------------------------------------------------------------

  /** What every step does to the history: files stay known, new ids go above the old top, and no row
      comes back into a file. */
  ghost predicate Extends(s: State, t: State) {
    && s.files.Keys <= t.files.Keys && s.committed.Keys <= t.committed.Keys
    && (forall ino :: ino in s.files ==> s.files[ino].top <= t.files[ino].top)
    && (forall ino, id :: ino in s.files && ino in s.committed && id <= s.files[ino].top ==>
          (id in t.committed[ino] <==> id in s.committed[ino]))
    && (forall ino, id :: ino in s.committed && id in s.committed[ino] ==>
          id in t.committed[ino] && t.committed[ino][id] == s.committed[ino][id])
    && (forall ino, id :: ino in s.files && id <= s.files[ino].top && id in t.files[ino].rows ==>
          id in s.files[ino].rows)
  }

  lemma FilesSame(s: State, e: Event)
    requires Enabled(s, e) && !e.Recorder?
    ensures Next(s, e).files == s.files && Next(s, e).committed == s.committed && Next(s, e).live == s.live
  {
    match e
    case Recorder(r) =>
    case Seal(c) =>
    case Ship(h) =>
    case SyncDir =>
    case Fault(f) =>
  }

  lemma RecorderExtends(s: State, e: RecorderEvent)
    requires FilesOK(s) && RecorderEnabled(s, e)
    ensures Extends(s, RecorderNext(s, e))
  {
    var t := RecorderNext(s, e);
    forall ino, id | ino in s.files && id <= s.files[ino].top
      ensures id in t.committed[ino] <==> id in s.committed[ino]
    {
    }
  }

  lemma RecorderKeepsFiles(s: State, e: RecorderEvent)
    requires FilesOK(s) && RecorderEnabled(s, e)
    ensures FilesOK(RecorderNext(s, e))
  {
  }

  lemma FilesKept(s: State, e: Event)
    requires FilesOK(s) && Enabled(s, e)
    ensures FilesOK(Next(s, e)) && Extends(s, Next(s, e))
  {
    if e.Recorder? {
      RecorderKeepsFiles(s, e.r);
      RecorderExtends(s, e.r);
    } else {
      FilesSame(s, e);
    }
  }

  /** Only the prune takes a row from its file, and only one at or below the verified id. */
  lemma RowsStay(s: State, e: Event, ino: Ino, id: int)
    requires FilesOK(s) && Enabled(s, e) && Gone(Next(s, e), ino, id) && !Gone(s, ino, id)
    ensures e.Recorder? && e.r.Prune? && id in e.r.gone
    ensures ino in s.files && id in s.committed[ino] && id <= EntryOf(s, ino).verifiedThrough
  {
    if !e.Recorder? {
      FilesSame(s, e);
    }
  }

  // ---- ledgers ---------------------------------------------------------------------------------

  lemma LedgerKept(s: State, t: State, ledger: LedgerFile)
    requires Extends(s, t) && LedgerOK(s, ledger)
    ensures LedgerOK(t, ledger)
  {
  }

  /** A step shows no ledger but one that was possible, or one it writes. */
  lemma LedgersBefore(s: State, e: Event, ledger: LedgerFile)
    requires Enabled(s, e) && Possible(Next(s, e), ledger)
    ensures Possible(s, ledger) || (ledger == Next(s, e).ledger
                                    && (e == Seal(SaveCursor) || (e.Ship? && e.h.SaveVerified?)))
  {
    match e
    case Recorder(r) =>
    case Seal(c) => if c.SaveCursor? {}
    case Ship(h) => if h.SaveVerified? {}
    case SyncDir =>
    case Fault(f) => if f.PowerCut? {}
  }

  lemma CursorLedger(s: State)
    requires FilesOK(s) && LedgersOK(s) && JobOK(s) && SealEnabled(s, SaveCursor)
    ensures LedgerOK(s, SealNext(s, SaveCursor).ledger)
  {
    assert LedgerOK(s, s.ledger);
    if s.job.ino !in s.ledger {
      assert IsContiguousThrough([], 0);
    }
  }

  lemma RecordLedger(s: State, e: ShipEvent)
    requires FilesOK(s) && LedgersOK(s) && e.SaveVerified? && ShipEnabled(s, e)
    requires SideOK(s, s.job.seg, s.job.side)
    ensures LedgerOK(s, ShipNext(s, e).ledger)
  {
    assert LedgerOK(s, s.ledger);
    var i := s.job.seg.ino;
    forall id | Covered(e.ranges, id)
      ensures id <= s.files[i].top
    {
      if Covered(EntryOf(s, i).verified, id) {
        assert i in s.ledger;
      }
    }
  }

  lemma LedgersKept(s: State, e: Event)
    requires FilesOK(s) && LedgersOK(s) && StandOK(s) && JobOK(s) && Enabled(s, e) && Extends(s, Next(s, e))
    ensures LedgersOK(Next(s, e))
  {
    var t := Next(s, e);
    forall ledger: LedgerFile | Possible(t, ledger)
      ensures LedgerOK(t, ledger)
    {
      LedgersBefore(s, e, ledger);
      if Possible(s, ledger) {
        LedgerKept(s, t, ledger);
      } else if e.Seal? {
        CursorLedger(s);
      } else {
        assert Side(s, s.job.seg, s.job.side);
        RecordLedger(s, e.h);
      }
    }
  }

  // ---- what stands -------------------------------------------------------------------------------

  lemma FaithfulKept(s: State, t: State, seg: Segment, content: map<int, Row>)
    requires Extends(s, t) && Faithful(s, seg, content)
    ensures Faithful(t, seg, content)
  {
  }

  lemma SideKept(s: State, t: State, seg: Segment, side: Sidecar)
    requires Extends(s, t) && SideOK(s, seg, side)
    ensures SideOK(t, seg, side)
  {
    FaithfulKept(s, t, seg, side.content);
  }

  /** What a cut reads is faithful, whatever has been pruned before it. */
  lemma CutFaithful(s: State, seg: Segment, content: map<int, Row>)
    requires FilesOK(s) && SealEnabled(s, ReadRows(seg, content))
    ensures SideOK(s, seg, SealNext(s, ReadRows(seg, content)).job.side)
  {
    assert seg.last in s.files[seg.ino].rows;
  }

  /** A step puts nothing new under a name but what a cut just read. */
  lemma SourcesBefore(s: State, e: Event, seg: Segment, content: map<int, Row>)
    requires Enabled(s, e) && Source(Next(s, e), seg, content)
    ensures Source(s, seg, content)
            || (e == Seal(PlaceSegment) && s.job.seg == seg && s.job.side.content == content)
  {
    match e
    case Recorder(r) =>
    case Seal(c) => SealSources(s, c, seg, content);
    case Ship(h) => ShipSources(s, h, seg, content);
    case SyncDir =>
    case Fault(f) =>
  }

  lemma SealSources(s: State, c: SealEvent, seg: Segment, content: map<int, Row>)
    requires SealEnabled(s, c) && Source(SealNext(s, c), seg, content)
    ensures Source(s, seg, content) || (c.PlaceSegment? && s.job.seg == seg && s.job.side.content == content)
  {
  }

  lemma ShipSources(s: State, h: ShipEvent, seg: Segment, content: map<int, Row>)
    requires ShipEnabled(s, h) && Source(ShipNext(s, h), seg, content)
    ensures Source(s, seg, content)
  {
  }

  lemma WrittenBefore(s: State, e: Event, seg: Segment, side: Sidecar)
    requires Enabled(s, e) && WrittenSide(Next(s, e), seg, side)
    ensures WrittenSide(s, seg, side) || (e == Seal(WriteSidecar) && s.job.seg == seg && s.job.side == side)
  {
    match e
    case Recorder(r) =>
    case Seal(c) => SealWritten(s, c, seg, side);
    case Ship(h) => ShipWritten(s, h, seg, side);
    case SyncDir =>
    case Fault(f) =>
  }

  lemma SealWritten(s: State, c: SealEvent, seg: Segment, side: Sidecar)
    requires SealEnabled(s, c) && WrittenSide(SealNext(s, c), seg, side)
    ensures WrittenSide(s, seg, side) || (c.WriteSidecar? && s.job.seg == seg && s.job.side == side)
  {
  }

  lemma ShipWritten(s: State, h: ShipEvent, seg: Segment, side: Sidecar)
    requires ShipEnabled(s, h) && WrittenSide(ShipNext(s, h), seg, side)
    ensures WrittenSide(s, seg, side)
  {
  }

  lemma JobSideBefore(s: State, e: Event, seg: Segment, side: Sidecar)
    requires Enabled(s, e) && JobSide(Next(s, e), seg, side)
    ensures Side(s, seg, side)
            || (e.Seal? && e.c.ReadRows? && e.c.seg == seg && side == SealNext(s, e.c).job.side)
  {
    match e
    case Recorder(r) =>
    case Seal(c) => SealJobSide(s, c, seg, side);
    case Ship(h) => ShipJobSide(s, h, seg, side);
    case SyncDir =>
    case Fault(f) =>
  }

  lemma SealJobSide(s: State, c: SealEvent, seg: Segment, side: Sidecar)
    requires SealEnabled(s, c) && JobSide(SealNext(s, c), seg, side)
    ensures JobSide(s, seg, side) || (c.ReadRows? && c.seg == seg && side == SealNext(s, c).job.side)
  {
  }

  lemma ShipJobSide(s: State, h: ShipEvent, seg: Segment, side: Sidecar)
    requires ShipEnabled(s, h) && JobSide(ShipNext(s, h), seg, side)
    ensures JobSide(s, seg, side) || At(s.sides, seg) == Some(side)
  {
  }

  lemma SidesBefore(s: State, e: Event, seg: Segment, side: Sidecar)
    requires Enabled(s, e) && Side(Next(s, e), seg, side)
    ensures Side(s, seg, side)
            || (e.Seal? && e.c.ReadRows? && e.c.seg == seg && side == SealNext(s, e.c).job.side)
  {
    if WrittenSide(Next(s, e), seg, side) {
      WrittenBefore(s, e, seg, side);
    } else {
      JobSideBefore(s, e, seg, side);
    }
  }

  lemma StandKept(s: State, e: Event)
    requires FilesOK(s) && StandOK(s) && Enabled(s, e) && Extends(s, Next(s, e))
    ensures StandOK(Next(s, e))
  {
    var t := Next(s, e);
    forall seg, content | Source(t, seg, content)
      ensures Faithful(t, seg, content)
    {
      SourcesBefore(s, e, seg, content);
      if !Source(s, seg, content) {
        assert Side(s, seg, s.job.side);
      }
      FaithfulKept(s, t, seg, content);
    }
    forall seg, side | Side(t, seg, side)
      ensures SideOK(t, seg, side)
    {
      SidesBefore(s, e, seg, side);
      if !Side(s, seg, side) {
        CutFaithful(s, e.c.seg, e.c.content);
      }
      SideKept(s, t, seg, side);
    }
  }

  // ---- names and the job -------------------------------------------------------------------------

  lemma AnchoredKept(s: State, e: Event, seg: Segment)
    requires Enabled(s, e) && Anchored(s, seg)
    ensures Anchored(Next(s, e), seg)
  {
    match e
    case Recorder(r) =>
    case Seal(c) =>
    case Ship(h) => if h.Transfer? || h.GetReceipt? {}
    case SyncDir =>
    case Fault(f) =>
      if f.ReceiverCut? {
        assert At(s.dest, seg) != None;
        assert At(f.dest, seg) != None;
      }
  }

  /** A lasting copy in the outbox goes only when a segment is cleaned up. */
  lemma NoGapKept(s: State, e: Event, seg: Segment)
    requires Enabled(s, e) && NoGap(s, seg)
    ensures NoGap(Next(s, e), seg) || (e == Ship(RemoveSource) && s.job.seg == seg)
  {
    match e
    case Recorder(r) =>
    case Seal(c) =>
    case Ship(h) =>
    case SyncDir =>
    case Fault(f) =>
      if f.PowerCut? {
        assert At(s.outbox, seg) != None;
        assert At(f.outbox, seg) != None;
      }
  }

  lemma RecordedIsAnchored(s: State)
    requires JobOK(s) && s.job.Recorded?
    ensures Anchored(s, s.job.seg)
  {
    assert !Unvouched(s, s.job.seg);
  }

  lemma SidesBackedKept(s: State, e: Event)
    requires SidesBacked(s) && JobOK(s) && Enabled(s, e)
    ensures SidesBacked(Next(s, e))
  {
    var t := Next(s, e);
    forall seg, side | WrittenSide(t, seg, side)
      ensures NoGap(t, seg) || Anchored(t, seg)
    {
      WrittenBefore(s, e, seg, side);
      if WrittenSide(s, seg, side) {
        if Anchored(s, seg) {
          AnchoredKept(s, e, seg);
        } else {
          NoGapKept(s, e, seg);
          if s.job.Recorded? { RecordedIsAnchored(s); }
        }
      }
    }
  }

  lemma DestKeptKept(s: State, e: Event)
    requires DestKept(s) && Enabled(s, e)
    ensures DestKept(Next(s, e))
  {
    var t := Next(s, e);
    forall seg | Unvouched(t, seg)
      ensures seg in t.dest
    {
      var o :| (seg, o) in t.oldDest;
      assert Unvouched(s, seg) || (e.Ship? && e.h.Transfer? && s.job.seg == seg) by {
        if (seg, o) in s.oldDest {}
      }
    }
  }

  lemma SendsLastKept(s: State, e: Event)
    requires SendsLast(s) && JobOK(s) && Enabled(s, e)
    requires e.Seal? && e.c.ReadRows? ==> !HalfCleaned(s, e.c.seg)
    ensures SendsLast(Next(s, e))
  {
    match e
    case Recorder(r) =>
    case Seal(c) => SealSendsLast(s, c);
    case Ship(h) => ShipSendsLast(s, h);
    case SyncDir =>
    case Fault(f) =>
  }

  lemma ShipSendsLast(s: State, h: ShipEvent)
    requires SendsLast(s) && ShipEnabled(s, h)
    ensures SendsLast(ShipNext(s, h))
  {
    var t := ShipNext(s, h);
    forall seg | seg in t.sides && seg in t.outbox
      ensures NoGap(t, seg)
    {
      assert seg in s.sides && seg in s.outbox;
    }
  }

  lemma SealSendsLast(s: State, c: SealEvent)
    requires SendsLast(s) && JobOK(s) && SealEnabled(s, c)
    requires c.ReadRows? ==> !HalfCleaned(s, c.seg)
    ensures SendsLast(SealNext(s, c))
  {
  }

  lemma SealKeepsJob(s: State, c: SealEvent)
    requires FilesOK(s) && StandOK(s) && JobOK(s) && SealEnabled(s, c)
    ensures JobOK(SealNext(s, c))
  {
    if c.WriteSidecar? {
      assert Side(s, s.job.seg, s.job.side);
    }
  }

  lemma ShipKeepsJob(s: State, h: ShipEvent)
    requires JobOK(s) && ShipEnabled(s, h)
    ensures JobOK(ShipNext(s, h))
  {
  }

  lemma FaultKeepsJob(s: State, f: FaultEvent)
    requires JobOK(s) && FaultEnabled(s, f)
    ensures JobOK(FaultNext(s, f))
  {
    if f.ReceiverCut? && (s.job.Matched? || s.job.Recorded?) {
      assert !Unvouched(s, s.job.seg);
    }
  }

  lemma RecorderKeepsJob(s: State, r: RecorderEvent)
    requires JobOK(s) && RecorderEnabled(s, r)
    ensures JobOK(RecorderNext(s, r))
  {
    var t := RecorderNext(s, r);
    assert t.job == s.job && s.files.Keys <= t.files.Keys;
    assert t.outbox == s.outbox && t.sides == s.sides && t.dest == s.dest && t.oldDest == s.oldDest;
  }

  lemma JobKept(s: State, e: Event)
    requires FilesOK(s) && StandOK(s) && JobOK(s) && Enabled(s, e)
    ensures JobOK(Next(s, e))
  {
    match e
    case Recorder(r) => RecorderKeepsJob(s, r);
    case Seal(c) => SealKeepsJob(s, c);
    case Ship(h) => ShipKeepsJob(s, h);
    case SyncDir =>
    case Fault(f) => FaultKeepsJob(s, f);
  }

  lemma StandingKept(s: State, e: Event, atomic: bool)
    requires Standing(s, atomic) && Enabled(s, e) && Careful(s, e, atomic)
    ensures Standing(Next(s, e), atomic) && Extends(s, Next(s, e))
  {
    FilesKept(s, e);
    LedgersKept(s, e);
    StandKept(s, e);
    SidesBackedKept(s, e);
    DestKeptKept(s, e);
    if !atomic {
      SendsLastKept(s, e);
    }
    JobKept(s, e);
  }

  // ---- what is held stays held -----------------------------------------------------------------------

  lemma SolidKept(s: State, e: Event, seg: Segment, id: int)
    requires Enabled(s, e) && Solid(s, seg, id)
    requires e.Seal? && e.c.ReadRows? && e.c.seg == seg ==> id in e.c.content
    ensures Solid(Next(s, e), seg, id)
  {
    forall content | Source(Next(s, e), seg, content)
      ensures id in content
    {
      SourcesBefore(s, e, seg, content);
      if !Source(s, seg, content) { assert Side(s, seg, s.job.side); }
    }
    forall side | Side(Next(s, e), seg, side)
      ensures id in side.content
    {
      SidesBefore(s, e, seg, side);
    }
  }

  /** What happens at the destination: a transfer, a receipt that vouches for it, or a cut there. */
  predicate Touches(s: State, e: Event, seg: Segment) {
    || (e.Ship? && (e.h.Transfer? || e.h.GetReceipt?) && !s.job.Free? && JobSeg(s) == Some(seg))
    || (e.Fault? && e.f.ReceiverCut?)
  }

  function JobSeg(s: State): Option<Segment> {
    match s.job
    case Picked(g, _) => Some(g)
    case Sent(g, _) => Some(g)
    case _ => None
  }

  lemma DestUntouched(s: State, e: Event, seg: Segment)
    requires Enabled(s, e) && !Touches(s, e, seg)
    ensures At(Next(s, e).dest, seg) == At(s.dest, seg)
    ensures forall o :: (seg, o) in Next(s, e).oldDest <==> (seg, o) in s.oldDest
  {
    match e
    case Recorder(r) =>
    case Seal(c) =>
    case Ship(h) => ShipUntouched(s, h, seg);
    case SyncDir =>
    case Fault(f) =>
  }

  lemma ShipUntouched(s: State, h: ShipEvent, seg: Segment)
    requires ShipEnabled(s, h) && (h.Transfer? || h.GetReceipt? ==> JobSeg(s) != Some(seg))
    ensures At(ShipNext(s, h).dest, seg) == At(s.dest, seg)
    ensures forall o :: (seg, o) in ShipNext(s, h).oldDest <==> (seg, o) in s.oldDest
  {
    if h.Transfer? || h.GetReceipt? {
      assert s.job.seg != seg;
    }
  }

  lemma UntouchedHolds(s: State, e: Event, seg: Segment, id: int, atomic: bool)
    requires Enabled(s, e) && Extends(s, Next(s, e)) && !Touches(s, e, seg)
    requires InRange(s, seg, id) && DestHolds(s, seg, id, atomic)
    ensures InRange(Next(s, e), seg, id) && DestHolds(Next(s, e), seg, id, atomic)
  {
    var t := Next(s, e);
    DestUntouched(s, e, seg);
    assert At(t.dest, seg) == Some(s.dest[seg]);
    if Unvouched(t, seg) {
      var o :| (seg, o) in t.oldDest;
      assert Unvouched(s, seg);
    }
  }

  /** A row that everything under the name holds survives what happens at the destination. */
  lemma TransferHolds(s: State, e: Event, seg: Segment, id: int, atomic: bool)
    requires FilesOK(s) && StandOK(s) && NamesOK(s, atomic) && JobOK(s) && e.Ship? && e.h.Transfer?
    requires Enabled(s, e) && Careful(s, e, atomic) && s.job.seg == seg && Safe(s, seg, id, atomic)
    ensures InRange(Next(s, e), seg, id)
    ensures DestHolds(Next(s, e), seg, id, atomic) || (!atomic && NoGap(Next(s, e), seg))
  {
    if atomic {
      assert Source(s, seg, s.outbox[seg]);
      var t := Next(s, e);
      assert t.dest[seg] == Whole(s.outbox[seg]);
      if DestHolds(s, seg, id, atomic) {
        assert At(s.dest, seg) == Some(s.dest[seg]);
      }
    } else {
      assert NoGap(s, seg);
    }
  }

  lemma ReceiptHolds(s: State, e: Event, seg: Segment, id: int, atomic: bool)
    requires FilesOK(s) && StandOK(s) && JobOK(s) && e.Ship? && e.h.GetReceipt?
    requires Enabled(s, e) && s.job.seg == seg && Safe(s, seg, id, atomic)
    ensures InRange(Next(s, e), seg, id)
    ensures DestHolds(Next(s, e), seg, id, atomic) || (!atomic && NoGap(Next(s, e), seg))
  {
    if Matches(e.h.receipt, s.job.side) {
      assert Side(s, seg, s.job.side);
      var t := Next(s, e);
      assert t.dest[seg] == Whole(s.job.side.content);
      assert forall o :: (seg, o) !in t.oldDest;
    }
  }

  lemma ReceiverCutHolds(s: State, e: Event, seg: Segment, id: int, atomic: bool)
    requires e.Fault? && e.f.ReceiverCut? && Enabled(s, e) && Careful(s, e, atomic) && Safe(s, seg, id, atomic)
    ensures InRange(Next(s, e), seg, id)
    ensures DestHolds(Next(s, e), seg, id, atomic) || (!atomic && NoGap(Next(s, e), seg))
  {
    if DestHolds(s, seg, id, atomic) {
      var now := At(e.f.dest, seg);
      assert now == At(s.dest, seg) || (seg, now) in s.oldDest;
      assert now != None;
    }
  }

  /** Cleaned up only when the receiver has it for good. */
  lemma CleanedUpHolds(s: State, e: Event, id: int, atomic: bool)
    requires FilesOK(s) && StandOK(s) && JobOK(s) && e == Ship(RemoveSource) && Enabled(s, e)
    requires Safe(s, s.job.seg, id, atomic)
    ensures DestHolds(s, s.job.seg, id, atomic)
  {
    var seg := s.job.seg;
    assert Side(s, seg, At(s.sides, seg).value);
    assert forall o :: (seg, o) !in s.oldDest;
  }

  lemma LastingKept(s: State, e: Event, seg: Segment, id: int, atomic: bool)
    requires FilesOK(s) && StandOK(s) && NamesOK(s, atomic) && JobOK(s) && Enabled(s, e) && Careful(s, e, atomic)
    requires Extends(s, Next(s, e)) && Safe(s, seg, id, atomic)
    ensures InRange(Next(s, e), seg, id)
    ensures DestHolds(Next(s, e), seg, id, atomic) || (!atomic && NoGap(Next(s, e), seg))
  {
    if e.Ship? && e.h.Transfer? && s.job.seg == seg {
      TransferHolds(s, e, seg, id, atomic);
    } else if e.Ship? && e.h.GetReceipt? && s.job.seg == seg {
      ReceiptHolds(s, e, seg, id, atomic);
    } else if e.Fault? && e.f.ReceiverCut? {
      ReceiverCutHolds(s, e, seg, id, atomic);
    } else {
      QuietHolds(s, e, seg, id, atomic);
    }
  }

  lemma QuietHolds(s: State, e: Event, seg: Segment, id: int, atomic: bool)
    requires FilesOK(s) && StandOK(s) && JobOK(s) && Enabled(s, e) && !Touches(s, e, seg)
    requires Extends(s, Next(s, e)) && Safe(s, seg, id, atomic)
    ensures InRange(Next(s, e), seg, id)
    ensures DestHolds(Next(s, e), seg, id, atomic) || (!atomic && NoGap(Next(s, e), seg))
  {
    if DestHolds(s, seg, id, atomic) {
      UntouchedHolds(s, e, seg, id, atomic);
      return;
    }
    NoGapKept(s, e, seg);
    if e == Ship(RemoveSource) && s.job.seg == seg {
      CleanedUpHolds(s, e, id, atomic);
    }
  }

  /** A row that is safe under a name stays so through every step: re-sends, clean-ups and cuts on either
      side included. */
  lemma SafeKept(s: State, e: Event, seg: Segment, id: int, atomic: bool)
    requires Standing(s, atomic) && Enabled(s, e) && Careful(s, e, atomic) && Extends(s, Next(s, e))
    requires Safe(s, seg, id, atomic)
    requires e.Seal? && e.c.ReadRows? && e.c.seg == seg ==> id in e.c.content
    ensures Safe(Next(s, e), seg, id, atomic)
  {
    LastingKept(s, e, seg, id, atomic);
    SolidKept(s, e, seg, id);
    AnchoredKept(s, e, seg);
  }

  lemma SafeIsCarried(s: State, seg: Segment, id: int, atomic: bool)
    requires StandOK(s) && Safe(s, seg, id, atomic)
    ensures Carries(s, seg, id, atomic)
  {
    if !DestHolds(s, seg, id, atomic) {
      assert Source(s, seg, s.outbox[seg]);
    }
  }

  lemma HeldKept(s: State, e: Event, ino: Ino, id: int, atomic: bool)
    requires Standing(s, atomic) && Enabled(s, e) && Careful(s, e, atomic) && Extends(s, Next(s, e))
    requires Held(s, ino, id, atomic)
    ensures Held(Next(s, e), ino, id, atomic)
  {
    var seg: Segment :| seg.ino == ino && Safe(s, seg, id, atomic);
    if e.Seal? && e.c.ReadRows? && e.c.seg == seg && id !in e.c.content {
      assert Gone(s, ino, id);
      assert HeldElsewhere(s, seg, id, atomic);
      var seg2: Segment :| seg2.ino == seg.ino && seg2 != seg && Safe(s, seg2, id, atomic);
      SafeKept(s, e, seg2, id, atomic);
    } else {
      SafeKept(s, e, seg, id, atomic);
    }
  }

  /** Just recorded: a row of the claimed range that is still in its file is safe under the verified
      segment's name. */
  lemma JustVerified(s: State, e: Event, id: int, atomic: bool)
    requires FilesOK(s) && StandOK(s) && JobOK(s) && Enabled(s, e) && e.Ship? && e.h.SaveVerified?
    requires s.job.seg.ino in s.files && id in s.files[s.job.seg.ino].rows
    requires Covered(e.h.ranges, id) && !Covered(EntryOf(s, s.job.seg.ino).verified, id)
    ensures Safe(s, s.job.seg, id, atomic)
  {
    var seg, side := s.job.seg, s.job.side;
    assert Side(s, seg, side);
    assert seg.first <= id <= seg.last;
    assert forall o :: (seg, o) !in s.oldDest;
    assert Solid(s, seg, id);
    assert s.dest[seg] == Whole(side.content);
  }

  lemma GoneKept(s: State, e: Event, atomic: bool)
    requires Inv(s, atomic) && Enabled(s, e) && Careful(s, e, atomic) && Extends(s, Next(s, e))
    ensures GoneOK(Next(s, e), atomic)
  {
    var t := Next(s, e);
    forall ino, id | Gone(t, ino, id)
      ensures Held(t, ino, id, atomic)
    {
      if !Gone(s, ino, id) {
        RowsStay(s, e, ino, id);
        LicensedIsHeld(s, ino, id, atomic);
      }
      HeldKept(s, e, ino, id, atomic);
    }
  }

  lemma LicensedIsHeld(s: State, ino: Ino, id: int, atomic: bool)
    requires Inv(s, atomic) && ino in s.files && id in s.committed[ino] && id <= EntryOf(s, ino).verifiedThrough
    ensures Held(s, ino, id, atomic)
  {
    assert LedgerOK(s, s.ledger);
    assert 1 <= id;
    assert Covered(s.ledger[ino].verified, id);
  }

  lemma RecordedHeld(s: State, e: Event, ino: Ino, id: int, atomic: bool)
    requires Inv(s, atomic) && Enabled(s, e) && e.Ship? && e.h.SaveVerified?
    requires ino in Next(s, e).ledger && ino in s.committed && id in s.committed[ino]
    requires Covered(Next(s, e).ledger[ino].verified, id)
    ensures Held(s, ino, id, atomic)
  {
    if Covered(EntryOf(s, ino).verified, id) {
      assert ino in s.ledger;
    } else if Gone(s, ino, id) {
    } else {
      JustVerified(s, e, id, atomic);
    }
  }

  lemma CoveredBefore(s: State, e: Event, ledger: LedgerFile, ino: Ino, id: int)
    requires FilesOK(s) && LedgersOK(s) && Enabled(s, e) && Extends(s, Next(s, e)) && LedgersOK(Next(s, e))
    requires Possible(Next(s, e), ledger) && ino in ledger && ino in Next(s, e).committed
    requires id in Next(s, e).committed[ino] && Covered(ledger[ino].verified, id)
    requires Possible(s, ledger) || !e.Recorder?
    ensures ino in s.committed && id in s.committed[ino]
  {
    if Possible(s, ledger) {
      assert LedgerOK(s, ledger);
      assert id <= s.files[ino].top;
    } else {
      FilesSame(s, e);
    }
  }

  lemma CoveredHeld(s: State, e: Event, ledger: LedgerFile, ino: Ino, id: int, atomic: bool)
    requires Inv(s, atomic) && Enabled(s, e) && Possible(Next(s, e), ledger)
    requires ino in ledger && ino in s.committed && id in s.committed[ino] && Covered(ledger[ino].verified, id)
    ensures Held(s, ino, id, atomic)
  {
    LedgersBefore(s, e, ledger);
    if !Possible(s, ledger) {
      if e.Ship? {
        RecordedHeld(s, e, ino, id, atomic);
      } else {
        assert Covered(EntryOf(s, ino).verified, id);
        assert ino in s.ledger && Possible(s, s.ledger);
      }
    }
  }

  lemma VerifiedKept(s: State, e: Event, atomic: bool)
    requires Inv(s, atomic) && Enabled(s, e) && Careful(s, e, atomic)
    requires Extends(s, Next(s, e)) && LedgersOK(Next(s, e))
    ensures VerifiedOK(Next(s, e), atomic)
  {
    var t := Next(s, e);
    forall ledger: LedgerFile, ino, id | Possible(t, ledger) && ino in ledger && ino in t.committed
        && id in t.committed[ino]
                             && Covered(ledger[ino].verified, id)
      ensures Held(t, ino, id, atomic)
    {
      LedgersBefore(s, e, ledger);
      CoveredBefore(s, e, ledger, ino, id);
      CoveredHeld(s, e, ledger, ino, id, atomic);
      HeldKept(s, e, ino, id, atomic);
    }
  }

  lemma StepKeeps(s: State, e: Event, atomic: bool)
    requires Inv(s, atomic) && Enabled(s, e) && Careful(s, e, atomic)
    ensures Inv(Next(s, e), atomic)
  {
    StandingKept(s, e, atomic);
    GoneKept(s, e, atomic);
    VerifiedKept(s, e, atomic);
  }

  // ---- over whole runs ---------------------------------------------------------------------------------

  lemma InvImpliesNoLoss(s: State, atomic: bool)
    requires Inv(s, atomic)
    ensures NoLoss(s, atomic)
  {
    forall ino, id | ino in s.committed && id in s.committed[ino]
      ensures OnBoat(s, ino, id) || OffBoat(s, ino, id, atomic)
    {
      if id !in s.files[ino].rows {
        assert Gone(s, ino, id);
        var seg: Segment :| seg.ino == ino && Safe(s, seg, id, atomic);
        SafeIsCarried(s, seg, id, atomic);
      }
    }
  }

  /** NO TELEMETRY IS LOST. Over every interleaving of commits, prunes, rotations, seals, ships, bad
      transfers, wrong receipts, crashes, and power cuts on either side, in which every cut holds the rows
      that have left its file or leaves them to another name, every row ever committed is in its file or
      off the boat. */
  lemma {:induction false} NothingLost(s: State, events: seq<Event>, atomic: bool)
    requires Inv(s, atomic) && Runs(s, events) && CarefulRun(s, events, atomic)
    ensures Inv(After(s, events), atomic) && NoLoss(After(s, events), atomic)
    decreases |events|
  {
    if events == [] {
      InvImpliesNoLoss(s, atomic);
    } else {
      StepKeeps(s, events[0], atomic);
      NothingLost(Next(s, events[0]), events[1..], atomic);
    }
  }

  lemma StartInv(atomic: bool)
    ensures Inv(START, atomic)
  {
    assert LedgersOK(START);
  }
}
