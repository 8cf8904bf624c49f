/** Copying the archive off the boat, and deleting from it, as a protocol over whole runs: the
    recorder appends and prunes, rotations move files aside, one seal or one ship at a time works
    under the outbox lock, and any of them can be cut short by a crash.

    A rename or an unlink is seen at once, and is on disk only when the directory is fsynced: until then
    a power cut may undo it. The archive itself is durable at every commit.

    Hashes are injective, so a content hash is modelled by the rows it is the hash of. */
module CopyOffSpec {
  import opened Ledger
  import opened Options

  type Row = int
  type Ino = nat

  /** One SQLite file, by inode. Ids are AUTOINCREMENT: above `top`, none has been used yet. */
  datatype File = File(rows: map<int, Row>, top: nat)

  /** `seg-<inode>-<first>-<last>.db` */
  datatype Segment = Segment(ino: Ino, first: int, last: int)

  /** The sidecar: the cursor the cut started from, and the content (hash) it was cut with. */
  datatype Sidecar = Sidecar(cursorBefore: int, content: map<int, Row>)

  /** What sits under a segment's name at the destination. A bad transfer leaves anything. */
  datatype Object = Whole(rows: map<int, Row>) | Damaged

  datatype Entry = Entry(sealedThrough: int, verified: seq<Range>, verifiedThrough: int)
  type LedgerFile = map<Ino, Entry>

  datatype Receipt = NoAnswer | Answer(ok: bool, content: map<int, Row>)

  /** Where the holder of the outbox lock has got to. Lost in a crash. */
  datatype Job =
    | Free
    | Sealing(ino: Ino)
    | Cut(ino: Ino, seg: Segment, side: Sidecar)
    | Placed(ino: Ino, seg: Segment, side: Sidecar)
    | Sided(ino: Ino, seg: Segment)
    | Moved(ino: Ino)
    | Shipping
    | Picked(seg: Segment, side: Sidecar)
    | Sent(seg: Segment, side: Sidecar)
    | Matched(seg: Segment, side: Sidecar)
    | Recorded(seg: Segment)
    | SourceGone(seg: Segment)

  /** `committed` is history: every row ever committed to each file. The `old` fields hold what stood under
      each name of the outbox directory before changes to it that are not yet fsynced, and at the
      destination before transfers that no receipt has vouched for (None: nothing). */
  datatype State = State(
    files: map<Ino, File>,
    live: Option<Ino>,
    committed: map<Ino, map<int, Row>>,
    ledger: LedgerFile,
    outbox: map<Segment, map<int, Row>>,
    sides: map<Segment, Sidecar>,
    dest: map<Segment, Object>,
    oldLedgers: set<LedgerFile>,
    oldSources: set<(Segment, Option<map<int, Row>>)>,
    oldSides: set<(Segment, Option<Sidecar>)>,
    oldDest: set<(Segment, Option<Object>)>,
    job: Job)

  datatype RecorderEvent =
    | Commit(batch: map<int, Row>, newTop: nat)
    | Prune(gone: set<int>)
    | MoveAside
    | OpenFresh(ino: Ino)

  datatype SealEvent =
    | SealBegin
    | ReadRows(seg: Segment, content: map<int, Row>)
    | PlaceSegment
    | WriteSidecar
    | SaveCursor
    | SealEnd

  datatype ShipEvent =
    | ShipBegin
    | Pick(seg: Segment)
    | Transfer(obj: Object)
    | TransferFailed
    | GetReceipt(receipt: Receipt)
    | SaveVerified(ranges: seq<Range>, through: int)
    | RemoveSource
    | RemoveSidecar
    | ShipEnd

  /** `PowerCut`: what is left of the outbox directory. `ReceiverCut`: of the destination. */
  datatype FaultEvent =
    | Crash
    | PowerCut(ledger: LedgerFile, outbox: map<Segment, map<int, Row>>, sides: map<Segment, Sidecar>)
    | ReceiverCut(dest: map<Segment, Object>)

  datatype Event =
    | Recorder(r: RecorderEvent)
    | Seal(c: SealEvent)
    | Ship(h: ShipEvent)
    | SyncDir
    | Fault(f: FaultEvent)

  function Window(rows: map<int, Row>, first: int, last: int): map<int, Row> {
    map id | id in rows && first <= id <= last :: rows[id]
  }

  function EntryIn(ledger: LedgerFile, ino: Ino): Entry {
    if ino in ledger then ledger[ino] else Entry(0, [], 0)
  }

  function EntryOf(s: State, ino: Ino): Entry {
    EntryIn(s.ledger, ino)
  }

  function At<K, V>(m: map<K, V>, k: K): Option<V> {
    if k in m then Some(m[k]) else None
  }

  /** The next rows above the cursor, up to and including `seg.last`, in one snapshot. */
  predicate IsCut(rows: map<int, Row>, cursor: int, seg: Segment, content: map<int, Row>) {
    && cursor < seg.first && seg.first in content && seg.last in content
    && content == Window(rows, cursor + 1, seg.last)
    && (forall id :: id in content ==> seg.first <= id)
  }

  predicate Matches(receipt: Receipt, side: Sidecar) {
    receipt.Answer? && receipt.ok && receipt.content == side.content
  }

  /** Everything in the outbox directory is on disk as it is seen. */
  predicate Synced(s: State) {
    s.oldLedgers == {} && s.oldSources == {} && s.oldSides == {}
  }

  // ---- what the environment and the code allow -------------------------------------------------------

  predicate RecorderEnabled(s: State, e: RecorderEvent) {
    match e
    case Commit(batch, newTop) =>
      s.live.Some? && s.live.value in s.files && s.files[s.live.value].top <= newTop &&
      forall id :: id in batch ==> s.files[s.live.value].top < id <= newTop
    case Prune(gone) =>
      s.live.Some? && s.live.value in s.files &&
      forall id :: id in gone ==> id <= EntryOf(s, s.live.value).verifiedThrough
    case MoveAside => s.live.Some?
    case OpenFresh(ino) => s.live.None? && ino !in s.files
  }

  /** Each rename is fsynced before the next: by then nothing is left that a power cut could undo. */
  predicate SealEnabled(s: State, e: SealEvent) {
    match e
    case SealBegin => s.job.Free? && s.live.Some? && s.live.value in s.files
    case ReadRows(seg, content) =>
      s.job.Sealing? && seg.ino == s.job.ino && s.job.ino in s.files &&
      IsCut(s.files[s.job.ino].rows, EntryOf(s, s.job.ino).sealedThrough, seg, content)
    case PlaceSegment => s.job.Cut?
    case WriteSidecar => s.job.Placed? && Synced(s)
    case SaveCursor => s.job.Sided? && Synced(s)
    case SealEnd => s.job.Sealing?
  }

  /** A receipt is arbitrary, except that one carrying the boat's own hash was computed over bytes with
      that hash, which the receiver has fsynced. */
  ghost predicate ShipEnabled(s: State, e: ShipEvent) {
    match e
    case ShipBegin => s.job.Free?
    case Pick(seg) => s.job.Shipping? && seg in s.sides && seg in s.outbox
    case Transfer(obj) => s.job.Picked?
    case TransferFailed => s.job.Picked?
    case GetReceipt(receipt) =>
      s.job.Sent? &&
      (Matches(receipt, s.job.side) ==>
         s.job.seg in s.dest && s.dest[s.job.seg] == Whole(s.job.side.content))
    case SaveVerified(ranges, through) =>
      s.job.Matched? && IsContiguousThrough(ranges, through) &&
      forall id :: Covered(ranges, id) <==>
                   Covered(EntryOf(s, s.job.seg.ino).verified, id)
                   || s.job.side.cursorBefore + 1 <= id <= s.job.seg.last
    case RemoveSource => s.job.Recorded? && Synced(s)
    case RemoveSidecar => s.job.SourceGone?
    case ShipEnd => s.job.Shipping?
  }

  /** No receipt has vouched for the last transfers under this name. */
  ghost predicate Unvouched(s: State, seg: Segment) {
    exists o :: (seg, o) in s.oldDest
  }

  /** A power cut leaves under each name what is seen there, or what an unsynced change replaced. Under an
      unvouched name the receiver may also be left with broken bytes of any kind. */
  ghost predicate FaultEnabled(s: State, e: FaultEvent) {
    match e
    case Crash => true
    case PowerCut(ledger, outbox, sides) =>
      && (ledger == s.ledger || ledger in s.oldLedgers)
      && (forall seg :: At(outbox, seg) == At(s.outbox, seg) || (seg, At(outbox, seg)) in s.oldSources)
      && (forall seg :: At(sides, seg) == At(s.sides, seg) || (seg, At(sides, seg)) in s.oldSides)
    case ReceiverCut(dest) =>
      forall seg ::
        || At(dest, seg) == At(s.dest, seg)
        || (seg, At(dest, seg)) in s.oldDest
        || (seg in dest && Unvouched(s, seg))
  }

  predicate SyncEnabled(s: State) {
    s.job.Placed? || s.job.Sided? || s.job.Moved? || s.job.Recorded?
  }

  ghost predicate Enabled(s: State, e: Event) {
    match e
    case Recorder(r) => RecorderEnabled(s, r)
    case Seal(c) => SealEnabled(s, c)
    case Ship(h) => ShipEnabled(s, h)
    case SyncDir => SyncEnabled(s)
    case Fault(f) => FaultEnabled(s, f)
  }

  // ---- what each step does ---------------------------------------------------------------------------

  /** The recorder changes nothing in the outbox or at the destination. */
  function RecorderNext(s: State, e: RecorderEvent): (t: State)
    requires RecorderEnabled(s, e)
    ensures t == s.(files := t.files, committed := t.committed, live := t.live)
  {
    match e
    case Commit(batch, newTop) =>
      var i := s.live.value;
      s.(files := s.files[i := File(s.files[i].rows + batch, newTop)],
         committed := s.committed[i := (if i in s.committed then s.committed[i] else map[]) + batch])
    case Prune(gone) =>
      var i := s.live.value;
      s.(files := s.files[i := s.files[i].(rows := s.files[i].rows - gone)])
    case MoveAside => s.(live := None)
    case OpenFresh(ino) =>
      s.(live := Some(ino), files := s.files[ino := File(map[], 0)], committed := s.committed[ino := map[]])
  }

  predicate SameFiles(s: State, t: State) {
    t.files == s.files && t.committed == s.committed && t.live == s.live
  }

  predicate SameOutbox(s: State, t: State) { t.outbox == s.outbox && t.oldSources == s.oldSources }

  predicate SameSides(s: State, t: State) { t.sides == s.sides && t.oldSides == s.oldSides }

  predicate SameLedgers(s: State, t: State) { t.ledger == s.ledger && t.oldLedgers == s.oldLedgers }

  predicate SameDest(s: State, t: State) { t.dest == s.dest && t.oldDest == s.oldDest }

  /** Each step of a seal changes one name in the outbox directory at most. */
  function SealNext(s: State, e: SealEvent): (t: State)
    requires SealEnabled(s, e)
    ensures SameFiles(s, t) && SameDest(s, t)
    ensures !e.PlaceSegment? ==> SameOutbox(s, t)
    ensures !e.WriteSidecar? ==> SameSides(s, t)
    ensures !e.SaveCursor? ==> SameLedgers(s, t)
  {
    match e
    case SealBegin => s.(job := Sealing(s.live.value))
    case ReadRows(seg, content) =>
      s.(job := Cut(s.job.ino, seg, Sidecar(EntryOf(s, s.job.ino).sealedThrough, content)))
    case PlaceSegment =>
      s.(outbox := s.outbox[s.job.seg := s.job.side.content],
         oldSources := s.oldSources + {(s.job.seg, At(s.outbox, s.job.seg))},
         job := Placed(s.job.ino, s.job.seg, s.job.side))
    case WriteSidecar =>
      s.(sides := s.sides[s.job.seg := s.job.side],
         oldSides := s.oldSides + {(s.job.seg, At(s.sides, s.job.seg))},
         job := Sided(s.job.ino, s.job.seg))
    case SaveCursor =>
      s.(ledger := s.ledger[s.job.ino := EntryOf(s, s.job.ino).(sealedThrough := s.job.seg.last)],
         oldLedgers := s.oldLedgers + {s.ledger},
         job := Moved(s.job.ino))
    case SealEnd => s.(job := Free)
  }

  /** So does each step of a ship, or one at the destination. */
  function ShipNext(s: State, e: ShipEvent): (t: State)
    requires ShipEnabled(s, e)
    ensures SameFiles(s, t)
    ensures !e.Transfer? && !e.GetReceipt? ==> SameDest(s, t)
    ensures !e.SaveVerified? ==> SameLedgers(s, t)
    ensures !e.RemoveSource? ==> SameOutbox(s, t)
    ensures !e.RemoveSidecar? ==> SameSides(s, t)
  {
    match e
    case ShipBegin => s.(job := Shipping)
    case Pick(seg) => s.(job := Picked(seg, s.sides[seg]))
    case Transfer(obj) =>
      s.(dest := s.dest[s.job.seg := obj], oldDest := s.oldDest + {(s.job.seg, At(s.dest, s.job.seg))},
         job := Sent(s.job.seg, s.job.side))
    case TransferFailed => s.(job := Shipping)
    case GetReceipt(receipt) =>
      if Matches(receipt, s.job.side)
      then s.(oldDest := Vouch(s.oldDest, s.job.seg), job := Matched(s.job.seg, s.job.side))
      else s.(job := Shipping)
    case SaveVerified(ranges, through) =>
      var i := s.job.seg.ino;
      s.(ledger := s.ledger[i := EntryOf(s, i).(verified := ranges, verifiedThrough := through)],
         oldLedgers := s.oldLedgers + {s.ledger},
         job := Recorded(s.job.seg))
    case RemoveSource =>
      s.(outbox := s.outbox - {s.job.seg}, oldSources := s.oldSources + {(s.job.seg, At(s.outbox, s.job.seg))},
         job := SourceGone(s.job.seg))
    case RemoveSidecar =>
      s.(sides := s.sides - {s.job.seg}, oldSides := s.oldSides + {(s.job.seg, At(s.sides, s.job.seg))},
         job := Shipping)
    case ShipEnd => s.(job := Free)
  }

  function Vouch(was: set<(Segment, Option<Object>)>, seg: Segment): set<(Segment, Option<Object>)> {
    set p | p in was && p.0 != seg
  }

  /** A cut on one side changes nothing on the other. */
  ghost function FaultNext(s: State, e: FaultEvent): (t: State)
    requires FaultEnabled(s, e)
    ensures SameFiles(s, t)
    ensures !e.PowerCut? ==> SameOutbox(s, t) && SameSides(s, t) && SameLedgers(s, t)
    ensures !e.ReceiverCut? ==> SameDest(s, t)
  {
    match e
    case Crash => s.(job := Free)
    case PowerCut(ledger, outbox, sides) =>
      s.(ledger := ledger, outbox := outbox, sides := sides,
         oldLedgers := {}, oldSources := {}, oldSides := {}, job := Free)
    case ReceiverCut(dest) => s.(dest := dest, oldDest := {})
  }

  /** One fsync of the outbox directory makes everything in it durable. */
  function SyncNext(s: State): State {
    s.(oldLedgers := {}, oldSources := {}, oldSides := {}, job := if s.job.Moved? then Sealing(s.job.ino) else s.job)
  }

  ghost function Next(s: State, e: Event): State
    requires Enabled(s, e)
  {
    match e
    case Recorder(r) => RecorderNext(s, r)
    case Seal(c) => SealNext(s, c)
    case Ship(h) => ShipNext(s, h)
    case SyncDir => SyncNext(s)
    case Fault(f) => FaultNext(s, f)
  }

  const START := State(map[], None, map[], map[], map[], map[], map[], {}, {}, {}, {}, Free)

  /** A run: a state and an event sequence the code and the environment can produce from it. */
  ghost predicate Runs(s: State, events: seq<Event>)
    decreases |events|
  {
    events == [] || (Enabled(s, events[0]) && Runs(Next(s, events[0]), events[1..]))
  }

  ghost function After(s: State, events: seq<Event>): State
    requires Runs(s, events)
    decreases |events|
  {
    if events == [] then s else After(Next(s, events[0]), events[1..])
  }
}
