/** Exactly which cuts can lose a row. */
module CopyOffExact {
  import opened Ledger
  import opened Options
  import opened CopyOffSpec
  import opened CopyOffSafety
  import opened CopyOffGuards

  /** Some careful continuation ends with a committed row neither in its file nor off the boat. */
  ghost predicate CanLose(s: State, atomic: bool) {
    exists events :: Runs(s, events) && CarefulRun(s, events, atomic) && !NoLoss(After(s, events), atomic)
  }

  /** Whatever the boat carefully does with this cut, nothing is lost. */
  ghost predicate CutIsSafe(s: State, seg: Segment, content: map<int, Row>, atomic: bool)
    requires SealEnabled(s, ReadRows(seg, content))
  {
    !CanLose(SealNext(s, ReadRows(seg, content)), atomic)
  }

  ghost predicate LastsElsewhere(s: State, seg: Segment, id: int, atomic: bool) {
    exists seg2: Segment :: seg2.ino == seg.ino && seg2 != seg && Lasting(s, seg2, id, atomic)
  }

  /** Every row that has left its file is carried for good under another name, or is in the cut; the cut
      is no help under a half cleaned-up name if the receiver writes in place. */
  ghost predicate OthersHold(s: State, seg: Segment, content: map<int, Row>, atomic: bool) {
    forall id :: Gone(s, seg.ino, id) ==>
      LastsElsewhere(s, seg, id, atomic) || (id in content && (atomic || !HalfCleaned(s, seg)))
  }

  // ---- runs, backwards ---------------------------------------------------------------------------

  lemma LosesNow(s: State, atomic: bool)
    requires !NoLoss(s, atomic)
    ensures CanLose(s, atomic)
  {
    assert Runs(s, []) && CarefulRun(s, [], atomic) && After(s, []) == s;
  }

  lemma LosesLater(s: State, e: Event, atomic: bool)
    requires Enabled(s, e) && Careful(s, e, atomic) && CanLose(Next(s, e), atomic)
    ensures CanLose(s, atomic)
  {
    var rest :| Runs(Next(s, e), rest) && CarefulRun(Next(s, e), rest, atomic)
                && !NoLoss(After(Next(s, e), rest), atomic);
    var events := [e] + rest;
    assert events[0] == e && events[1..] == rest;
    assert Runs(s, events) && CarefulRun(s, events, atomic) && After(s, events) == After(Next(s, e), rest);
  }

  // ---- a receiver's power cut takes all that does not last -----------------------------------------

  ghost predicate Frail(s: State, seg: Segment, id: int, atomic: bool) {
    Carries(s, seg, id, atomic) && !Lasting(s, seg, id, atomic)
  }

  /** What the receiver may be left with that lacks the row. */
  ghost predicate Without(s: State, seg: Segment, id: int, atomic: bool, left: Option<Object>)
    requires InRange(s, seg, id)
  {
    (seg, left) in s.oldDest && (left.None? || (atomic && !Holds(s, left.value, seg, id)))
  }

  ghost function Left(s: State, seg: Segment, id: int, atomic: bool): Option<Object>
    requires InRange(s, seg, id) && exists left :: Without(s, seg, id, atomic, left)
  {
    var left :| Without(s, seg, id, atomic, left);
    left
  }

  /** Every carrier that does not last can be lost by the receiver. */
  ghost predicate FrailBreak(s: State, atomic: bool) {
    forall seg, id :: Frail(s, seg, id, atomic) ==> exists left :: Without(s, seg, id, atomic, left)
  }

  ghost function Broken(s: State, id: int, atomic: bool): map<Segment, Object>
    requires FrailBreak(s, atomic)
  {
    map g | g in s.dest && (Frail(s, g, id, atomic) ==> Left(s, g, id, atomic).Some?) ::
      if Frail(s, g, id, atomic) then Left(s, g, id, atomic).value else s.dest[g]
  }

  lemma BreaksTogether(s: State, id: int, atomic: bool)
    requires FrailBreak(s, atomic)
    ensures var cut := Fault(ReceiverCut(Broken(s, id, atomic)));
      && Enabled(s, cut) && Careful(s, cut, atomic)
      && forall seg :: Carries(Next(s, cut), seg, id, atomic) ==> Lasting(s, seg, id, atomic)
  {
    var d := Broken(s, id, atomic);
    forall seg
      ensures At(d, seg) == At(s.dest, seg) || (seg, At(d, seg)) in s.oldDest
      ensures Frail(s, seg, id, atomic) ==> At(d, seg) == Left(s, seg, id, atomic)
      ensures !Frail(s, seg, id, atomic) ==> At(d, seg) == At(s.dest, seg)
    {
      if Frail(s, seg, id, atomic) {
        assert seg in s.dest;
      }
    }
    var t := Next(s, Fault(ReceiverCut(d)));
    forall seg | Carries(t, seg, id, atomic)
      ensures Lasting(s, seg, id, atomic)
    {
      if !Frail(s, seg, id, atomic) {
        assert At(t.dest, seg) == At(s.dest, seg);
        assert Carries(s, seg, id, atomic);
      }
    }
  }

  // ---- a cut that drops the only copy can lose it ----------------------------------------------

  /** Nothing but `seg` carries the row, and its file has it no more. */
  ghost predicate OnlyUnder(s: State, seg: Segment, id: int, atomic: bool) {
    Gone(s, seg.ino, id) && forall g: Segment :: g.ino == seg.ino && g != seg ==> !Carries(s, g, id, atomic)
  }

  /** Shipped, the copy replaces what stood under its name. */
  lemma SendingLoses(s: State, seg: Segment, id: int, atomic: bool)
    requires s.job.Free? && seg in s.outbox && seg in s.sides && OnlyUnder(s, seg, id, atomic) && id !in s.outbox[seg]
    ensures CanLose(s, atomic)
  {
    var s1 := Next(s, Ship(ShipBegin));
    var s2 := Next(s1, Ship(Pick(seg)));
    var sent := Ship(Transfer(Whole(s.outbox[seg])));
    var s3 := Next(s2, sent);
    forall g: Segment | g.ino == seg.ino
      ensures !Carries(s3, g, id, atomic)
    {
      assert g != seg ==> !Carries(s, g, id, atomic);
    }
    assert !OnBoat(s3, seg.ino, id) && !OffBoat(s3, seg.ino, id, atomic);
    LosesNow(s3, atomic);
    LosesLater(s2, sent, atomic);
    LosesLater(s1, Ship(Pick(seg)), atomic);
    LosesLater(s, Ship(ShipBegin), atomic);
  }

  lemma PlacedLoses(s: State, seg: Segment, id: int, atomic: bool)
    requires s.job.Placed? && s.job.seg == seg && At(s.outbox, seg) == Some(s.job.side.content)
    requires id !in s.job.side.content && OnlyUnder(s, seg, id, atomic)
    ensures CanLose(s, atomic)
  {
    var s1 := Next(s, SyncDir);
    var s2 := Next(s1, Seal(WriteSidecar));
    var s3 := Next(s2, Fault(Crash));
    forall g: Segment | g.ino == seg.ino && g != seg
      ensures !Carries(s3, g, id, atomic)
    {
      assert !Carries(s, g, id, atomic);
    }
    SendingLoses(s3, seg, id, atomic);
    LosesLater(s2, Fault(Crash), atomic);
    LosesLater(s1, Seal(WriteSidecar), atomic);
    LosesLater(s, SyncDir, atomic);
  }

  lemma CutLoses(s: State, seg: Segment, id: int, atomic: bool)
    requires s.job.Cut? && s.job.seg == seg && id !in s.job.side.content && OnlyUnder(s, seg, id, atomic)
    ensures CanLose(s, atomic)
  {
    var s1 := Next(s, Seal(PlaceSegment));
    forall g: Segment | g.ino == seg.ino && g != seg
      ensures !Carries(s1, g, id, atomic)
    {
      assert !Carries(s, g, id, atomic);
    }
    PlacedLoses(s1, seg, id, atomic);
    LosesLater(s, Seal(PlaceSegment), atomic);
  }

  // ---- so can one whose copy is not yet on disk when it is sent ----------------------------------

  /** Sent in place and broken, from a copy that a power cut then takes away. */
  lemma VolatileLoses(s: State, seg: Segment, id: int)
    requires s.job.Picked? && s.job.seg == seg && (seg, None) in s.oldSources && OnlyUnder(s, seg, id, false)
    ensures CanLose(s, false)
  {
    var s1 := Next(s, Ship(Transfer(Damaged)));
    var cut := Fault(PowerCut(s1.ledger, s1.outbox - {seg}, s1.sides));
    var s2 := Next(s1, cut);
    forall g: Segment | g.ino == seg.ino
      ensures !Carries(s2, g, id, false)
    {
      assert g != seg ==> !Carries(s, g, id, false);
    }
    assert !OnBoat(s2, seg.ino, id) && !OffBoat(s2, seg.ino, id, false);
    LosesNow(s2, false);
    LosesLater(s1, cut, false);
    LosesLater(s, Ship(Transfer(Damaged)), false);
  }

  /** The sidecar of an unfinished clean-up lets the placed copy be sent before it is on disk. */
  lemma HalfCleanedLoses(s: State, seg: Segment, id: int)
    requires s.job.Cut? && s.job.seg == seg && HalfCleaned(s, seg) && OnlyUnder(s, seg, id, false)
    ensures CanLose(s, false)
  {
    var s1 := Next(s, Seal(PlaceSegment));
    var s2 := Next(s1, Fault(Crash));
    var s3 := Next(s2, Ship(ShipBegin));
    var s4 := Next(s3, Ship(Pick(seg)));
    forall g: Segment | g.ino == seg.ino && g != seg
      ensures !Carries(s4, g, id, false)
    {
      assert !Carries(s, g, id, false);
    }
    VolatileLoses(s4, seg, id);
    LosesLater(s3, Ship(Pick(seg)), false);
    LosesLater(s2, Ship(ShipBegin), false);
    LosesLater(s1, Fault(Crash), false);
    LosesLater(s, Seal(PlaceSegment), false);
  }

  lemma OnlyCopyLoses(s: State, seg: Segment, content: map<int, Row>, id: int, atomic: bool)
    requires SealEnabled(s, ReadRows(seg, content)) && FrailBreak(s, atomic) && Gone(s, seg.ino, id)
    requires !LastsElsewhere(s, seg, id, atomic) && (id !in content || (!atomic && HalfCleaned(s, seg)))
    ensures !CutIsSafe(s, seg, content, atomic)
  {
    var s1 := SealNext(s, ReadRows(seg, content));
    SameFrail(s, s1, atomic);
    BreaksTogether(s1, id, atomic);
    var cut := Fault(ReceiverCut(Broken(s1, id, atomic)));
    var s2 := Next(s1, cut);
    forall g: Segment | g.ino == seg.ino && g != seg
      ensures !Carries(s2, g, id, atomic)
    {
      assert Lasting(s1, g, id, atomic) ==> Lasting(s, g, id, atomic);
    }
    if id !in content {
      CutLoses(s2, seg, id, atomic);
    } else {
      HalfCleanedLoses(s2, seg, id);
    }
    LosesLater(s1, cut, atomic);
  }

  lemma SameFrail(s: State, t: State, atomic: bool)
    requires t == s.(job := t.job) && FrailBreak(s, atomic)
    ensures FrailBreak(t, atomic)
  {
    forall seg, id | Frail(t, seg, id, atomic)
      ensures exists left :: Without(t, seg, id, atomic, left)
    {
      assert Frail(s, seg, id, atomic) by {
        assert Lasting(s, seg, id, atomic) ==> Lasting(t, seg, id, atomic);
      }
      var left :| Without(s, seg, id, atomic, left);
      assert Without(t, seg, id, atomic, left);
    }
  }

  // ---- and no other cut does ---------------------------------------------------------------------

  /** A row carried for good under a name is in all that stands there. */
  ghost predicate LastingIsSolid(s: State, atomic: bool) {
    forall seg, id :: Lasting(s, seg, id, atomic) ==> Solid(s, seg, id)
  }

  lemma HeldCutIsSafe(s: State, seg: Segment, content: map<int, Row>, atomic: bool)
    requires Inv(s, atomic) && LastingIsSolid(s, atomic) && SealEnabled(s, ReadRows(seg, content))
    requires OthersHold(s, seg, content, atomic) && (atomic || !HalfCleaned(s, seg))
    ensures CutIsSafe(s, seg, content, atomic)
  {
    forall id | Gone(s, seg.ino, id) && id !in content
      ensures HeldElsewhere(s, seg, id, atomic)
    {
      var seg2: Segment :| seg2.ino == seg.ino && seg2 != seg && Lasting(s, seg2, id, atomic);
      assert Safe(s, seg2, id, atomic);
    }
    StepKeeps(s, Seal(ReadRows(seg, content)), atomic);
    var t := SealNext(s, ReadRows(seg, content));
    forall events | Runs(t, events) && CarefulRun(t, events, atomic)
      ensures NoLoss(After(t, events), atomic)
    {
      NothingLost(t, events, atomic);
    }
  }

  lemma SafeIffOthersHold(s: State, seg: Segment, content: map<int, Row>, atomic: bool)
    requires Inv(s, atomic) && LastingIsSolid(s, atomic) && FrailBreak(s, atomic)
    requires SealEnabled(s, ReadRows(seg, content))
    ensures CutIsSafe(s, seg, content, atomic) ==> OthersHold(s, seg, content, atomic)
    ensures (atomic || !HalfCleaned(s, seg)) && OthersHold(s, seg, content, atomic) ==>
            CutIsSafe(s, seg, content, atomic)
  {
    if !OthersHold(s, seg, content, atomic) {
      var id :| Gone(s, seg.ino, id) && !LastsElsewhere(s, seg, id, atomic)
                && !(id in content && (atomic || !HalfCleaned(s, seg)));
      OnlyCopyLoses(s, seg, content, id, atomic);
    } else if atomic || !HalfCleaned(s, seg) {
      HeldCutIsSafe(s, seg, content, atomic);
    }
  }

  // ---- in every run whose cuts took fresh names ----------------------------------------------------

  /** A transfer, or a cut at the receiver, leaves bytes that were sent, or no readable segment at all. */
  ghost predicate Honest(s: State, e: Event) {
    match e
    case Ship(Transfer(obj)) => s.job.Picked? ==> obj == Damaged || At(s.outbox, s.job.seg) == Some(UnWhole(obj))
    case Fault(ReceiverCut(dest)) =>
      forall seg :: At(dest, seg) == At(s.dest, seg) || (seg, At(dest, seg)) in s.oldDest
                    || At(dest, seg) == Some(Damaged)
    case _ => true
  }

  ghost predicate HonestRun(s: State, events: seq<Event>)
    requires Runs(s, events)
    decreases |events|
  {
    events == [] || (Honest(s, events[0]) && HonestRun(Next(s, events[0]), events[1..]))
  }

  /** A later copy or sidecar is never larger than an earlier one. */
  ghost predicate Shrinking(s: State) {
    && (forall seg, content, side :: Source(s, seg, content) && WrittenSide(s, seg, side) ==>
          content.Keys <= side.content.Keys)
    && (forall seg, content :: seg in s.outbox && Source(s, seg, content) ==> s.outbox[seg].Keys <= content.Keys)
  }

  ghost predicate LeastOf(s: State, seg: Segment, ids: set<int>) {
    && (forall content :: Source(s, seg, content) ==> ids <= content.Keys)
    && (forall side :: WrittenSide(s, seg, side) ==> ids <= side.content.Keys)
  }

  ghost predicate CutLeast(s: State) {
    s.job.Cut? ==> LeastOf(s, s.job.seg, s.job.side.content.Keys)
  }

  /** What a seal works on was never sent. */
  predicate Unsent(s: State) {
    s.job.Cut? || s.job.Placed? || s.job.Sided? ==> s.job.seg !in s.dest
  }

  ghost predicate AtDest(s: State, seg: Segment, obj: Object) {
    At(s.dest, seg) == Some(obj) || (seg, Some(obj)) in s.oldDest
  }

  /** What is at the destination, or can come back there, is part of all that stands under its name. */
  ghost predicate SentLeast(s: State) {
    forall seg, obj :: AtDest(s, seg, obj) && obj.Whole? ==> LeastOf(s, seg, obj.rows.Keys)
  }

  /** A copy still in the outbox once it was sent is there for good; it is there until a receipt came. */
  ghost predicate SentStays(s: State) {
    && (forall seg :: seg in s.dest && seg in s.outbox ==> NoGap(s, seg))
    && (forall seg :: seg in s.dest && (Unvouched(s, seg) || s.dest[seg].Damaged?) ==> NoGap(s, seg))
  }

  ghost predicate Nested(s: State) {
    Shrinking(s) && CutLeast(s) && Unsent(s) && SentLeast(s) && SentStays(s)
  }

  lemma LastingSolid(s: State, seg: Segment, id: int, atomic: bool)
    requires Nested(s) && JobOK(s) && Lasting(s, seg, id, atomic)
    ensures Solid(s, seg, id)
  {
    assert seg in s.dest && AtDest(s, seg, s.dest[seg]);
    if !DestHolds(s, seg, id, atomic) {
      assert Source(s, seg, s.outbox[seg]);
    }
    forall side | Side(s, seg, side)
      ensures id in side.content
    {
      assert WrittenSide(s, seg, side);
    }
  }

  lemma NestedBreaks(s: State, seg: Segment, id: int, atomic: bool)
    requires Nested(s) && DestKept(s) && StandOK(s) && Frail(s, seg, id, atomic)
    ensures exists left :: Without(s, seg, id, atomic, left)
  {
    if (seg, None) in s.oldDest {
      assert Without(s, seg, id, atomic, None);
    } else if atomic {
      var o :| (seg, Some(o)) in s.oldDest && !Holds(s, o, seg, id);
      assert Without(s, seg, id, atomic, Some(o));
    } else {
      AnchoredLasts(s, seg, id);
    }
  }

  lemma AnchoredLasts(s: State, seg: Segment, id: int)
    requires Nested(s) && Anchored(s, seg) && Carries(s, seg, id, false)
    ensures Lasting(s, seg, id, false)
  {
    assert AtDest(s, seg, s.dest[seg]);
    if seg in s.outbox {
      assert Source(s, seg, s.outbox[seg]);
      assert NoGap(s, seg);
      assert CopyHolds(s, seg, id);
    }
  }

  // ---- one step at a time ------------------------------------------------------------------------

  predicate FreshCut(s: State, e: Event) {
    e.Seal? && e.c.ReadRows? ==> e.c.seg !in s.dest
  }

  lemma LeastKept(s: State, e: Event, seg: Segment, ids: set<int>)
    requires Enabled(s, e) && LeastOf(s, seg, ids)
    requires e == Seal(PlaceSegment) || e == Seal(WriteSidecar) ==> s.job.seg != seg
    ensures LeastOf(Next(s, e), seg, ids)
  {
    forall content | Source(Next(s, e), seg, content)
      ensures ids <= content.Keys
    {
      SourcesBefore(s, e, seg, content);
    }
    forall side | WrittenSide(Next(s, e), seg, side)
      ensures ids <= side.content.Keys
    {
      WrittenBefore(s, e, seg, side);
    }
  }

  lemma SidesShrink(s: State, e: Event, seg: Segment, content: map<int, Row>, side: Sidecar)
    requires Shrinking(s) && CutLeast(s) && JobOK(s) && Enabled(s, e)
    requires Source(Next(s, e), seg, content) && WrittenSide(Next(s, e), seg, side)
    ensures content.Keys <= side.content.Keys
  {
    SourcesBefore(s, e, seg, content);
    WrittenBefore(s, e, seg, side);
    if !WrittenSide(s, seg, side) {
      assert At(s.outbox, seg) == Some(side.content);
      assert Source(s, seg, content) ==> At(s.outbox, seg) == Some(content);
    }
  }

  lemma SeenLeast(s: State, e: Event, seg: Segment, content: map<int, Row>)
    requires Shrinking(s) && CutLeast(s) && Enabled(s, e)
    requires seg in Next(s, e).outbox && Source(Next(s, e), seg, content)
    ensures Next(s, e).outbox[seg].Keys <= content.Keys
  {
    SourcesBefore(s, e, seg, content);
    match e
    case Recorder(r) =>
    case Seal(c) => if c.PlaceSegment? && s.job.seg == seg {}
    case Ship(h) => if h.RemoveSource? {}
    case SyncDir =>
    case Fault(f) =>
  }

  lemma ShrinkingKept(s: State, e: Event)
    requires Shrinking(s) && CutLeast(s) && JobOK(s) && Enabled(s, e)
    ensures Shrinking(Next(s, e))
  {
    var t := Next(s, e);
    forall seg, content, side | Source(t, seg, content) && WrittenSide(t, seg, side)
      ensures content.Keys <= side.content.Keys
    {
      SidesShrink(s, e, seg, content, side);
    }
    forall seg, content | seg in t.outbox && Source(t, seg, content)
      ensures t.outbox[seg].Keys <= content.Keys
    {
      SeenLeast(s, e, seg, content);
    }
  }

  /** What is read from the file is in everything that was ever read from it over the same range. */
  lemma ReadLeast(s: State, seg: Segment, content: map<int, Row>)
    requires StandOK(s) && SealEnabled(s, ReadRows(seg, content))
    ensures LeastOf(s, seg, content.Keys)
  {
    forall c | Source(s, seg, c)
      ensures content.Keys <= c.Keys
    {
      assert Faithful(s, seg, c);
    }
    forall side | WrittenSide(s, seg, side)
      ensures content.Keys <= side.content.Keys
    {
      assert Side(s, seg, side);
      assert Faithful(s, seg, side.content);
    }
  }

  lemma CutLeastKept(s: State, e: Event)
    requires CutLeast(s) && StandOK(s) && Enabled(s, e)
    ensures CutLeast(Next(s, e))
  {
    var t := Next(s, e);
    if e.Seal? && e.c.ReadRows? {
      ReadLeast(s, e.c.seg, e.c.content);
      LeastKept(s, e, e.c.seg, e.c.content.Keys);
    } else if t.job.Cut? {
      assert t.job == s.job;
      LeastKept(s, e, t.job.seg, t.job.side.content.Keys);
    }
  }

  lemma UnsentKept(s: State, e: Event)
    requires Unsent(s) && DestKept(s) && Enabled(s, e) && FreshCut(s, e)
    ensures Unsent(Next(s, e))
  {
    match e
    case Recorder(r) =>
    case Seal(c) => SealUnsent(s, c);
    case Ship(h) => ShipUnsent(s, h);
    case SyncDir =>
    case Fault(f) => FaultUnsent(s, f);
  }

  lemma SealUnsent(s: State, c: SealEvent)
    requires Unsent(s) && SealEnabled(s, c) && FreshCut(s, Seal(c))
    ensures Unsent(SealNext(s, c))
  {
  }

  lemma ShipUnsent(s: State, h: ShipEvent)
    requires ShipEnabled(s, h)
    ensures Unsent(ShipNext(s, h))
  {
  }

  lemma FaultUnsent(s: State, f: FaultEvent)
    requires Unsent(s) && DestKept(s) && FaultEnabled(s, f)
    ensures Unsent(FaultNext(s, f))
  {
    if f.ReceiverCut? && (s.job.Cut? || s.job.Placed? || s.job.Sided?) {
      assert !Unvouched(s, s.job.seg);
      assert At(f.dest, s.job.seg) == At(s.dest, s.job.seg);
    }
  }

  lemma DestBefore(s: State, e: Event, seg: Segment, obj: Object)
    requires Enabled(s, e) && Honest(s, e) && JobOK(s) && AtDest(Next(s, e), seg, obj) && obj.Whole?
    ensures AtDest(s, seg, obj)
            || (e.Ship? && e.h.Transfer? && s.job.seg == seg && At(s.outbox, seg) == Some(obj.rows))
  {
    match e
    case Recorder(r) =>
    case Seal(c) =>
    case Ship(h) => ShipDestBefore(s, h, seg, obj);
    case SyncDir =>
    case Fault(f) =>
  }

  lemma ShipDestBefore(s: State, h: ShipEvent, seg: Segment, obj: Object)
    requires ShipEnabled(s, h) && Honest(s, Ship(h)) && JobOK(s) && AtDest(ShipNext(s, h), seg, obj) && obj.Whole?
    ensures AtDest(s, seg, obj) || (h.Transfer? && s.job.seg == seg && At(s.outbox, seg) == Some(obj.rows))
  {
    if h.Transfer? {
    } else if h.GetReceipt? {
    }
  }

  lemma AtDestIsSent(s: State, seg: Segment, obj: Object)
    requires DestKept(s) && AtDest(s, seg, obj)
    ensures seg in s.dest
  {
    assert (seg, Some(obj)) in s.oldDest ==> Unvouched(s, seg);
  }

  lemma SentLeastKept(s: State, e: Event)
    requires Nested(s) && DestKept(s) && JobOK(s) && Enabled(s, e) && Honest(s, e)
    ensures SentLeast(Next(s, e))
  {
    forall seg, obj | AtDest(Next(s, e), seg, obj) && obj.Whole?
      ensures LeastOf(Next(s, e), seg, obj.rows.Keys)
    {
      DestBefore(s, e, seg, obj);
      if AtDest(s, seg, obj) {
        AtDestIsSent(s, seg, obj);
      } else {
        assert Source(s, seg, obj.rows);
      }
      LeastKept(s, e, seg, obj.rows.Keys);
    }
  }

  lemma SentFromStaying(s: State)
    requires SentStays(s) && SidesBacked(s) && JobOK(s) && s.job.Picked?
    ensures NoGap(s, s.job.seg)
  {
    assert WrittenSide(s, s.job.seg, s.job.side);
  }

  /** What is at the destination was there before, or was just sent. */
  lemma DestGrows(s: State, e: Event, seg: Segment)
    requires DestKept(s) && Enabled(s, e) && seg in Next(s, e).dest
    ensures seg in s.dest || (e.Ship? && e.h.Transfer? && s.job.seg == seg)
    ensures Unvouched(Next(s, e), seg) ==> Unvouched(s, seg) || (e.Ship? && e.h.Transfer? && s.job.seg == seg)
    ensures Next(s, e).dest[seg].Damaged? ==>
              (seg in s.dest && s.dest[seg].Damaged?) || Unvouched(s, seg)
                  || (e.Ship? && e.h.Transfer? && s.job.seg == seg)
  {
    var t := Next(s, e);
    match e
    case Recorder(r) =>
    case Seal(c) =>
    case Ship(h) =>
      if h.Transfer? && s.job.seg != seg {
        assert forall o :: (seg, o) in t.oldDest ==> (seg, o) in s.oldDest;
      } else if h.GetReceipt? {
        assert forall o :: (seg, o) in t.oldDest ==> (seg, o) in s.oldDest;
      }
    case SyncDir =>
    case Fault(f) =>
      if f.ReceiverCut? {
        assert At(f.dest, seg) == At(s.dest, seg) || (seg, At(f.dest, seg)) in s.oldDest || Unvouched(s, seg);
        assert (seg, At(f.dest, seg)) in s.oldDest ==> Unvouched(s, seg);
      }
  }

  lemma RemovedIsVouched(s: State, seg: Segment)
    requires JobOK(s) && s.job.Recorded? && s.job.seg == seg
    ensures seg in s.dest && !Unvouched(s, seg) && s.dest[seg].Whole?
  {
  }

  lemma SentStaysKept(s: State, e: Event)
    requires Nested(s) && DestKept(s) && SidesBacked(s) && JobOK(s) && Enabled(s, e)
    ensures SentStays(Next(s, e))
  {
    var t := Next(s, e);
    forall seg | seg in t.dest && (seg in t.outbox || Unvouched(t, seg) || t.dest[seg].Damaged?)
      ensures NoGap(t, seg)
    {
      DestGrows(s, e, seg);
      if e.Ship? && e.h.Transfer? && s.job.seg == seg {
        SentFromStaying(s);
      } else if e == Ship(RemoveSource) && s.job.seg == seg {
        RemovedIsVouched(s, seg);
      } else {
        StillThere(s, e, seg);
      }
    }
  }

  lemma StillThere(s: State, e: Event, seg: Segment)
    requires Nested(s) && Enabled(s, e) && seg in s.dest
    requires seg in Next(s, e).outbox || Unvouched(s, seg) || s.dest[seg].Damaged?
    requires !(e == Ship(RemoveSource) && s.job.seg == seg)
    ensures NoGap(Next(s, e), seg)
  {
    if NoGap(s, seg) {
      NoGapKept(s, e, seg);
    }
  }

  lemma NestedKept(s: State, e: Event, atomic: bool)
    requires Inv(s, atomic) && Nested(s) && Enabled(s, e) && Honest(s, e) && FreshCut(s, e)
    ensures Nested(Next(s, e))
  {
    ShrinkingKept(s, e);
    CutLeastKept(s, e);
    UnsentKept(s, e);
    SentLeastKept(s, e);
    SentStaysKept(s, e);
  }

  // ---- over whole runs ---------------------------------------------------------------------------

  /** A run in which cuts take fresh names, and the receiver is honest and keeps what it promises. */
  ghost predicate OrdinaryRun(s: State, events: seq<Event>, atomic: bool)
    requires Runs(s, events)
  {
    FreshRun(s, events) && GoodReceiverRun(s, events, atomic) && HonestRun(s, events)
  }

  lemma {:induction false} RunNested(s: State, events: seq<Event>, atomic: bool)
    requires Inv(s, atomic) && Nested(s) && Runs(s, events) && OrdinaryRun(s, events, atomic)
    ensures Inv(After(s, events), atomic) && Nested(After(s, events))
    decreases |events|
  {
    if events != [] {
      var e := events[0];
      if e.Seal? && e.c.ReadRows? {
        FreshCutAllowed(s, e.c.seg, e.c.content, atomic);
      }
      StepKeeps(s, e, atomic);
      NestedKept(s, e, atomic);
      RunNested(Next(s, e), events[1..], atomic);
    }
  }

  /** EXACTLY WHEN A CUT CAN LOSE A ROW. After any ordinary run, whatever was undone by power cuts, a cut
      under any name can be followed by a careful run that loses a row if and only if some row that has left
      its file is neither in the cut nor carried for good under another name. If the name is half cleaned up
      and the receiver writes in place, only the first half: there the cut itself is no help. */
  lemma SafeCuts(events: seq<Event>, seg: Segment, content: map<int, Row>, atomic: bool)
    requires Runs(START, events) && OrdinaryRun(START, events, atomic)
    requires SealEnabled(After(START, events), ReadRows(seg, content))
    ensures var s := After(START, events);
      && (CutIsSafe(s, seg, content, atomic) ==> OthersHold(s, seg, content, atomic))
      && (atomic || !HalfCleaned(s, seg) ==>
            (CutIsSafe(s, seg, content, atomic) <==> OthersHold(s, seg, content, atomic)))
  {
    StartInv(atomic);
    assert Nested(START);
    RunNested(START, events, atomic);
    var s := After(START, events);
    forall g, id | Lasting(s, g, id, atomic)
      ensures Solid(s, g, id)
    {
      LastingSolid(s, g, id, atomic);
    }
    forall g, id | Frail(s, g, id, atomic)
      ensures exists left :: Without(s, g, id, atomic, left)
    {
      NestedBreaks(s, g, id, atomic);
    }
    SafeIffOthersHold(s, seg, content, atomic);
  }
}
