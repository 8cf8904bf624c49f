/** Which playbook the copilot uses in a race: its file counts only while its hash is the one the Pi
    approved, which the copilot asks for, remembers for a few seconds, and may fail to hear. */
module PlaybookUse {
  import opened Options
  import opened TwoStepCommit

  /** A use: the file it read, if that is what the hash names. */
  function Result(file: int, hash: Option<int>): Option<int> {
    if hash == Some(file) then hash else None
  }

  predicate IsUse(e: Event) {
    e.UseStep? && (e.u.UsePinned? || e.u.Answered? || e.u.AskLost?)
  }

  /** What this use ends up with. */
  function UseOf(s: State, e: UseEvent): Option<int>
    requires UseEnabled(s, e)
  {
    match e
    case UsePinned(file, _) => Result(file, Some(s.pin.value.hash))
    case Answered(ask, hash) => Result(ask.file, hash)
    case _ => None
  }

  ghost predicate AllUses(s: State, es: seq<Event>, w: Timing, allowed: set<Option<int>>)
    requires Runs(s, es, w)
    decreases |es|
  {
    es == [] || ((IsUse(es[0]) ==> UseOf(s, es[0].u) in allowed) && AllUses(Next(s, es[0], w), es[1..], w, allowed))
  }

  ghost predicate InRace(es: seq<Event>) { PiStep(EndRace) !in es }

  ghost predicate AllAnswered(es: seq<Event>) { forall ask :: UseStep(AskLost(ask)) !in es }

  // ---- what is remembered agrees with what is approved -------------------------------------------

  predicate OnHand(s: State, file: int) { file in s.seen || file == s.file }

  /** Every use that is under way, and every use of what is remembered, ends up with the approved bundle. */
  ghost predicate Agrees(s: State) {
    && (forall f :: OnHand(s, f) ==> Result(f, s.approved) == s.approved)
    && (PinFresh(s) ==> forall f :: OnHand(s, f) ==> Result(f, Some(s.pin.value.hash)) == s.approved)
    && (forall ask :: ask in s.asks ==> Result(ask.file, s.approved) == s.approved)
    && (forall ask, hash :: (ask, hash) in s.replies ==>
          && Result(ask.file, hash) == s.approved
          && (hash.Some? && s.now - ask.at <= PIN_CACHE_S ==> forall f :: OnHand(s, f) ==>
              Result(f, hash) == s.approved))
  }

  /** No load is going on, and the live file cannot change: it is the approved one, or renames are prompt. */
  ghost predicate Still(s: State, w: Timing) {
    && s.pi == Idle && Inv(s, w)
    && ((w.card != Fails && s.approved.Some?) || (w.card == Sound && 0.0 <= w.stall < 1.0 && Prompt(s, w)))
  }

  lemma StillKept(s: State, e: Event, w: Timing)
    requires Still(s, w) && Enabled(s, e, w) && !(e.PiStep? && e.p.BeginLoad?)
    ensures Still(Next(s, e, w), w) && Next(s, e, w).approved == s.approved && Next(s, e, w).file == s.file
  {
    StepKeeps(s, e, w);
    if w.card == Sound && 0.0 <= w.stall < 1.0 && Prompt(s, w) {
      StepKeepsPrompt(s, e, w);
    }
  }

  /** Only uses learn anything. */
  lemma NothingLearned(s: State, e: Event, w: Timing)
    requires Enabled(s, e, w) && !e.UseStep?
    ensures var t := Next(s, e, w);
      t.seen <= s.seen && t.asks <= s.asks && t.replies <= s.replies && (t.pin == s.pin || t.pin == None)
          && s.now <= t.now
  {
    match e
    case PiStep(p) => PiLearnsNothing(s, p, w);
    case OrinStep(o) =>
    case NetStep(n) =>
  }

  lemma PiLearnsNothing(s: State, e: PiEvent, w: Timing)
    requires PiEnabled(s, e, w)
    ensures var t := PiNext(s, e, w);
      t.seen == s.seen && t.asks == s.asks && t.replies == s.replies && t.pin == s.pin && t.now == s.now
  {
  }

  lemma UseKeepsAgreement(s: State, e: UseEvent)
    requires Agrees(s) && UseEnabled(s, e)
    ensures Agrees(UseNext(s, e))
  {
  }

  lemma OrinKeepsAgreement(s: State, e: OrinEvent, w: Timing)
    requires Agrees(s) && OrinEnabled(s, e) && OrinNext(s, e, w).file == s.file
    ensures Agrees(OrinNext(s, e, w))
  {
    var t := OrinNext(s, e, w);
    assert t.approved == s.approved && t.now == s.now && t.seen <= s.seen && t.asks <= s.asks && t.replies <= s.replies;
    assert t.pin == s.pin || t.pin == None;
  }

  lemma PiKeepsAgreement(s: State, e: PiEvent, w: Timing)
    requires Agrees(s) && PiEnabled(s, e, w) && PiNext(s, e, w).approved == s.approved
    ensures Agrees(PiNext(s, e, w))
  {
    var t := PiNext(s, e, w);
    assert t == s.(pi := t.pi, racing := t.racing, issued := t.issued, stages := t.stages, commits := t.commits);
  }

  lemma NetKeepsAgreement(s: State, e: NetEvent, w: Timing)
    requires Agrees(s) && NetEnabled(s, e, w)
    ensures Agrees(NetNext(s, e))
  {
    var t := NetNext(s, e);
    assert s.now <= t.now && t.approved == s.approved && t.file == s.file && t.seen == s.seen;
    assert t.pin == s.pin && t.asks == s.asks && t.replies == s.replies;
  }

  lemma AgreementKept(s: State, e: Event, w: Timing)
    requires Still(s, w) && Agrees(s) && Enabled(s, e, w) && !(e.PiStep? && e.p.BeginLoad?)
    ensures Agrees(Next(s, e, w))
  {
    StillKept(s, e, w);
    match e
    case PiStep(p) => PiKeepsAgreement(s, p, w);
    case OrinStep(o) => OrinKeepsAgreement(s, o, w);
    case NetStep(n) => NetKeepsAgreement(s, n, w);
    case UseStep(u) => UseKeepsAgreement(s, u);
  }

  lemma AgreeingUse(s: State, e: UseEvent)
    requires Agrees(s) && UseEnabled(s, e) && IsUse(UseStep(e))
    ensures UseOf(s, e) == s.approved || (e.AskLost? && UseOf(s, e) == None)
  {
  }

  /** In a race that begins in agreement every use is of the approved playbook, except that one whose ask
      is lost goes without. */
  lemma {:induction false} AgreementHolds(s: State, es: seq<Event>, w: Timing)
    requires s.racing && Still(s, w) && Agrees(s) && Runs(s, es, w) && InRace(es)
    ensures AllUses(s, es, w, {s.approved, None})
    ensures AllAnswered(es) ==> AllUses(s, es, w, {s.approved})
    decreases |es|
  {
    if es != [] {
      var e := es[0];
      assert e in es;
      AgreementKept(s, e, w);
      StillKept(s, e, w);
      if IsUse(e) {
        AgreeingUse(s, e.u);
        assert e.u.AskLost? ==> e == UseStep(AskLost(e.u.ask));
      }
      AgreementHolds(Next(s, e, w), es[1..], w);
    }
  }

  // ---- and without agreement some use differs ------------------------------------------------------

  /** Some race from here, with every ask answered, has a use of something else. */
  ghost predicate Strays(s: State, w: Timing, approved: Option<int>) {
    exists es :: Runs(s, es, w) && InRace(es) && AllAnswered(es) && !AllUses(s, es, w, {approved})
  }

  lemma StraysNow(s: State, e: UseEvent, w: Timing, approved: Option<int>)
    requires UseEnabled(s, e) && IsUse(UseStep(e)) && !e.AskLost? && UseOf(s, e) != approved
    ensures Strays(s, w, approved)
  {
    var es := [UseStep(e)];
    assert Runs(Next(s, es[0], w), [], w) && es[1..] == [];
    assert Runs(s, es, w) && InRace(es) && AllAnswered(es) && !AllUses(s, es, w, {approved});
  }

  lemma StraysLater(s: State, e: UseEvent, w: Timing, approved: Option<int>)
    requires UseEnabled(s, e) && !e.AskLost? && Strays(UseNext(s, e), w, approved)
    ensures Strays(s, w, approved)
  {
    StraysAfter(s, UseStep(e), w, approved);
  }

  lemma StraysAfter(s: State, e: Event, w: Timing, approved: Option<int>)
    requires Enabled(s, e, w) && e != PiStep(EndRace) && !(e.UseStep? && e.u.AskLost?)
    requires Strays(Next(s, e, w), w, approved)
    ensures Strays(s, w, approved)
  {
    var t := Next(s, e, w);
    var rest :| Runs(t, rest, w) && InRace(rest) && AllAnswered(rest) && !AllUses(t, rest, w, {approved});
    var es := [e] + rest;
    assert es[0] == e && es[1..] == rest;
    assert forall x :: x in es ==> x == e || x in rest;
    assert Runs(s, es, w) && InRace(es) && AllAnswered(es) && !AllUses(s, es, w, {approved});
  }

  /** A file read, or about to be, is tried on what is pinned, or else on a fresh answer. */
  lemma SeenStrays(s: State, f: int, w: Timing)
    requires f in s.seen
    requires if PinFresh(s) then Result(f, Some(s.pin.value.hash)) != s.approved
             else Result(f, s.approved) != s.approved
    ensures Strays(s, w, s.approved)
  {
    if PinFresh(s) {
      StraysNow(s, UsePinned(f, false), w, s.approved);
    } else {
      var s1 := UseNext(s, AskPi(f, false));
      var ask := Ask(f, s.now);
      AskStrays(s1, ask, w);
      StraysLater(s, AskPi(f, false), w, s.approved);
    }
  }

  lemma AskStrays(s: State, ask: Ask, w: Timing)
    requires ask in s.asks && Result(ask.file, s.approved) != s.approved
    ensures Strays(s, w, s.approved)
  {
    var s1 := UseNext(s, PiReplies(ask));
    StraysNow(s1, Answered(ask, s.approved), w, s.approved);
    StraysLater(s, PiReplies(ask), w, s.approved);
  }

  lemma OnHandStrays(s: State, f: int, w: Timing)
    requires OnHand(s, f)
    requires if PinFresh(s) then Result(f, Some(s.pin.value.hash)) != s.approved
             else Result(f, s.approved) != s.approved
    ensures Strays(s, w, s.approved)
  {
    var s1 := UseNext(s, ReadFile);
    if f in s.seen {
      SeenStrays(s, f, w);
    } else {
      SeenStrays(s1, f, w);
      StraysLater(s, ReadFile, w, s.approved);
    }
  }

  /** A remembered reply is used first, and then what it left behind. */
  lemma ReplyStrays(s: State, ask: Ask, hash: Option<int>, w: Timing)
    requires (ask, hash) in s.replies
    requires Result(ask.file, hash) != s.approved
             || (hash.Some? && s.now - ask.at <= PIN_CACHE_S
                 && exists f :: OnHand(s, f) && Result(f, hash) != s.approved)
    ensures Strays(s, w, s.approved)
  {
    var e := Answered(ask, hash);
    if Result(ask.file, hash) != s.approved {
      StraysNow(s, e, w, s.approved);
    } else {
      var f :| OnHand(s, f) && Result(f, hash) != s.approved;
      var s1 := UseNext(s, e);
      OnHandStrays(s1, f, w);
      StraysLater(s, e, w, s.approved);
    }
  }

  lemma DisagreementStrays(s: State, w: Timing)
    requires !Agrees(s)
    ensures Strays(s, w, s.approved)
  {
    if f :| OnHand(s, f) && Result(f, s.approved) != s.approved {
      OnHandStrays(s, f, w);
    } else if PinFresh(s) && exists f :: OnHand(s, f) && Result(f, Some(s.pin.value.hash)) != s.approved {
      var f :| OnHand(s, f) && Result(f, Some(s.pin.value.hash)) != s.approved;
      OnHandStrays(s, f, w);
    } else if ask :| ask in s.asks && Result(ask.file, s.approved) != s.approved {
      AskStrays(s, ask, w);
    } else {
      var ask, hash :| (ask, hash) in s.replies &&
        (Result(ask.file, hash) != s.approved
         || (hash.Some? && s.now - ask.at <= PIN_CACHE_S && exists f :: OnHand(s, f) && Result(f, hash) != s.approved));
      ReplyStrays(s, ask, hash, w);
    }
  }

  /** Whatever still happens in this race, if every ask is answered, every use is of the approved playbook. */
  ghost predicate AlwaysPinned(s: State, w: Timing) {
    forall es :: Runs(s, es, w) && InRace(es) && AllAnswered(es) ==> AllUses(s, es, w, {s.approved})
  }

  /** PINNED AT THE GUN EXACTLY WHEN WHAT IS REMEMBERED AGREES: with every ask answered, every use in the
      race is of the playbook approved at the gun if and only if, at the gun, every use under way and every
      use of what the copilot remembers would be. */
  lemma PinnedIff(s: State, w: Timing)
    requires s.racing && Still(s, w)
    ensures AlwaysPinned(s, w) <==> Agrees(s)
  {
    if Agrees(s) {
      forall es | Runs(s, es, w) && InRace(es) && AllAnswered(es)
        ensures AllUses(s, es, w, {s.approved})
      {
        AgreementHolds(s, es, w);
      }
    } else {
      DisagreementStrays(s, w);
    }
  }

  // ---- a quiet time before the gun brings agreement ------------------------------------------------

  /** Since `since`: what was asked then or later was answered with what is approved, about the live file. */
  ghost predicate QuietSince(s: State, since: real) {
    && (s.pin.Some? && s.pin.value.at > since ==> s.approved == Some(s.pin.value.hash))
    && (forall f :: f in s.seen ==> f == s.file)
    && (forall ask :: ask in s.asks ==> ask.file == s.file)
    && (forall ask, hash :: (ask, hash) in s.replies ==> ask.file == s.file && hash == s.approved)
  }

  predicate NoUseUnderWay(s: State) { s.seen == {} && s.asks == {} && s.replies == {} }

  lemma {:induction false} QuietKept(s: State, es: seq<Event>, w: Timing, since: real)
    requires Still(s, w) && QuietSince(s, since) && Runs(s, es, w)
    requires forall e :: e in es ==> !(e.PiStep? && e.p.BeginLoad?)
    ensures Still(After(s, es, w), w) && QuietSince(After(s, es, w), since)
    decreases |es|
  {
    if es != [] {
      assert es[0] in es;
      StillKept(s, es[0], w);
      QuietStep(s, es[0], w, since);
      QuietKept(Next(s, es[0], w), es[1..], w, since);
    }
  }

  lemma QuietStep(s: State, e: Event, w: Timing, since: real)
    requires QuietSince(s, since) && Enabled(s, e, w)
    requires Next(s, e, w).approved == s.approved && Next(s, e, w).file == s.file
    ensures QuietSince(Next(s, e, w), since)
  {
    if !e.UseStep? {
      NothingLearned(s, e, w);
    }
  }

  /** What is remembered is used without asking for exactly five seconds from when the ask began. */
  lemma RemembersFiveSeconds(s: State, file: int, last: bool)
    requires file in s.seen
    ensures UseEnabled(s, UsePinned(file, last)) <==> exists pin :: s.pin == Some(pin) && s.now <= pin.at + 5.0
    ensures UseEnabled(s, AskPi(file, last)) <==> s.pin.None? || s.now > s.pin.value.at + 5.0
  {
    assert PinFresh(s) ==> s.pin == Some(s.pin.value) && s.now <= s.pin.value.at + 5.0;
  }

  /** A QUIET GUN: if no load is begun and no use is under way for longer than five seconds before the gun,
      the race begins in agreement. */
  lemma QuietGun(s: State, es: seq<Event>, w: Timing)
    requires Still(s, w) && NoUseUnderWay(s) && (s.pin.Some? ==> s.pin.value.at <= s.now) && Runs(s, es, w)
    requires forall e :: e in es ==> !(e.PiStep? && e.p.BeginLoad?)
    requires After(s, es, w).now > s.now + 5.0
    ensures Still(After(s, es, w), w) && Agrees(After(s, es, w))
  {
    QuietKept(s, es, w, s.now);
  }

  // ---- with any card, any stall and any lost ask -----------------------------------------------------

  /** No hash remembered, or on its way, is other than the approved one. */
  ghost predicate OnlyApproved(s: State) {
    && (PinFresh(s) ==> s.approved == Some(s.pin.value.hash))
    && (forall ask, hash :: (ask, hash) in s.replies && hash.Some? ==> hash == s.approved)
  }

  lemma RaceStep(s: State, e: Event, w: Timing)
    requires s.racing && s.pi == Idle && Enabled(s, e, w) && e != PiStep(EndRace)
    ensures var t := Next(s, e, w); t.racing && t.pi == Idle && t.approved == s.approved && s.now <= t.now
  {
  }

  lemma ApprovedStep(s: State, e: Event, w: Timing)
    requires s.racing && s.pi == Idle && Enabled(s, e, w) && e != PiStep(EndRace) && OnlyApproved(s)
    ensures OnlyApproved(Next(s, e, w))
    ensures IsUse(e) ==> UseOf(s, e.u) in {s.approved, None}
  {
    RaceStep(s, e, w);
    if !e.UseStep? {
      NothingLearned(s, e, w);
    }
  }

  /** ONLY THE APPROVED ONE OR NONE: from then on, whatever is lost, raised or renamed late. */
  lemma {:induction false} ApprovedOrNone(s: State, es: seq<Event>, w: Timing)
    requires s.racing && s.pi == Idle && OnlyApproved(s) && Runs(s, es, w) && InRace(es)
    ensures AllUses(s, es, w, {s.approved, None})
    decreases |es|
  {
    if es != [] {
      assert es[0] in es;
      RaceStep(s, es[0], w);
      ApprovedStep(s, es[0], w);
      ApprovedOrNone(Next(s, es[0], w), es[1..], w);
    }
  }

  /** A hash other than the approved one comes only from an ask begun by `gun`. */
  ghost predicate OthersAreOld(s: State, gun: real) {
    && (s.pin.Some? && s.pin.value.at > gun ==> s.approved == Some(s.pin.value.hash))
    && (forall ask, hash :: (ask, hash) in s.replies && hash.Some? && ask.at > gun ==> hash == s.approved)
  }

  lemma {:induction false} OthersStayOld(s: State, es: seq<Event>, w: Timing, gun: real)
    requires s.racing && s.pi == Idle && OthersAreOld(s, gun) && Runs(s, es, w) && InRace(es)
    ensures var t := After(s, es, w); t.racing && t.pi == Idle && t.approved == s.approved && OthersAreOld(t, gun)
    decreases |es|
  {
    if es != [] {
      assert es[0] in es;
      RaceStep(s, es[0], w);
      OldStep(s, es[0], w, gun);
      OthersStayOld(Next(s, es[0], w), es[1..], w, gun);
    }
  }

  lemma OldStep(s: State, e: Event, w: Timing, gun: real)
    requires s.racing && s.pi == Idle && OthersAreOld(s, gun) && Enabled(s, e, w) && e != PiStep(EndRace)
    ensures OthersAreOld(Next(s, e, w), gun)
  {
    RaceStep(s, e, w);
    if !e.UseStep? {
      NothingLearned(s, e, w);
    }
  }

  /** Nothing was asked in the future. */
  ghost predicate Timely(s: State) {
    && (s.pin.Some? ==> s.pin.value.at <= s.now)
    && (forall ask :: ask in s.asks ==> ask.at <= s.now)
    && (forall ask, hash :: (ask, hash) in s.replies ==> ask.at <= s.now)
  }

  lemma TimelyStep(s: State, e: Event, w: Timing)
    requires Timely(s) && Enabled(s, e, w)
    ensures Timely(Next(s, e, w))
  {
    if !e.UseStep? {
      NothingLearned(s, e, w);
    }
  }

  lemma {:induction false} AlwaysTimely(s: State, es: seq<Event>, w: Timing)
    requires Timely(s) && Runs(s, es, w)
    ensures Timely(After(s, es, w))
    decreases |es|
  {
    if es != [] {
      TimelyStep(s, es[0], w);
      AlwaysTimely(Next(s, es[0], w), es[1..], w);
    }
  }

  /** ONCE THE MEMORY HAS EXPIRED: more than five seconds into a race, once no reply to an ask begun before
      the gun is on its way, only the bundle approved at the gun, or none, is used. */
  lemma AfterExpiry(s0: State, before: seq<Event>, es: seq<Event>, rest: seq<Event>, w: Timing)
    requires Start(s0) && Runs(s0, before, w) && After(s0, before, w).racing && After(s0, before, w).pi == Idle
    requires var gun := After(s0, before, w);
      Runs(gun, es, w) && InRace(es) && After(gun, es, w).now > gun.now + 5.0
      && (forall ask, hash :: (ask, hash) in After(gun, es, w).replies ==> ask.at > gun.now)
      && Runs(After(gun, es, w), rest, w) && InRace(rest)
    ensures var gun := After(s0, before, w);
      AllUses(After(gun, es, w), rest, w, {gun.approved, None})
  {
    var gun := After(s0, before, w);
    AlwaysTimely(s0, before, w);
    OthersStayOld(gun, es, w, gun.now);
    ApprovedOrNone(After(gun, es, w), rest, w);
  }

  // ---- three races in which the use changes --------------------------------------------------------

  /** More than five seconds later, with every ask answered, a use is of what is approved. */
  lemma LaterUse(s: State, w: Timing, other: Option<int>)
    requires s.racing && s.pi == Idle && s.handler == Quiet && s.seen == {} && s.asks == {}
    requires s.pin.Some? && s.pin.value.at <= s.now && Result(s.file, s.approved) != other
    ensures Strays(s, w, other)
  {
    var s1 := Next(s, NetStep(Wait(6.0)), w);
    var s2 := UseNext(s1, ReadFile);
    var s3 := UseNext(s2, AskPi(s.file, true));
    var ask := Ask(s.file, s1.now);
    var s4 := UseNext(s3, PiReplies(ask));
    StraysNow(s4, Answered(ask, s.approved), w, other);
    StraysLater(s3, PiReplies(ask), w, other);
    StraysLater(s2, AskPi(s.file, true), w, other);
    StraysLater(s1, ReadFile, w, other);
    StraysAfter(s, NetStep(Wait(6.0)), w, other);
  }

  lemma PinnedUse(s: State, w: Timing, other: Option<int>)
    requires PinFresh(s) && Result(s.file, Some(s.pin.value.hash)) != other
    ensures Strays(s, w, other)
  {
    var s1 := UseNext(s, ReadFile);
    StraysNow(s1, UsePinned(s.file, false), w, other);
    StraysLater(s, ReadFile, w, other);
  }

  /** The copilot asked between the new file and its approval, and remembers the old hash at the gun. */
  function AskedTooEarly(): State {
    Renaming().(pi := Idle, racing := true, approved := Some(7), file := 7, handler := Quiet, answers := {(0, true)},
                pin := Some(Pin(0, 0.0)))
  }

  /** It uses nothing at first, and the approved bundle later in the same race. */
  lemma UseBeginsInTheRace(w: Timing)
    requires 0.0 < w.ttl <= 10.0
    ensures Reached(AskedTooEarly(), w) && AskedTooEarly().racing && !Agrees(AskedTooEarly())
    ensures Strays(AskedTooEarly(), w, Some(7)) && Strays(AskedTooEarly(), w, None)
  {
    RenamingReached(w);
    ReachedStep(Renaming(), OrinStep(Rename), w);
    var s1 := OrinNext(Renaming(), Rename, w);
    ReachedStep(s1, OrinStep(Answer(true, true)), w);
    var s2 := OrinNext(s1, Answer(true, true), w);
    AskNow(s2, w);
    var s3 := s2.(pin := Some(Pin(0, 0.0)));
    ReachedStep(s3, PiStep(CommitAnswered(true)), w);
    var s4 := PiNext(s3, CommitAnswered(true), w);
    ReachedStep(s4, PiStep(StartRace), w);
    assert PiNext(s4, StartRace, w) == AskedTooEarly();
    var g := AskedTooEarly();
    assert OnHand(g, 7);
    PinnedUse(g, w, Some(7));
    LaterUse(g, w, None);
  }

  /** A use that asks, and is answered at once with what is approved. */
  lemma AskNow(s: State, w: Timing)
    requires Reached(s, w) && s.pin == None && s.seen == {} && s.asks == {} && s.replies == {} && s.approved.Some?
    ensures Reached(s.(pin := Some(Pin(s.approved.value, s.now))), w)
  {
    var ask := Ask(s.file, s.now);
    ReachedStep(s, UseStep(ReadFile), w);
    var s1 := UseNext(s, ReadFile);
    ReachedStep(s1, UseStep(AskPi(s.file, true)), w);
    var s2 := UseNext(s1, AskPi(s.file, true));
    ReachedStep(s2, UseStep(PiReplies(ask)), w);
    var s3 := UseNext(s2, PiReplies(ask));
    ReachedStep(s3, UseStep(Answered(ask, s.approved)), w);
    assert UseNext(s3, Answered(ask, s.approved)) == s.(pin := Some(Pin(s.approved.value, s.now)));
  }

  /** The commit was not confirmed; the copilot asked just before nothing was approved any more. */
  function AskedTooLate(w: Timing): State {
    Quietly().(now := w.ttl + 1.0, racing := true, approved := None, issued := [7], staged := Some(Staged(0, 0.0)),
               stageAnswers := {0}, commits := {0}, pin := Some(Pin(0, w.ttl + 1.0)))
  }

  /** It uses the old bundle at first, which nobody approves, and nothing later in the same race. */
  lemma UseEndsInTheRace(w: Timing)
    requires 0.0 < w.ttl <= 10.0
    ensures Reached(AskedTooLate(w), w) && AskedTooLate(w).racing && !Agrees(AskedTooLate(w))
    ensures Strays(AskedTooLate(w), w, None) && Strays(AskedTooLate(w), w, Some(0))
  {
    StagedReached(w);
    var s4 := Quietly().(pi := Committing(0, 0.0), issued := [7], staged := Some(Staged(0, 0.0)),
                         stageAnswers := {0}, commits := {0});
    ReachedStep(s4, NetStep(Wait(w.ttl + 1.0)), w);
    var s5 := NetNext(s4, Wait(w.ttl + 1.0));
    AskNow(s5, w);
    var s6 := s5.(pin := Some(Pin(0, s5.now)));
    ReachedStep(s6, PiStep(CommitLost), w);
    var s7 := PiNext(s6, CommitLost, w);
    ReachedStep(s7, PiStep(Release), w);
    var s8 := PiNext(s7, Release, w);
    ReachedStep(s8, PiStep(StartRace), w);
    assert PiNext(s8, StartRace, w) == AskedTooLate(w);
    var g := AskedTooLate(w);
    assert OnHand(g, 0);
    PinnedUse(g, w, None);
    LaterUse(g, w, Some(0));
  }

  lemma StagedReached(w: Timing)
    requires 0.0 < w.ttl <= 10.0
    ensures Reached(Quietly().(pi := Committing(0, 0.0), issued := [7], staged := Some(Staged(0, 0.0)),
                               stageAnswers := {0}, commits := {0}), w)
  {
    var s0 := Quietly();
    assert Start(s0) && Runs(s0, [], w) && After(s0, [], w) == s0;
    ReachedStep(s0, PiStep(BeginLoad(7)), w);
    var s1 := PiNext(s0, BeginLoad(7), w);
    ReachedStep(s1, OrinStep(StageArrives(0)), w);
    var s2 := OrinNext(s1, StageArrives(0), w);
    ReachedStep(s2, OrinStep(StageTaken(0)), w);
    var s3 := OrinNext(s2, StageTaken(0), w);
    ReachedStep(s3, PiStep(StageAnswered), w);
    assert PiNext(s3, StageAnswered, w) == s0.(pi := Committing(0, 0.0), issued := [7], staged := Some(Staged(0, 0.0)),
                                               stageAnswers := {0}, commits := {0});
  }

  /** A race that begins in agreement, and one ask of it that is lost. */
  function Racing(): State { Quietly().(racing := true) }

  function OneLost(): seq<Event> {
    [UseStep(ReadFile), UseStep(AskPi(0, true)), UseStep(AskLost(Ask(0, 0.0)))]
  }

  /** One use goes without the approved bundle, and the next has it again. */
  lemma LostAskInterrupts(w: Timing)
    ensures Reached(Racing(), w) && Racing().racing && Agrees(Racing())
    ensures Runs(Racing(), OneLost(), w) && !AllUses(Racing(), OneLost(), w, {Some(0)})
    ensures After(Racing(), OneLost(), w) == Racing() && Strays(Racing(), w, None)
  {
    var s0 := Quietly();
    assert Start(s0) && Runs(s0, [], w) && After(s0, [], w) == s0;
    ReachedStep(s0, PiStep(StartRace), w);
    var g := Racing();
    var es := OneLost();
    var s1 := UseNext(g, ReadFile);
    var s2 := UseNext(s1, AskPi(0, true));
    var s3 := UseNext(s2, AskLost(Ask(0, 0.0)));
    assert s3 == g;
    RunFrom(s2, es, 2, w);
    RunFrom(s1, es, 1, w);
    RunFrom(g, es, 0, w);
    assert es[0..] == es && es[1..][1..] == es[2..];
    assert !AllUses(s2, es[2..], w, {Some(0)});
    assert !AllUses(s1, es[1..], w, {Some(0)});
    var ask := Ask(0, 0.0);
    StraysNow(UseNext(s2, PiReplies(ask)), Answered(ask, Some(0)), w, None);
    StraysLater(s2, PiReplies(ask), w, None);
    StraysLater(s1, AskPi(0, true), w, None);
    StraysLater(g, ReadFile, w, None);
  }
}
