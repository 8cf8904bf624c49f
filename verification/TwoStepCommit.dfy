/** The playbook load: the Pi stages a bundle on the Orin and commits it, holding the race log's session
    lock, over a network that delays and loses messages. Real time; both monotonic clocks run alike. */
module TwoStepCommit {
  import opened Options

  // ---- state ------------------------------------------------------------------------------------

  /** Where the Pi is in a load. It holds the session lock in every state but Idle. */
  datatype Pi = Idle | Staging(nonce: nat) | Committing(nonce: nat, sent: real) | Holding(nonce: nat, sent: real)

  /** The commit handler, inside its own lock: writing the temporary file, past its last time check with
      the rename to come, or done and about to answer. */
  datatype Handler = Quiet | Writing(nonce: nat, received: real) | Checked(nonce: nat, received: real, at: real) |
                     Renamed(nonce: nat)

  datatype Staged = Staged(nonce: nat, received: real)

  /** Request n carries bundle issued[n]; a hash names its bundle. */
  datatype State = State(
    now: real, pi: Pi, racing: bool, approved: Option<int>, issued: seq<int>,
    file: int, staged: Option<Staged>, handler: Handler,
    stages: set<nat>, received: map<nat, real>, stageAnswers: set<nat>,
    commits: set<nat>, answers: set<(nat, bool)>,
    pin: Option<Pin>, seen: set<int>, asks: set<Ask>, replies: set<(Ask, Option<int>)>)

  /** The hash the copilot remembers, as of when it began to ask; at most PIN_CACHE_S old, it is not asked again. */
  datatype Pin = Pin(hash: int, at: real)

  /** A use that has read this file and asks the Pi. One that has not got that far yet is in `seen`. */
  datatype Ask = Ask(file: int, at: real)

  const PIN_CACHE_S := 5.0

  /** What writing the approved hash can do: always succeed; raise, but only once the new hash is in place;
      or raise at any point. */
  datatype Card = Sound | FailsLate | Fails

  /** The commit window, how long the rename may come after the last check of it, and the Pi's card. */
  datatype Timing = Timing(ttl: real, stall: real, card: Card)

  ghost predicate Start(s: State) {
    && s.pi == Idle && s.staged == None && s.handler == Quiet && s.issued == []
    && s.stages == {} && s.received == map[] && s.stageAnswers == {} && s.commits == {} && s.answers == {}
    && s.pin == None && s.seen == {} && s.asks == {} && s.replies == {}
    && (s.approved.Some? ==> s.file == s.approved.value)
  }

  datatype PiEvent = BeginLoad(bundle: int) | StageAnswered | StageFailed | CommitAnswered(loaded: bool) | CommitLost |
                     ApprovalRaises(loaded: bool, replaced: bool) | Release | StartRace | EndRace
  datatype OrinEvent = StageArrives(nonce: nat) | StageTaken(nonce: nat) | CommitArrives(nonce: nat) | LastCheck |
                       Rename | Answer(loaded: bool, asksAgain: bool) | Restart
  datatype NetEvent = Wait(d: real) | LoseStage(nonce: nat) | LoseStageAnswer(nonce: nat) | LoseCommit(nonce: nat) |
                      LoseAnswer(nonce: nat, loaded: bool)

  /** `last`: no other use has read the same file and not gone on. */
  datatype UseEvent = ReadFile | UsePinned(file: int, last: bool) | AskPi(file: int, last: bool) | PiReplies(ask: Ask) |
                      Answered(ask: Ask, hash: Option<int>) | AskLost(ask: Ask)
  datatype Event = PiStep(p: PiEvent) | OrinStep(o: OrinEvent) | NetStep(n: NetEvent) | UseStep(u: UseEvent)

  // ---- the Pi -------------------------------------------------------------------------------------

  const MAX_TTL := 10.0

  predicate PiEnabled(s: State, e: PiEvent, w: Timing) {
    match e
    case BeginLoad(_) => s.pi == Idle && !s.racing
    case StageAnswered => s.pi.Staging? && s.pi.nonce in s.stageAnswers
    case StageFailed => s.pi.Staging?
    case CommitAnswered(loaded) => s.pi.Committing? && (s.pi.nonce, loaded) in s.answers
    case CommitLost => s.pi.Committing?
    case ApprovalRaises(loaded, replaced) =>
      && s.pi.Committing? && (loaded ==> (s.pi.nonce, true) in s.answers)
      && w.card != Sound && (!replaced ==> w.card == Fails)
    case Release => s.pi.Holding? && s.now >= s.pi.sent + w.ttl + 1.0
    case StartRace => s.pi == Idle && !s.racing
    case EndRace => s.pi == Idle && s.racing
  }

  /** An answered stage is committed only if the Orin's window is a sane one. An answer other than
      "loaded", or none, approves nothing and keeps the lock until the window has closed. An approval
      that raises ends the load there and then: the lock is let go without that wait. */
  function PiNext(s: State, e: PiEvent, w: Timing): State
    requires PiEnabled(s, e, w)
  {
    match e
    case BeginLoad(bundle) => s.(pi := Staging(|s.issued|), issued := s.issued + [bundle],
                                 stages := s.stages + {|s.issued|})
    case StageAnswered =>
      if 0.0 < w.ttl <= MAX_TTL then s.(pi := Committing(s.pi.nonce, s.now), commits := s.commits + {s.pi.nonce})
      else s.(pi := Idle)
    case StageFailed => s.(pi := Idle)
    case CommitAnswered(loaded) =>
      if loaded && s.pi.nonce < |s.issued| then s.(approved := Some(s.issued[s.pi.nonce]), pi := Idle)
      else s.(approved := None, pi := Holding(s.pi.nonce, s.pi.sent))
    case CommitLost => s.(approved := None, pi := Holding(s.pi.nonce, s.pi.sent))
    case ApprovalRaises(loaded, replaced) =>
      if !replaced then s.(pi := Idle)
      else if loaded && s.pi.nonce < |s.issued| then s.(approved := Some(s.issued[s.pi.nonce]), pi := Idle)
      else s.(approved := None, pi := Idle)
    case Release => s.(pi := Idle)
    case StartRace => s.(racing := true)
    case EndRace => s.(racing := false)
  }

  // ---- the Orin -----------------------------------------------------------------------------------

  predicate OrinEnabled(s: State, e: OrinEvent) {
    match e
    case StageArrives(n) => n in s.stages
    case StageTaken(n) => n in s.received && s.handler == Quiet
    case CommitArrives(n) => n in s.commits && s.handler == Quiet
    case LastCheck => s.handler.Writing?
    case Rename => s.handler.Checked? && s.handler.nonce < |s.issued|
    case Answer(loaded, asksAgain) => s.handler.Renamed? && (loaded ==> asksAgain)
    case Restart => true
  }

  /** The window runs from the stage's receipt, before its lock was taken; one commit per stage. A commit
      makes the copilot ask again which playbook is approved, unless syncing the directory raised. */
  function OrinNext(s: State, e: OrinEvent, w: Timing): State
    requires OrinEnabled(s, e)
  {
    match e
    case StageArrives(n) => s.(stages := s.stages - {n}, received := s.received[n := s.now])
    case StageTaken(n) =>
      s.(received := s.received - {n}, staged := Some(Staged(n, s.received[n])), stageAnswers := s.stageAnswers + {n})
    case CommitArrives(n) =>
      var t := s.(commits := s.commits - {n});
      if s.staged.None? || s.staged.value.nonce != n then t.(answers := s.answers + {(n, false)})
      else if s.now - s.staged.value.received > w.ttl then t.(staged := None, answers := s.answers + {(n, false)})
      else t.(staged := None, handler := Writing(n, s.staged.value.received))
    case LastCheck =>
      if s.now - s.handler.received > w.ttl then s.(handler := Quiet, answers := s.answers + {(s.handler.nonce, false)})
      else s.(handler := Checked(s.handler.nonce, s.handler.received, s.now))
    case Rename => s.(file := s.issued[s.handler.nonce], handler := Renamed(s.handler.nonce))
    case Answer(loaded, asksAgain) =>
      s.(handler := Quiet, answers := s.answers + {(s.handler.nonce, loaded)}, pin := if asksAgain then None else s.pin)
    case Restart => s.(staged := None, handler := Quiet, received := map[], pin := None, seen := {}, asks := {},
                       replies := {})
  }

  // ---- time and the network ----------------------------------------------------------------------

  predicate NetEnabled(s: State, e: NetEvent, w: Timing) {
    match e
    case Wait(d) => d >= 0.0 && (s.handler.Checked? ==> s.now + d <= s.handler.at + w.stall)
    case _ => true
  }

  function NetNext(s: State, e: NetEvent): State {
    match e
    case Wait(d) => s.(now := s.now + d)
    case LoseStage(n) => s.(stages := s.stages - {n})
    case LoseStageAnswer(n) => s.(stageAnswers := s.stageAnswers - {n})
    case LoseCommit(n) => s.(commits := s.commits - {n})
    case LoseAnswer(n, loaded) => s.(answers := s.answers - {(n, loaded)})
  }

  // ---- the copilot's uses of the file ------------------------------------------------------------

  predicate PinFresh(s: State) {
    s.pin.Some? && s.now - s.pin.value.at <= PIN_CACHE_S
  }

  predicate UseEnabled(s: State, e: UseEvent) {
    match e
    case ReadFile => true
    case UsePinned(file, _) => file in s.seen && PinFresh(s)
    case AskPi(file, _) => file in s.seen && !PinFresh(s)
    case PiReplies(ask) => ask in s.asks
    case Answered(ask, hash) => (ask, hash) in s.replies
    case AskLost(ask) => ask in s.asks || exists reply | reply in s.replies :: reply.0 == ask
  }

  /** "None approved" is not remembered, nor is a failed ask. */
  function UseNext(s: State, e: UseEvent): State
    requires UseEnabled(s, e)
  {
    match e
    case ReadFile => s.(seen := s.seen + {s.file})
    case UsePinned(file, last) => s.(seen := if last then s.seen - {file} else s.seen)
    case AskPi(file, last) => s.(seen := if last then s.seen - {file} else s.seen, asks := s.asks + {Ask(file, s.now)})
    case PiReplies(ask) => s.(asks := s.asks - {ask}, replies := s.replies + {(ask, s.approved)})
    case Answered(ask, hash) =>
      s.(replies := s.replies - {(ask, hash)}, pin := if hash.Some? then Some(Pin(hash.value, ask.at)) else None)
    case AskLost(ask) =>
      s.(asks := s.asks - {ask}, pin := None,
         replies := set reply | reply in s.replies && reply.0 != ask)
  }

  predicate Enabled(s: State, e: Event, w: Timing) {
    match e
    case PiStep(p) => PiEnabled(s, p, w)
    case OrinStep(o) => OrinEnabled(s, o)
    case NetStep(n) => NetEnabled(s, n, w)
    case UseStep(u) => UseEnabled(s, u)
  }

  function Next(s: State, e: Event, w: Timing): State
    requires Enabled(s, e, w)
  {
    match e
    case PiStep(p) => PiNext(s, p, w)
    case OrinStep(o) => OrinNext(s, o, w)
    case NetStep(n) => NetNext(s, n)
    case UseStep(u) => UseNext(s, u)
  }

  ghost predicate Runs(s: State, es: seq<Event>, w: Timing)
    decreases |es|
  {
    es == [] || (Enabled(s, es[0], w) && Runs(Next(s, es[0], w), es[1..], w))
  }

  ghost function After(s: State, es: seq<Event>, w: Timing): State
    requires Runs(s, es, w)
    decreases |es|
  {
    if es == [] then s else After(Next(s, es[0], w), es[1..], w)
  }

  // ---- the invariant ----------------------------------------------------------------------------------

  /** The load whose commit may still be written. */
  predicate Live(s: State, n: nat) { (s.pi.Committing? || s.pi.Holding?) && s.pi.nonce == n }

  predicate Handles(s: State, n: nat) { s.handler != Quiet && s.handler.nonce == n }

  predicate OnStage(s: State, n: nat) { s.staged.Some? && s.staged.value.nonce == n }

  /** A stage is in one place; each place only knows requests that were made. */
  ghost predicate StagesOK(s: State) {
    && (forall n :: n in s.stages ==> n < |s.issued| && n !in s.stageAnswers && !OnStage(s, n) && !Handles(s, n) &&
                                      n !in s.commits && !Live(s, n))
    && (forall n :: n in s.received ==>
          && n < |s.issued| && s.received[n] <= s.now && n !in s.stages && n !in s.stageAnswers
          && !OnStage(s, n) && !Handles(s, n) && n !in s.commits && !Live(s, n))
    && (forall n :: n in s.stageAnswers ==> n < |s.issued|)
    && (s.staged.Some? ==> s.staged.value.nonce < |s.issued| && s.staged.value.received <= s.now)
    && (s.pi != Idle ==> s.pi.nonce < |s.issued|)
  }

  /** A commit is in one place: on the wire, in the handler, or answered. */
  ghost predicate CommitsOK(s: State) {
    && (forall n :: n in s.commits ==> n < |s.issued| && !Handles(s, n))
    && (s.handler != Quiet ==> s.handler.nonce < |s.issued| && !OnStage(s, s.handler.nonce))
    && (forall n, b :: (n, b) in s.answers ==> n < |s.issued| && n !in s.commits && !Handles(s, n))
    && (s.pi.Staging? ==> s.pi.nonce !in s.commits && !Handles(s, s.pi.nonce) &&
                          forall b :: (s.pi.nonce, b) !in s.answers)
  }

  /** A rename could now do no harm: nothing is approved, and nothing newer can be staged before it is done. */
  predicate Moot(s: State, w: Timing) {
    && (w.card != Fails ==> s.approved == None)
    && (s.pi.Idle? || (s.pi.Staging? && s.pi.nonce !in s.stageAnswers))
  }

  /** Its window has closed; or an approval raised, and the lock was let go before that. */
  predicate Over(s: State, received: real, w: Timing) {
    received + w.ttl < s.now || (w.card != Sound && Moot(s, w))
  }

  /** What is live was received before its commit was sent; what is not live is over, or is past its last
      check and moot. */
  ghost predicate TimesOK(s: State, w: Timing) {
    && (s.staged.Some? ==>
          && (Live(s, s.staged.value.nonce) ==> s.staged.value.received <= s.pi.sent)
          && (s.staged.value.nonce in s.commits && !Live(s, s.staged.value.nonce) ==>
              Over(s, s.staged.value.received, w)))
    && (s.handler.Writing? || s.handler.Checked? ==>
          && (Live(s, s.handler.nonce) ==> s.handler.received <= s.pi.sent))
    && (s.handler.Writing? && !Live(s, s.handler.nonce) ==> Over(s, s.handler.received, w))
    && (s.handler.Checked? && !Live(s, s.handler.nonce) ==> Moot(s, w))
  }

  /** What is approved, or about to be, is what the file holds. */
  ghost predicate FileOK(s: State, w: Timing) {
    && (w.card != Fails && (s.pi.Idle? || s.pi.Staging?) ==> s.approved.Some? ==> s.file == s.approved.value)
    && (s.pi.Holding? ==> s.approved == None)
    && (s.pi.Committing? && s.pi.nonce < |s.issued| ==>
          && (s.handler == Renamed(s.pi.nonce) ==> s.file == s.issued[s.pi.nonce])
          && ((s.pi.nonce, true) in s.answers ==> s.file == s.issued[s.pi.nonce]))
    && (s.racing ==> s.pi == Idle)
  }

  ghost predicate Inv(s: State, w: Timing) {
    StagesOK(s) && CommitsOK(s) && TimesOK(s, w) && FileOK(s, w)
  }

  /** With a rename that does not stall for a second, only a live load is ever past its last check. */
  ghost predicate Prompt(s: State, w: Timing) {
    s.handler.Checked? ==>
      && Live(s, s.handler.nonce)
      && s.handler.at <= s.handler.received + w.ttl
      && s.handler.at <= s.now <= s.handler.at + w.stall
  }

  lemma PiKeepsPlaces(s: State, e: PiEvent, w: Timing)
    requires Inv(s, w) && PiEnabled(s, e, w)
    ensures StagesOK(PiNext(s, e, w)) && CommitsOK(PiNext(s, e, w))
  {
  }

  lemma PiKeepsTimes(s: State, e: PiEvent, w: Timing)
    requires Inv(s, w) && PiEnabled(s, e, w)
    ensures TimesOK(PiNext(s, e, w), w) && FileOK(PiNext(s, e, w), w)
  {
  }

  lemma OrinKeepsStages(s: State, e: OrinEvent, w: Timing)
    requires Inv(s, w) && OrinEnabled(s, e)
    ensures StagesOK(OrinNext(s, e, w))
  {
    if e.StageArrives? || e.StageTaken? {
      StagingKeepsStages(s, e, w);
    } else {
      CommittingKeepsStages(s, e, w);
    }
  }

  lemma StagingKeepsStages(s: State, e: OrinEvent, w: Timing)
    requires Inv(s, w) && OrinEnabled(s, e) && (e.StageArrives? || e.StageTaken?)
    ensures StagesOK(OrinNext(s, e, w))
  {
  }

  lemma CommittingKeepsStages(s: State, e: OrinEvent, w: Timing)
    requires Inv(s, w) && OrinEnabled(s, e) && !e.StageArrives? && !e.StageTaken?
    ensures StagesOK(OrinNext(s, e, w))
  {
  }

  lemma OrinKeepsCommits(s: State, e: OrinEvent, w: Timing)
    requires Inv(s, w) && OrinEnabled(s, e)
    ensures CommitsOK(OrinNext(s, e, w))
  {
  }

  lemma OrinKeepsTimes(s: State, e: OrinEvent, w: Timing)
    requires Inv(s, w) && OrinEnabled(s, e)
    ensures TimesOK(OrinNext(s, e, w), w) && FileOK(OrinNext(s, e, w), w)
  {
  }

  lemma NetKeeps(s: State, e: NetEvent, w: Timing)
    requires Inv(s, w) && NetEnabled(s, e, w)
    ensures Inv(NetNext(s, e), w)
  {
  }

  lemma UseKeeps(s: State, e: UseEvent, w: Timing)
    requires Inv(s, w) && UseEnabled(s, e)
    ensures Inv(UseNext(s, e), w)
  {
  }

  lemma StepKeeps(s: State, e: Event, w: Timing)
    requires Inv(s, w) && Enabled(s, e, w)
    ensures Inv(Next(s, e, w), w)
  {
    match e
    case PiStep(p) =>
      PiKeepsPlaces(s, p, w);
      PiKeepsTimes(s, p, w);
    case OrinStep(o) =>
      OrinKeepsStages(s, o, w);
      OrinKeepsCommits(s, o, w);
      OrinKeepsTimes(s, o, w);
    case NetStep(n) =>
      NetKeeps(s, n, w);
    case UseStep(u) =>
      UseKeeps(s, u, w);
  }

  lemma StepKeepsPrompt(s: State, e: Event, w: Timing)
    requires 0.0 <= w.stall < 1.0 && w.card == Sound && Inv(s, w) && Prompt(s, w) && Enabled(s, e, w)
    ensures Prompt(Next(s, e, w), w)
  {
  }

  lemma {:induction false} RunKeeps(s: State, es: seq<Event>, w: Timing)
    requires Inv(s, w) && Runs(s, es, w)
    ensures Inv(After(s, es, w), w)
    ensures w.card == Sound && Prompt(s, w) && 0.0 <= w.stall < 1.0 ==> Prompt(After(s, es, w), w)
    decreases |es|
  {
    if es != [] {
      StepKeeps(s, es[0], w);
      if w.card == Sound && Prompt(s, w) && 0.0 <= w.stall < 1.0 { StepKeepsPrompt(s, es[0], w); }
      RunKeeps(Next(s, es[0], w), es[1..], w);
    }
  }

  // ---- what it is for ----------------------------------------------------------------------------------

  /** Whatever was delayed, lost or stalled: while the lock is free, an approved bundle is the live file. */
  lemma ApprovedIsLive(s0: State, es: seq<Event>, w: Timing)
    requires Start(s0) && Runs(s0, es, w) && w.card != Fails
    ensures LiveIfApproved(After(s0, es, w))
  {
    RunKeeps(s0, es, w);
  }

  ghost predicate LiveIfApproved(s: State) {
    && (s.pi == Idle && s.approved.Some? ==> s.file == s.approved.value)
    && (s.racing ==> s.pi == Idle)
  }

  /** Only the approvals that raise in a run tell one card from another. */
  ghost predicate CardAllows(es: seq<Event>, card: Card) {
    forall p :: PiStep(p) in es && p.ApprovalRaises? ==> card != Sound && (!p.replaced ==> card == Fails)
  }

  lemma {:induction false} OnlyRaisesMatter(s: State, es: seq<Event>, w: Timing, card: Card)
    requires Runs(s, es, w) && CardAllows(es, card)
    ensures Runs(s, es, w.(card := card)) && After(s, es, w.(card := card)) == After(s, es, w)
    decreases |es|
  {
    if es != [] {
      var v := w.(card := card);
      assert es[0] in es;
      assert Enabled(s, es[0], v) && Next(s, es[0], v) == Next(s, es[0], w);
      assert forall p :: PiStep(p) in es[1..] ==> PiStep(p) in es;
      OnlyRaisesMatter(Next(s, es[0], w), es[1..], w, card);
    }
  }

  /** The Orin can rename a file into place only while the Pi holds the lock for that very load. */
  ghost predicate WritesUnderLock(s: State) {
    OrinEnabled(s, Rename) ==> Live(s, s.handler.nonce)
  }

  lemma PromptWritesUnderLock(s0: State, es: seq<Event>, w: Timing)
    requires Start(s0) && Runs(s0, es, w) && 0.0 <= w.stall < 1.0 && w.card == Sound
    ensures WritesUnderLock(After(s0, es, w))
  {
    RunKeeps(s0, es, w);
  }

  /** The load whose rename stalls a second after its last check: the Pi has let go and a race has begun. */
  function LateRename(w: Timing): seq<Event> {
    [PiStep(BeginLoad(7)), OrinStep(StageArrives(0)), OrinStep(StageTaken(0)), PiStep(StageAnswered),
     OrinStep(CommitArrives(0)), NetStep(Wait(w.ttl)), OrinStep(LastCheck), PiStep(CommitLost),
     NetStep(Wait(1.0)), PiStep(Release), PiStep(StartRace)]
  }

  function Quietly(): State {
    State(0.0, Idle, false, Some(0), [], 0, None, Quiet, {}, map[], {}, {}, {}, None, {}, {}, {})
  }

  lemma StalledRenameLandsInARace(w: Timing)
    requires 0.0 < w.ttl <= 10.0 && w.stall >= 1.0
    ensures Start(Quietly()) && Runs(Quietly(), LateRename(w), w)
    ensures var s := After(Quietly(), LateRename(w), w);
            s.racing && OrinEnabled(s, Rename) && s.file == 0 && OrinNext(s, Rename, w).file == 7
    ensures !WritesUnderLock(After(Quietly(), LateRename(w), w))
  {
    var es := LateRename(w);
    var s0 := Quietly();
    var s1 := PiNext(s0, BeginLoad(7), w);
    var s2 := OrinNext(s1, StageArrives(0), w);
    var s3 := OrinNext(s2, StageTaken(0), w);
    LateMiddle(s3, w);
    RunFrom(s2, es, 2, w);
    RunFrom(s1, es, 1, w);
    RunFrom(s0, es, 0, w);
    assert es[0..] == es;
  }

  lemma LateMiddle(s3: State, w: Timing)
    requires s3.pi == Staging(0) && 0 in s3.stageAnswers && s3.staged == Some(Staged(0, 0.0)) && s3.handler == Quiet
    requires s3.now == 0.0 && !s3.racing && s3.issued == [7] && s3.file == 0 && 0.0 < w.ttl <= 10.0 && w.stall >= 1.0
    ensures Runs(s3, LateRename(w)[3..], w)
    ensures var s := After(s3, LateRename(w)[3..], w);
            s.racing && OrinEnabled(s, Rename) && s.file == 0 && OrinNext(s, Rename, w).file == 7 && s.pi == Idle
  {
    var es := LateRename(w);
    var s4 := PiNext(s3, StageAnswered, w);
    var s5 := OrinNext(s4, CommitArrives(0), w);
    LateEnd(NetNext(s5, Wait(w.ttl)), w);
    RunFrom(s5, es, 5, w);
    RunFrom(s4, es, 4, w);
    RunFrom(s3, es, 3, w);
  }

  /** From the moment the temporary file is being written, the whole window after the stage was received. */
  lemma LateEnd(s6: State, w: Timing)
    requires s6.handler == Writing(0, 0.0) && s6.now == w.ttl && s6.pi == Committing(0, 0.0) && w.stall >= 1.0
    requires !s6.racing && s6.issued == [7] && s6.file == 0
    ensures Runs(s6, LateRename(w)[6..], w)
    ensures var s := After(s6, LateRename(w)[6..], w);
            s.racing && OrinEnabled(s, Rename) && s.file == 0 && OrinNext(s, Rename, w).file == 7 && s.pi == Idle
  {
    var es := LateRename(w);
    var s7 := OrinNext(s6, LastCheck, w);
    var s8 := PiNext(s7, CommitLost, w);
    var s9 := NetNext(s8, Wait(1.0));
    var s10 := PiNext(s9, Release, w);
    RunFrom(s10, es, 10, w);
    RunFrom(s9, es, 9, w);
    RunFrom(s8, es, 8, w);
    RunFrom(s7, es, 7, w);
    RunFrom(s6, es, 6, w);
  }

  lemma RunFrom(s: State, es: seq<Event>, k: nat, w: Timing)
    requires k < |es| && Enabled(s, es[k], w) && Runs(Next(s, es[k], w), es[k + 1..], w)
    ensures Runs(s, es[k..], w) && After(s, es[k..], w) == After(Next(s, es[k], w), es[k + 1..], w)
  {
    assert es[k..][1..] == es[k + 1..];
  }

  // ---- the runs of an approval that raises -------------------------------------------------------------

  /** Some run from the beginning leads to s. */
  ghost predicate Reached(s: State, w: Timing) {
    exists s0, es :: Start(s0) && Runs(s0, es, w) && After(s0, es, w) == s
  }

  lemma {:induction false} RunAppend(s: State, es: seq<Event>, e: Event, w: Timing)
    requires Runs(s, es, w) && Enabled(After(s, es, w), e, w)
    ensures Runs(s, es + [e], w) && After(s, es + [e], w) == Next(After(s, es, w), e, w)
    decreases |es|
  {
    if es == [] {
      assert ([] + [e])[1..] == [];
      assert Runs(Next(s, e, w), [], w);
    } else {
      RunAppend(Next(s, es[0], w), es[1..], e, w);
      assert (es + [e])[1..] == es[1..] + [e];
    }
  }

  lemma ReachedStep(s: State, e: Event, w: Timing)
    requires Reached(s, w) && Enabled(s, e, w)
    ensures Reached(Next(s, e, w), w)
  {
    var s0, es :| Start(s0) && Runs(s0, es, w) && After(s0, es, w) == s;
    RunAppend(s0, es, e, w);
  }

  /** Bundle 0 is approved and live; bundle 7 is past its last check, and the Pi waits to hear. */
  function Renaming(): State {
    Quietly().(pi := Committing(0, 0.0), issued := [7], handler := Checked(0, 0.0, 0.0), stageAnswers := {0})
  }

  lemma RenamingReached(w: Timing)
    requires 0.0 < w.ttl <= 10.0
    ensures Reached(Renaming(), w)
  {
    var s0 := Quietly();
    assert Start(s0) && Runs(s0, [], w) && After(s0, [], w) == s0;
    ReachedStep(s0, PiStep(BeginLoad(7)), w);
    var s1 := PiNext(s0, BeginLoad(7), w);
    ReachedStep(s1, OrinStep(StageArrives(0)), w);
    var s2 := OrinNext(s1, StageArrives(0), w);
    ReachedStep(s2, OrinStep(StageTaken(0)), w);
    var s3 := OrinNext(s2, StageTaken(0), w);
    ReachedStep(s3, PiStep(StageAnswered), w);
    var s4 := PiNext(s3, StageAnswered, w);
    ReachedStep(s4, OrinStep(CommitArrives(0)), w);
    var s5 := OrinNext(s4, CommitArrives(0), w);
    ReachedStep(s5, OrinStep(LastCheck), w);
    assert OrinNext(s5, LastCheck, w) == Renaming();
  }

  /** The Orin has the new file and says so; writing its hash raises before the new hash is in place. */
  function LoadedUnapproved(): State {
    Renaming().(pi := Idle, file := 7, handler := Quiet, answers := {(0, true)})
  }

  lemma LostApproval(w: Timing)
    requires 0.0 < w.ttl <= 10.0 && w.card == Fails
    ensures Reached(LoadedUnapproved(), w) && !LiveIfApproved(LoadedUnapproved())
  {
    RenamingReached(w);
    ReachedStep(Renaming(), OrinStep(Rename), w);
    var s1 := OrinNext(Renaming(), Rename, w);
    ReachedStep(s1, OrinStep(Answer(true, true)), w);
    var s2 := OrinNext(s1, Answer(true, true), w);
    ReachedStep(s2, PiStep(ApprovalRaises(true, false)), w);
    assert PiNext(s2, ApprovalRaises(true, false), w) == LoadedUnapproved();
  }

  /** The commit was not confirmed and writing "nothing approved" raises: the sleep is skipped, the lock is
      free inside the commit window, and a race begins. */
  function RacingTooEarly(replaced: bool): State {
    Renaming().(pi := Idle, racing := true, approved := if replaced then None else Some(0))
  }

  lemma SkippedSleep(w: Timing, replaced: bool)
    requires 0.0 < w.ttl <= 10.0 && w.card != Sound && (!replaced ==> w.card == Fails)
    ensures Reached(RacingTooEarly(replaced), w) && OrinEnabled(RacingTooEarly(replaced), Rename)
    ensures !WritesUnderLock(RacingTooEarly(replaced))
    ensures Confirmed(RacingTooEarly(false)) == Some(0) && Confirmed(OrinNext(RacingTooEarly(false), Rename, w)) == None
  {
    RenamingReached(w);
    ReachedStep(Renaming(), PiStep(ApprovalRaises(false, replaced)), w);
    var s1 := PiNext(Renaming(), ApprovalRaises(false, replaced), w);
    ReachedStep(s1, PiStep(StartRace), w);
    assert PiNext(s1, StartRace, w) == RacingTooEarly(replaced);
  }

  /** An approved bundle is the live file in every run EXACTLY WHEN an approval that raises has at least put
      the new hash in place. */
  lemma ApprovedIsLiveIff(w: Timing)
    requires 0.0 < w.ttl <= 10.0
    ensures AlwaysLiveIfApproved(w) <==> w.card != Fails
  {
    if w.card != Fails {
      forall s0, es | Start(s0) && Runs(s0, es, w)
        ensures LiveIfApproved(After(s0, es, w))
      {
        ApprovedIsLive(s0, es, w);
      }
    } else {
      LostApproval(w);
    }
  }

  ghost predicate AlwaysLiveIfApproved(w: Timing) {
    forall s0, es :: Start(s0) && Runs(s0, es, w) ==> LiveIfApproved(After(s0, es, w))
  }

  /** The lock bounds the Orin's writes EXACTLY WHEN the rename follows its last time check within a second
      and no approval raises. */
  lemma LockBoundsWritesIff(w: Timing)
    requires 0.0 < w.ttl <= 10.0 && 0.0 <= w.stall
    ensures AlwaysUnderLock(w) <==> w.stall < 1.0 && w.card == Sound
  {
    if w.stall < 1.0 && w.card == Sound {
      forall s0, es | Start(s0) && Runs(s0, es, w)
        ensures WritesUnderLock(After(s0, es, w))
      {
        PromptWritesUnderLock(s0, es, w);
      }
    } else if w.stall >= 1.0 {
      StalledRenameLandsInARace(w);
    } else {
      SkippedSleep(w, true);
    }
  }

  ghost predicate AlwaysUnderLock(w: Timing) {
    forall s0, es :: Start(s0) && Runs(s0, es, w) ==> WritesUnderLock(After(s0, es, w))
  }

  /** The playbook pinned at the gun: throughout a race neither the approved hash nor (with a prompt
      rename) the live file changes, whatever the network still delivers. */
  lemma {:induction false} RaceFreezes(s: State, es: seq<Event>, w: Timing)
    requires s.racing && s.pi == Idle && Runs(s, es, w) && PiStep(EndRace) !in es
    ensures After(s, es, w).racing && After(s, es, w).approved == s.approved
    ensures 0.0 <= w.stall < 1.0 && w.card == Sound && Inv(s, w) && Prompt(s, w) ==> After(s, es, w).file == s.file
    decreases |es|
  {
    if es != [] {
      assert es[0] in es;
      var t := Next(s, es[0], w);
      assert t.racing && t.pi == Idle && t.approved == s.approved;
      if 0.0 <= w.stall < 1.0 && w.card == Sound && Inv(s, w) && Prompt(s, w) {
        StepKeeps(s, es[0], w);
        StepKeepsPrompt(s, es[0], w);
      }
      RaceFreezes(t, es[1..], w);
    }
  }

  /** The bundle an immediate answer would confirm: the copilot's file, if that is the approved one. What its
      memory and lost answers make of this is the module PlaybookUse. */
  function Confirmed(s: State): Option<int> { if s.approved == Some(s.file) then s.approved else None }

  /** So even a rename that stalls never changes which playbook an answer confirms in a race. */
  lemma ConfirmedIsPinned(s0: State, before: seq<Event>, es: seq<Event>, w: Timing)
    requires Start(s0) && Runs(s0, before, w) && After(s0, before, w).racing && w.card != Fails
    requires Runs(After(s0, before, w), es, w) && PiStep(EndRace) !in es
    ensures Confirmed(After(After(s0, before, w), es, w)) == Confirmed(After(s0, before, w))
  {
    var s := After(s0, before, w);
    RunKeeps(s0, before, w);
    RunKeeps(s, es, w);
    RaceFreezes(s, es, w);
  }

  ghost predicate AlwaysPinned(w: Timing) {
    forall s, es :: Reached(s, w) && s.racing && Runs(s, es, w) && PiStep(EndRace) !in es ==>
      Confirmed(After(s, es, w)) == Confirmed(s)
  }

  /** The playbook confirmed at the gun stays confirmed EXACTLY WHEN no approval raises with the old hash in place. */
  lemma ConfirmedIsPinnedIff(w: Timing)
    requires 0.0 < w.ttl <= 10.0
    ensures AlwaysPinned(w) <==> w.card != Fails
  {
    if w.card != Fails {
      forall s, es | Reached(s, w) && s.racing && Runs(s, es, w) && PiStep(EndRace) !in es
        ensures Confirmed(After(s, es, w)) == Confirmed(s)
      {
        var s0, before :| Start(s0) && Runs(s0, before, w) && After(s0, before, w) == s;
        ConfirmedIsPinned(s0, before, es, w);
      }
    } else {
      SkippedSleep(w, false);
      var s, late := RacingTooEarly(false), [OrinStep(Rename)];
      assert late[1..] == [];
      assert Runs(s, late, w) && After(s, late, w) == OrinNext(s, Rename, w);
    }
  }

  // ---- the Pi's own code ------------------------------------------------------------------------------------

  datatype Loading = Loaded | NotLoaded | Raised

  /** `playbook_load` and `copilot_load`, with the Orin and the network as whatever may happen meanwhile. */
  class Engine {
    var s: State
    const w: Timing

    ghost predicate Valid()
      reads this
    {
      Inv(s, w)
    }

    /** Anything the Orin and the network can do while the Pi waits. */
    method Others()
      requires Valid()
      modifies this
      ensures Valid() && s.pi == old(s.pi) && s.approved == old(s.approved) && s.racing == old(s.racing)
      ensures s.issued == old(s.issued) && s.now >= old(s.now)
    {
      var n :| 0 <= n;
      for i := 0 to n
        invariant Valid() && s.pi == old(s.pi) && s.approved == old(s.approved) && s.racing == old(s.racing)
        invariant s.issued == old(s.issued) && s.now >= old(s.now)
      {
        var e: Event := *;
        if !e.PiStep? && Enabled(s, e, w) { Do(e); }
      }
    }

    method Do(e: Event)
      requires Valid() && Enabled(s, e, w)
      modifies this
      ensures Valid() && s == Next(old(s), e, w)
    {
      StepKeeps(s, e, w);
      s := Next(s, e, w);
    }

    /** Sleep until `until`. A rename that may not stall that long happens on the way. */
    method SleepUntil(until: real, calm: bool)
      requires Valid() && s.pi.Holding?
      modifies this
      ensures Valid() && s.pi == old(s.pi) && s.approved == old(s.approved) && s.racing == old(s.racing)
      ensures s.now >= until && s.issued == old(s.issued)
      ensures calm ==> s.now == if until < old(s.now) then old(s.now) else until
    {
      if !calm {
        Others();
      }
      if s.now < until {
        if s.handler.Checked? { Do(OrinStep(Rename)); }
        Do(NetStep(Wait(until - s.now)));
      }
    }

    /** While the Pi waits for the stage's answer. When calm the request arrives, is taken and is answered. */
    method WhileStaging(calm: bool)
      requires Valid() && s.pi.Staging?
      modifies this
      ensures Valid() && s.pi == old(s.pi) && s.approved == old(s.approved) && s.racing == old(s.racing)
      ensures s.issued == old(s.issued) && s.now >= old(s.now)
      ensures calm && old(s.handler.Quiet? && s.pi.nonce in s.stages) ==>
                && s.now == old(s.now)
                && s.pi.nonce in s.stageAnswers && s.handler.Quiet?
                && s.staged == Some(Staged(s.pi.nonce, s.now))
    {
      if !calm || !s.handler.Quiet? || s.pi.nonce !in s.stages {
        Others();
        return;
      }
      Do(OrinStep(StageArrives(s.pi.nonce)));
      Do(OrinStep(StageTaken(s.pi.nonce)));
    }

    /** And for the commit's. When calm it arrives `lag` after the stage was received. */
    method WhileCommitting(calm: bool, lag: real)
      requires Valid() && s.pi.Committing? && lag >= 0.0
      modifies this
      ensures Valid() && s.pi == old(s.pi) && s.approved == old(s.approved) && s.racing == old(s.racing)
      ensures s.issued == old(s.issued) && s.now >= old(s.now)
      ensures calm && old(Answerable()) ==>
                && s.now == old(s.now) + lag
                && ((s.pi.nonce, true) in s.answers <==> lag <= w.ttl || old((s.pi.nonce, true) in s.answers))
    {
      if !calm || !Answerable() {
        Others();
        return;
      }
      Do(NetStep(Wait(lag)));
      Do(OrinStep(CommitArrives(s.pi.nonce)));
      if s.handler.Writing? {
        Do(OrinStep(LastCheck));
        Do(OrinStep(Rename));
        Do(OrinStep(OrinEvent.Answer(true, true)));
      }
    }

    /** The commit in flight will find its own stage, received just now. */
    predicate Answerable()
      reads this
    {
      && s.pi.Committing? && s.handler.Quiet? && s.pi.nonce in s.commits && s.pi.nonce < |s.issued|
      && s.staged.Some? && s.staged.value.nonce == s.pi.nonce && s.staged.value.received == s.now
    }

    /** Store a hash (or none) for a load whose commit was answered, or was not. False: it raised. */
    method Approve(loaded: bool, calm: bool) returns (stored: bool)
      requires Valid() && s.pi.Committing? && (loaded ==> (s.pi.nonce, true) in s.answers)
      modifies this
      ensures Valid() && !s.racing && s.issued == old(s.issued) && s.now == old(s.now)
      ensures stored ==> s.approved == if loaded then Some(s.issued[old(s.pi.nonce)]) else None
      ensures stored ==> s.pi == if loaded then Idle else Holding(old(s.pi.nonce), old(s.pi.sent))
      ensures !stored ==> s.pi == Idle && w.card != Sound && !calm
      ensures !stored ==> (s.approved == old(s.approved) && w.card == Fails)
                          || s.approved == if loaded then Some(s.issued[old(s.pi.nonce)]) else None
      ensures loaded ==> s.file == s.issued[old(s.pi.nonce)]
    {
      stored := *;
      var replaced: bool := *;
      if !calm && !stored && Enabled(s, PiStep(ApprovalRaises(loaded, replaced)), w) {
        Do(PiStep(ApprovalRaises(loaded, replaced)));
        return;
      }
      stored := true;
      Do(PiStep(if loaded then CommitAnswered(true) else CommitLost));
    }

    /** Stage, then commit. Loaded only on the Orin's word; if the commit was sent and not confirmed,
        nothing is approved, and the lock is kept until the window has closed, unless writing that down
        raises. When calm nothing is lost, nothing else runs and nothing raises: an idle Orin with a sane
        window then loads the bundle, EXACTLY WHEN the commit arrives within the window. */
    method CopilotLoad(bundle: int, calm: bool, lag: real) returns (r: Loading)
      requires Valid() && s.pi == Idle && !s.racing && lag >= 0.0
      modifies this
      ensures Valid() && s.pi == Idle && !s.racing
      ensures r == Loaded ==> s.approved == Some(bundle) && s.file == bundle
      ensures r == NotLoaded ==> s.approved == None || s.approved == old(s.approved)
      ensures r == Raised ==> w.card != Sound
      ensures r == Raised ==> s.approved == None || (s.approved == Some(bundle) && s.file == bundle)
                              || (s.approved == old(s.approved) && w.card == Fails)
      ensures calm && old(s.handler.Quiet?) && 0.0 < w.ttl <= 10.0 ==> r == if lag <= w.ttl then Loaded else NotLoaded
      ensures calm && old(s.handler.Quiet?) && 0.0 < w.ttl <= 10.0 && lag > w.ttl ==>
                s.approved == None && s.now == old(s.now) + if lag < w.ttl + 1.0 then w.ttl + 1.0 else lag
      ensures w.ttl <= 0.0 || w.ttl > 10.0 ==> r == NotLoaded && s.approved == old(s.approved)
    {
      Do(PiStep(BeginLoad(bundle)));
      WhileStaging(calm);
      var heard: bool := *;
      if (!heard && !calm) || s.pi.nonce !in s.stageAnswers {
        Do(PiStep(StageFailed));
        return NotLoaded;
      }
      Do(PiStep(StageAnswered));
      if s.pi == Idle { return NotLoaded; }
      r := Commit(calm, lag);
    }

    /** The second step: the answer, and what is approved after it. */
    method Commit(calm: bool, lag: real) returns (r: Loading)
      requires Valid() && s.pi.Committing? && s.pi.nonce < |s.issued| && lag >= 0.0
      modifies this
      ensures Valid() && s.pi == Idle && !s.racing
      ensures r == Loaded ==> s.approved == Some(old(s.issued[s.pi.nonce])) && s.file == old(s.issued[s.pi.nonce])
      ensures r == NotLoaded ==> s.approved == None
      ensures r == Raised ==> w.card != Sound
      ensures r == Raised ==> s.approved == None
                              || (s.approved == Some(old(s.issued[s.pi.nonce])) && s.file == old(s.issued[s.pi.nonce]))
                              || (s.approved == old(s.approved) && w.card == Fails)
      ensures calm && old(Answerable() && s.pi.sent == s.now && (s.pi.nonce, true) !in s.answers) && w.ttl > 0.0 ==>
                && r == (if lag <= w.ttl then Loaded else NotLoaded)
                && (lag > w.ttl ==> s.now == old(s.now) + if lag < w.ttl + 1.0 then w.ttl + 1.0 else lag)
    {
      WhileCommitting(calm, lag);
      var loaded: bool := *;
      loaded := (loaded || calm) && (s.pi.nonce, true) in s.answers;
      var stored := Approve(loaded, calm);
      if !stored { return Raised; }
      if loaded { return Loaded; }
      SleepUntil(s.pi.sent + w.ttl + 1.0, calm);
      Do(PiStep(Release));
      return NotLoaded;
    }

    /** Refused while a race runs; otherwise the load above, under the lock. */
    method PlaybookLoad(bundle: int, calm: bool, lag: real) returns (r: Loading)
      requires Valid() && s.pi == Idle && lag >= 0.0
      modifies this
      ensures Valid() && s.pi == Idle && s.racing == old(s.racing)
      ensures old(s.racing) ==> r == NotLoaded && s == old(s)
      ensures r == Loaded ==> s.approved == Some(bundle) && s.file == bundle
      ensures r == NotLoaded ==> s.approved == None || s.approved == old(s.approved)
      ensures r == Raised ==> w.card != Sound
      ensures r == Raised ==> s.approved == None || (s.approved == Some(bundle) && s.file == bundle)
                              || (s.approved == old(s.approved) && w.card == Fails)
      ensures calm && old(!s.racing && s.handler.Quiet?) && 0.0 < w.ttl <= 10.0 ==>
                r == if lag <= w.ttl then Loaded else NotLoaded
    {
      if s.racing { return NotLoaded; }
      r := CopilotLoad(bundle, calm, lag);
    }
  }
}
