/** Who may touch the archive while it is being replaced: the event loop (flusher, pruner, check
    scheduler), the executor threads they start, and the background check threads, in any interleaving.

    A lock is held by the thread whose program counter says so; taking one is enabled only while no
    other thread's says the same. Files are numbered; each recorder connection is named by its file. */
module RotationLocks {
  import opened Options

  type File = nat

  /** A check thread. It is registered under the live path from its start until it is finished. */
  datatype CheckPc =
    Waiting | Opening | Reading | Finished(corrupt: bool) | Unlisted(corrupt: bool) | Published(corrupt: bool) | Dead
  datatype Check = Check(gen: nat, pc: CheckPc, stopped: bool, file: Option<File>)

  /** The rotation thread: `reopen_fresh`. */
  datatype RotatePc =
    | Idle
    | Entered(prev: Option<File>)            // holds _ROTATION_LOCK, _ROTATING set
    | Joining(prev: Option<File>, check: nat)
    | Stopped(prev: Option<File>)
    | HasPruneLock(conn: File)
    | HasBothLocks(conn: File)
    | Closed
    | MovedAside

  datatype Outcome = Busy(prev: Option<File>) | Failed | Opened(file: File)
  /** The flusher's `_recover`. */
  datatype Recover = NotRecovering | Asked(prev: Option<File>) | Running | Returned(outcome: Outcome)

  /** The prune thread, with the connection it was given. */
  datatype PrunePc =
    NoPrune | WantsPruneLock(conn: File) | Pruning(conn: File) | Querying(conn: File) | WantsWriteLock(conn: File) |
    Deleting(conn: File)

  /** Any other executor job on a connection, under the write lock: `_meta`, `_checkpoint`, the guard. */
  datatype UserPc = WantsUse(conn: File) | Using(conn: File)

  datatype Scheduler = Asleep | Looked(conn: File, gen: nat) | Watching(check: nat)

  datatype State = State(
    live: Option<File>,           // the file at the live path
    nextFile: File,               // the next file number
    stillborn: set<File>,         // created by an open that then failed: never handed to the recorder
    handles: set<File>,           // open recorder connections
    conn: Option<File>,           // state["conn"]
    gen: nat, genFile: map<nat, File>,
    pending: bool,                // state["rotate_pending"]
    blamed: set<File>,            // files whose corrupt verdict asked for the pending rotation
    recover: Recover, rotate: RotatePc, prune: PrunePc, users: map<nat, UserPc>, scheduler: Scheduler,
    checks: map<nat, Check>, marks: set<nat>)

  /** Steps of the event loop. */
  datatype LoopEvent =
    | WriteFoundCorruption | RecoverBegin | RecoverEnd | PruneLaunch | UserLaunch(job: nat) | RunMark(check: nat)
    | SchedulerLook | SchedulerStart(check: nat) | SchedulerGiveUp | SchedulerSee

  /** Steps of the rotation thread. */
  datatype RotationEvent =
    | RotateEnter | RotateStopChecks(check: nat) | RotateNoCheck | JoinDone | JoinTimeout
    | TakePruneLock | TakeWriteLock | CloseOld | NothingToClose | MoveFiles | MoveFails
    | OpenFresh | OpenFails(left: bool)

  /** Steps of the prune thread and of other executor jobs. */
  datatype JobEvent =
    | PruneBail | PruneTakeLock | PruneQuery | PruneQueryEnd | PruneNextChunk | PruneTakeWrite
    | PruneChunkDone | PruneEnd
    | UserTake(job: nat) | UserDone(job: nat)

  /** Steps of one check thread. */
  datatype CheckEvent =
    | CheckOpen | CheckAbort | CheckConnect | CheckRetry
    | CheckVerdict(corrupt: bool) | CheckUnlist | CheckPublish | CheckDie

  datatype Event = Loop(l: LoopEvent) | Rotation(r: RotationEvent) | Job(j: JobEvent) | InCheck(c: nat, k: CheckEvent)

  predicate Registered(c: Check) {
    c.pc.Waiting? || c.pc.Opening? || c.pc.Reading? || c.pc.Finished?
  }

  predicate RotationLockFree(s: State) { s.rotate.Idle? }
  predicate Rotating(s: State) { !s.rotate.Idle? }

  predicate PruneLockFree(s: State) {
    && !(s.rotate.HasPruneLock? || s.rotate.HasBothLocks?)
    && (s.prune.NoPrune? || s.prune.WantsPruneLock?)
  }

  /** This executor job is running its statement, under the write lock. */
  predicate Uses(s: State, u: nat) { u in s.users && s.users[u].Using? }

  predicate NobodyUses(s: State) { forall u :: u in s.users ==> !Uses(s, u) }

  predicate WriteLockFree(s: State) {
    !s.rotate.HasBothLocks? && !s.prune.Deleting? && NobodyUses(s)
  }

  predicate LoopEnabled(s: State, e: LoopEvent) {
    match e
    case WriteFoundCorruption => s.recover.NotRecovering? && s.conn.Some?
    case RecoverBegin => s.recover.NotRecovering? && s.pending
    case RecoverEnd => s.recover.Returned?
    case PruneLaunch => s.prune.NoPrune? && !s.pending && s.conn.Some?
    case UserLaunch(u) => u !in s.users && s.conn.Some?
    case RunMark(c) => c in s.marks && c in s.checks
    case SchedulerLook => s.scheduler.Asleep? && !s.pending && s.conn.Some?
    case SchedulerStart(c) =>
      s.scheduler.Looked? && c !in s.checks && RotationLockFree(s) && s.conn == Some(s.scheduler.conn)
      && s.gen == s.scheduler.gen && !s.pending && !Rotating(s)
    case SchedulerGiveUp => s.scheduler.Looked?
    case SchedulerSee =>
      s.scheduler.Watching? && s.scheduler.check in s.checks &&
      (s.checks[s.scheduler.check].pc.Published? || s.checks[s.scheduler.check].pc.Dead?)
  }

  predicate RotationEnabled(s: State, e: RotationEvent) {
    match e
    case RotateEnter => s.recover.Asked? && RotationLockFree(s)
    case RotateStopChecks(c) => s.rotate.Entered? && c in s.checks && Registered(s.checks[c])
    case RotateNoCheck => s.rotate.Entered? && forall c :: c in s.checks ==> !Registered(s.checks[c])
    case JoinDone => s.rotate.Joining? && s.rotate.check in s.checks && s.checks[s.rotate.check].pc.Dead?
    case JoinTimeout => s.rotate.Joining?
    case TakePruneLock => s.rotate.Stopped? && s.rotate.prev.Some? && PruneLockFree(s)
    case TakeWriteLock => s.rotate.HasPruneLock? && WriteLockFree(s)
    case CloseOld => s.rotate.HasBothLocks?
    case NothingToClose => s.rotate.Stopped? && s.rotate.prev.None?
    case MoveFiles => s.rotate.Closed?
    case MoveFails => s.rotate.Closed?
    case OpenFresh => s.rotate.MovedAside?
    case OpenFails(_) => s.rotate.MovedAside?
  }

  predicate JobEnabled(s: State, e: JobEvent) {
    match e
    case PruneBail => s.prune.WantsPruneLock? && Rotating(s)
    case PruneTakeLock => s.prune.WantsPruneLock? && PruneLockFree(s)
    case PruneQuery => s.prune.Pruning? && s.prune.conn in s.handles
    case PruneQueryEnd => s.prune.Querying?
    case PruneNextChunk => s.prune.Pruning? && !Rotating(s)
    case PruneTakeWrite => s.prune.WantsWriteLock? && WriteLockFree(s)
    case PruneChunkDone => s.prune.Deleting?
    case PruneEnd => s.prune.Pruning?
    case UserTake(u) => u in s.users && s.users[u].WantsUse? && WriteLockFree(s)
    case UserDone(u) => Uses(s, u)
  }

  predicate CheckEnabled(s: State, c: nat, e: CheckEvent) {
    c in s.checks &&
    match e
    case CheckOpen => s.checks[c].pc.Waiting? && !s.checks[c].stopped
    case CheckAbort => s.checks[c].pc.Waiting?
    case CheckConnect => s.checks[c].pc.Opening?
    case CheckRetry => s.checks[c].pc.Reading?
    case CheckVerdict(_) => s.checks[c].pc.Reading?
    case CheckUnlist => s.checks[c].pc.Finished?
    case CheckPublish => s.checks[c].pc.Unlisted?
    case CheckDie => s.checks[c].pc.Published?
  }

  predicate Enabled(s: State, e: Event) {
    match e
    case Loop(l) => LoopEnabled(s, l)
    case Rotation(r) => RotationEnabled(s, r)
    case Job(j) => JobEnabled(s, j)
    case InCheck(c, k) => CheckEnabled(s, c, k)
  }

  function SetCheck(s: State, c: nat, k: Check): State {
    s.(checks := s.checks[c := k])
  }

  function SetPc(s: State, c: nat, pc: CheckPc): State
    requires c in s.checks
  {
    SetCheck(s, c, s.checks[c].(pc := pc))
  }

  function Return(s: State, o: Outcome): State {
    s.(rotate := Idle, recover := Returned(o))
  }

  function LoopNext(s: State, e: LoopEvent): State
    requires LoopEnabled(s, e)
  {
    match e
    case WriteFoundCorruption => s.(pending := true)
    case RecoverBegin => s.(recover := Asked(s.conn), conn := None)
    case RecoverEnd => (
      match s.recover.outcome
      case Busy(prev) => s.(recover := NotRecovering, conn := prev)
      case Failed => s.(recover := NotRecovering)
      case Opened(f) =>
        s.(recover := NotRecovering, conn := Some(f), pending := false, blamed := {},
           gen := s.gen + 1, genFile := s.genFile[s.gen + 1 := f])
    )
    case PruneLaunch => s.(prune := WantsPruneLock(s.conn.value))
    case UserLaunch(u) => s.(users := s.users[u := WantsUse(s.conn.value)])
    case RunMark(c) =>
      var t := s.(marks := s.marks - {c});
      if s.checks[c].gen != s.gen then t         // a verdict about a file already replaced
      else t.(pending := true, blamed := if s.checks[c].file.Some? then s.blamed + {s.checks[c].file.value}
              else s.blamed)
    case SchedulerLook => s.(scheduler := Looked(s.conn.value, s.gen))
    case SchedulerStart(c) => SetCheck(s, c, Check(s.gen, Waiting, false, None)).(scheduler := Watching(c))
    case SchedulerGiveUp => s.(scheduler := Asleep)
    case SchedulerSee => s.(scheduler := Asleep)
  }

  function RotationNext(s: State, e: RotationEvent): State
    requires RotationEnabled(s, e)
  {
    match e
    case RotateEnter => s.(rotate := Entered(s.recover.prev), recover := Running)
    case RotateStopChecks(c) => SetCheck(s, c, s.checks[c].(stopped := true)).(rotate := Joining(s.rotate.prev, c))
    case RotateNoCheck => s.(rotate := Stopped(s.rotate.prev))
    case JoinDone => s.(rotate := Stopped(s.rotate.prev))
    case JoinTimeout => Return(s, Busy(s.rotate.prev))
    case TakePruneLock => s.(rotate := HasPruneLock(s.rotate.prev.value))
    case TakeWriteLock => s.(rotate := HasBothLocks(s.rotate.conn))
    case CloseOld => s.(handles := s.handles - {s.rotate.conn}, rotate := Closed)
    case NothingToClose => s.(rotate := Closed)
    case MoveFiles => s.(live := None, rotate := MovedAside)
    case MoveFails => Return(s, Failed)
    case OpenFresh =>
      Return(s.(live := Some(s.nextFile), handles := s.handles + {s.nextFile}, nextFile := s.nextFile + 1),
             Opened(s.nextFile))
    case OpenFails(left) =>
      var t := s.(live := Some(s.nextFile), stillborn := s.stillborn + {s.nextFile}, nextFile := s.nextFile + 1);
      Return(if left then t else s, Failed)
  }

  function JobNext(s: State, e: JobEvent): State
    requires JobEnabled(s, e)
  {
    match e
    case PruneBail => s.(prune := NoPrune)
    case PruneTakeLock => s.(prune := Pruning(s.prune.conn))
    case PruneQuery => s.(prune := Querying(s.prune.conn))
    case PruneQueryEnd => s.(prune := Pruning(s.prune.conn))
    case PruneNextChunk => s.(prune := WantsWriteLock(s.prune.conn))
    case PruneTakeWrite => s.(prune := if s.prune.conn in s.handles then Deleting(s.prune.conn)
                              else Pruning(s.prune.conn))
    case PruneChunkDone => s.(prune := Pruning(s.prune.conn))
    case PruneEnd => s.(prune := NoPrune)
    case UserTake(u) =>
      s.(users := if s.users[u].conn in s.handles then s.users[u := Using(s.users[u].conn)] else s.users - {u})
    case UserDone(u) => s.(users := s.users - {u})
  }

  function CheckNext(s: State, c: nat, e: CheckEvent): State
    requires CheckEnabled(s, c, e)
  {
    match e
    case CheckOpen => SetPc(s, c, Opening)
    case CheckAbort => SetPc(s, c, Finished(false))
    case CheckConnect => SetCheck(s, c, s.checks[c].(pc := Reading, file := s.live))
    case CheckRetry => SetPc(s, c, Waiting)
    case CheckVerdict(corrupt) => SetPc(s, c, Finished(corrupt))
    case CheckUnlist => SetPc(s, c, Unlisted(s.checks[c].pc.corrupt))
    case CheckPublish =>
      var t := SetPc(s, c, Published(s.checks[c].pc.corrupt));
      if s.checks[c].pc.corrupt then t.(marks := t.marks + {c}) else t
    case CheckDie => SetPc(s, c, Dead)
  }

  function Next(s: State, e: Event): State
    requires Enabled(s, e)
  {
    match e
    case Loop(l) => LoopNext(s, l)
    case Rotation(r) => RotationNext(s, r)
    case Job(j) => JobNext(s, j)
    case InCheck(c, k) => CheckNext(s, c, k)
  }

  // ---- the invariant ------------------------------------------------------------------------------

  predicate MoveUnderway(s: State) {
    s.rotate.Stopped? || s.rotate.HasPruneLock? || s.rotate.HasBothLocks? || s.rotate.Closed? || s.rotate.MovedAside?
  }

  /** The connection the recorder gave the rotation to close. */
  function Old(s: State): Option<File> {
    match s.rotate
    case Entered(prev) => prev
    case Joining(prev, _) => prev
    case Stopped(prev) => prev
    case HasPruneLock(prev) => Some(prev)
    case HasBothLocks(prev) => Some(prev)
    case _ => None
  }

  /** Who owns the recorder's one connection: the event loop, the rotation, or its answer. */
  function Owner(s: State): Option<File> {
    match s.recover
    case NotRecovering => s.conn
    case Asked(prev) => prev
    case Running => Old(s)
    case Returned(Busy(prev)) => prev
    case Returned(Failed) => None
    case Returned(Opened(f)) => Some(f)
  }

  /** The recorder's file. */
  function Current(s: State): File {
    if s.gen in s.genFile then s.genFile[s.gen] else 0
  }

  predicate OneOwner(s: State) {
    && (s.recover.Running? <==> !s.rotate.Idle?)
    && (!s.recover.NotRecovering? ==> s.conn.None?)
    && s.handles == (if Owner(s).Some? then {Owner(s).value} else {})
  }

  predicate FilesOK(s: State) {
    && s.gen in s.genFile
    && (forall g :: g in s.genFile ==> g <= s.gen)
    && (s.live.Some? ==> s.live.value < s.nextFile)
    && (forall g :: g in s.genFile ==> s.genFile[g] < s.nextFile)
    // the file at the live path is the recorder's, one an open left behind, or one just opened
    && (s.live.Some? ==> s.live.value == Current(s) || s.live.value in s.stillborn
                         || s.recover == Returned(Opened(s.live.value)))
    && (Owner(s).Some? && !(s.recover.Returned? && s.recover.outcome.Opened?) ==>
          Owner(s).value == Current(s) && s.live == Some(Current(s)))
    && (s.recover.Returned? && s.recover.outcome.Opened? ==> s.live == Some(s.recover.outcome.file))
  }

  predicate CheckOK(s: State, c: nat)
    requires c in s.checks
  {
    && (Registered(s.checks[c]) ==>
          && !MoveUnderway(s)
          && (s.rotate.Joining? ==> s.rotate.check == c)
          && s.checks[c].gen == s.gen && s.live == Some(Current(s)) && Owner(s).Some?
          && !(s.recover.Returned? && s.recover.outcome.Opened?))
    && (s.checks[c].file.Some? ==>
          s.checks[c].gen in s.genFile && s.checks[c].file.value == s.genFile[s.checks[c].gen])
    && (s.checks[c].pc.Published? || s.checks[c].pc.Dead? || s.scheduler == Watching(c))
  }

  predicate ChecksOK(s: State) {
    && (forall c :: c in s.checks ==> CheckOK(s, c))
    && (s.rotate.Joining? ==> s.rotate.check in s.checks && s.checks[s.rotate.check].stopped)
  }

  predicate PruneOK(s: State) {
    && (s.prune.Querying? || s.prune.Deleting? ==> s.prune.conn in s.handles)
    && (s.rotate.HasPruneLock? || s.rotate.HasBothLocks? ==> s.prune.NoPrune? || s.prune.WantsPruneLock?)
  }

  predicate UsersOK(s: State) {
    && (forall u :: u in s.users && Uses(s, u) ==> s.users[u].conn in s.handles)
    && (forall u, v :: u in s.users && v in s.users && Uses(s, u) && Uses(s, v) ==> u == v)
    && (s.rotate.HasBothLocks? || s.prune.Deleting? ==> NobodyUses(s))
  }

  predicate BlameOK(s: State) {
    && s.blamed <= {Current(s)}
  }

  predicate Inv(s: State) {
    OneOwner(s) && FilesOK(s) && ChecksOK(s) && PruneOK(s) && UsersOK(s) && BlameOK(s)
  }

  // ---- preserved, thread by thread ------------------------------------------------------------------

  lemma LoopKeepsOwner(s: State, e: LoopEvent)
    requires OneOwner(s) && LoopEnabled(s, e)
    ensures OneOwner(LoopNext(s, e)) && LoopNext(s, e).handles == s.handles
  {
  }

  lemma LoopKeepsJobs(s: State, e: LoopEvent)
    requires PruneOK(s) && UsersOK(s) && LoopEnabled(s, e)
    ensures PruneOK(LoopNext(s, e)) && UsersOK(LoopNext(s, e))
  {
    var t := LoopNext(s, e);
    assert t.handles == s.handles && t.rotate == s.rotate && forall u :: u in t.users && Uses(t, u) <==> Uses(s, u);
  }

  lemma LoopKeepsBlame(s: State, e: LoopEvent)
    requires OneOwner(s) && FilesOK(s) && ChecksOK(s) && BlameOK(s) && LoopEnabled(s, e)
    ensures BlameOK(LoopNext(s, e))
  {
    if e.RunMark? { assert CheckOK(s, e.check); }
  }

  lemma LoopKeepsFilesOK(s: State, e: LoopEvent)
    requires OneOwner(s) && FilesOK(s) && LoopEnabled(s, e)
    ensures FilesOK(LoopNext(s, e))
  {
    if e.RecoverEnd? {
      AnswerKeepsFilesOK(s);
    } else {
      var t := LoopNext(s, e);
      assert t.genFile == s.genFile && t.gen == s.gen && t.live == s.live && Owner(t) == Owner(s);
    }
  }

  lemma AnswerKeepsFilesOK(s: State)
    requires OneOwner(s) && FilesOK(s) && LoopEnabled(s, RecoverEnd)
    ensures FilesOK(LoopNext(s, RecoverEnd))
  {
  }

  lemma LoopKeepsCheck(s: State, e: LoopEvent, d: nat)
    requires OneOwner(s) && FilesOK(s) && LoopEnabled(s, e) && d in s.checks && CheckOK(s, d)
    ensures CheckOK(LoopNext(s, e), d)
  {
    match e {
      case RecoverEnd =>
      case RunMark(c) =>
      case SchedulerStart(c) =>
      case _ =>
    }
  }

  lemma NewCheckOK(s: State, c: nat)
    requires OneOwner(s) && FilesOK(s) && LoopEnabled(s, SchedulerStart(c))
    ensures CheckOK(LoopNext(s, SchedulerStart(c)), c)
  {
  }

  lemma LoopKeepsChecksOK(s: State, e: LoopEvent)
    requires Inv(s) && LoopEnabled(s, e)
    ensures ChecksOK(LoopNext(s, e))
  {
    var t := LoopNext(s, e);
    forall d | d in t.checks
      ensures CheckOK(t, d)
    {
      if d in s.checks {
        LoopKeepsCheck(s, e, d);
      } else {
        NewCheckOK(s, d);
      }
    }
  }

  lemma RotationKeepsOwner(s: State, e: RotationEvent)
    requires OneOwner(s) && FilesOK(s) && RotationEnabled(s, e)
    ensures OneOwner(RotationNext(s, e))
  {
  }

  lemma RotationKeepsJobs(s: State, e: RotationEvent)
    requires OneOwner(s) && PruneOK(s) && UsersOK(s) && BlameOK(s) && RotationEnabled(s, e)
    ensures PruneOK(RotationNext(s, e)) && UsersOK(RotationNext(s, e)) && BlameOK(RotationNext(s, e))
  {
    assert forall u :: Uses(RotationNext(s, e), u) <==> Uses(s, u);
  }

  lemma RotationKeepsFilesOK(s: State, e: RotationEvent)
    requires OneOwner(s) && FilesOK(s) && RotationEnabled(s, e)
    ensures FilesOK(RotationNext(s, e))
  {
    match e {
      case CloseOld =>
      case OpenFresh =>
      case RotateStopChecks(c) =>
      case _ =>
    }
  }

  lemma RotationKeepsCheck(s: State, e: RotationEvent, d: nat)
    requires OneOwner(s) && FilesOK(s) && RotationEnabled(s, e) && d in s.checks && CheckOK(s, d)
    requires e.RotateStopChecks? ==> CheckOK(s, e.check)
    ensures CheckOK(RotationNext(s, e), d)
  {
  }

  lemma RotationKeepsChecksOK(s: State, e: RotationEvent)
    requires Inv(s) && RotationEnabled(s, e)
    ensures ChecksOK(RotationNext(s, e))
  {
    var t := RotationNext(s, e);
    forall d | d in t.checks
      ensures CheckOK(t, d)
    {
      assert e.RotateStopChecks? ==> CheckOK(s, e.check);
      RotationKeepsCheck(s, e, d);
    }
  }

  lemma JobKeepsOwners(s: State, e: JobEvent)
    requires Inv(s) && JobEnabled(s, e)
    ensures OneOwner(JobNext(s, e)) && FilesOK(JobNext(s, e)) && BlameOK(JobNext(s, e))
  {
    assert Owner(JobNext(s, e)) == Owner(s);
  }

  lemma JobKeepsJobs(s: State, e: JobEvent)
    requires PruneOK(s) && UsersOK(s) && JobEnabled(s, e)
    ensures PruneOK(JobNext(s, e)) && UsersOK(JobNext(s, e))
  {
  }

  lemma JobKeepsChecksOK(s: State, e: JobEvent)
    requires Inv(s) && JobEnabled(s, e)
    ensures ChecksOK(JobNext(s, e))
  {
  }

  lemma CheckKeepsOwner(s: State, c: nat, e: CheckEvent)
    requires OneOwner(s) && CheckEnabled(s, c, e)
    ensures OneOwner(CheckNext(s, c, e))
  {
    assert Owner(CheckNext(s, c, e)) == Owner(s);
  }

  lemma CheckKeepsJobs(s: State, c: nat, e: CheckEvent)
    requires PruneOK(s) && UsersOK(s) && CheckEnabled(s, c, e)
    ensures PruneOK(CheckNext(s, c, e)) && UsersOK(CheckNext(s, c, e))
  {
    assert forall u :: Uses(CheckNext(s, c, e), u) <==> Uses(s, u);
  }

  lemma CheckKeepsBlame(s: State, c: nat, e: CheckEvent)
    requires OneOwner(s) && FilesOK(s) && BlameOK(s) && CheckEnabled(s, c, e)
    requires c in s.checks ==> CheckOK(s, c)
    ensures BlameOK(CheckNext(s, c, e))
  {
  }

  lemma CheckKeepsFilesOK(s: State, c: nat, e: CheckEvent)
    requires OneOwner(s) && FilesOK(s) && CheckEnabled(s, c, e)
    ensures FilesOK(CheckNext(s, c, e))
  {
    var t := CheckNext(s, c, e);
    assert t.genFile == s.genFile && t.gen == s.gen && t.live == s.live && Owner(t) == Owner(s);
  }

  lemma CheckKeepsItself(s: State, c: nat, e: CheckEvent)
    requires OneOwner(s) && FilesOK(s) && CheckEnabled(s, c, e)
    requires c in s.checks ==> CheckOK(s, c)
    ensures CheckOK(CheckNext(s, c, e), c)
  {
    assert CheckOK(s, c);
  }

  lemma CheckKeepsAnother(s: State, c: nat, e: CheckEvent, d: nat)
    requires CheckEnabled(s, c, e) && d in s.checks && d != c && CheckOK(s, d)
    ensures CheckOK(CheckNext(s, c, e), d)
  {
    var t := CheckNext(s, c, e);
    assert t.checks[d] == s.checks[d];
    assert t.genFile == s.genFile && t.gen == s.gen && t.live == s.live && Owner(t) == Owner(s);
    assert t.rotate == s.rotate && t.recover == s.recover && t.scheduler == s.scheduler;
  }

  lemma CheckKeepsChecksOK(s: State, c: nat, e: CheckEvent)
    requires Inv(s) && CheckEnabled(s, c, e)
    ensures ChecksOK(CheckNext(s, c, e))
  {
    var t := CheckNext(s, c, e);
    forall d | d in t.checks
      ensures CheckOK(t, d)
    {
      if d == c {
        CheckKeepsItself(s, c, e);
      } else {
        CheckKeepsAnother(s, c, e, d);
      }
    }
  }

  lemma StepKeeps(s: State, e: Event)
    requires Inv(s) && Enabled(s, e)
    ensures Inv(Next(s, e))
  {
    match e
    case Loop(l) =>
      LoopKeepsOwner(s, l);
      LoopKeepsJobs(s, l);
      LoopKeepsBlame(s, l);
      LoopKeepsFilesOK(s, l);
      LoopKeepsChecksOK(s, l);
    case Rotation(r) =>
      RotationKeepsOwner(s, r);
      RotationKeepsJobs(s, r);
      RotationKeepsFilesOK(s, r);
      RotationKeepsChecksOK(s, r);
    case Job(j) =>
      JobKeepsOwners(s, j);
      JobKeepsJobs(s, j);
      JobKeepsChecksOK(s, j);
    case InCheck(c, k) =>
      CheckKeepsOwner(s, c, k);
      CheckKeepsJobs(s, c, k);
      CheckKeepsBlame(s, c, k);
      CheckKeepsFilesOK(s, c, k);
      CheckKeepsChecksOK(s, c, k);
  }

  // ---- over whole runs ----------------------------------------------------------------------------------

  /** Recording into its first file, nothing else started. */
  const START := State(Some(0), 1, {}, {0}, Some(0), 0, map[0 := 0], false, {},
                       NotRecovering, Idle, NoPrune, map[], Asleep, map[], {})

  ghost predicate Runs(s: State, events: seq<Event>)
    decreases |events|
  {
    events == [] || (Enabled(s, events[0]) && Runs(Next(s, events[0]), events[1..]))
  }

  ghost function After(s: State, events: seq<Event>): State
    requires Runs(s, events)
    decreases |events|
  {
    if events == [] then s else After(Next(s, events[0]), events[1..])
  }

  lemma {:induction false} RunKeeps(s: State, events: seq<Event>)
    requires Inv(s) && Runs(s, events)
    ensures Inv(After(s, events))
    decreases |events|
  {
    if events != [] {
      StepKeeps(s, events[0]);
      RunKeeps(Next(s, events[0]), events[1..]);
    }
  }

  /** Nobody has a recorder connection, and nobody can get one. */
  ghost predicate Alone(s: State) {
    && s.handles == {} && s.conn == None
    && (forall c :: c in s.checks ==> !Registered(s.checks[c]))
    && (forall c :: !CheckEnabled(s, c, CheckOpen) && !CheckEnabled(s, c, CheckConnect))
    && (forall c :: !LoopEnabled(s, SchedulerStart(c)))
    && !LoopEnabled(s, PruneLaunch) && (forall u :: !LoopEnabled(s, UserLaunch(u)))
    && !s.prune.Querying? && !s.prune.Deleting? && !JobEnabled(s, PruneQuery)
    && (JobEnabled(s, PruneTakeWrite) ==> !JobNext(s, PruneTakeWrite).prune.Deleting?)
    && NobodyUses(s) && (forall u :: JobEnabled(s, UserTake(u)) ==> NobodyUses(JobNext(s, UserTake(u))))
  }

  /** THE FILES MOVE ALONE: whenever the recorder has no connection, because the rotation closed it, or a
      move or an open failed and the directory is half-way, no check, prune or other job has one or can
      get one. */
  lemma FilesMoveAlone(events: seq<Event>)
    requires Runs(START, events) && Owner(After(START, events)).None?
    ensures Alone(After(START, events))
  {
    RunKeeps(START, events);
    UnownedIsAlone(After(START, events));
  }

  /** And only opening the fresh file ends that. */
  lemma StaysUnowned(s: State, e: Event)
    requires OneOwner(s) && Owner(s).None? && Enabled(s, e)
    ensures Owner(Next(s, e)).None? || e == Rotation(OpenFresh)
  {
  }

  /** FROM THE CLOSE TO THE FRESH FILE: from the moment the old connection is closed, through any number of
      failed moves and failed opens and new attempts, every state is Alone until a fresh file is opened. */
  lemma {:induction false} AloneUntilFresh(before: seq<Event>, events: seq<Event>)
    requires Runs(START, before) && RotationEnabled(After(START, before), CloseOld)
    requires Runs(Next(After(START, before), Rotation(CloseOld)), events) && Rotation(OpenFresh) !in events
    ensures Alone(After(Next(After(START, before), Rotation(CloseOld)), events))
    ensures Owner(After(Next(After(START, before), Rotation(CloseOld)), events)).None?
  {
    RunKeeps(START, before);
    var s := After(START, before);
    StepKeeps(s, Rotation(CloseOld));
    UnownedUntilFresh(Next(s, Rotation(CloseOld)), events);
  }

  lemma {:induction false} UnownedUntilFresh(s: State, events: seq<Event>)
    requires Inv(s) && Owner(s).None? && Runs(s, events) && Rotation(OpenFresh) !in events
    ensures Owner(After(s, events)).None? && Alone(After(s, events))
    decreases |events|
  {
    if events == [] {
      UnownedIsAlone(s);
    } else {
      assert events[0] in events;
      StepKeeps(s, events[0]);
      StaysUnowned(s, events[0]);
      UnownedUntilFresh(Next(s, events[0]), events[1..]);
    }
  }

  lemma UnownedIsAlone(s: State)
    requires Inv(s) && Owner(s).None?
    ensures Alone(s)
  {
    forall c | c in s.checks
      ensures !Registered(s.checks[c])
    {
      assert CheckOK(s, c);
    }
  }

  /** NEVER CLOSED UNDER A QUERY: when the old connection is closed nothing is running on it. */
  lemma ClosedBetweenQueries(events: seq<Event>)
    requires Runs(START, events) && RotationEnabled(After(START, events), CloseOld)
    ensures var s := After(START, events);
      && !s.prune.Querying? && !s.prune.Deleting? && NobodyUses(s)
      && forall c :: c in s.checks ==> !s.checks[c].pc.Reading?
  {
    RunKeeps(START, events);
    var s := After(START, events);
    forall c | c in s.checks
      ensures !s.checks[c].pc.Reading?
    {
      assert CheckOK(s, c);
    }
  }

  /** A VERDICT ROTATES ONLY ITS OWN FILE: what moves while a check's verdict is pending is the file that
      check read, or an empty one that a failed open left and the recorder never wrote to. */
  lemma VerdictRotatesItsOwnFile(events: seq<Event>)
    requires Runs(START, events) && RotationEnabled(After(START, events), MoveFiles)
    ensures var s := After(START, events);
      s.blamed != {} && s.live.Some? ==> s.live.value in s.blamed || s.live.value in s.stillborn
  {
    RunKeeps(START, events);
  }

  /** An accepted verdict is about the file being recorded into. */
  lemma AcceptedVerdictIsCurrent(events: seq<Event>, c: nat)
    requires Runs(START, events) && LoopEnabled(After(START, events), RunMark(c))
    ensures var s := After(START, events);
      s.checks[c].gen == s.gen && s.checks[c].file.Some? ==> s.checks[c].file.value == Current(s)
  {
    RunKeeps(START, events);
    assert CheckOK(After(START, events), c);
  }

  // ---- a rotation asked for can always be finished -----------------------------------------------------

  /** The recorder has a connection to a fresh file, one generation on, and nothing asks for a rotation. */
  predicate FreshAt(s: State, gen: nat) {
    && !s.pending && s.recover.NotRecovering? && s.rotate.Idle?
    && s.conn.Some? && s.live == s.conn && s.handles == {s.conn.value} && s.gen == gen
  }

  ghost predicate Finishes(s: State, events: seq<Event>, gen: nat) {
    Runs(s, events) && FreshAt(After(s, events), gen)
  }

  lemma Then(s: State, e: Event, events: seq<Event>, gen: nat)
    requires Enabled(s, e) && Finishes(Next(s, e), events, gen)
    ensures Finishes(s, [e] + events, gen)
  {
    assert ([e] + events)[1..] == events;
  }

  lemma FromReturned(s: State) returns (events: seq<Event>)
    requires Inv(s) && s.pending && s.recover.Returned? && s.recover.outcome.Opened?
    ensures Finishes(s, events, s.gen + 1)
  {
    var t := Next(s, Loop(RecoverEnd));
    assert Finishes(t, [], s.gen + 1);
    Then(s, Loop(RecoverEnd), [], s.gen + 1);
    events := [Loop(RecoverEnd)] + [];
  }

  lemma FromClosed(s: State) returns (events: seq<Event>)
    requires Inv(s) && s.pending && (s.rotate.Closed? || s.rotate.MovedAside?)
    ensures Finishes(s, events, s.gen + 1)
    decreases s.rotate.Closed?
  {
    var e := if s.rotate.Closed? then Rotation(MoveFiles) else Rotation(OpenFresh);
    StepKeeps(s, e);
    if s.rotate.Closed? { events := FromClosed(Next(s, e)); } else { events := FromReturned(Next(s, e)); }
    Then(s, e, events, s.gen + 1);
    events := [e] + events;
  }

  lemma FromPruneLock(s: State) returns (events: seq<Event>)
    requires Inv(s) && s.pending && (s.rotate.HasPruneLock? || s.rotate.HasBothLocks?)
    ensures Finishes(s, events, s.gen + 1)
    decreases s.rotate.HasPruneLock?, !NobodyUses(s)
  {
    var e := Rotation(CloseOld);
    if s.rotate.HasPruneLock? {
      e := Rotation(TakeWriteLock);
      if !NobodyUses(s) {
        var u :| u in s.users && Uses(s, u);
        e := Job(UserDone(u));
      }
    }
    StepKeeps(s, e);
    if s.rotate.HasBothLocks? { events := FromClosed(Next(s, e)); } else { events := FromPruneLock(Next(s, e)); }
    Then(s, e, events, s.gen + 1);
    events := [e] + events;
  }

  /** How far the prune is from letting its lock go. */
  function PruneLeft(p: PrunePc): nat {
    match p
    case WantsWriteLock(_) => 3
    case Deleting(_) => 2
    case Querying(_) => 2
    case Pruning(_) => 1
    case _ => 0
  }

  lemma FromStopped(s: State) returns (events: seq<Event>)
    requires Inv(s) && s.pending && s.rotate.Stopped?
    ensures Finishes(s, events, s.gen + 1)
    decreases PruneLeft(s.prune), !NobodyUses(s)
  {
    var e := if s.rotate.prev.None? then Rotation(NothingToClose) else Rotation(TakePruneLock);
    if s.rotate.prev.Some? && PruneLeft(s.prune) > 0 {
      e := ReleaseStep(s);
      StepKeeps(s, e);
      events := FromStopped(Next(s, e));
    } else {
      StepKeeps(s, e);
      if s.rotate.prev.None? { events := FromClosed(Next(s, e)); } else { events := FromPruneLock(Next(s, e)); }
    }
    Then(s, e, events, s.gen + 1);
    events := [e] + events;
  }

  /** The next step of whoever keeps the prune lock from being let go. */
  lemma ReleaseStep(s: State) returns (e: Event)
    requires UsersOK(s) && s.rotate.Stopped? && PruneLeft(s.prune) > 0
    ensures Enabled(s, e)
    ensures Next(s, e).rotate == s.rotate && Next(s, e).pending == s.pending && Next(s, e).gen == s.gen
    ensures PruneLeft(Next(s, e).prune) < PruneLeft(s.prune)
            || (Next(s, e).prune == s.prune && !NobodyUses(s) && NobodyUses(Next(s, e)))
  {
    match s.prune
    case Deleting(_) => e := Job(PruneChunkDone);
    case Querying(_) => e := Job(PruneQueryEnd);
    case Pruning(_) => e := Job(PruneEnd);
    case WantsWriteLock(_) =>
      e := Job(PruneTakeWrite);
      if !NobodyUses(s) {
        var u :| u in s.users && Uses(s, u);
        e := Job(UserDone(u));
      }
  }

  function CheckLeft(p: CheckPc): nat {
    match p
    case Opening => 6
    case Reading => 5
    case Waiting => 5
    case Finished(_) => 4
    case Unlisted(_) => 3
    case Published(_) => 2
    case Dead => 1
  }

  lemma FromJoining(s: State) returns (events: seq<Event>)
    requires Inv(s) && s.pending && s.rotate.Joining?
    ensures Finishes(s, events, s.gen + 1)
    decreases CheckLeft(s.checks[s.rotate.check].pc)
  {
    var c := s.rotate.check;
    var e := match s.checks[c].pc
      case Opening => InCheck(c, CheckConnect)
      case Reading => InCheck(c, CheckVerdict(false))
      case Waiting => InCheck(c, CheckAbort)
      case Finished(_) => InCheck(c, CheckUnlist)
      case Unlisted(_) => InCheck(c, CheckPublish)
      case Published(_) => InCheck(c, CheckDie)
      case Dead => Rotation(JoinDone);
    StepKeeps(s, e);
    if s.checks[c].pc.Dead? { events := FromStopped(Next(s, e)); } else { events := FromJoining(Next(s, e)); }
    Then(s, e, events, s.gen + 1);
    events := [e] + events;
  }

  lemma FromEntered(s: State) returns (events: seq<Event>)
    requires Inv(s) && s.pending && s.rotate.Entered?
    ensures Finishes(s, events, s.gen + 1)
  {
    var e := Rotation(RotateNoCheck);
    if c :| c in s.checks && Registered(s.checks[c]) {
      e := Rotation(RotateStopChecks(c));
      StepKeeps(s, e);
      events := FromJoining(Next(s, e));
    } else {
      StepKeeps(s, e);
      events := FromStopped(Next(s, e));
    }
    Then(s, e, events, s.gen + 1);
    events := [e] + events;
  }

  lemma FromIdle(s: State) returns (events: seq<Event>)
    requires Inv(s) && s.pending && s.rotate.Idle?
    ensures Finishes(s, events, s.gen + 1)
    decreases if s.recover.Returned? then 2 else if s.recover.NotRecovering? then 1 else 0
  {
    if s.recover.Returned? && s.recover.outcome.Opened? {
      events := FromReturned(s);
      return;
    }
    var e := if s.recover.Returned? then Loop(RecoverEnd)
             else if s.recover.NotRecovering? then Loop(RecoverBegin) else Rotation(RotateEnter);
    StepKeeps(s, e);
    if s.recover.Asked? { events := FromEntered(Next(s, e)); } else { events := FromIdle(Next(s, e)); }
    Then(s, e, events, s.gen + 1);
    events := [e] + events;
  }

  /** CAN ALWAYS FINISH: from every reachable state in which a rotation is asked for, whatever checks, prunes
      and jobs are under way, some run of their steps and the rotation's ends in a fresh file. */
  lemma CanAlwaysFinish(before: seq<Event>) returns (events: seq<Event>)
    requires Runs(START, before) && After(START, before).pending
    ensures Finishes(After(START, before), events, After(START, before).gen + 1)
  {
    RunKeeps(START, before);
    var s := After(START, before);
    match s.rotate
    case Idle => events := FromIdle(s);
    case Entered(_) => events := FromEntered(s);
    case Joining(_, _) => events := FromJoining(s);
    case Stopped(_) => events := FromStopped(s);
    case HasPruneLock(_) => events := FromPruneLock(s);
    case HasBothLocks(_) => events := FromPruneLock(s);
    case Closed => events := FromClosed(s);
    case MovedAside => events := FromClosed(s);
  }

  /** The scheduler watches check c, which has got that far. */
  function WithCheck(s: State, c: nat, pc: CheckPc, file: Option<File>): State {
    s.(scheduler := Watching(c), checks := s.checks[c := Check(s.gen, pc, false, file)])
  }

  lemma CheckGoesOn(s: State, c: nat, pc: CheckPc, file: Option<File>, next: CheckPc, read: Option<File>)
    ensures SetCheck(WithCheck(s, c, pc, file), c, Check(s.gen, next, false, read)) == WithCheck(s, c, next, read)
  {
    var k, m := Check(s.gen, pc, false, file), Check(s.gen, next, false, read);
    assert s.checks[c := k][c := m] == s.checks[c := m];
  }

  lemma CheckStarts(s: State, c: nat)
    requires Inv(s) && s.scheduler.Asleep? && s.conn.Some? && !s.pending && c !in s.checks
    ensures Enabled(s, Loop(SchedulerLook)) && Enabled(Next(s, Loop(SchedulerLook)), Loop(SchedulerStart(c)))
    ensures Next(Next(s, Loop(SchedulerLook)), Loop(SchedulerStart(c))) == WithCheck(s, c, Waiting, None)
  {
  }

  /** From its start to the verdict about the file at the live path. */
  lemma CheckReads(s: State, c: nat)
    ensures var t := WithCheck(s, c, Waiting, None);
            Enabled(t, InCheck(c, CheckOpen)) && Next(t, InCheck(c, CheckOpen)) == WithCheck(s, c, Opening, None)
    ensures var t := WithCheck(s, c, Opening, None);
            && Enabled(t, InCheck(c, CheckConnect))
            && Next(t, InCheck(c, CheckConnect)) == WithCheck(s, c, Reading, s.live)
    ensures var t, e := WithCheck(s, c, Reading, s.live), InCheck(c, CheckVerdict(true));
            Enabled(t, e) && Next(t, e) == WithCheck(s, c, Finished(true), s.live)
    ensures var t := WithCheck(s, c, Finished(true), s.live);
            && Enabled(t, InCheck(c, CheckUnlist))
            && Next(t, InCheck(c, CheckUnlist)) == WithCheck(s, c, Unlisted(true), s.live)
  {
    CheckGoesOn(s, c, Waiting, None, Opening, None);
    CheckGoesOn(s, c, Opening, None, Reading, s.live);
    CheckGoesOn(s, c, Reading, s.live, Finished(true), s.live);
    CheckGoesOn(s, c, Finished(true), s.live, Unlisted(true), s.live);
  }

  /** What the verdict leads to. */
  function AskedBy(s: State, c: nat): State {
    WithCheck(s, c, Published(true), s.live).(
      marks := s.marks + {c} - {c}, pending := true,
      blamed := if s.live.Some? then s.blamed + {s.live.value} else s.blamed, scheduler := Asleep)
  }

  lemma VerdictArrives(s: State, c: nat)
    ensures var t, publish := WithCheck(s, c, Unlisted(true), s.live), InCheck(c, CheckPublish);
            && Enabled(t, publish) && Enabled(Next(t, publish), Loop(RunMark(c)))
            && Enabled(Next(Next(t, publish), Loop(RunMark(c))), Loop(SchedulerSee))
            && Next(Next(Next(t, publish), Loop(RunMark(c))), Loop(SchedulerSee)) == AskedBy(s, c)
  {
    CheckGoesOn(s, c, Unlisted(true), s.live, Published(true), s.live);
  }

  /** A CORRUPT FILE IS FOUND: whenever the scheduler is asleep and no rotation is asked for, a check can start
      on the file being recorded into, and its verdict asks for the rotation of that file. */
  lemma VerdictAsks(before: seq<Event>, c: nat) returns (events: seq<Event>)
    requires Runs(START, before)
    requires var s := After(START, before); s.scheduler.Asleep? && s.conn.Some? && !s.pending && c !in s.checks
    ensures var s := After(START, before);
      && Runs(s, events)
      && var t := After(s, events);
         t.pending && t.blamed == s.blamed + {Current(s)} && t.conn == s.conn && t.gen == s.gen && t.scheduler.Asleep?
  {
    RunKeeps(START, before);
    var s := After(START, before);
    CheckStarts(s, c);
    events := FromWaiting(s, c);
    events := Onward(Next(s, Loop(SchedulerLook)), Loop(SchedulerStart(c)), events, AskedBy(s, c));
    events := Onward(s, Loop(SchedulerLook), events, AskedBy(s, c));
  }

  lemma Onward(s: State, e: Event, rest: seq<Event>, t: State) returns (events: seq<Event>)
    requires Enabled(s, e) && Runs(Next(s, e), rest) && After(Next(s, e), rest) == t
    ensures Runs(s, events) && After(s, events) == t
  {
    events := [e] + rest;
    assert events[1..] == rest;
  }

  lemma FromWaiting(s: State, c: nat) returns (events: seq<Event>)
    ensures Runs(WithCheck(s, c, Waiting, None), events)
    ensures After(WithCheck(s, c, Waiting, None), events) == AskedBy(s, c)
  {
    CheckReads(s, c);
    events := FromUnlisted(s, c);
    events := Onward(WithCheck(s, c, Finished(true), s.live), InCheck(c, CheckUnlist), events, AskedBy(s, c));
    events := Onward(WithCheck(s, c, Reading, s.live), InCheck(c, CheckVerdict(true)), events, AskedBy(s, c));
    events := Onward(WithCheck(s, c, Opening, None), InCheck(c, CheckConnect), events, AskedBy(s, c));
    events := Onward(WithCheck(s, c, Waiting, None), InCheck(c, CheckOpen), events, AskedBy(s, c));
  }

  lemma FromUnlisted(s: State, c: nat) returns (events: seq<Event>)
    ensures Runs(WithCheck(s, c, Unlisted(true), s.live), events)
    ensures After(WithCheck(s, c, Unlisted(true), s.live), events) == AskedBy(s, c)
  {
    VerdictArrives(s, c);
    var t := WithCheck(s, c, Unlisted(true), s.live);
    var t1 := Next(t, InCheck(c, CheckPublish));
    events := Onward(Next(t1, Loop(RunMark(c))), Loop(SchedulerSee), [], AskedBy(s, c));
    events := Onward(t1, Loop(RunMark(c)), events, AskedBy(s, c));
    events := Onward(t, InCheck(c, CheckPublish), events, AskedBy(s, c));
  }

  // ---- lock order ----------------------------------------------------------------------------------------

  /** `Ended(c)` is not a lock but is waited for like one: check c holds it until it is dead. */
  datatype Lock = RotationLock | Ended(c: nat) | PruneLock | WriteLock
  datatype Thread = Rotator | Pruner | Executor(job: nat) | Checker(c: nat)

  function Rank(l: Lock): nat {
    match l case RotationLock => 0 case Ended(_) => 1 case PruneLock => 2 case WriteLock => 3
  }

  predicate Holds(s: State, t: Thread, l: Lock) {
    match t
    case Rotator => (l.RotationLock? && !s.rotate.Idle?)
         || (l.PruneLock? && (s.rotate.HasPruneLock? || s.rotate.HasBothLocks?))
                    || (l.WriteLock? && s.rotate.HasBothLocks?)
    case Pruner => (l.PruneLock? && !s.prune.NoPrune? && !s.prune.WantsPruneLock?)
         || (l.WriteLock? && s.prune.Deleting?)
    case Executor(u) => l.WriteLock? && Uses(s, u)
    case Checker(c) => l == Ended(c) && c in s.checks && !s.checks[c].pc.Dead?
  }

  predicate Wants(s: State, t: Thread, l: Lock) {
    match t
    case Rotator => (l.RotationLock? && s.recover.Asked?) || (s.rotate.Joining? && l == Ended(s.rotate.check))
                    || (l.PruneLock? && s.rotate.Stopped? && s.rotate.prev.Some?)
                       || (l.WriteLock? && s.rotate.HasPruneLock?)
    case Pruner => (l.PruneLock? && s.prune.WantsPruneLock?) || (l.WriteLock? && s.prune.WantsWriteLock?)
    case Executor(u) => l.WriteLock? && u in s.users && s.users[u].WantsUse?
    case Checker(_) => false
  }

  predicate WaitsFor(s: State, t: Thread, l: Lock, u: Thread) {
    Wants(s, t, l) && Holds(s, u, l)
  }

  /** MUTUAL EXCLUSION: in every reachable state a lock has at most one holder. */
  lemma OneHolder(events: seq<Event>, t: Thread, u: Thread, l: Lock)
    requires Runs(START, events) && Holds(After(START, events), t, l) && Holds(After(START, events), u, l)
    ensures t == u
  {
    RunKeeps(START, events);
  }

  lemma WantsAboveHeld(s: State, t: Thread, held: Lock, wanted: Lock)
    requires Inv(s) && Holds(s, t, held) && Wants(s, t, wanted)
    ensures Rank(held) < Rank(wanted)
  {
  }

  /** Along a chain of waits the wanted locks climb. */
  lemma {:induction false} ChainClimbs(s: State, threads: seq<Thread>, locks: seq<Lock>, i: nat, j: nat)
    requires Inv(s) && |threads| == |locks| + 1 && i < j < |locks|
    requires forall k :: 0 <= k < |locks| ==> WaitsFor(s, threads[k], locks[k], threads[k + 1])
    ensures Rank(locks[i]) < Rank(locks[j])
    decreases j - i
  {
    assert WaitsFor(s, threads[i], locks[i], threads[i + 1])
           && WaitsFor(s, threads[i + 1], locks[i + 1], threads[i + 2]);
    WantsAboveHeld(s, threads[i + 1], locks[i], locks[i + 1]);
    if i + 1 < j {
      ChainClimbs(s, threads, locks, i + 1, j);
    }
  }

  /** NO DEADLOCK: in no reachable state do threads wait for each other in a circle. */
  lemma NoWaitCycle(events: seq<Event>, threads: seq<Thread>, locks: seq<Lock>)
    requires Runs(START, events)
    requires |locks| >= 1 && |threads| == |locks| + 1
    requires forall k :: 0 <= k < |locks| ==> WaitsFor(After(START, events), threads[k], locks[k], threads[k + 1])
    ensures threads[0] != threads[|locks|]
  {
    RunKeeps(START, events);
    var s, n := After(START, events), |locks|;
    if threads[0] == threads[n] {
      assert WaitsFor(s, threads[0], locks[0], threads[1]) && WaitsFor(s, threads[n - 1], locks[n - 1], threads[n]);
      WantsAboveHeld(s, threads[0], locks[n - 1], locks[0]);
      if n > 1 {
        ChainClimbs(s, threads, locks, 0, n - 1);
      }
      assert false;
    }
  }
}
