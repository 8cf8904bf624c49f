/** One route at a time on the bus. Every worker has a generation; stop, a replacement or its own end
    retires it. Workers and the control calls run concurrently: `slock` makes each guarded send or status
    write one step, and between the steps of one thread any other thread may take its own. */
module Broadcaster {
  import opened LegTracker
  import opened Options

  datatype Kind = Xte | NavData | RouteList(part: nat) | XteTerminated | NavNull

  /** What happened, in order. A worker's frame carries the ages its checks saw just before the send. */
  datatype Event =
    | Sent(g: nat, kind: Kind, fixAge: real, licenceAge: real)
    | ControlSent(kind: Kind)
    | StatusBy(g: nat)
    | Retired(g: nat)
    | Launched(g: nat)

  const FIX_MAX_AGE_S := 10.0
  const ROUTE_EVERY_S := 5.0

  predicate NavOK(kind: Kind, fixAge: real, licenceAge: real) {
    kind.Xte? || kind.NavData? ==> fixAge <= 10.0 && licenceAge < 30.0
  }

  /** "Navigation terminated" and an all-n/a fix, TERMINATE_REPEATS times. */
  const TERMINATION: seq<Event> :=
    [ControlSent(XteTerminated), ControlSent(NavNull), ControlSent(XteTerminated), ControlSent(NavNull),
     ControlSent(XteTerminated), ControlSent(NavNull)]

  /** How a worker that ends itself signs off. */
  function SignOff(g: nat): seq<Event> {
    [Sent(g, XteTerminated, 0.0, 0.0), Sent(g, NavNull, 0.0, 0.0),
     Sent(g, XteTerminated, 0.0, 0.0), Sent(g, NavNull, 0.0, 0.0),
     Sent(g, XteTerminated, 0.0, 0.0), Sent(g, NavNull, 0.0, 0.0), StatusBy(g)]
  }

  /** These events stand at those places of the trace, in order, none before `from`. */
  ghost predicate Placed(trace: seq<Event>, from: nat, at: seq<nat>, events: seq<Event>) {
    && |at| == |events|
    && (forall i :: 0 <= i < |at| ==> from <= at[i] < |trace| && trace[at[i]] == events[i])
    && forall i, j :: 0 <= i < j < |at| ==> at[i] < at[j]
  }

  /** Places hold while the trace grows, and its last event can be placed next. */
  lemma PlacedStays(trace: seq<Event>, more: seq<Event>, from: nat, at: seq<nat>, events: seq<Event>)
    requires Placed(trace, from, at, events) && trace <= more
    ensures Placed(more, from, at, events)
  {
  }

  lemma PlacedNext(trace: seq<Event>, from: nat, at: seq<nat>, events: seq<Event>, e: Event)
    requires Placed(trace, from, at, events) && from <= |trace|
    ensures Placed(trace + [e], from, at + [|trace|], events + [e])
  {
  }

  /** A retired worker is silent: no frame, no status write, never started again. */
  ghost predicate RetiredStaysSilent(trace: seq<Event>) {
    forall i, j :: 0 <= i < j < |trace| && trace[i].Retired? ==>
      !(trace[j].Sent? && trace[j].g == trace[i].g)
      && !(trace[j].StatusBy? && trace[j].g == trace[i].g)
      && !(trace[j].Launched? && trace[j].g == trace[i].g)
  }

  ghost predicate LaunchBetween(trace: seq<Event>, i: int, j: int) {
    exists k :: 0 <= i < k < j <= |trace| && trace[k].Launched?
  }

  /** After any retirement no worker sends anything until one is launched. */
  ghost predicate QuietUntilLaunch(trace: seq<Event>) {
    forall i, j :: 0 <= i < j < |trace| && trace[i].Retired? && trace[j].Sent? ==> LaunchBetween(trace, i, j)
  }

  ghost predicate NavLicensed(trace: seq<Event>) {
    forall i :: 0 <= i < |trace| && trace[i].Sent? ==> NavOK(trace[i].kind, trace[i].fixAge, trace[i].licenceAge)
  }

  ghost predicate TraceOK(trace: seq<Event>) {
    RetiredStaysSilent(trace) && QuietUntilLaunch(trace) && NavLicensed(trace)
  }

  datatype Reason = Expired | CourseChanged | Cleared | Replaced | Error
  datatype Status = Status(broadcasting: bool, navLive: bool, expiresAt: real, ended: Option<Reason>)
  datatype Fix = Fix(at: Point, t: real)

  /** The engine's answer. The course token may be missing (None) or null (Some(None)). */
  datatype Feed = Feed(fix: Option<Fix>, course: Option<Option<int>>, nextMark: Option<int>)
  datatype Body = Body(course: Option<int>, wpts: seq<Waypoint>, destIndex: int)

  /** The engine now reports another course, or none, than the one the route was sent for. */
  predicate OtherCourse(feed: Option<Feed>, body: Body) {
    body.course.Some? && feed.Some? && feed.value.course.Some? && feed.value.course.value != body.course
  }

  /** What the bus takes: the cross-track frame, the navigation frame, and how many route messages. */
  datatype Bus = Bus(xte: bool, nav: bool, route: nat)

  /** What a worker meets in one second: the clock, the engine's feed and its leg check, and the bus. */
  datatype Second = Second(now: real, feed: Option<Feed>, answer: Answer, bus: Bus)

  /** The live frames of one second, the second one only behind the first, and the status after them. */
  function LiveFrames(g: nat, fixAge: real, licenceAge: real, bus: Bus): seq<Event> {
    [Sent(g, Xte, fixAge, licenceAge)] + (if bus.xte then [Sent(g, NavData, fixAge, licenceAge)] else [])
    + [StatusBy(g)]
  }

  /** Why a second ends the route, if it does. */
  function EndOf(s: Second, body: Body, expiresAt: real): Option<Reason> {
    if s.now >= expiresAt then Some(Expired)
    else if body.course.Some? && s.feed.Some? && s.feed.value.course.Some? && s.feed.value.course.value != body.course
    then Some(CourseChanged) else None
  }

  /** The first of these seconds that ends the route does. */
  ghost predicate Ends(seconds: seq<Second>, body: Body, expiresAt: real, ended: Option<Reason>) {
    if ended.None? then forall i :: 0 <= i < |seconds| ==> EndOf(seconds[i], body, expiresAt).None?
    else exists i ::
      && 0 <= i < |seconds| && ended == EndOf(seconds[i], body, expiresAt)
      && forall j :: 0 <= j < i ==> EndOf(seconds[j], body, expiresAt).None?
  }

  /** A fix on the globe, at most ten seconds old and at most five ahead of the clock. */
  predicate GoodFix(feed: Option<Feed>, now: real) {
    && feed.Some? && feed.value.fix.Some?
    && var fix := feed.value.fix.value;
       && -90.0 <= fix.at.lat <= 90.0 && -180.0 <= fix.at.lon <= 180.0
       && now - 10.0 <= fix.t <= now + 5.0
  }

  class Broadcaster {
    var gen: nat
    var stopped: set<nat>                 // workers whose stop event is set
    var thread: Option<nat>
    var alive: set<nat>                   // worker threads that have not exited
    var status: Status
    var course: Option<int>
    ghost var trace: seq<Event>
    ghost var launched: set<nat>

    ghost predicate Valid()
      reads this
    {
      && TraceOK(trace)
      && (forall g :: g in launched ==> g <= gen)
      && alive <= launched && (thread.Some? ==> thread.value in launched)
      && (forall i :: 0 <= i < |trace| && trace[i].Retired? ==> trace[i].g < gen)
      && (forall i :: 0 <= i < |trace| && trace[i].Launched? ==> trace[i].g in launched)
      // a running generation was launched after the last retirement
      && (gen in launched ==> Running(trace))
    }

    static ghost predicate Running(trace: seq<Event>) {
      exists k :: 0 <= k < |trace| && trace[k].Launched? && forall i :: k < i < |trace| ==> !trace[i].Retired?
    }

    constructor ()
      ensures Valid() && trace == [] && gen == 0 && status == Status(false, false, 0.0, None) && course == None
    {
      gen, stopped, thread, alive := 0, {}, None, {};
      status, course := Status(false, false, 0.0, None), None;
      trace, launched := [], {};
    }

    predicate Current(g: nat)
      reads this
    {
      g == gen && g !in stopped
    }

    /** `_send_g`: None when this worker is retired (nothing attempted), else whether frames got out. */
    method SendG(g: nat, kind: Kind, ghost fixAge: real, ghost licenceAge: real, taken: bool)
      returns (sent: Option<bool>)
      requires Valid() && g in launched && NavOK(kind, fixAge, licenceAge)
      modifies this`trace
      ensures Valid() && sent == if Current(g) then Some(taken) else None
      ensures trace == if Current(g) then old(trace) + [Sent(g, kind, fixAge, licenceAge)] else old(trace)
    {
      if !Current(g) {
        return None;
      }
      sent := Some(taken);
      Append(Sent(g, kind, fixAge, licenceAge));
    }

    ghost method Append(e: Event)
      requires Valid() && gen in launched && !e.Retired? && !e.Launched?
      requires (e.Sent? ==> e.g == gen && NavOK(e.kind, e.fixAge, e.licenceAge)) && (e.StatusBy? ==> e.g == gen)
      modifies this`trace
      ensures Valid() && trace == old(trace) + [e]
    {
      var k :| 0 <= k < |trace| && trace[k].Launched? && forall i :: k < i < |trace| ==> !trace[i].Retired?;
      var more := trace + [e];
      forall i, j | 0 <= i < j < |more| && more[i].Retired? && more[j].Sent?
        ensures LaunchBetween(more, i, j)
      {
        if j == |trace| {
          assert i < k && more[k].Launched?;
        } else {
          assert LaunchBetween(trace, i, j);
          var m :| 0 <= i < m < j <= |trace| && trace[m].Launched?;
          assert more[m].Launched?;
        }
      }
      trace := more;
      assert trace[k].Launched?;
    }

    /** `_set`: a status write of this worker, only while it is the current one. */
    method SetStatus(g: nat, s: Status)
      requires Valid() && g in launched
      modifies this`status, this`trace
      ensures Valid()
      ensures g != gen ==> status == old(status) && trace == old(trace)
      ensures g == gen ==> status == s && trace == old(trace) + [StatusBy(g)]
    {
      if g == gen {
        status := s;
        Append(StatusBy(g));
      }
    }

    // ---- other threads' turns ------------------------------------------------------------------------

    /** Any steps of any workers: guarded sends, status writes, exits. Retired ones change nothing. */
    method Workers()
      requires Valid()
      modifies this`trace, this`status, this`alive
      ensures Valid() && old(trace) <= trace && alive <= old(alive)
      ensures gen !in launched ==> trace == old(trace) && status == old(status)
    {
      var steps :| 0 <= steps;
      for i := 0 to steps
        invariant Valid() && old(trace) <= trace && alive <= old(alive)
        invariant gen !in launched ==> trace == old(trace) && status == old(status)
      {
        var g: nat := *;
        if g in alive {
          if * {
            var kind: Kind := *;
            var fixAge: real, licenceAge: real := *, *;
            var taken: bool := *;
            if NavOK(kind, fixAge, licenceAge) {
              var _ := SendG(g, kind, fixAge, licenceAge, taken);
            }
          } else if * {
            var s: Status := *;
            SetStatus(g, s);
          } else {
            alive := alive - {g};
          }
        }
      }
    }

    // ---- control: one start or stop at a time ----------------------------------------------------------

    /** Under `slock`: from here the current worker cannot send. */
    method Retire(reason: Reason) returns (active: bool)
      requires Valid()
      modifies this`gen, this`stopped, this`status, this`trace
      ensures Valid() && gen == old(gen) + 1 && gen !in launched && stopped == old(stopped) + {old(gen)}
      ensures trace == old(trace) + [Retired(old(gen))]
      ensures active <==> old(thread.Some? && thread.value in alive && status.broadcasting)
      ensures status == if active then old(status).(broadcasting := false, navLive := false, ended := Some(reason))
                        else old(status)
    {
      active := thread.Some? && thread.value in alive && status.broadcasting;
      ghost var more := trace + [Event.Retired(gen)];
      RetireKeeps();
      stopped := stopped + {gen};
      gen := gen + 1;
      trace := more;
      if active {
        status := status.(broadcasting := false, navLive := false, ended := Some(reason));
      }
    }

    lemma RetireKeeps()
      requires Valid()
      ensures TraceOK(trace + [Event.Retired(gen)])
    {
      var more := trace + [Event.Retired(gen)];
      forall i, j | 0 <= i < j < |more| && more[i].Retired? && more[j].Sent?
        ensures LaunchBetween(more, i, j)
      {
        assert LaunchBetween(trace, i, j);
        var m :| 0 <= i < m < j <= |trace| && trace[m].Launched?;
        assert more[m].Launched?;
      }
    }

    /** A control send: not a worker's, so no generation gates it. */
    ghost method ControlSend(kind: Kind)
      requires Valid() && gen !in launched
      modifies this`trace
      ensures Valid() && trace == old(trace) + [ControlSent(kind)]
    {
      var more := trace + [ControlSent(kind)];
      forall i, j | 0 <= i < j < |more| && more[i].Retired? && more[j].Sent?
        ensures LaunchBetween(more, i, j)
      {
        assert LaunchBetween(trace, i, j);
        var m :| 0 <= i < m < j <= |trace| && trace[m].Launched?;
        assert more[m].Launched?;
      }
      trace := more;
    }

    /** The termination messages, with the workers running in between; none of them gets a word in. */
    method Terminate()
      requires Valid() && gen !in launched
      modifies this`trace, this`status, this`alive
      ensures Valid() && status == old(status) && alive <= old(alive)
      ensures trace == old(trace) + TERMINATION
    {
      for k := 0 to 3
        invariant Valid() && gen !in launched && status == old(status) && alive <= old(alive)
        invariant trace == old(trace) + TERMINATION[..2 * k]
      {
        ControlSend(XteTerminated);
        Workers();
        ControlSend(NavNull);
        Workers();
        assert TERMINATION[..2 * (k + 1)] == TERMINATION[..2 * k] + [ControlSent(XteTerminated), ControlSent(NavNull)];
      }
      assert TERMINATION[..6] == TERMINATION;
    }

    /** Retire the worker, say "terminated" if it was navigating, wait for it to exit (not for ever). */
    method EndLocked(reason: Reason) returns (exited: bool)
      requires Valid()
      modifies this
      ensures Valid() && gen == old(gen) + 1 && gen !in launched && course == old(course)
      ensures trace == old(trace) + [Retired(old(gen))]
                       + (if old(thread.Some? && thread.value in alive && status.broadcasting) then TERMINATION else [])
      ensures status == if old(thread.Some? && thread.value in alive && status.broadcasting)
                        then old(status).(broadcasting := false, navLive := false, ended := Some(reason))
                        else old(status)
      ensures exited ==> thread == None && (old(thread).Some? ==> old(thread).value !in alive)
      ensures !exited ==> thread == old(thread) && thread.Some? && thread.value in alive
      ensures alive <= old(alive) && launched == old(launched)
    {
      var active := Retire(reason);
      if active {
        Terminate();
      }
      Workers();                              // join: they may finish meanwhile
      if thread.Some? && thread.value in alive {
        return false;
      }
      thread := None;
      exited := true;
    }

    /** `stop`. A course change's stop leaves alone a route already sent for the new course. */
    method Stop(reason: Reason, keepCourse: Option<int>) returns (exited: bool)
      requires Valid()
      modifies this
      ensures Valid() && old(trace) <= trace && launched == old(launched)
      ensures keepCourse.Some? && old(course) == keepCourse ==>
                exited && trace == old(trace) && status == old(status)
                && gen == old(gen) && stopped == old(stopped)
      // on an active route: silence, and the last navigation frames attempted say "terminated"
      ensures !(keepCourse.Some? && old(course) == keepCourse) ==>
                gen !in launched && gen > old(gen)
                && trace == old(trace) + [Retired(old(gen))]
                            + (if old(thread.Some? && thread.value in alive && status.broadcasting) then TERMINATION
                               else [])
    {
      if keepCourse.Some? && course == keepCourse {
        return true;
      }
      exited := EndLocked(reason);
    }

    /** `start`: only once the old worker has exited. */
    method Start(body: Body, now: real, ttl: real) returns (g: Option<nat>)
      requires Valid()
      modifies this
      ensures Valid() && old(trace) <= trace && old(launched) <= launched
      ensures gen > old(gen)
      // StuckWorker: nothing was started, and the old worker still runs
      ensures g.None? ==> gen !in launched && old(thread).Some? && old(thread).value in alive
      ensures g.Some? ==> g.value == gen && Current(gen) && gen in launched && gen in alive
                          && status == Status(true, false, now + ttl, None) && course == body.course
                          && (old(thread).Some? ==> old(thread).value !in alive)
    {
      var exited := EndLocked(Replaced);
      if !exited {
        return None;
      }
      Launch();
      course, status := body.course, Status(true, false, now + ttl, None);
      g := Some(gen);
    }

    method Launch()
      requires Valid() && gen !in launched && thread == None
      modifies this`gen, this`stopped, this`thread, this`alive, this`launched, this`trace
      ensures Valid() && gen == old(gen) + 1 && Current(gen) && gen in launched && thread == Some(gen)
      ensures alive == old(alive) + {gen} && old(trace) < trace && launched == old(launched) + {gen}
    {
      gen := gen + 1;
      stopped := stopped - {gen};             // a fresh event
      thread, alive := Some(gen), alive + {gen};
      ghost var more := trace + [Event.Launched(gen)];
      forall i, j | 0 <= i < j < |more| && more[i].Retired? && more[j].Sent?
        ensures LaunchBetween(more, i, j)
      {
        assert LaunchBetween(trace, i, j);
        var m :| 0 <= i < m < j <= |trace| && trace[m].Launched?;
        assert more[m].Launched?;
      }
      trace, launched := more, launched + {gen};
      assert trace[|trace| - 1].Launched?;
    }

    /** Everything else that can happen while one worker waits: other workers, starts, stops. When calm,
        nothing does. */
    method Everyone(calm: bool)
      requires Valid()
      modifies this
      ensures Valid() && old(trace) <= trace && old(launched) <= launched
      ensures gen >= old(gen) && (gen == old(gen) ==> stopped == old(stopped))
      ensures calm ==> trace == old(trace) && status == old(status) && gen == old(gen)
    {
      if calm { return; }
      var steps :| 0 <= steps;
      for i := 0 to steps
        invariant Valid() && old(trace) <= trace && old(launched) <= launched
        invariant gen >= old(gen) && (gen == old(gen) ==> stopped == old(stopped))
      {
        if * {
          Workers();
        } else if * {
          var keep: Option<int> := *;
          var _ := Stop(Cleared, keep);
        } else {
          var body: Body := *;
          var now: real, ttl: real := *, *;
          var _ := Start(body, now, ttl);
        }
      }
    }

    // ---- one worker ------------------------------------------------------------------------------------

    static function FreshFix(feed: Option<Feed>, now: real): (fix: Option<Fix>)
      ensures fix.Some? <==> GoodFix(feed, now)
      ensures fix.Some? ==> fix == feed.value.fix
    {
      if feed.None? || feed.value.fix.None? then None
      else
        var fix := feed.value.fix.value;
        if fix.at.lat < -90.0 || fix.at.lat > 90.0 || fix.at.lon < -180.0 || fix.at.lon > 180.0 then None
        else if now - fix.t > FIX_MAX_AGE_S || fix.t - now > 5.0 then None
        else Some(fix)
    }

    /** Read the clock; it runs on while others do. When calm it has not moved. */
    method Clock(after: real, calm: bool) returns (now: real)
      ensures now >= after && (calm ==> now == after)
    {
      var d: real := *;
      now := after + if d >= 0.0 && !calm then d else 0.0;
    }

    /** One broadcast second of worker g. Live frames go out only for an approved leg and a fix that is
        still fresh when each frame is about to be sent, and when calm they do. */
    method Cycle(g: nat, body: Body, tracker: LegTracker, s: Second, calm: bool)
      returns (ended: Option<Reason>, now: real)
      requires Valid() && tracker.Valid() && g in launched
      modifies this, tracker
      ensures Valid() && tracker.Valid() && old(trace) <= trace && old(launched) <= launched && now >= s.now
      ensures tracker.di <= old(tracker.di) + 1 && old(tracker.di) <= tracker.di
      ensures !old(Current(g)) ==> tracker.di == old(tracker.di)
      ensures ended.Some? ==>
                || (ended == Some(Expired) && now >= old(status).expiresAt && trace == old(trace))
                || ended == Some(CourseChanged)
      // the engine names another course than the route was sent for, or says that there is none
      ensures ended != Some(Expired) ==>
                (ended == Some(CourseChanged) <==>
                 && body.course.Some? && s.feed.Some? && s.feed.value.course.Some?
                 && s.feed.value.course.value != body.course)
      ensures ended != Some(Expired) ==> old(status).expiresAt > s.now
      ensures gen >= old(gen) && (gen == old(gen) ==> stopped == old(stopped))
      // nothing else running, the clock standing: the frames for a good fix on a cleared leg, as the bus takes them
      ensures calm ==> gen == old(gen) && now == s.now
      ensures calm && ended.Some? ==> trace == old(trace) && status == old(status)
      ensures calm && Current(g) && ended.None? && !GoodFix(s.feed, s.now) ==>
                trace == old(trace) + [StatusBy(g)] && status == old(status).(navLive := false)
      ensures calm && Current(g) && ended.None? && GoodFix(s.feed, s.now) ==>
                var t := s.feed.value.fix.value.t;
                && Answered(old(tracker.blocked), old(tracker.retryAt), t, s.answer, tracker.blocked)
                && tracker.licence.Some?
                && trace == old(trace) + (if tracker.blocked then [StatusBy(g)]
                                          else LiveFrames(g, s.now - t, t - tracker.licence.value.at, s.bus))
                && status == old(status).(navLive := !tracker.blocked && s.bus.xte && s.bus.nav)
    {
      now := Clock(s.now, calm);
      if now >= status.expiresAt {
        return Some(Expired), now;
      }
      Everyone(calm);                                        // the engine's fix feed, over HTTP
      if OtherCourse(s.feed, body) {
        return Some(CourseChanged), now;
      }
      var fix := FreshFix(s.feed, now);
      if fix.None? {
        SetStatus(g, status.(navLive := false));
        return None, now;
      }
      now := Navigate(g, fix.value, s.feed.value.nextMark, tracker, now, s.answer, s.bus, calm);
      ended := None;
    }

    /** An explicit True that may be asked for shows the leg; a refused leg stays refused without one. */
    static predicate Answered(was: bool, retryAt: real, t: real, answer: Answer, blocked: bool) {
      && (answer == Some(true) && (!was || t >= retryAt) ==> !blocked)
      && (was && answer != Some(true) ==> blocked)
    }

    /** A cycle with a good fix. */
    method Navigate(g: nat, fix: Fix, nextMark: Option<int>, tracker: LegTracker, started: real, answer: Answer,
                    bus: Bus, calm: bool)
      returns (now: real)
      requires Valid() && tracker.Valid() && g in launched
      modifies this, tracker
      ensures Valid() && tracker.Valid() && old(trace) <= trace && old(launched) <= launched && now >= started
      ensures tracker.di <= old(tracker.di) + 1 && old(tracker.di) <= tracker.di && tracker.licence.Some?
      ensures !old(Current(g)) ==> tracker.di == old(tracker.di)
      ensures gen >= old(gen) && (gen == old(gen) ==> stopped == old(stopped))
      ensures calm ==> gen == old(gen) && now == started
      ensures calm && Current(g) ==>
                Answered(old(tracker.blocked), old(tracker.retryAt), fix.t, answer, tracker.blocked)
      ensures calm && Current(g) && (tracker.blocked || started - fix.t > 10.0) ==>
                trace == old(trace) + [StatusBy(g)] && status == old(status).(navLive := false)
      ensures calm && Current(g) && !tracker.blocked && started - fix.t <= 10.0 ==>
                && trace == old(trace) + LiveFrames(g, started - fix.t, fix.t - tracker.licence.value.at, bus)
                && status == old(status).(navLive := bus.xte && bus.nav)
    {
      now := started;
      // retired while waiting: approve nothing
      var approved := if Current(g) then answer else Some(false);
      Everyone(calm);                                        // the leg check, if one is due
      var nav := tracker.Update(fix.at, fix.t, Some(approved), nextMark);
      if !Current(g) {
        return;
      }
      if nav.blocked {
        SetStatus(g, status.(navLive := false));
        return;
      }
      now := SendNav(g, fix.t, fix.t - tracker.licence.value.at, now, bus, calm);
    }

    /** The two live frames, each behind its own fresh-fix check. */
    method SendNav(g: nat, t: real, ghost licenceAge: real, started: real, bus: Bus, calm: bool) returns (now: real)
      requires Valid() && g in launched && licenceAge < 30.0
      modifies this
      ensures Valid() && old(trace) <= trace && old(launched) <= launched && now >= started
      ensures gen >= old(gen) && (gen == old(gen) ==> stopped == old(stopped))
      ensures calm ==> gen == old(gen) && now == started
      ensures calm && Current(g) && started - t > 10.0 ==>
                trace == old(trace) + [StatusBy(g)] && status == old(status).(navLive := false)
      ensures calm && Current(g) && started - t <= 10.0 ==>
                && trace == old(trace) + LiveFrames(g, started - t, licenceAge, bus)
                && status == old(status).(navLive := bus.xte && bus.nav)
    {
      now := Clock(started, calm);
      if now - t > FIX_MAX_AGE_S {
        SetStatus(g, status.(navLive := false));
        return;
      }
      var live;
      live, now := SendBoth(g, t, licenceAge, now, bus, calm);
      Everyone(calm);
      SetStatus(g, status.(navLive := live));
    }

    /** The first of them, and the second if the bus took it. */
    method SendBoth(g: nat, t: real, ghost licenceAge: real, started: real, bus: Bus, calm: bool)
      returns (live: bool, now: real)
      requires Valid() && g in launched && licenceAge < 30.0 && started - t <= 10.0
      modifies this
      ensures Valid() && old(trace) <= trace && old(launched) <= launched && now >= started
      ensures gen >= old(gen) && (gen == old(gen) ==> stopped == old(stopped))
      ensures calm ==> gen == old(gen) && now == started && status == old(status)
      ensures calm && Current(g) ==>
                && live == (bus.xte && bus.nav)
                && trace + [StatusBy(g)] == old(trace) + LiveFrames(g, started - t, licenceAge, bus)
    {
      live, now := false, started;
      var sent := SendG(g, Xte, now - t, licenceAge, bus.xte);
      Everyone(calm);
      if sent == Some(true) {
        live, now := SendSecond(g, t, licenceAge, now, bus.nav, calm);
      }
    }

    /** The second one. */
    method SendSecond(g: nat, t: real, ghost licenceAge: real, started: real, taken: bool, calm: bool)
      returns (live: bool, now: real)
      requires Valid() && g in launched && licenceAge < 30.0
      modifies this`trace
      ensures Valid() && old(trace) <= trace && now >= started && (calm ==> now == started)
      ensures calm && Current(g) && started - t <= 10.0 ==>
                trace == old(trace) + [Sent(g, NavData, started - t, licenceAge)] && live == taken
    {
      now := Clock(started, calm);
      live := false;
      if now - t <= FIX_MAX_AGE_S {
        var sent := SendG(g, NavData, now - t, licenceAge, taken);
        live := sent == Some(true);
      }
    }

    /** The first `n` of the route's messages. */
    static function RouteFrames(g: nat, n: nat): seq<Event> {
      seq(n, k requires 0 <= k => Sent(g, RouteList(k), 0.0, 0.0))
    }

    /** How many are tried: up to the first that the bus does not take. */
    static function Tried(parts: nat, taken: nat): nat { if parts <= taken then parts else taken + 1 }

    /** The route's messages, until one does not go out. */
    method SendRoute(g: nat, parts: nat, taken: nat, calm: bool)
      requires Valid() && g in launched
      modifies this
      ensures Valid() && old(trace) <= trace && old(launched) <= launched
      ensures gen >= old(gen) && (gen == old(gen) ==> stopped == old(stopped))
      ensures calm ==> gen == old(gen) && status == old(status)
      ensures calm && Current(g) ==> trace == old(trace) + RouteFrames(g, Tried(parts, taken))
    {
      for part := 0 to parts
        invariant Valid() && old(trace) <= trace && old(launched) <= launched
        invariant gen >= old(gen) && (gen == old(gen) ==> stopped == old(stopped))
        invariant calm ==> gen == old(gen) && status == old(status)
        invariant calm && Current(g) ==> part <= taken && trace == old(trace) + RouteFrames(g, part)
      {
        var sent := SendG(g, RouteList(part), 0.0, 0.0, part < taken);
        assert RouteFrames(g, part + 1) == RouteFrames(g, part) + [Sent(g, RouteList(part), 0.0, 0.0)];
        if sent != Some(true) {
          return;
        }
        Everyone(calm);
      }
    }

    /** The whole route again, five seconds after it was last begun. */
    method RouteIfDue(g: nat, parts: nat, now: real, was: real, taken: nat, calm: bool) returns (lastRoute: real)
      requires Valid() && g in launched
      modifies this
      ensures Valid() && old(trace) <= trace && old(launched) <= launched
      ensures gen >= old(gen) && (gen == old(gen) ==> stopped == old(stopped))
      ensures calm ==> gen == old(gen) && status == old(status)
      ensures lastRoute == if now < was + 5.0 then was else now
      ensures now < was + 5.0 ==> trace == old(trace)
      ensures calm && Current(g) && now >= was + 5.0 ==> trace == old(trace) + RouteFrames(g, Tried(parts, taken))
    {
      lastRoute := was;
      if now - lastRoute >= ROUTE_EVERY_S {
        lastRoute := now;
        SendRoute(g, parts, taken, calm);
      }
    }

    /** One turn of the worker's loop: a cycle, the route if it is due, and the wait. */
    method OneSecond(g: nat, body: Body, tracker: LegTracker, s: Second, parts: nat, was: real, calm: bool)
      returns (ended: Option<Reason>, lastRoute: real, ghost cycled: seq<Event>)
      requires Valid() && tracker.Valid() && g in launched
      modifies this, tracker
      ensures Valid() && tracker.Valid() && old(trace) <= trace && g in launched
      ensures gen >= old(gen) && (gen == old(gen) ==> stopped == old(stopped))
      ensures calm ==> gen == old(gen) && ended != Some(Error)
      ensures calm && Current(g) ==>
                && ended == EndOf(s, body, old(status).expiresAt) && status.expiresAt == old(status).expiresAt
                && (ended.Some? ==> trace == old(trace))
      // the route goes after the frames of the cycle, exactly when five seconds have passed since it last began
      ensures calm && Current(g) && ended.None? ==>
                && lastRoute == (if s.now < was + 5.0 then was else s.now)
                && old(trace) <= cycled
                && trace == cycled + (if s.now < was + 5.0 then [] else RouteFrames(g, Tried(parts, s.bus.route)))
    {
      lastRoute, cycled := was, trace;
      var bug: bool := *;
      if bug && !calm {
        SetStatus(g, status);
        return Some(Error), was, trace;
      }
      var now;
      ended, now := Cycle(g, body, tracker, s, calm);
      cycled := trace;
      if ended.Some? {
        return;
      }
      now := Clock(now, calm);
      lastRoute := RouteIfDue(g, parts, now, was, s.bus.route, calm);
      Everyone(calm);                                        // the wait for the next second
    }

    /** The worker thread: cycles until it is retired or ends itself; then, still gated, "terminated". */
    method Run(g: nat, body: Body, tracker: LegTracker, seconds: seq<Second>, parts: nat, calm: bool)
      returns (ended: Option<Reason>, ghost at: seq<nat>)
      requires Valid() && tracker.Valid() && g in launched
      modifies this, tracker
      ensures Valid() && old(trace) <= trace
      // with nothing else running it ends itself at the first expiry or course change, and not before
      ensures calm && old(Current(g)) ==> Current(g) && Ends(seconds, body, old(status).expiresAt, ended)
      ensures !old(Current(g)) ==> ended.None? && trace == old(trace)
      // one that ended itself, and was not retired meanwhile, signed off and says why
      ensures ended.Some? && Current(g) ==>
                && Placed(trace, old(|trace|), at, SignOff(g))
                && !status.broadcasting && !status.navLive && status.ended == ended
    {
      ended := Cycles(g, body, tracker, seconds, parts, calm);
      at := [];
      if ended.Some? && Current(g) {
        at := Close(g, ended.value, calm);
      }
    }

    method Cycles(g: nat, body: Body, tracker: LegTracker, seconds: seq<Second>, parts: nat, calm: bool)
      returns (ended: Option<Reason>)
      requires Valid() && tracker.Valid() && g in launched
      modifies this, tracker
      ensures Valid() && tracker.Valid() && old(trace) <= trace && g in launched
      ensures gen >= old(gen) && (gen == old(gen) ==> stopped == old(stopped))
      ensures calm && old(Current(g)) ==> Current(g) && Ends(seconds, body, old(status).expiresAt, ended)
      // a retired worker does nothing more
      ensures !old(Current(g)) ==> ended.None? && trace == old(trace) && tracker.di == old(tracker.di)
    {
      var lastRoute := 0.0;
      ended := None;
      for i := 0 to |seconds|
        invariant Valid() && tracker.Valid() && g in launched && old(trace) <= trace && ended.None?
        invariant gen >= old(gen) && (gen == old(gen) ==> stopped == old(stopped))
        invariant calm ==> gen == old(gen)
        invariant calm && old(Current(g)) ==> status.expiresAt == old(status).expiresAt
        invariant calm && old(Current(g)) ==>
                    forall j :: 0 <= j < i ==> EndOf(seconds[j], body, old(status).expiresAt).None?
        invariant !old(Current(g)) ==> trace == old(trace) && tracker.di == old(tracker.di)
      {
        if !Current(g) {
          return;
        }
        ghost var cycled;
        ended, lastRoute, cycled := OneSecond(g, body, tracker, seconds[i], parts, lastRoute, calm);
        if ended.Some? {
          return;
        }
      }
    }

    /** "Terminated", three times over, stopping when this worker is retired; then the status. */
    method Close(g: nat, reason: Reason, calm: bool) returns (ghost at: seq<nat>)
      requires Valid() && g in launched
      modifies this
      ensures Valid() && old(trace) <= trace
      ensures calm ==> gen == old(gen) && stopped == old(stopped)
      ensures Current(g) ==>
                && Placed(trace, old(|trace|), at, SignOff(g))
                && !status.broadcasting && !status.navLive && status.ended == Some(reason)
    {
      at := [];
      for k := 0 to 3
        invariant Valid() && g in launched && old(trace) <= trace
        invariant calm ==> gen == old(gen) && stopped == old(stopped)
        invariant Placed(trace, old(|trace|), at, SignOff(g)[..2 * k])
      {
        var a;
        a, at := CloseOne(g, XteTerminated, calm, old(|trace|), at, SignOff(g)[..2 * k]);
        if a.None? {
          SetStatus(g, status.(broadcasting := false, navLive := false, ended := Some(reason)));
          return;
        }
        var b;
        b, at := CloseOne(g, NavNull, calm, old(|trace|), at,
                          SignOff(g)[..2 * k] + [Sent(g, XteTerminated, 0.0, 0.0)]);
        if b.None? {
          SetStatus(g, status.(broadcasting := false, navLive := false, ended := Some(reason)));
          return;
        }
        assert SignOff(g)[..2 * (k + 1)] == SignOff(g)[..2 * k] + [Sent(g, XteTerminated, 0.0, 0.0)]
                                            + [Sent(g, NavNull, 0.0, 0.0)];
      }
      ghost var before := trace;
      SetStatus(g, status.(broadcasting := false, navLive := false, ended := Some(reason)));
      if Current(g) {
        PlacedNext(before, old(|trace|), at, SignOff(g)[..6], StatusBy(g));
        assert SignOff(g) == SignOff(g)[..6] + [StatusBy(g)];
        at := at + [|before|];
      }
    }

    /** One of those frames, while others run. */
    method CloseOne(g: nat, kind: Kind, calm: bool, ghost from: nat, ghost at: seq<nat>, ghost events: seq<Event>)
      returns (sent: Option<bool>, ghost more: seq<nat>)
      requires Valid() && g in launched && !kind.Xte? && !kind.NavData?
      requires from <= |trace| && Placed(trace, from, at, events)
      modifies this
      ensures Valid() && old(trace) <= trace && old(launched) <= launched
      ensures sent.None? ==> !Current(g)
      ensures calm ==> gen == old(gen) && stopped == old(stopped)
      ensures sent.Some? ==> Placed(trace, from, more, events + [Sent(g, kind, 0.0, 0.0)])
    {
      ghost var before := trace;
      var taken: bool := *;
      sent := SendG(g, kind, 0.0, 0.0, taken);
      more := at;
      if sent.None? {
        return;
      }
      more := at + [|before|];
      PlacedNext(before, from, at, events, Sent(g, kind, 0.0, 0.0));
      ghost var after := trace;
      Everyone(calm);
      PlacedStays(after, trace, from, more, events + [Sent(g, kind, 0.0, 0.0)]);
    }
  }
}
