/** Which waypoint is active, and under what licence the leg to it is shown. Great-circle geometry is a
    parameter: a distance and a turn-line test. */
module LegTracker {
  import opened Options

  datatype Point = Point(lat: real, lon: real)
  datatype Geometry = Geometry(dist: (Point, Point) -> real,
                               passed: (Point, Point, Option<Point>, Point) -> bool)

  datatype Waypoint = Waypoint(at: Point, mark: bool, markIdx: Option<int>)

  /** The engine's answer to a leg check: only an explicit True approves. */
  type Answer = Option<bool>

  /** The check the current leg is shown on: which leg, and when in fix time. */
  datatype Licence = Licence(leg: nat, at: real)

  datatype Nav = Nav(leg: nat, originIndex: nat, dtw: real, arrived: bool, perpCrossed: bool,
                     closing: Option<real>, eta: Option<real>, blocked: bool)

  const ETA_WINDOW_S := 120.0
  const ETA_MIN_SPAN_S := 20.0
  const MIN_CLOSING_MPS := 0.25
  const RECHECK_S := 30.0
  const RETRY_S := 5.0

  class LegTracker {
    const wpts: seq<Waypoint>
    const geo: Geometry
    const arriveM: real
    var di: nat
    var origin: Option<Point>
    var blocked: bool
    var checkedAt: Option<real>
    var retryAt: real
    var hist: seq<(real, real)>
    var advances: nat
    ghost var licence: Option<Licence>

    ghost predicate Valid()
      reads this
    {
      && wpts != [] && di < |wpts|
      && (checkedAt.Some? <==> licence.Some?)
      && (licence.Some? ==> licence.value == Licence(di, checkedAt.value))
      && (di > 0 ==> origin.Some?)
    }

    constructor (wpts: seq<Waypoint>, destIndex: int, geo: Geometry, arriveM: real)
      requires wpts != []
      ensures Valid() && this.wpts == wpts && this.geo == geo && licence.None? && !blocked
      ensures di == if destIndex < 0 then 0 else if destIndex >= |wpts| then |wpts| - 1 else destIndex
      ensures origin == (if destIndex <= 0 || |wpts| == 1 then None else Some(wpts[di - 1].at))
      ensures this.arriveM == arriveM && hist == [] && advances == 0
    {
      this.wpts, this.geo, this.arriveM := wpts, geo, arriveM;
      var start := if destIndex < 0 then 0 else if destIndex >= |wpts| then |wpts| - 1 else destIndex;
      di := start;
      origin := if start > 0 then Some(wpts[start - 1].at) else None;
      blocked, checkedAt, retryAt, hist, advances, licence := false, None, 0.0, [], 0, None;
    }

    /** Inside the arrival radius of the active waypoint. */
    predicate Arriving(p: Point)
      requires di < |wpts|
      reads this
    {
      geo.dist(p, wpts[di].at) <= arriveM
    }

    /** The engine's navigator is past this mark of the course. */
    predicate Rounded(nextMark: Option<int>)
      requires di < |wpts|
      reads this
    {
      wpts[di].markIdx.Some? && nextMark.Some? && nextMark.value > wpts[di].markIdx.value
    }

    /** Has the boat attained the active waypoint? A course mark never counts on its turn line alone. */
    predicate Due(p: Point, nextMark: Option<int>)
      requires di + 1 < |wpts| && origin.Some?
      reads this
    {
      || Arriving(p)
      || (if wpts[di].mark then Rounded(nextMark)
          else geo.passed(origin.value, wpts[di].at, Some(wpts[di + 1].at), p))
    }

    /** Record the engine's answer about one leg. */
    method Ask(answer: Answer, leg: nat, t: real) returns (ok: bool)
      modifies this`blocked, this`checkedAt, this`retryAt, this`licence
      ensures ok <==> answer == Some(true)
      ensures blocked == !ok
      ensures ok ==> checkedAt == Some(t) && licence == Some(Licence(leg, t))
      ensures !ok ==> checkedAt == old(checkedAt) && licence == old(licence) && retryAt == t + 5.0
    {
      ok := answer == Some(true);
      blocked := !ok;
      if ok {
        checkedAt, licence := Some(t), Some(Licence(leg, t));
      } else {
        retryAt := t + RETRY_S;
      }
    }

    /** Nothing about the route or its licence changed. */
    twostate predicate SameLeg()
      reads this
    {
      di == old(di) && origin == old(origin) && hist == old(hist) && advances == old(advances)
    }

    /** At most one advance, on one engine approval. `engine` None: no engine to ask. */
    method Advance(p: Point, t: real, engine: Option<Answer>, nextMark: Option<int>) returns (step: Step)
      requires Valid() && origin.Some? && checkedAt.Some?
      modifies this
      ensures Valid() && origin.Some? && checkedAt.Some?
      ensures step.NotDue? ==>
              SameLeg() && blocked == old(blocked) && checkedAt == old(checkedAt) && retryAt == old(retryAt)
                               && licence == old(licence)
      ensures step.NotDue? <==> !(old(di) + 1 < |wpts| && old(Due(p, nextMark)))
      ensures step.Pending? ==> SameLeg() && engine.Some? && blocked && licence == old(licence)
      ensures step.Pending? ==> if old(blocked) && t < old(retryAt) then retryAt == old(retryAt)
                                else engine != Some(Some(true)) && retryAt == t + RETRY_S
      ensures step.Advanced? && engine.Some? ==> !old(blocked) || t >= old(retryAt)
      ensures step.Advanced? ==> di == old(di) + 1 && origin == Some(wpts[old(di)].at) && hist == []
                                 && advances == old(advances) + 1
      ensures step.Advanced? && engine.Some? ==>
              engine == Some(Some(true)) && !blocked && licence == Some(Licence(di, t))
      ensures step.Advanced? && engine.None? ==>
              blocked == old(blocked) && licence == Some(Licence(di, old(checkedAt).value))
    {
      if di + 1 >= |wpts| || !Due(p, nextMark) {
        return NotDue;
      }
      if engine.Some? {
        if blocked && t < retryAt {
          return Pending;
        }
        var ok := Ask(engine.value, di + 1, t);
        if !ok {
          return Pending;
        }
      } else {
        licence := Some(Licence(di + 1, checkedAt.value));
      }
      origin := Some(wpts[di].at);
      di := di + 1;
      hist := [];
      advances := advances + 1;
      step := Advanced;
    }

    /** The current leg's own check: a refused one again after RETRY_S, a good one after RECHECK_S. */
    method Recheck(answer: Answer, t: real)
      requires Valid() && checkedAt.Some?
      modifies this`blocked, this`checkedAt, this`retryAt, this`licence
      ensures Valid() && checkedAt.Some?
      ensures !blocked ==> t < checkedAt.value + RECHECK_S
      ensures licence == old(licence) || (answer == Some(true) && licence == Some(Licence(di, t)))
      // a refused leg is asked about again only after its five seconds, a good one only after thirty
      ensures (if old(blocked) then t < old(retryAt) else t < old(checkedAt).value + 30.0) ==>
                blocked == old(blocked) && checkedAt == old(checkedAt) && retryAt == old(retryAt)
                && licence == old(licence)
      ensures (if old(blocked) then t >= old(retryAt) else t >= old(checkedAt).value + 30.0) ==>
                if answer == Some(true) then !blocked && checkedAt == Some(t) && licence == Some(Licence(di, t))
                else blocked && checkedAt == old(checkedAt) && retryAt == t + 5.0
    {
      if blocked {
        if t >= retryAt {
          var _ := Ask(answer, di, t);
        }
      } else if t - checkedAt.value >= RECHECK_S {
        var _ := Ask(answer, di, t);
      }
    }

    static ghost predicate LastPart(all: seq<(real, real)>, part: seq<(real, real)>, t: real) {
      exists k :: 0 <= k <= |all| && part == all[k..] && forall j :: 0 <= j < k ==> t - all[j].0 > 120.0
    }

    /** The distance history of this leg, and from it the closing rate and the ETA. */
    method Measure(t: real, dtw: real) returns (closing: Option<real>, eta: Option<real>)
      modifies this`hist
      // the two minutes up to now, and nothing younger dropped
      ensures hist != [] && hist[|hist| - 1] == (t, dtw) && t - hist[0].0 <= 120.0
      ensures LastPart(old(hist) + [(t, dtw)], hist, t)
      ensures closing.Some? <==> t - hist[0].0 >= 20.0
      ensures closing.Some? ==> closing.value * (t - hist[0].0) == hist[0].1 - dtw
      ensures eta.Some? <==> closing.Some? && closing.value >= 0.25
      ensures eta.Some? ==> eta.value == t + dtw / closing.value
    {
      hist := hist + [(t, dtw)];
      ghost var all, k := hist, 0;
      while hist != [] && t - hist[0].0 > ETA_WINDOW_S
        invariant 0 <= k < |all| && hist == all[k..] && all[|all| - 1] == (t, dtw)
        invariant forall j :: 0 <= j < k ==> t - all[j].0 > ETA_WINDOW_S
        decreases |hist|
      {
        hist, k := hist[1..], k + 1;
      }
      closing, eta := None, None;
      if t - hist[0].0 >= ETA_MIN_SPAN_S {
        var rate := (hist[0].1 - dtw) / (t - hist[0].0);
        closing := Some(rate);
        if rate >= MIN_CLOSING_MPS {
          eta := Some(t + dtw / rate);
        }
      }
    }

    /** One fix. With an engine, an unblocked result is for a leg the engine approved under RECHECK_S ago
        in fix time (the send-time check covers the first leg). */
    method Update(p: Point, t: real, engine: Option<Answer>, nextMark: Option<int>) returns (nav: Nav)
      requires Valid()
      modifies this
      ensures Valid() && licence.Some? && nav.leg == di && nav.blocked == blocked
      // forward, at most one leg, never past the last waypoint
      ensures old(di) <= di <= old(di) + 1 && di < |wpts|
      // only on an explicit True
      ensures di == old(di) + 1 && engine.Some? ==> engine == Some(Some(true)) && licence.value == Licence(di, t)
      // and with a reason: inside the radius; or, for a course mark, with the navigator past it (never on its turn
      // line alone); or, for another point, past its turn line
      ensures var b := wpts[old(di)];
        di == old(di) + 1 ==>
          || geo.dist(p, b.at) <= arriveM
          || (b.mark && b.markIdx.Some? && nextMark.Some? && b.markIdx.value < nextMark.value)
          || (!b.mark && geo.passed(if old(origin).Some? then old(origin).value else p, b.at, Some(wpts[di].at), p))
      // with such a reason an approval that may be asked for does advance
      ensures var b := wpts[old(di)];
        && old(di) + 1 < |wpts|
        && (|| geo.dist(p, b.at) <= arriveM
            || (b.mark && b.markIdx.Some? && nextMark.Some? && b.markIdx.value < nextMark.value)
            || (!b.mark && geo.passed(if old(origin).Some? then old(origin).value else p, b.at,
                                      Some(wpts[old(di) + 1].at), p)))
        && (engine.None? || (engine == Some(Some(true)) && (!old(blocked) || t >= old(retryAt))))
        ==> di == old(di) + 1
      // shown or not: an approval shows the leg, unless a refusal is under five seconds old; so does a licence still
      // young, while no leg is asked for; nothing else does
      ensures engine.None? ==> blocked == old(blocked)
      ensures engine == Some(Some(true)) && (!old(blocked) || t >= old(retryAt)) ==> !blocked
      ensures engine.Some? && old(blocked) && (t < old(retryAt) || engine != Some(Some(true))) ==> blocked
      ensures var b := wpts[old(di)];
        && engine.Some? && !old(blocked) && !blocked && engine != Some(Some(true)) ==>
             !(old(di) + 1 < |wpts|
               && (|| geo.dist(p, b.at) <= arriveM
                   || (b.mark && b.markIdx.Some? && nextMark.Some? && b.markIdx.value < nextMark.value)
                   || (!b.mark && geo.passed(if old(origin).Some? then old(origin).value else p, b.at,
                                             Some(wpts[old(di) + 1].at), p))))
      ensures var b := wpts[old(di)];
        && engine.Some? && !old(blocked) && blocked && old(licence).Some? && t < old(licence).value.at + 30.0 ==>
             && old(di) + 1 < |wpts|
             && (|| geo.dist(p, b.at) <= arriveM
                 || (b.mark && b.markIdx.Some? && nextMark.Some? && b.markIdx.value < nextMark.value)
                 || (!b.mark && geo.passed(if old(origin).Some? then old(origin).value else p, b.at,
                                           Some(wpts[old(di) + 1].at), p)))
      ensures engine.Some? && !blocked ==> t < licence.value.at + 30.0
      // the licence is the first fix's (the send-time check), an older one of this leg, or just given
      ensures licence.value == Licence(di, t) || (old(licence).Some? && licence.value.at == old(licence).value.at)
      ensures engine.Some? && licence != old(licence) && old(licence).Some? ==> engine == Some(Some(true))
      ensures origin == if di == old(di) + 1 then Some(wpts[old(di)].at)
                        else if old(origin).Some? then old(origin) else Some(p)
      ensures advances == old(advances) + di - old(di)
      ensures nav.arrived <==> di == |wpts| - 1 && geo.dist(p, wpts[di].at) <= arriveM
      ensures nav.perpCrossed <==> di == |wpts| - 1 && origin.Some? && geo.passed(origin.value, wpts[di].at, None, p)
      ensures nav.dtw == geo.dist(p, wpts[di].at) && nav.originIndex == (if di > 0 then di - 1 else 0)
      // the closing rate over what this leg's fixes of the last two minutes say, from twenty seconds on
      ensures LastPart((if di == old(di) + 1 then [] else old(hist)) + [(t, nav.dtw)], hist, t)
      ensures hist != [] && t - hist[0].0 <= 120.0 && (nav.closing.Some? <==> t - hist[0].0 >= 20.0)
      ensures nav.closing.Some? ==> nav.closing.value * (t - hist[0].0) == hist[0].1 - nav.dtw
      ensures nav.eta.Some? <==> nav.closing.Some? && nav.closing.value >= 0.25
      ensures nav.eta.Some? ==> nav.eta.value == t + nav.dtw / nav.closing.value
    {
      TakeLeg(p, t, engine, nextMark);
      nav := Show(p, t);
    }

    /** Which leg, and under what licence. */
    method TakeLeg(p: Point, t: real, engine: Option<Answer>, nextMark: Option<int>)
      requires Valid()
      modifies this
      ensures Valid() && licence.Some? && origin.Some?
      // forward, at most one leg, never past the last waypoint
      ensures old(di) <= di <= old(di) + 1 && di < |wpts|
      // only on an explicit True
      ensures di == old(di) + 1 && engine.Some? ==> engine == Some(Some(true)) && licence.value == Licence(di, t)
      // and with a reason: inside the radius; or, for a course mark, with the navigator past it (never on its turn
      // line alone); or, for another point, past its turn line
      ensures var b := wpts[old(di)];
        di == old(di) + 1 ==>
          || geo.dist(p, b.at) <= arriveM
          || (b.mark && b.markIdx.Some? && nextMark.Some? && b.markIdx.value < nextMark.value)
          || (!b.mark && geo.passed(if old(origin).Some? then old(origin).value else p, b.at, Some(wpts[di].at), p))
      // with such a reason an approval that may be asked for does advance
      ensures var b := wpts[old(di)];
        && old(di) + 1 < |wpts|
        && (|| geo.dist(p, b.at) <= arriveM
            || (b.mark && b.markIdx.Some? && nextMark.Some? && b.markIdx.value < nextMark.value)
            || (!b.mark && geo.passed(if old(origin).Some? then old(origin).value else p, b.at,
                                      Some(wpts[old(di) + 1].at), p)))
        && (engine.None? || (engine == Some(Some(true)) && (!old(blocked) || t >= old(retryAt))))
        ==> di == old(di) + 1
      // shown or not: an approval shows the leg, unless a refusal is under five seconds old; so does a licence still
      // young, while no leg is asked for; nothing else does
      ensures engine.None? ==> blocked == old(blocked)
      ensures engine == Some(Some(true)) && (!old(blocked) || t >= old(retryAt)) ==> !blocked
      ensures engine.Some? && old(blocked) && (t < old(retryAt) || engine != Some(Some(true))) ==> blocked
      ensures var b := wpts[old(di)];
        && engine.Some? && !old(blocked) && !blocked && engine != Some(Some(true)) ==>
             !(old(di) + 1 < |wpts|
               && (|| geo.dist(p, b.at) <= arriveM
                   || (b.mark && b.markIdx.Some? && nextMark.Some? && b.markIdx.value < nextMark.value)
                   || (!b.mark && geo.passed(if old(origin).Some? then old(origin).value else p, b.at,
                                             Some(wpts[old(di) + 1].at), p))))
      ensures var b := wpts[old(di)];
        && engine.Some? && !old(blocked) && blocked && old(licence).Some? && t < old(licence).value.at + 30.0 ==>
             && old(di) + 1 < |wpts|
             && (|| geo.dist(p, b.at) <= arriveM
                 || (b.mark && b.markIdx.Some? && nextMark.Some? && b.markIdx.value < nextMark.value)
                 || (!b.mark && geo.passed(if old(origin).Some? then old(origin).value else p, b.at,
                                           Some(wpts[old(di) + 1].at), p)))
      ensures engine.Some? && !blocked ==> t < licence.value.at + 30.0
      // the licence is the first fix's (the send-time check), an older one of this leg, or just given
      ensures licence.value == Licence(di, t) || (old(licence).Some? && licence.value.at == old(licence).value.at)
      ensures engine.Some? && licence != old(licence) && old(licence).Some? ==> engine == Some(Some(true))
      ensures origin == if di == old(di) + 1 then Some(wpts[old(di)].at)
                        else if old(origin).Some? then old(origin) else Some(p)
      ensures advances == old(advances) + di - old(di)
      ensures hist == if di == old(di) + 1 then [] else old(hist)
    {
      if origin.None? {
        origin := Some(p);
      }
      if checkedAt.None? {
        checkedAt, licence := Some(t), Some(Licence(di, t));
      }
      var step := Advance(p, t, engine, nextMark);
      if engine.Some? && step.NotDue? {
        Recheck(engine.value, t);
      }
    }

    method Show(p: Point, t: real) returns (nav: Nav)
      requires Valid() && origin.Some?
      modifies this`hist
      ensures nav.leg == di && nav.blocked == blocked && nav.originIndex == (if di > 0 then di - 1 else 0)
      ensures nav.arrived <==> di == |wpts| - 1 && geo.dist(p, wpts[di].at) <= arriveM
      ensures nav.perpCrossed <==> di == |wpts| - 1 && geo.passed(origin.value, wpts[di].at, None, p)
      ensures nav.dtw == geo.dist(p, wpts[di].at)
      ensures LastPart(old(hist) + [(t, nav.dtw)], hist, t)
      ensures hist != [] && t - hist[0].0 <= 120.0 && (nav.closing.Some? <==> t - hist[0].0 >= 20.0)
      ensures nav.closing.Some? ==> nav.closing.value * (t - hist[0].0) == hist[0].1 - nav.dtw
      ensures nav.eta.Some? <==> nav.closing.Some? && nav.closing.value >= 0.25
      ensures nav.eta.Some? ==> nav.eta.value == t + nav.dtw / nav.closing.value
    {
      var dtw := geo.dist(p, wpts[di].at);
      var final := di == |wpts| - 1;
      var closing, eta := Measure(t, dtw);
      nav := Nav(di, if di > 0 then di - 1 else 0, dtw, final && dtw <= arriveM,
                 final && geo.passed(origin.value, wpts[di].at, None, p), closing, eta, blocked);
    }
  }

  datatype Step = NotDue | Pending | Advanced
}
