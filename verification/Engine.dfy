/** The animation engine of the browser, with exact arithmetic. */
module Engine {
  import opened Entities
  import opened Numerals
  import Geography

  datatype Aircraft = Aircraft(
    id: string, heading: real, speed: real, altitude: real, lat: real, lng: real,
    callSign: Option<string>, source: Option<string>, updatedAt: Option<int>,
    startLng: real, startLat: real, currentLng: real, currentLat: real, targetLng: real, targetLat: real,
    startHeading: real, targetHeading: real, startTime: real
  )

  /** An aircraft as it is read from a delta; the animation fields have no member there. */
  function FromWire(e: Entity): Aircraft {
    Aircraft(e.id, e.heading, e.speed, e.altitude, e.lat, e.lng, Some(e.callSign), Some(e.source), Some(e.updatedAt),
             0.0, 0.0, 0.0, 0.0, 0.0, 0.0, 0.0, 0.0, 0.0)
  }

  /** A new target stands still where it was reported. */
  function Appeared(ac: Aircraft, now: real): Aircraft {
    ac.(startLng := ac.lng, startLat := ac.lat, currentLng := ac.lng, currentLat := ac.lat,
        targetLng := ac.lng, targetLat := ac.lat, startHeading := ac.heading, targetHeading := ac.heading, startTime := now)
  }

  /** A known target sets off from where it is shown towards the new report. */
  function Retargeted(old_: Aircraft, ac: Aircraft, now: real): Aircraft {
    old_.(startLng := old_.currentLng, startLat := old_.currentLat, targetLng := ac.lng, targetLat := ac.lat,
          startHeading := old_.heading, targetHeading := ac.heading, heading := ac.heading,
          speed := ac.speed, altitude := ac.altitude, callSign := ac.callSign, source := ac.source,
          updatedAt := ac.updatedAt, startTime := now)
  }

  type Targets = map<string, Aircraft>

  function AllAppeared(t: Targets, added: seq<Aircraft>, now: real): Targets {
    if added == [] then t else
      var ac := added[|added| - 1];
      AllAppeared(t, added[..|added| - 1], now)[ac.id := Appeared(ac, now)]
  }

  /** Reports about unknown targets are ignored. */
  function AllRetargeted(t: Targets, updated: seq<Aircraft>, now: real): Targets {
    if updated == [] then t else
      var ac, t1 := updated[|updated| - 1], AllRetargeted(t, updated[..|updated| - 1], now);
      if ac.id in t1 then t1[ac.id := Retargeted(t1[ac.id], ac, now)] else t1
  }

  function UpdatedTargets(t: Targets, added: seq<Aircraft>, updated: seq<Aircraft>, removed: seq<string>, now: real): Targets {
    AllRetargeted(AllAppeared(t, added, now), updated, now) - Elements(removed)
  }

  function Clamp(x: real): real {
    var y := if x < 1.0 then x else 1.0;
    if y > 0.0 then y else 0.0
  }

  /** How much of the interval has passed, between 0 and 1. */
  function Progress(d: Aircraft, now: real, interval: real): real
    requires interval > 0.0
  {
    Clamp((now - d.startTime) / interval)
  }

  /** The signed turn along the shorter arc. */
  function Turn(d: Aircraft): real {
    var delta := d.targetHeading - d.startHeading;
    if delta > 180.0 then delta - 360.0 else if delta < -180.0 then delta + 360.0 else delta
  }

  /** The point a fraction `t` of the way. */
  function Along(start: real, target: real, t: real): real {
    start + (target - start) * t
  }

  /** The part of the turn a fraction `t` of the way. */
  function Part(turn: real, t: real): real {
    turn * t
  }

  function Ticked(d: Aircraft, now: real, interval: real): Aircraft
    requires interval > 0.0
  {
    var t := Progress(d, now, interval);
    d.(currentLng := Along(d.startLng, d.targetLng, t), currentLat := Along(d.startLat, d.targetLat, t),
       heading := Geography.Rem(d.startHeading + Part(Turn(d), t) + 360.0, 360.0))
  }

  function AllTicked(t: Targets, now: real, interval: real): Targets
    requires interval > 0.0
  {
    map id | id in t :: Ticked(t[id], now, interval)
  }

  class RadarEngine {
    var targets: Targets
    var dataBuffer: seq<real>

    constructor ()
      ensures targets == map[] && dataBuffer == []
    {
      targets, dataBuffer := map[], [];
    }

    method UpdateTargets(added: seq<Aircraft>, updated: seq<Aircraft>, removed: seq<string>, now: real)
      modifies `targets
      ensures targets == UpdatedTargets(old(targets), added, updated, removed, now)
    {
      for i := 0 to |added|
        invariant targets == AllAppeared(old(targets), added[..i], now)
      {
        assert added[..i + 1][..i] == added[..i];
        targets := targets[added[i].id := Appeared(added[i], now)];
      }
      assert added[..|added|] == added;
      ghost var placed := targets;
      for i := 0 to |updated|
        invariant targets == AllRetargeted(placed, updated[..i], now)
      {
        assert updated[..i + 1][..i] == updated[..i];
        var ac := updated[i];
        if ac.id in targets {
          targets := targets[ac.id := Retargeted(targets[ac.id], ac, now)];
        }
      }
      assert updated[..|updated|] == updated;
      ghost var moved := targets;
      for i := 0 to |removed|
        invariant targets == moved - Elements(removed[..i])
      {
        assert removed[..i + 1] == removed[..i] + [removed[i]];
        targets := targets - {removed[i]};
      }
      assert removed[..|removed|] == removed;
    }

    method Tick(now: real, interval: real)
      requires interval > 0.0
      modifies `targets
      ensures targets == AllTicked(old(targets), now, interval)
    {
      var todo := targets.Keys;
      while todo != {}
        invariant todo <= targets.Keys == old(targets).Keys
        invariant forall id :: id in targets ==>
          targets[id] == if id in todo then old(targets)[id] else Ticked(old(targets)[id], now, interval)
        decreases todo
      {
        var id :| id in todo;
        targets := targets[id := Ticked(targets[id], now, interval)];
        todo := todo - {id};
      }
    }
  }

  // ---- Headings ----

  /** A heading as it is shown. */
  predicate IsHeading(h: real) {
    0.0 <= h < 360.0
  }

  /** A heading as it is reported: printing may round it up to the full circle. */
  predicate IsReport(h: real) {
    0.0 <= h <= 360.0
  }

  /** The full circle is shown as north. */
  function Shown(h: real): real {
    if h == 360.0 then 0.0 else h
  }

  predicate HeadingsOk(d: Aircraft) {
    IsReport(d.heading) && IsReport(d.startHeading) && IsReport(d.targetHeading)
  }

  /** A part of a turn and what is left of it make up the turn, and both go the same way. */
  lemma Parts(turn: real, t: real)
    requires 0.0 <= t <= 1.0
    ensures Part(turn, t) + Part(turn, 1.0 - t) == turn
    ensures turn >= 0.0 ==> 0.0 <= Part(turn, t) <= turn
    ensures turn <= 0.0 ==> turn <= Part(turn, t) <= 0.0
    ensures Abs(Part(turn, 1.0 - t)) == Part(Abs(turn), 1.0 - t)
  {
  }

  /** The turn takes the shorter way round and ends on the target heading. */
  lemma TurnIsShortest(d: Aircraft)
    requires HeadingsOk(d)
    ensures -180.0 <= Turn(d) <= 180.0
    ensures d.startHeading + Turn(d) == d.targetHeading
         || d.startHeading + Turn(d) == d.targetHeading + 360.0
         || d.startHeading + Turn(d) == d.targetHeading - 360.0
    ensures -180.0 <= d.targetHeading - d.startHeading <= 180.0 ==> Turn(d) == d.targetHeading - d.startHeading
  {
  }

  lemma RemOfTurn(x: real)
    requires 0.0 <= x < 1080.0
    ensures IsHeading(Geography.Rem(x, 360.0))
    ensures Geography.Rem(x, 360.0) == x || Geography.Rem(x, 360.0) == x - 360.0 || Geography.Rem(x, 360.0) == x - 720.0
  {
  }

  lemma HeadingAt(start: real, moved: real)
    requires IsReport(start) && -180.0 <= moved <= 180.0
    ensures var h := Geography.Rem(start + moved + 360.0, 360.0);
      IsHeading(h) && (h == start + moved || h == start + moved + 360.0 || h == start + moved - 360.0)
  {
    hide Geography.Rem;
    RemOfTurn(start + moved + 360.0);
  }

  lemma ProgressRange(d: Aircraft, now: real, interval: real)
    requires interval > 0.0
    ensures 0.0 <= Progress(d, now, interval) <= 1.0
  {
  }

  /** The shown heading is the point of the turn that has been reached, brought into [0, 360). */
  lemma TickedHeading(d: Aircraft, now: real, interval: real)
    requires HeadingsOk(d) && interval > 0.0
    ensures var h := Ticked(d, now, interval).heading;
      var x := d.startHeading + Part(Turn(d), Progress(d, now, interval));
      IsHeading(h) && (h == x || h == x + 360.0 || h == x - 360.0)
  {
    hide Turn;
    hide Progress;
    hide Part;
    hide Along;
    hide Geography.Rem;
    var turn, t := Turn(d), Progress(d, now, interval);
    TurnIsShortest(d);
    ProgressRange(d, now, interval);
    Parts(turn, t);
    HeadingAt(d.startHeading, Part(turn, t));
  }

  /** The angle between two headings. */
  function Angle(a: real, b: real): real {
    var x := Abs(a - b);
    if x > 180.0 then 360.0 - x else x
  }

  lemma ArcRest(start: real, moved: real, left: real, target: real, h: real)
    requires IsReport(start) && IsReport(target) && IsHeading(h) && -180.0 <= left <= 180.0
    requires var end := start + moved + left; end == target || end == target + 360.0 || end == target - 360.0
    requires h == start + moved || h == start + moved + 360.0 || h == start + moved - 360.0
    ensures Angle(h, target) == if left < 0.0 then -left else left
  {
  }

  /** What is left of the turn is the angle between the shown and the target heading. */
  lemma AngleLeft(d: Aircraft, now: real, interval: real)
    requires HeadingsOk(d) && interval > 0.0
    ensures Angle(Ticked(d, now, interval).heading, d.targetHeading) == Part(Abs(Turn(d)), 1.0 - Progress(d, now, interval))
  {
    hide Turn;
    hide Progress;
    hide Part;
    hide Along;
    hide Geography.Rem;
    hide Angle;
    var turn, t := Turn(d), Progress(d, now, interval);
    TurnIsShortest(d);
    ProgressRange(d, now, interval);
    TickedHeading(d, now, interval);
    Parts(turn, t);
    ArcRest(d.startHeading, Part(turn, t), Part(turn, 1.0 - t), d.targetHeading, Ticked(d, now, interval).heading);
  }

  // ---- Positions ----

  function Gap(a: real, b: real): real {
    Abs(a - b)
  }

  lemma GapIsDistance(a: real, b: real)
    ensures Gap(a, b) >= 0.0
  {
  }

  lemma GapLeft(start: real, target: real, t: real)
    requires 0.0 <= t <= 1.0
    ensures Gap(Along(start, target, t), target) == Part(Gap(start, target), 1.0 - t)
  {
    Parts(target - start, t);
    assert target - Along(start, target, t) == Part(target - start, 1.0 - t);
  }

  lemma ProgressGrows(d: Aircraft, now1: real, now2: real, interval: real)
    requires interval > 0.0 && now1 <= now2
    ensures 0.0 <= Progress(d, now1, interval) <= Progress(d, now2, interval) <= 1.0
    ensures Progress(d, now1, interval) == 1.0 <==> now1 - d.startTime >= interval
  {
    var a, b := now1 - d.startTime, now2 - d.startTime;
    assert a / interval <= b / interval;
    assert a / interval >= 1.0 <==> a >= interval;
  }

  lemma LessIsLeft(a: real, t1: real, t2: real)
    requires a >= 0.0 && 0.0 <= t1 <= t2 <= 1.0
    ensures 0.0 <= Part(a, 1.0 - t2) <= Part(a, 1.0 - t1) <= a
  {
    Parts(a, 1.0 - t1);
    Parts(a, 1.0 - t2);
    assert Part(a, 1.0 - t1) - Part(a, 1.0 - t2) == Part(a, t2 - t1);
    Parts(a, t2 - t1);
  }

  /** Ticks do not disturb each other: only the last one before an update counts. */
  lemma LastTickCounts(d: Aircraft, now1: real, now2: real, interval: real)
    requires interval > 0.0
    ensures Ticked(Ticked(d, now1, interval), now2, interval) == Ticked(d, now2, interval)
  {
    hide Turn;
    hide Along;
    hide Part;
    hide Geography.Rem;
    hide Clamp;
    var d1 := Ticked(d, now1, interval);
    assert d1.startTime == d.startTime && d1.startHeading == d.startHeading && d1.targetHeading == d.targetHeading;
    assert Progress(d1, now2, interval) == Progress(d, now2, interval);
    SameTurn(d1, d);
  }

  lemma SameTurn(a: Aircraft, b: Aircraft)
    requires a.startHeading == b.startHeading && a.targetHeading == b.targetHeading
    ensures Turn(a) == Turn(b)
  {
  }

  /** As time advances between updates, neither the distance nor the angle to the target grows. */
  lemma NeverFurther(d: Aircraft, now1: real, now2: real, interval: real)
    requires HeadingsOk(d) && interval > 0.0 && now1 <= now2
    ensures var a, b := Ticked(d, now1, interval), Ticked(d, now2, interval);
      && Gap(b.currentLng, d.targetLng) <= Gap(a.currentLng, d.targetLng)
      && Gap(b.currentLat, d.targetLat) <= Gap(a.currentLat, d.targetLat)
      && Angle(b.heading, d.targetHeading) <= Angle(a.heading, d.targetHeading) <= 180.0
  {
    hide Turn;
    hide Progress;
    hide Part;
    hide Along;
    hide Geography.Rem;
    hide Angle;
    hide Gap;
    var t1, t2 := Progress(d, now1, interval), Progress(d, now2, interval);
    GapIsDistance(d.startLng, d.targetLng);
    GapIsDistance(d.startLat, d.targetLat);
    ProgressGrows(d, now1, now2, interval);
    GapLeft(d.startLng, d.targetLng, t1);
    GapLeft(d.startLng, d.targetLng, t2);
    GapLeft(d.startLat, d.targetLat, t1);
    GapLeft(d.startLat, d.targetLat, t2);
    AngleLeft(d, now1, interval);
    AngleLeft(d, now2, interval);
    TurnIsShortest(d);
    LessIsLeft(Gap(d.startLng, d.targetLng), t1, t2);
    LessIsLeft(Gap(d.startLat, d.targetLat), t1, t2);
    LessIsLeft(Abs(Turn(d)), t1, t2);
  }

  /** The target is met as soon as the interval has passed, and a target that is elsewhere not before. */
  lemma MetExactlyInTime(d: Aircraft, now: real, interval: real)
    requires HeadingsOk(d) && interval > 0.0
    ensures var a := Ticked(d, now, interval); var late := now - d.startTime >= interval;
      && (a.currentLng == d.targetLng <==> late || d.startLng == d.targetLng)
      && (a.currentLat == d.targetLat <==> late || d.startLat == d.targetLat)
      && (a.heading == Shown(d.targetHeading) <==> late || Angle(d.startHeading, d.targetHeading) == 0.0)
  {
    hide Turn;
    hide Progress;
    hide Part;
    hide Along;
    hide Geography.Rem;
    hide Angle;
    hide Gap;
    var t := Progress(d, now, interval);
    var a := Ticked(d, now, interval);
    ProgressGrows(d, now, now, interval);
    GapLeft(d.startLng, d.targetLng, t);
    GapLeft(d.startLat, d.targetLat, t);
    AngleLeft(d, now, interval);
    TickedHeading(d, now, interval);
    NoTurn(d);
    NothingLeft(Gap(d.startLng, d.targetLng), 1.0 - t);
    NothingLeft(Gap(d.startLat, d.targetLat), 1.0 - t);
    NothingLeft(Abs(Turn(d)), 1.0 - t);
    NoDistance(d.startLng, d.targetLng);
    NoDistance(d.startLat, d.targetLat);
    NoDistance(a.currentLng, d.targetLng);
    NoDistance(a.currentLat, d.targetLat);
    NoAngle(a.heading, d.targetHeading);
  }

  lemma NothingLeft(a: real, b: real)
    ensures Part(a, b) == 0.0 <==> a == 0.0 || b == 0.0
  {
  }

  lemma NoDistance(a: real, b: real)
    ensures Gap(a, b) == 0.0 <==> a == b
  {
  }

  lemma NoAngle(a: real, b: real)
    requires IsHeading(a) && IsReport(b)
    ensures Angle(a, b) == 0.0 <==> a == Shown(b)
  {
  }

  lemma NoTurn(d: Aircraft)
    requires HeadingsOk(d)
    ensures Turn(d) == 0.0 <==> Angle(d.startHeading, d.targetHeading) == 0.0
  {
  }

  /** An update right after a tick does not make the shown aircraft jump. */
  lemma UpdateIsSmooth(d: Aircraft, ac: Aircraft, now: real, interval: real)
    requires HeadingsOk(d) && interval > 0.0
    ensures var shown := Ticked(d, now, interval);
      var next := Ticked(Retargeted(shown, ac, now), now, interval);
      next.currentLng == shown.currentLng && next.currentLat == shown.currentLat && next.heading == shown.heading
  {
    hide Turn;
    hide Part;
    hide Along;
    hide Geography.Rem;
    var shown := Ticked(d, now, interval);
    var r := Retargeted(shown, ac, now);
    TickedHeading(d, now, interval);
    JustStarted(r, now, interval);
    StartingPoint(r.startLng, r.targetLng);
    StartingPoint(r.startLat, r.targetLat);
    StartingPoint(0.0, Turn(r));
    RemOfTurn(r.startHeading + 360.0);
  }

  lemma JustStarted(d: Aircraft, now: real, interval: real)
    requires interval > 0.0 && d.startTime == now
    ensures Progress(d, now, interval) == 0.0
  {
    assert (now - d.startTime) / interval == 0.0;
  }

  lemma StartingPoint(start: real, target: real)
    ensures Along(start, target, 0.0) == start && Part(target, 0.0) == 0.0
  {
  }

  /** A new target stands still where it was reported, at every later instant. */
  lemma NewTargetStandsStill(ac: Aircraft, now: real, later: real, interval: real)
    requires interval > 0.0 && IsReport(ac.heading)
    ensures var d := Ticked(Appeared(ac, now), later, interval);
      d.currentLng == ac.lng && d.currentLat == ac.lat && d.heading == Shown(ac.heading)
  {
    var p := Appeared(ac, now);
    var t := Progress(p, later, interval);
    assert Turn(p) == 0.0;
    StandingPoint(ac.lng, t);
    StandingPoint(ac.lat, t);
    RemOfTurn(ac.heading + 360.0);
  }

  lemma StandingPoint(x: real, t: real)
    ensures Along(x, x, t) == x && Part(0.0, t) == 0.0
  {
  }

  // ---- From a report to the screen ----

  /** No id is reported twice. */
  ghost predicate DistinctReports(reports: seq<Aircraft>) {
    forall i, j :: 0 <= i < j < |reports| ==> reports[i].id != reports[j].id
  }

  ghost predicate Unreported(reports: seq<Aircraft>, id: string) {
    forall ac :: ac in reports ==> ac.id != id
  }

  lemma {:induction false} AppearedElsewhere(t: Targets, added: seq<Aircraft>, now: real, id: string)
    requires Unreported(added, id)
    ensures id in AllAppeared(t, added, now) <==> id in t
    ensures id in t ==> AllAppeared(t, added, now)[id] == t[id]
  {
    if added != [] {
      AppearedElsewhere(t, added[..|added| - 1], now, id);
    }
  }

  lemma {:induction false} AppearedAt(t: Targets, added: seq<Aircraft>, now: real, k: nat)
    requires DistinctReports(added) && k < |added|
    ensures var ac := added[k]; ac.id in AllAppeared(t, added, now) && AllAppeared(t, added, now)[ac.id] == Appeared(ac, now)
  {
    hide Appeared;
    if k < |added| - 1 {
      AppearedAt(t, added[..|added| - 1], now, k);
    }
  }

  lemma {:induction false} RetargetedElsewhere(t: Targets, updated: seq<Aircraft>, now: real, id: string)
    requires Unreported(updated, id)
    ensures id in AllRetargeted(t, updated, now) <==> id in t
    ensures id in t ==> AllRetargeted(t, updated, now)[id] == t[id]
  {
    hide Retargeted;
    if updated != [] {
      RetargetedElsewhere(t, updated[..|updated| - 1], now, id);
    }
  }

  lemma {:induction false} RetargetedAt(t: Targets, updated: seq<Aircraft>, now: real, k: nat)
    requires DistinctReports(updated) && k < |updated| && updated[k].id in t
    ensures var ac, t' := updated[k], AllRetargeted(t, updated, now); ac.id in t' && t'[ac.id] == Retargeted(t[ac.id], ac, now)
  {
    hide Retargeted;
    var front := updated[..|updated| - 1];
    if k < |front| {
      RetargetedAt(t, front, now, k);
    } else {
      forall ac | ac in front ensures ac.id != updated[k].id {
        var i :| 0 <= i < |front| && front[i] == ac;
        assert updated[i] == ac;
      }
      RetargetedElsewhere(t, front, now, updated[k].id);
    }
  }

  lemma ProgressAt(d: Aircraft, f: real, interval: real)
    requires interval > 0.0 && 0.0 <= f <= 1.0
    ensures Progress(d, d.startTime + f * interval, interval) == f
  {
    assert f * interval / interval == f;
  }

  lemma TurnIsAngle(d: Aircraft)
    requires HeadingsOk(d)
    ensures Abs(Turn(d)) == Angle(d.startHeading, d.targetHeading)
  {
  }

  lemma CourseOf(old_: Aircraft, ac: Aircraft, now: real, f: real, interval: real)
    requires interval > 0.0 && 0.0 <= f <= 1.0
    ensures var d := Ticked(Retargeted(old_, ac, now), now + f * interval, interval);
      && d.currentLng == old_.currentLng + (ac.lng - old_.currentLng) * f
      && d.currentLat == old_.currentLat + (ac.lat - old_.currentLat) * f
  {
    hide Turn;
    hide Progress;
    hide Part;
    hide Geography.Rem;
    ProgressAt(Retargeted(old_, ac, now), f, interval);
  }

  lemma TurningOf(old_: Aircraft, ac: Aircraft, now: real, f: real, interval: real)
    requires interval > 0.0 && 0.0 <= f <= 1.0 && IsReport(old_.heading) && IsReport(ac.heading)
    ensures var d := Ticked(Retargeted(old_, ac, now), now + f * interval, interval);
      IsHeading(d.heading) && Angle(d.heading, ac.heading) == Angle(old_.heading, ac.heading) * (1.0 - f)
  {
    hide Turn;
    hide Progress;
    hide Ticked;
    hide Along;
    hide Angle;
    var r := Retargeted(old_, ac, now);
    ProgressAt(r, f, interval);
    TickedHeading(r, now + f * interval, interval);
    AngleLeft(r, now + f * interval, interval);
    TurnIsAngle(r);
  }

  /** A known aircraft that is updated moves in a straight line from where it was shown to where it is
      reported, in proportion to the part of the interval that has passed, and its angle to the reported
      heading shrinks in the same proportion. */
  lemma CourseAfterUpdate(t: Targets, added: seq<Aircraft>, updated: seq<Aircraft>, removed: seq<string>, now: real,
                          k: nat, f: real, interval: real)
    requires interval > 0.0 && 0.0 <= f <= 1.0 && DistinctReports(updated) && k < |updated|
    requires var id := updated[k].id; id in t && id !in removed && Unreported(added, id)
    ensures var ac, after := updated[k], AllTicked(UpdatedTargets(t, added, updated, removed, now), now + f * interval, interval);
      && ac.id in after
      && after[ac.id].currentLng == t[ac.id].currentLng + (ac.lng - t[ac.id].currentLng) * f
      && after[ac.id].currentLat == t[ac.id].currentLat + (ac.lat - t[ac.id].currentLat) * f
      && (IsReport(t[ac.id].heading) && IsReport(ac.heading) ==>
            && IsHeading(after[ac.id].heading)
            && Angle(after[ac.id].heading, ac.heading) == Angle(t[ac.id].heading, ac.heading) * (1.0 - f))
  {
    hide Retargeted;
    hide Ticked;
    hide AllAppeared;
    hide AllRetargeted;
    hide Angle;
    var ac := updated[k];
    AppearedElsewhere(t, added, now, ac.id);
    RetargetedAt(AllAppeared(t, added, now), updated, now, k);
    CourseOf(t[ac.id], ac, now, f, interval);
    if IsReport(t[ac.id].heading) && IsReport(ac.heading) {
      TurningOf(t[ac.id], ac, now, f, interval);
    }
  }

  /** Before the update it has not moved. */
  lemma StandsBeforeUpdate(t: Targets, added: seq<Aircraft>, updated: seq<Aircraft>, removed: seq<string>, now: real,
                           k: nat, earlier: real, interval: real)
    requires interval > 0.0 && earlier <= now && DistinctReports(updated) && k < |updated|
    requires var id := updated[k].id; id in t && id !in removed && Unreported(added, id)
    ensures var id, after := updated[k].id, AllTicked(UpdatedTargets(t, added, updated, removed, now), earlier, interval);
      id in after && after[id].currentLng == t[id].currentLng && after[id].currentLat == t[id].currentLat
  {
    hide Ticked;
    hide AllAppeared;
    hide AllRetargeted;
    var ac := updated[k];
    AppearedElsewhere(t, added, now, ac.id);
    RetargetedAt(AllAppeared(t, added, now), updated, now, k);
    NotYetMoving(Retargeted(t[ac.id], ac, now), earlier, interval);
  }

  lemma NotYetMoving(d: Aircraft, earlier: real, interval: real)
    requires interval > 0.0 && earlier <= d.startTime
    ensures Ticked(d, earlier, interval).currentLng == d.startLng && Ticked(d, earlier, interval).currentLat == d.startLat
  {
    hide Turn;
    hide Part;
    hide Geography.Rem;
    assert (earlier - d.startTime) / interval <= 0.0;
  }

  lemma ArrivalOf(old_: Aircraft, ac: Aircraft, now: real, later: real, interval: real)
    requires interval > 0.0 && later >= now + interval
    ensures var d := Ticked(Retargeted(old_, ac, now), later, interval);
      && d.currentLng == ac.lng && d.currentLat == ac.lat
      && d.speed == ac.speed && d.altitude == ac.altitude
      && (IsReport(old_.heading) && IsReport(ac.heading) ==> d.heading == Shown(ac.heading))
  {
    var r := Retargeted(old_, ac, now);
    ProgressGrows(r, later, later, interval);
    if HeadingsOk(r) {
      MetExactlyInTime(r, later, interval);
    }
    hide Turn;
    hide Progress;
    hide Geography.Rem;
  }

  /** Once the interval has passed it is there, and shows the reported heading. */
  lemma ArrivalAfterUpdate(t: Targets, added: seq<Aircraft>, updated: seq<Aircraft>, removed: seq<string>, now: real,
                           k: nat, later: real, interval: real)
    requires interval > 0.0 && later >= now + interval && DistinctReports(updated) && k < |updated|
    requires var id := updated[k].id; id in t && id !in removed && Unreported(added, id)
    ensures var ac, after := updated[k], AllTicked(UpdatedTargets(t, added, updated, removed, now), later, interval);
      && ac.id in after && after[ac.id].currentLng == ac.lng && after[ac.id].currentLat == ac.lat
      && after[ac.id].speed == ac.speed && after[ac.id].altitude == ac.altitude
      && (IsReport(t[ac.id].heading) && IsReport(ac.heading) ==> after[ac.id].heading == Shown(ac.heading))
  {
    hide Retargeted;
    hide Ticked;
    hide AllAppeared;
    hide AllRetargeted;
    var ac := updated[k];
    AppearedElsewhere(t, added, now, ac.id);
    RetargetedAt(AllAppeared(t, added, now), updated, now, k);
    ArrivalOf(t[ac.id], ac, now, later, interval);
  }

  /** A new aircraft is shown where and how it was reported, at every instant; a removed one is gone, and
      one that is not mentioned is as it was. */
  lemma OthersAfterUpdate(t: Targets, added: seq<Aircraft>, updated: seq<Aircraft>, removed: seq<string>, now: real,
                          later: real, interval: real)
    requires interval > 0.0 && DistinctReports(added)
    ensures var after := AllTicked(UpdatedTargets(t, added, updated, removed, now), later, interval);
      && (forall k :: 0 <= k < |added| && added[k].id !in removed && IsReport(added[k].heading) && Unreported(updated, added[k].id) ==>
            var ac := added[k];
            && ac.id in after && after[ac.id].currentLng == ac.lng && after[ac.id].currentLat == ac.lat
            && after[ac.id].heading == Shown(ac.heading) && after[ac.id].speed == ac.speed && after[ac.id].altitude == ac.altitude)
      && (forall id :: id in removed ==> id !in after)
      && (forall id :: id !in removed && Unreported(added, id) && Unreported(updated, id) ==>
            && (id in after <==> id in t)
            && (id in t ==> after[id] == Ticked(t[id], later, interval)))
  {
    hide Appeared;
    hide Ticked;
    hide AllAppeared;
    hide AllRetargeted;
    var after := AllTicked(UpdatedTargets(t, added, updated, removed, now), later, interval);
    forall k | 0 <= k < |added| && added[k].id !in removed && Unreported(updated, added[k].id)
      ensures var ac := added[k]; ac.id in after && after[ac.id] == Ticked(Appeared(ac, now), later, interval)
    {
      AppearedAt(t, added, now, k);
      RetargetedElsewhere(AllAppeared(t, added, now), updated, now, added[k].id);
    }
    forall ac: Aircraft | IsReport(ac.heading)
      ensures var d := Ticked(Appeared(ac, now), later, interval);
        d.currentLng == ac.lng && d.currentLat == ac.lat && d.heading == Shown(ac.heading) && d.speed == ac.speed && d.altitude == ac.altitude
    {
      NewTargetStandsStill(ac, now, later, interval);
      AppearedCarries(ac, now, later, interval);
    }
    forall id | id !in removed && Unreported(added, id) && Unreported(updated, id)
      ensures (id in after <==> id in t) && (id in t ==> after[id] == Ticked(t[id], later, interval))
    {
      AppearedElsewhere(t, added, now, id);
      RetargetedElsewhere(AllAppeared(t, added, now), updated, now, id);
    }
  }

  lemma AppearedCarries(ac: Aircraft, now: real, later: real, interval: real)
    requires interval > 0.0
    ensures var d := Ticked(Appeared(ac, now), later, interval); d.speed == ac.speed && d.altitude == ac.altitude
  {
    hide Geography.Rem;
    hide Turn;
    hide Progress;
  }

  // ---- Whole runs ----

  datatype Op =
    | Update(added: seq<Aircraft>, updated: seq<Aircraft>, removed: seq<string>, now: real)
    | Tick(now: real, interval: Interval)

  type Interval = r: real | r > 0.0 witness 1.0

  ghost predicate ReportsOk(op: Op) {
    op.Update? ==> forall ac :: ac in op.added || ac in op.updated ==> IsReport(ac.heading)
  }

  function Evolved(t: Targets, ops: seq<Op>): Targets
  {
    if ops == [] then t else
      var t1, op := Evolved(t, ops[..|ops| - 1]), ops[|ops| - 1];
      match op
      case Update(added, updated, removed, now) => UpdatedTargets(t1, added, updated, removed, now)
      case Tick(now, interval) => AllTicked(t1, now, interval)
  }

  ghost predicate AllHeadingsOk(t: Targets) {
    forall id :: id in t ==> HeadingsOk(t[id])
  }

  lemma {:induction false} AppearedHeadings(t: Targets, added: seq<Aircraft>, now: real)
    requires AllHeadingsOk(t) && forall ac :: ac in added ==> IsReport(ac.heading)
    ensures AllHeadingsOk(AllAppeared(t, added, now))
  {
    if added != [] {
      AppearedHeadings(t, added[..|added| - 1], now);
    }
  }

  lemma {:induction false} RetargetedHeadings(t: Targets, updated: seq<Aircraft>, now: real)
    requires AllHeadingsOk(t) && forall ac :: ac in updated ==> IsReport(ac.heading)
    ensures AllHeadingsOk(AllRetargeted(t, updated, now))
  {
    if updated != [] {
      RetargetedHeadings(t, updated[..|updated| - 1], now);
    }
  }

  /** Over any run of updates and ticks every heading stays in [0, 360], and after a tick below 360. */
  lemma {:induction false} RunHeadings(t: Targets, ops: seq<Op>)
    requires AllHeadingsOk(t) && forall i :: 0 <= i < |ops| ==> ReportsOk(ops[i])
    ensures AllHeadingsOk(Evolved(t, ops))
    ensures ops != [] && ops[|ops| - 1].Tick? ==> forall id :: id in Evolved(t, ops) ==> IsHeading(Evolved(t, ops)[id].heading)
  {
    hide HeadingsOk;
    if ops != [] {
      var front, op := ops[..|ops| - 1], ops[|ops| - 1];
      RunHeadings(t, front);
      var t1 := Evolved(t, front);
      match op
      case Update(added, updated, removed, now) =>
        AppearedHeadings(t1, added, now);
        RetargetedHeadings(AllAppeared(t1, added, now), updated, now);
      case Tick(now, interval) =>
        forall id | id in t1 ensures HeadingsOk(Ticked(t1[id], now, interval)) && IsHeading(Ticked(t1[id], now, interval).heading) {
          TickKeepsHeadings(t1[id], now, interval);
        }
    }
  }

  lemma TickKeepsHeadings(d: Aircraft, now: real, interval: real)
    requires HeadingsOk(d) && interval > 0.0
    ensures HeadingsOk(Ticked(d, now, interval)) && IsHeading(Ticked(d, now, interval).heading)
  {
    TickedHeading(d, now, interval);
  }

  // ---- Where a target is heading for ----

  datatype Goal = Goal(lng: real, lat: real, heading: real, speed: real, altitude: real,
                       callSign: Option<string>, source: Option<string>, updatedAt: Option<int>)

  function GoalOf(d: Aircraft): Goal {
    Goal(d.targetLng, d.targetLat, d.targetHeading, d.speed, d.altitude, d.callSign, d.source, d.updatedAt)
  }

  /** The goal an entity on the wire sets. */
  function GoalSet(e: Entity): Goal {
    Goal(e.lng, e.lat, e.heading, e.speed, e.altitude, Some(e.callSign), Some(e.source), Some(e.updatedAt))
  }

  /** Ticks move the shown aircraft, not its goal. */
  lemma TickKeepsGoal(t: Targets, now: real, interval: real)
    requires interval > 0.0
    ensures var t' := AllTicked(t, now, interval);
      t'.Keys == t.Keys && forall id :: id in t ==> GoalOf(t'[id]) == GoalOf(t[id])
  {
    hide Along;
    hide Part;
    hide Turn;
    hide Geography.Rem;
    hide Progress;
  }
}
