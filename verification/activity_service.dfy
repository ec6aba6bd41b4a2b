/** ActivityService: recording, changing and removing runs. Adding a run
    triggers one badge evaluation, after the run is stored. The calorie
    estimate follows the source's formula over exact reals. */
module Activities {
  import opened Common
  import opened Entities
  import opened Repositories
  import opened Badges

  // ---------------------------------------------------------------------
  // The calorie estimate

  const DEFAULT_WEIGHT_KG := 70.0
  const KCAL_PER_KG_KM := 1.036

  const INT_MIN := -0x8000_0000
  const INT_MAX := 0x7FFF_FFFF
  const LONG_MIN := -0x8000_0000_0000_0000
  const LONG_MAX := 0x7FFF_FFFF_FFFF_FFFF

  /** Math.round: the integer nearest to `x`, halves rounded up, clamped to
      the range of a long. */
  function Round(x: real): int {
    var n := (x + 0.5).Floor;
    if n < LONG_MIN then LONG_MIN else if n > LONG_MAX then LONG_MAX else n
  }

  /** The `(int)` cast of a long: its low 32 bits, read as two's complement. */
  function ToInt(n: int): (m: int)
    ensures INT_MIN <= m <= INT_MAX
    ensures INT_MIN <= n <= INT_MAX ==> m == n
    ensures (m - n) % 0x1_0000_0000 == 0
  {
    var low := n % 0x1_0000_0000;
    if low > INT_MAX then low - 0x1_0000_0000 else low
  }

  /** estimateCalories: distance times weight (70 kg when unknown) times
      1.036, rounded and cast to int. The result is always an int, and for
      any product that fits an int it is the nearest integer to the exact
      product, halves rounded up. */
  function EstimateCalories(distanceKm: real, weight: Option<real>): (c: int)
    ensures INT_MIN <= c <= INT_MAX
    ensures var x := distanceKm * weight.GetOr(DEFAULT_WEIGHT_KG) * KCAL_PER_KG_KM;
      INT_MIN as real <= x < INT_MAX as real ==> x - 0.5 < c as real <= x + 0.5
  {
    var x := distanceKm * weight.GetOr(DEFAULT_WEIGHT_KG) * KCAL_PER_KG_KM;
    var n := (x + 0.5).Floor;
    assert n as real <= x + 0.5 < n as real + 1.0;
    ToInt(Round(x))
  }

  // ---------------------------------------------------------------------
  // The service

  class ActivityService {
    const activityRepository: ActivityRepository
    const runnerRepository: RunnerRepository
    const badgeService: BadgeService

    constructor (activityRepository: ActivityRepository, runnerRepository: RunnerRepository, badgeService: BadgeService)
      ensures this.activityRepository == activityRepository
      ensures this.runnerRepository == runnerRepository
      ensures this.badgeService == badgeService
    {
      this.activityRepository := activityRepository;
      this.runnerRepository := runnerRepository;
      this.badgeService := badgeService;
    }

    /** The three tables are well formed, every activity has a stored owner,
        and the badge engine reads the same activity table. */
    ghost predicate Valid()
      reads this, activityRepository, runnerRepository, badgeService, badgeService.badgeRepository
    {
      && activityRepository.Valid()
      && runnerRepository.Valid()
      && badgeService.badgeRepository.Valid()
      && badgeService.activityRepository == activityRepository
      && ActivitiesOwned(runnerRepository.rows, activityRepository.rows)
    }

    /** getActivityById. */
    function GetActivityById(activityId: ActivityId): (r: Result<Activity>)
      reads activityRepository
      ensures r.Err? <==> FindActivityIndex(activityRepository.rows, activityId).None?
      ensures r.Err? ==> r.error == NotFound("Activity not found")
      ensures r.Ok? ==> r.value in activityRepository.rows && r.value.id == Some(activityId)
    {
      match FindActivityById(activityRepository.rows, activityId)
      case None => Err(NotFound("Activity not found"))
      case Some(a) => Ok(a)
    }

    /** addActivity. For an unknown runner nothing is stored and nothing is
        evaluated. Otherwise the new run is stored with the given values and
        the given calories, or the estimate from the runner's weight when
        none are given; then the badge rules are evaluated once, over the
        totals that already include the new run. */
    method AddActivity(runnerId: RunnerId, distanceKm: real, durationSec: int, date: Date,
                       route: Option<string>, calories: Option<int>, today: Date)
      returns (res: Result<Activity>)
      requires Valid()
      modifies activityRepository, badgeService.badgeRepository
      ensures Valid()
      ensures FindRunnerById(runnerRepository.rows, runnerId).None? ==>
        && res == Err(NotFound("Runner not found"))
        && activityRepository.rows == old(activityRepository.rows)
        && activityRepository.nextId == old(activityRepository.nextId)
        && badgeService.badgeRepository.Table() == old(badgeService.badgeRepository.Table())
      ensures FindRunnerById(runnerRepository.rows, runnerId).Some? ==>
        var runner := FindRunnerById(runnerRepository.rows, runnerId).value;
        && res == Ok(Activity(Some(old(activityRepository.nextId)), distanceKm, durationSec, date, route,
                              calories.GetOr(EstimateCalories(distanceKm, runner.weight)), runnerId))
        && activityRepository.rows == old(activityRepository.rows) + [res.value]
        && activityRepository.nextId == old(activityRepository.nextId) + 1
        && badgeService.badgeRepository.Table() ==
             Evaluate(old(badgeService.badgeRepository.Table()), runnerId, distanceKm,
                      CountByRunner(activityRepository.rows, runnerId),
                      SumDistanceByRunner(activityRepository.rows, runnerId), today)
        && Holds(badgeService.badgeRepository.rows, runnerId, FIRST_RUN.code)
    {
      var found := FindRunnerById(runnerRepository.rows, runnerId);
      if found.None? {
        return Err(NotFound("Runner not found"));
      }
      var runner := found.value;
      var activity := Activity(None, distanceKm, durationSec, date, route, 0, runnerId);
      if calories.Some? {
        activity := activity.(calories := calories.value);
      } else {
        activity := activity.(calories := EstimateCalories(distanceKm, runner.weight));
      }
      var saved := activityRepository.Save(activity);
      ghost var before := badgeService.badgeRepository.Table();
      badgeService.EvaluateBadges(runnerId, saved, today);
      FirstRunAwarded(before, old(activityRepository.rows), saved, runnerId, today);
      res := Ok(saved);
      forall i | 0 <= i < |activityRepository.rows|
        ensures FindRunnerIndex(runnerRepository.rows, activityRepository.rows[i].runner).Some?
      {
        if i < |old(activityRepository.rows)| {
          assert activityRepository.rows[i] == old(activityRepository.rows)[i];
        }
      }
    }

    /** updateActivity. An unknown id fails and changes nothing. Otherwise
        distance and duration are replaced, the route only when a new one is
        given, and the calories are the given ones or a fresh estimate from
        the owner's weight; date, owner and id are kept. No badge is
        evaluated. */
    method UpdateActivity(activityId: ActivityId, distanceKm: real, durationSec: int,
                          route: Option<string>, calories: Option<int>)
      returns (res: Result<Activity>)
      requires Valid()
      modifies activityRepository
      ensures Valid()
      ensures activityRepository.nextId == old(activityRepository.nextId)
      ensures FindActivityIndex(old(activityRepository.rows), activityId).None? ==>
        res == Err(NotFound("Activity not found")) && activityRepository.rows == old(activityRepository.rows)
      ensures FindActivityIndex(old(activityRepository.rows), activityId).Some? ==>
        var k := FindActivityIndex(old(activityRepository.rows), activityId).value;
        var a := old(activityRepository.rows)[k];
        var owner := FindRunnerById(runnerRepository.rows, a.runner).value;
        && res.Ok?
        && res.value.id == a.id && res.value.date == a.date && res.value.runner == a.runner
        && res.value.distanceKm == distanceKm && res.value.durationSec == durationSec
        && res.value.route == (if route.Some? then route else a.route)
        && res.value.calories == calories.GetOr(EstimateCalories(distanceKm, owner.weight))
        && activityRepository.rows == old(activityRepository.rows)[k := res.value]
    {
      var found := GetActivityById(activityId);
      if found.Err? {
        return Err(found.error);
      }
      var activity := found.value;
      activity := activity.(distanceKm := distanceKm);
      activity := activity.(durationSec := durationSec);
      if route.Some? {
        activity := activity.(route := route);
      }
      if calories.Some? {
        activity := activity.(calories := calories.value);
      } else {
        var k := FindActivityIndex(activityRepository.rows, activityId).value;
        assert activityRepository.rows[k].runner == activity.runner;
        var owner := FindRunnerById(runnerRepository.rows, activity.runner).value;
        activity := activity.(calories := EstimateCalories(distanceKm, owner.weight));
      }
      var saved := activityRepository.Save(activity);
      res := Ok(saved);
      forall i | 0 <= i < |activityRepository.rows|
        ensures FindRunnerIndex(runnerRepository.rows, activityRepository.rows[i].runner).Some?
      {
        assert activityRepository.rows[i].runner == old(activityRepository.rows)[i].runner;
      }
    }

    /** deleteActivity: an unknown id fails and changes nothing; otherwise
        exactly that activity is removed and every other one is kept. */
    method DeleteActivity(activityId: ActivityId) returns (outcome: Outcome)
      requires Valid()
      modifies activityRepository
      ensures Valid()
      ensures activityRepository.nextId == old(activityRepository.nextId)
      ensures FindActivityIndex(old(activityRepository.rows), activityId).None? ==>
        outcome == Fail(NotFound("Activity not found")) && activityRepository.rows == old(activityRepository.rows)
      ensures FindActivityIndex(old(activityRepository.rows), activityId).Some? ==>
        && outcome == Pass
        && |activityRepository.rows| == |old(activityRepository.rows)| - 1
        && forall a :: a in activityRepository.rows <==> a in old(activityRepository.rows) && a.id != Some(activityId)
    {
      var found := GetActivityById(activityId);
      if found.Err? {
        return Fail(found.error);
      }
      ghost var before := activityRepository.rows;
      ghost var k := FindActivityIndex(before, activityId).value;
      activityRepository.Delete(activityId);
      outcome := Pass;
      RemoveAtKeepsOthers(before, k);
      forall i | 0 <= i < |activityRepository.rows|
        ensures FindRunnerIndex(runnerRepository.rows, activityRepository.rows[i].runner).Some?
      {
        assert activityRepository.rows[i] in before;
      }
    }
  }

  /** Removing the row at `k` from a table with distinct ids removes exactly
      the activity with that row's id. */
  lemma RemoveAtKeepsOthers(rows: seq<Activity>, k: nat)
    requires k < |rows| && rows[k].id.Some?
    requires forall i, j :: 0 <= i < j < |rows| ==> rows[i].id != rows[j].id
    ensures forall a :: a in rows[..k] + rows[k + 1..] <==> a in rows && a.id != rows[k].id
  {
    var rest := rows[..k] + rows[k + 1..];
    forall a | a in rows && a.id != rows[k].id ensures a in rest {
      var i :| 0 <= i < |rows| && rows[i] == a;
      if i < k {
        assert rest[i] == a;
      } else {
        assert rest[i - 1] == a;
      }
    }
    forall a | a in rest ensures a in rows && a.id != rows[k].id {
      var i :| 0 <= i < |rest| && rest[i] == a;
      if i < k {
        assert rows[i] == a;
      } else {
        assert rows[i + 1] == a;
      }
    }
  }

  /** Both totals are read after the new run is stored, so the runner's
      count is at least one and FIRST_RUN is always held after an add. */
  lemma FirstRunAwarded(t: BadgeTable, rows: seq<Activity>, saved: Activity, runner: RunnerId, today: Date)
    requires saved.runner == runner
    ensures var runs := CountByRunner(rows + [saved], runner);
      Holds(Evaluate(t, runner, saved.distanceKm, runs, SumDistanceByRunner(rows + [saved], runner), today).rows,
            runner, FIRST_RUN.code)
  {
    var runs := CountByRunner(rows + [saved], runner);
    var total := SumDistanceByRunner(rows + [saved], runner);
    AppendActivity(rows, saved, runner);
    TotalStatsThresholds(runs, total);
    assert FIRST_RUN in FiredRules(saved.distanceKm, runs, total);
    AssignAllHolds(t, runner, FiredRules(saved.distanceKm, runs, total), today);
  }
}
