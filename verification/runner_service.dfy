/** RunnerService: profile lookups, the profile update with its e-mail
    uniqueness check, and account removal. The removal also deletes the
    runner's activities and badges, as the CascadeType.ALL relations of
    RunnerEntity make JPA do; the two owned tables are therefore fields of
    the service here. */
module Runners {
  import opened Common
  import opened Entities
  import opened Repositories

  /** A lookup by id finds the same runner in two tables whose rows carry
      the same ids. */
  lemma SameIdsSameRunners(a: seq<Runner>, b: seq<Runner>, x: RunnerId)
    requires |a| == |b| && forall i :: 0 <= i < |a| ==> a[i].id == b[i].id
    ensures FindRunnerIndex(a, x).Some? <==> FindRunnerIndex(b, x).Some?
  {
    if FindRunnerIndex(a, x).Some? {
      var k := FindRunnerIndex(a, x).value;
      assert b[k].id == Some(x);
    }
    if FindRunnerIndex(b, x).Some? {
      var k := FindRunnerIndex(b, x).value;
      assert a[k].id == Some(x);
    }
  }

  /** Removing the row at `k` leaves every other id findable and makes the
      removed id unfindable, when ids are distinct. */
  lemma RemoveRunnerAt(rows: seq<Runner>, k: nat, x: RunnerId)
    requires k < |rows| && rows[k].id.Some?
    requires forall i, j :: 0 <= i < j < |rows| ==> rows[i].id != rows[j].id
    ensures x != rows[k].id.value ==>
      (FindRunnerIndex(rows[..k] + rows[k + 1..], x).Some? <==> FindRunnerIndex(rows, x).Some?)
    ensures x == rows[k].id.value ==> FindRunnerIndex(rows[..k] + rows[k + 1..], x).None?
  {
    var rest := rows[..k] + rows[k + 1..];
    if FindRunnerIndex(rows, x).Some? && x != rows[k].id.value {
      var j := FindRunnerIndex(rows, x).value;
      if j < k {
        assert rest[j] == rows[j];
      } else {
        assert rest[j - 1] == rows[j];
      }
    }
    if FindRunnerIndex(rest, x).Some? {
      var j := FindRunnerIndex(rest, x).value;
      if j < k {
        assert rest[j] == rows[j];
      } else {
        assert rest[j] == rows[j + 1];
      }
    }
  }

  /** After the cascade, the activities left all have an owner among the
      runners left. */
  lemma CascadeKeepsActivitiesOwned(rows: seq<Runner>, k: nat, acts: seq<Activity>, kept: seq<Activity>)
    requires k < |rows| && rows[k].id.Some?
    requires forall i, j :: 0 <= i < j < |rows| ==> rows[i].id != rows[j].id
    requires ActivitiesOwned(rows, acts)
    requires forall a :: a in kept ==> a in acts && a.runner != rows[k].id.value
    ensures ActivitiesOwned(rows[..k] + rows[k + 1..], kept)
  {
    forall i | 0 <= i < |kept| ensures FindRunnerIndex(rows[..k] + rows[k + 1..], kept[i].runner).Some? {
      assert kept[i] in acts;
      var j :| 0 <= j < |acts| && acts[j] == kept[i];
      RemoveRunnerAt(rows, k, kept[i].runner);
    }
  }

  /** After the cascade, the badges left all have an owner among the
      runners left. */
  lemma CascadeKeepsBadgesOwned(rows: seq<Runner>, k: nat, badges: seq<Badge>, kept: seq<Badge>)
    requires k < |rows| && rows[k].id.Some?
    requires forall i, j :: 0 <= i < j < |rows| ==> rows[i].id != rows[j].id
    requires BadgesOwned(rows, badges)
    requires forall b :: b in kept ==> b in badges && b.runner != rows[k].id.value
    ensures BadgesOwned(rows[..k] + rows[k + 1..], kept)
  {
    forall i | 0 <= i < |kept| ensures FindRunnerIndex(rows[..k] + rows[k + 1..], kept[i].runner).Some? {
      assert kept[i] in badges;
      var j :| 0 <= j < |badges| && badges[j] == kept[i];
      RemoveRunnerAt(rows, k, kept[i].runner);
    }
  }

  class RunnerService {
    const runnerRepository: RunnerRepository
    const activityRepository: ActivityRepository
    const badgeRepository: BadgeRepository

    constructor (runnerRepository: RunnerRepository, activityRepository: ActivityRepository, badgeRepository: BadgeRepository)
      ensures this.runnerRepository == runnerRepository
      ensures this.activityRepository == activityRepository
      ensures this.badgeRepository == badgeRepository
    {
      this.runnerRepository := runnerRepository;
      this.activityRepository := activityRepository;
      this.badgeRepository := badgeRepository;
    }

    /** The three tables are well formed and every activity and badge has a
        stored owner. */
    ghost predicate Valid()
      reads this, runnerRepository, activityRepository, badgeRepository
    {
      && runnerRepository.Valid()
      && activityRepository.Valid()
      && badgeRepository.Valid()
      && Integrity(runnerRepository.rows, activityRepository.rows, badgeRepository.rows)
    }

    /** getRunnerById. */
    function GetRunnerById(id: RunnerId): (r: Option<Runner>)
      reads runnerRepository
      ensures r.Some? <==> exists i :: 0 <= i < |runnerRepository.rows| && runnerRepository.rows[i].id == Some(id)
      ensures r.Some? ==> r.value in runnerRepository.rows && r.value.id == Some(id)
    {
      FindRunnerById(runnerRepository.rows, id)
    }

    /** getRunnerByUsername. */
    function GetRunnerByUsername(username: string): (r: Option<Runner>)
      reads runnerRepository
      ensures r.Some? <==> ExistsByUsername(runnerRepository.rows, username)
      ensures r.Some? ==> r.value in runnerRepository.rows && r.value.username == username
    {
      FindByUsername(runnerRepository.rows, username)
    }

    /** updateRunner. An unknown id fails NotFound. A new e-mail that another
        runner already uses fails Conflict; keeping one's own e-mail never
        does. Otherwise the e-mail is replaced, the weight only when a new
        one is given, and nothing else about the runner changes. */
    method UpdateRunner(id: RunnerId, newEmail: string, newWeight: Option<real>) returns (res: Result<Runner>)
      requires Valid()
      modifies runnerRepository
      ensures Valid()
      ensures runnerRepository.nextId == old(runnerRepository.nextId)
      ensures FindRunnerIndex(old(runnerRepository.rows), id).None? ==>
        res == Err(NotFound("Runner not found")) && runnerRepository.rows == old(runnerRepository.rows)
      ensures FindRunnerIndex(old(runnerRepository.rows), id).Some? ==>
        var k := FindRunnerIndex(old(runnerRepository.rows), id).value;
        var before := old(runnerRepository.rows)[k];
        && (res.Err? <==> before.email != newEmail && ExistsByEmail(old(runnerRepository.rows), newEmail))
        && (res.Err? ==> res.error == Conflict("Email already exists") && runnerRepository.rows == old(runnerRepository.rows))
        && (res.Ok? ==>
              && res.value.email == newEmail
              && res.value.weight == (if newWeight.Some? then newWeight else before.weight)
              && res.value.(email := before.email, weight := before.weight) == before
              && runnerRepository.rows == old(runnerRepository.rows)[k := res.value])
    {
      var found := FindRunnerById(runnerRepository.rows, id);
      if found.None? {
        return Err(NotFound("Runner not found"));
      }
      var runner := found.value;
      if runner.email != newEmail && ExistsByEmail(runnerRepository.rows, newEmail) {
        return Err(Conflict("Email already exists"));
      }
      runner := runner.(email := newEmail);
      if newWeight.Some? {
        runner := runner.(weight := newWeight);
      }
      ghost var before := runnerRepository.rows;
      ghost var k := FindRunnerIndex(before, id).value;
      assert !BreaksRunnerUniqueness(before, runner) by {
        forall i | 0 <= i < |before| && before[i].id != runner.id
          ensures before[i].username != runner.username && before[i].email != runner.email
        {
          assert i != k;
        }
      }
      res := runnerRepository.Save(runner);
      forall x ensures FindRunnerIndex(runnerRepository.rows, x).Some? <==> FindRunnerIndex(before, x).Some? {
        SameIdsSameRunners(runnerRepository.rows, before, x);
      }
    }

    /** deleteRunner. An unknown id fails NotFound and changes nothing.
        Otherwise the runner is gone, and so is every activity and badge it
        owned; every other row of the three tables is kept, in order. */
    method DeleteRunner(id: RunnerId) returns (outcome: Outcome)
      requires Valid()
      modifies runnerRepository, activityRepository, badgeRepository
      ensures Valid()
      ensures FindRunnerIndex(old(runnerRepository.rows), id).None? ==>
        && outcome == Fail(NotFound("Runner not found"))
        && runnerRepository.rows == old(runnerRepository.rows)
        && activityRepository.rows == old(activityRepository.rows)
        && badgeRepository.rows == old(badgeRepository.rows)
      ensures FindRunnerIndex(old(runnerRepository.rows), id).Some? ==>
        var k := FindRunnerIndex(old(runnerRepository.rows), id).value;
        && outcome == Pass
        && runnerRepository.rows == old(runnerRepository.rows)[..k] + old(runnerRepository.rows)[k + 1..]
        && FindRunnerById(runnerRepository.rows, id).None?
        && activityRepository.rows == Filter(old(activityRepository.rows), (a: Activity) => a.runner != id)
        && badgeRepository.rows == Filter(old(badgeRepository.rows), (b: Badge) => b.runner != id)
        && FindByRunnerId(activityRepository.rows, id) == []
        && BadgesByRunnerId(badgeRepository.rows, id) == []
      ensures runnerRepository.nextId == old(runnerRepository.nextId)
      ensures activityRepository.nextId == old(activityRepository.nextId)
      ensures badgeRepository.nextId == old(badgeRepository.nextId)
    {
      if FindRunnerIndex(runnerRepository.rows, id).None? {
        return Fail(NotFound("Runner not found"));
      }
      ghost var before := runnerRepository.rows;
      ghost var k := FindRunnerIndex(before, id).value;
      activityRepository.DeleteOwnedBy(id);
      badgeRepository.DeleteOwnedBy(id);
      runnerRepository.DeleteById(id);
      outcome := Pass;
      RemoveRunnerAt(before, k, id);
      CascadeKeepsActivitiesOwned(before, k, old(activityRepository.rows), activityRepository.rows);
      CascadeKeepsBadgesOwned(before, k, old(badgeRepository.rows), badgeRepository.rows);
      FilterNone(activityRepository.rows, (a: Activity) => a.runner == id);
      FilterNone(badgeRepository.rows, (b: Badge) => b.runner == id);
    }
  }
}
