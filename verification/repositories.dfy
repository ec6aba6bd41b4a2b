/** The three Spring Data repositories: each table is a class holding its rows
    in insertion order and the next identity value. `save` of a record
    without an id inserts it under a fresh id; `save` of a loaded record
    replaces the row with that id (JPA merge). The database's unique
    constraints are enforced by `save` itself, which refuses a row that
    would break them. The derived queries (findBy..., countBy..., the JPQL
    SUM and COUNT queries) are functions over the rows. */
module Repositories {
  import opened Common
  import opened Entities

  // ---------------------------------------------------------------------
  // Filtering, the shape of every `WHERE` clause below

  /** The elements of `s` that satisfy `p`, in order. */
  function Filter<T(!new)>(s: seq<T>, p: T -> bool): (r: seq<T>)
    ensures |r| <= |s|
    ensures forall x :: x in r <==> x in s && p(x)
    decreases |s|
  {
    if s == [] then []
    else Filter(s[..|s| - 1], p) + (if p(s[|s| - 1]) then [s[|s| - 1]] else [])
  }

  lemma {:induction false} FilterAppend<T(!new)>(a: seq<T>, b: seq<T>, p: T -> bool)
    ensures Filter(a + b, p) == Filter(a, p) + Filter(b, p)
    decreases |b|
  {
    if b == [] {
      assert a + b == a;
    } else {
      var b' := b[..|b| - 1];
      assert (a + b)[..|a + b| - 1] == a + b';
      FilterAppend(a, b', p);
    }
  }

  lemma {:induction false} FilterNone<T(!new)>(s: seq<T>, p: T -> bool)
    requires forall i :: 0 <= i < |s| ==> !p(s[i])
    ensures Filter(s, p) == []
    decreases |s|
  {
    if s != [] {
      FilterNone(s[..|s| - 1], p);
    }
  }

  /** A relation that holds between every earlier and later element of `s`
      still holds after filtering: filtering keeps order and adds nothing. */
  lemma {:induction false} FilterKeepsPairwise<T(!new)>(s: seq<T>, p: T -> bool, rel: (T, T) -> bool)
    requires forall i, j :: 0 <= i < j < |s| ==> rel(s[i], s[j])
    ensures forall i, j :: 0 <= i < j < |Filter(s, p)| ==> rel(Filter(s, p)[i], Filter(s, p)[j])
    decreases |s|
  {
    if s != [] {
      var init, last := s[..|s| - 1], s[|s| - 1];
      FilterKeepsPairwise(init, p, rel);
      var f := Filter(s, p);
      var fi := Filter(init, p);
      forall i, j | 0 <= i < j < |f| ensures rel(f[i], f[j]) {
        if j >= |fi| {
          assert f[j] == last;
          assert f[i] == fi[i] && fi[i] in init;
          var k :| 0 <= k < |init| && init[k] == fi[i];
          assert s[k] == fi[i] && s[|s| - 1] == last;
        } else {
          assert f[i] == fi[i] && f[j] == fi[j];
        }
      }
    }
  }

  // ---------------------------------------------------------------------
  // RunnerRepository

  /** Position of the first row whose primary key, read by `key`, is `id`:
      the lookup behind every findById. */
  function IndexOfId<T>(rows: seq<T>, key: T -> Option<nat>, id: nat): (k: Option<nat>)
    ensures k.Some? ==> k.value < |rows| && key(rows[k.value]) == Some(id)
    ensures k.None? ==> forall i :: 0 <= i < |rows| ==> key(rows[i]) != Some(id)
  {
    if rows == [] then None
    else if key(rows[0]) == Some(id) then Some(0)
    else match IndexOfId(rows[1..], key, id)
      case None => None
      case Some(k) => Some(k + 1)
  }

  function RunnerKey(r: Runner): Option<nat> { r.id }

  /** Position of the runner row with primary key `id`. */
  function FindRunnerIndex(rows: seq<Runner>, id: RunnerId): Option<nat> {
    IndexOfId(rows, RunnerKey, id)
  }

  /** findById. */
  function FindRunnerById(rows: seq<Runner>, id: RunnerId): (r: Option<Runner>)
    ensures r.Some? ==> r.value in rows && r.value.id == Some(id)
    ensures r.None? <==> forall i :: 0 <= i < |rows| ==> rows[i].id != Some(id)
  {
    match FindRunnerIndex(rows, id)
    case None => None
    case Some(k) => Some(rows[k])
  }

  /** findByUsername. */
  function FindByUsername(rows: seq<Runner>, username: string): (r: Option<Runner>)
    ensures r.Some? ==> r.value in rows && r.value.username == username
    ensures r.None? <==> forall i :: 0 <= i < |rows| ==> rows[i].username != username
  {
    if rows == [] then None
    else if rows[0].username == username then Some(rows[0])
    else FindByUsername(rows[1..], username)
  }

  /** existsByUsername. */
  predicate ExistsByUsername(rows: seq<Runner>, username: string) {
    exists i | 0 <= i < |rows| :: rows[i].username == username
  }

  /** existsByEmail. */
  predicate ExistsByEmail(rows: seq<Runner>, email: string) {
    exists i | 0 <= i < |rows| :: rows[i].email == email
  }

  /** With usernames unique, the runner found by username is the only one. */
  lemma FindByUsernameUnique(rows: seq<Runner>, k: nat)
    requires UniqueUsernames(rows) && k < |rows|
    ensures FindByUsername(rows, rows[k].username) == Some(rows[k])
  {
    var r := FindByUsername(rows, rows[k].username);
    var i :| 0 <= i < |rows| && rows[i] == r.value;
    assert i == k;
  }

  /** Saving `r` would give two rows the same username or the same email. */
  ghost predicate BreaksRunnerUniqueness(rows: seq<Runner>, r: Runner) {
    exists i :: 0 <= i < |rows| && rows[i].id != r.id && (rows[i].username == r.username || rows[i].email == r.email)
  }

  class RunnerRepository {
    var rows: seq<Runner>
    var nextId: nat

    ghost predicate Valid()
      reads this
    {
      && (forall i :: 0 <= i < |rows| ==> rows[i].id.Some? && rows[i].id.value < nextId)
      && (forall i, j :: 0 <= i < j < |rows| ==> rows[i].id != rows[j].id)
      && UniqueUsernames(rows)
      && UniqueEmails(rows)
    }

    constructor ()
      ensures Valid() && rows == [] && nextId == 0
    {
      rows, nextId := [], 0;
    }

    /** save: insert a new runner, or overwrite the stored one with the same
        id; a username or email already used by another row is refused. */
    method Save(r: Runner) returns (res: Result<Runner>)
      requires Valid()
      requires r.id.None? || FindRunnerIndex(rows, r.id.value).Some?
      modifies this
      ensures Valid()
      ensures BreaksRunnerUniqueness(old(rows), r) ==>
        res == Err(DataIntegrityViolation) && rows == old(rows) && nextId == old(nextId)
      ensures !BreaksRunnerUniqueness(old(rows), r) && r.id.None? ==>
        && res == Ok(r.(id := Some(old(nextId))))
        && rows == old(rows) + [res.value]
        && nextId == old(nextId) + 1
      ensures !BreaksRunnerUniqueness(old(rows), r) && r.id.Some? ==>
        && res == Ok(r)
        && rows == old(rows)[FindRunnerIndex(old(rows), r.id.value).value := r]
        && nextId == old(nextId)
    {
      if exists i :: 0 <= i < |rows| && rows[i].id != r.id && (rows[i].username == r.username || rows[i].email == r.email) {
        return Err(DataIntegrityViolation);
      }
      if r.id.None? {
        var saved := r.(id := Some(nextId));
        rows, nextId := rows + [saved], nextId + 1;
        res := Ok(saved);
      } else {
        var k := FindRunnerIndex(rows, r.id.value).value;
        rows := rows[k := r];
        res := Ok(r);
      }
    }

    /** deleteById of a stored runner (the rows it owns are the caller's
        business: see RunnerService). */
    method DeleteById(id: RunnerId)
      requires Valid() && FindRunnerIndex(rows, id).Some?
      modifies this
      ensures Valid() && nextId == old(nextId)
      ensures var k := FindRunnerIndex(old(rows), id).value; rows == old(rows)[..k] + old(rows)[k + 1..]
    {
      var k := FindRunnerIndex(rows, id).value;
      rows := rows[..k] + rows[k + 1..];
    }
  }

  // ---------------------------------------------------------------------
  // ActivityRepository

  function ActivityKey(a: Activity): Option<nat> { a.id }

  /** Position of the activity row with primary key `id`. */
  function FindActivityIndex(rows: seq<Activity>, id: ActivityId): Option<nat> {
    IndexOfId(rows, ActivityKey, id)
  }

  /** findById. */
  function FindActivityById(rows: seq<Activity>, id: ActivityId): (r: Option<Activity>)
    ensures r.Some? ==> r.value in rows && r.value.id == Some(id)
    ensures r.None? <==> forall i :: 0 <= i < |rows| ==> rows[i].id != Some(id)
  {
    match FindActivityIndex(rows, id)
    case None => None
    case Some(k) => Some(rows[k])
  }

  /** findByRunnerId: the runner's activities in store order. */
  function FindByRunnerId(rows: seq<Activity>, runner: RunnerId): (r: seq<Activity>)
    ensures forall a :: a in r <==> a in rows && a.runner == runner
  {
    Filter(rows, (a: Activity) => a.runner == runner)
  }

  /** countByRunner, counted row by row. */
  function CountByRunner(rows: seq<Activity>, runner: RunnerId): (n: nat)
    ensures n == |FindByRunnerId(rows, runner)|
    decreases |rows|
  {
    if rows == [] then 0
    else CountByRunner(rows[..|rows| - 1], runner) + (if rows[|rows| - 1].runner == runner then 1 else 0)
  }

  /** SUM(a.distanceKm) over a list of activities, 0 when empty. */
  function SumDistance(acts: seq<Activity>): real
    decreases |acts|
  {
    if acts == [] then 0.0 else SumDistance(acts[..|acts| - 1]) + acts[|acts| - 1].distanceKm
  }

  /** totalDistance: SQL SUM, which is NULL when the runner has no activity. */
  function TotalDistance(rows: seq<Activity>, runner: RunnerId): (r: Option<real>)
    ensures r.None? <==> CountByRunner(rows, runner) == 0
    ensures r.Some? ==> r.value == SumDistance(FindByRunnerId(rows, runner))
  {
    var owned := FindByRunnerId(rows, runner);
    if owned == [] then None else Some(SumDistance(owned))
  }

  /** totalActivities: SQL COUNT over the runner's id. */
  function TotalActivities(rows: seq<Activity>, runner: RunnerId): (n: nat)
    ensures n == CountByRunner(rows, runner)
  {
    |FindByRunnerId(rows, runner)|
  }

  /** sumDistanceByRunner: COALESCE(SUM(...), 0), never null. */
  function SumDistanceByRunner(rows: seq<Activity>, runner: RunnerId): (d: real)
    ensures d == TotalDistance(rows, runner).GetOr(0.0)
    ensures CountByRunner(rows, runner) == 0 ==> d == 0.0
  {
    SumDistance(FindByRunnerId(rows, runner))
  }

  /** Storing one more activity of `a.runner` adds one to its count and its
      distance to its sum, and leaves every other runner's figures alone. */
  lemma {:induction false} AppendActivity(rows: seq<Activity>, a: Activity, runner: RunnerId)
    ensures a.runner == runner ==> FindByRunnerId(rows + [a], runner) == FindByRunnerId(rows, runner) + [a]
    ensures a.runner != runner ==> FindByRunnerId(rows + [a], runner) == FindByRunnerId(rows, runner)
    ensures CountByRunner(rows + [a], runner) == CountByRunner(rows, runner) + (if a.runner == runner then 1 else 0)
    ensures SumDistanceByRunner(rows + [a], runner) ==
      SumDistanceByRunner(rows, runner) + (if a.runner == runner then a.distanceKm else 0.0)
  {
    assert (rows + [a])[..|rows + [a]| - 1] == rows;
    var owned := FindByRunnerId(rows, runner);
    if a.runner == runner {
      assert (owned + [a])[..|owned + [a]| - 1] == owned;
    }
  }

  /** Distances that are all positive sum to a positive total. */
  lemma {:induction false} SumDistancePositive(acts: seq<Activity>)
    requires forall i :: 0 <= i < |acts| ==> acts[i].distanceKm > 0.0
    ensures acts != [] ==> SumDistance(acts) > 0.0
    ensures SumDistance(acts) >= 0.0
    decreases |acts|
  {
    if acts != [] {
      SumDistancePositive(acts[..|acts| - 1]);
    }
  }

  class ActivityRepository {
    var rows: seq<Activity>
    var nextId: nat

    ghost predicate Valid()
      reads this
    {
      && (forall i :: 0 <= i < |rows| ==> rows[i].id.Some? && rows[i].id.value < nextId)
      && (forall i, j :: 0 <= i < j < |rows| ==> rows[i].id != rows[j].id)
    }

    constructor ()
      ensures Valid() && rows == [] && nextId == 0
    {
      rows, nextId := [], 0;
    }

    /** save: insert a new activity, or overwrite the stored one with the same id. */
    method Save(a: Activity) returns (saved: Activity)
      requires Valid()
      requires a.id.None? || FindActivityIndex(rows, a.id.value).Some?
      modifies this
      ensures Valid()
      ensures a.id.None? ==>
        saved == a.(id := Some(old(nextId))) && rows == old(rows) + [saved] && nextId == old(nextId) + 1
      ensures a.id.Some? ==>
        && saved == a && nextId == old(nextId)
        && rows == old(rows)[FindActivityIndex(old(rows), a.id.value).value := a]
    {
      if a.id.None? {
        saved := a.(id := Some(nextId));
        rows, nextId := rows + [saved], nextId + 1;
      } else {
        var k := FindActivityIndex(rows, a.id.value).value;
        rows := rows[k := a];
        saved := a;
      }
    }

    /** delete of a stored activity. */
    method Delete(id: ActivityId)
      requires Valid() && FindActivityIndex(rows, id).Some?
      modifies this
      ensures Valid() && nextId == old(nextId)
      ensures var k := FindActivityIndex(old(rows), id).value; rows == old(rows)[..k] + old(rows)[k + 1..]
    {
      var k := FindActivityIndex(rows, id).value;
      rows := rows[..k] + rows[k + 1..];
    }

    /** The cascade from a deleted runner: every activity it owns goes. */
    method DeleteOwnedBy(runner: RunnerId)
      requires Valid()
      modifies this
      ensures Valid() && nextId == old(nextId)
      ensures rows == Filter(old(rows), (a: Activity) => a.runner != runner)
    {
      FilterKeepsPairwise(rows, (a: Activity) => a.runner != runner, (x: Activity, y: Activity) => x.id != y.id);
      rows := Filter(rows, (a: Activity) => a.runner != runner);
      forall i | 0 <= i < |rows| ensures rows[i].id.Some? && rows[i].id.value < nextId {
        assert rows[i] in old(rows);
      }
    }
  }

  // ---------------------------------------------------------------------
  // BadgeRepository

  /** findByRunnerAndCode. */
  function FindByRunnerAndCode(rows: seq<Badge>, runner: RunnerId, code: string): (r: Option<Badge>)
    ensures r.Some? ==> r.value in rows && r.value.runner == runner && r.value.code == code
    ensures r.None? <==> forall i :: 0 <= i < |rows| ==> rows[i].runner != runner || rows[i].code != code
  {
    if rows == [] then None
    else if rows[0].runner == runner && rows[0].code == code then Some(rows[0])
    else FindByRunnerAndCode(rows[1..], runner, code)
  }

  /** findByRunnerId for badges: the runner's badges in store order. */
  function BadgesByRunnerId(rows: seq<Badge>, runner: RunnerId): (r: seq<Badge>)
    ensures forall b :: b in r <==> b in rows && b.runner == runner
  {
    Filter(rows, (b: Badge) => b.runner == runner)
  }

  /** The badges table as a value: its rows and the next identity value. */
  datatype BadgeTable = BadgeTable(rows: seq<Badge>, nextId: nat)

  /** Every stored badge has an id below the next one, ids are distinct, and
      no runner holds two badges with the same code. */
  ghost predicate ValidBadgeTable(t: BadgeTable) {
    && (forall i :: 0 <= i < |t.rows| ==> t.rows[i].id.Some? && t.rows[i].id.value < t.nextId)
    && (forall i, j :: 0 <= i < j < |t.rows| ==> t.rows[i].id != t.rows[j].id)
    && UniqueRunnerCode(t.rows)
  }

  class BadgeRepository {
    var rows: seq<Badge>
    var nextId: nat

    function Table(): BadgeTable
      reads this
    {
      BadgeTable(rows, nextId)
    }

    ghost predicate Valid()
      reads this
    {
      ValidBadgeTable(Table())
    }

    constructor ()
      ensures Valid() && rows == [] && nextId == 0
    {
      rows, nextId := [], 0;
    }

    /** save of a new badge. The `(runner_id, code)` constraint makes the
        database refuse a second badge with the same runner and code. */
    method Save(b: Badge) returns (res: Result<Badge>)
      requires Valid() && b.id.None?
      modifies this
      ensures Valid()
      ensures FindByRunnerAndCode(old(rows), b.runner, b.code).Some? ==>
        res == Err(DataIntegrityViolation) && rows == old(rows) && nextId == old(nextId)
      ensures FindByRunnerAndCode(old(rows), b.runner, b.code).None? ==>
        && res == Ok(b.(id := Some(old(nextId))))
        && rows == old(rows) + [res.value]
        && nextId == old(nextId) + 1
    {
      if FindByRunnerAndCode(rows, b.runner, b.code).Some? {
        return Err(DataIntegrityViolation);
      }
      var saved := b.(id := Some(nextId));
      rows, nextId := rows + [saved], nextId + 1;
      res := Ok(saved);
    }

    /** The cascade from a deleted runner: every badge it holds goes. */
    method DeleteOwnedBy(runner: RunnerId)
      requires Valid()
      modifies this
      ensures Valid() && nextId == old(nextId)
      ensures rows == Filter(old(rows), (b: Badge) => b.runner != runner)
    {
      FilterKeepsPairwise(rows, (b: Badge) => b.runner != runner, (x: Badge, y: Badge) => x.id != y.id);
      FilterKeepsPairwise(rows, (b: Badge) => b.runner != runner,
        (x: Badge, y: Badge) => x.runner != y.runner || x.code != y.code);
      rows := Filter(rows, (b: Badge) => b.runner != runner);
      forall i | 0 <= i < |rows| ensures rows[i].id.Some? && rows[i].id.value < nextId {
        assert rows[i] in old(rows);
      }
    }
  }

  // ---------------------------------------------------------------------
  // Foreign keys across the three tables

  /** Every activity belongs to a stored runner (`runner_id` is a NOT NULL
      foreign key). */
  ghost predicate ActivitiesOwned(runners: seq<Runner>, acts: seq<Activity>) {
    forall i :: 0 <= i < |acts| ==> FindRunnerIndex(runners, acts[i].runner).Some?
  }

  /** Every badge belongs to a stored runner. */
  ghost predicate BadgesOwned(runners: seq<Runner>, badges: seq<Badge>) {
    forall i :: 0 <= i < |badges| ==> FindRunnerIndex(runners, badges[i].runner).Some?
  }

  /** Referential integrity across the three tables. */
  ghost predicate Integrity(runners: seq<Runner>, acts: seq<Activity>, badges: seq<Badge>) {
    ActivitiesOwned(runners, acts) && BadgesOwned(runners, badges)
  }

  /** The id the next registration receives owns nothing yet. */
  lemma FreshRunnerOwnsNothing(runners: seq<Runner>, nextId: nat, acts: seq<Activity>, badges: seq<Badge>)
    requires Integrity(runners, acts, badges)
    requires forall i :: 0 <= i < |runners| ==> runners[i].id.Some? && runners[i].id.value < nextId
    ensures FindByRunnerId(acts, nextId) == []
    ensures BadgesByRunnerId(badges, nextId) == []
  {
    forall i | 0 <= i < |acts| ensures acts[i].runner != nextId {
      var k := FindRunnerIndex(runners, acts[i].runner).value;
    }
    forall i | 0 <= i < |badges| ensures badges[i].runner != nextId {
      var k := FindRunnerIndex(runners, badges[i].runner).value;
    }
    FilterNone(acts, (a: Activity) => a.runner == nextId);
    FilterNone(badges, (b: Badge) => b.runner == nextId);
  }
}
