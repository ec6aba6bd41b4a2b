/** The three JPA entities as records. A record built by a constructor has no
    id (`None`); the repository gives it one when it is first saved. A
    setter call `e.setX(v)` on a loaded entity is the record update
    `e.(x := v)`. The unique constraints declared on the entities are the
    table-wide predicates at the end. */
module Entities {
  import opened Common

  /** RunnerEntity: a registered user. `weight` is the only nullable column. */
  datatype Runner = Runner(
    id: Option<RunnerId>,
    username: string,
    email: string,
    passwordHash: string,
    dateJoined: DateTime,
    role: string,
    weight: Option<real>
  )

  /** ActivityEntity: one recorded run, owned by exactly one runner. */
  datatype Activity = Activity(
    id: Option<ActivityId>,
    distanceKm: real,
    durationSec: int,
    date: Date,
    route: Option<string>,
    calories: int,
    runner: RunnerId
  )

  /** BadgeEntity: an achievement held by a runner. `code`, `name` and
      `runner` are NOT NULL columns; `description` and `awardedAt` may be
      null. */
  datatype Badge = Badge(
    id: Option<BadgeId>,
    code: string,
    name: string,
    description: Option<string>,
    awardedAt: Option<Date>,
    seen: bool,
    runner: RunnerId
  )

  /** The role every runner gets on creation. */
  const USER_ROLE := "USER"

  /** RunnerEntity(username, email, passwordHash): the credentials verbatim,
      joined now, role USER, no weight, not yet persisted. */
  function NewRunner(username: string, email: string, passwordHash: string, now: DateTime): (r: Runner)
    ensures r.id.None?
    ensures r.username == username && r.email == email && r.passwordHash == passwordHash
    ensures r.role == USER_ROLE && r.dateJoined == now && r.weight.None?
  {
    Runner(None, username, email, passwordHash, now, USER_ROLE, None)
  }

  /** BadgeEntity(code, name, description, runner): the four values verbatim,
      awarded today, not yet seen, not yet persisted. */
  function NewBadge(code: string, name: string, description: Option<string>, runner: RunnerId, today: Date): (b: Badge)
    ensures b.id.None?
    ensures b.code == code && b.name == name && b.description == description && b.runner == runner
    ensures b.awardedAt == Some(today) && !b.seen
  {
    Badge(None, code, name, description, Some(today), false, runner)
  }

  /** `unique = true` on RunnerEntity.username. */
  ghost predicate UniqueUsernames(rows: seq<Runner>) {
    forall i, j :: 0 <= i < j < |rows| ==> rows[i].username != rows[j].username
  }

  /** `unique = true` on RunnerEntity.email. */
  ghost predicate UniqueEmails(rows: seq<Runner>) {
    forall i, j :: 0 <= i < j < |rows| ==> rows[i].email != rows[j].email
  }

  /** The `(runner_id, code)` unique constraint of the badges table. */
  ghost predicate UniqueRunnerCode(rows: seq<Badge>) {
    forall i, j :: 0 <= i < j < |rows| ==> rows[i].runner != rows[j].runner || rows[i].code != rows[j].code
  }
}
