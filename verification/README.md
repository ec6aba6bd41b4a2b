# Jogger backend core in Dafny

This project models the core of the Jogger running-log backend, a Spring Boot service. The model covers:

- the **badge engine**:
  - the single-run distance rules and the lifetime rules;
  - the check-then-insert award into a ledger that holds at most one badge per (runner, code);
  - marking badges seen;
  - the BRONZE/SILVER/GOLD tier of a badge code.
- the **access decision** (`isAdmin`, `currentRunner`, `checkRunnerAccess`).
- the **JWT filter's** token extraction and identity construction.
- the **store operations** that feed the engine:
  - adding, updating and deleting activities, with the calorie estimate;
  - the activity aggregates (count, distance sums with their null and zero defaults);
  - profile update and account deletion, with the cascade to owned rows;
  - registration and login;
  - the two chart queries.

Module layout:

| file | module | Java counterpart |
|---|---|---|
| `common.dfy` | `Common` | `Option`, the error kinds (`NotFoundException`, `ForbiddenException`, `ConflictException`, bad credentials, database constraint violation), dates |
| `text.dfy` | `Text` | `String.startsWith` and `String.contains`, `Integer.toString` |
| `entities.dfy` | `Entities` | `RunnerEntity`, `ActivityEntity` and `BadgeEntity` as records |
| `repositories.dfy` | `Repositories` | the three JPA repositories |
| `badge_tiers.dfy` | `BadgeTiers` | the tier derivation |
| `badge_service.dfy` | `Badges` | `BadgeService` |
| `security.dfy` | `Security` | `JwtAuthenticationFilter` |
| `access.dfy` | `Access` | `AccessService` |
| `activity_service.dfy` | `Activities` | `ActivityService` |
| `chart_service.dfy` | `Charts` | `ChartService` |
| `runner_service.dfy` | `Runners` | `RunnerService` |
| `auth_service.dfy` | `Auth` | `AuthService` |

Each core file is modelled in its own form:

- Entities are immutable records. A setter call `e.setX(v)` becomes `e.(x := v)`, and an id is `None` until the entity is first saved.
- Each repository is a class. It holds its rows in insertion order and the next identity value.
  - `save` inserts a new row or overwrites the row with the same id.
  - The database's unique constraints are enforced by `save` itself.
  - Derived and JPQL queries are functions over the rows.
- Services are classes holding their repositories.
- Operations that change the store are methods. Each method is proved against a specification function on the table:
  - `AssignBadge` against `Assign`;
  - `MarkBadgesAsSeen` against `MarkSeen`;
  - `EvaluateBadges` against `Evaluate`.
- The properties the source promises are lemmas about those functions.

Outside inputs become parameters:

- The clock (`LocalDate.now()`, `LocalDateTime.now()`) and the ISO 8601 week number are parameters.
- The token decoder, the token generator, the password encoder and the authentication manager are functions the services are built with.

## Model

| member | source | states |
|---|---|---|
| Entities.NewRunner | jogger_backend/src/main/java/com/pavel/jogger/persistence/entity/RunnerEntity.java:69-75 | a new runner stores username, e-mail and hash verbatim, joins at the given time, gets role USER and no weight, and has no id yet |
| Entities.NewBadge | jogger_backend/src/main/java/com/pavel/jogger/persistence/entity/BadgeEntity.java:50-57 | a new badge stores code, name, description and runner verbatim, is awarded today, is unseen, and has no id yet |
| Repositories.FindRunnerById | jogger_backend/src/main/java/com/pavel/jogger/service/RunnerService.java:29-31 | findById finds a stored runner with that id, and finds none exactly when no row has it |
| Repositories.FindByUsername | jogger_backend/src/main/java/com/pavel/jogger/service/RunnerService.java:37-39 | findByUsername finds a stored runner with that username, and finds none exactly when no row has it |
| Repositories.FindByUsernameUnique | jogger_backend/src/main/java/com/pavel/jogger/persistence/entity/RunnerEntity.java:22-23 | with unique usernames, the lookup by a stored runner's username returns that very runner |
| Repositories.RunnerRepository.Save | jogger_backend/src/main/java/com/pavel/jogger/persistence/entity/RunnerEntity.java:18-26 | insert under the next id, or overwrite the row with that id; a row that would duplicate another's username or e-mail is refused and nothing changes; ids stay distinct, usernames and e-mails stay unique |
| Repositories.RunnerRepository.DeleteById | jogger_backend/src/main/java/com/pavel/jogger/service/RunnerService.java:81 | removes exactly the row with that id and keeps the others in order |
| Repositories.FindActivityById | jogger_backend/src/main/java/com/pavel/jogger/service/ActivityService.java:93-96 | finds the stored activity with that id, or nothing when none has it |
| Repositories.FindByRunnerId | jogger_backend/src/main/java/com/pavel/jogger/persistence/repository/ActivityRepository.java:22-30 | findByRunnerId returns exactly the activities owned by that runner |
| Repositories.CountByRunner | jogger_backend/src/main/java/com/pavel/jogger/persistence/repository/ActivityRepository.java:33-40 | countByRunner, counted row by row, equals the number of the runner's activities |
| Repositories.TotalDistance | jogger_backend/src/main/java/com/pavel/jogger/persistence/repository/ActivityRepository.java:43-52 | totalDistance is absent exactly when the runner has no activity, and otherwise is the sum of their distances |
| Repositories.TotalActivities | jogger_backend/src/main/java/com/pavel/jogger/persistence/repository/ActivityRepository.java:55-68 | totalActivities equals countByRunner for the same runner |
| Repositories.SumDistanceByRunner | jogger_backend/src/main/java/com/pavel/jogger/persistence/repository/ActivityRepository.java:70-81 | sumDistanceByRunner is totalDistance with absent read as 0, so it is 0 for a runner without activities |
| Repositories.AppendActivity | jogger_backend/src/main/java/com/pavel/jogger/service/BadgeService.java:128-130 | storing one more activity adds one to its owner's count and its distance to its owner's sum, and changes no other runner's figures |
| Repositories.SumDistancePositive | jogger_backend/src/main/java/com/pavel/jogger/web/dto/activity/CreateActivityRequest.java:18-22 | with the validated positive distances, a non-empty sum is positive and every sum is non-negative |
| Repositories.ActivityRepository.Save | jogger_backend/src/main/java/com/pavel/jogger/service/ActivityService.java:70 | insert under the next id, or overwrite the row with that id; ids stay distinct |
| Repositories.ActivityRepository.Delete | jogger_backend/src/main/java/com/pavel/jogger/service/ActivityService.java:137 | removes exactly the row with that id and keeps the others in order |
| Repositories.ActivityRepository.DeleteOwnedBy | jogger_backend/src/main/java/com/pavel/jogger/persistence/entity/RunnerEntity.java:47-52 | the cascade keeps exactly the activities of other runners, in order |
| Repositories.FindByRunnerAndCode | jogger_backend/src/main/java/com/pavel/jogger/service/BadgeService.java:168 | finds a badge of that runner with that code, and finds none exactly when no row matches both |
| Repositories.BadgesByRunnerId | jogger_backend/src/main/java/com/pavel/jogger/service/BadgeService.java:44 | the badges of that runner, exactly |
| Repositories.BadgeRepository.Save | jogger_backend/src/main/java/com/pavel/jogger/persistence/entity/BadgeEntity.java:16-19 | a second badge with the same (runner, code) is refused and nothing changes; otherwise the badge is appended under the next id; the table stays valid |
| Repositories.BadgeRepository.DeleteOwnedBy | jogger_backend/src/main/java/com/pavel/jogger/persistence/entity/RunnerEntity.java:54-63 | the cascade keeps exactly the badges of other runners, in order, and the table stays valid |
| Repositories.FreshRunnerOwnsNothing | jogger_backend/src/main/java/com/pavel/jogger/persistence/entity/RunnerEntity.java:52 | with referential integrity, the id the next registration receives owns no activity and no badge |
| Repositories.FilterKeepsPairwise | jogger_backend/src/main/java/com/pavel/jogger/persistence/entity/RunnerEntity.java:41-63 | deleting by owner keeps any relation that held between earlier and later rows, such as distinct ids and the (runner, code) constraint |
| BadgeTiers.Tier | jogger_backend/src/main/java/com/pavel/jogger/service/BadgeService.java:47-53 | the tier is one of BRONZE, SILVER, GOLD |
| BadgeTiers.BronzeWhenLacking | jogger_backend/src/main/java/com/pavel/jogger/service/BadgeService.java:47-53 | a code lacking one character of each SILVER pattern and one character of each GOLD pattern is BRONZE |
| BadgeTiers.GoldWhenLacking | jogger_backend/src/main/java/com/pavel/jogger/service/BadgeService.java:49-52 | a code lacking one character of each SILVER pattern and containing a GOLD pattern is GOLD |
| BadgeTiers.BronzeCodes | jogger_backend/src/main/java/com/pavel/jogger/service/BadgeService.java:47-53 | FIRST_RUN, FIRST_5K, 10_RUNS and DIST_500_KM are BRONZE |
| BadgeTiers.SilverCodes | jogger_backend/src/main/java/com/pavel/jogger/service/BadgeService.java:49-50 | FIRST_10K and DIST_100_KM are SILVER |
| BadgeTiers.GoldCodes | jogger_backend/src/main/java/com/pavel/jogger/service/BadgeService.java:51-52 | HALF_MARATHON, 50_RUNS and DIST_1000_KM are GOLD |
| BadgeTiers.ThousandKmLacks100Km | jogger_backend/src/main/java/com/pavel/jogger/service/BadgeService.java:49 | DIST_1000_KM does not contain 100_KM |
| BadgeTiers.ThousandKmLacks10K | jogger_backend/src/main/java/com/pavel/jogger/service/BadgeService.java:49 | DIST_1000_KM does not contain 10K |
| BadgeTiers.TierThousandKm | jogger_backend/src/main/java/com/pavel/jogger/service/BadgeService.java:51-52 | DIST_1000_KM is GOLD, not SILVER |
| Badges.SingleRunThresholds | jogger_backend/src/main/java/com/pavel/jogger/service/BadgeService.java:101-118 | FIRST_5K, FIRST_10K and HALF_MARATHON fire exactly at 5, 10 and 21 km or more; thresholds are inclusive and independent, so 21 km fires all three |
| Badges.TotalStatsThresholds | jogger_backend/src/main/java/com/pavel/jogger/service/BadgeService.java:128-153 | FIRST_RUN, 10_RUNS and 50_RUNS fire exactly at 1, 10 and 50 runs; DIST_100_KM, DIST_500_KM and DIST_1000_KM fire exactly at 100, 500 and 1000 km |
| Badges.FiredRulesMonotone | jogger_backend/src/main/java/com/pavel/jogger/service/BadgeService.java:101-153 | a longer run or larger totals fire every rule that smaller ones fire |
| Badges.AssignEffect | jogger_backend/src/main/java/com/pavel/jogger/service/BadgeService.java:166-181 | awarding is a no-op when the runner holds the code; otherwise it appends exactly one badge with the rule's code, name and description, this runner, today's date, unseen, under the next id; afterwards the code is held |
| Badges.AssignValid | jogger_backend/src/main/java/com/pavel/jogger/persistence/entity/BadgeEntity.java:16-19 | awarding keeps ids fresh and distinct and (runner, code) unique |
| Badges.AssignIdempotent | jogger_backend/src/main/java/com/pavel/jogger/service/BadgeService.java:168-170 | awarding the same badge twice equals awarding it once |
| Badges.AssignAllAppend | jogger_backend/src/main/java/com/pavel/jogger/service/BadgeService.java:88-90 | a pass over two rule lists is the pass over the first followed by the pass over the second |
| Badges.AssignAllWhen | jogger_backend/src/main/java/com/pavel/jogger/service/BadgeService.java:105-107 | one `if (...) assignBadge(...)` step awards the rule when its condition holds and is skipped otherwise |
| Badges.SingleRunSteps | jogger_backend/src/main/java/com/pavel/jogger/service/BadgeService.java:101-118 | the single-run rules applied as a list equal the three conditional awards in source order |
| Badges.TotalStatsSteps | jogger_backend/src/main/java/com/pavel/jogger/service/BadgeService.java:128-153 | the lifetime rules applied as a list equal the six conditional awards in source order |
| Badges.AssignAllValid | jogger_backend/src/main/java/com/pavel/jogger/service/BadgeService.java:87-91 | an evaluation pass preserves at most one badge per (runner, code) |
| Badges.AssignAllExtends | jogger_backend/src/main/java/com/pavel/jogger/service/BadgeService.java:87-91 | an evaluation pass never removes or alters a badge, so no seen flag changes; old rows are a prefix of the new |
| Badges.AssignAllAdds | jogger_backend/src/main/java/com/pavel/jogger/service/BadgeService.java:172-180 | every badge a pass adds belongs to the evaluated runner, is unseen, is awarded today and carries a fired rule's code |
| Badges.HoldsKept | jogger_backend/src/main/java/com/pavel/jogger/service/BadgeService.java:87-91 | a badge held before a pass is held after it |
| Badges.AssignAllHolds | jogger_backend/src/main/java/com/pavel/jogger/service/BadgeService.java:87-91 | after a pass the runner holds every fired rule's code |
| Badges.AssignAllHeld | jogger_backend/src/main/java/com/pavel/jogger/service/BadgeService.java:168-170 | a pass whose codes are all held already changes nothing |
| Badges.EvaluateIdempotent | jogger_backend/src/main/java/com/pavel/jogger/service/BadgeService.java:87-91 | evaluating the same activity against the same totals twice leaves the ledger of one evaluation |
| Badges.MarkSeenEffect | jogger_backend/src/main/java/com/pavel/jogger/service/BadgeService.java:69-75 | after marking, every badge of the runner is seen; no badge is added, removed or reordered; no other field and no other runner's badge changes |
| Badges.MarkSeenIdempotent | jogger_backend/src/main/java/com/pavel/jogger/service/BadgeService.java:69-75 | marking twice equals marking once |
| Badges.MarkSeenValid | jogger_backend/src/main/java/com/pavel/jogger/service/BadgeService.java:74 | marking keeps the ledger valid |
| Badges.MarkSeenStep | jogger_backend/src/main/java/com/pavel/jogger/service/BadgeService.java:71-73 | one loop iteration marks the next badge and extends the marked prefix by one |
| Badges.MarkSeenDone | jogger_backend/src/main/java/com/pavel/jogger/service/BadgeService.java:74 | at loop exit the rows are the marked table, which is valid |
| Badges.BadgeResponses | jogger_backend/src/main/java/com/pavel/jogger/service/BadgeService.java:43-64 | getBadgesForRunner: one response per stored badge of that runner, in store order, each carrying that badge's name as title, description, tier, award date and seen flag |
| Badges.BadgeService.GetBadgesForRunner | jogger_backend/src/main/java/com/pavel/jogger/service/BadgeService.java:43-64 | one response per stored badge of the runner and no other, in store order; each response carries that badge's name as title, its description, the tier of its code, its award date and its seen flag |
| Badges.BadgeService.MarkBadgesAsSeen | jogger_backend/src/main/java/com/pavel/jogger/service/BadgeService.java:69-75 | the loop leaves the ledger equal to MarkSeen of the old rows, keeps it valid and leaves the id counter alone |
| Badges.BadgeService.AssignBadge | jogger_backend/src/main/java/com/pavel/jogger/service/BadgeService.java:166-181 | the check-then-insert leaves the ledger equal to Assign of the old ledger and keeps it valid |
| Badges.BadgeService.CheckSingleRunDistance | jogger_backend/src/main/java/com/pavel/jogger/service/BadgeService.java:101-118 | the three checks leave the ledger equal to applying the single-run rules fired by the activity's distance |
| Badges.BadgeService.CheckTotalStats | jogger_backend/src/main/java/com/pavel/jogger/service/BadgeService.java:128-153 | the six checks leave the ledger equal to applying the lifetime rules fired by the runner's stored count and distance sum |
| Badges.BadgeService.EvaluateBadges | jogger_backend/src/main/java/com/pavel/jogger/service/BadgeService.java:87-91 | evaluation leaves the ledger equal to Evaluate: single-run rules first, then the lifetime rules over the stored totals |
| Security.Authority | jogger_backend/src/main/java/com/pavel/jogger/security/JwtAuthenticationFilter.java:78 | the authority of a role always starts with ROLE_ |
| Security.AuthorityAdmin | jogger_backend/src/main/java/com/pavel/jogger/security/JwtAuthenticationFilter.java:71-78 | the authority is ROLE_ADMIN exactly when the role claim is ADMIN; a missing claim gives ROLE_null |
| Security.Identity | jogger_backend/src/main/java/com/pavel/jogger/security/JwtAuthenticationFilter.java:70-91 | a decoded token yields an identity named by its subject with one authority; a decode failure yields none |
| Security.FilterChain.DoFilter | jogger_backend/src/main/java/com/pavel/jogger/security/JwtAuthenticationFilter.java:93 | each call of the rest of the chain is recorded with the identity it runs under |
| Security.JwtAuthenticationFilter.ExtractToken | jogger_backend/src/main/java/com/pavel/jogger/security/JwtAuthenticationFilter.java:54-63 | a Bearer header gives the header minus its 7-character prefix; otherwise the token parameter, possibly absent; the header wins |
| Security.JwtAuthenticationFilter.DoFilterInternal | jogger_backend/src/main/java/com/pavel/jogger/security/JwtAuthenticationFilter.java:48-94 | with no token the identity is untouched; a decodable token sets its identity; a failing one clears it; on every path the chain runs exactly once, after the update |
| Access.AdminExactlyForAdminRole | jogger_backend/src/main/java/com/pavel/jogger/service/AccessService.java:36-45 | an identity from the filter is an admin exactly when the token's role is ADMIN; no identity is never an admin |
| Access.AccessService.IsAdmin | jogger_backend/src/main/java/com/pavel/jogger/service/AccessService.java:36-45 | the search returns true exactly when some authority equals ROLE_ADMIN; it returns false with no authentication |
| Access.AccessService.CurrentRunner | jogger_backend/src/main/java/com/pavel/jogger/service/AccessService.java:58-67 | no authentication gives Forbidden "Not authenticated"; an unknown username gives NotFound "Current user not found"; otherwise the stored runner with that username |
| Access.AccessService.CheckRunnerAccess | jogger_backend/src/main/java/com/pavel/jogger/service/AccessService.java:82-92 | an admin passes for any id; otherwise the lookup error is passed on, or it passes exactly when the caller's stored id is the target and fails Forbidden "Access denied" otherwise; the only outcomes are pass, Forbidden and NotFound |
| Activities.ToInt | jogger_backend/src/main/java/com/pavel/jogger/service/ActivityService.java:86 | the (int) cast lands in the 32-bit range, differs from the long by a multiple of 2^32 (two's-complement truncation), and is the identity on the int range |
| Activities.EstimateCalories | jogger_backend/src/main/java/com/pavel/jogger/service/ActivityService.java:83-87 | the estimate always fits an int; when distance times weight (70 kg by default) times 1.036 fits an int, the estimate is the nearest integer, halves rounded up |
| Activities.ActivityService.GetActivityById | jogger_backend/src/main/java/com/pavel/jogger/service/ActivityService.java:93-96 | an unknown id fails NotFound "Activity not found"; otherwise the stored activity with that id |
| Activities.ActivityService.AddActivity | jogger_backend/src/main/java/com/pavel/jogger/service/ActivityService.java:46-74 | an unknown runner fails NotFound "Runner not found", stores nothing and awards nothing; otherwise the run is appended with the given fields and the given or estimated calories; evaluation then runs once over totals that include it, and FIRST_RUN is held afterwards |
| Activities.FirstRunAwarded | jogger_backend/src/main/java/com/pavel/jogger/service/ActivityService.java:70-71 | the totals are read after the save, so an add always leaves FIRST_RUN held |
| Activities.ActivityService.UpdateActivity | jogger_backend/src/main/java/com/pavel/jogger/service/ActivityService.java:109-129 | an unknown id fails NotFound; otherwise distance and duration are replaced, the route is kept when none is given, calories are given or estimated from the owner's weight, and id, date and owner are kept; the ledger is untouched |
| Activities.ActivityService.DeleteActivity | jogger_backend/src/main/java/com/pavel/jogger/service/ActivityService.java:135-138 | an unknown id fails NotFound; otherwise exactly that activity is removed and every other one is kept |
| Activities.RemoveAtKeepsOthers | jogger_backend/src/main/java/com/pavel/jogger/service/ActivityService.java:137 | with distinct ids, removing a row removes exactly the activity with its id |
| Charts.AddWeekWeeks | jogger_backend/src/main/java/com/pavel/jogger/service/ChartService.java:71-75 | counting one more run adds its week to the weeks present and keeps every count positive |
| Charts.AddWeekAscending | jogger_backend/src/main/java/com/pavel/jogger/service/ChartService.java:78-79 | counting one more run keeps the weeks strictly ascending |
| Charts.AddWeekCounts | jogger_backend/src/main/java/com/pavel/jogger/service/ChartService.java:71-75 | counting a run in week w adds one to the count of w only and one to the total |
| Charts.WeekHistogramCorrect | jogger_backend/src/main/java/com/pavel/jogger/service/ChartService.java:71-79 | the grouping is strictly ascending by week, has a bar exactly for the weeks holding a run, each bar counts exactly its week's runs and at least one, and the counts sum to the number of runs |
| Charts.SameWeekShared | jogger_backend/src/main/java/com/pavel/jogger/service/ChartService.java:73 | two runs with the same week number on different dates, for example in different years, share one bar |
| Charts.WeekLabel | jogger_backend/src/main/java/com/pavel/jogger/service/ChartService.java:81 | a label is W followed by at least one character, every one a decimal digit |
| Charts.WeekLabelInjective | jogger_backend/src/main/java/com/pavel/jogger/service/ChartService.java:81 | distinct weeks get distinct labels |
| Charts.RunsPerWeek | jogger_backend/src/main/java/com/pavel/jogger/service/ChartService.java:71-84 | one entry per week holding a run, ascending by week, labelled W plus the week, valued with that week's run count, which is at least 1; labels are distinct and the values add up to the number of runs |
| Charts.ChartService.GetRunnerStats | jogger_backend/src/main/java/com/pavel/jogger/service/ChartService.java:39-53 | exactly two entries, "Total km" then "Total runs", holding the runner's distance sum and run count, both 0 for a runner without runs |
| Charts.ChartService.GetRunsPerWeek | jogger_backend/src/main/java/com/pavel/jogger/service/ChartService.java:67-84 | one entry per week in which the runner ran and none for other weeks, in strictly ascending week order, with distinct labels "W" + week, each value that week's run count (at least 1), the values adding up to the runner's run count, and every run's week present |
| Runners.RunnerService.GetRunnerById | jogger_backend/src/main/java/com/pavel/jogger/service/RunnerService.java:29-31 | the lookup finds a runner exactly when one has that id, and changes nothing |
| Runners.RunnerService.GetRunnerByUsername | jogger_backend/src/main/java/com/pavel/jogger/service/RunnerService.java:37-39 | the lookup finds a runner exactly when one has that username, and changes nothing |
| Runners.RunnerService.UpdateRunner | jogger_backend/src/main/java/com/pavel/jogger/service/RunnerService.java:56-71 | an unknown id fails NotFound; Conflict "Email already exists" exactly when the e-mail changes to one already registered; otherwise the e-mail is replaced, the weight only when given, and nothing else changes; referential integrity is kept |
| Runners.RunnerService.DeleteRunner | jogger_backend/src/main/java/com/pavel/jogger/service/RunnerService.java:77-82 | an unknown id fails NotFound and changes nothing; otherwise the runner, its activities and its badges are gone, every other row is kept, and referential integrity holds |
| Runners.SameIdsSameRunners | jogger_backend/src/main/java/com/pavel/jogger/service/RunnerService.java:64-70 | an update that keeps every id keeps every owner findable |
| Runners.RemoveRunnerAt | jogger_backend/src/main/java/com/pavel/jogger/service/RunnerService.java:81 | deleting a runner leaves every other id findable and its own id unfindable |
| Runners.CascadeKeepsActivitiesOwned | jogger_backend/src/main/java/com/pavel/jogger/persistence/entity/RunnerEntity.java:41-52 | after the cascade, every remaining activity has a remaining owner |
| Runners.CascadeKeepsBadgesOwned | jogger_backend/src/main/java/com/pavel/jogger/persistence/entity/RunnerEntity.java:54-63 | after the cascade, every remaining badge has a remaining owner |
| Auth.AuthService.Register | jogger_backend/src/main/java/com/pavel/jogger/service/AuthService.java:57-76 | a taken username fails Conflict "Username already exists" before the e-mail is checked; a taken e-mail fails Conflict "Email already exists"; on conflict nothing is stored; otherwise exactly one runner is appended with the username, e-mail, encoded password, role USER and no weight, and the token is generated for the username and USER |
| Auth.AppendRunnerKeepsIntegrity | jogger_backend/src/main/java/com/pavel/jogger/service/AuthService.java:73 | storing a new runner keeps every activity and badge owner findable |
| Auth.AuthService.Login | jogger_backend/src/main/java/com/pavel/jogger/service/AuthService.java:84-94 | refused credentials fail; an authenticated username that is not stored fails NotFound "User not found"; otherwise the token is for the stored username and its stored role |
| Auth.LoginRoleIsStoredRole | jogger_backend/src/main/java/com/pavel/jogger/service/AuthService.java:90-93 | with unique usernames, the role in the login token is that of the one runner with the username |
| Text.ContainsAt | jogger_backend/src/main/java/com/pavel/jogger/service/BadgeService.java:49-52 | a string contains every pattern that starts at one of its positions, as String.contains finds it |
| Text.MissingChar | jogger_backend/src/main/java/com/pavel/jogger/service/BadgeService.java:49-51 | a pattern with a character the code lacks is not contained in it |
| Text.NoOccurrence | jogger_backend/src/main/java/com/pavel/jogger/service/BadgeService.java:49-51 | a pattern that starts at no position of the code is not contained in it |
| Text.NatToDecimal | jogger_backend/src/main/java/com/pavel/jogger/service/ChartService.java:81 | the decimal form is never empty, consists of decimal digits only, and is one digit exactly for numbers below 10 |
| Text.NatToDecimalInjective | jogger_backend/src/main/java/com/pavel/jogger/service/ChartService.java:81 | distinct numbers print differently |

## Left out

- The `@Async("badgeExecutor")` dispatch and its thread pool are not modelled. Evaluation is a synchronous call right after the save. So is the race between two concurrent `assignBadge` calls for the same code. The storage constraint on (runner, code) is modelled instead: `BadgeRepository.Save` refuses a duplicate.
- JwtService is not part of this model: HMAC signing, expiry, and the token's claims beyond subject and role. Decoding is a function from token to optional claims. Token generation is a function of username and role.
- `Security.Claims` always carries a subject. A token without a "sub" claim would give the source a null principal name; this server issues every token with the username as subject, so that case is not modelled.
- BCrypt hashing and `AuthenticationManager.authenticate` are functions given to `AuthService`. UserDetailsServiceImpl is not part of this model.
- Floating point is read as exact reals:
  - distances;
  - the SQL sums of distances;
  - the calorie product.
  
  So `Activities.EstimateCalories` rounds the exact product (Math.round as floor of x + 0.5, clamped to the long range, then the int cast as 32-bit wrap). It does not model double rounding error or NaN.
- `Activities.EstimateCalories` states the nearest-integer property only for products that fit an int. Beyond that range the wrap-around of the int cast applies, as `Activities.ToInt` models.
- The clock and the calendar are inputs: today's date, the registration time, and the ISO 8601 week-of-week-based-year. The week's year is not part of a chart label, exactly as in the source.
- Entities are immutable records. The JPA persistence context is not modelled:
  - aliasing between a loaded entity and its row;
  - lazy loading;
  - dirty checking.
  
  Bean getters and setters are record field reads and record updates, so "a getter returns what the setter stored" holds by construction.
- The cascade of a runner deletion (`CascadeType.ALL`) is written out in `RunnerService.DeleteRunner`, which for that reason holds the activity and badge tables. `orphanRemoval` on the in-memory collections is not modelled.
- `getActivitiesForRunner` (ActivityService.java:101-103) is `Repositories.FindByRunnerId` and has no member of its own. Likewise `getAllRunners` is the runner table's rows.
- `Charts.ChartService.GetRunnerStats` reads `totalActivities` as never null, which COUNT guarantees. The source's null default for it is therefore a branch that cannot be taken.
- Request validation is not modelled. Examples are the positive distance and duration of CreateActivityRequest.java:18-22 and the e-mail format. The services do not re-check these values. `Repositories.SumDistancePositive` states what positive distances give.
- Controllers, SecurityConfig, GlobalExceptionHandler and its HTTP status mapping are not part of this model. Nor are the DTO mappers, ReportService (PDF rendering) and the pace rounding in ActivityMapper.
- Unit tests are not used as a source of properties. RunnerServiceTest.java:42 calls an `updateRunner` overload that does not exist.
