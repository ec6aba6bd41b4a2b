/** BadgeService: the achievement engine. The rules that fire for an activity
    are a pure function of its distance and of the runner's totals; the
    ledger operations are specified as functions on the badges table
    (`Assign`, `AssignAll`, `MarkSeen`), and the service's methods are proved
    to perform exactly those updates on the repository. Evaluation runs
    synchronously here; on the server it is dispatched to a thread pool. */
module Badges {
  import opened Common
  import opened Text
  import opened Entities
  import opened Repositories
  import opened BadgeTiers

  /** One achievement the engine can award: its code, display name and
      description. */
  datatype Rule = Rule(code: string, name: string, description: string)

  const FIRST_5K := Rule("FIRST_5K", "First 5K", "Completed a run of at least 5 km")
  const FIRST_10K := Rule("FIRST_10K", "10K Finisher", "Completed a run of at least 10 km")
  const HALF_MARATHON := Rule("HALF_MARATHON", "Half Marathon", "Ran 21 km in one go!")
  const FIRST_RUN := Rule("FIRST_RUN", "First Steps", "Completed your very first run")
  const RUNS_10 := Rule("10_RUNS", "Consistent", "Completed 10 runs total")
  const RUNS_50 := Rule("50_RUNS", "Dedicated", "Completed 50 runs total")
  const DIST_100_KM := Rule("DIST_100_KM", "Century Club", "Ran a total of 100 km")
  const DIST_500_KM := Rule("DIST_500_KM", "Pro Runner", "Ran a total of 500 km")
  const DIST_1000_KM := Rule("DIST_1000_KM", "Kilometer Eater", "Ran a total of 1000 km")

  // ---------------------------------------------------------------------
  // Which rules fire

  /** `[rule]` when the rule's condition holds, nothing otherwise. */
  function When(condition: bool, rule: Rule): seq<Rule> {
    if condition then [rule] else []
  }

  /** The single-run rules that fire for a run of `distanceKm`, in the order
      they are checked. */
  function SingleRunRules(distanceKm: real): seq<Rule> {
    When(distanceKm >= 5.0, FIRST_5K)
    + When(distanceKm >= 10.0, FIRST_10K)
    + When(distanceKm >= 21.0, HALF_MARATHON)
  }

  /** The lifetime rules that fire for the given totals, in checking order. */
  function TotalStatsRules(totalRuns: nat, totalDistance: real): seq<Rule> {
    When(totalRuns >= 1, FIRST_RUN)
    + When(totalRuns >= 10, RUNS_10)
    + When(totalRuns >= 50, RUNS_50)
    + When(totalDistance >= 100.0, DIST_100_KM)
    + When(totalDistance >= 500.0, DIST_500_KM)
    + When(totalDistance >= 1000.0, DIST_1000_KM)
  }

  /** Everything one evaluation pass checks: the single-run rules, then the
      lifetime rules. */
  function FiredRules(distanceKm: real, totalRuns: nat, totalDistance: real): seq<Rule> {
    SingleRunRules(distanceKm) + TotalStatsRules(totalRuns, totalDistance)
  }

  /** Thresholds are inclusive and independent: each single-run badge fires
      exactly when the distance reaches its threshold, so a 21 km run fires
      all three. */
  lemma SingleRunThresholds(distanceKm: real)
    ensures FIRST_5K in SingleRunRules(distanceKm) <==> distanceKm >= 5.0
    ensures FIRST_10K in SingleRunRules(distanceKm) <==> distanceKm >= 10.0
    ensures HALF_MARATHON in SingleRunRules(distanceKm) <==> distanceKm >= 21.0
    ensures |SingleRunRules(distanceKm)| <= 3
    ensures distanceKm >= 21.0 ==> SingleRunRules(distanceKm) == [FIRST_5K, FIRST_10K, HALF_MARATHON]
  {
  }

  /** Each lifetime badge fires exactly when its total reaches the threshold. */
  lemma TotalStatsThresholds(totalRuns: nat, totalDistance: real)
    ensures FIRST_RUN in TotalStatsRules(totalRuns, totalDistance) <==> totalRuns >= 1
    ensures RUNS_10 in TotalStatsRules(totalRuns, totalDistance) <==> totalRuns >= 10
    ensures RUNS_50 in TotalStatsRules(totalRuns, totalDistance) <==> totalRuns >= 50
    ensures DIST_100_KM in TotalStatsRules(totalRuns, totalDistance) <==> totalDistance >= 100.0
    ensures DIST_500_KM in TotalStatsRules(totalRuns, totalDistance) <==> totalDistance >= 500.0
    ensures DIST_1000_KM in TotalStatsRules(totalRuns, totalDistance) <==> totalDistance >= 1000.0
  {
  }

  /** A longer run, or larger totals, fire every rule a smaller one fires. */
  lemma FiredRulesMonotone(d: real, runs: nat, total: real, d': real, runs': nat, total': real)
    requires d <= d' && runs <= runs' && total <= total'
    ensures forall rule :: rule in FiredRules(d, runs, total) ==> rule in FiredRules(d', runs', total')
  {
  }

  // ---------------------------------------------------------------------
  // The ledger

  /** The runner already holds a badge with this code. */
  predicate Holds(rows: seq<Badge>, runner: RunnerId, code: string) {
    FindByRunnerAndCode(rows, runner, code).Some?
  }

  /** assignBadge on the table: check, then insert. */
  function Assign(t: BadgeTable, runner: RunnerId, rule: Rule, today: Date): BadgeTable {
    if Holds(t.rows, runner, rule.code) then t
    else BadgeTable(t.rows + [NewBadge(rule.code, rule.name, Some(rule.description), runner, today).(id := Some(t.nextId))], t.nextId + 1)
  }

  /** Awarding is a no-op when the runner already holds the code; otherwise
      it adds exactly one badge, with the rule's code, name and description,
      this runner, awarded today, unseen, under the next id. Either way the
      runner holds the code afterwards. */
  lemma AssignEffect(t: BadgeTable, runner: RunnerId, rule: Rule, today: Date)
    ensures var r := Assign(t, runner, rule, today);
      && Holds(r.rows, runner, rule.code)
      && (Holds(t.rows, runner, rule.code) ==> r == t)
      && (!Holds(t.rows, runner, rule.code) ==>
            && r.rows == t.rows + [Badge(Some(t.nextId), rule.code, rule.name, Some(rule.description), Some(today), false, runner)]
            && r.nextId == t.nextId + 1)
  {
    var r := Assign(t, runner, rule, today);
    if !Holds(t.rows, runner, rule.code) {
      assert r.rows[|t.rows|].runner == runner && r.rows[|t.rows|].code == rule.code;
    }
  }

  /** Awarding keeps the table valid: ids stay fresh and distinct, and the
      `(runner, code)` pair stays unique. */
  lemma AssignValid(t: BadgeTable, runner: RunnerId, rule: Rule, today: Date)
    requires ValidBadgeTable(t)
    ensures ValidBadgeTable(Assign(t, runner, rule, today))
  {
    AssignEffect(t, runner, rule, today);
  }

  /** Awarding the same badge twice is the same as awarding it once. */
  lemma AssignIdempotent(t: BadgeTable, runner: RunnerId, rule: Rule, today: Date)
    ensures Assign(Assign(t, runner, rule, today), runner, rule, today) == Assign(t, runner, rule, today)
  {
    AssignEffect(t, runner, rule, today);
  }

  /** The rules of one pass applied to the table in order. */
  function AssignAll(t: BadgeTable, runner: RunnerId, rules: seq<Rule>, today: Date): BadgeTable
    decreases |rules|
  {
    if rules == [] then t else AssignAll(Assign(t, runner, rules[0], today), runner, rules[1..], today)
  }

  lemma {:induction false} AssignAllAppend(t: BadgeTable, runner: RunnerId, a: seq<Rule>, b: seq<Rule>, today: Date)
    ensures AssignAll(t, runner, a + b, today) == AssignAll(AssignAll(t, runner, a, today), runner, b, today)
    decreases |a|
  {
    if a == [] {
      assert a + b == b;
    } else {
      assert (a + b)[0] == a[0] && (a + b)[1..] == a[1..] + b;
      AssignAllAppend(Assign(t, runner, a[0], today), runner, a[1..], b, today);
    }
  }

  lemma AssignAllSnoc(t: BadgeTable, runner: RunnerId, rules: seq<Rule>, rule: Rule, today: Date)
    ensures AssignAll(t, runner, rules + [rule], today) == Assign(AssignAll(t, runner, rules, today), runner, rule, today)
  {
    AssignAllAppend(t, runner, rules, [rule], today);
  }

  /** The step the rule checks take: the rule is assigned when its condition
      holds and skipped otherwise. */
  lemma AssignAllWhen(t: BadgeTable, runner: RunnerId, rules: seq<Rule>, condition: bool, rule: Rule, today: Date)
    ensures AssignAll(t, runner, rules + When(condition, rule), today) ==
      if condition then Assign(AssignAll(t, runner, rules, today), runner, rule, today) else AssignAll(t, runner, rules, today)
  {
    if condition {
      AssignAllSnoc(t, runner, rules, rule, today);
    } else {
      assert rules + When(condition, rule) == rules;
    }
  }

  /** One rule check: assign the rule when its condition holds. */
  function AssignIf(t: BadgeTable, runner: RunnerId, condition: bool, rule: Rule, today: Date): BadgeTable {
    if condition then Assign(t, runner, rule, today) else t
  }

  /** The single-run pass is the three checks in order. */
  lemma SingleRunSteps(t: BadgeTable, runner: RunnerId, d: real, today: Date)
    ensures AssignAll(t, runner, SingleRunRules(d), today) ==
      AssignIf(AssignIf(AssignIf(t, runner, d >= 5.0, FIRST_5K, today),
        runner, d >= 10.0, FIRST_10K, today), runner, d >= 21.0, HALF_MARATHON, today)
  {
    var r1 := When(d >= 5.0, FIRST_5K);
    var r2 := r1 + When(d >= 10.0, FIRST_10K);
    assert AssignAll(t, runner, r1, today) == AssignAll(t, runner, [] + r1, today);
    AssignAllWhen(t, runner, [], d >= 5.0, FIRST_5K, today);
    AssignAllWhen(t, runner, r1, d >= 10.0, FIRST_10K, today);
    AssignAllWhen(t, runner, r2, d >= 21.0, HALF_MARATHON, today);
  }

  /** The lifetime pass is the six checks in order. */
  lemma TotalStatsSteps(t: BadgeTable, runner: RunnerId, runs: nat, total: real, today: Date)
    ensures AssignAll(t, runner, TotalStatsRules(runs, total), today) ==
      var t1 := AssignIf(t, runner, runs >= 1, FIRST_RUN, today);
      var t2 := AssignIf(t1, runner, runs >= 10, RUNS_10, today);
      var t3 := AssignIf(t2, runner, runs >= 50, RUNS_50, today);
      var t4 := AssignIf(t3, runner, total >= 100.0, DIST_100_KM, today);
      var t5 := AssignIf(t4, runner, total >= 500.0, DIST_500_KM, today);
      AssignIf(t5, runner, total >= 1000.0, DIST_1000_KM, today)
  {
    var r1 := When(runs >= 1, FIRST_RUN);
    var r2 := r1 + When(runs >= 10, RUNS_10);
    var r3 := r2 + When(runs >= 50, RUNS_50);
    var r4 := r3 + When(total >= 100.0, DIST_100_KM);
    var r5 := r4 + When(total >= 500.0, DIST_500_KM);
    assert r1 == [] + r1;
    AssignAllWhen(t, runner, [], runs >= 1, FIRST_RUN, today);
    AssignAllWhen(t, runner, r1, runs >= 10, RUNS_10, today);
    AssignAllWhen(t, runner, r2, runs >= 50, RUNS_50, today);
    AssignAllWhen(t, runner, r3, total >= 100.0, DIST_100_KM, today);
    AssignAllWhen(t, runner, r4, total >= 500.0, DIST_500_KM, today);
    AssignAllWhen(t, runner, r5, total >= 1000.0, DIST_1000_KM, today);
  }

  /** A pass keeps the table valid: no runner ends up with two badges of the
      same code. */
  lemma {:induction false} AssignAllValid(t: BadgeTable, runner: RunnerId, rules: seq<Rule>, today: Date)
    requires ValidBadgeTable(t)
    ensures ValidBadgeTable(AssignAll(t, runner, rules, today))
    decreases |rules|
  {
    if rules != [] {
      AssignValid(t, runner, rules[0], today);
      AssignAllValid(Assign(t, runner, rules[0], today), runner, rules[1..], today);
    }
  }

  /** A pass never removes or changes a badge: the old rows are a prefix of
      the new ones, so every `seen` flag is kept. */
  lemma {:induction false} AssignAllExtends(t: BadgeTable, runner: RunnerId, rules: seq<Rule>, today: Date)
    ensures |t.rows| <= |AssignAll(t, runner, rules, today).rows|
    ensures AssignAll(t, runner, rules, today).rows[..|t.rows|] == t.rows
    decreases |rules|
  {
    if rules != [] {
      var t1 := Assign(t, runner, rules[0], today);
      AssignAllExtends(t1, runner, rules[1..], today);
      var r := AssignAll(t1, runner, rules[1..], today);
      assert r.rows[..|t.rows|] == r.rows[..|t1.rows|][..|t.rows|];
    }
  }

  /** Every badge a pass adds belongs to `runner`, is unseen, and carries the
      code of one of the rules. */
  lemma {:induction false} AssignAllAdds(t: BadgeTable, runner: RunnerId, rules: seq<Rule>, today: Date)
    ensures var r := AssignAll(t, runner, rules, today);
      forall i :: |t.rows| <= i < |r.rows| ==>
        r.rows[i].runner == runner && !r.rows[i].seen && r.rows[i].awardedAt == Some(today)
        && exists rule :: rule in rules && r.rows[i].code == rule.code
    decreases |rules|
  {
    if rules != [] {
      var t1 := Assign(t, runner, rules[0], today);
      AssignAllAdds(t1, runner, rules[1..], today);
      AssignAllExtends(t1, runner, rules[1..], today);
      var r := AssignAll(t1, runner, rules[1..], today);
      forall i | |t.rows| <= i < |r.rows|
        ensures r.rows[i].runner == runner && !r.rows[i].seen && r.rows[i].awardedAt == Some(today)
        ensures exists rule :: rule in rules && r.rows[i].code == rule.code
      {
        if i < |t1.rows| {
          assert r.rows[i] == r.rows[..|t1.rows|][i] == t1.rows[i];
          assert rules[0] in rules && r.rows[i].code == rules[0].code;
        } else {
          var rule :| rule in rules[1..] && r.rows[i].code == rule.code;
          assert rule in rules;
        }
      }
    }
  }

  /** A badge held before a pass is still held after it. */
  lemma HoldsKept(t: BadgeTable, r: BadgeTable, runner: RunnerId, code: string)
    requires Holds(t.rows, runner, code)
    requires |t.rows| <= |r.rows| && r.rows[..|t.rows|] == t.rows
    ensures Holds(r.rows, runner, code)
  {
    var b := FindByRunnerAndCode(t.rows, runner, code).value;
    var k :| 0 <= k < |t.rows| && t.rows[k] == b;
    assert r.rows[k] == r.rows[..|t.rows|][k];
  }

  /** After a pass the runner holds the code of every rule in it. */
  lemma {:induction false} AssignAllHolds(t: BadgeTable, runner: RunnerId, rules: seq<Rule>, today: Date)
    ensures forall rule :: rule in rules ==> Holds(AssignAll(t, runner, rules, today).rows, runner, rule.code)
    decreases |rules|
  {
    if rules != [] {
      var t1 := Assign(t, runner, rules[0], today);
      AssignAllHolds(t1, runner, rules[1..], today);
      AssignAllExtends(t1, runner, rules[1..], today);
      var r := AssignAll(t1, runner, rules[1..], today);
      AssignEffect(t, runner, rules[0], today);
      HoldsKept(t1, r, runner, rules[0].code);
      forall rule | rule in rules ensures Holds(r.rows, runner, rule.code) {
        if rule != rules[0] {
          assert rule in rules[1..];
        }
      }
    }
  }

  /** A pass whose badges are all held already changes nothing. */
  lemma {:induction false} AssignAllHeld(t: BadgeTable, runner: RunnerId, rules: seq<Rule>, today: Date)
    requires forall rule :: rule in rules ==> Holds(t.rows, runner, rule.code)
    ensures AssignAll(t, runner, rules, today) == t
    decreases |rules|
  {
    if rules != [] {
      assert rules[0] in rules;
      AssignAllHeld(t, runner, rules[1..], today);
    }
  }

  /** evaluateBadgesAsync on the table: all fired rules, single-run first. */
  function Evaluate(t: BadgeTable, runner: RunnerId, distanceKm: real, totalRuns: nat, totalDistance: real, today: Date): BadgeTable {
    AssignAll(t, runner, FiredRules(distanceKm, totalRuns, totalDistance), today)
  }

  /** Evaluating the same activity against the same totals twice leaves the
      same ledger as evaluating it once. */
  lemma EvaluateIdempotent(t: BadgeTable, runner: RunnerId, d: real, runs: nat, total: real, today: Date)
    ensures var once := Evaluate(t, runner, d, runs, total, today);
      Evaluate(once, runner, d, runs, total, today) == once
  {
    AssignAllHolds(t, runner, FiredRules(d, runs, total), today);
    AssignAllHeld(Evaluate(t, runner, d, runs, total, today), runner, FiredRules(d, runs, total), today);
  }

  // ---------------------------------------------------------------------
  // Marking badges seen

  /** The body of the loop in markBadgesAsSeen for one badge. */
  function MarkOne(b: Badge, runner: RunnerId): Badge {
    if b.runner == runner && !b.seen then b.(seen := true) else b
  }

  /** markBadgesAsSeen on the rows, badge by badge. */
  function MarkSeen(rows: seq<Badge>, runner: RunnerId): (r: seq<Badge>)
    ensures |r| == |rows|
    decreases |rows|
  {
    if rows == [] then [] else MarkSeen(rows[..|rows| - 1], runner) + [MarkOne(rows[|rows| - 1], runner)]
  }

  /** One iteration of the marking loop: position `i` of the partly marked
      rows still holds the original badge, and marking it extends the marked
      prefix by one. */
  lemma MarkSeenStep(rows: seq<Badge>, i: nat, runner: RunnerId)
    requires i < |rows|
    ensures var cur := MarkSeen(rows[..i], runner) + rows[i..];
      && cur[i] == rows[i]
      && cur[i := MarkOne(rows[i], runner)] == MarkSeen(rows[..i + 1], runner) + rows[i + 1..]
  {
    var done := MarkSeen(rows[..i], runner);
    assert rows[..i + 1][..i] == rows[..i];
    assert rows[i..] == [rows[i]] + rows[i + 1..];
    assert (done + [rows[i]] + rows[i + 1..])[i := MarkOne(rows[i], runner)] == done + [MarkOne(rows[i], runner)] + rows[i + 1..];
  }

  /** The exit of the marking loop: the rows are the marked table, which is
      still valid. */
  lemma MarkSeenDone(before: seq<Badge>, rows: seq<Badge>, nextId: nat, runner: RunnerId)
    requires ValidBadgeTable(BadgeTable(before, nextId))
    requires rows == MarkSeen(before[..|before|], runner) + before[|before|..]
    ensures rows == MarkSeen(before, runner)
    ensures ValidBadgeTable(BadgeTable(rows, nextId))
  {
    assert before[..|before|] == before;
    MarkSeenValid(BadgeTable(before, nextId), runner);
  }

  /** After marking, every badge of the runner is seen; the set of badges,
      their order, every other field and every other runner's badges are
      unchanged. */
  lemma {:induction false} MarkSeenEffect(rows: seq<Badge>, runner: RunnerId)
    ensures |MarkSeen(rows, runner)| == |rows|
    ensures forall i :: 0 <= i < |rows| ==>
      MarkSeen(rows, runner)[i] == rows[i].(seen := rows[i].seen || rows[i].runner == runner)
    decreases |rows|
  {
    if rows != [] {
      MarkSeenEffect(rows[..|rows| - 1], runner);
    }
  }

  /** Marking twice is the same as marking once. */
  lemma MarkSeenIdempotent(rows: seq<Badge>, runner: RunnerId)
    ensures MarkSeen(MarkSeen(rows, runner), runner) == MarkSeen(rows, runner)
  {
    MarkSeenEffect(rows, runner);
    MarkSeenEffect(MarkSeen(rows, runner), runner);
  }

  /** Marking keeps the table valid. */
  lemma MarkSeenValid(t: BadgeTable, runner: RunnerId)
    requires ValidBadgeTable(t)
    ensures ValidBadgeTable(BadgeTable(MarkSeen(t.rows, runner), t.nextId))
  {
    MarkSeenEffect(t.rows, runner);
  }

  // ---------------------------------------------------------------------
  // Reading badges

  /** BadgeResponse: what the client sees of one badge. */
  datatype BadgeResponse = BadgeResponse(
    title: string,
    description: Option<string>,
    badgeType: string,
    dateEarned: Option<Date>,
    seen: bool
  )

  function ToResponse(b: Badge): BadgeResponse {
    BadgeResponse(b.name, b.description, Tier(b.code), b.awardedAt, b.seen)
  }

  /** getBadgesForRunner over the rows: one response per badge of the runner,
      in store order, carrying its name, description, award date and seen
      flag unchanged. */
  function BadgeResponses(rows: seq<Badge>, runner: RunnerId): (r: seq<BadgeResponse>)
    ensures |r| == |BadgesByRunnerId(rows, runner)|
    ensures forall i :: 0 <= i < |r| ==> r[i] == ToResponse(BadgesByRunnerId(rows, runner)[i])
    decreases |rows|
  {
    if rows == [] then []
    else
      var last := rows[|rows| - 1];
      BadgeResponses(rows[..|rows| - 1], runner) + (if last.runner == runner then [ToResponse(last)] else [])
  }

  // ---------------------------------------------------------------------
  // The service

  class BadgeService {
    const badgeRepository: BadgeRepository
    const activityRepository: ActivityRepository

    constructor (badgeRepository: BadgeRepository, activityRepository: ActivityRepository)
      ensures this.badgeRepository == badgeRepository && this.activityRepository == activityRepository
    {
      this.badgeRepository := badgeRepository;
      this.activityRepository := activityRepository;
    }

    /** getBadgesForRunner: one response per stored badge of the runner, in
        store order, titled by the badge's name and typed by its code's tier. */
    function GetBadgesForRunner(runnerId: RunnerId): (r: seq<BadgeResponse>)
      reads badgeRepository
      ensures |r| == |BadgesByRunnerId(badgeRepository.rows, runnerId)|
      ensures forall i :: 0 <= i < |r| ==>
        var b := BadgesByRunnerId(badgeRepository.rows, runnerId)[i];
        && b in badgeRepository.rows && b.runner == runnerId
        && r[i].title == b.name && r[i].description == b.description
        && r[i].badgeType == Tier(b.code) && r[i].dateEarned == b.awardedAt && r[i].seen == b.seen
    {
      BadgeResponses(badgeRepository.rows, runnerId)
    }

    /** Every badge of the runner becomes seen; nothing else changes. */
    method MarkBadgesAsSeen(runnerId: RunnerId)
      requires badgeRepository.Valid()
      modifies badgeRepository
      ensures badgeRepository.Valid()
      ensures badgeRepository.rows == MarkSeen(old(badgeRepository.rows), runnerId)
      ensures badgeRepository.nextId == old(badgeRepository.nextId)
    {
      ghost var before := badgeRepository.rows;
      var i := 0;
      while i < |badgeRepository.rows|
        invariant 0 <= i <= |badgeRepository.rows| == |before|
        invariant badgeRepository.rows == MarkSeen(before[..i], runnerId) + before[i..]
        invariant badgeRepository.nextId == old(badgeRepository.nextId)
      {
        MarkSeenStep(before, i, runnerId);
        ghost var next := MarkSeen(before[..i + 1], runnerId) + before[i + 1..];
        var b := badgeRepository.rows[i];
        if b.runner == runnerId && !b.seen {
          badgeRepository.rows := badgeRepository.rows[i := b.(seen := true)];
        } else {
          assert badgeRepository.rows == badgeRepository.rows[i := MarkOne(b, runnerId)];
        }
        assert badgeRepository.rows == next;
        i := i + 1;
      }
      MarkSeenDone(before, badgeRepository.rows, badgeRepository.nextId, runnerId);
    }

    /** assignBadge: check, then insert. */
    method AssignBadge(runner: RunnerId, code: string, name: string, description: string, today: Date)
      requires badgeRepository.Valid()
      modifies badgeRepository
      ensures badgeRepository.Valid()
      ensures badgeRepository.Table() == Assign(old(badgeRepository.Table()), runner, Rule(code, name, description), today)
    {
      if FindByRunnerAndCode(badgeRepository.rows, runner, code).Some? {
        return;
      }
      var badge := NewBadge(code, name, Some(description), runner, today);
      var saved := badgeRepository.Save(badge);
    }

    /** checkSingleRunDistance: the three single-run rules, in order. */
    method CheckSingleRunDistance(runner: RunnerId, activity: Activity, today: Date)
      requires badgeRepository.Valid()
      modifies badgeRepository
      ensures badgeRepository.Valid()
      ensures badgeRepository.Table() == AssignAll(old(badgeRepository.Table()), runner, SingleRunRules(activity.distanceKm), today)
    {
      var dist := activity.distanceKm;
      ghost var t := badgeRepository.Table();
      ghost var cur := badgeRepository.Table();
      if dist >= 5.0 {
        AssignBadge(runner, "FIRST_5K", "First 5K", "Completed a run of at least 5 km", today);
      }
      cur := AssignIf(cur, runner, dist >= 5.0, FIRST_5K, today);
      assert badgeRepository.Table() == cur;
      if dist >= 10.0 {
        AssignBadge(runner, "FIRST_10K", "10K Finisher", "Completed a run of at least 10 km", today);
      }
      cur := AssignIf(cur, runner, dist >= 10.0, FIRST_10K, today);
      assert badgeRepository.Table() == cur;
      if dist >= 21.0 {
        AssignBadge(runner, "HALF_MARATHON", "Half Marathon", "Ran 21 km in one go!", today);
      }
      cur := AssignIf(cur, runner, dist >= 21.0, HALF_MARATHON, today);
      assert badgeRepository.Table() == cur;
      SingleRunSteps(t, runner, dist, today);
    }

    /** checkTotalStats: the lifetime rules, against the totals read from
        the activity store. */
    method CheckTotalStats(runner: RunnerId, today: Date)
      requires badgeRepository.Valid()
      modifies badgeRepository
      ensures badgeRepository.Valid()
      ensures badgeRepository.Table() == AssignAll(old(badgeRepository.Table()), runner,
        TotalStatsRules(CountByRunner(activityRepository.rows, runner), SumDistanceByRunner(activityRepository.rows, runner)), today)
    {
      var totalRuns := CountByRunner(activityRepository.rows, runner);
      var totalDistance := SumDistanceByRunner(activityRepository.rows, runner);
      ghost var t := badgeRepository.Table();
      ghost var cur := badgeRepository.Table();
      if totalRuns >= 1 {
        AssignBadge(runner, "FIRST_RUN", "First Steps", "Completed your very first run", today);
      }
      cur := AssignIf(cur, runner, totalRuns >= 1, FIRST_RUN, today);
      assert badgeRepository.Table() == cur;
      if totalRuns >= 10 {
        AssignBadge(runner, "10_RUNS", "Consistent", "Completed 10 runs total", today);
      }
      cur := AssignIf(cur, runner, totalRuns >= 10, RUNS_10, today);
      assert badgeRepository.Table() == cur;
      if totalRuns >= 50 {
        AssignBadge(runner, "50_RUNS", "Dedicated", "Completed 50 runs total", today);
      }
      cur := AssignIf(cur, runner, totalRuns >= 50, RUNS_50, today);
      assert badgeRepository.Table() == cur;
      if totalDistance >= 100.0 {
        AssignBadge(runner, "DIST_100_KM", "Century Club", "Ran a total of 100 km", today);
      }
      cur := AssignIf(cur, runner, totalDistance >= 100.0, DIST_100_KM, today);
      assert badgeRepository.Table() == cur;
      if totalDistance >= 500.0 {
        AssignBadge(runner, "DIST_500_KM", "Pro Runner", "Ran a total of 500 km", today);
      }
      cur := AssignIf(cur, runner, totalDistance >= 500.0, DIST_500_KM, today);
      assert badgeRepository.Table() == cur;
      if totalDistance >= 1000.0 {
        AssignBadge(runner, "DIST_1000_KM", "Kilometer Eater", "Ran a total of 1000 km", today);
      }
      cur := AssignIf(cur, runner, totalDistance >= 1000.0, DIST_1000_KM, today);
      assert badgeRepository.Table() == cur;
      TotalStatsSteps(t, runner, totalRuns, totalDistance, today);
    }

    /** evaluateBadgesAsync, run synchronously: the single-run rules for the
        new activity, then the lifetime rules over the store as it is now. */
    method EvaluateBadges(runner: RunnerId, newActivity: Activity, today: Date)
      requires badgeRepository.Valid()
      modifies badgeRepository
      ensures badgeRepository.Valid()
      ensures badgeRepository.Table() == Evaluate(old(badgeRepository.Table()), runner, newActivity.distanceKm,
        CountByRunner(activityRepository.rows, runner), SumDistanceByRunner(activityRepository.rows, runner), today)
    {
      ghost var t := badgeRepository.Table();
      CheckSingleRunDistance(runner, newActivity, today);
      CheckTotalStats(runner, today);
      AssignAllAppend(t, runner, SingleRunRules(newActivity.distanceKm),
        TotalStatsRules(CountByRunner(activityRepository.rows, runner), SumDistanceByRunner(activityRepository.rows, runner)), today);
    }
  }
}
