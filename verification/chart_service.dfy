/** ChartService: the two summary figures of a runner and the number of runs
    per week. The ISO 8601 week-of-week-based-year of a date is computed by
    the calendar, so it is a parameter `weekOf` here. */
module Charts {
  import opened Common
  import opened Text
  import opened Entities
  import opened Repositories

  /** One data point of a chart: a caption and a value. */
  datatype ChartResponse = ChartResponse(caption: string, value: real)

  /** The week number of a date; the year it belongs to is not part of it. */
  type WeekOf = Date -> nat

  // ---------------------------------------------------------------------
  // Counting runs per week

  /** A histogram bar: a week number and how many runs fell in it. */
  datatype WeekCount = WeekCount(week: nat, count: nat)

  /** The number of activities whose date falls in week `w`. */
  function CountWeek(acts: seq<Activity>, weekOf: WeekOf, w: nat): nat
    decreases |acts|
  {
    if acts == [] then 0
    else CountWeek(acts[..|acts| - 1], weekOf, w) + (if weekOf(acts[|acts| - 1].date) == w then 1 else 0)
  }

  /** Bars strictly ascending by week, so no week appears twice. */
  predicate Ascending(h: seq<WeekCount>) {
    forall i, j :: 0 <= i < j < |h| ==> h[i].week < h[j].week
  }

  predicate Positive(h: seq<WeekCount>) {
    forall i :: 0 <= i < |h| ==> h[i].count >= 1
  }

  function Weeks(h: seq<WeekCount>): set<nat> {
    set i | 0 <= i < |h| :: h[i].week
  }

  /** The count recorded for week `v`, summed over the bars for `v`. */
  function CountOf(h: seq<WeekCount>, v: nat): nat {
    if h == [] then 0 else (if h[0].week == v then h[0].count else 0) + CountOf(h[1..], v)
  }

  /** The sum of all counts. */
  function Total(h: seq<WeekCount>): nat {
    if h == [] then 0 else h[0].count + Total(h[1..])
  }

  /** One more run in week `w`: its bar goes up by one, or a new bar with
      count one is put in its place in week order. */
  function AddWeek(h: seq<WeekCount>, w: nat): seq<WeekCount> {
    if h == [] then [WeekCount(w, 1)]
    else if h[0].week == w then [h[0].(count := h[0].count + 1)] + h[1..]
    else if w < h[0].week then [WeekCount(w, 1)] + h
    else [h[0]] + AddWeek(h[1..], w)
  }

  /** The weeks of a non-empty histogram: its first bar's and the rest's. */
  lemma WeeksCons(h: seq<WeekCount>)
    requires h != []
    ensures Weeks(h) == {h[0].week} + Weeks(h[1..])
  {
    forall v | v in Weeks(h) ensures v in {h[0].week} + Weeks(h[1..]) {
      var i :| 0 <= i < |h| && h[i].week == v;
      if i > 0 { assert h[1..][i - 1].week == v; }
    }
    forall v | v in Weeks(h[1..]) ensures v in Weeks(h) {
      var i :| 0 <= i < |h[1..]| && h[1..][i].week == v;
      assert h[i + 1].week == v;
    }
  }

  /** Adding a run adds its week to the weeks present and keeps every
      count positive. */
  lemma {:induction false} AddWeekWeeks(h: seq<WeekCount>, w: nat)
    requires Positive(h)
    ensures Positive(AddWeek(h, w))
    ensures Weeks(AddWeek(h, w)) == Weeks(h) + {w}
  {
    var h' := AddWeek(h, w);
    if h == [] {
      WeeksCons(h');
    } else if h[0].week == w {
      assert h'[1..] == h[1..];
      WeeksCons(h);
      WeeksCons(h');
    } else if w < h[0].week {
      assert h'[1..] == h;
      WeeksCons(h');
    } else {
      AddWeekWeeks(h[1..], w);
      assert h'[1..] == AddWeek(h[1..], w);
      WeeksCons(h);
      WeeksCons(h');
    }
  }

  /** A bar below every bar of an ascending histogram can go in front. */
  lemma AscendingCons(x: WeekCount, t: seq<WeekCount>)
    requires Ascending(t)
    requires forall j :: 0 <= j < |t| ==> x.week < t[j].week
    ensures Ascending([x] + t)
  {
    var h := [x] + t;
    forall i, j | 0 <= i < j < |h| ensures h[i].week < h[j].week {
      assert h[j] == t[j - 1];
      if i > 0 { assert h[i] == t[i - 1]; }
    }
  }

  lemma AscendingTail(h: seq<WeekCount>)
    requires Ascending(h) && h != []
    ensures Ascending(h[1..])
    ensures forall j :: 0 <= j < |h[1..]| ==> h[0].week < h[1..][j].week
  {
    forall i, j | 0 <= i < j < |h[1..]| ensures h[1..][i].week < h[1..][j].week {
      assert h[1..][i] == h[i + 1] && h[1..][j] == h[j + 1];
    }
  }

  /** A lower bound of all weeks and of `w` stays one after adding `w`. */
  lemma {:induction false} AddWeekAbove(h: seq<WeekCount>, w: nat, lo: nat)
    requires lo < w
    requires forall i :: 0 <= i < |h| ==> lo < h[i].week
    ensures forall j :: 0 <= j < |AddWeek(h, w)| ==> lo < AddWeek(h, w)[j].week
  {
    var h' := AddWeek(h, w);
    if h != [] {
      if h[0].week == w {
        forall j | 0 < j < |h'| ensures lo < h'[j].week {
          assert h'[j] == h[j];
        }
      } else if w < h[0].week {
        forall j | 0 < j < |h'| ensures lo < h'[j].week {
          assert h'[j] == h[j - 1];
        }
      } else {
        AddWeekAbove(h[1..], w, lo);
        forall j | 0 < j < |h'| ensures lo < h'[j].week {
          assert h'[j] == AddWeek(h[1..], w)[j - 1];
        }
      }
    }
  }

  /** Adding a run keeps the bars strictly ascending by week. */
  lemma {:induction false} AddWeekAscending(h: seq<WeekCount>, w: nat)
    requires Ascending(h)
    ensures Ascending(AddWeek(h, w))
  {
    if h != [] {
      AscendingTail(h);
      if h[0].week == w {
        AscendingCons(h[0].(count := h[0].count + 1), h[1..]);
      } else if w < h[0].week {
        forall j | 0 <= j < |h| ensures w < h[j].week {
          if j > 0 { assert h[1..][j - 1] == h[j]; }
        }
        AscendingCons(WeekCount(w, 1), h);
      } else {
        AddWeekAscending(h[1..], w);
        AddWeekAbove(h[1..], w, h[0].week);
        AscendingCons(h[0], AddWeek(h[1..], w));
      }
    }
  }

  /** Adding a run in week `w` adds one to the count of `w` only, and one
      to the total. */
  lemma {:induction false} AddWeekCounts(h: seq<WeekCount>, w: nat)
    ensures forall v :: CountOf(AddWeek(h, w), v) == CountOf(h, v) + (if v == w then 1 else 0)
    ensures Total(AddWeek(h, w)) == Total(h) + 1
  {
    var h' := AddWeek(h, w);
    if h == [] {
      assert h'[1..] == [];
    } else if h[0].week == w {
      assert h'[1..] == h[1..];
    } else if w < h[0].week {
      assert h'[1..] == h;
    } else {
      AddWeekCounts(h[1..], w);
      assert h'[1..] == AddWeek(h[1..], w);
    }
  }

  /** Collectors.groupingBy over the week number with counting, already in
      week order: one bar per week, built run by run in store order. */
  function WeekHistogram(acts: seq<Activity>, weekOf: WeekOf): seq<WeekCount>
    decreases |acts|
  {
    if acts == [] then []
    else AddWeek(WeekHistogram(acts[..|acts| - 1], weekOf), weekOf(acts[|acts| - 1].date))
  }

  /** The histogram is strictly ascending by week, has a bar exactly for the
      weeks that hold a run, every bar counts at least one run and exactly
      the runs of its week, and the counts add up to the number of runs. */
  lemma {:induction false} WeekHistogramCorrect(acts: seq<Activity>, weekOf: WeekOf)
    ensures var h := WeekHistogram(acts, weekOf);
      && Ascending(h) && Positive(h)
      && (forall v :: CountOf(h, v) == CountWeek(acts, weekOf, v))
      && (forall v :: v in Weeks(h) <==> CountWeek(acts, weekOf, v) >= 1)
      && (forall i :: 0 <= i < |h| ==> h[i].count == CountWeek(acts, weekOf, h[i].week))
      && Total(h) == |acts|
    decreases |acts|
  {
    var h := WeekHistogram(acts, weekOf);
    if acts != [] {
      var init := acts[..|acts| - 1];
      WeekHistogramCorrect(init, weekOf);
      AddWeekWeeks(WeekHistogram(init, weekOf), weekOf(acts[|acts| - 1].date));
      AddWeekAscending(WeekHistogram(init, weekOf), weekOf(acts[|acts| - 1].date));
      AddWeekCounts(WeekHistogram(init, weekOf), weekOf(acts[|acts| - 1].date));
    }
    forall v ensures v in Weeks(h) <==> CountOf(h, v) >= 1 {
      CountOfPositive(h, v);
    }
    forall i | 0 <= i < |h| ensures h[i].count == CountOf(h, h[i].week) {
      CountOfEntry(h, i);
    }
  }

  /** In a positive histogram a week has a bar exactly when its count is
      non-zero. */
  lemma {:induction false} CountOfPositive(h: seq<WeekCount>, v: nat)
    requires Positive(h)
    ensures v in Weeks(h) <==> CountOf(h, v) >= 1
  {
    if h != [] {
      CountOfPositive(h[1..], v);
      assert Weeks(h) == {h[0].week} + Weeks(h[1..]) by {
        forall u | u in Weeks(h) ensures u in {h[0].week} + Weeks(h[1..]) {
          var i :| 0 <= i < |h| && h[i].week == u;
          if i > 0 { assert h[1..][i - 1].week == u; }
        }
        forall u | u in Weeks(h[1..]) ensures u in Weeks(h) {
          var i :| 0 <= i < |h[1..]| && h[1..][i].week == u;
          assert h[i + 1].week == u;
        }
      }
    }
  }

  /** In an ascending histogram the count of a bar's week is that bar's
      count. */
  lemma {:induction false} CountOfEntry(h: seq<WeekCount>, i: nat)
    requires Ascending(h) && i < |h|
    ensures CountOf(h, h[i].week) == h[i].count
  {
    if i == 0 {
      CountOfAbsent(h[1..], h[0].week);
    } else {
      assert h[1..][i - 1] == h[i];
      CountOfEntry(h[1..], i - 1);
    }
  }

  lemma {:induction false} CountOfAbsent(h: seq<WeekCount>, v: nat)
    requires forall i :: 0 <= i < |h| ==> h[i].week > v
    ensures CountOf(h, v) == 0
  {
    if h != [] {
      CountOfAbsent(h[1..], v);
    }
  }

  // ---------------------------------------------------------------------
  // Chart entries

  /** The caption of a week: "W" and the week number in decimal. */
  function WeekLabel(w: nat): (caption: string)
    ensures |caption| >= 2 && caption[0] == 'W'
    ensures forall i :: 1 <= i < |caption| ==> caption[i] in "0123456789"
  {
    "W" + NatToDecimal(w)
  }

  /** Distinct weeks have distinct labels. */
  lemma WeekLabelInjective(v: nat, w: nat)
    requires WeekLabel(v) == WeekLabel(w)
    ensures v == w
  {
    assert NatToDecimal(v) == WeekLabel(v)[1..] == WeekLabel(w)[1..] == NatToDecimal(w);
    NatToDecimalInjective(v, w);
  }

  function BarEntries(h: seq<WeekCount>): (r: seq<ChartResponse>)
    ensures |r| == |h|
  {
    if h == [] then [] else [ChartResponse(WeekLabel(h[0].week), h[0].count as real)] + BarEntries(h[1..])
  }

  /** The sum of the values of a chart. */
  function SumValues(r: seq<ChartResponse>): real {
    if r == [] then 0.0 else r[0].value + SumValues(r[1..])
  }

  lemma {:induction false} BarEntriesSum(h: seq<WeekCount>)
    ensures SumValues(BarEntries(h)) == Total(h) as real
  {
    if h != [] {
      BarEntriesSum(h[1..]);
      assert BarEntries(h)[1..] == BarEntries(h[1..]);
    }
  }

  lemma {:induction false} BarEntriesAt(h: seq<WeekCount>, i: nat)
    requires i < |h|
    ensures BarEntries(h)[i] == ChartResponse(WeekLabel(h[i].week), h[i].count as real)
  {
    if i > 0 {
      BarEntriesAt(h[1..], i - 1);
    }
  }

  /** getRunsPerWeek over the runner's activities: one entry per week that
      holds a run, in ascending week order, labelled "W" + week, valued
      with the number of runs in that week; labels are pairwise distinct
      and the values add up to the number of runs. */
  function RunsPerWeek(acts: seq<Activity>, weekOf: WeekOf): (r: seq<ChartResponse>)
    ensures var h := WeekHistogram(acts, weekOf);
      && |r| == |h|
      && Ascending(h)
      && (forall v :: v in Weeks(h) <==> CountWeek(acts, weekOf, v) >= 1)
      && (forall i :: 0 <= i < |r| ==>
            r[i].caption == WeekLabel(h[i].week) && r[i].value == CountWeek(acts, weekOf, h[i].week) as real
            && r[i].value >= 1.0)
      && (forall i, j :: 0 <= i < j < |r| ==> r[i].caption != r[j].caption)
      && SumValues(r) == |acts| as real
  {
    var h := WeekHistogram(acts, weekOf);
    WeekHistogramCorrect(acts, weekOf);
    BarEntriesSum(h);
    var r := BarEntries(h);
    forall i | 0 <= i < |r|
      ensures r[i].caption == WeekLabel(h[i].week) && r[i].value == CountWeek(acts, weekOf, h[i].week) as real
    {
      BarEntriesAt(h, i);
    }
    forall i, j | 0 <= i < j < |r| ensures r[i].caption != r[j].caption {
      BarEntriesAt(h, i);
      BarEntriesAt(h, j);
      if r[i].caption == r[j].caption {
        WeekLabelInjective(h[i].week, h[j].week);
      }
    }
    r
  }

  /** Runs from different years with the same week number share one bar. */
  lemma SameWeekShared(a: Activity, b: Activity, weekOf: WeekOf)
    requires a.date != b.date && weekOf(a.date) == weekOf(b.date)
    ensures WeekHistogram([a, b], weekOf) == [WeekCount(weekOf(a.date), 2)]
  {
    assert [a, b][..1] == [a];
    assert [a][..0] == [];
    assert WeekHistogram([a], weekOf) == [WeekCount(weekOf(a.date), 1)];
  }

  // ---------------------------------------------------------------------
  // The service

  class ChartService {
    const activityRepository: ActivityRepository

    constructor (activityRepository: ActivityRepository)
      ensures this.activityRepository == activityRepository
    {
      this.activityRepository := activityRepository;
    }

    /** getRunnerStats: exactly two entries, "Total km" then "Total runs",
        holding the runner's distance and number of runs; a runner without
        activities gets zero for both. */
    method GetRunnerStats(runnerId: RunnerId) returns (charts: seq<ChartResponse>)
      ensures |charts| == 2
      ensures charts[0].caption == "Total km" && charts[1].caption == "Total runs"
      ensures charts[0].value == SumDistance(FindByRunnerId(activityRepository.rows, runnerId))
      ensures charts[1].value == |FindByRunnerId(activityRepository.rows, runnerId)| as real
      ensures FindByRunnerId(activityRepository.rows, runnerId) == [] ==> charts[0].value == 0.0 && charts[1].value == 0.0
    {
      charts := [];
      var totalKmObj := TotalDistance(activityRepository.rows, runnerId);
      var runs := TotalActivities(activityRepository.rows, runnerId);
      var totalKm := if totalKmObj.None? then 0.0 else totalKmObj.value;
      charts := charts + [ChartResponse("Total km", totalKm)];
      charts := charts + [ChartResponse("Total runs", runs as real)];
    }

    /** getRunsPerWeek: the weekly chart of the runner's activities, one
        entry per week in which the runner ran, in ascending week order,
        labelled "W" and the week and holding that week's number of runs. */
    function GetRunsPerWeek(runnerId: RunnerId, weekOf: WeekOf): (r: seq<ChartResponse>)
      reads activityRepository
      ensures var acts := FindByRunnerId(activityRepository.rows, runnerId);
        var h := WeekHistogram(acts, weekOf);
        && |r| == |h|
        && Ascending(h)
        && (forall v :: v in Weeks(h) <==> CountWeek(acts, weekOf, v) >= 1)
        && (forall i :: 0 <= i < |r| ==>
              r[i].caption == WeekLabel(h[i].week) && r[i].value == CountWeek(acts, weekOf, h[i].week) as real)
        && (forall i, j :: 0 <= i < j < |r| ==> r[i].caption != r[j].caption)
      ensures SumValues(r) == CountByRunner(activityRepository.rows, runnerId) as real
      ensures forall i :: 0 <= i < |r| ==> r[i].value >= 1.0 && StartsWith(r[i].caption, "W")
      ensures forall a :: a in activityRepository.rows && a.runner == runnerId ==>
        exists i :: 0 <= i < |r| && r[i].caption == WeekLabel(weekOf(a.date))
    {
      var acts := FindByRunnerId(activityRepository.rows, runnerId);
      var r := RunsPerWeek(acts, weekOf);
      forall a | a in activityRepository.rows && a.runner == runnerId
        ensures exists i :: 0 <= i < |r| && r[i].caption == WeekLabel(weekOf(a.date))
      {
        assert a in acts;
        CountWeekMember(acts, weekOf, a);
        var h := WeekHistogram(acts, weekOf);
        var i :| 0 <= i < |h| && h[i].week == weekOf(a.date);
        assert r[i].caption == WeekLabel(weekOf(a.date));
      }
      r
    }
  }

  /** A run counts towards its own week. */
  lemma {:induction false} CountWeekMember(acts: seq<Activity>, weekOf: WeekOf, a: Activity)
    requires a in acts
    ensures CountWeek(acts, weekOf, weekOf(a.date)) >= 1
    decreases |acts|
  {
    if acts[|acts| - 1] != a {
      assert a in acts[..|acts| - 1] by {
        var i :| 0 <= i < |acts| && acts[i] == a;
        assert acts[..|acts| - 1][i] == a;
      }
      CountWeekMember(acts[..|acts| - 1], weekOf, a);
    }
  }
}
