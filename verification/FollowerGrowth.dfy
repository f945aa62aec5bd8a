/** Daily follower growth from total-follower snapshots
    (apps/analytics/services.py, follower_growth_metric, the "followers" branch).
    Values are reals; the percentage change shown beside the headline is not
    part of this model. */
module FollowerGrowth {
  import opened Common

  /** A daily total; at most one per day, ordered by day. */
  datatype Total = Total(day: int, value: real)

  ghost predicate Ordered(rows: seq<Total>) {
    forall i, j | 0 <= i < j < |rows| :: rows[i].day < rows[j].day
  }

  function Sum(s: seq<real>): real {
    if s == [] then 0.0 else Sum(s[..|s| - 1]) + s[|s| - 1]
  }

  function Gain(from: real, to: real): (g: real)
    ensures g >= 0.0
  {
    if to > from then to - from else 0.0
  }

  /** How many rows fall before a day. */
  function Before(rows: seq<Total>, day: int): (n: nat)
    ensures n <= |rows|
  {
    if rows == [] then 0 else Before(rows[..|rows| - 1], day) + (if rows[|rows| - 1].day < day then 1 else 0)
  }

  lemma {:induction false} BeforeSplits(rows: seq<Total>, day: int)
    requires Ordered(rows)
    ensures forall i | 0 <= i < |rows| :: rows[i].day < day <==> i < Before(rows, day)
  {
    if rows != [] {
      var n := |rows| - 1;
      BeforeSplits(rows[..n], day);
      assert forall i | 0 <= i < n :: rows[..n][i] == rows[i];
    }
  }

  lemma {:induction false} AllBefore(rows: seq<Total>, day: int)
    requires forall i | 0 <= i < |rows| :: rows[i].day < day
    ensures Before(rows, day) == |rows|
  {
    if rows != [] { AllBefore(rows[..|rows| - 1], day); }
  }

  /** The rises over the row before, for the rows `lo <= k < hi`; the very first row has none. */
  function Rises(rows: seq<Total>, lo: nat, hi: nat): real
    requires lo <= hi <= |rows|
    decreases hi
  {
    if lo == hi then 0.0
    else Rises(rows, lo, hi - 1) + (if hi == 1 then 0.0 else Gain(rows[hi - 2].value, rows[hi - 1].value))
  }

  /** Of the totals `a <= k < b` the last minus the first, never negative, zero with fewer than two. */
  function Spread(rows: seq<Total>, a: nat, b: nat): real
    requires b <= |rows|
  {
    if b < a + 2 then 0.0 else Gain(rows[a].value, rows[b - 1].value)
  }

  /** The headline: last total minus first in the window, never negative, zero with fewer than two. */
  method WindowDelta(rows: seq<Total>, start: int, stop: int) returns (r: real)
    requires Ordered(rows)
    ensures r == Spread(rows, Before(rows, start), Before(rows, stop + 1))
  {
    BeforeSplits(rows, start);
    BeforeSplits(rows, stop + 1);
    ghost var a, b := Before(rows, start), Before(rows, stop + 1);
    var values: seq<real> := [];
    for i := 0 to |rows|
      invariant |values| == if (if b < i then b else i) > a then (if b < i then b else i) - a else 0
      invariant forall j | 0 <= j < |values| :: values[j] == rows[a + j].value
    {
      if start <= rows[i].day <= stop {
        values := values + [rows[i].value];
      }
    }
    if |values| < 2 {
      return 0.0;
    }
    return Gain(values[0], values[|values| - 1]);
  }

  /** What a day of the series shows: how far its total rises above the one before it,
      and nothing on a day without a total or without an earlier one. */
  ghost predicate DayRise(rows: seq<Total>, day: int, gain: real) {
    (forall i | 0 < i < |rows| && rows[i].day == day ::
       gain == if rows[i].value > rows[i - 1].value then rows[i].value - rows[i - 1].value else 0.0)
    && ((forall i | 0 < i < |rows| :: rows[i].day != day) ==> gain == 0.0)
  }

  ghost predicate RisesEachDay(rows: seq<Total>, first: int, series: seq<real>) {
    forall i | 0 <= i < |series| :: DayRise(rows, first + i, series[i])
  }

  /** `a` is the first row on or after the day. */
  ghost predicate StartsAt(rows: seq<Total>, day: int, a: nat) {
    a <= |rows| && (forall i | 0 <= i < a :: rows[i].day < day) && forall i | a <= i < |rows| :: rows[i].day >= day
  }

  /** The headline in the rows' own terms: the last total less the first in the window, if that is a rise. */
  ghost predicate Headline(rows: seq<Total>, start: int, value: real) {
    forall a: nat | StartsAt(rows, start, a) ::
      value == if a + 1 < |rows| && rows[|rows| - 1].value > rows[a].value then rows[|rows| - 1].value - rows[a].value else 0.0
  }

  lemma StartIsBefore(rows: seq<Total>, day: int, a: nat)
    requires Ordered(rows) && StartsAt(rows, day, a)
    ensures a == Before(rows, day)
  {
    BeforeSplits(rows, day);
    hide Before;
    var b := Before(rows, day);
    assert forall i | 0 <= i < |rows| :: i < a <==> rows[i].day < day;
    assert a < |rows| ==> !(a < b) by { if a < |rows| { assert !(rows[a].day < day); } }
    assert b < |rows| ==> !(b < a) by { if b < |rows| { assert !(rows[b].day < day); } }
  }

  lemma HeadlineHolds(rows: seq<Total>, start: int, value: real)
    requires Ordered(rows)
    requires value == Spread(rows, Before(rows, start), |rows|)
    ensures Headline(rows, start, value)
  {
    forall a: nat | StartsAt(rows, start, a) ensures a == Before(rows, start) {
      StartIsBefore(rows, start, a);
    }
    hide Before, StartsAt;
  }

  /** The headline and the daily series for a window of `days` days ending on `end`. */
  method Growth(rows: seq<Total>, days: nat, end: int) returns (value: real, series: seq<real>)
    requires Ordered(rows) && forall i | 0 <= i < |rows| :: end - 2 * days + 1 <= rows[i].day <= end
    ensures |series| == days && NonNegative(series)
    ensures var m := Before(rows, end - days + 1); value == Spread(rows, m, |rows|) && Sum(series) == Rises(rows, m, |rows|)
    ensures RisesEachDay(rows, end - days + 1, series)
    ensures Headline(rows, end - days + 1, value)
  {
    hide *;
    var currentStart := end - days + 1;
    WindowEnds(rows, currentStart, days, end);
    value := WindowDelta(rows, currentStart, end);
    HeadlineHolds(rows, currentStart, value);
    var byDay := ByDay(rows);
    var previous := PreviousTotal(rows, currentStart);
    series := DailySeries(rows, byDay, currentStart, days, previous);
  }

  /** With no total after its last day, the window ends with the rows. */
  lemma WindowEnds(rows: seq<Total>, start: int, days: nat, end: int)
    requires (forall i | 0 <= i < |rows| :: rows[i].day <= end) && start + days == end + 1
    ensures Before(rows, end + 1) == Before(rows, start + days) == |rows| && Before(rows, start) <= |rows|
  {
    AllBefore(rows, end + 1);
  }

  /** The dictionary holds exactly the totals, each under its day. */
  ghost predicate KeyedByDay(rows: seq<Total>, byDay: map<int, real>) {
    (forall d :: d in byDay <==> HasDay(rows, d))
    && forall j | 0 <= j < |rows| :: rows[j].day in byDay && byDay[rows[j].day] == rows[j].value
  }

  /** The rises of `days` days from `first` on. */
  method DailySeries(rows: seq<Total>, byDay: map<int, real>, first: int, days: nat, previous: Option<real>)
    returns (series: seq<real>)
    requires Ordered(rows) && Before(rows, first) <= Before(rows, first + days)
    requires previous == LastOf(rows, Before(rows, first))
    requires KeyedByDay(rows, byDay)
    ensures |series| == days && NonNegative(series)
    ensures Sum(series) == Rises(rows, Before(rows, first), Before(rows, first + days))
    ensures RisesEachDay(rows, first, series)
  {
    var last := previous;
    series := [];
    SeriesNone(rows, first);
    hide *;
    for i := 0 to days
      invariant SeriesFor(rows, first, i, series) && last == LastOf(rows, Before(rows, first + i))
    {
      var gain;
      gain, last := OneDay(rows, byDay, first + i, last);
      SeriesMore(rows, first, i, series, gain);
      series := series + [gain];
    }
    SeriesAll(rows, first, days, series);
  }

  /** The series of the first `days` days. */
  ghost predicate SeriesFor(rows: seq<Total>, first: int, days: nat, series: seq<real>) {
    |series| == days && NonNegative(series) && Before(rows, first) <= Before(rows, first + days)
    && RisesEachDay(rows, first, series)
    && Sum(series) == Rises(rows, Before(rows, first), Before(rows, first + days))
  }

  lemma SeriesNone(rows: seq<Total>, first: int)
    ensures SeriesFor(rows, first, 0, [])
  {
  }

  lemma SeriesAll(rows: seq<Total>, first: int, days: nat, series: seq<real>)
    requires SeriesFor(rows, first, days, series) && Before(rows, first) <= Before(rows, first + days)
    ensures |series| == days && NonNegative(series)
    ensures Sum(series) == Rises(rows, Before(rows, first), Before(rows, first + days))
    ensures RisesEachDay(rows, first, series)
  {
    hide DayRise, Before, Rises, Sum, NonNegative;
  }

  lemma SeriesMore(rows: seq<Total>, first: int, days: nat, series: seq<real>, gain: real)
    requires SeriesFor(rows, first, days, series) && GainOf(rows, first + days, gain)
    ensures SeriesFor(rows, first, days + 1, series + [gain])
  {
    SumNext(series, gain);
    var m, k, k' := Before(rows, first), Before(rows, first + days), Before(rows, first + (days + 1));
    assert k' == Before(rows, (first + days) + 1);
    RisesSplit(rows, m, k, k');
    hide Before, Rises, Sum, NonNegative;
  }

  /** The gain of a day is what the rises over its totals come to. */
  ghost predicate GainOf(rows: seq<Total>, day: int, gain: real) {
    gain >= 0.0 && DayRise(rows, day, gain) && Before(rows, day) <= Before(rows, day + 1)
    && Rises(rows, Before(rows, day), Before(rows, day + 1)) == gain
  }

  lemma {:induction false} RisesSplit(rows: seq<Total>, m: nat, k: nat, n: nat)
    requires m <= k <= n <= |rows|
    ensures Rises(rows, m, n) == Rises(rows, m, k) + Rises(rows, k, n)
    decreases n
  {
    if k < n { RisesSplit(rows, m, k, n - 1); }
  }

  /** One day of the series: the rise over the last total seen, nothing on a day without a total. */
  method OneDay(rows: seq<Total>, byDay: map<int, real>, day: int, previous: Option<real>)
    returns (gain: real, last: Option<real>)
    requires Ordered(rows) && previous == LastOf(rows, Before(rows, day)) && KeyedByDay(rows, byDay)
    ensures GainOf(rows, day, gain) && last == LastOf(rows, Before(rows, day + 1))
  {
    BeforeNext(rows, day);
    RiseNext(rows, Before(rows, day));
    assert KeyedByDay(rows, byDay);
    hide Before, LastOf, Rises, HasDay, Ordered;
    gain, last := 0.0, previous;
    if day in byDay {
      gain := if previous.Some? then Gain(previous.value, byDay[day]) else 0.0;
      last := Some(byDay[day]);
    }
  }

  ghost predicate NonNegative(s: seq<real>) {
    forall i | 0 <= i < |s| :: s[i] >= 0.0
  }

  /** The last of the first `k` totals. */
  ghost function LastOf(rows: seq<Total>, k: nat): Option<real>
    requires k <= |rows|
  {
    if k > 0 then Some(rows[k - 1].value) else None
  }

  lemma SumNext(s: seq<real>, x: real)
    requires x >= 0.0 && NonNegative(s)
    ensures Sum(s + [x]) == Sum(s) + x && NonNegative(s + [x])
  {
    assert (s + [x])[..|s|] == s;
  }

  lemma RiseNext(rows: seq<Total>, k: nat)
    requires k <= |rows|
    ensures Rises(rows, k, k) == 0.0
    ensures k < |rows| ==>
              LastOf(rows, k + 1) == Some(rows[k].value)
              && var before := LastOf(rows, k);
              Rises(rows, k, k + 1) == if before.Some? then Gain(before.value, rows[k].value) else 0.0
  {
  }

  ghost predicate HasDay(rows: seq<Total>, day: int) {
    exists j :: 0 <= j < |rows| && rows[j].day == day
  }

  /** Moving on by a day passes exactly the row of that day, if there is one. */
  lemma BeforeNext(rows: seq<Total>, day: int)
    requires Ordered(rows)
    ensures var k := Before(rows, day);
            if HasDay(rows, day) then k < |rows| && rows[k].day == day && Before(rows, day + 1) == k + 1
            else Before(rows, day + 1) == k
  {
    BeforeSplits(rows, day);
    BeforeSplits(rows, day + 1);
    var k := Before(rows, day);
    var l := Before(rows, day + 1);
    hide Before;
    var atK := if k < |rows| then rows[k].day else day;
    var next := if k + 1 < |rows| then rows[k + 1].day else day;
    var atL := if l < |rows| then rows[l].day else day;
    if HasDay(rows, day) {
      var j :| 0 <= j < |rows| && rows[j].day == day;
      assert j == k;
      assert l == k + 1;
    } else {
      assert k < |rows| ==> atK != day;
      assert l == k;
    }
  }

  lemma DayAdded(rows: seq<Total>, i: nat)
    requires i < |rows|
    ensures forall d :: HasDay(rows[..i + 1], d) <==> HasDay(rows[..i], d) || d == rows[i].day
  {
    forall d ensures HasDay(rows[..i + 1], d) <==> HasDay(rows[..i], d) || d == rows[i].day {
      assert rows[..i + 1] == rows[..i] + [rows[i]];
      if HasDay(rows[..i], d) {
        var j :| 0 <= j < i && rows[..i][j].day == d;
        assert rows[..i + 1][j].day == d;
      }
      if d == rows[i].day { assert rows[..i + 1][i].day == d; }
    }
  }

  method ByDay(rows: seq<Total>) returns (byDay: map<int, real>)
    requires Ordered(rows)
    ensures KeyedByDay(rows, byDay)
  {
    byDay := map[];
    for i := 0 to |rows|
      invariant forall d :: d in byDay <==> HasDay(rows[..i], d)
      invariant forall j | 0 <= j < i :: rows[j].day in byDay && byDay[rows[j].day] == rows[j].value
    {
      DayAdded(rows, i);
      byDay := byDay[rows[i].day := rows[i].value];
    }
    assert rows[..|rows|] == rows;
  }

  /** The last total before a day, searched backwards. */
  method PreviousTotal(rows: seq<Total>, day: int) returns (r: Option<real>)
    requires Ordered(rows)
    ensures r == LastOf(rows, Before(rows, day))
  {
    BeforeSplits(rows, day);
    var i := |rows|;
    while i > 0
      invariant Before(rows, day) <= i <= |rows|
    {
      i := i - 1;
      if rows[i].day < day {
        return Some(rows[i].value);
      }
    }
    return None;
  }

  // ----- the series against the headline -----

  ghost predicate NeverFalls(rows: seq<Total>, lo: nat) {
    forall k | lo < k < |rows| :: rows[k - 1].value <= rows[k].value
  }

  ghost predicate NeverRises(rows: seq<Total>, lo: nat) {
    forall k | lo < k < |rows| :: rows[k - 1].value >= rows[k].value
  }

  /** The falls, counted like the rises. */
  function Falls(rows: seq<Total>, lo: nat, hi: nat): real
    requires lo <= hi <= |rows|
    decreases hi
  {
    if lo == hi then 0.0
    else Falls(rows, lo, hi - 1) + (if hi == 1 then 0.0 else Gain(rows[hi - 1].value, rows[hi - 2].value))
  }

  lemma {:induction false} RisesAndFalls(rows: seq<Total>, lo: nat, hi: nat)
    requires 1 <= lo <= hi <= |rows|
    ensures Rises(rows, lo, hi) >= 0.0 && Falls(rows, lo, hi) >= 0.0
    ensures Rises(rows, lo, hi) - Falls(rows, lo, hi) == rows[hi - 1].value - rows[lo - 1].value
    ensures Falls(rows, lo, hi) == 0.0 <==> forall k | lo <= k < hi :: rows[k - 1].value <= rows[k].value
    ensures Rises(rows, lo, hi) == 0.0 <==> forall k | lo <= k < hi :: rows[k - 1].value >= rows[k].value
    decreases hi
  {
    if lo < hi { RisesAndFalls(rows, lo, hi - 1); }
  }

  /** What the first total in the window adds over the last one before it. */
  function EdgeRise(rows: seq<Total>, m: nat): real {
    if 0 < m < |rows| then Gain(rows[m - 1].value, rows[m].value) else 0.0
  }

  lemma {:induction false} RisesFromEdge(rows: seq<Total>, m: nat, hi: nat)
    requires m < hi <= |rows|
    ensures Rises(rows, m, hi) == EdgeRise(rows, m) + Rises(rows, m + 1, hi)
    decreases hi
  {
    if m + 1 < hi { RisesFromEdge(rows, m, hi - 1); }
  }

  /** The daily series adds up to at least the headline, and to exactly the
      headline if and only if the window does not open with a rise over an
      earlier total and the totals inside it never fall or never rise. */
  lemma SeriesCoversHeadline(rows: seq<Total>, m: nat)
    requires m <= |rows|
    ensures var value := Spread(rows, m, |rows|);
            && Rises(rows, m, |rows|) >= value
            && (Rises(rows, m, |rows|) == value <==>
                EdgeRise(rows, m) == 0.0 && (NeverFalls(rows, m) || NeverRises(rows, m)))
  {
    if m < |rows| {
      RisesFromEdge(rows, m, |rows|);
      RisesAndFalls(rows, m + 1, |rows|);
    }
  }

  /** The promised case: nothing before the window and no falls in it. */
  lemma FreshAndGrowing(rows: seq<Total>)
    requires NeverFalls(rows, 0)
    ensures Rises(rows, 0, |rows|) == if |rows| < 2 then 0.0 else rows[|rows| - 1].value - rows[0].value
  {
    SeriesCoversHeadline(rows, 0);
    if |rows| >= 2 {
      RisesFromEdge(rows, 0, |rows|);
      RisesAndFalls(rows, 1, |rows|);
    }
  }
}
