/** Daily credits from per-post lifetime counters
    (apps/analytics/services.py, _post_summed_series_for_metric). Values are
    reals: rounding is not part of this model. Dates are day ordinals. */
module PostDeltas {
  import opened Common

  /** A snapshot row: the post, its publish day if known, the snapshot's day, the
      counter read, and when it was captured. */
  datatype Snap = Snap(post: nat, published: Option<nat>, day: nat, value: real, captured: Option<nat>)

  function Get(out: map<nat, real>, d: nat): real {
    if d in out then out[d] else 0.0
  }

  // ----- the histories of the posts -----

  /** The rows cut into maximal runs of one post. */
  function Histories(rows: seq<Snap>): (hs: seq<seq<Snap>>)
    ensures forall i | 0 <= i < |hs| :: hs[i] != []
    ensures rows != [] ==> hs != [] && hs[|hs| - 1][0].post == rows[|rows| - 1].post
  {
    if rows == [] then []
    else
      var n := |rows| - 1;
      var hs := Histories(rows[..n]);
      if hs != [] && rows[n - 1].post == rows[n].post
      then hs[..|hs| - 1] + [hs[|hs| - 1] + [rows[n]]]
      else hs + [[rows[n]]]
  }

  /** The highest counter value of a history: its high-water mark. */
  function Peak(h: seq<Snap>): real
    requires h != []
  {
    var n := |h| - 1;
    if n == 0 then h[0].value
    else if h[n].value > Peak(h[..n]) then h[n].value else Peak(h[..n])
  }

  /** The first snapshot's share of day `d`: everything on the snapshot's day when
      the publish day is unknown or odd, nothing for a post from before the
      window, else an even spread over the days since it was published. */
  function FirstShare(r: Snap, start: nat, d: nat): real {
    if r.published.None? || r.published.value > r.day then (if d == r.day then r.value else 0.0)
    else if r.published.value < start then 0.0
    else if r.published.value <= d <= r.day then r.value / ((r.day - r.published.value + 1) as real)
    else 0.0
  }

  /** A history's credit on day `d`: the first share, then on each later
      snapshot's day what it adds to the high-water mark. */
  function DayCredit(h: seq<Snap>, start: nat, d: nat): real
    requires h != []
  {
    var n := |h| - 1;
    if n == 0 then FirstShare(h[0], start, d)
    else DayCredit(h[..n], start, d) + (if d == h[n].day then Peak(h) - Peak(h[..n]) else 0.0)
  }

  function Credit(hs: seq<seq<Snap>>, start: nat, d: nat): real
    requires forall i | 0 <= i < |hs| :: hs[i] != []
  {
    if hs == [] then 0.0 else Credit(hs[..|hs| - 1], start, d) + DayCredit(hs[|hs| - 1], start, d)
  }

  /** What a history is worth over the whole window. */
  function Worth(h: seq<Snap>, start: nat): real
    requires h != []
  {
    if h[0].published.Some? && h[0].published.value < start then Peak(h) - h[0].value else Peak(h)
  }

  function TotalWorth(hs: seq<seq<Snap>>, start: nat): real
    requires forall i | 0 <= i < |hs| :: hs[i] != []
  {
    if hs == [] then 0.0 else TotalWorth(hs[..|hs| - 1], start) + Worth(hs[|hs| - 1], start)
  }

  /** The series summed over the days `lo <= d < hi`. */
  function WindowSum(out: map<nat, real>, lo: nat, hi: nat): real
    requires lo <= hi
    decreases hi
  {
    if lo == hi then 0.0 else WindowSum(out, lo, hi - 1) + Get(out, hi - 1)
  }

  // ----- the single pass -----

  function Latest(rows: seq<Snap>): Option<nat> {
    if rows == [] then None
    else
      var before := Latest(rows[..|rows| - 1]);
      var c := rows[|rows| - 1].captured;
      if c.Some? && (before.None? || c.value > before.value) then c else before
  }

  /** After the first `i` rows: every day has the credits of the histories so far,
      and `prev` is the high-water mark of the post being read. */
  ghost predicate Passed(rows: seq<Snap>, i: nat, start: nat, out: map<nat, real>, prev: real)
    requires i <= |rows|
  {
    var hs := Histories(rows[..i]);
    (forall d :: Get(out, d) == Credit(hs, start, d)) && (i > 0 ==> prev == Peak(hs[|hs| - 1]))
  }

  lemma PassFirst(rows: seq<Snap>, i: nat, start: nat, out: map<nat, real>, before: real, credited: map<nat, real>)
    requires i < |rows| && Passed(rows, i, start, out, before)
    requires i > 0 ==> rows[i - 1].post != rows[i].post
    requires forall d :: Get(credited, d) == Get(out, d) + FirstShare(rows[i], start, d)
    ensures Passed(rows, i + 1, start, credited, rows[i].value)
  {
    assert rows[..i + 1][..i] == rows[..i];
    var hs := Histories(rows[..i]);
    var more := hs + [[rows[i]]];
    assert Histories(rows[..i + 1]) == more;
    assert more[..|hs|] == hs;
    hide Histories;
    forall d ensures Get(credited, d) == Credit(more, start, d) {
      assert Get(out, d) == Credit(hs, start, d);
    }
  }

  lemma PassOn(rows: seq<Snap>, i: nat, start: nat, out: map<nat, real>, prev: real, credited: map<nat, real>)
    requires 0 < i < |rows| && Passed(rows, i, start, out, prev)
    requires rows[i - 1].post == rows[i].post
    requires forall d :: Get(credited, d) ==
                         Get(out, d) + (if d == rows[i].day && rows[i].value > prev then rows[i].value - prev else 0.0)
    ensures Passed(rows, i + 1, start, credited, if rows[i].value > prev then rows[i].value else prev)
  {
    assert rows[..i + 1][..i] == rows[..i];
    var hs := Histories(rows[..i]);
    var m := |hs| - 1;
    var h := hs[m] + [rows[i]];
    var more := hs[..m] + [h];
    assert Histories(rows[..i + 1]) == more;
    assert h[..|h| - 1] == hs[m] && more[..m] == hs[..m];
    hide Histories;
    forall d ensures Get(credited, d) == Credit(more, start, d) {
      assert Get(out, d) == Credit(hs, start, d);
    }
  }

  /** The first observation of a post. */
  method CreditFirst(out: map<nat, real>, r: Snap, start: nat, end: nat) returns (credited: map<nat, real>)
    requires start <= r.day <= end
    ensures forall d :: Get(credited, d) == Get(out, d) + FirstShare(r, start, d)
    ensures forall d | d in credited && d !in out :: start <= d <= end
  {
    credited := out;
    if r.published.None? || r.published.value > r.day {
      if start <= r.day <= end {
        credited := credited[r.day := Get(credited, r.day) + r.value];
      }
    } else if r.published.value < start {
    } else {
      var nDays := r.day - r.published.value + 1;
      var perDay := r.value / (nDays as real);
      var d: nat := r.published.value;
      while d <= r.day
        invariant r.published.value <= d <= r.day + 1
        invariant forall x: nat :: Get(credited, x) == Get(out, x) + (if r.published.value <= x < d then perDay else 0.0)
        invariant forall x | x in credited && x !in out :: start <= x <= end
      {
        if start <= d <= end {
          credited := credited[d := Get(credited, d) + perDay];
        }
        d := d + 1;
      }
    }
  }

  /** One pass over the rows as the query returns them, bounded to the window.
      Every day ends with exactly the credits of the histories, no day outside the
      window is touched, and the freshest capture time comes back with them. */
  method PostSummedSeries(rows: seq<Snap>, start: nat, end: nat) returns (out: map<nat, real>, captured: Option<nat>)
    requires forall i | 0 <= i < |rows| :: start <= rows[i].day <= end
    ensures forall d :: Get(out, d) == Credit(Histories(rows), start, d)
    ensures forall d | d in out :: start <= d <= end
    ensures captured == Latest(rows)
  {
    out, captured := map[], None;
    var current: Option<nat> := None;
    var prev := 0.0;
    var first := true;
    for i := 0 to |rows|
      invariant Passed(rows, i, start, out, prev)
      invariant forall d | d in out :: start <= d <= end
      invariant captured == Latest(rows[..i])
      invariant current == if i == 0 then None else Some(rows[i - 1].post)
      invariant i > 0 ==> !first
    {
      hide Passed;
      hide FirstShare;
      var r := rows[i];
      ghost var before := prev;
      assert rows[..i + 1][..i] == rows[..i];
      if current != Some(r.post) {
        current, first, prev := Some(r.post), true, 0.0;
      }
      if r.captured.Some? && (captured.None? || r.captured.value > captured.value) {
        captured := r.captured;
      }
      if first {
        first := false;
        var credited := CreditFirst(out, r, start, end);
        PassFirst(rows, i, start, out, before, credited);
        out, prev := credited, r.value;
        continue;
      }
      var delta := r.value - prev;
      if delta <= 0.0 {
        PassOn(rows, i, start, out, prev, out);
        continue;
      }
      var credited := out[r.day := Get(out, r.day) + delta];
      PassOn(rows, i, start, out, prev, credited);
      out, prev := credited, r.value;
    }
    assert rows[..|rows|] == rows;
  }

  // ----- what one row adds -----

  /** The freshest capture time is that of some row and no earlier than any other's;
      there is none exactly when no row has one. */
  lemma {:induction false} LatestIsGreatest(rows: seq<Snap>)
    ensures Latest(rows).None? <==> forall i | 0 <= i < |rows| :: rows[i].captured.None?
    ensures Latest(rows).Some? ==> exists i :: 0 <= i < |rows| && rows[i].captured == Latest(rows)
    ensures Latest(rows).Some? ==>
              forall i | 0 <= i < |rows| && rows[i].captured.Some? :: rows[i].captured.value <= Latest(rows).value
  {
    if rows != [] {
      var n := |rows| - 1;
      LatestIsGreatest(rows[..n]);
      assert forall i | 0 <= i < n :: rows[..n][i] == rows[i];
      if i :| 0 <= i < n && rows[..n][i].captured == Latest(rows[..n]) {
        assert rows[i].captured == Latest(rows[..n]);
      }
      assert rows[n].captured == Latest(rows) || Latest(rows) == Latest(rows[..n]);
    }
  }

  /** The rows before `n` that belong to its post, with no other post's row between. */
  predicate SamePostBefore(rows: seq<Snap>, j: nat, n: nat) {
    j < n < |rows| && forall k | j <= k <= n :: rows[k].post == rows[n].post
  }

  /** The greatest value read for the post of row `n` before that row. */
  ghost predicate HighBefore(rows: seq<Snap>, n: nat, high: real) {
    (exists j: nat :: SamePostBefore(rows, j, n) && rows[j].value == high)
    && forall j: nat | SamePostBefore(rows, j, n) :: rows[j].value <= high
  }

  ghost predicate IsHighest(h: seq<Snap>, high: real) {
    (exists j :: 0 <= j < |h| && h[j].value == high) && forall j | 0 <= j < |h| :: h[j].value <= high
  }

  lemma {:induction false} PeakIsHighest(h: seq<Snap>)
    requires h != []
    ensures IsHighest(h, Peak(h))
  {
    var n := |h| - 1;
    if n > 0 {
      PeakIsHighest(h[..n]);
      var j :| 0 <= j < n && h[..n][j].value == Peak(h[..n]);
      assert h[j].value == Peak(h[..n]) && h[n].value <= Peak(h);
      assert forall k | 0 <= k < n :: h[k] == h[..n][k];
    }
  }

  lemma HighestUnique(h: seq<Snap>, a: real, b: real)
    requires IsHighest(h, a) && IsHighest(h, b)
    ensures a == b
  {
  }

  /** The rows from `from` on are the run of the last row's post. */
  predicate LastRun(rows: seq<Snap>, from: nat) {
    from < |rows| && (forall k | from <= k < |rows| :: rows[k].post == rows[|rows| - 1].post)
    && (from > 0 ==> rows[from - 1].post != rows[|rows| - 1].post)
  }

  lemma LastRunMore(rows: seq<Snap>, from: nat)
    requires |rows| >= 2 && rows[|rows| - 2].post == rows[|rows| - 1].post && LastRun(rows[..|rows| - 1], from)
    ensures LastRun(rows, from) && rows[..|rows| - 1][from..] + [rows[|rows| - 1]] == rows[from..]
  {
    var n := |rows| - 1;
    assert forall k | 0 <= k < n :: rows[..n][k] == rows[k];
  }

  lemma HistoriesMore(rows: seq<Snap>)
    requires rows != []
    ensures var n := |rows| - 1;
            var hs := Histories(rows[..n]);
            Histories(rows) == if n > 0 && rows[n - 1].post == rows[n].post
                               then hs[..|hs| - 1] + [hs[|hs| - 1] + [rows[n]]] else hs + [[rows[n]]]
  {
  }

  /** The last history is that run. */
  lemma {:induction false} LastHistory(rows: seq<Snap>) returns (from: nat)
    requires rows != []
    ensures LastRun(rows, from) && Histories(rows)[|Histories(rows)| - 1] == rows[from..]
  {
    var n := |rows| - 1;
    HistoriesMore(rows);
    hide Histories;
    if n > 0 && rows[n - 1].post == rows[n].post {
      from := LastHistory(rows[..n]);
      LastRunMore(rows, from);
    } else {
      from := n;
      assert rows[n..] == [rows[n]];
    }
  }

  lemma RunBefore(rows: seq<Snap>, from: nat, j: nat)
    requires |rows| >= 2 && rows[|rows| - 2].post == rows[|rows| - 1].post && LastRun(rows[..|rows| - 1], from)
    ensures SamePostBefore(rows, j, |rows| - 1) <==> from <= j < |rows| - 1
  {
    LastRunMore(rows, from);
    if j < from {
      assert rows[from - 1].post != rows[|rows| - 1].post;
    }
  }

  lemma HighOfRun(rows: seq<Snap>, from: nat, high: real)
    requires |rows| >= 2 && rows[|rows| - 2].post == rows[|rows| - 1].post && LastRun(rows[..|rows| - 1], from)
    requires HighBefore(rows, |rows| - 1, high)
    ensures IsHighest(rows[..|rows| - 1][from..], high)
  {
    var n := |rows| - 1;
    var h := rows[..n][from..];
    assert forall k | 0 <= k < |h| :: h[k] == rows[from + k];
    forall j: nat ensures SamePostBefore(rows, j, n) <==> from <= j < n {
      RunBefore(rows, from, j);
    }
    hide SamePostBefore, LastRun;
    var j: nat :| SamePostBefore(rows, j, n) && rows[j].value == high;
    assert h[j - from].value == high;
  }

  lemma HighIsPeak(rows: seq<Snap>, high: real)
    requires |rows| >= 2 && rows[|rows| - 2].post == rows[|rows| - 1].post && HighBefore(rows, |rows| - 1, high)
    ensures Histories(rows[..|rows| - 1]) != []
    ensures Peak(Histories(rows[..|rows| - 1])[|Histories(rows[..|rows| - 1])| - 1]) == high
  {
    hide *;
    var n := |rows| - 1;
    var from := LastHistory(rows[..n]);
    NotEmpty(rows[..n], from);
    PeakIsHighest(rows[..n][from..]);
    HighOfRun(rows, from, high);
    HighestUnique(rows[..n][from..], high, Peak(rows[..n][from..]));
  }

  lemma NotEmpty(rows: seq<Snap>, from: nat)
    requires LastRun(rows, from)
    ensures from < |rows| && rows[from..] != [] && Histories(rows) != []
  {
  }

  lemma LaterRowMore(rows: seq<Snap>, start: nat, d: nat)
    requires |rows| >= 2 && rows[|rows| - 2].post == rows[|rows| - 1].post
    ensures var n := |rows| - 1;
            var hs := Histories(rows[..n]);
            hs != [] && var high := Peak(hs[|hs| - 1]);
            Credit(Histories(rows), start, d)
            == Credit(hs, start, d) + if d == rows[n].day && rows[n].value > high then rows[n].value - high else 0.0
  {
    var n := |rows| - 1;
    var hs := Histories(rows[..n]);
    assert rows[..n][n - 1] == rows[n - 1];
    var m := |hs| - 1;
    var h := hs[m] + [rows[n]];
    var more := hs[..m] + [h];
    assert Histories(rows) == more;
    assert h[..|h| - 1] == hs[m] && more[..m] == hs[..m];
    hide Histories;
    assert Credit(more, start, d) == Credit(hs[..m], start, d) + DayCredit(h, start, d);
    assert Credit(hs, start, d) == Credit(hs[..m], start, d) + DayCredit(hs[m], start, d);
    hide Credit;
  }

  lemma FirstRowMore(rows: seq<Snap>, start: nat, d: nat)
    requires rows != [] && (|rows| >= 2 ==> rows[|rows| - 2].post != rows[|rows| - 1].post)
    ensures var n := |rows| - 1;
            Credit(Histories(rows), start, d) == Credit(Histories(rows[..n]), start, d) + FirstShare(rows[n], start, d)
  {
    var n := |rows| - 1;
    var hs := Histories(rows[..n]);
    var more := hs + [[rows[n]]];
    assert Histories(rows) == more && more[..|hs|] == hs;
    hide Histories, FirstShare;
  }

  /** What one row more adds to a day. A post's first row adds its whole value to its
      own day when the publish day is unknown or later, nothing when it was published
      before the window, and else an equal part of it to each day since it was
      published. A later row adds to its own day what it has above the greatest value
      read for the post before, if anything. */
  lemma OneRowMore(rows: seq<Snap>, start: nat, d: nat, high: real)
    requires rows != []
    requires |rows| >= 2 && rows[|rows| - 2].post == rows[|rows| - 1].post ==> HighBefore(rows, |rows| - 1, high)
    ensures var n := |rows| - 1;
            var r := rows[n];
            Credit(Histories(rows), start, d) == Credit(Histories(rows[..n]), start, d) +
            if n > 0 && rows[n - 1].post == r.post then (if d == r.day && r.value > high then r.value - high else 0.0)
            else if r.published.None? || r.day < r.published.value then (if d == r.day then r.value else 0.0)
            else if start <= r.published.value && r.published.value <= d <= r.day
            then r.value / ((1 + r.day - r.published.value) as real)
            else 0.0
  {
    hide Histories, Credit, Peak, HighBefore;
    if |rows| >= 2 && rows[|rows| - 2].post == rows[|rows| - 1].post {
      HighIsPeak(rows, high);
      LaterRowMore(rows, start, d);
    } else {
      FirstRowMore(rows, start, d);
    }
  }

  // ----- conservation -----

  /** A history's credits summed over the days `lo <= d < hi`. */
  function HistorySum(h: seq<Snap>, start: nat, lo: nat, hi: nat): real
    requires h != [] && lo <= hi
    decreases hi
  {
    if lo == hi then 0.0 else HistorySum(h, start, lo, hi - 1) + DayCredit(h, start, hi - 1)
  }

  lemma {:induction false} HistorySumMore(h: seq<Snap>, r: Snap, start: nat, lo: nat, hi: nat)
    requires h != [] && lo <= hi
    ensures HistorySum(h + [r], start, lo, hi)
         == HistorySum(h, start, lo, hi) + (if lo <= r.day < hi then Peak(h + [r]) - Peak(h) else 0.0)
    decreases hi
  {
    if lo < hi {
      HistorySumMore(h, r, start, lo, hi - 1);
      assert (h + [r])[..|h|] == h;
    }
  }

  /** How many of the days `lo <= d < hi` lie in `a <= d <= b`. */
  function Overlap(lo: nat, hi: nat, a: nat, b: nat): nat
    requires lo <= hi
    decreases hi
  {
    if lo == hi then 0 else Overlap(lo, hi - 1, a, b) + (if a <= hi - 1 <= b then 1 else 0)
  }

  lemma {:induction false} OverlapCounts(lo: nat, hi: nat, a: nat, b: nat)
    requires lo <= hi && lo <= a <= b
    ensures Overlap(lo, hi, a, b) == if hi <= a then 0 else if hi <= b + 1 then hi - a else b + 1 - a
    decreases hi
  {
    if lo < hi { OverlapCounts(lo, hi - 1, a, b); }
  }

  lemma MoreTimes(x: real, n: nat)
    ensures x * ((n + 1) as real) == x * (n as real) + x
  {
  }

  lemma {:induction false} SpreadSum(r: Snap, start: nat, lo: nat, hi: nat)
    requires lo <= hi && r.published.Some? && start <= r.published.value <= r.day
    ensures HistorySum([r], start, lo, hi)
         == (r.value / ((r.day - r.published.value + 1) as real)) * (Overlap(lo, hi, r.published.value, r.day) as real)
    decreases hi
  {
    if lo < hi {
      SpreadSum(r, start, lo, hi - 1);
      MoreTimes(r.value / ((r.day - r.published.value + 1) as real), Overlap(lo, hi - 1, r.published.value, r.day));
    }
  }

  lemma {:induction false} PointSum(r: Snap, start: nat, lo: nat, hi: nat)
    requires lo <= hi && !(r.published.Some? && start <= r.published.value <= r.day)
    ensures HistorySum([r], start, lo, hi)
         == if (r.published.None? || r.published.value > r.day) && lo <= r.day < hi then r.value else 0.0
    decreases hi
  {
    if lo < hi { PointSum(r, start, lo, hi - 1); }
  }

  lemma DivideBack(v: real, n: nat)
    requires n > 0
    ensures (v / (n as real)) * (n as real) == v
  {
  }

  lemma FirstSum(r: Snap, start: nat, end: nat)
    requires start <= r.day <= end
    ensures HistorySum([r], start, start, end + 1) == Worth([r], start)
  {
    if r.published.Some? && start <= r.published.value <= r.day {
      SpreadSum(r, start, start, end + 1);
      OverlapCounts(start, end + 1, r.published.value, r.day);
      DivideBack(r.value, r.day - r.published.value + 1);
    } else {
      PointSum(r, start, start, end + 1);
    }
  }

  /** One history's credits over the window add up to its worth: the high-water
      mark, less the anchor for a post from before the window. A counter that
      resets and recovers is not paid twice. */
  lemma {:induction false} HistoryConserved(h: seq<Snap>, start: nat, end: nat)
    requires h != [] && start <= end && forall i | 0 <= i < |h| :: start <= h[i].day <= end
    ensures HistorySum(h, start, start, end + 1) == Worth(h, start)
  {
    var n := |h| - 1;
    if n == 0 {
      assert h == [h[0]];
      FirstSum(h[0], start, end);
    } else {
      HistoryConserved(h[..n], start, end);
      assert h == h[..n] + [h[n]];
      HistorySumMore(h[..n], h[n], start, start, end + 1);
    }
  }

  function CreditSum(hs: seq<seq<Snap>>, start: nat, lo: nat, hi: nat): real
    requires lo <= hi && forall i | 0 <= i < |hs| :: hs[i] != []
    decreases hi
  {
    if lo == hi then 0.0 else CreditSum(hs, start, lo, hi - 1) + Credit(hs, start, hi - 1)
  }

  lemma {:induction false} CreditSumSplit(hs: seq<seq<Snap>>, start: nat, lo: nat, hi: nat)
    requires lo <= hi && hs != [] && forall i | 0 <= i < |hs| :: hs[i] != []
    ensures CreditSum(hs, start, lo, hi)
         == CreditSum(hs[..|hs| - 1], start, lo, hi) + HistorySum(hs[|hs| - 1], start, lo, hi)
    decreases hi
  {
    if lo < hi { CreditSumSplit(hs, start, lo, hi - 1); }
  }

  lemma {:induction false} NoCredit(start: nat, lo: nat, hi: nat)
    requires lo <= hi
    ensures CreditSum([], start, lo, hi) == 0.0
    decreases hi
  {
    if lo < hi { NoCredit(start, lo, hi - 1); }
  }

  lemma {:induction false} AllConserved(hs: seq<seq<Snap>>, start: nat, end: nat)
    requires start <= end && forall i | 0 <= i < |hs| :: hs[i] != []
    requires AllWithin(hs, start, end)
    ensures CreditSum(hs, start, start, end + 1) == TotalWorth(hs, start)
  {
    if hs == [] {
      NoCredit(start, start, end + 1);
    } else {
      var m := |hs| - 1;
      AllConserved(hs[..m], start, end);
      CreditSumSplit(hs, start, start, end + 1);
      HistoryConserved(hs[m], start, end);
    }
  }

  ghost predicate AllWithin(hs: seq<seq<Snap>>, start: nat, end: nat) {
    forall i, j | 0 <= i < |hs| && 0 <= j < |hs[i]| :: start <= hs[i][j].day <= end
  }

  lemma {:induction false} HistoriesBounded(rows: seq<Snap>, start: nat, end: nat)
    requires forall i | 0 <= i < |rows| :: start <= rows[i].day <= end
    ensures AllWithin(Histories(rows), start, end)
  {
    if rows != [] {
      var n := |rows| - 1;
      HistoriesBounded(rows[..n], start, end);
      var hs := Histories(rows[..n]);
      if hs != [] && rows[n - 1].post == rows[n].post {
        var m := |hs| - 1;
        WithinReplace(hs, hs[m] + [rows[n]], start, end);
      }
    }
  }

  lemma WithinReplace(hs: seq<seq<Snap>>, h: seq<Snap>, start: nat, end: nat)
    requires hs != [] && AllWithin(hs, start, end) && forall j | 0 <= j < |h| :: start <= h[j].day <= end
    ensures AllWithin(hs[..|hs| - 1] + [h], start, end)
  {
  }

  lemma {:induction false} WindowIsCredit(out: map<nat, real>, hs: seq<seq<Snap>>, start: nat, lo: nat, hi: nat)
    requires lo <= hi && forall i | 0 <= i < |hs| :: hs[i] != []
    requires forall d :: Get(out, d) == Credit(hs, start, d)
    ensures WindowSum(out, lo, hi) == CreditSum(hs, start, lo, hi)
    decreases hi
  {
    if lo < hi { WindowIsCredit(out, hs, start, lo, hi - 1); }
  }

  /** The total credited over the window is the sum, over the posts, of what each is worth. */
  lemma Conservation(rows: seq<Snap>, start: nat, end: nat, out: map<nat, real>)
    requires start <= end && forall i | 0 <= i < |rows| :: start <= rows[i].day <= end
    requires forall d :: Get(out, d) == Credit(Histories(rows), start, d)
    ensures WindowSum(out, start, end + 1) == TotalWorth(Histories(rows), start)
  {
    HistoriesBounded(rows, start, end);
    AllConserved(Histories(rows), start, end);
    WindowIsCredit(out, Histories(rows), start, start, end + 1);
  }

  // ----- signs -----

  lemma ShareNonNegative(r: Snap, start: nat, d: nat)
    requires r.value >= 0.0
    ensures FirstShare(r, start, d) >= 0.0
  {
    if r.published.Some? && start <= r.published.value <= d <= r.day {
      var n := (r.day - r.published.value + 1) as real;
      DivideBack(r.value, r.day - r.published.value + 1);
      if r.value / n < 0.0 {
        NegativeTimes(r.value / n, n);
      }
    }
  }

  lemma NegativeTimes(x: real, n: real)
    requires x < 0.0 && n > 0.0
    ensures x * n < 0.0
  {
  }

  lemma {:induction false} DayCreditNonNegative(h: seq<Snap>, start: nat, d: nat)
    requires h != [] && forall i | 0 <= i < |h| :: h[i].value >= 0.0
    ensures DayCredit(h, start, d) >= 0.0
  {
    var n := |h| - 1;
    if n == 0 {
      ShareNonNegative(h[0], start, d);
    } else {
      DayCreditNonNegative(h[..n], start, d);
    }
  }

  /** Counters that are never negative yield credits that are never negative. */
  lemma {:induction false} CreditNonNegative(hs: seq<seq<Snap>>, start: nat, d: nat)
    requires forall i | 0 <= i < |hs| :: hs[i] != []
    requires forall i, j | 0 <= i < |hs| && 0 <= j < |hs[i]| :: hs[i][j].value >= 0.0
    ensures Credit(hs, start, d) >= 0.0
  {
    if hs != [] {
      CreditNonNegative(hs[..|hs| - 1], start, d);
      DayCreditNonNegative(hs[|hs| - 1], start, d);
    }
  }

  // ----- one history per post -----

  function Flatten(hs: seq<seq<Snap>>): seq<Snap> {
    if hs == [] then [] else Flatten(hs[..|hs| - 1]) + hs[|hs| - 1]
  }

  /** Each history is about one post, and later histories about later posts. */
  ghost predicate OnePostEach(hs: seq<seq<Snap>>)
    requires forall i | 0 <= i < |hs| :: hs[i] != []
  {
    (forall i, j | 0 <= i < |hs| && 0 <= j < |hs[i]| :: hs[i][j].post == hs[i][0].post)
    && (forall i, j | 0 <= i < j < |hs| :: hs[i][0].post < hs[j][0].post)
  }

  lemma OnePostMore(hs: seq<seq<Snap>>, r: Snap)
    requires hs != [] && (forall i | 0 <= i < |hs| :: hs[i] != []) && OnePostEach(hs)
    requires hs[|hs| - 1][0].post == r.post
    ensures OnePostEach(hs[..|hs| - 1] + [hs[|hs| - 1] + [r]])
  {
  }

  lemma OnePostNew(hs: seq<seq<Snap>>, r: Snap)
    requires (forall i | 0 <= i < |hs| :: hs[i] != []) && OnePostEach(hs)
    requires hs != [] ==> hs[|hs| - 1][0].post < r.post
    ensures OnePostEach(hs + [[r]])
  {
  }

  lemma FlattenLast(hs: seq<seq<Snap>>, h: seq<Snap>)
    ensures Flatten(hs + [h]) == Flatten(hs) + h
  {
    assert (hs + [h])[..|hs|] == hs;
  }

  lemma FlattenMore(hs: seq<seq<Snap>>, r: Snap)
    requires hs != []
    ensures Flatten(hs[..|hs| - 1] + [hs[|hs| - 1] + [r]]) == Flatten(hs) + [r]
  {
    hide *;
    FlattenLonger(hs[..|hs| - 1], hs[|hs| - 1], r);
    assert hs[..|hs| - 1] + [hs[|hs| - 1]] == hs;
  }

  lemma FlattenLonger(hs: seq<seq<Snap>>, h: seq<Snap>, r: Snap)
    ensures Flatten(hs + [h + [r]]) == Flatten(hs + [h]) + [r]
  {
    hide *;
    FlattenLast(hs, h + [r]);
    FlattenLast(hs, h);
    assert Flatten(hs) + (h + [r]) == (Flatten(hs) + h) + [r];
  }

  /** In rows ordered by post, the histories partition the rows and no two belong to one post. */
  lemma {:induction false} OneHistoryPerPost(rows: seq<Snap>)
    requires forall i, j | 0 <= i < j < |rows| :: rows[i].post <= rows[j].post
    ensures Flatten(Histories(rows)) == rows
    ensures OnePostEach(Histories(rows))
  {
    if rows != [] {
      var n := |rows| - 1;
      OneHistoryPerPost(rows[..n]);
      var hs := Histories(rows[..n]);
      assert rows == rows[..n] + [rows[n]];
      if hs != [] {
        assert rows[n - 1].post <= rows[n].post;
        FlattenMore(hs, rows[n]);
        FlattenLast(hs, [rows[n]]);
        if rows[n - 1].post == rows[n].post {
          OnePostMore(hs, rows[n]);
        } else {
          OnePostNew(hs, rows[n]);
        }
      }
    }
  }
}
