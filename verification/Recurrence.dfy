/** Recurring posts: the dates a rule asks for, and the clones made for them
    (apps/calendar/tasks.py). Dates are day ordinals; adding months to a date is a
    parameter, and so are the zone's two conversions. */
module Recurrence {
  import opened Common

  const LOOKAHEAD_DAYS: nat := 90
  const MAX_RECURRENCES: nat := 180

  datatype Frequency = Daily | Weekly | Monthly | Other

  /** `addMonths(d, n)` is the date `n` months after `d`. */
  datatype Calendar = Calendar(addMonths: (nat, nat) -> nat)

  /** One recurrence further. */
  function Advance(cal: Calendar, freq: Frequency, interval: nat, d: nat): nat {
    match freq
    case Daily => d + interval
    case Weekly => d + 7 * interval
    case Monthly => cal.addMonths(d, interval)
    case Other => d
  }

  /** The dates after `d` and up to `end`, at most `room` of them. */
  function Dates(cal: Calendar, freq: Frequency, interval: nat, d: nat, end: nat, room: nat): seq<nat>
    decreases room, interval
  {
    if room == 0 || freq == Other then []
    else
      var next := Advance(cal, freq, interval, d);
      if next > end then [] else [next] + Dates(cal, freq, interval, next, end, room - 1)
  }

  lemma DatesStep(cal: Calendar, freq: Frequency, interval: nat, d: nat, end: nat, room: nat)
    ensures room == 0 || freq == Other || Advance(cal, freq, interval, d) > end ==> Dates(cal, freq, interval, d, end, room) == []
    ensures room > 0 && freq != Other && Advance(cal, freq, interval, d) <= end ==>
              Dates(cal, freq, interval, d, end, room)
              == [Advance(cal, freq, interval, d)] + Dates(cal, freq, interval, Advance(cal, freq, interval, d), end, room - 1)
  {
  }

  method ComputeRecurrenceDates(cal: Calendar, base: nat, freq: Frequency, interval: nat, end: nat) returns (dates: seq<nat>)
    ensures dates == Dates(cal, freq, interval, base, end, MAX_RECURRENCES)
  {
    hide Dates;
    dates := [];
    var current: nat := base;
    ghost var whole := Dates(cal, freq, interval, base, end, MAX_RECURRENCES);
    for i := 0 to MAX_RECURRENCES
      invariant whole == dates + Dates(cal, freq, interval, current, end, MAX_RECURRENCES - i)
    {
      DatesStep(cal, freq, interval, current, end, MAX_RECURRENCES - i);
      match freq {
        case Daily => current := current + interval;
        case Weekly => current := current + 7 * interval;
        case Monthly => current := cal.addMonths(current, interval);
        case Other => break;
      }
      if current > end {
        break;
      }
      dates := dates + [current];
    }
    DatesStep(cal, freq, interval, current, end, 0);
    assert whole == dates;
  }

  /** Adding at least one month moves forward. */
  ghost predicate MonthsAdvance(cal: Calendar) {
    forall d: nat, n: nat | n >= 1 :: cal.addMonths(d, n) > d
  }

  /** Strictly increasing, after `d` and no later than `end`. */
  ghost predicate IncreasingWithin(dates: seq<nat>, d: nat, end: nat) {
    (forall i | 0 <= i < |dates| :: d < dates[i] <= end)
    && (forall i, j | 0 <= i < j < |dates| :: dates[i] < dates[j])
  }

  lemma {:induction false} DatesIncrease(cal: Calendar, freq: Frequency, interval: nat, d: nat, end: nat, room: nat)
    requires interval >= 1 && MonthsAdvance(cal)
    ensures IncreasingWithin(Dates(cal, freq, interval, d, end, room), d, end)
    decreases room
  {
    if room > 0 && freq != Other {
      var next := Advance(cal, freq, interval, d);
      assert next > d;
      if next <= end {
        DatesIncrease(cal, freq, interval, next, end, room - 1);
        FirstThenRest(next, Dates(cal, freq, interval, next, end, room - 1), d, end);
      }
    }
  }

  lemma FirstThenRest(next: nat, rest: seq<nat>, d: nat, end: nat)
    requires d < next <= end && IncreasingWithin(rest, next, end)
    ensures IncreasingWithin([next] + rest, d, end)
  {
  }

  /** The date after `a`, by the calendar. */
  predicate Follows(cal: Calendar, freq: Frequency, interval: nat, a: nat, b: nat) {
    match freq
    case Daily => b == a + interval
    case Weekly => b == a + interval * 7
    case Monthly => b == cal.addMonths(a, interval)
    case Other => false
  }

  function DateBefore(base: nat, dates: seq<nat>, k: nat): nat
    requires k <= |dates|
  {
    if k == 0 then base else dates[k - 1]
  }

  /** Each date follows the one before, the first one the base; none is past the end;
      and no further one could be added. */
  ghost predicate Series(cal: Calendar, freq: Frequency, interval: nat, base: nat, end: nat, room: nat, dates: seq<nat>) {
    |dates| <= room
    && (forall k | 0 <= k < |dates| :: dates[k] <= end && Follows(cal, freq, interval, DateBefore(base, dates, k), dates[k]))
    && (|dates| < room ==> forall b: nat | Follows(cal, freq, interval, DateBefore(base, dates, |dates|), b) :: b > end)
  }

  lemma DateBeforeMore(d: nat, next: nat, rest: seq<nat>, k: nat)
    requires k <= |rest|
    ensures DateBefore(d, [next] + rest, k + 1) == DateBefore(next, rest, k)
  {
  }

  lemma DateBeforeFirst(d: nat, dates: seq<nat>)
    ensures DateBefore(d, dates, 0) == d
  {
  }

  lemma SeriesMore(cal: Calendar, freq: Frequency, interval: nat, d: nat, end: nat, room: nat, next: nat, rest: seq<nat>)
    requires Series(cal, freq, interval, next, end, room, rest) && Follows(cal, freq, interval, d, next) && next <= end
    ensures Series(cal, freq, interval, d, end, room + 1, [next] + rest)
  {
    hide Follows, DateBefore;
    var dates := [next] + rest;
    forall k: nat | k <= |rest| ensures DateBefore(d, dates, k + 1) == DateBefore(next, rest, k) {
      DateBeforeMore(d, next, rest, k);
    }
    DateBeforeFirst(d, dates);
    assert DateBefore(d, dates, |dates|) == DateBefore(next, rest, |rest|);
    forall k | 0 <= k < |dates|
      ensures dates[k] <= end && Follows(cal, freq, interval, DateBefore(d, dates, k), dates[k])
    {
      if k > 0 {
        assert dates[k] == rest[k - 1];
        assert DateBefore(d, dates, k) == DateBefore(next, rest, k - 1);
      }
    }
  }

  lemma {:induction false} DatesAreSeries(cal: Calendar, freq: Frequency, interval: nat, d: nat, end: nat, room: nat)
    ensures Series(cal, freq, interval, d, end, room, Dates(cal, freq, interval, d, end, room))
    decreases room
  {
    DatesStep(cal, freq, interval, d, end, room);
    hide Dates;
    if room > 0 && freq != Other && Advance(cal, freq, interval, d) <= end {
      var next := Advance(cal, freq, interval, d);
      DatesAreSeries(cal, freq, interval, next, end, room - 1);
      SeriesMore(cal, freq, interval, d, end, room - 1, next, Dates(cal, freq, interval, next, end, room - 1));
    }
  }

  /** The day step of the fixed-length frequencies. */
  function StepDays(freq: Frequency, interval: nat): nat {
    if freq == Weekly then 7 * interval else interval
  }

  /** A daily or weekly rule asks for exactly the multiples of its step up to the
      end, or the first 180 of them; past those it asks for nothing more. */
  lemma {:induction false} DatesAreMultiples(cal: Calendar, freq: Frequency, interval: nat, d: nat, end: nat, room: nat)
    requires freq == Daily || freq == Weekly
    ensures var dates := Dates(cal, freq, interval, d, end, room);
            var step := StepDays(freq, interval);
            |dates| <= room
            && (forall k | 0 <= k < |dates| :: dates[k] == d + (k + 1) * step)
            && (|dates| < room ==> d + (|dates| + 1) * step > end)
    decreases room
  {
    if room > 0 {
      var step := StepDays(freq, interval);
      var next := d + step;
      if next <= end {
        DatesAreMultiples(cal, freq, interval, next, end, room - 1);
        var dates := Dates(cal, freq, interval, d, end, room);
        var rest := Dates(cal, freq, interval, next, end, room - 1);
        forall k | 0 <= k < |dates| ensures dates[k] == d + (k + 1) * step {
          if k > 0 { assert dates[k] == rest[k - 1]; OneMoreStep(k, step); }
        }
        OneMoreStep(|rest| + 1, step);
      }
    }
  }

  lemma OneMoreStep(k: nat, step: nat)
    ensures (k + 1) * step == step + k * step
  {
  }

  // ----- cloning -----

  /** A zone: the instant of a wall-clock date and time, and the date and time of an instant. */
  datatype Zone = Zone(instant: (nat, int) -> int, date: int -> nat, time: int -> int) {
    function At(d: nat, t: int): int { instant(d, t) }

    function LocalDate(i: int): nat { date(i) }

    function LocalTime(i: int): int { time(i) }
  }

  /** What a clone copies from its source as it is. */
  datatype Content = Content(author: nat, caption: string, firstComment: string, notes: string, tags: seq<string>,
                             category: Option<nat>)

  datatype Overrides = Overrides(caption: string, firstComment: string, media: string, extra: string)

  /** A post's child on one channel. */
  datatype Child = Child(account: nat, overrides: Overrides, at: Option<int>, scheduled: bool)

  datatype Media = Media(asset: nat, position: nat, altText: string, overrides: string)

  /** A post; `origin` remembers, for the statements below only, the rule it was cloned for. */
  datatype Post = Post(workspace: nat, content: Content, at: Option<int>, children: seq<Child>, media: seq<Media>,
                       origin: Option<nat>)

  /** A rule with its source post as it is, and the zone of the source's workspace. */
  datatype Rule = Rule(id: nat, source: nat, post: Post, zone: Zone, freq: Frequency, interval: nat, endDate: Option<nat>) {
    const at: Option<int> := post.at
  }

  function Times(children: seq<Child>): seq<Option<int>> {
    seq(|children|, i requires 0 <= i < |children| => children[i].at)
  }

  /** The children scheduled anew, each as far from `scheduled` as it was from the source's time. */
  function Shifted(children: seq<Child>, sourceAt: int, scheduled: int): seq<Child> {
    seq(|children|, i requires 0 <= i < |children| =>
      Child(children[i].account, children[i].overrides,
            if children[i].at.Some? then Some(scheduled + (children[i].at.value - sourceAt)) else None, true))
  }

  function EarliestTime(times: seq<Option<int>>): Option<int> {
    if times == [] then None
    else
      var before := EarliestTime(times[..|times| - 1]);
      var t := times[|times| - 1];
      if t.None? || (before.Some? && before.value <= t.value) then before else t
  }

  /** The children of the clone for date `d`. */
  function CloneChildren(rule: Rule, d: nat): seq<Child>
    requires rule.at.Some?
  {
    Shifted(rule.post.children, rule.at.value, rule.zone.At(d, rule.zone.LocalTime(rule.at.value)))
  }

  /** When the clone for date `d` ends up scheduled: its aggregate after the sync,
      or the plain time when there are no children to sync with. */
  function CloneAt(rule: Rule, d: nat): Option<int>
    requires rule.at.Some?
  {
    if rule.post.children == [] then Some(rule.zone.At(d, rule.zone.LocalTime(rule.at.value)))
    else EarliestTime(Times(CloneChildren(rule, d)))
  }

  function Horizon(rule: Rule, today: nat): nat {
    var cutoff := today + LOOKAHEAD_DAYS;
    if rule.endDate.Some? && rule.endDate.value <= cutoff then rule.endDate.value else cutoff
  }

  function RuleDates(cal: Calendar, rule: Rule, today: nat): seq<nat>
    requires rule.at.Some?
  {
    Dates(cal, rule.freq, rule.interval, rule.zone.LocalDate(rule.at.value), Horizon(rule, today), MAX_RECURRENCES)
  }

  /** The local dates, among `dates`, on which a post of the same caption already sits. */
  function Existing(posts: map<nat, Post>, rule: Rule, dates: seq<nat>): set<nat> {
    set p | p in posts && p != rule.source && posts[p].workspace == rule.post.workspace
            && posts[p].content.caption == rule.post.content.caption
            && posts[p].at.Some? && rule.zone.LocalDate(posts[p].at.value) in dates
      :: rule.zone.LocalDate(posts[p].at.value)
  }

  /** The dates a clone is made for. */
  function Wanted(dates: seq<nat>, existing: set<nat>, today: nat): seq<nat> {
    if dates == [] then []
    else
      var n := |dates| - 1;
      var before := Wanted(dates[..n], existing, today);
      if dates[n] in existing || dates[n] <= today then before else before + [dates[n]]
  }

  function Clone(rule: Rule, d: nat): Post
    requires rule.at.Some?
  {
    Post(rule.post.workspace, rule.post.content, CloneAt(rule, d), CloneChildren(rule, d), rule.post.media, Some(rule.id))
  }

  /** The posts with a clone per wanted date, numbered from `id` on. */
  function WithClones(posts: map<nat, Post>, rule: Rule, wanted: seq<nat>, id: nat): map<nat, Post>
    requires rule.at.Some?
  {
    if wanted == [] then posts
    else
      var n := |wanted| - 1;
      WithClones(posts, rule, wanted[..n], id)[id + n := Clone(rule, wanted[n])]
  }

  /** The dates one daily pass over one rule makes clones for. */
  function RuleWants(posts: map<nat, Post>, cal: Calendar, rule: Rule, today: nat): seq<nat>
    requires rule.at.Some?
  {
    var dates := RuleDates(cal, rule, today);
    Wanted(dates, Existing(posts, rule, dates), today)
  }

  /** The posts, the next number and the count once clones were made for `dates`. */
  ghost predicate Cloned(before: map<nat, Post>, rule: Rule, dates: seq<nat>, existing: set<nat>, today: nat, id: nat,
                         posts: map<nat, Post>, nextId: nat, count: nat)
    requires rule.at.Some?
  {
    var wanted := Wanted(dates, existing, today);
    count == |wanted| && nextId == id + |wanted| && posts == WithClones(before, rule, wanted, id)
  }

  lemma ClonedNone(before: map<nat, Post>, rule: Rule, dates: seq<nat>, existing: set<nat>, today: nat, id: nat)
    requires rule.at.Some?
    ensures Cloned(before, rule, dates[..0], existing, today, id, before, id, 0)
  {
  }

  lemma ClonedAll(before: map<nat, Post>, rule: Rule, dates: seq<nat>, existing: set<nat>, today: nat, id: nat,
                  posts: map<nat, Post>, nextId: nat, count: nat)
    requires rule.at.Some? && Cloned(before, rule, dates[..|dates|], existing, today, id, posts, nextId, count)
    ensures var wanted := Wanted(dates, existing, today);
            count == |wanted| && nextId == id + |wanted| && posts == WithClones(before, rule, wanted, id)
  {
    assert dates[..|dates|] == dates;
    hide Wanted, WithClones;
  }

  /** One more date: nothing, or one more clone under the next number. */
  lemma ClonedMore(before: map<nat, Post>, rule: Rule, dates: seq<nat>, existing: set<nat>, today: nat, id: nat,
                   posts: map<nat, Post>, nextId: nat, count: nat, i: nat)
    requires rule.at.Some? && i < |dates| && Cloned(before, rule, dates[..i], existing, today, id, posts, nextId, count)
    ensures dates[i] in existing || dates[i] <= today ==>
              Cloned(before, rule, dates[..i + 1], existing, today, id, posts, nextId, count)
    ensures dates[i] !in existing && dates[i] > today ==>
              Cloned(before, rule, dates[..i + 1], existing, today, id,
                     posts[nextId := Clone(rule, dates[i])], nextId + 1, count + 1)
  {
    assert dates[..i + 1][..i] == dates[..i];
    CloneStep(before, rule, Wanted(dates[..i], existing, today), dates[i], id);
    hide WithClones, Clone;
  }

  lemma CloneStep(posts: map<nat, Post>, rule: Rule, before: seq<nat>, d: nat, id: nat)
    requires rule.at.Some?
    ensures WithClones(posts, rule, before + [d], id) == WithClones(posts, rule, before, id)[id + |before| := Clone(rule, d)]
  {
    hide Clone;
    assert (before + [d])[..|before|] == before;
  }

  /** What can happen to the posts between and in daily passes: a pass over a rule as
      it then is, a post made by hand appearing, any post disappearing or being edited. */
  datatype Act = Pass(rule: Rule, today: nat) | Appear(post: Post) | Disappear(id: nat) | Edit(id: nat, post: Post)

  datatype State = State(posts: map<nat, Post>, nextId: nat)

  function Next(s: State, cal: Calendar, a: Act): State {
    match a
    case Pass(rule, today) =>
      if rule.at.None? then s
      else
        var wanted := RuleWants(s.posts, cal, rule, today);
        State(WithClones(s.posts, rule, wanted, s.nextId), s.nextId + |wanted|)
    case Appear(post) => State(s.posts[s.nextId := post.(origin := None)], s.nextId + 1)
    case Disappear(id) => State(s.posts - {id}, s.nextId)
    case Edit(id, post) =>
      if id in s.posts then State(s.posts[id := post.(origin := s.posts[id].origin)], s.nextId) else s
  }

  function Run(s: State, cal: Calendar, acts: seq<Act>): State
    decreases |acts|
  {
    if acts == [] then s else Run(Next(s, cal, acts[0]), cal, acts[1..])
  }

  /** The passes of one day, one per active rule. */
  function Passes(rules: seq<Rule>, now: int): seq<Act> {
    seq(|rules|, i requires 0 <= i < |rules| => Pass(rules[i], rules[i].zone.LocalDate(now)))
  }

  /** When each rule last ran; a rule whose source has no time is passed over. */
  function Stamped(lastRun: map<nat, int>, rules: seq<Rule>, now: int): map<nat, int> {
    if rules == [] then lastRun
    else
      var n := |rules| - 1;
      var before := Stamped(lastRun, rules[..n], now);
      if rules[n].at.None? then before else before[rules[n].id := now]
  }

  /** The rules with a timed source are stamped with the moment, and no other stamp changes. */
  lemma {:induction false} StampedRules(lastRun: map<nat, int>, rules: seq<Rule>, now: int, id: nat)
    ensures var t := Stamped(lastRun, rules, now);
            if exists i :: 0 <= i < |rules| && rules[i].id == id && rules[i].post.at.Some? then id in t && t[id] == now
            else (id in t <==> id in lastRun) && (id in t ==> t[id] == lastRun[id])
  {
    if rules != [] {
      var n := |rules| - 1;
      StampedRules(lastRun, rules[..n], now, id);
      if i :| 0 <= i < n && rules[i].id == id && rules[i].post.at.Some? {
        assert rules[..n][i] == rules[i];
      }
    }
  }

  class Library {
    var posts: map<nat, Post>
    var nextId: nat
    var lastRun: map<nat, int>

    /** One rule's share of the daily pass: nothing for an unscheduled source, else
        a clone for every wanted date. */
    method GenerateForRule(cal: Calendar, rule: Rule, now: int) returns (count: nat)
      modifies this
      ensures rule.at.None? ==> count == 0 && posts == old(posts) && nextId == old(nextId)
      ensures lastRun == if rule.at.None? then old(lastRun) else old(lastRun)[rule.id := now]
      ensures rule.at.Some? ==>
                var wanted := RuleWants(old(posts), cal, rule, rule.zone.LocalDate(now));
                count == |wanted| && nextId == old(nextId) + |wanted|
                && posts == WithClones(old(posts), rule, wanted, old(nextId))
      ensures State(posts, nextId) == Next(State(old(posts), old(nextId)), cal, Pass(rule, rule.zone.LocalDate(now)))
    {
      if rule.at.None? {
        return 0;
      }
      var today := rule.zone.LocalDate(now);
      var base := rule.zone.LocalDate(rule.at.value);
      var dates := ComputeRecurrenceDates(cal, base, rule.freq, rule.interval, Horizon(rule, today));
      assert dates == RuleDates(cal, rule, today);
      hide RuleDates, Horizon, Existing, Wanted, WithClones, Clone, Dates;
      count := CloneWanted(rule, dates, Existing(posts, rule, dates), today);
      lastRun := lastRun[rule.id := now];
    }

    /** The daily job: one pass over each active rule, counting the clones. */
    method GenerateRecurringPosts(cal: Calendar, rules: seq<Rule>, now: int) returns (total: nat)
      modifies this
      ensures State(posts, nextId) == Run(State(old(posts), old(nextId)), cal, Passes(rules, now))
      ensures nextId == old(nextId) + total
      ensures lastRun == Stamped(old(lastRun), rules, now)
    {
      hide WithClones, RuleWants, Next;
      total := 0;
      ghost var passes := Passes(rules, now);
      assert passes[0..] == passes;
      for i := 0 to |rules|
        invariant nextId == old(nextId) + total
        invariant lastRun == Stamped(old(lastRun), rules[..i], now)
        invariant Run(State(posts, nextId), cal, passes[i..]) == Run(State(old(posts), old(nextId)), cal, passes)
      {
        assert passes[i..][0] == Pass(rules[i], rules[i].zone.LocalDate(now)) && passes[i..][1..] == passes[i + 1..];
        assert rules[..i + 1][..i] == rules[..i];
        var count := GenerateForRule(cal, rules[i], now);
        total := total + count;
      }
      assert rules[..|rules|] == rules;
    }

    /** The clones for those of `dates` that are ahead and not taken. */
    method CloneWanted(rule: Rule, dates: seq<nat>, existing: set<nat>, today: nat) returns (count: nat)
      requires rule.at.Some?
      modifies this`posts, this`nextId
      ensures var wanted := Wanted(dates, existing, today);
              count == |wanted| && nextId == old(nextId) + |wanted|
              && posts == WithClones(old(posts), rule, wanted, old(nextId))
    {
      hide *;
      ghost var before, id := posts, nextId;
      count := 0;
      ClonedNone(before, rule, dates, existing, today, id);
      for i := 0 to |dates|
        invariant Cloned(before, rule, dates[..i], existing, today, id, posts, nextId, count)
      {
        ClonedMore(before, rule, dates, existing, today, id, posts, nextId, count, i);
        if dates[i] !in existing && dates[i] > today {
          posts := posts[nextId := Clone(rule, dates[i])];
          nextId := nextId + 1;
          count := count + 1;
        }
      }
      ClonedAll(before, rule, dates, existing, today, id, posts, nextId, count);
    }
  }

  // ----- never twice on one date -----

  /** The instant of a date at some time of day falls on that date. */
  ghost predicate ZoneAgrees(zone: Zone) {
    forall d: nat, i: int :: zone.LocalDate(zone.At(d, zone.LocalTime(i))) == d
  }

  /** The source's cached time is the earliest of its children's, if it has children. */
  ghost predicate SourceSynced(rule: Rule) {
    rule.at.Some? && (rule.post.children != [] ==>
      (exists i :: 0 <= i < |rule.post.children| && rule.post.children[i].at == rule.at)
      && forall i | 0 <= i < |rule.post.children| && rule.post.children[i].at.Some? ::
           rule.post.children[i].at.value >= rule.at.value)
  }

  lemma {:induction false} EarliestIs(times: seq<Option<int>>, least: int)
    requires forall i | 0 <= i < |times| && times[i].Some? :: times[i].value >= least
    ensures EarliestTime(times).Some? ==> EarliestTime(times).value >= least
    ensures (exists i :: 0 <= i < |times| && times[i] == Some(least)) ==> EarliestTime(times) == Some(least)
  {
    if times != [] {
      var n := |times| - 1;
      assert forall i | 0 <= i < n :: times[..n][i] == times[i];
      EarliestIs(times[..n], least);
      if i :| 0 <= i < |times| && times[i] == Some(least) && i < n {
        assert times[..n][i] == Some(least);
      }
    }
  }

  /** A clone of a synced source lands on the date it was made for. */
  lemma CloneOnItsDate(rule: Rule, d: nat)
    requires ZoneAgrees(rule.zone) && SourceSynced(rule)
    ensures CloneAt(rule, d) == Some(rule.zone.At(d, rule.zone.LocalTime(rule.at.value)))
    ensures rule.zone.LocalDate(CloneAt(rule, d).value) == d
  {
    var scheduled := rule.zone.At(d, rule.zone.LocalTime(rule.at.value));
    if rule.post.children != [] {
      var times := Times(CloneChildren(rule, d));
      var i :| 0 <= i < |rule.post.children| && rule.post.children[i].at == rule.at;
      assert times[i] == Some(scheduled);
      EarliestIs(times, scheduled);
    }
    assert CloneAt(rule, d) == Some(scheduled);
    assert rule.zone.LocalDate(scheduled) == d;
  }

  /** What a pass takes for an earlier clone: a timed post of the source's workspace and caption. */
  predicate Recognises(rule: Rule, p: Post) {
    p.workspace == rule.post.workspace && p.content.caption == rule.post.content.caption && p.at.Some?
  }

  /** The date holds such a post, other than the source. */
  ghost predicate Taken(posts: map<nat, Post>, rule: Rule, d: nat) {
    exists p :: p in posts && p != rule.source && Recognises(rule, posts[p]) && rule.zone.LocalDate(posts[p].at.value) == d
  }

  /** A post made for the rule, whatever the rule and its source were at the time, sits on the date. */
  predicate CloneOn(posts: map<nat, Post>, rule: Rule, p: nat, d: nat) {
    p in posts && posts[p].origin == Some(rule.id) && posts[p].at.Some? && rule.zone.LocalDate(posts[p].at.value) == d
  }

  /** No two posts made for the rule sit on one local date. */
  ghost predicate OncePerDate(posts: map<nat, Post>, rule: Rule) {
    forall p, q, d | CloneOn(posts, rule, p, d) && CloneOn(posts, rule, q, d) :: p == q
  }

  lemma {:induction false} WantedFacts(dates: seq<nat>, existing: set<nat>, today: nat)
    ensures forall d | d in Wanted(dates, existing, today) :: d in dates && d !in existing && d > today
    ensures forall d | d in dates && d !in existing && d > today :: d in Wanted(dates, existing, today)
    ensures NoRepeats(dates) ==> NoRepeats(Wanted(dates, existing, today))
  {
    if dates != [] {
      var n := |dates| - 1;
      assert dates == dates[..n] + [dates[n]];
      WantedFacts(dates[..n], existing, today);
      if NoRepeats(dates) {
        assert dates[n] !in dates[..n];
      }
    }
  }

  /** `r` is `posts` with the clones for `wanted` numbered from `id` on, and nothing else. */
  ghost predicate HasClones(r: map<nat, Post>, posts: map<nat, Post>, rule: Rule, wanted: seq<nat>, id: nat)
    requires rule.at.Some?
  {
    (forall p | p in r :: p in posts || id <= p < id + |wanted|)
    && (forall p | p in posts :: p in r && r[p] == posts[p])
    && (forall p: nat | id <= p < id + |wanted| :: p in r && r[p] == Clone(rule, wanted[p - id]))
  }

  lemma {:induction false} WithClonesAt(posts: map<nat, Post>, rule: Rule, wanted: seq<nat>, id: nat)
    requires rule.at.Some? && forall p | p in posts :: p < id
    ensures HasClones(WithClones(posts, rule, wanted, id), posts, rule, wanted, id)
  {
    if wanted != [] {
      var n := |wanted| - 1;
      WithClonesAt(posts, rule, wanted[..n], id);
      OneMoreClone(WithClones(posts, rule, wanted[..n], id), posts, rule, wanted, id);
    }
  }

  lemma OneMoreClone(r: map<nat, Post>, posts: map<nat, Post>, rule: Rule, wanted: seq<nat>, id: nat)
    requires rule.at.Some? && wanted != [] && forall p | p in posts :: p < id
    requires HasClones(r, posts, rule, wanted[..|wanted| - 1], id)
    ensures HasClones(r[id + |wanted| - 1 := Clone(rule, wanted[|wanted| - 1])], posts, rule, wanted, id)
  {
    hide Clone;
  }

  lemma ExistingIff(posts: map<nat, Post>, rule: Rule, dates: seq<nat>, d: nat)
    requires d in dates
    ensures d in Existing(posts, rule, dates) <==> Taken(posts, rule, d)
  {
    if Taken(posts, rule, d) {
      var p :| p in posts && p != rule.source && Recognises(rule, posts[p]) && rule.zone.LocalDate(posts[p].at.value) == d;
      assert rule.zone.LocalDate(posts[p].at.value) in Existing(posts, rule, dates);
    }
  }

  /** Where the rule's clones sit after a pass: where they sat, and one on each wanted date. */
  lemma CloneOnAfter(posts: map<nat, Post>, rule: Rule, wanted: seq<nat>, id: nat, p: nat, d: nat)
    requires ZoneAgrees(rule.zone) && SourceSynced(rule) && forall p | p in posts :: p < id
    ensures CloneOn(WithClones(posts, rule, wanted, id), rule, p, d) <==>
            CloneOn(posts, rule, p, d) || (id <= p < id + |wanted| && wanted[p - id] == d)
  {
    WithClonesAt(posts, rule, wanted, id);
    hide WithClones;
    if id <= p < id + |wanted| {
      CloneOnItsDate(rule, wanted[p - id]);
      hide ZoneAgrees, SourceSynced, CloneAt;
    }
  }

  /** The date would get a second post of the rule. */
  ghost predicate HeldByClone(posts: map<nat, Post>, rule: Rule, d: nat) {
    exists p :: CloneOn(posts, rule, p, d)
  }

  /** Clones made for some dates keep one per date exactly when the dates are distinct
      and none of them holds a clone already. */
  lemma ClonesOnceIff(posts: map<nat, Post>, rule: Rule, wanted: seq<nat>, id: nat)
    requires ZoneAgrees(rule.zone) && SourceSynced(rule) && OncePerDate(posts, rule) && forall p | p in posts :: p < id
    ensures OncePerDate(WithClones(posts, rule, wanted, id), rule) <==>
            NoRepeats(wanted) && !exists d :: d in wanted && HeldByClone(posts, rule, d)
  {
    var r := WithClones(posts, rule, wanted, id);
    forall p: nat, d: nat
      ensures CloneOn(r, rule, p, d) <==> CloneOn(posts, rule, p, d) || (id <= p < id + |wanted| && wanted[p - id] == d)
    {
      CloneOnAfter(posts, rule, wanted, id, p, d);
    }
    assert forall p: nat, d: nat | CloneOn(posts, rule, p, d) :: p < id;
    hide WithClones, CloneOn, ZoneAgrees, SourceSynced;
    if i, j :| 0 <= i < j < |wanted| && wanted[i] == wanted[j] {
      assert CloneOn(r, rule, id + i, wanted[i]) && CloneOn(r, rule, id + j, wanted[i]);
    } else if d :| d in wanted && HeldByClone(posts, rule, d) {
      var p :| CloneOn(posts, rule, p, d);
      var i :| 0 <= i < |wanted| && wanted[i] == d;
      assert CloneOn(r, rule, p, d) && CloneOn(r, rule, id + i, d);
    } else {
      forall p: nat, q: nat, d: nat | CloneOn(r, rule, p, d) && CloneOn(r, rule, q, d) ensures p == q {
        assert d in wanted ==> !CloneOn(posts, rule, p, d) && !CloneOn(posts, rule, q, d);
      }
    }
  }

  /** The pass asks for a date ahead that holds a clone of the rule and none that it recognises. */
  ghost predicate Overlooked(posts: map<nat, Post>, cal: Calendar, rule: Rule, today: nat, d: nat)
    requires rule.at.Some?
  {
    d in RuleDates(cal, rule, today) && d > today && HeldByClone(posts, rule, d) && !Taken(posts, rule, d)
  }

  /** A pass over any version of a rule keeps one clone per date exactly when it
      overlooks none on a date that it asks for and that lies ahead: clones are
      recognised by the caption the source has now. */
  lemma PassKeepsOnceIff(posts: map<nat, Post>, cal: Calendar, rule: Rule, today: nat, id: nat)
    requires ZoneAgrees(rule.zone) && SourceSynced(rule) && OncePerDate(posts, rule) && forall p | p in posts :: p < id
    requires rule.interval >= 1 && MonthsAdvance(cal)
    ensures OncePerDate(WithClones(posts, rule, RuleWants(posts, cal, rule, today), id), rule)
            <==> !exists d :: Overlooked(posts, cal, rule, today, d)
  {
    var dates := RuleDates(cal, rule, today);
    var wanted := RuleWants(posts, cal, rule, today);
    DatesIncrease(cal, rule.freq, rule.interval, rule.zone.LocalDate(rule.at.value), Horizon(rule, today), MAX_RECURRENCES);
    WantedFacts(dates, Existing(posts, rule, dates), today);
    forall d | d in dates ensures d in Existing(posts, rule, dates) <==> Taken(posts, rule, d) {
      ExistingIff(posts, rule, dates, d);
    }
    ClonesOnceIff(posts, rule, wanted, id);
    hide OncePerDate, Existing, Taken, Wanted, Dates, HeldByClone, ZoneAgrees, SourceSynced, WithClones;
    assert forall d :: d in wanted && HeldByClone(posts, rule, d) <==> Overlooked(posts, cal, rule, today, d);
  }

  /** A second pass on the same day makes no clone. */
  lemma SecondPassIdle(posts: map<nat, Post>, cal: Calendar, rule: Rule, today: nat, id: nat)
    requires ZoneAgrees(rule.zone) && SourceSynced(rule)
    requires rule.source < id && forall p | p in posts :: p < id
    ensures var r := WithClones(posts, rule, RuleWants(posts, cal, rule, today), id);
            RuleWants(r, cal, rule, today) == []
  {
    var dates := RuleDates(cal, rule, today);
    var existing := Existing(posts, rule, dates);
    var wanted := Wanted(dates, existing, today);
    var r := WithClones(posts, rule, wanted, id);
    WithClonesAt(posts, rule, wanted, id);
    WantedFacts(dates, existing, today);
    var existing' := Existing(r, rule, dates);
    forall d | d in dates && d > today ensures d in existing' {
      if d in wanted {
        var i :| 0 <= i < |wanted| && wanted[i] == d;
        CloneOnItsDate(rule, d);
        assert r[id + i] == Clone(rule, d) && Recognises(rule, r[id + i]);
        ExistingIff(r, rule, dates, d);
      } else {
        assert existing <= existing' by { ExistingGrows(posts, r, rule, dates); }
      }
    }
    hide Wanted;
    WantedNone(dates, existing', today);
  }

  lemma ExistingGrows(posts: map<nat, Post>, r: map<nat, Post>, rule: Rule, dates: seq<nat>)
    requires forall p | p in posts :: p in r && r[p] == posts[p]
    ensures Existing(posts, rule, dates) <= Existing(r, rule, dates)
  {
  }

  lemma {:induction false} WantedNone(dates: seq<nat>, existing: set<nat>, today: nat)
    requires forall d | d in dates && d > today :: d in existing
    ensures Wanted(dates, existing, today) == []
  {
    if dates != [] {
      var n := |dates| - 1;
      assert dates[n] in dates;
      WantedNone(dates[..n], existing, today);
    }
  }

  // ----- what a clone is -----

  /** The least of the children's times, or none when no child has one. */
  ghost predicate LeastOf(children: seq<Child>, at: Option<int>) {
    (at.None? <==> forall i | 0 <= i < |children| :: children[i].at.None?)
    && (at.Some? ==> exists i :: 0 <= i < |children| && children[i].at == at)
    && (at.Some? ==> forall i | 0 <= i < |children| && children[i].at.Some? :: at.value <= children[i].at.value)
  }

  lemma {:induction false} EarliestIsLeast(children: seq<Child>)
    ensures LeastOf(children, EarliestTime(Times(children)))
  {
    if children != [] {
      var n := |children| - 1;
      EarliestIsLeast(children[..n]);
      assert Times(children)[..n] == Times(children[..n]);
    }
  }

  /** The post is the source's copy for the date: its whole content and media, each
      child in its place, on its account and with its overrides, scheduled, as far from
      the source's local time on that date as the source's child is from the source's
      time, or untimed as that is; and the post's own time is the least of them. */
  ghost predicate CopyFor(rule: Rule, d: nat, p: Post)
    requires rule.post.at.Some?
  {
    var source := rule.post;
    var slot := rule.zone.At(d, rule.zone.LocalTime(source.at.value));
    p.workspace == source.workspace && p.content == source.content && p.media == source.media && p.origin == Some(rule.id)
    && |p.children| == |source.children|
    && (forall i | 0 <= i < |p.children| ::
          p.children[i].account == source.children[i].account && p.children[i].overrides == source.children[i].overrides
          && p.children[i].scheduled && (p.children[i].at.Some? <==> source.children[i].at.Some?)
          && (p.children[i].at.Some? ==> p.children[i].at.value - slot == source.children[i].at.value - source.at.value))
    && if source.children == [] then p.at == Some(slot) else LeastOf(p.children, p.at)
  }

  lemma CloneIsCopy(rule: Rule, d: nat)
    requires rule.post.at.Some?
    ensures CopyFor(rule, d, Clone(rule, d))
  {
    EarliestIsLeast(CloneChildren(rule, d));
    hide EarliestTime, Times;
  }

  /** The last day the rule looks at: ninety days on, or its end if that is before. */
  predicate LastDay(rule: Rule, today: nat, end: nat) {
    end <= today + 90 && (rule.endDate.Some? ==> end <= rule.endDate.value) && (end == today + 90 || Some(end) == rule.endDate)
  }

  /** The rule asks for the date. */
  ghost predicate Asked(cal: Calendar, rule: Rule, today: nat, d: nat)
    requires rule.post.at.Some?
  {
    exists dates: seq<nat>, end: nat :: d in dates && LastDay(rule, today, end)
      && Series(cal, rule.freq, rule.interval, rule.zone.LocalDate(rule.post.at.value), end, 180, dates)
  }

  /** The date is one the rule asks for, it lies ahead, and no other post of the
      workspace with the source's caption sits on it. */
  ghost predicate Missing(posts: map<nat, Post>, cal: Calendar, rule: Rule, today: nat, d: nat)
    requires rule.post.at.Some?
  {
    Asked(cal, rule, today, d) && d > today
    && !exists p :: p in posts && p != rule.source && posts[p].workspace == rule.post.workspace
                    && posts[p].content.caption == rule.post.content.caption
                    && posts[p].at.Some? && rule.zone.LocalDate(posts[p].at.value) == d
  }

  lemma FollowsUnique(cal: Calendar, freq: Frequency, interval: nat, a: nat, b: nat, c: nat)
    requires Follows(cal, freq, interval, a, b) && Follows(cal, freq, interval, a, c)
    ensures b == c
  {
  }

  /** The date at place `m` of a series; there is one if some date in reach follows what precedes it. */
  lemma SeriesAt(cal: Calendar, freq: Frequency, interval: nat, base: nat, end: nat, room: nat, a: seq<nat>, m: nat, next: nat)
    requires Series(cal, freq, interval, base, end, room, a) && m <= |a|
    ensures |a| <= room
    ensures m < |a| ==> Follows(cal, freq, interval, DateBefore(base, a, m), a[m]) && a[m] <= end
    ensures m < room && next <= end && Follows(cal, freq, interval, DateBefore(base, a, m), next) ==> m < |a|
  {
    hide Follows, DateBefore;
  }

  lemma {:induction false} SeriesUnique(cal: Calendar, freq: Frequency, interval: nat, base: nat, end: nat, room: nat,
                                        a: seq<nat>, b: seq<nat>, n: nat)
    requires Series(cal, freq, interval, base, end, room, a) && Series(cal, freq, interval, base, end, room, b)
    requires n <= |a|
    ensures n <= |b| && forall k | 0 <= k < n :: a[k] == b[k]
  {
    if n > 0 {
      var m := n - 1;
      SeriesUnique(cal, freq, interval, base, end, room, a, b, m);
      hide Follows, Series;
      assert DateBefore(base, a, m) == DateBefore(base, b, m);
      SeriesAt(cal, freq, interval, base, end, room, a, m, a[m]);
      SeriesAt(cal, freq, interval, base, end, room, b, m, a[m]);
      FollowsUnique(cal, freq, interval, DateBefore(base, a, m), a[m], b[m]);
    }
  }

  lemma AskedIs(cal: Calendar, rule: Rule, today: nat, d: nat)
    requires rule.at.Some?
    ensures d in RuleDates(cal, rule, today) <==> Asked(cal, rule, today, d)
  {
    var base := rule.zone.LocalDate(rule.at.value);
    var dates := RuleDates(cal, rule, today);
    var end := Horizon(rule, today);
    DatesAreSeries(cal, rule.freq, rule.interval, base, end, MAX_RECURRENCES);
    assert Series(cal, rule.freq, rule.interval, base, end, 180, dates) && LastDay(rule, today, end);
    hide Dates, Series;
    if Asked(cal, rule, today, d) {
      var ds: seq<nat>, e: nat :| d in ds && LastDay(rule, today, e) && Series(cal, rule.freq, rule.interval, base, e, 180, ds);
      assert e == end;
      SeriesUnique(cal, rule.freq, rule.interval, base, end, 180, ds, dates, |ds|);
      var i :| 0 <= i < |ds| && ds[i] == d;
      assert dates[i] == d;
    }
  }

  lemma WantedIsMissing(posts: map<nat, Post>, cal: Calendar, rule: Rule, today: nat, d: nat)
    requires rule.at.Some?
    ensures d in RuleWants(posts, cal, rule, today) <==> Missing(posts, cal, rule, today, d)
  {
    var dates := RuleDates(cal, rule, today);
    WantedFacts(dates, Existing(posts, rule, dates), today);
    if d in dates { ExistingIff(posts, rule, dates, d); }
    AskedIs(cal, rule, today, d);
    hide RuleDates, Existing, Wanted, Asked;
  }

  /** The post is new, and the source's copy for the date. */
  ghost predicate NewCopy(s: State, t: State, rule: Rule, d: nat, p: nat)
    requires rule.post.at.Some?
  {
    p in t.posts && p !in s.posts && CopyFor(rule, d, t.posts[p])
  }

  lemma ClonesAreCopies(s: State, t: State, rule: Rule, wanted: seq<nat>, p: nat)
    requires rule.at.Some? && Numbered(s) && t.posts == WithClones(s.posts, rule, wanted, s.nextId)
    requires p in t.posts && p !in s.posts
    ensures s.nextId <= p < s.nextId + |wanted| && NewCopy(s, t, rule, wanted[p - s.nextId], p)
  {
    WithClonesAt(s.posts, rule, wanted, s.nextId);
    hide WithClones, Clone, CopyFor;
    var d := wanted[p - s.nextId];
    assert t.posts[s.nextId + (p - s.nextId)] == Clone(rule, d);
    CloneIsCopy(rule, d);
  }

  lemma CopyThere(s: State, t: State, rule: Rule, wanted: seq<nat>, d: nat) returns (p: nat)
    requires rule.at.Some? && Numbered(s) && t.posts == WithClones(s.posts, rule, wanted, s.nextId) && d in wanted
    ensures NewCopy(s, t, rule, d, p)
  {
    WithClonesAt(s.posts, rule, wanted, s.nextId);
    hide WithClones, Clone, CopyFor;
    var i :| 0 <= i < |wanted| && wanted[i] == d;
    p := s.nextId + i;
    assert p in t.posts && p !in s.posts;
    assert t.posts[p] == Clone(rule, wanted[p - s.nextId]);
    CloneIsCopy(rule, d);
  }

  lemma PassIsPosts(s: State, cal: Calendar, rule: Rule, today: nat)
    requires rule.at.Some? && Numbered(s)
    ensures var t := Next(s, cal, Pass(rule, today));
            t.posts == WithClones(s.posts, rule, RuleWants(s.posts, cal, rule, today), s.nextId)
            && forall p | p in s.posts :: p in t.posts && t.posts[p] == s.posts[p]
  {
    WithClonesAt(s.posts, rule, RuleWants(s.posts, cal, rule, today), s.nextId);
    hide WithClones, RuleWants;
  }

  /** A pass makes a copy of the source for every missing date, and nothing else: every
      post it adds is one, and every post there was is as it was. */
  lemma PassFillsIn(s: State, cal: Calendar, rule: Rule, today: nat)
    requires Numbered(s) && rule.post.at.Some?
    ensures var t := Next(s, cal, Pass(rule, today));
            && (forall p | p in s.posts :: p in t.posts && t.posts[p] == s.posts[p])
            && (forall p | p in t.posts && p !in s.posts ::
                  exists d :: Missing(s.posts, cal, rule, today, d) && NewCopy(s, t, rule, d, p))
            && (forall d | Missing(s.posts, cal, rule, today, d) :: exists p :: NewCopy(s, t, rule, d, p))
  {
    var wanted := RuleWants(s.posts, cal, rule, today);
    var t := Next(s, cal, Pass(rule, today));
    PassIsPosts(s, cal, rule, today);
    hide Next, RuleWants, WithClones, NewCopy, Missing, Numbered;
    forall p | p in t.posts && p !in s.posts
      ensures exists d :: Missing(s.posts, cal, rule, today, d) && NewCopy(s, t, rule, d, p)
    {
      ClonesAreCopies(s, t, rule, wanted, p);
      WantedIsMissing(s.posts, cal, rule, today, wanted[p - s.nextId]);
    }
    forall d | Missing(s.posts, cal, rule, today, d) ensures exists p :: NewCopy(s, t, rule, d, p) {
      WantedIsMissing(s.posts, cal, rule, today, d);
      var p := CopyThere(s, t, rule, wanted, d);
    }
  }

  // ----- the whole job again -----

  /** A pass over a rule whose source is an old post, synced with its children if it has a time. */
  ghost predicate SoundPass(s: State, a: Act) {
    a.Pass? && a.rule.source < s.nextId && (a.rule.at.Some? ==> ZoneAgrees(a.rule.zone) && SourceSynced(a.rule))
  }

  /** The posts are numbered below the next number. */
  ghost predicate Numbered(s: State) {
    forall p | p in s.posts :: p < s.nextId
  }

  /** The pass has nothing to do. */
  predicate Idle(s: State, cal: Calendar, a: Act) {
    a.Pass? && (a.rule.at.Some? ==> RuleWants(s.posts, cal, a.rule, a.today) == [])
  }

  /** Only posts are added, under new numbers. */
  ghost predicate Grows(s: State, t: State) {
    s.nextId <= t.nextId && forall p | p in s.posts :: p in t.posts && t.posts[p] == s.posts[p]
  }

  lemma PassGrows(s: State, cal: Calendar, a: Act)
    requires Numbered(s) && a.Pass?
    ensures Numbered(Next(s, cal, a)) && Grows(s, Next(s, cal, a))
  {
    if a.rule.at.Some? {
      WithClonesAt(s.posts, a.rule, RuleWants(s.posts, cal, a.rule, a.today), s.nextId);
    }
    hide RuleWants, WithClones, Clone;
  }

  lemma PassSettles(s: State, cal: Calendar, a: Act)
    requires Numbered(s) && SoundPass(s, a)
    ensures Idle(Next(s, cal, a), cal, a)
  {
    hide RuleWants, WithClones, ZoneAgrees, SourceSynced;
    if a.rule.at.Some? {
      SecondPassIdle(s.posts, cal, a.rule, a.today, s.nextId);
    }
  }

  /** With more posts there is no more to do. */
  lemma StaysIdle(s: State, t: State, cal: Calendar, a: Act)
    requires Idle(s, cal, a) && Grows(s, t)
    ensures Idle(t, cal, a)
  {
    if a.rule.at.Some? {
      var dates := RuleDates(cal, a.rule, a.today);
      ExistingGrows(s.posts, t.posts, a.rule, dates);
      hide RuleDates, Existing, Wanted;
      WantedFacts(dates, Existing(s.posts, a.rule, dates), a.today);
      WantedNone(dates, Existing(t.posts, a.rule, dates), a.today);
    }
  }

  lemma IdleStep(s: State, cal: Calendar, a: Act)
    requires Idle(s, cal, a)
    ensures Next(s, cal, a) == s
  {
    hide RuleWants;
  }

  /** After a run of passes none of them has anything left to do. */
  lemma {:induction false} RunSettles(s: State, cal: Calendar, acts: seq<Act>)
    requires Numbered(s) && forall i | 0 <= i < |acts| :: SoundPass(s, acts[i])
    ensures Grows(s, Run(s, cal, acts))
    ensures forall i | 0 <= i < |acts| :: Idle(Run(s, cal, acts), cal, acts[i])
    decreases |acts|
  {
    if acts != [] {
      hide Next, Idle;
      var t := Next(s, cal, acts[0]);
      PassGrows(s, cal, acts[0]);
      PassSettles(s, cal, acts[0]);
      RunSettles(t, cal, acts[1..]);
      StaysIdle(t, Run(t, cal, acts[1..]), cal, acts[0]);
      assert forall i | 0 < i < |acts| :: acts[i] == acts[1..][i - 1];
    }
  }

  lemma {:induction false} RunIdle(s: State, cal: Calendar, acts: seq<Act>)
    requires forall i | 0 <= i < |acts| :: Idle(s, cal, acts[i])
    ensures Run(s, cal, acts) == s
    decreases |acts|
  {
    if acts != [] {
      hide Next, Idle;
      IdleStep(s, cal, acts[0]);
      RunIdle(s, cal, acts[1..]);
    }
  }

  /** Running the daily job over all rules a second time, while it is still the same
      day for each of them, changes nothing. */
  lemma JobTwiceIsOnce(s: State, cal: Calendar, rules: seq<Rule>, now: int, later: int)
    requires Numbered(s)
    requires forall i | 0 <= i < |rules| :: rules[i].source < s.nextId
               && (rules[i].at.Some? ==> ZoneAgrees(rules[i].zone) && SourceSynced(rules[i]))
    requires forall i | 0 <= i < |rules| :: rules[i].zone.LocalDate(now) == rules[i].zone.LocalDate(later)
    ensures Run(Run(s, cal, Passes(rules, now)), cal, Passes(rules, later)) == Run(s, cal, Passes(rules, now))
  {
    hide Run, Idle, ZoneAgrees, SourceSynced;
    assert Passes(rules, later) == Passes(rules, now);
    RunSettles(s, cal, Passes(rules, now));
    RunIdle(Run(s, cal, Passes(rules, now)), cal, Passes(rules, now));
  }

  // ----- runs -----

  /** The same rule, perhaps edited: its frequency, interval and end, and its source's
      time, content and children may be others than before. */
  ghost predicate VersionOf(r: Rule, rule: Rule) {
    r.id == rule.id && r.source == rule.source && r.zone == rule.zone
    && (r.at.Some? ==> SourceSynced(r) && r.interval >= 1)
  }

  /** Every pass over the rule is over a version of it. */
  ghost predicate Versions(rule: Rule, acts: seq<Act>) {
    forall i | 0 <= i < |acts| && acts[i].Pass? && acts[i].rule.id == rule.id :: VersionOf(acts[i].rule, rule)
  }

  /** The step puts no second post of the rule on a date: a pass overlooks no clone,
      and an edit moves none onto another. */
  ghost predicate KeepsOnce(s: State, cal: Calendar, rule: Rule, a: Act) {
    match a
    case Pass(r, today) => r.id == rule.id && r.at.Some? ==> !exists d :: Overlooked(s.posts, cal, r, today, d)
    case Edit(id, post) =>
      id in s.posts && s.posts[id].origin == Some(rule.id) && post.at.Some? ==>
        !exists q :: q != id && CloneOn(s.posts, rule, q, rule.zone.LocalDate(post.at.value))
    case Appear(_) => true
    case Disappear(_) => true
  }

  lemma OtherRulesPass(posts: map<nat, Post>, rule: Rule, other: Rule, wanted: seq<nat>, id: nat)
    requires other.at.Some? && other.id != rule.id && OncePerDate(posts, rule) && forall p | p in posts :: p < id
    ensures OncePerDate(WithClones(posts, other, wanted, id), rule)
  {
    WithClonesAt(posts, other, wanted, id);
    var r := WithClones(posts, other, wanted, id);
    hide WithClones;
    forall p | p in r && p !in posts ensures r[p].origin == Some(other.id) {
      assert r[id + (p - id)] == Clone(other, wanted[p - id]);
    }
    assert forall p: nat, d: nat | CloneOn(r, rule, p, d) :: CloneOn(posts, rule, p, d);
    hide CloneOn;
  }

  /** Clones are those of the rule, whichever version is looked at. */
  lemma SameClones(posts: map<nat, Post>, r: Rule, rule: Rule)
    requires r.id == rule.id && r.zone == rule.zone
    ensures OncePerDate(posts, r) <==> OncePerDate(posts, rule)
  {
    assert forall p: nat, d: nat :: CloneOn(posts, r, p, d) <==> CloneOn(posts, rule, p, d);
    hide CloneOn;
  }

  lemma EditOnceIff(s: State, cal: Calendar, rule: Rule, id: nat, post: Post)
    requires OncePerDate(s.posts, rule)
    ensures OncePerDate(Next(s, cal, Edit(id, post)).posts, rule) <==> KeepsOnce(s, cal, rule, Edit(id, post))
  {
    var r := Next(s, cal, Edit(id, post)).posts;
    forall p: nat, d: nat | p != id ensures CloneOn(r, rule, p, d) <==> CloneOn(s.posts, rule, p, d) {
    }
    if id in s.posts && s.posts[id].origin == Some(rule.id) && post.at.Some? {
      assert CloneOn(r, rule, id, rule.zone.LocalDate(post.at.value));
      assert forall d: nat | CloneOn(r, rule, id, d) :: d == rule.zone.LocalDate(post.at.value);
    } else {
      assert forall d: nat | CloneOn(r, rule, id, d) :: CloneOn(s.posts, rule, id, d);
    }
    hide CloneOn;
  }

  lemma StepOnceIff(s: State, cal: Calendar, rule: Rule, a: Act)
    requires ZoneAgrees(rule.zone) && MonthsAdvance(cal) && Numbered(s) && OncePerDate(s.posts, rule)
    requires a.Pass? && a.rule.id == rule.id ==> VersionOf(a.rule, rule)
    ensures Numbered(Next(s, cal, a))
    ensures OncePerDate(Next(s, cal, a).posts, rule) <==> KeepsOnce(s, cal, rule, a)
  {
    hide RuleWants, WithClones, ZoneAgrees, SourceSynced, MonthsAdvance, Overlooked;
    match a
    case Pass(r, today) =>
      PassGrows(s, cal, a);
      hide OncePerDate;
      if r.at.Some? {
        if r.id == rule.id {
          SameClones(s.posts, r, rule);
          SameClones(Next(s, cal, a).posts, r, rule);
          PassKeepsOnceIff(s.posts, cal, r, today, s.nextId);
        } else {
          OtherRulesPass(s.posts, rule, r, RuleWants(s.posts, cal, r, today), s.nextId);
        }
      }
    case Edit(id, post) => EditOnceIff(s, cal, rule, id, post);
    case Appear(post) =>
      assert forall p: nat, d: nat | CloneOn(Next(s, cal, a).posts, rule, p, d) :: CloneOn(s.posts, rule, p, d);
    case Disappear(id) =>
      assert forall p: nat, d: nat | CloneOn(Next(s, cal, a).posts, rule, p, d) :: CloneOn(s.posts, rule, p, d);
  }

  /** At every moment of the run no two posts of the rule sit on one date. */
  ghost predicate AlwaysOnce(s: State, cal: Calendar, rule: Rule, acts: seq<Act>)
    decreases |acts|
  {
    OncePerDate(s.posts, rule) && (acts == [] || AlwaysOnce(Next(s, cal, acts[0]), cal, rule, acts[1..]))
  }

  ghost predicate AllKeepOnce(s: State, cal: Calendar, rule: Rule, acts: seq<Act>)
    decreases |acts|
  {
    acts == [] || (KeepsOnce(s, cal, rule, acts[0]) && AllKeepOnce(Next(s, cal, acts[0]), cal, rule, acts[1..]))
  }

  /** Over any run of passes, whatever the rule and its source are edited to in
      between, mixed with other rules' passes and with posts coming, going and being
      edited: the rule never has two clones on one date if and only if no pass over it
      overlooks a clone and no edit moves one onto another. */
  lemma {:induction false} RunOnceIff(s: State, cal: Calendar, rule: Rule, acts: seq<Act>)
    requires ZoneAgrees(rule.zone) && MonthsAdvance(cal) && Versions(rule, acts)
    requires Numbered(s) && OncePerDate(s.posts, rule)
    ensures AlwaysOnce(s, cal, rule, acts) <==> AllKeepOnce(s, cal, rule, acts)
    decreases |acts|
  {
    if acts != [] {
      var t := Next(s, cal, acts[0]);
      StepOnceIff(s, cal, rule, acts[0]);
      assert Versions(rule, acts[1..]) by { hide VersionOf; }
      hide Next, KeepsOnce, OncePerDate, ZoneAgrees, MonthsAdvance, Versions;
      if OncePerDate(t.posts, rule) {
        RunOnceIff(t, cal, rule, acts[1..]);
      } else {
        assert !AlwaysOnce(t, cal, rule, acts[1..]);
      }
    }
  }

  /** A version of the rule with the same workspace and caption. */
  ghost predicate SameSeries(r: Rule, rule: Rule) {
    VersionOf(r, rule) && r.post.workspace == rule.post.workspace && r.post.content.caption == rule.post.content.caption
  }

  /** The source's workspace and caption stay; a clone edited by hand keeps them, and its date. */
  ghost predicate Fair(s: State, rule: Rule, a: Act) {
    match a
    case Pass(r, _) => r.id == rule.id ==> SameSeries(r, rule)
    case Edit(id, post) =>
      id in s.posts && s.posts[id].origin == Some(rule.id) ==>
        Recognises(rule, post) && CloneOn(s.posts, rule, id, rule.zone.LocalDate(post.at.value))
    case Appear(_) => true
    case Disappear(_) => true
  }

  ghost predicate FairRun(s: State, cal: Calendar, rule: Rule, acts: seq<Act>)
    decreases |acts|
  {
    acts == [] || (Fair(s, rule, acts[0]) && FairRun(Next(s, cal, acts[0]), cal, rule, acts[1..]))
  }

  /** Every clone of the rule is one that its passes recognise. */
  ghost predicate AllRecognised(posts: map<nat, Post>, rule: Rule) {
    forall p | p in posts && posts[p].origin == Some(rule.id) :: Recognises(rule, posts[p]) && p != rule.source
  }

  ghost predicate Sound(s: State, rule: Rule) {
    OncePerDate(s.posts, rule) && AllRecognised(s.posts, rule) && rule.source < s.nextId && Numbered(s)
  }

  /** What a pass recognises it does not overlook. */
  lemma NoneOverlooked(posts: map<nat, Post>, cal: Calendar, r: Rule, rule: Rule, today: nat, d: nat)
    requires AllRecognised(posts, rule) && SameSeries(r, rule) && r.at.Some?
    ensures !Overlooked(posts, cal, r, today, d)
  {
    if HeldByClone(posts, r, d) {
      var p :| CloneOn(posts, r, p, d);
      assert Recognises(r, posts[p]) && p != r.source;
      assert Taken(posts, r, d);
    }
  }

  lemma PassKeepsRecognised(s: State, cal: Calendar, rule: Rule, r: Rule, today: nat)
    requires AllRecognised(s.posts, rule) && Numbered(s) && rule.source < s.nextId && r.at.Some?
    requires r.id == rule.id ==> SameSeries(r, rule) && ZoneAgrees(r.zone)
    ensures AllRecognised(Next(s, cal, Pass(r, today)).posts, rule)
  {
    var wanted := RuleWants(s.posts, cal, r, today);
    var t := WithClones(s.posts, r, wanted, s.nextId);
    WithClonesAt(s.posts, r, wanted, s.nextId);
    hide RuleWants, WithClones;
    if r.id == rule.id {
      forall p | p in t && p !in s.posts ensures Recognises(rule, t[p]) && p != rule.source {
        assert t[s.nextId + (p - s.nextId)] == Clone(r, wanted[p - s.nextId]);
        CloneOnItsDate(r, wanted[p - s.nextId]);
      }
    } else {
      forall p | p in t && p !in s.posts ensures t[p].origin == Some(r.id) {
        assert t[s.nextId + (p - s.nextId)] == Clone(r, wanted[p - s.nextId]);
      }
    }
    hide Recognises, Clone;
  }

  lemma FairKeeps(s: State, cal: Calendar, rule: Rule, a: Act)
    requires ZoneAgrees(rule.zone) && Sound(s, rule) && Fair(s, rule, a)
    ensures KeepsOnce(s, cal, rule, a) && AllRecognised(Next(s, cal, a).posts, rule)
    ensures rule.source < Next(s, cal, a).nextId
  {
    hide RuleWants, WithClones, ZoneAgrees, SourceSynced, Overlooked;
    match a
    case Pass(r, today) =>
      if r.at.Some? {
        PassKeepsRecognised(s, cal, rule, r, today);
        hide AllRecognised;
        if r.id == rule.id {
          forall d ensures !Overlooked(s.posts, cal, r, today, d) {
            NoneOverlooked(s.posts, cal, r, rule, today, d);
          }
        }
      }
    case Edit(id, post) =>
    case Appear(post) =>
    case Disappear(id) =>
  }

  /** As long as the source keeps its workspace and caption, and clones edited by hand
      keep theirs and their dates, a rule never has two clones on one local date, over
      any run of passes on whatever days, over whatever versions of the rule. */
  lemma {:induction false} NeverTwiceOnADate(s: State, cal: Calendar, rule: Rule, acts: seq<Act>)
    requires ZoneAgrees(rule.zone) && MonthsAdvance(cal) && Sound(s, rule) && FairRun(s, cal, rule, acts)
    ensures AlwaysOnce(s, cal, rule, acts) && Sound(Run(s, cal, acts), rule)
    decreases |acts|
  {
    if acts != [] {
      assert Fair(s, rule, acts[0]);
      FairKeeps(s, cal, rule, acts[0]);
      StepOnceIff(s, cal, rule, acts[0]);
      hide Next, KeepsOnce, OncePerDate, AllRecognised, Fair, ZoneAgrees, MonthsAdvance, Numbered;
      NeverTwiceOnADate(Next(s, cal, acts[0]), cal, rule, acts[1..]);
    }
  }

  // ----- an edited caption -----

  /** The rule once its source has the caption `c`. */
  function Recaptioned(rule: Rule, c: string): Rule {
    rule.(post := rule.post.(content := rule.post.content.(caption := c)))
  }

  /** No other post of the source's workspace has the caption. */
  predicate Unused(posts: map<nat, Post>, rule: Rule, c: string) {
    forall p | p in posts && p != rule.source && posts[p].workspace == rule.post.workspace :: posts[p].content.caption != c
  }

  lemma NotTakenByNewCaption(posts: map<nat, Post>, rule: Rule, c: string, wanted: seq<nat>, id: nat, d: nat)
    requires rule.at.Some? && c != rule.post.content.caption && forall p | p in posts :: p < id
    requires Unused(posts, rule, c)
    ensures !Taken(WithClones(posts, rule, wanted, id), Recaptioned(rule, c), d)
  {
    WithClonesAt(posts, rule, wanted, id);
    var r := WithClones(posts, rule, wanted, id);
    hide WithClones, CloneAt, CloneChildren;
    forall p | p in r && p != rule.source ensures !Recognises(Recaptioned(rule, c), r[p]) {
      if p !in posts {
        assert r[p] == Clone(rule, wanted[p - id]);
      }
    }
  }

  /** What happens: a pass, the new caption, and a pass over the rule as it is then. */
  function CaptionEdited(posts: map<nat, Post>, cal: Calendar, rule: Rule, c: string, today: nat, id: nat): State {
    Next(Next(State(posts, id), cal, Pass(rule, today)), cal, Edit(rule.source, Recaptioned(rule, c).post))
  }

  /** The second pass finds the clones of the first where they were, and recognises none. */
  lemma AfterTheEdit(posts: map<nat, Post>, cal: Calendar, rule: Rule, c: string, today: nat, id: nat, d: nat)
    requires ZoneAgrees(rule.zone) && SourceSynced(rule) && rule.source < id && forall p | p in posts :: p < id
    requires c != rule.post.content.caption
    requires Unused(posts, rule, c)
    requires d in RuleWants(posts, cal, rule, today)
    ensures var s := CaptionEdited(posts, cal, rule, c, today, id);
            Numbered(s) && HeldByClone(s.posts, rule, d) && !Taken(s.posts, Recaptioned(rule, c), d)
  {
    var wanted := RuleWants(posts, cal, rule, today);
    var r := WithClones(posts, rule, wanted, id);
    var i :| 0 <= i < |wanted| && wanted[i] == d;
    NotTakenByNewCaption(posts, rule, c, wanted, id, d);
    CloneOnAfter(posts, rule, wanted, id, id + i, d);
    PassGrows(State(posts, id), cal, Pass(rule, today));
    hide RuleWants, WithClones, Recaptioned, ZoneAgrees, SourceSynced;
    var s := CaptionEdited(posts, cal, rule, c, today, id);
    assert CloneOn(s.posts, rule, id + i, d);
    assert forall p | p in s.posts && p != rule.source :: p in r && s.posts[p] == r[p];
    hide CaptionEdited, Recognises;
  }

  lemma RecaptionedDates(cal: Calendar, rule: Rule, c: string, today: nat)
    requires rule.at.Some?
    ensures Recaptioned(rule, c).at == rule.at && RuleDates(cal, Recaptioned(rule, c), today) == RuleDates(cal, rule, today)
    ensures SourceSynced(Recaptioned(rule, c)) <==> SourceSynced(rule)
    ensures Recaptioned(rule, c).zone == rule.zone && Recaptioned(rule, c).id == rule.id
  {
  }

  /** When the source gets a caption that no other post of its workspace has, the next
      pass of the same day asks again for every date that the pass before made a clone
      for, and each of them then holds two. */
  lemma EditedCaptionDoubles(posts: map<nat, Post>, cal: Calendar, rule: Rule, c: string, today: nat, id: nat, d: nat)
    returns (p: nat, q: nat)
    requires ZoneAgrees(rule.zone) && SourceSynced(rule) && rule.source < id && forall p | p in posts :: p < id
    requires c != rule.post.content.caption
    requires Unused(posts, rule, c)
    requires d in RuleWants(posts, cal, rule, today)
    ensures var s := CaptionEdited(posts, cal, rule, c, today, id);
            var t := Next(s, cal, Pass(Recaptioned(rule, c), today));
            p != q && CloneOn(t.posts, rule, p, d) && CloneOn(t.posts, rule, q, d)
  {
    var s := CaptionEdited(posts, cal, rule, c, today, id);
    var edited := Recaptioned(rule, c);
    AfterTheEdit(posts, cal, rule, c, today, id, d);
    RecaptionedDates(cal, rule, c, today);
    WantedDate(posts, cal, rule, today, d);
    hide *;
    WantedUnlessTaken(s.posts, cal, edited, today, d);
    p := HolderOf(s.posts, rule, d);
    q := SecondClone(s.posts, edited, rule, RuleWants(s.posts, cal, edited, today), s.nextId, p, d);
    PassIs(s, cal, edited, today);
  }

  lemma WantedDate(posts: map<nat, Post>, cal: Calendar, rule: Rule, today: nat, d: nat)
    requires rule.at.Some? && d in RuleWants(posts, cal, rule, today)
    ensures d in RuleDates(cal, rule, today) && d > today
  {
    var dates := RuleDates(cal, rule, today);
    WantedFacts(dates, Existing(posts, rule, dates), today);
  }

  lemma WantedUnlessTaken(posts: map<nat, Post>, cal: Calendar, rule: Rule, today: nat, d: nat)
    requires rule.at.Some? && d in RuleDates(cal, rule, today) && d > today && !Taken(posts, rule, d)
    ensures d in RuleWants(posts, cal, rule, today)
  {
    var dates := RuleDates(cal, rule, today);
    ExistingIff(posts, rule, dates, d);
    WantedFacts(dates, Existing(posts, rule, dates), today);
  }

  lemma HolderOf(posts: map<nat, Post>, rule: Rule, d: nat) returns (p: nat)
    requires HeldByClone(posts, rule, d)
    ensures CloneOn(posts, rule, p, d)
  {
    p :| CloneOn(posts, rule, p, d);
  }

  /** A clone for a date that holds one: the two of them. */
  lemma SecondClone(posts: map<nat, Post>, r: Rule, rule: Rule, wanted: seq<nat>, id: nat, p: nat, d: nat) returns (q: nat)
    requires ZoneAgrees(r.zone) && SourceSynced(r) && r.id == rule.id && r.zone == rule.zone
    requires (forall x | x in posts :: x < id) && CloneOn(posts, rule, p, d) && d in wanted
    ensures q != p && CloneOn(WithClones(posts, r, wanted, id), rule, p, d)
    ensures CloneOn(WithClones(posts, r, wanted, id), rule, q, d)
  {
    var i :| 0 <= i < |wanted| && wanted[i] == d;
    q := id + i;
    assert CloneOn(posts, r, p, d);
    CloneOnAfter(posts, r, wanted, id, p, d);
    CloneOnAfter(posts, r, wanted, id, q, d);
    hide WithClones;
  }

  lemma PassIs(s: State, cal: Calendar, rule: Rule, today: nat)
    requires rule.at.Some?
    ensures Next(s, cal, Pass(rule, today)).posts == WithClones(s.posts, rule, RuleWants(s.posts, cal, rule, today), s.nextId)
  {
  }

  // ----- the interval column also admits zero -----

  lemma {:induction false} StandingStill(cal: Calendar, freq: Frequency, d: nat, end: nat, room: nat)
    requires freq != Other && cal.addMonths(d, 0) == d && d <= end
    ensures |Dates(cal, freq, 0, d, end, room)| == room
    ensures forall i | 0 <= i < room :: Dates(cal, freq, 0, d, end, room)[i] == d
    decreases room
  {
    if room > 0 { StandingStill(cal, freq, d, end, room - 1); }
  }

  /** With an interval of zero a first pass keeps one clone per date exactly when the
      source's own date is not ahead, or past the end, or already taken; otherwise
      it makes 180 clones for that one date. */
  lemma ZeroIntervalIff(posts: map<nat, Post>, cal: Calendar, rule: Rule, today: nat, id: nat)
    requires ZoneAgrees(rule.zone) && SourceSynced(rule) && OncePerDate(posts, rule)
    requires rule.source < id && forall p | p in posts :: p < id
    requires rule.interval == 0 && rule.freq != Other
    requires cal.addMonths(rule.zone.LocalDate(rule.at.value), 0) == rule.zone.LocalDate(rule.at.value)
    ensures var base := rule.zone.LocalDate(rule.at.value);
            OncePerDate(WithClones(posts, rule, RuleWants(posts, cal, rule, today), id), rule)
            <==> base <= today || base > Horizon(rule, today) || base in Existing(posts, rule, [base])
    ensures var base := rule.zone.LocalDate(rule.at.value);
            base <= today || base > Horizon(rule, today) || base in Existing(posts, rule, [base])
            || |RuleWants(posts, cal, rule, today)| == MAX_RECURRENCES
  {
    var base := rule.zone.LocalDate(rule.at.value);
    var end := Horizon(rule, today);
    var dates := RuleDates(cal, rule, today);
    var existing := Existing(posts, rule, dates);
    if base > end {
      NothingPastTheEnd(cal, rule, today);
      assert RuleWants(posts, cal, rule, today) == [];
    } else {
      StandingStill(cal, rule.freq, base, end, MAX_RECURRENCES);
      assert |dates| == MAX_RECURRENCES && forall i | 0 <= i < |dates| :: dates[i] == base;
      assert dates[0] in dates;
      SameDates(posts, rule, dates, base);
      hide Dates;
      if base <= today || base in existing {
        WantedNone(dates, existing, today);
      } else {
        WantedAll(dates, existing, today);
        assert dates[0] == dates[1];
        hide OncePerDate, WithClones, Existing, Wanted, ZoneAgrees, SourceSynced;
        ClonesOnceIff(posts, rule, dates, id);
      }
    }
  }

  lemma NothingPastTheEnd(cal: Calendar, rule: Rule, today: nat)
    requires rule.at.Some? && rule.interval == 0 && rule.zone.LocalDate(rule.at.value) > Horizon(rule, today)
    requires cal.addMonths(rule.zone.LocalDate(rule.at.value), 0) == rule.zone.LocalDate(rule.at.value)
    ensures RuleDates(cal, rule, today) == []
  {
  }

  lemma SameDates(posts: map<nat, Post>, rule: Rule, dates: seq<nat>, base: nat)
    requires base in dates && forall d | d in dates :: d == base
    ensures Existing(posts, rule, dates) == Existing(posts, rule, [base])
  {
    assert forall d :: d in dates <==> d in [base];
  }

  lemma {:induction false} WantedAll(dates: seq<nat>, existing: set<nat>, today: nat)
    requires forall i | 0 <= i < |dates| :: dates[i] !in existing && dates[i] > today
    ensures Wanted(dates, existing, today) == dates
  {
    if dates != [] {
      WantedAll(dates[..|dates| - 1], existing, today);
    }
  }

  // A daily rule of interval zero for a post without children, five days ahead. Instants are hours.
  const HOURLY := Zone((d, t) => d * 24 + t, i => if i >= 0 then i / 24 else 0, i => i % 24)
  const MONTHS := Calendar((d, n) => d + 30 * n)
  const STILL_POST := Post(0, Content(0, "", "", "", [], None), Some(249), [], [], None)
  const STILL := Rule(0, 1, STILL_POST, HOURLY, Daily, 0, None)
  const LONE: map<nat, Post> := map[1 := STILL_POST]

  lemma HourlyAgrees()
    ensures ZoneAgrees(HOURLY)
  {
    forall d: nat, i: int ensures HOURLY.LocalDate(HOURLY.At(d, HOURLY.LocalTime(i))) == d {
      assert (d * 24 + i % 24) / 24 == d;
    }
  }

  lemma StillFacts()
    ensures STILL.at == Some(249) && STILL.zone.LocalDate(249) == 10 && Horizon(STILL, 5) == 95
    ensures SourceSynced(STILL) && OncePerDate(LONE, STILL) && Existing(LONE, STILL, [10]) == {}
  {
  }

  /** It fills its own date with the 180 clones a pass may make. */
  lemma ZeroIntervalClones()
    ensures ZoneAgrees(STILL.zone) && SourceSynced(STILL) && OncePerDate(LONE, STILL)
    ensures STILL.freq == Daily && STILL.interval == 0
    ensures |RuleWants(LONE, MONTHS, STILL, 5)| == MAX_RECURRENCES
    ensures !OncePerDate(WithClones(LONE, STILL, RuleWants(LONE, MONTHS, STILL, 5), 2), STILL)
  {
    HourlyAgrees();
    StillFacts();
    assert MONTHS.addMonths(10, 0) == 10;
    hide WithClones, RuleWants, OncePerDate, ZoneAgrees, SourceSynced, Horizon, Existing;
    ZeroIntervalIff(LONE, MONTHS, STILL, 5, 2);
  }

  // The same post as the source of a daily rule that ends on the day after it.
  const NEXT_DAY := Rule(0, 1, STILL_POST, HOURLY, Daily, 1, Some(11))

  lemma NextDayWants()
    ensures RuleWants(LONE, MONTHS, NEXT_DAY, 5) == [11]
    ensures SourceSynced(NEXT_DAY) && NEXT_DAY.zone == HOURLY && OncePerDate(LONE, NEXT_DAY)
  {
    var dates := RuleDates(MONTHS, NEXT_DAY, 5);
    assert NEXT_DAY.zone.LocalDate(249) == 10 && Horizon(NEXT_DAY, 5) == 11;
    DatesStep(MONTHS, Daily, 1, 10, 11, MAX_RECURRENCES);
    DatesStep(MONTHS, Daily, 1, 11, 11, MAX_RECURRENCES - 1);
    hide Dates;
    assert dates == [11];
    assert Existing(LONE, NEXT_DAY, dates) == {};
    WantedAll(dates, {}, 5);
  }

  /** An edited caption puts two clones of that rule on its one date. */
  lemma CaptionEditInput()
    ensures ZoneAgrees(NEXT_DAY.zone) && SourceSynced(NEXT_DAY) && OncePerDate(LONE, NEXT_DAY)
    ensures var s := CaptionEdited(LONE, MONTHS, NEXT_DAY, "new", 5, 2);
            !OncePerDate(Next(s, MONTHS, Pass(Recaptioned(NEXT_DAY, "new"), 5)).posts, NEXT_DAY)
  {
    HourlyAgrees();
    NextDayWants();
    assert NEXT_DAY.post.content.caption != "new" && NEXT_DAY.source == 1;
    hide RuleWants, CaptionEdited, Recaptioned, Next, ZoneAgrees, SourceSynced, CloneOn;
    var p, q := EditedCaptionDoubles(LONE, MONTHS, NEXT_DAY, "new", 5, 2, 11);
  }
}
