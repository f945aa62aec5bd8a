/** How often the background loop refreshes one post
    (apps/analytics/tasks.py, _POST_SYNC_CADENCE, post_sync_interval,
    _post_cadence_due and the per-post loop). Times are microseconds. */
module SyncCadence {
  import opened Common

  datatype Band = Band(maxAge: Option<nat>, interval: Option<nat>)

  const CADENCE: seq<Band> :=
    [Band(Some(DAY), Some(HOUR)), Band(Some(7 * DAY), Some(6 * HOUR)), Band(Some(30 * DAY), Some(DAY)),
     Band(Some(90 * DAY), Some(7 * DAY)), Band(None, None)]

  /** The interval for a post of this age, none past the horizon. */
  function Interval(age: int): Option<nat> {
    if age < DAY then Some(HOUR)
    else if age < 7 * DAY then Some(6 * HOUR)
    else if age < 30 * DAY then Some(DAY)
    else if age < 90 * DAY then Some(7 * DAY)
    else None
  }

  /** The table walk: the first row whose age bound exceeds the age wins. */
  method PostSyncInterval(age: int) returns (r: Option<nat>)
    ensures r == Interval(age)
    ensures r == if age < 86_400_000_000 then Some(3_600_000_000)
                 else if age < 604_800_000_000 then Some(21_600_000_000)
                 else if age < 2_592_000_000_000 then Some(86_400_000_000)
                 else if age < 7_776_000_000_000 then Some(604_800_000_000)
                 else None
  {
    for i := 0 to |CADENCE|
      invariant i >= 1 ==> age >= DAY
      invariant i >= 2 ==> age >= 7 * DAY
      invariant i >= 3 ==> age >= 30 * DAY
      invariant i >= 4 ==> age >= 90 * DAY
      invariant i <= 4
    {
      if CADENCE[i].maxAge.None? || age < CADENCE[i].maxAge.value {
        return CADENCE[i].interval;
      }
    }
    return None;
  }

  /** Whether a post is due at `now`, given its latest cadence snapshot. */
  predicate Due(published: int, last: Option<Instant>, now: int) {
    Interval(now - published).Some? && (last.None? || now - last.value >= Interval(now - published).value)
  }

  /** What happens to one post: a tick of the loop, which if the post is due tries
      a sync that may or may not write a snapshot (captured no earlier than the
      tick), or a snapshot written by a backfill. */
  datatype Event = Tick(now: Instant, wrote: Option<Instant>) | Backfill(captured: Instant)

  ghost predicate Credible(published: Instant, events: seq<Event>) {
    forall i | 0 <= i < |events| && events[i].Tick? ::
      events[i].now >= published && (events[i].wrote.Some? ==> events[i].wrote.value >= events[i].now)
  }

  function Later(last: Option<Instant>, t: Instant): Option<Instant> {
    if last.Some? && last.value > t then last else Some(t)
  }

  predicate Syncs(published: Instant, last: Option<Instant>, e: Event) {
    e.Tick? && e.wrote.Some? && Due(published, last, e.now)
  }

  /** A sync writes a snapshot in the first ninety days only, and not within the hour,
      the six hours, the day or the week of the latest one that the post's age asks for. */
  lemma SyncedIff(published: Instant, last: Option<Instant>, now: Instant, wrote: Option<Instant>)
    ensures Syncs(published, last, Tick(now, wrote)) <==>
            var age := now - published;
            wrote.Some? && age < 7_776_000_000_000
            && (last.Some? ==> now >= last.value + 3_600_000_000)
            && (last.Some? && age >= 86_400_000_000 ==> now >= last.value + 21_600_000_000)
            && (last.Some? && age >= 604_800_000_000 ==> now >= last.value + 86_400_000_000)
            && (last.Some? && age >= 2_592_000_000_000 ==> now >= last.value + 604_800_000_000)
  {
  }

  /** The latest snapshot after an event. */
  function LastAfter(published: Instant, last: Option<Instant>, e: Event): Option<Instant> {
    match e
    case Backfill(t) => Later(last, t)
    case Tick(_, wrote) => if Syncs(published, last, e) then Later(last, wrote.value) else last
  }

  /** The snapshot-writing syncs of a run. */
  function SyncCount(published: Instant, last: Option<Instant>, events: seq<Event>): nat
    decreases |events|
  {
    if events == [] then 0
    else (if Syncs(published, last, events[0]) then 1 else 0)
         + SyncCount(published, LastAfter(published, last, events[0]), events[1..])
  }

  const MAX_SYNCS: nat := 79

  /** The age at which the k-th sync (from 0) can happen at the earliest: 24 hourly
      ones, 24 six-hourly ones, 23 daily ones and 8 weekly ones. The first of each
      band waits a full new interval after the last of the band before. */
  function EarliestAge(k: nat): nat {
    if k < 24 then k * HOUR
    else if k < 48 then (29 + 6 * (k - 24)) * HOUR
    else if k < 71 then (191 + 24 * (k - 48)) * HOUR
    else (887 + 168 * (k - 71)) * HOUR
  }

  lemma NextNotBefore(k: nat, age: int, before: int)
    requires k < MAX_SYNCS && before >= EarliestAge(k)
    requires Interval(age).Some? && age - before >= Interval(age).value
    ensures k + 1 < MAX_SYNCS && age >= EarliestAge(k + 1)
  {
  }

  /** `n` syncs have been done so far. */
  lemma {:induction false} BoundFrom(published: Instant, last: Option<Instant>, n: nat, events: seq<Event>)
    requires Credible(published, events) && n <= MAX_SYNCS
    requires n > 0 ==> last.Some? && last.value >= published + EarliestAge(n - 1)
    ensures n + SyncCount(published, last, events) <= MAX_SYNCS
    decreases |events|
  {
    if events != [] {
      var e := events[0];
      var after := LastAfter(published, last, e);
      var m := n;
      if Syncs(published, last, e) {
        if n > 0 {
          NextNotBefore(n - 1, e.now - published, last.value - published);
        }
        m := n + 1;
      }
      BoundFrom(published, after, m, events[1..]);
    }
  }

  /** Whatever the tick times and however many backfills intervene, the loop
      performs at most 79 snapshot-writing syncs of one post over its whole life. */
  lemma LifetimeBound(published: Instant, last: Option<Instant>, events: seq<Event>)
    requires Credible(published, events)
    ensures SyncCount(published, last, events) <= 79
  {
    BoundFrom(published, last, 0, events);
  }

  /** The run that syncs as early as it can, from the k-th sync on. */
  function Eager(published: Instant, k: nat): seq<Event>
    requires k <= MAX_SYNCS
    decreases MAX_SYNCS - k, published
  {
    if k == MAX_SYNCS then []
    else [Tick(published + EarliestAge(k), Some(published + EarliestAge(k)))] + Eager(published, k + 1)
  }

  lemma EagerDue(k: nat)
    requires 0 < k < MAX_SYNCS
    ensures Interval(EarliestAge(k)).Some?
    ensures EarliestAge(k) - EarliestAge(k - 1) >= Interval(EarliestAge(k)).value
  {
  }

  lemma {:induction false} EagerCount(published: Instant, k: nat, last: Option<Instant>)
    requires k <= MAX_SYNCS
    requires if k == 0 then last == None else last == Some(published + EarliestAge(k - 1))
    ensures SyncCount(published, last, Eager(published, k)) == MAX_SYNCS - k
    ensures Credible(published, Eager(published, k))
    decreases MAX_SYNCS - k
  {
    if k < MAX_SYNCS {
      var t := published + EarliestAge(k);
      if k > 0 { EagerDue(k); }
      EagerCount(published, k + 1, Some(t));
      assert Eager(published, k)[0] == Tick(t, Some(t)) && Eager(published, k)[1..] == Eager(published, k + 1);
      hide Eager, EarliestAge;
    }
  }

  /** The bound is attained. */
  lemma BoundIsTight(published: Instant)
    ensures exists events :: Credible(published, events) && SyncCount(published, None, events) == 79
  {
    EagerCount(published, 0, None);
  }
}
