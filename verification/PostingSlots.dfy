/** The upcoming posting slots of a channel, and the search for the first free
    one (apps/calendar/services.py, slot computation and allocation). */
module PostingSlots {
  import opened Common

  /** A weekly posting time: Monday is day 0, the time is the offset into the day. */
  datatype Slot = Slot(dayOfWeek: int, time: int)

  /** A wall-clock reading: a local date, as a proleptic day ordinal, and a time of day. */
  datatype Reading = Reading(date: nat, time: int)

  /** A time zone: the instant a reading is resolved to, the reading of an instant,
      and whether a reading is plain, which is to say that no clock change skips or
      repeats it. A reading that is not plain still resolves to an instant, but it
      compares unequal to that instant expressed in any other zone. */
  datatype Zone = Zone(instant: Reading -> Instant, reading: Instant -> Reading, unambiguous: Reading -> bool) {
    function At(c: Reading): Instant { instant(c) }

    function Read(i: Instant): Reading { reading(i) }

    predicate Plain(c: Reading) { unambiguous(c) }
  }

  datatype AnySchedule = AnySchedule(slots: seq<Slot>, zone: Zone)

  /** No slot falls, on any date, on a reading that a clock change skips or repeats. */
  ghost predicate PlainSlots(sc: AnySchedule) {
    forall date, k | 0 <= k < |sc.slots| :: sc.zone.Plain(Reading(date, sc.slots[k].time))
  }

  /** The schedules of the queue operations. For them a slot equals an occupied time
      exactly when the two are one instant. */
  type Schedule = sc: AnySchedule | PlainSlots(sc)
    witness AnySchedule([], Zone((c: Reading) => 0, (i: Instant) => Reading(0, 0), (c: Reading) => true))

  const HORIZON_DAYS: nat := 60

  /** Day ordinal 1 is a Monday. */
  function Weekday(date: nat): int {
    (date + 6) % 7
  }

  // ----- the walk -----

  /** The readings, of slots from index `k` on, that fall on `date` and resolve to instants later than `after`. */
  function DaySlots(sc: AnySchedule, date: nat, after: Instant, k: nat): seq<Reading>
    requires k <= |sc.slots|
    decreases |sc.slots| - k
  {
    if k == |sc.slots| then []
    else
      var rest := DaySlots(sc, date, after, k + 1);
      var c := Reading(date, sc.slots[k].time);
      if sc.slots[k].dayOfWeek == Weekday(date) && sc.zone.At(c) > after then [c] + rest else rest
  }

  function ReadingsFrom(sc: AnySchedule, first: nat, after: Instant, offset: nat): seq<Reading>
    requires offset <= HORIZON_DAYS
    decreases HORIZON_DAYS - offset, after
  {
    if offset == HORIZON_DAYS then []
    else DaySlots(sc, first + offset, after, 0) + ReadingsFrom(sc, first, after, offset + 1)
  }

  /** Every slot reading after `after` in the sixty-day lookahead, in walking order. */
  function Readings(sc: AnySchedule, after: Instant): seq<Reading> {
    ReadingsFrom(sc, sc.zone.Read(after).date, after, 0)
  }

  function Instants(zone: Zone, cs: seq<Reading>): (r: seq<Instant>)
    ensures |r| == |cs| && forall i | 0 <= i < |cs| :: r[i] == zone.At(cs[i])
  {
    seq(|cs|, i requires 0 <= i < |cs| => zone.At(cs[i]))
  }

  /** The instants of the lookahead. */
  function Horizon(sc: AnySchedule, after: Instant): seq<Instant> {
    Instants(sc.zone, Readings(sc, after))
  }

  /** What the double loop has still to visit at slot `k` of the day at `offset`. */
  ghost function Unvisited(sc: AnySchedule, first: nat, after: Instant, offset: nat, k: nat): seq<Reading>
    requires offset < HORIZON_DAYS && k <= |sc.slots|
  {
    DaySlots(sc, first + offset, after, k) + ReadingsFrom(sc, first, after, offset + 1)
  }

  lemma VisitSlot(sc: AnySchedule, first: nat, after: Instant, offset: nat, k: nat, done: seq<Reading>)
    requires offset < HORIZON_DAYS && k < |sc.slots|
    ensures
      var c := Reading(first + offset, sc.slots[k].time);
      var rest := Unvisited(sc, first, after, offset, k + 1);
      if sc.slots[k].dayOfWeek == Weekday(first + offset) && sc.zone.At(c) > after
      then done + Unvisited(sc, first, after, offset, k) == (done + [c]) + rest
      else Unvisited(sc, first, after, offset, k) == rest
  {
  }

  lemma DayBounds(sc: AnySchedule, first: nat, after: Instant, offset: nat)
    requires offset < HORIZON_DAYS
    ensures ReadingsFrom(sc, first, after, offset) == Unvisited(sc, first, after, offset, 0)
    ensures ReadingsFrom(sc, first, after, offset + 1) == Unvisited(sc, first, after, offset, |sc.slots|)
  {
  }

  lemma PrefixIsTake<T>(whole: seq<T>, done: seq<T>, rest: seq<T>)
    requires whole == done + rest
    ensures Take(whole, |done|) == done
  {
  }

  /** Asking for `count` slots yields the first `count` of the lookahead; asking
      again with a larger count only ever extends the answer. The length test
      runs after each append, so a count of zero still yields one slot. */
  method NextSlotDatetimes(sc: AnySchedule, after: Instant, count: nat) returns (results: seq<Reading>)
    ensures results == Take(Readings(sc, after), if count == 0 then 1 else count)
  {
    results := [];
    var first := sc.zone.Read(after).date;
    ghost var whole := Readings(sc, after);
    ghost var limit := if count == 0 then 1 else count;
    hide DaySlots;
    for offset := 0 to HORIZON_DAYS
      invariant |results| < limit
      invariant whole == results + ReadingsFrom(sc, first, after, offset)
    {
      DayBounds(sc, first, after, offset);
      var weekday := Weekday(first + offset);
      for k := 0 to |sc.slots|
        invariant |results| < limit
        invariant whole == results + Unvisited(sc, first, after, offset, k)
      {
        VisitSlot(sc, first, after, offset, k, results);
        if sc.slots[k].dayOfWeek != weekday {
          continue;
        }
        var c := Reading(first + offset, sc.slots[k].time);
        if sc.zone.At(c) <= after {
          continue;
        }
        results := results + [c];
        if |results| >= count {
          PrefixIsTake(whole, results, Unvisited(sc, first, after, offset, k + 1));
          return;
        }
      }
    }
  }

  // ----- the search, on readings -----

  /** A candidate is found among the occupied times: only a plain one ever is. */
  predicate Taken(zone: Zone, c: Reading, occupied: set<Instant>) {
    zone.Plain(c) && zone.At(c) in occupied
  }

  /** The instant of the first candidate, in order, that is not taken. */
  function FirstOpenReading(zone: Zone, cs: seq<Reading>, occupied: set<Instant>): Option<Instant> {
    if cs == [] then None
    else if !Taken(zone, cs[0], occupied) then Some(zone.At(cs[0]))
    else FirstOpenReading(zone, cs[1..], occupied)
  }

  /** What the allocator computes: it looks at one candidate more than there are occupied instants. */
  function NextOpenReading(zone: Zone, cs: seq<Reading>, occupied: set<Instant>): Option<Instant> {
    FirstOpenReading(zone, Take(cs, |occupied| + 1), occupied)
  }

  lemma {:induction false} OpenTaken(zone: Zone, cs: seq<Reading>, occupied: set<Instant>)
    ensures FirstOpenReading(zone, cs, occupied).None? <==> forall c | c in cs :: Taken(zone, c, occupied)
    ensures FirstOpenReading(zone, cs, occupied).Some? ==>
              exists i :: 0 <= i < |cs| && FirstOpenReading(zone, cs, occupied) == Some(zone.At(cs[i]))
                          && !Taken(zone, cs[i], occupied) && forall j | 0 <= j < i :: Taken(zone, cs[j], occupied)
  {
    if cs != [] {
      OpenTaken(zone, cs[1..], occupied);
      assert cs == [cs[0]] + cs[1..];
      hide Taken;
      if Taken(zone, cs[0], occupied) {
        var r := FirstOpenReading(zone, cs[1..], occupied);
        if r.Some? {
          var i :| 0 <= i < |cs[1..]| && r == Some(zone.At(cs[1..][i])) && !Taken(zone, cs[1..][i], occupied)
                   && forall j | 0 <= j < i :: Taken(zone, cs[1..][j], occupied);
          forall j | 0 <= j < i + 1 ensures Taken(zone, cs[j], occupied) {
            if j > 0 { assert cs[j] == cs[1..][j - 1]; }
          }
          assert cs[i + 1] == cs[1..][i];
        }
      }
    }
  }

  /** The candidate is plain and its instant occupied. */
  ghost predicate Found(zone: Zone, c: Reading, occupied: set<Instant>) {
    zone.unambiguous(c) && zone.instant(c) in occupied
  }

  /** The search finds nothing when every candidate is a plain occupied one, and otherwise the first that is not. */
  lemma OpenSplit(zone: Zone, cs: seq<Reading>, occupied: set<Instant>)
    ensures FirstOpenReading(zone, cs, occupied).None? <==> forall c | c in cs :: Found(zone, c, occupied)
    ensures FirstOpenReading(zone, cs, occupied).Some? ==>
              exists i :: 0 <= i < |cs| && FirstOpenReading(zone, cs, occupied) == Some(zone.instant(cs[i]))
                          && !Found(zone, cs[i], occupied) && forall j | 0 <= j < i :: Found(zone, cs[j], occupied)
  {
    OpenTaken(zone, cs, occupied);
    forall c | c in cs ensures Found(zone, c, occupied) <==> Taken(zone, c, occupied) {
    }
    hide FirstOpenReading, Found, Taken;
    if r :| FirstOpenReading(zone, cs, occupied) == Some(r) {
      var i :| 0 <= i < |cs| && FirstOpenReading(zone, cs, occupied) == Some(zone.At(cs[i]))
               && !Taken(zone, cs[i], occupied) && forall j | 0 <= j < i :: Taken(zone, cs[j], occupied);
      assert !Found(zone, cs[i], occupied) && zone.At(cs[i]) == zone.instant(cs[i]);
    }
  }

  /** What is found in a prefix is what is found in the whole. */
  lemma {:induction false} OpenPrefix(zone: Zone, cs: seq<Reading>, n: nat, occupied: set<Instant>)
    ensures FirstOpenReading(zone, Take(cs, n), occupied).Some? ==>
              FirstOpenReading(zone, cs, occupied) == FirstOpenReading(zone, Take(cs, n), occupied)
  {
    if 0 < n < |cs| && Taken(zone, cs[0], occupied) {
      OpenPrefix(zone, cs[1..], n - 1, occupied);
      assert Take(cs, n)[1..] == Take(cs[1..], n - 1);
    }
  }

  ghost predicate AllPlain(zone: Zone, cs: seq<Reading>) {
    forall i | 0 <= i < |cs| :: zone.Plain(cs[i])
  }

  /** After the first two plain candidates that share an instant, with only plain
      ones up to there, nothing new appears. */
  ghost predicate NothingNewAfterRepeat(zone: Zone, cs: seq<Reading>) {
    forall i, j, k :: 0 <= i < j < k < |cs| && zone.At(cs[i]) == zone.At(cs[j]) && AllPlain(zone, cs[..j + 1])
                      ==> zone.Plain(cs[k]) && zone.At(cs[k]) in Instants(zone, cs[..j + 1])
  }

  /** If more candidates than there are occupied instants are all taken, so is the whole lookahead. */
  lemma PrefixFullMeansFull(zone: Zone, cs: seq<Reading>, occupied: set<Instant>, n: nat)
    requires NothingNewAfterRepeat(zone, cs)
    requires |occupied| < n <= |cs|
    requires forall c | c in cs[..n] :: Taken(zone, c, occupied)
    ensures forall c | c in cs :: Taken(zone, c, occupied)
  {
    var h := Instants(zone, cs[..n]);
    forall i | 0 <= i < n ensures Taken(zone, cs[i], occupied) && h[i] in occupied && h[i] == zone.At(cs[i]) {
      assert cs[..n][i] in cs[..n];
    }
    RepeatExists(h, occupied);
    var i, j :| 0 <= i < j < |h| && h[i] == h[j];
    forall k | 0 <= k < |cs| ensures Taken(zone, cs[k], occupied) {
      if k > j {
        assert zone.At(cs[k]) in Instants(zone, cs[..j + 1]);
        var m :| 0 <= m < j + 1 && Instants(zone, cs[..j + 1])[m] == zone.At(cs[k]);
        assert h[m] == zone.At(cs[k]);
      }
    }
  }

  lemma CompleteUnless(zone: Zone, cs: seq<Reading>, occupied: set<Instant>)
    requires NothingNewAfterRepeat(zone, cs)
    ensures NextOpenReading(zone, cs, occupied) == FirstOpenReading(zone, cs, occupied)
  {
    var n := |occupied| + 1;
    OpenPrefix(zone, cs, n, occupied);
    OpenTaken(zone, Take(cs, n), occupied);
    if NextOpenReading(zone, cs, occupied).None? && n < |cs| {
      PrefixFullMeansFull(zone, cs, occupied, n);
      OpenTaken(zone, cs, occupied);
    }
  }

  /** A repeat followed by something new defeats the bounded search. */
  lemma RepeatDefeats(zone: Zone, cs: seq<Reading>, i: nat, j: nat, k: nat)
    requires i < j < k < |cs| && zone.At(cs[i]) == zone.At(cs[j]) && AllPlain(zone, cs[..j + 1])
    requires !(zone.Plain(cs[k]) && zone.At(cs[k]) in Instants(zone, cs[..j + 1]))
    ensures exists occupied: set<Instant> :: NextOpenReading(zone, cs, occupied) != FirstOpenReading(zone, cs, occupied)
  {
    var h := Instants(zone, cs[..j + 1]);
    var occupied := Elems(h);
    ElemsSize(h[..j]);
    assert occupied == Elems(h[..j]) by {
      assert h[..j][i] == h[j];
      assert h == h[..j] + [h[j]];
    }
    var c := Take(cs, |occupied| + 1);
    forall m | 0 <= m < |c| ensures Taken(zone, c[m], occupied) {
      assert c[m] == cs[..j + 1][m] && h[m] in h;
    }
    OpenTaken(zone, c, occupied);
    OpenTaken(zone, cs, occupied);
    assert cs[k] in cs && !Taken(zone, cs[k], occupied);
    assert NextOpenReading(zone, cs, occupied) != FirstOpenReading(zone, cs, occupied);
  }

  /** Bounding the search by the number of occupied instants loses no open slot,
      whatever is occupied, exactly when nothing new follows a repeat. */
  lemma CompleteIff(zone: Zone, cs: seq<Reading>)
    ensures (forall occupied: set<Instant> :: NextOpenReading(zone, cs, occupied) == FirstOpenReading(zone, cs, occupied))
            <==> NothingNewAfterRepeat(zone, cs)
  {
    if NothingNewAfterRepeat(zone, cs) {
      forall occupied: set<Instant> ensures NextOpenReading(zone, cs, occupied) == FirstOpenReading(zone, cs, occupied) {
        CompleteUnless(zone, cs, occupied);
      }
    } else {
      var i, j, k :| 0 <= i < j < k < |cs| && zone.At(cs[i]) == zone.At(cs[j]) && AllPlain(zone, cs[..j + 1])
                     && !(zone.Plain(cs[k]) && zone.At(cs[k]) in Instants(zone, cs[..j + 1]));
      RepeatDefeats(zone, cs, i, j, k);
    }
  }

  /** The search never answers with an occupied instant, whatever is occupied,
      exactly when every candidate is plain: a slot that a clock change skips or
      repeats is always judged open, and is then booked twice. */
  lemma SoundIff(zone: Zone, cs: seq<Reading>)
    ensures (forall occupied: set<Instant> :: NextOpenReading(zone, cs, occupied).Some? ==>
               NextOpenReading(zone, cs, occupied).value !in occupied)
            <==> AllPlain(zone, cs)
  {
    if AllPlain(zone, cs) {
      forall occupied: set<Instant> | NextOpenReading(zone, cs, occupied).Some?
        ensures NextOpenReading(zone, cs, occupied).value !in occupied
      {
        OpenTaken(zone, Take(cs, |occupied| + 1), occupied);
      }
    } else {
      var i :| 0 <= i < |cs| && !zone.Plain(cs[i]);
      AmbiguousDefeats(zone, cs, i);
    }
  }

  /** With every instant up to a bound occupied, the first candidate that is not
      plain is answered, although its instant is occupied. */
  lemma AmbiguousDefeats(zone: Zone, cs: seq<Reading>, i: nat)
    requires i < |cs| && !zone.Plain(cs[i])
    ensures exists occupied: set<Instant> :: NextOpenReading(zone, cs, occupied).Some?
              && NextOpenReading(zone, cs, occupied).value in occupied
  {
    var top := Highest(Instants(zone, cs)) + |cs|;
    var occupied := UpTo(top + 1);
    var n := |occupied| + 1;
    assert Take(cs, n) == cs;
    OpenTaken(zone, cs, occupied);
    assert cs[i] in cs && !Taken(zone, cs[i], occupied);
    assert NextOpenReading(zone, cs, occupied).Some?;
    var m :| 0 <= m < |cs| && NextOpenReading(zone, cs, occupied) == Some(zone.At(cs[m]));
    assert Instants(zone, cs)[m] <= top;
  }

  function Highest(s: seq<Instant>): (m: Instant)
    ensures forall i | 0 <= i < |s| :: s[i] <= m
  {
    if s == [] then 0
    else
      var m := Highest(s[1..]);
      assert forall i | 0 < i < |s| :: s[i] == s[1..][i - 1];
      if s[0] > m then s[0] else m
  }

  ghost function UpTo(n: nat): (s: set<Instant>)
    ensures |s| == n && forall x: Instant :: x in s <==> x < n
  {
    if n == 0 then {} else UpTo(n - 1) + {n - 1}
  }

  // ----- the search, on instants -----

  /** The first instant of `h`, in order, that is not in `occupied`. */
  function FirstFree(h: seq<Instant>, occupied: set<Instant>): Option<Instant> {
    if h == [] then None
    else if h[0] !in occupied then Some(h[0])
    else FirstFree(h[1..], occupied)
  }

  /** The bounded search on instants. */
  function NextAvailable(h: seq<Instant>, occupied: set<Instant>): Option<Instant> {
    FirstFree(Take(h, |occupied| + 1), occupied)
  }

  lemma {:induction false} FirstFreeSplit(h: seq<Instant>, occupied: set<Instant>)
    ensures FirstFree(h, occupied).None? <==> forall x | x in h :: x in occupied
    ensures FirstFree(h, occupied).Some? ==>
              exists i :: 0 <= i < |h| && h[i] == FirstFree(h, occupied).value && h[i] !in occupied
                          && forall j | 0 <= j < i :: h[j] in occupied
  {
    if h != [] {
      FirstFreeSplit(h[1..], occupied);
      if h[0] in occupied {
        var r := FirstFree(h[1..], occupied);
        if r.Some? {
          var i :| 0 <= i < |h[1..]| && h[1..][i] == r.value && h[1..][i] !in occupied
                   && forall j | 0 <= j < i :: h[1..][j] in occupied;
          assert h[i + 1] == r.value;
          assert forall j | 0 <= j < i + 1 :: h[j] in occupied by {
            forall j | 0 <= j < i + 1 ensures h[j] in occupied {
              if j > 0 { assert h[j] == h[1..][j - 1]; }
            }
          }
        } else {
          assert forall x | x in h :: x == h[0] || x in h[1..];
        }
      } else {
        assert h[0] in h;
      }
    }
  }

  /** For plain candidates the search on readings is the search on their instants. */
  lemma {:induction false} PlainSearch(zone: Zone, cs: seq<Reading>, occupied: set<Instant>)
    requires AllPlain(zone, cs)
    ensures FirstOpenReading(zone, cs, occupied) == FirstFree(Instants(zone, cs), occupied)
    ensures NextOpenReading(zone, cs, occupied) == NextAvailable(Instants(zone, cs), occupied)
  {
    PlainFirst(zone, cs, occupied);
    var n := |occupied| + 1;
    PlainFirst(zone, Take(cs, n), occupied);
    assert Instants(zone, Take(cs, n)) == Take(Instants(zone, cs), n);
  }

  lemma {:induction false} PlainFirst(zone: Zone, cs: seq<Reading>, occupied: set<Instant>)
    requires AllPlain(zone, cs)
    ensures FirstOpenReading(zone, cs, occupied) == FirstFree(Instants(zone, cs), occupied)
  {
    if cs != [] {
      PlainFirst(zone, cs[1..], occupied);
      assert Instants(zone, cs)[1..] == Instants(zone, cs[1..]);
    }
  }

  /** A free instant found in a prefix is the one found in the whole. */
  lemma {:induction false} FirstFreePrefix(h: seq<Instant>, n: nat, occupied: set<Instant>)
    ensures FirstFree(Take(h, n), occupied).Some? ==> FirstFree(h, occupied) == FirstFree(Take(h, n), occupied)
  {
    if 0 < n < |h| && h[0] in occupied {
      FirstFreePrefix(h[1..], n - 1, occupied);
      assert Take(h, n)[1..] == Take(h[1..], n - 1);
    }
  }

  /** On distinct instants the bound loses nothing: among one more candidate than
      there are occupied instants, one is free if any is. */
  lemma Complete(h: seq<Instant>, occupied: set<Instant>)
    requires StrictlyIncreasing(h)
    ensures NextAvailable(h, occupied) == FirstFree(h, occupied)
  {
    var n := |occupied| + 1;
    FirstFreePrefix(h, n, occupied);
    FirstFreeSplit(Take(h, n), occupied);
    if NextAvailable(h, occupied).None? && n <= |h| {
      assert forall x | x in h[..n] :: x in occupied;
      Pigeonhole(h[..n], occupied);
    }
  }

  /** On a strictly increasing horizon the answer is the least free instant. */
  lemma FirstFreeIsLeast(h: seq<Instant>, occupied: set<Instant>, x: Instant)
    requires StrictlyIncreasing(h)
    requires x in h && x !in occupied
    ensures FirstFree(h, occupied).Some?
    ensures FirstFree(h, occupied).value in h && FirstFree(h, occupied).value !in occupied
    ensures FirstFree(h, occupied).value <= x
  {
    FirstFreeSplit(h, occupied);
  }

  // ----- what the lookahead contains, and in what order -----

  /** Slot `k`, on the day at `offset` from `first`, is an upcoming slot. */
  ghost predicate Upcoming(sc: AnySchedule, first: nat, after: Instant, offset: nat, k: nat)
    requires k < |sc.slots|
  {
    sc.slots[k].dayOfWeek == Weekday(first + offset) && sc.zone.At(Reading(first + offset, sc.slots[k].time)) > after
  }

  lemma {:induction false} DaySlotsMembers(sc: AnySchedule, first: nat, after: Instant, offset: nat, k: nat, c: Reading)
    requires k <= |sc.slots|
    ensures c in DaySlots(sc, first + offset, after, k) <==>
            exists i :: k <= i < |sc.slots| && Upcoming(sc, first, after, offset, i)
                        && c == Reading(first + offset, sc.slots[i].time)
    decreases |sc.slots| - k
  {
    if k < |sc.slots| {
      DaySlotsMembers(sc, first, after, offset, k + 1, c);
      if Upcoming(sc, first, after, offset, k) && c == Reading(first + offset, sc.slots[k].time) {
        assert c in DaySlots(sc, first + offset, after, k);
      }
    }
  }

  lemma {:induction false} ReadingsFromMembers(sc: AnySchedule, first: nat, after: Instant, o: nat, c: Reading)
    requires o <= HORIZON_DAYS
    ensures c in ReadingsFrom(sc, first, after, o) <==>
            exists offset, i :: o <= offset < HORIZON_DAYS && 0 <= i < |sc.slots|
                                && Upcoming(sc, first, after, offset, i)
                                && c == Reading(first + offset, sc.slots[i].time)
    decreases HORIZON_DAYS - o
  {
    if o < HORIZON_DAYS {
      DaySlotsMembers(sc, first, after, o, 0, c);
      ReadingsFromMembers(sc, first, after, o + 1, c);
    }
  }

  /** The lookahead holds precisely the slot readings that resolve to instants after
      `after`, on the sixty local days starting with the day of `after`. */
  lemma ReadingsMembers(sc: AnySchedule, after: Instant, c: Reading)
    ensures c in Readings(sc, after) <==>
            exists offset, i :: 0 <= offset < HORIZON_DAYS && 0 <= i < |sc.slots|
                                && Upcoming(sc, sc.zone.Read(after).date, after, offset, i)
                                && c == Reading(sc.zone.Read(after).date + offset, sc.slots[i].time)
  {
    ReadingsFromMembers(sc, sc.zone.Read(after).date, after, 0, c);
  }

  /** The reading is one of slot `i`, as the calendar and the clock have it: it lies on
      one of the sixty days from `first` on, on the slot's weekday, with the slot's
      time, and later than `after`. Weekdays count from Monday, and day ordinal 1 is a Monday. */
  ghost predicate FallsDue(sc: AnySchedule, first: nat, after: Instant, i: nat, c: Reading) {
    i < |sc.slots| && c.time == sc.slots[i].time && first <= c.date < first + 60
    && 0 <= sc.slots[i].dayOfWeek <= 6 && c.date % 7 == (sc.slots[i].dayOfWeek + 1) % 7
    && sc.zone.instant(c) > after
  }

  lemma WeekdayCounts(date: nat, day: int)
    ensures Weekday(date) == day <==> 0 <= day <= 6 && date % 7 == (day + 1) % 7
  {
  }

  /** The lookahead holds precisely the readings that fall due. */
  lemma ReadingsFallDue(sc: AnySchedule, after: Instant, c: Reading)
    ensures c in Readings(sc, after) <==> exists i: nat :: FallsDue(sc, sc.zone.reading(after).date, after, i, c)
  {
    var first := sc.zone.Read(after).date;
    ReadingsMembers(sc, after, c);
    hide Readings;
    if c in Readings(sc, after) {
      var offset, i :| 0 <= offset < HORIZON_DAYS && 0 <= i < |sc.slots| && Upcoming(sc, first, after, offset, i)
                       && c == Reading(first + offset, sc.slots[i].time);
      WeekdayCounts(c.date, sc.slots[i].dayOfWeek);
      assert FallsDue(sc, first, after, i, c);
    }
    if i: nat :| FallsDue(sc, first, after, i, c) {
      WeekdayCounts(c.date, sc.slots[i].dayOfWeek);
      assert Upcoming(sc, first, after, c.date - first, i);
    }
  }

  /** The readings of one slot lie whole weeks apart. */
  lemma WholeWeeksApart(sc: AnySchedule, after: Instant, i: nat, a: Reading, b: Reading)
    requires FallsDue(sc, sc.zone.Read(after).date, after, i, a) && FallsDue(sc, sc.zone.Read(after).date, after, i, b)
    ensures a in Readings(sc, after) && b in Readings(sc, after) && (a.date - b.date) % 7 == 0
  {
    ReadingsFallDue(sc, after, a);
    ReadingsFallDue(sc, after, b);
    hide Readings;
  }

  /** The order in which the slots are read: by weekday, then by time, without duplicates. */
  ghost predicate SlotsOrdered(slots: seq<Slot>) {
    forall i, j :: 0 <= i < j < |slots| ==>
      slots[i].dayOfWeek < slots[j].dayOfWeek
      || (slots[i].dayOfWeek == slots[j].dayOfWeek && slots[i].time < slots[j].time)
  }

  predicate Earlier(a: Reading, b: Reading) {
    a.date < b.date || (a.date == b.date && a.time < b.time)
  }

  ghost predicate WallOrdered(cs: seq<Reading>) {
    forall i, j :: 0 <= i < j < |cs| ==> Earlier(cs[i], cs[j])
  }

  lemma {:induction false} DaySlotsOrdered(sc: AnySchedule, first: nat, after: Instant, offset: nat, k: nat)
    requires k <= |sc.slots| && SlotsOrdered(sc.slots)
    ensures WallOrdered(DaySlots(sc, first + offset, after, k))
    decreases |sc.slots| - k
  {
    if k < |sc.slots| {
      DaySlotsOrdered(sc, first, after, offset, k + 1);
      if Upcoming(sc, first, after, offset, k) {
        var rest := DaySlots(sc, first + offset, after, k + 1);
        forall m | 0 <= m < |rest| ensures Earlier(Reading(first + offset, sc.slots[k].time), rest[m]) {
          DaySlotsMembers(sc, first, after, offset, k + 1, rest[m]);
        }
      }
    }
  }

  lemma {:induction false} ReadingsFromOrdered(sc: AnySchedule, first: nat, after: Instant, o: nat)
    requires o <= HORIZON_DAYS && SlotsOrdered(sc.slots)
    ensures WallOrdered(ReadingsFrom(sc, first, after, o))
    decreases HORIZON_DAYS - o
  {
    if o < HORIZON_DAYS {
      DaySlotsOrdered(sc, first, after, o, 0);
      ReadingsFromOrdered(sc, first, after, o + 1);
      DayBeforeRest(sc, first, after, o);
      OrderedConcat(DaySlots(sc, first + o, after, 0), ReadingsFrom(sc, first, after, o + 1));
    }
  }

  ghost predicate AllEarlier(a: seq<Reading>, b: seq<Reading>) {
    forall m, n :: 0 <= m < |a| && 0 <= n < |b| ==> Earlier(a[m], b[n])
  }

  lemma OrderedConcat(a: seq<Reading>, b: seq<Reading>)
    requires WallOrdered(a) && WallOrdered(b) && AllEarlier(a, b)
    ensures WallOrdered(a + b)
  {
  }

  /** Every slot of a day comes before every slot of the days after it. */
  lemma DayBeforeRest(sc: AnySchedule, first: nat, after: Instant, o: nat)
    requires o < HORIZON_DAYS
    ensures AllEarlier(DaySlots(sc, first + o, after, 0), ReadingsFrom(sc, first, after, o + 1))
  {
    var today := DaySlots(sc, first + o, after, 0);
    var later := ReadingsFrom(sc, first, after, o + 1);
    hide DaySlots;
    hide ReadingsFrom;
    forall m, n | 0 <= m < |today| && 0 <= n < |later| ensures Earlier(today[m], later[n]) {
      DaySlotsMembers(sc, first, after, o, 0, today[m]);
      ReadingsFromMembers(sc, first, after, o + 1, later[n]);
    }
  }

  /** The walk visits the readings in the order of the wall clock, none twice. */
  lemma ReadingsOrdered(sc: AnySchedule, after: Instant)
    requires SlotsOrdered(sc.slots)
    ensures WallOrdered(Readings(sc, after))
  {
    ReadingsFromOrdered(sc, sc.zone.Read(after).date, after, 0);
  }

  /** Plain readings are the readings of their own instants. */
  ghost predicate ReadsBack(zone: Zone) {
    forall c: Reading | zone.Plain(c) :: zone.Read(zone.At(c)) == c
  }

  /** In a zone that reads plain instants back, the bounded search is complete for
      every schedule and every occupancy, clock changes included. */
  lemma AlwaysComplete(sc: AnySchedule, after: Instant, occupied: set<Instant>)
    requires SlotsOrdered(sc.slots) && ReadsBack(sc.zone)
    ensures NextOpenReading(sc.zone, Readings(sc, after), occupied) == FirstOpenReading(sc.zone, Readings(sc, after), occupied)
  {
    var cs := Readings(sc, after);
    ReadingsOrdered(sc, after);
    hide Readings;
    forall i, j | 0 <= i < j < |cs| && AllPlain(sc.zone, cs[..j + 1]) ensures sc.zone.At(cs[i]) != sc.zone.At(cs[j]) {
      assert cs[..j + 1][i] == cs[i] && cs[..j + 1][j] == cs[j];
      assert sc.zone.Read(sc.zone.At(cs[i])) == cs[i] && sc.zone.Read(sc.zone.At(cs[j])) == cs[j];
      assert Earlier(cs[i], cs[j]);
    }
    CompleteUnless(sc.zone, cs, occupied);
  }

  /** Later plain readings are later instants. */
  ghost predicate ClockStrict(zone: Zone) {
    forall a: Reading, b: Reading | Earlier(a, b) && zone.Plain(a) && zone.Plain(b) :: zone.At(a) < zone.At(b)
  }

  lemma ReadingsPlain(sc: Schedule, after: Instant)
    ensures AllPlain(sc.zone, Readings(sc, after))
  {
    var cs := Readings(sc, after);
    forall i | 0 <= i < |cs| ensures sc.zone.Plain(cs[i]) {
      ReadingsMembers(sc, after, cs[i]);
    }
  }

  /** With plain slots and a clock that is strict on them, the horizon is strictly increasing. */
  lemma HorizonIncreasing(sc: Schedule, after: Instant)
    requires SlotsOrdered(sc.slots) && ClockStrict(sc.zone)
    ensures StrictlyIncreasing(Horizon(sc, after))
  {
    ReadingsOrdered(sc, after);
    ReadingsPlain(sc, after);
  }

  lemma HorizonAfter(sc: AnySchedule, after: Instant)
    ensures forall x | x in Horizon(sc, after) :: x > after
  {
    var cs := Readings(sc, after);
    forall x | x in Horizon(sc, after) ensures x > after {
      var i :| 0 <= i < |cs| && Horizon(sc, after)[i] == x;
      ReadingsMembers(sc, after, cs[i]);
    }
  }

  // ----- the methods the queue operations call -----

  /** One allocation, for every schedule. Where the slots are plain it is the search
      on the horizon's instants. */
  method NextAvailableSlot(sc: AnySchedule, occupied: set<Instant>, after: Instant) returns (slot: Option<Instant>)
    ensures slot == NextOpenReading(sc.zone, Readings(sc, after), occupied)
    ensures PlainSlots(sc) ==> slot == NextAvailable(Horizon(sc, after), occupied)
  {
    var candidates := NextSlotDatetimes(sc, after, |occupied| + 1);
    if PlainSlots(sc) {
      ReadingsPlain(sc, after);
      PlainSearch(sc.zone, Readings(sc, after), occupied);
    }
    for i := 0 to |candidates|
      invariant FirstOpenReading(sc.zone, candidates, occupied) == FirstOpenReading(sc.zone, candidates[i..], occupied)
    {
      if !Taken(sc.zone, candidates[i], occupied) {
        return Some(sc.zone.At(candidates[i]));
      }
    }
    return None;
  }

  /** The next slots of a plain schedule, as the instants they stand for. */
  method NextInstants(sc: Schedule, after: Instant, count: nat) returns (results: seq<Instant>)
    ensures results == Take(Horizon(sc, after), if count == 0 then 1 else count)
  {
    var candidates := NextSlotDatetimes(sc, after, count);
    results := Instants(sc.zone, candidates);
  }

  // ----- a slot that a clock change repeats -----

  // Instants are hours here. On date 8, a Monday, the clock goes back at two, so that
  // the hour from one to two comes twice; a reading of it resolves to the first.
  const CHANGE := Reading(8, 1)

  predicate WithinDay(c: Reading) {
    0 <= c.time < 24
  }

  function FallBackInstant(c: Reading): Instant {
    if !WithinDay(c) then 0 else c.date * 24 + c.time + if Earlier(CHANGE, c) then 1 else 0
  }

  function FallBackReading(i: Instant): Reading {
    var hours := if i > 8 * 24 + 1 then i - 1 else i;
    Reading(hours / 24, hours % 24)
  }

  const FALL_BACK := Zone(FallBackInstant, FallBackReading, (c: Reading) => WithinDay(c) && c != CHANGE)

  /** Posts go out on Mondays at one. */
  const MONDAYS := AnySchedule([Slot(0, 1)], FALL_BACK)

  /** It is a zone as the other results want it: only the repeated hour is not plain. */
  lemma FallBackIsAZone()
    ensures ReadsBack(FALL_BACK) && ClockStrict(FALL_BACK)
  {
    forall c: Reading | FALL_BACK.Plain(c) ensures FALL_BACK.Read(FALL_BACK.At(c)) == c {
      assert (c.date * 24 + c.time) / 24 == c.date && (c.date * 24 + c.time) % 24 == c.time;
    }
  }

  lemma MondayAhead(offset: nat, i: nat)
    requires i < |MONDAYS.slots| && Upcoming(MONDAYS, 7, 7 * 24, offset, i)
    ensures i == 0 && offset >= 1
  {
    assert Weekday(7) == 6;
  }

  lemma MondayReading(c: Reading)
    requires c in Readings(MONDAYS, 7 * 24)
    ensures c == CHANGE || Earlier(CHANGE, c)
  {
    ReadingsMembers(MONDAYS, 7 * 24, c);
    assert MONDAYS.zone.Read(7 * 24).date == 7;
    hide Readings, Upcoming, Weekday;
    var offset, i :| 0 <= offset < HORIZON_DAYS && 0 <= i < |MONDAYS.slots| && Upcoming(MONDAYS, 7, 7 * 24, offset, i)
                     && c == Reading(7 + offset, MONDAYS.slots[i].time);
    MondayAhead(offset, i);
  }

  lemma ChangeIsComing()
    ensures CHANGE in Readings(MONDAYS, 7 * 24)
  {
    assert Upcoming(MONDAYS, 7, 7 * 24, 1, 0);
    ReadingsMembers(MONDAYS, 7 * 24, CHANGE);
    hide Readings;
  }

  lemma FirstMonday()
    ensures Readings(MONDAYS, 7 * 24) != [] && Readings(MONDAYS, 7 * 24)[0] == CHANGE
  {
    hide Readings;
    var cs := Readings(MONDAYS, 7 * 24);
    ChangeIsComing();
    ReadingsOrdered(MONDAYS, 7 * 24);
    MondayReading(cs[0]);
  }

  /** The slot is handed out although the one instant occupied is its own. */
  lemma RepeatedHourDoubleBooks()
    ensures ReadsBack(MONDAYS.zone) && ClockStrict(MONDAYS.zone) && SlotsOrdered(MONDAYS.slots)
    ensures NextOpenReading(MONDAYS.zone, Readings(MONDAYS, 7 * 24), {8 * 24 + 1}) == Some(8 * 24 + 1)
  {
    FallBackIsAZone();
    FirstMonday();
    hide Readings, ReadsBack, ClockStrict;
    assert !Taken(MONDAYS.zone, CHANGE, {8 * 24 + 1}) && MONDAYS.zone.At(CHANGE) == 8 * 24 + 1;
  }
}
