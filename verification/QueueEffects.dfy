/** Side effects of the queue operations that their callers may not expect, each
    with the exact condition on the state before the call
    (apps/calendar/services.py). */
module QueueEffects {
  import opened Common
  import opened PostingSlots
  import opened QueueModel
  import opened LadderLaws
  import opened ReorderLaws

  // ----- which entries a ladder moves -----

  /** The entry goes from its slot to the very next one. */
  ghost predicate ShiftsByOne(s: State, t: State, q: Queue, h: seq<Instant>, p: nat) {
    Slotted(s.rows, q, p) && TimeOf(s, q, p) in h && IndexOf(h, TimeOf(s, q, p)) + 1 < |h|
    && Slotted(t.rows, q, p) && TimeOf(t, q, p) == h[IndexOf(h, TimeOf(s, q, p)) + 1]
  }

  /** The entry's time is among the slots first fetched, and the next slot exists
      and is not held by an immovable post. */
  ghost predicate CanShift(s: State, post: nat, q: Queue, h: seq<Instant>, now: Instant, p: nat) {
    Slotted(s.rows, q, p) && TimeOf(s, q, p) in Take(h, |Movable(s, post, q, now)| + 2) && TimeOf(s, q, p) in h
    && IndexOf(h, TimeOf(s, q, p)) + 1 < |h| && !HeldFast(s, post, q, h, now, h[IndexOf(h, TimeOf(s, q, p)) + 1])
  }

  lemma MoverOrNot(s: State, post: nat, q: Queue, h: seq<Instant>, now: Instant, p: nat)
    requires p in Movable(s, post, q, now)
    ensures Slotted(s.rows, q, p) && p != post && Live(s.rows[Key(p, q.channel)])
    ensures p in Movers(s, post, q, h, now) <==> TimeOf(s, q, p) in Take(h, |Movable(s, post, q, now)| + 2)
  {
    hide Occupied;
  }

  /** Where a successful ladder leaves a movable entry. */
  lemma AfterLadder(s: State, post: nat, q: Queue, h: seq<Instant>, now: Instant, order: seq<nat>, p: nat)
    requires NoDoubleBooking(s.rows, q.channel) && MoverOrder(s, post, q, h, now, order)
    requires h != [] && LadderNeeded(s, post, q, h, now) && Prioritized(s, post, q, h, now, order).1.Done?
    requires p in Movable(s, post, q, now)
    ensures Slotted(s.rows, q, p)
    ensures p in Movers(s, post, q, h, now) ==> Destination(s, post, q, h, now, p) < |h|
    ensures var r := Prioritized(s, post, q, h, now, order).0;
            Slotted(r.rows, q, p)
            && TimeOf(r, q, p)
               == if p in Movers(s, post, q, h, now) then h[Destination(s, post, q, h, now, p)] else TimeOf(s, q, p)
  {
    hide *;
    MoverOrNot(s, post, q, h, now, p);
    if p in Movers(s, post, q, h, now) {
      MoverAfter(s, post, q, h, now, order, p);
    } else {
      OrderFits(s, post, q, h, now, order);
      var plan := PrioritizePlan(s, post, q, h, now, order);
      EntryOnly(s, post, q);
      assert p in plan.Keys <==> p in plan;
      SlotAfter(s, WithEntry(s, post, q), q, plan, p);
    }
  }

  lemma ShiftsIff(s: State, post: nat, q: Queue, h: seq<Instant>, now: Instant, order: seq<nat>, p: nat)
    requires GoodHorizon(h, now) && NoDoubleBooking(s.rows, q.channel) && MoverOrder(s, post, q, h, now, order)
    requires h != [] && LadderNeeded(s, post, q, h, now) && Prioritized(s, post, q, h, now, order).1.Done?
    requires p in Movable(s, post, q, now)
    ensures ShiftsByOne(s, Prioritized(s, post, q, h, now, order).0, q, h, p) <==> CanShift(s, post, q, h, now, p)
  {
    hide Prioritized, Movers, Movable, MoverOrder, LadderNeeded, Destination, HeldFast, NoDoubleBooking, Slotted, TimeOf, Take;
    AfterLadder(s, post, q, h, now, order, p);
    MoverOrNot(s, post, q, h, now, p);
    if p in Movers(s, post, q, h, now) {
      ShiftByOneIff(s, post, q, h, now, p);
    }
  }

  /** Every movable entry of the queue shifts to the very next slot if and only if
      all of them sit among the first few slots fetched and no next slot is missing
      or held by an immovable post. */
  lemma EveryEntryShiftsIff(s: State, post: nat, q: Queue, h: seq<Instant>, now: Instant, order: seq<nat>)
    requires GoodHorizon(h, now) && NoDoubleBooking(s.rows, q.channel) && MoverOrder(s, post, q, h, now, order)
    requires h != [] && LadderNeeded(s, post, q, h, now)
    ensures (forall p | p in Movable(s, post, q, now) :: ShiftsByOne(s, Prioritized(s, post, q, h, now, order).0, q, h, p))
            <==> forall p | p in Movable(s, post, q, now) :: CanShift(s, post, q, h, now, p)
  {
    var r := Prioritized(s, post, q, h, now, order).0;
    if forall p | p in Movable(s, post, q, now) :: CanShift(s, post, q, h, now, p) {
      AllCanShiftFits(s, post, q, h, now, order);
    }
    LadderIs(s, post, q, h, now, order);
    var first :| first in Movable(s, post, q, now) && TimeOf(s, q, first) == h[0];
    hide Prioritized, Movable, MoverOrder, LadderNeeded, CanShift, NoDoubleBooking, Assign, Climbs, WithEntry, LadderPlan;
    if Prioritized(s, post, q, h, now, order).1.Done? {
      hide ShiftsByOne, GoodHorizon, TimeOf;
      forall p | p in Movable(s, post, q, now) ensures ShiftsByOne(s, r, q, h, p) <==> CanShift(s, post, q, h, now, p) {
        ShiftsIff(s, post, q, h, now, order, p);
      }
    } else {
      assert !ShiftsByOne(s, s, q, h, first);
    }
  }

  lemma AllCanShiftFits(s: State, post: nat, q: Queue, h: seq<Instant>, now: Instant, order: seq<nat>)
    requires GoodHorizon(h, now) && NoDoubleBooking(s.rows, q.channel) && MoverOrder(s, post, q, h, now, order)
    requires h != [] && LadderNeeded(s, post, q, h, now)
    requires forall p | p in Movable(s, post, q, now) :: CanShift(s, post, q, h, now, p)
    ensures Prioritized(s, post, q, h, now, order).1.Done?
  {
    CleanLadder(s, post, q, h, now, order);
    LadderIs(s, post, q, h, now, order);
    hide GoodHorizon, NoDoubleBooking, CanShift, Climbs, MoverOrder, LadderNeeded, Prioritized, Destination, Assign, Movable;
    forall p | p in Movers(s, post, q, h, now) ensures Destination(s, post, q, h, now, p) < |h| {
      MoverIsMovable(s, post, q, h, now, p);
      CanShiftFits(s, post, q, h, now, p);
    }
  }

  lemma MoverIsMovable(s: State, post: nat, q: Queue, h: seq<Instant>, now: Instant, p: nat)
    requires p in Movers(s, post, q, h, now)
    ensures p in Movable(s, post, q, now)
  {
  }

  lemma CanShiftFits(s: State, post: nat, q: Queue, h: seq<Instant>, now: Instant, p: nat)
    requires GoodHorizon(h, now) && NoDoubleBooking(s.rows, q.channel)
    requires p in Movers(s, post, q, h, now) && CanShift(s, post, q, h, now, p)
    ensures Destination(s, post, q, h, now, p) < |h|
  {
    hide Destination, HeldFast, Movable, NoDoubleBooking, Movers;
    ShiftByOneIff(s, post, q, h, now, p);
  }

  // ----- mirrors in a second queue -----

  /** The post is also in another queue of the channel. */
  ghost predicate QueuedElsewhere(s: State, q: Queue, p: nat) {
    exists e :: e in s.entries && e.post == p && e.queue != q && e.queue.channel == q.channel
  }

  /** The post's row takes another time than it has. */
  ghost predicate Retimed(s: State, q: Queue, plan: map<nat, Instant>, p: nat) {
    p in plan && Key(p, q.channel) in s.rows && s.rows[Key(p, q.channel)].scheduledAt != Some(plan[p])
  }

  /** `t` is `s`, perhaps with an entry more for a post of the plan. */
  lemma AssignMirrorsElsewhereIff(s: State, t: State, q: Queue, plan: map<nat, Instant>)
    requires AllMirror(s) && t.rows == s.rows
    requires forall e | e in s.entries :: e in t.entries && t.entries[e] == s.entries[e]
    requires forall e | e in t.entries && e !in s.entries :: e.queue == q && e.post in plan
    ensures AllMirror(Assign(t, q, plan)) <==> !exists p :: Retimed(s, q, plan, p) && QueuedElsewhere(s, q, p)
  {
    forall e | e in t.entries ensures Mirrors(t, e) || (e.queue == q && e.post in plan) {
      if e in s.entries { assert Mirrors(s, e); }
    }
    AssignMirrorsIff(t, q, plan);
    hide Assign;
    if e :| StaleElsewhere(t, q, plan, e) {
      assert e in s.entries && Mirrors(s, e);
      assert QueuedElsewhere(s, q, e.post) && Retimed(s, q, plan, e.post);
    }
    if p :| Retimed(s, q, plan, p) && QueuedElsewhere(s, q, p) {
      var e :| e in s.entries && e.post == p && e.queue != q && e.queue.channel == q.channel;
      assert Mirrors(s, e);
      assert StaleElsewhere(t, q, plan, e);
    }
  }

  /** Where an add would put the post, read from the state before the call; none
      when it is history or the queue is full. */
  function AddTarget(s: State, post: nat, q: Queue, h: seq<Instant>, now: Instant): Option<Instant> {
    var own := Key(post, q.channel);
    if own in s.rows && Protected(s.rows[own].status) then None
    else NextAvailable(h, Occupied(s.rows, q.channel, now, own))
  }

  lemma AddWrites(s: State, post: nat, q: Queue, h: seq<Instant>, now: Instant)
    ensures var target := AddTarget(s, post, q, h, now);
            AddNext(s, post, q, h, now).0
            == if target.Some? then Assign(WithEntry(s, post, q), q, map[post := target.value]) else s
  {
  }

  /** The post's own row takes `target`, which is another time than it has. */
  predicate OwnRetimed(s: State, post: nat, q: Queue, target: Option<Instant>) {
    target.Some? && Key(post, q.channel) in s.rows && s.rows[Key(post, q.channel)].scheduledAt != target
  }

  /** After an add every entry of the database mirrors its row if and only if the
      post does not change its time while it sits in a second queue of the channel. */
  lemma AddMirrorsIff(s: State, post: nat, q: Queue, h: seq<Instant>, now: Instant)
    requires AllMirror(s)
    ensures AllMirror(AddNext(s, post, q, h, now).0) <==>
            !(OwnRetimed(s, post, q, AddTarget(s, post, q, h, now)) && QueuedElsewhere(s, q, post))
  {
    var target := AddTarget(s, post, q, h, now);
    AddWrites(s, post, q, h, now);
    EntryOnly(s, post, q);
    hide AddNext, AddTarget, WithEntry, AllMirror, QueuedElsewhere, Assign;
    if target.Some? {
      var plan := map[post := target.value];
      AssignMirrorsElsewhereIff(s, WithEntry(s, post, q), q, plan);
      assert forall p :: Retimed(s, q, plan, p) <==> p == post && OwnRetimed(s, post, q, target);
    }
  }

  /** The same for a prioritization, where the movers always change their times. */
  lemma PrioritizeMirrorsIff(s: State, post: nat, q: Queue, h: seq<Instant>, now: Instant, order: seq<nat>)
    requires AllMirror(s) && GoodHorizon(h, now) && ClimbOrder(s, post, q, h, now, order)
    ensures AllMirror(Prioritized(s, post, q, h, now, order).0) <==>
            !((OwnRetimed(s, post, q, PrioritizeTarget(s, post, q, h, now)) && QueuedElsewhere(s, q, post))
              || (h != [] && LadderNeeded(s, post, q, h, now) && LadderHasRoom(s, post, q, h, now)
                  && exists p :: p in Movers(s, post, q, h, now) && QueuedElsewhere(s, q, p)))
  {
    PrioritizeOutcome(s, post, q, h, now, order);
    TargetIs(s, post, q, h, now);
    EntryOnly(s, post, q);
    assert AllMirror(s);
    hide Prioritized, WithEntry, AllMirror, QueuedElsewhere, Retimed, OwnRetimed, Movers, LadderNeeded, LadderHasRoom, ClimbOrder;
    hide PrioritizeTarget, Assign, GoodHorizon;
    if PrioritizeTarget(s, post, q, h, now).Some? {
      var plan := PrioritizePlan(s, post, q, h, now, order);
      AssignMirrorsElsewhereIff(s, WithEntry(s, post, q), q, plan);
      forall p ensures Retimed(s, q, plan, p) <==>
          (p == post && OwnRetimed(s, post, q, PrioritizeTarget(s, post, q, h, now)))
          || (LadderNeeded(s, post, q, h, now) && p in Movers(s, post, q, h, now))
      {
        RetimedIff(s, post, q, h, now, order, plan, p);
      }
    } else {
      OwnNotRetimed(s, post, q);
    }
  }

  lemma OwnNotRetimed(s: State, post: nat, q: Queue)
    ensures !OwnRetimed(s, post, q, None)
  {
  }

  /** When a ladder is needed, whether there is a target depends on the room alone. */
  lemma TargetIs(s: State, post: nat, q: Queue, h: seq<Instant>, now: Instant)
    ensures h != [] && LadderNeeded(s, post, q, h, now) ==>
              (PrioritizeTarget(s, post, q, h, now).Some? <==> LadderHasRoom(s, post, q, h, now))
  {
    hide LadderNeeded, LadderHasRoom;
  }

  lemma RetimedIff(s: State, post: nat, q: Queue, h: seq<Instant>, now: Instant, order: seq<nat>, plan: map<nat, Instant>, p: nat)
    requires GoodHorizon(h, now) && ClimbOrder(s, post, q, h, now, order) && h != []
    requires post in plan && Some(plan[post]) == PrioritizeTarget(s, post, q, h, now)
    requires LadderNeeded(s, post, q, h, now) ==>
               Climbs(s, post, q, h, now, order).Some? && plan == LadderPlan(h, Climbs(s, post, q, h, now, order).value, post)
    requires plan.Keys == if LadderNeeded(s, post, q, h, now) then Movers(s, post, q, h, now) + {post} else {post}
    ensures Retimed(s, q, plan, p) <==>
            (p == post && OwnRetimed(s, post, q, PrioritizeTarget(s, post, q, h, now)))
            || (LadderNeeded(s, post, q, h, now) && p in Movers(s, post, q, h, now))
  {
    PostIsNoMover(s, post, q, h, now);
    assert p in plan <==> p in plan.Keys;
    if LadderNeeded(s, post, q, h, now) {
      assert MoverOrder(s, post, q, h, now, order);
      hide LadderPlan, LadderNeeded, Climbs, MoverOrder, GoodHorizon, PrioritizeTarget, Movers, Avoid;
      LadderPlanFacts(s, post, q, h, now, order);
    } else {
      hide LadderPlan, LadderNeeded, Climbs, GoodHorizon, PrioritizeTarget, Movers;
    }
  }

  /** The post moved at place `i` changes its time. */
  ghost predicate MovedRetimed(s: State, q: Queue, ids: seq<EntryId>, i: nat)
    requires i < |Moved(s, q, ids)|
  {
    Slotted(s.rows, q, Moved(s, q, ids)[i]) && TimeOf(s, q, Moved(s, q, ids)[i]) != SortedTimes(s, q, ids)[i]
  }

  lemma RetimedAt(s: State, q: Queue, ids: seq<EntryId>, p: nat)
    requires NoRepeats(ids)
    ensures Retimed(s, q, ReorderPlan(s, q, ids), p) <==>
            exists i :: 0 <= i < |Moved(s, q, ids)| && Moved(s, q, ids)[i] == p && MovedRetimed(s, q, ids, i)
  {
    MovedFacts(s, q, ids);
    PairingAt(Moved(s, q, ids), SortedTimes(s, q, ids));
    hide Moved, SortedTimes, Pairing;
    assert p in ReorderPlan(s, q, ids) <==> p in Elems(Moved(s, q, ids));
    if p in Moved(s, q, ids) {
      var i :| 0 <= i < |Moved(s, q, ids)| && Moved(s, q, ids)[i] == p;
      assert ReorderPlan(s, q, ids)[p] == SortedTimes(s, q, ids)[i];
      assert Retimed(s, q, ReorderPlan(s, q, ids), p) <==> MovedRetimed(s, q, ids, i);
    }
  }

  /** After a reorder with distinct ids every entry mirrors its row if and only if no
      moved post that changes its time sits in a second queue of the channel. */
  lemma ReorderMirrorsIff(s: State, q: Queue, ids: seq<EntryId>)
    requires AllMirror(s) && NoRepeats(ids)
    ensures AllMirror(Reordered(s, q, ids)) <==>
            !exists i :: 0 <= i < |Moved(s, q, ids)| && MovedRetimed(s, q, ids, i) && QueuedElsewhere(s, q, Moved(s, q, ids)[i])
  {
    ReorderWrites(s, q, ids);
    var mid := Assign(s, q, ReorderPlan(s, q, ids));
    SameMirrors(mid, Reordered(s, q, ids), q, Named(s, q, ids));
    hide Reordered, Moved, ReorderPlan, Assign, AllMirror, MovedRetimed, QueuedElsewhere, Retimed, NoRepeats;
    AssignMirrorsElsewhereIff(s, s, q, ReorderPlan(s, q, ids));
    forall p ensures Retimed(s, q, ReorderPlan(s, q, ids), p) <==>
        exists i :: 0 <= i < |Moved(s, q, ids)| && Moved(s, q, ids)[i] == p && MovedRetimed(s, q, ids, i)
    {
      RetimedAt(s, q, ids, p);
    }
  }

  lemma SameMirrors(mid: State, t: State, q: Queue, named: seq<nat>)
    requires t.rows == mid.rows && t.entries == Renumbered(mid.entries, q, named)
    ensures AllMirror(t) <==> AllMirror(mid)
  {
    forall e | e in mid.entries ensures Mirrors(t, e) <==> Mirrors(mid, e) {
      RenumberedFrame(mid.entries, q, named, e);
    }
    hide Renumbered;
  }

  // ----- siblings that follow the aggregate -----

  /** A scheduled row falls due earlier than it did, or at all. */
  ghost predicate Hastened(s: State, t: State, k: Key) {
    k in s.rows && k in t.rows && t.rows[k].status == Scheduled && DueAt(t, k).Some?
    && (DueAt(s, k).None? || DueAt(t, k).value < DueAt(s, k).value)
  }

  /** The row follows an aggregate that `at` would lower or set. */
  predicate Exposed(s: State, k: Key, at: Instant) {
    k in s.rows && Follower(s.rows[k]) && k.post in s.posts
    && (s.posts[k.post].scheduledAt.None? || at < s.posts[k.post].scheduledAt.value)
  }

  ghost predicate Lowered(a: Option<Instant>, b: Option<Instant>) {
    b.Some? && (a.None? || b.value < a.value)
  }

  /** Writing times into some rows of a post lowers its aggregate exactly when one of
      the times written is below it. */
  lemma LoweredIff(r1: map<Key, Row>, r2: map<Key, Row>, p: nat, written: set<Key>)
    requires r1.Keys == r2.Keys
    requires forall k | k in written :: k in r2 && k.post == p && r2[k].scheduledAt.Some?
    requires forall k | k in r1 && k.post == p && k !in written :: r2[k].scheduledAt == r1[k].scheduledAt
    ensures Lowered(Aggregate(r1, p), Aggregate(r2, p)) <==>
            exists k :: k in written && Lowered(Aggregate(r1, p), r2[k].scheduledAt)
  {
    forall k | k in written ensures Aggregate(r2, p).Some? && Aggregate(r2, p).value <= r2[k].scheduledAt.value {
      TimedChild(r2, k);
    }
    if Lowered(Aggregate(r1, p), Aggregate(r2, p)) {
      var k := LeastChild(r2, p);
      if k !in written {
        TimedChild(r1, k);
      }
    }
  }

  lemma LeastChild(rows: map<Key, Row>, p: nat) returns (k: Key)
    requires Aggregate(rows, p).Some?
    ensures k in rows && k.post == p && rows[k].scheduledAt == Aggregate(rows, p)
  {
    k :| k in rows && k.post == p && rows[k].scheduledAt.Some? && rows[k].scheduledAt.value == Aggregate(rows, p).value;
  }

  /** `t` writes times into the rows `written` and resyncs the posts it wrote to. */
  ghost predicate WritesTimes(s: State, t: State, written: set<Key>) {
    t.rows.Keys == s.rows.Keys && written <= s.rows.Keys
    && (forall k | k in written :: t.rows[k].scheduledAt.Some?)
    && (forall k | k in s.rows && k !in written :: t.rows[k] == s.rows[k])
    && (forall p | p in s.posts :: p in t.posts)
    && (forall p | p in s.posts && !(exists k :: k in written && k.post == p) :: t.posts[p].scheduledAt == s.posts[p].scheduledAt)
    && (forall p | p in s.posts && (exists k :: k in written && k.post == p) :: t.posts[p].scheduledAt == Aggregate(t.rows, p))
  }

  /** A row that keeps its contents is hastened exactly when it follows an aggregate
      that was lowered. */
  lemma HastenedIff(s: State, t: State, x: Key)
    requires x in s.rows && x in t.rows && t.rows[x] == s.rows[x] && s.posts.Keys == t.posts.Keys
    ensures Hastened(s, t, x) <==>
            Follower(s.rows[x]) && x.post in s.posts && Lowered(s.posts[x.post].scheduledAt, t.posts[x.post].scheduledAt)
  {
  }

  lemma WrittenLowered(s: State, t: State, written: set<Key>, p: nat)
    requires AggregatesRight(s) && WritesTimes(s, t, written) && p in s.posts && p in t.posts
    ensures Lowered(s.posts[p].scheduledAt, t.posts[p].scheduledAt) <==>
            exists k :: k in written && k.post == p && k in t.rows && Lowered(s.posts[p].scheduledAt, t.rows[k].scheduledAt)
  {
    assert AggregateRight(s, p);
    var mine := set k | k in written && k.post == p;
    assert forall k | k in written && k.post == p :: k in mine;
    if exists m :: m in written && m.post == p {
      LoweredIff(s.rows, t.rows, p, mine);
    }
    hide Aggregate, Lowered;
  }

  /** A row that is not itself written is hastened exactly when it follows the
      aggregate of a post with a written row whose new time is below that aggregate. */
  lemma WritesHastenIff(s: State, t: State, written: set<Key>, x: Key)
    requires AggregatesRight(s) && WritesTimes(s, t, written) && x in s.rows && x !in written
    requires s.posts.Keys == t.posts.Keys
    ensures Hastened(s, t, x) <==> exists k :: k in written && k.post == x.post && Exposed(s, x, t.rows[k].scheduledAt.value)
  {
    HastenedIff(s, t, x);
    hide Hastened, AggregatesRight;
    if x.post in s.posts {
      WrittenLowered(s, t, written, x.post);
    }
  }

  /** The rows that a plan writes. */
  ghost function PlanKeysOf(s: State, q: Queue, plan: map<nat, Instant>): set<Key> {
    set p | p in plan && Key(p, q.channel) in s.rows :: Key(p, q.channel)
  }

  lemma PlanKeyIn(s: State, q: Queue, plan: map<nat, Instant>, k: Key)
    ensures k in PlanKeysOf(s, q, plan) <==> k in s.rows && k.channel == q.channel && k.post in plan
  {
    assert k == Key(k.post, k.channel);
  }

  lemma AssignedPost(t: State, q: Queue, plan: map<nat, Instant>, p: nat)
    requires p in t.posts
    ensures p in Assign(t, q, plan).posts
    ensures Assign(t, q, plan).posts[p].scheduledAt
            == if p in plan && Key(p, q.channel) in t.rows then Aggregate(Assign(t, q, plan).rows, p) else t.posts[p].scheduledAt
  {
  }

  lemma AssignedKeys(t: State, q: Queue, plan: map<nat, Instant>)
    ensures Assign(t, q, plan).posts.Keys == t.posts.Keys && Assign(t, q, plan).rows.Keys == t.rows.Keys
  {
  }

  lemma AssignWritesTimes(s: State, t: State, q: Queue, plan: map<nat, Instant>)
    requires t.rows == s.rows && t.posts == s.posts
    ensures WritesTimes(s, Assign(t, q, plan), PlanKeysOf(s, q, plan))
    ensures Assign(t, q, plan).posts.Keys == s.posts.Keys
    ensures forall p | p in plan && Key(p, q.channel) in s.rows ::
              Key(p, q.channel) in Assign(t, q, plan).rows
              && Assign(t, q, plan).rows[Key(p, q.channel)].scheduledAt == Some(plan[p])
  {
    hide Assign, PlanKeysOf, Aggregate;
    var u := Assign(t, q, plan);
    var written := PlanKeysOf(s, q, plan);
    AssignedKeys(t, q, plan);
    forall k
      ensures k in written <==> k in s.rows && k.channel == q.channel && k.post in plan
    {
      PlanKeyIn(s, q, plan, k);
    }
    forall k | k in s.rows
      ensures k in u.rows
      ensures (k in written ==> u.rows[k].scheduledAt == Some(plan[k.post])) && (k !in written ==> u.rows[k] == s.rows[k])
    {
      AssignedRow(s, t, q, plan, k);
    }
    forall p | p in s.posts
      ensures p in u.posts
      ensures (exists k :: k in written && k.post == p) ==> u.posts[p].scheduledAt == Aggregate(u.rows, p)
      ensures !(exists k :: k in written && k.post == p) ==> u.posts[p].scheduledAt == s.posts[p].scheduledAt
    {
      AssignedPost(t, q, plan, p);
      if p in plan && Key(p, q.channel) in s.rows { assert Key(p, q.channel) in written; }
    }
  }

  /** Writing slots hastens a row that is not itself written exactly when it follows
      the aggregate of a written post whose new time is earlier than that aggregate. */
  lemma AssignHastensIff(s: State, t: State, q: Queue, plan: map<nat, Instant>, k: Key)
    requires t.rows == s.rows && t.posts == s.posts
    requires AggregatesRight(s) && k in s.rows && !(k.channel == q.channel && k.post in plan)
    ensures Hastened(s, Assign(t, q, plan), k) <==>
            k.post in plan && Key(k.post, q.channel) in s.rows && Exposed(s, k, plan[k.post])
  {
    AssignWritesTimes(s, t, q, plan);
    var written := PlanKeysOf(s, q, plan);
    assert k !in written;
    hide Assign, WritesTimes, Hastened, AggregatesRight, Exposed;
    WritesHastenIff(s, Assign(t, q, plan), written, k);
    if k.post in plan && Key(k.post, q.channel) in s.rows {
      assert Key(k.post, q.channel) in written;
    }
  }

  /** An add makes a sibling fire earlier exactly when the sibling is scheduled
      without a time of its own and the slot given is earlier than the post's
      aggregate, or the post had none. */
  lemma AddHastensIff(s: State, post: nat, q: Queue, h: seq<Instant>, now: Instant, k: Key)
    requires AggregatesRight(s) && k in s.rows && k != Key(post, q.channel)
    ensures var target := AddTarget(s, post, q, h, now);
            Hastened(s, AddNext(s, post, q, h, now).0, k) <==>
            target.Some? && k.post == post && Key(post, q.channel) in s.rows && Exposed(s, k, target.value)
  {
    var target := AddTarget(s, post, q, h, now);
    AddWrites(s, post, q, h, now);
    EntryOnly(s, post, q);
    assert k == Key(k.post, k.channel);
    assert !Hastened(s, s, k);
    hide AddNext, AddTarget, WithEntry, Assign, Hastened, AggregatesRight, Exposed;
    if target.Some? {
      AssignHastensIff(s, WithEntry(s, post, q), q, map[post := target.value], k);
    }
  }

  /** A prioritization hastens exactly the same siblings: those of the post itself.
      The movers only go later, and so do the aggregates of their posts. */
  lemma PrioritizeHastensIff(s: State, post: nat, q: Queue, h: seq<Instant>, now: Instant, order: seq<nat>, k: Key)
    requires AggregatesRight(s) && GoodHorizon(h, now) && ClimbOrder(s, post, q, h, now, order)
    requires k in s.rows && k != Key(post, q.channel)
    ensures var target := PrioritizeTarget(s, post, q, h, now);
            Hastened(s, Prioritized(s, post, q, h, now, order).0, k) <==>
            target.Some? && k.post == post && Key(post, q.channel) in s.rows && Exposed(s, k, target.value)
  {
    PrioritizeOutcome(s, post, q, h, now, order);
    EntryOnly(s, post, q);
    assert k == Key(k.post, k.channel);
    assert !Hastened(s, s, k);
    hide Prioritized, PrioritizeTarget, ClimbOrder, LadderNeeded, LadderPlan, WithEntry, Assign, Hastened, Movers, GoodHorizon;
    hide AggregatesRight, Exposed;
    if PrioritizeTarget(s, post, q, h, now).Some? {
      var plan := PrioritizePlan(s, post, q, h, now, order);
      assert k.post in plan <==> k.post in plan.Keys;
      if k.post in plan && k.post != post {
        MoverNotHastened(s, post, q, h, now, order, plan, k);
      } else {
        AssignHastensIff(s, WithEntry(s, post, q), q, plan, k);
      }
    }
  }

  lemma MoverNotHastened(s: State, post: nat, q: Queue, h: seq<Instant>, now: Instant, order: seq<nat>,
                         plan: map<nat, Instant>, k: Key)
    requires AggregatesRight(s) && GoodHorizon(h, now) && ClimbOrder(s, post, q, h, now, order)
    requires k in s.rows && k.post in plan && k.post != post && h != [] && LadderNeeded(s, post, q, h, now)
    requires Climbs(s, post, q, h, now, order).Some? && plan == LadderPlan(h, Climbs(s, post, q, h, now, order).value, post)
    ensures !Hastened(s, Assign(WithEntry(s, post, q), q, plan), k)
  {
    assert MoverOrder(s, post, q, h, now, order);
    EntryOnly(s, post, q);
    hide LadderPlan, LadderNeeded, Climbs, MoverOrder, GoodHorizon, Movers, Avoid, WithEntry, AggregatesRight, Hastened, Assign;
    LadderPlanFacts(s, post, q, h, now, order);
    LaterNotHastened(s, WithEntry(s, post, q), q, plan, k);
  }

  /** A written post whose time only goes later hastens no row of the post. */
  lemma LaterNotHastened(s: State, t: State, q: Queue, plan: map<nat, Instant>, k: Key)
    requires t.rows == s.rows && t.posts == s.posts
    requires AggregatesRight(s) && k in s.rows && k.post in plan
    requires Slotted(s.rows, q, k.post) && plan[k.post] >= TimeOf(s, q, k.post)
    ensures !Hastened(s, Assign(t, q, plan), k)
  {
    var p := k.post;
    if k.channel == q.channel {
      AssignedRow(s, t, q, plan, k);
      assert k == Key(p, q.channel);
    } else {
      TimedChild(s.rows, Key(p, q.channel));
      if p in s.posts {
        assert AggregateRight(s, p);
      }
      hide Assign, Aggregate, Hastened;
      AssignHastensIff(s, t, q, plan, k);
    }
  }

  /** A reorder hastens a row that it does not move exactly when the row follows the
      aggregate of a moved post whose new time is earlier than that aggregate. */
  lemma ReorderHastensIff(s: State, q: Queue, ids: seq<EntryId>, k: Key)
    requires AggregatesRight(s) && NoRepeats(ids) && k in s.rows && !(k.channel == q.channel && k.post in Moved(s, q, ids))
    ensures Hastened(s, Reordered(s, q, ids), k) <==>
            exists i :: 0 <= i < |Moved(s, q, ids)| && Moved(s, q, ids)[i] == k.post && Exposed(s, k, SortedTimes(s, q, ids)[i])
  {
    ReorderWrites(s, q, ids);
    ReorderPlanAt(s, q, ids, k.post);
    SameHaste(s, Assign(s, q, ReorderPlan(s, q, ids)), Reordered(s, q, ids), k);
    hide Reordered, Moved, SortedTimes, ReorderPlan, Assign, Exposed, Hastened, AggregatesRight, NoRepeats;
    AssignHastensIff(s, s, q, ReorderPlan(s, q, ids), k);
  }

  /** What a reorder writes for a post. */
  lemma ReorderPlanAt(s: State, q: Queue, ids: seq<EntryId>, p: nat)
    requires NoRepeats(ids)
    ensures p in ReorderPlan(s, q, ids) <==> p in Moved(s, q, ids)
    ensures p in Moved(s, q, ids) ==> Key(p, q.channel) in s.rows
    ensures forall i | 0 <= i < |Moved(s, q, ids)| && Moved(s, q, ids)[i] == p ::
              p in ReorderPlan(s, q, ids) && ReorderPlan(s, q, ids)[p] == SortedTimes(s, q, ids)[i]
  {
    MovedFacts(s, q, ids);
    PairingAt(Moved(s, q, ids), SortedTimes(s, q, ids));
    hide Moved, SortedTimes, Pairing;
    assert p in ReorderPlan(s, q, ids) <==> p in Elems(Moved(s, q, ids));
  }

  lemma SameHaste(s: State, t: State, u: State, k: Key)
    requires t.rows == u.rows && t.posts == u.posts
    ensures Hastened(s, t, k) <==> Hastened(s, u, k)
  {
  }
}
