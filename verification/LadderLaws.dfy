/** What adding, prioritizing and removing guarantee, proved about the closed
    forms of QueueModel. `h` is the horizon read at `now`. */
module LadderLaws {
  import opened Common
  import opened PostingSlots
  import opened QueueModel
  import opened LadderWalk

  /** A horizon as `HorizonIncreasing` and `HorizonAfter` give it. */
  ghost predicate GoodHorizon(h: seq<Instant>, now: Instant) {
    StrictlyIncreasing(h) && forall x | x in h :: x > now
  }

  // ----- writing slots -----

  /** Writing distinct instants that no unplanned live row holds keeps every channel free of double booking. */
  lemma AssignKeepsDistinct(s: State, q: Queue, plan: map<nat, Instant>, channel: nat)
    requires NoDoubleBooking(s.rows, channel)
    requires forall a, b | a in plan && b in plan && plan[a] == plan[b] :: a == b
    requires forall k, p | k in s.rows && k.channel == q.channel && Live(s.rows[k]) && k.post !in plan && p in plan
               :: s.rows[k].scheduledAt.value != plan[p]
    ensures NoDoubleBooking(Assign(s, q, plan).rows, channel)
  {
  }

  /** Aggregates that were right stay right. */
  lemma AssignKeepsAggregates(s: State, q: Queue, plan: map<nat, Instant>)
    requires AggregatesRight(s)
    ensures AggregatesRight(Assign(s, q, plan))
  {
    var t := Assign(s, q, plan);
    forall p | p in t.posts ensures AggregateRight(t, p) {
      assert AggregateRight(s, p);
      if !(p in plan && Key(p, q.channel) in s.rows) {
        AggregateFrame(s.rows, t.rows, p);
      }
    }
  }

  /** The entry mirrors the time of its post's row on the queue's channel. */
  ghost predicate Mirrors(s: State, e: EntryId) {
    e in s.entries
    && (Key(e.post, e.queue.channel) in s.rows ==> s.entries[e].slot == s.rows[Key(e.post, e.queue.channel)].scheduledAt)
  }

  ghost predicate AllMirror(s: State) {
    forall e | e in s.entries :: Mirrors(s, e)
  }

  /** The post is queued on this channel through another queue as well, under a different time. */
  ghost predicate StaleElsewhere(s: State, q: Queue, plan: map<nat, Instant>, e: EntryId) {
    e in s.entries && e.queue != q && e.queue.channel == q.channel && e.post in plan
    && Key(e.post, q.channel) in s.rows && s.entries[e].slot != Some(plan[e.post])
  }

  /** Every written entry mirrors its row. All entries of the database still
      mirror theirs exactly when no written post sits, under another time, in a
      second queue of the same channel. */
  lemma AssignMirrorsIff(s: State, q: Queue, plan: map<nat, Instant>)
    requires forall e | e in s.entries :: Mirrors(s, e) || (e.queue == q && e.post in plan)
    ensures forall e | e in s.entries && e.queue == q && e.post in plan :: Mirrors(Assign(s, q, plan), e)
    ensures AllMirror(Assign(s, q, plan)) <==> !exists e :: StaleElsewhere(s, q, plan, e)
  {
    var t := Assign(s, q, plan);
    forall e | e in s.entries
      ensures Mirrors(t, e) <==> !StaleElsewhere(s, q, plan, e)
    {
      assert Mirrors(s, e) || (e.queue == q && e.post in plan);
    }
    if AllMirror(t) {
      forall e ensures !StaleElsewhere(s, q, plan, e) {
        if e in s.entries { assert e in t.entries && Mirrors(t, e); }
      }
    }
  }

  // ----- adding -----

  lemma NextAvailableFacts(h: seq<Instant>, occupied: set<Instant>)
    requires NextAvailable(h, occupied).Some?
    ensures NextAvailable(h, occupied).value in h && NextAvailable(h, occupied).value !in occupied
  {
    FirstFreeSplit(Take(h, |occupied| + 1), occupied);
  }

  lemma SingleKeepsDistinct(s: State, post: nat, q: Queue, t: Instant, now: Instant, channel: nat)
    requires NoDoubleBooking(s.rows, channel)
    requires t > now && t !in Occupied(s.rows, q.channel, now, Key(post, q.channel))
    ensures NoDoubleBooking(Assign(WithEntry(s, post, q), q, map[post := t]).rows, channel)
  {
    forall k | k in s.rows && k.channel == q.channel && Live(s.rows[k]) && k.post != post
      ensures s.rows[k].scheduledAt.value != t
    {
      assert k != Key(post, q.channel);
    }
    AssignKeepsDistinct(WithEntry(s, post, q), q, map[post := t], channel);
  }

  lemma AddKeepsDistinct(s: State, post: nat, q: Queue, h: seq<Instant>, now: Instant, channel: nat)
    requires NoDoubleBooking(s.rows, channel) && GoodHorizon(h, now)
    ensures NoDoubleBooking(AddNext(s, post, q, h, now).0.rows, channel)
  {
    var occupied := Occupied(s.rows, q.channel, now, Key(post, q.channel));
    if NextAvailable(h, occupied).Some? {
      NextAvailableFacts(h, occupied);
      SingleKeepsDistinct(s, post, q, NextAvailable(h, occupied).value, now, channel);
    }
  }

  /** A new entry goes behind every entry of its queue, without a slot yet; nobody else moves. */
  lemma EntryGoesLast(s: State, post: nat, q: Queue)
    requires EntryId(q, post) !in s.entries
    ensures var t := WithEntry(s, post, q);
            EntryId(q, post) in t.entries && t.entries[EntryId(q, post)].slot.None?
            && (forall e | e in s.entries && e.queue == q :: s.entries[e].position < t.entries[EntryId(q, post)].position)
            && (forall e | e in s.entries :: e in t.entries && t.entries[e] == s.entries[e])
  {
    forall e | e in s.entries && e.queue == q ensures s.entries[e].position in Positions(s, q) {
    }
  }

  /** A successful add of a post that is not history puts its entry and its row on
      the earliest free slot, and touches no other row or entry. */
  lemma AddEffect(s: State, post: nat, q: Queue, h: seq<Instant>, now: Instant)
    requires GoodHorizon(h, now) && AddNext(s, post, q, h, now).1.Done?
    requires Key(post, q.channel) in s.rows ==> !Protected(s.rows[Key(post, q.channel)].status)
    ensures var r := AddNext(s, post, q, h, now).0;
            var own := Key(post, q.channel);
            var occupied := Occupied(s.rows, q.channel, now, own);
            && EntryId(q, post) in r.entries && r.entries[EntryId(q, post)].slot.Some?
            && var t := r.entries[EntryId(q, post)].slot.value;
            && t in h && t !in occupied && (forall x | x in h && x < t :: x in occupied)
            && (own in s.rows ==> r.rows == s.rows[own := s.rows[own].(scheduledAt := Some(t))])
            && (own !in s.rows ==> r.rows == s.rows)
            && (forall e | e in s.entries && e != EntryId(q, post) :: e in r.entries && r.entries[e] == s.entries[e])
  {
    var own := Key(post, q.channel);
    var occupied := Occupied(s.rows, q.channel, now, own);
    var t := NextAvailable(h, occupied).value;
    NextAvailableFacts(h, occupied);
    forall x | x in h && x < t ensures x in occupied {
      if x !in occupied {
        Complete(h, occupied);
        FirstFreeIsLeast(h, occupied, x);
      }
    }
    hide NextAvailable, Occupied;
    AssignOwn(WithEntry(s, post, q), post, q, t);
  }

  /** Writing a single slot, spelled out. */
  lemma AssignOne(s: State, e: EntryId, t: Instant)
    requires e in s.entries
    ensures var k := Key(e.post, e.queue.channel);
            var rows := if k in s.rows then s.rows[k := s.rows[k].(scheduledAt := Some(t))] else s.rows;
            Assign(s, e.queue, map[e.post := t]) ==
            State(if k in s.rows then Synced(s.posts, rows, e.post) else s.posts, rows,
                  s.entries[e := s.entries[e].(slot := Some(t))])
  {
    var k := Key(e.post, e.queue.channel);
    var rows := if k in s.rows then s.rows[k := s.rows[k].(scheduledAt := Some(t))] else s.rows;
    assert AssignRows(s.rows, e.queue, map[e.post := t]) == rows;
    assert AssignEntries(s.entries, e.queue, map[e.post := t]) == s.entries[e := s.entries[e].(slot := Some(t))];
    assert AssignPosts(s.posts, rows, e.queue, map[e.post := t])
        == if k in s.rows then Synced(s.posts, rows, e.post) else s.posts;
  }

  lemma AssignOwn(s: State, post: nat, q: Queue, t: Instant)
    requires EntryId(q, post) in s.entries
    ensures var r := Assign(s, q, map[post := t]);
            var own := Key(post, q.channel);
            EntryId(q, post) in r.entries && r.entries[EntryId(q, post)].slot == Some(t)
            && (own in s.rows ==> r.rows == s.rows[own := s.rows[own].(scheduledAt := Some(t))])
            && (own !in s.rows ==> r.rows == s.rows)
            && (forall e | e in s.entries && e != EntryId(q, post) :: e in r.entries && r.entries[e] == s.entries[e])
  {
    AssignOne(s, EntryId(q, post), t);
    hide Assign;
  }

  /** Writing a post's own row does not change what is occupied by the others. */
  lemma OccupiedByOthers(s: State, post: nat, q: Queue, t: Instant, now: Instant)
    ensures Occupied(Assign(WithEntry(s, post, q), q, map[post := t]).rows, q.channel, now, Key(post, q.channel))
         == Occupied(s.rows, q.channel, now, Key(post, q.channel))
  {
    var r := Assign(WithEntry(s, post, q), q, map[post := t]).rows;
    forall k | k in s.rows && k != Key(post, q.channel) && k.channel == q.channel ensures r[k] == s.rows[k] {
      assert k.post != post;
    }
  }

  lemma AssignTwice(s: State, q: Queue, plan: map<nat, Instant>)
    ensures Assign(Assign(s, q, plan), q, plan) == Assign(s, q, plan)
  {
    var t := Assign(s, q, plan);
    assert Assign(t, q, plan).rows == t.rows;
    assert Assign(t, q, plan).entries == t.entries;
    assert Assign(t, q, plan).posts == t.posts;
  }

  /** Adding a post again at the same moment changes nothing. */
  lemma AddIdempotent(s: State, post: nat, q: Queue, h: seq<Instant>, now: Instant)
    requires AddNext(s, post, q, h, now).1.Done?
    ensures AddNext(AddNext(s, post, q, h, now).0, post, q, h, now) == AddNext(s, post, q, h, now)
  {
    var own := Key(post, q.channel);
    if !(own in s.rows && Protected(s.rows[own].status)) {
      var t := NextAvailable(h, Occupied(s.rows, q.channel, now, own)).value;
      OccupiedByOthers(s, post, q, t, now);
      AssignTwice(WithEntry(s, post, q), q, map[post := t]);
    }
  }

  /** Adding a post again that already sits on an upcoming slot succeeds without moving
      it later if and only if its slot or an earlier one is not held by another live row. */
  lemma ReaddNeverLaterIff(s: State, post: nat, q: Queue, h: seq<Instant>, now: Instant)
    requires GoodHorizon(h, now)
    requires Key(post, q.channel) in s.rows && Live(s.rows[Key(post, q.channel)]) && TimeOf(s, q, post) in h
    ensures Slotted(AddNext(s, post, q, h, now).0.rows, q, post)
    ensures AddNext(s, post, q, h, now).1.Done? && TimeOf(AddNext(s, post, q, h, now).0, q, post) <= TimeOf(s, q, post)
            <==> exists x :: x in h && x <= TimeOf(s, q, post) && x !in Occupied(s.rows, q.channel, now, Key(post, q.channel))
  {
    var occupied := Occupied(s.rows, q.channel, now, Key(post, q.channel));
    Complete(h, occupied);
    if x :| x in h && x <= TimeOf(s, q, post) && x !in occupied {
      FirstFreeIsLeast(h, occupied, x);
    }
    if AddNext(s, post, q, h, now).1.Done? {
      NextAvailableFacts(h, occupied);
    }
  }

  /** A full queue means that every slot of the horizon is held by another live row. */
  lemma AddFullIff(s: State, post: nat, q: Queue, h: seq<Instant>, now: Instant)
    requires GoodHorizon(h, now)
    requires Key(post, q.channel) in s.rows ==> !Protected(s.rows[Key(post, q.channel)].status)
    ensures AddNext(s, post, q, h, now).1.QueueFull? <==>
            forall x | x in h :: x in Occupied(s.rows, q.channel, now, Key(post, q.channel))
  {
    Complete(h, Occupied(s.rows, q.channel, now, Key(post, q.channel)));
    FirstFreeSplit(h, Occupied(s.rows, q.channel, now, Key(post, q.channel)));
  }

  // ----- the ladder, in every state -----

  /** Every mover gets a later slot that need not be avoided, and no two get the same. */
  ghost predicate GoodClimb(s: State, post: nat, q: Queue, h: seq<Instant>, now: Instant, w: map<nat, nat>) {
    w.Keys == Movers(s, post, q, h, now) && Climbed(h, Avoid(s, post, q, h, now), Indices(h, Held(s, post, q, h, now)), w)
  }

  lemma ClimbFacts(s: State, post: nat, q: Queue, h: seq<Instant>, now: Instant, order: seq<nat>)
    requires MoverOrder(s, post, q, h, now, order) && Climbs(s, post, q, h, now, order).Some?
    ensures GoodClimb(s, post, q, h, now, Climbs(s, post, q, h, now, order).value)
  {
    WalkFacts(h, Avoid(s, post, q, h, now), Indices(h, Held(s, post, q, h, now)), order);
    hide Walk, Avoid, Movers, Climbed;
    OrderIsMovers(s, post, q, h, now, order);
  }

  lemma OrderIsMovers(s: State, post: nat, q: Queue, h: seq<Instant>, now: Instant, order: seq<nat>)
    requires MoverOrder(s, post, q, h, now, order)
    ensures Elems(order) == Movers(s, post, q, h, now) && forall p :: p in order <==> p in Movers(s, post, q, h, now)
  {
    hide Movers, Above;
    assert forall p :: p in order <==> p in Held(s, post, q, h, now);
  }

  predicate QueuedLive(s: State, q: Queue, p: nat) {
    EntryId(q, p) in s.entries && Slotted(s.rows, q, p) && Live(s.rows[Key(p, q.channel)])
  }

  /** Where a mover stands, and that its slot is upcoming and not one to be avoided. */
  lemma MoverFacts(s: State, post: nat, q: Queue, h: seq<Instant>, now: Instant, p: nat)
    requires p in Movers(s, post, q, h, now)
    ensures p != post && QueuedLive(s, q, p) && Slotted(s.rows, q, p)
    ensures TimeOf(s, q, p) in h && TimeOf(s, q, p) > now && TimeOf(s, q, p) !in Avoid(s, post, q, h, now)
    ensures var at := Indices(h, Held(s, post, q, h, now));
            p in at && at[p] < |h| && h[at[p]] == TimeOf(s, q, p) && at[p] == IndexOf(h, TimeOf(s, q, p))
  {
    var window := Take(h, |Movable(s, post, q, now)| + 2);
    assert TimeOf(s, q, p) in window;
  }

  /** Every mover has as many open slots above it as there are movers on its slot or above. */
  ghost predicate LadderHasRoom(s: State, post: nat, q: Queue, h: seq<Instant>, now: Instant) {
    Room(h, Avoid(s, post, q, h, now), Indices(h, Held(s, post, q, h, now)))
  }

  /** The instant a prioritized post would be put on, read from the state before the
      call; none when the call would find the queue full. */
  ghost function PrioritizeTarget(s: State, post: nat, q: Queue, h: seq<Instant>, now: Instant): Option<Instant> {
    var occupied := Occupied(s.rows, q.channel, now, Key(post, q.channel));
    if h == [] then None
    else if LadderNeeded(s, post, q, h, now) then (if LadderHasRoom(s, post, q, h, now) then Some(h[0]) else None)
    else if h[0] in occupied then NextAvailable(h, occupied)
    else Some(h[0])
  }

  /** The ladder succeeds exactly when there is room, in whichever order movers that
      share a slot are taken. */
  lemma ClimbsIff(s: State, post: nat, q: Queue, h: seq<Instant>, now: Instant, order: seq<nat>)
    requires MoverOrder(s, post, q, h, now, order)
    ensures Climbs(s, post, q, h, now, order).Some? <==> LadderHasRoom(s, post, q, h, now)
  {
    var held := Held(s, post, q, h, now);
    WalkFitsIff(h, Avoid(s, post, q, h, now), Indices(h, held), Ranks(s, q, held), order);
    hide Walk, Avoid;
  }

  /** What the operation does when it needs the ladder. */
  lemma LadderIs(s: State, post: nat, q: Queue, h: seq<Instant>, now: Instant, order: seq<nat>)
    requires h != [] && LadderNeeded(s, post, q, h, now)
    ensures var climbs := Climbs(s, post, q, h, now, order);
            Prioritized(s, post, q, h, now, order)
            == if climbs.None? then (s, QueueFull)
               else (Assign(WithEntry(s, post, q), q, LadderPlan(h, climbs.value, post)), Done)
  {
    hide Climbs, LadderNeeded, Assign, WithEntry, LadderPlan;
  }

  /** What it does when it does not. */
  lemma NoLadderIs(s: State, post: nat, q: Queue, h: seq<Instant>, now: Instant, order: seq<nat>)
    requires h == [] || !LadderNeeded(s, post, q, h, now)
    ensures var target := PrioritizeTarget(s, post, q, h, now);
            Prioritized(s, post, q, h, now, order)
            == if target.None? then (s, QueueFull) else (Assign(WithEntry(s, post, q), q, map[post := target.value]), Done)
  {
    hide Climbs, LadderNeeded, Assign, WithEntry, Occupied, NextAvailable, LadderHasRoom;
  }

  lemma NoLadderTarget(s: State, post: nat, q: Queue, h: seq<Instant>, now: Instant)
    requires h != [] && !LadderNeeded(s, post, q, h, now)
    ensures var occupied := Occupied(s.rows, q.channel, now, Key(post, q.channel));
            PrioritizeTarget(s, post, q, h, now) == if h[0] in occupied then NextAvailable(h, occupied) else Some(h[0])
  {
    hide LadderNeeded, LadderHasRoom, Occupied, NextAvailable;
  }

  lemma NoOrderNeeded(s: State, post: nat, q: Queue, h: seq<Instant>, now: Instant, order: seq<nat>)
    requires h == [] || !LadderNeeded(s, post, q, h, now)
    ensures ClimbOrder(s, post, q, h, now, order)
  {
  }

  lemma LadderTarget(s: State, post: nat, q: Queue, h: seq<Instant>, now: Instant)
    requires h != [] && LadderNeeded(s, post, q, h, now)
    ensures PrioritizeTarget(s, post, q, h, now) == if LadderHasRoom(s, post, q, h, now) then Some(h[0]) else None
  {
    hide LadderNeeded, LadderHasRoom;
  }

  lemma PlanKeys(h: seq<Instant>, w: map<nat, nat>, post: nat)
    requires h != [] && forall p | p in w :: w[p] < |h|
    ensures LadderPlan(h, w, post).Keys == w.Keys + {post} && LadderPlan(h, w, post)[post] == h[0]
    ensures forall p | p in w && p != post :: LadderPlan(h, w, post)[p] == h[w[p]]
  {
  }

  /** The outcome is settled by the state before the call, and a full queue changes nothing. */
  lemma PrioritizeOutcome(s: State, post: nat, q: Queue, h: seq<Instant>, now: Instant, order: seq<nat>)
    requires ClimbOrder(s, post, q, h, now, order)
    ensures Prioritized(s, post, q, h, now, order).1.Done? <==> PrioritizeTarget(s, post, q, h, now).Some?
    ensures PrioritizeTarget(s, post, q, h, now).None? ==> Prioritized(s, post, q, h, now, order).0 == s
  {
    assert h != [] && LadderNeeded(s, post, q, h, now) ==> MoverOrder(s, post, q, h, now, order);
    hide *;
    if h != [] && LadderNeeded(s, post, q, h, now) {
      LadderIs(s, post, q, h, now, order);
      LadderTarget(s, post, q, h, now);
      ClimbsIff(s, post, q, h, now, order);
    } else {
      NoLadderIs(s, post, q, h, now, order);
    }
  }

  lemma OrderFits(s: State, post: nat, q: Queue, h: seq<Instant>, now: Instant, order: seq<nat>)
    requires MoverOrder(s, post, q, h, now, order)
    ensures ClimbOrder(s, post, q, h, now, order)
  {
  }

  lemma TargetNeedsSlots(s: State, post: nat, q: Queue, h: seq<Instant>, now: Instant)
    ensures h == [] ==> PrioritizeTarget(s, post, q, h, now).None?
  {
  }

  /** What a successful prioritization wrote: the target for the post, and otherwise
      instants for movers only, which are queued and live. */
  lemma PrioritizePlan(s: State, post: nat, q: Queue, h: seq<Instant>, now: Instant, order: seq<nat>)
    returns (plan: map<nat, Instant>)
    requires ClimbOrder(s, post, q, h, now, order) && Prioritized(s, post, q, h, now, order).1.Done?
    ensures h != [] && Prioritized(s, post, q, h, now, order).0 == Assign(WithEntry(s, post, q), q, plan)
    ensures post in plan && Some(plan[post]) == PrioritizeTarget(s, post, q, h, now)
    ensures LadderNeeded(s, post, q, h, now) ==>
              Climbs(s, post, q, h, now, order).Some? && plan == LadderPlan(h, Climbs(s, post, q, h, now, order).value, post)
    ensures plan.Keys == if LadderNeeded(s, post, q, h, now) then Movers(s, post, q, h, now) + {post} else {post}
    ensures forall p | p in plan && p != post :: QueuedLive(s, q, p)
  {
    assert h != [] && LadderNeeded(s, post, q, h, now) ==> MoverOrder(s, post, q, h, now, order);
    hide *;
    PrioritizeOutcome(s, post, q, h, now, order);
    TargetNeedsSlots(s, post, q, h, now);
    if LadderNeeded(s, post, q, h, now) {
      LadderIs(s, post, q, h, now, order);
      LadderTarget(s, post, q, h, now);
      ClimbKeys(s, post, q, h, now, order);
      plan := LadderPlan(h, Climbs(s, post, q, h, now, order).value, post);
      PlanKeys(h, Climbs(s, post, q, h, now, order).value, post);
      forall p | p in plan && p != post
        ensures QueuedLive(s, q, p)
      {
        assert p in plan.Keys;
        MoverFacts(s, post, q, h, now, p);
      }
    } else {
      NoLadderIs(s, post, q, h, now, order);
      plan := map[post := PrioritizeTarget(s, post, q, h, now).value];
    }
  }

  lemma ClimbKeys(s: State, post: nat, q: Queue, h: seq<Instant>, now: Instant, order: seq<nat>)
    requires MoverOrder(s, post, q, h, now, order) && Climbs(s, post, q, h, now, order).Some?
    ensures Climbs(s, post, q, h, now, order).value.Keys == Movers(s, post, q, h, now)
  {
    ClimbFacts(s, post, q, h, now, order);
    hide Climbs, Movers, Climbed, MoverOrder;
  }

  /** What the ladder hands out: pairwise distinct instants of the horizon, the first
      one to the post, later ones than they had to the movers. */
  ghost predicate GoodPlan(s: State, post: nat, q: Queue, h: seq<Instant>, now: Instant, plan: map<nat, Instant>) {
    h != [] && post !in Movers(s, post, q, h, now) && plan.Keys == Movers(s, post, q, h, now) + {post} && plan[post] == h[0]
    && (forall p | p in plan && p != post ::
          Slotted(s.rows, q, p) && TimeOf(s, q, p) < plan[p] && plan[p] > h[0] && plan[p] in h
          && plan[p] !in Avoid(s, post, q, h, now))
    && (forall a, b | a in plan && b in plan && plan[a] == plan[b] :: a == b)
  }

  lemma MoverClimbs(s: State, post: nat, q: Queue, h: seq<Instant>, now: Instant, w: map<nat, nat>, p: nat)
    requires GoodClimb(s, post, q, h, now, w) && GoodHorizon(h, now) && p in w
    ensures h != [] && p in Movers(s, post, q, h, now) && p != post && Slotted(s.rows, q, p) && 0 < w[p] < |h|
    ensures TimeOf(s, q, p) < h[w[p]] && h[w[p]] > h[0] && h[w[p]] in h && h[w[p]] !in Avoid(s, post, q, h, now)
  {
    hide Movers, Avoid, Held, Indices;
    MoverFacts(s, post, q, h, now, p);
  }

  lemma PostIsNoMover(s: State, post: nat, q: Queue, h: seq<Instant>, now: Instant)
    ensures post !in Movers(s, post, q, h, now)
  {
  }

  lemma ClimbsApart(s: State, post: nat, q: Queue, h: seq<Instant>, now: Instant, w: map<nat, nat>, a: nat, b: nat)
    requires GoodClimb(s, post, q, h, now, w) && GoodHorizon(h, now) && a in w && b in w
    requires w[a] < |h| && w[b] < |h| && h[w[a]] == h[w[b]]
    ensures a == b
  {
    hide Movers, Avoid, Held, Indices;
    assert w[a] == w[b];
  }

  lemma LadderPlanFacts(s: State, post: nat, q: Queue, h: seq<Instant>, now: Instant, order: seq<nat>)
    requires GoodHorizon(h, now) && MoverOrder(s, post, q, h, now, order) && h != [] && Climbs(s, post, q, h, now, order).Some?
    ensures GoodPlan(s, post, q, h, now, LadderPlan(h, Climbs(s, post, q, h, now, order).value, post))
  {
    var w := Climbs(s, post, q, h, now, order).value;
    var plan := LadderPlan(h, w, post);
    hide *;
    ClimbFacts(s, post, q, h, now, order);
    ClimbKeys(s, post, q, h, now, order);
    PostIsNoMover(s, post, q, h, now);
    PlanKeys(h, w, post);
    forall p | p in plan && p != post
      ensures PlanSound(s, post, q, h, now, p, plan[p])
    {
      assert p in plan.Keys;
      MoverClimbs(s, post, q, h, now, w, p);
      PlanSoundIs(s, post, q, h, now, p, plan[p]);
    }
    forall a, b | a in plan && b in plan && plan[a] == plan[b] ensures a == b {
      assert a in plan.Keys && b in plan.Keys;
      if a != post && b != post {
        MoverClimbs(s, post, q, h, now, w, a);
        MoverClimbs(s, post, q, h, now, w, b);
        ClimbsApart(s, post, q, h, now, w, a, b);
      } else if a != post {
        MoverClimbs(s, post, q, h, now, w, a);
      } else if b != post {
        MoverClimbs(s, post, q, h, now, w, b);
      }
    }
    GoodPlanIs(s, post, q, h, now, plan);
  }

  /** A mover's new time, on its own. */
  ghost predicate PlanSound(s: State, post: nat, q: Queue, h: seq<Instant>, now: Instant, p: nat, t: Instant)
    requires h != []
  {
    Slotted(s.rows, q, p) && TimeOf(s, q, p) < t && t > h[0] && t in h && t !in Avoid(s, post, q, h, now)
  }

  lemma PlanSoundIs(s: State, post: nat, q: Queue, h: seq<Instant>, now: Instant, p: nat, t: Instant)
    requires h != [] && Slotted(s.rows, q, p) && TimeOf(s, q, p) < t && t > h[0] && t in h && t !in Avoid(s, post, q, h, now)
    ensures PlanSound(s, post, q, h, now, p, t)
  {
  }

  lemma GoodPlanIs(s: State, post: nat, q: Queue, h: seq<Instant>, now: Instant, plan: map<nat, Instant>)
    requires h != [] && post !in Movers(s, post, q, h, now) && plan.Keys == Movers(s, post, q, h, now) + {post}
    requires post in plan && plan[post] == h[0]
    requires forall p | p in plan && p != post :: PlanSound(s, post, q, h, now, p, plan[p])
    requires forall a, b | a in plan && b in plan && plan[a] == plan[b] :: a == b
    ensures GoodPlan(s, post, q, h, now, plan)
  {
    hide Movers, Avoid, TimeOf;
    forall p | p in plan && p != post
      ensures Slotted(s.rows, q, p) && TimeOf(s, q, p) < plan[p] && plan[p] > h[0] && plan[p] in h
              && plan[p] !in Avoid(s, post, q, h, now)
    {
      assert PlanSound(s, post, q, h, now, p, plan[p]);
    }
  }

  /** When the ladder is needed, the entry on the first slot is one of the movers. */
  lemma FirstIsMover(s: State, post: nat, q: Queue, h: seq<Instant>, now: Instant) returns (first: nat)
    requires h != [] && LadderNeeded(s, post, q, h, now)
    ensures first in Movers(s, post, q, h, now) && TimeOf(s, q, first) == h[0]
  {
    first :| first in Movable(s, post, q, now) && TimeOf(s, q, first) == h[0];
    assert Take(h, |Movable(s, post, q, now)| + 2)[0] == h[0];
  }

  /** The rows after writing slots, spelled out. */
  lemma AssignedRow(s: State, t: State, q: Queue, plan: map<nat, Instant>, k: Key)
    requires t.rows == s.rows && k in s.rows
    ensures k in Assign(t, q, plan).rows
    ensures Assign(t, q, plan).rows[k]
            == if k.channel == q.channel && k.post in plan then s.rows[k].(scheduledAt := Some(plan[k.post])) else s.rows[k]
  {
  }

  lemma EntryOnly(s: State, post: nat, q: Queue)
    ensures var t := WithEntry(s, post, q);
            t.rows == s.rows && t.posts == s.posts
            && (forall e | e in s.entries :: e in t.entries && t.entries[e] == s.entries[e])
            && (forall e | e in t.entries && e !in s.entries :: e == EntryId(q, post))
  {
  }

  /** What a successful ladder leaves: the post on the first slot, every mover later
      than it was, no two of them on one instant, every other row as it was. */
  ghost predicate Laddered(s: State, post: nat, q: Queue, h: seq<Instant>, now: Instant, rows: map<Key, Row>) {
    h != [] && (Key(post, q.channel) in s.rows ==> Slotted(rows, q, post) && rows[Key(post, q.channel)].scheduledAt.value == h[0])
    && (forall p | p in Movers(s, post, q, h, now) ::
          Slotted(s.rows, q, p) && Slotted(rows, q, p) && TimeOf(s, q, p) < rows[Key(p, q.channel)].scheduledAt.value
          && h[0] < rows[Key(p, q.channel)].scheduledAt.value)
    && (forall a, b | a in Movers(s, post, q, h, now) && b in Movers(s, post, q, h, now)
                      && Slotted(rows, q, a) && Slotted(rows, q, b)
                      && rows[Key(a, q.channel)].scheduledAt == rows[Key(b, q.channel)].scheduledAt :: a == b)
    && (forall k | k in s.rows && !(k.channel == q.channel && (k.post == post || k.post in Movers(s, post, q, h, now))) ::
          k in rows && rows[k] == s.rows[k])
  }

  lemma PlanLadders(s: State, post: nat, q: Queue, h: seq<Instant>, now: Instant, plan: map<nat, Instant>)
    requires GoodPlan(s, post, q, h, now, plan)
    ensures Laddered(s, post, q, h, now, Assign(WithEntry(s, post, q), q, plan).rows)
  {
    EntryOnly(s, post, q);
    var r := Assign(WithEntry(s, post, q), q, plan).rows;
    hide Movers, Avoid, WithEntry, Assign;
    forall k | k in s.rows
      ensures k in r
      ensures r[k] == if k.channel == q.channel && k.post in plan
                      then s.rows[k].(scheduledAt := Some(plan[k.post])) else s.rows[k]
    {
      AssignedRow(s, WithEntry(s, post, q), q, plan, k);
    }
    assert forall p :: p in plan <==> p in Movers(s, post, q, h, now) || p == post;
  }

  /** A successful ladder, in whatever state, puts the post on the first slot and
      every mover strictly later than it was, on pairwise distinct instants, and
      leaves every other row of the database as it was. */
  lemma LadderEffect(s: State, post: nat, q: Queue, h: seq<Instant>, now: Instant, order: seq<nat>)
    requires GoodHorizon(h, now) && MoverOrder(s, post, q, h, now, order)
    requires h != [] && LadderNeeded(s, post, q, h, now) && Prioritized(s, post, q, h, now, order).1.Done?
    ensures Laddered(s, post, q, h, now, Prioritized(s, post, q, h, now, order).0.rows)
  {
    hide *;
    OrderFits(s, post, q, h, now, order);
    var plan := PrioritizePlan(s, post, q, h, now, order);
    LadderPlanFacts(s, post, q, h, now, order);
    PlanLadders(s, post, q, h, now, plan);
  }

  /** Prioritizing leaves every history row alone if and only if the post is not
      itself history with another time than the one it would be given: the
      operation has no guard on the post it is given. */
  lemma PrioritizeSparesHistoryIff(s: State, post: nat, q: Queue, h: seq<Instant>, now: Instant, order: seq<nat>)
    requires ClimbOrder(s, post, q, h, now, order)
    ensures var r := Prioritized(s, post, q, h, now, order).0;
            var own := Key(post, q.channel);
            var target := PrioritizeTarget(s, post, q, h, now);
            (forall k | k in s.rows && Protected(s.rows[k].status) :: k in r.rows && r.rows[k] == s.rows[k])
            <==> !(own in s.rows && Protected(s.rows[own].status) && target.Some? && s.rows[own].scheduledAt != target)
  {
    PrioritizeOutcome(s, post, q, h, now, order);
    if PrioritizeTarget(s, post, q, h, now).Some? {
      var plan := PrioritizePlan(s, post, q, h, now, order);
      hide Prioritized, PrioritizeTarget, WithEntry, ClimbOrder;
      AssignSparesIff(s, WithEntry(s, post, q), post, q, plan);
    }
  }

  lemma AssignSparesIff(s: State, t: State, post: nat, q: Queue, plan: map<nat, Instant>)
    requires t == WithEntry(s, post, q) && post in plan
    requires forall p | p in plan && p != post && Key(p, q.channel) in s.rows :: Live(s.rows[Key(p, q.channel)])
    ensures var r := Assign(t, q, plan);
            var own := Key(post, q.channel);
            (forall k | k in s.rows && Protected(s.rows[k].status) :: k in r.rows && r.rows[k] == s.rows[k])
            <==> !(own in s.rows && Protected(s.rows[own].status) && s.rows[own].scheduledAt != Some(plan[post]))
  {
    var r := Assign(t, q, plan);
    assert t.rows == s.rows;
    hide WithEntry;
    forall k | k in s.rows && Protected(s.rows[k].status) && k != Key(post, q.channel)
      ensures k in r.rows && r.rows[k] == s.rows[k]
    {
      assert k == Key(k.post, k.channel);
    }
  }

  /** For a post whose own time lies in the past, as a published one's does, the
      condition is that the post is not history, or finds the queue full. */
  lemma PrioritizeSparesPastIff(s: State, post: nat, q: Queue, h: seq<Instant>, now: Instant, order: seq<nat>)
    requires GoodHorizon(h, now) && ClimbOrder(s, post, q, h, now, order)
    requires var own := Key(post, q.channel);
             own in s.rows && s.rows[own].scheduledAt.Some? ==> s.rows[own].scheduledAt.value <= now
    ensures var r := Prioritized(s, post, q, h, now, order).0;
            var own := Key(post, q.channel);
            (forall k | k in s.rows && Protected(s.rows[k].status) :: k in r.rows && r.rows[k] == s.rows[k])
            <==> !(own in s.rows && Protected(s.rows[own].status)) || PrioritizeTarget(s, post, q, h, now).None?
  {
    PrioritizeSparesHistoryIff(s, post, q, h, now, order);
    if PrioritizeTarget(s, post, q, h, now).Some? {
      TargetUpcoming(s, post, q, h, now);
    }
    hide Prioritized, PrioritizeTarget, ClimbOrder;
  }

  lemma TargetUpcoming(s: State, post: nat, q: Queue, h: seq<Instant>, now: Instant)
    requires GoodHorizon(h, now) && PrioritizeTarget(s, post, q, h, now).Some?
    ensures PrioritizeTarget(s, post, q, h, now).value in h && PrioritizeTarget(s, post, q, h, now).value > now
  {
    var occupied := Occupied(s.rows, q.channel, now, Key(post, q.channel));
    if NextAvailable(h, occupied).Some? {
      NextAvailableFacts(h, occupied);
    }
    assert h[0] in h;
    hide Occupied, LadderNeeded, LadderHasRoom, NextAvailable;
  }

  // ----- the ladder, in a channel without double booking -----

  /** Some immovable live post of the channel, other than the prioritized one, holds `t`. */
  ghost predicate HeldFast(s: State, post: nat, q: Queue, h: seq<Instant>, now: Instant, t: Instant) {
    exists k :: k in s.rows && k.channel == q.channel && k.post != post && Live(s.rows[k])
                && s.rows[k].scheduledAt == Some(t) && t > now && k.post !in Movers(s, post, q, h, now)
  }

  lemma AvoidIsHeldFast(s: State, post: nat, q: Queue, h: seq<Instant>, now: Instant, t: Instant)
    requires NoDoubleBooking(s.rows, q.channel)
    ensures t in Avoid(s, post, q, h, now) <==> HeldFast(s, post, q, h, now, t)
  {
    var movers := Movers(s, post, q, h, now);
    if t in Avoid(s, post, q, h, now) {
      var k :| k in s.rows && k.channel == q.channel && k != Key(post, q.channel) && Live(s.rows[k])
               && s.rows[k].scheduledAt.value > now && s.rows[k].scheduledAt.value == t;
      assert k == Key(k.post, q.channel);
      assert k.post in movers ==> TimeOf(s, q, k.post) == t;
      assert HeldFast(s, post, q, h, now, t);
    }
    if HeldFast(s, post, q, h, now, t) {
      var k :| k in s.rows && k.channel == q.channel && k.post != post && Live(s.rows[k])
               && s.rows[k].scheduledAt == Some(t) && t > now && k.post !in movers;
      assert t in Occupied(s.rows, q.channel, now, Key(post, q.channel));
      forall p | p in movers ensures TimeOf(s, q, p) != t {
        assert Key(p, q.channel) != k;
      }
    }
  }

  /** Where a mover goes: the first slot after its own that no immovable post holds. */
  ghost function Destination(s: State, post: nat, q: Queue, h: seq<Instant>, now: Instant, p: nat): (k: nat)
    requires p in Movers(s, post, q, h, now)
  {
    Rung(h, Avoid(s, post, q, h, now), Indices(h, Held(s, post, q, h, now))[p])
  }

  lemma MoversClean(s: State, post: nat, q: Queue, h: seq<Instant>, now: Instant)
    requires NoDoubleBooking(s.rows, q.channel)
    ensures Clean(h, Avoid(s, post, q, h, now), Indices(h, Held(s, post, q, h, now)))
  {
    var held := Held(s, post, q, h, now);
    var at := Indices(h, held);
    forall p | p in at ensures h[at[p]] !in Avoid(s, post, q, h, now) {
      MoverFacts(s, post, q, h, now, p);
    }
    hide Avoid;
    forall p, r | p in at && r in at && at[p] == at[r] ensures p == r {
      assert held[p] == held[r];
      assert Key(p, q.channel) == Key(r, q.channel);
    }
  }

  lemma ElemsWhole(order: seq<nat>)
    ensures order[..|order|] == order
  {
  }

  /** Every mover has a destination. */
  ghost predicate AllHaveDestinations(s: State, post: nat, q: Queue, h: seq<Instant>, now: Instant) {
    forall p | p in Movers(s, post, q, h, now) :: Destination(s, post, q, h, now, p) < |h|
  }

  lemma RungsAreDestinations(s: State, post: nat, q: Queue, h: seq<Instant>, now: Instant, order: seq<nat>)
    requires MoverOrder(s, post, q, h, now, order)
    ensures HaveRungs(h, Avoid(s, post, q, h, now), Indices(h, Held(s, post, q, h, now)), order, |order|)
            <==> AllHaveDestinations(s, post, q, h, now)
  {
    OrderIsMovers(s, post, q, h, now, order);
    hide Movers, Avoid, Rung, MoverOrder;
    var at := Indices(h, Held(s, post, q, h, now));
    if AllHaveDestinations(s, post, q, h, now) {
      forall i | 0 <= i < |order|
        ensures order[i] in at && at[order[i]] < |h| && Rung(h, Avoid(s, post, q, h, now), at[order[i]]) < |h|
      {
        assert order[i] in order;
        assert Destination(s, post, q, h, now, order[i]) < |h|;
      }
    }
    if HaveRungs(h, Avoid(s, post, q, h, now), at, order, |order|) {
      forall p | p in Movers(s, post, q, h, now) ensures Destination(s, post, q, h, now, p) < |h| {
        assert p in order;
        var i :| 0 <= i < |order| && order[i] == p;
      }
    }
  }

  /** Without double booking the ladder fails exactly when some mover has no
      destination; otherwise each goes to its own, as if alone. */
  lemma CleanLadder(s: State, post: nat, q: Queue, h: seq<Instant>, now: Instant, order: seq<nat>)
    requires NoDoubleBooking(s.rows, q.channel) && MoverOrder(s, post, q, h, now, order)
    ensures Climbs(s, post, q, h, now, order).Some? <==> AllHaveDestinations(s, post, q, h, now)
    ensures Climbs(s, post, q, h, now, order).Some? ==>
              forall p | p in Movers(s, post, q, h, now) ::
                p in Climbs(s, post, q, h, now, order).value
                && Climbs(s, post, q, h, now, order).value[p] == Destination(s, post, q, h, now, p)
  {
    hide Avoid, Movers, Held, Walk, Rung, Clean, HaveRungs, AllHaveDestinations, NoDoubleBooking, Descending;
    MoversClean(s, post, q, h, now);
    RungsAreDestinations(s, post, q, h, now, order);
    var held := Held(s, post, q, h, now);
    CleanWalk(h, Avoid(s, post, q, h, now), Indices(h, held), Ranks(s, q, held), order, |order|);
    ElemsWhole(order);
    if Climbs(s, post, q, h, now, order).Some? {
      ClimbKeys(s, post, q, h, now, order);
    }
  }

  /** The mover's time after a successful ladder. */
  lemma MoverAfter(s: State, post: nat, q: Queue, h: seq<Instant>, now: Instant, order: seq<nat>, p: nat)
    requires NoDoubleBooking(s.rows, q.channel) && MoverOrder(s, post, q, h, now, order)
    requires h != [] && LadderNeeded(s, post, q, h, now) && Prioritized(s, post, q, h, now, order).1.Done?
    requires p in Movers(s, post, q, h, now)
    ensures Slotted(s.rows, q, p) && Destination(s, post, q, h, now, p) < |h|
    ensures var t := Prioritized(s, post, q, h, now, order).0;
            Slotted(t.rows, q, p) && TimeOf(t, q, p) == h[Destination(s, post, q, h, now, p)]
  {
    hide *;
    CleanLadder(s, post, q, h, now, order);
    MoverFacts(s, post, q, h, now, p);
    OrderFits(s, post, q, h, now, order);
    var plan := PrioritizePlan(s, post, q, h, now, order);
    PlanKeys(h, Climbs(s, post, q, h, now, order).value, post);
    EntryOnly(s, post, q);
    SlotAfter(s, WithEntry(s, post, q), q, plan, p);
  }

  lemma SlotAfter(s: State, t: State, q: Queue, plan: map<nat, Instant>, p: nat)
    requires Slotted(s.rows, q, p) && t.rows == s.rows
    ensures Slotted(Assign(t, q, plan).rows, q, p)
    ensures TimeOf(Assign(t, q, plan), q, p) == if p in plan then plan[p] else TimeOf(s, q, p)
  {
  }

  /** Without double booking a mover below another ends no later than the other's old
      slot and strictly before its new one: the movers keep their order. */
  lemma LadderOrder(s: State, post: nat, q: Queue, h: seq<Instant>, now: Instant, order: seq<nat>, low: nat, high: nat)
    requires GoodHorizon(h, now) && NoDoubleBooking(s.rows, q.channel) && MoverOrder(s, post, q, h, now, order)
    requires h != [] && LadderNeeded(s, post, q, h, now) && Prioritized(s, post, q, h, now, order).1.Done?
    requires low in Movers(s, post, q, h, now) && high in Movers(s, post, q, h, now)
    requires TimeOf(s, q, low) < TimeOf(s, q, high)
    ensures var t := Prioritized(s, post, q, h, now, order).0;
            Slotted(t.rows, q, low) && Slotted(t.rows, q, high)
            && TimeOf(s, q, low) < TimeOf(t, q, low) <= TimeOf(s, q, high) && TimeOf(t, q, low) < TimeOf(t, q, high)
  {
    hide Prioritized, Movers, MoverOrder, LadderNeeded, NoDoubleBooking, Destination, GoodHorizon, TimeOf;
    MoverAfter(s, post, q, h, now, order, low);
    MoverAfter(s, post, q, h, now, order, high);
    DestinationOrder(s, post, q, h, now, low, high);
    GoodIsIncreasing(h, now);
  }

  lemma DestinationOrder(s: State, post: nat, q: Queue, h: seq<Instant>, now: Instant, low: nat, high: nat)
    requires GoodHorizon(h, now) && low in Movers(s, post, q, h, now) && high in Movers(s, post, q, h, now)
    requires Slotted(s.rows, q, low) && Slotted(s.rows, q, high) && TimeOf(s, q, low) < TimeOf(s, q, high)
    ensures Destination(s, post, q, h, now, low) < |h|
    ensures TimeOf(s, q, low) < h[Destination(s, post, q, h, now, low)] <= TimeOf(s, q, high)
    ensures Destination(s, post, q, h, now, low) < Destination(s, post, q, h, now, high)
  {
    hide Avoid, Movers, Held, Rung, Indices, TimeOf;
    MoverFacts(s, post, q, h, now, low);
    MoverFacts(s, post, q, h, now, high);
    var at := Indices(h, Held(s, post, q, h, now));
    RungBelow(h, Avoid(s, post, q, h, now), at[low], at[high]);
  }

  lemma GoodIsIncreasing(h: seq<Instant>, now: Instant)
    requires GoodHorizon(h, now)
    ensures StrictlyIncreasing(h)
  {
  }

  /** The last of the movers, the only one that can run off the horizon. */
  ghost predicate Topmost(s: State, post: nat, q: Queue, h: seq<Instant>, now: Instant, top: nat) {
    top in Movers(s, post, q, h, now)
    && forall p | p in Movers(s, post, q, h, now) :: TimeOf(s, q, p) <= TimeOf(s, q, top)
  }

  lemma DestinationExistsIff(s: State, post: nat, q: Queue, h: seq<Instant>, now: Instant, p: nat)
    requires GoodHorizon(h, now) && NoDoubleBooking(s.rows, q.channel) && p in Movers(s, post, q, h, now)
    ensures Destination(s, post, q, h, now, p) < |h| <==>
            exists x :: x in h && x > TimeOf(s, q, p) && !HeldFast(s, post, q, h, now, x)
  {
    hide Avoid, Movers, Held, Indices, HeldFast, TimeOf, NoDoubleBooking;
    MoverFacts(s, post, q, h, now, p);
    var i := Indices(h, Held(s, post, q, h, now))[p];
    OpenAfter(h, Avoid(s, post, q, h, now), i);
    forall x ensures x in Avoid(s, post, q, h, now) <==> HeldFast(s, post, q, h, now, x) {
      AvoidIsHeldFast(s, post, q, h, now, x);
    }
    hide Rung;
    assert forall m | 0 <= m < |h| :: h[m] > h[i] <==> m > i;
  }

  lemma OpenAfter(h: seq<Instant>, avoid: set<Instant>, i: nat)
    requires i < |h| && StrictlyIncreasing(h)
    ensures Rung(h, avoid, i) < |h| <==> exists x :: x in h && x > h[i] && x !in avoid
  {
    var k := Rung(h, avoid, i);
    if k < |h| {
      assert h[k] in h && h[k] > h[i];
    } else {
      forall x | x in h && x > h[i] ensures x in avoid {
        var m :| 0 <= m < |h| && h[m] == x;
        assert i < m;
      }
    }
  }

  /** Without double booking the ladder fails exactly when every slot after the
      topmost mover's is held by an immovable post. */
  lemma LadderFitsIff(s: State, post: nat, q: Queue, h: seq<Instant>, now: Instant, order: seq<nat>, top: nat)
    requires GoodHorizon(h, now) && NoDoubleBooking(s.rows, q.channel) && MoverOrder(s, post, q, h, now, order)
    requires h != [] && LadderNeeded(s, post, q, h, now) && Topmost(s, post, q, h, now, top)
    ensures Prioritized(s, post, q, h, now, order).1.Done? <==>
            exists x :: x in h && x > TimeOf(s, q, top) && !HeldFast(s, post, q, h, now, x)
  {
    hide Prioritized, Climbs, Movers, Destination, HeldFast, NoDoubleBooking, MoverOrder, LadderNeeded;
    hide GoodHorizon, TimeOf, Assign;
    CleanLadder(s, post, q, h, now, order);
    LadderIs(s, post, q, h, now, order);
    DestinationExistsIff(s, post, q, h, now, top);
    forall p | p in Movers(s, post, q, h, now) && Destination(s, post, q, h, now, top) < |h|
      ensures Destination(s, post, q, h, now, p) < |h|
    {
      MoverFacts(s, post, q, h, now, p);
      MoverFacts(s, post, q, h, now, top);
      if TimeOf(s, q, p) < TimeOf(s, q, top) {
        DestinationOrder(s, post, q, h, now, p, top);
      } else {
        SameMover(s, post, q, h, now, p, top);
      }
    }
  }

  lemma SameMover(s: State, post: nat, q: Queue, h: seq<Instant>, now: Instant, a: nat, b: nat)
    requires NoDoubleBooking(s.rows, q.channel) && a in Movers(s, post, q, h, now) && b in Movers(s, post, q, h, now)
    requires TimeOf(s, q, a) == TimeOf(s, q, b)
    ensures a == b
  {
    assert Key(a, q.channel) == Key(b, q.channel);
  }

  /** Without double booking a mover shifts by exactly one slot if and only if no
      immovable post holds the next. */
  lemma ShiftByOneIff(s: State, post: nat, q: Queue, h: seq<Instant>, now: Instant, p: nat)
    requires GoodHorizon(h, now) && NoDoubleBooking(s.rows, q.channel) && p in Movers(s, post, q, h, now)
    ensures TimeOf(s, q, p) in h
    ensures var i := IndexOf(h, TimeOf(s, q, p));
            i + 1 < |h| ==> (Destination(s, post, q, h, now, p) == i + 1 <==> !HeldFast(s, post, q, h, now, h[i + 1]))
  {
    hide Avoid, HeldFast, Movers, Held, Indices, NoDoubleBooking, TimeOf;
    MoverFacts(s, post, q, h, now, p);
    var i := IndexOf(h, TimeOf(s, q, p));
    if i + 1 < |h| {
      AvoidIsHeldFast(s, post, q, h, now, h[i + 1]);
    }
  }

  /** Without double booking nobody outside the ladder holds an instant it hands out. */
  lemma LadderPlanClear(s: State, post: nat, q: Queue, h: seq<Instant>, now: Instant, order: seq<nat>, k: Key, p: nat)
    requires GoodHorizon(h, now) && NoDoubleBooking(s.rows, q.channel) && MoverOrder(s, post, q, h, now, order)
    requires h != [] && LadderNeeded(s, post, q, h, now) && Climbs(s, post, q, h, now, order).Some?
    requires var plan := LadderPlan(h, Climbs(s, post, q, h, now, order).value, post);
             k in s.rows && k.channel == q.channel && Live(s.rows[k]) && k.post !in plan && p in plan
    ensures s.rows[k].scheduledAt.value != LadderPlan(h, Climbs(s, post, q, h, now, order).value, post)[p]
  {
    hide Avoid, Climbs, LadderNeeded, Movers, MoverOrder, LadderPlan, GoodHorizon, NoDoubleBooking, TimeOf, HeldFast;
    var plan := LadderPlan(h, Climbs(s, post, q, h, now, order).value, post);
    LadderPlanFacts(s, post, q, h, now, order);
    PlanUpcoming(s, post, q, h, now, plan, p);
    var first := FirstIsMover(s, post, q, h, now);
    MoverFacts(s, post, q, h, now, first);
    if p == post {
      OtherThan(s, post, q, h, now, k, first);
    } else if s.rows[k].scheduledAt.value > now {
      OutsiderAvoided(s, post, q, h, now, k);
    }
  }

  /** A row outside the ladder does not hold a mover's time. */
  lemma OtherThan(s: State, post: nat, q: Queue, h: seq<Instant>, now: Instant, k: Key, first: nat)
    requires NoDoubleBooking(s.rows, q.channel) && k in s.rows && k.channel == q.channel && Live(s.rows[k])
    requires first in Movers(s, post, q, h, now) && k.post !in Movers(s, post, q, h, now) && QueuedLive(s, q, first)
    ensures s.rows[k].scheduledAt.value != TimeOf(s, q, first)
  {
    assert Key(first, q.channel) != k;
    hide Movers;
  }

  lemma OutsiderAvoided(s: State, post: nat, q: Queue, h: seq<Instant>, now: Instant, k: Key)
    requires NoDoubleBooking(s.rows, q.channel) && k in s.rows && k.channel == q.channel && Live(s.rows[k])
    requires k.post != post && k.post !in Movers(s, post, q, h, now) && s.rows[k].scheduledAt.value > now
    ensures s.rows[k].scheduledAt.value in Avoid(s, post, q, h, now)
  {
    assert HeldFast(s, post, q, h, now, s.rows[k].scheduledAt.value);
    hide Avoid, HeldFast, Movers, NoDoubleBooking;
    AvoidIsHeldFast(s, post, q, h, now, s.rows[k].scheduledAt.value);
  }

  lemma PlanUpcoming(s: State, post: nat, q: Queue, h: seq<Instant>, now: Instant, plan: map<nat, Instant>, p: nat)
    requires GoodHorizon(h, now) && GoodPlan(s, post, q, h, now, plan) && p in plan
    ensures plan[p] > now
  {
    hide Avoid, Movers;
    assert plan[p] in h;
  }

  /** Prioritizing keeps every channel free of double booking, whichever branch it takes. */
  lemma PrioritizeKeepsDistinct(s: State, post: nat, q: Queue, h: seq<Instant>, now: Instant, order: seq<nat>, channel: nat)
    requires GoodHorizon(h, now) && ClimbOrder(s, post, q, h, now, order)
    requires NoDoubleBooking(s.rows, q.channel) && NoDoubleBooking(s.rows, channel)
    ensures NoDoubleBooking(Prioritized(s, post, q, h, now, order).0.rows, channel)
  {
    var occupied := Occupied(s.rows, q.channel, now, Key(post, q.channel));
    if h == [] {
    } else if LadderNeeded(s, post, q, h, now) {
      if Climbs(s, post, q, h, now, order).Some? {
        LadderKeepsDistinct(s, post, q, h, now, order, channel);
      }
    } else if h[0] in occupied {
      if NextAvailable(h, occupied).Some? {
        NextAvailableFacts(h, occupied);
        SingleKeepsDistinct(s, post, q, NextAvailable(h, occupied).value, now, channel);
      }
    } else {
      assert h[0] in h;
      SingleKeepsDistinct(s, post, q, h[0], now, channel);
    }
  }

  lemma LadderKeepsDistinct(s: State, post: nat, q: Queue, h: seq<Instant>, now: Instant, order: seq<nat>, channel: nat)
    requires GoodHorizon(h, now) && MoverOrder(s, post, q, h, now, order)
    requires NoDoubleBooking(s.rows, q.channel) && NoDoubleBooking(s.rows, channel)
    requires h != [] && LadderNeeded(s, post, q, h, now) && Climbs(s, post, q, h, now, order).Some?
    ensures var plan := LadderPlan(h, Climbs(s, post, q, h, now, order).value, post);
            NoDoubleBooking(Assign(WithEntry(s, post, q), q, plan).rows, channel)
  {
    hide LadderPlan, LadderNeeded, Climbs, MoverOrder, GoodHorizon, Movers, Avoid, NoDoubleBooking;
    var plan := LadderPlan(h, Climbs(s, post, q, h, now, order).value, post);
    LadderPlanFacts(s, post, q, h, now, order);
    assert forall a, b | a in plan && b in plan && plan[a] == plan[b] :: a == b;
    EntryOnly(s, post, q);
    forall k, p | k in s.rows && k.channel == q.channel && Live(s.rows[k]) && k.post !in plan && p in plan
      ensures s.rows[k].scheduledAt.value != plan[p]
    {
      LadderPlanClear(s, post, q, h, now, order, k, p);
    }
    AssignKeepsDistinct(WithEntry(s, post, q), q, plan, channel);
  }

  // ----- removing -----

  /** Removing an entry frees the row's time exactly when the row's status has an
      edge to draft; a queued row still in draft or in review keeps its instant,
      and goes on occupying it. */
  lemma RemoveFreesIff(s: State, e: EntryId)
    requires Key(e.post, e.queue.channel) in s.rows && Live(s.rows[Key(e.post, e.queue.channel)])
    ensures var own := Key(e.post, e.queue.channel);
            && Removed(s, e).rows[own].scheduledAt ==
                 (if s.rows[own].status in {Draft, PendingReview, PendingClient} then s.rows[own].scheduledAt else None)
    ensures e !in Removed(s, e).entries
    ensures forall k | k in s.rows && k != Key(e.post, e.queue.channel) :: Removed(s, e).rows[k] == s.rows[k]
  {
  }

  lemma RemoveKeepsDistinct(s: State, e: EntryId, channel: nat)
    requires NoDoubleBooking(s.rows, channel)
    ensures NoDoubleBooking(Removed(s, e).rows, channel)
  {
  }

  lemma RemoveKeepsAggregates(s: State, e: EntryId)
    requires AggregatesRight(s)
    ensures AggregatesRight(Removed(s, e))
  {
    var t := Removed(s, e);
    forall p | p in t.posts ensures AggregateRight(t, p) {
      if p != e.post {
        assert AggregateRight(s, p);
        AggregateFrame(s.rows, t.rows, p);
      }
    }
  }

  /** A scheduled child without a time of its own, which follows its post's aggregate. */
  predicate Follower(r: Row) {
    r.status == Scheduled && r.scheduledAt.None?
  }

  /** The instant the publisher compares with the clock: the row's own time, else the aggregate. */
  function DueAt(s: State, k: Key): Option<Instant>
    requires k in s.rows
  {
    if s.rows[k].scheduledAt.Some? then s.rows[k].scheduledAt
    else if k.post in s.posts then s.posts[k.post].scheduledAt
    else None
  }

  /** No scheduled row becomes due earlier because a sibling's entry was removed. */
  lemma RemoveNeverHastens(s: State, e: EntryId, k: Key)
    requires AggregatesRight(s)
    requires k in s.rows && Removed(s, e).rows[k].status == Scheduled
    ensures DueAt(Removed(s, e), k).Some? ==>
              DueAt(s, k).Some? && DueAt(s, k).value <= DueAt(Removed(s, e), k).value
  {
    var t := Removed(s, e);
    if k.post == e.post && k.post in s.posts && s.rows[k].scheduledAt.None? {
      assert AggregateRight(s, k.post);
      assert ChildTimes(t.rows, k.post) <= ChildTimes(s.rows, k.post);
    }
  }
}
