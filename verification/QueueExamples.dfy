/** One input for every condition of the operations on queue rows that can fail:
    the condition does fail there, and so does what it guards. */
module QueueExamples {
  import opened Common
  import opened PostingSlots
  import opened QueueModel
  import opened LadderWalk
  import opened LadderLaws
  import opened ReorderLaws
  import opened QueueEffects
  import BulkActions
  import CalendarDrag
  import PublishedRepair

  const FIRST := Queue(0, 0)
  const SECOND := Queue(1, 0)

  function Timed(t: Instant): Row {
    Row(Scheduled, Some(t), None, NO_FAILURE)
  }

  function Aggregated(at: Option<Instant>): Post {
    Post(at, None, 0, 0)
  }

  // ----- history -----

  // A published post alone on its channel.
  const PUBLISHED_ROW := Row(Published, Some(1), Some(2), NO_FAILURE)
  const PUBLISHED_STATE := State(map[1 := Aggregated(Some(1))], map[Key(1, 0) := PUBLISHED_ROW], map[])

  lemma PublishedTarget()
    ensures !LadderNeeded(PUBLISHED_STATE, 1, FIRST, [10], 5)
    ensures PrioritizeTarget(PUBLISHED_STATE, 1, FIRST, [10], 5) == Some(10)
  {
    var s := PUBLISHED_STATE;
    assert Movable(s, 1, FIRST, 5) == {};
    assert Occupied(s.rows, 0, 5, Key(1, 0)) == {};
    hide Movable, Occupied, LadderHasRoom;
  }

  /** Prioritizing a published post moves its time into the future. */
  lemma PrioritizeRewritesHistory(order: seq<nat>)
    ensures GoodHorizon([10], 5) && AggregatesRight(PUBLISHED_STATE) && NoDoubleBooking(PUBLISHED_STATE.rows, 0)
    ensures var r := Prioritized(PUBLISHED_STATE, 1, FIRST, [10], 5, order);
            r.1.Done? && Key(1, 0) in r.0.rows && r.0.rows[Key(1, 0)] == PUBLISHED_ROW.(scheduledAt := Some(10))
  {
    var s := PUBLISHED_STATE;
    assert AggregateRight(s, 1) by {
      assert ChildTimes(s.rows, 1) == {1} by {
        assert s.rows[Key(1, 0)].scheduledAt.value in ChildTimes(s.rows, 1);
      }
    }
    PublishedTarget();
    hide LadderNeeded, PrioritizeTarget;
    NoLadderIs(s, 1, FIRST, [10], 5, order);
    EntryOnly(s, 1, FIRST);
    hide Prioritized, WithEntry, Assign;
    AssignedRow(s, WithEntry(s, 1, FIRST), FIRST, map[1 := 10], Key(1, 0));
  }

  // ----- which entries a ladder moves -----

  // One queued post on the first slot, one beyond the slots first fetched.
  const FIVE_SLOTS: seq<Instant> := [1, 2, 3, 4, 5]
  const FAR_ENTRIES: map<EntryId, Entry> := map[EntryId(FIRST, 1) := Entry(1, Some(1)), EntryId(FIRST, 2) := Entry(2, Some(5))]
  const FAR_ROWS: map<Key, Row> := map[Key(1, 0) := Timed(1), Key(2, 0) := Timed(5)]
  const FAR_POSTS: map<nat, Post> := map[1 := Aggregated(Some(1)), 2 := Aggregated(Some(5)), 3 := Aggregated(None)]
  const FAR_STATE := State(FAR_POSTS, FAR_ROWS, FAR_ENTRIES)

  lemma FarMovable()
    ensures Movable(FAR_STATE, 3, FIRST, 0) == {1, 2}
    ensures Movers(FAR_STATE, 3, FIRST, FIVE_SLOTS, 0) == {1}
  {
    var s := FAR_STATE;
    assert EntryId(FIRST, 1) in s.entries && EntryId(FIRST, 2) in s.entries;
    assert Movable(s, 3, FIRST, 0) == {1, 2};
    var window := Take(FIVE_SLOTS, 4);
    assert window == [1, 2, 3, 4];
    assert 1 in window && 5 !in window;
    hide Movable;
    assert TimeOf(s, FIRST, 1) == 1 && TimeOf(s, FIRST, 2) == 5;
  }

  lemma FarFacts()
    ensures GoodHorizon(FIVE_SLOTS, 0) && FIVE_SLOTS != [] && 2 in FIVE_SLOTS
    ensures NoDoubleBooking(FAR_ROWS, 0) && FAR_STATE.rows == FAR_ROWS && FIRST.channel == 0 && Key(2, 0) in FAR_ROWS
    ensures TimeOf(FAR_STATE, FIRST, 1) == 1
  {
    assert FIVE_SLOTS[1] == 2;
  }

  lemma FarLadder()
    ensures FIVE_SLOTS != [] && LadderNeeded(FAR_STATE, 3, FIRST, FIVE_SLOTS, 0)
    ensures Topmost(FAR_STATE, 3, FIRST, FIVE_SLOTS, 0, 1)
    ensures !HeldFast(FAR_STATE, 3, FIRST, FIVE_SLOTS, 0, 2)
  {
    FarMovable();
    hide Movable, Movers;
    assert TimeOf(FAR_STATE, FIRST, 1) == 1 == FIVE_SLOTS[0];
  }

  lemma FarOrder()
    ensures MoverOrder(FAR_STATE, 3, FIRST, FIVE_SLOTS, 0, [1])
  {
    FarMovable();
    hide Movable, Movers, IndexOf;
    assert 1 in Held(FAR_STATE, 3, FIRST, FIVE_SLOTS, 0);
  }

  lemma LadderedSpares(s: State, post: nat, q: Queue, h: seq<Instant>, now: Instant, rows: map<Key, Row>, k: Key)
    requires Laddered(s, post, q, h, now, rows) && k in s.rows && k.post != post && k.post !in Movers(s, post, q, h, now)
    ensures k in rows && rows[k] == s.rows[k]
  {
    hide Movers;
  }

  /** A movable entry of the same queue that a successful ladder leaves where it is. */
  lemma SomeEntryStaysPut()
    ensures GoodHorizon(FIVE_SLOTS, 0) && NoDoubleBooking(FAR_ROWS, 0) && MoverOrder(FAR_STATE, 3, FIRST, FIVE_SLOTS, 0, [1])
    ensures FIVE_SLOTS != [] && 2 in Movable(FAR_STATE, 3, FIRST, 0) && LadderNeeded(FAR_STATE, 3, FIRST, FIVE_SLOTS, 0)
    ensures var r := Prioritized(FAR_STATE, 3, FIRST, FIVE_SLOTS, 0, [1]);
            r.1.Done? && Key(2, 0) in FAR_ROWS && Key(2, 0) in r.0.rows && r.0.rows[Key(2, 0)] == FAR_ROWS[Key(2, 0)]
  {
    hide *;
    FarMovable();
    FarFacts();
    FarLadder();
    FarOrder();
    LadderFitsIff(FAR_STATE, 3, FIRST, FIVE_SLOTS, 0, [1], 1);
    LadderEffect(FAR_STATE, 3, FIRST, FIVE_SLOTS, 0, [1]);
    LadderedSpares(FAR_STATE, 3, FIRST, FIVE_SLOTS, 0, Prioritized(FAR_STATE, 3, FIRST, FIVE_SLOTS, 0, [1]).0.rows, Key(2, 0));
  }

  // ----- a ladder in a double-booked channel -----

  // Posts 1 and 2 share the first slot, post 4 stands on the second.
  const TIED_ENTRIES: map<EntryId, Entry> :=
    map[EntryId(FIRST, 1) := Entry(1, Some(1)), EntryId(FIRST, 2) := Entry(2, Some(1)), EntryId(FIRST, 4) := Entry(3, Some(2))]
  const TIED_ROWS: map<Key, Row> := map[Key(1, 0) := Timed(1), Key(2, 0) := Timed(1), Key(4, 0) := Timed(2)]
  const TIED_POSTS: map<nat, Post> := map[1 := Aggregated(Some(1)), 2 := Aggregated(Some(1)), 4 := Aggregated(Some(2))]
  const TIED_STATE := State(TIED_POSTS, TIED_ROWS, TIED_ENTRIES)
  const TIED_ORDER: seq<nat> := [4, 1, 2]

  lemma TiedMovers(h: seq<Instant>)
    requires h == FIVE_SLOTS
    ensures Movable(TIED_STATE, 3, FIRST, 0) == {1, 2, 4} && Movers(TIED_STATE, 3, FIRST, h, 0) == {1, 2, 4}
    ensures LadderNeeded(TIED_STATE, 3, FIRST, h, 0)
    ensures Slotted(TIED_STATE.rows, FIRST, 1) && Slotted(TIED_STATE.rows, FIRST, 2) && Slotted(TIED_STATE.rows, FIRST, 4)
    ensures TimeOf(TIED_STATE, FIRST, 1) == 1 && TimeOf(TIED_STATE, FIRST, 2) == 1 && TimeOf(TIED_STATE, FIRST, 4) == 2
  {
    var s := TIED_STATE;
    assert EntryId(FIRST, 1) in s.entries && EntryId(FIRST, 2) in s.entries && EntryId(FIRST, 4) in s.entries;
    assert Movable(s, 3, FIRST, 0) == {1, 2, 4};
    assert Take(h, 5) == h && h[0] == 1 && h[1] == 2;
    hide Movable;
    assert TimeOf(s, FIRST, 1) == 1 && TimeOf(s, FIRST, 2) == 1 && TimeOf(s, FIRST, 4) == 2;
    assert Movers(s, 3, FIRST, h, 0) == {1, 2, 4};
  }

  lemma TiedAvoid(h: seq<Instant>)
    requires h == FIVE_SLOTS
    ensures Avoid(TIED_STATE, 3, FIRST, h, 0) == {}
  {
    TiedMovers(h);
    hide Movable, Movers;
    var s := TIED_STATE;
    assert Occupied(s.rows, 0, 0, Key(3, 0)) <= {1, 2};
    assert TimeOf(s, FIRST, 1) == 1 && TimeOf(s, FIRST, 4) == 2;
  }

  lemma IndicesAre(h: seq<Instant>, held: map<nat, Instant>, at: map<nat, nat>)
    requires StrictlyIncreasing(h) && held.Keys == at.Keys
    requires forall p | p in held :: at[p] < |h| && h[at[p]] == held[p]
    ensures (forall p | p in held :: held[p] in h) && Indices(h, held) == at
  {
    var r := Indices(h, held);
    forall p | p in at ensures r[p] == at[p] {
      assert h[r[p]] == h[at[p]];
    }
  }

  lemma HeldIs(s: State, post: nat, q: Queue, h: seq<Instant>, now: Instant, held: map<nat, Instant>)
    requires held.Keys == Movers(s, post, q, h, now)
    requires forall p | p in held :: Slotted(s.rows, q, p) && TimeOf(s, q, p) == held[p]
    ensures Held(s, post, q, h, now) == held
  {
    hide Movers;
  }

  lemma TiedHeld(h: seq<Instant>)
    requires h == FIVE_SLOTS
    ensures Held(TIED_STATE, 3, FIRST, h, 0) == map[1 := 1, 2 := 1, 4 := 2]
  {
    hide *;
    TiedMovers(h);
    HeldIs(TIED_STATE, 3, FIRST, h, 0, map[1 := 1, 2 := 1, 4 := 2]);
  }

  lemma TiedPlaces(h: seq<Instant>, held: map<nat, Instant>)
    requires h == FIVE_SLOTS && held == map[1 := 1, 2 := 1, 4 := 2]
    ensures (forall p | p in held :: held[p] in h) && Indices(h, held) == map[1 := 0, 2 := 0, 4 := 1]
  {
    hide Indices;
    IndicesAre(h, held, map[1 := 0, 2 := 0, 4 := 1]);
  }

  lemma TiedIndices(h: seq<Instant>)
    requires h == FIVE_SLOTS
    ensures Indices(h, Held(TIED_STATE, 3, FIRST, h, 0)) == map[1 := 0, 2 := 0, 4 := 1]
    ensures Ranks(TIED_STATE, FIRST, Held(TIED_STATE, 3, FIRST, h, 0)) == map[1 := 1, 2 := 2, 4 := 3]
  {
    hide *;
    TiedHeld(h);
    var held := Held(TIED_STATE, 3, FIRST, h, 0);
    TiedPlaces(h, held);
    TiedRanks(held);
  }

  lemma TiedRanks(held: map<nat, Instant>)
    requires held == map[1 := 1, 2 := 1, 4 := 2]
    ensures Ranks(TIED_STATE, FIRST, held) == map[1 := 1, 2 := 2, 4 := 3]
  {
    assert EntryId(FIRST, 1) in TIED_ENTRIES && EntryId(FIRST, 2) in TIED_ENTRIES && EntryId(FIRST, 4) in TIED_ENTRIES;
  }

  lemma TiedWalk(h: seq<Instant>, at: map<nat, nat>)
    requires h == FIVE_SLOTS && at == map[1 := 0, 2 := 0, 4 := 1]
    ensures Walk(h, {}, at, TIED_ORDER) == Some(map[4 := 2, 1 := 1, 2 := 3])
  {
    WalkStep(h, {}, at, TIED_ORDER, 0);
    WalkStep(h, {}, at, TIED_ORDER, 1);
    WalkStep(h, {}, at, TIED_ORDER, 2);
    TiedWalkStart(h, at);
    hide Walk, FirstOpen, HandedOut;
    NextTwo(h);
    NextThree(h);
  }

  lemma TiedWalkStart(h: seq<Instant>, at: map<nat, nat>)
    ensures Walk(h, {}, at, TIED_ORDER[..0]) == Some(map[]) && TIED_ORDER[..3] == TIED_ORDER
  {
  }

  lemma NextTwo(h: seq<Instant>)
    requires h == FIVE_SLOTS
    ensures FirstOpen(h, 2, HandedOut(map[]), {}) == 2 && FirstOpen(h, 1, HandedOut(map[4 := 2]), {}) == 1
  {
  }

  lemma NextThree(h: seq<Instant>)
    requires h == FIVE_SLOTS
    ensures FirstOpen(h, 1, HandedOut(map[4 := 2, 1 := 1]), {}) == 3
  {
    var w: map<nat, nat> := map[4 := 2, 1 := 1];
    assert w[4] in HandedOut(w) && w[1] in HandedOut(w);
    assert HandedOut(w) == {0, 1, 2};
  }

  lemma TiedDescending(at: map<nat, nat>, rank: map<nat, nat>)
    requires at == map[1 := 0, 2 := 0, 4 := 1] && rank == map[1 := 1, 2 := 2, 4 := 3]
    ensures Descending(at, rank, TIED_ORDER)
  {
    assert forall p: nat :: p in TIED_ORDER <==> p == 4 || p == 1 || p == 2;
  }

  lemma TiedOrder(h: seq<Instant>)
    requires h == FIVE_SLOTS
    ensures MoverOrder(TIED_STATE, 3, FIRST, h, 0, TIED_ORDER)
  {
    hide Movable, Movers, Indices, IndexOf, Ranks, Held, Descending;
    TiedIndices(h);
    TiedDescending(map[1 := 0, 2 := 0, 4 := 1], map[1 := 1, 2 := 2, 4 := 3]);
  }

  lemma TiedClimb(h: seq<Instant>)
    requires h == FIVE_SLOTS
    ensures Climbs(TIED_STATE, 3, FIRST, h, 0, TIED_ORDER) == Some(map[4 := 2, 1 := 1, 2 := 3])
  {
    TiedAvoid(h);
    TiedIndices(h);
    hide Avoid, Indices, Walk;
    TiedWalk(h, map[1 := 0, 2 := 0, 4 := 1]);
  }

  lemma TiedPlan(h: seq<Instant>)
    requires h == FIVE_SLOTS
    ensures var w: map<nat, nat> := map[4 := 2, 1 := 1, 2 := 3];
            h != [] && (forall p | p in w :: w[p] < |h|)
            && 2 in LadderPlan(h, w, 3) && LadderPlan(h, w, 3)[2] == 4 && 4 in LadderPlan(h, w, 3) && LadderPlan(h, w, 3)[4] == 3
    ensures Slotted(TIED_STATE.rows, FIRST, 2) && Slotted(TIED_STATE.rows, FIRST, 4)
    ensures GoodHorizon(FIVE_SLOTS, 0)
  {
    assert h[3] == 4 && h[2] == 3;
  }

  /** With two posts on one slot a mover can end above one that stood above it. */
  lemma DoubleBookedLosesOrder()
    ensures GoodHorizon(FIVE_SLOTS, 0) && MoverOrder(TIED_STATE, 3, FIRST, FIVE_SLOTS, 0, TIED_ORDER)
    ensures FIVE_SLOTS != [] && LadderNeeded(TIED_STATE, 3, FIRST, FIVE_SLOTS, 0)
    ensures Slotted(TIED_STATE.rows, FIRST, 2) && Slotted(TIED_STATE.rows, FIRST, 4)
    ensures var r := Prioritized(TIED_STATE, 3, FIRST, FIVE_SLOTS, 0, TIED_ORDER);
            r.1.Done? && Slotted(r.0.rows, FIRST, 2) && Slotted(r.0.rows, FIRST, 4)
            && TimeOf(TIED_STATE, FIRST, 2) < TimeOf(TIED_STATE, FIRST, 4) && TimeOf(r.0, FIRST, 2) > TimeOf(r.0, FIRST, 4)
  {
    hide *;
    var s, h := TIED_STATE, FIVE_SLOTS;
    TiedPlan(h);
    TiedMovers(h);
    TiedClimb(h);
    TiedOrder(h);
    LadderIs(s, 3, FIRST, h, 0, TIED_ORDER);
    var plan := LadderPlan(h, Climbs(s, 3, FIRST, h, 0, TIED_ORDER).value, 3);
    EntryOnly(s, 3, FIRST);
    SlotAfter(s, WithEntry(s, 3, FIRST), FIRST, plan, 2);
    SlotAfter(s, WithEntry(s, 3, FIRST), FIRST, plan, 4);
  }

  /** Adding a post again moves it later when another post shares its slot. */
  lemma ReaddMovesLater()
    ensures GoodHorizon(FIVE_SLOTS, 0) && Slotted(TIED_STATE.rows, FIRST, 1)
    ensures var r := AddNext(TIED_STATE, 1, FIRST, FIVE_SLOTS, 0);
            r.1.Done? && Slotted(r.0.rows, FIRST, 1) && TimeOf(r.0, FIRST, 1) > TimeOf(TIED_STATE, FIRST, 1)
  {
    TiedOthers();
    hide Occupied, NextAvailable, Assign, WithEntry;
    EntryOnly(TIED_STATE, 1, FIRST);
    SlotAfter(TIED_STATE, WithEntry(TIED_STATE, 1, FIRST), FIRST, map[1 := 3], 1);
  }

  lemma TiedOthers()
    ensures NextAvailable(FIVE_SLOTS, Occupied(TIED_ROWS, 0, 0, Key(1, 0))) == Some(3)
    ensures GoodHorizon(FIVE_SLOTS, 0)
  {
    var occupied := Occupied(TIED_ROWS, 0, 0, Key(1, 0));
    assert occupied == {1, 2} by {
      assert TIED_ROWS[Key(2, 0)].scheduledAt.value in occupied && TIED_ROWS[Key(4, 0)].scheduledAt.value in occupied;
    }
    hide Occupied;
    NextIsThree();
  }

  lemma NextIsThree()
    ensures NextAvailable(FIVE_SLOTS, {1, 2}) == Some(3)
  {
    var taken: set<Instant> := {1, 2};
    assert |taken| == 2;
    var c := Take(FIVE_SLOTS, 3);
    assert c == [1, 2, 3] && c[1..] == [2, 3] && c[1..][1..] == [3];
    assert FirstFree(c[1..][1..], taken) == Some(3);
    assert FirstFree(c[1..], taken) == Some(3);
  }

  // Posts 1 and 2 share the first of two slots; the second is free.
  const FULL_ENTRIES: map<EntryId, Entry> := map[EntryId(FIRST, 1) := Entry(1, Some(1)), EntryId(FIRST, 2) := Entry(2, Some(1))]
  const FULL_ROWS: map<Key, Row> := map[Key(1, 0) := Timed(1), Key(2, 0) := Timed(1)]
  const FULL_STATE := State(map[1 := Aggregated(Some(1)), 2 := Aggregated(Some(1))], FULL_ROWS, FULL_ENTRIES)

  lemma FullMovers(h: seq<Instant>)
    requires h == [1, 2]
    ensures Movable(FULL_STATE, 3, FIRST, 0) == {1, 2} && Movers(FULL_STATE, 3, FIRST, h, 0) == {1, 2}
    ensures LadderNeeded(FULL_STATE, 3, FIRST, h, 0) && TimeOf(FULL_STATE, FIRST, 1) == 1 && TimeOf(FULL_STATE, FIRST, 2) == 1
  {
    var s := FULL_STATE;
    assert EntryId(FIRST, 1) in s.entries && EntryId(FIRST, 2) in s.entries;
    assert Movable(s, 3, FIRST, 0) == {1, 2};
    hide Movable;
    assert h[0] == 1 && Take(h, 4) == h;
    assert TimeOf(s, FIRST, 1) == 1 && TimeOf(s, FIRST, 2) == 1;
    assert Movers(s, 3, FIRST, h, 0) == {1, 2};
  }

  lemma FullRoom(h: seq<Instant>)
    requires h == [1, 2]
    ensures !LadderHasRoom(FULL_STATE, 3, FIRST, h, 0)
  {
    FullMovers(h);
    hide Movable, Movers, Avoid;
    assert h[0] == 1 && h[1] == 2;
    var at := Indices(h, Held(FULL_STATE, 3, FIRST, h, 0));
    assert 1 in at && at[1] == 0 && 2 in at && at[2] == 0;
    NoRoomForTwo(h, Avoid(FULL_STATE, 3, FIRST, h, 0), at);
  }

  lemma NoRoomForTwo(h: seq<Instant>, avoid: set<Instant>, at: map<nat, nat>)
    requires |h| == 2 && 1 in at && at[1] == 0 && 2 in at && at[2] == 0
    ensures !Room(h, avoid, at)
  {
    SubsetSize({1, 2}, AtOrAbove(at, 0));
    SubsetSize(OpenAbove(h, avoid, 0), {1});
  }

  lemma FullTop(h: seq<Instant>)
    requires h == [1, 2]
    ensures !HeldFast(FULL_STATE, 3, FIRST, h, 0, 2) && Topmost(FULL_STATE, 3, FIRST, h, 0, 1) && GoodHorizon(h, 0)
  {
    FullMovers(h);
    hide Movable, Movers;
  }

  /** The queue is full although the slot after the movers' is free. */
  lemma DoubleBookedIsFull(order: seq<nat>)
    requires MoverOrder(FULL_STATE, 3, FIRST, [1, 2], 0, order)
    ensures GoodHorizon([1, 2], 0) && LadderNeeded(FULL_STATE, 3, FIRST, [1, 2], 0)
    ensures !HeldFast(FULL_STATE, 3, FIRST, [1, 2], 0, 2) && Topmost(FULL_STATE, 3, FIRST, [1, 2], 0, 1)
    ensures Prioritized(FULL_STATE, 3, FIRST, [1, 2], 0, order) == (FULL_STATE, QueueFull)
  {
    hide *;
    FullMovers([1, 2]);
    FullTop([1, 2]);
    FullRoom([1, 2]);
    OrderFits(FULL_STATE, 3, FIRST, [1, 2], 0, order);
    LadderTarget(FULL_STATE, 3, FIRST, [1, 2], 0);
    PrioritizeOutcome(FULL_STATE, 3, FIRST, [1, 2], 0, order);
    FullOnly(FULL_STATE, 3, FIRST, [1, 2], 0, order);
  }

  lemma FullOnly(s: State, post: nat, q: Queue, h: seq<Instant>, now: Instant, order: seq<nat>)
    requires !Prioritized(s, post, q, h, now, order).1.Done? && Prioritized(s, post, q, h, now, order).0 == s
    ensures Prioritized(s, post, q, h, now, order) == (s, QueueFull)
  {
    hide *;
  }

  // ----- siblings and second queues -----

  // Post 1 is in two queues of channel 0 at 10 and, on channel 1, scheduled without a
  // time; post 2 is queued at 7.
  const SLOTS: seq<Instant> := [5, 6, 8]
  const OWN := Key(1, 0)
  const SIBLING := Key(1, 1)
  const OTHER := Key(2, 0)
  const FAMILY_ROWS: map<Key, Row> :=
    map[OWN := Timed(10), SIBLING := Row(Scheduled, None, None, NO_FAILURE), OTHER := Timed(7)]
  const FAMILY_POSTS: map<nat, Post> := map[1 := Aggregated(Some(10)), 2 := Aggregated(Some(7))]
  const FAMILY_ENTRIES: map<EntryId, Entry> :=
    map[EntryId(FIRST, 1) := Entry(1, Some(10)), EntryId(FIRST, 2) := Entry(2, Some(7)), EntryId(SECOND, 1) := Entry(1, Some(10))]
  const FAMILY := State(FAMILY_POSTS, FAMILY_ROWS, FAMILY_ENTRIES)

  /** Nothing is wrong with it. */
  ghost predicate Tidy(s: State) {
    AggregatesRight(s) && AllMirror(s) && NoDoubleBooking(s.rows, 0) && NoDoubleBooking(s.rows, 1)
  }

  lemma FamilyAggregates()
    ensures AggregatesRight(FAMILY)
  {
    var s := FAMILY;
    assert ChildTimes(s.rows, 1) == {10} by { assert s.rows[OWN].scheduledAt.value in ChildTimes(s.rows, 1); }
    assert ChildTimes(s.rows, 2) == {7} by { assert s.rows[OTHER].scheduledAt.value in ChildTimes(s.rows, 2); }
    assert AggregateRight(s, 1) && AggregateRight(s, 2);
    hide ChildTimes;
  }

  lemma FamilyTidy()
    ensures Tidy(FAMILY) && GoodHorizon(SLOTS, 0)
  {
    FamilyAggregates();
    hide AggregatesRight;
  }

  lemma FamilyExposed(at: Instant)
    ensures Exposed(FAMILY, SIBLING, at) <==> at < 10
    ensures SIBLING in FAMILY.rows && SIBLING.channel == 1 && SIBLING.post == 1 && QueuedElsewhere(FAMILY, FIRST, 1)
  {
    assert EntryId(SECOND, 1) in FAMILY.entries;
  }

  lemma FamilyOccupied()
    ensures Occupied(FAMILY.rows, 0, 0, OWN) == {7} && NextAvailable(SLOTS, {7}) == Some(5)
    ensures OwnRetimed(FAMILY, 1, FIRST, Some(5)) && OWN in FAMILY.rows && FAMILY.rows[OWN].status == Scheduled
  {
    assert Occupied(FAMILY.rows, 0, 0, OWN) == {7} by {
      assert FAMILY.rows[OTHER].scheduledAt.value in Occupied(FAMILY.rows, 0, 0, OWN);
    }
    assert Take(SLOTS, 2)[0] == 5;
  }

  /** An add that makes a sibling fire early and leaves an entry of the other queue behind. */
  lemma AddReachesFurther()
    ensures Tidy(FAMILY) && GoodHorizon(SLOTS, 0)
    ensures Hastened(FAMILY, AddNext(FAMILY, 1, FIRST, SLOTS, 0).0, SIBLING) && !AllMirror(AddNext(FAMILY, 1, FIRST, SLOTS, 0).0)
  {
    FamilyTidy();
    FamilyExposed(5);
    FamilyOccupied();
    assert AddTarget(FAMILY, 1, FIRST, SLOTS, 0) == Some(5) by { hide Occupied, NextAvailable; }
    hide AddNext, AddTarget, Hastened, AllMirror, Exposed, QueuedElsewhere, AggregatesRight, OwnRetimed, GoodHorizon;
    AddHastensIff(FAMILY, 1, FIRST, SLOTS, 0, SIBLING);
    AddMirrorsIff(FAMILY, 1, FIRST, SLOTS, 0);
  }

  lemma FamilyTarget()
    ensures !LadderNeeded(FAMILY, 1, FIRST, SLOTS, 0) && PrioritizeTarget(FAMILY, 1, FIRST, SLOTS, 0) == Some(5)
  {
    FamilyOccupied();
    assert Movable(FAMILY, 1, FIRST, 0) <= {2};
    assert TimeOf(FAMILY, FIRST, 2) == 7;
    hide Movable, Occupied, NextAvailable, LadderHasRoom;
  }

  /** A prioritization that does. */
  lemma PrioritizeReachesFurther(order: seq<nat>)
    ensures Tidy(FAMILY) && GoodHorizon(SLOTS, 0) && ClimbOrder(FAMILY, 1, FIRST, SLOTS, 0, order)
    ensures var t := Prioritized(FAMILY, 1, FIRST, SLOTS, 0, order).0; Hastened(FAMILY, t, SIBLING) && !AllMirror(t)
  {
    FamilyTidy();
    FamilyExposed(5);
    FamilyOccupied();
    FamilyTarget();
    NoOrderNeeded(FAMILY, 1, FIRST, SLOTS, 0, order);
    hide LadderNeeded, PrioritizeTarget, Hastened, AllMirror, Exposed, QueuedElsewhere, AggregatesRight, OwnRetimed, GoodHorizon;
    hide Prioritized, ClimbOrder, Movers, LadderHasRoom;
    PrioritizeHastensIff(FAMILY, 1, FIRST, SLOTS, 0, order, SIBLING);
    PrioritizeMirrorsIff(FAMILY, 1, FIRST, SLOTS, 0, order);
  }

  const FAMILY_IDS := [EntryId(FIRST, 1), EntryId(FIRST, 2)]

  lemma FamilyMoved()
    ensures NoRepeats(FAMILY_IDS)
    ensures Moved(FAMILY, FIRST, FAMILY_IDS) == [1, 2] && SortedTimes(FAMILY, FIRST, FAMILY_IDS) == [7, 10]
  {
    var s, ids := FAMILY, FAMILY_IDS;
    assert ids[1..] == [EntryId(FIRST, 2)] && ids[1..][1..] == [];
    assert Named(s, FIRST, ids[1..]) == [2];
    assert Named(s, FIRST, ids) == [1, 2];
    FamilySlotted();
    FamilySorted();
    hide Named, SlottedOf, TimesOf, Sort;
  }

  lemma FamilySlotted()
    ensures SlottedOf(FAMILY, FIRST, [1, 2]) == [1, 2]
    ensures forall i | 0 <= i < 2 :: Slotted(FAMILY.rows, FIRST, [1, 2][i])
    ensures TimesOf(FAMILY, FIRST, [1, 2]) == [10, 7]
  {
    var posts: seq<nat> := [1, 2];
    assert posts[1..] == [2] && posts[1..][1..] == [];
    assert Slotted(FAMILY.rows, FIRST, 1) && Slotted(FAMILY.rows, FIRST, 2);
    assert SlottedOf(FAMILY, FIRST, [2]) == [2];
    hide SlottedOf;
    var times := TimesOf(FAMILY, FIRST, posts);
    assert times[0] == 10 && times[1] == 7;
  }

  lemma FamilySorted()
    ensures Sort([10, 7]) == [7, 10]
  {
    var times: seq<Instant> := [10, 7];
    assert times[1..] == [7] && times[1..][1..] == [];
    assert Sort([7]) == [7];
    assert Sort([10, 7]) == Insert(10, [7]);
    assert [7][1..] == [];
  }

  /** A reorder that does: the later of two times goes to the second entry. */
  lemma ReorderReachesFurther()
    ensures Tidy(FAMILY) && NoRepeats(FAMILY_IDS)
    ensures var t := Reordered(FAMILY, FIRST, FAMILY_IDS); Hastened(FAMILY, t, SIBLING) && !AllMirror(t)
  {
    FamilyTidy();
    FamilyExposed(7);
    FamilyMoved();
    assert Moved(FAMILY, FIRST, FAMILY_IDS)[0] == 1 && SortedTimes(FAMILY, FIRST, FAMILY_IDS)[0] == 7;
    assert MovedRetimed(FAMILY, FIRST, FAMILY_IDS, 0) by { hide Moved, SortedTimes; }
    hide Reordered, Moved, SortedTimes, Hastened, AllMirror, Exposed, QueuedElsewhere, AggregatesRight, MovedRetimed, NoRepeats;
    ReorderHastensIff(FAMILY, FIRST, FAMILY_IDS, SIBLING);
    ReorderMirrorsIff(FAMILY, FIRST, FAMILY_IDS);
  }

  /** A drag onto another post's time, and one that makes a sibling fire early. */
  lemma DragReachesFurther()
    ensures Tidy(FAMILY) && OTHER in FAMILY.rows && OWN in FAMILY.rows
    ensures CalendarDrag.Reschedulable(FAMILY.rows[OTHER].status) && CalendarDrag.Reschedulable(FAMILY.rows[OWN].status)
    ensures !NoDoubleBooking(CalendarDrag.Dragged(FAMILY, OTHER, 10).rows, 0)
    ensures Hastened(FAMILY, CalendarDrag.Dragged(FAMILY, OWN, 3), SIBLING)
  {
    FamilyTidy();
    FamilyExposed(3);
    assert Live(FAMILY.rows[OWN]) && FAMILY.rows[OWN].scheduledAt == Some(10) && OWN != OTHER;
    CalendarDrag.DragKeepsDistinctIff(FAMILY, OTHER, 10);
    CalendarDrag.DragHastensIff(FAMILY, OWN, 3, SIBLING);
  }

  lemma ActedOne(k: Key)
    requires k == OWN || k == OTHER
    ensures k in FAMILY.rows && BulkActions.ActedOn(FAMILY.rows, BulkActions.PublishNow, [k]) == [k]
    ensures BulkActions.OnChannel([k], 0) == [k]
  {
    assert [k][..0] == [];
  }

  lemma OtherInTheWay(acted: seq<Key>)
    requires acted == [OTHER] && BulkActions.OnChannel(acted, 0) == [OTHER]
    ensures BulkActions.InTheWay(FAMILY.rows, acted, 10, 0, OWN, 0) && NoRepeats(acted)
    ensures OWN in FAMILY.rows && OTHER in FAMILY.rows && SIBLING in FAMILY.rows
  {
    assert Live(FAMILY.rows[OWN]) && FAMILY.rows[OWN].scheduledAt == Some(10);
    hide BulkActions.OnChannel;
  }

  lemma OwnExposes(acted: seq<Key>)
    requires acted == [OWN] && BulkActions.OnChannel(acted, 0) == [OWN]
    ensures BulkActions.MinuteExposes(FAMILY, acted, 4, SIBLING, 0, 0) && NoRepeats(acted) && SIBLING !in acted
  {
    FamilyExposed(4);
    hide BulkActions.OnChannel, Exposed;
  }

  lemma TidyParts(s: State)
    requires Tidy(s)
    ensures AggregatesRight(s) && AllMirror(s) && NoDoubleBooking(s.rows, 0)
  {
  }

  lemma PublishClashes(acted: seq<Key>)
    requires acted == [OTHER] && NoDoubleBooking(FAMILY.rows, 0) && BulkActions.InTheWay(FAMILY.rows, acted, 10, 0, OWN, 0)
    requires NoRepeats(acted) && forall i | 0 <= i < |acted| :: acted[i] in FAMILY.rows
    ensures !NoDoubleBooking(BulkActions.After(FAMILY, BulkActions.PublishNow, acted, 10).rows, 0)
  {
    hide *;
    BulkActions.PublishKeepsDistinctIff(FAMILY, acted, 10, 0);
  }

  lemma PublishHastens(acted: seq<Key>)
    requires acted == [OWN] && AggregatesRight(FAMILY) && BulkActions.MinuteExposes(FAMILY, acted, 4, SIBLING, 0, 0)
    requires NoRepeats(acted) && (forall i | 0 <= i < |acted| :: acted[i] in FAMILY.rows)
    requires SIBLING in FAMILY.rows && SIBLING !in acted
    ensures Hastened(FAMILY, BulkActions.After(FAMILY, BulkActions.PublishNow, acted, 4), SIBLING)
  {
    hide *;
    BulkActions.PublishHastensIff(FAMILY, acted, 4, SIBLING);
  }

  /** A publish-now at the minute of another post, and one that makes a sibling fire early. */
  lemma PublishReachesFurther()
    ensures Tidy(FAMILY) && OTHER in FAMILY.rows && OWN in FAMILY.rows
    ensures BulkActions.ActedOn(FAMILY.rows, BulkActions.PublishNow, [OTHER]) == [OTHER]
    ensures BulkActions.ActedOn(FAMILY.rows, BulkActions.PublishNow, [OWN]) == [OWN]
    ensures !NoDoubleBooking(BulkActions.After(FAMILY, BulkActions.PublishNow, [OTHER], 10).rows, 0)
    ensures Hastened(FAMILY, BulkActions.After(FAMILY, BulkActions.PublishNow, [OWN], 4), SIBLING)
  {
    hide *;
    FamilyTidy();
    TidyParts(FAMILY);
    ActedOne(OWN);
    ActedOne(OTHER);
    OtherInTheWay([OTHER]);
    OwnExposes([OWN]);
    PublishClashes([OTHER]);
    PublishHastens([OWN]);
  }

  // ----- a repair -----

  // Post 1 was published on channel 0 and dragged into the future; on channel 1 it is
  // scheduled and queued without a time, and post 2 holds the time that it falls back on.
  const THIRD := Queue(2, 1)
  const DRAGGED_ROWS: map<Key, Row> :=
    map[OWN := Row(Published, Some(10), Some(2), NO_FAILURE), SIBLING := Row(Scheduled, None, None, NO_FAILURE),
        Key(2, 1) := Timed(10)]
  const DRAGGED_POSTS: map<nat, Post> := map[1 := Aggregated(Some(10)), 2 := Aggregated(Some(10))]
  const DRAGGED := State(DRAGGED_POSTS, DRAGGED_ROWS, map[EntryId(THIRD, 1) := Entry(1, None)])

  lemma DraggedAggregates()
    ensures AggregatesRight(DRAGGED)
  {
    var s := DRAGGED;
    assert ChildTimes(s.rows, 1) == {10} by { assert s.rows[OWN].scheduledAt.value in ChildTimes(s.rows, 1); }
    assert ChildTimes(s.rows, 2) == {10} by { assert s.rows[Key(2, 1)].scheduledAt.value in ChildTimes(s.rows, 2); }
    assert AggregateRight(s, 1) && AggregateRight(s, 2);
    hide ChildTimes;
  }

  lemma DraggedPinned()
    ensures PublishedRepair.Pinned(DRAGGED, None, SIBLING) && PublishedRepair.PinnedOnto(DRAGGED, None, 1, SIBLING, Key(2, 1))
    ensures EntryId(THIRD, 1) in DRAGGED.entries && AllMirror(DRAGGED)
    ensures NoDoubleBooking(DRAGGED.rows, 0) && NoDoubleBooking(DRAGGED.rows, 1)
  {
    assert OWN in PublishedRepair.Affected(DRAGGED, None);
    assert OWN.post in PostsOf(PublishedRepair.Affected(DRAGGED, None));
    hide PublishedRepair.Affected;
  }

  /** A repair that puts a sibling on the time of another post, and leaves its entry without one. */
  lemma RepairReachesFurther()
    ensures Tidy(DRAGGED)
    ensures !NoDoubleBooking(PublishedRepair.Repaired(DRAGGED, None).rows, 1)
    ensures !AllMirror(PublishedRepair.Repaired(DRAGGED, None))
  {
    DraggedAggregates();
    DraggedPinned();
    hide PublishedRepair.Repaired, PublishedRepair.Pinned, PublishedRepair.PinnedOnto;
    hide AggregatesRight, AllMirror, NoDoubleBooking;
    PublishedRepair.RepairKeepsDistinctIff(DRAGGED, None, 1);
    PublishedRepair.RepairMirrorsIff(DRAGGED, None);
  }
}
