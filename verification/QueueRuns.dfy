/** Whole runs of everything that works on queue rows: queue operations, drags, bulk
    actions and repairs, by any number of callers, on any queues. Each is one step,
    so a run is a sequence of steps. */
module QueueRuns {
  import opened Common
  import opened PostingSlots
  import opened QueueModel
  import opened LadderLaws
  import opened ReorderLaws
  import opened RowLaws
  import BulkActions
  import CalendarDrag
  import PublishedRepair

  /** One operation; re-slotting an entry is adding its post again. `h` is the
      horizon of the queue's channel read at `now`, `order` the one in which a ladder
      climbs its movers. */
  datatype Op =
    | Add(post: nat, q: Queue, h: seq<Instant>, now: Instant)
    | Prioritize(post: nat, q: Queue, h: seq<Instant>, now: Instant, order: seq<nat>)
    | Remove(e: EntryId)
    | Reorder(q: Queue, ids: seq<EntryId>)
    | Drag(k: Key, t: Instant)
    | Bulk(action: BulkActions.Action, pps: seq<Key>, now: Instant)
    | Repair(workspace: Option<nat>)

  ghost function Step(s: State, op: Op): State {
    match op
    case Add(post, q, h, now) => AddNext(s, post, q, h, now).0
    case Prioritize(post, q, h, now, order) => Prioritized(s, post, q, h, now, order).0
    case Remove(e) => Removed(s, e)
    case Reorder(q, ids) => Reordered(s, q, ids)
    case Drag(k, t) => if k in s.rows then CalendarDrag.Dragged(s, k, t) else s
    case Bulk(action, pps, now) => if BulkActions.AllRows(s.rows, pps) then BulkActions.Bulked(s, action, pps, now) else s
    case Repair(workspace) => PublishedRepair.Repaired(s, workspace)
  }

  /** What the theorems ask of a caller: proper horizons, no history post to
      prioritize, no id named twice; a row that may be dragged, a selection of rows. */
  ghost predicate Proper(s: State, op: Op) {
    match op
    case Add(post, q, h, now) => GoodHorizon(h, now)
    case Prioritize(post, q, h, now, order) =>
      GoodHorizon(h, now) && ClimbOrder(s, post, q, h, now, order)
      && !(Key(post, q.channel) in s.rows && Protected(s.rows[Key(post, q.channel)].status))
    case Remove(e) => e in s.entries
    case Reorder(q, ids) => NoRepeats(ids)
    case Drag(k, _) => k in s.rows && CalendarDrag.Reschedulable(s.rows[k].status)
    case Bulk(action, pps, _) => NoRepeats(pps) && BulkActions.AllRows(s.rows, pps) && action != BulkActions.Unknown
    case Repair(_) => true
  }

  ghost function Run(s: State, ops: seq<Op>): State
    decreases |ops|
  {
    if ops == [] then s else Run(Step(s, ops[0]), ops[1..])
  }

  ghost predicate ProperRun(s: State, ops: seq<Op>)
    decreases |ops|
  {
    ops == [] || (Proper(s, ops[0]) && ProperRun(Step(s, ops[0]), ops[1..]))
  }

  ghost predicate NowhereDoubleBooked(s: State) {
    forall channel :: NoDoubleBooking(s.rows, channel)
  }

  /** The step comes to no time that somebody else holds: queue operations never do,
      the others do not look. */
  ghost predicate Clear(s: State, op: Op) {
    match op
    case Add(_, _, _, _) => true
    case Prioritize(_, _, _, _, _) => true
    case Remove(_) => true
    case Reorder(_, _) => true
    case Drag(k, t) =>
      !exists x :: x in s.rows && x != k && x.channel == k.channel && Live(s.rows[x]) && s.rows[x].scheduledAt == Some(t)
    case Bulk(action, pps, now) =>
      action == BulkActions.PublishNow && BulkActions.AllRows(s.rows, pps) ==>
        !exists channel: nat :: BulkActions.Blocked(s.rows, BulkActions.ActedOn(s.rows, action, pps), now, channel)
    case Repair(workspace) => !exists channel: nat, a: Key, b: Key :: PublishedRepair.PinnedOnto(s, workspace, channel, a, b)
  }

  lemma QueueStepKeepsDistinct(s: State, op: Op)
    requires Proper(s, op) && NowhereDoubleBooked(s) && !op.Drag? && !op.Bulk? && !op.Repair?
    ensures NowhereDoubleBooked(Step(s, op))
  {
    forall channel ensures NoDoubleBooking(Step(s, op).rows, channel) {
      assert NoDoubleBooking(s.rows, channel);
      match op
      case Add(post, q, h, now) => AddKeepsDistinct(s, post, q, h, now, channel);
      case Prioritize(post, q, h, now, order) =>
        assert NoDoubleBooking(s.rows, q.channel);
        PrioritizeKeepsDistinct(s, post, q, h, now, order, channel);
      case Remove(e) => RemoveKeepsDistinct(s, e, channel);
      case Reorder(q, ids) => ReorderKeepsDistinct(s, q, ids, channel);
    }
  }

  lemma DragApartIff(s: State, k: Key, t: Instant)
    requires Proper(s, Drag(k, t)) && NowhereDoubleBooked(s)
    ensures NowhereDoubleBooked(Step(s, Drag(k, t))) <==> Clear(s, Drag(k, t))
  {
    hide NoDoubleBooking, CalendarDrag.Dragged;
    assert NoDoubleBooking(s.rows, k.channel);
    CalendarDrag.DragKeepsDistinctIff(s, k, t);
    var r := CalendarDrag.Dragged(s, k, t).rows;
    forall channel | channel != k.channel ensures NoDoubleBooking(r, channel) {
      assert NoDoubleBooking(s.rows, channel);
      CalendarDrag.DragElsewhere(s, k, t, channel);
    }
  }

  lemma BulkApartIff(s: State, action: BulkActions.Action, pps: seq<Key>, now: Instant)
    requires Proper(s, Bulk(action, pps, now)) && NowhereDoubleBooked(s)
    ensures NowhereDoubleBooked(Step(s, Bulk(action, pps, now))) <==> Clear(s, Bulk(action, pps, now))
  {
    var t := BulkActions.Bulked(s, action, pps, now);
    assert Step(s, Bulk(action, pps, now)) == t;
    hide NoDoubleBooking, BulkActions.Bulked, BulkActions.ActedOn, BulkActions.Blocked, NoRepeats, Step;
    if Clear(s, Bulk(action, pps, now)) {
      forall channel: nat ensures NoDoubleBooking(t.rows, channel) {
        assert NoDoubleBooking(s.rows, channel);
        BulkActions.BulkKeepsDistinctIff(s, action, pps, now, channel);
      }
    } else {
      var channel: nat :| BulkActions.Blocked(s.rows, BulkActions.ActedOn(s.rows, action, pps), now, channel);
      assert NoDoubleBooking(s.rows, channel);
      BulkActions.BulkKeepsDistinctIff(s, action, pps, now, channel);
      assert !NoDoubleBooking(t.rows, channel);
    }
  }

  lemma RepairApartIff(s: State, workspace: Option<nat>)
    requires NowhereDoubleBooked(s)
    ensures NowhereDoubleBooked(Step(s, Repair(workspace))) <==> Clear(s, Repair(workspace))
  {
    var t := PublishedRepair.Repaired(s, workspace);
    hide NoDoubleBooking, PublishedRepair.Repaired, PublishedRepair.PinnedOnto;
    if Clear(s, Repair(workspace)) {
      forall channel: nat ensures NoDoubleBooking(t.rows, channel) {
        assert NoDoubleBooking(s.rows, channel);
        PublishedRepair.RepairKeepsDistinctIff(s, workspace, channel);
      }
    } else {
      var channel: nat, a: Key, b: Key :| PublishedRepair.PinnedOnto(s, workspace, channel, a, b);
      assert NoDoubleBooking(s.rows, channel);
      PublishedRepair.RepairKeepsDistinctIff(s, workspace, channel);
      assert !NoDoubleBooking(t.rows, channel);
    }
  }

  lemma StepApartIff(s: State, op: Op)
    requires Proper(s, op) && NowhereDoubleBooked(s)
    ensures NowhereDoubleBooked(Step(s, op)) <==> Clear(s, op)
  {
    if op.Drag? {
      DragApartIff(s, op.k, op.t);
    } else if op.Bulk? {
      BulkApartIff(s, op.action, op.pps, op.now);
    } else if op.Repair? {
      RepairApartIff(s, op.workspace);
    } else {
      QueueStepKeepsDistinct(s, op);
    }
    hide Step, NowhereDoubleBooked, Proper;
  }

  /** At every moment of the run no channel is double-booked. */
  ghost predicate AlwaysApart(s: State, ops: seq<Op>)
    decreases |ops|
  {
    NowhereDoubleBooked(s) && (ops == [] || AlwaysApart(Step(s, ops[0]), ops[1..]))
  }

  ghost predicate ClearRun(s: State, ops: seq<Op>)
    decreases |ops|
  {
    ops == [] || (Clear(s, ops[0]) && ClearRun(Step(s, ops[0]), ops[1..]))
  }

  /** Over any proper run no channel is ever double-booked if and only if no drag, no
      publish and no pinning of a repair comes to a time that another live row holds. */
  lemma {:induction false} RunApartIff(s: State, ops: seq<Op>)
    requires ProperRun(s, ops) && NowhereDoubleBooked(s)
    ensures AlwaysApart(s, ops) <==> ClearRun(s, ops)
    decreases |ops|
  {
    if ops != [] {
      var t := Step(s, ops[0]);
      StepApartIff(s, ops[0]);
      hide Step, Proper, NowhereDoubleBooked, Clear;
      if NowhereDoubleBooked(t) {
        RunApartIff(t, ops[1..]);
      } else {
        assert !AlwaysApart(t, ops[1..]);
      }
    }
  }

  lemma {:induction false} ApartAtTheEnd(s: State, ops: seq<Op>)
    requires AlwaysApart(s, ops)
    ensures NowhereDoubleBooked(Run(s, ops))
    decreases |ops|
  {
    if ops != [] {
      hide Step, NowhereDoubleBooked;
      ApartAtTheEnd(Step(s, ops[0]), ops[1..]);
    }
  }

  lemma {:induction false} QueueRunIsClear(s: State, ops: seq<Op>)
    requires forall i | 0 <= i < |ops| :: !ops[i].Drag? && !ops[i].Bulk? && !ops[i].Repair?
    ensures ClearRun(s, ops)
    decreases |ops|
  {
    if ops != [] {
      hide Step;
      QueueRunIsClear(Step(s, ops[0]), ops[1..]);
    }
  }

  lemma WithEntryAggregates(s: State, post: nat, q: Queue)
    requires AggregatesRight(s)
    ensures AggregatesRight(WithEntry(s, post, q))
  {
    assert WithEntry(s, post, q).posts == s.posts && WithEntry(s, post, q).rows == s.rows;
    forall p | p in s.posts ensures AggregateRight(WithEntry(s, post, q), p) {
      assert AggregateRight(s, p);
    }
  }

  /** A successful add wrote one instant, or the post was history and nothing happened. */
  lemma AddPlan(s: State, post: nat, q: Queue, h: seq<Instant>, now: Instant) returns (plan: map<nat, Instant>)
    requires AddNext(s, post, q, h, now).0 != s
    ensures AddNext(s, post, q, h, now).0 == Assign(WithEntry(s, post, q), q, plan) && plan.Keys == {post}
    ensures Key(post, q.channel) in s.rows ==> !Protected(s.rows[Key(post, q.channel)].status)
  {
    plan := map[post := NextAvailable(h, Occupied(s.rows, q.channel, now, Key(post, q.channel))).value];
  }

  lemma AddKeepsAggregates(s: State, post: nat, q: Queue, h: seq<Instant>, now: Instant)
    requires AggregatesRight(s)
    ensures AggregatesRight(AddNext(s, post, q, h, now).0)
  {
    if AddNext(s, post, q, h, now).0 != s {
      var plan := AddPlan(s, post, q, h, now);
      hide AddNext, AggregatesRight, WithEntry, Assign;
      WithEntryAggregates(s, post, q);
      AssignKeepsAggregates(WithEntry(s, post, q), q, plan);
    }
  }

  lemma PrioritizeKeepsAggregates(s: State, post: nat, q: Queue, h: seq<Instant>, now: Instant, order: seq<nat>)
    requires AggregatesRight(s) && ClimbOrder(s, post, q, h, now, order)
    ensures AggregatesRight(Prioritized(s, post, q, h, now, order).0)
  {
    hide *;
    PrioritizeOutcome(s, post, q, h, now, order);
    if Prioritized(s, post, q, h, now, order).1.Done? {
      var plan := PrioritizePlan(s, post, q, h, now, order);
      WithEntryAggregates(s, post, q);
      AssignKeepsAggregates(WithEntry(s, post, q), q, plan);
    }
  }

  lemma StepKeepsAggregates(s: State, op: Op)
    requires AggregatesRight(s) && Proper(s, op)
    ensures AggregatesRight(Step(s, op))
  {
    hide AddNext, Prioritized, Removed, Reordered, AggregatesRight, ClimbOrder, CalendarDrag.Dragged, PublishedRepair.Repaired;
    match op
    case Add(post, q, h, now) => AddKeepsAggregates(s, post, q, h, now);
    case Prioritize(post, q, h, now, order) => PrioritizeKeepsAggregates(s, post, q, h, now, order);
    case Remove(e) => RemoveKeepsAggregates(s, e);
    case Reorder(q, ids) => ReorderKeepsAggregates(s, q, ids);
    case Drag(k, t) => CalendarDrag.DragKeepsAggregates(s, k, t);
    case Bulk(action, pps, now) =>
      BulkActions.ActedMembers(s.rows, action, pps);
      BulkActions.ActedIn(s.rows, action, pps);
      hide BulkActions.ActedOn, BulkActions.After;
      BulkActions.BulkKeepsAggregates(s, action, BulkActions.ActedOn(s.rows, action, pps), now);
    case Repair(workspace) => PublishedRepair.RepairKeepsAggregates(s, workspace);
  }

  /** Rows the step has no business with: history, other channels, and rows the
      operation neither names nor finds in its queue; for a repair the rows that are
      neither corrupt nor follow a repaired post. */
  ghost predicate Aside(s: State, op: Op, k: Key) {
    k in s.rows &&
    match op
    case Add(post, q, _, _) => Protected(s.rows[k].status) || k != Key(post, q.channel)
    case Prioritize(post, q, _, _, _) =>
      Protected(s.rows[k].status) || k.channel != q.channel || (k.post != post && EntryId(q, k.post) !in s.entries)
    case Remove(e) => Protected(s.rows[k].status) || k != Key(e.post, e.queue.channel)
    case Reorder(q, ids) => Protected(s.rows[k].status) || k.channel != q.channel || EntryId(q, k.post) !in ids
    case Drag(d, _) => Protected(s.rows[k].status) || k != d
    case Bulk(_, pps, _) => Protected(s.rows[k].status) || k !in pps
    case Repair(workspace) => k !in PublishedRepair.Affected(s, workspace) && !PublishedRepair.Pinned(s, workspace, k)
  }

  lemma AssignAside(s: State, q: Queue, plan: map<nat, Instant>, k: Key)
    requires k in s.rows && (k.channel != q.channel || k.post !in plan)
    ensures k in Assign(s, q, plan).rows && Assign(s, q, plan).rows[k] == s.rows[k]
  {
  }

  lemma StepSpares(s: State, op: Op, k: Key)
    requires Proper(s, op) && Aside(s, op, k)
    ensures k in Step(s, op).rows && Step(s, op).rows[k] == s.rows[k]
  {
    match op
    case Add(post, q, h, now) =>
      if AddNext(s, post, q, h, now).0 != s {
        var plan := AddPlan(s, post, q, h, now);
        assert k == Key(k.post, k.channel);
        AssignAside(WithEntry(s, post, q), q, plan, k);
      }
    case Prioritize(post, q, h, now, order) =>
      if Prioritized(s, post, q, h, now, order).1.Done? {
        var plan := PrioritizePlan(s, post, q, h, now, order);
        assert k == Key(k.post, k.channel);
        AssignAside(WithEntry(s, post, q), q, plan, k);
      }
    case Remove(e) =>
    case Reorder(q, ids) => ReorderFrame(s, q, ids, k);
    case Drag(_, _) =>
    case Bulk(action, pps, now) => BulkActions.BulkSpares(s, action, pps, now, k);
    case Repair(workspace) => PublishedRepair.RowAfter(s, workspace, k);
  }

  /** The history row is as it was, or a repair has put a corrupt one back to its
      publish instant; and its post is still there. */
  ghost predicate HistoryKept(s: State, t: State, k: Key, repairs: bool)
    requires k in s.rows
  {
    k in t.rows && (k.post in s.posts ==> k.post in t.posts)
    && (t.rows[k] == s.rows[k]
        || (repairs && s.rows[k].status == Published && s.rows[k].publishedAt.Some? && s.rows[k].scheduledAt.Some?
            && s.rows[k].scheduledAt.value > s.rows[k].publishedAt.value
            && t.rows[k] == s.rows[k].(scheduledAt := s.rows[k].publishedAt)))
  }

  lemma PostsStay(s: State, op: Op, p: nat)
    requires Proper(s, op) && !op.Bulk? && p in s.posts
    ensures p in Step(s, op).posts
  {
    match op
    case Add(post, q, h, now) =>
      if AddNext(s, post, q, h, now).0 != s {
        var plan := AddPlan(s, post, q, h, now);
        hide AddNext;
      }
    case Prioritize(post, q, h, now, order) =>
      PrioritizeOutcome(s, post, q, h, now, order);
      if Prioritized(s, post, q, h, now, order).1.Done? {
        var plan := PrioritizePlan(s, post, q, h, now, order);
        hide Prioritized;
      }
    case Remove(e) =>
    case Reorder(q, ids) =>
    case Drag(_, _) =>
    case Repair(workspace) => PublishedRepair.RepairTouchesOnly(s, workspace);
  }

  lemma HistoryStays(s: State, op: Op, k: Key)
    requires Proper(s, op) && k in s.rows && Protected(s.rows[k].status)
    ensures HistoryKept(s, Step(s, op), k, op.Repair?)
  {
    if op.Repair? {
      PublishedRepair.RowAfter(s, op.workspace, k);
      PublishedRepair.RepairTouchesOnly(s, op.workspace);
      hide PublishedRepair.Repaired;
    } else if op.Bulk? {
      BulkActions.BulkSpares(s, op.action, op.pps, op.now, k);
      hide BulkActions.Bulked;
    } else {
      assert Aside(s, op, k);
      StepSpares(s, op, k);
      if k.post in s.posts { PostsStay(s, op, k.post); }
      hide Step;
    }
  }

  /** The run has a repair in it. */
  predicate Repairs(ops: seq<Op>) {
    exists i :: 0 <= i < |ops| && ops[i].Repair?
  }

  lemma HistoryGoesOn(s: State, t: State, u: State, k: Key, first: bool, later: bool)
    requires k in s.rows && HistoryKept(s, t, k, first) && k in t.rows && HistoryKept(t, u, k, later)
    ensures HistoryKept(s, u, k, first || later)
  {
  }

  lemma {:induction false} RunKeeps(s: State, ops: seq<Op>)
    requires ProperRun(s, ops) && AggregatesRight(s)
    ensures AggregatesRight(Run(s, ops))
    ensures forall k | k in s.rows && Protected(s.rows[k].status) :: HistoryKept(s, Run(s, ops), k, Repairs(ops))
    decreases |ops|
  {
    if ops != [] {
      var t := Step(s, ops[0]);
      StepKeepsAggregates(s, ops[0]);
      RepairsSplit(ops);
      forall k | k in s.rows && Protected(s.rows[k].status)
        ensures HistoryKept(s, t, k, ops[0].Repair?) && k in t.rows && Protected(t.rows[k].status)
      {
        HistoryStays(s, ops[0], k);
      }
      hide Step, Proper, AggregatesRight, HistoryKept, Repairs, Protected;
      RunKeeps(t, ops[1..]);
      forall k | k in s.rows && Protected(s.rows[k].status) ensures HistoryKept(s, Run(s, ops), k, Repairs(ops)) {
        HistoryGoesOn(s, t, Run(t, ops[1..]), k, ops[0].Repair?, Repairs(ops[1..]));
      }
    }
  }

  /** Over any proper run, mixed as it may be, every post goes on caching the earliest
      time of its rows, and every published or publishing row stays as it is, but for
      corrupt ones that a repair of the run puts back to their publish instant. */
  lemma RunIsSafe(s: State, ops: seq<Op>)
    requires ProperRun(s, ops) && TimesCached(s)
    ensures TimesCached(Run(s, ops))
    ensures forall k | k in s.rows && (s.rows[k].status == Published || s.rows[k].status == Publishing) ::
              HistoryKept(s, Run(s, ops), k, Repairs(ops))
  {
    TimesCachedIs(s);
    TimesCachedIs(Run(s, ops));
    hide ProperRun, Run, AggregatesRight, HistoryKept, Repairs, TimesCached;
    RunKeeps(s, ops);
  }

  lemma RepairsSplit(ops: seq<Op>)
    requires ops != []
    ensures Repairs(ops) <==> ops[0].Repair? || Repairs(ops[1..])
  {
    if i :| 0 < i < |ops| && ops[i].Repair? {
      assert ops[1..][i - 1].Repair?;
    }
  }

  /** A run of queue operations alone also keeps every instant of every channel from
      being held twice, and changes no published or publishing row in any way. */
  lemma QueueRunIsSafe(s: State, ops: seq<Op>)
    requires ProperRun(s, ops) && (forall channel: nat :: Apart(s.rows, channel)) && TimesCached(s)
    requires forall i | 0 <= i < |ops| :: !ops[i].Drag? && !ops[i].Bulk? && !ops[i].Repair?
    ensures AlwaysApart(s, ops) && (forall channel: nat :: Apart(Run(s, ops).rows, channel)) && TimesCached(Run(s, ops))
    ensures forall k | k in s.rows && (s.rows[k].status == Published || s.rows[k].status == Publishing) ::
              k in Run(s, ops).rows && Run(s, ops).rows[k] == s.rows[k]
  {
    QueueRunIsClear(s, ops);
    assert !Repairs(ops);
    hide AlwaysApart, ClearRun, AggregatesRight, ProperRun, Run, Apart, NoDoubleBooking, TimesCached, NowhereDoubleBooked;
    NowhereIs(s);
    RunApartIff(s, ops);
    ApartAtTheEnd(s, ops);
    NowhereIs(Run(s, ops));
    RunIsSafe(s, ops);
  }

  lemma NowhereIs(s: State)
    ensures NowhereDoubleBooked(s) <==> forall channel: nat :: Apart(s.rows, channel)
  {
    hide Apart, NoDoubleBooking;
    forall channel: nat ensures NoDoubleBooking(s.rows, channel) <==> Apart(s.rows, channel) {
      ApartIs(s.rows, channel);
    }
    if forall channel: nat :: Apart(s.rows, channel) {
      forall channel: nat ensures NoDoubleBooking(s.rows, channel) {
        assert Apart(s.rows, channel);
      }
    }
  }

  /** The post is in no queue of the channel. */
  ghost predicate Unqueued(s: State, k: Key) {
    forall e | e in s.entries :: !(e.post == k.post && e.queue.channel == k.channel)
  }

  /** The operation is about other rows than `k`, which has the contents `r`. */
  ghost predicate AboutOthers(op: Op, k: Key, r: Row) {
    match op
    case Add(post, q, _, _) => k != Key(post, q.channel)
    case Prioritize(post, q, _, _, _) => k != Key(post, q.channel)
    case Remove(e) => k != Key(e.post, e.queue.channel)
    case Reorder(q, ids) => k.channel != q.channel || EntryId(q, k.post) !in ids
    case Drag(d, _) => k != d
    case Bulk(_, pps, _) => k !in pps
    case Repair(_) => !PublishedRepair.Corrupt(r) && !Follower(r)
  }

  lemma StepSparesUnqueued(s: State, op: Op, k: Key)
    requires Proper(s, op) && k in s.rows && Unqueued(s, k) && AboutOthers(op, k, s.rows[k])
    ensures k in Step(s, op).rows && Step(s, op).rows[k] == s.rows[k] && Unqueued(Step(s, op), k)
  {
    assert k == Key(k.post, k.channel);
    assert Aside(s, op, k) by {
      if op.Prioritize? && k.channel == op.q.channel {
        assert EntryId(op.q, k.post) !in s.entries;
      }
    }
    StepSpares(s, op, k);
    NewEntries(s, op);
    hide Step, Proper;
  }

  /** The only entry an operation adds is that of the post it places. */
  lemma NewEntries(s: State, op: Op)
    requires Proper(s, op)
    ensures forall e | e in Step(s, op).entries && e !in s.entries ::
              (op.Add? && e == EntryId(op.q, op.post)) || (op.Prioritize? && e == EntryId(op.q, op.post))
  {
    match op
    case Add(post, q, h, now) =>
      if AddNext(s, post, q, h, now).0 != s {
        var plan := AddPlan(s, post, q, h, now);
        hide AddNext;
      }
    case Prioritize(post, q, h, now, order) =>
      if Prioritized(s, post, q, h, now, order).1.Done? {
        var plan := PrioritizePlan(s, post, q, h, now, order);
        hide Prioritized;
      }
    case Remove(e) =>
    case Reorder(q, ids) => ReorderedKeys(s, q, ids);
    case Drag(_, _) =>
    case Bulk(action, pps, now) =>
      BulkActions.ActedIn(s.rows, action, pps);
      BulkActions.EntriesShrink(s, action, BulkActions.ActedOn(s.rows, action, pps), now);
    case Repair(workspace) => PublishedRepair.RepairTouchesOnly(s, workspace);
  }

  /** Over any proper run of operations about others, a post outside the channel's
      queues keeps its row, and stays outside. */
  lemma {:induction false} RunSparesOutsiders(s: State, ops: seq<Op>, k: Key)
    requires ProperRun(s, ops) && k in s.rows && Unqueued(s, k) && forall i | 0 <= i < |ops| :: AboutOthers(ops[i], k, s.rows[k])
    ensures k in Run(s, ops).rows && Run(s, ops).rows[k] == s.rows[k] && Unqueued(Run(s, ops), k)
    decreases |ops|
  {
    if ops != [] {
      StepSparesUnqueued(s, ops[0], k);
      hide Step, Proper, Unqueued, AboutOthers;
      RunSparesOutsiders(Step(s, ops[0]), ops[1..], k);
    }
  }

  // ----- mirrors over runs -----

  /** No post is queued twice on one channel. */
  ghost predicate OneQueueEach(s: State) {
    forall e, f | e in s.entries && f in s.entries && e.post == f.post && e.queue.channel == f.queue.channel :: e == f
  }

  /** The post is in no other queue of the channel. */
  ghost predicate FreeToJoin(s: State, post: nat, q: Queue) {
    forall e | e in s.entries && e.post == post && e.queue.channel == q.channel :: e.queue == q
  }

  ghost predicate Joins(s: State, op: Op) {
    match op
    case Add(post, q, _, _) => FreeToJoin(s, post, q)
    case Prioritize(post, q, _, _, _) => FreeToJoin(s, post, q)
    case Remove(_) => true
    case Reorder(_, _) => true
    case Drag(_, _) => true
    case Bulk(_, _, _) => true
    case Repair(workspace) => !exists e :: e in s.entries && PublishedRepair.Pinned(s, workspace, Key(e.post, e.queue.channel))
  }

  ghost predicate JoiningRun(s: State, ops: seq<Op>)
    decreases |ops|
  {
    ops == [] || (Joins(s, ops[0]) && JoiningRun(Step(s, ops[0]), ops[1..]))
  }

  ghost predicate Tidy(s: State) {
    OneQueueEach(s) && AllMirror(s)
  }

  /** Writing slots leaves every entry mirroring its row, if each entry either is
      written or mirrored before and is not written past. */
  lemma AssignTidies(s: State, q: Queue, plan: map<nat, Instant>)
    requires forall e | e in s.entries ::
               (e.queue == q && e.post in plan) || (Mirrors(s, e) && !(e.queue.channel == q.channel && e.post in plan))
    ensures AllMirror(Assign(s, q, plan))
  {
    var t := Assign(s, q, plan);
    forall e | e in t.entries ensures Mirrors(t, e) {
      assert e in s.entries;
    }
  }

  lemma WrittenTidies(s: State, post: nat, q: Queue, plan: map<nat, Instant>)
    requires Tidy(s) && FreeToJoin(s, post, q) && post in plan
    requires forall p | p in plan && p != post :: EntryId(q, p) in s.entries
    ensures Tidy(Assign(WithEntry(s, post, q), q, plan))
  {
    var t := WithEntry(s, post, q);
    forall e | e in t.entries
      ensures (e.queue == q && e.post in plan) || (Mirrors(t, e) && !(e.queue.channel == q.channel && e.post in plan))
    {
      assert e == EntryId(e.queue, e.post);
      if e in s.entries { assert Mirrors(s, e); }
    }
    AssignTidies(t, q, plan);
    assert OneQueueEach(t);
    hide WithEntry;
    hide AllMirror;
    assert Assign(t, q, plan).entries.Keys == t.entries.Keys;
  }

  lemma RemoveTidies(s: State, e: EntryId)
    requires Tidy(s)
    ensures Tidy(Removed(s, e))
  {
    var t := Removed(s, e);
    forall x | x in t.entries ensures Mirrors(t, x) && x in s.entries {
      assert Mirrors(s, x);
    }
  }

  lemma ReorderTidies(s: State, q: Queue, ids: seq<EntryId>)
    requires Tidy(s) && NoRepeats(ids)
    ensures Tidy(Reordered(s, q, ids))
  {
    var moved := Moved(s, q, ids);
    var slots := SortedTimes(s, q, ids);
    var plan := Pairing(moved, slots);
    var mid := Assign(s, q, plan);
    var t := Reordered(s, q, ids);
    MovedFacts(s, q, ids);
    PairingAt(moved, slots);
    NamedInQueue(s, q, ids);
    assert t == mid.(entries := Renumbered(mid.entries, q, Named(s, q, ids)));
    forall e | e in mid.entries ensures t.entries[e].slot == mid.entries[e].slot {
      RenumberedFrame(mid.entries, q, Named(s, q, ids), e);
    }
    hide Reordered;
    hide Renumbered;
    hide Moved;
    hide Pairing;
    forall e | e in s.entries
      ensures (e.queue == q && e.post in plan) || (Mirrors(s, e) && !(e.queue.channel == q.channel && e.post in plan))
    {
      assert e == EntryId(e.queue, e.post) && Mirrors(s, e);
      if e.post in plan && e.queue.channel == q.channel {
        assert e.post in moved && EntryId(q, e.post) in s.entries;
      }
    }
    AssignTidies(s, q, plan);
    assert mid.entries.Keys == s.entries.Keys == t.entries.Keys;
    forall e | e in t.entries ensures Mirrors(t, e) {
      assert Mirrors(mid, e);
    }
  }

  /** The posts a reorder moves are in the queue. */
  lemma NamedInQueue(s: State, q: Queue, ids: seq<EntryId>)
    ensures forall p | p in Moved(s, q, ids) :: EntryId(q, p) in s.entries
  {
    forall p | p in Moved(s, q, ids) ensures p in Named(s, q, ids) {
      var i :| 0 <= i < |Moved(s, q, ids)| && Moved(s, q, ids)[i] == p;
    }
    NamedEntries(s, q, ids);
  }

  lemma StepTidies(s: State, op: Op)
    requires Proper(s, op) && Joins(s, op) && Tidy(s)
    ensures Tidy(Step(s, op))
  {
    match op
    case Add(post, q, h, now) =>
      if AddNext(s, post, q, h, now).0 != s {
        var plan := AddPlan(s, post, q, h, now);
        WrittenTidies(s, post, q, plan);
      }
    case Prioritize(post, q, h, now, order) =>
      if Prioritized(s, post, q, h, now, order).1.Done? {
        var plan := PrioritizePlan(s, post, q, h, now, order);
        WrittenTidies(s, post, q, plan);
      }
    case Remove(e) => RemoveTidies(s, e);
    case Reorder(q, ids) => ReorderTidies(s, q, ids);
    case Drag(k, t) => CalendarDrag.DragKeepsMirrors(s, k, t);
    case Bulk(action, pps, now) => BulkActions.BulkKeepsMirrors(s, action, pps, now);
    case Repair(workspace) =>
      PublishedRepair.RepairMirrorsIff(s, workspace);
      PublishedRepair.RepairTouchesOnly(s, workspace);
  }

  /** As long as nobody queues a post twice on a channel, every queue entry
      mirrors its post's time after every run. */
  lemma {:induction false} RunStaysTidy(s: State, ops: seq<Op>)
    requires ProperRun(s, ops) && JoiningRun(s, ops) && Tidy(s)
    ensures Tidy(Run(s, ops))
    decreases |ops|
  {
    if ops != [] {
      StepTidies(s, ops[0]);
      RunStaysTidy(Step(s, ops[0]), ops[1..]);
    }
  }
}
