/** The queue operations as the program performs them, row by row and in place,
    proved to have exactly the effect that QueueModel states
    (apps/calendar/services.py; apps/composer/services.py for the aggregate).

    Every operation runs in one transaction under the channel's row lock, so an
    operation is one step; a raised QueueFullError rolls the step back. The
    channel's posting-slot configuration and the clock reading are parameters; the
    configuration is a Schedule, for which equal slots are equal instants. */
module QueueService {
  import opened Common
  import opened PostingSlots
  import opened QueueModel
  import opened LadderWalk
  import opened LadderLaws
  import opened RowLaws

  // ----- facts the ladder needs -----

  lemma AssignRowsMore(rows: map<Key, Row>, q: Queue, plan: map<nat, Instant>, p: nat, t: Instant)
    ensures AssignRows(AssignRows(rows, q, plan), q, map[p := t]) == AssignRows(rows, q, plan[p := t])
  {
  }

  lemma AssignEntriesMore(entries: map<EntryId, Entry>, q: Queue, plan: map<nat, Instant>, p: nat, t: Instant)
    ensures AssignEntries(AssignEntries(entries, q, plan), q, map[p := t]) == AssignEntries(entries, q, plan[p := t])
  {
  }

  lemma AssignPostsMore(posts: map<nat, Post>, r1: map<Key, Row>, r2: map<Key, Row>, q: Queue,
                        plan: map<nat, Instant>, p: nat, t: Instant)
    requires r1.Keys == r2.Keys && forall k | k in r1 && k.post != p :: r1[k] == r2[k]
    requires Key(p, q.channel) in r2 ==> r2[Key(p, q.channel)].scheduledAt.Some?
    ensures AssignPosts(AssignPosts(posts, r1, q, plan), r2, q, map[p := t]) == AssignPosts(posts, r2, q, plan[p := t])
  {
    var one := AssignPosts(posts, r1, q, plan);
    forall x | x in posts
      ensures AssignPosts(one, r2, q, map[p := t])[x] == AssignPosts(posts, r2, q, plan[p := t])[x]
    {
      if x != p {
        AggregateFrame(r1, r2, x);
      } else if Key(p, q.channel) in r2 {
        TimedChild(r2, Key(p, q.channel));
      }
    }
  }

  /** Writing one more slot extends the plan written so far. */
  lemma AssignMore(s: State, q: Queue, plan: map<nat, Instant>, p: nat, t: Instant)
    ensures Assign(Assign(s, q, plan), q, map[p := t]) == Assign(s, q, plan[p := t])
  {
    AssignRowsMore(s.rows, q, plan, p, t);
    AssignEntriesMore(s.entries, q, plan, p, t);
    AssignPostsMore(s.posts, AssignRows(s.rows, q, plan), AssignRows(s.rows, q, plan[p := t]), q, plan, p, t);
  }

  lemma AssignKeepsEntry(s: State, q: Queue, plan: map<nat, Instant>, e: EntryId)
    requires e in s.entries
    ensures e in Assign(s, q, plan).entries
  {
  }

  lemma AssignNothing(s: State, q: Queue)
    ensures Assign(s, q, map[]) == s
  {
    assert Assign(s, q, map[]).rows == s.rows;
    assert Assign(s, q, map[]).entries == s.entries;
    assert Assign(s, q, map[]).posts == s.posts;
  }

  function With(taken: set<nat>, j: nat): set<nat> {
    taken + {j}
  }

  /** One index more is handed out. */
  lemma HandOut(h: seq<Instant>, w: map<nat, nat>, p: nat, j: nat)
    requires (forall x | x in w :: w[x] < |h|) && p !in w && j < |h|
    ensures HandedOut(w[p := j]) == With(HandedOut(w), j)
    ensures SlotsOf(h, w[p := j]) == SlotsOf(h, w)[p := h[j]]
  {
    var more := w[p := j];
    assert more[p] == j && forall x | x in w :: x in more && more[x] == w[x];
    assert HandedOut(more) == With(HandedOut(w), j);
    assert SlotsOf(h, w[p := j]) == SlotsOf(h, w)[p := h[j]];
  }

  /** What the climb has done after the first `i` movers of the order. */
  ghost predicate ClimbedTo(h: seq<Instant>, avoid: set<Instant>, at: map<nat, nat>, order: seq<nat>, i: nat,
                            taken: set<nat>, w: map<nat, nat>)
    requires i <= |order|
  {
    Walk(h, avoid, at, order[..i]) == Some(w) && taken == HandedOut(w)
  }

  lemma ClimbStart(h: seq<Instant>, avoid: set<Instant>, at: map<nat, nat>, order: seq<nat>)
    ensures ClimbedTo(h, avoid, at, order, 0, {0}, map[]) && SlotsOf(h, map[]) == map[]
  {
    assert order[..0] == [];
    var none: map<nat, nat> := map[];
    assert HandedOut(none) == {0};
  }

  /** One rung: the mover climbs, or the whole climb is stuck, and then, among movers
      on distinct slots that nobody else holds, only at the first of them. */
  lemma ClimbStep(h: seq<Instant>, avoid: set<Instant>, at: map<nat, nat>, rank: map<nat, nat>, order: seq<nat>, i: nat,
                  taken: set<nat>, w: map<nat, nat>, j: nat)
    requires Descending(at, rank, order) && i < |order| && ClimbedTo(h, avoid, at, order, i, taken, w)
    requires order[i] in at && at[order[i]] < |h| && j == FirstOpen(h, at[order[i]] + 1, taken, avoid)
    requires forall x | x in w :: w[x] < |h|
    ensures j == |h| ==> Walk(h, avoid, at, order).None?
    ensures j == |h| && Clean(h, avoid, at) ==> w == map[]
    ensures j < |h| ==> ClimbedTo(h, avoid, at, order, i + 1, With(taken, j), w[order[i] := j])
    ensures j < |h| ==> SlotsOf(h, w[order[i] := j]) == SlotsOf(h, w)[order[i] := h[j]]
  {
    WalkStep(h, avoid, at, order, i);
    WalkFacts(h, avoid, at, order[..i]);
    NotYet(at, rank, order, i);
    if j == |h| {
      if Walk(h, avoid, at, order).Some? {
        WalkPrefix(h, avoid, at, order, i + 1);
      }
      if i > 0 && Clean(h, avoid, at) {
        OnlyTopmostFails(h, avoid, at, rank, order, i);
      }
      StartsEmpty(h, avoid, at, order, w, i);
    } else {
      hide Walk, FirstOpen, HandedOut, SlotsOf, Climbed, Descending, With;
      HandOut(h, w, order[i], j);
    }
  }

  /** Where the climb stands after `i` movers: the indices handed out, and what was written. */
  ghost predicate ClimbState(h: seq<Instant>, avoid: set<Instant>, at: map<nat, nat>, order: seq<nat>, i: nat,
                             taken: set<nat>, w: map<nat, nat>, plan: map<nat, Instant>)
    requires i <= |order|
  {
    ClimbedTo(h, avoid, at, order, i, taken, w) && (forall x | x in w :: w[x] < |h|) && plan == SlotsOf(h, w)
  }

  lemma ClimbOn(h: seq<Instant>, avoid: set<Instant>, at: map<nat, nat>, rank: map<nat, nat>, order: seq<nat>, i: nat,
                taken: set<nat>, w: map<nat, nat>, plan: map<nat, Instant>, j: nat, s: State, q: Queue)
    requires Descending(at, rank, order) && i < |order| && ClimbState(h, avoid, at, order, i, taken, w, plan)
    requires order[i] in at && at[order[i]] < |h| && j == FirstOpen(h, at[order[i]] + 1, taken, avoid)
    ensures j == |h| ==> Walk(h, avoid, at, order).None?
    ensures j == |h| && Clean(h, avoid, at) ==> Assign(s, q, plan) == s
    ensures j < |h| ==> ClimbState(h, avoid, at, order, i + 1, With(taken, j), w[order[i] := j], plan[order[i] := h[j]])
  {
    hide Walk, FirstOpen, Clean, ClimbedTo, Descending, Assign, SlotsOf, With;
    ClimbStep(h, avoid, at, rank, order, i, taken, w, j);
    EmptySlots(h, w, s, q);
  }

  lemma ClimbStateStart(h: seq<Instant>, avoid: set<Instant>, at: map<nat, nat>, order: seq<nat>)
    ensures ClimbState(h, avoid, at, order, 0, {0}, map[], map[])
  {
    ClimbStart(h, avoid, at, order);
  }

  lemma StartsEmpty(h: seq<Instant>, avoid: set<Instant>, at: map<nat, nat>, order: seq<nat>, w: map<nat, nat>, i: nat)
    requires i <= |order| && Walk(h, avoid, at, order[..i]) == Some(w)
    ensures i == 0 ==> w == map[]
  {
    if i == 0 { assert order[..0] == []; }
  }

  lemma NotYet(at: map<nat, nat>, rank: map<nat, nat>, order: seq<nat>, i: nat)
    requires Descending(at, rank, order) && i < |order|
    ensures order[i] !in Elems(order[..i])
  {
  }

  /** The entry appended for the post is not one of the movable ones. */
  lemma MovableSame(s: State, post: nat, q: Queue, now: Instant)
    ensures Movable(WithEntry(s, post, q), post, q, now) == Movable(s, post, q, now)
  {
  }

  /** Appending the post's entry first changes nothing in the ladder. */
  lemma LadderSame(s: State, post: nat, q: Queue, h: seq<Instant>, now: Instant)
    ensures Movers(WithEntry(s, post, q), post, q, h, now) == Movers(s, post, q, h, now)
    ensures Avoid(WithEntry(s, post, q), post, q, h, now) == Avoid(s, post, q, h, now)
    ensures Held(WithEntry(s, post, q), post, q, h, now) == Held(s, post, q, h, now)
  {
    MovableSame(s, post, q, now);
    assert WithEntry(s, post, q).rows == s.rows;
    hide Movable;
    hide WithEntry;
    assert Movers(WithEntry(s, post, q), post, q, h, now) == Movers(s, post, q, h, now);
    assert Held(WithEntry(s, post, q), post, q, h, now) == Held(s, post, q, h, now);
  }

  lemma MovableSlotted(s: State, post: nat, q: Queue, now: Instant)
    ensures forall p | p in Movable(s, post, q, now) :: Slotted(s.rows, q, p)
  {
  }

  lemma AvoidIs(s: State, post: nat, q: Queue, h: seq<Instant>, now: Instant)
    ensures var held := Held(s, post, q, h, now);
            Avoid(s, post, q, h, now) == Occupied(s.rows, q.channel, now, Key(post, q.channel)) - set p | p in held :: held[p]
  {
    var held := Held(s, post, q, h, now);
    assert (set p | p in held :: held[p]) == set p | p in Movers(s, post, q, h, now) :: TimeOf(s, q, p);
    hide Movers, Occupied;
  }

  /** The slots fetched first, extended as far as the ladder needs. */
  method Seek(sc: Schedule, now: Instant, fetched: seq<Instant>, start: nat, taken: set<nat>, avoid: set<Instant>)
    returns (j: nat, candidates: seq<Instant>)
    requires fetched <= Horizon(sc, now) && start <= |Horizon(sc, now)|
    ensures candidates <= Horizon(sc, now) && |fetched| <= |candidates|
    ensures j == FirstOpen(Horizon(sc, now), start, taken, avoid)
    ensures j < |Horizon(sc, now)| ==> j < |candidates|
    ensures j >= |candidates| ==> j == |Horizon(sc, now)|
  {
    ghost var h := Horizon(sc, now);
    j, candidates := start, fetched;
    while true
      invariant start <= j <= |h|
      invariant candidates <= h && |fetched| <= |candidates|
      invariant FirstOpen(h, start, taken, avoid) == FirstOpen(h, j, taken, avoid)
      decreases |h| - j
    {
      if j >= |candidates| {
        candidates := NextInstants(sc, now, j + 2);
        if j >= |candidates| {
          return;
        }
      }
      if j !in taken && candidates[j] !in avoid {
        return;
      }
      j := j + 1;
    }
  }

  /** Where each fetched slot instant stands. */
  method Positioned(candidates: seq<Instant>) returns (index: map<Instant, nat>)
    ensures forall t :: t in index <==> t in candidates
    ensures forall t | t in index :: index[t] < |candidates| && candidates[index[t]] == t
  {
    index := map[];
    for i := 0 to |candidates|
      invariant forall t :: t in index <==> t in candidates[..i]
      invariant forall t | t in index :: index[t] < i && candidates[index[t]] == t
    {
      assert candidates[..i + 1] == candidates[..i] + [candidates[i]];
      index := index[candidates[i] := i];
    }
    assert candidates[..|candidates|] == candidates;
  }

  /** Listed without repetition, each above the next. */
  ghost predicate Falling(at: map<nat, nat>, rank: map<nat, nat>, order: seq<nat>) {
    (forall i | 0 <= i < |order| :: order[i] in at && order[i] in rank)
    && (forall i, j | 0 <= i < j < |order| :: order[i] != order[j] && Above(at, rank, order[i], order[j]))
  }

  lemma InsertFalling(at: map<nat, nat>, rank: map<nat, nat>, s: seq<nat>, n: nat, p: nat)
    requires Falling(at, rank, s) && n <= |s| && p in at && p in rank && p !in s
    requires forall i | 0 <= i < n :: Above(at, rank, s[i], p)
    requires n < |s| ==> !Above(at, rank, s[n], p)
    ensures Falling(at, rank, s[..n] + [p] + s[n..])
    ensures forall x :: x in s[..n] + [p] + s[n..] <==> x == p || x in s
  {
    var t := s[..n] + [p] + s[n..];
    forall x ensures x in t <==> x == p || x in s {
      assert s == s[..n] + s[n..];
    }
    forall i, j | 0 <= i < j < |t| ensures t[i] != t[j] && Above(at, rank, t[i], t[j]) {
      var a := if i < n then i else i - 1;
      var b := if j < n then j else j - 1;
      assert i != n ==> t[i] == s[a];
      assert j != n ==> t[j] == s[b];
      if i == n {
        assert Above(at, rank, p, s[n]);
        assert b > n ==> Above(at, rank, s[n], s[b]);
      }
    }
    forall i | 0 <= i < |t| ensures t[i] in at && t[i] in rank {
      assert i != n ==> t[i] == s[if i < n then i else i - 1];
    }
  }

  /** The movers from the highest index down, those on one index by their places in
      the listing, each inserted behind those it does not precede. */
  method SortDescending(at: map<nat, nat>, rank: map<nat, nat>) returns (order: seq<nat>)
    requires rank.Keys == at.Keys
    ensures Descending(at, rank, order)
    ensures forall i, j | 0 <= i < j < |order| ::
              order[i] in at && order[j] in at
              && (at[order[i]] > at[order[j]] || (at[order[i]] == at[order[j]] && rank[order[i]] <= rank[order[j]]))
  {
    order := [];
    var todo := at.Keys;
    while todo != {}
      invariant todo <= at.Keys && Falling(at, rank, order)
      invariant forall p :: p in order <==> p in at && p !in todo
      decreases |todo|
    {
      var p :| p in todo;
      todo := todo - {p};
      var n := 0;
      while n < |order| && Above(at, rank, order[n], p)
        invariant n <= |order|
        invariant forall i | 0 <= i < n :: Above(at, rank, order[i], p)
      {
        n := n + 1;
      }
      InsertFalling(at, rank, order, n, p);
      order := order[..n] + [p] + order[n..];
    }
  }

  method Minimum(times: set<Instant>) returns (m: Instant)
    requires times != {}
    ensures m == Least(times)
  {
    m :| m in times;
    var pending := times;
    while pending != {}
      invariant pending <= times && m in times
      invariant forall x | x in times && x !in pending :: m <= x
      decreases |pending|
    {
      var x :| x in pending;
      pending := pending - {x};
      if x < m {
        m := x;
      }
    }
  }

  class Store {
    var posts: map<nat, Post>
    var rows: map<Key, Row>
    var entries: map<EntryId, Entry>

    function Now(): State
      reads this
    {
      State(posts, rows, entries)
    }

    /** Set the post's cached time to the earliest of its children's, which ends any
        suggestion, or clear it. */
    method SyncPost(post: nat)
      modifies this`posts
      ensures posts == Synced(old(posts), rows, post) && PostsRecached(old(posts), posts, rows, {post})
    {
      SyncedIs(posts, rows, post);
      hide PostsRecached;
      if post !in posts {
        return;
      }
      var times := set k | k in rows && k.post == post && rows[k].scheduledAt.Some? :: rows[k].scheduledAt.value;
      if times == {} {
        posts := posts[post := posts[post].(scheduledAt := None)];
      } else {
        var earliest := Minimum(times);
        posts := posts[post := posts[post].(scheduledAt := Some(earliest), proposed := None)];
      }
    }

    /** Persist one slot assignment to the entry, the row and the aggregate. */
    method WriteSlot(e: EntryId, slot: Instant)
      requires e in entries
      modifies this
      ensures Now() == Assign(old(Now()), e.queue, map[e.post := slot])
    {
      AssignOne(Now(), e, slot);
      entries := entries[e := entries[e].(slot := Some(slot))];
      var k := Key(e.post, e.queue.channel);
      if k in rows {
        rows := rows[k := rows[k].(scheduledAt := Some(slot))];
        SyncPost(k.post);
      }
    }

    /** Append an entry for the post when the queue has none. */
    method EnsureEntry(post: nat, q: Queue)
      modifies this`entries
      ensures Now() == WithEntry(old(Now()), post, q)
    {
      if EntryId(q, post) !in entries {
        var pending := Positions(Now(), q);
        var last := 0;
        while pending != {}
          invariant pending <= Positions(Now(), q)
          invariant last == 0 || last in Positions(Now(), q)
          invariant forall x | x in Positions(Now(), q) && x !in pending :: x <= last
          decreases |pending|
        {
          var x :| x in pending;
          pending := pending - {x};
          if x > last {
            last := x;
          }
        }
        assert last == LastPosition(Now(), q);
        entries := entries[EntryId(q, post) := Entry(last + 1, None)];
      }
    }

    /** Place the post into the first open slot; its own slot counts as vacated. */
    method AddPostNextAvailable(post: nat, q: Queue, sc: Schedule, now: Instant) returns (r: Outcome)
      modifies this
      ensures (Now(), r) == AddNext(old(Now()), post, q, Horizon(sc, now), now)
      ensures StrictlyIncreasing(Horizon(sc, now)) ==> AddedNext(old(Now()), post, q, Horizon(sc, now), Now(), r)
    {
      AddScheduled(Now(), post, q, sc, now);
      hide AddedNext, StrictlyIncreasing;
      var own := Key(post, q.channel);
      if own in rows && Protected(rows[own].status) {
        return Done;
      }
      var slot := NextAvailableSlot(sc, Occupied(rows, q.channel, now, own), now);
      if slot.None? {
        return QueueFull;
      }
      EnsureEntry(post, q);
      WriteSlot(EntryId(q, post), slot.value);
      return Done;
    }

    /** Free this entry's slot and move it to the next gap. */
    method ReslotToNextAvailable(e: EntryId, sc: Schedule, now: Instant) returns (r: Outcome)
      modifies this
      ensures (Now(), r) == AddNext(old(Now()), e.post, e.queue, Horizon(sc, now), now)
      ensures StrictlyIncreasing(Horizon(sc, now)) ==> AddedNext(old(Now()), e.post, e.queue, Horizon(sc, now), Now(), r)
    {
      hide *;
      r := AddPostNextAvailable(e.post, e.queue, sc, now);
    }

    /** The ladder's starting point: the movers with their times, the index each
        stands at, their places in the listing, and the instants to step over. */
    method Survey(post: nat, q: Queue, sc: Schedule, now: Instant, fetched: seq<Instant>)
      returns (held: map<nat, Instant>, at: map<nat, nat>, rank: map<nat, nat>, avoid: set<Instant>)
      requires fetched == Take(Horizon(sc, now), |Movable(Now(), post, q, now)| + 2)
      ensures held == Held(Now(), post, q, Horizon(sc, now), now)
      ensures at.Keys == held.Keys && forall p | p in at :: at[p] < |Horizon(sc, now)| && Horizon(sc, now)[at[p]] == held[p]
      ensures rank == Ranks(Now(), q, held)
      ensures avoid == Avoid(Now(), post, q, Horizon(sc, now), now)
    {
      hide Horizon, Occupied, Movable, Avoid, TimeOf, Position;
      var index := Positioned(fetched);
      var movable := Movable(Now(), post, q, now);
      MovableSlotted(Now(), post, q, now);
      held := map p | p in movable && TimeOf(Now(), q, p) in index :: TimeOf(Now(), q, p);
      assert held == Held(Now(), post, q, Horizon(sc, now), now);
      at := map p | p in held :: index[held[p]];
      assert forall i | 0 <= i < |fetched| :: fetched[i] == Horizon(sc, now)[i];
      rank := map p | p in held :: Position(Now(), q, p);
      avoid := Occupied(rows, q.channel, now, Key(post, q.channel)) - set p | p in held :: held[p];
      AvoidIs(Now(), post, q, Horizon(sc, now), now);
    }

    /** One rung: find the first open slot from `start` on, and write it. */
    method MoveUp(p: nat, q: Queue, sc: Schedule, now: Instant, fetched: seq<Instant>, start: nat, taken: set<nat>,
                  avoid: set<Instant>, ghost before: State, ghost plan: map<nat, Instant>)
      returns (j: nat, candidates: seq<Instant>)
      requires fetched <= Horizon(sc, now) && start <= |Horizon(sc, now)|
      requires EntryId(q, p) in Now().entries && Now() == Assign(before, q, plan)
      modifies this
      ensures candidates <= Horizon(sc, now) && |fetched| <= |candidates|
      ensures j == FirstOpen(Horizon(sc, now), start, taken, avoid)
      ensures j >= |candidates| ==> j == |Horizon(sc, now)| && Now() == old(Now())
      ensures j < |candidates| ==> j < |Horizon(sc, now)| && Now() == Assign(before, q, plan[p := Horizon(sc, now)[j]])
    {
      j, candidates := Seek(sc, now, fetched, start, taken, avoid);
      if j < |candidates| {
        AssignMore(before, q, plan, p, candidates[j]);
        WriteSlot(EntryId(q, p), candidates[j]);
      }
    }

    /** The climb: from the topmost mover down, each takes the first open slot after
        its own, fetching more slots as needed. When it gets stuck among movers on
        distinct slots that nobody else holds, nothing has been written. */
    method Climb(q: Queue, sc: Schedule, now: Instant, fetched: seq<Instant>,
                 at: map<nat, nat>, rank: map<nat, nat>, avoid: set<Instant>)
      returns (r: Outcome, ghost order: seq<nat>, ghost plan: map<nat, Instant>)
      requires fetched <= Horizon(sc, now) && rank.Keys == at.Keys
      requires forall p | p in at :: at[p] < |Horizon(sc, now)| && EntryId(q, p) in Now().entries
      modifies this
      ensures Descending(at, rank, order) && Now() == Assign(old(Now()), q, plan)
      ensures r.Done? <==> Walk(Horizon(sc, now), avoid, at, order).Some?
      ensures r.Done? ==> plan == SlotsOf(Horizon(sc, now), Walk(Horizon(sc, now), avoid, at, order).value)
      ensures r.QueueFull? && Clean(Horizon(sc, now), avoid, at) ==> Now() == old(Now())
    {
      ghost var h := Horizon(sc, now);
      ghost var before := Now();
      var candidates := fetched;
      var taken: set<nat> := {0};
      ghost var w: map<nat, nat> := map[];
      plan := map[];
      var list := SortDescending(at, rank);
      order := list;
      assert forall i | 0 <= i < |list| :: list[i] in at by {
        forall i | 0 <= i < |list| ensures list[i] in at { assert list[i] in list; }
      }
      AssignNothing(before, q);
      ClimbStateStart(h, avoid, at, list);
      hide *;
      for i := 0 to |list|
        invariant candidates <= h && Now() == Assign(before, q, plan)
        invariant ClimbState(h, avoid, at, list, i, taken, w, plan)
      {
        var p := list[i];
        AssignKeepsEntry(before, q, plan, EntryId(q, p));
        var j;
        j, candidates := MoveUp(p, q, sc, now, candidates, at[p] + 1, taken, avoid, before, plan);
        ClimbOn(h, avoid, at, rank, list, i, taken, w, plan, j, before, q);
        if j >= |candidates| {
          return QueueFull, list, plan;
        }
        taken := With(taken, j);
        w := w[p := j];
        plan := plan[p := h[j]];
      }
      ClimbEnd(h, avoid, at, list, taken, w, plan);
      r := Done;
    }

    /** The ladder: the movers climb, then the post takes the first slot. On a full
        queue the caller rolls back; without double booking nothing had been written
        by then. */
    method Ladder(post: nat, q: Queue, sc: Schedule, now: Instant, fetched: seq<Instant>)
      returns (r: Outcome, ghost order: seq<nat>, ghost plan: map<nat, Instant>)
      requires EntryId(q, post) in Now().entries
      requires Horizon(sc, now) != [] && fetched == Take(Horizon(sc, now), |Movable(Now(), post, q, now)| + 2)
      modifies this
      ensures r.Done? ==> plan.Keys == Movers(old(Now()), post, q, Horizon(sc, now), now) + {post}
      ensures r.Done? ==> Now() == Assign(old(Now()), q, plan)
      ensures StrictlyIncreasing(Horizon(sc, now)) ==>
                var climbs := Climbs(old(Now()), post, q, Horizon(sc, now), now, order);
                MoverOrder(old(Now()), post, q, Horizon(sc, now), now, order)
                && (r.Done? <==> climbs.Some?) && (r.Done? ==> plan == LadderPlan(Horizon(sc, now), climbs.value, post))
      ensures StrictlyIncreasing(Horizon(sc, now)) && NoDoubleBooking(old(rows), q.channel) && r.QueueFull? ==>
                Now() == old(Now())
    {
      ghost var h := Horizon(sc, now);
      ghost var before := Now();
      var held, at, rank, avoid := Survey(post, q, sc, now, fetched);
      SurveyIs(before, post, q, h, now, at, rank);
      assert fetched[0] == h[0];
      hide Assign, Horizon, Movers, Movable, Avoid, Held, Walk, Clean, Climbs, MoverOrder, LadderPlan, SlotsOf, Indices, Ranks;
      hide NoDoubleBooking, StrictlyIncreasing, Descending;
      r, order, plan := Climb(q, sc, now, fetched, at, rank, avoid);
      ClimbIs(before, post, q, h, now, at, order);
      if r.Done? {
        WalkKeys(h, avoid, at, rank, order);
        AssignMore(before, q, plan, post, h[0]);
        AssignKeepsEntry(before, q, plan, EntryId(q, post));
        WriteSlot(EntryId(q, post), fetched[0]);
        PlanMore(h, Walk(h, avoid, at, order).value, post);
        plan := plan[post := h[0]];
      }
    }

    /** Undo the transaction. */
    method RollBack(saved: State)
      modifies this
      ensures Now() == saved
    {
      posts, rows, entries := saved.posts, saved.rows, saved.entries;
    }

    /** No ladder: take the first slot, or the next gap when a foreign post holds it. */
    method TakeFirst(post: nat, q: Queue, sc: Schedule, now: Instant, target: Instant)
      returns (r: Outcome, ghost plan: map<nat, Instant>)
      requires EntryId(q, post) in Now().entries
      modifies this
      ensures r.Done? ==> plan.Keys == {post}
      ensures r.Done? ==> Now() == Assign(old(Now()), q, plan)
      ensures var occupied := Occupied(old(rows), q.channel, now, Key(post, q.channel));
              var free := NextAvailable(Horizon(sc, now), occupied);
              if target !in occupied then r.Done? && plan == map[post := target]
              else if free.None? then r.QueueFull?
              else r.Done? && plan == map[post := free.value]
    {
      var occupied := Occupied(rows, q.channel, now, Key(post, q.channel));
      var slot := target;
      if target in occupied {
        var free := NextAvailableSlot(sc, occupied, now);
        if free.None? {
          return QueueFull, map[];
        }
        slot := free.value;
      }
      WriteSlot(EntryId(q, post), slot);
      return Done, map[post := slot];
    }

    /** Put the post on the earliest upcoming slot, laddering the queue's movable
        entries up when one of them holds it. A full queue leaves everything as it
        was; with an increasing horizon the effect is `Prioritized`, double-booked
        channels included, for the climbing order that the listing of the queue gives. */
    method Prioritize(post: nat, q: Queue, sc: Schedule, now: Instant)
      returns (r: Outcome, ghost order: seq<nat>, ghost plan: map<nat, Instant>)
      modifies this
      ensures r.QueueFull? ==> Now() == old(Now())
      ensures r.Done? ==> plan.Keys <= Movers(old(Now()), post, q, Horizon(sc, now), now) + {post}
      ensures r.Done? ==> Now() == Assign(WithEntry(old(Now()), post, q), q, plan)
      ensures StrictlyIncreasing(Horizon(sc, now)) ==>
                ClimbOrder(old(Now()), post, q, Horizon(sc, now), now, order)
                && (Now(), r) == Prioritized(old(Now()), post, q, Horizon(sc, now), now, order)
      ensures StrictlyIncreasing(Horizon(sc, now)) && Apart(old(rows), q.channel) ==>
                PutFirst(old(Now()), post, q, Horizon(sc, now), now, Now(), r)
    {
      hide PutFirst, Apart;
      ghost var before := Now();
      ghost var h := Horizon(sc, now);
      order, plan := [], map[];
      var saved := Now();
      var movable := Movable(Now(), post, q, now);
      var movableTimes := set p | p in movable :: TimeOf(Now(), q, p);
      var candidates := NextInstants(sc, now, |movable| + 2);
      if candidates == [] {
        NoOrderNeeded(before, post, q, h, now, []);
        PrioritizeScheduled(before, post, q, sc, now, []);
        return QueueFull, [], map[];
      }
      EnsureEntry(post, q);
      MovableSame(before, post, q, now);
      LadderSame(before, post, q, h, now);
      var target := candidates[0];
      assert target in movableTimes <==> LadderNeeded(before, post, q, h, now);
      assert EntryId(q, post) in Now().entries && Now().rows == before.rows;
      hide Assign, Horizon, Movers, Movable, Avoid, Held, LadderNeeded, NextAvailable, Occupied, WithEntry, Now;
      hide Climbs, MoverOrder, LadderPlan, StrictlyIncreasing, PrioritizeTarget, NoDoubleBooking, Prioritized, ClimbOrder;
      if target !in movableTimes {
        NoLadderIs(before, post, q, h, now, order);
        NoLadderTarget(before, post, q, h, now);
        NoOrderNeeded(before, post, q, h, now, order);
        r, plan := TakeFirst(post, q, sc, now, target);
      } else {
        r, order, plan := Ladder(post, q, sc, now, candidates);
        SameLadder(before, post, q, h, now, order);
        LadderIs(before, post, q, h, now, order);
        assert StrictlyIncreasing(h) ==> ClimbOrder(before, post, q, h, now, order) by {
          if StrictlyIncreasing(h) { OrderFits(before, post, q, h, now, order); }
        }
      }
      if r.QueueFull? {
        RollBack(saved);
      }
      PrioritizeScheduled(before, post, q, sc, now, order);
    }

    /** The named entries that are in the queue and not history, in the order named. */
    method Collect(q: Queue, ids: seq<EntryId>) returns (ordered: seq<nat>)
      ensures ordered == Named(Now(), q, ids)
    {
      ordered := [];
      for i := 0 to |ids|
        invariant ordered + Named(Now(), q, ids[i..]) == Named(Now(), q, ids)
      {
        NamedStep(Now(), q, ids[i..]);
        assert ids[i..][1..] == ids[i + 1..];
        var own := Key(ids[i].post, q.channel);
        if ids[i].queue == q && ids[i] in entries && !(own in rows && Protected(rows[own].status)) {
          ordered := ordered + [ids[i].post];
        }
      }
      assert Named(Now(), q, ids[|ids|..]) == [];
    }

    /** Hand the held slot instants out again in the dragged order. */
    method ReorderQueue(q: Queue, ids: seq<EntryId>)
      modifies this
      ensures Now() == Reordered(old(Now()), q, ids)
      ensures NoRepeats(ids) ==> Redealt(old(Now()), q, ids, Now())
    {
      hide Reordered, Redealt, NoRepeats, Named, SlottedOf, TimesOf, Slotted, TimeOf, Sort, Pairing, Assign, Renumbered;
      ghost var before := Now();
      if NoRepeats(ids) {
        ReorderRows(before, q, ids);
      }
      var ordered := Collect(q, ids);
      var slotted := SlottedOf(Now(), q, ordered);
      var slots := Sort(TimesOf(Now(), q, slotted));
      SortLength(TimesOf(Now(), q, slotted));
      NamedEntries(before, q, ids);
      SlottedEntries(before, q, ordered);
      AssignNothing(before, q);
      PairingNone(slotted, slots);
      for i := 0 to |slotted|
        invariant Now() == Assign(before, q, Pairing(slotted[..i], slots[..i]))
      {
        PairingStep(slotted, slots, i);
        AssignKeepsEntry(before, q, Pairing(slotted[..i], slots[..i]), EntryId(q, slotted[i]));
        AssignMore(before, q, Pairing(slotted[..i], slots[..i]), slotted[i], slots[i]);
        WriteSlot(EntryId(q, slotted[i]), slots[i]);
      }
      PairingWhole(slotted, slots);
      Reposition(q, ordered);
      ReorderedIs(before, q, ids, ordered, slotted, slots);
    }

    /** Keep positions in step with the dragged order. */
    method Reposition(q: Queue, ordered: seq<nat>)
      modifies this`entries
      ensures Now() == old(Now()).(entries := Renumbered(old(entries), q, ordered))
    {
      var loaded := entries;
      for n := 0 to |ordered|
        invariant entries == Renumbered(loaded, q, ordered[..n])
      {
        assert ordered[..n + 1][..n] == ordered[..n];
        var e := EntryId(q, ordered[n]);
        if e in loaded && loaded[e].position != n {
          entries := entries[e := entries[e].(position := n)];
        }
      }
      assert ordered[..|ordered|] == ordered;
    }

    /** Delete the entry and, where the status allows it, send the row back to an untimed draft. */
    method RemoveFromQueue(e: EntryId)
      modifies this
      ensures Now() == Removed(old(Now()), e) && TakenOut(old(Now()), e, Now())
    {
      RemoveRows(Now(), e);
      hide TakenOut;
      ghost var target := Removed(Now(), e);
      var own := Key(e.post, e.queue.channel);
      if own in rows && !Protected(rows[own].status) && CanTransition(rows[own].status, Draft) {
        TransitionToDraft(own);
      }
      entries := entries - {e};
      assert entries == target.entries;
      SyncPost(e.post);
    }

    /** Draft a row: clear its time, drop its entries on the channel, resync the post. */
    method TransitionToDraft(k: Key)
      requires k in rows && CanTransition(rows[k].status, Draft)
      modifies this
      ensures rows == old(rows)[k := old(rows)[k].(status := Draft, scheduledAt := None)]
      ensures entries == map x | x in old(entries) && !(x.post == k.post && x.queue.channel == k.channel) :: old(entries)[x]
      ensures posts == Synced(old(posts), rows, k.post)
    {
      rows := rows[k := rows[k].(status := Draft, scheduledAt := None)];
      entries := map x | x in entries && !(x.post == k.post && x.queue.channel == k.channel) :: entries[x];
      SyncPost(k.post);
    }
  }

  lemma NamedStep(s: State, q: Queue, ids: seq<EntryId>)
    requires ids != []
    ensures var own := Key(ids[0].post, q.channel);
            Named(s, q, ids) ==
            (if ids[0].queue == q && ids[0] in s.entries && !(own in s.rows && Protected(s.rows[own].status))
             then [ids[0].post] else []) + Named(s, q, ids[1..])
  {
  }

  lemma SlottedEntries(s: State, q: Queue, named: seq<nat>)
    requires forall p | p in named :: EntryId(q, p) in s.entries
    ensures forall i | 0 <= i < |SlottedOf(s, q, named)| :: EntryId(q, SlottedOf(s, q, named)[i]) in s.entries
  {
  }

  lemma PairingNone(posts: seq<nat>, slots: seq<Instant>)
    requires |posts| == |slots|
    ensures Pairing(posts[..0], slots[..0]) == map[]
  {
  }

  lemma PairingStep(posts: seq<nat>, slots: seq<Instant>, i: nat)
    requires |posts| == |slots| && i < |posts|
    ensures Pairing(posts[..i + 1], slots[..i + 1]) == Pairing(posts[..i], slots[..i])[posts[i] := slots[i]]
  {
    assert posts[..i + 1][..i] == posts[..i];
    assert slots[..i + 1][..i] == slots[..i];
  }

  lemma PairingWhole(posts: seq<nat>, slots: seq<Instant>)
    requires |posts| == |slots|
    ensures Pairing(posts[..|posts|], slots[..|slots|]) == Pairing(posts, slots)
  {
    assert posts[..|posts|] == posts && slots[..|slots|] == slots;
  }

  lemma ReorderedIs(s: State, q: Queue, ids: seq<EntryId>, ordered: seq<nat>, slotted: seq<nat>, slots: seq<Instant>)
    requires ordered == Named(s, q, ids) && slotted == SlottedOf(s, q, ordered)
    requires slots == Sort(TimesOf(s, q, slotted)) && |slots| == |slotted|
    ensures var t := Assign(s, q, Pairing(slotted, slots));
            Reordered(s, q, ids) == t.(entries := Renumbered(t.entries, q, ordered))
  {
    hide Assign;
    hide Sort;
    hide Named;
  }

  lemma EmptySlots(h: seq<Instant>, w: map<nat, nat>, s: State, q: Queue)
    requires forall x | x in w :: w[x] < |h|
    ensures w == map[] ==> Assign(s, q, SlotsOf(h, w)) == s
  {
    if w == map[] {
      assert SlotsOf(h, w) == map[];
      AssignNothing(s, q);
    }
  }

  lemma ClimbEnd(h: seq<Instant>, avoid: set<Instant>, at: map<nat, nat>, order: seq<nat>, taken: set<nat>, w: map<nat, nat>,
                 plan: map<nat, Instant>)
    requires ClimbState(h, avoid, at, order, |order|, taken, w, plan)
    ensures Walk(h, avoid, at, order) == Some(w) && plan == SlotsOf(h, w)
  {
    assert order[..|order|] == order;
  }

  lemma WalkKeys(h: seq<Instant>, avoid: set<Instant>, at: map<nat, nat>, rank: map<nat, nat>, order: seq<nat>)
    requires Descending(at, rank, order) && Walk(h, avoid, at, order).Some?
    ensures SlotsOf(h, Walk(h, avoid, at, order).value).Keys == at.Keys
  {
    WalkFacts(h, avoid, at, order);
    hide Walk, Climbed;
    assert forall p :: p in Elems(order) <==> p in at;
  }

  lemma PlanMore(h: seq<Instant>, w: map<nat, nat>, post: nat)
    requires h != [] && forall p | p in w :: w[p] < |h|
    ensures LadderPlan(h, w, post) == SlotsOf(h, w)[post := h[0]]
  {
  }

  /** The indices found are those of the movers' slots. */
  lemma SurveyIs(s: State, post: nat, q: Queue, h: seq<Instant>, now: Instant, at: map<nat, nat>, rank: map<nat, nat>)
    requires var held := Held(s, post, q, h, now);
             at.Keys == held.Keys && (forall p | p in at :: at[p] < |h| && h[at[p]] == held[p]) && rank == Ranks(s, q, held)
    ensures StrictlyIncreasing(h) ==> at == Indices(h, Held(s, post, q, h, now))
    ensures at.Keys == Movers(s, post, q, h, now) && rank.Keys == at.Keys
    ensures forall p | p in at :: EntryId(q, p) in s.entries
    ensures StrictlyIncreasing(h) && NoDoubleBooking(s.rows, q.channel) ==> Clean(h, Avoid(s, post, q, h, now), at)
  {
    hide Avoid, Clean, NoDoubleBooking, Movers, Held;
    IndicesUnique(h, Held(s, post, q, h, now), at);
    if NoDoubleBooking(s.rows, q.channel) {
      MoversClean(s, post, q, h, now);
    }
    hide StrictlyIncreasing;
    forall p | p in at ensures EntryId(q, p) in s.entries {
      assert p in at.Keys;
      MoverFacts(s, post, q, h, now, p);
    }
  }

  lemma IndicesUnique(h: seq<Instant>, held: map<nat, Instant>, at: map<nat, nat>)
    requires (forall p | p in held :: held[p] in h) && at.Keys == held.Keys
    requires forall p | p in at :: at[p] < |h| && h[at[p]] == held[p]
    ensures StrictlyIncreasing(h) ==> at == Indices(h, held)
  {
    if StrictlyIncreasing(h) {
      var indices := Indices(h, held);
      forall p | p in at ensures at[p] == indices[p] {
        assert p in held && h[at[p]] == h[indices[p]];
      }
    }
  }

  lemma ClimbIs(s: State, post: nat, q: Queue, h: seq<Instant>, now: Instant, at: map<nat, nat>, order: seq<nat>)
    requires StrictlyIncreasing(h) ==> at == Indices(h, Held(s, post, q, h, now))
    requires Descending(at, Ranks(s, q, Held(s, post, q, h, now)), order)
    ensures StrictlyIncreasing(h) ==>
              MoverOrder(s, post, q, h, now, order)
              && Climbs(s, post, q, h, now, order) == Walk(h, Avoid(s, post, q, h, now), at, order)
  {
    hide Walk, Avoid, Descending;
  }

  /** Appending the post's entry first changes neither the order nor the climb. */
  lemma SameLadder(s: State, post: nat, q: Queue, h: seq<Instant>, now: Instant, order: seq<nat>)
    ensures var t := WithEntry(s, post, q);
            Climbs(t, post, q, h, now, order) == Climbs(s, post, q, h, now, order)
            && (MoverOrder(t, post, q, h, now, order) <==> MoverOrder(s, post, q, h, now, order))
  {
    LadderSame(s, post, q, h, now);
    var held := Held(s, post, q, h, now);
    EntryOnly(s, post, q);
    forall p | p in held ensures Position(WithEntry(s, post, q), q, p) == Position(s, q, p) {
      MoverFacts(s, post, q, h, now, p);
    }
    hide WithEntry, Avoid, Movers, Held, Walk, Descending, Position;
    assert Ranks(WithEntry(s, post, q), q, held) == Ranks(s, q, held);
  }
}
