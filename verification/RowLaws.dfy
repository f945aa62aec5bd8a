/** What the queue operations come to, read off the rows and entries themselves:
    nothing here but the proofs goes through the vocabulary of QueueModel
    (apps/calendar/services.py, apps/composer/services.py, apps/composer/models.py).
    The methods of QueueService promise these as well. */
module RowLaws {
  import opened Common
  import opened PostingSlots
  import opened QueueModel
  import opened LadderWalk
  import opened LadderLaws
  import opened ReorderLaws

  // ----- who holds an instant -----

  /** The post's row on the channel is set for `t` and is neither published nor publishing. */
  predicate Holds(rows: map<Key, Row>, channel: nat, p: nat, t: Instant) {
    Key(p, channel) in rows && rows[Key(p, channel)].status != Published && rows[Key(p, channel)].status != Publishing
    && rows[Key(p, channel)].scheduledAt == Some(t)
  }

  ghost predicate HeldByOther(rows: map<Key, Row>, channel: nat, post: nat, t: Instant) {
    exists p: nat :: p != post && Holds(rows, channel, p, t)
  }

  /** No instant of the channel is held twice. */
  ghost predicate Apart(rows: map<Key, Row>, channel: nat) {
    forall p: nat, r: nat, t: Instant :: Holds(rows, channel, p, t) && Holds(rows, channel, r, t) ==> p == r
  }

  lemma ApartIs(rows: map<Key, Row>, channel: nat)
    ensures NoDoubleBooking(rows, channel) <==> Apart(rows, channel)
  {
    if NoDoubleBooking(rows, channel) {
      forall p: nat, r: nat, t: Instant | Holds(rows, channel, p, t) && Holds(rows, channel, r, t) ensures p == r {
        assert Key(p, channel) == Key(r, channel);
      }
    } else {
      var a, b :| a in rows && b in rows && a.channel == channel && b.channel == channel
                  && Live(rows[a]) && Live(rows[b]) && rows[a].scheduledAt == rows[b].scheduledAt && a != b;
      assert a == Key(a.post, channel) && b == Key(b.post, channel);
      var t := rows[a].scheduledAt.value;
      assert Holds(rows, channel, a.post, t) && Holds(rows, channel, b.post, t);
    }
  }

  /** Upcoming occupancy is being held by another post. */
  lemma OccupiedIs(rows: map<Key, Row>, channel: nat, now: Instant, post: nat, t: Instant)
    requires t > now
    ensures t in Occupied(rows, channel, now, Key(post, channel)) <==> HeldByOther(rows, channel, post, t)
  {
    if t in Occupied(rows, channel, now, Key(post, channel)) {
      var k :| k in rows && k.channel == channel && k != Key(post, channel) && Live(rows[k])
               && rows[k].scheduledAt.value > now && rows[k].scheduledAt.value == t;
      assert k == Key(k.post, channel);
      assert Holds(rows, channel, k.post, t);
    }
    if p: nat :| p != post && Holds(rows, channel, p, t) {
      assert Key(p, channel) in rows && Live(rows[Key(p, channel)]);
    }
  }

  // ----- the cached time of a post -----

  /** The earliest of the times of the post's rows; none if none of them has one. */
  ghost predicate LeastTime(rows: map<Key, Row>, post: nat, a: Option<Instant>) {
    (forall k | k in rows && k.post == post && rows[k].scheduledAt.Some? :: a.Some? && a.value <= rows[k].scheduledAt.value)
    && (a.Some? ==> exists k :: k in rows && k.post == post && rows[k].scheduledAt == a)
  }

  lemma LeastTimeIs(rows: map<Key, Row>, post: nat, a: Option<Instant>)
    ensures LeastTime(rows, post, a) <==> a == Aggregate(rows, post)
  {
    var times := ChildTimes(rows, post);
    forall k | k in rows && k.post == post && rows[k].scheduledAt.Some? ensures rows[k].scheduledAt.value in times {
    }
    if LeastTime(rows, post, a) && a.Some? {
      var k :| k in rows && k.post == post && rows[k].scheduledAt == a;
      assert a.value in times;
    }
  }

  /** Every post caches the earliest of its children's times. */
  ghost predicate TimesCached(s: State) {
    forall p | p in s.posts :: LeastTime(s.rows, p, s.posts[p].scheduledAt)
  }

  lemma TimesCachedIs(s: State)
    ensures AggregatesRight(s) <==> TimesCached(s)
  {
    forall p | p in s.posts ensures AggregateRight(s, p) <==> LeastTime(s.rows, p, s.posts[p].scheduledAt) {
      LeastTimeIs(s.rows, p, s.posts[p].scheduledAt);
    }
    hide AggregateRight, LeastTime;
  }

  /** The post with its cached time recomputed from `rows`; having one ends a suggestion. */
  ghost predicate Recached(before: Post, after: Post, rows: map<Key, Row>, post: nat) {
    LeastTime(rows, post, after.scheduledAt)
    && after.proposed == (if after.scheduledAt.Some? then None else before.proposed)
    && after.workspace == before.workspace && after.author == before.author
  }

  /** The posts of `who` with their cached times recomputed, the others as they were. */
  ghost predicate PostsRecached(before: map<nat, Post>, after: map<nat, Post>, rows: map<Key, Row>, who: set<nat>) {
    (forall p :: p in after <==> p in before)
    && (forall p | p in before :: if p in who then Recached(before[p], after[p], rows, p) else after[p] == before[p])
  }

  lemma SyncedIs(posts: map<nat, Post>, rows: map<Key, Row>, post: nat)
    ensures PostsRecached(posts, Synced(posts, rows, post), rows, {post})
  {
    if post in posts { ResyncedIs(posts[post], rows, post); }
    hide Recached, Aggregate;
  }

  lemma ResyncedIs(p: Post, rows: map<Key, Row>, post: nat)
    ensures Recached(p, Resynced(p, Aggregate(rows, post)), rows, post)
  {
    LeastTimeIs(rows, post, Aggregate(rows, post));
    hide LeastTime, Aggregate;
  }

  // ----- writing slots -----

  /** `t` is `s` with the posts of `at` on their instants and the post `post` in the
      queue: in their entries, in their rows on the queue's channel if they have one,
      and then in their cached time. A new entry stands behind all others. */
  ghost predicate PutOn(s: State, t: State, q: Queue, post: nat, at: map<nat, Instant>) {
    post in at && RowsPutOn(s, t, q, at) && EntriesPutOn(s, t, q, post, at) && PostsPutOn(s, t, q, at)
  }

  ghost predicate RowsPutOn(s: State, t: State, q: Queue, at: map<nat, Instant>) {
    (forall k :: k in t.rows <==> k in s.rows)
    && (forall k | k in s.rows ::
          t.rows[k] == if k.channel == q.channel && k.post in at then s.rows[k].(scheduledAt := Some(at[k.post])) else s.rows[k])
  }

  ghost predicate EntriesPutOn(s: State, t: State, q: Queue, post: nat, at: map<nat, Instant>)
    requires post in at
  {
    (forall e :: e in t.entries <==> e in s.entries || e == EntryId(q, post))
    && (forall e | e in s.entries ::
          t.entries[e] == if e.queue == q && e.post in at then s.entries[e].(slot := Some(at[e.post])) else s.entries[e])
    && (EntryId(q, post) !in s.entries ==>
          t.entries[EntryId(q, post)].slot == Some(at[post]) && NextPosition(s, q, t.entries[EntryId(q, post)].position))
  }

  ghost predicate PostsPutOn(s: State, t: State, q: Queue, at: map<nat, Instant>) {
    (forall p :: p in t.posts <==> p in s.posts)
    && (forall p | p in s.posts ::
          if p in at && Key(p, q.channel) in s.rows then Recached(s.posts[p], t.posts[p], t.rows, p)
          else t.posts[p] == s.posts[p])
  }

  /** One past the greatest position in the queue, and 1 in an empty one. */
  ghost predicate NextPosition(s: State, q: Queue, n: nat) {
    (forall e | e in s.entries && e.queue == q :: s.entries[e].position < n)
    && (n == 1 || exists e :: e in s.entries && e.queue == q && s.entries[e].position + 1 == n)
  }

  lemma LastPositionIs(s: State, q: Queue)
    ensures NextPosition(s, q, LastPosition(s, q) + 1)
  {
    forall e | e in s.entries && e.queue == q ensures s.entries[e].position in Positions(s, q) {
    }
    if Positions(s, q) != {} {
      assert LastPosition(s, q) in Positions(s, q);
      var e :| e in s.entries && e.queue == q && s.entries[e].position == LastPosition(s, q);
    }
  }

  lemma AssignRowsOn(s: State, q: Queue, post: nat, at: map<nat, Instant>)
    ensures RowsPutOn(s, Assign(WithEntry(s, post, q), q, at), q, at)
  {
    assert WithEntry(s, post, q).rows == s.rows;
    hide WithEntry, AssignEntries, AssignPosts;
  }

  lemma AssignEntriesOn(s: State, q: Queue, post: nat, at: map<nat, Instant>)
    requires post in at
    ensures EntriesPutOn(s, Assign(WithEntry(s, post, q), q, at), q, post, at)
  {
    LastPositionIs(s, q);
    hide NextPosition, LastPosition, AssignRows, AssignPosts;
  }

  lemma AssignPostsOn(s: State, q: Queue, post: nat, at: map<nat, Instant>)
    ensures PostsPutOn(s, Assign(WithEntry(s, post, q), q, at), q, at)
  {
    var t := Assign(WithEntry(s, post, q), q, at);
    assert WithEntry(s, post, q).rows == s.rows && WithEntry(s, post, q).posts == s.posts;
    hide WithEntry, AssignEntries, Aggregate, Recached;
    forall p | p in s.posts
      ensures if p in at && Key(p, q.channel) in s.rows then Recached(s.posts[p], t.posts[p], t.rows, p)
              else t.posts[p] == s.posts[p]
    {
      ResyncedIs(s.posts[p], t.rows, p);
    }
  }

  lemma AssignPutsOn(s: State, q: Queue, post: nat, at: map<nat, Instant>)
    requires post in at
    ensures PutOn(s, Assign(WithEntry(s, post, q), q, at), q, post, at)
  {
    AssignRowsOn(s, q, post, at);
    AssignEntriesOn(s, q, post, at);
    AssignPostsOn(s, q, post, at);
    hide Assign, WithEntry, RowsPutOn, EntriesPutOn, PostsPutOn;
  }

  // ----- adding -----

  /** The earliest slot that no other post holds. */
  ghost predicate EarliestOpen(rows: map<Key, Row>, channel: nat, post: nat, h: seq<Instant>, x: Instant) {
    x in h && !HeldByOther(rows, channel, post, x) && forall y | y in h && y < x :: HeldByOther(rows, channel, post, y)
  }

  /** The post is on the earliest slot that no other post holds, or every slot is held and nothing was done. */
  ghost predicate OnEarliest(s: State, post: nat, q: Queue, h: seq<Instant>, t: State, r: Outcome) {
    (r.QueueFull? <==> forall x | x in h :: HeldByOther(s.rows, q.channel, post, x))
    && (r.QueueFull? ==> t == s)
    && (r.Done? ==> exists x: Instant :: EarliestOpen(s.rows, q.channel, post, h, x) && PutOn(s, t, q, post, map[post := x]))
  }

  /** Adding a post: history stays where it is, anything else goes on the earliest slot. */
  ghost predicate AddedNext(s: State, post: nat, q: Queue, h: seq<Instant>, t: State, r: Outcome) {
    if Key(post, q.channel) in s.rows
       && (s.rows[Key(post, q.channel)].status == Published || s.rows[Key(post, q.channel)].status == Publishing)
    then t == s && r.Done?
    else OnEarliest(s, post, q, h, t, r)
  }

  lemma NextAvailableIs(rows: map<Key, Row>, channel: nat, post: nat, h: seq<Instant>, now: Instant)
    requires GoodHorizon(h, now)
    ensures var free := NextAvailable(h, Occupied(rows, channel, now, Key(post, channel)));
            (free.None? <==> forall x | x in h :: HeldByOther(rows, channel, post, x))
            && (free.Some? ==> EarliestOpen(rows, channel, post, h, free.value))
  {
    var occupied := Occupied(rows, channel, now, Key(post, channel));
    Complete(h, occupied);
    FirstFreeSplit(h, occupied);
    forall x | x in h ensures x in occupied <==> HeldByOther(rows, channel, post, x) {
      OccupiedIs(rows, channel, now, post, x);
    }
    hide Occupied, HeldByOther, NextAvailable;
    forall y | y in h && y !in occupied ensures FirstFree(h, occupied).Some? && FirstFree(h, occupied).value <= y {
      FirstFreeIsLeast(h, occupied, y);
    }
  }

  lemma TakesEarliest(s: State, post: nat, q: Queue, h: seq<Instant>, now: Instant)
    requires GoodHorizon(h, now)
    ensures var free := NextAvailable(h, Occupied(s.rows, q.channel, now, Key(post, q.channel)));
            OnEarliest(s, post, q, h, if free.None? then s else Assign(WithEntry(s, post, q), q, map[post := free.value]),
                       if free.None? then QueueFull else Done)
  {
    hide Assign, WithEntry, Occupied, NextAvailable, HeldByOther, EarliestOpen, GoodHorizon, PutOn;
    NextAvailableIs(s.rows, q.channel, post, h, now);
    var free := NextAvailable(h, Occupied(s.rows, q.channel, now, Key(post, q.channel)));
    if free.Some? {
      AssignPutsOn(s, q, post, map[post := free.value]);
    }
  }

  lemma AddRows(s: State, post: nat, q: Queue, h: seq<Instant>, now: Instant)
    requires GoodHorizon(h, now)
    ensures var r := AddNext(s, post, q, h, now); AddedNext(s, post, q, h, r.0, r.1)
  {
    TakesEarliest(s, post, q, h, now);
    hide Assign, WithEntry, Occupied, NextAvailable, GoodHorizon, OnEarliest;
  }

  lemma GoodIfIncreasing(sc: Schedule, now: Instant)
    ensures StrictlyIncreasing(Horizon(sc, now)) ==> GoodHorizon(Horizon(sc, now), now)
  {
    HorizonAfter(sc, now);
    hide Horizon;
  }

  /** The same for the horizon of a schedule. */
  lemma AddScheduled(s: State, post: nat, q: Queue, sc: Schedule, now: Instant)
    ensures StrictlyIncreasing(Horizon(sc, now)) ==>
              var r := AddNext(s, post, q, Horizon(sc, now), now); AddedNext(s, post, q, Horizon(sc, now), r.0, r.1)
  {
    hide *;
    GoodIfIncreasing(sc, now);
    if StrictlyIncreasing(Horizon(sc, now)) {
      AddRows(s, post, q, Horizon(sc, now), now);
    }
  }

  // ----- prioritizing -----

  /** The post's row on the channel waits for a time still to come. */
  predicate Upcoming(rows: map<Key, Row>, channel: nat, p: nat, now: Instant) {
    Key(p, channel) in rows && rows[Key(p, channel)].status != Published && rows[Key(p, channel)].status != Publishing
    && rows[Key(p, channel)].scheduledAt.Some? && rows[Key(p, channel)].scheduledAt.value > now
  }

  /** The other posts of the queue that wait. */
  function Waiting(s: State, post: nat, q: Queue, now: Instant): set<nat> {
    set e | e in s.entries && e.queue == q && e.post != post && Upcoming(s.rows, q.channel, e.post, now) :: e.post
  }

  /** One of them whose time is among the slots fetched: two more than there are of them. */
  ghost predicate Moving(s: State, post: nat, q: Queue, h: seq<Instant>, now: Instant, p: nat) {
    p in Waiting(s, post, q, now) && Upcoming(s.rows, q.channel, p, now)
    && exists i :: 0 <= i < |h| && i < |Waiting(s, post, q, now)| + 2 && Some(h[i]) == s.rows[Key(p, q.channel)].scheduledAt
  }

  /** A post that stays where it is holds the instant. */
  ghost predicate Stuck(s: State, post: nat, q: Queue, h: seq<Instant>, now: Instant, x: Instant) {
    exists p: nat :: p != post && Holds(s.rows, q.channel, p, x) && !Moving(s, post, q, h, now, p)
  }

  /** The first slot after `from` that no post holds which stays where it is. */
  ghost predicate NextUnstuck(s: State, post: nat, q: Queue, h: seq<Instant>, now: Instant, from: Instant, x: Instant) {
    x in h && x > from && !Stuck(s, post, q, h, now, x) && forall y | y in h && from < y < x :: Stuck(s, post, q, h, now, y)
  }

  /** Every later slot is held by a post that stays where it is. */
  ghost predicate NoWayUp(s: State, post: nat, q: Queue, h: seq<Instant>, now: Instant, from: Instant) {
    forall x | x in h && x > from :: Stuck(s, post, q, h, now, x)
  }

  /** Somebody who moves has no way up. */
  ghost predicate Jammed(s: State, post: nat, q: Queue, h: seq<Instant>, now: Instant) {
    exists p: nat, from: Instant ::
      Moving(s, post, q, h, now, p) && Holds(s.rows, q.channel, p, from) && NoWayUp(s, post, q, h, now, from)
  }

  /** The post gets the first slot, and everybody who moves the next one not stuck. */
  ghost predicate MovedUp(s: State, post: nat, q: Queue, h: seq<Instant>, now: Instant, at: map<nat, Instant>) {
    h != [] && post in at && at[post] == h[0]
    && (forall p: nat :: p in at <==> p == post || Moving(s, post, q, h, now, p))
    && (forall p: nat, from: Instant | p in at && p != post && Holds(s.rows, q.channel, p, from) ::
          NextUnstuck(s, post, q, h, now, from, at[p]))
  }

  /** Another entry of the queue has its post on the first slot. */
  ghost predicate FirstTaken(s: State, post: nat, q: Queue, h: seq<Instant>)
    requires h != []
  {
    exists p: nat :: p != post && EntryId(q, p) in s.entries && Holds(s.rows, q.channel, p, h[0])
  }

  /** Prioritizing a post. If another entry of the queue is on the first slot, the post
      gets that slot and the waiting entries on the slots fetched move up, each to the
      next slot that nobody holds who stays, unless one of them finds none. Otherwise
      nobody else moves, and the post goes on the earliest slot that is not held. */
  ghost predicate PutFirst(s: State, post: nat, q: Queue, h: seq<Instant>, now: Instant, t: State, r: Outcome) {
    if h != [] && FirstTaken(s, post, q, h) then
      (r.QueueFull? <==> Jammed(s, post, q, h, now)) && (r.QueueFull? ==> t == s)
      && (r.Done? ==> exists at: map<nat, Instant> :: MovedUp(s, post, q, h, now, at) && PutOn(s, t, q, post, at))
    else OnEarliest(s, post, q, h, t, r)
  }

  lemma WaitingIs(s: State, post: nat, q: Queue, now: Instant)
    ensures Waiting(s, post, q, now) == Movable(s, post, q, now)
  {
  }

  lemma MovingIs(s: State, post: nat, q: Queue, h: seq<Instant>, now: Instant, p: nat)
    ensures Moving(s, post, q, h, now, p) <==> p in Movers(s, post, q, h, now)
  {
    WaitingIs(s, post, q, now);
    if p in Movable(s, post, q, now) {
      assert Upcoming(s.rows, q.channel, p, now);
      hide Movable, Waiting;
      InTake(h, |Movable(s, post, q, now)| + 2, TimeOf(s, q, p));
    }
  }

  lemma InTake(h: seq<Instant>, n: nat, x: Instant)
    ensures x in Take(h, n) <==> exists i :: 0 <= i < |h| && i < n && Some(h[i]) == Some(x)
  {
    if i :| 0 <= i < |h| && i < n && Some(h[i]) == Some(x) {
      assert Take(h, n)[i] == x;
    }
  }

  lemma StuckIs(s: State, post: nat, q: Queue, h: seq<Instant>, now: Instant, x: Instant)
    requires x > now
    ensures Stuck(s, post, q, h, now, x) <==> HeldFast(s, post, q, h, now, x)
  {
    hide Movers, Moving;
    if p: nat :| p != post && Holds(s.rows, q.channel, p, x) && !Moving(s, post, q, h, now, p) {
      MovingIs(s, post, q, h, now, p);
      assert Key(p, q.channel) in s.rows && Live(s.rows[Key(p, q.channel)]);
    }
    if HeldFast(s, post, q, h, now, x) {
      var k :| k in s.rows && k.channel == q.channel && k.post != post && Live(s.rows[k])
               && s.rows[k].scheduledAt == Some(x) && x > now && k.post !in Movers(s, post, q, h, now);
      assert k == Key(k.post, q.channel);
      MovingIs(s, post, q, h, now, k.post);
      assert Holds(s.rows, q.channel, k.post, x);
    }
  }

  /** A mover's destination is the next slot not stuck. */
  lemma DestinationIs(s: State, post: nat, q: Queue, h: seq<Instant>, now: Instant, p: nat)
    requires GoodHorizon(h, now) && NoDoubleBooking(s.rows, q.channel) && p in Movers(s, post, q, h, now)
    ensures Slotted(s.rows, q, p)
    ensures var k := Destination(s, post, q, h, now, p);
            if k < |h| then NextUnstuck(s, post, q, h, now, TimeOf(s, q, p), h[k])
            else NoWayUp(s, post, q, h, now, TimeOf(s, q, p))
    ensures Destination(s, post, q, h, now, p) < |h| ==> !NoWayUp(s, post, q, h, now, TimeOf(s, q, p))
  {
    hide Avoid, Movers, Held, Indices, HeldFast, Stuck, TimeOf, NoDoubleBooking;
    MoverFacts(s, post, q, h, now, p);
    var i := Indices(h, Held(s, post, q, h, now))[p];
    var k := Destination(s, post, q, h, now, p);
    forall m: nat | m < |h| ensures h[m] in Avoid(s, post, q, h, now) <==> Stuck(s, post, q, h, now, h[m]) {
      assert h[m] in h;
      AvoidIsHeldFast(s, post, q, h, now, h[m]);
      StuckIs(s, post, q, h, now, h[m]);
    }
    forall y | y in h && h[i] < y && (k < |h| ==> y < h[k]) ensures Stuck(s, post, q, h, now, y) {
      var m: nat :| m < |h| && h[m] == y;
      assert i < m < k;
    }
  }

  lemma FirstTakenIs(s: State, post: nat, q: Queue, h: seq<Instant>, now: Instant)
    requires h != [] && GoodHorizon(h, now)
    ensures FirstTaken(s, post, q, h) <==> LadderNeeded(s, post, q, h, now)
  {
    assert h[0] in h && h[0] > now;
    if p: nat :| p != post && EntryId(q, p) in s.entries && Holds(s.rows, q.channel, p, h[0]) {
      assert p in Movable(s, post, q, now) && TimeOf(s, q, p) == h[0];
    }
    if p :| p in Movable(s, post, q, now) && TimeOf(s, q, p) == h[0] {
      assert Holds(s.rows, q.channel, p, h[0]);
    }
  }

  /** What there is to know of a mover's way up. */
  lemma MoverWay(s: State, post: nat, q: Queue, h: seq<Instant>, now: Instant, p: nat) returns (from: Instant)
    requires GoodHorizon(h, now) && NoDoubleBooking(s.rows, q.channel) && p in Movers(s, post, q, h, now)
    ensures Holds(s.rows, q.channel, p, from) && forall x: Instant | Holds(s.rows, q.channel, p, x) :: x == from
    ensures Destination(s, post, q, h, now, p) < |h| <==> !NoWayUp(s, post, q, h, now, from)
    ensures Destination(s, post, q, h, now, p) < |h| ==>
              NextUnstuck(s, post, q, h, now, from, h[Destination(s, post, q, h, now, p)])
  {
    hide Movers, Destination, NoWayUp, NextUnstuck, GoodHorizon, NoDoubleBooking;
    MoverFacts(s, post, q, h, now, p);
    DestinationIs(s, post, q, h, now, p);
    from := TimeOf(s, q, p);
  }

  lemma JammedIs(s: State, post: nat, q: Queue, h: seq<Instant>, now: Instant)
    requires GoodHorizon(h, now) && NoDoubleBooking(s.rows, q.channel)
    ensures Jammed(s, post, q, h, now) <==> !AllHaveDestinations(s, post, q, h, now)
  {
    hide Movers, Destination, NoWayUp, NextUnstuck, GoodHorizon, NoDoubleBooking, Holds, Moving;
    if p: nat, from: Instant :|
        Moving(s, post, q, h, now, p) && Holds(s.rows, q.channel, p, from) && NoWayUp(s, post, q, h, now, from) {
      MovingIs(s, post, q, h, now, p);
      var own := MoverWay(s, post, q, h, now, p);
      assert Destination(s, post, q, h, now, p) >= |h|;
    }
    if p: nat :| p in Movers(s, post, q, h, now) && Destination(s, post, q, h, now, p) >= |h| {
      MovingIs(s, post, q, h, now, p);
      var own := MoverWay(s, post, q, h, now, p);
    }
  }

  /** Without double booking the ladder writes just that. */
  lemma PlanMovesUp(s: State, post: nat, q: Queue, h: seq<Instant>, now: Instant, order: seq<nat>)
    requires GoodHorizon(h, now) && NoDoubleBooking(s.rows, q.channel) && MoverOrder(s, post, q, h, now, order)
    requires h != [] && Climbs(s, post, q, h, now, order).Some?
    ensures MovedUp(s, post, q, h, now, LadderPlan(h, Climbs(s, post, q, h, now, order).value, post))
  {
    hide *;
    var w := Climbs(s, post, q, h, now, order).value;
    var plan := LadderPlan(h, w, post);
    CleanLadder(s, post, q, h, now, order);
    ClimbKeys(s, post, q, h, now, order);
    PostIsNoMover(s, post, q, h, now);
    PlanKeys(h, w, post);
    assert forall p :: p in plan <==> p in plan.Keys;
    forall p: nat ensures Moving(s, post, q, h, now, p) <==> p in Movers(s, post, q, h, now) {
      MovingIs(s, post, q, h, now, p);
    }
    forall p: nat, from: Instant | p in plan && p != post && Holds(s.rows, q.channel, p, from)
      ensures NextUnstuck(s, post, q, h, now, from, plan[p])
    {
      assert p in Movers(s, post, q, h, now) && p in w;
      var own := MoverWay(s, post, q, h, now, p);
    }
    MovedUpIs(s, post, q, h, now, plan);
  }

  lemma MovedUpIs(s: State, post: nat, q: Queue, h: seq<Instant>, now: Instant, at: map<nat, Instant>)
    requires h != [] && post in at && at[post] == h[0]
    requires forall p: nat :: p in at <==> p == post || Moving(s, post, q, h, now, p)
    requires forall p: nat, from: Instant | p in at && p != post && Holds(s.rows, q.channel, p, from) ::
               NextUnstuck(s, post, q, h, now, from, at[p])
    ensures MovedUp(s, post, q, h, now, at)
  {
    hide Moving, Holds, NextUnstuck;
  }

  lemma LadderRows(s: State, post: nat, q: Queue, h: seq<Instant>, now: Instant, order: seq<nat>)
    requires GoodHorizon(h, now) && NoDoubleBooking(s.rows, q.channel) && MoverOrder(s, post, q, h, now, order)
    requires h != [] && FirstTaken(s, post, q, h)
    ensures var r := Prioritized(s, post, q, h, now, order); PutFirst(s, post, q, h, now, r.0, r.1)
  {
    hide *;
    FirstTakenIs(s, post, q, h, now);
    LadderIs(s, post, q, h, now, order);
    CleanLadder(s, post, q, h, now, order);
    JammedIs(s, post, q, h, now);
    if Climbs(s, post, q, h, now, order).Some? {
      var plan := LadderPlan(h, Climbs(s, post, q, h, now, order).value, post);
      PlanMovesUp(s, post, q, h, now, order);
      PlanKeys(h, Climbs(s, post, q, h, now, order).value, post);
      assert post in plan.Keys;
      AssignPutsOn(s, q, post, plan);
      LadderDone(s, post, q, h, now, Assign(WithEntry(s, post, q), q, plan), plan);
    } else {
      LadderFull(s, post, q, h, now);
    }
  }

  lemma LadderDone(s: State, post: nat, q: Queue, h: seq<Instant>, now: Instant, t: State, at: map<nat, Instant>)
    requires h != [] && FirstTaken(s, post, q, h) && !Jammed(s, post, q, h, now)
    requires MovedUp(s, post, q, h, now, at) && PutOn(s, t, q, post, at)
    ensures PutFirst(s, post, q, h, now, t, Done)
  {
    hide FirstTaken, Jammed, MovedUp, PutOn, OnEarliest;
  }

  lemma LadderFull(s: State, post: nat, q: Queue, h: seq<Instant>, now: Instant)
    requires h != [] && FirstTaken(s, post, q, h) && Jammed(s, post, q, h, now)
    ensures PutFirst(s, post, q, h, now, s, QueueFull)
  {
    hide FirstTaken, Jammed, MovedUp, PutOn, OnEarliest;
  }

  lemma EarliestFirst(s: State, post: nat, q: Queue, h: seq<Instant>, now: Instant)
    requires h != [] && GoodHorizon(h, now) && h[0] !in Occupied(s.rows, q.channel, now, Key(post, q.channel))
    ensures OnEarliest(s, post, q, h, Assign(WithEntry(s, post, q), q, map[post := h[0]]), Done)
  {
    assert h[0] in h;
    OccupiedIs(s.rows, q.channel, now, post, h[0]);
    AssignPutsOn(s, q, post, map[post := h[0]]);
    hide Occupied, Assign, WithEntry, HeldByOther, PutOn;
    assert EarliestOpen(s.rows, q.channel, post, h, h[0]);
  }

  lemma NoLadderRows(s: State, post: nat, q: Queue, h: seq<Instant>, now: Instant, order: seq<nat>)
    requires GoodHorizon(h, now) && (h == [] || !FirstTaken(s, post, q, h))
    ensures var r := Prioritized(s, post, q, h, now, order); PutFirst(s, post, q, h, now, r.0, r.1)
  {
    hide Assign, WithEntry, Occupied, NextAvailable, GoodHorizon, OnEarliest, FirstTaken, LadderNeeded, Climbs, MovedUp;
    hide Jammed, PutOn;
    if h == [] {
      FullIfNoSlots(s, post, q);
    } else {
      FirstTakenIs(s, post, q, h, now);
      NoLadderIs(s, post, q, h, now, order);
      NoLadderTarget(s, post, q, h, now);
      TakesEarliest(s, post, q, h, now);
      if h[0] !in Occupied(s.rows, q.channel, now, Key(post, q.channel)) {
        EarliestFirst(s, post, q, h, now);
      }
    }
  }

  lemma FullIfNoSlots(s: State, post: nat, q: Queue)
    ensures OnEarliest(s, post, q, [], s, QueueFull)
  {
    hide HeldByOther;
  }

  /** Prioritizing, in a channel without double booking. */
  lemma PrioritizeRows(s: State, post: nat, q: Queue, h: seq<Instant>, now: Instant, order: seq<nat>)
    requires GoodHorizon(h, now) && Apart(s.rows, q.channel) && ClimbOrder(s, post, q, h, now, order)
    ensures var r := Prioritized(s, post, q, h, now, order); PutFirst(s, post, q, h, now, r.0, r.1)
  {
    ApartIs(s.rows, q.channel);
    if h != [] {
      FirstTakenIs(s, post, q, h, now);
    }
    assert h != [] && LadderNeeded(s, post, q, h, now) ==> MoverOrder(s, post, q, h, now, order);
    hide *;
    if h != [] && FirstTaken(s, post, q, h) {
      LadderRows(s, post, q, h, now, order);
    } else {
      NoLadderRows(s, post, q, h, now, order);
    }
  }

  /** The two entries are listed in this order, and the posts share an instant. */
  ghost predicate SharedInOrder(s: State, q: Queue, a: nat, b: nat, x: Instant) {
    Holds(s.rows, q.channel, a, x) && Holds(s.rows, q.channel, b, x)
    && EntryId(q, a) in s.entries && EntryId(q, b) in s.entries
    && s.entries[EntryId(q, a)].position < s.entries[EntryId(q, b)].position
  }

  lemma OrderDistinct(s: State, post: nat, q: Queue, h: seq<Instant>, now: Instant, order: seq<nat>)
    requires MoverOrder(s, post, q, h, now, order)
    ensures NoRepeats(order)
  {
  }

  /** Where the two stand in the order of the climb. */
  lemma SharedOrder(s: State, post: nat, q: Queue, h: seq<Instant>, now: Instant, order: seq<nat>, a: nat, b: nat, x: Instant)
    returns (i: nat, j: nat)
    requires MoverOrder(s, post, q, h, now, order) && SharedInOrder(s, q, a, b, x)
    requires a in Movers(s, post, q, h, now) && b in Movers(s, post, q, h, now)
    ensures i < j < |order| && order[i] == a && order[j] == b
    ensures var at := Indices(h, Held(s, post, q, h, now)); a in at && b in at && at[a] == at[b]
  {
    OrderIsMovers(s, post, q, h, now, order);
    MoverFacts(s, post, q, h, now, a);
    MoverFacts(s, post, q, h, now, b);
    hide Movers, Avoid;
    i :| 0 <= i < |order| && order[i] == a;
    j :| 0 <= j < |order| && order[j] == b;
    var at, rank := Indices(h, Held(s, post, q, h, now)), Ranks(s, q, Held(s, post, q, h, now));
    assert rank[a] < rank[b];
    assert !Above(at, rank, b, a);
  }

  /** In every state: of two posts that share an instant and both move, the one listed
      first in the queue ends strictly earlier. */
  lemma TiesKeepListing(s: State, post: nat, q: Queue, h: seq<Instant>, now: Instant, order: seq<nat>, a: nat, b: nat, x: Instant)
    requires GoodHorizon(h, now) && ClimbOrder(s, post, q, h, now, order) && h != [] && FirstTaken(s, post, q, h)
    requires Prioritized(s, post, q, h, now, order).1.Done?
    requires Moving(s, post, q, h, now, a) && Moving(s, post, q, h, now, b) && SharedInOrder(s, q, a, b, x)
    ensures var rows := Prioritized(s, post, q, h, now, order).0.rows;
            exists y: Instant, z: Instant :: Holds(rows, q.channel, a, y) && Holds(rows, q.channel, b, z) && x < y < z
  {
    FirstTakenIs(s, post, q, h, now);
    assert MoverOrder(s, post, q, h, now, order);
    hide *;
    MovingIs(s, post, q, h, now, a);
    MovingIs(s, post, q, h, now, b);
    var i, j := SharedOrder(s, post, q, h, now, order, a, b, x);
    OrderDistinct(s, post, q, h, now, order);
    LadderIs(s, post, q, h, now, order);
    var plan := PrioritizePlan(s, post, q, h, now, order);
    var w := Climbs(s, post, q, h, now, order).value;
    ClimbsIs(s, post, q, h, now, order);
    FirstEndsLower(h, Avoid(s, post, q, h, now), Indices(h, Held(s, post, q, h, now)), order, i, j);
    LadderPlanFacts(s, post, q, h, now, order);
    PlanKeys(h, w, post);
    PostIsNoMover(s, post, q, h, now);
    IncreasingAt(h, now, w[a], w[b]);
    AssignRowsOn(s, q, post, plan);
    TieRows(s, Assign(WithEntry(s, post, q), q, plan), post, q, h, now, plan, a, b, x);
  }

  lemma ClimbsIs(s: State, post: nat, q: Queue, h: seq<Instant>, now: Instant, order: seq<nat>)
    ensures Climbs(s, post, q, h, now, order)
         == Walk(h, Avoid(s, post, q, h, now), Indices(h, Held(s, post, q, h, now)), order)
  {
    hide Walk, Avoid;
  }

  lemma IncreasingAt(h: seq<Instant>, now: Instant, i: nat, j: nat)
    requires GoodHorizon(h, now) && i < j < |h|
    ensures h[i] < h[j]
  {
  }

  lemma TieRows(s: State, t: State, post: nat, q: Queue, h: seq<Instant>, now: Instant, plan: map<nat, Instant>,
                a: nat, b: nat, x: Instant)
    requires RowsPutOn(s, t, q, plan) && GoodPlan(s, post, q, h, now, plan) && SharedInOrder(s, q, a, b, x)
    requires a in plan && b in plan && a != post && b != post && plan[a] < plan[b]
    ensures exists y: Instant, z: Instant :: Holds(t.rows, q.channel, a, y) && Holds(t.rows, q.channel, b, z) && x < y < z
  {
    hide Movers, Avoid;
    assert TimeOf(s, q, a) == x;
    assert Holds(t.rows, q.channel, a, plan[a]) && Holds(t.rows, q.channel, b, plan[b]);
  }

  lemma PrioritizeScheduled(s: State, post: nat, q: Queue, sc: Schedule, now: Instant, order: seq<nat>)
    ensures var h := Horizon(sc, now);
            StrictlyIncreasing(h) && Apart(s.rows, q.channel) && ClimbOrder(s, post, q, h, now, order) ==>
              var r := Prioritized(s, post, q, h, now, order); PutFirst(s, post, q, h, now, r.0, r.1)
  {
    hide *;
    GoodIfIncreasing(sc, now);
    var h := Horizon(sc, now);
    if StrictlyIncreasing(h) && Apart(s.rows, q.channel) && ClimbOrder(s, post, q, h, now, order) {
      PrioritizeRows(s, post, q, h, now, order);
    }
  }

  // ----- removing -----

  /** An entry taken out of its queue. A row in one of the statuses that lead back to
      draft becomes an untimed draft, and every entry of the post on the channel goes;
      otherwise the row stays, and only the entry goes. */
  ghost predicate TakenOut(s: State, e: EntryId, t: State) {
    var own := Key(e.post, e.queue.channel);
    var drafted := own in s.rows && s.rows[own].status in {Approved, ChangesRequested, Rejected, Scheduled, Failed, OnHold};
    && (forall k :: k in t.rows <==> k in s.rows)
    && (forall k | k in s.rows ::
          t.rows[k] == if drafted && k == own then s.rows[k].(status := Draft, scheduledAt := None) else s.rows[k])
    && (forall x :: x in t.entries <==>
          x in s.entries && x != e && !(drafted && x.post == e.post && x.queue.channel == e.queue.channel))
    && (forall x | x in t.entries :: x in s.entries && t.entries[x] == s.entries[x])
    && PostsRecached(s.posts, t.posts, t.rows, {e.post})
  }

  lemma RemoveRows(s: State, e: EntryId)
    ensures TakenOut(s, e, Removed(s, e))
  {
    var t := Removed(s, e);
    SyncedIs(s.posts, t.rows, e.post);
    hide Synced, PostsRecached;
  }

  /** From where each status can be reached. */
  lemma ReachedFrom(from: Status)
    ensures CanTransition(from, Draft) <==> from in {Approved, ChangesRequested, Rejected, Scheduled, Failed, OnHold}
    ensures CanTransition(from, PendingReview) <==> from in {Draft, Approved, ChangesRequested, Rejected}
    ensures CanTransition(from, Approved) <==> from in {PendingReview, PendingClient, OnHold}
    ensures CanTransition(from, PendingClient) <==> from == Approved
    ensures CanTransition(from, ChangesRequested) <==> from in {PendingReview, PendingClient, OnHold}
    ensures CanTransition(from, Rejected) <==> from in {PendingReview, PendingClient}
    ensures CanTransition(from, Scheduled) <==> from in {Draft, Approved, Publishing, Failed}
    ensures CanTransition(from, Publishing) <==> from in {Draft, Approved, Scheduled, Failed}
    ensures CanTransition(from, Published) <==> from == Publishing
    ensures CanTransition(from, Failed) <==> from == Publishing
    ensures CanTransition(from, OnHold) <==> from == Approved
  {
  }

  // ----- reordering -----

  /** The id names an entry of the queue whose row, if it has one, is neither published nor publishing. */
  predicate Sortable(s: State, q: Queue, e: EntryId) {
    e.queue == q && e in s.entries
    && (Key(e.post, q.channel) in s.rows ==>
          s.rows[Key(e.post, q.channel)].status != Published && s.rows[Key(e.post, q.channel)].status != Publishing)
  }

  /** Its row has a time as well. */
  predicate Dealt(s: State, q: Queue, e: EntryId) {
    Sortable(s, q, e) && Key(e.post, q.channel) in s.rows && s.rows[Key(e.post, q.channel)].scheduledAt.Some?
  }

  /** How many sortable ids are named before place `i`. */
  function Preceding(s: State, q: Queue, ids: seq<EntryId>, i: nat): nat
    requires i <= |ids|
  {
    if i == 0 then 0 else Preceding(s, q, ids, i - 1) + if Sortable(s, q, ids[i - 1]) then 1 else 0
  }

  /** The posts on the channel that hold `x`. */
  function HoldersOf(rows: map<Key, Row>, channel: nat, x: Instant): set<nat> {
    set k | k in rows && k.channel == channel && Holds(rows, channel, k.post, x) :: k.post
  }

  /** Only the times of the named rows change. */
  ghost predicate OnlyDealt(s: State, q: Queue, ids: seq<EntryId>, t: State) {
    (forall k :: k in t.rows <==> k in s.rows)
    && (forall k | k in s.rows ::
          if k.channel == q.channel && EntryId(q, k.post) in ids && Dealt(s, q, EntryId(q, k.post))
          then t.rows[k].scheduledAt.Some? && t.rows[k] == s.rows[k].(scheduledAt := t.rows[k].scheduledAt)
          else t.rows[k] == s.rows[k])
  }

  /** Whoever is named first has the earlier time. */
  ghost predicate InOrderNamed(s: State, q: Queue, ids: seq<EntryId>, t: State) {
    forall i, j, x: Instant, y: Instant |
      0 <= i < j < |ids| && Dealt(s, q, ids[i]) && Dealt(s, q, ids[j])
      && Holds(t.rows, q.channel, ids[i].post, x) && Holds(t.rows, q.channel, ids[j].post, y) :: x <= y
  }

  /** The times of the named rows dealt out again in the order named: each instant has
      as many holders as before, and nothing else changes in the rows. */
  ghost predicate TimesDealt(s: State, q: Queue, ids: seq<EntryId>, t: State) {
    OnlyDealt(s, q, ids, t) && InOrderNamed(s, q, ids, t)
    && (forall x: Instant :: |HoldersOf(t.rows, q.channel, x)| == |HoldersOf(s.rows, q.channel, x)|)
  }

  /** A sortable id's entry has its place for its position and its row's time for its slot. */
  ghost predicate InPlace(s: State, q: Queue, ids: seq<EntryId>, i: nat, t: State)
    requires i < |ids|
  {
    ids[i] in s.entries && ids[i] in t.entries && t.entries[ids[i]].position == Preceding(s, q, ids, i)
    && t.entries[ids[i]].slot ==
       if Dealt(s, q, ids[i]) && Key(ids[i].post, q.channel) in t.rows then t.rows[Key(ids[i].post, q.channel)].scheduledAt
       else s.entries[ids[i]].slot
  }

  /** The named entries numbered by their places and showing their rows' times; the others as they were. */
  ghost predicate Renamed(s: State, q: Queue, ids: seq<EntryId>, t: State) {
    (forall e :: e in t.entries <==> e in s.entries)
    && (forall e | e in s.entries && !(e in ids && Sortable(s, q, e)) :: t.entries[e] == s.entries[e])
    && (forall i | 0 <= i < |ids| && Sortable(s, q, ids[i]) :: InPlace(s, q, ids, i, t))
  }

  /** The posts whose rows get a time. */
  ghost function DealtPosts(s: State, q: Queue, ids: seq<EntryId>): set<nat> {
    set e | e in ids && Dealt(s, q, e) :: e.post
  }

  ghost predicate Redealt(s: State, q: Queue, ids: seq<EntryId>, t: State) {
    TimesDealt(s, q, ids, t) && Renamed(s, q, ids, t) && PostsRecached(s.posts, t.posts, t.rows, DealtPosts(s, q, ids))
  }

  lemma {:induction false} NamedSplit(s: State, q: Queue, a: seq<EntryId>, b: seq<EntryId>)
    ensures Named(s, q, a + b) == Named(s, q, a) + Named(s, q, b)
  {
    if a == [] {
      assert a + b == b;
    } else {
      assert (a + b)[1..] == a[1..] + b;
      NamedSplit(s, q, a[1..], b);
    }
  }

  lemma {:induction false} SlottedSplit(s: State, q: Queue, a: seq<nat>, b: seq<nat>)
    ensures SlottedOf(s, q, a + b) == SlottedOf(s, q, a) + SlottedOf(s, q, b)
  {
    if a == [] {
      assert a + b == b;
    } else {
      assert (a + b)[1..] == a[1..] + b;
      SlottedSplit(s, q, a[1..], b);
    }
  }

  lemma NamedOne(s: State, q: Queue, e: EntryId)
    ensures Named(s, q, [e]) == if Sortable(s, q, e) then [e.post] else []
    ensures Moved(s, q, [e]) == if Dealt(s, q, e) then [e.post] else []
  {
    assert [e][1..] == [];
    assert Named(s, q, [e]) == if Sortable(s, q, e) then [e.post] else [];
    var one := [e.post];
    assert one[1..] == [];
    assert SlottedOf(s, q, one) == if Slotted(s.rows, q, e.post) then one else [];
    assert SlottedOf(s, q, []) == [];
    hide Named, SlottedOf;
  }

  lemma MovedSplit(s: State, q: Queue, a: seq<EntryId>, b: seq<EntryId>)
    ensures Moved(s, q, a + b) == Moved(s, q, a) + Moved(s, q, b)
  {
    NamedSplit(s, q, a, b);
    SlottedSplit(s, q, Named(s, q, a), Named(s, q, b));
  }

  lemma NamedMore(s: State, q: Queue, ids: seq<EntryId>, i: nat)
    requires i < |ids|
    ensures Named(s, q, ids[..i + 1]) == Named(s, q, ids[..i]) + (if Sortable(s, q, ids[i]) then [ids[i].post] else [])
    ensures Moved(s, q, ids[..i + 1]) == Moved(s, q, ids[..i]) + (if Dealt(s, q, ids[i]) then [ids[i].post] else [])
  {
    assert ids[..i + 1] == ids[..i] + [ids[i]];
    NamedSplit(s, q, ids[..i], [ids[i]]);
    MovedSplit(s, q, ids[..i], [ids[i]]);
    NamedOne(s, q, ids[i]);
    hide Named, Moved, Sortable, Dealt;
  }

  /** A sortable id is named at the place that its predecessors leave it. */
  lemma {:induction false} NamedAt(s: State, q: Queue, ids: seq<EntryId>, n: nat, i: nat)
    requires i < n <= |ids| && Sortable(s, q, ids[i])
    ensures Preceding(s, q, ids, i) < |Named(s, q, ids[..n])| && |Named(s, q, ids[..n])| == Preceding(s, q, ids, n)
    ensures Named(s, q, ids[..n])[Preceding(s, q, ids, i)] == ids[i].post
    decreases n
  {
    hide Named, Sortable;
    NamedMore(s, q, ids, n - 1);
    NamedCount(s, q, ids, n - 1);
    if i < n - 1 {
      NamedAt(s, q, ids, n - 1, i);
    }
  }

  lemma {:induction false} NamedCount(s: State, q: Queue, ids: seq<EntryId>, n: nat)
    requires n <= |ids|
    ensures |Named(s, q, ids[..n])| == Preceding(s, q, ids, n)
  {
    if n == 0 {
      assert ids[..0] == [];
    } else {
      NamedMore(s, q, ids, n - 1);
      NamedCount(s, q, ids, n - 1);
      hide Named, Sortable;
    }
  }

  lemma {:induction false} NamedIff(s: State, q: Queue, ids: seq<EntryId>, n: nat, p: nat)
    requires n <= |ids|
    ensures p in Named(s, q, ids[..n]) <==> EntryId(q, p) in ids[..n] && Sortable(s, q, EntryId(q, p))
    ensures p in Moved(s, q, ids[..n]) <==> EntryId(q, p) in ids[..n] && Dealt(s, q, EntryId(q, p))
    decreases n
  {
    if n == 0 {
      assert ids[..0] == [];
    } else {
      NamedMore(s, q, ids, n - 1);
      NamedIff(s, q, ids, n - 1, p);
      assert ids[..n] == ids[..n - 1] + [ids[n - 1]];
      SortableHere(s, q, ids[n - 1]);
      hide Named, Moved, Sortable, Dealt;
    }
  }

  lemma SortableHere(s: State, q: Queue, e: EntryId)
    ensures Sortable(s, q, e) ==> e == EntryId(q, e.post)
    ensures Dealt(s, q, e) ==> e == EntryId(q, e.post)
  {
  }

  lemma WholeList(ids: seq<EntryId>)
    ensures ids[..|ids|] == ids
  {
  }

  lemma HoldersIs(rows: map<Key, Row>, channel: nat, x: Instant)
    ensures HoldersOf(rows, channel, x) == Holders(rows, channel, x)
  {
    forall k | k in rows && k.channel == channel ensures k == Key(k.post, channel) {
    }
  }

  /** Of two dealt ids the one named first comes first in what is moved. */
  lemma MovedInOrder(s: State, q: Queue, ids: seq<EntryId>, i: nat, j: nat) returns (a: nat, b: nat)
    requires i < j < |ids| && Dealt(s, q, ids[i]) && Dealt(s, q, ids[j])
    ensures a < b < |Moved(s, q, ids)| && Moved(s, q, ids)[a] == ids[i].post && Moved(s, q, ids)[b] == ids[j].post
  {
    hide Moved, Dealt;
    a, b := |Moved(s, q, ids[..i])|, |Moved(s, q, ids[..j])|;
    MovedAt(s, q, ids, i);
    MovedAt(s, q, ids, j);
    NamedMore(s, q, ids, i);
    assert ids[..j] == ids[..i + 1] + ids[i + 1..j];
    MovedSplit(s, q, ids[..i + 1], ids[i + 1..j]);
  }

  lemma MovedAt(s: State, q: Queue, ids: seq<EntryId>, i: nat)
    requires i < |ids| && Dealt(s, q, ids[i])
    ensures |Moved(s, q, ids[..i])| < |Moved(s, q, ids)| && Moved(s, q, ids)[|Moved(s, q, ids[..i])|] == ids[i].post
  {
    hide Moved, Dealt;
    NamedMore(s, q, ids, i);
    assert ids == ids[..i + 1] + ids[i + 1..];
    MovedSplit(s, q, ids[..i + 1], ids[i + 1..]);
  }

  lemma ReorderOnlyDealt(s: State, q: Queue, ids: seq<EntryId>)
    requires NoRepeats(ids)
    ensures OnlyDealt(s, q, ids, Reordered(s, q, ids))
  {
    var t := Reordered(s, q, ids);
    var moved := Moved(s, q, ids);
    ReorderedRows(s, q, ids);
    WholeList(ids);
    hide Reordered, Moved, Named, SortedTimes, NoRepeats, Dealt, Slotted;
    forall k | k in s.rows
      ensures k in t.rows
      ensures if k.channel == q.channel && EntryId(q, k.post) in ids && Dealt(s, q, EntryId(q, k.post))
              then t.rows[k].scheduledAt.Some? && t.rows[k] == s.rows[k].(scheduledAt := t.rows[k].scheduledAt)
              else t.rows[k] == s.rows[k]
    {
      NamedIff(s, q, ids, |ids|, k.post);
      if k.channel == q.channel && k.post in moved {
        var i :| 0 <= i < |moved| && moved[i] == k.post;
        assert k == Key(moved[i], q.channel);
      }
    }
  }

  lemma ReorderInOrder(s: State, q: Queue, ids: seq<EntryId>)
    requires NoRepeats(ids)
    ensures InOrderNamed(s, q, ids, Reordered(s, q, ids))
  {
    var t := Reordered(s, q, ids);
    ReorderOrders(s, q, ids);
    hide Reordered, Moved, NoRepeats, Dealt;
    forall i, j, x: Instant, y: Instant |
        0 <= i < j < |ids| && Dealt(s, q, ids[i]) && Dealt(s, q, ids[j])
        && Holds(t.rows, q.channel, ids[i].post, x) && Holds(t.rows, q.channel, ids[j].post, y)
      ensures x <= y
    {
      var a, b := MovedInOrder(s, q, ids, i, j);
    }
  }

  lemma ReorderTimes(s: State, q: Queue, ids: seq<EntryId>)
    requires NoRepeats(ids)
    ensures TimesDealt(s, q, ids, Reordered(s, q, ids))
  {
    var t := Reordered(s, q, ids);
    hide Reordered, Dealt, OnlyDealt, InOrderNamed, Holders, HoldersOf, NoRepeats;
    ReorderOnlyDealt(s, q, ids);
    ReorderInOrder(s, q, ids);
    forall x: Instant ensures |HoldersOf(t.rows, q.channel, x)| == |HoldersOf(s.rows, q.channel, x)| {
      ReorderConserves(s, q, ids, x);
      HoldersIs(t.rows, q.channel, x);
      HoldersIs(s.rows, q.channel, x);
    }
  }

  lemma PlanIsDealt(s: State, q: Queue, ids: seq<EntryId>, p: nat)
    ensures p in ReorderPlan(s, q, ids) <==> EntryId(q, p) in ids && Dealt(s, q, EntryId(q, p))
    ensures p in Named(s, q, ids) <==> EntryId(q, p) in ids && Sortable(s, q, EntryId(q, p))
  {
    ReorderPlanWins(s, q, ids);
    WholeList(ids);
    NamedIff(s, q, ids, |ids|, p);
    hide ReorderPlan, Moved, Named, SortedTimes, Dealt, Sortable;
  }

  /** An entry after the times are dealt and before the positions are. */
  lemma SlotDealt(s: State, q: Queue, ids: seq<EntryId>, e: EntryId)
    requires e in s.entries
    ensures e in Assign(s, q, ReorderPlan(s, q, ids)).entries
    ensures var u := Assign(s, q, ReorderPlan(s, q, ids));
            u.entries[e].position == s.entries[e].position
            && if e in ids && Dealt(s, q, e)
               then Key(e.post, q.channel) in u.rows && u.entries[e].slot == u.rows[Key(e.post, q.channel)].scheduledAt
               else u.entries[e] == s.entries[e]
  {
    PlanIsDealt(s, q, ids, e.post);
    SortableHere(s, q, e);
    assert e.queue == q ==> e == EntryId(q, e.post);
    hide ReorderPlan, Named, AssignPosts;
  }

  lemma EntryUnnamed(s: State, q: Queue, ids: seq<EntryId>, e: EntryId)
    requires e in s.entries && !(e in ids && Sortable(s, q, e))
    ensures e in Reordered(s, q, ids).entries && Reordered(s, q, ids).entries[e] == s.entries[e]
  {
    ReorderWrites(s, q, ids);
    ReorderedKeys(s, q, ids);
    hide Reordered, Named, Assign, ReorderPlan, Renumbered, Sortable, Dealt;
    SlotDealt(s, q, ids, e);
    PlanIsDealt(s, q, ids, e.post);
    DealtIsSortable(s, q, e);
    RenumberedFrame(Assign(s, q, ReorderPlan(s, q, ids)).entries, q, Named(s, q, ids), e);
    assert e.queue == q ==> e == EntryId(q, e.post);
  }

  lemma EntryNamed(s: State, q: Queue, ids: seq<EntryId>, i: nat)
    requires NoRepeats(ids) && i < |ids| && Sortable(s, q, ids[i])
    ensures InPlace(s, q, ids, i, Reordered(s, q, ids))
  {
    var u := Assign(s, q, ReorderPlan(s, q, ids));
    ReorderWrites(s, q, ids);
    ReorderedKeys(s, q, ids);
    NamedDistinct(s, q, ids);
    WholeList(ids);
    hide Reordered, Named, Assign, ReorderPlan, Renumbered, NoRepeats, Sortable, Dealt;
    SortableHere(s, q, ids[i]);
    SortableEntry(s, q, ids[i]);
    SlotDealt(s, q, ids, ids[i]);
    NamedAt(s, q, ids, |ids|, i);
    RenumberedPlace(u.entries, q, Named(s, q, ids), Preceding(s, q, ids, i));
    RenumberedFrame(u.entries, q, Named(s, q, ids), ids[i]);
  }

  lemma ReorderEntries(s: State, q: Queue, ids: seq<EntryId>)
    requires NoRepeats(ids)
    ensures Renamed(s, q, ids, Reordered(s, q, ids))
  {
    var t := Reordered(s, q, ids);
    ReorderedKeys(s, q, ids);
    hide Reordered, NoRepeats, Sortable, InPlace;
    forall e ensures e in t.entries <==> e in s.entries {
      assert e in t.entries <==> e in t.entries.Keys;
    }
    forall e | e in s.entries && !(e in ids && Sortable(s, q, e)) ensures t.entries[e] == s.entries[e] {
      EntryUnnamed(s, q, ids, e);
    }
    forall i | 0 <= i < |ids| && Sortable(s, q, ids[i]) ensures InPlace(s, q, ids, i, t) {
      EntryNamed(s, q, ids, i);
    }
  }

  lemma DealtIsSortable(s: State, q: Queue, e: EntryId)
    ensures Dealt(s, q, e) ==> Sortable(s, q, e)
  {
  }

  lemma SortableEntry(s: State, q: Queue, e: EntryId)
    requires Sortable(s, q, e)
    ensures e in s.entries
  {
  }

  lemma ReorderPosts(s: State, q: Queue, ids: seq<EntryId>)
    ensures PostsRecached(s.posts, Reordered(s, q, ids).posts, Reordered(s, q, ids).rows, DealtPosts(s, q, ids))
  {
    var t := Reordered(s, q, ids);
    ReorderWrites(s, q, ids);
    hide Reordered, ReorderPlan, Aggregate, Recached, AssignEntries;
    forall p | p in s.posts
      ensures p in t.posts
      ensures if p in DealtPosts(s, q, ids) then Recached(s.posts[p], t.posts[p], t.rows, p) else t.posts[p] == s.posts[p]
    {
      PlanIsDealt(s, q, ids, p);
      ResyncedIs(s.posts[p], t.rows, p);
      DealtPost(s, q, ids, p);
    }
  }

  lemma DealtPost(s: State, q: Queue, ids: seq<EntryId>, p: nat)
    ensures p in DealtPosts(s, q, ids) <==> EntryId(q, p) in ids && Dealt(s, q, EntryId(q, p))
    ensures Dealt(s, q, EntryId(q, p)) ==> Key(p, q.channel) in s.rows
  {
    if e :| e in ids && Dealt(s, q, e) && e.post == p {
      assert e == EntryId(q, p);
    }
  }

  /** Reordering by distinct ids. */
  lemma ReorderRows(s: State, q: Queue, ids: seq<EntryId>)
    requires NoRepeats(ids)
    ensures Redealt(s, q, ids, Reordered(s, q, ids))
  {
    hide *;
    ReorderTimes(s, q, ids);
    ReorderEntries(s, q, ids);
    ReorderPosts(s, q, ids);
    RedealtIs(s, q, ids, Reordered(s, q, ids));
  }

  lemma RedealtIs(s: State, q: Queue, ids: seq<EntryId>, t: State)
    requires TimesDealt(s, q, ids, t) && Renamed(s, q, ids, t)
    requires PostsRecached(s.posts, t.posts, t.rows, DealtPosts(s, q, ids))
    ensures Redealt(s, q, ids, t)
  {
    hide TimesDealt, Renamed, PostsRecached, DealtPosts;
  }
}
