/** Snapping published rows that were dragged into the future back to their real
    publish instant, without hastening anybody else
    (apps/calendar/services.py, repair_future_published_scheduled_at). */
module PublishedRepair {
  import opened Common
  import opened QueueModel
  import opened LadderLaws
  import opened QueueService
  import opened RowLaws

  predicate InScope(s: State, post: nat, workspace: Option<nat>) {
    workspace.None? || (post in s.posts && s.posts[post].workspace == workspace.value)
  }

  /** Published, yet scheduled after it was published. */
  predicate Corrupt(r: Row) {
    r.status == Published && r.publishedAt.Some? && r.scheduledAt.Some? && r.scheduledAt.value > r.publishedAt.value
  }

  function Affected(s: State, workspace: Option<nat>): set<Key> {
    set k | k in s.rows && Corrupt(s.rows[k]) && InScope(s, k.post, workspace)
  }

  /** Give the followers of `pinned` posts their post's time as their own. */
  function PinRows(posts: map<nat, Post>, rows: map<Key, Row>, pinned: set<nat>): map<Key, Row> {
    map k | k in rows ::
      if k.post in pinned && k.post in posts && posts[k.post].scheduledAt.Some? && Follower(rows[k])
      then rows[k].(scheduledAt := posts[k.post].scheduledAt) else rows[k]
  }

  function SnapRows(rows: map<Key, Row>, keys: set<Key>): map<Key, Row> {
    map k | k in rows :: if k in keys then rows[k].(scheduledAt := rows[k].publishedAt) else rows[k]
  }

  /** The queue entries of these rows that still show a slot after the publish instant. */
  function Stale(entries: map<EntryId, Entry>, rows: map<Key, Row>, keys: set<Key>): set<EntryId> {
    set e | e in entries && Key(e.post, e.queue.channel) in keys && Key(e.post, e.queue.channel) in rows
            && rows[Key(e.post, e.queue.channel)].publishedAt.Some? && entries[e].slot.Some?
            && entries[e].slot.value > rows[Key(e.post, e.queue.channel)].publishedAt.value
  }

  function SnapEntries(entries: map<EntryId, Entry>, rows: map<Key, Row>, keys: set<Key>): map<EntryId, Entry> {
    map e | e in entries ::
      if e in Stale(entries, rows, keys)
      then entries[e].(slot := rows[Key(e.post, e.queue.channel)].publishedAt) else entries[e]
  }

  ghost function SyncAll(posts: map<nat, Post>, rows: map<Key, Row>, synced: set<nat>): map<nat, Post> {
    map p | p in posts :: if p in synced then Resynced(posts[p], Aggregate(rows, p)) else posts[p]
  }

  ghost function Repaired(s: State, workspace: Option<nat>): State {
    var keys := Affected(s, workspace);
    var rows := SnapRows(PinRows(s.posts, s.rows, PostsOf(keys)), keys);
    State(SyncAll(s.posts, rows, PostsOf(keys)), rows, SnapEntries(s.entries, s.rows, keys))
  }

  // ----- what it guarantees -----

  lemma AffectedAfter(s: State, workspace: Option<nat>)
    ensures Affected(Repaired(s, workspace), workspace) == {}
  {
    var t := Repaired(s, workspace);
    forall k | k in t.rows && Corrupt(t.rows[k]) ensures !InScope(t, k.post, workspace) {
      assert k in s.rows;
      assert t.rows[k] == s.rows[k];
      assert k !in Affected(s, workspace);
    }
  }

  /** No published row in scope is left scheduled after its publish instant. */
  lemma RepairLeavesNone(s: State, workspace: Option<nat>, k: Key)
    requires k in Repaired(s, workspace).rows && InScope(s, k.post, workspace)
    ensures !Corrupt(Repaired(s, workspace).rows[k])
  {
    AffectedAfter(s, workspace);
    assert k !in Affected(Repaired(s, workspace), workspace);
  }

  /** A corrupt row takes its publish instant as its time, and its entries follow
      it back; besides them only followers of the same posts change. */
  lemma RepairTouchesOnly(s: State, workspace: Option<nat>)
    ensures var t := Repaired(s, workspace);
            var keys := Affected(s, workspace);
            && t.rows.Keys == s.rows.Keys && t.entries.Keys == s.entries.Keys && t.posts.Keys == s.posts.Keys
            && (forall k | k in keys :: t.rows[k] == s.rows[k].(scheduledAt := s.rows[k].publishedAt))
            && (forall k | k in s.rows && k !in keys && !(Follower(s.rows[k]) && k.post in PostsOf(keys)) ::
                  t.rows[k] == s.rows[k])
            && (forall e | e in s.entries ::
                  var k := Key(e.post, e.queue.channel);
                  t.entries[e] ==
                  if k in keys && s.entries[e].slot.Some? && s.entries[e].slot.value > s.rows[k].publishedAt.value
                  then s.entries[e].(slot := s.rows[k].publishedAt) else s.entries[e])
            && (forall p | p in s.posts && p !in PostsOf(keys) :: t.posts[p] == s.posts[p])
  {
  }

  lemma NothingToRepair(s: State, workspace: Option<nat>)
    requires Affected(s, workspace) == {}
    ensures Repaired(s, workspace) == s
  {
    assert PostsOf({}) == {};
    assert PinRows(s.posts, s.rows, {}) == s.rows;
    assert SnapRows(s.rows, {}) == s.rows;
    assert SyncAll(s.posts, s.rows, {}) == s.posts;
    assert SnapEntries(s.entries, s.rows, {}) == s.entries;
  }

  /** Repairing again changes nothing. */
  lemma RepairIdempotent(s: State, workspace: Option<nat>)
    ensures Repaired(Repaired(s, workspace), workspace) == Repaired(s, workspace)
  {
    AffectedAfter(s, workspace);
    hide Repaired;
    NothingToRepair(Repaired(s, workspace), workspace);
  }

  /** A follower whose post has no aggregate to fall back on. */
  ghost predicate Adrift(s: State, workspace: Option<nat>, k: Key) {
    k in s.rows && k.post in s.posts && Follower(s.rows[k]) && s.posts[k.post].scheduledAt.None?
    && k.post in PostsOf(Affected(s, workspace))
  }

  /** The aggregate of a repaired post is not empty: its snapped row has a time. */
  lemma RepairedHasTime(s: State, workspace: Option<nat>, p: nat)
    requires p in s.posts && p in PostsOf(Affected(s, workspace))
    ensures Repaired(s, workspace).posts[p].scheduledAt.Some?
  {
    var t := Repaired(s, workspace);
    var k :| k in Affected(s, workspace) && k.post == p;
    assert t.rows[k].scheduledAt == s.rows[k].publishedAt;
    assert s.rows[k].publishedAt.value in ChildTimes(t.rows, p);
  }

  lemma DueKept(s: State, workspace: Option<nat>, k: Key)
    requires k in s.rows && s.rows[k].status == Scheduled && !Adrift(s, workspace, k)
    ensures k in Repaired(s, workspace).rows && Repaired(s, workspace).rows[k].status == Scheduled
    ensures DueAt(Repaired(s, workspace), k) == DueAt(s, k)
  {
    assert k !in Affected(s, workspace);
  }

  /** The repair leaves the due time of every scheduled row as it was, although
      aggregates move into the past, exactly when no affected post lacks an
      aggregate while a scheduled child depends on it. */
  lemma RepairKeepsDueIff(s: State, workspace: Option<nat>)
    ensures (forall k | k in s.rows && s.rows[k].status == Scheduled ::
               k in Repaired(s, workspace).rows && DueAt(Repaired(s, workspace), k) == DueAt(s, k))
            <==> !exists k :: Adrift(s, workspace, k)
  {
    if k :| Adrift(s, workspace, k) {
      RepairedHasTime(s, workspace, k.post);
      assert k !in Affected(s, workspace);
      assert DueAt(Repaired(s, workspace), k).Some?;
    } else {
      forall k | k in s.rows && s.rows[k].status == Scheduled
        ensures k in Repaired(s, workspace).rows && DueAt(Repaired(s, workspace), k) == DueAt(s, k)
      {
        DueKept(s, workspace, k);
      }
    }
  }

  /** With aggregates that are right nobody is adrift, so nothing is hastened; and they stay right. */
  lemma RepairNeverHastens(s: State, workspace: Option<nat>)
    requires AggregatesRight(s)
    ensures AggregatesRight(Repaired(s, workspace))
    ensures forall k | k in s.rows && s.rows[k].status == Scheduled ::
              k in Repaired(s, workspace).rows && DueAt(Repaired(s, workspace), k) == DueAt(s, k)
  {
    forall k ensures !Adrift(s, workspace, k) {
      if k in s.rows && k.post in s.posts && k.post in PostsOf(Affected(s, workspace)) {
        assert AggregateRight(s, k.post);
        var a :| a in Affected(s, workspace) && a.post == k.post;
        assert s.rows[a].scheduledAt.value in ChildTimes(s.rows, k.post);
      }
    }
    RepairKeepsDueIff(s, workspace);
    RepairKeepsAggregates(s, workspace);
  }

  lemma RepairKeepsAggregates(s: State, workspace: Option<nat>)
    requires AggregatesRight(s)
    ensures AggregatesRight(Repaired(s, workspace))
  {
    var t := Repaired(s, workspace);
    forall p | p in t.posts ensures AggregateRight(t, p) {
      if p !in PostsOf(Affected(s, workspace)) {
        assert AggregateRight(s, p);
        forall k: Key | k in s.rows && k.post == p ensures t.rows[k] == s.rows[k] {
          assert k !in Affected(s, workspace);
        }
        AggregateFrame(s.rows, t.rows, p);
      }
    }
  }

  /** A follower that the repair gives its post's time as its own. */
  predicate Pinned(s: State, workspace: Option<nat>, k: Key) {
    k in s.rows && Follower(s.rows[k]) && k.post in PostsOf(Affected(s, workspace))
    && k.post in s.posts && s.posts[k.post].scheduledAt.Some?
  }

  lemma RowAfter(s: State, workspace: Option<nat>, k: Key)
    requires k in s.rows
    ensures k in Repaired(s, workspace).rows
    ensures Repaired(s, workspace).rows[k] ==
            if k in Affected(s, workspace) then s.rows[k].(scheduledAt := s.rows[k].publishedAt)
            else if Pinned(s, workspace, k) then s.rows[k].(scheduledAt := s.posts[k.post].scheduledAt)
            else s.rows[k]
  {
  }

  /** The pinned row comes to the time of another live row of its channel, or of
      another pinned one. */
  ghost predicate PinnedOnto(s: State, workspace: Option<nat>, channel: nat, a: Key, b: Key) {
    Pinned(s, workspace, a) && a.channel == channel && b in s.rows && b != a && b.channel == channel
    && ((Live(s.rows[b]) && s.rows[b].scheduledAt == s.posts[a.post].scheduledAt)
        || (Pinned(s, workspace, b) && s.posts[b.post].scheduledAt == s.posts[a.post].scheduledAt))
  }

  /** Which rows are live after the repair, and when. */
  lemma LiveAfter(s: State, workspace: Option<nat>, k: Key)
    requires k in s.rows
    ensures k in Repaired(s, workspace).rows
    ensures Live(Repaired(s, workspace).rows[k]) <==> Live(s.rows[k]) || Pinned(s, workspace, k)
    ensures Live(s.rows[k]) ==> Repaired(s, workspace).rows[k].scheduledAt == s.rows[k].scheduledAt && !Pinned(s, workspace, k)
    ensures Pinned(s, workspace, k) ==>
              k.post in s.posts && Repaired(s, workspace).rows[k].scheduledAt == s.posts[k.post].scheduledAt
  {
    RowAfter(s, workspace, k);
    hide Repaired;
  }

  lemma OntoClashes(s: State, workspace: Option<nat>, channel: nat, a: Key, b: Key)
    requires PinnedOnto(s, workspace, channel, a, b)
    ensures !NoDoubleBooking(Repaired(s, workspace).rows, channel)
  {
    assert a in s.rows && b in s.rows;
    LiveAfter(s, workspace, a);
    LiveAfter(s, workspace, b);
    hide Repaired, Pinned, Live;
  }

  /** Two live rows of the channel hold one instant. */
  predicate Clash(rows: map<Key, Row>, channel: nat, a: Key, b: Key) {
    a in rows && b in rows && a != b && a.channel == channel && b.channel == channel
    && Live(rows[a]) && Live(rows[b]) && rows[a].scheduledAt == rows[b].scheduledAt
  }

  lemma FindClash(rows: map<Key, Row>, channel: nat) returns (a: Key, b: Key)
    requires !NoDoubleBooking(rows, channel)
    ensures Clash(rows, channel, a, b)
  {
    a, b :| a in rows && b in rows && a.channel == channel && b.channel == channel
            && Live(rows[a]) && Live(rows[b]) && rows[a].scheduledAt == rows[b].scheduledAt && a != b;
  }

  lemma ClashIsOnto(s: State, workspace: Option<nat>, channel: nat, a: Key, b: Key)
    requires NoDoubleBooking(s.rows, channel) && Clash(Repaired(s, workspace).rows, channel, a, b)
    ensures PinnedOnto(s, workspace, channel, a, b) || PinnedOnto(s, workspace, channel, b, a)
  {
    assert a in s.rows && b in s.rows;
    LiveAfter(s, workspace, a);
    LiveAfter(s, workspace, b);
    hide Repaired, Pinned, Live;
  }

  /** The repair keeps a channel free of double booking exactly when no row that it
      pins comes to a time held or pinned on the channel already. */
  lemma RepairKeepsDistinctIff(s: State, workspace: Option<nat>, channel: nat)
    requires NoDoubleBooking(s.rows, channel)
    ensures NoDoubleBooking(Repaired(s, workspace).rows, channel) <==>
            !exists a, b :: PinnedOnto(s, workspace, channel, a, b)
  {
    hide *;
    if a, b :| PinnedOnto(s, workspace, channel, a, b) {
      OntoClashes(s, workspace, channel, a, b);
    }
    if !NoDoubleBooking(Repaired(s, workspace).rows, channel) {
      var a, b := FindClash(Repaired(s, workspace).rows, channel);
      ClashIsOnto(s, workspace, channel, a, b);
    }
  }

  /** Entries that mirrored their rows all still do exactly when no pinned row is queued. */
  lemma RepairMirrorsIff(s: State, workspace: Option<nat>)
    requires AllMirror(s)
    ensures AllMirror(Repaired(s, workspace)) <==>
            !exists e :: e in s.entries && Pinned(s, workspace, Key(e.post, e.queue.channel))
  {
    var t := Repaired(s, workspace);
    RepairTouchesOnly(s, workspace);
    forall e | e in s.entries
      ensures Mirrors(t, e) <==> !Pinned(s, workspace, Key(e.post, e.queue.channel))
    {
      assert Mirrors(s, e);
      if Key(e.post, e.queue.channel) in s.rows {
        RowAfter(s, workspace, Key(e.post, e.queue.channel));
      }
    }
    hide Repaired, Pinned;
  }

  // ----- read off the rows -----

  /** Published, in the workspace if one is given, and set for later than it was published. */
  predicate SetForLater(s: State, workspace: Option<nat>, k: Key) {
    k in s.rows && s.rows[k].status == Published && s.rows[k].publishedAt.Some? && s.rows[k].scheduledAt.Some?
    && s.rows[k].scheduledAt.value > s.rows[k].publishedAt.value
    && (workspace.Some? ==> k.post in s.posts && s.posts[k.post].workspace == workspace.value)
  }

  function LateOnes(s: State, workspace: Option<nat>): set<Key> {
    set k | k in s.rows && SetForLater(s, workspace, k)
  }

  function LatePosts(s: State, workspace: Option<nat>): set<nat> {
    set k | k in s.rows && SetForLater(s, workspace, k) :: k.post
  }

  /** The entry shows a slot after the instant at which its row was published. */
  predicate Behind(s: State, workspace: Option<nat>, e: EntryId) {
    var k := Key(e.post, e.queue.channel);
    e in s.entries && SetForLater(s, workspace, k) && s.entries[e].slot.Some?
    && s.entries[e].slot.value > s.rows[k].publishedAt.value
  }

  function BehindOnes(s: State, workspace: Option<nat>): set<EntryId> {
    set e | e in s.entries && Behind(s, workspace, e)
  }

  /** Every row set for later is back at its publish instant, with its entries; its
      siblings that are scheduled without a time get their post's; the cached times
      of these posts are recomputed; and nothing else changed. */
  ghost predicate Snapped(s: State, workspace: Option<nat>, t: State) {
    (forall k :: k in t.rows <==> k in s.rows)
    && (forall k | k in s.rows :: t.rows[k] ==
          if SetForLater(s, workspace, k) then s.rows[k].(scheduledAt := s.rows[k].publishedAt)
          else if s.rows[k].status == Scheduled && s.rows[k].scheduledAt.None? && k.post in LatePosts(s, workspace)
                  && k.post in s.posts && s.posts[k.post].scheduledAt.Some?
          then s.rows[k].(scheduledAt := s.posts[k.post].scheduledAt)
          else s.rows[k])
    && (forall e :: e in t.entries <==> e in s.entries)
    && (forall e | e in s.entries :: t.entries[e] ==
          if Behind(s, workspace, e) then s.entries[e].(slot := s.rows[Key(e.post, e.queue.channel)].publishedAt)
          else s.entries[e])
    && PostsRecached(s.posts, t.posts, t.rows, LatePosts(s, workspace))
  }

  lemma AffectedIs(s: State, workspace: Option<nat>)
    ensures Affected(s, workspace) == LateOnes(s, workspace) && PostsOf(Affected(s, workspace)) == LatePosts(s, workspace)
    ensures Stale(s.entries, s.rows, Affected(s, workspace)) == BehindOnes(s, workspace)
  {
    assert Affected(s, workspace) == LateOnes(s, workspace);
    assert forall k :: k in LateOnes(s, workspace) <==> SetForLater(s, workspace, k);
    hide Affected, SetForLater;
  }

  lemma LateIs(s: State, workspace: Option<nat>, k: Key)
    ensures k in Affected(s, workspace) <==> SetForLater(s, workspace, k)
    ensures SetForLater(s, workspace, k) ==> k in s.rows && s.rows[k].publishedAt.Some?
  {
  }

  lemma SnapRow(s: State, workspace: Option<nat>, k: Key)
    requires k in s.rows
    ensures k in Repaired(s, workspace).rows
    ensures Repaired(s, workspace).rows[k] ==
            if SetForLater(s, workspace, k) then s.rows[k].(scheduledAt := s.rows[k].publishedAt)
            else if s.rows[k].status == Scheduled && s.rows[k].scheduledAt.None? && k.post in LatePosts(s, workspace)
                    && k.post in s.posts && s.posts[k.post].scheduledAt.Some?
            then s.rows[k].(scheduledAt := s.posts[k.post].scheduledAt)
            else s.rows[k]
  {
    hide Repaired, Affected, LateOnes, LatePosts, SetForLater;
    RowAfter(s, workspace, k);
    AffectedIs(s, workspace);
    LateIs(s, workspace, k);
  }

  lemma SnapEntry(s: State, workspace: Option<nat>, e: EntryId)
    requires e in s.entries
    ensures e in Repaired(s, workspace).entries
    ensures Behind(s, workspace, e) ==> Key(e.post, e.queue.channel) in s.rows
    ensures Repaired(s, workspace).entries[e] ==
            if Behind(s, workspace, e) then s.entries[e].(slot := s.rows[Key(e.post, e.queue.channel)].publishedAt)
            else s.entries[e]
  {
    RepairTouchesOnly(s, workspace);
    LateIs(s, workspace, Key(e.post, e.queue.channel));
    hide Repaired, Affected, SetForLater;
  }

  lemma SnapPosts(s: State, workspace: Option<nat>)
    ensures PostsRecached(s.posts, Repaired(s, workspace).posts, Repaired(s, workspace).rows, LatePosts(s, workspace))
  {
    var t := Repaired(s, workspace);
    AffectedIs(s, workspace);
    hide Affected, LateOnes, LatePosts, Recached, SnapRows, PinRows, SnapEntries, PostsOf, Aggregate;
    forall p | p in s.posts
      ensures p in t.posts
      ensures if p in LatePosts(s, workspace) then Recached(s.posts[p], t.posts[p], t.rows, p) else t.posts[p] == s.posts[p]
    {
      ResyncedIs(s.posts[p], t.rows, p);
    }
  }

  lemma RepairKeys(s: State, workspace: Option<nat>)
    ensures forall k :: k in Repaired(s, workspace).rows <==> k in s.rows
    ensures forall e :: e in Repaired(s, workspace).entries <==> e in s.entries
  {
  }

  lemma RepairRows(s: State, workspace: Option<nat>)
    ensures Snapped(s, workspace, Repaired(s, workspace))
  {
    var t := Repaired(s, workspace);
    hide Repaired, LatePosts, PostsRecached, SetForLater, Behind;
    RepairKeys(s, workspace);
    SnapPosts(s, workspace);
    forall k | k in s.rows
      ensures t.rows[k] ==
              if SetForLater(s, workspace, k) then s.rows[k].(scheduledAt := s.rows[k].publishedAt)
              else if s.rows[k].status == Scheduled && s.rows[k].scheduledAt.None? && k.post in LatePosts(s, workspace)
                      && k.post in s.posts && s.posts[k.post].scheduledAt.Some?
              then s.rows[k].(scheduledAt := s.posts[k.post].scheduledAt)
              else s.rows[k]
    {
      SnapRow(s, workspace, k);
    }
    forall e | e in s.entries
      ensures Behind(s, workspace, e) ==> Key(e.post, e.queue.channel) in s.rows
      ensures t.entries[e] ==
              if Behind(s, workspace, e) then s.entries[e].(slot := s.rows[Key(e.post, e.queue.channel)].publishedAt)
              else s.entries[e]
    {
      SnapEntry(s, workspace, e);
    }
  }

  // ----- the procedure -----

  /** One affected row, with the time it had and the one it gets. */
  datatype Fixed = Fixed(key: Key, before: Instant, after: Instant)

  datatype Summary = Summary(rows: seq<Fixed>, posts: nat, entries: nat, applied: bool)

  /** Each affected row once, by the time it had; how ties fall is left open. */
  ghost predicate Lists(rows: map<Key, Row>, keys: set<Key>, list: seq<Fixed>) {
    |list| == |keys| && (forall k | k in keys :: Listed(list, k))
    && (forall i | 0 <= i < |list| :: Describes(rows, list[i]) && list[i].key in keys)
    && InOrder(list)
  }

  ghost predicate InOrder(list: seq<Fixed>) {
    forall i, j | 0 <= i < j < |list| :: list[i].key != list[j].key && list[i].before <= list[j].before
  }

  ghost predicate Listed(list: seq<Fixed>, k: Key) {
    exists i :: 0 <= i < |list| && list[i].key == k
  }

  predicate Describes(rows: map<Key, Row>, f: Fixed) {
    f.key in rows && rows[f.key].scheduledAt == Some(f.before) && rows[f.key].publishedAt == Some(f.after)
  }

  /** All but the pending rows are listed, and none of those precedes what is listed. */
  ghost predicate ListsBut(rows: map<Key, Row>, keys: set<Key>, pending: set<Key>, list: seq<Fixed>) {
    pending <= keys && Lists(rows, keys - pending, list)
    && AllPrecede(rows, list, pending)
  }

  ghost predicate AllPrecede(rows: map<Key, Row>, list: seq<Fixed>, pending: set<Key>) {
    forall i, k | 0 <= i < |list| && k in pending ::
      k in rows && rows[k].scheduledAt.Some? && list[i].before <= rows[k].scheduledAt.value
  }

  lemma PrecedeMore(rows: map<Key, Row>, list: seq<Fixed>, pending: set<Key>, f: Fixed)
    requires AllPrecede(rows, list, pending) && f.key in pending && Describes(rows, f)
    requires forall x | x in pending :: NoLaterRow(rows, f.key, x)
    ensures AllPrecede(rows, list + [f], pending - {f.key})
    ensures forall i | 0 <= i < |list| :: list[i].before <= f.before
  {
  }

  lemma ListMore(rows: map<Key, Row>, keys: set<Key>, pending: set<Key>, list: seq<Fixed>, f: Fixed)
    requires ListsBut(rows, keys, pending, list) && f.key in pending && Describes(rows, f)
    requires forall x | x in pending :: NoLaterRow(rows, f.key, x)
    ensures ListsBut(rows, keys, pending - {f.key}, list + [f])
  {
    assert keys - (pending - {f.key}) == (keys - pending) + {f.key};
    hide Describes, Lists, NoLaterRow, AllPrecede;
    PrecedeMore(rows, list, pending, f);
    ListsMore(rows, keys - pending, list, f);
  }

  lemma ListsMore(rows: map<Key, Row>, done: set<Key>, list: seq<Fixed>, f: Fixed)
    requires Lists(rows, done, list) && f.key !in done && Describes(rows, f)
    requires forall i | 0 <= i < |list| :: list[i].before <= f.before
    ensures Lists(rows, done + {f.key}, list + [f])
  {
    hide Describes, InOrder, Listed;
    InOrderMore(list, f);
    forall k | k in done + {f.key} ensures Listed(list + [f], k) {
      ListedMore(list, f, k);
    }
  }

  lemma InOrderMore(list: seq<Fixed>, f: Fixed)
    requires InOrder(list) && forall i | 0 <= i < |list| :: list[i].key != f.key && list[i].before <= f.before
    ensures InOrder(list + [f])
  {
  }

  lemma ListedMore(list: seq<Fixed>, f: Fixed, k: Key)
    requires Listed(list, k) || k == f.key
    ensures Listed(list + [f], k)
  {
    var more := list + [f];
    if k == f.key {
      assert more[|list|].key == k;
    } else {
      var i :| 0 <= i < |list| && list[i].key == k;
      assert more[i].key == k;
    }
  }

  predicate NoLaterRow(rows: map<Key, Row>, a: Key, b: Key) {
    a in rows && b in rows && rows[a].scheduledAt.Some? && rows[b].scheduledAt.Some?
    && rows[a].scheduledAt.value <= rows[b].scheduledAt.value
  }

  method ListAffected(rows: map<Key, Row>, keys: set<Key>) returns (list: seq<Fixed>)
    requires forall k | k in keys :: k in rows && Corrupt(rows[k])
    ensures Lists(rows, keys, list)
  {
    list := [];
    var pending := keys;
    assert keys - pending == {};
    while pending != {}
      invariant ListsBut(rows, keys, pending, list)
      decreases |pending|
    {
      hide Lists, Describes, Listed, InOrder;
      var k := EarliestOf(rows, pending);
      var f := Fixed(k, rows[k].scheduledAt.value, rows[k].publishedAt.value);
      DescribesIt(rows, f);
      ListMore(rows, keys, pending, list, f);
      pending := pending - {k};
      list := list + [f];
    }
    assert keys - {} == keys;
  }

  lemma DescribesIt(rows: map<Key, Row>, f: Fixed)
    requires f.key in rows && rows[f.key].scheduledAt == Some(f.before) && rows[f.key].publishedAt == Some(f.after)
    ensures Describes(rows, f)
  {
  }

  /** A row of the set that no other precedes. */
  method EarliestOf(rows: map<Key, Row>, keys: set<Key>) returns (k: Key)
    requires keys != {} && forall x | x in keys :: x in rows && Corrupt(rows[x])
    ensures k in keys && forall x | x in keys :: NoLaterRow(rows, k, x)
  {
    k :| k in keys;
    var pending := keys;
    while pending != {}
      invariant pending <= keys && k in keys
      invariant forall x | x in keys && x !in pending :: NoLaterRow(rows, k, x)
      decreases |pending|
    {
      var x :| x in pending;
      pending := pending - {x};
      if rows[x].scheduledAt.value < rows[k].scheduledAt.value {
        k := x;
      }
    }
  }

  /** List what is affected, count what goes with it, and, unless it is a dry run, snap it back. */
  method Repair(db: Store, workspace: Option<nat>, apply: bool) returns (r: Summary)
    modifies db
    ensures db.Now() == if apply then Repaired(old(db.Now()), workspace) else old(db.Now())
    ensures if apply then Snapped(old(db.Now()), workspace, db.Now()) else db.Now() == old(db.Now())
    ensures var late := LateOnes(old(db.Now()), workspace);
            Lists(old(db.rows), late, r.rows) && r.posts == |LatePosts(old(db.Now()), workspace)|
            && r.entries == |BehindOnes(old(db.Now()), workspace)| && r.applied == (apply && late != {})
  {
    AffectedIs(db.Now(), workspace);
    AffectedRows(db.Now(), workspace);
    NothingToRepairIf(db.Now(), workspace);
    RepairRows(db.Now(), workspace);
    hide *;
    var keys := Affected(db.Now(), workspace);
    var targets := PostsOf(keys);
    var list := ListAffected(db.rows, keys);
    if !apply || keys == {} {
      return Summary(list, |targets|, |Stale(db.entries, db.rows, keys)|, false);
    }
    var count := SnapBack(db, workspace, keys, targets);
    return Summary(list, |targets|, count, true);
  }

  /** One UPDATE per post, then one for the rows, one per corrupt row for its
      entries, and one aggregate per post. */
  method SnapBack(db: Store, workspace: Option<nat>, keys: set<Key>, targets: set<nat>) returns (count: nat)
    requires keys == Affected(db.Now(), workspace) && targets == PostsOf(keys)
    modifies db
    ensures db.Now() == Repaired(old(db.Now()), workspace)
    ensures count == |Stale(old(db.entries), old(db.rows), keys)|
  {
    ghost var before := db.Now();
    RepairedIs(before, workspace);
    StaleSame(before.posts, before.entries, before.rows, targets, keys);
    hide *;
    PinFollowers(db, targets);
    var published := db.rows;
    db.rows := SnapRows(db.rows, keys);
    count := SnapQueueEntries(db, published, keys);
    SyncPosts(db, targets);
  }

  lemma AffectedRows(s: State, workspace: Option<nat>)
    ensures forall k | k in Affected(s, workspace) :: k in s.rows && Corrupt(s.rows[k])
  {
  }

  lemma RepairedIs(s: State, workspace: Option<nat>)
    ensures var keys := Affected(s, workspace);
            var rows := SnapRows(PinRows(s.posts, s.rows, PostsOf(keys)), keys);
            Repaired(s, workspace)
            == State(SyncAll(s.posts, rows, PostsOf(keys)), rows,
                     SnapEntries(s.entries, PinRows(s.posts, s.rows, PostsOf(keys)), keys))
  {
    var keys := Affected(s, workspace);
    StaleSame(s.posts, s.entries, s.rows, PostsOf(keys), keys);
    hide Affected, PinRows, SnapRows, SnapEntries, SyncAll, PostsOf, Stale;
  }

  lemma NothingToRepairIf(s: State, workspace: Option<nat>)
    ensures Affected(s, workspace) == {} ==> Repaired(s, workspace) == s
  {
    if Affected(s, workspace) == {} { NothingToRepair(s, workspace); }
  }

  method PinFollowers(db: Store, targets: set<nat>)
    modifies db`rows
    ensures db.rows == PinRows(db.posts, old(db.rows), targets)
  {
    var pending := targets;
    ghost var before := db.rows;
    assert PinRows(db.posts, before, {}) == before;
    assert targets - pending == {};
    while pending != {}
      invariant pending <= targets
      invariant db.rows == PinRows(db.posts, before, targets - pending)
      decreases |pending|
    {
      var p :| p in pending;
      PinMore(db.posts, before, targets - pending, p);
      assert targets - (pending - {p}) == (targets - pending) + {p};
      pending := pending - {p};
      if p in db.posts && db.posts[p].scheduledAt.Some? {
        db.rows := map k | k in db.rows ::
          if k.post == p && Follower(db.rows[k]) then db.rows[k].(scheduledAt := db.posts[p].scheduledAt) else db.rows[k];
      }
    }
    assert targets - {} == targets;
  }

  lemma PinMore(posts: map<nat, Post>, rows: map<Key, Row>, done: set<nat>, p: nat)
    requires p !in done
    ensures var r := PinRows(posts, rows, done);
            PinRows(posts, rows, done + {p}) ==
            if p in posts && posts[p].scheduledAt.Some?
            then map k | k in r :: if k.post == p && Follower(r[k]) then r[k].(scheduledAt := posts[p].scheduledAt) else r[k]
            else r
  {
  }

  lemma StaleSame(posts: map<nat, Post>, entries: map<EntryId, Entry>, rows: map<Key, Row>, targets: set<nat>, keys: set<Key>)
    ensures Stale(entries, PinRows(posts, rows, targets), keys) == Stale(entries, rows, keys)
    ensures SnapEntries(entries, PinRows(posts, rows, targets), keys) == SnapEntries(entries, rows, keys)
  {
    assert Stale(entries, PinRows(posts, rows, targets), keys) == Stale(entries, rows, keys);
    hide Stale;
  }

  method SnapQueueEntries(db: Store, published: map<Key, Row>, keys: set<Key>) returns (count: nat)
    modifies db`entries
    ensures db.entries == SnapEntries(old(db.entries), published, keys)
    ensures count == |Stale(old(db.entries), published, keys)|
  {
    var pending := keys;
    ghost var before := db.entries;
    count := 0;
    assert Stale(before, published, {}) == {};
    assert SnapEntries(before, published, {}) == before;
    assert keys - pending == {};
    while pending != {}
      invariant pending <= keys
      invariant db.entries == SnapEntries(before, published, keys - pending)
      invariant count == |Stale(before, published, keys - pending)|
      decreases |pending|
    {
      var k :| k in pending;
      StaleMore(before, published, keys - pending, k);
      assert keys - (pending - {k}) == (keys - pending) + {k};
      pending := pending - {k};
      var stale := Stale(db.entries, published, {k});
      db.entries := SnapEntries(db.entries, published, {k});
      count := count + |stale|;
    }
    assert keys - {} == keys;
  }

  lemma StaleMore(entries: map<EntryId, Entry>, rows: map<Key, Row>, done: set<Key>, k: Key)
    requires k !in done
    ensures Stale(SnapEntries(entries, rows, done), rows, {k}) == Stale(entries, rows, {k})
    ensures SnapEntries(SnapEntries(entries, rows, done), rows, {k}) == SnapEntries(entries, rows, done + {k})
    ensures |Stale(entries, rows, done + {k})| == |Stale(entries, rows, done)| + |Stale(entries, rows, {k})|
  {
    assert Stale(entries, rows, done + {k}) == Stale(entries, rows, done) + Stale(entries, rows, {k});
    assert Stale(entries, rows, done) !! Stale(entries, rows, {k});
  }

  method SyncPosts(db: Store, targets: set<nat>)
    modifies db`posts
    ensures db.posts == SyncAll(old(db.posts), db.rows, targets)
  {
    var pending := targets;
    ghost var before := db.posts;
    assert SyncAll(before, db.rows, {}) == before;
    assert targets - pending == {};
    while pending != {}
      invariant pending <= targets
      invariant db.posts == SyncAll(before, db.rows, targets - pending)
      decreases |pending|
    {
      var p :| p in pending;
      SyncMore(before, db.rows, targets - pending, p);
      assert targets - (pending - {p}) == (targets - pending) + {p};
      pending := pending - {p};
      db.SyncPost(p);
    }
    assert targets - {} == targets;
  }

  lemma SyncMore(posts: map<nat, Post>, rows: map<Key, Row>, done: set<nat>, p: nat)
    ensures Synced(SyncAll(posts, rows, done), rows, p) == SyncAll(posts, rows, done + {p})
  {
  }
}
