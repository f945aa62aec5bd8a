/** What a drag-reorder guarantees: it permutes the instants the named entries
    hold, in the order asked for, and touches nothing else
    (apps/calendar/services.py, reorder_queue). */
module ReorderLaws {
  import opened Common
  import opened QueueModel
  import opened LadderLaws

  // ----- sorting -----

  lemma {:induction false} InsertMultiset(x: Instant, s: seq<Instant>)
    ensures multiset(Insert(x, s)) == multiset(s) + multiset{x}
  {
    if !(s == [] || x <= s[0]) {
      InsertMultiset(x, s[1..]);
      assert s == [s[0]] + s[1..];
    }
  }

  lemma {:induction false} InsertSorted(x: Instant, s: seq<Instant>, low: Instant)
    requires NonDecreasing(s) && low <= x && forall i | 0 <= i < |s| :: low <= s[i]
    ensures NonDecreasing(Insert(x, s)) && forall i | 0 <= i < |Insert(x, s)| :: low <= Insert(x, s)[i]
  {
    if !(s == [] || x <= s[0]) {
      InsertSorted(x, s[1..], s[0]);
    }
  }

  lemma {:induction false} SortSorts(s: seq<Instant>)
    ensures NonDecreasing(Sort(s)) && multiset(Sort(s)) == multiset(s) && |Sort(s)| == |s|
  {
    if s != [] {
      SortSorts(s[1..]);
      InsertSorted(s[0], Sort(s[1..]), 0);
      InsertMultiset(s[0], Sort(s[1..]));
      InsertLength(s[0], Sort(s[1..]));
      assert s == [s[0]] + s[1..];
    }
  }

  lemma {:induction false} SortKeepsSorted(s: seq<Instant>)
    requires NonDecreasing(s)
    ensures Sort(s) == s
  {
    if s != [] {
      SortKeepsSorted(s[1..]);
      assert s == [s[0]] + s[1..];
      assert |s| > 1 ==> s[0] <= s[1..][0];
    }
  }

  // ----- who is named -----

  lemma {:induction false} NamedDistinct(s: State, q: Queue, ids: seq<EntryId>)
    requires NoRepeats(ids)
    ensures NoRepeats(Named(s, q, ids))
    ensures forall p | p in Named(s, q, ids) :: EntryId(q, p) in ids
                                               && !(Key(p, q.channel) in s.rows && Protected(s.rows[Key(p, q.channel)].status))
  {
    if ids != [] {
      NamedDistinct(s, q, ids[1..]);
      assert ids == [ids[0]] + ids[1..];
      assert ids[0] !in ids[1..];
      assert ids[0] == EntryId(ids[0].queue, ids[0].post);
    }
  }

  lemma {:induction false} SlottedDistinct(s: State, q: Queue, named: seq<nat>)
    requires NoRepeats(named)
    ensures NoRepeats(SlottedOf(s, q, named))
    ensures forall p | p in SlottedOf(s, q, named) :: p in named
  {
    if named != [] {
      SlottedDistinct(s, q, named[1..]);
      assert named == [named[0]] + named[1..];
      assert named[0] !in named[1..];
    }
  }

  /** The entries a reorder moves, and the instants it hands out. */
  ghost function Moved(s: State, q: Queue, ids: seq<EntryId>): seq<nat> {
    SlottedOf(s, q, Named(s, q, ids))
  }

  lemma MovedFacts(s: State, q: Queue, ids: seq<EntryId>)
    requires NoRepeats(ids)
    ensures NoRepeats(Moved(s, q, ids))
    ensures forall i | 0 <= i < |Moved(s, q, ids)| :: Slotted(s.rows, q, Moved(s, q, ids)[i])
    ensures forall p | p in Moved(s, q, ids) ::
              EntryId(q, p) in ids && Slotted(s.rows, q, p) && Live(s.rows[Key(p, q.channel)])
  {
    NamedDistinct(s, q, ids);
    SlottedDistinct(s, q, Named(s, q, ids));
    var moved := Moved(s, q, ids);
    forall p | p in moved ensures Slotted(s.rows, q, p) {
      var i :| 0 <= i < |moved| && moved[i] == p;
    }
  }

  lemma {:induction false} PairingAt(posts: seq<nat>, slots: seq<Instant>)
    requires |posts| == |slots| && NoRepeats(posts)
    ensures Pairing(posts, slots).Keys == Elems(posts)
    ensures forall i | 0 <= i < |posts| :: posts[i] in Pairing(posts, slots) && Pairing(posts, slots)[posts[i]] == slots[i]
  {
    if posts != [] {
      var n := |posts| - 1;
      PairingAt(posts[..n], slots[..n]);
      assert posts == posts[..n] + [posts[n]];
      var before := Pairing(posts[..n], slots[..n]);
      forall i | 0 <= i < |posts| ensures posts[i] in Pairing(posts, slots) && Pairing(posts, slots)[posts[i]] == slots[i] {
        if i < n {
          assert posts[..n][i] == posts[i] && slots[..n][i] == slots[i];
          assert posts[i] != posts[n];
        }
      }
    }
  }

  lemma MovedIs(s: State, q: Queue, ids: seq<EntryId>)
    ensures Moved(s, q, ids) == SlottedOf(s, q, Named(s, q, ids))
  {
  }

  /** The moved posts' rows hold `slots` in order and are otherwise as they were, like every other row. */
  ghost predicate Rewritten(r1: map<Key, Row>, r2: map<Key, Row>, q: Queue, moved: seq<nat>, slots: seq<Instant>) {
    |moved| == |slots| && r1.Keys == r2.Keys
    && (forall i | 0 <= i < |moved| ::
          Slotted(r1, q, moved[i])
          && r2[Key(moved[i], q.channel)] == r1[Key(moved[i], q.channel)].(scheduledAt := Some(slots[i])))
    && (forall k | k in r1 && !(k.channel == q.channel && k.post in moved) :: r2[k] == r1[k])
  }

  /** The rows after the reorder. */
  lemma ReorderedRows(s: State, q: Queue, ids: seq<EntryId>)
    requires NoRepeats(ids)
    ensures Rewritten(s.rows, Reordered(s, q, ids).rows, q, Moved(s, q, ids), SortedTimes(s, q, ids))
  {
    var moved := Moved(s, q, ids);
    MovedFacts(s, q, ids);
    var slots := SortedTimes(s, q, ids);
    PairingAt(moved, slots);
    var plan := Pairing(moved, slots);
    forall i | 0 <= i < |moved|
      ensures AssignRows(s.rows, q, plan)[Key(moved[i], q.channel)]
           == s.rows[Key(moved[i], q.channel)].(scheduledAt := Some(slots[i]))
    {
      assert moved[i] in moved && plan[moved[i]] == slots[i];
    }
  }

  ghost function SortedTimes(s: State, q: Queue, ids: seq<EntryId>): (r: seq<Instant>)
    ensures |r| == |Moved(s, q, ids)|
  {
    SortLength(TimesOf(s, q, Moved(s, q, ids)));
    Sort(TimesOf(s, q, Moved(s, q, ids)))
  }

  lemma SortedTimesIs(s: State, q: Queue, ids: seq<EntryId>)
    ensures forall i | 0 <= i < |Moved(s, q, ids)| :: Slotted(s.rows, q, Moved(s, q, ids)[i])
    ensures SortedTimes(s, q, ids) == Sort(TimesOf(s, q, Moved(s, q, ids)))
  {
  }

  /** The times a list of posts holds, read from their rows. */
  lemma TimesHeld(s: State, q: Queue, posts: seq<nat>)
    requires forall i | 0 <= i < |posts| :: Slotted(s.rows, q, posts[i])
    ensures forall i | 0 <= i < |posts| ::
              Slotted(s.rows, q, posts[i]) && s.rows[Key(posts[i], q.channel)].scheduledAt.value == TimesOf(s, q, posts)[i]
  {
  }

  /** The posts' times do not decrease along the list. */
  ghost predicate InNamedOrder(rows: map<Key, Row>, q: Queue, moved: seq<nat>) {
    forall i, j | 0 <= i < j < |moved| ::
      Slotted(rows, q, moved[i]) && Slotted(rows, q, moved[j])
      && rows[Key(moved[i], q.channel)].scheduledAt.value <= rows[Key(moved[j], q.channel)].scheduledAt.value
  }

  lemma RewrittenInOrder(r1: map<Key, Row>, r2: map<Key, Row>, q: Queue, moved: seq<nat>, slots: seq<Instant>)
    requires Rewritten(r1, r2, q, moved, slots) && NonDecreasing(slots)
    ensures InNamedOrder(r2, q, moved)
  {
    forall i | 0 <= i < |moved|
      ensures Slotted(r2, q, moved[i]) && r2[Key(moved[i], q.channel)].scheduledAt == Some(slots[i])
    {
      assert Slotted(r1, q, moved[i]);
    }
  }

  lemma SortedTimesSorted(s: State, q: Queue, ids: seq<EntryId>)
    ensures NonDecreasing(SortedTimes(s, q, ids))
  {
    SortSorts(TimesOf(s, q, Moved(s, q, ids)));
    hide Moved, TimesOf, Sort;
  }

  /** The named movable entries end with non-decreasing times in the order named. */
  lemma ReorderOrders(s: State, q: Queue, ids: seq<EntryId>)
    requires NoRepeats(ids)
    ensures InNamedOrder(Reordered(s, q, ids).rows, q, Moved(s, q, ids))
  {
    ReorderedRows(s, q, ids);
    SortedTimesSorted(s, q, ids);
    hide *;
    RewrittenInOrder(s.rows, Reordered(s, q, ids).rows, q, Moved(s, q, ids), SortedTimes(s, q, ids));
  }

  /** History rows and rows whose entry is not named are untouched. */
  lemma ReorderFrame(s: State, q: Queue, ids: seq<EntryId>, k: Key)
    requires NoRepeats(ids) && k in s.rows
    requires Protected(s.rows[k].status) || k.channel != q.channel || EntryId(q, k.post) !in ids
    ensures k in Reordered(s, q, ids).rows && Reordered(s, q, ids).rows[k] == s.rows[k]
  {
    ReorderedRows(s, q, ids);
    MovedFacts(s, q, ids);
    hide Reordered;
    hide Moved;
    assert k == Key(k.post, k.channel);
  }

  // ----- conservation -----

  /** The posts whose live row on the channel holds `t`. */
  ghost function Holders(rows: map<Key, Row>, channel: nat, t: Instant): set<nat> {
    set k | k in rows && k.channel == channel && Live(rows[k]) && rows[k].scheduledAt == Some(t) :: k.post
  }

  ghost function Bearers(posts: seq<nat>, v: seq<Instant>, t: Instant): set<nat>
    requires |posts| == |v|
  {
    set i | 0 <= i < |posts| && v[i] == t :: posts[i]
  }

  lemma {:induction false} BearersCount(posts: seq<nat>, v: seq<Instant>, t: Instant)
    requires |posts| == |v| && NoRepeats(posts)
    ensures |Bearers(posts, v, t)| == multiset(v)[t]
  {
    if posts == [] {
      assert Bearers(posts, v, t) == {};
    } else {
      var n := |posts| - 1;
      BearersCount(posts[..n], v[..n], t);
      assert v == v[..n] + [v[n]];
      var less := Bearers(posts[..n], v[..n], t);
      BearersLast(posts, v, t);
      forall p | p in less ensures p != posts[n] {
        var i :| 0 <= i < n && v[..n][i] == t && posts[..n][i] == p;
        assert posts[i] == p;
      }
    }
  }

  lemma BearersLast(posts: seq<nat>, v: seq<Instant>, t: Instant)
    requires |posts| == |v| > 0
    ensures var n := |posts| - 1;
            Bearers(posts, v, t) == Bearers(posts[..n], v[..n], t) + (if v[n] == t then {posts[n]} else {})
  {
    var n := |posts| - 1;
    forall p | p in Bearers(posts[..n], v[..n], t) ensures p in Bearers(posts, v, t) {
      var i :| 0 <= i < n && v[..n][i] == t && posts[..n][i] == p;
      assert v[i] == t && posts[i] == p;
    }
    forall p | p in Bearers(posts, v, t) && !(v[n] == t && p == posts[n]) ensures p in Bearers(posts[..n], v[..n], t) {
      var i :| 0 <= i < |posts| && v[i] == t && posts[i] == p;
      assert v[..n][i] == t && posts[..n][i] == p;
    }
  }

  /** On any rows in which the moved posts hold `v`, the holders of `t` are the
      bearers of `t` in `v` and the unmoved holders. */
  lemma HoldersSplit(rows: map<Key, Row>, q: Queue, posts: seq<nat>, v: seq<Instant>, t: Instant)
    requires |posts| == |v|
    requires forall i | 0 <= i < |posts| ::
               Slotted(rows, q, posts[i]) && Live(rows[Key(posts[i], q.channel)])
               && rows[Key(posts[i], q.channel)].scheduledAt.value == v[i]
    ensures Holders(rows, q.channel, t) == Bearers(posts, v, t) + (Holders(rows, q.channel, t) - Elems(posts))
    ensures Bearers(posts, v, t) !! (Holders(rows, q.channel, t) - Elems(posts))
  {
    forall p | p in Bearers(posts, v, t) ensures p in Holders(rows, q.channel, t) && p in Elems(posts) {
      var i :| 0 <= i < |posts| && v[i] == t && posts[i] == p;
      assert Slotted(rows, q, posts[i]);
      assert Key(p, q.channel) in rows;
    }
    forall p | p in Holders(rows, q.channel, t) && p in Elems(posts) ensures p in Bearers(posts, v, t) {
      var k :| k in rows && k.channel == q.channel && Live(rows[k]) && rows[k].scheduledAt == Some(t) && k.post == p;
      var i :| 0 <= i < |posts| && posts[i] == p;
      assert Slotted(rows, q, posts[i]);
      assert k == Key(p, q.channel);
    }
  }

  /** A reorder conserves the instants of the channel: each is held by as many live posts as before. */
  lemma ReorderConserves(s: State, q: Queue, ids: seq<EntryId>, t: Instant)
    requires NoRepeats(ids)
    ensures |Holders(Reordered(s, q, ids).rows, q.channel, t)| == |Holders(s.rows, q.channel, t)|
  {
    hide *;
    ReorderedRows(s, q, ids);
    MovedFacts(s, q, ids);
    MovedLive(s, q, ids);
    SortedTimesIs(s, q, ids);
    SortSorts(TimesOf(s, q, Moved(s, q, ids)));
    TimesHeld(s, q, Moved(s, q, ids));
    Exchange(s.rows, Reordered(s, q, ids).rows, q, Moved(s, q, ids), TimesOf(s, q, Moved(s, q, ids)), SortedTimes(s, q, ids), t);
  }

  /** If posts exchange their instants and nothing else changes, holders are conserved. */
  lemma Exchange(r1: map<Key, Row>, r2: map<Key, Row>, q: Queue, posts: seq<nat>, v1: seq<Instant>, v2: seq<Instant>, t: Instant)
    requires |posts| == |v1| == |v2| && NoRepeats(posts) && multiset(v1) == multiset(v2)
    requires Rewritten(r1, r2, q, posts, v2)
    requires forall i | 0 <= i < |posts| ::
               Slotted(r1, q, posts[i]) && Live(r1[Key(posts[i], q.channel)])
               && r1[Key(posts[i], q.channel)].scheduledAt.value == v1[i]
    ensures |Holders(r2, q.channel, t)| == |Holders(r1, q.channel, t)|
  {
    forall i | 0 <= i < |posts|
      ensures Slotted(r2, q, posts[i]) && Live(r2[Key(posts[i], q.channel)])
              && r2[Key(posts[i], q.channel)].scheduledAt.value == v2[i]
    {
      assert Slotted(r1, q, posts[i]);
    }
    HoldersSplit(r1, q, posts, v1, t);
    HoldersSplit(r2, q, posts, v2, t);
    BearersCount(posts, v1, t);
    BearersCount(posts, v2, t);
    UnmovedHolders(r1, r2, q.channel, posts, t);
    hide *;
  }

  lemma UnmovedHolders(r1: map<Key, Row>, r2: map<Key, Row>, channel: nat, posts: seq<nat>, t: Instant)
    requires r1.Keys == r2.Keys
    requires forall k | k in r1 && !(k.channel == channel && k.post in posts) :: r1[k] == r2[k]
    ensures Holders(r1, channel, t) - Elems(posts) == Holders(r2, channel, t) - Elems(posts)
  {
    forall p | p !in posts ensures p in Holders(r1, channel, t) <==> p in Holders(r2, channel, t) {
      if p in Holders(r1, channel, t) {
        var k :| k in r1 && k.channel == channel && Live(r1[k]) && r1[k].scheduledAt == Some(t) && k.post == p;
        assert r2[k] == r1[k];
      }
      if p in Holders(r2, channel, t) {
        var k :| k in r2 && k.channel == channel && Live(r2[k]) && r2[k].scheduledAt == Some(t) && k.post == p;
        assert r2[k] == r1[k];
      }
    }
  }

  /** No double booking is the same as no instant with two holders. */
  lemma DistinctIsCount(rows: map<Key, Row>, channel: nat)
    ensures NoDoubleBooking(rows, channel) <==> forall t: Instant :: |Holders(rows, channel, t)| <= 1
  {
    if NoDoubleBooking(rows, channel) {
      forall t: Instant ensures |Holders(rows, channel, t)| <= 1 {
        var hs := Holders(rows, channel, t);
        if hs != {} {
          var a :| a in hs;
          forall b | b in hs ensures b == a {
            assert Key(a, channel) == Key(b, channel) by {
              var ka :| ka in rows && ka.channel == channel && Live(rows[ka]) && rows[ka].scheduledAt == Some(t) && ka.post == a;
              var kb :| kb in rows && kb.channel == channel && Live(rows[kb]) && rows[kb].scheduledAt == Some(t) && kb.post == b;
              assert ka == kb;
            }
          }
          assert hs == {a};
        }
      }
    } else {
      var a, b :| a in rows && b in rows && a.channel == channel && b.channel == channel
                  && Live(rows[a]) && Live(rows[b]) && rows[a].scheduledAt == rows[b].scheduledAt && a != b;
      var t := rows[a].scheduledAt.value;
      TwoHolders(rows, channel, t, a, b);
    }
  }

  lemma TwoHolders(rows: map<Key, Row>, channel: nat, t: Instant, a: Key, b: Key)
    requires a in rows && b in rows && a.channel == channel && b.channel == channel && a != b
    requires Live(rows[a]) && Live(rows[b]) && rows[a].scheduledAt == rows[b].scheduledAt == Some(t)
    ensures |Holders(rows, channel, t)| > 1
  {
    var hs := Holders(rows, channel, t);
    assert a.post in hs && b.post in hs && a.post != b.post;
    assert {a.post, b.post} <= hs;
    SubsetSize({a.post, b.post}, hs);
  }

  lemma ReorderKeepsDistinct(s: State, q: Queue, ids: seq<EntryId>, channel: nat)
    requires NoRepeats(ids) && NoDoubleBooking(s.rows, channel)
    ensures NoDoubleBooking(Reordered(s, q, ids).rows, channel)
  {
    var r := Reordered(s, q, ids).rows;
    ReorderedRows(s, q, ids);
    hide Reordered;
    hide Moved;
    if channel == q.channel {
      DistinctIsCount(s.rows, channel);
      forall t: Instant ensures |Holders(r, channel, t)| <= 1 {
        ReorderConserves(s, q, ids, t);
      }
      DistinctIsCount(r, channel);
    }
  }

  // ----- ids named more than once -----

  /** The last place at which its post is named. */
  ghost predicate LastPlace(posts: seq<nat>, i: nat)
    requires i < |posts|
  {
    posts[i] !in posts[i + 1..]
  }

  lemma {:induction false} LastPlaceOf(posts: seq<nat>, p: nat) returns (i: nat)
    requires p in posts
    ensures i < |posts| && posts[i] == p && LastPlace(posts, i)
  {
    if p in posts[1..] {
      i := LastPlaceOf(posts[1..], p);
      assert posts[1..][i + 1..] == posts[i + 2..];
      i := i + 1;
    } else {
      i := 0;
    }
  }

  lemma LastPlaceBefore(posts: seq<nat>, i: nat)
    requires i + 1 < |posts| && LastPlace(posts, i)
    ensures posts[i] != posts[|posts| - 1] && LastPlace(posts[..|posts| - 1], i)
  {
    var n := |posts| - 1;
    assert posts[i + 1..][n - i - 1] == posts[n];
    assert posts[i + 1..] == posts[..n][i + 1..] + [posts[n]];
  }

  lemma {:induction false} PairingKeys(posts: seq<nat>, slots: seq<Instant>)
    requires |posts| == |slots|
    ensures Pairing(posts, slots).Keys == Elems(posts)
  {
    if posts != [] {
      var n := |posts| - 1;
      PairingKeys(posts[..n], slots[..n]);
      assert posts == posts[..n] + [posts[n]];
    }
  }

  /** Whatever the repetitions, a post ends with the instant at its last place. */
  lemma {:induction false} PairingLast(posts: seq<nat>, slots: seq<Instant>, i: nat)
    requires |posts| == |slots| && i < |posts| && LastPlace(posts, i)
    ensures posts[i] in Pairing(posts, slots) && Pairing(posts, slots)[posts[i]] == slots[i]
  {
    var n := |posts| - 1;
    if i < n {
      LastPlaceBefore(posts, i);
      PairingLast(posts[..n], slots[..n], i);
    }
  }

  /** No two posts have their last places on equal instants of the sorted list. */
  ghost predicate PlacesApart(moved: seq<nat>, slots: seq<Instant>)
    requires |moved| == |slots|
  {
    forall i, j | 0 <= i < j < |moved| && LastPlace(moved, i) && LastPlace(moved, j) :: slots[i] != slots[j]
  }

  lemma {:induction false} NamedUnprotected(s: State, q: Queue, ids: seq<EntryId>)
    ensures forall p | p in Named(s, q, ids) :: !(Key(p, q.channel) in s.rows && Protected(s.rows[Key(p, q.channel)].status))
  {
    if ids != [] {
      NamedUnprotected(s, q, ids[1..]);
    }
  }

  lemma MovedLive(s: State, q: Queue, ids: seq<EntryId>)
    ensures forall p | p in Moved(s, q, ids) :: Slotted(s.rows, q, p) && Live(s.rows[Key(p, q.channel)])
    ensures forall i | 0 <= i < |Moved(s, q, ids)| ::
              Slotted(s.rows, q, Moved(s, q, ids)[i]) && Live(s.rows[Key(Moved(s, q, ids)[i], q.channel)])
  {
    NamedUnprotected(s, q, ids);
    var moved := Moved(s, q, ids);
    forall p | p in moved ensures Slotted(s.rows, q, p) && Live(s.rows[Key(p, q.channel)]) {
      var i :| 0 <= i < |moved| && moved[i] == p;
    }
  }

  /** Each sorted instant is one that some moved post held. */
  lemma SortedIsHeld(s: State, q: Queue, ids: seq<EntryId>, i: nat) returns (m: nat)
    requires i < |Moved(s, q, ids)|
    ensures m < |Moved(s, q, ids)| && Slotted(s.rows, q, Moved(s, q, ids)[m])
    ensures SortedTimes(s, q, ids)[i] == TimeOf(s, q, Moved(s, q, ids)[m])
  {
    MovedLive(s, q, ids);
    var times := TimesOf(s, q, Moved(s, q, ids));
    SortSorts(times);
    assert SortedTimes(s, q, ids)[i] in multiset(Sort(times));
    assert SortedTimes(s, q, ids)[i] in times;
    m :| 0 <= m < |times| && times[m] == SortedTimes(s, q, ids)[i];
  }

  /** What the reorder writes. */
  ghost function ReorderPlan(s: State, q: Queue, ids: seq<EntryId>): map<nat, Instant> {
    Pairing(Moved(s, q, ids), SortedTimes(s, q, ids))
  }

  lemma ReorderWrites(s: State, q: Queue, ids: seq<EntryId>)
    ensures Reordered(s, q, ids).rows == Assign(s, q, ReorderPlan(s, q, ids)).rows
    ensures Reordered(s, q, ids).posts == Assign(s, q, ReorderPlan(s, q, ids)).posts
    ensures Reordered(s, q, ids).entries
            == Renumbered(Assign(s, q, ReorderPlan(s, q, ids)).entries, q, Named(s, q, ids))
  {
    hide Assign, Renumbered, Sort, TimesOf, Pairing, SlottedOf, Named;
  }

  /** Every post of the list gets the instant at its last place, and no other post gets one. */
  ghost predicate LastPlaceWins(moved: seq<nat>, slots: seq<Instant>, plan: map<nat, Instant>)
    requires |moved| == |slots|
  {
    (forall p :: p in plan <==> p in moved)
    && (forall i | 0 <= i < |moved| && LastPlace(moved, i) :: moved[i] in plan && plan[moved[i]] == slots[i])
  }

  lemma PairingWins(moved: seq<nat>, slots: seq<Instant>)
    requires |moved| == |slots|
    ensures LastPlaceWins(moved, slots, Pairing(moved, slots))
  {
    hide Pairing, LastPlace;
    PairingKeys(moved, slots);
    assert forall p :: p in Elems(moved) <==> p in moved;
    forall i | 0 <= i < |moved| && LastPlace(moved, i)
      ensures moved[i] in Pairing(moved, slots) && Pairing(moved, slots)[moved[i]] == slots[i]
    {
      PairingLast(moved, slots, i);
    }
  }

  lemma ReorderPlanWins(s: State, q: Queue, ids: seq<EntryId>)
    ensures LastPlaceWins(Moved(s, q, ids), SortedTimes(s, q, ids), ReorderPlan(s, q, ids))
  {
    PairingWins(Moved(s, q, ids), SortedTimes(s, q, ids));
    hide Moved, SortedTimes, Pairing, LastPlaceWins;
  }

  ghost predicate AllLive(s: State, q: Queue, moved: seq<nat>) {
    forall p | p in moved :: Slotted(s.rows, q, p) && Live(s.rows[Key(p, q.channel)])
  }

  /** The instant is one that some moved post held. */
  ghost predicate HeldByMoved(s: State, q: Queue, moved: seq<nat>, t: Instant) {
    exists r :: r in moved && Slotted(s.rows, q, r) && TimeOf(s, q, r) == t
  }

  lemma SortedHeld(s: State, q: Queue, ids: seq<EntryId>, i: nat)
    requires i < |Moved(s, q, ids)|
    ensures HeldByMoved(s, q, Moved(s, q, ids), SortedTimes(s, q, ids)[i])
  {
    var m := SortedIsHeld(s, q, ids, i);
    hide Moved, SortedTimes;
    assert Moved(s, q, ids)[m] in Moved(s, q, ids);
  }

  lemma PlanHeld(s: State, q: Queue, ids: seq<EntryId>, p: nat)
    requires p in ReorderPlan(s, q, ids)
    ensures HeldByMoved(s, q, Moved(s, q, ids), ReorderPlan(s, q, ids)[p])
  {
    ReorderPlanWins(s, q, ids);
    hide Moved, SortedTimes, ReorderPlan, HeldByMoved;
    var i := LastPlaceOf(Moved(s, q, ids), p);
    SortedHeld(s, q, ids, i);
  }

  /** For every list of ids, repeated or not: a reorder keeps the channel free of
      double booking exactly when no two posts' last places in the list fall on
      equal instants of the sorted times. */
  lemma ReorderDistinctIff(s: State, q: Queue, ids: seq<EntryId>)
    requires NoDoubleBooking(s.rows, q.channel)
    ensures NoDoubleBooking(Reordered(s, q, ids).rows, q.channel) <==> PlacesApart(Moved(s, q, ids), SortedTimes(s, q, ids))
  {
    ReorderWrites(s, q, ids);
    ReorderPlanWins(s, q, ids);
    MovedAllLive(s, q, ids);
    hide Reordered, Moved, SortedTimes, ReorderPlan, Assign, NoDoubleBooking, AllLive, LastPlaceWins, PlacesApart;
    if PlacesApart(Moved(s, q, ids), SortedTimes(s, q, ids)) {
      forall p | p in ReorderPlan(s, q, ids) ensures HeldByMoved(s, q, Moved(s, q, ids), ReorderPlan(s, q, ids)[p]) {
        PlanHeld(s, q, ids, p);
      }
      hide HeldByMoved;
      PlanKeepsApart(s, q, Moved(s, q, ids), SortedTimes(s, q, ids), ReorderPlan(s, q, ids));
    } else {
      PlanClash(s, q, Moved(s, q, ids), SortedTimes(s, q, ids), ReorderPlan(s, q, ids));
    }
  }

  lemma MovedAllLive(s: State, q: Queue, ids: seq<EntryId>)
    ensures AllLive(s, q, Moved(s, q, ids))
  {
    MovedLive(s, q, ids);
    hide Moved;
  }

  lemma PlanKeepsApart(s: State, q: Queue, moved: seq<nat>, slots: seq<Instant>, plan: map<nat, Instant>)
    requires NoDoubleBooking(s.rows, q.channel) && AllLive(s, q, moved)
    requires |moved| == |slots| && LastPlaceWins(moved, slots, plan) && PlacesApart(moved, slots)
    requires forall p | p in plan :: HeldByMoved(s, q, moved, plan[p])
    ensures NoDoubleBooking(Assign(s, q, plan).rows, q.channel)
  {
    PlanDistinct(moved, plan, slots);
    PlanClear(s, q, moved, slots, plan);
    hide LastPlaceWins, PlacesApart, AllLive, HeldByMoved;
    AssignKeepsDistinct(s, q, plan, q.channel);
  }

  lemma PlanDistinct(moved: seq<nat>, plan: map<nat, Instant>, slots: seq<Instant>)
    requires |moved| == |slots| && LastPlaceWins(moved, slots, plan) && PlacesApart(moved, slots)
    ensures forall a, b | a in plan && b in plan && plan[a] == plan[b] :: a == b
  {
    forall a, b | a in plan && b in plan && plan[a] == plan[b] ensures a == b {
      var i := LastPlaceOf(moved, a);
      var j := LastPlaceOf(moved, b);
    }
  }

  lemma PlanClear(s: State, q: Queue, moved: seq<nat>, slots: seq<Instant>, plan: map<nat, Instant>)
    requires NoDoubleBooking(s.rows, q.channel) && AllLive(s, q, moved)
    requires |moved| == |slots| && LastPlaceWins(moved, slots, plan)
    requires forall p | p in plan :: HeldByMoved(s, q, moved, plan[p])
    ensures forall k, p | k in s.rows && k.channel == q.channel && Live(s.rows[k]) && k.post !in plan && p in plan
              :: s.rows[k].scheduledAt.value != plan[p]
  {
    hide NoDoubleBooking, AllLive, HeldByMoved;
    forall k, p | k in s.rows && k.channel == q.channel && Live(s.rows[k]) && k.post !in plan && p in plan
      ensures s.rows[k].scheduledAt.value != plan[p]
    {
      NotHeldByMoved(s, q, moved, k, plan[p]);
    }
  }

  lemma NotHeldByMoved(s: State, q: Queue, moved: seq<nat>, k: Key, t: Instant)
    requires NoDoubleBooking(s.rows, q.channel) && AllLive(s, q, moved) && HeldByMoved(s, q, moved, t)
    requires k in s.rows && k.channel == q.channel && Live(s.rows[k]) && k.post !in moved
    ensures s.rows[k].scheduledAt.value != t
  {
    var r :| r in moved && Slotted(s.rows, q, r) && TimeOf(s, q, r) == t;
    assert Key(r, q.channel) != k;
  }

  lemma PlanClash(s: State, q: Queue, moved: seq<nat>, slots: seq<Instant>, plan: map<nat, Instant>)
    requires |moved| == |slots| && LastPlaceWins(moved, slots, plan) && !PlacesApart(moved, slots) && AllLive(s, q, moved)
    ensures !NoDoubleBooking(Assign(s, q, plan).rows, q.channel)
  {
    var i, j :| 0 <= i < j < |moved| && LastPlace(moved, i) && LastPlace(moved, j) && slots[i] == slots[j];
    assert moved[j] in moved[i + 1..];
    var a, b := Key(moved[i], q.channel), Key(moved[j], q.channel);
    var r := Assign(s, q, plan).rows;
    assert moved[i] in moved && moved[j] in moved;
    assert Live(r[a]) && Live(r[b]) && r[a].scheduledAt == r[b].scheduledAt && a != b;
  }

  // Two entries of one queue, the first holding the later instant, with the
  // first one's id named twice.
  const EXAMPLE_QUEUE := Queue(0, 0)
  const EXAMPLE_ENTRIES: map<EntryId, Entry> :=
    map[EntryId(EXAMPLE_QUEUE, 1) := Entry(0, Some(2)), EntryId(EXAMPLE_QUEUE, 2) := Entry(1, Some(1))]
  const EXAMPLE_ROWS: map<Key, Row> :=
    map[Key(1, 0) := Row(Scheduled, Some(2), None, NO_FAILURE), Key(2, 0) := Row(Scheduled, Some(1), None, NO_FAILURE)]
  const EXAMPLE_POSTS: map<nat, Post> := map[1 := Post(Some(2), None, 0, 0), 2 := Post(Some(1), None, 0, 0)]
  const EXAMPLE_STATE := State(EXAMPLE_POSTS, EXAMPLE_ROWS, EXAMPLE_ENTRIES)
  const EXAMPLE_IDS := [EntryId(EXAMPLE_QUEUE, 1), EntryId(EXAMPLE_QUEUE, 1), EntryId(EXAMPLE_QUEUE, 2)]

  lemma ExampleNamed()
    ensures Named(EXAMPLE_STATE, EXAMPLE_QUEUE, EXAMPLE_IDS) == [1, 1, 2]
    ensures SlottedOf(EXAMPLE_STATE, EXAMPLE_QUEUE, [1, 1, 2]) == [1, 1, 2]
  {
    var s, q, a, b := EXAMPLE_STATE, EXAMPLE_QUEUE, EntryId(EXAMPLE_QUEUE, 1), EntryId(EXAMPLE_QUEUE, 2);
    assert [b][1..] == [] && [a, b][1..] == [b] && [a, a, b][1..] == [a, b];
    assert Named(s, q, [b]) == [2];
    assert Named(s, q, [a, b]) == [1, 2];
    assert [2][1..] == [] && [1, 2][1..] == [2] && [1, 1, 2][1..] == [1, 2];
    assert SlottedOf(s, q, [2]) == [2];
    assert SlottedOf(s, q, [1, 2]) == [1, 2];
  }

  lemma ExampleTimes()
    ensures forall i | 0 <= i < 3 :: Slotted(EXAMPLE_ROWS, EXAMPLE_QUEUE, [1, 1, 2][i])
    ensures TimesOf(EXAMPLE_STATE, EXAMPLE_QUEUE, [1, 1, 2]) == [2, 2, 1]
  {
    var posts := [1, 1, 2];
    assert posts[0] == 1 && posts[1] == 1 && posts[2] == 2;
    assert forall i | 0 <= i < 3 :: Slotted(EXAMPLE_ROWS, EXAMPLE_QUEUE, posts[i]);
    var times := TimesOf(EXAMPLE_STATE, EXAMPLE_QUEUE, posts);
    assert times[0] == 2 && times[1] == 2 && times[2] == 1;
  }

  lemma ExampleSlots()
    ensures Sort([2, 2, 1]) == [1, 2, 2]
    ensures Pairing([1, 1, 2], [1, 2, 2]) == map[1 := 2, 2 := 2]
  {
    var times: seq<Instant> := [2, 2, 1];
    assert times[1..] == [2, 1] && times[1..][1..] == [1] && times[1..][1..][1..] == [];
    assert Sort([1]) == [1];
    assert Sort([2, 1]) == Insert(2, [1]) == [1, 2];
    assert [1, 2][1..] == [2];
    var posts, slots := [1, 1, 2], [1, 2, 2];
    assert posts[..2] == [1, 1] && slots[..2] == [1, 2];
    assert posts[..2][..1] == [1] && slots[..2][..1] == [1];
    assert posts[..2][..1][..0] == [] && slots[..2][..1][..0] == [];
  }

  /** With an id named twice the promise is lost: two posts end on one instant. */
  lemma RepeatedIdDoubleBooks()
    ensures NoDoubleBooking(EXAMPLE_ROWS, 0)
    ensures !NoDoubleBooking(Reordered(EXAMPLE_STATE, EXAMPLE_QUEUE, EXAMPLE_IDS).rows, 0)
  {
    ExampleNamed();
    ExampleTimes();
    ExampleSlots();
    hide Sort;
    hide Named;
    hide Pairing;
    hide SlottedOf;
    hide TimesOf;
    var r := Reordered(EXAMPLE_STATE, EXAMPLE_QUEUE, EXAMPLE_IDS).rows;
    assert r == AssignRows(EXAMPLE_ROWS, EXAMPLE_QUEUE, map[1 := 2, 2 := 2]) by {
      hide AssignRows;
    }
    hide Reordered;
    ExampleClash(r);
  }

  lemma ExampleClash(r: map<Key, Row>)
    requires r == AssignRows(EXAMPLE_ROWS, EXAMPLE_QUEUE, map[1 := 2, 2 := 2])
    ensures NoDoubleBooking(EXAMPLE_ROWS, 0) && !NoDoubleBooking(r, 0)
  {
    assert r[Key(1, 0)].scheduledAt == Some(2) && r[Key(2, 0)].scheduledAt == Some(2);
    assert Live(r[Key(1, 0)]) && Live(r[Key(2, 0)]);
    assert Key(1, 0) != Key(2, 0);
  }

  // ----- repeating a reorder -----

  lemma {:induction false} NamedFrame(s: State, t: State, q: Queue, ids: seq<EntryId>)
    requires s.entries.Keys == t.entries.Keys && s.rows.Keys == t.rows.Keys
    requires forall k | k in s.rows :: s.rows[k].status == t.rows[k].status
    ensures Named(s, q, ids) == Named(t, q, ids)
  {
    if ids != [] {
      NamedFrame(s, t, q, ids[1..]);
    }
  }

  lemma {:induction false} SlottedFrame(s: State, t: State, q: Queue, named: seq<nat>)
    requires forall p :: Slotted(s.rows, q, p) <==> Slotted(t.rows, q, p)
    ensures SlottedOf(s, q, named) == SlottedOf(t, q, named)
  {
    if named != [] {
      SlottedFrame(s, t, q, named[1..]);
    }
  }

  lemma {:induction false} RenumberedFrame(entries: map<EntryId, Entry>, q: Queue, named: seq<nat>, e: EntryId)
    requires e in entries
    ensures !(e.queue == q && e.post in named) ==> Renumbered(entries, q, named)[e] == entries[e]
    ensures Renumbered(entries, q, named)[e].slot == entries[e].slot
  {
    if named != [] {
      var m := |named| - 1;
      RenumberedFrame(entries, q, named[..m], e);
      assert named == named[..m] + [named[m]];
    }
  }

  lemma {:induction false} RenumberedPlace(entries: map<EntryId, Entry>, q: Queue, named: seq<nat>, n: nat)
    requires NoRepeats(named) && n < |named| && EntryId(q, named[n]) in entries
    ensures Renumbered(entries, q, named)[EntryId(q, named[n])].position == n
  {
    var m := |named| - 1;
    if n < m {
      assert named[..m][n] == named[n] && named[n] != named[m];
      RenumberedPlace(entries, q, named[..m], n);
    } else {
      assert named[m] !in named[..m];
      RenumberedFrame(entries, q, named[..m], EntryId(q, named[m]));
    }
  }

  lemma {:induction false} RenumberedSettled(entries: map<EntryId, Entry>, q: Queue, named: seq<nat>)
    requires forall n | 0 <= n < |named| :: EntryId(q, named[n]) in entries ==> entries[EntryId(q, named[n])].position == n
    ensures Renumbered(entries, q, named) == entries
  {
    if named != [] {
      var m := |named| - 1;
      assert forall n | 0 <= n < m :: named[..m][n] == named[n];
      RenumberedSettled(entries, q, named[..m]);
    }
  }

  lemma AssignSettled(s: State, q: Queue, plan: map<nat, Instant>, t: State)
    requires t.rows == AssignRows(s.rows, q, plan) && t.posts == AssignPosts(s.posts, t.rows, q, plan)
    requires t.entries.Keys == s.entries.Keys
    requires forall e | e in t.entries && e.queue == q && e.post in plan :: t.entries[e].slot == Some(plan[e.post])
    ensures Assign(t, q, plan) == t
  {
    assert AssignRows(t.rows, q, plan) == t.rows;
    assert AssignEntries(t.entries, q, plan) == t.entries;
    assert AssignPosts(t.posts, t.rows, q, plan) == t.posts;
  }

  /** The reordered times, read back in the named order, are the sorted ones. */
  lemma TimesAfter(s: State, q: Queue, ids: seq<EntryId>)
    requires NoRepeats(ids)
    ensures Moved(Reordered(s, q, ids), q, ids) == Moved(s, q, ids)
    ensures Named(Reordered(s, q, ids), q, ids) == Named(s, q, ids)
    ensures SortedTimes(Reordered(s, q, ids), q, ids) == SortedTimes(s, q, ids)
  {
    var t := Reordered(s, q, ids);
    var moved := Moved(s, q, ids);
    var slots := SortedTimes(s, q, ids);
    ReorderedRows(s, q, ids);
    ReorderedKeys(s, q, ids);
    MovedFacts(s, q, ids);
    SortSorts(TimesOf(s, q, moved));
    hide *;
    SameShape(s.rows, t.rows, q, moved, slots);
    SlottedSame(s, t, q);
    NamedFrame(s, t, q, ids);
    SlottedFrame(s, t, q, Named(s, q, ids));
    MovedIs(s, q, ids);
    MovedIs(t, q, ids);
    ReadBack(s.rows, t, q, moved, slots);
    SortKeepsSorted(slots);
    SortedTimesIs(t, q, ids);
  }

  /** Rows keep their status and whether they have a time. */
  lemma SameShape(r1: map<Key, Row>, r2: map<Key, Row>, q: Queue, moved: seq<nat>, slots: seq<Instant>)
    requires Rewritten(r1, r2, q, moved, slots)
    ensures r1.Keys == r2.Keys
    ensures forall k | k in r1 :: r1[k].status == r2[k].status && r1[k].scheduledAt.Some? == r2[k].scheduledAt.Some?
  {
    forall k | k in r1
      ensures r1[k].status == r2[k].status && r1[k].scheduledAt.Some? == r2[k].scheduledAt.Some?
    {
      if k.channel == q.channel && k.post in moved {
        var i :| 0 <= i < |moved| && moved[i] == k.post;
        assert k == Key(moved[i], q.channel) && Slotted(r1, q, moved[i]);
      }
    }
  }

  lemma SlottedSame(s: State, t: State, q: Queue)
    requires s.rows.Keys == t.rows.Keys
    requires forall k | k in s.rows :: s.rows[k].scheduledAt.Some? == t.rows[k].scheduledAt.Some?
    ensures forall p :: Slotted(s.rows, q, p) <==> Slotted(t.rows, q, p)
  {
  }

  lemma ReadBack(r1: map<Key, Row>, t: State, q: Queue, moved: seq<nat>, slots: seq<Instant>)
    requires Rewritten(r1, t.rows, q, moved, slots)
    ensures forall i | 0 <= i < |moved| :: Slotted(t.rows, q, moved[i])
    ensures TimesOf(t, q, moved) == slots
  {
    forall i | 0 <= i < |moved| ensures Slotted(t.rows, q, moved[i]) && TimeOf(t, q, moved[i]) == slots[i] {
      assert Slotted(r1, q, moved[i]);
    }
    var after := TimesOf(t, q, moved);
    assert after == slots;
  }

  lemma ReorderedKeys(s: State, q: Queue, ids: seq<EntryId>)
    ensures Reordered(s, q, ids).entries.Keys == s.entries.Keys
  {
  }

  /** Dropping the same order again changes nothing. */
  lemma ReorderIdempotent(s: State, q: Queue, ids: seq<EntryId>)
    requires NoRepeats(ids)
    ensures Reordered(Reordered(s, q, ids), q, ids) == Reordered(s, q, ids)
  {
    var t := Reordered(s, q, ids);
    var named, moved, slots := Named(s, q, ids), Moved(s, q, ids), SortedTimes(s, q, ids);
    var plan := Pairing(moved, slots);
    var mid := Assign(s, q, plan);
    TimesAfter(s, q, ids);
    NamedDistinct(s, q, ids);
    forall n | 0 <= n < |named| && EntryId(q, named[n]) in mid.entries
      ensures Renumbered(mid.entries, q, named)[EntryId(q, named[n])].position == n
    {
      RenumberedPlace(mid.entries, q, named, n);
    }
    forall e | e in mid.entries ensures Renumbered(mid.entries, q, named)[e].slot == mid.entries[e].slot {
      RenumberedFrame(mid.entries, q, named, e);
    }
    assert t == mid.(entries := Renumbered(mid.entries, q, named));
    hide Renumbered;
    hide Named;
    hide Moved;
    hide SortedTimes;
    hide Pairing;
    AssignSettled(s, q, plan, t);
    assert Reordered(t, q, ids) == t.(entries := Renumbered(t.entries, q, named));
    RenumberedSettled(t.entries, q, named);
  }

  lemma ReorderKeepsAggregates(s: State, q: Queue, ids: seq<EntryId>)
    requires AggregatesRight(s)
    ensures AggregatesRight(Reordered(s, q, ids))
  {
    var slotted := SlottedOf(s, q, Named(s, q, ids));
    SortLength(TimesOf(s, q, slotted));
    var plan := Pairing(slotted, Sort(TimesOf(s, q, slotted)));
    AssignKeepsAggregates(s, q, plan);
    var t := Reordered(s, q, ids);
    assert t.posts == Assign(s, q, plan).posts && t.rows == Assign(s, q, plan).rows;
    hide Assign;
    hide Reordered;
    forall p | p in t.posts ensures AggregateRight(t, p) {
      assert AggregateRight(Assign(s, q, plan), p);
    }
  }
}
