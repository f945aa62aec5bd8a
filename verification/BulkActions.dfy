/** Draft, delete or publish-now a selection of rows
    (apps/calendar/services.py, bulk_platform_action and _sync_queue_entries). */
module BulkActions {
  import opened Common
  import opened QueueModel
  import opened LadderLaws
  import opened QueueEffects
  import opened QueueService
  import opened RowLaws

  datatype Action = ToDraft | Delete | PublishNow | Unknown

  /** Missing times sort last. */
  predicate NoLater(a: Option<Instant>, b: Option<Instant>) {
    b.None? || (a.Some? && a.value <= b.value)
  }

  /** The rows named that exist in the workspace and that the user may edit. */
  predicate Selectable(s: State, ids: set<Key>, workspace: nat, user: nat, editOthers: bool, k: Key) {
    k in ids && k in s.rows && k.post in s.posts && s.posts[k.post].workspace == workspace
    && (s.posts[k.post].author == user || editOthers)
  }

  /** `pps` is a result of the ordered query: every selectable row once, by
      effective time, rows without one last; how ties fall is left open. */
  ghost predicate Selection(s: State, ids: set<Key>, workspace: nat, user: nat, editOthers: bool, pps: seq<Key>) {
    NoRepeats(pps)
    && (forall i | 0 <= i < |pps| :: Selectable(s, ids, workspace, user, editOthers, pps[i]))
    && (forall k | Selectable(s, ids, workspace, user, editOthers, k) :: k in pps)
    && (forall i, j | 0 <= i < j < |pps| :: NoLater(DueAt(s, pps[i]), DueAt(s, pps[j])))
  }

  /** Whether an action touches a row in this status. */
  predicate Applies(action: Action, st: Status) {
    !Protected(st) &&
    match action
    case Delete => true
    case ToDraft => st != Draft && CanTransition(st, Draft)
    case PublishNow => st == Scheduled || CanTransition(st, Scheduled)
    case Unknown => false
  }

  /** The rows acted on, in order. */
  function ActedOn(rows: map<Key, Row>, action: Action, pps: seq<Key>): (r: seq<Key>)
    requires forall i | 0 <= i < |pps| :: pps[i] in rows
  {
    if pps == [] then []
    else
      var n := |pps| - 1;
      var before := ActedOn(rows, action, pps[..n]);
      if Applies(action, rows[pps[n]].status) then before + [pps[n]] else before
  }

  /** The rows of one channel, in order. */
  function OnChannel(keys: seq<Key>, channel: nat): seq<Key> {
    if keys == [] then []
    else
      var n := |keys| - 1;
      var before := OnChannel(keys[..n], channel);
      if keys[n].channel == channel then before + [keys[n]] else before
  }

  /** What each acted-on row becomes; deleted rows are not in it. */
  function NewRows(rows: map<Key, Row>, action: Action, acted: seq<Key>, now: Instant): map<Key, Row>
    requires forall i | 0 <= i < |acted| :: acted[i] in rows
  {
    if acted == [] || action == Delete then map[]
    else
      var n := |acted| - 1;
      var k := acted[n];
      var before := NewRows(rows, action, acted[..n], now);
      if action == ToDraft then before[k := rows[k].(status := Draft, scheduledAt := None)]
      else before[k := Scheduling(rows[k], Scheduled, now + MINUTE * |OnChannel(acted[..n], k.channel)|)]
  }

  /** Rows after the action. */
  function RowsAfter(rows: map<Key, Row>, action: Action, acted: seq<Key>, now: Instant): map<Key, Row>
    requires forall i | 0 <= i < |acted| :: acted[i] in rows
  {
    if action == Delete then rows - Elems(acted) else rows + NewRows(rows, action, acted, now)
  }

  /** Queue entries after the action: dropped with their row's schedule, or moved along with it. */
  function EntriesAfter(entries: map<EntryId, Entry>, rows: map<Key, Row>, action: Action, acted: set<Key>): map<EntryId, Entry> {
    if action == PublishNow then
      map e | e in entries ::
        if Key(e.post, e.queue.channel) in acted && Key(e.post, e.queue.channel) in rows
        then entries[e].(slot := rows[Key(e.post, e.queue.channel)].scheduledAt) else entries[e]
    else map e | e in entries && Key(e.post, e.queue.channel) !in acted :: entries[e]
  }

  ghost predicate Childless(rows: map<Key, Row>, post: nat) {
    forall k | k in rows :: k.post != post
  }

  /** Touched posts lose their place when childless, with their entries, or get their aggregate recomputed. */
  ghost function Settled(s: State, touched: set<nat>): State {
    State(map p | p in s.posts && !(p in touched && Childless(s.rows, p)) ::
            if p in touched then Resynced(s.posts[p], Aggregate(s.rows, p)) else s.posts[p],
          s.rows,
          map e | e in s.entries && !(e.post in touched && e.post in s.posts && Childless(s.rows, e.post)) :: s.entries[e])
  }

  ghost function After(s: State, action: Action, acted: seq<Key>, now: Instant): State
    requires forall i | 0 <= i < |acted| :: acted[i] in s.rows
  {
    var rows := RowsAfter(s.rows, action, acted, now);
    Settled(State(s.posts, rows, EntriesAfter(s.entries, rows, action, Elems(acted))), PostsOf(Elems(acted)))
  }

  /** The action on a selection: on those of its rows that it applies to. */
  ghost function Bulked(s: State, action: Action, pps: seq<Key>, now: Instant): State
    requires forall i | 0 <= i < |pps| :: pps[i] in s.rows
  {
    ActedIn(s.rows, action, pps);
    After(s, action, ActedOn(s.rows, action, pps), now)
  }

  lemma {:induction false} ActedIn(rows: map<Key, Row>, action: Action, pps: seq<Key>)
    requires forall i | 0 <= i < |pps| :: pps[i] in rows
    ensures forall i | 0 <= i < |ActedOn(rows, action, pps)| ::
              ActedOn(rows, action, pps)[i] in rows && ActedOn(rows, action, pps)[i] in pps
  {
    if pps != [] {
      var n := |pps| - 1;
      ActedIn(rows, action, pps[..n]);
      assert pps == pps[..n] + [pps[n]];
    }
  }

  // ----- the action, step by step -----

  /** The outcome for every input; `pps` is the ordered query's answer. */
  method BulkPlatformAction(db: Store, ids: set<Key>, workspace: nat, user: nat, publishDirectly: bool, editOthers: bool,
                            action: Action, pps: seq<Key>, now: Instant) returns (r: Reply)
    requires Selection(db.Now(), ids, workspace, user, editOthers, pps)
    modifies db
    ensures r.BadInput? <==> action == Unknown || ids == {}
    ensures r.Denied? <==> action == PublishNow && ids != {} && !publishDirectly
    ensures !r.Acted? ==> db.Now() == old(db.Now())
    ensures r.Acted? ==>
              (forall i | 0 <= i < |pps| :: pps[i] in old(db.rows))
              && var acted := ActedOn(old(db.rows), action, pps);
              && r.count == |acted|
              && (forall i | 0 <= i < |acted| :: acted[i] in old(db.rows))
              && db.Now() == After(old(db.Now()), action, acted, now)
    ensures r.Acted? ==>
              var meant := MeantOnes(old(db.Now()), ids, workspace, user, editOthers, action);
              r.count == |meant| && Carried(old(db.Now()), action, meant, now, db.Now())
  {
    hide Carried, MeantOnes;
    if action == Unknown || ids == {} {
      return BadInput;
    }
    if action == PublishNow && !publishDirectly {
      return Denied;
    }
    ghost var before := db.Now();
    assert forall i | 0 <= i < |pps| :: pps[i] in db.rows by {
      assert forall i | 0 <= i < |pps| :: Selectable(before, ids, workspace, user, editOthers, pps[i]);
    }
    BulkRows(before, ids, workspace, user, editOthers, action, pps, now);
    var acted, rows := Apply(db.rows, action, pps, now);
    db.rows := rows;
    SyncQueueEntries(db, action, acted);
    SettlePosts(db, PostsOf(Elems(acted)));
    return Acted(|acted|);
  }

  lemma ActedMore(rows: map<Key, Row>, action: Action, pps: seq<Key>, i: nat)
    requires i < |pps| && forall j | 0 <= j < |pps| :: pps[j] in rows
    ensures var before := ActedOn(rows, action, pps[..i]);
            ActedOn(rows, action, pps[..i + 1]) == if Applies(action, rows[pps[i]].status) then before + [pps[i]] else before
  {
    assert pps[..i + 1][..i] == pps[..i];
  }

  lemma NewRowsMore(rows: map<Key, Row>, action: Action, acted: seq<Key>, now: Instant, k: Key)
    requires k in rows && forall j | 0 <= j < |acted| :: acted[j] in rows
    ensures var before := NewRows(rows, action, acted, now);
            NewRows(rows, action, acted + [k], now)
            == if action == Delete then map[]
               else if action == ToDraft then before[k := rows[k].(status := Draft, scheduledAt := None)]
               else before[k := Scheduling(rows[k], Scheduled, now + MINUTE * |OnChannel(acted, k.channel)|)]
    ensures action == Delete ==> NewRows(rows, action, acted, now) == map[]
  {
    assert (acted + [k])[..|acted|] == acted;
    hide OnChannel, Scheduling;
  }

  lemma OnChannelMore(keys: seq<Key>, k: Key)
    ensures forall c :: |OnChannel(keys + [k], c)| == |OnChannel(keys, c)| + if c == k.channel then 1 else 0
  {
    assert (keys + [k])[..|keys|] == keys;
  }

  /** How often each channel has come up. */
  ghost predicate Counted(perChannel: map<nat, nat>, acted: seq<Key>) {
    forall c :: (if c in perChannel then perChannel[c] else 0) == |OnChannel(acted, c)|
  }

  lemma CountMore(perChannel: map<nat, nat>, acted: seq<Key>, k: Key)
    requires Counted(perChannel, acted)
    ensures var n := if k.channel in perChannel then perChannel[k.channel] else 0;
            n == |OnChannel(acted, k.channel)| && Counted(perChannel[k.channel := n + 1], acted + [k])
  {
    OnChannelMore(acted, k);
    hide OnChannel;
  }

  predicate AllRows(rows: map<Key, Row>, keys: seq<Key>) {
    forall j | 0 <= j < |keys| :: keys[j] in rows
  }

  /** What the loop holds once it has walked `done`. */
  ghost predicate Walked(rows: map<Key, Row>, action: Action, done: seq<Key>, now: Instant,
                         acted: seq<Key>, changed: map<Key, Row>, perChannel: map<nat, nat>) {
    AllRows(rows, done) && AllRows(rows, acted)
    && acted == ActedOn(rows, action, done) && changed == NewRows(rows, action, acted, now)
    && (action == PublishNow ==> Counted(perChannel, acted))
  }

  lemma WalkedNone(rows: map<Key, Row>, action: Action, pps: seq<Key>, now: Instant)
    ensures Walked(rows, action, pps[..0], now, [], map[], map[])
  {
  }

  lemma WalkedAll(rows: map<Key, Row>, action: Action, pps: seq<Key>, now: Instant,
                  acted: seq<Key>, changed: map<Key, Row>, perChannel: map<nat, nat>)
    requires Walked(rows, action, pps[..|pps|], now, acted, changed, perChannel)
    ensures forall j | 0 <= j < |pps| :: pps[j] in rows
    ensures acted == ActedOn(rows, action, pps) && forall j | 0 <= j < |acted| :: acted[j] in rows
    ensures RowsAfter(rows, action, acted, now) == if action == Delete then rows - Elems(acted) else rows + changed
  {
    assert pps[..|pps|] == pps;
    hide ActedOn, NewRows, Counted;
  }

  lemma WalkedSkip(rows: map<Key, Row>, action: Action, pps: seq<Key>, now: Instant,
                   acted: seq<Key>, changed: map<Key, Row>, perChannel: map<nat, nat>, i: nat)
    requires i < |pps| && pps[i] in rows && !Applies(action, rows[pps[i]].status)
    requires Walked(rows, action, pps[..i], now, acted, changed, perChannel)
    ensures Walked(rows, action, pps[..i + 1], now, acted, changed, perChannel)
  {
    assert pps[..i + 1] == pps[..i] + [pps[i]];
    ActedMore(rows, action, pps[..i + 1], i);
    assert pps[..i + 1][..i] == pps[..i] && pps[..i + 1][..i + 1] == pps[..i + 1];
    hide ActedOn, NewRows, Counted, Applies;
  }

  /** The dictionary of changes and the counters once `k` is acted on. */
  function Changed(rows: map<Key, Row>, action: Action, now: Instant, changed: map<Key, Row>, perChannel: map<nat, nat>, k: Key):
      (map<Key, Row>, map<nat, nat>)
    requires k in rows
  {
    var n := if k.channel in perChannel then perChannel[k.channel] else 0;
    if action == ToDraft then (changed[k := rows[k].(status := Draft, scheduledAt := None)], perChannel)
    else if action == PublishNow then
      (changed[k := Scheduling(rows[k], Scheduled, now + MINUTE * n)], perChannel[k.channel := n + 1])
    else (changed, perChannel)
  }

  lemma ChangedCases(rows: map<Key, Row>, action: Action, now: Instant, changed: map<Key, Row>, perChannel: map<nat, nat>, k: Key)
    requires k in rows
    ensures var n := if k.channel in perChannel then perChannel[k.channel] else 0;
            Changed(rows, action, now, changed, perChannel, k)
            == if action == ToDraft then (changed[k := rows[k].(status := Draft, scheduledAt := None)], perChannel)
               else if action == PublishNow then
                 (changed[k := Scheduling(rows[k], Scheduled, now + MINUTE * n)], perChannel[k.channel := n + 1])
               else (changed, perChannel)
  {
  }

  lemma ChangedIs(rows: map<Key, Row>, action: Action, acted: seq<Key>, now: Instant, perChannel: map<nat, nat>, k: Key)
    requires (forall j | 0 <= j < |acted| :: acted[j] in rows) && k in rows && action != Unknown
    requires action == PublishNow ==> Counted(perChannel, acted)
    ensures NewRows(rows, action, acted + [k], now)
            == Changed(rows, action, now, NewRows(rows, action, acted, now), perChannel, k).0
    ensures action == PublishNow ==>
              Counted(Changed(rows, action, now, NewRows(rows, action, acted, now), perChannel, k).1, acted + [k])
  {
    NewRowsMore(rows, action, acted, now, k);
    hide NewRows, OnChannel, Scheduling, Counted;
    if action == PublishNow {
      CountMore(perChannel, acted, k);
    }
  }

  lemma ActedPrefix(rows: map<Key, Row>, action: Action, pps: seq<Key>, i: nat)
    requires i < |pps| && pps[i] in rows && AllRows(rows, pps[..i])
    requires Applies(action, rows[pps[i]].status)
    ensures AllRows(rows, pps[..i + 1])
    ensures ActedOn(rows, action, pps[..i + 1]) == ActedOn(rows, action, pps[..i]) + [pps[i]]
    ensures action != Unknown
  {
    assert pps[..i + 1] == pps[..i] + [pps[i]];
    assert pps[..i + 1][..i] == pps[..i];
  }

  lemma WalkedMore(rows: map<Key, Row>, action: Action, pps: seq<Key>, now: Instant,
                   acted: seq<Key>, changed: map<Key, Row>, perChannel: map<nat, nat>, i: nat)
    requires i < |pps| && pps[i] in rows && Applies(action, rows[pps[i]].status)
    requires Walked(rows, action, pps[..i], now, acted, changed, perChannel)
    ensures var after := Changed(rows, action, now, changed, perChannel, pps[i]);
            Walked(rows, action, pps[..i + 1], now, acted + [pps[i]], after.0, after.1)
  {
    hide ActedOn, NewRows, Applies, Changed, Counted;
    ActedPrefix(rows, action, pps, i);
    ChangedIs(rows, action, acted, now, perChannel, pps[i]);
  }

  /** Walk the selection, skipping what the action does not apply to; publishing
      counts per channel to stagger the rows a minute apart. */
  method Apply(rows: map<Key, Row>, action: Action, pps: seq<Key>, now: Instant) returns (acted: seq<Key>, r: map<Key, Row>)
    requires forall i | 0 <= i < |pps| :: pps[i] in rows
    ensures acted == ActedOn(rows, action, pps)
    ensures forall i | 0 <= i < |acted| :: acted[i] in rows
    ensures r == RowsAfter(rows, action, acted, now)
  {
    acted := [];
    var changed: map<Key, Row> := map[];
    var perChannel: map<nat, nat> := map[];
    WalkedNone(rows, action, pps, now);
    hide ActedOn, NewRows, Applies, Walked, Counted, Changed, RowsAfter, Scheduling, OnChannel, Elems, AllRows;
    for i := 0 to |pps|
      invariant Walked(rows, action, pps[..i], now, acted, changed, perChannel)
    {
      var k := pps[i];
      if Applies(action, rows[k].status) {
        WalkedMore(rows, action, pps, now, acted, changed, perChannel, i);
        ChangedCases(rows, action, now, changed, perChannel, k);
        if action == ToDraft {
          changed := changed[k := rows[k].(status := Draft, scheduledAt := None)];
        } else if action == PublishNow {
          var c := k.channel;
          var n := if c in perChannel then perChannel[c] else 0;
          changed := changed[k := Scheduling(rows[k], Scheduled, now + MINUTE * n)];
          perChannel := perChannel[c := n + 1];
        }
        acted := acted + [k];
      } else {
        WalkedSkip(rows, action, pps, now, acted, changed, perChannel, i);
      }
    }
    WalkedAll(rows, action, pps, now, acted, changed, perChannel);
    if action == Delete {
      r := rows - Elems(acted);
    } else {
      r := rows + changed;
    }
  }

  /** Keep queue mirrors in step, one acted-on row at a time. */
  method SyncQueueEntries(db: Store, action: Action, acted: seq<Key>)
    requires action != PublishNow || forall i | 0 <= i < |acted| :: acted[i] in db.rows
    modifies db`entries
    ensures db.entries == EntriesAfter(old(db.entries), db.rows, action, Elems(acted))
  {
    ghost var before := db.entries;
    assert EntriesAfter(before, db.rows, action, Elems(acted[..0])) == before;
    for i := 0 to |acted|
      invariant db.entries == EntriesAfter(before, db.rows, action, Elems(acted[..i]))
    {
      EntriesMore(before, db.rows, action, acted, i);
      var k := acted[i];
      if action == PublishNow {
        db.entries := map e | e in db.entries ::
          if Key(e.post, e.queue.channel) == k then db.entries[e].(slot := db.rows[k].scheduledAt) else db.entries[e];
      } else {
        db.entries := map e | e in db.entries && Key(e.post, e.queue.channel) != k :: db.entries[e];
      }
    }
    assert acted[..|acted|] == acted;
  }

  lemma EntriesMore(entries: map<EntryId, Entry>, rows: map<Key, Row>, action: Action, acted: seq<Key>, i: nat)
    requires i < |acted| && (action != PublishNow || acted[i] in rows)
    ensures var k := acted[i];
            var r := EntriesAfter(entries, rows, action, Elems(acted[..i]));
            EntriesAfter(entries, rows, action, Elems(acted[..i + 1])) ==
            if action == PublishNow
            then map e | e in r :: if Key(e.post, e.queue.channel) == k then r[e].(slot := rows[k].scheduledAt) else r[e]
            else map e | e in r && Key(e.post, e.queue.channel) != k :: r[e]
  {
    assert acted[..i + 1] == acted[..i] + [acted[i]];
    assert Elems(acted[..i + 1]) == Elems(acted[..i]) + {acted[i]};
  }

  /** Delete touched posts that have become childless, with their entries; resync the others. */
  method SettlePosts(db: Store, touched: set<nat>)
    modifies db
    ensures db.Now() == Settled(old(db.Now()), touched)
  {
    ghost var before := db.Now();
    var pending := touched;
    SettledNone(before);
    assert touched - pending == {};
    while pending != {}
      invariant pending <= touched
      invariant db.Now() == Settled(before, touched - pending)
      decreases |pending|
    {
      var p :| p in pending;
      SettledMore(before, touched - pending, p);
      assert touched - (pending - {p}) == (touched - pending) + {p};
      pending := pending - {p};
      if p in db.posts {
        var children := set k | k in db.rows && k.post == p;
        assert children == {} <==> Childless(db.rows, p) by {
          if children == {} { forall k | k in db.rows ensures k.post != p { assert k !in children; } }
        }
        if children == {} {
          db.posts := db.posts - {p};
          db.entries := map e | e in db.entries && e.post != p :: db.entries[e];
        } else {
          db.SyncPost(p);
        }
      }
    }
    assert touched - {} == touched;
  }

  lemma SettledNone(s: State)
    ensures Settled(s, {}) == s
  {
    assert Settled(s, {}).posts == s.posts;
    assert Settled(s, {}).entries == s.entries;
  }

  lemma SettledMore(s: State, done: set<nat>, p: nat)
    requires p !in done
    ensures var t := Settled(s, done);
            Settled(s, done + {p}) ==
            if p !in t.posts then t
            else if Childless(t.rows, p)
            then State(t.posts - {p}, t.rows, map e | e in t.entries && e.post != p :: t.entries[e])
            else State(Synced(t.posts, t.rows, p), t.rows, t.entries)
  {
    var t := Settled(s, done);
    var u := Settled(s, done + {p});
    if p in s.posts {
      if Childless(s.rows, p) {
        assert u.posts == t.posts - {p};
        assert u.entries == map e | e in t.entries && e.post != p :: t.entries[e];
      } else {
        assert u.posts == Synced(t.posts, t.rows, p);
        assert u.entries == t.entries;
      }
    } else {
      assert u.posts == t.posts;
      assert u.entries == t.entries;
    }
  }

  // ----- what it guarantees -----

  lemma {:induction false} ActedMembers(rows: map<Key, Row>, action: Action, pps: seq<Key>)
    requires forall i | 0 <= i < |pps| :: pps[i] in rows
    requires NoRepeats(pps)
    ensures NoRepeats(ActedOn(rows, action, pps))
    ensures forall k | k in ActedOn(rows, action, pps) :: k in pps && k in rows && Applies(action, rows[k].status)
    ensures forall k | k in pps && Applies(action, rows[k].status) :: k in ActedOn(rows, action, pps)
  {
    if pps != [] {
      var n := |pps| - 1;
      ActedMembers(rows, action, pps[..n]);
      assert pps == pps[..n] + [pps[n]];
      assert pps[n] !in pps[..n];
    }
  }

  lemma {:induction false} NewRowsKeys(rows: map<Key, Row>, action: Action, acted: seq<Key>, now: Instant)
    requires forall i | 0 <= i < |acted| :: acted[i] in rows
    requires action == ToDraft || action == PublishNow
    ensures NewRows(rows, action, acted, now).Keys == Elems(acted)
  {
    if acted != [] {
      var n := |acted| - 1;
      NewRowsKeys(rows, action, acted[..n], now);
      assert acted == acted[..n] + [acted[n]];
      assert Elems(acted) == Elems(acted[..n]) + {acted[n]};
    }
  }

  /** What the row acted on at place `i` becomes. */
  function NewRow(rows: map<Key, Row>, action: Action, acted: seq<Key>, now: Instant, i: nat): Row
    requires i < |acted| && acted[i] in rows
  {
    if action == ToDraft then rows[acted[i]].(status := Draft, scheduledAt := None)
    else Scheduling(rows[acted[i]], Scheduled, now + MINUTE * |OnChannel(acted[..i], acted[i].channel)|)
  }

  lemma {:induction false} NewRowsAt(rows: map<Key, Row>, action: Action, acted: seq<Key>, now: Instant, i: nat)
    requires NoRepeats(acted) && forall i | 0 <= i < |acted| :: acted[i] in rows
    requires action == ToDraft || action == PublishNow
    requires i < |acted|
    ensures acted[i] in NewRows(rows, action, acted, now)
    ensures NewRows(rows, action, acted, now)[acted[i]] == NewRow(rows, action, acted, now, i)
  {
    var n := |acted| - 1;
    if i < n {
      NewRowsAt(rows, action, acted[..n], now, i);
      assert acted[..n][..i] == acted[..i] && acted[..n][i] == acted[i];
      hide OnChannel;
    }
  }

  lemma {:induction false} OnChannelAt(keys: seq<Key>, channel: nat, j: nat) returns (i: nat)
    requires j < |OnChannel(keys, channel)|
    ensures i < |keys| && keys[i] == OnChannel(keys, channel)[j] && keys[i].channel == channel
    ensures |OnChannel(keys[..i], channel)| == j
  {
    var n := |keys| - 1;
    if keys[n].channel == channel && j == |OnChannel(keys[..n], channel)| {
      i := n;
    } else {
      i := OnChannelAt(keys[..n], channel, j);
      assert keys[..n][..i] == keys[..i];
    }
  }

  /** Publishing gives the acted-on rows of each channel the instants now, now
      plus one minute, and so on, without gaps or repeats. */
  lemma PublishStaggers(s: State, pps: seq<Key>, now: Instant, channel: nat, j: nat)
    requires NoRepeats(pps) && forall i | 0 <= i < |pps| :: pps[i] in s.rows
    requires j < |OnChannel(ActedOn(s.rows, PublishNow, pps), channel)|
    ensures forall i | 0 <= i < |ActedOn(s.rows, PublishNow, pps)| :: ActedOn(s.rows, PublishNow, pps)[i] in s.rows
    ensures var acted := ActedOn(s.rows, PublishNow, pps);
            var k := OnChannel(acted, channel)[j];
            var r := After(s, PublishNow, acted, now).rows;
            k in r && r[k].status == Scheduled && r[k].scheduledAt == Some(now + MINUTE * j)
  {
    var acted := ActedOn(s.rows, PublishNow, pps);
    ActedMembers(s.rows, PublishNow, pps);
    hide *;
    forall i | 0 <= i < |acted| ensures acted[i] in s.rows {
      assert acted[i] in acted;
    }
    StaggerAt(s, acted, now, channel, j);
  }

  lemma StaggerAt(s: State, acted: seq<Key>, now: Instant, channel: nat, j: nat)
    requires NoRepeats(acted) && forall i | 0 <= i < |acted| :: acted[i] in s.rows
    requires j < |OnChannel(acted, channel)|
    ensures var k := OnChannel(acted, channel)[j];
            var r := After(s, PublishNow, acted, now).rows;
            k in r && r[k].status == Scheduled && r[k].scheduledAt == Some(now + MINUTE * j)
  {
    hide After, OnChannel, NoRepeats, Scheduling;
    var i := OnChannelAt(acted, channel, j);
    PublishedAt(s, acted, now, i);
    ScheduledRow(s.rows[acted[i]], now, j);
  }

  lemma ScheduledRow(r: Row, now: Instant, j: nat)
    ensures var at := now + MINUTE * j;
            Scheduling(r, Scheduled, at).status == Scheduled && Scheduling(r, Scheduled, at).scheduledAt == Some(at)
  {
  }

  /** The row acted on at place `i` is put on the schedule, as many minutes on as it has
      predecessors on its channel. */
  predicate ScheduledAt(rows: map<Key, Row>, r: map<Key, Row>, acted: seq<Key>, now: Instant, i: nat)
    requires i < |acted|
  {
    acted[i] in rows && acted[i] in r
    && r[acted[i]] == Scheduling(rows[acted[i]], Scheduled, now + MINUTE * |OnChannel(acted[..i], acted[i].channel)|)
  }

  lemma PublishedAt(s: State, acted: seq<Key>, now: Instant, i: nat)
    requires NoRepeats(acted) && (forall j | 0 <= j < |acted| :: acted[j] in s.rows) && i < |acted|
    ensures ScheduledAt(s.rows, After(s, PublishNow, acted, now).rows, acted, now, i)
  {
    NewRowsAt(s.rows, PublishNow, acted, now, i);
    SettledRows(s, PublishNow, acted, now);
    hide After, OnChannel, NewRows, NoRepeats, Scheduling;
  }

  lemma SettledRows(s: State, action: Action, acted: seq<Key>, now: Instant)
    requires forall i | 0 <= i < |acted| :: acted[i] in s.rows
    ensures After(s, action, acted, now).rows == RowsAfter(s.rows, action, acted, now)
  {
  }

  lemma {:induction false} ActedKeepsOrder(s: State, action: Action, pps: seq<Key>, a: nat, b: nat) returns (i: nat, j: nat)
    requires forall i | 0 <= i < |pps| :: pps[i] in s.rows
    requires a < b < |ActedOn(s.rows, action, pps)|
    ensures i < j < |pps| && pps[i] == ActedOn(s.rows, action, pps)[a] && pps[j] == ActedOn(s.rows, action, pps)[b]
  {
    var n := |pps| - 1;
    var before := ActedOn(s.rows, action, pps[..n]);
    if b < |before| {
      i, j := ActedKeepsOrder(s, action, pps[..n], a, b);
    } else {
      i := ActedAt(s, action, pps[..n], a);
      j := n;
    }
  }

  lemma {:induction false} ActedAt(s: State, action: Action, pps: seq<Key>, a: nat) returns (i: nat)
    requires forall i | 0 <= i < |pps| :: pps[i] in s.rows
    requires a < |ActedOn(s.rows, action, pps)|
    ensures i < |pps| && pps[i] == ActedOn(s.rows, action, pps)[a]
  {
    var n := |pps| - 1;
    if a < |ActedOn(s.rows, action, pps[..n])| {
      i := ActedAt(s, action, pps[..n], a);
    } else {
      i := n;
    }
  }

  lemma {:induction false} OnChannelKeepsOrder(keys: seq<Key>, channel: nat, a: nat, b: nat) returns (i: nat, j: nat)
    requires a < b < |OnChannel(keys, channel)|
    ensures i < j < |keys| && keys[i] == OnChannel(keys, channel)[a] && keys[j] == OnChannel(keys, channel)[b]
  {
    var n := |keys| - 1;
    var before := OnChannel(keys[..n], channel);
    if b < |before| {
      i, j := OnChannelKeepsOrder(keys[..n], channel, a, b);
    } else {
      i := OnChannelAt(keys[..n], channel, a);
      j := n;
    }
  }

  /** The staggering follows the previous effective-time order. */
  lemma PublishFollowsDueOrder(s: State, ids: set<Key>, workspace: nat, user: nat, editOthers: bool, pps: seq<Key>,
                               channel: nat, a: nat, b: nat)
    requires Selection(s, ids, workspace, user, editOthers, pps)
    requires forall i | 0 <= i < |pps| :: pps[i] in s.rows
    requires a < b < |OnChannel(ActedOn(s.rows, PublishNow, pps), channel)|
    ensures var sub := OnChannel(ActedOn(s.rows, PublishNow, pps), channel);
            sub[a] in s.rows && sub[b] in s.rows && NoLater(DueAt(s, sub[a]), DueAt(s, sub[b]))
  {
    var i, j := OnChannelKeepsOrder(ActedOn(s.rows, PublishNow, pps), channel, a, b);
    var x, y := ActedKeepsOrder(s, PublishNow, pps, i, j);
  }

  lemma RowsAfterOther(s: State, action: Action, acted: seq<Key>, now: Instant, k: Key)
    requires NoRepeats(acted) && forall i | 0 <= i < |acted| :: acted[i] in s.rows
    requires action != Unknown && k in s.rows && k !in acted
    ensures k in RowsAfter(s.rows, action, acted, now) && RowsAfter(s.rows, action, acted, now)[k] == s.rows[k]
  {
    if action != Delete {
      NewRowsKeys(s.rows, action, acted, now);
    }
  }

  /** Deleting removes exactly the rows acted on; drafting leaves them untimed
      drafts; and every other row is as it was. */
  lemma DraftsAndDeletions(s: State, action: Action, acted: seq<Key>, now: Instant, k: Key)
    requires NoRepeats(acted) && forall i | 0 <= i < |acted| :: acted[i] in s.rows
    requires action == Delete || action == ToDraft
    ensures var r := After(s, action, acted, now).rows;
            && (k in r <==> k in s.rows && !(action == Delete && k in acted))
            && (k in r && k in acted ==> r[k] == s.rows[k].(status := Draft, scheduledAt := None))
            && (k in r && k !in acted ==> r[k] == s.rows[k])
  {
    SettledRows(s, action, acted, now);
    if action == ToDraft {
      NewRowsKeys(s.rows, action, acted, now);
      if k in acted {
        var i :| 0 <= i < |acted| && acted[i] == k;
        NewRowsAt(s.rows, action, acted, now, i);
      }
    }
    hide After, NewRows;
  }

  /** No bulk action changes or deletes a published or publishing row, directly
      or by deleting its post. */
  lemma HistorySurvives(s: State, action: Action, pps: seq<Key>, now: Instant, k: Key)
    requires NoRepeats(pps) && action != Unknown && forall i | 0 <= i < |pps| :: pps[i] in s.rows
    requires k in s.rows && k.post in s.posts && Protected(s.rows[k].status)
    ensures forall i | 0 <= i < |ActedOn(s.rows, action, pps)| :: ActedOn(s.rows, action, pps)[i] in s.rows
    ensures var t := After(s, action, ActedOn(s.rows, action, pps), now);
            k in t.rows && t.rows[k] == s.rows[k] && k.post in t.posts
  {
    var acted := ActedOn(s.rows, action, pps);
    ActedMembers(s.rows, action, pps);
    forall i | 0 <= i < |acted| ensures acted[i] in s.rows {
      assert acted[i] in acted;
    }
    RowsAfterOther(s, action, acted, now, k);
  }

  /** Exactly the touched posts that end childless are deleted. */
  lemma DeletedIffChildless(s: State, action: Action, acted: seq<Key>, now: Instant, p: nat)
    requires forall i | 0 <= i < |acted| :: acted[i] in s.rows
    requires p in s.posts
    ensures p !in After(s, action, acted, now).posts <==>
            p in PostsOf(Elems(acted)) && Childless(After(s, action, acted, now).rows, p)
  {
  }

  /** Queue mirrors agree with what was done: gone with a draft or a deletion,
      at the new time after a publish. */
  lemma MirrorsFollow(s: State, action: Action, acted: seq<Key>, now: Instant, e: EntryId)
    requires NoRepeats(acted) && forall i | 0 <= i < |acted| :: acted[i] in s.rows
    requires action != Unknown && Key(e.post, e.queue.channel) in acted
    ensures var t := After(s, action, acted, now);
            if action == PublishNow
            then (e in t.entries <==> e in s.entries)
                 && (e in t.entries ==>
                       Key(e.post, e.queue.channel) in t.rows
                       && t.entries[e] == s.entries[e].(slot := t.rows[Key(e.post, e.queue.channel)].scheduledAt))
            else e !in t.entries
  {
    if action == PublishNow {
      NewRowsKeys(s.rows, action, acted, now);
      var k := Key(e.post, e.queue.channel);
      assert k in RowsAfter(s.rows, action, acted, now);
      assert !Childless(RowsAfter(s.rows, action, acted, now), e.post);
    }
  }

  lemma {:induction false} OnChannelHas(keys: seq<Key>, k: Key) returns (j: nat)
    requires k in keys
    ensures j < |OnChannel(keys, k.channel)| && OnChannel(keys, k.channel)[j] == k
  {
    var n := |keys| - 1;
    if keys[n] == k {
      j := |OnChannel(keys[..n], k.channel)|;
    } else {
      assert k in keys[..n];
      j := OnChannelHas(keys[..n], k);
    }
  }

  /** A live row that is not acted on holds one of the times handed out on its channel. */
  ghost predicate InTheWay(rows: map<Key, Row>, acted: seq<Key>, now: Instant, channel: nat, x: Key, j: nat) {
    x in rows && x !in acted && x.channel == channel && Live(rows[x])
    && j < |OnChannel(acted, channel)| && rows[x].scheduledAt == Some(now + MINUTE * j)
  }

  /** What publishing leaves on a channel: the acted-on rows at their minutes, the others as they were. */
  ghost predicate Staggered(rows: map<Key, Row>, r: map<Key, Row>, acted: seq<Key>, now: Instant, channel: nat) {
    r.Keys == rows.Keys
    && (forall j | 0 <= j < |OnChannel(acted, channel)| ::
          OnChannel(acted, channel)[j] in r && r[OnChannel(acted, channel)[j]].status == Scheduled
          && r[OnChannel(acted, channel)[j]].scheduledAt == Some(now + MINUTE * j))
    && (forall x | x in rows && x !in acted :: r[x] == rows[x])
  }

  lemma PublishStaggersAll(s: State, acted: seq<Key>, now: Instant, channel: nat)
    requires NoRepeats(acted) && forall i | 0 <= i < |acted| :: acted[i] in s.rows
    ensures Staggered(s.rows, After(s, PublishNow, acted, now).rows, acted, now, channel)
  {
    var r := After(s, PublishNow, acted, now).rows;
    SettledRows(s, PublishNow, acted, now);
    NewRowsKeys(s.rows, PublishNow, acted, now);
    assert r.Keys == s.rows.Keys by {
      forall k | k in Elems(acted) ensures k in s.rows {
        var i :| 0 <= i < |acted| && acted[i] == k;
      }
    }
    hide After, OnChannel, NewRows, RowsAfter;
    forall j | 0 <= j < |OnChannel(acted, channel)|
      ensures OnChannel(acted, channel)[j] in r && r[OnChannel(acted, channel)[j]].status == Scheduled
              && r[OnChannel(acted, channel)[j]].scheduledAt == Some(now + MINUTE * j)
    {
      StaggerAt(s, acted, now, channel, j);
    }
    forall x | x in s.rows && x !in acted ensures r[x] == s.rows[x] {
      RowsAfterOther(s, PublishNow, acted, now, x);
    }
  }

  /** Publishing keeps a channel free of double booking exactly when no live row
      that is not acted on holds one of the minutes handed out: other rows are not
      looked at. */
  lemma PublishKeepsDistinctIff(s: State, acted: seq<Key>, now: Instant, channel: nat)
    requires NoRepeats(acted) && forall i | 0 <= i < |acted| :: acted[i] in s.rows
    requires NoDoubleBooking(s.rows, channel)
    ensures NoDoubleBooking(After(s, PublishNow, acted, now).rows, channel) <==>
            !exists x: Key, j: nat :: InTheWay(s.rows, acted, now, channel, x, j)
  {
    PublishStaggersAll(s, acted, now, channel);
    StaggeredDistinctIff(s.rows, After(s, PublishNow, acted, now).rows, acted, now, channel);
  }

  lemma StaggeredDistinctIff(rows: map<Key, Row>, r: map<Key, Row>, acted: seq<Key>, now: Instant, channel: nat)
    requires Staggered(rows, r, acted, now, channel) && NoDoubleBooking(rows, channel)
    ensures NoDoubleBooking(r, channel) <==> !exists x: Key, j: nat :: InTheWay(rows, acted, now, channel, x, j)
  {
    hide OnChannel;
    if x: Key, j: nat :| InTheWay(rows, acted, now, channel, x, j) {
      var k := OnChannel(acted, channel)[j];
      OnChannelIn(acted, channel, j);
      assert Live(r[x]) && Live(r[k]) && r[x].scheduledAt == r[k].scheduledAt && x != k;
    } else {
      forall a, b | a in r && b in r && a.channel == channel && b.channel == channel && Live(r[a]) && Live(r[b])
                    && r[a].scheduledAt == r[b].scheduledAt
        ensures a == b
      {
        if a in acted && b in acted {
          var i := OnChannelHas(acted, a);
          var j := OnChannelHas(acted, b);
          assert i == j;
        } else if a in acted {
          ActedMeetsOther(rows, r, acted, now, channel, a, b);
        } else if b in acted {
          ActedMeetsOther(rows, r, acted, now, channel, b, a);
        }
      }
    }
  }

  lemma ActedMeetsOther(rows: map<Key, Row>, r: map<Key, Row>, acted: seq<Key>, now: Instant, channel: nat, a: Key, b: Key)
    requires Staggered(rows, r, acted, now, channel) && a in acted && b !in acted && a in r && b in r
    requires a.channel == channel && b.channel == channel && Live(r[b]) && r[a].scheduledAt == r[b].scheduledAt
    ensures exists x: Key, j: nat :: InTheWay(rows, acted, now, channel, x, j)
  {
    var i := OnChannelHas(acted, a);
    hide OnChannel;
    assert InTheWay(rows, acted, now, channel, b, i);
  }

  lemma OnChannelIn(keys: seq<Key>, channel: nat, j: nat)
    requires j < |OnChannel(keys, channel)|
    ensures OnChannel(keys, channel)[j] in keys && OnChannel(keys, channel)[j].channel == channel
  {
    var i := OnChannelAt(keys, channel, j);
  }

  /** Aggregates that were right are right afterwards. */
  lemma BulkKeepsAggregates(s: State, action: Action, acted: seq<Key>, now: Instant)
    requires NoRepeats(acted) && (forall i | 0 <= i < |acted| :: acted[i] in s.rows) && action != Unknown
    requires AggregatesRight(s)
    ensures AggregatesRight(After(s, action, acted, now))
  {
    var t := After(s, action, acted, now);
    forall p | p in t.posts ensures AggregateRight(t, p) {
      if p !in PostsOf(Elems(acted)) {
        assert AggregateRight(s, p);
        forall k: Key | k.post == p
          ensures (k in s.rows <==> k in t.rows) && (k in s.rows ==> s.rows[k].scheduledAt == t.rows[k].scheduledAt)
        {
          assert k !in acted;
          if k in s.rows {
            RowsAfterOther(s, action, acted, now, k);
          } else if action != Delete {
            NewRowsKeys(s.rows, action, acted, now);
          }
        }
        AggregateFrame(s.rows, t.rows, p);
      }
    }
  }

  // ----- siblings that follow the aggregate -----

  lemma PublishKeepsPosts(s: State, acted: seq<Key>, now: Instant)
    requires NoRepeats(acted) && forall i | 0 <= i < |acted| :: acted[i] in s.rows
    ensures After(s, PublishNow, acted, now).posts.Keys == s.posts.Keys
  {
    var t := After(s, PublishNow, acted, now);
    SettledRows(s, PublishNow, acted, now);
    NewRowsKeys(s.rows, PublishNow, acted, now);
    forall p | p in s.posts ensures p in t.posts {
      DeletedIffChildless(s, PublishNow, acted, now, p);
      if p in PostsOf(Elems(acted)) {
        var k :| k in Elems(acted) && k.post == p;
        assert k in t.rows;
      }
    }
    hide RowsAfter, EntriesAfter;
  }

  lemma PublishedPost(s: State, acted: seq<Key>, now: Instant, p: nat)
    requires (forall i | 0 <= i < |acted| :: acted[i] in s.rows) && p in After(s, PublishNow, acted, now).posts
    ensures p in s.posts
    ensures var t := After(s, PublishNow, acted, now);
            t.posts[p].scheduledAt == if p in PostsOf(Elems(acted)) then Aggregate(t.rows, p) else s.posts[p].scheduledAt
  {
  }

  lemma PublishWritesTimes(s: State, acted: seq<Key>, now: Instant)
    requires NoRepeats(acted) && forall i | 0 <= i < |acted| :: acted[i] in s.rows
    ensures WritesTimes(s, After(s, PublishNow, acted, now), Elems(acted))
    ensures After(s, PublishNow, acted, now).posts.Keys == s.posts.Keys
  {
    var t := After(s, PublishNow, acted, now);
    hide After, Aggregate;
    PublishKeepsPosts(s, acted, now);
    PublishStaggersAll(s, acted, now, 0);
    forall k | k in Elems(acted) ensures k in s.rows && k in t.rows && t.rows[k].scheduledAt.Some? {
      var j := OnChannelHas(acted, k);
      StaggerAt(s, acted, now, k.channel, j);
    }
    forall p | p in s.posts
      ensures p in t.posts
      ensures (exists k :: k in Elems(acted) && k.post == p) <==> p in PostsOf(Elems(acted))
      ensures t.posts[p].scheduledAt == if p in PostsOf(Elems(acted)) then Aggregate(t.rows, p) else s.posts[p].scheduledAt
    {
      PublishedPost(s, acted, now, p);
    }
  }

  /** The time a publish gives the row at place `j` of its channel. */
  lemma MinuteAt(s: State, acted: seq<Key>, now: Instant, c: nat, j: nat)
    requires NoRepeats(acted) && forall i | 0 <= i < |acted| :: acted[i] in s.rows
    requires j < |OnChannel(acted, c)|
    ensures OnChannel(acted, c)[j] in Elems(acted) && OnChannel(acted, c)[j] in After(s, PublishNow, acted, now).rows
    ensures After(s, PublishNow, acted, now).rows[OnChannel(acted, c)[j]].scheduledAt == Some(now + MINUTE * j)
  {
    hide After, OnChannel, NoRepeats;
    StaggerAt(s, acted, now, c, j);
    OnChannelIn(acted, c, j);
  }

  /** A minute handed out to the row's post would lower or set the aggregate it follows. */
  ghost predicate MinuteExposes(s: State, acted: seq<Key>, now: Instant, x: Key, c: nat, j: nat) {
    j < |OnChannel(acted, c)| && OnChannel(acted, c)[j].post == x.post && Exposed(s, x, now + MINUTE * j)
  }

  /** Publishing makes another row fall due earlier exactly when the row is scheduled
      without a time of its own and one of the minutes handed out to its post is
      earlier than the post's aggregate, or the post had none. */
  lemma PublishHastensIff(s: State, acted: seq<Key>, now: Instant, x: Key)
    requires AggregatesRight(s) && NoRepeats(acted) && (forall i | 0 <= i < |acted| :: acted[i] in s.rows)
    requires x in s.rows && x !in acted
    ensures Hastened(s, After(s, PublishNow, acted, now), x) <==> exists c: nat, j: nat :: MinuteExposes(s, acted, now, x, c, j)
  {
    var t := After(s, PublishNow, acted, now);
    hide After, OnChannel, Exposed, Hastened, AggregatesRight, NoRepeats;
    PublishWritesTimes(s, acted, now);
    WritesHastenIff(s, t, Elems(acted), x);
    hide WritesTimes;
    if k :| k in Elems(acted) && k.post == x.post && Exposed(s, x, t.rows[k].scheduledAt.value) {
      var j := OnChannelHas(acted, k);
      MinuteAt(s, acted, now, k.channel, j);
      assert MinuteExposes(s, acted, now, x, k.channel, j);
    }
    if c: nat, j: nat :| MinuteExposes(s, acted, now, x, c, j) {
      MinuteAt(s, acted, now, c, j);
    }
  }

  // ----- read off the rows -----

  /** The statuses that an action takes. */
  predicate Takes(action: Action, st: Status) {
    match action
    case ToDraft => st in {Approved, ChangesRequested, Rejected, Scheduled, Failed, OnHold}
    case Delete => st in {Draft, PendingReview, Approved, PendingClient, ChangesRequested, Rejected, Scheduled, Failed, OnHold}
    case PublishNow => st in {Draft, Approved, Scheduled, Failed}
    case Unknown => false
  }

  /** The row is named, in the workspace, the user's own unless others' may be edited,
      and in a status that the action takes. */
  predicate Meant(s: State, ids: set<Key>, workspace: nat, user: nat, editOthers: bool, action: Action, k: Key) {
    k in ids && k in s.rows && k.post in s.posts && s.posts[k.post].workspace == workspace
    && (s.posts[k.post].author == user || editOthers) && Takes(action, s.rows[k].status)
  }

  function MeantOnes(s: State, ids: set<Key>, workspace: nat, user: nat, editOthers: bool, action: Action): set<Key> {
    set k | k in ids && Meant(s, ids, workspace, user, editOthers, action, k)
  }

  /** The row falls due at `x`: at its own time, or at its post's if it has none. */
  predicate Due(s: State, k: Key, x: Instant) {
    k in s.rows
    && (s.rows[k].scheduledAt == Some(x)
        || (s.rows[k].scheduledAt.None? && k.post in s.posts && s.posts[k.post].scheduledAt == Some(x)))
  }

  /** Nothing falls due before the other does, or never does. */
  ghost predicate DueNoLater(s: State, a: Key, b: Key) {
    forall y: Instant | Due(s, b, y) :: exists x: Instant :: x <= y && Due(s, a, x)
  }

  /** The rows of `who` are scheduled, those of a channel a minute apart from `now` on
      in the order in which they fell due. */
  ghost predicate MinuteByMinute(s: State, who: set<Key>, now: Instant, r: map<Key, Row>) {
    (forall k | k in who :: AtSomeMinute(s, who, now, r, k))
    && (forall a, b | a in who && b in who && a != b && a.channel == b.channel :: InTurn(s, r, a, b))
  }

  /** The two rows have different times, and the one with the earlier time fell due no later. */
  ghost predicate InTurn(s: State, r: map<Key, Row>, a: Key, b: Key) {
    a in r && b in r && r[a].scheduledAt.Some? && r[b].scheduledAt.Some? && r[a].scheduledAt != r[b].scheduledAt
    && (r[a].scheduledAt.value < r[b].scheduledAt.value ==> DueNoLater(s, a, b))
  }

  function OfChannel(who: set<Key>, channel: nat): set<Key> {
    set k | k in who && k.channel == channel
  }

  /** The row is scheduled for one of the minutes that its channel has rows for, without its failures. */
  ghost predicate AtSomeMinute(s: State, who: set<Key>, now: Instant, r: map<Key, Row>, k: Key) {
    k in s.rows && k in r
    && exists j: nat :: j < |OfChannel(who, k.channel)|
                        && r[k] == Row(Scheduled, Some(now + 60_000_000 * j), s.rows[k].publishedAt,
                                       if s.rows[k].status == Failed then Failure("", 0, None) else s.rows[k].failure)
  }

  ghost predicate RowsCarried(s: State, action: Action, who: set<Key>, now: Instant, r: map<Key, Row>) {
    (forall k :: k in r <==> k in s.rows && !(action == Delete && k in who))
    && (forall k | k in s.rows && k in r && k !in who :: r[k] == s.rows[k])
    && (action == ToDraft ==>
          forall k | k in who && k in s.rows && k in r :: r[k] == s.rows[k].(status := Draft, scheduledAt := None))
    && (action == PublishNow ==> MinuteByMinute(s, who, now, r))
  }

  /** A post one of whose rows was acted on. */
  ghost predicate Touched(who: set<Key>, p: nat) {
    exists c: nat :: Key(p, c) in who
  }

  /** A post one of whose rows was acted on and that has none left. */
  ghost predicate Emptied(who: set<Key>, r: map<Key, Row>, p: nat) {
    Touched(who, p) && forall c: nat :: Key(p, c) !in r
  }

  ghost predicate PostsCarried(s: State, who: set<Key>, t: State) {
    (forall p :: p in t.posts <==> p in s.posts && !Emptied(who, t.rows, p))
    && (forall p | p in s.posts && p in t.posts ::
          if Touched(who, p) then Recached(s.posts[p], t.posts[p], t.rows, p) else t.posts[p] == s.posts[p])
  }

  ghost predicate EntriesCarried(s: State, action: Action, who: set<Key>, t: State) {
    (forall e :: e in t.entries <==>
       e in s.entries && !(action != PublishNow && Key(e.post, e.queue.channel) in who)
       && !(e.post in s.posts && Emptied(who, t.rows, e.post)))
    && (forall e | e in t.entries && e in s.entries ::
          t.entries[e] == if action == PublishNow && Key(e.post, e.queue.channel) in who && Key(e.post, e.queue.channel) in t.rows
                          then s.entries[e].(slot := t.rows[Key(e.post, e.queue.channel)].scheduledAt)
                          else s.entries[e])
  }

  /** The action carried out on the rows of `who` and on nothing else: the rows deleted,
      drafted or published minute by minute, their entries dropped or moved along, and
      their posts deleted when no row is left or recached. */
  ghost predicate Carried(s: State, action: Action, who: set<Key>, now: Instant, t: State) {
    RowsCarried(s, action, who, now, t.rows) && PostsCarried(s, who, t) && EntriesCarried(s, action, who, t)
  }

  lemma TakesIs(action: Action, st: Status)
    ensures Applies(action, st) <==> Takes(action, st)
  {
  }

  lemma MeantIs(s: State, ids: set<Key>, workspace: nat, user: nat, editOthers: bool, action: Action, pps: seq<Key>)
    requires Selection(s, ids, workspace, user, editOthers, pps) && forall i | 0 <= i < |pps| :: pps[i] in s.rows
    ensures var acted := ActedOn(s.rows, action, pps);
            Elems(acted) == MeantOnes(s, ids, workspace, user, editOthers, action) && |acted| == |Elems(acted)|
  {
    var acted := ActedOn(s.rows, action, pps);
    ActedMembers(s.rows, action, pps);
    hide ActedOn, Applies, Takes;
    ElemsSize(acted);
    Pigeonhole(acted, Elems(acted));
    forall k ensures k in acted <==> Meant(s, ids, workspace, user, editOthers, action, k) {
      if k in s.rows {
        TakesIs(action, s.rows[k].status);
      }
      if k in pps {
        var i :| 0 <= i < |pps| && pps[i] == k;
      }
    }
  }

  lemma TouchedIs(acted: seq<Key>, p: nat)
    ensures p in PostsOf(Elems(acted)) <==> Touched(Elems(acted), p)
  {
    if k :| k in Elems(acted) && k.post == p {
      assert k == Key(p, k.channel);
    }
    if c: nat :| Key(p, c) in Elems(acted) {
      assert Key(p, c).post == p;
    }
  }

  lemma EmptiedIs(acted: seq<Key>, r: map<Key, Row>, p: nat)
    ensures p in PostsOf(Elems(acted)) && Childless(r, p) <==> Emptied(Elems(acted), r, p)
  {
    TouchedIs(acted, p);
    if Emptied(Elems(acted), r, p) {
      forall k | k in r ensures k.post != p {
        assert k == Key(k.post, k.channel);
      }
    }
    if Childless(r, p) {
      forall c: nat ensures Key(p, c) !in r {
        assert Key(p, c).post == p;
      }
    }
  }

  lemma CarriesPosts(s: State, action: Action, acted: seq<Key>, now: Instant)
    requires forall i | 0 <= i < |acted| :: acted[i] in s.rows
    ensures PostsCarried(s, Elems(acted), After(s, action, acted, now))
  {
    var t := After(s, action, acted, now);
    SettledRows(s, action, acted, now);
    hide RowsAfter, EntriesAfter, Touched, Emptied, Childless, PostsOf, Recached, Aggregate;
    forall p
      ensures p in t.posts <==> p in s.posts && !Emptied(Elems(acted), t.rows, p)
      ensures p in s.posts && p in t.posts ==>
                if Touched(Elems(acted), p) then Recached(s.posts[p], t.posts[p], t.rows, p) else t.posts[p] == s.posts[p]
    {
      TouchedIs(acted, p);
      EmptiedIs(acted, t.rows, p);
      if p in s.posts {
        ResyncedIs(s.posts[p], t.rows, p);
      }
    }
  }

  lemma CarriesEntries(s: State, action: Action, acted: seq<Key>, now: Instant)
    requires forall i | 0 <= i < |acted| :: acted[i] in s.rows
    ensures EntriesCarried(s, action, Elems(acted), After(s, action, acted, now))
  {
    var t := After(s, action, acted, now);
    SettledRows(s, action, acted, now);
    hide RowsAfter, Touched, Emptied, Childless, PostsOf, Aggregate;
    forall e
      ensures e in t.entries <==>
              e in s.entries && !(action != PublishNow && Key(e.post, e.queue.channel) in Elems(acted))
              && !(e.post in s.posts && Emptied(Elems(acted), t.rows, e.post))
    {
      EmptiedIs(acted, t.rows, e.post);
    }
  }

  lemma OfChannelMore(who: set<Key>, k: Key, channel: nat)
    ensures OfChannel(who + {k}, channel)
         == if k.channel == channel then OfChannel(who, channel) + {k} else OfChannel(who, channel)
    ensures k !in who ==> k !in OfChannel(who, channel)
  {
  }

  lemma LastApart(keys: seq<Key>)
    requires keys != [] && NoRepeats(keys)
    ensures var n := |keys| - 1;
            NoRepeats(keys[..n]) && keys[n] !in Elems(keys[..n]) && Elems(keys) == Elems(keys[..n]) + {keys[n]}
  {
    assert keys == keys[..|keys| - 1] + [keys[|keys| - 1]];
  }

  lemma {:induction false} OnChannelCount(keys: seq<Key>, channel: nat)
    requires NoRepeats(keys)
    ensures |OnChannel(keys, channel)| == |OfChannel(Elems(keys), channel)|
  {
    if keys == [] {
      assert OfChannel(Elems(keys), channel) == {};
    } else {
      hide NoRepeats, OfChannel, Elems;
      var n := |keys| - 1;
      LastApart(keys);
      OnChannelCount(keys[..n], channel);
      OfChannelMore(Elems(keys[..n]), keys[n], channel);
    }
  }

  /** The acted-on row at place `j` of its channel is `j` minutes on. */
  lemma PublishedRow(s: State, acted: seq<Key>, now: Instant, k: Key) returns (j: nat)
    requires NoRepeats(acted) && (forall i | 0 <= i < |acted| :: acted[i] in s.rows) && k in acted
    ensures j < |OnChannel(acted, k.channel)| && OnChannel(acted, k.channel)[j] == k
    ensures k in s.rows && k in After(s, PublishNow, acted, now).rows
    ensures After(s, PublishNow, acted, now).rows[k] ==
            Row(Scheduled, Some(now + 60_000_000 * j), s.rows[k].publishedAt,
                if s.rows[k].status == Failed then Failure("", 0, None) else s.rows[k].failure)
  {
    j := OnChannelHas(acted, k);
    hide After, OnChannel, NoRepeats, ScheduledAt;
    var i := OnChannelAt(acted, k.channel, j);
    PublishedAt(s, acted, now, i);
    ScheduledIs(s.rows, After(s, PublishNow, acted, now).rows, acted, now, i, j);
  }

  lemma ScheduledIs(rows: map<Key, Row>, r: map<Key, Row>, acted: seq<Key>, now: Instant, i: nat, j: nat)
    requires i < |acted| && ScheduledAt(rows, r, acted, now, i) && |OnChannel(acted[..i], acted[i].channel)| == j
    ensures acted[i] in rows && acted[i] in r
    ensures r[acted[i]] ==
            Row(Scheduled, Some(now + 60_000_000 * j), rows[acted[i]].publishedAt,
                if rows[acted[i]].status == Failed then Failure("", 0, None) else rows[acted[i]].failure)
  {
    hide OnChannel;
  }

  lemma NoLaterIs(s: State, a: Key, b: Key)
    requires a in s.rows && b in s.rows && NoLater(DueAt(s, a), DueAt(s, b))
    ensures DueNoLater(s, a, b)
  {
    forall y: Instant | Due(s, b, y) ensures exists x: Instant :: x <= y && Due(s, a, x) {
      assert DueAt(s, b) == Some(y);
      assert Due(s, a, DueAt(s, a).value);
    }
  }

  lemma PublishedInTime(s: State, acted: seq<Key>, now: Instant, k: Key)
    requires NoRepeats(acted) && (forall i | 0 <= i < |acted| :: acted[i] in s.rows) && k in acted
    ensures AtSomeMinute(s, Elems(acted), now, After(s, PublishNow, acted, now).rows, k)
  {
    hide After, OnChannel, NoRepeats, OfChannel;
    var j := PublishedRow(s, acted, now, k);
    OnChannelCount(acted, k.channel);
  }

  /** Of two rows of a channel the one that fell due first is published first. */
  lemma PublishedApart(s: State, ids: set<Key>, workspace: nat, user: nat, editOthers: bool, pps: seq<Key>, now: Instant,
                       acted: seq<Key>, a: Key, b: Key)
    requires Selection(s, ids, workspace, user, editOthers, pps) && forall i | 0 <= i < |pps| :: pps[i] in s.rows
    requires acted == ActedOn(s.rows, PublishNow, pps) && NoRepeats(acted) && forall i | 0 <= i < |acted| :: acted[i] in s.rows
    requires a in acted && b in acted && a != b && a.channel == b.channel
    ensures InTurn(s, After(s, PublishNow, acted, now).rows, a, b)
  {
    hide After, ActedOn, OnChannel, NoRepeats, Selection, DueNoLater, DueAt, NoLater;
    var i := PublishedRow(s, acted, now, a);
    var j := PublishedRow(s, acted, now, b);
    assert i != j;
    if i < j {
      PublishFollowsDueOrder(s, ids, workspace, user, editOthers, pps, a.channel, i, j);
      NoLaterIs(s, a, b);
    }
  }

  lemma CarriesPublish(s: State, ids: set<Key>, workspace: nat, user: nat, editOthers: bool, pps: seq<Key>, now: Instant,
                       acted: seq<Key>)
    requires Selection(s, ids, workspace, user, editOthers, pps) && forall i | 0 <= i < |pps| :: pps[i] in s.rows
    requires acted == ActedOn(s.rows, PublishNow, pps) && NoRepeats(acted) && forall i | 0 <= i < |acted| :: acted[i] in s.rows
    ensures MinuteByMinute(s, Elems(acted), now, After(s, PublishNow, acted, now).rows)
  {
    var r := After(s, PublishNow, acted, now).rows;
    hide After, ActedOn, NoRepeats, Selection, InTurn, AtSomeMinute;
    forall k | k in Elems(acted) ensures AtSomeMinute(s, Elems(acted), now, r, k) {
      PublishedInTime(s, acted, now, k);
    }
    forall a, b | a in Elems(acted) && b in Elems(acted) && a != b && a.channel == b.channel ensures InTurn(s, r, a, b) {
      PublishedApart(s, ids, workspace, user, editOthers, pps, now, acted, a, b);
    }
  }

  lemma RowsAfterPublish(s: State, acted: seq<Key>, now: Instant)
    requires NoRepeats(acted) && forall i | 0 <= i < |acted| :: acted[i] in s.rows
    ensures var r := After(s, PublishNow, acted, now).rows;
            (forall k :: k in r <==> k in s.rows) && forall k | k in s.rows && k in r && k !in Elems(acted) :: r[k] == s.rows[k]
  {
    PublishStaggersAll(s, acted, now, 0);
    hide After, OnChannel;
    var r := After(s, PublishNow, acted, now).rows;
    forall k ensures k in r <==> k in s.rows {
      assert k in r <==> k in r.Keys;
    }
  }

  lemma RowsAfterOthers(s: State, action: Action, acted: seq<Key>, now: Instant)
    requires NoRepeats(acted) && (forall i | 0 <= i < |acted| :: acted[i] in s.rows) && (action == ToDraft || action == Delete)
    ensures RowsCarried(s, action, Elems(acted), now, After(s, action, acted, now).rows)
  {
    var r := After(s, action, acted, now).rows;
    hide After, NoRepeats, MinuteByMinute;
    forall k
      ensures k in r <==> k in s.rows && !(action == Delete && k in acted)
      ensures k in r && k in acted ==> r[k] == s.rows[k].(status := Draft, scheduledAt := None)
      ensures k in r && k !in acted ==> r[k] == s.rows[k]
    {
      DraftsAndDeletions(s, action, acted, now, k);
    }
  }

  lemma CarriesRows(s: State, ids: set<Key>, workspace: nat, user: nat, editOthers: bool, action: Action, pps: seq<Key>,
                    now: Instant)
    requires Selection(s, ids, workspace, user, editOthers, pps) && (forall i | 0 <= i < |pps| :: pps[i] in s.rows)
    requires action != Unknown
    ensures forall i | 0 <= i < |ActedOn(s.rows, action, pps)| :: ActedOn(s.rows, action, pps)[i] in s.rows
    ensures var acted := ActedOn(s.rows, action, pps);
            RowsCarried(s, action, Elems(acted), now, After(s, action, acted, now).rows)
  {
    var acted := ActedOn(s.rows, action, pps);
    ActedMembers(s.rows, action, pps);
    ActedIn(s.rows, action, pps);
    hide After, ActedOn, OnChannel, NoRepeats, Selection, MinuteByMinute;
    if action == PublishNow {
      CarriesPublish(s, ids, workspace, user, editOthers, pps, now, acted);
      RowsAfterPublish(s, acted, now);
    } else {
      RowsAfterOthers(s, action, acted, now);
    }
  }

  /** An action does what it is for, on the rows it is meant for. */
  lemma BulkRows(s: State, ids: set<Key>, workspace: nat, user: nat, editOthers: bool, action: Action, pps: seq<Key>,
                 now: Instant)
    requires Selection(s, ids, workspace, user, editOthers, pps) && (forall i | 0 <= i < |pps| :: pps[i] in s.rows)
    requires action != Unknown
    ensures Carried(s, action, MeantOnes(s, ids, workspace, user, editOthers, action), now, Bulked(s, action, pps, now))
    ensures |ActedOn(s.rows, action, pps)| == |MeantOnes(s, ids, workspace, user, editOthers, action)|
  {
    var acted := ActedOn(s.rows, action, pps);
    ActedIn(s.rows, action, pps);
    hide After, ActedOn, Selection, RowsCarried, PostsCarried, EntriesCarried;
    MeantIs(s, ids, workspace, user, editOthers, action, pps);
    CarriesRows(s, ids, workspace, user, editOthers, action, pps, now);
    CarriesPosts(s, action, acted, now);
    CarriesEntries(s, action, acted, now);
  }

  // ----- the action as a step of a run -----

  /** Rows that are history or not selected stay, and so do the posts of history. */
  lemma BulkSpares(s: State, action: Action, pps: seq<Key>, now: Instant, k: Key)
    requires NoRepeats(pps) && action != Unknown && forall i | 0 <= i < |pps| :: pps[i] in s.rows
    requires k in s.rows && (Protected(s.rows[k].status) || k !in pps)
    ensures var t := Bulked(s, action, pps, now);
            k in t.rows && t.rows[k] == s.rows[k] && (k.post in s.posts ==> k.post in t.posts)
  {
    var acted := ActedOn(s.rows, action, pps);
    ActedMembers(s.rows, action, pps);
    ActedIn(s.rows, action, pps);
    RowsAfterOther(s, action, acted, now, k);
    SettledRows(s, action, acted, now);
    hide After, ActedOn, RowsAfter, NoRepeats;
    if k.post in s.posts {
      DeletedIffChildless(s, action, acted, now, k.post);
    }
  }

  /** Drafting and deleting take times away and give none. */
  lemma BulkKeepsDistinct(s: State, action: Action, pps: seq<Key>, now: Instant, channel: nat)
    requires NoRepeats(pps) && (action == ToDraft || action == Delete) && forall i | 0 <= i < |pps| :: pps[i] in s.rows
    requires NoDoubleBooking(s.rows, channel)
    ensures NoDoubleBooking(Bulked(s, action, pps, now).rows, channel)
  {
    var acted := ActedOn(s.rows, action, pps);
    var t := Bulked(s, action, pps, now);
    ActedMembers(s.rows, action, pps);
    ActedIn(s.rows, action, pps);
    forall k | k in t.rows && Live(t.rows[k]) ensures k in s.rows && t.rows[k] == s.rows[k] {
      DraftsAndDeletions(s, action, acted, now, k);
    }
    hide Bulked, ActedOn, NoRepeats;
  }

  /** Some live row that is not acted on holds one of the minutes handed out on the channel. */
  ghost predicate Blocked(rows: map<Key, Row>, acted: seq<Key>, now: Instant, channel: nat) {
    exists x: Key, j: nat :: InTheWay(rows, acted, now, channel, x, j)
  }

  lemma BulkKeepsDistinctIff(s: State, action: Action, pps: seq<Key>, now: Instant, channel: nat)
    requires NoRepeats(pps) && action != Unknown && forall i | 0 <= i < |pps| :: pps[i] in s.rows
    requires NoDoubleBooking(s.rows, channel)
    ensures NoDoubleBooking(Bulked(s, action, pps, now).rows, channel) <==>
            !(action == PublishNow && Blocked(s.rows, ActedOn(s.rows, action, pps), now, channel))
  {
    if action == PublishNow {
      var acted := ActedOn(s.rows, action, pps);
      ActedMembers(s.rows, action, pps);
      ActedIn(s.rows, action, pps);
      assert Bulked(s, action, pps, now) == After(s, PublishNow, acted, now);
      hide Bulked, After, ActedOn, NoRepeats, NoDoubleBooking, InTheWay;
      PublishKeepsDistinctIff(s, acted, now, channel);
    } else {
      hide *;
      BulkKeepsDistinct(s, action, pps, now, channel);
    }
  }

  /** An entry of a row that is not acted on is as it was, or gone with its post. */
  lemma OtherEntries(s: State, action: Action, acted: seq<Key>, now: Instant, e: EntryId)
    requires (forall i | 0 <= i < |acted| :: acted[i] in s.rows) && Key(e.post, e.queue.channel) !in acted
    requires e in After(s, action, acted, now).entries
    ensures e in s.entries && After(s, action, acted, now).entries[e] == s.entries[e]
  {
  }

  lemma EntriesShrink(s: State, action: Action, acted: seq<Key>, now: Instant)
    requires forall i | 0 <= i < |acted| :: acted[i] in s.rows
    ensures forall e | e in After(s, action, acted, now).entries :: e in s.entries
  {
  }

  lemma OtherMirrors(s: State, action: Action, acted: seq<Key>, now: Instant, e: EntryId)
    requires NoRepeats(acted) && action != Unknown && forall i | 0 <= i < |acted| :: acted[i] in s.rows
    requires Key(e.post, e.queue.channel) !in acted && e in After(s, action, acted, now).entries && AllMirror(s)
    ensures Mirrors(After(s, action, acted, now), e)
  {
    var k := Key(e.post, e.queue.channel);
    OtherEntries(s, action, acted, now, e);
    assert Mirrors(s, e);
    SettledRows(s, action, acted, now);
    if k in s.rows {
      RowsAfterOther(s, action, acted, now, k);
    } else {
      NoNewRows(s, action, acted, now, k);
    }
    hide After, RowsAfter;
  }

  lemma NoNewRows(s: State, action: Action, acted: seq<Key>, now: Instant, k: Key)
    requires (forall i | 0 <= i < |acted| :: acted[i] in s.rows) && action != Unknown && k !in s.rows
    ensures k !in RowsAfter(s.rows, action, acted, now)
  {
    if action != Delete {
      NewRowsKeys(s.rows, action, acted, now);
      assert k !in acted;
    }
  }

  /** Entries that mirrored their rows still do. */
  lemma BulkKeepsMirrors(s: State, action: Action, pps: seq<Key>, now: Instant)
    requires NoRepeats(pps) && action != Unknown && forall i | 0 <= i < |pps| :: pps[i] in s.rows
    requires AllMirror(s)
    ensures AllMirror(Bulked(s, action, pps, now))
    ensures forall e | e in Bulked(s, action, pps, now).entries :: e in s.entries
  {
    var acted := ActedOn(s.rows, action, pps);
    ActedMembers(s.rows, action, pps);
    ActedIn(s.rows, action, pps);
    var t := After(s, action, acted, now);
    EntriesShrink(s, action, acted, now);
    hide After, ActedOn, NoRepeats, AllMirror;
    forall e | e in t.entries ensures Mirrors(t, e) {
      if Key(e.post, e.queue.channel) in acted {
        MirrorsFollow(s, action, acted, now, e);
      } else {
        OtherMirrors(s, action, acted, now, e);
      }
    }
    AllMirrorIs(t);
  }

  lemma AllMirrorIs(t: State)
    requires forall e | e in t.entries :: Mirrors(t, e)
    ensures AllMirror(t)
  {
  }
}
