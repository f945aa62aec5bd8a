/** Dragging a post to another time on the calendar, which the queue operations
    must live with (apps/calendar/services.py, reschedule_platform_post). */
module CalendarDrag {
  import opened Common
  import opened QueueModel
  import opened LadderLaws
  import opened QueueEffects
  import opened QueueService
  import opened RowLaws

  /** The statuses in which a post may be dragged. */
  predicate Reschedulable(st: Status) {
    st in {Draft, Approved, Scheduled, Failed, PendingReview, PendingClient}
  }

  /** The statuses in which a drag also schedules the post. */
  predicate SchedulesImplicitly(st: Status) {
    st == Draft || st == Failed
  }

  /** The row at its new time. */
  function DraggedRow(r: Row, t: Instant): Row {
    Scheduling(r, if SchedulesImplicitly(r.status) && CanTransition(r.status, Scheduled) then Scheduled else r.status, t)
  }

  /** The row, all its entries on the channel and the aggregate at the new time. */
  ghost function Dragged(s: State, k: Key, t: Instant): State
    requires k in s.rows
  {
    var rows := s.rows[k := DraggedRow(s.rows[k], t)];
    State(Synced(s.posts, rows, k.post), rows,
          map e | e in s.entries :: if Key(e.post, e.queue.channel) == k then s.entries[e].(slot := Some(t)) else s.entries[e])
  }

  /** The row at its new time, a draft or a failed one scheduled and the failure
      forgotten; the post's entries on the channel at that time; its cached time
      recomputed; and nothing else changed. */
  ghost predicate MovedTo(s: State, k: Key, t: Instant, u: State)
    requires k in s.rows
  {
    var r := s.rows[k];
    (forall x :: x in u.rows <==> x in s.rows)
    && u.rows[k] == Row(if r.status == Draft || r.status == Failed then Scheduled else r.status, Some(t), r.publishedAt,
                        if r.status == Failed then Failure("", 0, None) else r.failure)
    && (forall x | x in s.rows && x != k :: u.rows[x] == s.rows[x])
    && (forall e :: e in u.entries <==> e in s.entries)
    && (forall e | e in s.entries ::
          u.entries[e] ==
          if e.post == k.post && e.queue.channel == k.channel then s.entries[e].(slot := Some(t)) else s.entries[e])
    && PostsRecached(s.posts, u.posts, u.rows, {k.post})
  }

  lemma DragRows(s: State, k: Key, t: Instant)
    requires k in s.rows
    ensures MovedTo(s, k, t, Dragged(s, k, t))
  {
    SyncedIs(s.posts, Dragged(s, k, t).rows, k.post);
    hide Synced, PostsRecached;
  }

  /** The answer for every row and user; only a permitted drag changes anything. */
  method ReschedulePlatformPost(db: Store, k: Key, t: Instant, user: nat, editOthers: bool, publishDirectly: bool)
    returns (r: Reply)
    requires k in db.rows && k.post in db.posts
    modifies db
    ensures r.BadInput? <==> !Reschedulable(old(db.rows)[k].status)
    ensures r.Acted? <==> Reschedulable(old(db.rows)[k].status)
                          && (old(db.posts)[k.post].author == user || editOthers)
                          && (SchedulesImplicitly(old(db.rows)[k].status) ==> publishDirectly)
    ensures r.Acted? ==> r.count == 1
    ensures db.Now() == if r.Acted? then Dragged(old(db.Now()), k, t) else old(db.Now())
    ensures r.BadInput? <==> old(db.rows)[k].status in {Publishing, Published, ChangesRequested, Rejected, OnHold}
    ensures r.Denied? <==> !r.BadInput? && ((old(db.posts)[k.post].author != user && !editOthers)
                                            || (old(db.rows)[k].status in {Draft, Failed} && !publishDirectly))
    ensures r.Acted? ==> MovedTo(old(db.Now()), k, t, db.Now())
  {
    DragRows(db.Now(), k, t);
    hide MovedTo;
    var row := db.rows[k];
    if !Reschedulable(row.status) {
      return BadInput;
    }
    if !(db.posts[k.post].author == user || editOthers) {
      return Denied;
    }
    if SchedulesImplicitly(row.status) && !publishDirectly {
      return Denied;
    }
    row := row.(scheduledAt := Some(t));
    if row.status == Failed {
      row := row.(failure := NO_FAILURE);
    }
    if SchedulesImplicitly(row.status) && CanTransition(row.status, Scheduled) {
      row := row.(status := Scheduled);
    }
    db.rows := db.rows[k := row];
    db.entries := map e | e in db.entries ::
      if Key(e.post, e.queue.channel) == k then db.entries[e].(slot := Some(t)) else db.entries[e];
    db.SyncPost(k.post);
    return Acted(1);
  }

  /** A drag keeps the channel free of double booking exactly when no other live row holds the new time. */
  lemma DragKeepsDistinctIff(s: State, k: Key, t: Instant)
    requires k in s.rows && Reschedulable(s.rows[k].status) && NoDoubleBooking(s.rows, k.channel)
    ensures NoDoubleBooking(Dragged(s, k, t).rows, k.channel) <==>
            !exists x :: x in s.rows && x != k && x.channel == k.channel && Live(s.rows[x]) && s.rows[x].scheduledAt == Some(t)
  {
    var r := Dragged(s, k, t).rows;
    if x :| x in s.rows && x != k && x.channel == k.channel && Live(s.rows[x]) && s.rows[x].scheduledAt == Some(t) {
      assert Live(r[x]) && Live(r[k]) && r[x].scheduledAt == r[k].scheduledAt;
    }
  }

  lemma DragElsewhere(s: State, k: Key, t: Instant, channel: nat)
    requires k in s.rows && channel != k.channel
    ensures NoDoubleBooking(Dragged(s, k, t).rows, channel) <==> NoDoubleBooking(s.rows, channel)
  {
    var r := Dragged(s, k, t).rows;
    assert forall a | a in s.rows && a.channel == channel :: r[a] == s.rows[a];
    hide Dragged, DraggedRow;
  }

  /** Entries that mirrored their rows still do, in every queue of the channel. */
  lemma DragKeepsMirrors(s: State, k: Key, t: Instant)
    requires k in s.rows && AllMirror(s)
    ensures AllMirror(Dragged(s, k, t))
  {
    var u := Dragged(s, k, t);
    forall e | e in u.entries ensures Mirrors(u, e) {
      assert Mirrors(s, e);
    }
  }

  lemma DragKeepsAggregates(s: State, k: Key, t: Instant)
    requires k in s.rows && AggregatesRight(s)
    ensures AggregatesRight(Dragged(s, k, t))
  {
    var u := Dragged(s, k, t);
    forall p | p in u.posts ensures AggregateRight(u, p) {
      if p != k.post {
        assert AggregateRight(s, p);
        AggregateFrame(s.rows, u.rows, p);
      }
    }
  }

  lemma DragWritesTimes(s: State, k: Key, t: Instant)
    requires k in s.rows
    ensures WritesTimes(s, Dragged(s, k, t), {k})
    ensures Dragged(s, k, t).posts.Keys == s.posts.Keys && k in Dragged(s, k, t).rows
    ensures Dragged(s, k, t).rows[k].scheduledAt == Some(t)
  {
    assert k in {k};
  }

  /** A drag makes another row fall due earlier exactly when the row is a sibling,
      scheduled without a time of its own, and the new time is earlier than the
      post's aggregate, or the post had none. */
  lemma DragHastensIff(s: State, k: Key, t: Instant, x: Key)
    requires AggregatesRight(s) && k in s.rows && x in s.rows && x != k
    ensures Hastened(s, Dragged(s, k, t), x) <==> x.post == k.post && Exposed(s, x, t)
  {
    DragWritesTimes(s, k, t);
    WritesHastenIff(s, Dragged(s, k, t), {k}, x);
    hide Dragged, WritesTimes, Hastened, AggregatesRight, Exposed;
  }
}
