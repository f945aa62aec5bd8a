/** Reminders and escalations for stalled approvals (apps/approvals/tasks.py), and
    the resets that submitting, approving and resubmitting perform
    (apps/approvals/services.py). */
module Reminders {
  import opened Common

  datatype Stage = PendingReview | PendingClient

  const MAX_REMINDERS: nat := 2

  /** How long a stage may stall, and the least time between two reminders. */
  function Threshold(stage: Stage): nat {
    match stage
    case PendingReview => 24 * HOUR
    case PendingClient => 48 * HOUR
  }

  /** The stages some child of a post waits in, and when the post was last updated. */
  datatype Waiting = Waiting(stages: set<Stage>, updatedAt: nat)

  /** The posts with a child waiting in the stage, not updated for the threshold. */
  function Stalled(posts: map<nat, Waiting>, stage: Stage, now: nat): set<nat> {
    set p | p in posts && stage in posts[p].stages && posts[p].updatedAt + Threshold(stage) <= now
  }

  datatype Reminder = Reminder(count: nat, last: Option<nat>, escalated: bool)

  const FRESH := Reminder(0, None, false)

  datatype Sent = Reminded | Escalated

  /** One look at a stalled post: what becomes of its reminder row, and what is sent. */
  function Looked(r: Reminder, stage: Stage, now: nat): (Reminder, Option<Sent>) {
    if r.count >= MAX_REMINDERS then
      if r.escalated then (r, None) else (r.(escalated := true), Some(Escalated))
    else if r.last.Some? && now < r.last.value + Threshold(stage) then (r, None)
    else (r.(count := r.count + 1, last := Some(now)), Some(Reminded))
  }

  /** The row of a post and a stage. */
  datatype Key = Key(post: nat, stage: Stage)

  datatype Notice = Notice(key: Key, sent: Sent, at: nat)

  /** The notices about one row, in order. */
  function NoticesFor(s: seq<Notice>, key: Key): seq<Notice> {
    if s == [] then []
    else
      var n := |s| - 1;
      NoticesFor(s[..n], key) + (if s[n].key == key then [s[n]] else [])
  }

  /** The row, created with a zero count when absent. */
  function RowIn(rows: map<Key, Reminder>, key: Key): Reminder {
    if key in rows then rows[key] else FRESH
  }

  predicate Concerns(key: Key, stage: Stage, stalled: set<nat>) {
    key.stage == stage && key.post in stalled
  }

  /** The reminder rows and everything sent so far. */
  datatype Table = Table(rows: map<Key, Reminder>, outbox: seq<Notice>)

  /** What a pass leaves in the table: the rows it looked at as one look leaves them,
      every other row as it was. */
  ghost predicate RowsLooked(before: map<Key, Reminder>, after: map<Key, Reminder>, stage: Stage, now: nat, stalled: set<nat>) {
    forall key: Key ::
      if Concerns(key, stage, stalled) then key in after && after[key] == Looked(RowIn(before, key), stage, now).0
      else (key in after <==> key in before) && (key in after ==> after[key] == before[key])
  }

  /** What a pass sends: for a row it looked at, what that one look calls for; for any
      other row, nothing. */
  ghost predicate NoticesCalledFor(before: map<Key, Reminder>, sent: seq<Notice>, stage: Stage, now: nat, stalled: set<nat>) {
    forall key: Key :: NoticesFor(sent, key) ==
      if Concerns(key, stage, stalled) && Looked(RowIn(before, key), stage, now).1.Some?
      then [Notice(key, Looked(RowIn(before, key), stage, now).1.value, now)] else []
  }

  lemma NothingYet(rows: map<Key, Reminder>, stage: Stage, now: nat)
    ensures RowsLooked(rows, rows, stage, now, {}) && NoticesCalledFor(rows, [], stage, now, {})
  {
  }

  lemma RowsLookedMore(before: map<Key, Reminder>, after: map<Key, Reminder>, stage: Stage, now: nat, done: set<nat>, post: nat)
    requires RowsLooked(before, after, stage, now, done) && post !in done
    ensures var key := Key(post, stage);
            RowIn(after, key) == RowIn(before, key)
            && RowsLooked(before, after[key := Looked(RowIn(after, key), stage, now).0], stage, now, done + {post})
  {
    hide Looked;
    assert !Concerns(Key(post, stage), stage, done);
    forall key: Key ensures Concerns(key, stage, done + {post}) <==> Concerns(key, stage, done) || key == Key(post, stage) {
    }
    hide Concerns;
  }

  lemma NoticesMore(before: map<Key, Reminder>, sent: seq<Notice>, stage: Stage, now: nat, done: set<nat>, post: nat,
                    notice: Option<Notice>)
    requires NoticesCalledFor(before, sent, stage, now, done) && post !in done
    requires var key := Key(post, stage);
             var kind := Looked(RowIn(before, key), stage, now).1;
             notice == if kind.Some? then Some(Notice(key, kind.value, now)) else None
    ensures NoticesCalledFor(before, sent + (if notice.Some? then [notice.value] else []), stage, now, done + {post})
  {
    hide Looked, RowIn, NoticesFor;
    var added := Key(post, stage);
    var more := sent + (if notice.Some? then [notice.value] else []);
    forall key: Key
      ensures Concerns(key, stage, done + {post}) <==> Concerns(key, stage, done) || key == added
    {
    }
    assert !Concerns(added, stage, done);
    hide Concerns;
    if notice.Some? {
      forall key: Key
        ensures NoticesFor(more, key) == NoticesFor(sent, key) + (if key == added then [notice.value] else [])
      {
        OneNoticeMore(sent, notice.value, key);
      }
    } else {
      assert more == sent;
    }
  }

  lemma OneNoticeMore(sent: seq<Notice>, x: Notice, key: Key)
    ensures NoticesFor(sent + [x], key) == NoticesFor(sent, key) + (if x.key == key then [x] else [])
  {
    assert (sent + [x])[..|sent|] == sent;
  }

  // ----- the hourly job and the resets -----

  /** What can happen to the table: a pass over the posts stalled in a stage, or a reset of a row. */
  datatype Move = Pass(stage: Stage, now: nat, stalled: set<nat>) | ResetRow(key: Key)

  ghost predicate Moved(t: Table, m: Move, u: Table) {
    match m
    case Pass(stage, now, stalled) =>
      RowsLooked(t.rows, u.rows, stage, now, stalled)
      && t.outbox <= u.outbox && NoticesCalledFor(t.rows, u.outbox[|t.outbox|..], stage, now, stalled)
    case ResetRow(key) => u == Table(t.rows[key := FRESH], t.outbox)
  }

  /** How long a post waits in a stage before its approver is reminded: a day for the
      team, two for the client. */
  function Patience(stage: Stage): nat {
    if stage == PendingReview then 86_400_000_000 else 172_800_000_000
  }

  /** What a pass is to one row. It concerns the row if the post waits in the stage and
      has not been touched for that long. After two reminders it escalates, once; until
      then it reminds, unless the last reminder is not that long ago. */
  lemma PassOnOneRow(t: Table, posts: map<nat, Waiting>, stage: Stage, now: nat, u: Table, key: Key)
    requires Moved(t, Pass(stage, now, Stalled(posts, stage, now)), u)
    ensures var sent := NoticesFor(u.outbox[|t.outbox|..], key);
            if !(key.stage == stage && key.post in posts && stage in posts[key.post].stages
                 && now - posts[key.post].updatedAt >= Patience(stage))
            then sent == [] && (key in u.rows <==> key in t.rows) && (key in u.rows ==> u.rows[key] == t.rows[key])
            else
              var r := if key in t.rows then t.rows[key] else Reminder(0, None, false);
              key in u.rows
              && (r.count >= 2 && r.escalated ==> sent == [] && u.rows[key] == r)
              && (r.count >= 2 && !r.escalated ==> sent == [Notice(key, Escalated, now)] && u.rows[key] == r.(escalated := true))
              && (r.count < 2 && r.last.Some? && now - r.last.value < Patience(stage) ==> sent == [] && u.rows[key] == r)
              && (r.count < 2 && !(r.last.Some? && now - r.last.value < Patience(stage)) ==>
                    sent == [Notice(key, Reminded, now)] && u.rows[key] == Reminder(r.count + 1, Some(now), r.escalated))
  {
    var stalled := Stalled(posts, stage, now);
    assert Concerns(key, stage, stalled) <==>
           key.stage == stage && key.post in posts && stage in posts[key.post].stages
           && now - posts[key.post].updatedAt >= Patience(stage) by {
      assert key == Key(key.post, key.stage);
    }
    hide NoticesFor, Concerns, Stalled;
    OneLook(RowIn(t.rows, key), stage, now);
    hide Looked;
  }

  /** One look at a row. */
  lemma OneLook(r: Reminder, stage: Stage, now: nat)
    ensures var (after, kind) := Looked(r, stage, now);
            && (r.count >= 2 && r.escalated ==> kind == None && after == r)
            && (r.count >= 2 && !r.escalated ==> kind == Some(Escalated) && after == r.(escalated := true))
            && (r.count < 2 && r.last.Some? && now - r.last.value < Patience(stage) ==> kind == None && after == r)
            && (r.count < 2 && !(r.last.Some? && now - r.last.value < Patience(stage)) ==>
                  kind == Some(Reminded) && after == Reminder(r.count + 1, Some(now), r.escalated))
  {
  }

  class Reminding {
    var posts: map<nat, Waiting>
    var reminders: map<Key, Reminder>
    var outbox: seq<Notice>

    function Now(): Table
      reads this
    {
      Table(reminders, outbox)
    }

    /** One pass over the posts stalled in a stage, in whatever order. Each of them is
        looked at once; the rows of other posts and of the other stage stay as they
        are; and what is sent for a post is what its own row calls for. */
    method ProcessStage(stage: Stage, now: nat)
      modifies this`reminders, this`outbox
      ensures Moved(old(Now()), Pass(stage, now, Stalled(posts, stage, now)), Now())
    {
      hide Looked, RowIn, RowsLooked, NoticesCalledFor, NoticesFor, Concerns;
      NothingYet(reminders, stage, now);
      var stalled := Stalled(posts, stage, now);
      hide Stalled;
      var pending := stalled;
      ghost var sent: seq<Notice> := [];
      assert stalled - pending == {};
      while pending != {}
        invariant pending <= stalled
        invariant RowsLooked(old(reminders), reminders, stage, now, stalled - pending)
        invariant outbox == old(outbox) + sent
        invariant NoticesCalledFor(old(reminders), sent, stage, now, stalled - pending)
        decreases |pending|
      {
        var post :| post in pending;
        assert stalled - (pending - {post}) == (stalled - pending) + {post};
        RowsLookedMore(old(reminders), reminders, stage, now, stalled - pending, post);
        var notice := Look(Key(post, stage), now);
        NoticesMore(old(reminders), sent, stage, now, stalled - pending, post, notice);
        sent := sent + (if notice.Some? then [notice.value] else []);
        pending := pending - {post};
      }
      assert stalled - {} == stalled;
      assert outbox[|old(outbox)|..] == sent;
    }

    /** One stalled post. */
    method Look(key: Key, now: nat) returns (notice: Option<Notice>)
      modifies this`reminders, this`outbox
      ensures reminders == old(reminders)[key := Looked(RowIn(old(reminders), key), key.stage, now).0]
      ensures var sent := Looked(RowIn(old(reminders), key), key.stage, now).1;
              notice == (if sent.Some? then Some(Notice(key, sent.value, now)) else None)
              && outbox == old(outbox) + (if notice.Some? then [notice.value] else [])
    {
      if key !in reminders {
        reminders := reminders[key := FRESH];
      }
      var r := reminders[key];
      notice := None;
      if r.count >= MAX_REMINDERS {
        if !r.escalated {
          notice := Some(Notice(key, Escalated, now));
          outbox := outbox + [Notice(key, Escalated, now)];
          reminders := reminders[key := r.(escalated := true)];
        }
        return;
      }
      if r.last.Some? {
        if now < r.last.value + Threshold(key.stage) {
          return;
        }
      }
      notice := Some(Notice(key, Reminded, now));
      outbox := outbox + [Notice(key, Reminded, now)];
      reminders := reminders[key := r.(count := r.count + 1, last := Some(now))];
    }

    /** The hourly job: one pass for each stage. */
    method CheckApprovalReminders(now: nat) returns (ghost between: Table)
      modifies this`reminders, this`outbox
      ensures Moved(old(Now()), Pass(PendingReview, now, Stalled(posts, PendingReview, now)), between)
      ensures Moved(between, Pass(PendingClient, now, Stalled(posts, PendingClient, now)), Now())
    {
      hide Moved;
      ProcessStage(PendingReview, now);
      between := Now();
      ProcessStage(PendingClient, now);
    }

    /** Submitting, resubmitting (review) or advancing to the client starts over. */
    method Reset(key: Key)
      modifies this`reminders
      ensures Moved(old(Now()), ResetRow(key), Now())
      ensures reminders == old(reminders)[key := Reminder(0, None, false)]
    {
      reminders := reminders[key := FRESH];
    }
  }

  // ----- what one row sees -----

  /** What happens to one row, in order: looks, at any times, and resets. */
  datatype Act = LookAt(now: nat) | ResetNow

  function RowAfter(r: Reminder, stage: Stage, acts: seq<Act>): Reminder {
    if acts == [] then r
    else
      var n := |acts| - 1;
      var before := RowAfter(r, stage, acts[..n]);
      match acts[n]
      case LookAt(now) => Looked(before, stage, now).0
      case ResetNow => FRESH
  }

  /** What is sent about the row over the acts. */
  function SentOver(r: Reminder, key: Key, acts: seq<Act>): seq<Notice> {
    if acts == [] then []
    else
      var n := |acts| - 1;
      var before := SentOver(r, key, acts[..n]);
      match acts[n]
      case LookAt(now) =>
        var sent := Looked(RowAfter(r, key.stage, acts[..n]), key.stage, now).1;
        if sent.Some? then before + [Notice(key, sent.value, now)] else before
      case ResetNow => before
  }

  predicate NoReset(acts: seq<Act>) {
    forall i | 0 <= i < |acts| :: acts[i].LookAt?
  }

  /** At most two reminders, at least the threshold apart, then at most one escalation. */
  ghost predicate Measured(sent: seq<Notice>, stage: Stage) {
    |sent| <= MAX_REMINDERS + 1
    && (forall i | 0 <= i < |sent| :: sent[i].sent == if i < MAX_REMINDERS then Reminded else Escalated)
    && (|sent| >= 2 ==> sent[1].at >= sent[0].at + Threshold(stage))
  }

  /** What a row knows of what has been sent since it was fresh. */
  ghost predicate Remembers(r: Reminder, sent: seq<Notice>) {
    r.count == (if |sent| < MAX_REMINDERS then |sent| else MAX_REMINDERS)
    && r.last == (if r.count == 0 || r.count > |sent| then None else Some(sent[r.count - 1].at))
    && (r.escalated <==> |sent| == MAX_REMINDERS + 1)
  }

  lemma {:induction false} FreshIsMeasured(key: Key, acts: seq<Act>)
    requires NoReset(acts)
    ensures Measured(SentOver(FRESH, key, acts), key.stage)
    ensures Remembers(RowAfter(FRESH, key.stage, acts), SentOver(FRESH, key, acts))
  {
    if acts != [] {
      FreshIsMeasured(key, acts[..|acts| - 1]);
    }
  }

  lemma SentMore(key: Key, acts: seq<Act>, now: nat)
    ensures var look := Looked(RowAfter(FRESH, key.stage, acts), key.stage, now).1;
            SentOver(FRESH, key, acts + [LookAt(now)])
            == SentOver(FRESH, key, acts) + if look.Some? then [Notice(key, look.value, now)] else []
  {
    assert (acts + [LookAt(now)])[..|acts|] == acts;
    hide Looked;
  }

  /** Exactly when a look sends something, and what: a reminder if none was sent since
      the row was fresh, or one was and it is long enough ago; an escalation after the
      second; and nothing after that. */
  lemma LookSends(key: Key, acts: seq<Act>, now: nat)
    requires NoReset(acts)
    ensures var sent := SentOver(FRESH, key, acts);
            SentOver(FRESH, key, acts + [LookAt(now)]) ==
            if |sent| == 0 || (|sent| == 1 && now - sent[0].at >= Patience(key.stage)) then sent + [Notice(key, Reminded, now)]
            else if |sent| == 2 then sent + [Notice(key, Escalated, now)]
            else sent
  {
    FreshIsMeasured(key, acts);
    SentMore(key, acts, now);
    hide SentOver, RowAfter;
  }

  // ----- whole runs over the table -----

  /** A run: each move leads from one table to the next. */
  ghost predicate IsRun(tables: seq<Table>, moves: seq<Move>) {
    |tables| == |moves| + 1 && forall i | 0 <= i < |moves| :: Moved(tables[i], moves[i], tables[i + 1])
  }

  /** What the moves are to one row. */
  function Seen(moves: seq<Move>, key: Key): seq<Act> {
    if moves == [] then []
    else
      var n := |moves| - 1;
      Seen(moves[..n], key) +
      match moves[n]
      case Pass(stage, now, stalled) => if Concerns(key, stage, stalled) then [LookAt(now)] else []
      case ResetRow(k) => if k == key then [ResetNow] else []
  }

  lemma {:induction false} NoticesConcat(a: seq<Notice>, b: seq<Notice>, key: Key)
    ensures NoticesFor(a + b, key) == NoticesFor(a, key) + NoticesFor(b, key)
  {
    if b == [] {
      assert a + b == a;
    } else {
      var n := |b| - 1;
      NoticesConcat(a, b[..n], key);
      assert (a + b)[..|a + b| - 1] == a + b[..n];
    }
  }

  lemma OneActMore(r: Reminder, key: Key, acts: seq<Act>, a: Act)
    ensures a.LookAt? ==>
              var look := Looked(RowAfter(r, key.stage, acts), key.stage, a.now);
              RowAfter(r, key.stage, acts + [a]) == look.0
              && SentOver(r, key, acts + [a])
                 == SentOver(r, key, acts) + (if look.1.Some? then [Notice(key, look.1.value, a.now)] else [])
    ensures a.ResetNow? ==> RowAfter(r, key.stage, acts + [a]) == FRESH && SentOver(r, key, acts + [a]) == SentOver(r, key, acts)
  {
    assert (acts + [a])[..|acts|] == acts;
    hide Looked;
  }

  lemma SeenOne(m: Move, key: Key)
    ensures m.Pass? ==> Seen([m], key) == if Concerns(key, m.stage, m.stalled) then [LookAt(m.now)] else []
    ensures m.ResetRow? ==> Seen([m], key) == if m.key == key then [ResetNow] else []
  {
    assert [m][..0] == [] && Seen([], key) == [];
  }

  /** What a move does to one row and sends about it. */
  lemma MoveOnRow(t: Table, m: Move, u: Table, key: Key)
    requires Moved(t, m, u)
    ensures t.outbox <= u.outbox
    ensures m.Pass? && Concerns(key, m.stage, m.stalled) ==>
              var look := Looked(RowIn(t.rows, key), m.stage, m.now);
              RowIn(u.rows, key) == look.0 && m.stage == key.stage
              && NoticesFor(u.outbox, key)
                 == NoticesFor(t.outbox, key) + (if look.1.Some? then [Notice(key, look.1.value, m.now)] else [])
    ensures m == ResetRow(key) ==> RowIn(u.rows, key) == FRESH && NoticesFor(u.outbox, key) == NoticesFor(t.outbox, key)
    ensures !(m.Pass? && Concerns(key, m.stage, m.stalled)) && m != ResetRow(key) ==>
              RowIn(u.rows, key) == RowIn(t.rows, key) && NoticesFor(u.outbox, key) == NoticesFor(t.outbox, key)
  {
    if m.Pass? {
      NoticesConcat(t.outbox, u.outbox[|t.outbox|..], key);
      assert u.outbox == t.outbox + u.outbox[|t.outbox|..];
    }
    hide NoticesFor, Looked;
  }

  /** One move, as one row sees it. */
  lemma MoveProjects(t: Table, m: Move, u: Table, key: Key, r: Reminder, acts: seq<Act>, sent: seq<Notice>)
    requires Moved(t, m, u)
    requires RowIn(t.rows, key) == RowAfter(r, key.stage, acts)
    requires NoticesFor(t.outbox, key) == sent + SentOver(r, key, acts)
    ensures var more := acts + Seen([m], key);
            RowIn(u.rows, key) == RowAfter(r, key.stage, more)
            && NoticesFor(u.outbox, key) == sent + SentOver(r, key, more)
            && t.outbox <= u.outbox
  {
    hide *;
    MoveOnRow(t, m, u, key);
    SeenOne(m, key);
    if m.Pass? {
      OneActMore(r, key, acts, LookAt(m.now));
    }
    OneActMore(r, key, acts, ResetNow);
    assert acts + [] == acts;
  }

  /** A run over the whole table is, to each row, the looks and resets that concern
      it: the row ends as they leave it, and what was sent about it is what they send. */
  lemma {:induction false} RunProjects(tables: seq<Table>, moves: seq<Move>, key: Key)
    requires IsRun(tables, moves)
    ensures var r := RowIn(tables[0].rows, key);
            var last := tables[|moves|];
            RowIn(last.rows, key) == RowAfter(r, key.stage, Seen(moves, key))
            && NoticesFor(last.outbox, key) == NoticesFor(tables[0].outbox, key) + SentOver(r, key, Seen(moves, key))
            && tables[0].outbox <= last.outbox
  {
    if moves != [] {
      var n := |moves| - 1;
      ShorterRun(tables, moves);
      RunProjects(tables[..n + 1], moves[..n], key);
      SeenMore(moves, key);
      hide *;
      MoveProjects(tables[n], moves[n], tables[n + 1], key, RowIn(tables[0].rows, key), Seen(moves[..n], key),
                   NoticesFor(tables[0].outbox, key));
    }
  }

  lemma ShorterRun(tables: seq<Table>, moves: seq<Move>)
    requires IsRun(tables, moves) && moves != []
    ensures var n := |moves| - 1;
            IsRun(tables[..n + 1], moves[..n]) && Moved(tables[n], moves[n], tables[n + 1])
  {
    hide Moved;
  }

  lemma SeenMore(moves: seq<Move>, key: Key)
    requires moves != []
    ensures var n := |moves| - 1;
            Seen(moves, key) == Seen(moves[..n], key) + Seen([moves[n]], key)
  {
    var n := |moves| - 1;
    assert [moves[n]][..0] == [] && Seen([], key) == [];
  }

  lemma {:induction false} SeenNoReset(moves: seq<Move>, key: Key)
    requires forall i | 0 <= i < |moves| :: moves[i] != ResetRow(key)
    ensures NoReset(Seen(moves, key))
  {
    if moves != [] {
      SeenNoReset(moves[..|moves| - 1], key);
    }
  }

  /** In any run of passes and resets over the table, whatever came before and
      whoever else is looked at, from a reset of a row on and as long as it is not
      reset again: at most two reminders about it are sent, at least the threshold
      apart, and at most one escalation, after both. */
  lemma BetweenResets(tables: seq<Table>, moves: seq<Move>, key: Key, reset: nat)
    requires IsRun(tables, moves) && reset < |moves| && moves[reset] == ResetRow(key)
    requires forall i | reset < i < |moves| :: moves[i] != ResetRow(key)
    ensures var start, last := tables[reset + 1], tables[|moves|];
            start.outbox <= last.outbox && Measured(NoticesFor(last.outbox[|start.outbox|..], key), key.stage)
  {
    var start, last := tables[reset + 1], tables[|moves|];
    assert Moved(tables[reset], moves[reset], start);
    assert RowIn(start.rows, key) == FRESH;
    var later := moves[reset + 1..];
    RestIsRun(tables, moves, reset + 1);
    hide Moved, IsRun, Measured;
    RunProjects(tables[reset + 1..], later, key);
    SeenNoReset(later, key);
    FreshIsMeasured(key, Seen(later, key));
    assert last.outbox == start.outbox + last.outbox[|start.outbox|..];
    NoticesConcat(start.outbox, last.outbox[|start.outbox|..], key);
    hide *;
    var a, b, c := NoticesFor(start.outbox, key), NoticesFor(last.outbox[|start.outbox|..], key),
                   SentOver(FRESH, key, Seen(later, key));
    assert a + b == a + c;
    assert b == (a + b)[|a|..] && c == (a + c)[|a|..];
  }

  lemma RestIsRun(tables: seq<Table>, moves: seq<Move>, n: nat)
    requires IsRun(tables, moves) && n <= |moves|
    ensures IsRun(tables[n..], moves[n..])
  {
    hide Moved;
  }
}
