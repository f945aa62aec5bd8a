/** The idempotency slots of the agent API: many workers claim, re-read, finalize
    and release rows of one table while a sweeper deletes rows by age
    (apps/api/middleware.py, apps/api/tasks.py, apps/api/models.py). */
module Idempotency {
  import opened Common

  /** The unique key of a row: who asks, and the client's key. */
  datatype Slot = Slot(apiKey: nat, key: string)

  /** `id` is the row's own identity: a slot deleted and claimed again has a new row. */
  datatype Record = Record(id: nat, fingerprint: string, status: nat, body: string, created: Instant)

  type Table = map<Slot, Record>

  /** The status of a row whose claimer has not answered yet. */
  const PENDING: nat := 0
  const TTL: int := 24 * HOUR

  /** What a claimer that lost the insertion race finds when it looks again. */
  datatype Finding = Gone | Reused | InFlight | Replay(status: nat, body: string)

  function Inserted(t: Table, slot: Slot, fingerprint: string, id: nat, now: Instant): Option<Table> {
    if slot in t then None else Some(t[slot := Record(id, fingerprint, PENDING, "", now)])
  }

  function Found(t: Table, slot: Slot, fingerprint: string): Finding {
    if slot !in t then Gone
    else if t[slot].fingerprint != fingerprint then Reused
    else if t[slot].status == PENDING then InFlight
    else Replay(t[slot].status, t[slot].body)
  }

  function Finalized(t: Table, slot: Slot, status: nat, body: string): Table {
    if slot in t then t[slot := t[slot].(status := status, body := body)] else t
  }

  function Released(t: Table, slot: Slot): Table {
    if slot in t && t[slot].status == PENDING then t - {slot} else t
  }

  function Swept(t: Table, now: Instant): Table {
    map s | s in t && !(t[s].created < now - TTL) :: t[s]
  }

  // ----- the table operations in place -----

  datatype Disposition =
    | Passthrough | Claimed | InProgress | Replayed(status: nat, body: string)
    | KeyReused | NotAnApiKey | Vanished

  /** What the caller is told of what was found. */
  function Answered(f: Finding): Disposition {
    match f
    case Gone => Vanished
    case Reused => KeyReused
    case InFlight => InProgress
    case Replay(st, b) => Replayed(st, b)
  }

  class Records {
    var rows: Table
    var nextId: nat

    /** One INSERT under the unique constraint. */
    method TryInsert(slot: Slot, fingerprint: string, now: Instant) returns (ok: bool)
      modifies this
      ensures var r := Inserted(old(rows), slot, fingerprint, old(nextId), now);
              ok == r.Some? && rows == (if ok then r.value else old(rows))
              && nextId == old(nextId) + (if ok then 1 else 0)
      ensures ok <==> slot !in old(rows)
      ensures ok ==> rows == old(rows)[slot := Record(old(nextId), fingerprint, 0, "", now)]
    {
      if slot in rows {
        return false;
      }
      rows := rows[slot := Record(nextId, fingerprint, PENDING, "", now)];
      nextId := nextId + 1;
      return true;
    }

    /** The gate of a POST. A worker that loses the race looks again at whatever the
        other workers and the sweeper have made of the table by then: `meanwhile`. */
    method Claim(isApiKey: bool, apiKey: nat, key: Option<string>, fingerprint: string, now: Instant, meanwhile: Table)
      returns (d: Disposition)
      modifies this
      ensures key.None? || key.value == "" ==> d == Passthrough && rows == old(rows)
      ensures key.Some? && key.value != "" && !isApiKey ==> d == NotAnApiKey && rows == old(rows)
      ensures key.Some? && key.value != "" && isApiKey ==>
                var slot := Slot(apiKey, key.value);
                match Inserted(old(rows), slot, fingerprint, old(nextId), now)
                case Some(t) => d == Claimed && rows == t
                case None => rows == meanwhile && d == Answered(Found(meanwhile, slot, fingerprint))
      ensures d.Claimed? ==>
                key.Some? && Slot(apiKey, key.value) !in old(rows)
                && rows == old(rows)[Slot(apiKey, key.value) := Record(old(nextId), fingerprint, 0, "", now)]
      ensures d.Replayed? ==>
                key.Some? && Slot(apiKey, key.value) in old(rows) && Slot(apiKey, key.value) in meanwhile
                && var r := meanwhile[Slot(apiKey, key.value)];
                r.fingerprint == fingerprint && r.status != 0 && d == Replayed(r.status, r.body)
    {
      if key.None? || key.value == "" {
        return Passthrough;
      }
      if !isApiKey {
        return NotAnApiKey;
      }
      var ok := TryInsert(Slot(apiKey, key.value), fingerprint, now);
      if ok {
        return Claimed;
      }
      rows := meanwhile;
      d := LookAgain(Slot(apiKey, key.value), fingerprint);
    }

    /** The second look, on whatever is there by then. */
    method LookAgain(slot: Slot, fingerprint: string) returns (d: Disposition)
      ensures d == Answered(Found(rows, slot, fingerprint))
      ensures d.Vanished? <==> slot !in rows
      ensures d.KeyReused? <==> slot in rows && rows[slot].fingerprint != fingerprint
      ensures d.InProgress? <==> slot in rows && rows[slot].fingerprint == fingerprint && rows[slot].status == 0
      ensures slot in rows && rows[slot].fingerprint == fingerprint && rows[slot].status != 0 ==>
                d == Replayed(rows[slot].status, rows[slot].body)
    {
      if slot !in rows {
        return Vanished;
      }
      if rows[slot].fingerprint != fingerprint {
        return KeyReused;
      }
      if rows[slot].status == PENDING {
        return InProgress;
      }
      return Replayed(rows[slot].status, rows[slot].body);
    }

    /** Promote a slot to its real response; the fingerprint stays. */
    method Finalize(slot: Slot, status: nat, body: string)
      modifies this`rows
      ensures rows == Finalized(old(rows), slot, status, body)
      ensures rows.Keys == old(rows).Keys && forall x | x in rows && x != slot :: rows[x] == old(rows)[x]
      ensures slot in rows ==> rows[slot].status == status && rows[slot].body == body && SameClaim(old(rows)[slot], rows[slot])
    {
      if slot in rows {
        rows := rows[slot := rows[slot].(status := status, body := body)];
      }
    }

    /** Delete a slot that was claimed but not finalized. */
    method Release(slot: Slot)
      modifies this`rows
      ensures rows == Released(old(rows), slot)
      ensures forall x | x in old(rows) && !(x == slot && old(rows)[x].status == 0) :: x in rows && rows[x] == old(rows)[x]
      ensures forall x | x in rows :: x in old(rows) && !(x == slot && rows[x].status == 0)
    {
      if slot in rows && rows[slot].status == PENDING {
        rows := rows - {slot};
      }
    }

    /** Delete rows older than the time to live, answered or not. */
    method Sweep(now: Instant)
      modifies this`rows
      ensures rows == Swept(old(rows), now)
      ensures forall x :: x in rows <==> x in old(rows) && now - old(rows)[x].created <= 86_400_000_000
      ensures forall x | x in rows :: rows[x] == old(rows)[x]
    {
      var cutoff := now - TTL;
      rows := map s | s in rows && !(rows[s].created < cutoff) :: rows[s];
    }
  }

  // ----- the protocol: interleaved atomic steps -----

  /** A worker that lost the race and has yet to look again, or one that holds a
      slot: its row, and when it claimed it. Any other worker is idle. */
  datatype Worker = Looking(slot: Slot, fingerprint: string) | Holding(slot: Slot, fingerprint: string, row: nat, since: Instant)

  /** What the claimer of a row answered. */
  datatype Answer = Answer(slot: Slot, fingerprint: string, status: nat, body: string)

  /** What some worker was told to replay, and from which row. */
  datatype Told = Told(row: nat, answer: Answer)

  datatype State = State(now: Instant, table: Table, nextId: nat, workers: map<nat, Worker>,
                         answers: map<nat, Answer>, told: set<Told>)

  datatype Act =
    | Insert(w: nat, slot: Slot, fingerprint: string)
    | Look(w: nat)
    | Finish(w: nat, status: nat, body: string)
    | Fail(w: nat)
    | Crash(w: nat)
    | Sweep
    | Wait(time: nat)

  /** Statuses of real responses are never the pending mark. */
  predicate Enabled(s: State, a: Act) {
    match a
    case Insert(w, _, _) => w !in s.workers
    case Look(w) => w in s.workers && s.workers[w].Looking?
    case Finish(w, status, _) => w in s.workers && s.workers[w].Holding? && status != PENDING
    case Fail(w) => w in s.workers && s.workers[w].Holding?
    case Crash(w) => w in s.workers
    case Sweep => true
    case Wait(_) => true
  }

  function Next(s: State, a: Act): State
    requires Enabled(s, a)
  {
    match a
    case Insert(w, slot, fp) =>
      (match Inserted(s.table, slot, fp, s.nextId, s.now)
       case Some(t) => s.(table := t, nextId := s.nextId + 1, workers := s.workers[w := Holding(slot, fp, s.nextId, s.now)])
       case None => s.(workers := s.workers[w := Looking(slot, fp)]))
    case Look(w) =>
      var slot, fp := s.workers[w].slot, s.workers[w].fingerprint;
      (match Found(s.table, slot, fp)
       case Replay(st, b) =>
         s.(workers := s.workers - {w}, told := s.told + {Told(s.table[slot].id, Answer(slot, fp, st, b))})
       case _ => s.(workers := s.workers - {w}))
    case Finish(w, status, body) =>
      var h := s.workers[w];
      s.(table := Finalized(s.table, h.slot, status, body), workers := s.workers - {w},
         answers := s.answers[h.row := Answer(h.slot, h.fingerprint, status, body)])
    case Fail(w) => s.(table := Released(s.table, s.workers[w].slot), workers := s.workers - {w})
    case Crash(w) => s.(workers := s.workers - {w})
    case Sweep => s.(table := Swept(s.table, s.now))
    case Wait(time) => s.(now := s.now + time)
  }

  /** No worker has held its slot for longer than the time to live. */
  ghost predicate Timely(s: State) {
    forall w | w in s.workers && s.workers[w].Holding? :: s.now - s.workers[w].since <= TTL
  }

  // ----- the invariant -----

  ghost predicate RowSound(s: State, slot: Slot)
    requires slot in s.table
  {
    var r := s.table[slot];
    r.id < s.nextId
    && (r.status == PENDING <==> r.id !in s.answers)
    && (r.status != PENDING ==> s.answers[r.id] == Answer(slot, r.fingerprint, r.status, r.body))
  }

  /** A holder's slot still carries its own, unanswered row. */
  ghost predicate HolderSound(s: State, w: nat)
    requires w in s.workers
  {
    s.workers[w].Holding? ==>
      var h := s.workers[w];
      h.slot in s.table
      && var r := s.table[h.slot];
      r.id == h.row && r.fingerprint == h.fingerprint && r.status == PENDING && r.created == h.since
  }

  /** No two workers hold one slot. */
  ghost predicate Exclusive(s: State) {
    forall a, b | a in s.workers && b in s.workers && s.workers[a].Holding? && s.workers[b].Holding?
                  && s.workers[a].slot == s.workers[b].slot :: a == b
  }

  /** Every replay told exactly what the claimer of its row answered, for the same fingerprint. */
  ghost predicate TruthTold(s: State) {
    forall t | t in s.told :: t.row in s.answers && s.answers[t.row] == t.answer
  }

  ghost predicate Inv(s: State) {
    (forall slot | slot in s.table :: RowSound(s, slot))
    && (forall a, b | a in s.table && b in s.table && s.table[a].id == s.table[b].id :: a == b)
    && (forall w | w in s.workers :: HolderSound(s, w))
    && (forall id | id in s.answers :: id < s.nextId)
    && Exclusive(s) && TruthTold(s)
  }

  lemma InsertKeeps(s: State, w: nat, slot: Slot, fp: string)
    requires Inv(s) && Enabled(s, Insert(w, slot, fp))
    ensures Inv(Next(s, Insert(w, slot, fp)))
  {
    var t := Next(s, Insert(w, slot, fp));
    forall x | x in t.table ensures RowSound(t, x) {
      if x in s.table { assert RowSound(s, x); }
    }
    forall v | v in t.workers ensures HolderSound(t, v) {
      if v != w { assert HolderSound(s, v); }
    }
    if slot !in s.table {
      forall v | v in s.workers && s.workers[v].Holding? ensures s.workers[v].slot != slot {
        assert HolderSound(s, v);
      }
      forall x | x in s.table ensures s.table[x].id != s.nextId {
        assert RowSound(s, x);
      }
    }
  }

  lemma LookKeeps(s: State, w: nat)
    requires Inv(s) && Enabled(s, Look(w))
    ensures Inv(Next(s, Look(w)))
  {
    var t := Next(s, Look(w));
    var slot := s.workers[w].slot;
    if slot in s.table { assert RowSound(s, slot); }
    forall x | x in t.table ensures RowSound(t, x) { assert RowSound(s, x); }
    forall v | v in t.workers ensures HolderSound(t, v) { assert HolderSound(s, v); }
  }

  lemma FinishKeeps(s: State, w: nat, status: nat, body: string)
    requires Inv(s) && Enabled(s, Finish(w, status, body))
    ensures Inv(Next(s, Finish(w, status, body)))
  {
    var t := Next(s, Finish(w, status, body));
    var h := s.workers[w];
    assert HolderSound(s, w) && RowSound(s, h.slot);
    forall x | x in t.table ensures RowSound(t, x) { assert RowSound(s, x); }
    forall v | v in t.workers ensures HolderSound(t, v) { assert HolderSound(s, v); }
  }

  lemma FailKeeps(s: State, w: nat)
    requires Inv(s) && Enabled(s, Fail(w))
    ensures Inv(Next(s, Fail(w)))
  {
    var t := Next(s, Fail(w));
    forall x | x in t.table ensures RowSound(t, x) { assert RowSound(s, x); }
    forall v | v in t.workers ensures HolderSound(t, v) { assert HolderSound(s, v) && HolderSound(s, w); }
  }

  lemma CrashKeeps(s: State, w: nat)
    requires Inv(s) && Enabled(s, Crash(w))
    ensures Inv(Next(s, Crash(w)))
  {
    var t := Next(s, Crash(w));
    forall x | x in t.table ensures RowSound(t, x) { assert RowSound(s, x); }
    forall v | v in t.workers ensures HolderSound(t, v) { assert HolderSound(s, v); }
  }

  lemma WaitKeeps(s: State, time: nat)
    requires Inv(s)
    ensures Inv(Next(s, Wait(time)))
  {
    var t := Next(s, Wait(time));
    forall x | x in t.table ensures RowSound(t, x) { assert RowSound(s, x); }
    forall v | v in t.workers ensures HolderSound(t, v) { assert HolderSound(s, v); }
  }

  /** A sweep keeps the protocol sound exactly when it catches no worker that has
      outlived the time to live. */
  lemma SweepKeepsIff(s: State)
    requires Inv(s)
    ensures Inv(Next(s, Sweep)) <==>
            forall w | w in s.workers && s.workers[w].Holding? :: s.now - s.workers[w].since <= 86_400_000_000
  {
    var t := Next(s, Sweep);
    if Timely(s) {
      forall x | x in t.table ensures RowSound(t, x) { assert RowSound(s, x); }
      forall v | v in t.workers ensures HolderSound(t, v) { assert HolderSound(s, v); }
    } else {
      var w :| w in s.workers && s.workers[w].Holding? && s.now - s.workers[w].since > TTL;
      assert HolderSound(s, w);
      assert !HolderSound(t, w);
    }
  }

  /** Every step but an untimely sweep keeps the invariant. */
  lemma StepKeeps(s: State, a: Act)
    requires Inv(s) && Enabled(s, a) && (a.Sweep? ==> Timely(s))
    ensures Inv(Next(s, a))
  {
    match a
    case Insert(w, slot, fp) => InsertKeeps(s, w, slot, fp);
    case Look(w) => LookKeeps(s, w);
    case Finish(w, status, body) => FinishKeeps(s, w, status, body);
    case Fail(w) => FailKeeps(s, w);
    case Crash(w) => CrashKeeps(s, w);
    case Sweep => SweepKeepsIff(s);
    case Wait(time) => WaitKeeps(s, time);
  }

  // ----- whole runs -----

  /** A run: every step is enabled when its turn comes. */
  ghost predicate EnabledRun(s: State, acts: seq<Act>)
    decreases |acts|
  {
    acts == [] || (Enabled(s, acts[0]) && EnabledRun(Next(s, acts[0]), acts[1..]))
  }

  ghost function After(s: State, acts: seq<Act>): State
    requires EnabledRun(s, acts)
    decreases |acts|
  {
    if acts == [] then s else After(Next(s, acts[0]), acts[1..])
  }

  /** A run in which no sweep comes while some worker is overdue. */
  ghost predicate TimelyRun(s: State, acts: seq<Act>): (r: bool)
    ensures r ==> EnabledRun(s, acts)
    decreases |acts|
  {
    acts == [] || (Enabled(s, acts[0]) && (acts[0].Sweep? ==> Timely(s)) && TimelyRun(Next(s, acts[0]), acts[1..]))
  }

  const START := State(0, map[], 0, map[], map[], {})

  lemma {:induction false} RunKeeps(s: State, acts: seq<Act>)
    requires Inv(s) && TimelyRun(s, acts)
    ensures Inv(After(s, acts))
    decreases |acts|
  {
    if acts != [] {
      StepKeeps(s, acts[0]);
      RunKeeps(Next(s, acts[0]), acts[1..]);
    }
  }

  /** Under every interleaving at most one worker holds a slot at a time, and
      every replay returns what the row's own claimer answered for the same request. */
  lemma ProtocolIsSafe(acts: seq<Act>)
    requires TimelyRun(START, acts)
    ensures Exclusive(After(START, acts)) && TruthTold(After(START, acts))
  {
    RunKeeps(START, acts);
  }

  /** Rows carry different identities, all given out already. */
  ghost predicate Identified(s: State) {
    (forall x | x in s.table :: s.table[x].id < s.nextId)
    && (forall a, b | a in s.table && b in s.table && s.table[a].id == s.table[b].id :: a == b)
  }

  ghost predicate SameClaim(a: Record, b: Record) {
    a.id == b.id && a.fingerprint == b.fingerprint && a.created == b.created
  }

  /** Where the rows after a step come from. */
  lemma RowsComeFrom(s: State, a: Act, x: Slot)
    requires Enabled(s, a) && x in Next(s, a).table
    ensures (x in s.table && SameClaim(s.table[x], Next(s, a).table[x]))
            || (a.Insert? && x == a.slot && Next(s, a).table[x].id == s.nextId && Next(s, a).nextId == s.nextId + 1)
  {
  }

  lemma NumbersGrow(s: State, a: Act)
    requires Enabled(s, a)
    ensures s.nextId <= Next(s, a).nextId
  {
  }

  lemma StepKeepsClaims(s: State, a: Act)
    requires Identified(s) && Enabled(s, a)
    ensures Identified(Next(s, a)) && s.nextId <= Next(s, a).nextId
    ensures forall x | x in Next(s, a).table && Next(s, a).table[x].id < s.nextId ::
              x in s.table && SameClaim(s.table[x], Next(s, a).table[x])
  {
    var t := Next(s, a);
    NumbersGrow(s, a);
    hide Next, Enabled;
    forall x | x in t.table
      ensures (x in s.table && SameClaim(s.table[x], t.table[x]))
              || (a.Insert? && x == a.slot && t.table[x].id == s.nextId && t.nextId == s.nextId + 1)
    {
      RowsComeFrom(s, a, x);
    }
  }

  lemma {:induction false} RunKeepsClaims(s: State, acts: seq<Act>, x: Slot)
    requires Identified(s) && EnabledRun(s, acts) && x in After(s, acts).table && After(s, acts).table[x].id < s.nextId
    ensures x in s.table && SameClaim(s.table[x], After(s, acts).table[x])
    decreases |acts|
  {
    if acts != [] {
      StepKeepsClaims(s, acts[0]);
      RunKeepsClaims(Next(s, acts[0]), acts[1..], x);
    }
  }

  /** Over any run, overdue sweeps included, a row keeps its slot, its fingerprint and
      its age for as long as it exists, and a deleted one never comes back. */
  lemma RowsKeepTheirFingerprint(s: State, acts: seq<Act>, slot: Slot, x: Slot)
    requires Identified(s) && EnabledRun(s, acts) && slot in s.table && x in After(s, acts).table
    requires After(s, acts).table[x].id == s.table[slot].id
    ensures x == slot && SameClaim(s.table[slot], After(s, acts).table[x])
  {
    hide After, EnabledRun;
    RunKeepsClaims(s, acts, x);
  }

  lemma StepKeepsAnswer(s: State, a: Act, slot: Slot)
    requires Inv(s) && Enabled(s, a) && slot in s.table && s.table[slot].status != PENDING
    ensures slot in Next(s, a).table && Next(s, a).table[slot].id == s.table[slot].id ==> Next(s, a).table[slot] == s.table[slot]
  {
    if a.Finish? || a.Fail? {
      assert HolderSound(s, a.w);
    }
  }

  /** Without overdue sweeps an answered row keeps its answer as well. */
  lemma {:induction false} AnswersStay(s: State, acts: seq<Act>, slot: Slot)
    requires Inv(s) && TimelyRun(s, acts) && slot in s.table && s.table[slot].status != PENDING
    requires slot in After(s, acts).table && After(s, acts).table[slot].id == s.table[slot].id
    ensures After(s, acts).table[slot] == s.table[slot]
    decreases |acts|
  {
    if acts != [] {
      var t := Next(s, acts[0]);
      InvIdentifies(s);
      StepKeeps(s, acts[0]);
      StepKeepsClaims(s, acts[0]);
      InvIdentifies(t);
      hide Inv;
      RunKeepsClaims(t, acts[1..], slot);
      StepKeepsAnswer(s, acts[0], slot);
      AnswersStay(t, acts[1..], slot);
    }
  }

  /** A step leaves an answered row where and as it is, unless a sweep finds it older than 24 hours. */
  lemma AnsweredStepLasts(s: State, a: Act, slot: Slot)
    requires Inv(s) && Enabled(s, a) && slot in s.table && s.table[slot].status != PENDING
    requires a.Sweep? ==> s.now - s.table[slot].created <= 86_400_000_000
    ensures slot in Next(s, a).table && Next(s, a).table[slot] == s.table[slot] && s.now <= Next(s, a).now
  {
    if a.Finish? || a.Fail? {
      assert HolderSound(s, a.w);
    }
  }

  lemma {:induction false} TimeGoesOn(s: State, acts: seq<Act>)
    requires EnabledRun(s, acts)
    ensures s.now <= After(s, acts).now
    decreases |acts|
  {
    if acts != [] {
      TimeGoesOn(Next(s, acts[0]), acts[1..]);
    }
  }

  /** Over any run without overdue workers an answered row that is no older than 24
      hours at the end is still in its slot, as it was. */
  lemma {:induction false} AnswersLast(s: State, acts: seq<Act>, slot: Slot)
    requires Inv(s) && TimelyRun(s, acts) && slot in s.table && s.table[slot].status != 0
    requires After(s, acts).now - s.table[slot].created <= 86_400_000_000
    ensures slot in After(s, acts).table && After(s, acts).table[slot] == s.table[slot]
    decreases |acts|
  {
    if acts != [] {
      var t := Next(s, acts[0]);
      StepKeeps(s, acts[0]);
      TimeGoesOn(s, acts);
      AnsweredStepLasts(s, acts[0], slot);
      hide Inv, Next;
      AnswersLast(t, acts[1..], slot);
    }
  }

  /** For 24 hours a retry of an answered request, with the same key and fingerprint,
      is told that answer and changes no row; one with another fingerprint is told
      nothing of it. */
  lemma RetriesAreReplayed(s: State, acts: seq<Act>, slot: Slot, w: nat, fp: string)
    requires Inv(s) && TimelyRun(s, acts) && slot in s.table && s.table[slot].status != 0
    requires After(s, acts).now - s.table[slot].created <= 86_400_000_000 && w !in After(s, acts).workers
    ensures var t := After(s, acts);
            var r := s.table[slot];
            && Enabled(t, Insert(w, slot, fp)) && Enabled(Next(t, Insert(w, slot, fp)), Look(w))
            && var u := Next(Next(t, Insert(w, slot, fp)), Look(w));
            && u.table == t.table && u.answers == t.answers
            && u.told == t.told + if fp == r.fingerprint then {Told(r.id, Answer(slot, fp, r.status, r.body))} else {}
  {
    AnswersLast(s, acts, slot);
    hide Inv, TimelyRun;
  }

  /** A sweep leaves no row older than 24 hours, and every row no older as it was. */
  lemma SweepTakesTheOld(s: State, slot: Slot)
    ensures slot in Next(s, Sweep).table <==> slot in s.table && s.now - s.table[slot].created <= 86_400_000_000
    ensures slot in Next(s, Sweep).table ==> Next(s, Sweep).table[slot] == s.table[slot]
  {
  }

  /** A failed request gives its slot back: the next one with the key is the claimer. */
  lemma FailureFreesTheSlot(s: State, w: nat, next: nat, fp: string)
    requires Inv(s) && w in s.workers && s.workers[w].Holding? && next !in s.workers
    ensures var slot := s.workers[w].slot;
            var t := Next(s, Fail(w));
            && slot !in t.table && Enabled(t, Insert(next, slot, fp))
            && var u := Next(t, Insert(next, slot, fp));
            && next in u.workers && u.workers[next] == Holding(slot, fp, s.nextId, s.now)
            && u.table == t.table[slot := Record(s.nextId, fp, 0, "", s.now)]
  {
    assert HolderSound(s, w);
  }

  lemma InvIdentifies(s: State)
    requires Inv(s)
    ensures Identified(s)
  {
    forall x | x in s.table ensures s.table[x].id < s.nextId { assert RowSound(s, x); }
  }

  /** An overdue worker swept from under its slot: another worker claims it, so
      two hold it, the first one's answer lands in the second one's row, and a
      third is told an answer the row's claimer never gave. */
  lemma OverdueSweepBreaks(s: State, w: nat, second: nat, third: nat, fp: string, status: nat, body: string)
    requires Inv(s) && w in s.workers && s.workers[w].Holding? && s.now - s.workers[w].since > 86_400_000_000
    requires second !in s.workers && third !in s.workers && second != third && status != PENDING
    ensures var slot := s.workers[w].slot;
            var s1 := Next(s, Sweep);
            && Enabled(s1, Insert(second, slot, fp))
            && var s2 := Next(s1, Insert(second, slot, fp));
            && !Exclusive(s2)
            && Enabled(s2, Finish(w, status, body))
            && var s3 := Next(s2, Finish(w, status, body));
            && Enabled(s3, Insert(third, slot, fp))
            && var s4 := Next(s3, Insert(third, slot, fp));
            && Enabled(s4, Look(third))
            && !TruthTold(Next(s4, Look(third)))
  {
    var slot := s.workers[w].slot;
    assert HolderSound(s, w);
    var s1 := Next(s, Sweep);
    assert slot !in s1.table;
    var s2 := Next(s1, Insert(second, slot, fp));
    assert s2.workers[w].Holding? && s2.workers[second].Holding? && s2.workers[w].slot == s2.workers[second].slot;
    var s3 := Next(s2, Finish(w, status, body));
    assert RowSound(s, slot);
    assert s3.table[slot].status == status && s3.table[slot].id == s.nextId && s.nextId !in s3.answers;
    var s4 := Next(s3, Insert(third, slot, fp));
    var told := Told(s.nextId, Answer(slot, fp, status, body));
    assert told in Next(s4, Look(third)).told;
  }
}
