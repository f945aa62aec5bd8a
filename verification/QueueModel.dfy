/** The rows the queue operations work on, and what each operation does to them,
    as functions of the state (apps/calendar/services.py, apps/composer/models.py,
    apps/composer/services.py). The methods that carry the operations out step by
    step are in QueueService and are proved to do exactly this. */
module QueueModel {
  import opened Common
  import opened PostingSlots

  datatype Status =
    | Draft | PendingReview | Approved | PendingClient | ChangesRequested | Rejected
    | Scheduled | Publishing | Published | Failed | OnHold

  /** History: never removed or moved by the queue. */
  predicate Protected(st: Status) {
    st == Published || st == Publishing
  }

  /** The editorial transition table. */
  predicate CanTransition(from: Status, to: Status) {
    match from
    case Draft => to in {PendingReview, Scheduled, Publishing}
    case PendingReview => to in {Approved, ChangesRequested, Rejected}
    case Approved => to in {PendingClient, Scheduled, Publishing, Draft, OnHold, PendingReview}
    case PendingClient => to in {Approved, ChangesRequested, Rejected}
    case ChangesRequested => to in {PendingReview, Draft}
    case Rejected => to in {Draft, PendingReview}
    case Scheduled => to in {Publishing, Draft}
    case Publishing => to in {Published, Failed, Scheduled}
    case Failed => to in {Publishing, Draft, Scheduled}
    case OnHold => to in {Approved, Draft, ChangesRequested}
    case Published => false
  }

  /** A post has at most one row per channel. */
  datatype Key = Key(post: nat, channel: nat)

  /** What is remembered of failed publishing attempts. */
  datatype Failure = Failure(error: string, retries: nat, nextRetry: Option<Instant>)

  const NO_FAILURE := Failure("", 0, None)

  datatype Row = Row(status: Status, scheduledAt: Option<Instant>, publishedAt: Option<Instant>, failure: Failure)

  /** A row put back on the schedule; a failed one starts over without its failures. */
  function Scheduling(r: Row, st: Status, at: Instant): Row {
    r.(status := st, scheduledAt := Some(at), failure := if r.status == Failed then NO_FAILURE else r.failure)
  }

  /** Every queue feeds one channel; several queues may share it. */
  datatype Queue = Queue(id: nat, channel: nat)

  /** A post has at most one entry per queue. */
  datatype EntryId = EntryId(queue: Queue, post: nat)

  datatype Entry = Entry(position: nat, slot: Option<Instant>)

  /** `scheduledAt` is the cached aggregate of the children's times, `proposed` a
      suggested time of a post that has no schedule yet. */
  datatype Post = Post(scheduledAt: Option<Instant>, proposed: Option<Instant>, workspace: nat, author: nat)

  /** A post whose aggregate is recomputed; a schedule ends a suggestion. */
  function Resynced(p: Post, aggregate: Option<Instant>): Post {
    p.(scheduledAt := aggregate, proposed := if aggregate.Some? then None else p.proposed)
  }

  datatype State = State(posts: map<nat, Post>, rows: map<Key, Row>, entries: map<EntryId, Entry>)

  datatype Outcome = Done | QueueFull

  /** What an action of a user comes to: the rows acted on, or the exception raised. */
  datatype Reply = Acted(count: nat) | BadInput | Denied

  function PostsOf(keys: set<Key>): set<nat> {
    set k | k in keys :: k.post
  }

  // ----- the parent aggregate -----

  /** The times of a post's children. */
  ghost function ChildTimes(rows: map<Key, Row>, post: nat): set<Instant> {
    set k | k in rows && k.post == post && rows[k].scheduledAt.Some? :: rows[k].scheduledAt.value
  }

  ghost function Aggregate(rows: map<Key, Row>, post: nat): Option<Instant> {
    Earliest(ChildTimes(rows, post))
  }

  ghost predicate AggregateRight(s: State, post: nat)
    requires post in s.posts
  {
    s.posts[post].scheduledAt == Aggregate(s.rows, post)
  }

  ghost predicate AggregatesRight(s: State) {
    forall p | p in s.posts :: AggregateRight(s, p)
  }

  /** Recompute one post's aggregate. */
  ghost function Synced(posts: map<nat, Post>, rows: map<Key, Row>, post: nat): map<nat, Post> {
    if post in posts then posts[post := Resynced(posts[post], Aggregate(rows, post))] else posts
  }

  /** A post with a timed child has an aggregate. */
  lemma TimedChild(rows: map<Key, Row>, k: Key)
    requires k in rows && rows[k].scheduledAt.Some?
    ensures Aggregate(rows, k.post).Some? && Aggregate(rows, k.post).value <= rows[k].scheduledAt.value
  {
    assert rows[k].scheduledAt.value in ChildTimes(rows, k.post);
  }

  /** A post whose own rows are the same has the same aggregate. */
  lemma AggregateFrame(r1: map<Key, Row>, r2: map<Key, Row>, post: nat)
    requires forall k: Key | k.post == post :: (k in r1 <==> k in r2) && (k in r1 ==> r1[k].scheduledAt == r2[k].scheduledAt)
    ensures Aggregate(r1, post) == Aggregate(r2, post)
  {
    assert ChildTimes(r1, post) == ChildTimes(r2, post);
  }

  // ----- occupancy -----

  /** A row that is not history and holds a time. */
  predicate Live(r: Row) {
    !Protected(r.status) && r.scheduledAt.Some?
  }

  /** The future instants already claimed on a channel, not counting the row `own`. */
  function Occupied(rows: map<Key, Row>, channel: nat, now: Instant, own: Key): set<Instant> {
    set k | k in rows && k.channel == channel && k != own && Live(rows[k]) && rows[k].scheduledAt.value > now
      :: rows[k].scheduledAt.value
  }

  /** No two live rows of the channel hold the same instant. */
  ghost predicate NoDoubleBooking(rows: map<Key, Row>, channel: nat) {
    forall a, b | a in rows && b in rows && a.channel == channel && b.channel == channel
                  && Live(rows[a]) && Live(rows[b]) && rows[a].scheduledAt == rows[b].scheduledAt :: a == b
  }

  // ----- writing slots -----

  function AssignRows(rows: map<Key, Row>, q: Queue, plan: map<nat, Instant>): map<Key, Row> {
    map k | k in rows ::
      if k.channel == q.channel && k.post in plan then rows[k].(scheduledAt := Some(plan[k.post])) else rows[k]
  }

  function AssignEntries(entries: map<EntryId, Entry>, q: Queue, plan: map<nat, Instant>): map<EntryId, Entry> {
    map e | e in entries ::
      if e.queue == q && e.post in plan then entries[e].(slot := Some(plan[e.post])) else entries[e]
  }

  /** `rows` are the rows after the assignment. */
  ghost function AssignPosts(posts: map<nat, Post>, rows: map<Key, Row>, q: Queue, plan: map<nat, Instant>): map<nat, Post> {
    map p | p in posts ::
      if p in plan && Key(p, q.channel) in rows then Resynced(posts[p], Aggregate(rows, p)) else posts[p]
  }

  /** Give the posts of `plan` their instants: in the queue entry, in the row on
      the queue's channel when there is one, and in the aggregate. */
  ghost function Assign(s: State, q: Queue, plan: map<nat, Instant>): State {
    var rows := AssignRows(s.rows, q, plan);
    State(AssignPosts(s.posts, rows, q, plan), rows, AssignEntries(s.entries, q, plan))
  }

  /** Positions already used in a queue. */
  function Positions(s: State, q: Queue): set<nat> {
    set e | e in s.entries && e.queue == q :: s.entries[e].position
  }

  ghost function LastPosition(s: State, q: Queue): nat {
    if Positions(s, q) == {} then 0 else Greatest(Positions(s, q))
  }

  lemma {:induction false} FindGreatest(s: set<nat>) returns (m: nat)
    requires s != {}
    ensures m in s && forall x | x in s :: x <= m
  {
    var any :| any in s;
    var rest := s - {any};
    assert forall x | x in s :: x == any || x in rest;
    m := any;
    if rest != {} {
      var other := FindGreatest(rest);
      m := if other > any then other else any;
    }
  }

  ghost function Greatest(s: set<nat>): (m: nat)
    requires s != {}
    ensures m in s && forall x | x in s :: x <= m
  {
    assert exists m :: m in s && forall x | x in s :: x <= m by {
      var m := FindGreatest(s);
    }
    var m :| m in s && forall x | x in s :: x <= m;
    m
  }

  /** The post's entry, appended after the last one when it has none. */
  ghost function WithEntry(s: State, post: nat, q: Queue): State {
    if EntryId(q, post) in s.entries then s
    else s.(entries := s.entries[EntryId(q, post) := Entry(LastPosition(s, q) + 1, None)])
  }

  // ----- the operations -----

  /** Place a post on the first free slot of the horizon `h`. */
  ghost function AddNext(s: State, post: nat, q: Queue, h: seq<Instant>, now: Instant): (State, Outcome) {
    var own := Key(post, q.channel);
    if own in s.rows && Protected(s.rows[own].status) then (s, Done)
    else
      match NextAvailable(h, Occupied(s.rows, q.channel, now, own))
      case None => (s, QueueFull)
      case Some(t) => (Assign(WithEntry(s, post, q), q, map[post := t]), Done)
  }

  /** The other posts of the queue that may be moved: queued, not history, timed in the future. */
  function Movable(s: State, post: nat, q: Queue, now: Instant): set<nat> {
    set e | e in s.entries && e.queue == q && e.post != post && Key(e.post, q.channel) in s.rows
            && Live(s.rows[Key(e.post, q.channel)]) && s.rows[Key(e.post, q.channel)].scheduledAt.value > now
      :: e.post
  }

  function TimeOf(s: State, q: Queue, p: nat): Instant
    requires Key(p, q.channel) in s.rows && s.rows[Key(p, q.channel)].scheduledAt.Some?
  {
    s.rows[Key(p, q.channel)].scheduledAt.value
  }

  /** Those of them whose time is among the slots first fetched. */
  function Movers(s: State, post: nat, q: Queue, h: seq<Instant>, now: Instant): set<nat> {
    var movable := Movable(s, post, q, now);
    var window := Take(h, |movable| + 2);
    set p | p in movable && TimeOf(s, q, p) in window
  }

  /** Instants the ladder must step over: everything occupied except by the movers. */
  function Avoid(s: State, post: nat, q: Queue, h: seq<Instant>, now: Instant): set<Instant> {
    var movers := Movers(s, post, q, h, now);
    Occupied(s.rows, q.channel, now, Key(post, q.channel)) - set p | p in movers :: TimeOf(s, q, p)
  }

  /** The first index from `j` on that is not taken and whose instant need not be avoided; `|h|` if none. */
  function FirstOpen(h: seq<Instant>, j: nat, taken: set<nat>, avoid: set<Instant>): (k: nat)
    requires j <= |h|
    ensures j <= k <= |h|
    ensures k < |h| ==> k !in taken && h[k] !in avoid
    ensures forall i | j <= i < k :: i in taken || h[i] in avoid
    decreases |h| - j
  {
    if j == |h| || (j !in taken && h[j] !in avoid) then j else FirstOpen(h, j + 1, taken, avoid)
  }

  /** The index of an instant in a strictly increasing horizon. */
  ghost function IndexOf(h: seq<Instant>, t: Instant): (i: nat)
    requires t in h
    ensures i < |h| && h[i] == t
  {
    var i :| 0 <= i < |h| && h[i] == t;
    i
  }

  /** The movers with the times they hold. */
  function Held(s: State, post: nat, q: Queue, h: seq<Instant>, now: Instant): (held: map<nat, Instant>)
    ensures held.Keys == Movers(s, post, q, h, now)
    ensures forall p | p in held :: held[p] in h
  {
    map p | p in Movers(s, post, q, h, now) :: TimeOf(s, q, p)
  }

  /** Where each of them stands. */
  ghost function Indices(h: seq<Instant>, held: map<nat, Instant>): (at: map<nat, nat>)
    requires forall p | p in held :: held[p] in h
    ensures at.Keys == held.Keys && forall p | p in at :: at[p] < |h| && h[at[p]] == held[p]
  {
    map p | p in held :: IndexOf(h, held[p])
  }

  function Position(s: State, q: Queue, p: nat): nat {
    if EntryId(q, p) in s.entries then s.entries[EntryId(q, p)].position else 0
  }

  /** `a` is climbed before `b`: from a higher slot, or from the same one and listed no later. */
  predicate Above(at: map<nat, nat>, rank: map<nat, nat>, a: nat, b: nat) {
    a in at && b in at && a in rank && b in rank && (at[a] > at[b] || (at[a] == at[b] && rank[a] <= rank[b]))
  }

  /** The movers once each, from the highest slot down; those on one slot as they are listed. */
  ghost predicate Descending(at: map<nat, nat>, rank: map<nat, nat>, order: seq<nat>) {
    (forall p :: p in order <==> p in at)
    && (forall i, j | 0 <= i < j < |order| :: order[i] != order[j] && Above(at, rank, order[i], order[j]))
  }

  /** The indices handed out: the first one is kept for the prioritized post. */
  function HandedOut(w: map<nat, nat>): set<nat> {
    {0} + set p | p in w :: w[p]
  }

  /** The climb: in the given order, each mover takes the first index after its own
      that is neither handed out nor to be avoided; nothing if one finds none. */
  function Walk(h: seq<Instant>, avoid: set<Instant>, at: map<nat, nat>, order: seq<nat>): (r: Option<map<nat, nat>>)
    ensures r.Some? ==> forall p | p in r.value :: r.value[p] < |h|
  {
    if order == [] then Some(map[])
    else
      var n := |order| - 1;
      var before := Walk(h, avoid, at, order[..n]);
      if before.None? || order[n] !in at || at[order[n]] >= |h| then None
      else
        var j := FirstOpen(h, at[order[n]] + 1, HandedOut(before.value), avoid);
        if j == |h| then None else Some(before.value[order[n] := j])
  }

  /** The movers' places in the queue's listing. */
  function Ranks(s: State, q: Queue, held: map<nat, Instant>): map<nat, nat> {
    map p | p in held :: Position(s, q, p)
  }

  ghost predicate MoverOrder(s: State, post: nat, q: Queue, h: seq<Instant>, now: Instant, order: seq<nat>) {
    var held := Held(s, post, q, h, now);
    Descending(Indices(h, held), Ranks(s, q, held), order)
  }

  /** Where the movers end up, if the ladder succeeds. */
  ghost function Climbs(s: State, post: nat, q: Queue, h: seq<Instant>, now: Instant, order: seq<nat>): (r: Option<map<nat, nat>>)
    ensures r.Some? ==> forall p | p in r.value :: r.value[p] < |h|
  {
    Walk(h, Avoid(s, post, q, h, now), Indices(h, Held(s, post, q, h, now)), order)
  }

  /** The instants at the movers' new indices. */
  function SlotsOf(h: seq<Instant>, w: map<nat, nat>): map<nat, Instant>
    requires forall p | p in w :: w[p] < |h|
  {
    map p | p in w :: h[w[p]]
  }

  /** The ladder's new times: the movers' new slots, and the first slot for the post. */
  function LadderPlan(h: seq<Instant>, w: map<nat, nat>, post: nat): map<nat, Instant>
    requires h != [] && forall p | p in w :: w[p] < |h|
  {
    SlotsOf(h, w)[post := h[0]]
  }

  /** The first slot is held by one of the queue's own movable entries. */
  predicate LadderNeeded(s: State, post: nat, q: Queue, h: seq<Instant>, now: Instant)
    requires h != []
  {
    exists p :: p in Movable(s, post, q, now) && TimeOf(s, q, p) == h[0]
  }

  /** The order is one the ladder may climb in, if there is a ladder to climb. */
  ghost predicate ClimbOrder(s: State, post: nat, q: Queue, h: seq<Instant>, now: Instant, order: seq<nat>) {
    h != [] && LadderNeeded(s, post, q, h, now) ==> MoverOrder(s, post, q, h, now, order)
  }

  /** Put a post on the first slot, climbing the movers in `order` when one of the
      queue's own entries holds it. */
  ghost function Prioritized(s: State, post: nat, q: Queue, h: seq<Instant>, now: Instant, order: seq<nat>): (State, Outcome) {
    var occupied := Occupied(s.rows, q.channel, now, Key(post, q.channel));
    if h == [] then (s, QueueFull)
    else if LadderNeeded(s, post, q, h, now) then
      match Climbs(s, post, q, h, now, order)
      case None => (s, QueueFull)
      case Some(w) => (Assign(WithEntry(s, post, q), q, LadderPlan(h, w, post)), Done)
    else if h[0] in occupied then
      match NextAvailable(h, occupied)
      case None => (s, QueueFull)
      case Some(t) => (Assign(WithEntry(s, post, q), q, map[post := t]), Done)
    else (Assign(WithEntry(s, post, q), q, map[post := h[0]]), Done)
  }

  /** Take an entry out of its queue; the row goes back to draft, untimed, if its status allows it. */
  ghost function Removed(s: State, e: EntryId): State {
    var own := Key(e.post, e.queue.channel);
    var unschedule := own in s.rows && !Protected(s.rows[own].status) && CanTransition(s.rows[own].status, Draft);
    var rows := if unschedule then s.rows[own := s.rows[own].(status := Draft, scheduledAt := None)] else s.rows;
    var entries := if unschedule
                   then map x | x in s.entries && !(x.post == e.post && x.queue.channel == e.queue.channel) :: s.entries[x]
                   else s.entries - {e};
    State(Synced(s.posts, rows, e.post), rows, entries)
  }

  // ----- reordering -----

  function Insert(x: Instant, sorted: seq<Instant>): seq<Instant> {
    if sorted == [] || x <= sorted[0] then [x] + sorted else [sorted[0]] + Insert(x, sorted[1..])
  }

  function Sort(s: seq<Instant>): seq<Instant> {
    if s == [] then [] else Insert(s[0], Sort(s[1..]))
  }

  /** The named entries that exist in the queue and are not history, in the order named. */
  function Named(s: State, q: Queue, ids: seq<EntryId>): seq<nat> {
    if ids == [] then []
    else
      var rest := Named(s, q, ids[1..]);
      var own := Key(ids[0].post, q.channel);
      if ids[0].queue == q && ids[0] in s.entries && !(own in s.rows && Protected(s.rows[own].status))
      then [ids[0].post] + rest else rest
  }

  /** Whoever is named is in the queue. */
  lemma {:induction false} NamedEntries(s: State, q: Queue, ids: seq<EntryId>)
    ensures forall p | p in Named(s, q, ids) :: EntryId(q, p) in s.entries
  {
    if ids != [] {
      NamedEntries(s, q, ids[1..]);
      assert ids[0] == EntryId(ids[0].queue, ids[0].post);
    }
  }

  predicate Slotted(rows: map<Key, Row>, q: Queue, p: nat) {
    Key(p, q.channel) in rows && rows[Key(p, q.channel)].scheduledAt.Some?
  }

  /** Those of them that hold a time. */
  function SlottedOf(s: State, q: Queue, named: seq<nat>): (r: seq<nat>)
    ensures forall i | 0 <= i < |r| :: r[i] in named && Slotted(s.rows, q, r[i])
  {
    if named == [] then []
    else if Slotted(s.rows, q, named[0]) then [named[0]] + SlottedOf(s, q, named[1..])
    else SlottedOf(s, q, named[1..])
  }

  function TimesOf(s: State, q: Queue, posts: seq<nat>): (r: seq<Instant>)
    requires forall i | 0 <= i < |posts| :: Slotted(s.rows, q, posts[i])
    ensures |r| == |posts|
    ensures forall i | 0 <= i < |r| :: Slotted(s.rows, q, posts[i]) && r[i] == TimeOf(s, q, posts[i])
  {
    if posts == [] then []
    else
      assert Slotted(s.rows, q, posts[0]);
      [TimeOf(s, q, posts[0])] + TimesOf(s, q, posts[1..])
  }

  /** Pair posts with instants in order; a post named twice keeps its last instant. */
  function Pairing(posts: seq<nat>, slots: seq<Instant>): map<nat, Instant>
    requires |posts| == |slots|
  {
    if posts == [] then map[] else Pairing(posts[..|posts| - 1], slots[..|slots| - 1])[posts[|posts| - 1] := slots[|slots| - 1]]
  }

  /** Number the entries by their place in `named`. An entry is written only when
      the position it had to begin with differs from its place. */
  function Renumbered(entries: map<EntryId, Entry>, q: Queue, named: seq<nat>): (r: map<EntryId, Entry>)
    ensures r.Keys == entries.Keys
  {
    if named == [] then entries
    else
      var n := |named| - 1;
      var before := Renumbered(entries, q, named[..n]);
      var e := EntryId(q, named[n]);
      if e in entries && entries[e].position != n then before[e := before[e].(position := n)] else before
  }

  /** Hand the instants already held by the named entries out again, in the named order. */
  ghost function Reordered(s: State, q: Queue, ids: seq<EntryId>): State {
    var named := Named(s, q, ids);
    var slotted := SlottedOf(s, q, named);
    SortLength(TimesOf(s, q, slotted));
    var t := Assign(s, q, Pairing(slotted, Sort(TimesOf(s, q, slotted))));
    t.(entries := Renumbered(t.entries, q, named))
  }

  lemma {:induction false} InsertLength(x: Instant, s: seq<Instant>)
    ensures |Insert(x, s)| == |s| + 1
  {
    if !(s == [] || x <= s[0]) { InsertLength(x, s[1..]); }
  }

  lemma {:induction false} SortLength(s: seq<Instant>)
    ensures |Sort(s)| == |s|
  {
    if s != [] { SortLength(s[1..]); InsertLength(s[0], Sort(s[1..])); }
  }
}
