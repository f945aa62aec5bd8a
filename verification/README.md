# Verified model of the scheduling, analytics and agent-API cores

This project models the parts of the publishing application that keep shared
state right, and proves what they promise:

- **The posting-slot allocator.** Every channel has weekly posting slots; posts
  sit on slot instants; queues feed channels and may share one. `PostingSlots`
  is the slot walk and the search for a free slot, `QueueModel` says what each
  queue operation does to the rows, `QueueService` carries the operations out
  row by row and in place (class `Store`) and is proved to do exactly that, in
  every state. `LadderWalk` is the climb of the ladder on its own. `LadderLaws`,
  `ReorderLaws` and `QueueEffects` prove what follows for one operation, and when
  exactly it has an effect its caller may not expect. `RowLaws` says what each
  operation comes to in terms of the statuses, times and entries of the rows alone,
  and the methods promise that too. `PublishedRepair`, `BulkActions` and
  `CalendarDrag` are the repair of corrupt published rows, the bulk actions and the
  calendar drag over the same rows. `QueueRuns` is about whole runs of all of them,
  in any mixture. `QueueExamples` holds an input for each condition over these rows
  that can fail.
- **Analytics.** `PostDeltas` turns lifetime counters into daily credits and
  proves that nothing is lost or paid twice; `FollowerGrowth` compares a daily
  series with its headline; `SyncCadence` bounds how often one post is refreshed
  in its whole life.
- **The agent API.** `Idempotency` is the protocol by which many workers claim,
  re-read, finalize and release a row while a sweeper deletes rows by age;
  `ApiKeys` is token parsing and verification through caches; `QuotaMessage` is
  the rate-limit message printed in one file and parsed in another.
- **Smaller machines.** `LinkedIn` (escaping and the caption length counted for
  it elsewhere), `Recurrence` (recurring clones), `Reminders` (approval reminders
  and escalations).

`dafny verify dfyconfig.toml` checks everything.

## How the code is read

- An atomic block is one step that is undone when an error is raised, and the
  channel's row lock makes each queue operation one step; so a run is a sequence
  of operations, in any order, by any callers.
- Instants are whole microseconds. The clock is read once per operation.
- Rows are keyed by post and channel, entries by queue and post: the unique
  constraints of `apps/composer/models.py:490` and `apps/calendar/models.py:122`.
- A slot is a wall-clock reading in the workspace's zone. A reading that a clock
  change skips or repeats resolves to an instant, but compares unequal to that
  instant in any other zone; so an occupied time is never recognised in it.
  `PostingSlots` models the walk and the search on readings, for every schedule.
  The queue operations are modelled for a `Schedule`: one whose slots never fall,
  on any date, on a skipped or repeated reading. For it, equality of slots is
  equality of instants.
- The slot results need a horizon that strictly increases. `HorizonIncreasing`
  proves it for a `Schedule` whose zone resolves later plain readings to later
  instants.
- Distinctness of a channel's times is *preserved* by the queue operations. It is
  no invariant of the whole application: a calendar drag, a bulk publish and the
  pinning of the repair do not look at the channel (`RunApartIff`, and inputs in
  `DragReachesFurther`, `PublishReachesFurther`, `RepairReachesFurther`). So the queue
  operations are modelled for every channel, double-booked ones included. Two
  movers that share a slot are climbed in the order in which the queue lists them,
  by position, and those of one position in either order: `Prioritized` takes the
  order as an argument. Whether it succeeds, where it puts the post, which history
  it spares and whom it hastens do not depend on the order (`PrioritizeOutcome`,
  `PrioritizePlan`, `PrioritizeSparesHistoryIff`, `PrioritizeHastensIff`). A result
  that needs a channel free of double booking has that among its hypotheses;
  `LadderOrder` and `LadderFitsIff` do need it (`DoubleBookedLosesOrder`,
  `DoubleBookedIsFull`).
- A recurring clone remembers, in the model only, the rule it was made for. A daily
  pass works on the rule and its source as they are that day; both, and every post,
  may have been edited since the day before.
- One verification of a token, one claim of an idempotency key and the like are
  several steps wherever the code goes to the database, a cache or the clock more
  than once; other workers' steps may fall between.

## Where the code falls short of a promise

Each of these is stated as an exact condition, not assumed away.

- A slot on a reading that a clock change skips or repeats is always judged free:
  the search never answers an occupied instant, whatever is occupied, if and only
  if no upcoming reading is of that kind (`SoundIff`, `RepeatedHourDoubleBooks`).
  Its completeness is not affected (`AlwaysComplete`).
- Removing a queue entry does not always free its time: a row in draft, pending
  review or pending client has no transition to draft and keeps it
  (`RemoveFreesIff`).
- `prioritize` has no guard on the post it is given, although the comment at
  `apps/calendar/services.py:206-207` says that it has: it spares history if and
  only if the post is not history with another time than its target
  (`PrioritizeSparesHistoryIff`, and `PrioritizeRewritesHistory` for an input).
- Its docstring says that every other entry shifts by one slot. In a channel
  without double booking that is so if and only if every movable entry sits among
  the first few slots fetched and none has a next slot that is missing or held by
  an immovable post (`EveryEntryShiftsIff`, and `SomeEntryStaysPut` for an input).
- Giving a post an earlier time lowers the aggregate that its scheduled children
  without a time of their own fall back on, so that they may fire early. Exactly
  which are hastened: `AddHastensIff`, `PrioritizeHastensIff`, `ReorderHastensIff`,
  `DragHastensIff`, `PublishHastensIff`; inputs are `AddReachesFurther`,
  `PrioritizeReachesFurther` and so on, one for each.
- Adding a queued post again can move it later: it does not if and only if its slot
  or an earlier one is not held by another post (`ReaddNeverLaterIff`,
  `ReaddMovesLater`).
- A reorder keeps times distinct for distinct ids; the web endpoint passes the
  client's list on unchanged (`apps/webapi/routers/scheduling.py:326-334`), and
  with an id named twice two posts can end on one instant
  (`RepeatedIdDoubleBooks`, `ReorderDistinctIff`).
- Every entry of a channel mirrors its post's time only as long as no post that
  changes its time sits in two queues of the channel (`AddMirrorsIff`,
  `PrioritizeMirrorsIff`, `ReorderMirrorsIff`, and the same inputs), and no queued
  row is pinned by a repair (`RepairMirrorsIff`, `RepairReachesFurther`).
- The idempotency protocol survives a sweep if and only if no worker has outlived
  the 24 hours (`SweepKeepsIff`, `OverdueSweepBreaks`); a worker that loses the
  insertion race may also find the row gone when it looks again.
- The 30-second revocation bound holds if and only if a row is cached at the
  moment it is read and the verdict falls at the moment a copy is taken from the
  cache. Otherwise the bound is 30 seconds plus the two delays, and that is
  attained (`ThirtySecondsIff`, `AcceptedRecently`, `BoundIsTight`).
- The daily job promises a clone for each date not yet generated. It knows earlier
  clones by the caption that the source has now: a pass keeps one clone per date if
  and only if no date that it asks for and that lies ahead holds a clone of the rule
  and no post of that caption (`PassKeepsOnceIff`, and over runs `RunOnceIff`). So an
  edited caption makes a second clone on every date ahead (`EditedCaptionDoubles`,
  `CaptionEditInput`).
- The recurrence interval column admits zero, and a zero interval makes 180
  clones for one date (`ZeroIntervalIff`, `ZeroIntervalClones`); the editor's form
  alone rules it out.
- The quota parser, taken by itself, raises on a tier with a word whose value is all
  digits to `isdigit` and cannot be read by `int`: a superscript two, or more than
  4300 digits. Otherwise the numbers come back; the tier comes back if and only if
  it has no blank and is not all digits (`QuotaRoundTrip`, `SuperscriptTierRaises`).
  No caller passes such a tier: what the five limits of `apps/api/limits.py` print
  always comes back whole (`CallersRoundTrip`).
- The daily follower series adds up to the headline if and only if the window
  does not open with a rise and its totals never fall or never rise
  (`SeriesCoversHeadline`).

## Model

| member | source | states |
|---|---|---|
| PostingSlots.NextSlotDatetimes | apps/calendar/services.py:42-84 | for every schedule and count the walk returns the first `count` readings of the sixty-day lookahead (one, for a count of zero), so a larger count only extends a smaller one |
| PostingSlots.ReadingsMembers | apps/calendar/services.py:65-82 | the lookahead is what the day walk visits: the readings of slots on the weekday of one of the sixty local days from the baseline's day on that resolve to instants later than the baseline |
| PostingSlots.ReadingsFallDue | apps/calendar/services.py:65-82 | for every schedule the lookahead holds exactly the readings of a slot's time whose date is one of the sixty from the baseline's local date on, whose date ordinal modulo seven is that of the slot's day of the week counted from Monday, and that resolve later than the baseline |
| PostingSlots.WholeWeeksApart | apps/calendar/services.py:67-71 | two readings of one slot in the lookahead lie a whole number of weeks apart |
| PostingSlots.ReadingsOrdered | apps/calendar/services.py:54-82 | with slots read by weekday and time the walk visits the readings in wall-clock order, none twice |
| PostingSlots.HorizonIncreasing | apps/calendar/services.py:54-78 | for plain slots, in a zone that resolves later plain readings to later instants, the horizon is strictly increasing |
| PostingSlots.HorizonAfter | apps/calendar/services.py:77-78 | every instant of the horizon is later than the baseline |
| PostingSlots.OpenSplit | apps/calendar/services.py:138-141 | the search answers with the instant of the first reading that is not both plain and at an occupied instant, and with nothing exactly when every reading is both |
| PostingSlots.PrefixFullMeansFull | apps/calendar/services.py:135-137 | pigeonhole: when more candidates than occupied instants are all taken, the whole lookahead is |
| PostingSlots.AlwaysComplete | apps/calendar/services.py:135-141 | in a zone that reads plain instants back, fetching one candidate more than there are occupied instants loses no open slot, for every schedule and occupancy, clock changes included |
| PostingSlots.CompleteIff | apps/calendar/services.py:135-141 | for any candidates the bounded search equals the unbounded one, whatever is occupied, if and only if nothing new follows two plain candidates of one instant |
| PostingSlots.SoundIff | apps/calendar/services.py:76-78 | the search never answers with an occupied instant, whatever is occupied, if and only if every candidate reading is plain |
| PostingSlots.RepeatedHourDoubleBooks | apps/calendar/services.py:138-140 | in a zone of 24-hour days whose clock goes back once, on one date, and which satisfies the hypotheses of the other results, the slot in the repeated hour is handed out although the one occupied instant is its own |
| PostingSlots.PlainSearch | apps/calendar/services.py:138-141 | for plain candidates the search on readings is the search on their instants |
| PostingSlots.FirstFreeIsLeast | apps/calendar/services.py:127-141 | on an increasing horizon the answer is the earliest free slot: no later than any free slot |
| PostingSlots.NextAvailableSlot | apps/calendar/services.py:127-141 | the loop over the fetched candidates returns the first untaken one for every schedule; for plain slots it is the bounded search on instants |
| PostingSlots.Complete | apps/calendar/services.py:135-137 | on distinct instants the bounded search equals the unbounded one |
| QueueService.Store.SyncPost | apps/composer/services.py:22-63 | the post's cached time becomes the minimum of its children's times, which ends a proposed time, or is cleared when no child has one; workspace, author and all other posts stay |
| QueueService.Store.WriteSlot | apps/calendar/services.py:180-189 | the entry, the row on the queue's channel if there is one, and the aggregate all take the new instant; nothing else changes |
| QueueService.Store.EnsureEntry | apps/calendar/services.py:169-177 | an entry is appended behind the greatest position when the queue has none for the post, else nothing changes |
| QueueService.Store.AddPostNextAvailable | apps/calendar/services.py:192-217 | in every state, state and outcome are those of adding on the first free slot of the horizon; read off the rows: a published or publishing post stays, the queue is full exactly when every slot is held by another post's row that is neither, and otherwise entry, row and cached time go to the earliest slot not so held |
| QueueService.Store.ReslotToNextAvailable | apps/calendar/services.py:329-331 | re-slotting an entry is adding its post again |
| QueueService.Seek | apps/calendar/services.py:281-294 | the search loop that re-extends its candidates finds the first index of the horizon, from its start on, that is neither handed out nor to be avoided; it runs out only at the end of the horizon |
| QueueService.SortDescending | apps/calendar/services.py:279-280 | the movers are listed once each by descending index, those of one index by their place in the queue |
| QueueService.Store.Survey | apps/calendar/services.py:236-276 | the movers, their indices and places in the queue, and the instants to step over are those of the closed form |
| QueueService.Store.Climb | apps/calendar/services.py:278-298 | for any movers and instants to step over, the loop that writes as it goes succeeds exactly when the climb on values does and then has written its plan; where slots are distinct it has written nothing when it fails |
| QueueService.Store.Ladder | apps/calendar/services.py:264-299 | in every state outcome and plan are the closed form; in a channel without double booking a full queue is noticed before anything is written |
| QueueService.Store.TakeFirst | apps/calendar/services.py:248-262 | without a ladder the post takes the first slot, or the next gap when a foreign post holds it, or the queue is full |
| QueueService.Store.Prioritize | apps/calendar/services.py:220-299 | in every state, state and outcome are the closed form, a full queue changes nothing and a success gives instants to the post and movers only; read off the rows of a channel that holds no instant twice: if another entry of the queue is on the first slot, the post gets it and each waiting entry on the slots fetched goes to the next slot that nobody holds who stays, unless one finds none; otherwise nobody but the post moves |
| LadderWalk.WalkFacts | apps/calendar/services.py:278-298 | in every state a climb that ends has given each mover a slot after its own that need not be avoided, and no two the same |
| LadderWalk.WalkFitsIff | apps/calendar/services.py:278-292 | the climb succeeds if and only if every mover has as many open slots above it as there are movers on its slot or above, however movers that share a slot are ordered |
| LadderWalk.TakenIrrelevant | apps/calendar/services.py:278-298 | with movers on distinct slots, working downwards, slots already handed out never stand in a mover's way: its search finds the slot it would find alone |
| LadderWalk.CleanWalk | apps/calendar/services.py:278-298 | with movers on distinct slots the climb succeeds exactly when each has a slot to go to, and each then goes to the first one after its own that need not be avoided |
| LadderWalk.OnlyTopmostFails | apps/calendar/services.py:279-292 | with movers on distinct slots any mover below the topmost finds a slot, so only the first one processed can exhaust the horizon |
| LadderWalk.FirstEndsLower | apps/calendar/services.py:278-298 | of two movers on one slot the one climbed first ends on the lower slot, in every state |
| QueueService.Store.RemoveFromQueue | apps/calendar/services.py:302-326 | the entry goes; a row in one of the six statuses that lead back to draft becomes an untimed draft and loses all its entries on the channel; every other row and entry stays and the cached time follows |
| QueueService.Store.TransitionToDraft | apps/composer/services.py:221-283 | drafting a row clears its time, drops all its entries on the channel and resyncs the post |
| QueueService.Store.Collect | apps/calendar/services.py:356-368 | the entries considered are those named, in this queue and not history, in the order named |
| QueueService.Store.ReorderQueue | apps/calendar/services.py:347-383 | for every list of ids the state is that of handing the sorted held times out again in the named order and renumbering; for distinct ids the times rise in the order named, each instant keeps its number of holders, and no other row, entry or post changes |
| QueueService.Store.Reposition | apps/calendar/services.py:380-383 | positions become places in the dragged order; only entries loaded with another position are written |
| LadderLaws.AssignKeepsDistinct | apps/calendar/services.py:180-189 | writing distinct instants that no other live row holds keeps every channel free of double booking |
| LadderLaws.AssignKeepsAggregates | apps/composer/services.py:48-63 | writing slots leaves every post's cached time the minimum of its children's |
| LadderLaws.AssignMirrorsIff | apps/calendar/services.py:180-189 | every written entry mirrors its row; all entries of the database do if and only if no written post sits under another time in a second queue of the channel |
| LadderLaws.AddKeepsDistinct | apps/calendar/services.py:192-217 | adding keeps every channel free of double booking |
| LadderLaws.AddEffect | apps/calendar/services.py:192-217 | a successful add of a post that is not history puts its entry and row on the earliest unoccupied slot and touches no other row or entry |
| LadderLaws.EntryGoesLast | apps/calendar/services.py:169-177 | a new entry stands behind every entry of its queue, and no entry of the database changes |
| LadderLaws.AddIdempotent | apps/calendar/services.py:192-217 | adding a post again at the same moment changes nothing |
| LadderLaws.ReaddNeverLaterIff | apps/calendar/services.py:192-217 | adding a post that sits on an upcoming slot again succeeds without moving it later if and only if its slot or an earlier one is not held by another live row |
| LadderLaws.AddFullIff | apps/calendar/services.py:192-217 | the queue is full exactly when every slot of the horizon is held by another live post of the channel |
| LadderLaws.LadderOrder | apps/calendar/services.py:278-298 | in a channel without double booking a mover below another ends later than it was, no later than the other's old slot, and below the other: the operation keeps the order |
| LadderLaws.LadderFitsIff | apps/calendar/services.py:284-292 | in a channel without double booking the operation finds the queue full exactly when every slot after the topmost mover's is held by an immovable live post |
| LadderLaws.ShiftByOneIff | apps/calendar/services.py:220-226 | in a channel without double booking a mover's destination is the very next slot if and only if no immovable post holds that slot |
| LadderLaws.LadderPlanFacts | apps/calendar/services.py:278-299 | in every state the ladder hands out pairwise distinct instants of the horizon, the first one to the post and later ones than they had to the movers |
| LadderLaws.LadderPlanClear | apps/calendar/services.py:270-276 | in a channel without double booking nobody outside the ladder holds an instant that the ladder hands out |
| LadderLaws.PrioritizeKeepsDistinct | apps/calendar/services.py:220-299 | prioritizing keeps every channel free of double booking in every branch |
| LadderLaws.LadderEffect | apps/calendar/services.py:264-299 | in every state a successful ladder leaves the post on the first slot, every mover strictly later than it was, no two of them on one instant, and every other row of the database unchanged |
| LadderLaws.PrioritizeOutcome | apps/calendar/services.py:220-299 | in every state the call succeeds exactly when the target read from the state before it exists, in whichever order ties are climbed; a failure changes nothing |
| LadderLaws.PrioritizePlan | apps/calendar/services.py:220-299 | in every state a success writes the target, read from the state before the call, for the post, and otherwise instants for queued live movers only |
| LadderLaws.PrioritizeSparesHistoryIff | apps/calendar/services.py:206-207 | in every state history rows stay untouched if and only if the post is not itself history with another time than the target |
| LadderLaws.PrioritizeSparesPastIff | apps/calendar/services.py:206-207 | for a post whose time is past or missing: if and only if it is not history, or the queue is full |
| RowLaws.AddRows | apps/calendar/services.py:192-217 | in terms of statuses, times and entries alone: history stays where it is; the queue is full exactly when another post's row that is neither published nor publishing holds every slot; else the post goes on the earliest slot not held, behind all entries of the queue if it had none, and nothing else changes |
| RowLaws.PrioritizeRows | apps/calendar/services.py:220-299 | in terms of statuses, times and entries alone, on a channel that holds no instant twice: who moves, where to, when the queue is full, that everybody who moves goes later, and that without an entry of the queue on the first slot no row but the post's own changes |
| RowLaws.TiesKeepListing | apps/calendar/services.py:236-280 | in every state, double-booked channels included, of two moving posts that share an instant the one with the smaller position in the queue ends strictly earlier than the other |
| RowLaws.MovingIs | apps/calendar/services.py:236-271 | in every state the movers are the other posts of the queue whose rows, neither published nor publishing, wait for a time still to come among the slots fetched, two more than there are such posts |
| RowLaws.OccupiedIs | apps/calendar/services.py:106-124 | an upcoming instant is occupied exactly when another post's row on the channel that is neither published nor publishing is set for it |
| RowLaws.ApartIs | apps/calendar/services.py:90-98 | no double booking means that no instant is held by the rows of two posts that are neither published nor publishing |
| RowLaws.TimesCachedIs | apps/composer/services.py:22-63 | right aggregates mean that each post caches the earliest of its rows' times, and nothing when none has one |
| RowLaws.RemoveRows | apps/calendar/services.py:302-326 | in terms of statuses, times and entries alone: what a removal does to the row, which entries go, and that all others stay as they are |
| RowLaws.ReorderRows | apps/calendar/services.py:347-383 | for distinct ids, in terms of statuses, times and entries alone: the times rise in the order named, each instant has as many holders as before, a named entry's position is the number of sortable ids named before it, and nothing else changes |
| RowLaws.ReachedFrom | apps/composer/models.py:378-394 | for each status the statuses from which it can be reached |
| QueueEffects.EveryEntryShiftsIff | apps/calendar/services.py:220-226 | in a channel without double booking every movable entry shifts to the very next slot if and only if all sit among the first few slots fetched and no next slot is missing or held by an immovable post |
| QueueEffects.AddMirrorsIff | apps/calendar/services.py:180-217 | after an add every entry mirrors its row if and only if the post does not change its time while in a second queue of the channel |
| QueueEffects.PrioritizeMirrorsIff | apps/calendar/services.py:180-299 | after a prioritization, in every state, if and only if neither the post, when its time changes, nor any mover of a ladder that has room is in a second queue of the channel |
| QueueEffects.ReorderMirrorsIff | apps/calendar/services.py:347-383 | after a reorder with distinct ids, if and only if no moved post that changes its time is in a second queue of the channel |
| QueueEffects.AddHastensIff | apps/calendar/services.py:192-217 | an add makes another row due earlier if and only if it is a scheduled untimed child of the same post and the slot is earlier than the aggregate, or there was none |
| QueueEffects.PrioritizeHastensIff | apps/calendar/services.py:220-299 | the same, in every state, for a prioritization and its target; movers hasten nobody |
| QueueEffects.ReorderHastensIff | apps/calendar/services.py:347-383 | a reorder hastens exactly the scheduled untimed children of moved posts whose new time is earlier than their aggregate |
| QueueExamples.PrioritizeRewritesHistory | apps/calendar/services.py:248-262 | a published post, alone on its channel, is moved to the free first slot |
| QueueExamples.SomeEntryStaysPut | apps/calendar/services.py:241-271 | a queue in which a successful ladder leaves a movable entry where it is |
| QueueExamples.DoubleBookedLosesOrder | apps/calendar/services.py:278-298 | with two posts on one slot a mover ends above one that stood above it |
| QueueExamples.DoubleBookedIsFull | apps/calendar/services.py:284-292 | with two posts on the first of two slots the queue is found full, although the second slot is free |
| QueueExamples.ReaddMovesLater | apps/calendar/services.py:192-217 | with two posts on one slot, adding one of them again moves it later |
| QueueExamples.AddReachesFurther | apps/calendar/services.py:180-217 | an add to a state with nothing wrong that makes a sibling due earlier and leaves the entry of a second queue behind |
| QueueExamples.PrioritizeReachesFurther | apps/calendar/services.py:180-299 | a prioritization that does both |
| QueueExamples.ReorderReachesFurther | apps/calendar/services.py:347-383 | a reorder of two entries that does both |
| QueueExamples.DragReachesFurther | apps/calendar/services.py:522-557 | a drag onto the time of another post, and one that makes a sibling due earlier |
| QueueExamples.PublishReachesFurther | apps/calendar/services.py:650-661 | a publish at the minute of another post, and one that makes a sibling due earlier |
| QueueExamples.RepairReachesFurther | apps/calendar/services.py:472-488 | a repair of a state with nothing wrong but one dragged row that puts a sibling on the time of another post and leaves its entry without a time |
| LadderLaws.RemoveFreesIff | apps/calendar/services.py:302-326 | a removed live row loses its time unless its status is draft, pending review or pending client; the entry is gone and no other row changes |
| LadderLaws.RemoveKeepsDistinct | apps/calendar/services.py:302-326 | removing keeps every channel free of double booking |
| LadderLaws.RemoveKeepsAggregates | apps/calendar/services.py:302-326 | removing leaves every aggregate right |
| LadderLaws.RemoveNeverHastens | apps/calendar/services.py:302-326 | no scheduled sibling that falls back on the aggregate becomes due earlier by a removal |
| ReorderLaws.SortSorts | apps/calendar/services.py:370-378 | the held times come out in non-decreasing order and are the same multiset |
| ReorderLaws.ReorderedRows | apps/calendar/services.py:347-383 | with distinct ids the named movable rows hold the sorted times in the named order, and no other row or field changes |
| ReorderLaws.ReorderOrders | apps/calendar/services.py:347-353 | with distinct ids the named movable entries end with non-decreasing times in the order named |
| ReorderLaws.ReorderFrame | apps/calendar/services.py:347-368 | history rows, other channels and rows whose entry is not named keep their contents |
| ReorderLaws.RenumberedPlace | apps/calendar/services.py:380-383 | with distinct ids a named entry ends at the position of its place in the list |
| ReorderLaws.ReorderConserves | apps/calendar/services.py:347-353 | with distinct ids every instant of the channel is held by as many live posts after as before |
| ReorderLaws.DistinctIsCount | apps/calendar/services.py:90-98 | a channel is free of double booking exactly when no instant has two live holders |
| ReorderLaws.ReorderKeepsDistinct | apps/calendar/services.py:347-383 | with distinct ids a reorder keeps every channel free of double booking |
| ReorderLaws.ReorderDistinctIff | apps/calendar/services.py:347-383 | for every id list, repeated or not, the channel stays free of double booking if and only if no two posts' last places fall on equal sorted times |
| ReorderLaws.RepeatedIdDoubleBooks | apps/webapi/routers/scheduling.py:326-334 | two entries, one named twice: distinct times before, one shared time after |
| ReorderLaws.ReorderIdempotent | apps/calendar/services.py:347-383 | dropping the same distinct order again changes no row, entry, position or aggregate |
| ReorderLaws.ReorderKeepsAggregates | apps/calendar/services.py:347-383 | a reorder leaves every aggregate right |
| QueueRuns.StepSpares | apps/calendar/services.py:155-681 | an operation leaves alone every row that it neither names nor finds in its queue, and all history but the corrupt rows of a repair |
| QueueRuns.RunSparesOutsiders | apps/calendar/services.py:155-681 | over any run of operations about others, a post outside the channel's queues keeps its row and stays outside |
| QueueRuns.RunIsSafe | apps/calendar/services.py:155-681 | over any run of add, prioritize, re-slot, remove, reorder, drag, bulk action and repair, every aggregate stays the minimum of the children, and no history row changes or loses its post, but for corrupt rows that a repair puts back |
| QueueRuns.RunApartIff | apps/calendar/services.py:155-681 | over any such run no channel is ever double-booked if and only if no drag, publish or pinning comes to a time held by another live row |
| QueueRuns.QueueRunIsSafe | apps/calendar/services.py:155-383 | over any run of queue operations alone no channel is ever double-booked, every aggregate stays right and no history row changes |
| QueueRuns.RunStaysTidy | apps/calendar/services.py:155-681 | over any run in which nobody queues a post twice on a channel and no repair pins a queued row, every entry mirrors its post's time |
| CalendarDrag.ReschedulePlatformPost | apps/calendar/services.py:522-557 | which drags are refused and why, that a refusal changes nothing, and otherwise the row, entries and aggregate at the new time |
| CalendarDrag.DragRows | apps/calendar/services.py:522-557 | a draft or failed row becomes scheduled, a failed one without its failures, every other keeps its status; all entries of the post on the channel and its cached time follow; nothing else changes |
| CalendarDrag.DragKeepsDistinctIff | apps/calendar/services.py:522-557 | a drag keeps the channel free of double booking if and only if no other live row holds the new time |
| CalendarDrag.DragKeepsMirrors | apps/calendar/services.py:555-556 | entries that mirrored their rows still do, in every queue of the channel |
| CalendarDrag.DragKeepsAggregates | apps/calendar/services.py:557 | a drag leaves every aggregate right |
| CalendarDrag.DragHastensIff | apps/calendar/services.py:543-557 | a drag makes another row due earlier if and only if it is a scheduled untimed child of the same post and the new time is earlier than the aggregate, or there was none |
| PublishedRepair.Repair | apps/calendar/services.py:386-507 | the statements in their order produce the repaired state, a dry run changes nothing, and both report the same counts and list each affected row once with its old and new time |
| PublishedRepair.RepairRows | apps/calendar/services.py:386-507 | the published rows, of the workspace if one is given, that are set for later than they were published go back to their publish instants with the entries still behind them; their scheduled untimed siblings get their post's time; the cached times of these posts are recomputed; nothing else changes |
| PublishedRepair.ListAffected | apps/calendar/services.py:419-447 | the listing is exactly the affected rows, once each, by the time they had |
| PublishedRepair.RepairTouchesOnly | apps/calendar/services.py:454-496 | each corrupt row takes its publish instant, its entries still showing a later slot follow it, and apart from followers of the same posts nothing else changes |
| PublishedRepair.RepairLeavesNone | apps/calendar/services.py:386-404 | no published row in scope is left scheduled after its publish instant |
| PublishedRepair.RepairIdempotent | apps/calendar/services.py:400-404 | repairing again changes nothing |
| PublishedRepair.RepairKeepsDueIff | apps/calendar/services.py:472-488 | every scheduled row keeps its due time if and only if no repaired post lacks an aggregate that a scheduled child falls back on |
| PublishedRepair.RepairNeverHastens | apps/calendar/services.py:472-496 | with aggregates right, the repair leaves every scheduled row's due time as it was although aggregates move into the past, and aggregates stay right |
| PublishedRepair.RepairKeepsDistinctIff | apps/calendar/services.py:472-488 | the repair keeps a channel free of double booking if and only if no row that it pins comes to a time held or pinned on the channel |
| PublishedRepair.RepairMirrorsIff | apps/calendar/services.py:472-496 | after the repair every entry mirrors its row, if all did before, if and only if no pinned row is queued |
| BulkActions.BulkPlatformAction | apps/calendar/services.py:598-681 | which inputs are bad, which are denied, that neither changes anything, and otherwise the count and the whole new state, a republished failed row starting over |
| BulkActions.BulkRows | apps/calendar/services.py:598-681 | an action takes the named rows of the workspace that the user may edit, for a draft those approved, rejected, scheduled, failed, on hold or with changes requested, for a deletion all but published and publishing ones, for a publish the drafts, approved, scheduled and failed ones; these alone are drafted, deleted or scheduled a minute apart in the order in which they fell due, with their entries and posts |
| BulkActions.Apply | apps/calendar/services.py:630-671 | the loop with its per-channel counters acts on exactly the rows the action applies to, in order, with the staggered times |
| BulkActions.SyncQueueEntries | apps/calendar/services.py:581-595 | entries of acted-on rows are dropped, or moved to the row's new time |
| BulkActions.SettlePosts | apps/calendar/services.py:674-680 | touched posts without children are deleted with their entries, the others resynced |
| BulkActions.ActedMembers | apps/calendar/services.py:631-658 | the rows acted on are exactly the selected ones to which the action applies, once each |
| BulkActions.DraftsAndDeletions | apps/calendar/services.py:630-649 | deleting removes exactly the rows acted on, drafting leaves them untimed drafts, and every other row is as it was |
| BulkActions.PublishStaggers | apps/calendar/services.py:651-661 | the acted-on rows of each channel get now, now plus one minute, and so on, without gap or repeat, and are scheduled |
| BulkActions.PublishFollowsDueOrder | apps/calendar/services.py:621-626 | that staggering follows the rows' previous effective times, missing ones last |
| BulkActions.HistorySurvives | apps/calendar/services.py:601-603 | no bulk action changes or deletes a published or publishing row, or deletes its post |
| BulkActions.DeletedIffChildless | apps/calendar/services.py:674-680 | exactly the touched posts that end childless are deleted |
| BulkActions.MirrorsFollow | apps/calendar/services.py:581-595 | a drafted or deleted row's entries are gone; a published row's entries all survive and show its new time, with nothing else about them changed |
| BulkActions.PublishKeepsDistinctIff | apps/calendar/services.py:650-661 | publishing keeps a channel free of double booking if and only if no live row that is not acted on holds one of the minutes handed out |
| BulkActions.BulkKeepsAggregates | apps/calendar/services.py:680 | bulk actions leave every aggregate right |
| BulkActions.BulkKeepsMirrors | apps/calendar/services.py:581-681 | if every entry mirrored its row, every entry left by a bulk action does |
| BulkActions.PublishHastensIff | apps/calendar/services.py:650-680 | publishing makes a row that is not acted on due earlier if and only if it is a scheduled untimed child of a post that gets a minute earlier than its aggregate, or had none |
| PostDeltas.PostSummedSeries | apps/analytics/services.py:161-263 | the single pass leaves every day with exactly the credits of the posts' histories, touches no day outside the window, and returns the freshest capture time |
| PostDeltas.LatestIsGreatest | apps/analytics/services.py:218-262 | the freshest capture time is that of some row and no row was captured later |
| PostDeltas.OneRowMore | apps/analytics/services.py:218-256 | one row more credits only its own day or, for a first observation, the days since publication: what it rises above the highest reading of its post so far, or its first share |
| PostDeltas.CreditFirst | apps/analytics/services.py:232-256 | a first observation adds its share to each day: all on the snapshot's day, nothing, or an even spread since publication |
| PostDeltas.HistoryConserved | apps/analytics/services.py:192-217 | one post's credits add up to its high-water mark, less the first reading for a post from before the window; a reset and recovery is not paid twice |
| PostDeltas.Conservation | apps/analytics/services.py:161-263 | the total credited over the window is the sum of what each post is worth |
| PostDeltas.CreditNonNegative | apps/analytics/services.py:257-262 | counters that are never negative yield daily credits that are never negative |
| PostDeltas.OneHistoryPerPost | apps/analytics/services.py:220-228 | in rows ordered by post the histories partition the rows and no two belong to one post |
| FollowerGrowth.Growth | apps/analytics/services.py:491-534 | the series has exactly `days` non-negative values, each the rise of its day's total over the total before, adding up to the rises over the window; the headline is the last total less the first on or after the window's start, never negative |
| FollowerGrowth.WindowDelta | apps/analytics/services.py:506-510 | the headline of a window: zero with fewer than two totals, else last minus first, never negative |
| FollowerGrowth.DailySeries | apps/analytics/services.py:520-528 | the day-by-day loop over a dictionary gives each day the rise of its total over the one before it, nothing without either, and so accounts for every rise between consecutive totals exactly once |
| FollowerGrowth.PreviousTotal | apps/analytics/services.py:516-519 | the backwards search finds the last total before the window, if there is one |
| FollowerGrowth.RisesAndFalls | apps/analytics/services.py:520-528 | rises minus falls is the net change, and either vanishes exactly when the totals are monotone |
| FollowerGrowth.SeriesCoversHeadline | apps/analytics/services.py:491-534 | the series adds up to at least the headline, and to exactly it if and only if the window opens without a rise and its totals never fall or never rise |
| FollowerGrowth.FreshAndGrowing | apps/analytics/services.py:491-534 | with no earlier total and no falls the series adds up to last minus first |
| SyncCadence.PostSyncInterval | apps/analytics/tasks.py:41-61 | the table walk yields an hour up to a day of age, six hours up to a week, a day up to thirty days, a week up to ninety, and none from there on |
| SyncCadence.SyncedIff | apps/analytics/tasks.py:598-628 | a tick that can write a snapshot does so exactly in the first ninety days and no sooner after the latest one than the hour, six hours, day or week that the post's age asks for |
| SyncCadence.LifetimeBound | apps/analytics/tasks.py:598-628 | whatever the tick times and however many backfills intervene, at most 79 snapshot-writing syncs of one post in its life |
| SyncCadence.BoundIsTight | apps/analytics/tasks.py:729-731 | some run performs exactly 79 |
| Idempotency.Records.TryInsert | apps/api/middleware.py:172-181 | the insert succeeds exactly when the slot is vacant and then adds one pending row under a new identity |
| Idempotency.Records.Claim | apps/api/middleware.py:137-193 | the disposition and the table for every kind of caller, key and existing row, whatever others have made of the table between the insert and the second look |
| Idempotency.Records.LookAgain | apps/api/middleware.py:182-193 | what a worker that lost the race is told, on whatever it finds by then, a vanished row included |
| Idempotency.Records.Finalize | apps/api/middleware.py:196-214 | an existing row gets the response and keeps its fingerprint; a missing one is not created |
| Idempotency.Records.Release | apps/api/middleware.py:217-235 | only a pending row is deleted |
| Idempotency.Records.Sweep | apps/api/tasks.py:34-55 | exactly the rows created more than 24 hours ago go, answered or not, and every other row is left as it was |
| Idempotency.StepKeeps | apps/api/middleware.py:137-235 | every step but an untimely sweep keeps the protocol's invariant |
| Idempotency.SweepKeepsIff | apps/api/tasks.py:41-48 | a sweep keeps the invariant if and only if no worker has held its slot for more than 24 hours |
| Idempotency.ProtocolIsSafe | apps/api/middleware.py:137-235 | under every interleaving without overdue workers at most one worker holds a slot, and every replay returns what the row's own claimer answered for the same fingerprint |
| Idempotency.RowsKeepTheirFingerprint | apps/api/middleware.py:205-214 | over any run, overdue sweeps included, a row keeps its slot, fingerprint and age for as long as it exists, and a deleted row never comes back |
| Idempotency.AnswersStay | apps/api/middleware.py:196-214 | over any run without overdue workers an answered row stays exactly as it is for as long as it exists |
| Idempotency.AnswersLast | apps/api/tasks.py:41-54 | over any run without overdue workers an answered row that is at most 24 hours old at the end is still in its slot, unchanged |
| Idempotency.RetriesAreReplayed | apps/api/middleware.py:182-193 | so a retry with its fingerprint is told its answer for at least 24 hours |
| Idempotency.SweepTakesTheOld | apps/api/tasks.py:41-54 | after a sweep no row older than 24 hours is left, and every row no older is as it was |
| Idempotency.FailureFreesTheSlot | apps/api/middleware.py:217-235 | after a failed request of its holder the slot is vacant and the next request claims it |
| Idempotency.OverdueSweepBreaks | apps/api/tasks.py:41-48 | an overdue worker swept from under its slot leads to two holders and to a replay its claimer never gave |
| ApiKeys.ParseIff | apps/api_keys/services.py:93-120 | parsing accepts exactly the tokens issuance prints from a secret of 32 to 64 characters, and returns that secret, underscores and all |
| ApiKeys.Verifier.VerifyToken | apps/api_keys/services.py:331-403 | for every token the verdict is the key exactly when the row at hand, cached or fresh, is unrevoked, has no expiry or one still to come, has the secret's digest, and has an issuer among the members; what is cached afterwards, an expired or revoked row never; it is the undisturbed sequence of the protocol's steps |
| ApiKeys.StoreKeepsActiveOnly | apps/api_keys/services.py:349-371 | a row that is revoked or expired at the store is not cached, any other for thirty seconds |
| ApiKeys.ChangesTakeEffect | apps/api_keys/services.py:289-328 | where a key was revoked or its expiry edited, the very next verification goes by the row as it is then, whatever was cached there |
| ApiKeys.RevocationStands | apps/api_keys/services.py:297-300 | over any run a revoked key stays revoked as of its first revocation |
| ApiKeys.StepKeeps | apps/api_keys/services.py:289-383 | cache reads, fetches, late stores, checks, verdicts, revocations, edits, membership changes and evictions keep every copy no older than the bound |
| ApiKeys.AcceptedRecently | apps/api_keys/services.py:289-300 | whichever cache answered, an accepted key was, at a moment of the run less than 30 seconds plus both delays before, the unrevoked row of the database; its expiry, if it has one, was later than the check, its issuer was a member at acceptance, and acceptance ends within that bound of a revocation |
| ApiKeys.CopiesAreReal | apps/api_keys/services.py:349-403 | over every run each copy in a cache, a request or an acceptance was the database row at the moment it was read, and each accepted key's issuer was among the members of the moment of acceptance |
| ApiKeys.ThirtySecondsIff | apps/api_keys/services.py:292-295 | no run accepts a key 30 seconds or more after its revocation if and only if both delays are zero: from reading a row to storing it, and from having a copy to the verdict |
| ApiKeys.BoundIsTight | apps/api_keys/services.py:348-383 | for every pair of delays some run accepts a key in the last moment the bound allows |
| LinkedIn.EscapeCommentary | providers/linkedin.py:69-85 | backslash first, then one whole-string replacement per reserved character, is one single pass over the fifteen characters: added escapes are never escaped again |
| LinkedIn.ReplaceExtends | providers/linkedin.py:82-84 | replacing one more character in an escaped text gives the escape for one more character |
| LinkedIn.EscapeRoundTrip | providers/linkedin.py:69-85 | a one-pass unescape gives the caption back, and no reserved character is left unescaped |
| LinkedIn.UnescapeRoundTrip | providers/linkedin.py:69-85 | every well-escaped text is the escape of its unescape |
| LinkedIn.EscapeInjective | providers/linkedin.py:69-85 | different captions escape differently |
| LinkedIn.WireLengthIsEscapedLength | providers/__init__.py:48-67 | the length counted for every caption is the length of what is sent: escaped for the two LinkedIn platforms, as it is for every other |
| QuotaMessage.DecimalReads | apps/api/limits.py:166-172 | a printed number is non-empty, all digits, and reads back as itself |
| QuotaMessage.WordsSplit | apps/api/api.py:270 | splitting distributes over any blank, whatever stands on either side |
| QuotaMessage.ParseQuotaMessage | apps/api/api.py:262-284 | the loop fills the dictionary with the key and value of every word with an equals sign, later ones winning, and the headers follow its numbers; an unreadable value ends it without an answer |
| QuotaMessage.PartsFailIff | apps/api/api.py:273 | parsing fails exactly when the value of some word cannot be read |
| QuotaMessage.PartsRaiseIff | apps/api/api.py:273 | parsing raises exactly when in some word what follows the first equals sign is not empty, all digits, and longer than 4300 or with a digit that has no decimal value |
| QuotaMessage.HeadersCarry | apps/api/api.py:274-284 | whatever was parsed, each of the three headers is there exactly when its key has a number, and carries it; there is no other header |
| QuotaMessage.QuotaRoundTrip | apps/api/limits.py:166-172 | for every message that can be printed, parsing raises exactly when a word of the tier has such a value; otherwise limit, remaining and retry time come back; the tier comes back if and only if it has no blank and is not all digits |
| QuotaMessage.CallersRoundTrip | apps/api/limits.py:155-282 | whatever the enforced limits print is read back whole: the dictionary holds the error, the tier and the three numbers and nothing else |
| QuotaMessage.TiersDiffer | apps/api/limits.py:155-282 | the tier in the message tells which limit was hit, and for which platform |
| QuotaMessage.SuperscriptTierRaises | apps/api/api.py:273 | a tier that is one non-decimal digit, which no caller passes, would make the parser raise, whatever the numbers |
| QuotaMessage.NumbersPrint | apps/api/api.py:274-284 | every number of a parsed dictionary is short enough to be printed into its header |
| QuotaMessage.QuotaHeaders | apps/api/api.py:274-284 | whenever parsing succeeds the three headers carry the three numbers printed |
| Recurrence.ComputeRecurrenceDates | apps/calendar/tasks.py:147-168 | the bounded loop returns the dates of the recurrence after the base and up to the end, at most 180 |
| Recurrence.DatesAreSeries | apps/calendar/tasks.py:147-168 | each date follows the one before it by the rule's step, none is past the end, there are at most 180, and where there are fewer the next one would be past the end |
| Recurrence.DatesIncrease | apps/calendar/tasks.py:147-168 | with an interval of at least one the dates strictly increase, after the base and no later than the end |
| Recurrence.DatesAreMultiples | apps/calendar/tasks.py:152-166 | a daily or weekly rule asks for exactly the multiples of its step up to the end, or the first 180 of them |
| Recurrence.WantedFacts | apps/calendar/tasks.py:59-76 | the dates a clone is made for are exactly those asked for that lie ahead and are not taken, each once when the dates are distinct |
| Recurrence.WithClonesAt | apps/calendar/tasks.py:78-138 | afterwards there is one clone per wanted date, under a new number each, and every earlier post is as it was |
| Recurrence.Library.GenerateForRule | apps/calendar/tasks.py:20-140 | a pass over a rule clones the source for exactly the dates ahead that no post of its caption occupies, and stamps the rule; an untimed source is passed over |
| Recurrence.PassFillsIn | apps/calendar/tasks.py:20-138 | afterwards every post that was there is as it was; each date of the ninety days that is missing has a new post, every new post is for one of them, and it has the source's content and media and as many children, in order, with the same accounts and overrides, scheduled, each as far from the source's local time on that date as the source's child was from the source's time, untimed ones untimed |
| Recurrence.StampedRules | apps/calendar/tasks.py:139-144 | exactly the rules with a timed source are stamped, with the time of the run |
| Recurrence.Library.CloneWanted | apps/calendar/tasks.py:74-138 | one clone under a new number per wanted date, in order, and nothing else changes |
| Recurrence.Library.GenerateRecurringPosts | apps/calendar/tasks.py:20-144 | the daily job is one pass after another over the rules, each in its own zone; the total counts the new posts and each rule with a timed source is stamped |
| Recurrence.CloneOnItsDate | apps/calendar/tasks.py:90-121 | a clone of a synced source lands at the source's local time on the date it was made for, after its own sync |
| Recurrence.SecondPassIdle | apps/calendar/tasks.py:59-76 | a second pass over a rule on the same day wants no clone |
| Recurrence.PassKeepsOnceIff | apps/calendar/tasks.py:59-76 | a pass over any version of a rule keeps one clone per date if and only if no date that it asks for and that lies ahead holds a clone of the rule and no post of the source's caption |
| Recurrence.JobTwiceIsOnce | apps/calendar/tasks.py:20-144 | for rules over old sources that are synced with their children: running the daily job over all of them again, while it is still the same day for each, makes and changes no post |
| Recurrence.NeverTwiceOnADate | apps/calendar/tasks.py:20-144 | over any run of passes over any versions of a rule, mixed with other rules and with posts coming, going and being edited, the rule never has two clones on one local date as long as its source keeps workspace and caption and edited clones keep theirs and their dates |
| Recurrence.RunOnceIff | apps/calendar/tasks.py:20-144 | over any run in which the rule, its source and all posts may be edited at will, the rule never has two clones on one date if and only if no pass overlooks a clone in that way and no edit moves one onto another |
| Recurrence.EditedCaptionDoubles | apps/calendar/tasks.py:59-72 | after the source gets a caption that no other post of its workspace has, the next pass of the same day puts a second clone on every date the last one made a clone for |
| Recurrence.CaptionEditInput | apps/calendar/tasks.py:59-72 | a daily rule with one date ahead whose edited caption puts two clones on that date |
| Recurrence.ZeroIntervalIff | apps/calendar/models.py:147-150 | with an interval of zero a pass keeps one clone per date if and only if the source's own date is past, beyond the end or taken; otherwise it makes 180 |
| Recurrence.ZeroIntervalClones | apps/calendar/models.py:147-150 | a daily rule of interval zero, five days ahead, fills its own date with 180 clones |
| Reminders.Reminding.ProcessStage | apps/approvals/tasks.py:48-91 | a pass looks once at the row of each post with a child in the stage and no update for the threshold, sends what that row calls for, and leaves all other rows and the other stage alone |
| Reminders.PassOnOneRow | apps/approvals/tasks.py:48-91 | what a pass sends and leaves for any one row: it concerns it exactly when the post waits in the stage untouched for a day, or two for the client; after two reminders it escalates once, until then it reminds unless the last reminder is not that long ago |
| Reminders.Reminding.CheckApprovalReminders | apps/approvals/tasks.py:24-45 | the hourly job is a pass for each stage, one after the other |
| Reminders.Reminding.Look | apps/approvals/tasks.py:64-91 | the row and the notice after one look: escalation after two reminders and only once, cooldown, else a reminder |
| Reminders.Reminding.Reset | apps/approvals/services.py:117-121 | submitting, advancing to the client and resubmitting make the row fresh again |
| Reminders.FreshIsMeasured | apps/approvals/tasks.py:48-91 | from a fresh row, whatever the look times: at most two reminders, at least the threshold apart, then at most one escalation |
| Reminders.LookSends | apps/approvals/tasks.py:64-91 | when exactly a look sends a reminder, when an escalation and when nothing |
| Reminders.RunProjects | apps/approvals/tasks.py:48-91 | a run of passes and resets over the whole table is, to each row, the looks and resets that concern it, in what it leaves and in what it sends |
| Reminders.BetweenResets | apps/approvals/services.py:341-345 | in any run of passes and resets over the table, from a reset of a row until its next: at most two reminders about it, at least the threshold apart, then at most one escalation |

## Left out

- Provider HTTP, OAuth, uploads and polling: network plumbing.
- The database, its transactions and its locks as such: an atomic block is one step.
- Time-zone databases: a zone is a handful of functions, with the properties each result needs as hypotheses.
- The queue operations on a schedule with a slot that a clock change skips or repeats; the walk and the search are modelled for it, and there the fault shows.
- Floating-point rounding in the analytics values, and the percentage change beside a headline.
- `account_analytics_bundle`, which merges the fallback series with account snapshots.
- Cryptography: the lookup digest and the peppered digest are functions; the lookup is eight characters without an underscore.
- The permission and account lists of a cached API key; only expiry, revocation, secret and issuer are followed.
- Notifications, e-mails, audit rows, admin pages, URLs and the web interface.
- The choice between equal times in an ordered query: it is left open, so the results hold for every choice.
- `add_to_queue`, which only dispatches.
- The word-level text difference shown in approvals.
- The display names in the repair's listing.
- Recurrence.RunOnceIff: the workspace's time zone does not change during a run, as the dates of the clones are read in it.
