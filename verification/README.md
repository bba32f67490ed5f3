# Verified models of drogon's inline state machines

The repository's headers carry a handful of real algorithms. This project models seven of them in Dafny and proves what
each is for. `dafny verify dfyconfig.toml` checks everything.

**Expiring cache and timing wheels** (`drogon/CacheMap.h`; `Wheel`, `WheelSteps`, `CacheModel`, `ExpiringMap`,
`CacheRefinement`, `CacheRuns`, `CacheRelease`, `CacheTheorems`, `CacheWrites`, `CacheMap`). An entry for a delay of d ticks goes into
one of W wheels of B buckets; when it is too far away for a wheel it is wrapped in a closure that will put it back one
wheel lower. The abstract schedule `Pending` is the set of pairs (leaf, release tick) that the nested entries stand for.
Every step of the wheels keeps it, an insertion adds one pair, and a leaf comes out exactly in its tick. On top of that,
`CacheModel` is an interleaved machine: the loop thread ticks wheel by wheel, destroys buckets entry by entry and runs
callbacks, while any number of users call the operations. A timed hit takes three steps, because the loop thread can
move in between: it locks or makes the strong pointer, puts it into a bucket under the bucket lock, and lets go of its
local copy at the end of `eraseAfter`, still under `mtx_`. The machine refines `ExpiringMap`, a plain map whose timed
items carry a deadline: a hit moves it to `max(deadline, release tick)`, and an item vanishes exactly at its deadline.
`CacheMap` is the class itself, with its loops, proved operation by operation against the same map.

Insertion in the middle of a tick was the delicate point. The tick counter is bumped before the wheels turn, so a user
can insert between two wheels' turns. `WheelSteps.FireTick` gives the precise release tick: B^k ticks earlier than
otherwise if the wheel k the entry lands in still has to turn in the tick in progress. It is never late, and it can be
the tick in progress itself.

The end of `eraseAfter` can go wrong, and `CacheRelease` says exactly when. If the loop thread serves the bucket just
filled before the local pointer goes, that pointer is the last one, the entry's destructor runs the expiry callback on
the user's thread, and the callback locks the `mtx_` that this thread holds. `SelfLockRun` is such a run, from the empty
cache. `LocksItselfOutIff` gives the exact condition on every run, `StuckForEver` what follows, and `PromptRunsFree` a
condition a caller can keep: no hit is still under way when the bucket its insertion is due in has been served. The
refinement holds on all runs, stuck ones included; only the theorems that promise progress speak of prompt runs.

**Coroutine mutex** (`drogon/utils/coroutine.h`; `CoroMutex`, `CoroMutexClass`). One atomic word and a heap of awaiters,
interleaved over any number of threads with one shared access a step; compare-and-swap may fail spuriously, the load
before the loop may be stale, and a freed awaiter address may be used again. The queue is `reverse(half-reversed rest)
++ waiters_ ++ reverse(stack)`. Every step is an event of a FIFO queue lock. The class version proves the in-place
reversal of `unlock`.

**Publish/subscribe registry** (`drogon/PubSubService.h`; `PubSub`, `PubSubClass`). Interleaved steps with the
shared/unique lock and the gap between the two critical sections of subscribe and unsubscribe.

**Plugin initialisation** (`drogon/plugins/Plugin.h`; `Plugin`). The three-colour search over an arbitrary, possibly
cyclic object graph.

**ORM statements** (`drogon/orm/Mapper.h`, `drogon/orm/Criteria.h`; `Strings`, `Numerals`, `Sql`, `Criteria`, `Statements`,
`Cleanness`, `Mapper`, `Pages`). A statement as it is meant is a sequence of characters and argument values. The code
prints it with `$?` holders, rewrites these for the dialect and pushes the arguments beside. `Read` is what a database
sees in the text: PostgreSQL a parameter at a dollar sign and digits, MySQL at a question mark, SQLite at a question
mark with or without digits, and at a name. The results: each operation hands over exactly the rendering and the
arguments of the meant statement, and a database puts them back together to that statement if and only if the
statement's own text has nothing that reads as a parameter.

**Chunked response writer** (`drogon/HttpResponse.h`; `ResponseStream`). The writer against a decoder written from
section 7.1 of RFC 9112, with chunk extensions and trailer fields.

**Relay conversion** (`Relay.cpp`; `Relay`). The early-exit search of the application's own code against the declarative
rule.

## Where the code does not do what one would expect

- `CacheRelease.SelfLockRun`: a timed hit can lock itself out for ever when the next tick comes before `eraseAfter`
  returns; see above.
- `SqlText.NamesMistaken`: a question mark in a name is a parameter too many for MySQL and SQLite, `$1` in a name is
  one for PostgreSQL, and a digit behind a holder changes the parameter for SQLite. `SqlText.DialectsAgree` and the
  `Understood` lemmas of `OrmCleanness` give the exact condition.
- `Pagination.SecondPageLost`: a custom criteria moves its temporary arguments out when it pushes them, so the second
  query with the same object may push something else. `Pagination.SamePagesIff` gives the exact condition.
- `OrmCriteria.Criteria.Compare`: the constructor for one value lets the operators In and NotIn through its assertion
  and then binds an argument without a holder. Its contract says exactly when holders and arguments balance.
- `ResponseStreamClass.RoundTripIff`: an empty payload prints the terminator, so the round trip holds exactly for the
  streams without one.
- `RelayConversion.SearchMeetsRule`: the search gives up after two nets. It agrees with the rule unless ground comes
  later than that; `RelayConversion.ThirdNetMissed` is a relay whose pull-down is on three nets.
- `RelayConversion.Relay.RelayConvert`: a relay whose connection has no expander, or none with a number, makes `stoi`
  throw; the rows up to there are kept.
- `TimingWheel.ExactFiring`: a delay beyond B^W is released early, by exactly (d_top - B) * B^(W-1) ticks.
- The comment on `insert` promises erasure within the timeout after the last access. The code waits for `timeout /
  tickInterval + 1` ticks, so a timed item is kept for up to one tick interval longer; the model follows the code.

## Model

| member | source | states |
|---|---|---|
| TimingWheel.ExactFiring | drogon/CacheMap.h:470-506 | For all W, B, counters t and delays d >= 1: placed between ticks, through however many cascades, the entry is released at t + d, less (d_top - B) * B^(W-1) if d_top exceeds B; d <= B^W is never clamped, and the release is never late and always after t |
| TimingWheel.InRange | drogon/CacheMap.h:477-505 | A delay within B^W reaches a wheel where it fits |
| TimingWheel.Config.TicksMeaning | drogon/CacheMap.h:475 | A delay in seconds is less than its number of ticks, and not less than one tick fewer |
| TimingWheel.DueAfterTurn | drogon/CacheMap.h:486-495 | The release tick of a wrapped entry is not before the rotation that takes it out, and strictly after it above wheel 0 |
| WheelSteps.StartTickKeeps | drogon/CacheMap.h:118 | Bumping the counter before the wheels turn changes no release tick |
| WheelSteps.TurnWheelKeeps | drogon/CacheMap.h:120-134 | Rotating wheel i when B^i divides the counter changes no release tick |
| WheelSteps.PutInAdds | drogon/CacheMap.h:481 | Putting an entry into a bucket adds exactly its (leaf, release tick) to the schedule |
| WheelSteps.CascadeKeeps | drogon/CacheMap.h:487-495 | Destroying a closure re-inserts what it carries one wheel lower and changes no release tick; this needs the lower wheel to have turned already |
| WheelSteps.LeafDropsOnTime | drogon/CacheMap.h:124-133 | A leaf comes out of wheel 0 in exactly the tick its schedule says, and no other pair goes |
| WheelSteps.PendingLater | drogon/CacheMap.h:118-135 | Nothing in the wheels is overdue, and after wheel 0 has been served nothing is due now |
| WheelSteps.AddSchedules | drogon/CacheMap.h:470-506 | Phase-precise firing: inserted at any moment of a tick, an entry is scheduled for t + d less the clamp, or B^k earlier if its wheel k still has to turn in this tick; never late |
| CacheModel.ReferencedIffScheduled | drogon/CacheMap.h:514-519 | A leaf's reference count is positive exactly when the schedule holds it |
| CacheRefinement.ExpiresIffOwn | drogon/CacheMap.h:532-545 | The test in the expiry callback succeeds exactly for the timed cell whose own leaf has just died |
| CacheRefinement.BeginHitStep | drogon/CacheMap.h:508-553 | Taking or making the strong pointer, with the bucket lock not yet taken, keeps the refinement |
| CacheRefinement.PutHitStep | drogon/CacheMap.h:521-557 | The bucket insertion of a hit moves the deadline to the maximum of the old one and the release tick |
| CacheRefinement.ReleaseStep | drogon/CacheMap.h:524-559 | Letting go of the local pointer at the end changes nothing abstractly, whether or not it was the last one |
| CacheRefinement.ExpiryStep | drogon/CacheMap.h:528-551 | A callback removes its key exactly when the deadline is now, and otherwise changes nothing |
| CacheRefinement.InsertStep | drogon/CacheMap.h:217-234 | Insert, with the hit it begins, leaves the item of a present key as it is and gives an absent one an item of the arguments, and keeps the refinement |
| CacheRefinement.ModifyStep | drogon/CacheMap.h:312-333 | Modify hands the stored or a default value to the handler, and with the hit it begins keeps the refinement; a present key keeps its own timeout |
| CacheRefinement.StepRefines | drogon/CacheMap.h:217-396 | Every enabled step of every thread is an allowed event of the expiring map |
| CacheWrites.InsertKeepsPresent | drogon/CacheMap.h:217-234 | In the step machine insert keeps value, timeout and incarnation of a present key, gives an absent one the arguments, and changes no other key |
| CacheWrites.ModifyHandles | drogon/CacheMap.h:312-333 | Modify hands the stored value or a default to the handler; a present key keeps its own timeout, and no other key changes |
| CacheWrites.HitBegins | drogon/CacheMap.h:508-520 | Every operation that hits takes hold of the key's live leaf, or of a new one, for the timeout it has to hit for |
| CacheWrites.HitSchedules | drogon/CacheMap.h:521-525 | And that leaf is scheduled once more, for that timeout; no cell changes |
| CacheWrites.OnlyModifyWrites | drogon/CacheMap.h:217-396 | Over every run of any interleaving, a key of the same incarnation has the same timeout, and its value is the old one after the handlers of the run's modifications in their order; nothing else writes it |
| CacheWrites.InsertedStands | drogon/CacheMap.h:217-234 | What an insertion puts into the cache stands on every run until it is modified or goes, whatever is inserted for the key later |
| CacheRuns.RunRefines | drogon/CacheMap.h:217-559 | Over every run of any interleaving, those with a stuck hit included, the cache agrees with the expiring map |
| CacheRelease.LocksItselfOutIff | drogon/CacheMap.h:514-559 | On every run, letting go of the local pointer locks the hit out if and only if no reference to its leaf is left, that is, if and only if the wheel-0 bucket of the last tick the leaf was scheduled for has been served; that tick is not before the one of the hit's own insertion |
| CacheRelease.LastExists | drogon/CacheMap.h:521-525 | A scheduled leaf has such a last tick |
| CacheRelease.SelfLockRun | drogon/CacheMap.h:514-559 | A run from the empty cache on which it happens: one wheel, one bucket, a tick interval of two seconds, a timeout of one |
| CacheRelease.StuckForEver | drogon/CacheMap.h:528-532 | A hit that has locked itself out stays so on every run; no cell changes and the key never goes |
| CacheRelease.PromptRunsFree | drogon/CacheMap.h:508-559 | If every hit lets go before the bucket its insertion is due in has been served, none ever locks itself out |
| CacheTheorems.NobodyOutlivesDeadline | drogon/CacheMap.h:118-135 | Once wheel 0 has been served, the deadline of every timed item lies ahead, unless a hit is holding its entry |
| CacheTheorems.GoesOnlyWhenDue | drogon/CacheMap.h:387-396 | On every run, a step takes a key away only if it is its erase or, the key being timed, its own entry's callback at its deadline |
| CacheTheorems.NoImmortalKey | drogon/CacheMap.h:514-558 | In every reachable state each timed key has a scheduled entry, or a hit holding one, or its expiry callback about to run; or a hit has locked itself out, which happens on no prompt run |
| CacheTheorems.HitBeatsExpiry | drogon/CacheMap.h:514-545 | A timed hit that takes mtx_ before the expiry callback keeps the key, whatever happens in between: the callback leaves it alone, and on prompt runs no hit keeps mtx_ for ever |
| CacheTheorems.LeftoverIsHarmless | drogon/CacheMap.h:532-545 | A leftover entry of an erased or replaced incarnation never removes the newer one |
| CacheTheorems.CallbackAtMostOnce | drogon/CacheMap.h:541-550 | No incarnation's timeout callback runs twice, on any run |
| CacheTheorems.EraseSilences | drogon/CacheMap.h:387-396 | After an explicit erase the erased incarnation's timeout callback never runs |
| CacheTheorems.RunsExactlyThen | drogon/CacheMap.h:417-427 | On every run a runAfter task runs exactly once, in its release tick, and not before |
| CacheMapClass.CacheMap.InsertEntry | drogon/CacheMap.h:470-506 | The loop over the wheels puts the entry exactly where the placement function says |
| CacheMapClass.CacheMap.EraseAfter | drogon/CacheMap.h:508-559 | Uses the live leaf if there is one and otherwise a new one, and schedules it |
| CacheMapClass.CacheMap.Insert | drogon/CacheMap.h:217-237 | A present key keeps value, timeout and incarnation, an absent one gets the arguments; a timed insertion moves a timed key's deadline to the larger of the old one and the release tick for the argument; all else is unchanged |
| CacheMapClass.CacheMap.Find | drogon/CacheMap.h:339-356 | Answers presence; a present timed key's deadline becomes the larger of the old one and the release tick for its own timeout, its timeout and incarnation stay, and so does all else; an absent or untimed key is left alone |
| CacheMapClass.CacheMap.FindAndFetch | drogon/CacheMap.h:363-380 | Answers presence and the value; the deadline moves as for Find, and nothing else changes |
| CacheMapClass.CacheMap.Index | drogon/CacheMap.h:280-293 | Gives the value, for a missing key a default one without inserting anything; the deadline moves as for Find |
| CacheMapClass.CacheMap.Modify | drogon/CacheMap.h:312-336 | A present key gets the handled value under its old timeout, and its deadline moves as for Find; a missing one gets the handled default under the new timeout; all else is unchanged |
| CacheMapClass.CacheMap.Erase | drogon/CacheMap.h:387-396 | Removes the item and no other, and runs no callback |
| CacheMapClass.CacheMap.RunAfter | drogon/CacheMap.h:417-427 | The task is scheduled for its release tick and has not run |
| CacheMapClass.CacheMap.RunTask | drogon/CacheMap.h:528-551 | The task of a dead leaf is the callback step of the machine |
| CacheMapClass.CacheMap.DestroyBucket | drogon/CacheMap.h:124-133 | Entries of a bucket may be destroyed in any order; closures fall, unreferenced leaves run |
| CacheMapClass.CacheMap.RunExpiryOf | drogon/CacheMap.h:528-551 | The callback's body is that of the step machine |
| CacheMapClass.CacheMap.DestroyEntry | drogon/CacheMap.h:487-495 | A destroyed closure puts its entry one wheel lower, a leaf without references runs its task |
| CacheMapClass.CacheMap.Tick | drogon/CacheMap.h:113-136 | Exactly the timed items whose deadline is the new tick vanish, each with one callback; every runAfter task due in it has run once, in it |
| CoroMutex.StepRefines | drogon/utils/coroutine.h:836-979 | Every step of every thread is an allowed event of a FIFO queue lock, also in the middle of the reversal |
| CoroMutex.GrantedInPushOrder | drogon/utils/coroutine.h:859-979 | On every interleaving the handoffs are a prefix of the successful pushes, in their order |
| CoroMutex.MutualExclusion | drogon/utils/coroutine.h:836-890 | At most one thread holds the lock, is being handed it or is inside unlock; the word is "unlocked" exactly when nobody is, and then nobody waits and waiters_ is null |
| CoroMutex.NeverStuck | drogon/utils/coroutine.h:859-901 | The asserts in unlock never fail, and the awaiter that unlock looks at always belongs to a coroutine still suspended on it |
| CoroMutex.WaitersConserved | drogon/utils/coroutine.h:878-900 | The suspended awaiters are exactly those of three acyclic, disjoint lists |
| CoroMutex.PushStep | drogon/utils/coroutine.h:966-976 | A successful push appends its thread to the queue |
| CoroMutex.HandoffStep | drogon/utils/coroutine.h:890-900 | A handoff removes the front of the queue and grants the lock to it |
| CoroMutex.ReverseStep | drogon/utils/coroutine.h:881-888 | A step of the reversal loop leaves the queue as it is |
| CoroMutexClass.Mutex.ReverseStack | drogon/utils/coroutine.h:878-888 | The in-place loop terminates and leaves exactly the reversed, linked list |
| CoroMutexClass.Mutex.Unlock | drogon/utils/coroutine.h:859-901 | Frees the lock if nobody waits and otherwise hands it to the one who has waited longest |
| CoroMutexClass.Mutex.Lock | drogon/utils/coroutine.h:950-979 | Takes a free lock or joins the end of the queue |
| CoroMutexClass.Mutex.TryLock | drogon/utils/coroutine.h:836-843 | Takes the lock exactly if it is free |
| PubSub.StepRefines | drogon/PubSubService.h:144-302 | Every step is an allowed change of a map from names to subscribers; the recheck under the unique lock erases no non-empty topic and replaces no existing one |
| PubSub.SubscribeRegisters | drogon/PubSubService.h:280-302 | The returned id was free and is registered in the topic now mapped under the name |
| PubSub.NoLostSubscriber | drogon/PubSubService.h:198-302 | Over every interleaving a subscription stays until it is unsubscribed, its topic is removed or everything is cleared |
| PubSub.UnsubscribeRevokes | drogon/PubSubService.h:200-211 | The first section of unsubscribe takes away the subscription it is asked to, and no other |
| PubSub.UnsubscribedStaysAway | drogon/PubSubService.h:198-219 | Over every interleaving a subscription taken away stays away until its identifier is handed out again |
| PubSub.DropRevokes | drogon/PubSubService.h:233-247 | Removing a topic takes away exactly its subscriptions, clearing all |
| PubSub.NoLeakedTopic | drogon/PubSubService.h:198-228 | Every empty mapped topic has an unsubscribe on the way that will look again; with none on the way, size() is the number of names with a subscriber |
| PubSub.SendReachesSubscribers | drogon/PubSubService.h:144-160 | A message sent while its topic is the mapped one reaches exactly those registered |
| PubSub.FoundIsSent | drogon/PubSubService.h:144-160 | A publisher that finds subscribers calls exactly these if nobody comes in between |
| PubSubClass.TopicObject.Subscribe | drogon/PubSubService.h:65-70 | A fresh id, and the handler under it |
| PubSubClass.TopicObject.Publish | drogon/PubSubService.h:50-57 | Calls every handler with the message exactly once |
| PubSubClass.PubSubService.Subscribe | drogon/PubSubService.h:280-302 | Adds exactly this subscription under an identifier that was free, in an existing or a new topic |
| PubSubClass.PubSubService.Unsubscribe | drogon/PubSubService.h:198-219 | Nothing is registered under this name and identifier any more; every other subscription stays as it was, and the name stays only with another subscriber |
| PubSubClass.PubSubService.Publish | drogon/PubSubService.h:144-160 | Calls exactly the handlers registered under the name |
| PubSubClass.PubSubService.RemoveTopic | drogon/PubSubService.h:243-247 | The name is gone with its subscriptions, and every other name has the same ones |
| PubSubClass.PubSubService.Clear | drogon/PubSubService.h:233-237 | No subscription is left |
| PubSubClass.PubSubService.Size | drogon/PubSubService.h:224-228 | The number of names with at least one subscriber |
| Plugins.PluginBase.Start | drogon/plugins/Plugin.h:40-63 | Aborts if and only if a dependency cycle is reachable through not yet initialised plugins; otherwise starts exactly the newly reached plugins, once each, after their dependencies, and keeps the Initialized set closed |
| Plugins.PluginBase.Initialize | drogon/plugins/Plugin.h:40-63 | The recursion terminates, keeps that state at every depth, and an abort comes with an actual cycle |
| Plugins.PluginBase.AddDependency | drogon/plugins/Plugin.h:91-94 | Appends the dependency |
| Plugins.OrderDescends | drogon/plugins/Plugin.h:45-50 | Along a path through fresh plugins each is started before the one that depends on it |
| Plugins.NoCycleInOrder | drogon/plugins/Plugin.h:42-63 | If everything could be started in order, no cycle was reachable |
| SqlText.ReplacedIsRendered | drogon/orm/Mapper.h:1920-1967 | Replacing the holders from the left renders the meant statement, all other text untouched |
| SqlText.NumberedInOrder | drogon/orm/Mapper.h:1924-1942 | What is read from a clean text are parameters numbered 1, 2, 3 and so on, one for each argument |
| SqlText.DecimalMeaning | drogon/orm/Mapper.h:1924-1942 | The number behind a dollar sign is decimal: its digits' values times the powers of ten for their places, without a leading zero |
| SqlText.ReadBackIff | drogon/orm/Mapper.h:1920-1967 | From any argument on: the database reads back the meant statement if and only if its text is clean |
| SqlText.DialectsAgree | drogon/orm/Mapper.h:1920-1967 | Each database, given text and arguments, understands the statement as it is meant if and only if its text is clean; so on clean statements all agree |
| SqlText.NamesMistaken | drogon/orm/Mapper.h:1944-1962 | A question mark or a "$1" in a name is misread, and so is a digit behind a holder by SQLite |
| SqlText.WovenUnique | drogon/orm/Criteria.h:93-98 | A text and its arguments stand for exactly one statement without holders in its text |
| OrmMapper.Mapper.ReplaceSqlPlaceHolder | drogon/orm/Mapper.h:1920-1967 | The scanning loop replaces every holder from the left, numbered for PostgreSQL |
| OrmMapper.Mapper.FindBy | drogon/orm/Mapper.h:962-1000 | For names free of holders: text and arguments are those of select, where, order by, limit, offset, for update; the state is cleared; there are as many holders as arguments exactly if the criteria balances |
| OrmMapper.Mapper.UpdateBy | drogon/orm/Mapper.h:1372-1408 | Text and arguments are those of the assignments, in order, and the condition; the last comma is gone |
| OrmMapper.Mapper.Update | drogon/orm/Mapper.h:1340-1369 | The same with the primary key as condition |
| OrmMapper.Mapper.Increment | drogon/orm/Mapper.h:1549-1597 | Each column is increased, or decreased by the magnitude of a negative number |
| OrmMapper.Mapper.DeleteOne | drogon/orm/Mapper.h:1702-1724 | Deletes by primary key |
| OrmMapper.Mapper.DeleteBy | drogon/orm/Mapper.h:1772-1799 | Deletes by criteria, or everything |
| OrmMapper.Mapper.MakePrimaryKeyCriteria | drogon/orm/Mapper.h:732-755 | One equation for each key column, joined by "and" |
| OrmMapper.Mapper.TupleToBinder | drogon/orm/Mapper.h:772-784 | Pushes the key's components in order |
| OrmMapper.Mapper.OutputPrimaryKeyToBinder | drogon/orm/Mapper.h:757-770 | Pushes the key, single or composed |
| OrmMapper.Mapper.OrderBy | drogon/orm/Mapper.h:1873-1895 | Appends the column, after " order by " or a comma, with " desc" if asked to; the text lists the columns in the order given |
| OrmMapper.Mapper.Paginate | drogon/orm/Mapper.h:1906-1910 | Sets limit and offset of the page |
| OrmMapper.Mapper.Limit | drogon/orm/Mapper.h:1858-1863 | Sets the limit |
| OrmMapper.Mapper.Offset | drogon/orm/Mapper.h:1866-1870 | Sets the offset |
| OrmMapper.Mapper.Clear | drogon/orm/Mapper.h:724-730 | Resets limit, offset, order and locking |
| OrmStatements.SelectHolders | drogon/orm/Mapper.h:962-985 | Every holder of a find statement that the criteria does not bring has its argument |
| OrmCleanness.FindUnderstood | drogon/orm/Mapper.h:962-1000 | A find statement is understood if and only if its table name, criteria and order-by text are clean |
| OrmCleanness.UpdateUnderstood | drogon/orm/Mapper.h:1372-1408 | An update is understood if and only if its table name, its items and its criteria are clean |
| OrmCleanness.AssignmentsClean | drogon/orm/Mapper.h:1383-1388 | Assignments are clean if and only if their columns are |
| OrmCleanness.IncrementsClean | drogon/orm/Mapper.h:1569-1576 | Increments are clean if and only if their columns are |
| OrmCleanness.DeleteUnderstood | drogon/orm/Mapper.h:1772-1799 | A delete is understood if and only if its table name and its criteria are clean |
| OrmCriteria.Criteria.Compare | drogon/orm/Criteria.h:156-194 | For each operator the column, the operator as it is written in SQL and one holder, for In and NotIn the bare column, and one argument; holders and arguments balance exactly if the operator is not In or NotIn |
| OrmCriteria.Criteria.Among | drogon/orm/Criteria.h:197-227 | The column, " in (" or " not in (", one holder for each value, commas between them, and the closing parenthesis; the values are the arguments |
| OrmCriteria.Criteria.Null | drogon/orm/Criteria.h:295-311 | The column and " is null" or " is not null", without arguments |
| OrmCriteria.Criteria.Custom | drogon/orm/Criteria.h:116-129 | The caller's text and arguments, and which of them are temporaries; they balance if there is one argument for each holder |
| OrmCriteria.Criteria.OutputArgs | drogon/orm/Criteria.h:120-128 | Pushes the arguments in order; the temporaries of a custom criteria are moved out, the others stay |
| Pagination.PageTiles | drogon/orm/Mapper.h:1906-1910 | One page more is exactly the next rows |
| Pagination.OnOnePage | drogon/orm/Mapper.h:1906-1910 | Every row is on exactly one page, in one place |
| Pagination.SamePagesIff | drogon/orm/Criteria.h:116-129 | Every page is asked for with the criteria's own arguments if and only if it has nothing to move out or there is at most one page |
| Pagination.SecondPageLost | drogon/orm/Criteria.h:120-128 | With one temporary the second page may be asked for with something else |
| Pagination.ReadPages | drogon/orm/Mapper.h:962-1000 | Paginating and finding page after page with a criteria that keeps its arguments gives the rows once each, in order, although page 1 has no offset clause and every query resets the state |
| ResponseStreamClass.RoundTrip | drogon/HttpResponse.h:87-108 | Non-empty payloads and the terminator decode to the concatenated payloads, and exactly the message is consumed |
| ResponseStreamClass.RoundTripIff | drogon/HttpResponse.h:87-108 | The round trip holds exactly for the streams without an empty payload |
| ResponseStreamClass.EmptyEndsMessage | drogon/HttpResponse.h:93-96 | After an empty payload the decoder leaves bytes over |
| ResponseStreamClass.HexMeaning | drogon/HttpResponse.h:93-94 | A size line is the size to the base sixteen: the digits' values times the powers of sixteen for their places, lower case, without a leading zero |
| ResponseStreamClass.ResponseStream.Send | drogon/HttpResponse.h:87-97 | True exactly if the stream is open and the connection takes the chunk; then the size in hexadecimal, CRLF, the data and CRLF are appended, and otherwise nothing |
| ResponseStreamClass.ResponseStream.Close | drogon/HttpResponse.h:99-108 | Only the first call writes, one terminator; what has been written then decodes to the payloads |
| RelayConversion.SearchMeetsRule | Relay.cpp:262-283 | Search and rule agree if and only if ground is not hidden behind two other nets; in particular whenever the part is on at most two |
| RelayConversion.ThirdNetMissed | Relay.cpp:240-300 | A relay whose pull-down is on three nets, ground last, is taken to be normally open |
| RelayConversion.FindGround | Relay.cpp:262-283 | The nested loops with their early exits find ground exactly if it is one of the part's first two nets |
| RelayConversion.ConvertNormalState | Relay.cpp:240-300 | RELAY_NC exactly if there is a first point at which a relay model and a named resistor have both been seen on the connection, and the search finds the last resistor up to there on ground |
| RelayConversion.LastResistorDecides | Relay.cpp:249-260 | A relay with two resistors in front of it, of which only the second one is on ground, is normally closed |
| RelayConversion.NormallyClosedRule | Relay.cpp:240-300 | The result is that of the pull-down rule if and only if the chosen resistor has no ground hidden behind two other nets; so whenever it is on at most two |
| RelayConversion.ConvertDriveStrength | Relay.cpp:218-238 | The first device whose model asks for something else than CONFIG_OUT decides |
| RelayConversion.ConvertChain | Relay.cpp:71-83 | 0 for Power, 1 for Precision |
| RelayConversion.ConvertDevice | Relay.cpp:85-107 | The first expander on the connection, as first listed, gives the number |
| RelayConversion.ExampleExpander | Relay.cpp:85-107 | The expander is the part MAX6957ATL_TQFN-40-MAX6957ATL+, by the example of a relay connected to one |
| RelayConversion.ConvertPort | Relay.cpp:109-126 | The first expander's pin as a number; none where stoi throws |
| RelayConversion.StoiMeaning | Relay.cpp:109-126 | Blanks, a sign, digits and anything else are read as the signed decimal number of the digits if it fits an int; otherwise the call throws |
| RelayConversion.ConvertRelay | Relay.cpp:321-340 | One row as stated, unless the port cannot be read |
| RelayConversion.Relay.RelayConvert | Relay.cpp:302-345 | Appends one row for each relay, in order, up to the first one whose port cannot be read, where it throws |

## Left out

Cache:
- The no-wheels mode, the destructor, `ControlBlock`, `fnOnInsert_`/`fnOnErase_`, and `runAfter(0, ...)`, whose task runs at once because nothing takes the entry.
- Float rounding in `delay / tickInterval_` (taken as the floor of a quotient of reals) and overflow of `size_t`.
- A bucket is a set of entries as values: two closures that carry the same captured numbers and the same inner entry count as one, which changes neither the schedule nor the reference count being positive.
- The callback's own strong pointer to a newer entry (line 537) is taken and given up in one step: only the loop thread, which is in the callback, destroys buckets, and no hit is under way while the callback holds `mtx_`.
- CacheMapClass.CacheMap.Insert: like the other class methods, stated for one operation at a time; interleavings are the subject of `CacheModel`.

Coroutine mutex:
- C++ memory orders (sequential consistency is assumed), event loops (a resume is a step) and the scoped awaiter.
- The class covers one operation at a time; interleavings are the subject of `CoroMutex`.

Publish/subscribe:
- Uniqueness of subscriber ids across a re-creation of the topic, because each topic object counts from one.
- Handlers that call back into their own topic, and `isTopicEmpty`.

Plugins:
- What `initAndStart` and the callback do; re-entrant calls of `initialize` from them. The plugin manager that builds the graph is not part of this model.

ORM:
- `operator&&` and `operator||` on criteria and the constructor from JSON, whose bodies are not part of this model.
- `SqlBinder` is an append-only list of arguments. Results, rows and exceptions are left to the database, which is a parameter.
- `findOne`, `count`, the callback and future variants: the same text again. `insert` and `findByPrimaryKey` take their text from the generated model class.
- Quoting, string literals and comments in SQL are not read: a parameter is recognised wherever it stands. Of a named parameter of SQLite only the start is read; nothing is bound to names.
- Negation of the smallest machine integer in `increment`.
- OrmMapper.Mapper.ReplaceSqlPlaceHolder: the holder is the constant `$?` that all callers pass.
- OrmMapper.Mapper.FindBy: like the other statements, for names without `$?` and criteria whose holders and arguments balance.
- The where clause and the column loops, which the code repeats in each statement, and the parts of its longer methods are methods of their own here.

Response stream:
- RFC 9112's limits on sizes and the meaning of extensions and trailer fields; the decoder skips them.

Relay:
- The pin table, the slicing of names for pins, enumerations and ports, and console output.
- RelayConversion.ConvertChain: for other board types the code returns an uninitialised number, here an arbitrary one.
- RelayConversion.ConvertDevice: without a listed expander the code returns an uninitialised number, here an arbitrary one.
- RelayConversion.Relay.RelayConvert: the parallel columns of a net list have to be long enough, and a relay has to have a name, because the code indexes them; a name of one digit, where `convertPin` looks before its start, belongs to the pin slicing.

Left out because they are only declared or are plumbing: event loop, sockets, JSON, Redis, database clients, rate limiter, multipart parser, HTTP controllers and filters, and the rest of `coroutine.h`.
