# mcpgw core: a verified model

mcpgw is a local gateway between MCP clients and MCP servers. This project models the algorithms and
protocols of its core crate in Dafny and proves what they are there to guarantee, over every input, every
run and every interleaving. `dafny verify dfyconfig.toml` checks the whole project.

Pure code is modelled by functions and lemmas. Code that works by changing things is modelled by methods
and classes, each proved against a function or predicate on values, about which the laws are then proved as
lemmas. Code whose point is interleaving is modelled as a transition system whose steps are the source's
critical sections, atomic accesses and wakeups, and the laws are about every reachable state or every run.

## What is modelled

**Upstream slots** (`SlotProtocol.dfy`, `SlotInvariant.dfy`, `SlotWakeups.dfy`, `SlotOwnership.dfy`,
`SlotSteps.dfy`). One upstream's slot under any number of concurrent calls of `ready`, `demote`, `release`,
`retire` and `shutdown`. The slot lock, the liveness flag of a claim, the retired flag and the `Notify` are
separate steps, and a future can be dropped at every await. A single inductive invariant gives: no wakeup is
lost and nobody is wedged; an abandoned claim is taken over; one ladder at a time, whatever retires do, in
every run without a shutdown, while in every state with a running ladder a shutdown and a demand start a
second one; still only the ladder whose claim the slot holds installs; no connection leaks; a retired slot
stays idle for ever. What one look, landing, wakeup, dropped call, failed request, retire and shutdown leave
is stated case by case beside it.

**Reloading the upstreams** (`Upstreams.dfy`, `UpstreamRuns.dfy`, `ReloadEffects.dfy`).
`UpstreamManager::apply` with its two loops, swap, retirements and announcements. An entry is known by its
identity (its index), so that an entry that has left the map can still be in a caller's hands. The state
after a reload is fixed name by name and field by field, and uses of the entries that fall between the
reload's steps change none of it but slots and deadlines. `retired` is never cleared, so an entry that was
switched off and on again with one transport is enabled and refuses every demand; `RetiredAfterARun` says
for every run of reloads and uses when that is so.

**Call budget** (`Budget.dfy`). `Budget::charge` with its truncating division. Bounds are stated in the
emission interval, not in calls per minute, because `WINDOW / limit` truncates. The window bound needs no
monotone clock; the refinement of a token bucket and the one-minute bound on waiting do.

**Pins and drift** (`CanonicalJson.dfy`, `JsonText.dfy`, `Pins.dfy`, `DriftStore.dfy`, `DriftReports.dfy`).
The canonical JSON writer is injective up to object key order because every canonical text is
self-delimiting, so the digest preimage decides the definition (an absent field and a JSON null are the
same). Key order, at every depth, is all that a value's meaning leaves out. A reader of the grammar of RFC
8259 reads every canonical text back, and the preimage has one line per field. The comparison, the pin
store, and runs of observations: the recorded drift is always the current disagreement, dated by when it
began. What a report holds, and which redefinition none shows, is exact too.

**Traffic files** (`Calendar.dfy`, `TrafficFiles.dfy`, `Bodies.dfy`, `CaptureQueue.dfy`). The civil calendar
on all integers, file names whose string order is day order exactly up to the year 9999, retention by string
comparison, cutting a body at a character boundary, and the bounded queue with its flush barrier, which
every flush can get past.

**Edit distance** (`EditDistance.dfy`). The one-row dynamic program against the recurrence, edit scripts and
the metric laws, and the suggestion picked with it.

**Import** (`ServerNames.dfy`, `Servers.dfy`, `Import.dfy`). Slugs, free names, the URL comparison key, the
equivalence of transports, and the planner: conservation of origins, separation of candidates and of names.

**Sync** (`Sync.dfy`, `ClientNames.dfy`, `ManagedState.dfy`). The planner with the client's own fields, the
application to a document, renaming into a client's names, and the record of what is managed. A second sync
does nothing, what is not mcpgw's stays, and for every scope of a client the condition is exact under which
ejecting undoes a gateway sync: it loses client-owned fields of entries removed for being out of scope, and
passes over a file in which nothing is managed. The record is saved before the file is written;
`CutOffAfterClaiming` says exactly which interrupted runs the next sync repairs: those with nothing to remove.

**Relay and tool pages** (`Relay.dfy`, `ToolPages.dfy`). List-changed notifications over a broadcast that
overwrites its oldest events, and the merging of a paged tool list.

**Backups** (`BackupNames.dfy`, `Backups.dfy`), **upgrade watcher** (`Watcher.dfy`), **hot reload**
(`HotReload.dfy`). Key allocation by compare-and-swap, name parsing with its legacy forms, pruning; the
debounced watcher and the guard carried from process to process; the stamp, read and mark order of a config
reload with writes at every step.

Where the code does not do what one might expect of it, the model keeps the code's behaviour and lemmas say
exactly when it deviates: `SlotOwnership.Coalescing` and `SlotWakeups.ShutdownLetsASecondLadderStart`,
`UpstreamRuns.RetiredAfterARun`, `TrafficFiles.OrderHoldsUntilYear10000` and
`TrafficFiles.RetentionHoldsUntilYear10000`, `Servers.KeyFixedPoint` (the comment on the URL key promises one
stripped slash, so taking the key twice may strip two), `BackupNames.LegacyOrder`,
`HotReload.LastReadIsOnDisk`, `Relay.LostExactlyWhen`, `DriftReports.OnlyNewExactly`,
`DriftReports.SilentExactly`, `Sync.EjectUndoesExactly` with `Sync.EjectUndoesForEveryFile`, and
`Sync.CutOffAfterClaiming`. `Watcher.FlappingIsNotThrottled` gives runs of any length beside the bound of
`Watcher.RestartsAreApart`.

## Model

| member | source | states |
|---|---|---|
| SlotInvariant.InvariantStep | crates/core/src/upstream.rs:696-816 | every step of `ready`, `demote`, `release`, `retire`, `shutdown` and of a dropped ladder keeps the protocol invariant, for any number of processes |
| SlotWakeups.NoLostWakeup | crates/core/src/upstream.rs:422-439 | in every reachable state a parked caller that was not woken waits on a claim whose maker still runs its ladder or is about to wake everybody |
| SlotWakeups.WakeupReachable | crates/core/src/upstream.rs:708-816 | from such a state at most eight steps, all of the lock holder and of that maker, wake the caller |
| SlotWakeups.NoWedge | crates/core/src/upstream.rs:675-816 | no reachable state leaves a caller parked for good |
| SlotWakeups.DemandClaims | crates/core/src/upstream.rs:724-750 | a demand that finds nothing to take or wait for owns the slot five of its own steps later, with the full ladder or a latched slot's single attempt |
| SlotSteps.LookDecides | crates/core/src/upstream.rs:729-749 | by cases on the slot: a look hands out exactly a service that is not dead, waits exactly for a live claim, gets three attempts exactly for an idle slot, a dead service or a dropped claim and one exactly for a latched slot; only a claim changes the slot |
| SlotSteps.DemandAnswers | crates/core/src/upstream.rs:730-752 | the look of an admitted demand is answered with c exactly if the slot holds c and c is not dead, and then nothing else changes |
| SlotSteps.DemandParks | crates/core/src/upstream.rs:733-753 | it parks on f exactly if the slot is claimed by f and f is live, and then nothing else changes |
| SlotSteps.DemandDials | crates/core/src/upstream.rs:736-754 | it dials with three attempts exactly in an unowned slot and with one exactly in a latched one |
| SlotSteps.DemandOwns | crates/core/src/upstream.rs:736-748 | claiming puts a claim of its own in the slot, live and new, and changes nothing else |
| SlotSteps.CrashIsRedialed | crates/core/src/upstream.rs:730-740 | a demand that arrives on a crashed service runs the full ladder five steps later |
| SlotWakeups.AbandonedClaimIsTakenOver | crates/core/src/upstream.rs:410-439 | a claim whose ladder was dropped blocks nobody: the next demand gets a full ladder of its own |
| SlotWakeups.ShutdownLetsASecondLadderStart | crates/core/src/upstream.rs:1010-1027 | in every state with a running ladder, an unlocked slot and an entry in service, a shutdown by one process and a demand by another, seven steps, start a second ladder beside the first |
| SlotWakeups.TwoLaddersAfterShutdown | crates/core/src/upstream.rs:1010-1027 | so there are reachable states with two running ladders |
| SlotSteps.LadderLength | crates/core/src/upstream.rs:1029-1070 | k failed attempts of n leave n - k, and the n-th ends the ladder as refused |
| SlotSteps.LadderLands | crates/core/src/upstream.rs:1029-1070 | a ladder ends early with a connection, new and its own, or a conclusive failure, and leaves the slot alone |
| SlotSteps.LandingLeaves | crates/core/src/upstream.rs:775-808 | a landing leaves a slot that is not its own as it is, and else the connection, the latch of a 401 or the other latch; its caller gets the connection exactly if it was installed, and is told of a shutdown exactly if it had to be discarded |
| SlotSteps.LandedPublishes | crates/core/src/upstream.rs:768-809 | the two steps of a landed process under the lock do that, and close a connection exactly if they discard it |
| SlotSteps.NotifyWakesAll | crates/core/src/upstream.rs:708-715 | a wakeup reaches every registered caller wherever it stands, changes nothing else, and is given once |
| SlotSteps.CancelLeaves | crates/core/src/upstream.rs:410-439 | a dropped ladder revokes its claim, closes a connection it had in hand and leaves the slot; any other dropped caller changes nothing |
| SlotSteps.AWokenWaiterIsServed | crates/core/src/upstream.rs:708-752 | a woken waiter looks again and takes a service that is there by then |
| SlotSteps.AWokenWaiterIsTurnedAway | crates/core/src/upstream.rs:724-728 | or is told of the shutdown if the entry was retired |
| SlotSteps.GivingUpLeaves | crates/core/src/upstream.rs:882-921 | a failed request takes out its own connection, latched after a transport failure and idle after an expired credential, and nothing else |
| SlotSteps.RetireLeaves | crates/core/src/upstream.rs:399-407 | a retire sets the flag, then empties the slot, and closes nothing |
| SlotSteps.StopLeaves | crates/core/src/upstream.rs:1010-1027 | a shutdown empties the slot, closes exactly the service in it, and revokes no claim |
| SlotOwnership.Coalescing | crates/core/src/upstream.rs:677-683 | whatever retires do, until a shutdown empties the slot no two callers are dialing or landing |
| SlotOwnership.SeveredByShutdown | crates/core/src/upstream.rs:1013-1027 | a run has had such a shutdown exactly if one of its steps is the write of a shutdown |
| SlotOwnership.OnlyTheOwnerInstalls | crates/core/src/upstream.rs:768-802 | a connection enters the slot only from the ladder whose claim the slot held, once, and never after a retire emptied it |
| SlotOwnership.NoOrphanConnection | crates/core/src/upstream.rs:776-791 | a connection that was not installed is closed as soon as its dialer lets go of it |
| SlotOwnership.AnswersWereInstalled | crates/core/src/upstream.rs:732-803 | every service a demand is given was in the slot |
| SlotOwnership.EndedStays | crates/core/src/upstream.rs:399-407 | no step after a finished retire makes a claim or installs a connection |
| SlotOwnership.RetiredForever | crates/core/src/upstream.rs:399-407 | along every continuation the slot of a retired entry is idle and no new ladder starts |
| SlotOwnership.FinishedRetireEnded | crates/core/src/upstream.rs:399-407 | when a retire returns, the slot is idle and the flag is set |
| Upstreams.KindsOfChange | crates/core/src/upstream.rs:480-495 | added, removed, replaced and stopped are disjoint and leave out only names that keep their transport and are not switched off |
| Upstreams.PlaceKeeps | crates/core/src/upstream.rs:953-979 | placing one name of the new config keeps what was placed before it and leaves every other entry untouched |
| Upstreams.ReloadDone | crates/core/src/upstream.rs:937-1008 | after the retirements and the news the state is, name by name, what a reload promises |
| UpstreamRuns.WorksReload | crates/core/src/upstream.rs:949-1006 | the steps of a reload, one name at a time in the order of the source, are a reload |
| UpstreamRuns.ReloadAmongUses | crates/core/src/upstream.rs:937-1008 | however uses of the entries fall between those steps, what is left is, slots and deadlines apart, what the reload promises |
| Upstreams.UpstreamManager.Apply | crates/core/src/upstream.rs:937-1008 | same transport keeps entry, budget, channel and, unless just stopped, slot; another transport gets a new entry and budget on the old channel, which is told all families; what left the map is retired; the four lists are exact |
| ReloadEffects.OutOfService | crates/core/src/upstream.rs:399-407 | the entry of every name that is gone, has another transport or was switched off is retired and its slot idle; deadline and channel stay |
| ReloadEffects.RetiredAsInTheProtocol | crates/core/src/upstream.rs:399-407 | which is what the two writes of a retire leave in the slot protocol |
| ReloadEffects.StaysInService | crates/core/src/upstream.rs:961-972 | any other entry keeps slot, deadline, flag and channel and gets the new server |
| ReloadEffects.ServedBy | crates/core/src/upstream.rs:953-987 | a name is served exactly if the config has it: by its entry if the transport is the same, else by one that is not retired, is idle, owes no call and is on the old channel if there was one |
| ReloadEffects.ToldOnce | crates/core/src/upstream.rs:996-1006 | the channel of a replaced name hears tools, resources and prompts once each, every other name's channel nothing |
| ReloadEffects.OutOfTheMap | crates/core/src/upstream.rs:988-995 | an entry that had left the map is left alone and not used again |
| ReloadEffects.ReportedChanges | crates/core/src/upstream.rs:480-495 | the four lists hold, in order and once each, exactly the names that are new, gone, of another transport, and switched off |
| Upstreams.UpstreamManager.Demand | crates/core/src/upstream.rs:699-751 | a demand on an entry, even one that left the map, is refused if disabled or retired and otherwise takes the slot protocol's decision |
| Upstreams.UpstreamManager.Ready | crates/core/src/upstream.rs:696-751 | unknown, disabled and retired names are told apart and change nothing; any other name's entry takes the slot protocol's decision, and no other entry changes |
| Upstreams.UpstreamManager.Land | crates/core/src/upstream.rs:768-807 | a landing ladder leaves and answers what the slot protocol says |
| Upstreams.UpstreamManager.GiveUp | crates/core/src/upstream.rs:882-921 | a failed request takes out its own connection and no newer one |
| Upstreams.UpstreamManager.Charge | crates/core/src/upstream.rs:644-648 | a call is charged to its own server's budget at the limit of that moment; an unknown name is unmetered |
| Upstreams.ReloadIsNext | crates/core/src/upstream.rs:953-996 | what a reload does to the server and the retired flag of one name depends on that name alone |
| Upstreams.RetiredExactlyWhen | crates/core/src/upstream.rs:964-972 | for every history of configs of one name: its entry is retired exactly when a reload since it got its transport switched it off |
| UpstreamRuns.RunFollowsHistory | crates/core/src/upstream.rs:937-1008 | after any run of reloads with demands, landings, failed requests and charges between them, each name's server and retired flag are those of its own history |
| UpstreamRuns.RetiredAfterARun | crates/core/src/upstream.rs:964-972 | so after any such run an entry is retired exactly when a reload since it got its transport switched it off |
| Upstreams.OffAndOnAgain | crates/core/src/upstream.rs:724-728 | off and on again with one transport is an enabled entry that refuses every demand, until its transport is edited or it is removed and added |
| Budget.RateFitsWindow | crates/core/src/upstream.rs:217-218 | a positive limit has a positive interval, and its calls fill at most the window |
| Budget.Meter.Charge | crates/core/src/upstream.rs:210-236 | the new deadline and the refusal are those of the charge function |
| Budget.DeadlineCountsCalls | crates/core/src/upstream.rs:223-235 | every call admitted since an instant pushes the deadline one interval past it |
| Budget.WindowBound | crates/core/src/upstream.rs:210-236 | for clock readings in any order, k calls admitted with stamps in a window of length D satisfy (k-1)*interval <= D + burst |
| Budget.AtOneInstant | crates/core/src/upstream.rs:226-229 | no idle period, however long, buys more than `limit` calls at one instant |
| Budget.FullBurst | crates/core/src/upstream.rs:180-184 | a bucket that owes nothing admits exactly the first `limit` of n simultaneous calls |
| Budget.RetryIsExact | crates/core/src/upstream.rs:228-233 | after a refusal a charge passes at a reading exactly when that reading is at least `retry_in` later, and the refusal cost nothing |
| Budget.RefinesTokenBucket | crates/core/src/upstream.rs:176-184 | on every monotone run the deadline and a bucket of `limit` intervals, refilled one unit a nanosecond, take the same decisions |
| Budget.ChargesAreTheRun | crates/core/src/upstream.rs:210-236 | charges at a positive limit store the deadlines of the run the bounds are about, and pass exactly when it admits |
| Budget.ChargesInAWindow | crates/core/src/upstream.rs:210-236 | of any charges at one limit, k that pass within a window of length D satisfy (k-1)*interval <= D + (limit-1)*interval |
| Budget.ChargesInABurst | crates/core/src/upstream.rs:180-184 | of n charges at one reading exactly the first `limit` pass if nothing is owed |
| Budget.ChargesAreABucket | crates/core/src/upstream.rs:176-184 | on every monotone run the charges that pass are those a bucket of `limit` intervals can pay |
| Budget.NoLimitNoRefusal | crates/core/src/upstream.rs:201-213 | a limit of 0 answers no refusal from every deadline and leaves it |
| Budget.WithinOneWindow | crates/core/src/upstream.rs:217-234 | with a monotone clock the deadline is never more than a minute ahead, whatever the limit was edited to |
| Budget.NoLongWait | crates/core/src/upstream.rs:228-233 | so no refusal asks for more than 60 seconds |
| Budget.UnmeteredCallsSpendNothing | crates/core/src/upstream.rs:201-213 | calls made while the budget is off leave every later decision alone |
| CanonicalJson.KeyOrderIsAllThatIsForgotten | crates/core/src/pins.rs:241-281 | two values mean the same, and so are written the same, exactly when they are the same up to the order of object keys at every depth |
| CanonicalJson.Escape | crates/core/src/pins.rs:283-285 | the loop writes a string as section 7 of RFC 8259 escapes it |
| JsonText.EscapedByCases | crates/core/src/pins.rs:283-285 | the quote, the backslash and the five short controls become two characters, the other controls four lower-case hex digits, and nothing else is escaped (section 7 of RFC 8259) |
| JsonText.TextPrintable | crates/core/src/pins.rs:277-279 | no canonical text holds a character below U+0020 |
| CanonicalJson.WriteCanonical | crates/core/src/pins.rs:243-281 | what is appended to the buffer is the canonical text of the value's meaning, whatever order its objects were parsed in |
| CanonicalJson.WriteArray | crates/core/src/pins.rs:266-277 | the items in their own order, between commas |
| CanonicalJson.WriteObject | crates/core/src/pins.rs:245-265 | the members in key order, between commas |
| CanonicalJson.TextDelimits | crates/core/src/pins.rs:241-281 | canonical texts are self-delimiting: equal texts with anything harmless after them have equal values and equal rests |
| JsonText.ReadsBack | crates/core/src/pins.rs:241-281 | a reader of the grammar of RFC 8259 reads the canonical text of a value back as that value, and stops where it ends |
| JsonText.ArrayShape | crates/core/src/pins.rs:265-276 | an array is its items in order with single commas between and no whitespace |
| JsonText.ObjectShape | crates/core/src/pins.rs:245-264 | an object is its members by key in byte order, key, colon and value, with single commas between and no whitespace |
| CanonicalJson.WriteField | crates/core/src/pins.rs:231-239 | one line, with an absent value written as null |
| CanonicalJson.WritePreimage | crates/core/src/pins.rs:208-229 | the five lines in order, after the format tag |
| JsonText.PreimageLines | crates/core/src/pins.rs:215-229 | the preimage spelled out: the format tag, then name, description, inputSchema, outputSchema and annotations |
| JsonText.FieldIsALine | crates/core/src/pins.rs:231-239 | a field takes one line, whatever its value holds |
| JsonText.SixLines | crates/core/src/pins.rs:202-207 | so the preimage has six newlines, one per line |
| CanonicalJson.PreimageDecidesDefinition | crates/core/src/pins.rs:202-239 | two definitions have the same preimage exactly when name, description and the three values agree up to key order and absent = null, so no description can forge a line |
| Pins.ComparisonUnique | crates/core/src/pins.rs:297-340 | events in name order that are exactly the differences are the comparison |
| Pins.ComparisonMembers | crates/core/src/pins.rs:301-340 | an event is reported exactly for a name that is changed, new or gone |
| Pins.EventsAreDisagreements | crates/core/src/pins.rs:301-340 | from pins and list alone: added is listed and not pinned, removed is pinned and not listed, changed is both with different hashes, each with the lengths of the sides that have it |
| Pins.EventsInOrder | crates/core/src/pins.rs:297-298 | by tool name, one event for each tool |
| Pins.PinnedAsListed | crates/core/src/pins.rs:307-310 | what is pinned is every listed name as its last entry in the list has it |
| Pins.SortedDifferences | crates/core/src/pins.rs:311-339 | the listed names first and the missing ones after, sorted, is the comparison |
| Pins.CompareListed | crates/core/src/pins.rs:311-327 | the first loop finds the new and the changed tools |
| Pins.CompareGone | crates/core/src/pins.rs:328-338 | the second loop finds the pinned tools the list no longer has |
| Pins.Compare | crates/core/src/pins.rs:301-340 | the loops and the sort give the comparison |
| DriftStore.PinStore.Pin | crates/core/src/pins.rs:453-474 | the file becomes the list's own pins with no drift, and no other server's file changes |
| DriftStore.PinStore.Observe | crates/core/src/pins.rs:489-545 | file and report are those of one observation, and no other server's file changes |
| DriftReports.ReportsDisagreements | crates/core/src/pins.rs:511-545 | an observation records exactly the disagreements of the list with the pins, reports all of them or none, and leaves the pins |
| DriftReports.NothingToCompare | crates/core/src/pins.rs:500-510 | a first sight is pinned as listed, a file of a later version is left alone, and neither reports anything |
| DriftStore.DriftIsCurrent | crates/core/src/pins.rs:503-544 | after any run the recorded drift is the last list's disagreement with the pins, and the pins have not moved |
| DriftStore.FirstNoticed | crates/core/src/pins.rs:519-538 | after any run every recorded event is dated by the observation since which its shape has been there without a break |
| DriftStore.RepeatReportsNothing | crates/core/src/pins.rs:480-484 | listing the same tools again, at any later time, reports nothing and changes nothing |
| DriftStore.PinningSettles | crates/core/src/pins.rs:448-474 | observing a list that was just pinned reports nothing |
| DriftStore.ChangedMeansRedefined | crates/core/src/pins.rs:202-229 | with a hash that does not collide, a tool in both lists is reported as changed exactly when its definition differs up to key order |
| DriftReports.ReportedExactly | crates/core/src/pins.rs:503-544 | after any run a list is reported with nothing if its disagreement with the pins is the last one's, else with all of it, old and new |
| DriftReports.OnlyNewExactly | crates/core/src/pins.rs:480-484 | so a report holds only new events exactly if the disagreement did not change or keeps nothing of the one before, and every new event is in it |
| DriftReports.SilentExactly | crates/core/src/pins.rs:503-516 | a list is passed over after another exactly if it agrees with the pins or shows the same of every name: there or not, as pinned or not, and if not with a description of the same length |
| DriftReports.SecondRedefinitionMissed | crates/core/src/pins.rs:503-516 | with a hash that does not collide, a third definition after a second is reported unless it is the pinned one again or its description is as long as the second's |
| Calendar.Epoch | crates/core/src/capture.rs:919-935 | day 0 is 1970-01-01 |
| Calendar.CivilSuccessor | crates/core/src/capture.rs:919-935 | day d+1 is the Gregorian successor of day d, for every integer d |
| Calendar.CivilMonotone | crates/core/src/capture.rs:919-935 | dates come in day order, so no two days share one |
| TrafficFiles.NameOrder | crates/core/src/capture.rs:777-780 | up to the year 9999 names compare as dates do |
| TrafficFiles.DayOrder | crates/core/src/capture.rs:807-809 | up to the year 9999 the order of two daily names is the order of their days |
| TrafficFiles.NamesAreDaily | crates/core/src/capture.rs:788-801 | a day's name is recognised as a daily file exactly up to the year 9999 |
| TrafficFiles.DailyShape | crates/core/src/capture.rs:782-801 | a name is recognised exactly if it is four, two and two digits with dashes between and the extension |
| TrafficFiles.NameReadsBack | crates/core/src/capture.rs:775-780 | year, month and day can be read back out of a daily name, in this order |
| TrafficFiles.FirstName | crates/core/src/capture.rs:775-780 | day 0 is in 1970-01-01.jsonl |
| TrafficFiles.FourDigitDays | crates/core/src/capture.rs:777-780 | the last such day is day 2932896 |
| TrafficFiles.OrderHoldsUntilYear10000 | crates/core/src/capture.rs:807-809 | the names of the days up to n sort in day order exactly when n is in a year of at most four digits |
| TrafficFiles.RetentionIsByAge | crates/core/src/capture.rs:803-849 | while the window begins by 9999-12-31: of the files written by the gateway, at any time, retention deletes exactly those of days older than `retain_days` counting today |
| TrafficFiles.RetentionHoldsUntilYear10000 | crates/core/src/capture.rs:803-849 | and only while it does |
| TrafficFiles.ForeignFilesStay | crates/core/src/capture.rs:782-801 | the names some pruning at some time deletes are exactly the daily ones, and with a limit of 0 none is deleted |
| TrafficFiles.TodayIsKept | crates/core/src/capture.rs:1013-1017 | a write never loses its own file to the pruning it triggers |
| TrafficFiles.Sink.Prune | crates/core/src/capture.rs:816-849 | exactly the expired files go, and they are returned sorted |
| TrafficFiles.Sink.PruneIfDue | crates/core/src/capture.rs:990-1007 | the directory is pruned once per day |
| TrafficFiles.Sink.Write | crates/core/src/capture.rs:1010-1035 | the line is appended to its own day's file after the day's pruning, and nothing else changes |
| Bodies.Truncate | crates/core/src/capture.rs:740-754 | a body that fits is kept; another keeps the most whole characters that fit, wasting at most three bytes, and is marked |
| Text.BytesOfOne | crates/core/src/pins.rs:192-198 | lengths are counted in the bytes UTF-8 takes, by the four ranges of section 3 of RFC 3629 |
| Text.BytesOfConcat | crates/core/src/pins.rs:192-198 | and add up |
| CaptureQueue.AcceptedIsConserved | crates/core/src/capture.rs:1125-1166 | in every reachable state the accepted records are written, held and queued, in that order; appended is accepted plus dropped plus refused and not counted yet; one drop is reported, however many are counted at a time; a finished writer has written everything |
| CaptureQueue.FirstRecord | crates/core/src/capture.rs:1242-1266 | the queue starts open and empty and takes the first record |
| CaptureQueue.FlushIsABarrier | crates/core/src/capture.rs:1168-1184 | a flush that returned means every record accepted before it was called has been handed to the sink |
| CaptureQueue.EveryFlushCanReturn | crates/core/src/capture.rs:1125-1184 | whenever a flush is called while the queue is open and a place in it is not promised to another, steps of the writer and two of its own end with its answer |
| CaptureQueue.QueueIsWorkedOff | crates/core/src/capture.rs:1143-1159 | the writer's own steps empty the queue and answer every flush in it |
| CaptureQueue.DroppedOnlyWhenFull | crates/core/src/capture.rs:1242-1266 | in every reachable state a record is refused exactly when the queued messages and the places promised to waiting flushes make up the depth; with no flush waiting, exactly when the queue is full |
| CaptureQueue.HoldingWritesTheSame | crates/core/src/capture.rs:944-964 | the same calls make the holding writer and the immediate one queue, answer, drop and finally write the same |
| CaptureQueue.DrainingIsARun | crates/core/src/capture.rs:1153-1165 | the inner loop is a run of single writes in order |
| CaptureQueue.CaptureWriter.Append | crates/core/src/capture.rs:1242-1266 | one undisturbed append is the steps of the transition system: the send, and if it is refused the count and the flag |
| CaptureQueue.CaptureWriter.Handle | crates/core/src/capture.rs:1143-1159 | one turn of the loop writes or holds a record, or writes all that is held before it answers a flush |
| CaptureQueue.CaptureWriter.Finish | crates/core/src/capture.rs:1143-1165 | when the last sender is gone everything held and queued is written in order and every queued flush is answered |
| EditDistance.Distance | crates/core/src/config.rs:884-901 | the reused row computes the recursive distance |
| EditDistance.CellRecurrence | crates/core/src/config.rs:894-896 | every matrix cell is the least of its three neighbours' continuations |
| EditDistance.Symmetric | crates/core/src/config.rs:883-901 | the distance is symmetric |
| EditDistance.ZeroIffEqual | crates/core/src/config.rs:883-901 | and zero exactly for equal strings |
| EditDistance.Triangle | crates/core/src/config.rs:883-901 | and satisfies the triangle inequality |
| EditDistance.NoShorterScript | crates/core/src/config.rs:883-901 | no script of insertions, deletions and substitutions is shorter than the distance |
| EditDistance.ShortestScript | crates/core/src/config.rs:883-901 | and one is exactly that long |
| EditDistance.Nearest | crates/core/src/config.rs:874-881 | the suggestion is admissible and ranked first among the admissible ones, and there is one if any is admissible |
| EditDistance.SuggestsExactly | crates/core/src/config.rs:869-882 | from the distances alone: at most two edits and at most half the key away, the fewest edits, ties by name |
| EditDistance.RanksTotal | crates/core/src/config.rs:874-881 | so the suggestion does not depend on the order of the known keys |
| EditDistance.NoSuggestionForTinyKeys | crates/core/src/config.rs:869-879 | a key of one character gets no suggestion |
| ServerNames.Slugify | crates/core/src/import.rs:326-352 | the loops compute the slug: kept characters, one dash per run of others between them, runs of underscores cut to one, or the fallback |
| ServerNames.SlugIsValid | crates/core/src/import.rs:324-352 | every name has a slug that is a valid server name without outer or doubled dashes |
| ServerNames.ValidExactly | crates/core/src/config.rs:688-706 | a name is valid exactly if it is at least one of a to z, 0 to 9, dash and underscore, without two underscores in a row |
| ServerNames.SlugFixedPoints | crates/core/src/import.rs:326-352 | slugs are exactly the names slugging leaves alone, so slugging is idempotent |
| ServerNames.SlugKeepsLetters | crates/core/src/import.rs:329-341 | no letter and no digit is lost or moved |
| ServerNames.SuffixedDistinct | crates/core/src/import.rs:194-207 | no two suffixes give one name |
| ServerNames.SuffixedValid | crates/core/src/config.rs:688-706 | a suffix keeps a valid name valid |
| ServerNames.NextFree | crates/core/src/import.rs:199-207 | the search ends for every finite set of taken names, at the first name tried that is free |
| ServerNames.NextFreeUnique | crates/core/src/import.rs:199-207 | which is one name |
| Servers.KeyReadsBack | crates/core/src/import.rs:308-322 | the URL key can be cut back into its normalised scheme, authority, path and query |
| Servers.SameKey | crates/core/src/import.rs:305-322 | two URLs have one key exactly when scheme and host agree up to case, the path up to one final slash, and all else exactly; a text that is no URL equals only itself |
| Servers.KeyDecides | crates/core/src/import.rs:304-321 | without the key: scheme and host in any case, user information, query and path exactly, one final slash aside |
| Servers.KeyFixedPoint | crates/core/src/import.rs:308-322 | taking the key of a key changes it exactly when the path ended in two slashes |
| Servers.SameTransportIsAnEquivalence | crates/core/src/import.rs:276-302 | reflexive, symmetric and transitive |
| Servers.SameServer | crates/core/src/import.rs:265-302 | two transports are one server exactly for the same command, arguments and environment, or the same URL, headers and headers command |
| Servers.OtherCredentialsAreMutual | crates/core/src/import.rs:209-248 | sharing an address under other credentials is mutual and excludes being the same server |
| Servers.SameServerOtherHeaders | crates/core/src/import.rs:209-244 | exactly for the same URL and the same header names with another value under one of them |
| Import.PlanImport | crates/core/src/import.rs:80-192 | the loops give candidates that each stand for a whole class of entries, named as the plan promises, and sort them in order into new, already and conflicts |
| Import.Consider | crates/core/src/import.rs:88-158 | one more entry is folded into its class's candidate or starts a new one, and every clause about the others is kept |
| Import.ExactlyOneCandidate | crates/core/src/import.rs:100-130 | every entry is an origin of one candidate, and of no other that addresses its server |
| Import.OnlyItsCandidate | crates/core/src/import.rs:100-158 | and, with clients of different names, of no other candidate at all |
| Import.OriginsAreConserved | crates/core/src/import.rs:100-158 | the origins of all candidates together are the entries of all clients together, none lost and none counted twice |
| Import.NothingIsEnabledUnnoticed | crates/core/src/import.rs:112-118 | a candidate is enabled exactly if every client has it enabled and its command is there |
| Import.NoTagIsLost | crates/core/src/import.rs:119-123 | its tags are exactly those any client gave it |
| Import.NoNoteIsLost | crates/core/src/import.rs:124-130 | its notes are exactly those of the entries it stands for |
| Import.EntriesAreRead | crates/core/src/import.rs:86-99 | the entries are exactly the servers of the clients, each with its own notes |
| Import.NotesAreMessages | crates/core/src/import.rs:86-99 | which are the messages of the problems that name it |
| Import.ChooseName | crates/core/src/import.rs:132-148 | the name is kept if it is valid and unclaimed, else the first free suffix |
| Import.NamesAreSeparate | crates/core/src/import.rs:132-148 | all planned names are valid and distinct, and renamed means changed |
| Import.CalledAfter | crates/core/src/import.rs:132-148 | a renamed candidate has its entry's own name, slugged if it was not valid, with the first number from 2 on if need be, at the first that no earlier candidate and no other canonical server has |
| Import.RenamedIsNew | crates/core/src/import.rs:136-147 | a renamed candidate is always new |
| Import.PointsAt | crates/core/src/import.rs:222-263 | a candidate points at the first canonical server that has its address under other credentials, else at the first such candidate before it, else nowhere |
| Import.Classify | crates/core/src/import.rs:160-191 | each candidate lands in its list in order, and each conflict is offered the first name free of everything so far |
| Import.WhichList | crates/core/src/import.rs:174-190 | a candidate is added exactly if its name is free, known already exactly if its name stands for the same server, and a conflict exactly if it stands for another |
| Import.KindsInOrder | crates/core/src/import.rs:174-190 | each list is in the order of the candidates |
| Import.OffersAreSeparate | crates/core/src/import.rs:160-190 | the second names are valid and differ from each other, from every canonical name and from every planned name |
| Sync.CarryOver | crates/core/src/sync.rs:203-226 | the emitted entry plus the client's own fields it does not set |
| Sync.CarriedTwice | crates/core/src/sync.rs:140-145 | preserving a field never makes an entry differ from itself |
| Sync.PlanSync | crates/core/src/sync.rs:146-195 | every list of the plan is exactly its names, in order, and the desired map exactly the target set |
| Sync.PlanPartitions | crates/core/src/sync.rs:18-40 | every name in question is in exactly one list or already right |
| Sync.PlanClientContext | crates/core/src/sync.rs:235-262 | exactly the excluded names the plan owns or removes are taken off the exclusion list |
| Sync.Document.Apply | crates/core/src/sync.rs:272-282 | exactly the planned entries and exclusions change |
| Sync.WithoutItemByItem | crates/core/src/sync.rs:278-280 | what stays of the exclusion list keeps its order and its number |
| Sync.WithoutOne | crates/core/src/sync.rs:278-280 | an item stays exactly if it is not to be taken off |
| Sync.AppliedIsSynced | crates/core/src/sync.rs:52-66 | the application gives the target set over whatever stays |
| Sync.OthersStay | crates/core/src/sync.rs:264-271 | entries mcpgw never wrote are untouched, new ones are enabled servers, and only managed entries that left the config are removed |
| Sync.FieldsAfterSync | crates/core/src/sync.rs:196-226 | in a written entry a field is the server's if it sets it, else the client's own if it is one of those, else absent |
| Sync.SyncIsAFixpoint | crates/core/src/sync.rs:40-55 | planning again with what the plan now manages adds, updates and removes nothing, and reports the same conflicts and foreign entries |
| Sync.CutOffAfterClaiming | crates/cli/src/commands/sync.rs:445-454 | a run cut off after saving the record is repaired by the next exactly when it had nothing to remove |
| Sync.ExclusionIsSettled | crates/core/src/sync.rs:41-49 | nor is anything left to take off the exclusion list |
| Sync.HasChangesExactly | crates/core/src/sync.rs:38-48 | a plan has changes exactly if carrying it out changes the entries or the exclusion list |
| Sync.OverwritingLeavesNoTrace | crates/core/src/sync.rs:203-226 | writing one entry over another leaves what writing it alone would, for every entry there was, exactly when the first sets no client-owned field the second does not |
| Sync.WrittenBack | crates/core/src/sync.rs:203-226 | removing an entry or writing one over it, and then writing another, leaves what writing that alone would exactly when the client-owned fields the last does not set come through as they were |
| Sync.EjectUndoesExactly | crates/cli/src/commands/eject.rs:175-226 | for every file, every record and every part of the servers a gateway sync pointed elsewhere: the eject, which passes over a file with nothing managed, gives a direct sync's file exactly if every entry a direct sync would write comes through with the client's own fields, and something stayed managed if there was anything to write |
| Sync.EjectUndoesGateway | crates/cli/src/commands/eject.rs:175-226 | when no gateway entry sets such a field: exactly if the managed entries of left-out enabled servers hold none either, and something stayed managed if there was anything to write |
| Sync.EjectUndoesForEveryFile | crates/cli/src/commands/eject.rs:175-226 | the eject undoes the gateway sync for every file and record exactly if no enabled server was left out and no gateway entry sets a client-owned field the direct one does not |
| Sync.EjectUndoesOnlyTraceless | crates/cli/src/commands/eject.rs:160-187 | an empty file already shows a client-owned field only the gateway entry sets |
| Sync.EjectUndoesGatewayServers | crates/core/src/sync.rs:403-428 | the condition for a client of any scope: what was removed for being out of scope held no client-owned field but those the direct entry sets, and something stayed managed if there was anything to write |
| Sync.GatewayByField | crates/core/src/sync.rs:387-428 | a gateway entry is at the server's own endpoint, enabled and tagged as the server is, without a limit or tool rules of its own; exactly the servers in scope have one |
| Sync.EjectUndoesWhatTheScopeHas | crates/core/src/sync.rs:403-428 | so for every file exactly if the scope has every enabled server |
| Sync.EjectForgetsATimeout | crates/core/src/sync.rs:403-428 | a client scoped to one server loses its own timeout in the entry of another |
| Sync.EjectPassesOver | crates/cli/src/commands/eject.rs:187-191 | a client whose scope leaves nothing managed gets nothing back |
| Sync.ScopeRemoves | crates/core/src/sync.rs:395-400 | a server out of scope loses the entry mcpgw wrote for it, and only that |
| ClientNames.NamesAreInjective | crates/core/src/sync.rs:95-124 | no two canonical servers are given one name |
| ClientNames.NothingIsLost | crates/core/src/sync.rs:95-124 | kept plus displaced is the input, each kept server under its one name |
| ClientNames.EntryFor | crates/core/src/sync.rs:105-108 | of several entries for one server the last in order stands for it |
| ClientNames.CalledExactly | crates/core/src/sync.rs:95-124 | a server is called by the last in order of the entries that stand for it, else by its own name unless that stands for another |
| ClientNames.UnderClientNames | crates/core/src/sync.rs:95-124 | the loop gives the renamed set and the displaced names |
| ClientNames.EjectUndoesGatewayByAnyName | crates/cli/src/commands/eject.rs:192-196 | the same condition under the client's own names |
| ManagedState.OriginRoundTrip | crates/core/src/state.rs:211-231 | an origin key reads back as the scope it was made from, whatever the path holds |
| ManagedState.OriginKeysDiffer | crates/core/src/state.rs:203-216 | two scopes never share an origin key |
| ManagedState.SharedRecords | crates/core/src/state.rs:232-256 | per-user files share a record exactly for one client, project files exactly for one path |
| ManagedState.State.Claim | crates/core/src/state.rs:259-270 | the file's managed names are replaced, and no other file's record changes |
| ManagedState.State.Adopt | crates/core/src/state.rs:274-289 | one name is added, and no other file's record changes |
| ManagedState.State.ResolveTo | crates/core/src/state.rs:292-310 | one answer is recorded, and no other file's record changes |
| ManagedState.SyncFile | crates/cli/src/commands/sync.rs:428-454 | one sync writes the target set under the client's names and claims exactly it |
| ManagedState.SyncTwice | crates/core/src/sync.rs:40-55 | a second run changes neither the file, nor the exclusion list, nor the record |
| ManagedState.EjectFile | crates/cli/src/commands/eject.rs:188-226 | a file with nothing managed is passed over, any other ends as a sync to the servers themselves, under the client's names |
| ManagedState.SyncThenEject | crates/cli/src/commands/eject.rs:188-226 | a gateway sync and an eject leave the file the conditions above are about |
| Relay.DeclaredExactly | crates/core/src/gateway.rs:649-657 | exactly the families with an explicit yes are promised |
| Relay.NoNewsIsLost | crates/core/src/gateway.rs:676-707 | once it has caught up, for every event of a promised family that family's notification was sent after it, however often the receiver was lapped; on a listen stream the send went through |
| Relay.LostExactlyWhen | crates/core/src/gateway.rs:697-704 | a session that has caught up has not told its client of an event exactly when at least one notification of its family was sent since and each failed: exactly the events of a family since a notification of it last went through are missed |
| Relay.AFailedSendLosesNews | crates/core/src/gateway.rs:672-675 | from every caught-up session state, an event whose send fails on an open transport leaves the session caught up and that event untold |
| Relay.OwedUntilTold | crates/core/src/gateway.rs:686-696 | at any time an event is still owed (due, lapped or not received) or was tried; on a listen stream, owed or told |
| Relay.NothingUnpromised | crates/core/src/gateway.rs:614-619 | a family that was not promised is never sent, not even after a lap |
| Relay.CatchesUp | crates/core/src/gateway.rs:676-707 | with sends that go through it has caught up after a bounded number of its own steps |
| Relay.FirstEventIsSent | crates/core/src/gateway.rs:676-707 | a subscription starts open with nothing owed: the first promised event after it is received and sent |
| Relay.CatchingUpTells | crates/core/src/gateway.rs:676-707 | in every run of sends that go through until it has caught up, an event ends up told exactly if it was told before or its family was owed |
| Relay.EveryEventIsTold | crates/core/src/upstream.rs:35-43 | so from every reachable state, given sends that go through, every event ends up told that was not tried before, and on a listen stream every event |
| Relay.FailuresEndOnlyListen | crates/core/src/gateway.rs:672-675 | failed sends do not end a session's relay while its transport is open |
| ToolPages.MergedTools | crates/core/src/gateway.rs:866-921 | at most 64 pages, no cursor followed twice, the tools of the pages in order under page one's metadata, and a stop only at the end of the list, a repeated cursor or a ceiling, which at most the last page passes |
| ToolPages.NoneFollowedTwice | crates/core/src/gateway.rs:878-881 | whatever the server answers, every page of a walk but the last handed out a cursor, and no two the same |
| ToolPages.StopsExactly | crates/core/src/gateway.rs:866-921 | a walk stops short exactly at 64 pages, at 10000 tools or at a cursor an earlier page handed out |
| ToolPages.ConcatInOrder | crates/core/src/gateway.rs:866-921 | the tools of pages in a row are those of each, in order |
| ToolPages.ConcatOne | crates/core/src/gateway.rs:866-921 | those of one page being its own |
| ToolPages.WalkFollows | crates/core/src/gateway.rs:852-865 | for a server that answers by the cursor the walk reads the list page by page |
| ToolPages.NoCursorTwice | crates/core/src/gateway.rs:878-881 | in a list that ends no cursor comes twice, so a repeated one is a circle |
| ToolPages.MergesTheWholeList | crates/core/src/gateway.rs:838-921 | a list within the bounds is merged whole |
| BackupNames.NameRoundTrip | crates/core/src/backup.rs:68-72 | the key in a backup's name reads back, whatever the copied file is called |
| BackupNames.NameShape | crates/core/src/backup.rs:68-72 | the name is the milliseconds in at least thirteen digits, the sequence number in four, and the file's own name |
| BackupNames.KeyByStamp | crates/core/src/backup.rs:147-173 | what comes before the first dash decides: a 64-bit number of milliseconds, capped and with the sequence number added, or 0 |
| BackupNames.SequenceExactly | crates/core/src/backup.rs:165-171 | a sequence number is exactly four digits and a dash |
| BackupNames.NoDash | crates/core/src/backup.rs:151-153 | a name without a dash is the oldest |
| BackupNames.LegacyOrder | crates/core/src/backup.rs:143-172 | a bare legacy name is sequence 0 exactly when the file's own name does not begin with a four-digit number above zero and a dash |
| BackupNames.LegacyYearIsMisread | crates/core/src/backup.rs:164-172 | otherwise the number is taken for its sequence |
| BackupNames.LegacyCollisionOrder | crates/core/src/backup.rs:154-161 | a legacy collision is sequence n of its millisecond |
| BackupNames.KeyByCounter | crates/core/src/backup.rs:154-161 | a dotted stamp is a 64-bit number and a counter below 10000, or the key is 0 |
| Backups.ClaimsAreDistinct | crates/core/src/backup.rs:84-93 | in every interleaving, spurious failures included, keys are handed out strictly increasing and to one caller each, until 64 bits are used up |
| Backups.ClaimByClaim | crates/core/src/backup.rs:84-93 | an undisturbed claim takes three steps and the higher of its candidate and the key after the last one issued |
| Backups.ClaimRetried | crates/core/src/backup.rs:84-93 | so does one whose exchange failed, at the second try |
| Backups.ListingUnique | crates/core/src/backup.rs:118-141 | a directory has one listing |
| Backups.Store.List | crates/core/src/backup.rs:118-141 | which is what is returned |
| Backups.Store.LatestBackup | crates/core/src/backup.rs:100-104 | its last entry is the latest backup |
| Backups.Store.ClaimKey | crates/core/src/backup.rs:84-93 | one undisturbed claim takes the candidate or the next key, whichever is higher |
| Backups.KeyTakenIsFresh | crates/core/src/backup.rs:74-82 | below the 64-bit ceiling the key is past the newest name on disk, the newest key issued and at least the clock, and one of these makes it no higher |
| Backups.Store.NextKey | crates/core/src/backup.rs:74-82 | which is the key taken, whatever the clock does |
| Backups.Store.Prune | crates/core/src/backup.rs:106-112 | exactly the last `keep` of the listing are left, as they were, and no other directory changes |
| Backups.NewestComeLast | crates/core/src/backup.rs:106-112 | those are as many as are kept, and every name that goes comes before all that stay |
| Backups.Store.BackupFileAt | crates/core/src/backup.rs:40-66 | the key taken, or a later one if another process took its name; nothing overwritten, the copy under that name, and the newest `keep` left |
| Backups.AboveAll | crates/core/src/backup.rs:68-82 | a name with such a key reads back as it and comes after every name on disk |
| Backups.Store.BackupFile | crates/core/src/backup.rs:36-38 | with no other process at work the directory and the register are the next of the client's run |
| Backups.OneBackup | crates/core/src/backup.rs:40-66 | with no other process at work the new name comes last in the listing |
| Backups.RunSurvivors | crates/core/src/backup.rs:106-112 | pruning after every write leaves what pruning once at the end would |
| Backups.RunOfBackups | crates/core/src/backup.rs:1-112 | after any run of backups of a client, for any clock readings and any backups of other clients between, the directory lists the last `keep` of what was there and what was written; with keep >= 1, by one process or by several one after the other, the keys written rise strictly above all before them and the latest backup is the newest write |
| Backups.RunContents | crates/core/src/backup.rs:60-66 | every file left holds what was copied into it |
| Watcher.BinaryWatcher.Tick | crates/core/src/upgrade.rs:378-424 | one poll is the step of the state machine |
| Watcher.Remembers | crates/core/src/upgrade.rs:296-322 | what the watcher remembers is a function of the polls alone |
| Watcher.Answers | crates/core/src/upgrade.rs:246-270 | each answer read off the polls, in both directions |
| Watcher.ReplacedOnlyWhenSure | crates/core/src/upgrade.rs:392-424 | `Replaced` exactly for a file found by two polls in a row, not the accepted one, that runs and that the guard does not refuse |
| Watcher.VerifiedOncePerChange | crates/core/src/upgrade.rs:301-303 | between two verifications of one file another file was confirmed |
| Watcher.GoneOncePerDisappearance | crates/core/src/upgrade.rs:380-389 | between two reports of absence the file was back |
| Watcher.ThrottledOnce | crates/core/src/upgrade.rs:411-417 | a refusal is reported once in a watcher's life |
| Watcher.ReportedRefusal | crates/core/src/upgrade.rs:411-417 | a refusal is reported exactly at the first confirmed change into the binary of the last restart less than 600 seconds after it |
| Watcher.PassedOver | crates/core/src/upgrade.rs:378-424 | nothing is answered exactly to a later refusal, to what is neither confirmed nor gone, and to a file that is still gone |
| Watcher.CoarseIsTheSecond | crates/core/src/upgrade.rs:404-410 | a recorded stamp is the size and the whole seconds since the epoch, if there are any |
| Watcher.RestartsAreApart | crates/core/src/upgrade.rs:426-437 | in a chain of processes two restarts in succession for one binary are at least 600 seconds apart, whatever the clock does between |
| Watcher.FlappingIsNotThrottled | crates/core/src/upgrade.rs:429-437 | two binaries taking turns are restarted for every time |
| HotReload.StepKeeps | crates/core/src/reload.rs:199-215 | every step, writes included, keeps the invariant that ties stamps to contents and published values to reads |
| HotReload.NoEditIsMissed | crates/core/src/reload.rs:199-223 | while the file exists and does not look changed, what was read last is what it holds |
| HotReload.LastReadIsOnDisk | crates/core/src/reload.rs:199-223 | for a reload among any edits, and any time until the next look: while the file does not look changed, what was read is what it holds, except exactly when it was missing at the look and there to be read |
| HotReload.AMissingFileCanBeMistaken | crates/core/src/reload.rs:37-50 | from every state at rest without a file there is a run to another, also without a file and looking unchanged, that serves the config of a file deleted since |
| HotReload.MistakenIsReachable | crates/core/src/reload.rs:37-50 | and such a state is reachable |
| HotReload.LiveIsTheLastGoodConfig | crates/core/src/reload.rs:195-198 | between reloads everything published comes from the last read that parsed |
| HotReload.ReloadSettles | crates/core/src/reload.rs:199-215 | a reload of a file that is there leaves it looking changed exactly if an edit fell after the look, and publishes nothing if what it read does not parse |
| HotReload.NotReadAgain | crates/core/src/reload.rs:243-248 | from then on no poll reads it until an edit or a hangup |
| HotReload.ComesToRest | crates/core/src/reload.rs:235-258 | from any state, in the middle of a reload or not, once nobody touches the file every run of at most twelve steps comes to rest |
| HotReload.EditIsPickedUp | crates/core/src/reload.rs:199-215 | from every reachable state with a file, whatever reload an edit fell into, after twelve steps without further edits what the file holds is what was read and published, or if it does not parse the last config that did |
| HotReload.EndpointsAreKnown | crates/core/src/reload.rs:162-192 | scopes are published before upstreams and they before endpoints, so an endpoint's server is known unless it was just deleted |

## Left out

- Transports, handshakes, OAuth, timeouts and backoff times: a dial is a nondeterministic outcome, and a service's liveness a flag.
- rmcp, tokio, axum and reqwest themselves: their locks, notifications, broadcast and bounded channels are modelled by what their documentation promises.
- The snapshot of a server's capabilities (`info`), status texts and error messages.
- Upstreams.UpstreamManager.Apply: runs as one method, with entries and channels in tables by identity instead of shared objects; `ReloadAmongUses` is about uses between its steps, and the interleavings of one entry's slot are those of `SlotProtocol`, whose decisions `Demand`, `Land` and `GiveUp` are proved to take.
- Backups.Store.NextKey: requires that the clock times 10000 fits 64 bits, which it does for some 58000 years; beyond that the source's multiplication overflows.
- Backups.Store.BackupFileAt: models another process by the files it has added between the listing and the copy, and requires keys below the largest 64-bit number, past which the source's addition overflows.
- Backups.RunOfBackups: is about runs that cannot use up 64 bits and no other process's files in the client's directory.
- ManagedState.EjectFile: is about a file that is there; a file deleted since the sync is passed over too.
- CaptureQueue.FlushIsABarrier: is about handing records to the sink; whether the file system keeps them is not part of this model.
- DriftStore.ChangedMeansRedefined: takes the hash as a parameter that does not collide; SHA-256 is not part of this model.
- Watcher.BinaryWatcher.Tick: the stat and the verification are arguments; running a binary and reading its output are not part of this model.
- Redaction patterns and the entropy test of captured bodies: library matching and floating point, heuristic by design.
- File modes, temporary files, locks on state files, fsync and I/O errors: a directory is a map from names to contents, and an operation that fails is not part of this model.
- Parsing and writing TOML, JSONC and the client formats: an entry is a map of fields, and a client's codec an `emit` function with the fields it preserves.
- Text is modelled as Unicode scalars; their UTF-8 order and the scalars' own order agree.
- The command line, rendering, prompts, the doctor, probes and the test server.
- Tool rules, client scopes, and the origin and token checks: each is settled by reading one function.
