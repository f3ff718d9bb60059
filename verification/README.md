# The vmsync console, modelled and proved

The console keeps a handful of JSON files, publishes one-shot operations to the agents that poll it,
applies what they report, and shows an operator two pages computed from the same reports. This
project models the parts where those things meet, and proves what they are supposed to guarantee.

* **The store.** `Schedules`, `Slices`, `Operations`, `FollowUps`, `Recording`, `Config` give the
  meaning of every edit, `Consequences` says what one reported outcome does to every file, and `StateStore.Store` is the store itself: a class whose methods load a
  file, change it in place and write it back. A ghost list records every file write in order, so a
  crash is "stop after a prefix of the writes".
* **Runs of the protocol.** `CrashRetry` (any crash, any retry), `RetryLimits` (exactly when),
  `Jammed` (batches that cannot be followed), `Runs` (any sequence of issuing, withdrawing and
  reporting), `Migration` (healing on each read against migrating once).
* **The pages.** `Fleet` is what both pages index; `Failover` and `FailoverPage` are the failover
  page, `Eligibility` the endpoint that judges a request again, `Inversion` the way from its button
  to the schedule, `Dashboard` the other page, and `Agreement` the two together.
* **Three small cores.** `Marker` (the `k=v` marker of an interrupted rebuild), `LongPoll` (the
  bounded wait of a configuration request) and `Timeouts` (how long a shutdown may take).

Code that computes is modelled by functions; code that updates maps, slices and counters in loops is
modelled by methods that do the same, each proved equal to a function of its inputs or of the old
state. The laws are lemmas about those functions. Two names are equal up to case when they fold
alike; map iteration is an arbitrary choice of the next key; a fresh id is a parameter not yet in
the ledger; instants are integers read from a clock that is a parameter.

## What turned out to be conditional

Where a promise of the code holds only sometimes, the code is modelled as it is and the condition
is part of the result.

* Crash and retry works exactly when a batch's schedule edits absorb every prefix of themselves
  (`RetryLimits.RetryWorksIff`). Two things one can see beforehand ensure it: of each inversion still
  to be followed up, the peer is another agent and the VM is listed once. Without either there are
  batches it fails for (`RetryLimits.SelfFleetDiffers`, `RetryLimits.DuplicateFleetDiffers`); that they
  suffice without being needed every time is `RetryLimits.OneSelfInversionRetries`. A list with a VM
  twice arises from no edit (`Schedules.EveryListStaysSorted`), so on an estate the store itself has
  built the first condition alone is enough (`RetryLimits.OrderedEstateIsSafe`).
* Healing on read is indistinguishable from migrating exactly when no record marks its follow-up
  done without a result (`Migration.HealingIsMigrating`).
* A withdrawn operation could be published again by exactly one kind of result, progress on an
  outcome whose follow-up was never marked (`Runs.ResultRepublishesIff`); no run gets there.
* The success of an inversion can be followed exactly when somebody live is enrolled for its peer
  (`Inversion.StrandedIff`); until then every batch whose first outcome for it is that success is
  refused whole, and nothing else in it is acknowledged (`Jammed.JammedForever`). An inversion the page
  offers is not stranded when every live agent reports the name it is enrolled under, up to case, and
  no domain name contains a colon (`Inversion.OfferedInversionIsFollowed`). The documentation of the
  failover page asks for neither; `Inversion.RenamedHostStrands` and `Inversion.ColonInANameConfuses`
  are fleets where it is stranded without the one and without the other.
* The two pages agree on split brain where names and keys can be told apart, nobody is revoked, and two
  reported ends of a pair name each other as reported. Even there the dashboard sees more: a source's
  row is about one target, the first promoted one it names, so every pair has its row exactly when no
  running promoted target stands behind another promoted one (`Agreement.PagesAgree`,
  `Agreement.OvershadowedFleetExists`).
* The endpoint looks a domain up without regard to case, although the page and the engine tell such
  names apart. Every domain is judged by its own row exactly when no agent has two different
  rows of one name up to case (`Eligibility.AllJudgedAsThemselvesIff`). Otherwise a restore of a
  copy that served can be accepted (`Eligibility.TwinFleetExists`), so what is promised of accepted
  resyncs, restores and role changes is promised of domains with no such namesake. The shutdown
  timeout is looked up the same way (`Timeouts.OwnTimeoutsIff`).
* A domain that is both a replica and a source is judged by its source alone, so a promoted target
  of its own does not withhold a resync (`Eligibility.RelayFleetExists`).
* The cadence map depends on the order of ranging exactly when two agents disagree about a VM name
  they share (`Config.CadenceIsStableIff`).
* A requested wait beyond 2^63 nanoseconds wraps to a smaller one, possibly negative
  (`LongPoll.HugeWaitsWrap`); the bounds hold all the same.

## Model

| member | source | states |
|---|---|---|
| Schedules.EditKeepsOrder | internal/store/store.go:1050-1202 | every edit (save, delete, switch, move, a move onto its own agent included) leaves every list strictly sorted by VM |
| Schedules.EveryListStaysSorted | internal/store/store.go:1050-1202 | the same over any interleaving of edits, and no list holds a VM twice |
| Schedules.EditIsExact | internal/store/store.go:1050-1202 | on an estate of sorted lists, what each edit does to every key: the keys it is about change as stated, and no other key does |
| Schedules.MoveLosesOnlyTheOccupant | internal/store/store.go:1134-1202 | on an estate of sorted lists, after a move every other entry is where it was, except one that sat at the destination key |
| Schedules.MoveChangesOnlyFour | internal/store/store.go:1160-1190 | on an estate of sorted lists, the moved entry differs from the original in VM, target host, enabled and, when the old source has a single disk directory, target directory, and in nothing else |
| Schedules.MoveConservesOccurrences | internal/store/store.go:1134-1202 | for any lists, duplicates included, between two agents or onto one: a move takes one occurrence from the list it leaves, and the list it goes to gains the redirected one in place of at most one |
| Slices.FilterFirstInPlace | internal/store/store.go:1140-1158 | the in-place filter keeps exactly the list without the first entry for the VM and hands that entry back |
| Slices.FilterAllInPlace | internal/store/store.go:1075-1090 | the in-place filter keeps exactly the entries for other VMs |
| Slices.FlagInPlace | internal/store/store.go:1099-1117 | switches exactly the entries for the VM, and says whether there was one |
| Slices.ReplaceOrAppend | internal/store/store.go:1050-1072 | the entry takes the place of the first one for its VM, or comes last |
| Operations.HealSettles | internal/store/operations.go:290-327 | healing is idempotent, frees exactly the stuck records and leaves everything else of a record alone |
| Operations.HealedIs | internal/store/operations.go:316-327 | progress filed as an outcome reads as an unknown outcome that says why, unless it already said something; any other record reads as it is |
| Operations.CreateAnswers | internal/store/operations.go:350-369 | from the file, which request to issue gets which answer: incomplete without agent, VM or kind, in flight beside an outstanding record of that VM up to case, accepted otherwise |
| Operations.IssuedIs | internal/store/operations.go:371-392 | what a record keeps of its request, and its id, time, deadline of fifteen minutes and audit entry, the last two unless the request named its own |
| Operations.CancelAnswers | internal/store/operations.go:404-437 | from the file, which request to withdraw gets which answer: accepted exactly for a record with no result at all that is not withdrawn; refused as running for unmarked progress |
| Operations.PublicationIsUnique | internal/store/operations.go:442-457 | sorted by distinct id, an agent's published operations form one list, whatever order the map is ranged over |
| Operations.PublicationIs | internal/store/operations.go:442-457 | from the file, what an agent is handed: its outstanding operations, each once, in order of id |
| Operations.PlanIsPointwise | internal/store/operations.go:467-546 | a batch acts on each record by itself: the planned ledger is every record having absorbed the results that name it; nothing changed means nothing to carry out |
| Operations.AbsorbTwice | internal/store/operations.go:480-528 | absorbing a batch twice is absorbing it once |
| Operations.ReplayIsInert | internal/store/operations.go:480-528 | a batch sent again to the ledger it produced plans no consequence and no audit closing |
| FollowUps.ServingExists | internal/store/operations.go:651-662 | looking a host up finds an agent exactly when an unrevoked one is enrolled under that name up to case, and finds nothing else |
| FollowUps.WordSettles | internal/store/operations.go:555-647 | after an agent's follow-ups, what they moved is gone from where it was and what they switched is as last switched, from any estate that lists each VM to be moved at most once, if no move is onto its own agent |
| FollowUps.WordIsIdempotent | internal/store/operations.go:555-647 | under the same two conditions, running one agent's whole sequence of follow-ups again changes nothing |
| FollowUps.PrefixIsAbsorbed | internal/store/operations.go:555-647 | under the same two conditions, stopping after any prefix of the follow-ups and starting over ends where the uninterrupted run ends |
| Consequences.DonePromotionStopsItsSource | internal/store/operations.go:560-588 | a promotion or restore that succeeded switches off the entry of the peer VM at the live agent of the peer host, the first by hostname, and changes no other entry; nothing without a peer or such an agent |
| Consequences.DoneResyncSwitchesOn | internal/store/operations.go:630-644 | a reinit or force-clean that succeeded switches its own agent's entry on and changes no other |
| Consequences.DoneInversionMovesItsEntry | internal/store/operations.go:590-607 | on sorted lists, an inversion that succeeded moves its entry to the live agent of the peer host, renamed, switched off, aimed at the host it comes from and at the one directory of the disks there, and changes no other; it is refused exactly when there is no such agent |
| Consequences.OtherwiseSchedulesStay | internal/store/operations.go:555-647 | nothing else changes a schedule: progress, failures, shutdowns, role changes, inversions without a peer, operations unknown, another agent's or followed up already |
| Consequences.OneOutcomesLedger | internal/store/operations.go:480-531 | a result changes the record it names, if that is the agent's and not finished with, and no other |
| Consequences.OneOutcomesAudit | internal/store/operations.go:533-545 | an outcome closes the audit entries of its record with its state and its error, and no other |
| Consequences.SingleDiskDirIs | internal/store/store.go:1211-1243 | which directory a moved entry is pointed at: the one all disks with a path share, of the first domain of that name up to case |
| FollowUps.LookupIgnoresTies | internal/store/store.go:803-810 | which agent serves a host does not depend on how the roster's sort leaves equal hostnames, when at most one live agent answers to it |
| Recording.MoveHasNoMiddle | internal/store/store.go:1119-1202 | on an estate of sorted lists, a move to another key is one write: no crash point finds the entry under neither agent, or under both |
| Recording.PerformIsTwoFiles | internal/store/operations.go:467-546 | carrying out a batch's effects changes schedules by the edits and the audit log by the closings, and no other file |
| Recording.CutAtEffect | internal/store/operations.go:467-546 | a crash between file writes is a crash between effects |
| Recording.CompletedFiles | internal/store/operations.go:467-546 | every file after a batch that completes |
| Recording.AuditPrefixIsAbsorbed | internal/store/store.go:1351-1371 | audit outcomes after a prefix of the closings and then all of them are those of the uninterrupted run, whatever the clock |
| Recording.RetryFromEffect | internal/store/operations.go:467-546 | for an agent whose open inversions have another agent as peer and a VM listed once: the batch again, from schedules and audit that part of it has reached, completes and ends in the uninterrupted state |
| CrashRetry.CrashThenRetry | internal/store/operations.go:459-546 | under that same condition: crash after any prefix of the writes of a batch that completes, run it again: same schedules, same operations, same audit outcomes |
| RetryLimits.RetryWorksIff | internal/store/operations.go:459-546 | with no condition on the fleet: crash and retry works at every point of a batch's writes exactly when its schedule edits absorb every prefix of themselves |
| RetryLimits.OrderedEstateIsSafe | internal/store/operations.go:459-546 | on an estate of sorted lists, as edits leave it, that condition is only that no open inversion's peer is its own agent |
| RetryLimits.SelfInversionRetryDiffers | internal/store/operations.go:585-604 | a ledger, a batch and a cut at which a retry differs: two inversions whose peer is the reporting agent itself |
| RetryLimits.SelfFleetDiffers | internal/store/operations.go:585-604 | such files in full |
| RetryLimits.DuplicateRetryDiffers | internal/store/store.go:1134-1202 | a ledger, a batch and a cut at which a retry differs: one inversion of a VM its agent lists twice |
| RetryLimits.DuplicateFleetDiffers | internal/store/store.go:1134-1202 | such files in full |
| RetryLimits.OneSelfInversionRetries | internal/store/store.go:1134-1202 | a single inversion onto its own agent retries at every cut |
| Jammed.RefusedIffJammed | internal/store/operations.go:585-604 | a batch is refused exactly when its first outcome for an inversion still to be followed up is success while the store finds no agent for the peer |
| Jammed.JammedBatchLeavesTheLedger | internal/store/operations.go:528-546 | such a batch leaves the ledger alone, wherever it is cut |
| Jammed.JammedForever | internal/api/agents.go:103-129 | however often the agent reports that success, inventory and all and cut anywhere, nothing of its results is acknowledged: publications and answers to new requests stand still |
| CrashRetry.ManyCrashesThenRetry | internal/store/operations.go:459-546 | the same, under the same condition, after any number of crashed attempts |
| CrashRetry.ReportThenRetry | internal/api/agents.go:103-129 | the same, under the same condition, for the whole report request, whose first write is the inventory, with the clock moved on |
| CrashRetry.EveryCutIsAStep | internal/store/operations.go:467-546 | wherever a batch stops, completed or not, its ledger is the old one or the planned one |
| CrashRetry.SeenIsAlike | internal/store/store.go:963-992 | storing a report changes no answer to which agent serves a host or what an agent's host is called |
| CrashRetry.SavedIs | internal/store/store.go:963-992 | what storing a report changes: the report, and of its agent alone the time it was seen and the version and mode it states |
| Runs.EveryRunIsSound | internal/store/operations.go:350-528 | over every run of issuing under fresh ids, withdrawing and reporting, from a ledger that is so to begin with: no two operations in flight for one VM up to case, a follow-up is marked done exactly when an outcome is stored, and what stopped being published never is again |
| Runs.ResultRepublishesIff | internal/store/operations.go:246-251 | the one way a result could bring an operation back |
| Runs.PublishedIs | internal/store/operations.go:246-251 | from the file, what is published: what is not withdrawn and has no result but unmarked progress |
| Runs.WithdrawalIsUnheard | internal/store/operations.go:404-437 | over any run, a withdrawal is accepted exactly while nothing about the operation is on record and it is not withdrawn |
| Runs.IssuingPublishes | internal/store/operations.go:350-397 | from a ledger marked as the store marks it, issuing publishes that operation to its agent and changes nothing else that is published |
| Runs.CancellingWithdraws | internal/store/operations.go:404-437 | from such a ledger, withdrawing stops that operation being published and nothing else |
| Runs.ReportingAcknowledges | internal/store/operations.go:480-528 | from such a ledger, a stored report withdraws exactly its agent's operations it brings an outcome for; progress withdraws nothing |
| Runs.FirstOutcomeWins | internal/store/operations.go:480-528 | of an operation nothing was heard about, over successful batches, with duplicates, reordering, replays and other agents' results: the stored result is the agent's first outcome or else its latest progress, and the follow-up ran once if there was an outcome and never otherwise |
| Runs.FirstStoredOutcomeWins | internal/store/operations.go:467-546 | the same over whole runs, refused and interrupted reports, new operations and withdrawals included, of what the stored reports said |
| Migration.HealingIsMigrating | internal/store/operations.go:274-327 | healing on every read and migrating once show the same answers, publications and listings over every trace, exactly when no follow-up is marked done without a result |
| Migration.CommandAgrees | internal/store/operations.go:274-327 | one command keeps the two builds in step and shows the same |
| Migration.UnmarkedTellsApart | internal/store/operations.go:317-327 | a trace that tells the two builds apart otherwise |
| Config.CadenceIsStableIff | internal/store/store.go:1303-1313 | the cadence map is the same for every order of ranging exactly when agents agree on each VM name they share |
| Config.LastAgentDecides | internal/store/store.go:1303-1313 | any agent that paces a VM can be the one whose interval is served, if ranged over last |
| Config.CadenceIs | internal/store/store.go:1303-1313 | the cadence served for a VM is the interval of some enabled entry for it with a positive one, and none is served only when there is no such entry |
| Timeouts.ResolveShutdownTimeout | internal/web/handlers.go:999-1016 | the loop finds the first entry for the VM up to case, and falls back to the estate's default and then the engine's |
| Timeouts.ResolveIs | internal/store/store.go:713-728 | the VM's own timeout before the estate's, and five minutes without either |
| Timeouts.EveryTimeoutIsInRange | internal/store/store.go:713-740 | whatever is saved through its check, switched, moved or deleted, a shutdown is issued with 30 to 3600 seconds |
| Timeouts.FirstTwinDecides | internal/web/handlers.go:1008-1014 | the entry consulted is the first with that name up to case |
| Timeouts.OwnTimeoutsIff | internal/web/handlers.go:1008-1014 | every entry's own timeout is the one used exactly when no two entries of one name up to case differ in it |
| StateStore.Store.LoadOperations | internal/store/operations.go:274-288 | the ledger with every record healed, the file untouched |
| StateStore.Store.ListOperations | internal/store/operations.go:330-343 | the record of every id once, newest first |
| StateStore.Store.CreateOperation | internal/store/operations.go:350-397 | accepts exactly a complete request for a VM with nothing outstanding in the file; writes the ledger with that one record more, or nothing |
| StateStore.Store.CancelOperation | internal/store/operations.go:404-437 | accepts exactly when the file has the record, with no result and not withdrawn; writes that one change, or nothing |
| StateStore.Store.PendingOperationsFor | internal/store/operations.go:442-457 | the agent's pending operations sorted by id, for every order of ranging |
| StateStore.Store.AgentIDForHost | internal/store/operations.go:651-662 | the agent enrolled for a host |
| StateStore.Store.HostnameForAgent | internal/store/store.go:1245-1256 | the host an agent enrolled |
| StateStore.Store.FindSingleDiskDir | internal/store/store.go:1211-1243 | the directory all of a VM's reported disks share, if there is exactly one |
| StateStore.Store.SaveReport | internal/store/store.go:963-992 | the report and then the stamped roster, two writes, nothing else |
| StateStore.Store.SetScheduleEntry | internal/store/store.go:1050-1072 | the new estate, in one write |
| StateStore.Store.DeleteScheduleEntry | internal/store/store.go:1075-1090 | the new estate, in one write |
| StateStore.Store.SetScheduleEnabled | internal/store/store.go:1099-1117 | the new estate in one write, and no write at all when there is no such entry |
| StateStore.Store.MoveScheduleEntry | internal/store/store.go:1134-1202 | the moved entry in one write, and no write at all when there is none to move |
| StateStore.Store.CompleteAudit | internal/store/store.go:1351-1371 | every entry of that id is closed with the outcome, and no other is touched |
| StateStore.Store.ApplyFollowUp | internal/store/operations.go:555-647 | the follow-up decided for the outcome, or a refusal with nothing written |
| StateStore.Store.RecordOperationResults | internal/store/operations.go:467-546 | exactly the writes, final files and answer of the recording on which the crash theorems rest, refusals part way included |
| StateStore.Store.HandleReport | internal/api/agents.go:103-129 | inventory first, results second, as one sequence of writes |
| StateStore.Store.AgentConfigFor | internal/store/store.go:1270-1320 | the settings, the agent's schedule, its publication, and the cadence map gathered along some order of all agents |
| Fleet.SightingsAre | internal/web/failover.go:1207-1225 | what the pages see: every domain of every agent's report, under the host the report names or else the one enrolled |
| Fleet.FailoverIndexHolds | internal/web/failover.go:1207-1225 | the failover page's index has a key exactly when a live agent reports such a domain, and holds one such |
| Fleet.FailoverIndexIsLast | internal/web/failover.go:1207-1225 | namely the last |
| Fleet.IndexPrefersTheLiving | internal/web/view.go:437-466 | the dashboard's index holds the last live sighting of a key if there is one, and the last revoked one otherwise |
| Fleet.DashboardIndexIs | internal/web/view.go:437-466 | by place: the sighting held is of that host and VM up to case, the last of its kind, and a live one if there is any |
| Fleet.IndexIgnoresOrder | internal/web/view.go:437-466 | with at most one live and one revoked reporter of a key, every permutation of the agents gives the same index |
| Fleet.RefKeyInjective | internal/web/failover.go:1527-1529 | two references whose VM names hold no colon share a key exactly when their hosts agree up to case and blanks and their VMs up to blanks |
| Fleet.SplitRefIs | internal/web/view.go:685-691 | a reference splits at its last colon, and names no host without one |
| Failover.PickIsTiered | internal/web/failover.go:1497-1521 | the target picked is the first promoted one, else the first that served and was not released, else the first |
| Failover.PickIsFirst | internal/web/failover.go:1497-1521 | by place: the first promoted target, else the first that served and is no source, else the first |
| Failover.RowsAreTheParticipants | internal/web/failover.go:1256-1363 | there is a row for exactly the domains with a source or targets |
| Failover.RowSays | internal/web/failover.go:1256-1335 | every field of a row, from what the domain's agent and its peer's report |
| Failover.ReportedIs | internal/web/failover.go:1318-1321 | with colon-free VM names, what is found under a reference is of its host up to case and blanks and of its VM, and something is found whenever there is such a one |
| Failover.AlarmsAre | internal/web/failover.go:241-259 | when a row alarms, from what is reported: running although fenced, by role or by an undone fence; running beside a promoted and running peer, surely while that was reported within five minutes |
| Failover.PageStandsByClass | internal/web/failover.go:1433-1464 | the order of the page, from what is reported: alarms, promoted, sources of promoted peers, paused, the rest, each by host and VM |
| Failover.RankMeansDecision | internal/web/failover.go:811-821 | a row ranks above the rest exactly when it needs a decision; the two split-brain states exclude each other and cover the shape |
| Failover.PageIsOrdered | internal/web/failover.go:1350-1363 | the rows are a permutation of the participants sorted by rank, host and VM, and none that needs a decision follows one that does not |
| FailoverPage.FillRow | internal/web/failover.go:1256-1335 | the row filled field by field is the row of that sighting |
| FailoverPage.ListOperations | internal/web/failover.go:1365-1423 | keeps every unfinished operation and the first fifty finished ones, in order, with exact counts of what is pending and what is left out |
| Failover.ViewSays | internal/web/failover.go:1365-1410 | the word an operation's state is shown as, whether it is over, and the host it is shown under |
| FailoverPage.BuildFailoverView | internal/web/failover.go:1191-1425 | the whole page: its rows in order, its counters as numbers of reported domains in those states, a domain in two kinds of trouble counted once among the urgent, and its operations |
| FailoverPage.PageCountsTheLedger | internal/web/failover.go:1365-1423 | what the page counts as pending is the number of the store's pending records, what it leaves out is what is finished beyond fifty, and it shows the rest |
| FailoverPage.RefusalIsOnThePage | internal/store/operations.go:358-369 | a complete request is refused as in flight exactly when some unfinished row of the page is about that VM up to case |
| Eligibility.RefuseIneligible | internal/web/handlers.go:813-891 | the endpoint's verdict is that of the first row of the freshly built page with that agent and name |
| Eligibility.JudgedByItself | internal/web/handlers.go:826-832 | a domain and its namesakes up to case on one agent are each judged by their own row exactly when they have but one row |
| Eligibility.AllJudgedAsThemselvesIff | internal/web/handlers.go:826-832 | over the whole page: every domain is judged by its own row exactly when no agent has two different rows of one name up to case |
| Eligibility.RequestsAreAnswered | internal/web/handlers.go:834-891 | for a domain none of whose namesakes up to case on its agent has another row, every request of every kind: accepted, or sent back for the name to be typed, exactly when what it and its peer report says so |
| Eligibility.OthersAreNotInView | internal/web/handlers.go:826-862 | a request is answered as not in view exactly when no live agent of that id reports a domain of a pair by that name up to case |
| Eligibility.ServedTwinIsRestored | internal/web/handlers.go:826-832 | the fleets where it fails: of two paused replicas named alike up to case, a restore of the second, which served, is accepted on the strength of the first |
| Eligibility.TwinFleetExists | internal/web/handlers.go:826-832 | such a fleet in full, through the page |
| Eligibility.SourceRowIsAboutTheCopyThatMatters | internal/web/failover.go:1311-1333 | a source with a promoted or unreleased target has a row about such a target, a promoted one if any, with resync withheld and inversion offered for the roles that allow it |
| Eligibility.ResyncIsOfferedIff | internal/web/failover.go:723-743 | when a source's row offers a resync, in terms of all its reported targets |
| Eligibility.AcceptedResyncIsSafe | internal/web/handlers.go:863-891 | page and endpoint together, for a source none of whose namesakes up to case on its agent has another row: a resync is accepted exactly when no reported target is promoted or unreleased and the first has no promotion record |
| Eligibility.RelayIsNotExamined | internal/web/failover.go:1311-1316 | when a resync of a domain that is also a replica is accepted: its own source decides, its targets play no part |
| Eligibility.RelayOverwritesItsPromoted | internal/web/failover.go:1311-1316 | so it is accepted over a promoted and running target of its own when nobody reports its source |
| Eligibility.RelayFleetExists | internal/web/failover.go:1311-1316 | such a fleet in full, through the page |
| Eligibility.PromotedIsFinishedOrStopped | internal/web/handlers.go:834-891 | through page and endpoint: a promoted replica may be finished exactly while it is stopped, and stopped exactly while it runs and its name is typed |
| Eligibility.ServedCopiesAreKept | internal/web/failover.go:462-547 | through page and endpoint, for a domain none of whose namesakes up to case on its agent has another row: exactly when a restore of it and a return of it to target are accepted, never while it runs promoted or has served unreleased |
| Eligibility.BuildOperation | internal/web/handlers.go:622-742 | which forms become an operation and which fields each kind keeps |
| Inversion.SeenPeerIsEnrolled | internal/web/failover.go:1207-1225 | where every live agent reports the name it is enrolled under, up to case, and no VM name holds a colon: a row whose peer is seen names a host that a live agent is enrolled under |
| Inversion.StrandedIff | internal/store/operations.go:585-604 | the outcome of an inversion cannot be followed exactly when nobody live is enrolled under the peer's name |
| Inversion.OfferedInversionIsFollowed | internal/web/failover.go:382-397 | under the same two conditions: an inversion the row offers, carrying that row's peer, is followed by a move to an agent serving that host, as long as the peer's agent is still enrolled |
| Inversion.UnservedHostStrands | internal/web/failover.go:382-397 | a source whose promoted target is found under its key, but whose reference names a host nobody live is enrolled under, is offered an inversion whose success is stranded |
| Inversion.RenamedHostStrands | internal/web/failover.go:1218-1223 | such a fleet in full, no colon in any name, with one host reporting another name than it is enrolled under |
| Inversion.ColonInANameConfuses | internal/web/failover.go:1527-1529 | such a fleet in full, every host enrolled as it reports, with a colon in one VM name |
| Dashboard.WorstComesFirst | internal/web/view.go:613-631 | no pair follows one that is less bad: certain split brain first, then status |
| Dashboard.PairsAreTheReplicas | internal/web/view.go:479-541 | there is a pair for exactly the reported replicas |
| Dashboard.PairSays | internal/web/view.go:485-531 | every field of a pair, from what its target and its source report |
| Dashboard.AlarmingPairsAre | internal/web/view.go:228-271 | which pairs are in either alarm |
| Dashboard.TwoPassesFindTheMissing | internal/web/view.go:543-608 | collecting what dangles and then striking out what the pairs cover finds exactly the missing references, in order and with multiplicity |
| Dashboard.MissingAre | internal/web/view.go:543-608 | a reference is missing exactly when a non-replica source names it, it has a host part, resolves to no reported domain, and no replica of that name names that source |
| Dashboard.MissingOnTheBoardAre | internal/web/view.go:543-608 | the same from the reports alone, without the index and the pairs |
| Dashboard.PeerFlagsAre | internal/web/view.go:560-570 | whether a missing reference's peer is known and whether it was heard from within five minutes |
| Dashboard.NamedHostsAre | internal/web/view.go:486-555 | which hosts are named: by a domain's source, or by its targets when it has none |
| Dashboard.UnprotectedAre | internal/web/view.go:575-579 | which domains are listed as unprotected |
| Dashboard.CountsAreExact | internal/web/view.go:525-576 | the count under a key is the number of pairs of that status, and of certain alarms and unprotected domains under theirs |
| Dashboard.BuildDashboard | internal/web/view.go:386-684 | the whole board: pairs worst first, the two alarms, missing targets with multiplicity, missing agents, each once, exactly the hosts some reported domain names and no agent reports for, unprotected domains, counts and agents |
| Agreement.PagesAgreeOnAPair | internal/web/view.go:228-271 | for a mutual pair in a fleet whose keys each belong to one domain, no VM name with a colon: what the source's row sees about the target the dashboard sees, and the converse holds exactly when the target, if it has the shape, is the first promoted one the source names; each certain alarm is the shape with the other end's report current |
| Agreement.OnePromotionIsPicked | internal/web/failover.go:1497-1521 | which is so when at most one of the source's targets is promoted |
| Agreement.PagesAgree | internal/web/failover.go:750-788 | in such a fleet, none revoked, pairs mutual where both ends are reported: every source's row with the split-brain shape has its pair on the dashboard about the same two domains, and every such pair has its row exactly when no running promoted target is overshadowed by another promoted one; with both reports current both raise the certain alarm |
| Agreement.StoppedPromotionHidesTheRunning | internal/web/failover.go:1497-1521 | where they differ: a source whose first target is promoted and stopped and whose second is promoted and running |
| Agreement.OvershadowedFleetExists | internal/web/failover.go:1497-1521 | such a fleet in full, through both pages |
| Marker.RoundTrip | internal/web/replica_incomplete.go:106-142 | a printed marker of trimmed values without commas, within the cap, is read back field for field |
| Marker.UnknownFieldChangesNothing | internal/web/replica_incomplete.go:106-142 | within the cap, a field with an unknown key, at any position, changes nothing but the raw text |
| Marker.ParseIsMeaning | internal/web/replica_incomplete.go:106-142 | within the cap, trimming the whole text first makes no difference to what the fields say |
| Marker.ParsePartialCopy | internal/web/replica_incomplete.go:106-142 | the loop over fields computes the parse those laws are about |
| Marker.ParsedIs | internal/web/replica_incomplete.go:75-141 | the text kept is the trimmed one up to the cap, and it reads as understood exactly for the four known verbs |
| LongPoll.EffectiveWait | internal/api/agents.go:137-160 | the granted wait is at most five minutes and at most what was asked for, for every request; exactly the lesser of the two below 2^63 nanoseconds; none for none |
| LongPoll.Hold | internal/api/agents.go:160-185 | one round more than the sleeps that fit; a configuration only with another tag, at the first round that has one; nothing new only at or after the deadline |
| LongPoll.HandleConfig | internal/api/agents.go:137-185 | both bounds for every requested wait, wrap-around included |
| LongPoll.SleepsAreFew | internal/api/agents.go:160-185 | all but the last sleep are whole intervals within the wait |

## Left out

- HTTP plumbing, cookies, CSRF, templates, authentication, enrolment, tokens, revoking, the session manager, password hashing: beside the protocol.
- Reading and writing JSON: one file write is atomic, and an I/O error is a step that did not happen. JSON encoding, and the difference between an absent list and an empty one, are not modelled.
- The entity tag of a configuration: a tag in `LongPoll` stands for it, as an injective name of the configuration.
- The agents and the engine: they may send any results in any order. Nothing is claimed about how often something runs on a hypervisor.
- StateStore.Store.CreateOperation: does not draw its id, which is a parameter not yet in the ledger; the source draws a random one.
- StateStore.Store.CompleteAudit: the time an entry was closed is written but not compared after a retry, which closes it again at a later time.
- StateStore.Store.AgentConfigFor: the settings are a parameter, loaded beforehand; an empty cadence map, which the source leaves out, is an empty map.
- Operations.HealSettles: a healed record's explanatory error text is a constant, so its wording is not modelled.
- Slices.FilterFirstInPlace: the slice is an array of its own, freshly decoded; that the backing array is shared with nothing else is how it is built here, not something proved of the decoder.
- Eligibility.BuildOperation: the timeout and whether the restore point is still reported are parameters; the wording of refusals and the audit detail are left out.
- Eligibility.RefuseIneligible: refusals carry no text.
- FailoverPage.BuildFailoverView: leaves out fields that are only shown (promotion record details, armed fences, restored-from record, verification dates), dates and ages as text, and free storage figures.
- Dashboard.BuildDashboard: leaves out ages and dates as text and fields that are only shown; the key of a covered reference is a triple instead of a text joined by zero bytes.
- Sorting: the model's sort keeps ties in order and the source's need not. Agents with equal hostnames (a re-enrolled host) and operations issued in the same second are taken in a stable order; `FollowUps.LookupIgnoresTies` says when the former makes no difference.
- Text: letters are folded and blanks trimmed as in ASCII, one character per byte, so the cap of 512 bytes is one of 512 characters.
- StateStore.Store.FindSingleDiskDir: directories are taken of clean paths, without the cleaning a path library adds.
- Times are whole seconds on the pages and integers of nanoseconds in the long poll; a duration between instants does not saturate.
- Profile, template and preset validation, the schedule and template pages: flat case lists and joins that would only add easy members.
