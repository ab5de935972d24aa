# Proofs about the survey exchange

A Dafny model of the parts of this Django application where several workers
share rows: the profile reuse allocator, Toluna notification ingestion,
supplier callback delivery, inventory synchronization with its leases and local
ids, and the caches versioned by a generation. Final-ID reconciliation, the
dashboard's time and client buckets, the hierarchy closure and the outbound link
are modelled as the loops they are.

`dafny verify dfyconfig.toml` checks everything.

## How it is modelled

**Interleavings.** A database transaction that locks what it reads is one atomic
step. A worker has a program counter and any worker may take the next step; time
may pass, rows may arrive, and a worker that dies is one that is never scheduled
again. A `Run` is a sequence of states and enabled steps of any length, so a
theorem about every state of a `Run` is about every interleaving. Where a value
is read before the lock (the month, the two counts of the monthly baseline, the
clock of a commit) each read is a step of its own. Where lookups or a preload run
outside the transaction that writes (Toluna deliveries, inventory batches) they are
steps of their own too, or the write carries what its preload saw. One commit of the
allocator is one step because its attempt row serializes the attempt and its
`ProfileReuseState` row serializes the UID within the integration (MySQL read
committed); commits for different UIDs and attempts touch disjoint rows.

**Code that updates rows** is also written as classes and loops
(`ReuseStore.Store`, `SupplierCallback.Audit`, `InventorySync.Surveys`, ...) whose
contracts end in the state that the specification functions give. The theorems
are about those functions.

**Assumptions** about timing are parameters or settings, and the result is an
equivalence: the property holds of every run exactly when the assumption does, and
the other direction is a bad run from the empty state. The supplier callback has a 30-second claim while
its task may run for 60 (`surveys/tasks.py:364-372`), so "delivered is final" is
an assumption about the deployment there; the sync lease is never shorter than
the task limit, so there it is a theorem. All workers share one clock that never
goes back, and settings never change during a run.

**History columns.** `Event.stamp` (the instant a commit wrote to the state row),
`Event.month`, the callback's `State.late`, `Reader.due` and `floor` are not columns. They record
what happened so that a property can mention it.

| module | code |
|---|---|
| ReuseModel, ReuseMachine, ReuseInvariants, ReuseTheorems | `prescreener_vault/reuse.py` as transactions, steps, invariants and the promises of every run |
| ReuseLimits, ReuseStamp | the promises that need an assumption, with the exact assumption; the stamp of a vault row |
| ReuseMatches, ReuseStatus, ReuseStore | which profiles fit a respondent, by bounds and answers; the budget cards; the same functions updating rows in place |
| TolunaQuota, TolunaInbox, TolunaDeliveries | `surveys/toluna_notifications.py`: quota status; respondent events; overlapping deliveries of one payload |
| ReplayBatch | `surveys/toluna_notifications.py`: the bounded pass after a sync |
| SupplierCallback | `surveys/supplier_callbacks.py` |
| InventorySync, InventoryRuns, ProviderSnapshot, QuotaBatch | `surveys/services.py`: one sync, overlapping syncs; `surveys/provider_services.py` |
| SyncLease, LeasedSyncs, LocalIds | `surveys/models.py`, `surveys/tasks.py`: the lease, syncs under it, local ids |
| GenerationCache, SingleFlight | `accounts/signals.py`, `accounts/access.py`, `config/cache_utils.py`, `surveys/project_cache.py` |
| FinalIds | `surveys/final_ids.py` |
| DashboardWindow, ClientShare | `surveys/dashboard.py` |
| Hierarchy, OutboundUrl | `accounts/access.py`, `surveys/survey_flow.py` |
| Counting | counting and set-size lemmas |

## Where the code does less than it says

- Two reuse events of one UID can be closer than the minimum interval, down to the
  same `created_at`: the interval is checked between clock readings taken before
  the locks. `ReuseLimits.SpacingIff` says how close, for any bound on that delay.
- Targets can fall and be exceeded when an attempt stamped in one month
  (`initiated_at` is set before the insert, surveys/models.py:506) becomes
  visible in the next: `ReuseLimits.TargetsNeverFallIff` and `WithinBudgetIff` say
  for which installations that cannot happen.
- A late failing callback worker overwrites a delivered marker
  (`SupplierCallback.LateWorkerOverwrites`); `DeliveredFinalIff` is the exact bound.
- The `remaining` of a quota depends on the order of notifications
  (`TolunaQuota.RemainingDependsOnOrder`), except exactly when
  `TolunaQuota.RemainingOrderIff` says so; its status and its being positive never do.
- A payload can get a second notification row. `TolunaDeliveries.OneRowIff` says exactly
  when: its deliveries resolved differently, and no unlinked row was stored before the
  first linked delivery looked for one. So a linked first delivery and a later change of
  its link is one way, and two deliveries that both look before either inserts, with the
  inventory committed in between, is another (`TwoRows`). Only payloads whose deliveries
  all resolve alike are safe in every interleaving (`OneRowAlwaysIff`).
- Two overlapping inventory syncs can both succeed, both list a survey, and leave it
  closed (`InventoryRuns.OverlappingRunsClose`): with `wait=true` (surveys/views.py:3948-3953)
  and in the management command (surveys/management/commands/sync_surveys.py:12) the sync
  runs outside the lease. A batch whose preload is overtaken by another close does not
  reopen what it lists either (`StalePreloadStaysClosed`). `LiveIffLastTouch` is the exact
  condition.
- An undo writes back the stamp its own reservation found, over any later reservation
  of the row, and leaves the age columns as the reservation wrote them. For every
  minimum interval `ReuseStamp.UndoneOutOfOrder` is a run of the allocator in which a
  committed reuse loses its stamp that way; `RunStampIff` says in which runs the stamp
  is right after every step.
- A sync that overwrites a quota replays only a notification received since the sync
  began, and no more than 200 in all. An older one that is still the newest is lost
  (`QuotaBatch.OldClosureIsLost`); `ReplayBatch.BoundedSyncShowsNewestIff` is the exact
  condition.
- A client and an unassigned survey whose company name is that client's id share a row
  of the dashboard (`ClientShare.MergedIff`).
- A local id outgrows its column after 99,999,999 in a month (`LocalIds.FitsColumnIff`).

## Model

| member | source | states |
|---|---|---|
| ReuseTheorems.WindowLimit | prescreener_vault/reuse.py:479-530 | In every state of every run, every closed interval as long as the window, wherever it starts, holds at most `max_uses_per_window` events of one UID in one integration. |
| ReuseTheorems.EveryWindowBounded | prescreener_vault/reuse.py:505-511 | A limit checked only for the window that ends at a commit bounds all windows. |
| ReuseTheorems.MinimumInterval | prescreener_vault/reuse.py:480-530 | Stamps written to one UID's state row are a minimum interval apart; their events at least that less the first one's lag. |
| ReuseLimits.SpacingIff | prescreener_vault/reuse.py:480-530 | For every interval, delay and distance: in all runs with that minimum interval whose commits are delayed by no more, reuses of one UID are that distance apart if and only if the distance is at most the interval less the delay (or zero). |
| ReuseLimits.SecondReuseRun | prescreener_vault/reuse.py:480-530 | The failing half: a run from the empty tables, two workers and one delayed commit, whose two events of one UID are exactly the interval less the delay apart. |
| ReuseTheorems.NoSharedUid | prescreener_vault/reuse.py:483-513 | In every state of every run no two attempts on a survey share a UID through either column. |
| ReuseTheorems.OneEventPerAttempt | prescreener_vault/reuse.py:484-527 | An attempt has a provider UID exactly when it has an event, at most one event, and that event's UID. |
| ReuseTheorems.BudgetAccounting | prescreener_vault/reuse.py:225-259 | In every interleaving `allocated_reuses` is both pools plus the claims in flight; without late attempts it is never above `target_reuses`. |
| ReuseTheorems.PoolsCountEvents | prescreener_vault/reuse.py:255-259 | A pool counter plus the marks in flight is the number of events committed on that month's slots for that pool. |
| ReuseLimits.TargetsNeverFallIff | prescreener_vault/reuse.py:90-105 | For every configuration: stored targets never fall in any run if and only if no attempt becomes visible after its month is over, or no integration with surveys has reuse enabled, a positive percentage, and an age group and a gender it admits. |
| ReuseLimits.WithinBudgetIff | prescreener_vault/reuse.py:225-246 | Under exactly the same condition no run ever has more slots allocated than the target. |
| ReuseLimits.LateAttemptLowersTarget | prescreener_vault/reuse.py:225-246 | The failing half, for any integration that reuses: a bootstrap target and its claims, then one late attempt of the previous month. |
| ReuseTheorems.UsageConserved | prescreener_vault/reuse.py:425-449 | A vault row's `usage_count` is one, plus its committed events, plus the reservations workers hold on it. |
| ReuseTheorems.CompensationNeverBlocked | prescreener_vault/reuse.py:248-252 | Whenever a worker is about to undo a reservation or release its slot, the guard of that update is true. |
| ReuseTheorems.NothingLeftOver | prescreener_vault/reuse.py:570-591 | When all workers have finished, usage counts and slots are exactly the committed events: those that gave up left nothing. |
| ReuseTheorems.FiveDistinctCandidates | prescreener_vault/reuse.py:570-588 | A worker reserves at most five candidates and none twice. |
| ReuseTheorems.OwnClientsOnly | prescreener_vault/reuse.py:363-373 | In every state of every run each event reuses a profile of its integration's own client, of a gender the policy admits, submitted at least the first delay before the event. |
| ReuseTheorems.BudgetIsShareOfTraffic | prescreener_vault/reuse.py:69-105 | In every state of every run a stored target is at most the policy's percentage of the traffic, which is the larger of last month's attempts and those since this month began; without late attempts so are the slots in use. |
| ReuseModel.TargetIsFloor | prescreener_vault/reuse.py:69-73 | A target is the largest whole number within the percentage of the baseline. |
| ReuseInvariants.StepKeepsInv | prescreener_vault/reuse.py:535-591 | Every step of every worker keeps all invariants of workers, identities, events, time, budget and vault. |
| ReuseInvariants.ClaimRaisesTarget | prescreener_vault/reuse.py:225-237 | Where attempts are never late, a claim with a reading of any age never lowers baseline or target. |
| ReuseInvariants.PreviousAttemptsFixed | prescreener_vault/reuse.py:93-100 | Where attempts are never late, no step changes the traffic of a month that is over. |
| ReuseInvariants.StepSeparates | prescreener_vault/reuse.py:490-504 | The step form of survey-wide exclusion: only creation and a checked commit bring a UID to a survey. |
| ReuseStatus.RemainingIffClaimable | prescreener_vault/reuse.py:127-164 | The card's `remaining_reuses` is positive if and only if the next claim succeeds, for both baseline sources and with or without a row, and a claim takes one from it; its baseline and target are those the claim would store. |
| ReuseStatus.RemainingCountsClaims | prescreener_vault/reuse.py:108-164 | The remainder is how many more claims succeed, for any number of tries. |
| ReuseStatus.RowsGiveSameCard | prescreener_vault/reuse.py:167-222 | The grouped rows, missing ones included, give each integration the card of the single query. |
| ReuseStatus.MonthStatuses | prescreener_vault/reuse.py:167-222 | The batch loop returns exactly the listed integrations, each with its single status. |
| ReuseStatus.CardPools | prescreener_vault/reuse.py:76-87 | The repeat pool is its share of the target rounded down, the first pool is what that leaves, and what the card says is used and remains is the counter row against them. |
| ReuseMatches.GroupIffInBounds | prescreener_vault/reuse.py:557-565 | An age has a group if and only if it lies within the group's years, and none below 13 or above 54. |
| ReuseMatches.AnswersIff | prescreener_vault/reuse.py:293-339 | A row matches all requirements if and only if each required answer set is the row's own: the stored answer first, then the column, the age of a stored date of birth before the age column, blank answers never; a required date of birth is left to a required age. |
| ReuseMatches.FitsIff | prescreener_vault/reuse.py:358-385 | A row passes the candidate query if and only if it is another row of the same client and country, of an alias of the gender, old and rested enough, with an age group of the age or of up to two years less, and with the postal code and ethnicity where one is required. |
| ReuseMatches.InScopeIff | prescreener_vault/reuse.py:547-568 | Reuse is tried if and only if the policy is on, the country known, the gender male or female and admitted, and the age within the years of an admitted group. |
| ReuseStore.ShortScanIsComplete | prescreener_vault/reuse.py:386-388 | A scan that meets no more rows than its limit misses none of them. |
| ReuseStore.Store.ClaimMonthSlot | prescreener_vault/reuse.py:225-245 | Stores the baseline of last month, or else the larger of the stored one and this month's attempts, with the target rounded down from it; returns a slot exactly when fewer are in use than the target, and then one more is. No other row changes. |
| ReuseStore.Store.MatchesAllRequirements | prescreener_vault/reuse.py:293-339 | True exactly when every mapped answer equals the row's answer as it reads then: stored answers, defaults from the columns, the age of a stored date of birth; a required date of birth is left to its age. |
| ReuseStore.Store.CandidateQuery | prescreener_vault/reuse.py:358-388 | Returns unlocked rows that fit, as `FitsIff` spells it out, least used first, then never or longest ago reused, then first submitted, then by UID; omits one that fits only behind 500 that come before it. |
| ReuseStore.Store.ReserveVaultProfile | prescreener_vault/reuse.py:353-437 | Whoever it returns is of the policy's client, the country and an alias of the gender, submitted and last reused long enough before, and answers every requirement; nobody who suits and is free comes before it. It returns nobody only if nobody suits or more than 500 rows fit. Only the one row changes. |
| ReuseStore.Store.CommitClaim | prescreener_vault/reuse.py:479-532 | Commits exactly when all checks pass at its stamp, with the event, usage and state row of the claim; otherwise every table is as before. |
| ReuseStore.ChecksMean | prescreener_vault/reuse.py:479-513 | The checks hold if and only if the attempt has no provider and no event, the last reuse is an interval ago (by the state row, else by the events), nobody else on the survey has the UID in either column, its usage row is free, and the window's count is below the limit. |
| ReuseStore.Store.TryCandidate | prescreener_vault/reuse.py:572-586 | One pass of the loop: the fairest candidate is committed exactly when its checks pass, and is otherwise undone with no trace but its new age columns. |
| ReuseStore.Store.AssignFromQueue | prescreener_vault/reuse.py:570-588 | Ends with the fairest candidate after the refused ones, or after five refusals or an exhausted queue with the slot given back and only the refused rows' age columns changed. Fairness is about the rows as they were before the search. |
| ReuseStore.Store.MaybeAssignReusableProfile | prescreener_vault/reuse.py:535-591 | The whole saga: an existing event is restored; otherwise a new event means one event, one visit, one usage and state row, one slot and one pool mark more, for a profile of the integration's own client that fits and answers as `ReserveVaultProfile` says; no event means that only the counter's baseline and target and the refused rows' age columns changed. There is one if and only if vault and reuse are enabled, the signature is in scope, a slot is granted, and the search finds somebody before five refusals or an exhausted queue. |
| ReuseStore.ReserveThenUndo | prescreener_vault/reuse.py:425-449 | With nobody in between an undo puts back count and stamp of the row the reservation found; the age columns stay rewritten. |
| ReuseStamp.RunExplained | prescreener_vault/reuse.py:353-449 | In every state of every run, for every vault row: from the stamp the row was registered with, the reservations and undos that the run's own steps made of it (`Visits`) give the stamp it has, and each worker that holds it has a reservation of its own among them, which stands and found the stamp that the worker remembers. |
| ReuseStamp.RunStampIff | prescreener_vault/reuse.py:425-449 | For every run whose reservations of a row have rising times: the row carries the stamp of the latest standing reservation (or the registered one) after every step if and only if every undo takes back the latest standing reservation. |
| ReuseStamp.RowAfterLog | prescreener_vault/reuse.py:425-449 | After any possible log the count is one visit for each reservation that stands, in whatever order the undos came, and the stamp is the one a simple recursion over the log gives. |
| ReuseStamp.StampAlwaysLatestIff | prescreener_vault/reuse.py:440-449 | The same for any log of visits, of a run or not: for reservations at rising times, the stamp is the latest standing reservation's all along the log if and only if undos come in the reverse order of the reservations they take back. |
| ReuseStamp.UndoneOutOfOrder | prescreener_vault/reuse.py:425-449 | The failing half, for every minimum interval: a run from the empty tables in which one worker reserves, a second reserves the row later and commits, and the first, whose commit checks now fail, undoes; the second's event stands, and the stamp is the one from before both. |
| TolunaQuota.OneOrder | surveys/toluna_notifications.py:393-422 | The "newer" predicate is the order of the replay query, and it is a strict total order on rows with distinct keys. |
| TolunaQuota.NewestDecides | surveys/toluna_notifications.py:333-372 | After any processing order the row shows the newest applied delivery if it was among those processed, and is untouched if not. |
| TolunaQuota.OrderIrrelevant | surveys/toluna_notifications.py:333-372 | Two orders of the same deliveries, with any repetition, give the same status and agree on whether capacity is left. |
| TolunaQuota.RemainingOrderIff | surveys/toluna_notifications.py:333-372 | All processing orders of a set of deliveries, with any repetition, leave the same count if and only if the newest is not among them or closes the quota, or at most one place is left, or every closing delivery is already outranked by an applied one. |
| TolunaQuota.SettledCount | surveys/toluna_notifications.py:356-368 | What the count then is. |
| TolunaQuota.RemainingDependsOnOrder | surveys/toluna_notifications.py:356-368 | Two deliveries whose two orders leave different counts. |
| TolunaQuota.ReplayLatestIsReplayAll | surveys/toluna_notifications.py:478-528 | Replaying only the newest applied row gives the very row that replaying any list of applied rows containing it gives. |
| TolunaQuota.ProcessingKeepsConsistent | surveys/toluna_notifications.py:356-368 | Open if and only if `remaining` is positive survives any processing. |
| TolunaQuota.LatestExists | surveys/toluna_notifications.py:484-488 | Any non-empty set of rows has one newest. |
| TolunaQuota.Ledger.NewerAppliedExists | surveys/toluna_notifications.py:393-422 | Finds whether another applied row outranks this one. |
| TolunaQuota.Ledger.Apply | surveys/toluna_notifications.py:338-372 | Writes the quota unless outranked, and records the row as applied. |
| TolunaQuota.Ledger.Reconcile | surveys/toluna_notifications.py:587-589 | The loop over notification ids processes all of them in order. |
| TolunaInbox.OneChangePerRow | surveys/toluna_notifications.py:287-330 | Any operation that changes an attempt turns one row applied for that attempt, and an applied row never loses its verdict or its attempt. |
| TolunaInbox.CountsAppliedRows | surveys/toluna_notifications.py:304-308 | Over any history of deliveries, duplicates and retries `callback_count` moved by exactly the attempt's applied rows. |
| TolunaInbox.CallbackAtSetOnce | surveys/toluna_notifications.py:306 | Once set, `callback_at` stays. |
| TolunaInbox.CompletedUntilReconciled | surveys/toluna_notifications.py:295-305 | A completed attempt keeps its status over any history without a reconciliation event. |
| TolunaInbox.OnlyCompletionCompletes | surveys/toluna_notifications.py:268-284 | Only a completion event that applies its row makes an attempt completed, whatever reason texts other events carry. |
| TolunaInbox.OneRowIff | surveys/toluna_notifications.py:652-673 | The serial case, on the whole inbox: with deliveries one after the other a payload keeps one row if and only if its first delivery was unlinked or no later one resolved differently. |
| TolunaDeliveries.OneRowIff | surveys/toluna_notifications.py:646-673 | For every run of overlapping deliveries of one payload, each with its lookups and its insert as separate steps, that has given each its row: there is one row if and only if all resolved alike or an unlinked row was stored before any linked delivery looked for it. |
| TolunaDeliveries.OneRowAlwaysIff | surveys/toluna_notifications.py:646-673 | Deliveries of given links leave one row in every interleaving if and only if all links are equal. |
| TolunaDeliveries.RowForEachLink | surveys/toluna_notifications.py:659-673 | The failing half: for any links a run in which all look first and each link gets its row. |
| TolunaDeliveries.TwoRows | surveys/toluna_notifications.py:659-673 | Of an unlinked and a linked delivery both insert. |
| TolunaInbox.NotificationInbox.ReconcileNotification | surveys/toluna_notifications.py:425-463 | The locked block gives the tables of `Reconcile`, whose meaning is `RetryAppliesIff` and `AppliedWrites`: applied rows are left alone, others are relinked without losing a link. |
| TolunaInbox.RetryAppliesIff | surveys/toluna_notifications.py:425-463 | A retry applies a row if and only if it was unapplied, has or resolves to a known attempt, and that attempt is not completed or the event is a completion or a reconciliation; otherwise no attempt changes and the row only gets its link. |
| TolunaInbox.AppliedWrites | surveys/toluna_notifications.py:268-330 | An applied row changes its attempt and no other: one callback more, an unset `callback_at` becomes the time of the event or else now, and the status is that of a completion, a reconciliation, a rejection that names quality, security or a threat, or else the entry of the reason in the status table. |
| TolunaInbox.NotificationInbox.Lookup | surveys/toluna_notifications.py:659-667 | Finds the row under the qualified hash, else the one from before the inventory, else none. |
| TolunaInbox.NotificationInbox.Ingest | surveys/toluna_notifications.py:639-687 | Adds a row only for an unknown payload, counts a known one as duplicate and retries it, and keeps the hashes unique; a new row is applied at once if and only if it resolves to an attempt that is not completed or the event may change a completed one. |
| SupplierCallback.ClaimsCounted | surveys/supplier_callbacks.py:351-389 | In every state of every run `attempt_count` is the number of claims and all of them carry the marker's event id. |
| SupplierCallback.EventNeverChanges | surveys/supplier_callbacks.py:209-237 | Once there is a marker its event id stays, whatever is queued, claimed or finished later. |
| SupplierCallback.StepKeepsExclusive | surveys/supplier_callbacks.py:329-389 | If claims end within the lease, each step keeps the marker with the only worker that may still act. |
| SupplierCallback.OneSenderAtATime | surveys/supplier_callbacks.py:363-371 | Under that bound two workers that may still send are the same worker. |
| SupplierCallback.DeliveredStays | surveys/supplier_callbacks.py:361-362 | Under that bound a delivered marker stays delivered and nothing is sent afterwards. |
| SupplierCallback.LateWorkerOverwrites | surveys/supplier_callbacks.py:329-348 | For any longer bound there is a run in which a delivered marker becomes failed. |
| SupplierCallback.DeliveredFinalIff | surveys/supplier_callbacks.py:329-389 | Delivered is final in all runs if and only if claims end within 30 seconds. |
| SupplierCallback.DeliverableIff | surveys/supplier_callbacks.py:351-389 | From every state of every run with an undelivered marker some continuation delivers it, if and only if a claim leaves any time at all to act: no marker is ever stuck. |
| SupplierCallback.Audit.QueueResult | surveys/supplier_callbacks.py:184-244 | Dispatches exactly a terminal status that is the attempt's own and ready, when there is no marker yet or its own one failed to queue; a requeue keeps the counts and anything else changes nothing. |
| SupplierCallback.Audit.MarkQueueFailure | surveys/supplier_callbacks.py:153-166 | Marks only the queued event it names. |
| SupplierCallback.Audit.ClaimDelivery | surveys/supplier_callbacks.py:354-389 | Claims if and only if the marker is the named event's and is queued, failed to queue, failed, or delivering without a time or since at least 30 seconds; one attempt more, otherwise nothing changes. |
| SupplierCallback.Audit.FinishDelivery | surveys/supplier_callbacks.py:329-348 | Stores a result for the event it names, whoever holds the claim. |
| InventorySync.MergeKeepsWinners | surveys/services.py:110-122 | Folding the inventories keeps every valid id once, with the last of its latest payloads. |
| InventorySync.WinnerUnique | surveys/services.py:119-121 | There is only one such payload for an id. |
| InventorySync.MergeInventory | surveys/services.py:110-122 | The two loops return those winners and the ids in insertion order. |
| InventorySync.MarkerUnused | surveys/services.py:368-376 | The snapshot marker differs from every time a row of the integration was seen. |
| InventorySync.MarkerIsNextSecond | surveys/services.py:368-376 | The marker is the first whole second after every sighting and not before the current second. |
| InventorySync.MergedRowShowsPayload | surveys/services.py:461-505 | Created, updated or unchanged, a merged row ends up live with the merged payload, its end date and the marker. |
| InventorySync.ChangedIff | surveys/services.py:461-505 | A row counts as updated if and only if anything but its stamp changes. |
| InventorySync.BatchesCompose | surveys/services.py:433-505 | A batch after the earlier ones leaves the rows and counts of one larger batch. |
| InventorySync.ClosingGivesSnapshot | surveys/services.py:526-536 | With no other sync in between, closing rows without the marker gives the set-based snapshot and closes exactly the live rows missing from the inventory. |
| InventorySync.SnapshotUnique | surveys/services.py:433-536 | The snapshot specification determines the table, so batch size and order cannot show. |
| InventorySync.LiveIffMerged | surveys/services.py:526-536 | After a successful sync with no other in between the integration's live surveys are exactly the merged ids. |
| InventorySync.MergedStaysLive | surveys/services.py:541-545 | Any part of the batches closes nothing. |
| InventorySync.Surveys.WriteBatch | surveys/services.py:434-505 | One batch merges exactly its ids and counts created, updated and unchanged. |
| InventorySync.Surveys.SyncInventories | surveys/services.py:363-548 | The whole sync from the two fetched inventories and the clock, with no other sync in between: success gives the snapshot of the merged ids under a new marker, with created, updated, unchanged and closed counted as sets; a failure leaves exactly the batches before it merged and closes nothing. |
| InventorySync.Surveys.SyncSurveys | surveys/services.py:386-548 | The batches and the close step, with no other sync in between, for any merged inventory and any unused marker; the batch size shows only in how much a failure leaves merged. |
| InventoryRuns.LiveIffLastTouch | surveys/services.py:433-536 | For any committed batches and close steps of any overlapping syncs: a survey is live if and only if the last batch that lists it wrote it in full or met it live, and every later close step is of that batch's own run. |
| InventoryRuns.LiveIffOnlyOwnCloses | surveys/services.py:433-536 | Where no commit came between a preload and its write: live if and only if every close step after the last batch that lists it is of that batch's run. |
| InventoryRuns.FreshWriteMerges | surveys/services.py:436-505 | Such a batch merges each row as the sync that runs alone does. |
| InventoryRuns.UninterruptedRunShows | surveys/services.py:433-536 | After one uninterrupted run with a marker that no row carried the live surveys are those it lists, whatever overlapped before. |
| LeasedSyncs.LeasedSyncShows | surveys/tasks.py:240-303 | For every run of the lease machine with a lease that covers the tasks, and every log of transactions its task bodies committed: once a sync has closed, the live surveys are exactly those it lists. |
| LeasedSyncs.LeasedIsFresh | surveys/tasks.py:240-303 | In such a log no transaction comes between a preload and its write. |
| LeasedSyncs.LeasedIsWhole | surveys/tasks.py:240-303 | In such a log the transactions of a task, from its first to its close step, are its own and stand together. |
| InventoryRuns.OverlappingRunsClose | surveys/services.py:526-536 | Two syncs that list the same survey and both end, after which it is closed. |
| InventoryRuns.StalePreloadStaysClosed | surveys/services.py:436-505 | A batch that another close overtakes stamps the survey it lists without reopening it. |
| ProviderSnapshot.LiveIffNotSuperseded | surveys/provider_services.py:252-400 | For overlapping runs in any commit order, a row is live if and only if its last merge listed it live and no later commit is from a run that started after that one. |
| ProviderSnapshot.SerialRunsShowLastInventory | surveys/provider_services.py:273-400 | Without overlap the live keys are those the last inventory lists as live. |
| ProviderSnapshot.Integration.MergeSnapshot | surveys/provider_services.py:285-400 | The merge loop and the inclusive close give the committed table, and count what they close. |
| QuotaBatch.QuotaRows.SyncSnapshots | surveys/provider_services.py:155-244 | The batched refresh leaves the table of one UPDATE for each quota in order, and reports a survey complete exactly when every valid quota id has a row. |
| QuotaBatch.LastQuotaWins | surveys/provider_services.py:213-227 | A row shows its last matching provider quota and nothing of the earlier ones; a row without one is unchanged. |
| QuotaBatch.RowAfterSync | surveys/provider_services.py:155-244 | After a whole batch a row shows the last provider quota that names it, over all surveys: target, what is left and what is used add up, open if and only if capacity is left, with its JSON; rows that none names are unchanged. |
| QuotaBatch.CompleteIff | surveys/provider_services.py:191-228 | A survey is reported complete if and only if the table after the sync has a row for each of its valid quota ids. |
| QuotaBatch.RefreshKeepsConsistent | surveys/provider_services.py:206-217 | The batch writer keeps Open if and only if `remaining` is positive, the notification writer's invariant. |
| QuotaBatch.SyncShowsNewestIff | surveys/provider_services.py:402-418 | After a sync that wrote the quota and the replay that follows, the row shows the newest delivery if and only if that was received since the sync began, was still pending, or the inventory agrees with it. |
| QuotaBatch.OldClosureIsLost | surveys/provider_services.py:402-418 | For any quota and any inventory with capacity left: a closing delivery from before the sync, none pending, and the quota stays open. |
| ReplayBatch.ReconcileForSurveys | surveys/toluna_notifications.py:592-636 | For any stored rows and any number of surveys: a row is processed if and only if it is due (pending, or received since the sync began with no newer applied row of its subject) and fewer than 200 due rows come before it in one order; with at most 200 stored rows all that are due. |
| ReplayBatch.OrderOfPass | surveys/toluna_notifications.py:503-557 | That order: chunks of 100 surveys, then closed surveys, other applied rows as received, and pending rows, undated ones first and then as they occurred. |
| ReplayBatch.TakenIffRank | surveys/toluna_notifications.py:503-557 | A row is taken if and only if fewer eligible rows than the limit come before it. |
| ReplayBatch.BoundedSyncShowsNewestIff | surveys/toluna_notifications.py:478-636 | After a sync that wrote a quota, and its bounded pass over all surveys, the row shows its newest applied delivery if and only if that was received since the sync began and fewer than 200 eligible rows come before it, or the inventory agrees with it. |
| ReplayBatch.BoundedSyncShowsPendingIff | surveys/toluna_notifications.py:478-636 | The same for the newest delivery whether applied or still pending: it shows after the pass if and only if it is taken (pending or recent, and among the first 200), or the newest delivery known then, or else the inventory, says the same. |
| ReplayBatch.NewestIsAuthoritative | surveys/toluna_notifications.py:510-527 | The newest applied delivery of a quota is the row that the correlated subquery picks. |
| QuotaBatch.WriteBack | surveys/provider_services.py:230-243 | Writing each dirty copy once is enough for the whole table. |
| SyncLease.SafeIff | surveys/models.py:49-63 | One body at a time and no foreign release, in all runs, if and only if tasks cannot outlive the lease. |
| SyncLease.SafeWithinLease | surveys/tasks.py:240-303 | The direction the deployment uses. |
| SyncLease.LongTaskBreaksIn | surveys/models.py:61-63 | A task longer than the lease clears another's lease and lets a third in. |
| SyncLease.LeaseCoversTask | surveys/tasks.py:143-163 | For all settings the lease asked for is at least the hard task limit and the effective interval, which is the largest of the three settings and a minute. |
| SyncLease.Lease.Acquire | surveys/models.py:49-59 | Acquires exactly when no unexpired lease is stored, and then stores its end. |
| LocalIds.NeverIssuedTwice | surveys/models.py:29-40 | Over any calls in any months no id is issued twice. |
| LocalIds.IssuedAreNew | surveys/models.py:35-40 | The ids of one call are distinct, new to their month, and recorded. |
| LocalIds.NoGaps | surveys/models.py:29-40 | Over any calls in any months the ids issued for a month are exactly those of the counters from 1 to the one it has reached. |
| LocalIds.RenderRoundTrip | surveys/models.py:40 | Reading an id back gives its month and counter, also beyond eight digits. |
| LocalIds.FitsColumnIff | surveys/models.py:17 | An id has fourteen characters at least, and no more if and only if its counter is below 100,000,000. |
| LocalIds.LocalIdSequence.NextIds | surveys/models.py:29-40 | Returns the next `count` ids and advances the counter; a count below one does nothing. |
| GenerationCache.FreshIff | accounts/signals.py:30-41 | No reader ever gets a snapshot without a change that had settled when it read the generation, in all runs, if and only if the rotation is repeated after commit. |
| GenerationCache.SecondRotationKeepsFresh | accounts/access.py:158-178 | The direction the code uses, over every interleaving of writers, readers, stores and expiries. |
| GenerationCache.OneRotationServesStale | accounts/signals.py:33-35 | A run with one rotation in which old rows are served after the change. |
| GenerationCache.StepKeepsInv | accounts/access.py:58-85 | Each step keeps: what is cached under a generation contains all that was committed when it began. |
| SingleFlight.OneBuilderIff | surveys/project_cache.py:44-71 | At most one builder is under a live lock, however long builders take and whoever builds without the lock, if and only if leaving compares the token. |
| SingleFlight.PlainDeleteLetsTwoIn | surveys/project_cache.py:64-71 | The run that a plain delete would allow. |
| SingleFlight.SharedCache.Generation | config/cache_utils.py:107-137 | All callers of a live cache get one stored generation, seeded once; in an outage each gets its own seed. |
| SingleFlight.SharedCache.Increment | config/cache_utils.py:214-233 | A live cache moves from the stored value, or the default, to its successor, and resets a key that vanishes in between. |
| SingleFlight.SharedCache.RotateGeneration | accounts/access.py:58-64 | A rotation moves a live generation to its successor and touches no other key. |
| SingleFlight.SharedCache.CompareDelete | config/cache_utils.py:148-189 | Deletes exactly when the key holds the expected token. |
| FinalIds.AuditReplays | surveys/final_ids.py:197-326 | After any uploads an attempt's status is its last applied item's, and every item's `previous_status` is the one before. |
| FinalIds.UploadDecides | surveys/final_ids.py:283-310 | Listed attempts of the client whose journey is over get the file's decision, client, month and upload; if an accepted file has one, the client's completed, unlisted and undecided attempts of its month are rejected; all others keep their whole row, or none. |
| FinalIds.OutcomesPartition | surveys/final_ids.py:253-306 | Each counter is the number of items with its outcome, and applied + not found + mismatch + not completed is the number of unique RIDs. |
| FinalIds.OneItemPerRid | surveys/final_ids.py:278-310 | An upload adds one item for each listed RID, in the file's order, and then one for each automatic rejection, all distinct; each says what was found, what was decided and what was decided before. Earlier items stay. |
| FinalIds.FirstAppearancesOk | surveys/final_ids.py:117-131 | The RIDs read are exactly the values of ten letters or digits, each once, in order of first appearance, whatever counts as a letter, digit or blank. |
| FinalIds.NormalisedMiddle | surveys/final_ids.py:44-48 | What is read of a value is its middle between blank ends, less one escaping apostrophe before ten characters; nothing exactly if it is all blank. |
| FinalIds.ReadUploadedRids | surveys/final_ids.py:117-140 | The counting loop returns those RIDs; submitted are the values that are not blank, invalid those of them that give no RID; it refuses more than 50,000 RIDs, a file without any, and an all-blank one. |
| FinalIds.FinalIdDesk.DecideListed | surveys/final_ids.py:283-306 | The loop over the file's RIDs leaves the specified tables and counters. |
| FinalIds.FinalIdDesk.ImportFinalIds | surveys/final_ids.py:197-326 | The whole transaction, tables and counters. |
| DashboardWindow.DashboardRangeWindow | surveys/dashboard.py:120-286 | For every offered key: refused exactly when a date is out of order, in the future or more than five years back, or the financial year has not begun or is before 2020. Otherwise the window holds exactly the past visits that the key names, by day, hour, month or financial year; its buckets are contiguous, each a full step, as many as the chart has points. |
| DashboardWindow.InWindowIff | surveys/dashboard.py:120-286 | A visit lies in the window if and only if it is past and in the days, hours, months or financial year of the key. |
| DashboardWindow.BucketsConserveVisits | surveys/dashboard.py:120-286 | Bucket counts of a covered window add up to the window's count, for any visits. |
| DashboardWindow.Calendar | surveys/dashboard.py:83-89 | Where each month of each year starts, in closed form with the leap years. |
| DashboardWindow.MonthShiftAdds | surveys/dashboard.py:83-89 | Shifting by months is additive. |
| DashboardWindow.MonthShiftForward | surveys/dashboard.py:83-89 | A positive shift moves strictly forward, so the month loops end. |
| DashboardWindow.StrideBuckets | surveys/dashboard.py:148-152 | The fixed-stride loop covers its window, each bucket one stride after the last. |
| DashboardWindow.MonthBuckets | surveys/dashboard.py:262-272 | The month loop covers its window, each bucket starting on the next first of the month. |
| DashboardWindow.CountedBuckets | surveys/dashboard.py:180-190 | The counted loop covers its window with exactly its number of buckets. |
| DashboardWindow.SixMonthBuckets | surveys/dashboard.py:233-247 | The six months cover the time from the first of the fifth month back until now. |
| DashboardWindow.ComparisonIsFair | surveys/dashboard.py:289-308 | The baseline holds exactly the visits as long before, or as far into the previous month; it never reaches into the selected window and is as long, except when a month to date outruns the whole previous month. |
| ClientShare.MergedIff | surveys/dashboard.py:363-364 | Two grouped rows share a dictionary key exactly if their client is the same, both have none and the same name, or the name of the one without is the other's id; a name is the first non-empty of client, company and "Unassigned client". |
| ClientShare.ClientDistribution | surveys/dashboard.py:361-399 | Every dictionary key is shown with its first name and its totals or folded into "Other clients"; hits and completes are conserved; at most eight slices; nobody folded has more completes than anybody shown. |
| ClientShare.MergeClients | surveys/dashboard.py:361-371 | One row for each distinct dictionary key with the first name met and its own totals. |
| Hierarchy.SubordinateUserIds | accounts/access.py:234-244 | Returns exactly the users below the user by one or more created-by edges, minus the user, and ends on cyclic graphs. |
| Hierarchy.ClosedSetHoldsChain | accounts/access.py:236-242 | A set closed under "created by" holds everybody on any chain from the root. |
| OutboundUrl.BuildOutboundQuery | surveys/survey_flow.py:253-282 | The loops produce the specified rewriting of the parsed pairs. |
| OutboundUrl.RewriteIdempotent | surveys/survey_flow.py:271-282 | Rewriting a rewritten link changes nothing. |
| OutboundUrl.OneTrackId | surveys/survey_flow.py:276-281 | Exactly one trackId, equal to the RID and right before the profile pairs, which end the link. |
| OutboundUrl.PidsAreRid | surveys/survey_flow.py:273-280 | There is a pid parameter and every one, however spelled, is the RID. |
| OutboundUrl.ProfileOnce | surveys/survey_flow.py:276-282 | Each answered pair appears once and no stale pair with its key remains. |
| OutboundUrl.OtherPairsKeepOrder | surveys/survey_flow.py:271-277 | All other pairs, survNum and supCode among them, keep value and order. |
| OutboundUrl.KeysKeepOrder | surveys/survey_flow.py:271-280 | All keys but those of trackId and of answered questions keep spelling and order, those of a pid included; only a missing pid is added. |
| OutboundUrl.ProfilePairsOk | surveys/survey_flow.py:253-269 | The profile pairs are exactly the questions with their values, each once, later answers behind earlier ones: no empty key or value, no pid, trackId, survNum or supCode. |
| OutboundUrl.AnswersGiveProfile | surveys/survey_flow.py:257-269 | Whatever the answers, their pairs are distinct and never a routing identifier, which is what the link properties ask. |

## Left out

- ReuseLimits.TargetsNeverFallIff: the percentage is fixed, and attempts are never deleted or moved.
- ReuseTheorems.WindowLimit: like ReuseLimits.SpacingIff, assumes one clock for all hosts that never goes back, and settings that stay as they are.
- ReuseStore.Store.MatchesAllRequirements: lower-casing, digits, group names, answer normalisation and the age of a date of birth are any functions; stored answers are already trimmed and lower-cased.
- ReuseStore.Store.ReserveVaultProfile: text comparison is exact, and all dates of birth are aged at the time of the query.
- ReuseStore.Store.MaybeAssignReusableProfile: runs with no other worker in between, on a survey with an integration and a given signature; interleavings are in ReuseMachine.
- ReuseStamp.RunStampIff: assumes that reservations of one row have rising clock readings, above the stamp it was registered with.
- ReuseInvariants.StepKeepsInv: the two advisory reads of the operational tables while reserving are dropped, so a worker of the machine may reserve more than the code would.
- SupplierCallback.EventNeverChanges: covers this module's own operations; the status reconciliation that replaces the whole audit JSON (surveys/services.py:315) is not a step.
- SupplierCallback.DeliveredFinalIff: the bound is an assumption, since the task's own limit is 60 seconds; so is the one clock all hosts share.
- SyncLease.SafeIff: assumes one clock for all hosts, and lease and task limit that stay as they are.
- TolunaInbox.OneRowIff: deliveries one after the other; TolunaDeliveries has the overlapping ones, without what is stored beside the row.
- TolunaQuota.ReplayLatestIsReplayAll: one quota without limits; the limit of 200, the chunks and the `applied_since` filter are in ReplayBatch.
- QuotaBatch.SyncShowsNewestIff: one quota within the limit, and like ReplayBatch.BoundedSyncShowsNewestIff with no other writer between write and replay.
- InventorySync.LiveIffMerged: with ClosingGivesSnapshot, SnapshotUnique, SyncSurveys and SyncInventories assumes no other sync between its transactions; on the Celery path LeasedSyncs.LeasedSyncShows gives that, elsewhere InventoryRuns says what happens.
- LeasedSyncs.LeasedSyncShows: a body is one sync that preloads, writes and closes while its task holds the lease; details refreshed after it touch no status.
- InventoryRuns.LiveIffLastTouch: a sync has an integration, so that the unique constraint (surveys/models.py:173-176) refuses a second row; syncs without one, and rows written in other ways, are not covered.
- InventorySync.Surveys.SyncInventories: does not model the BioBrain branch, detail and targeting refresh, a failing fetch, local ids, or the run row's error text.
- ProviderSnapshot.LiveIffNotSuperseded: keeps of a row only its status and when it was last seen.
- GenerationCache.FreshIff: assumes the loader reads all its rows at one time after the generation, that the generation key is not evicted while old snapshots remain, and leaves out profiles cached within one request.
- SingleFlight.OneBuilderIff: a peer may build without the lock at any time, not only after its two seconds of waiting or in an outage.
- FinalIds.AuditReplays: the historical repair of final ids is not a step, and months are numbers instead of time zone bounds.
- ClientShare.ClientDistribution: equal completes keep their place instead of being ordered by name; revenue, shares and rates are not modelled.
- DashboardWindow.DashboardRangeWindow: labels are not modelled, dates are already parsed, and the zone has no clock changes.
- Hierarchy.SubordinateUserIds: the anonymous and superuser answers and the request cache are not modelled.
- OutboundUrl.BuildOutboundQuery: URL parsing and encoding are not modelled, and case folding is any function that folds the two keys the code writes.
- A failure while marking the pool after a commit (reuse.py:589 would release the slot) is not modelled: marking is total, and only the listed conflicts fail a commit.
- Attempts and events older than the reuse tables, and attempts without a prescreener UID.
- HTTP, DNS, TLS, Celery and Redis transport: their outcomes are steps or parameters.
- Hashes and random ids: identities are compared instead, and new UIDs are fresh.
- Survey-closed notifications, link resolution and payload validation of Toluna.
- Dispatch and recovery tasks, provider adapters, capacity, exports, templates, permission catalogs and admin.
