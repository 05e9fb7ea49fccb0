# Verification of the service-operations API

A Dafny model of the parts of the repository that are protocols or algorithms, with proofs of what they
keep. Every file verifies with `dafny verify dfyconfig.toml`. Each module follows one component:

- `SubmitTransactions`, `SubmitSafety`, `SubmitTheorems` - any number of Submit transactions, interleaved
  statement by statement under READ COMMITTED (section 13.2.1 of the PostgreSQL manual) with row locks.
  `Decisions` is the validation loop inside Submit.
- `Campaigns`, `CampaignSafety`, `CampaignTheorems`, `CampaignStore` - the attestation campaigns with every
  service call as one step: registration, archive, restore, delete, launch, submit, close, reminders and the
  scheduler. `CampaignStore` is the imperative form, a class over the tables whose methods each perform
  exactly one step of `Campaigns`; the lemmas are about whole runs of those steps.
- `Routing` - who is asked about whom at a launch. `Preview` and `PreviewRefinement` - the browser's
  preview of it, from arrays rebuilt in place, and its relation to the launch.
- `DiskProjection` - the least-squares projection of a disk's critical date, over the reals.
- `Escaping`, `LikePattern`, `LdapFilter` - escaping of user input, measured against a LIKE matcher
  (section 8.5 of ISO/IEC 9075-2) and against a parser of LDAP filters (section 3 of RFC 4515).
- `SyncTracking`, `SyncTheorems` - the tracking of a sync job and its circuit breaker, with any database
  call failing. The connection has an aborted-transaction flag, as psycopg2's has.
- `ServerSync`, `MembershipSync`, `ScheduleSync` - three reconciliations with guards and scoped prunes.
- `DiskPaging`, `LicenceAlerts`, `LicenceTheorems`, `CardSplitter`, `Mail` - alerts and their delivery.
- `DateKit` - printing a date, reading it back, and the state of a hold.

Where the source changes state, the model has a class or a method with loops, proved against a function on
values; the theorems are about those functions and about runs of them.

## Where the code and its documentation differ

The model follows the code. In these places the proofs show a difference from what comments or names promise.

- Closure of a campaign. "all_packets when the last lands" and "any_packet closes on first submit"
  (Services/AuditingService.cs:603) hold for submissions that do not overlap
  (`CampaignTheorems.AllPacketsClosure`, `SubmitTheorems.SerialAllPacketsClosure`). Under READ COMMITTED the
  last two managers can leave the campaign open and two nominees can both submit
  (`SubmitTheorems.LastTwoManagersLeaveItOpen`, `SubmitTheorems.TwoNomineesBothSubmit`). The exact conditions are
  in `SubmitTheorems.ClosedExactlyWhenSeen` and, for the number of submitted packets of an any_packet campaign,
  in `SubmitTheorems.AtMostOneExactlyWhenSerial`.
- A packet refused because its campaign is closed is said to have been closed by another nominee
  (Services/AuditingService.cs:557-558). When the campaign was closed by hand its page is the pending one
  (`CampaignTheorems.PageNamesTheClosingPacket`).
- `launch_kind` is written as 'manual' for every campaign (Services/CampaignService.cs:197), so the model keeps
  its own record of which launches were automatic.
- The preview files subjects without a manager under a key that a manager's account name can equal
  (frontend/js/auditing-demo-data.js:629-654); then it differs from the launch, and only then
  (`PreviewRefinement.PreviewShowsTheLaunch`). Such a directory exists for every owner
  (`PreviewRefinement.PreviewCanDiffer`).
- The auto-launch tick returns how many campaigns it launched (Services/CampaignService.cs:379-419). A launch that
  throws after its commit is logged as an error and not counted, but its campaign is there
  (`Campaigns.LaunchesCounted`).
- The breaker announces "will retry after" a time (sync/common.py:708-719), but a skip also moves
  `last_failure_at`, so every run in between moves that time (`SyncTheorems.RetryMoves`), and a job that runs more
  often than the timeout is never attempted again (`SyncTheorems.NeverAttemptsAgain`).
- The breaker is said to fail open on a database error (sync/common.py:672). The run proceeds, but on an aborted
  transaction. It is recorded as a success exactly when the job's own work catches every exception, ends that
  transaction and leaves none aborted, and the main write goes through (`SyncTheorems.FailedCheckIsNoSuccess`); work
  made of statements alone never does, even when it raises nothing (`SyncTheorems.CaughtStatements`).
- "Dedup on reminder_sent_at so a daily tick never re-nudges the same person" (Services/CampaignService.cs:438). A batch
  is delivered before its results are logged and stamped, so a statement that fails in between leaves packets that
  were written to eligible for the next tick. The exact count is in `CampaignTheorems.OneScheduledReminder`; a run in
  which a packet is reminded twice is `CampaignTheorems.RemindedTwice`, and runs without such a tick remind at most
  once (`CampaignTheorems.UninterruptedRemindOnce`).
- Servers are said to be deactivated after two consecutive missing syncs (sync/servers/sync_server_list.py:201-204).
  The grace is 24 hours: the first run that misses a server deactivates it if it comes later than that
  (`ServerSync.FirstMissDeactivates`). An empty list of servers is not an error there but ends the sync normally.
- A renewal "clears a licence's alert rows so the next cycle re-fires cleanly"
  (sync/alerts/alert_licence_expiry.py:4-7). Renewed between the script's post and the recording of it, a licence
  starts the new cycle with the posted threshold marked as sent, though it was not posted in that cycle and will
  not be (`LicenceTheorems.RenewalDuringARun`; `LicenceTheorems.MarkedNotPosted` is such a run). That is the only
  way (`LicenceTheorems.MarkedMeansPosted`): a renewal between the query and the post does no harm
  (`LicenceTheorems.RenewalBeforeThePost`).
- A memberships export does not prune a group that has lost all its members
  (`MembershipSync.EmptiedGroupKeepsMembers`), because the prune looks only at groups in the feed.
- A failure while recording an unmatched server is logged and meant to be harmless (sync/common.py:965-975), but it
  happens outside the savepoint and undoes the whole schedule run (`ScheduleSync.OneAbortUndoesAll`).
- The date round trip fails for years below 100, which the Date constructor moves (`DateKit.DisplayRoundTrip`).

## Model

| member | source | states |
|---|---|---|
| Decisions.Validate | Services/AuditingService.cs:566-577 | The decisions are accepted exactly when every subject of the packet is decided once, keep or revoke, and nobody else is; otherwise the fault reported is the first one in the service's order of checks. |
| SubmitSafety.StepKeepsInv | Services/AuditingService.cs:546-628 | Every statement keeps the locks, the recorded decisions, the history and the closures consistent. |
| SubmitTheorems.DecisionsAreTheClaimants | Services/AuditingService.cs:566-601 | Under any interleaving a submitted packet has exactly one decision per subject, all from the transaction that claimed it, made by the recipient; an unsubmitted packet has none. |
| SubmitTheorems.OneClaimPerPacket | Services/AuditingService.cs:579-592 | Each packet is claimed by at most one committed transaction. |
| SubmitTheorems.InsertNeverClashes | Services/AuditingService.cs:594-601 | After the guarded claim no insert of a decision meets the unique index or waits. |
| SubmitTheorems.RunOnlyAdds | Services/AuditingService.cs:546-628 | Over any further interleaving no claim, decision, closed campaign or closing packet is ever undone. |
| SubmitTheorems.ClosedExactlyWhenSeen | Services/AuditingService.cs:603-621 | An all_packets campaign not closed by hand is closed iff the closure statement of one of its submissions saw every other packet committed; an any_packet one iff some packet is submitted. |
| SubmitTheorems.ClosureIsSound | Services/AuditingService.cs:603-621 | A campaign that a submission closed has all packets submitted (all_packets), or names a submitted packet and its claimant (any_packet). |
| SubmitTheorems.SerialAllPacketsClosure | Services/AuditingService.cs:603-621 | When the submissions of an all_packets campaign do not overlap each other, it is closed iff all its packets are submitted. |
| SubmitTheorems.SecondNomineeOverlapped | Services/AuditingService.cs:557-564 | Two submitted packets of an any_packet campaign come only from transactions that overlapped. |
| SubmitTheorems.AtMostOneExactlyWhenSerial | Services/AuditingService.cs:557-611 | An any_packet campaign has at most one submitted packet iff its submissions did not overlap. |
| SubmitTheorems.ClaimantCanMove | Services/AuditingService.cs:579-623 | While a packet is claimed by an open transaction, some claimant can take its next statement. |
| SubmitTheorems.NeverStuck | Services/AuditingService.cs:546-628 | The row locks never deadlock: while a transaction is open, some transaction can take its next statement. |
| SubmitTheorems.LastTwoManagersLeaveItOpen | Services/AuditingService.cs:612-621 | A schedule in which both last packets of an all_packets campaign are submitted and it stays open. |
| SubmitTheorems.TwoNomineesBothSubmit | Services/AuditingService.cs:557-611 | A schedule in which both packets of an any_packet campaign are submitted. |
| CampaignStore.Store.ArchiveApplication | Services/AuditingService.cs:151-166 | Archiving is refused with an open campaign, and otherwise sets the flag of an active application; nothing else changes. |
| CampaignStore.Store.RestoreApplication | Services/AuditingService.cs:168-184 | Only an active, archived application is restored. |
| CampaignStore.Store.DeleteApplication | Services/AuditingService.cs:191-288 | A row made by auditing, never audited and not referenced is dropped; any other is unregistered and its settings reset; an open campaign refuses both. |
| CampaignStore.InsertSubjects | Services/CampaignService.cs:228-235 | The subjects of a packet are its plan's accounts, each once. |
| CampaignStore.Store.InsertPackets | Services/CampaignService.cs:215-235 | One packet per plan, in order, none of another campaign touched. |
| CampaignStore.Store.LogInvites | Services/CampaignService.cs:257-259 | The log row of each packet carries the result at that packet's position in the batch. |
| CampaignStore.Store.PersistLaunch | Services/CampaignService.cs:186-259 | One campaign, one packet per plan and one invitation row per packet, fewer rows if logging fails after the commit; reminders are suppressed for due periods of at most seven days. |
| CampaignStore.Store.LaunchCampaign | Services/CampaignService.cs:79-262 | A launch checks, routes and persists as the step says, for whatever order the database returns the roster in, and wherever a statement fails unexpectedly. |
| CampaignStore.Store.InsertDecisions | Services/AuditingService.cs:594-601 | One row per decision, in order, and no other table changes. |
| CampaignStore.Store.SubmitAttestation | Services/AuditingService.cs:546-628 | Submit claims the packet, records its decisions and closes the campaign by its closure mode, or refuses and changes nothing. |
| CampaignStore.Store.CloseCampaignByHand | Services/CampaignService.cs:264-269 | Closing by hand affects exactly an open campaign. |
| CampaignStore.Store.LogReminders | Services/CampaignService.cs:333-363 | Each result is logged for the packet at its position, exactly the successful packets are stamped and counted, up to a statement that fails; what was delivered is recorded in full. |
| CampaignStore.SendAll | Services/EmailService.cs:62-124 | The results of a batch by position: a success is a message with a recipient that the configured server took. |
| CampaignStore.Store.DeliverReminders | Services/CampaignService.cs:333-363 | Delivery and log together: each packet's row and stamp follow its own position in the batch. |
| CampaignStore.Store.DeliverInvites | Services/CampaignService.cs:248-259 | The same for the invitations of a launch. |
| CampaignStore.Store.RemindCampaign | Services/CampaignService.cs:287-307 | A manual reminder goes to every outstanding packet of an active campaign and returns how many went out, or raises where a statement fails. |
| CampaignStore.Store.RemindSinglePacket | Services/CampaignService.cs:309-330 | A single reminder goes to an unsubmitted packet of the active campaign named, or nothing changes; a packet of another campaign is refused. |
| CampaignStore.Store.SendDueReminders | Services/CampaignService.cs:421-447 | A tick handles each due campaign once, with the packets outstanding and not yet reminded at its turn, and returns the number of reminders that went out; a failing statement or query ends it there. |
| CampaignStore.Store.AutoLaunchDue | Services/CampaignService.cs:379-419 | A tick launches each due application once, passes over one that is refused or fails unexpectedly, and counts the launches that returned; it ends early only when the log row of a launch that did not return fails. |
| Campaigns.LaunchesCounted | Services/CampaignService.cs:379-419 | The campaigns a tick makes are those it counts and those whose launch failed after its commit. |
| CampaignSafety.StepKeepsInv | Services/CampaignService.cs:79-447 | Every service call keeps the invariants on applications, packets, closure, decisions, reminders and cadence. |
| CampaignSafety.RunKeepsInv | Services/CampaignService.cs:79-447 | So does every run of calls. |
| CampaignTheorems.OneOpenCampaign | Services/CampaignService.cs:91-102 | An application has at most one draft or active campaign, an archived one has none, and a dropped one never had a campaign. |
| CampaignTheorems.AllPacketsClosure | Services/AuditingService.cs:603-621 | With calls atomic, an all_packets campaign not closed by hand is closed iff all its packets are submitted. |
| CampaignTheorems.AnyPacketClosure | Services/AuditingService.cs:603-611 | With calls atomic, an any_packet campaign has at most one submitted packet, and closed_by_packet_id is that packet exactly when there is one. |
| CampaignTheorems.PacketsAskSomething | Services/CampaignService.cs:117-118 | Every campaign has a packet and every packet has subjects, none twice. |
| CampaignTheorems.OneDecisionPerSubject | Services/AuditingService.cs:566-601 | In every reachable state a subject of a submitted packet has exactly one decision there, anybody else none. |
| CampaignTheorems.PageNamesTheClosingPacket | Services/AuditingService.cs:654-706 | The page of an unsubmitted packet shows another packet exactly when the campaign records one as closing it, and shows that one; a pending page of a closed campaign means it was closed by hand. |
| CampaignTheorems.StepExtends | Services/CampaignService.cs:264-269 | No call reopens a closed campaign, submits one of its packets, or changes what a packet asks. |
| CampaignTheorems.RunExtends | Services/CampaignService.cs:264-269 | Nor does any run of calls: decisions, mail and closed campaigns only accumulate. |
| CampaignTheorems.LaunchAsksAboutAll | Services/CampaignService.cs:104-184 | After a line_manager launch, manual or automatic, every roster member is a subject of some packet, addressed to its manager or else the business owner. |
| CampaignTheorems.LaunchRoutesRoster | Services/CampaignService.cs:144-184 | A roster member is a subject only of packets so addressed. |
| CampaignTheorems.LaunchAsksOnlyTheRoster | Services/CampaignService.cs:144-184 | Only roster members are subjects, and no recipient has two packets. |
| CampaignTheorems.CadenceRespected | Services/CampaignService.cs:379-419 | An automatic launch comes at least the frequency then in force after that application's previous launch of any kind. |
| CampaignTheorems.OneScheduledReminder | Services/CampaignService.cs:333-447 | In every reachable state the scheduled reminders delivered to a packet are one if one stamped it and those lost to a statement failing after delivery; so at most one iff none was lost, or one was and none stamped. The log has all but those lost before their row. |
| CampaignTheorems.UninterruptedRemindOnce | Services/CampaignService.cs:421-447 | Over any mix of ticks, manual reminders, submissions and failed sends, with no tick interrupted after a delivery, a packet gets at most one scheduled reminder, and the log says how many. |
| CampaignTheorems.RemindedTwice | Services/AuditingSchedulerService.cs:57-76 | A run of calls from the empty tables in which a stamp fails, the next tick sends again, and the log has two successes for one packet. |
| CampaignTheorems.TickRemindsOutstanding | Services/CampaignService.cs:333-447 | A tick, finished or not, writes only to packets neither submitted nor reminded when it starts; exactly those delivered and stamped end stamped, so any other stays eligible. |
| Routing.GroupByManager | Services/CampaignService.cs:145-146 | The managers in order of first appearance, each with its members in roster order, and the members left over. |
| Routing.RouteGroups | Services/CampaignService.cs:157-183 | Members without a manager join the owner's packet if the owner has one, else get a packet of their own; refused exactly when there are such members and no owner. |
| Routing.BuildPlans | Services/CampaignService.cs:117-184 | The plans built in loops are those of the routing function, refusals included. |
| Routing.LineManagerPartition | Services/CampaignService.cs:144-184 | Recipients are distinct, no packet is empty, each member is asked about as often as it is on the roster, and only where it is routed. |
| Routing.NomineesGetTheRoster | Services/CampaignService.cs:128-142 | In nominees mode every nominee gets the whole roster. |
| Routing.RefusedExactly | Services/CampaignService.cs:117-168 | A launch is refused exactly when the roster is empty, nominees are missing, or a subject is unroutable. |
| Preview.AuditingData.SpliceWhere | frontend/js/op-boot.js:572-574 | The in-place removal leaves exactly the other rows, in order. |
| Preview.AuditingData.PassMembers | frontend/js/op-boot.js:534-544 | Pass 1 appends one membership per embedded row and gives every member its latest record. |
| Preview.AuditingData.PassManagers | frontend/js/op-boot.js:546-552 | Pass 2 adds a stub for each unknown manager and changes no known user. |
| Preview.AuditingData.PassOwners | frontend/js/op-boot.js:554-568 | Pass 3 does the same for group owners. |
| Preview.AuditingData.ApplyAdReferenceData | frontend/js/op-boot.js:505-568 | A full rebuild starts from nothing; a merge replaces only the memberships of the groups it embeds. |
| Preview.AuditingData.ApplyAuditingApp | frontend/js/op-boot.js:487-495 | A targeted refresh replaces one application in place and merges its groups. |
| Preview.AuditingData.GetAppRoster | frontend/js/auditing-demo-data.js:613-627 | The roster is the known members of the application's groups, each account once, in order. |
| Preview.AuditingData.GetSubjectsByManager | frontend/js/auditing-demo-data.js:629-654 | The groups filled in the loop are those of the grouping function, with the fallback group last. |
| PreviewRefinement.RebuiltUsers | frontend/js/op-boot.js:534-568 | After a rebuild, full or targeted, each embedded member's record carries the directory's manager, and each manager is known. |
| PreviewRefinement.ManagerAfterRebuild | frontend/js/auditing-demo-data.js:600-605 | A member of the rebuilt arrays is looked up to its manager in the directory. |
| PreviewRefinement.RosterUsers | frontend/js/auditing-demo-data.js:613-627 | The preview's roster has distinct accounts: exactly the known members of the bound groups. |
| PreviewRefinement.GroupsHold | frontend/js/auditing-demo-data.js:629-645 | A group exists exactly for a manager with subjects, and holds exactly those. |
| PreviewRefinement.PreviewShowsTheLaunch | frontend/js/auditing-demo-data.js:629-654 | From one directory snapshot the preview's groups, the fallback counted as the owner's, equal the launch's plans recipient by recipient, iff nobody lacks a manager or no manager is named like the fallback key. |
| PreviewRefinement.RefreshShowsTheLaunch | frontend/js/op-boot.js:487-495 | The same for an application just refreshed, whatever users and memberships the arrays held before. |
| PreviewRefinement.PreviewCanDiffer | frontend/js/auditing-demo-data.js:646-654 | For every owner that is not blank there is a directory in which the preview and the launch differ for some recipient. |
| PreviewRefinement.MergeTouchesOnlyItsGroups | frontend/js/op-boot.js:505-532 | A merge refresh leaves the memberships of every other group as they were and gives each refreshed group exactly its embedded rows. |
| DiskProjection.ProjectDaysUntilCritical | Services/DiskMonitoringService.cs:263-291 | The sums accumulated in the loop give the projection defined on the history. |
| DiskProjection.DenominatorSign | Services/DiskMonitoringService.cs:280-281 | n times the sum of squares less the squared sum is never negative, and zero iff all times coincide. |
| DiskProjection.NormalEquations | Services/DiskMonitoringService.cs:282 | The residuals of the fitted line sum to zero, plain and weighted by time. |
| DiskProjection.LeastSquares | Services/DiskMonitoringService.cs:282 | The slope belongs to the only line with the least squared error. |
| DiskProjection.SlopeHasNoOrigin | Services/DiskMonitoringService.cs:267-274 | The slope does not depend on the first capture being the origin of time. |
| DiskProjection.FitOfALine | Services/DiskMonitoringService.cs:282 | On data exactly on a line the fit is that line. |
| DiskProjection.NoSpread | Services/DiskMonitoringService.cs:280-281 | For a history and any origin the denominator is zero iff everything was captured at one instant. |
| DiskProjection.ProjectionHits | Services/DiskMonitoringService.cs:283-290 | A result r is between 0 and 365, is 0 iff the threshold is reached, and otherwise used + growth * r is the threshold. |
| DiskProjection.NoProjectionExactly | Services/DiskMonitoringService.cs:280-290 | There is no result iff all times coincide, usage does not grow, or the threshold is over a year away. |
| LikePattern.EscapeLikeIsOneMap | Infrastructure/BaseService.cs:87-88 | The three sequential replacements equal one per-character map. |
| LikePattern.ParsePattern | Infrastructure/BaseService.cs:87-105 | The pattern is always valid and parses to the value's own characters between the wildcards. |
| LikePattern.FilterFinds | Infrastructure/BaseService.cs:90-106 | For every value and text the pattern matches iff the text contains, starts with, ends with or equals the value, as the flags say, up to case folding. |
| LikePattern.Query.AddILikeFilter | Infrastructure/BaseService.cs:90-106 | An empty value adds nothing; any other adds one condition and one parameter, which finds exactly the texts meant. |
| LdapFilter.EscapeLdapIsOneMap | Services/AdDirectoryService.cs:118-120 | The six sequential replacements equal one per-character map. |
| LdapFilter.NothingBare | Services/AdDirectoryService.cs:117-120 | The output has no asterisk, parenthesis or NUL. |
| LdapFilter.EscapeRoundTrip | Services/AdDirectoryService.cs:118-120 | Decoding the escaped text by RFC 4515 gives back the text, for every string. |
| LdapFilter.EscapeInjective | Services/AdDirectoryService.cs:118-120 | Different inputs escape differently. |
| LdapFilter.ParseRendered | Services/AdDirectoryService.cs:41-77 | Any filter written with escaped texts parses back to itself. |
| LdapFilter.GroupFilterMeans | Services/AdDirectoryService.cs:31-41 | Whatever the query, the group search is exactly: a group whose cn or account name contains it. |
| LdapFilter.UserFilterMeans | Services/AdDirectoryService.cs:64-77 | Whatever the query, the user search is exactly: an enabled person one of whose four attributes contains it. |
| SyncTracking.SyncContext.StartSync | sync/common.py:813-832 | All or nothing: a history row and status 'warning', or no change. |
| SyncTracking.SyncContext.Enter | sync/common.py:653-662 | A run starts tracked unless it is a dry run; a failure raises and changes nothing. |
| SyncTracking.SyncContext.CheckCircuitBreaker | sync/common.py:664-719 | Raises exactly when the row it can read is open; a failed read is swallowed and leaves the transaction aborted. |
| SyncTracking.SyncContext.Body | sync/common.py:931-943 | The job's own statements, savepoints, commits and rollbacks end as the function says, and write no tracking. |
| SyncTracking.SyncContext.CompleteSync | sync/common.py:834-890 | Records the outcome in both tables or raises and records nothing. |
| SyncTracking.SyncContext.RecordSkip | sync/common.py:722-747 | A skip is recorded in both tables or in neither. |
| SyncTracking.SyncContext.Fallback | sync/common.py:773-784 | The fallback records a failure unless the transaction is still aborted or it fails. |
| SyncTracking.SyncContext.Recover | sync/common.py:785-803 | The last resort records a failure on a connection of its own. |
| SyncTracking.SyncContext.Exit | sync/common.py:721-811 | The outcome is recorded by the first of the three ways that goes through, and by no other; the result says which. |
| SyncTracking.RunSync | sync/common.py:632-890 | A whole run leaves the tables as the function of the state before it and of the failures says; a started run leaves 'warning' iff it was skipped or no way of recording went through, and its history row 'running' iff neither the main write nor a skip's did. |
| SyncTheorems.RunRecordsOnce | sync/common.py:721-811 | Whatever fails, a run records at most one outcome and raises the counter by at most one. |
| SyncTheorems.CounterIsHistory | sync/common.py:834-890 | After any runs consecutive_failures lies between the error and cancelled rows of sync_history since its last success and those plus the rows left 'running'; it counts the failures and skips whose recording went through. |
| SyncTheorems.StuckExactly | sync/common.py:721-811 | After any runs the job shows 'warning' iff the last run that started was skipped or all three ways of recording it failed, and one history row is left 'running' for each run whose main write, or skip's write, failed. |
| SyncTheorems.EndsWell | sync/common.py:931-943 | For every sequence of statements, savepoints, commits and rollbacks: run op by op it ends without an exception and not aborted iff every op that raises is caught and an end of the transaction follows every abort. |
| SyncTheorems.FailedCheckIsNoSuccess | sync/common.py:681-693 | After a swallowed failure of the breaker's query a run is recorded as a success iff the job's work catches every exception, ends the aborted transaction, leaves none aborted, and the main write goes through; otherwise as a failure or not at all. |
| SyncTheorems.CaughtStatements | sync/common.py:681-693 | Work made of caught statements raises nothing and never ends an aborted transaction. |
| SyncTheorems.FailedCheckWitness | sync/common.py:681-693 | Two such jobs that raise nothing and are recorded as failed: one that ends no transaction, one that ends it in vain. |
| SyncTheorems.SkippedExactly | sync/common.py:678-719 | After any runs, a run that reads its row is skipped iff the recorded failures and skips reach the threshold and the last of them is within the timeout; with no row left 'running' the table of runs gives the same number. |
| SyncTheorems.RetryMoves | sync/common.py:708-747 | After any runs and a recorded skip, and while nothing is recorded, runs attempt iff the timeout has passed since the skip. |
| SyncTheorems.NeverAttemptsAgain | sync/common.py:722-747 | Once open, the breaker skips every run of a job that runs more often than the timeout. |
| SyncTheorems.RetryHonoured | sync/common.py:708-719 | While no run records an outcome, runs attempt exactly from the announced time on. |
| ServerSync.Database.SyncServers | sync/servers/sync_server_list.py:74-233 | The table changes only when the run commits, and then as the upsert and the graced deactivation say. |
| ServerSync.NotCommittedChangesNothing | sync/servers/sync_server_list.py:76-159 | A run commits iff the feed reaches the floor and half the active baseline and has no repeated name, and nothing fails; otherwise nothing changes. |
| ServerSync.ActiveExactly | sync/servers/sync_server_list.py:171-213 | After a committed run exactly the fed servers and the previously active ones that are not stale databricks rows are active. |
| ServerSync.RowsExactly | sync/servers/sync_server_list.py:171-213 | A fed row is stamped and keeps its source; any other row changes at most its flag. |
| ServerSync.HalfRemain | sync/servers/sync_server_list.py:117-159 | A committed run leaves active rows numbering at least half the previously active databricks rows, and at least the floor. |
| ServerSync.GraceHolds | sync/servers/sync_server_list.py:201-213 | A server in one committed run stays active through any runs of the next 24 hours. |
| ServerSync.FirstMissDeactivates | sync/servers/sync_server_list.py:201-213 | The next run that misses a databricks server deactivates it iff it comes more than 24 hours later. |
| MembershipSync.Database.SyncMemberships | sync/auditing/sync_auditing.py:111-148 | The rows built in the loop are upserted and pruned, or nothing changes. |
| MembershipSync.ScopeEqualsFeed | sync/auditing/sync_auditing.py:111-141 | The memberships of every fed group become exactly the feed's, freshly stamped; those of every other group are untouched. |
| MembershipSync.EmptiedGroupKeepsMembers | sync/auditing/sync_auditing.py:132-139 | A group absent from the feed keeps all its memberships. |
| ScheduleSync.Transaction.ProcessServers | sync/patching/sync_patching_schedule.py:130-201 | The savepointed upserts and the prune leave the cycle as the function says; it raises exactly when a server aborted the transaction. |
| ScheduleSync.CycleExactly | sync/patching/sync_patching_schedule.py:146-201 | The cycle keeps an on-premises row for a listed name iff it was written or was there; rows of other cycles and of Azure are untouched. |
| ScheduleSync.CycleEqualsPage | sync/patching/sync_patching_schedule.py:186-201 | Without rejected rows the cycle's on-premises servers are exactly the page's. |
| ScheduleSync.LastOneWins | sync/patching/sync_patching_schedule.py:146-201 | After the cycle a name listed several times has the refreshed values of its last accepted row and keeps the others it had. |
| ScheduleSync.RunEqualsPage | sync/patching/sync_patching_schedule.py:243-285 | The same for every cycle of a run, later cycles not disturbing earlier ones. |
| ScheduleSync.OneAbortUndoesAll | sync/common.py:952-977 | A server whose statements outside the savepoint fail rolls back the whole run, and nothing else does. |
| DiskPaging.DedupeResolved | sync/alerts/alert_disk_breaches.py:157-178 | Each recovered disk appears exactly once, where it first appeared. |
| DiskPaging.AlertStore.RecordBreachAlerts | sync/alerts/alert_disk_breaches.py:246-262 | One open row per breach, all or none. |
| DiskPaging.AlertStore.RecordResolutions | sync/alerts/alert_disk_breaches.py:264-275 | Exactly the listed rows are resolved. |
| DiskPaging.AlertStore.RunAlert | sync/alerts/alert_disk_breaches.py:294-339 | A run writes what its two queries found, up to the point where it stops. |
| DiskPaging.BreachesExactly | sync/alerts/alert_disk_breaches.py:54-83 | The breach query lists exactly the critical disks in scope that no open alert within the cooldown keeps quiet. |
| DiskPaging.ResolutionsExactly | sync/alerts/alert_disk_breaches.py:89-109 | The resolution query lists exactly the open alerts of recovered disks in scope. |
| DiskPaging.RunsKeepSpaced | sync/alerts/alert_disk_breaches.py:54-83 | Over any runs, however they end, open alerts of a disk stay more than the cooldown apart. |
| DiskPaging.OpenAlertsBound | sync/alerts/alert_disk_breaches.py:160-164 | Open alerts of a disk by time t number at most floor((t - first) / cooldown) + 1. |
| DiskPaging.RecoveredIsResolved | sync/alerts/alert_disk_breaches.py:301-312 | After a completed run whose second query sees a disk below critical no alert of it is open, iff the first query did not breach it: a disk sync may commit between the two. |
| DiskPaging.RecoveredInOneView | sync/alerts/alert_disk_breaches.py:264-275 | When both queries see the same disks there is no such exception. |
| DiskPaging.CriticalIsPaged | sync/alerts/alert_disk_breaches.py:54-83 | After a run that records, a critical disk in scope has an open alert within the cooldown, iff it was not both quiet before and seen recovered by the second query. |
| DiskPaging.FailedPostStaysEligible | sync/alerts/alert_disk_breaches.py:329-332 | After any number of runs that fail to post or record, a breach they found is found by any later query iff the disk is still critical. |
| DiskPaging.PagesApart | sync/alerts/alert_disk_breaches.py:54-83 | Two recorded pages of a disk with no resolution between them are more than the cooldown apart. |
| LicenceAlerts.Store.RenewLicence | Services/LicensingService.cs:162-200 | A renewal records the closing cycle, moves the expiry and clears that licence's alerts, in one step. |
| LicenceAlerts.Store.PatchExpiry | Services/LicensingService.cs:113-145 | A patch of the expiry affects exactly an active licence. |
| LicenceAlerts.Store.DeleteLicence | Services/LicensingService.cs:155-160 | Deleting only clears the active flag. |
| LicenceAlerts.Store.QueryPending | sync/alerts/alert_licence_expiry.py:186-205 | The loop keeps exactly the listed licences at a threshold not yet sent. |
| LicenceAlerts.Store.RecordAlerts | sync/alerts/alert_licence_expiry.py:155-173 | One upsert per pair, with the outcome of the post. |
| LicenceTheorems.PendingExactly | sync/alerts/alert_licence_expiry.py:55-67 | A licence is pending once at most, at the highest threshold it has crossed, and only if that is not yet sent. |
| LicenceTheorems.StepKeepsInv | sync/alerts/alert_licence_expiry.py:155-239 | Every call and every step of the script keeps the invariants on the table, the posts, the urgency and the renewals. |
| LicenceTheorems.SentAtMostOnce | sync/alerts/alert_licence_expiry.py:4-7 | Between two renewals each threshold of a licence is recorded as sent at most once, at most four in all, and the table says exactly which. |
| LicenceTheorems.PostsBalance | sync/alerts/alert_licence_expiry.py:208-239 | In every reachable state the posts of a pair since the last renewal, and the one that renewal caught, are each marked sent, lost or still unrecorded. |
| LicenceTheorems.PostedTwiceOnlyAfterALoss | sync/alerts/alert_licence_expiry.py:222-237 | The posts of a pair in a cycle exceed its unrecorded ones by at most one, and by one exactly when it is sent or unrecorded so far and not caught by the renewal. |
| LicenceTheorems.UrgencyStrictlyRises | sync/alerts/alert_licence_expiry.py:55-67 | Without patches of the expiry and renewals during a run, a licence's alerts come in strictly rising urgency. |
| LicenceTheorems.MarkedMeansPosted | sync/alerts/alert_licence_expiry.py:155-173 | A threshold marked sent was not posted in its cycle exactly when the renewal came between a post of it and the recording, and no post since was lost. |
| LicenceTheorems.RenewalDuringARun | Services/LicensingService.cs:192-195 | After a renewal between post and recording exactly the posted thresholds are marked sent in the new cycle; none was posted in it, and none will be. |
| LicenceTheorems.RenewalBeforeThePost | Services/LicensingService.cs:192-195 | After a renewal between query and post the threshold is posted and marked in the new cycle. |
| LicenceTheorems.MarkedNotPosted | Services/LicensingService.cs:162-200 | A run from the empty tables that ends with a threshold marked sent and never posted in its cycle. |
| LicenceTheorems.FailedPostStaysPending | sync/alerts/alert_licence_expiry.py:227-235 | A failed post marks nothing sent, so the same pairs are pending again. |
| LicenceTheorems.RenewalsChain | Services/LicensingService.cs:168-182 | Without expiry patches each renewal's cycle_ended is the previous one's new_expires. |
| LicenceTheorems.RenewalResets | Services/LicensingService.cs:192-195 | The next query after a renewal finds the licence pending exactly when its new expiry is at a threshold, and every other licence as before. |
| CardSplitter.SplitCardBody | sync/alerts/alert_patch_cycle.py:308-342 | The cards built in the loop are those of the splitting function. |
| CardSplitter.ContentKept | sync/alerts/alert_patch_cycle.py:308-342 | Without header and continuation titles the cards are the rows and then the trailing elements, in order. |
| CardSplitter.CardsFit | sync/alerts/alert_patch_cycle.py:314-323 | Every card but a separate trailing one is within the limit or has at most max(length of the header, 1) + 1 elements. |
| CardSplitter.CardsAreGreedy | sync/alerts/alert_patch_cycle.py:314-339 | No card is ended while its next row would fit, and the trailing elements get their own card only if they do not fit. |
| CardSplitter.OneCard | sync/alerts/alert_patch_cycle.py:308-342 | If everything fits on one card there is one card, for every size function that never shrinks. |
| Mail.SendBatch | Services/EmailService.cs:62-124 | One result per request, at its own position; a connection is opened iff something can be sent; each such message is handed over exactly once and is a success iff the server took it. |
| Mail.Deliver | Services/EmailService.cs:84-118 | A failed connection fails every message not yet marked; otherwise each gets its own answer, and marked ones are skipped. |
| DateKit.AddDaysCounts | frontend/js/op-datekit.js:33-36 | addDays gives a valid date exactly n days later in the calendar, iff the year is not from 0 to 99. |
| DateKit.AddDaysChains | frontend/js/op-datekit.js:33-36 | Outside those years adding n days and then k is adding n + k. |
| DateKit.AddDaysBack | frontend/js/op-datekit.js:33-36 | And taking off what was added gives the date back. |
| DateKit.Roll | frontend/js/op-datekit.js:42-45 | A date with an overflowing day is the valid date that many days from the first of its month. |
| DateKit.ReadsBack | frontend/js/op-datekit.js:50-67 | The display form, with "Sep" or "Sept", reads back as the date that was printed. |
| DateKit.ReadsBackLegacy | frontend/js/op-datekit.js:50-67 | So does the older form, month first. |
| DateKit.DisplayRoundTrip | frontend/js/op-datekit.js:37-82 | toIsoDate(fmtGB(d)) is isoLocal(d), independently of the engine's parser, iff the year is at least 100. |
| DateKit.StatesAgreeExactly | frontend/js/op-datekit.js:86-94 | The browser puts every hold into the state of the service's query iff the two midnights' UTC offsets differ by less than twelve hours, or by exactly twelve with the hold's ahead. |

## Left out

- Services/CampaignService.cs and Services/AuditingService.cs at statement level, Submit excepted: each call is one
  step, and the unique indexes stand for the races they decide (one open campaign, one nominee row). Two calls whose
  check and write interleave outside those indexes, such as an archive during a launch, are not modelled.
- Application edits are one step that may set any configuration of an unarchived application; the individual PATCH,
  binding and nominee endpoints are instances of it.
- Draft campaigns: the status exists and counts as open, but nothing in the code creates one.
- Names, display names, role notes, mail addresses and text, IP addresses, lifecycle and auto-launch log rows.
- Packet identifiers are consecutive numbers instead of random UUIDs.
- Adding calendar months to a time is a parameter (PostgreSQL's clamps at month ends and is not monotone); the cadence
  is stated for the previous launch of the application.
- The case mappings of the identity check and of ILIKE are parameters that work character by character.
- Preview.AuditingData.PassOwners: the GROUP_OWNERS rows pushed in the same pass are not modelled, because neither
  the roster nor the preview reads them.
- Preview.AuditingData.ApplyAdReferenceData: the GROUPS and GROUP_OWNERS arrays rebuilt beside the two modelled ones
  are not modelled, for the same reason.
- Object keys that clash with JavaScript's prototype.
- DiskProjection: rounding of floating point; the arithmetic is over the reals.
- LikePattern: PostgreSQL also accepts an escaped ordinary character; the stricter standard is modelled, and the
  patterns built here are valid in both.
- LdapFilter: hexadecimal escapes of octets above 7F, which the escaping never writes.
- SyncTracking: overlapping runs of one job; runs of a job are one after another. Record counts and messages.
- SyncTracking: a commit that fails has no effect; a commit whose fate the client cannot know is not modelled.
- ServerSync: the applications upserted beside the servers, and the derivation of environment and business unit.
- MembershipSync: the users table synced beside the memberships.
- ScheduleSync: resolution of server names, cycle counts and the automatic completion of past cycles.
- DiskPaging: the order of rows on the card and their text; overlapping runs of the script.
- LicenceAlerts.Store.QueryPending: reads licences and alerts in one step, where the script has two SELECTs
  (sync/alerts/alert_licence_expiry.py:186-193) and a renewal may commit between them.
- LicenceAlerts: columns other than the expiry; the order of licences on the card; two renewals of one licence whose
  reads interleave; the length of six months in days is a parameter of each run.
- CardSplitter: exact JSON byte counts; the size is any function of the body.
- Mail: message text, timeouts and the closing of the connection.
- DateKit: numbers in forms other than digits, and the engine's own date parser, which is a parameter.
- Controllers, authentication, middleware, page rendering, and the summaries and facet counts: wiring or per-row cases.
