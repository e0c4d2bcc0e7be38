# HyPanel: a verified model

A Dafny model of how HyPanel keeps its client database and everything derived from it in step: the
user sets inside a running proxy core, the traffic columns, the stored share links and the JSON
subscription.

- **Live user set.** `Hy2Service` is the Hysteria2 service object one call at a time. `Hy2Protocol` is
  the same code as an interleaving machine with the four locks explicit, one panel thread and three
  threads per session; `Hy2Invariant` is its invariant, `Hy2Theorems` what follows over every run
  (eviction with its one exception, no drops, stable names, no deadlock), and `Hy2Refinement` says that
  an undisturbed thread of the machine does what the service's calls promise.
- **Lifecycle and traffic.** `Lifecycle` and `LifecycleRuns`: delayed start, periodic reset, quota and
  expiry, ban and unban. `Traffic` and `TrafficRuns`: counters, draining, saving and conservation.
  `Downsample` buckets the charts. `StartGuard` is the guard and cooldown around starting the core.
- **Database to core.** `Model` is the tables; `ClientSave` the client operations and the ids they
  report; `InboundUsers` the two readings of the table as users of an inbound; `Panel` the operations
  together with the refresh of the core; `Coherence` the theorem that refreshing only the reported
  inbounds is enough, over every run and with failing refreshes, with the exact payloads for which it
  is not. `LiveBan` joins it to the session machine: what a ban in the table means for open sessions.
- **Link cache.** `LinkCache` and `LinkCacheRuns`: the stored local links equal the generator's output
  as a multiset, whatever clients, inbounds and TLS profiles go through, and exactly when a payload that
  lists an inbound twice breaks that.
- **Links.** `Text`, `PercentEncoding`, `Urls`, `Queries` and `ShareUrls` are the text level; `Links`
  prints, `LinksParsed` parses, `LinksRoundTrip` and `LinksTheorems` connect the two, and `LinkText` gives
  the printed and the parsed text by its literal names. `Base64` and `Shadowsocks` treat the Base64 user
  part. `Views` and `ViewAgreement` compare a link with the JSON subscription.

Code that loops or updates state is a method or a class proved against a specification function.
Theorems are about those functions, and lemmas named `...ByColumn`, `...ByRow`, `...ByName` or `...Field`
say what each of them means in terms of stored columns and literal names. Machines (`Hy2Protocol`,
`TrafficRuns`, `StartGuard`) are step functions with history fields that guard nothing. Calls that can
fail outside the model (a refused inbound, a failed transaction, a random choice) are parameters; given
those, the panel's contracts say exactly when an operation is done.

Where the code and its own comments differ the model follows the code: live user updates look at the
ban flag and inline user lists do not (`LiveEqualsRestartExact` says when that matters); an edit that
flips only the ban flag reports no inbound (`ChangeSetExact`); a "new" that carries a stored id reports
only the new row's inbounds (`NewExact`); a hysteria2, anytls or tuic link without TLS parses as one
with TLS (`AddrMeaning`); a link says nothing of a uTLS switch that is off beside a fingerprint, and the
parser rewrites a dash in a port range (`TlsRoundTripExact`, `ViewsAgree`).

## Model

| member | source | states |
|---|---|---|
| `UintArrays.UnionUintArray` | util/common/array.go:4-17 | the result lists every element of either slice once and nothing else |
| `UintArrays.DiffUintArray` | util/common/array.go:21-45 | the result is exactly the symmetric difference, those of the second slice first, in slice order |
| `UintArrays.WithoutElements` | util/common/array.go:25-42 | filtering one slice by the other keeps exactly the elements the other lacks |
| `Hy2Service.LastListingWins` | forks/patched-files/sing-quic/hysteria2/service.go:127-131 | a password authenticates if and only if it is listed, and its last listing decides the user |
| `Hy2Service.Service.UpdateUsers` | forks/patched-files/sing-quic/hysteria2/service.go:127-136 | the user map becomes the one the two lists denote; nothing else of the service changes |
| `Hy2Service.Session.CloseWithError` | forks/patched-files/sing-quic/hysteria2/service.go:363-379 | the channel is closed afterwards, and this call closed it exactly when it was open before |
| `Hy2Service.Service.AddSession` | forks/patched-files/sing-quic/hysteria2/service.go:175-179 | registers one session |
| `Hy2Service.Service.RemoveSession` | forks/patched-files/sing-quic/hysteria2/service.go:181-185 | unregisters one session |
| `Hy2Service.Service.ServeAuth` | forks/patched-files/sing-quic/hysteria2/service.go:258-284 | a known password gives an unauthenticated session the identity of the current map; an authenticated session keeps its first identity; an unknown password changes nothing |
| `Hy2Service.Service.RetainUsers` | forks/patched-files/sing-quic/hysteria2/service.go:144-173 | closes exactly the registered authenticated sessions whose password is not listed |
| `Hy2Invariant.InvStep` | forks/patched-files/sing-quic/hysteria2/service.go:127-185 | every step of every thread keeps the invariant that ties locks, registry, session fields and the panel's progress together |
| `Hy2Invariant.InvRun` | forks/patched-files/sing-quic/hysteria2/service.go:127-379 | every state reachable by any interleaving satisfies the invariant |
| `Hy2Theorems.Eviction` | forks/patched-files/sing-quic/hysteria2/service.go:138-173 | whenever no update is in progress, an open authenticated session has a password of the current set, or its lookup came before the swap and its commit after the scan had passed it |
| `Hy2Theorems.ScanIsExact` | forks/patched-files/sing-quic/hysteria2/service.go:154-167 | at the end of the scan a session is a victim if and only if it was read after its commit and its password is outside the new set; every registered session was scanned after the swap |
| `Hy2Theorems.InFlightEscapes` | forks/patched-files/sing-quic/hysteria2/service.go:271-284 | a concrete interleaving in which a handshake between lookup and commit survives an update that removed its password, so the exception in Eviction is real |
| `Hy2Theorems.NoDrop` | forks/patched-files/sing-quic/hysteria2/service.go:144-173 | the panel closes a session only if it is authenticated with a password outside the current set |
| `Hy2Theorems.ClosedAtMostOnce` | forks/patched-files/sing-quic/hysteria2/service.go:363-379 | over every run connDone is closed once if the session is closed and never otherwise |
| `Hy2Theorems.IdentityStep` | forks/patched-files/sing-quic/hysteria2/service.go:258-284 | no step of any thread changes the identity of an authenticated session, and installed maps are never rewritten |
| `Hy2Theorems.StableAttribution` | forks/patched-files/sing-box/protocol/hysteria2/inbound.go:159-191 | through any number of later updates a session keeps the name its password had in the map it was looked up in, and every stream it opened is accounted under that name |
| `Hy2Theorems.StreamsAttributed` | forks/patched-files/sing-quic/hysteria2/service.go:331-361 | after every run all streams of a session carry its one user name |
| `Hy2Theorems.PanelUnblocked` | forks/patched-files/sing-quic/hysteria2/service.go:149-173 | the panel thread can run or waits for a thread that can |
| `Hy2Theorems.SessionThreadUnblocked` | forks/patched-files/sing-quic/hysteria2/service.go:175-185 | a session's thread can run or waits for the panel or for a thread that can |
| `Hy2Theorems.NoDeadlock` | forks/patched-files/sing-quic/hysteria2/service.go:149-153 | with four kinds of locks and any number of sessions, a chain of waiting threads has at most two links and ends in a thread that can run |
| `Hy2Theorems.SomeStepEnabled` | forks/patched-files/sing-quic/hysteria2/service.go:149-185 | whenever some thread has unfinished work, in any reachable state, a step of a thread with unfinished work is enabled; beginning new work does not count |
| `Hy2Theorems.RetainEnds` | forks/patched-files/sing-quic/hysteria2/service.go:144-173 | once RetainUsers holds the registry lock, each of its steps brings its end nearer and no other thread adds work to it |
| `Hy2Theorems.CloseFinishes` | forks/patched-files/sing-quic/hysteria2/service.go:363-379 | over every run, a session whose close was called is closed once the call has returned |
| `Hy2Theorems.RegisteredExactly` | forks/patched-files/sing-quic/hysteria2/service.go:175-185 | after every run the registry holds exactly the sessions whose thread has added them and not yet removed them |
| `Hy2Refinement.UpdateAlone` | forks/patched-files/sing-quic/hysteria2/service.go:127-173 | an undisturbed panel thread can finish an update |
| `Hy2Refinement.UpdateRefines` | forks/patched-files/sing-quic/hysteria2/service.go:127-173 | every undisturbed run of an update, whatever the scan order, that ends with the panel at rest has installed the listed map and closed exactly the registered authenticated sessions whose password is not listed, besides those that were: the machine refines the two calls |
| `Hy2Refinement.ServeAlone` | forks/patched-files/sing-quic/hysteria2/service.go:258-284 | an undisturbed handler finishes with the identity of the current map, or with nothing changed, and touches no other session |
| `Model.SaveRows` | service/client.go:80-80 | saving a row changes the one row with its id, or appends it, and keeps ids distinct |
| `Model.SaveAllRows` | service/client.go:523-528 | saving a batch of images of stored rows updates each row in place |
| `Model.FindUnique` | service/client.go:568-571 | the query by primary key finds the one row with that id |
| `Model.FindSavedAll` | service/client.go:104-104 | after saving a batch an id finds its last listing in the batch, or what it found before |
| `Model.DeleteRows` | service/client.go:154-154 | exactly the rows with the listed ids go |
| `Lifecycle.StartExpiryClocks` | service/client.go:462-479 | each selected row gets its expiry date and loses the delay, with one audit row each |
| `Lifecycle.StartResetClocks` | service/client.go:481-498 | each selected row gets its first reset date and loses the delay, with one audit row each |
| `Lifecycle.ResetPeriods` | service/client.go:500-520 | each selected row moves its traffic to the totals and is enabled unless banned; the ids are the inbounds of the rows enabled again, without duplicates |
| `Lifecycle.ListDepleted` | service/client.go:425-439 | one disable audit row per selected client, and their inbounds joined to the ids |
| `Lifecycle.ClientDb.ResetClients` | service/client.go:457-539 | three queries, one batch: every row ends at its own reset image, the audit rows follow query order, the ids are exactly the revived clients' inbounds |
| `Lifecycle.ResetBatch` | service/client.go:463-528 | the rows the three queries select never collide in the batch, so saving it gives every row its own image |
| `Lifecycle.ClientDb.DepleteClients` | service/client.go:391-455 | table, audit rows and returned ids of one tick as functions of the table before it |
| `Lifecycle.ClientDb.BanClient` | service/config.go:268-330 | only the named row changes, an unban enables it exactly within its limits, one audit row; a missing id changes nothing |
| `LifecycleRuns.BatchIsSequence` | service/client.go:463-520 | the three selections are pairwise disjoint, and one batch equals the three queries in sequence if and only if no period of negative length is started |
| `LifecycleRuns.TickEnforcesLimits` | service/client.go:419-446 | on the columns: after a tick every enabled client has its traffic within its volume and its expiry date not past, and a client within both was not disabled unless a delayed clock of negative length has just started |
| `LifecycleRuns.TickByColumn` | service/client.go:391-539 | every column of a row after a tick: expiry and next reset lie the reset days times 86400 seconds ahead, totals take over the traffic, and the row is enabled if and only if it was, or its period ended without a ban, and it is within its limits |
| `LifecycleRuns.TickAuditExact` | service/client.go:425-497 | a tick records exactly the delayed clocks it started and the clients it disabled |
| `LifecycleRuns.BanByColumn` | service/config.go:287-305 | a ban disables; an unban enables if and only if traffic and expiry are within the limits; no other column changes |
| `LifecycleRuns.TickInboundsExact` | service/client.go:414-455 | an id is returned by a tick if and only if it is an inbound of a client that the tick disabled or that came to its reset disabled without a ban |
| `LifecycleRuns.TickCoversChanges` | service/client.go:391-455 | every inbound of a client whose enable flag a tick changes is returned |
| `LifecycleRuns.TickTwice` | service/client.go:391-455 | a second tick at the same instant changes nothing, returns no id and writes no audit row (periods not negative) |
| `LifecycleRuns.UnbanRespectsLimits` | service/config.go:295-304 | a limit check right after an unban changes nothing |
| `LifecycleRuns.BannedStaysDisabled` | service/client.go:512-518 | over every run of stats, ticks, bans and unbans, banned implies disabled |
| `LifecycleRuns.ResetsSpaced` | service/client.go:500-511 | two successive periodic resets of a client are more than a period apart, in any run |
| `LifecycleRuns.ResetsFarApart` | service/client.go:500-511 | the i-th and the j-th reset are more than j - i periods apart |
| `LifecycleRuns.ResetsInWindow` | service/client.go:500-511 | n resets inside a window need room for n - 1 periods |
| `LifecycleRuns.StartsOnce` | service/client.go:462-497 | the delayed start of a client fires at most once in any run |
| `Traffic.StatsTracker.Reset` | core/tracker_stats.go:37-43 | all three counter maps become empty |
| `Traffic.StatsTracker.LoadOrCreateUser` | core/tracker_stats.go:66-74 | the stored counter of a name, or a new zero one that no other name shares; existing counters keep their bytes |
| `Traffic.Drain` | core/tracker_stats.go:93-111 | one loop over a counter map: every counter ends at zero, and the readings report exactly what each one held and nothing for other names or silent counters |
| `Traffic.StatsTracker.GetStats` | core/tracker_stats.go:86-153 | every counter of the three maps is swapped to zero, its reading is exactly what it held, per direction, no other name has a reading, and a name is reported if and only if its counter held traffic |
| `Traffic.CreditAllRows` | service/stats.go:57-68 | applying readings adds to each row exactly the readings under its name, per direction, and changes nothing else in it |
| `Traffic.OnlineTagsExact` | service/stats.go:71-81 | a name is online if and only if its upload reading is in the list |
| `Traffic.StatsService.SaveStats` | service/stats.go:23-87 | the readings are applied all or not at all; the online lists are replaced even by a failed transaction, up to the update that failed |
| `TrafficRuns.WiredStep` | core/tracker_stats.go:45-74 | every step keeps counters unshared, connections attached to live cells and a drain within the known users |
| `TrafficRuns.BalancedStep` | service/stats.go:57-68 | every step of a connection, the stats job, the deplete job or an admin keeps a client's bytes balanced |
| `TrafficRuns.Conservation` | service/stats.go:35-87 | over every interleaving and for every row and direction: bytes at the start plus bytes sent equal columns plus undrained plus pending plus what failed transactions and core stops lost |
| `TrafficRuns.NothingLost` | core/tracker_stats.go:86-153 | without failed transactions and core stops the three loss logs stay empty |
| `TrafficRuns.NoFailureNoLoss` | service/stats.go:35-87 | without failures, an idle moment with empty counters has every sent byte in the client's columns |
| `Downsample.TallySums` | service/stats.go:116-132 | a bucket holds exactly the sums of the readings that fall into it, and a bucket is absent exactly when none does |
| `Downsample.BucketCovers` | service/stats.go:117-123 | bucket b takes exactly the readings of its own span; the first also takes what lies before the window, the last what lies after |
| `Downsample.BucketMirrored` | service/stats.go:117-123 | a window that ends before it starts runs backwards |
| `Downsample.SpanFills` | service/stats.go:111-114 | the spans fill the window up to less than a second per bucket |
| `Downsample.DownsampleStats` | service/stats.go:109-135 | the loop builds that table with truncating division and clamped ends |
| `Downsample.DownsampleConserves` | service/stats.go:109-135 | the buckets together hold all the traffic |
| `StartGuard.InvStep` | service/config.go:89-167 | every step of any goroutine keeps the guard invariant |
| `StartGuard.MutualExclusion` | service/config.go:93-109 | at most one StartCore or restartCoreWithConfig is past the check and not returned |
| `StartGuard.FlagMeansInside` | service/config.go:103-109 | the in-progress flag is up exactly while someone is inside, so every exit takes it down |
| `StartGuard.Admission` | service/config.go:93-104 | in every reachable state: StartCore is let in if and only if nobody is inside and every recorded failure is 15 seconds past, a restart if and only if nobody is inside |
| `StartGuard.WayOut` | service/config.go:105-123 | only a failed StartCore is recorded, and the flag goes down on every way out |
| `StartGuard.FailuresSpaced` | service/config.go:98-123 | recorded start failures i and j are at least j - i cooldowns apart |
| `StartGuard.FailuresInWindow` | service/config.go:98-123 | the number of recorded failures in a window is at most one more than the cooldowns it holds |
| `StartGuard.NoDeadlock` | service/config.go:136-148 | a goroutine can move, or the holder of the mutex can |
| `ClientSave.SetConfigIdentity` | service/client.go:541-562 | every protocol's settings that carry a name or user name carry the client's afterwards; nothing else changes |
| `ClientSave.IdentityIdempotent` | service/client.go:541-562 | rewriting the names twice is rewriting them once |
| `ClientSave.IdentityByKey` | service/client.go:549-555 | key by key: the name, or without one the user name, becomes the client's in every protocol's settings, and nothing else changes |
| `ClientSave.ClientStore.FindInboundsChanges` | service/client.go:564-596 | None exactly for an unknown id; otherwise the stored row's links and settings filled in where they are omitted and, as a set, the affected inbounds |
| `ClientSave.ClientStore.SaveNew` | service/client.go:55-83 | the row is stored with its names rewritten, and its inbounds are reported |
| `ClientSave.ClientStore.SaveEdit` | service/client.go:55-83 | an unknown id is rejected and changes nothing; otherwise the row is stored and the change set reported |
| `ClientSave.ClientStore.SaveAddBulk` | service/client.go:84-107 | all rows stored in one batch, the union of their inbounds reported |
| `ClientSave.ClientStore.SaveEditBulk` | service/client.go:108-135 | one unknown id rejects all; otherwise every listed row keeps its links and its settings, with the names rewritten, and takes the other columns of its last payload row, the rows not listed stay, and the union of the change sets is reported |
| `ClientSave.BulkEditRows` | service/client.go:108-131 | the same of the table that a bulk edit stores, row by row |
| `ClientSave.AddBulkRows` | service/client.go:84-107 | a bulk new stores the last listing of every id with its names rewritten, and changes no other id |
| `ClientSave.ChangeSetByColumn` | service/client.go:582-594 | an id is reported by an edit if and only if the client had or has it, and not both unless settings, name or enable flag changed |
| `ClientSave.BulkChangesExact` | service/client.go:114-125 | a bulk edit reports exactly what its rows report |
| `ClientSave.DeletedInboundsExact` | service/client.go:136-177 | a deletion reports exactly the inbounds of the rows that go |
| `ClientSave.ClientStore.SaveDelBulk` | service/client.go:136-158 | one unknown id rejects all; otherwise exactly the listed rows go and the union of their inbounds is reported |
| `ClientSave.ClientStore.SaveDel` | service/client.go:159-177 | an unknown id is rejected; otherwise the row goes and its inbounds are reported |
| `InboundUsers.Hy2Users` | service/inbounds.go:342-365 | the pairs denote the user map of the enabled, unbanned, attached clients with a non-empty hysteria2 password |
| `InboundUsers.FetchUsers` | service/inbounds.go:254-291 | the inline user list of the inbound, or an error exactly when a selected client has no settings for it |
| `InboundUsers.NewHy2Inbound` | forks/patched-files/sing-box/protocol/hysteria2/inbound.go:147-155 | a started inbound serves the map of the names and passwords in its inline settings |
| `InboundUsers.LiveEqualsRestart` | service/inbounds.go:338-365 | the live map equals the map of a restart, shared passwords included, when every selected client is unbanned, has a non-empty password and settings under its own name |
| `InboundUsers.LiveEqualsRestartExact` | service/inbounds.go:254-311 | with no password shared, the two maps are equal if and only if every selected client is such |
| `InboundUsers.EntrySource` | service/inbounds.go:270-290 | the user list holds an entry if and only if some client in the table has it |
| `InboundUsers.InlineUser` | service/inbounds.go:246-291 | the inline user a client is, by its row: enabled and attached, under the key of the protocol (the short key for one cipher), with the vision flow taken out of vless users that have a transport or no TLS |
| `InboundUsers.LiveUser` | service/inbounds.go:347-364 | the live user a client is, by its row |
| `InboundUsers.VisionRemoved` | service/inbounds.go:283-285 | the flow is cut out at its first occurrence, and the rest is treated likewise |
| `InboundUsers.DesiredByRow` | service/inbounds.go:254-311 | an inbound should serve exactly the users that some row is, one for every such row, unless one cannot be read |
| `InboundUsers.LivePassword` | service/inbounds.go:338-365 | a password lets in the last enabled, unbanned, attached client of the table that has it, and without one nobody |
| `Panel.PanelService.UpdateInboundUsers` | service/inbounds.go:370-391 | it succeeds if and only if the core is down, the id is unknown or its inbound is running as hysteria2; then the inbound serves its desired live map; no other inbound changes |
| `Panel.PanelService.UpdateAllUsers` | service/inbounds.go:425-429 | it succeeds if and only if every listed inbound is running as hysteria2; then all of them serve their desired live maps |
| `Panel.PanelService.RestartInbounds` | service/inbounds.go:440-471 | it succeeds if and only if the core is down or every listed inbound can be closed, read and added again; then each serves what a restart gives; otherwise those before the first failure do, that one is closed, and those after it are as they were |
| `Panel.PanelService.RestartInbound` | service/inbounds.go:449-468 | one inbound of the running core: the same, for it alone |
| `Panel.ReadableExact` | service/inbounds.go:268-277 | reading the inline users fails exactly when a selected client has no settings for the protocol |
| `Panel.PanelService.ApplyUserChanges` | service/inbounds.go:398-438 | it succeeds if and only if the core is down or every listed inbound can be refreshed, live for hysteria2 when switched on and by a restart otherwise; then every listed inbound serves what it should; in any case only listed inbounds change |
| `Panel.PanelService.SaveClients` | service/config.go:188-256 | a client operation is refused for an unknown id; it is stored with its affected inbounds refreshed if and only if the audit row is written and they can all be refreshed, and rolled back otherwise |
| `Panel.PanelService.BanClient` | service/config.go:268-343 | nothing happens for an unknown id or a failed commit; otherwise the ban is stored, and applied if and only if the client's inbounds can be refreshed |
| `Panel.PanelService.RunDepleteJob` | cronjob/depleteJob.go:18-30 | a failed transaction ends the job with nothing changed; otherwise the tick is stored, and applied if and only if the returned inbounds can be refreshed |
| `Coherence.ChangeSetSound` | service/client.go:564-596 | with the ban flag unchanged, an inbound outside the change set has the same user entry before and after |
| `Coherence.ChangeSetExact` | service/client.go:564-596 | for any two rows: an inbound outside the change set changes its entry if and only if the edit flips only the ban flag of an enabled client with a usable hysteria2 password there |
| `Coherence.SaveAllKeepsEntries` | service/client.go:104-135 | saving rows that leave an inbound's entries alone leaves its user list alone, in order, repeated ids included |
| `Coherence.AfterValid` | service/client.go:50-183 | every operation keeps ids distinct and the client's name in its settings |
| `Coherence.AffectedIsEnough` | service/client.go:50-183 | for new, edit, addbulk, editbulk, del, delbulk, ban and tick: an inbound that is not reported should serve the same as before, when no stored user of it is overwritten by a new row and no ban slips through an edit |
| `Coherence.NewExact` | service/client.go:68-80 | for every "new" and unreported inbound: the user list stays if and only if the stored row with the payload's id, if any, is not a user of the inbound |
| `Coherence.AddBulkExact` | service/client.go:84-107 | the same for a batch of new rows: no row stored under one of their ids may be a user of the inbound |
| `Coherence.EditExact` | service/client.go:564-596 | for every edit and unreported inbound: the user list stays if and only if the edit is not a slipped ban flag |
| `Coherence.StepCoherent` | service/inbounds.go:393-438 | every operation, successful or not, keeps the core coherent outside the inbounds whose last refresh failed |
| `Coherence.RunCoherent` | service/inbounds.go:393-438 | over every run of operations, failures included, every inbound whose last refresh succeeded serves exactly what the whole client table asks for |
| `Coherence.Perform` | service/config.go:188-343 | any operation of the panel service keeps the core coherent outside the inbounds whose last refresh failed; it is done if and only if it is accepted, its transaction commits and its inbounds can be refreshed, and then they leave that list |
| `Coherence.LiveNeverFails` | service/inbounds.go:370-429 | in a coherent state a live operation that affects only hysteria2 inbounds, none of them stale, can always be applied |
| `Coherence.LiveMapIsTable` | service/inbounds.go:338-391 | so the live user map of such a hysteria2 inbound is the map computed from the whole table |
| `Coherence.StartCoherent` | service/inbounds.go:225-244 | a started core is coherent for live updates when the selected clients of hysteria2 inbounds are aligned |
| `Coherence.StoredRowsAligned` | service/client.go:541-562 | rows saved by the panel are aligned: names are rewritten, and a ban disables |
| `Coherence.NewOverStoredRow` | service/client.go:68-80 | a concrete "new" that carries a stored id changes what an unreported inbound should serve: the condition of NewExact fails for a real payload |
| `LiveBan.OpenSessionsAreServed` | forks/patched-files/sing-quic/hysteria2/service.go:138-173 | with the core coherent, every open session of a live hysteria2 inbound has the password of a client that the table lets in, or was in flight across the last update |
| `LiveBan.BanEvicts` | service/config.go:268-343 | after a live ban that was applied, an open session with the banned client's password was in flight across the update, or another served client shares the password |
| `LinkCache.LinkStore.UpdateLinksWithFixedInbounds` | service/client.go:185-246 | in place, every row gets the generator's links for its inbounds in list order, then its links of other kinds in order |
| `LinkCache.RelinkedRow` | service/client.go:213-237 | a relinked row has the links of its inbounds first and then its other links; nothing but its links changes |
| `LinkCache.AttachedInOrder` | service/client.go:217-230 | the inbounds are gone through in the order in which the client lists them |
| `LinkCache.KeepInOrder` | service/client.go:231-237 | kept links are gone through one by one and keep their order |
| `LinkCache.LinkStore.UpdateClientsOnInboundAdd` | service/client.go:248-296 | exactly the initial clients get the inbound and its links, and lose links with its tag as remark |
| `LinkCache.AddedRow` | service/client.go:248-296 | row by row: exactly the initial clients get the inbound at the end of their list and, under its tag, the generator's links and no others; every other link and row stays |
| `LinkCache.LinkStore.UpdateClientsOnInboundDelete` | service/client.go:298-343 | exactly the attached clients lose the inbound and all links with its tag as remark |
| `LinkCache.DeletedRow` | service/client.go:298-343 | row by row: exactly the attached clients lose the inbound, however often listed, and the links with its tag as remark; everything else stays |
| `LinkCache.LinkStore.UpdateLinksByInboundChange` | service/client.go:345-389 | for each changed inbound in turn, exactly the attached clients exchange its local links |
| `LinkCache.ChangedRow` | service/client.go:345-389 | row by row: exactly the attached clients have the generator's local links under the new tag and none under the old one; everything else stays |
| `LinkCache.LocalLinksByRow` | service/client.go:217-230 | the twelve types with links, and a local link as type, remark and URI |
| `LinkCache.SavedOneByOne` | service/client.go:260-295 | saving images of selected rows one at a time updates exactly the selected rows |
| `LinkCacheRuns.AttachedCount` | service/client.go:217-230 | with unique tags, a local link is printed as often as the one inbound with its tag prints it, times the number of times the client lists that inbound |
| `LinkCacheRuns.RelinkedCached` | service/client.go:185-246 | a row that is relinked has, as a multiset, exactly the generator's local links |
| `LinkCacheRuns.UnchangedRow` | service/client.go:114-131 | a row of a bulk edit that reports no change keeps a valid cache if and only if it lists every inbound that prints links for it as often as the stored row does |
| `LinkCacheRuns.AddedExact` | service/client.go:260-294 | adding an inbound keeps the count of local links, for initial and for other clients, if and only if the client does not already list an id that would now print links |
| `LinkCacheRuns.DeletedCounted` | service/client.go:312-341 | deleting an inbound keeps the cache of attached and of other clients |
| `LinkCacheRuns.ChangedExact` | service/client.go:361-386 | editing or renaming an inbound keeps the count of an attached client's local links if and only if it is listed once or prints nothing for the client, and always that of the others |
| `LinkCacheRuns.InboundEditExact` | service/client.go:345-389 | the same for the whole cache: after an inbound edit an attached client is cached if and only if it lists the inbound once or the inbound prints nothing for it |
| `LinkCacheRuns.EditTlsKeeps` | service/tls.go:44-53 | editing a TLS profile shared by several inbounds keeps every client's cache |
| `LinkCacheRuns.StepKeeps` | service/client.go:185-389 | every client save and every inbound or TLS change keeps the cache of every client |
| `LinkCacheRuns.RunKeepsCache` | service/client.go:185-389 | over every run, every client's local links are, as a multiset, the generator's output over its attached inbounds |
| `LinkCacheRuns.ExternalsSurvive` | service/client.go:232-237 | links of other kinds survive saves and edits with their multiplicity; adding or deleting an inbound drops exactly those with its tag as remark |
| `LinkCacheRuns.RepeatedInboundBreaksCache` | service/client.go:345-389 | a concrete client that lists an inbound twice and whose cache is short after an inbound edit |
| `PercentEncoding.UnescapeEscape` | util/genLink.go:537-537 | unescaping an escaped byte string gives it back, in every mode but host |
| `PercentEncoding.UnescapeShortens` | util/genLink.go:530-530 | decoding never lengthens, and shortens whatever holds a "%" |
| `LinkText.EscapedByte` | util/genLink.go:537-541 | byte by byte what a query, a user part and a tag copy, and the upper-case code of everything else; a space in a query is a plus |
| `Text.SplitJoin` | util/linkToJson.go:285-285 | splitting a joined list gives it back when no item holds the separator |
| `Text.AtoiItoa` | util/linkToJson.go:144-144 | reading a printed number gives it back within 64 bits |
| `Text.AtoiSigned` | util/linkToJson.go:267-268 | a sign is read, and a number out of range becomes the nearest 64-bit one |
| `Text.AtoiRefuses` | util/linkToJson.go:267-268 | anything that is not a number is 0 |
| `Queries.ParseQueryOf` | util/genLink.go:531-540 | parsing a printed query gives back every parameter in order, for any bytes in escaped values and safe ones in raw values |
| `Urls.UserRoundTrip` | util/genLink.go:530-542 | a user name and password printed by the URL printer are read back, whatever bytes they hold |
| `Urls.RawUserExact` | util/genLink.go:277-277 | a user part printed raw is read back if and only if it holds only safe characters |
| `ShareUrls.LinkRoundTrip` | util/genLink.go:529-543 | a finished link parses to its scheme, user, host, port, parameters and tag |
| `ShareUrls.UserSurvivesExactly` | util/genLink.go:529-543 | for every user part: it is read back from the finished link if and only if it holds only safe characters, whether the failure is an error, a truncation or another host |
| `ShareUrls.PairSurvivesExactly` | util/genLink.go:529-543 | for every name and password joined by a colon: both are read back from the finished link if and only if the name holds only safe characters and the password only those and colons |
| `Links.PrepareAddrs` | util/genLink.go:37-69 | the inbound itself, or its extra addresses with tag-prefixed remarks and overridden TLS fields |
| `Links.PatchedFields` | util/genLink.go:56-65 | field by field an address's own TLS value wins over the profile's |
| `Links.AddrTlsFields` | util/genLink.go:46-67 | the TLS settings of an address with and without a profile and fields of its own |
| `Links.GetTlsParams` | util/genLink.go:595-628 | appends the parameters of the TLS settings; Reality replaces the insecure and disable_sni switches |
| `Links.GetTransportParams` | util/genLink.go:545-593 | the parameters of the transport, by its type |
| `Links.Hysteria2Link` | util/genLink.go:271-322 | one link per address, or a crash exactly when one URI cannot be parsed; no link when out_json is unreadable |
| `Links.AnyTlsLink` | util/genLink.go:324-344 | one link per address, or a crash exactly when one URI cannot be parsed |
| `Links.TuicLink` | util/genLink.go:346-380 | one link per address, or a crash exactly when one URI cannot be parsed |
| `Links.VlessLink` | util/genLink.go:382-411 | one link per address, TLS only when switched on, the flow only over TLS and plain TCP |
| `Links.TrojanLink` | util/genLink.go:413-434 | one link per address, TLS only when switched on |
| `Links.LinkGenerator` | util/genLink.go:71-101 | dispatches by inbound type on the prepared addresses; the printers outside the model are a parameter |
| `LinkText.Hy2Text` | util/genLink.go:280-318 | a hysteria2 link with every parameter by its literal name, in order, for all values: the server's up_mbps under downmbps and its down_mbps under upmbps |
| `LinkText.AnyTlsText` | util/genLink.go:332-341 | an anytls link by literal names |
| `LinkText.TuicText` | util/genLink.go:362-377 | a tuic link by literal names, no relay mode when it is empty |
| `LinkText.VlessText` | util/genLink.go:387-408 | a vless link by literal names, allowInsecure in its TLS, the flow only over TLS and tcp |
| `LinkText.TrojanText` | util/genLink.go:418-431 | a trojan link by literal names |
| `LinkText.TlsText` | util/genLink.go:595-628 | the TLS parameters by literal names |
| `LinkText.TransportText` | util/genLink.go:545-593 | the transport parameters by literal names |
| `LinkText.FinishedText` | util/genLink.go:529-543 | the whole text of a link: scheme, escaped user part, host, port, query and escaped tag |
| `LinkText.Dispatched` | util/linkToJson.go:14-40 | which parser reads a link, by its literal scheme |
| `LinkText.Hy2ByName` | util/linkToJson.go:242-291 | every field of a parsed hysteria2 outbound by the literal name it is read from |
| `LinkText.AnyTlsByName` | util/linkToJson.go:293-319 | every field of a parsed anytls outbound by literal names |
| `LinkText.TuicByName` | util/linkToJson.go:321-351 | every field of a parsed tuic outbound by literal names |
| `LinkText.VlessByName` | util/linkToJson.go:138-166 | every field of a parsed vless outbound by literal names, the default port by its security |
| `LinkText.TrojanByName` | util/linkToJson.go:168-195 | every field of a parsed trojan outbound by literal names |
| `LinkText.TlsByName` | util/linkToJson.go:534-581 | every TLS field of a parsed link by literal names |
| `LinkText.TransportByName` | util/linkToJson.go:494-532 | every transport of a parsed link by literal names |
| `LinksRoundTrip.TlsRoundTrip` | util/linkToJson.go:534-581 | the parsed TLS is the printed one read as switched on, uTLS on exactly when a fingerprint was printed, absent as empty, wherever it stands among the parameters |
| `LinksRoundTrip.TlsRoundTripExact` | util/linkToJson.go:534-581 | the parsed TLS is the stored one if and only if the stored one is switched on and has uTLS on exactly when it has a fingerprint |
| `LinksTheorems.TransportRoundTrip` | util/linkToJson.go:494-532 | the parsed transport is the printed one for tcp, http, ws, grpc, httpupgrade and quic |
| `LinksTheorems.Hy2RoundTrip` | util/linkToJson.go:242-291 | a hysteria2 link parses to server, port, password, tag, TLS, obfs, ports and fast open, with upload and download on their proper sides and zero rates as absent |
| `LinksTheorems.GeneratedLinksParse` | util/genLink.go:280-321 | for hysteria2 the printer gives one link per address, and the k-th parses to the outbound of the k-th address, numbered |
| `LinksTheorems.AnyTlsLinksParse` | util/genLink.go:332-341 | the same for anytls |
| `LinksTheorems.TuicLinksParse` | util/genLink.go:362-377 | the same for tuic |
| `LinksTheorems.VlessLinksParse` | util/genLink.go:395-408 | the same for vless |
| `LinksTheorems.TrojanLinksParse` | util/genLink.go:421-431 | the same for trojan |
| `LinksTheorems.Hy2PasswordExact` | util/linkToJson.go:259-266 | for every password: the parsed hysteria2 password is the printed one if and only if it holds only safe characters |
| `LinksTheorems.AnyTlsRoundTrip` | util/linkToJson.go:293-319 | an anytls link parses to server, port, password, tag and TLS |
| `LinksTheorems.TuicRoundTrip` | util/linkToJson.go:321-351 | a tuic link parses to uuid, password (colons allowed), congestion control, relay mode and TLS |
| `LinksTheorems.TuicCredentialsExact` | util/linkToJson.go:338-345 | for every uuid and password: both come back from a tuic link if and only if the uuid holds only safe characters and the password only those and colons |
| `LinksTheorems.VlessRoundTrip` | util/linkToJson.go:138-166 | a vless link parses to uuid, flow, TLS and transport; without TLS there is none |
| `LinksTheorems.TrojanRoundTrip` | util/linkToJson.go:168-195 | a trojan link parses to password, TLS and transport |
| `Base64.DecodeEncode` | util/base64.go:6-12 | decoding an encoded byte string gives it back (section 4 of RFC 4648) |
| `Base64.Alphabet` | util/base64.go:6-12 | the alphabet of table 1 of RFC 4648 |
| `Base64.GroupDigits` | util/base64.go:6-12 | the symbols of a group are the base-64 digits of its bytes as one number, zero bits and padding in a short last group |
| `Base64.SlashExact` | util/genLink.go:525-527 | encoded ASCII holds a "/" if and only if some third byte of a group is "?" or DEL |
| `Shadowsocks.ShadowsocksLink` | util/genLink.go:150-177 | one link per address, the 2022 ciphers with the inbound's key first |
| `Shadowsocks.CredentialsByCipher` | util/genLink.go:155-168 | the credentials by cipher: the 2022 ciphers have the inbound's key in front, one of them takes the client's short key |
| `Shadowsocks.PluginByName` | util/linkToJson.go:389-409 | plugin and options of a parsed link by literal names |
| `Shadowsocks.SsRoundTripExact` | util/linkToJson.go:353-384 | for all bytes: method, full password and tag come back if and only if the Base64 text has no "/" and the tag no "%" |
| `Shadowsocks.SsAsciiRoundTrip` | util/linkToJson.go:360-371 | for ASCII credentials the link parses back if and only if no third byte of a group is "?" or DEL |
| `Views.AddTls` | util/outJson.go:78-127 | field by field what a client is told, and a crash exactly for a malformed Reality or ECH object |
| `Views.MergedField` | util/outJson.go:89-124 | field by literal name: seven are the server's where it has them, Reality and ECH are switched on with the server's choices, the rest is the client's |
| `Views.PrepareTls` | util/genLink.go:104-128 | field by field what a link is printed from, whatever the order of the walk |
| `Views.PreparedField` | util/genLink.go:113-126 | field by literal name: three are the server's, Reality takes the server's switch and one of its short ids, the rest is the client's |
| `Views.FillOutJson` | util/outJson.go:12-75 | for hysteria2, every field of the filled out_json, rates exchanged, stale fields gone |
| `Views.FilledField` | util/outJson.go:42-45 | the filled fields by literal name, and no other touched |
| `Views.SubscriptionOutbound` | sub/jsonService.go:161-172 | every field of the outbound: the client's settings win, except name, alterId and an unsuitable flow |
| `Views.OutboundField` | sub/jsonService.go:161-172 | the client's settings win except name, alterId, and a flow where the inbound has no TLS profile or a transport |
| `ViewAgreement.TlsAgrees` | util/outJson.go:89-109 | without Reality the TLS read from a link and the TLS of the subscription agree on every shared field if and only if TLS is switched on, uTLS is on exactly when there is a fingerprint, and ALPN is not a single text |
| `ViewAgreement.ViewsAgree` | sub/jsonService.go:119-228 | the outbound parsed from a hysteria2 link and the one in the subscription agree on tag, address, password, both rates, obfs, the port list as written and shared TLS fields if and only if the TLS agrees as above, the ports are a list without a "-" and the obfs, if any, is salamander |

## Left out

- SQL, QUIC, TLS, HTTP, congestion control, cron, files and the user interface: tables are sequences of rows in scan order, a transaction is one step that commits or not.
- 64-bit wrap-around of traffic, times and ids; only number parsing (`Text.Atoi`) is bounded as in Go.
- JSON text: columns are the values they decode to, so the byte comparison of client configs is a comparison of values, and the leaf settings of a client are strings.
- The `LastUpdate` time and the stored copies of readings in the stats table.
- A commit error that the program ignores: a transaction that does not commit is one that failed.
- Concurrent panel updates and two authentication requests at once on one session: the machine has one of each.
- Runs of Coherence keep the inbounds fixed, and every operation meets `CarefulAt` on every inbound: exact for new, addbulk and edit (`NewExact`, `AddBulkExact`, `EditExact`).
- `Coherence.AffectedIsEnough`: for editbulk its guard is sufficient only, because the effects of two slipped ban flags can cancel out in the user list.
- A client operation rolled back after a failed refresh may leave the core ahead of the table: the inbound then counts as stale until its next refresh.
- The rows stored by ClientSave carry the links of their payload; their replacement is treated in LinkCache, on rows that no other part reads links from.
- The fork's other entry points: UDP messages, masquerade answers and the choice of congestion control after a commit.
- Counters of inbounds and outbounds in TrafficRuns: conservation is stated for users, the drain of all three maps is in Traffic.
- The running check before the start guard is outside the lock, so nothing is claimed about starting the core twice in sequence.
- URLs without an authority, IPv6 zones, and links whose host is not a plain name or IPv4 address.
- `LinksTheorems.TransportRoundTrip`: other transport types print only their name and parse to no transport.
- hysteria v1, vmess, naive, socks and http links: printer and parser do not correspond, or there is no parser.
- TLS profiles without an `enabled` field, ALPN or port lists with items that are not text, and rates that are not whole numbers.
- `Links.PrepareAddrs`: builds new address records, where the source overwrites the maps it has just decoded.
- Views covers hysteria2 without extra addresses; per-address TLS overrides of the subscription write into a shared nested map.
- `ViewAgreement.ViewsAgree`: Reality is excluded, because each view draws its own random short id.
- FillOutJson and getOutbounds for other protocols, the selector outbounds and the other formats of a subscription.
- Fast open is carried by hysteria2 links only; `ViewsAgree` does not compare it.
- TLS profile fields whose JSON value is not of the expected type.
- The connection tracker, log viewing, the DNS migration and the conversion of a subscription to Clash format are not part of this model.
