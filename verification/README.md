# Verified models of the Telegraph federation reference stack and its neighbours

This project models, in Dafny, the stateful cores of the Telegraph federation
reference implementation and of four Edge1 and Cookie Monster services, and
proves what they promise over whole runs.

- `RouteSpace`, `RouteSearch`, `RouteRuns`, `RouteLoop`, `RouteTerms`, `RouteHeads`,
  `DetourExample`, `TrustGraph`: the federation graph, its policy-constrained
  multi-hop search, and quarantine. The search space is defined as a tree and
  shown to be exactly the set of compliant routes; the heap loop is proved against
  it. `RouteRuns` says in which order the heap pops, and `RouteHeads` exactly when
  the search finds the cheapest routes and the route of highest score. `RouteTerms`
  writes out over fields what an answer promises.
- `QueueMessage`, `QueueRuns`, `QueueTerms`, `StoreForward`: the store-and-forward
  queue as a lifecycle automaton per message, a state machine over tables, what each
  operation promises over fields, and an object whose methods refine it.
- `DirectoryMerge`, `JournalSync`, `JournalRuns`: the signed directory merge as a
  last-writer-wins join, and the incremental journal with its checkpoints, pulled
  while it stands still and while it grows.
- `KeyLifecycle`: rotation, retirement, revocation, and remote replay.
- `TurnState`: the fenced handoff of conversations over four tables.
- `ReplayCache`, `ReceiptChain`: replay protection in memory and in SQLite, and
  the receipt chain across restarts.
- `OperationsApi`: signed requests, nonces and idempotent typed actions.
- `TotpGuard`, `Gateway`: TOTP sign-in with lockout, sign-in pages submitted in
  threads, authorization codes, refresh tokens.
- `HashChain`, `KnowledgeLedger`, `ReviewLog`: the append-only ledgers.
- `RuntimePublish`, `Activation`: publication and activation with compensation.
- `ControlPlane`: heartbeats, health scores and route costs.
- `OfficeManager`: the authority policy, proposals and audit chain.
- `Wrappers`, `Sorting`, `Rounding`: shared types, Python's stable sort and orders,
  and Python's rounding.

Digests, signatures, HMACs and JSON are ideal: a digest stands for what it was
taken of, a signature names the key and content it was made with, and documents
are structures. One SQLite transaction is one step. Random identifiers are
parameters; where it matters they are required to be new. A step reads the
clock once.

Whatever decides what is accepted, refused, counted or described is stated twice:
once as the function a method is proved against, and once over plain fields and
constants without that function, in the method's own clauses and in a lemma (many
of these lemmas are named `...InFull` or `...Exactly`).

## Model

| member | source | states |
|---|---|---|
| RouteSearch.SearchFindsExactlyTheCompliantRoutes | reference/telegraph_trust_graph.py:205-240 | a list of links is policy-compliant (simple, enabled, trusted, relaying, within hops and latency, visiting what must be visited, capable), as stated independently of the search, if and only if the route it spells is in the space that the heap loop explores |
| RouteSearch.RoutesAreDeterminedByTheirLinks | reference/telegraph_trust_graph.py:221-237 | every entry of the search space is the one its links determine, compliant, and carries as heap priority latency + 100 per hop + link costs |
| RouteSearch.SearchStarts | reference/telegraph_trust_graph.py:200-205 | before the loop, found routes plus routes still below the queue are exactly all compliant routes |
| RouteSearch.SearchSteps | reference/telegraph_trust_graph.py:205-240 | popping any entry of least priority and pushing its admissible extensions keeps that partition, keeps every found route peaking no higher than what is queued (whatever the signs of the costs), and decreases a measure on the queue, so the loop ends on every graph |
| RouteSearch.SearchEnds | reference/telegraph_trust_graph.py:205-240 | when the queue is empty or the limit is reached, the found routes are a sub-multiset of all compliant routes, all of them below the limit, and no omitted route peaks lower than a found one, a peak being the highest cost of any beginning of a route |
| RouteSearch.PendingPeaksHigher | reference/telegraph_trust_graph.py:236-237 | a route not yet reached continues some queued entry and peaks at least as high as it |
| RouteSearch.FoundRoutesAreCheapest | reference/telegraph_trust_graph.py:205-240 | provided latency + 100 + cost is non-negative on each link, no omitted route is cheaper than a found one |
| RouteRuns.PoppedBefore | reference/telegraph_trust_graph.py:205-238 | in every run of the heap, a branch that is popped before another is complete climbs no higher than it (by cost, then path) after the point where the two part, and at a tie reaches its summit first |
| RouteRuns.RankedRunsKeepTheOrder | reference/telegraph_trust_graph.py:205-238 | conversely, in a run that breaks ties by a given rank, the branch whose summit beyond the parting is lower is popped first |
| RouteLoop.MinimalIsPopped | reference/telegraph_trust_graph.py:205-238 | one turn of the loop that pops an entry minimal by priority and path is one more pop of a run, with the same routes found |
| RouteLoop.RunsFindLowestPeaks | reference/telegraph_trust_graph.py:205-240 | what any run finds before it ends is part of all compliant routes, all of them below the limit, and peaks lowest |
| RouteHeads.CheapestFirstExactly | reference/telegraph_trust_graph.py:205-240 | with no assumption on costs: in every run at every limit no compliant route that is not found is cheaper than a found one if and only if of any two compliant routes the cheaper one climbs lower after the point where they part |
| RouteSearch.ScoreIsStandingMinusCost | reference/telegraph_trust_graph.py:170-183 | the score of a route is its standing (100 times trust floor plus preferences) minus exactly the priority the heap ordered it by |
| RouteSearch.AnswersAreCompliant | reference/telegraph_trust_graph.py:185-240 | every offered candidate comes from a compliant route and reports that route's offices and latency |
| RouteSearch.EmptyAnswerMeansNoRoute | reference/telegraph_trust_graph.py:185-240 | for a positive limit nothing is offered if and only if no compliant route exists |
| RouteSearch.HeadIsBestBelowTheLimit | reference/telegraph_trust_graph.py:239-252 | when fewer than `limit` routes are offered, the head has the highest score of any compliant route |
| RouteSearch.HeadIsBestAmongItsEquals | reference/telegraph_trust_graph.py:239-252 | without negative steps, at any limit the head outscores every compliant route whose standing is no better than its own |
| RouteHeads.HeadIsBestExactly | reference/telegraph_trust_graph.py:185-252 | at a given limit the head of every run's answer has the best score if and only if, however ties of cost and path are broken, fewer branches of worse routes than the limit come before all branches of best ones |
| RouteHeads.HeadsAreBestExactly | reference/telegraph_trust_graph.py:185-252 | with no assumption on costs: in every run at every limit the head scores at least as high as every compliant route if and only if each worse route climbs higher than some best one after the point where they part |
| RouteHeads.HeadsAreBestWithoutNegativeSteps | reference/telegraph_trust_graph.py:185-252 | without negative steps, if and only if every compliant route that is least by cost and then by path is a best one |
| RouteSearch.LimitOneFindsTheCheapest | reference/telegraph_trust_graph.py:205-240 | without negative steps, a search limited to one returns the route that is strictly cheaper than all others |
| RouteSearch.NoRouteIsFoundTwice | reference/telegraph_trust_graph.py:205-240 | unless an office lists one link twice, no route is found twice |
| DetourExample.TheLimitCanHideTheBestRoute | reference/telegraph_trust_graph.py:185-252 | a concrete network where the default limit of five, and every smaller one, answers with a head that scores less than another compliant route |
| DetourExample.NegativeCostsCanHideTheCheapest | reference/telegraph_trust_graph.py:205-240 | a concrete network with a negative cost where a search for one route returns a dearer one |
| RouteSpace.MeetIsGreatestLowerBound | reference/telegraph_trust_graph.py:157-168 | the running intersection of capability sets is contained in each of them and contains everything contained in all of them |
| RouteSpace.CapabilitiesMeetRequirements | reference/telegraph_trust_graph.py:157-168 | the computed path capabilities cover a requirement if and only if every office and every link on the path offers it |
| RouteSpace.CandidateOrderIsTotal | reference/telegraph_trust_graph.py:239-240 | the order candidates are sorted by is total and transitive |
| RouteTerms.ComplianceInFull | reference/telegraph_trust_graph.py:150-240 | in a well-formed graph offices and links are compliant if and only if, read off their fields: enabled links lead on from the origin to the destination over at most the allowed hops, no office repeats or is forbidden, each is in service and has at least the minimum standing (trusted over observed over unknown over restricted) or is the unknown destination that is allowed, those in the middle relay, and latency, required visits, security and media are met |
| RouteTerms.AnswersMeetTheTerms | reference/telegraph_trust_graph.py:185-240 | in every answer each candidate has links on which it meets those terms, its latency and score are the sums of their fields, its trust floor is the lowest standing on the way, its security and media are exactly what everybody on the way offers; and the answer is sorted by score, latency and path |
| RouteTerms.NothingIsAnsweredExactly | reference/telegraph_trust_graph.py:185-240 | for a positive limit the answer is empty if and only if no offices and links meet those terms |
| RouteTerms.SharedSecurity | reference/telegraph_trust_graph.py:157-168 | a means of security is reported for a path if and only if every office and every link on it offers it |
| TrustGraph.WithLinkAddsOne | reference/telegraph_trust_graph.py:106-124 | a link is in the graph afterwards if and only if it is the new one or was there before |
| TrustGraph.QuarantineRemovesExactlyItsRoutes | reference/telegraph_trust_graph.py:126-136 | after a quarantine a route is compliant if and only if it was compliant before and does not visit the office |
| TrustGraph.RestoreUndoesQuarantineOnlyForNonRelays | reference/telegraph_trust_graph.py:126-148 | quarantine followed by restore gives the old graph back if and only if the office was active and not a relay |
| TrustGraph.RestoredOfficeDoesNotRelay | reference/telegraph_trust_graph.py:126-148 | after quarantine and restore the office may begin or end a compliant route but never stands in the middle of one |
| TrustGraph.WithLinkIsValid | reference/telegraph_trust_graph.py:106-124 | adding a link keeps the graph well formed and every adjacency list sorted, and adds exactly that link |
| TrustGraph.LeastEntry | reference/telegraph_trust_graph.py:206-206 | the popped index is minimal by priority, then path, among all queue entries |
| TrustGraph.TelegraphTrustGraph.UpsertNode | reference/telegraph_trust_graph.py:100-104 | refuses an empty id; otherwise replaces the node and keeps or creates its adjacency list |
| TrustGraph.TelegraphTrustGraph.AddLink | reference/telegraph_trust_graph.py:106-124 | refuses unknown offices and negative latency without change; otherwise exactly the link, and its reverse with the same fields when bidirectional, joins the links there were |
| TrustGraph.TelegraphTrustGraph.InsertLink | reference/telegraph_trust_graph.py:111-124 | one link joins the list of its source, which stays sorted; nothing else changes |
| TrustGraph.TelegraphTrustGraph.Quarantine | reference/telegraph_trust_graph.py:126-136 | the whole graph afterwards is the old one with that office quarantined and not relaying |
| TrustGraph.TelegraphTrustGraph.Restore | reference/telegraph_trust_graph.py:138-148 | the whole graph afterwards is the old one with that office active, its relay flag as it was |
| TrustGraph.TelegraphTrustGraph.Push | reference/telegraph_trust_graph.py:221-238 | the loop over outgoing links pushes exactly the admissible extensions of the popped entry |
| TrustGraph.TelegraphTrustGraph.Search | reference/telegraph_trust_graph.py:200-240 | the heap loop returns the routes of some run that pops minimal entries by priority and path and stops at the limit or with an empty queue, as candidates in the order they were found |
| TrustGraph.TelegraphTrustGraph.Candidates | reference/telegraph_trust_graph.py:185-240 | at most `limit` candidates, best first, each described truly and meeting the terms of the policy as spelled out over fields; none if and only if no offices and links meet them; they are the routes of some run of the heap; the limit is refused only after both offices are known |
| TrustGraph.TelegraphTrustGraph.RouteDecision | reference/telegraph_trust_graph.py:242-279 | a route is selected if and only if some offices and links meet the spelled-out terms of the policy, and otherwise the reason names the first of unknown, out of service or no path that applies |
| QueueMessage.DelayIsInItsBand | reference/telegraph_store_forward.py:36-42 | whatever the random source yields, the delay is at least one second and lies in the clamped jitter band around the capped exponential |
| QueueMessage.BackoffGrows | reference/telegraph_store_forward.py:36-42 | with a multiplier of at least one the centre of the band never falls from one attempt to the next |
| QueueTerms.CentresMultiply | reference/telegraph_store_forward.py:36-42 | the first centre is the initial delay, each next one the multiple of the one before, all cut off at the maximum, for a multiplier of at least one |
| QueueTerms.DelayIsTheDrawnPoint | reference/telegraph_store_forward.py:36-42 | an attempt below one is refused; any other delay is the drawn point of the band around the centre, to the nearest second and at least one |
| QueueMessage.LegalLogCounts | reference/telegraph_store_forward.py:135-139 | in a log that follows the lifecycle the attempt count is the number of failures, and delivery and custody transfer happen at most once between them |
| QueueMessage.TerminalLogIsClosed | reference/telegraph_store_forward.py:187-357 | no event follows one that ends a message |
| QueueMessage.BackoffIsRespected | reference/telegraph_store_forward.py:245-285 | in every legal log an attempt after a failure starts no earlier than failure time plus the low end of that attempt's band |
| QueueMessage.FailKeepsInvariant | reference/telegraph_store_forward.py:245-285 | a failure leaves row and log agreeing, whichever of retry, rejection or expiry it leads to |
| QueueMessage.AckKeepsInvariant | reference/telegraph_store_forward.py:287-308 | an acknowledgement leaves row and log agreeing |
| QueueMessage.TransferKeepsInvariant | reference/telegraph_store_forward.py:310-339 | a custody transfer leaves row and log agreeing |
| QueueMessage.CancelKeepsInvariant | reference/telegraph_store_forward.py:341-357 | a cancellation leaves row and log agreeing |
| QueueMessage.ExpireKeepsInvariant | reference/telegraph_store_forward.py:187-200 | expiry leaves row and log agreeing, also for a message whose custody was transferred |
| QueueMessage.ReclaimKeepsInvariant | reference/telegraph_store_forward.py:214-218 | reclaiming a lapsed lease writes no event and is the one way row and log may differ: the row waits where the log says in flight |
| QueueRuns.RunsFollowTheLifecycle | reference/telegraph_store_forward.py:141-357 | after every run of the queue, each row is what replaying its event log gives (up to a reclaimed lease), with leases set exactly when in flight |
| QueueRuns.EveryMessageOfEveryRun | reference/telegraph_store_forward.py:141-357 | for every message of every run: attempts equal logged failures, at most one hand-over, lease owner and lease end each set if and only if in flight, live rows below the attempt limit |
| QueueRuns.EveryRunBacksOff | reference/telegraph_store_forward.py:202-285 | in every run an attempt that follows a failure starts no earlier than that failure's backoff allows |
| QueueRuns.OnlyEnqueueAdds | reference/telegraph_store_forward.py:187-357 | no operation but enqueue adds a message, revives one or changes an envelope |
| QueueRuns.RunsStayWithinCapacity | reference/telegraph_store_forward.py:128-133 | in every run the live messages stay within the configured count and bytes |
| QueueRuns.TerminalIsForever | reference/telegraph_store_forward.py:187-357 | delivered, expired, rejected and cancelled rows and their logs are the same after any further run |
| QueueRuns.LeaseExcludesOthers | reference/telegraph_store_forward.py:202-339 | while a lease lasts and the message has not expired, no operation but its owner's or a cancellation changes the message |
| QueueRuns.PickedWereFree | reference/telegraph_store_forward.py:219-231 | a claim never takes a row in flight under an unexpired lease, an expired message, or one before its next attempt time |
| QueueRuns.ClaimLeasesExactlyThePicked | reference/telegraph_store_forward.py:219-243 | picked rows are leased to the worker until now plus the lease with one event each; all others are only expired or reclaimed |
| QueueRuns.PickIsUnique | reference/telegraph_store_forward.py:219-231 | the claiming order leaves no choice: two picks of the least `limit` due rows are equal |
| QueueTerms.FailureInFull | reference/telegraph_store_forward.py:245-285 | a failure is reported by the lease owner only; it expires the message if and only if its time is up, before that has it wait for a retry if and only if it is retryable and leaves attempts, rejects it otherwise, and changes nothing else |
| QueueTerms.EveryFailureIsJust | reference/telegraph_store_forward.py:245-285 | in every run each recorded failure ended in expiry, retry or rejection exactly as its time, its kind and its number demand |
| QueueTerms.AdmissionInFull | reference/telegraph_store_forward.py:141-185 | an envelope is queued if and only if it is identified, of a known priority, in time, not too large, new, and fits beside the open messages; a known one is a repetition or a collision |
| QueueTerms.ClaimInFull | reference/telegraph_store_forward.py:202-243 | a claim takes only messages that are due, in time and under no running lease, leaves such a message only behind as many earlier ones as it may take (by urgency, due time, age, name), and expires or releases what is overdue |
| QueueTerms.PicksAreInOrder | reference/telegraph_store_forward.py:219-224 | claimed messages come by urgency, due time, age and name, and are no more than the limit |
| QueueTerms.RunsKnowPriorities | reference/telegraph_store_forward.py:156-157 | every run holds messages of the four known priorities only |
| StoreForward.TallyAddsUp | reference/telegraph_store_forward.py:390-418 | once each listed message is delivered, transferred, waiting or rejected, claimed equals the sum of the four counts |
| StoreForward.SettledTally | reference/telegraph_store_forward.py:390-418 | processing leased, unexpired messages with a sender that leaves the queue alone settles each in one of the four outcomes, so the counts add up |
| StoreForward.SettlementInFull | reference/telegraph_store_forward.py:401-418 | a delivered report delivers, a custody report with an office transfers, a raised error or a custody report without an office retries while attempts are left, and everything else rejects |
| StoreForward.SettledCountsReports | reference/telegraph_store_forward.py:397-418 | after one pass each count is the number of claimed messages the sender reported so about |
| StoreForward.TelegraphStoreForwardQueue.Record | reference/telegraph_store_forward.py:135-139 | one row is written and one event appended; every other message and log is unchanged |
| StoreForward.TelegraphStoreForwardQueue.Usage | reference/telegraph_store_forward.py:128-133 | the counted messages and bytes are those of the rows that are not terminal |
| StoreForward.TelegraphStoreForwardQueue.Enqueue | reference/telegraph_store_forward.py:141-185 | the checks in the order of the source: queued if and only if the envelope is well formed, new and fits; nothing is stored otherwise |
| StoreForward.TelegraphStoreForwardQueue.Expire | reference/telegraph_store_forward.py:187-200 | exactly the open messages whose time is up expire, lose their lease and get an event |
| StoreForward.TelegraphStoreForwardQueue.Reclaim | reference/telegraph_store_forward.py:214-218 | lapsed leases go back to waiting and no event is written |
| StoreForward.TelegraphStoreForwardQueue.First | reference/telegraph_store_forward.py:219-231 | the found row precedes every other in claiming order |
| StoreForward.TelegraphStoreForwardQueue.SelectDue | reference/telegraph_store_forward.py:219-231 | the selection is the first `limit` due rows in priority, next attempt, created, id order |
| StoreForward.TelegraphStoreForwardQueue.ClaimDue | reference/telegraph_store_forward.py:202-243 | after a run, exactly the ready messages that come first are leased, in order, and the rest is expired, released or left alone; refused for a limit or lease below one |
| StoreForward.TelegraphStoreForwardQueue.Fail | reference/telegraph_store_forward.py:245-285 | refused to all but the lease owner; answers expired if and only if the time is up, before that retry if and only if the failure is retryable and leaves attempts, rejected otherwise; row and event say so |
| StoreForward.TelegraphStoreForwardQueue.AcknowledgeDelivery | reference/telegraph_store_forward.py:287-308 | refused unless the worker owns the lease (its time is not checked); otherwise delivered with the receipt |
| StoreForward.TelegraphStoreForwardQueue.TransferCustody | reference/telegraph_store_forward.py:310-339 | refused unless the worker owns the lease; otherwise custody passes with the receipt |
| StoreForward.TelegraphStoreForwardQueue.Cancel | reference/telegraph_store_forward.py:341-357 | cancels exactly the rows that are neither terminal nor transferred, and says whether it did |
| StoreForward.TelegraphStoreForwardQueue.SettleOne | reference/telegraph_store_forward.py:396-418 | the message ends as the report and its attempts demand, by the call the source makes |
| StoreForward.TelegraphStoreForwardQueue.SettleAll | reference/telegraph_store_forward.py:394-418 | the loop over claimed items settles each once and counts the resulting states |
| StoreForward.TelegraphStoreForwardQueue.ProcessOnce | reference/telegraph_store_forward.py:390-418 | one pass claims, settles and counts: delivered, transferred, retry and rejected are the numbers of claimed messages whose sender reported so with attempts left or not, and they add up |
| DirectoryMerge.MergeIsLastWriterWins | reference/telegraph_office_service.py:119-168 | the loop of `sync_directory` computes, office by office, the join of what is held with the newest valid record offered; ties keep what is held |
| DirectoryMerge.NewestIsTheFirstNewest | reference/telegraph_office_service.py:119-168 | the record the join uses is valid, none offered is newer, and every valid one before it is older |
| DirectoryMerge.MergeKeepsTrust | reference/telegraph_office_service.py:140-160 | merging never changes the trust of a known peer, and newcomers are only observed |
| DirectoryMerge.MergeIsIdempotent | reference/telegraph_office_service.py:119-168 | merging the same entries again changes nothing and imports or updates none of them |
| DirectoryMerge.MergesCommute | reference/telegraph_office_service.py:119-168 | two directories whose records of each office carry distinct times leave the same peers in either order |
| DirectoryMerge.ResendingADirectoryChangesNothing | reference/telegraph_office_service.py:103-168 | sending a directory twice is the same as once, whether or not the second is accepted |
| DirectoryMerge.AcceptedDirectoriesCommute | reference/telegraph_office_service.py:103-168 | two directories accepted in both orders commute, checks included |
| DirectoryMerge.AcceptanceSurvivesUnlessRekeyed | reference/telegraph_office_service.py:103-118 | a directory stays acceptable after another one if and only if that one brings no newer record with another key for its source |
| DirectoryMerge.OutcomeInFull | reference/telegraph_office_service.py:119-168 | an entry is imported if and only if it is the first proper one about an unknown office, updates if and only if it is newer than what is held and than all proper ones about the office further up, is skipped if about the receiver or not newer, and refused otherwise |
| DirectoryMerge.HeldOrHeard | reference/telegraph_office_service.py:119-159 | what is held of an office afterwards is what was held, or a proper, newest entry under the trust it had or as observed |
| DirectoryMerge.TelegraphOfficeState.constructor | reference/telegraph_office_service.py:34-46 | a restart loads the stored peers and fills the trust table from them |
| DirectoryMerge.TelegraphOfficeState.SavePeer | reference/telegraph_office_service.py:73-78 | the record is stored under its office and the trust table follows it |
| DirectoryMerge.TelegraphOfficeState.RegisterPeer | reference/telegraph_office_service.py:80-101 | accepted if and only if the identity matches, is self-signed and the trust is known; refused requests change no peer |
| DirectoryMerge.TelegraphOfficeState.SyncDirectory | reference/telegraph_office_service.py:103-168 | read if and only if signed by a known source that is not restricted and not too long; the peers afterwards are the merge; imported, updated, skipped and refused are the numbers of entries that are first mentions, news, about the receiver or not newer, and improper |
| JournalSync.AppendKeepsLog | reference/telegraph_incremental_sync.py:57-77 | the log stays a contiguous suffix of at most `max_changes` ending at its sequence, which grows by one |
| JournalSync.AppendDropsOnlyTheOldest | reference/telegraph_incremental_sync.py:57-77 | appending never brings back old numbers and drops only the oldest changes |
| JournalSync.PendingIsAfter | reference/telegraph_incremental_sync.py:96-124 | the changes after a retained checkpoint are the tail of the log, numbered without a gap |
| JournalSync.NextManifest | reference/telegraph_incremental_sync.py:96-124 | a manifest cut at a retained checkpoint carries exactly the next changes up to the limit, its end, and a truthful `more` |
| JournalSync.ScanHasTheEffect | reference/telegraph_incremental_sync.py:154-217 | reading consecutive changes from their documents has the effect of the changes themselves and ends at the last of them |
| JournalSync.OnePull | reference/telegraph_incremental_sync.py:96-219 | one pull by a receiver that trusts the sender is accepted, applies exactly the next `limit` pending changes, also those that re-key the source, and says truly whether more remain |
| JournalSync.AdvancedCanPull | reference/telegraph_incremental_sync.py:129-219 | after a pull the rest is pending, and the receiver can pull it if and only if it still trusts the source under its key |
| JournalSync.PullsFollowTheCuts | reference/telegraph_incremental_sync.py:96-219 | whatever the limits, the receiver ends with the effect of a prefix of the pending changes, and gets as far as the limits reach if and only if it trusts the source at every cut |
| JournalSync.ChunksDoNotMatter | reference/telegraph_incremental_sync.py:96-219 | pulling in chunks of given sizes is one fold over all they cover if and only if the source is trusted under its key at every cut |
| JournalSync.NoChunksMatter | reference/telegraph_incremental_sync.py:96-219 | it is one fold for chunks of all fitting sizes if and only if no proper prefix of the pending changes ends the trust in the source |
| JournalSync.OnlyANewKeyEndsTrust | reference/telegraph_incremental_sync.py:140-213 | changes end that trust if and only if they give the source another key |
| JournalSync.ChunksCanMatter | reference/telegraph_incremental_sync.py:96-219 | a concrete log that re-keys its source: in chunks of one the receiver stops at the first change, in one chunk it takes both |
| JournalSync.PullingToTheEnd | reference/telegraph_incremental_sync.py:96-219 | pulls whose limits cover what is pending end with the sender's sequence as checkpoint if and only if the source is trusted at every cut, and then with the effect of every pending change |
| JournalRuns.PullIsAllOrNothing | reference/telegraph_incremental_sync.py:96-219 | a pull applies its whole chunk if and only if its limit is served, the checkpoint is retained, the source trusted and the chunk no longer than the receiver takes; otherwise it changes nothing |
| JournalRuns.ReceiversFollowTheHistory | reference/telegraph_incremental_sync.py:57-219 | while the sender goes on recording between pulls, the receiver always has the effect of all changes up to its checkpoint and of no others, and what it lacks is pending while its checkpoint is retained |
| JournalSync.RekeyedSourceIsRefused | reference/telegraph_incremental_sync.py:140-150 | a receiver that holds another key for the source refuses every delta and stays as it is |
| JournalSync.MismatchExactly | reference/telegraph_incremental_sync.py:172-219 | a sequence mismatch is reported if and only if the checks pass, changes were sent, and the announced end is not the highest number among the checkpoint and the changes that carry a number and an office |
| JournalSync.RefusalsThatChangePeers | reference/telegraph_incremental_sync.py:129-219 | a refused manifest never moves a checkpoint, and changes the peers if and only if it was refused for its sequence and, for some office, brings a newer valid record or a new withdrawal under an admitted number |
| JournalSync.MismatchCanLeavePeersChanged | reference/telegraph_incremental_sync.py:179-219 | a concrete manifest that is refused for its sequence after its peers were stored |
| JournalSync.CutInFull | reference/telegraph_incremental_sync.py:96-124 | a manifest is cut if and only if the checkpoint is not negative and not behind the log and the limit within bounds; it carries the next changes after the checkpoint up to the limit, in order, and says truly whether more remain |
| JournalSync.ApplicationInFull | reference/telegraph_incremental_sync.py:129-219 | a manifest is applied if and only if it is a delta of a known unrestricted source, signed under its key, in range, starting at the checkpoint and ending at its highest number; only then the checkpoint moves, and nothing changes before its changes are read |
| JournalSync.FateInFull | reference/telegraph_incremental_sync.py:156-213 | a received change is applied, tombstones, is skipped or rejected exactly as its number, its kind, the reports further up and the peers held before demand |
| JournalSync.ScanCountsFates | reference/telegraph_incremental_sync.py:154-213 | the four counts are the numbers of changes that met each fate |
| JournalSync.IncrementalDirectoryJournal.Append | reference/telegraph_incremental_sync.py:57-77 | sequence and bounded list advance together and keep the log contiguous |
| JournalSync.IncrementalDirectoryJournal.RecordUpsert | reference/telegraph_incremental_sync.py:79-85 | refused for an unknown office without change, otherwise one change carrying the stored record |
| JournalSync.IncrementalDirectoryJournal.RecordTombstone | reference/telegraph_incremental_sync.py:87-90 | refused without a reason and without change, otherwise one tombstone |
| JournalSync.IncrementalDirectoryJournal.CutManifest | reference/telegraph_incremental_sync.py:96-124 | a manifest for every checkpoint not behind the log and every limit in bounds, with the next changes in order and signed; the refusals otherwise |
| JournalSync.IncrementalDirectoryJournal.ApplyManifest | reference/telegraph_incremental_sync.py:129-219 | applied if and only if it is the next delta of a trusted source and ends at its highest number; counts are the numbers of changes by fate; the checkpoint moves only then, and peers stay unless the changes were read |
| JournalSync.IncrementalDirectoryJournal.ScanChanges | reference/telegraph_incremental_sync.py:154-213 | the loop over changes computes the scan of the specification |
| KeyLifecycle.StepKeepsValid | reference/telegraph_key_lifecycle.py:97-160 | rotation, retirement and revocation keep exactly one active key, the newest, and lifecycle entry i numbered i + 1 |
| KeyLifecycle.SignaturesOutliveRotation | reference/telegraph_key_lifecycle.py:82-92 | a signature by the then-active key verifies at its moment after any later run if and only if the key's last revocation, if any, lies after that moment |
| KeyLifecycle.LaterRevocationsSpareEarlierSignatures | reference/telegraph_key_lifecycle.py:134-184 | revocations issued strictly later never invalidate a signature at its own moment |
| KeyLifecycle.RevocationIsTheLastOne | reference/telegraph_key_lifecycle.py:154-157 | the recorded revocation of a key is that of the last revoke step of the run |
| KeyLifecycle.RevokingAgainCanReadmit | reference/telegraph_key_lifecycle.py:154-157 | revoking a key again moves its revocation: a signature between the two moments is refused after the first and accepted after the second |
| KeyLifecycle.RotationIsMirrored | reference/telegraph_key_lifecycle.py:187-222 | a rotation manifest is accepted by a remote office whose keys mirror the ring, and the mirror holds again afterwards |
| KeyLifecycle.OtherStepsAreMirrored | reference/telegraph_key_lifecycle.py:125-160 | retirements write no document and revocation records leave a remote office as it is, so the mirror survives them |
| KeyLifecycle.ReplayMirrorsTheRing | reference/telegraph_key_lifecycle.py:187-222 | replaying the lifecycle of every run from the first key gives the same ids, public keys, dates and single active key, with equal status for keys not locally retired or revoked |
| KeyLifecycle.ResendingARotation | reference/telegraph_key_lifecycle.py:187-222 | sent again after any run, a rotation manifest is applied, and leaves the remote keys a mirror if and only if it is the last rotation |
| KeyLifecycle.KeysFollowTheRun | reference/telegraph_key_lifecycle.py:97-160 | after every run generation g carries the public key and birth time of the g-th key born, ends an overlap after the next birth, and is revoked when the run last revoked it |
| KeyLifecycle.DocumentsVerifyExactly | reference/telegraph_key_lifecycle.py:162-184 | after every run a document verifies if and only if its signature names a key born so far, was made with that key over exactly this body, at a moment from its birth until an overlap after the next one, and before its last revocation |
| KeyLifecycle.OnlyTheGenuineVerifies | reference/telegraph_key_lifecycle.py:162-184 | in a valid ring the same, read off the fields of the key |
| KeyLifecycle.ManifestsInFull | reference/telegraph_key_lifecycle.py:187-222 | a rotation is applied if and only if it is the office's, names a known previous key, and is signed by that key over exactly its body, for a new key of the office; any other manifest leaves the known keys as they are |
| KeyLifecycle.RemoteKeys.ApplyRotationManifest | reference/telegraph_key_lifecycle.py:187-222 | the remote keys, in place: the previous key is put to rest and the new one known if the previous key signed exactly this rotation, else a refusal and no change |
| KeyLifecycle.TelegraphKeyring.constructor | reference/telegraph_key_lifecycle.py:70-80 | a new ring has one active first-generation key and an empty lifecycle, or is refused |
| KeyLifecycle.TelegraphKeyring.SignDocument | reference/telegraph_key_lifecycle.py:82-92 | signs exactly with active or retiring keys, over exactly the body |
| KeyLifecycle.TelegraphKeyring.HighestGeneration | reference/telegraph_key_lifecycle.py:97-104 | the scan over key ids finds the active generation |
| KeyLifecycle.TelegraphKeyring.RotateKey | reference/telegraph_key_lifecycle.py:97-123 | the ring afterwards and the signed manifest are those of the specification |
| KeyLifecycle.TelegraphKeyring.RetireExpiredKeys | reference/telegraph_key_lifecycle.py:125-132 | exactly the retiring keys past their date are retired, and they are the ones returned |
| KeyLifecycle.TelegraphKeyring.RevokeKey | reference/telegraph_key_lifecycle.py:134-160 | refused for an empty reason, an unknown or the active key without change; otherwise revoked with a signed record |
| KeyLifecycle.TelegraphKeyring.VerifyDocument | reference/telegraph_key_lifecycle.py:162-184 | in a valid ring accepts if and only if the signature names a key of the ring, was made with it over exactly this body, and the moment lies within its dates and before its revocation |
| TurnState.RunsKeepTheChain | server/edge1_operator_turn_state.py:223-380 | since a seed, in every interleaving of handoffs and rollbacks, audit epochs are 1..n, each receiver is the next sender, and owner and epoch are the last row's |
| TurnState.OneCommitPerEpoch | server/edge1_operator_turn_state.py:288-300 | two audit rows since a seed with one epoch are the same row |
| TurnState.RunsKeepTablesAgreeing | server/edge1_operator_turn_state.py:300-380 | the i-th audit, outbox and idempotency rows always describe the same handoff, across reseeding too |
| TurnState.ReplaysReturnTheOriginal | server/edge1_operator_turn_state.py:255-286 | a request that once committed gets its original result and changes nothing after any further run; another request under its key is refused |
| TurnState.OnlyDueHandoffsLeaveATrace | server/edge1_operator_turn_state.py:255-380 | a handoff changes something if and only if its key is new, it is not interrupted, and it comes from the current owner at the current epoch; its answer is then the new row, the outbox payload and the stored result, and the audit row is fixed by the request |
| TurnState.AnswersInFull | server/edge1_operator_turn_state.py:255-300 | each answer is given exactly when it is called for: unknown turn, used key, wrong owner, stale epoch, interruption, replayed or new row, in that order |
| TurnState.RunsRecordTheirHandoffs | server/edge1_operator_turn_state.py:255-380 | between seeds the row is where the handoffs that took effect lead, each sent by the receiver of the one before it at the next epoch, and the audit has grown by exactly their rows |
| TurnState.ConversationsDoNotInterfere | server/edge1_operator_turn_state.py:223-380 | each conversation of any interleaving ends exactly where running its own operations alone would leave it |
| TurnState.OwnershipOverAllRuns | server/edge1_operator_turn_state.py:177-380 | over all runs of all conversations from empty tables, faults and reseeds included, tables agree and the audit since the last seed is one unbroken chain of owners |
| TurnState.TurnStateStore.SeedTurn | server/edge1_operator_turn_state.py:177-207 | the row is reset to epoch 0, field by field, while all other rows and tables stay |
| TurnState.StatusFollowsTheHandoffs | server/edge1_operator_turn_state.py:209-221 | after any run of all conversations a status lookup finds the row that the effective handoffs of this conversation since its seed lead to: owner, epoch, previous owner, reason and time are those of the last one |
| TurnState.TurnStateStore.HandOff | server/edge1_operator_turn_state.py:223-380 | each refusal exactly when it is called for and without change; a new handoff writes row, audit, outbox and idempotency rows whose every field follows from request and old row |
| TurnState.TurnStateStore.WriteTables | server/edge1_operator_turn_state.py:300-380 | all four tables change together, or a fault at any checkpoint puts all four back |
| ReplayCache.DeletingIsPruning | reference/telegraph_storage.py:158-163 | deleting rows before now minus the window keeps exactly the nonces the in-memory cache keeps, at every real time |
| ReplayCache.LiveMeansRecentlyAccepted | reference/telegraph_federation_demo.py:42-47 | with a clock that never goes back a nonce is live if and only if its last acceptance is within the window |
| ReplayCache.RefusedExactlyWithinWindow | reference/telegraph_federation_demo.py:42-47 | in every run a request is refused if and only if the same nonce was accepted no more than a window before |
| ReplayCache.Cache.Accept | reference/telegraph_federation_demo.py:42-47 | answer and live set of the in-memory form are those of the shared specification |
| ReplayCache.NonceTable.AcceptNonce | reference/telegraph_storage.py:158-169 | answer and live set of the SQLite form are those of the same specification, also when the insert violates the key |
| ReceiptChain.IssueExtendsTheChain | reference/telegraph_federation_demo.py:151-178 | a new receipt extends the numbered, digest-linked sequence and the stored table by itself |
| ReceiptChain.RestartResumes | reference/telegraph_office_service.py:42-46 | a restart that finds only the office's own receipts resumes with the same counter and digest |
| ReceiptChain.EveryBehaviourIsOneChain | reference/telegraph_office_service.py:170-212 | in every behaviour with restarts the stored receipts are one gap-free linked chain |
| ReceiptChain.RestartAmongForeignReceipts | reference/telegraph_office_service.py:42-46 | with other offices' receipts in the table, every restart resumes the own chain if and only if there are none, or the office has receipts of its own and each foreign one has a lower sequence than the last of them, or the same and a later message id |
| ReceiptChain.Office.constructor | reference/telegraph_office_service.py:34-46 | counter and digest come from the first stored receipt of highest sequence by message id, or start fresh from an empty table |
| ReceiptChain.Office.IssueReceipt | reference/telegraph_federation_demo.py:151-178 | the receipt, counter, digest and table afterwards are those of the specification |
| OperationsApi.NoRequestIsAcceptedTwice | server/edge1_operations_api.py:141-173 | with a nondecreasing clock no signed request is accepted twice, although nonces are pruned |
| OperationsApi.NonceReturnsOnlyLater | server/edge1_operations_api.py:141-173 | a nonce is accepted again only with a time stamp from after the first one left the skew window |
| OperationsApi.AcceptedExactly | server/edge1_operations_api.py:141-173 | in every run, whatever the clock does: a request is accepted if and only if it carries all headers, a matching signature and a stamp within 300 seconds, and each earlier acceptance of its nonce was dropped by a signed request that came more than 300 seconds after that stamp |
| OperationsApi.AcceptedUnlessReplayed | server/edge1_operations_api.py:141-173 | with a nondecreasing clock, if and only if it is signed so and each earlier stamp accepted under its nonce is more than 300 seconds old |
| OperationsApi.UnsignedLeavesNoTrace | server/edge1_operations_api.py:153-173 | a request refused before its nonce is looked at leaves the nonces as they were |
| OperationsApi.StepKeepsExclusive | server/edge1_operations_api.py:256-338 | claims, executions, completions and crashes of any workers keep one holder per key and one run per executed claim |
| OperationsApi.HandlersRunAtMostOnce | server/edge1_operations_api.py:298-338 | over all interleavings and crashes a handler runs at most once per action and key |
| OperationsApi.ResponsesAreFinal | server/edge1_operations_api.py:286-296 | a stored response never changes afterwards |
| OperationsApi.CompletedKeysReplay | server/edge1_operations_api.py:256-284 | once a response is stored, every later claim with the same parameters gets it marked as a replay and runs nothing |
| OperationsApi.OperationsService.CheckAndStoreNonce | server/edge1_operations_api.py:141-151 | prunes by the skew, refuses a known nonce and stores a new one, as the specification says |
| OperationsApi.OperationsService.Authenticate | server/edge1_operations_api.py:153-173 | accepts if and only if all headers are there, the signature matches, the stamp is within 300 seconds and the nonce is not held at a recent time; then stores it; anything refused earlier leaves the table alone |
| OperationsApi.OperationsService.ClaimKey | server/edge1_operations_api.py:256-284 | answers fresh, replay, different parameters or incomplete, and inserts a row only when fresh |
| OperationsApi.OperationsService.CompleteKey | server/edge1_operations_api.py:286-296 | stores the response if and only if the claim is still open under the same hash |
| OperationsApi.OperationsService.RunTypedAction | server/edge1_operations_api.py:298-338 | the handler runs only on a fresh claim, and the response returned is the stored one |
| TotpGuard.AcceptedCountersIncrease | server/business159_claude_gateway.py:199-215 | in every run of attempts the accepted TOTP counters strictly increase, so no counter is used twice (section 5.2 of RFC 6238) |
| TotpGuard.FailuresAreAccountedFor | server/business159_claude_gateway.py:217-223 | over a stretch with no acceptance, processed failures = limit x lockouts + final count - initial count |
| TotpGuard.LockoutsAreApart | server/business159_claude_gateway.py:199-223 | after a lockout no attempt is judged before the lockout time is over, so lockouts lie at least that far apart |
| TotpGuard.LockedUntilIsTheLastLockout | server/business159_claude_gateway.py:217-221 | the lock ends a lockout period after the last lockout of the run |
| TotpGuard.VerdictsInFull | server/business159_claude_gateway.py:199-223 | locked if and only if the lock lasts; an unlocked guard accepts if and only if six digits are the code of an unused counter at most one step from the clock, and then the least such counter; otherwise it locks or counts the failure; and what each verdict leaves behind |
| TotpGuard.DigitsAreKept | server/business159_claude_gateway.py:201-201 | what is compared are exactly the digits of the input, in their order |
| Gateway.CodesAreSingleUse | server/business159_claude_gateway.py:557-571 | over every run, restarts included, an authorization code is redeemed at most once (section 4.1.2 of RFC 6749), and a redeemed one is gone |
| Gateway.RefreshTokensAreSingleUse | server/business159_claude_gateway.py:571-576 | over every run a refresh token is redeemed at most once: each redemption rotates it |
| Gateway.RequestsAreSingleUse | server/business159_claude_gateway.py:504-522 | an authorization request whose submissions do not overlap yields at most one code over every run |
| Gateway.RequestsYieldOneCodeUnlessOverlapped | server/business159_claude_gateway.py:504-522 | over all interleavings of submissions in threads: two codes come out of a request only if two of its submissions have their TOTP codes accepted and the second is looked up while the first is in flight; exactly then, if no accepted submission still waits or was lost to a restart |
| Gateway.OverlappingSubmissionsGetTwoCodes | server/business159_claude_gateway.py:504-522 | for every admissible request: two submissions that both look it up first, with the codes of two adjacent counters, end in two codes |
| Gateway.EveryGrantCostsACode | server/business159_claude_gateway.py:504-522 | whatever the interleaving, the TOTP codes accepted for a request are exactly as many as its codes, its submissions waiting for one, and those lost to restarts |
| Gateway.BearersWereIssued | server/business159_claude_gateway.py:542-583 | a stored access token was issued by a successful redemption one lifetime before its expiry, with no revocation since |
| Gateway.RedeemedCodesWereAuthorized | server/business159_claude_gateway.py:485-571 | a redeemed code traces back to an admitted request of that client and redirect URI, looked up in time, and to a sign-in that typed the code of its counter, with a challenge that the verifier hashes to |
| Gateway.SignInsTypeTheirCodes | server/business159_claude_gateway.py:199-215 | in every run a sign-in typed the six-digit code of the counter it used up, unused and in its window, while no lockout lasted |
| Gateway.SignInsUseUpTheirCounters | server/business159_claude_gateway.py:199-215 | in every run, restarts included, each sign-in uses up a later counter than all before it |
| Gateway.RefreshTokensWereIssued | server/business159_claude_gateway.py:542-576 | a refresh token on file was issued by a redemption, for its lifetime from then, with no revocation since |
| Gateway.AdmissionRules | server/business159_claude_gateway.py:485-498 | a request is admitted if and only if it is a code request of the client for a registered URI with an S256 challenge of at least 43 characters, for this resource up to trailing slashes or none |
| Gateway.StepConservesTokens | server/business159_claude_gateway.py:485-584 | only an accepted TOTP code raises the number of waiting grants plus open codes plus refresh tokens, and by one |
| Gateway.TokensNeedSignIns | server/business159_claude_gateway.py:485-584 | in every run open codes plus live refresh tokens never outnumber accepted TOTP codes |
| Gateway.ClaudeGateway.VerifyTotp | server/business159_claude_gateway.py:199-223 | the loop over the window accepts if and only if unlocked and the six digits are the code of an unused counter of it, the least one; failures and lockouts as counted |
| Gateway.ClaudeGateway.StartAuthorization | server/business159_claude_gateway.py:485-502 | a pending sign-in is opened exactly for admissible requests |
| Gateway.ClaudeGateway.LookupPending | server/business159_claude_gateway.py:505-509 | a submission is opened exactly for a request that has not expired |
| Gateway.ClaudeGateway.SubmitCode | server/business159_claude_gateway.py:510-515 | the submission stays open exactly if its TOTP code is accepted |
| Gateway.ClaudeGateway.GrantCode | server/business159_claude_gateway.py:516-529 | the request is taken out, if it is still there, and the code carries what was looked up |
| Gateway.ClaudeGateway.CompleteAuthorization | server/business159_claude_gateway.py:504-529 | one uninterrupted submission: redirects if and only if the request is unexpired, no lock lasts and the digits are the code of an unused counter of the window; a refusal grants nothing |
| Gateway.ClaudeGateway.IssueTokens | server/business159_claude_gateway.py:542-555 | both tokens are stored with their lifetimes and expired ones dropped |
| Gateway.ClaudeGateway.ExchangeCode | server/business159_claude_gateway.py:557-570 | tokens if and only if the code is unexpired and redirect URI, client and verifier fit; PKCE failure only when the rest fits; the code is gone in any case |
| Gateway.ClaudeGateway.ExchangeRefresh | server/business159_claude_gateway.py:571-576 | tokens if and only if the refresh token is unexpired; it is gone in any case |
| Gateway.ClaudeGateway.BearerValid | server/business159_claude_gateway.py:578-580 | true exactly for tokens that a flush at that moment would keep |
| Gateway.ClaudeGateway.Reload | server/business159_claude_gateway.py:228-237 | a new process keeps guard and tokens and loses pending sign-ins, submissions in flight and codes |
| Gateway.ClaudeGateway.RevokeEverything | server/business159_claude_gateway.py:582-583 | no access or refresh token is left |
| HashChain.VerifyChain | server/cookie_monster_acceptance.py:96-123 | the verifiers' pass reports exactly the broken links and hashes of the chain |
| HashChain.AppendingAddsNoGap | server/cookie_monster_alpha.py:259-296 | an appended row adds no gap if and only if the last row carries a hash or none does; the writer and the verifier agree afterwards |
| HashChain.LastHashFixesTheChain | server/cookie_monster_acceptance.py:96-123 | two chains without gaps that end in one hash are equal row for row |
| HashChain.TamperingIsReported | server/cookie_monster_acceptance.py:96-123 | any change that keeps the last hash of a chain without gaps is reported |
| KnowledgeLedger.IngestWritesEachKeyOnce | server/cookie_monster_alpha.py:249-299 | whatever the ledger held, ingestion only appends, never under a key already present, and adds no gap |
| KnowledgeLedger.RecordsAreForever | server/cookie_monster_alpha.py:249-299 | the record found for a key is never replaced by a later row |
| KnowledgeLedger.EveryAssetIsCovered | server/cookie_monster_alpha.py:263-299 | after a run every asset has its record |
| KnowledgeLedger.RerunsChangeNothing | server/cookie_monster_alpha.py:249-299 | a rerun on assets with the same keys, after any other runs, adds no row and reports the very records of the first run |
| KnowledgeLedger.IngestInBatches | server/cookie_monster_alpha.py:249-299 | how assets are cut into runs does not matter |
| KnowledgeLedger.NewRowsInFull | server/cookie_monster_alpha.py:263-299 | every new row is the record of one of the files, field by field, draft and certain without diagnostics and pending review otherwise, and no row before it carries that file's key |
| KnowledgeLedger.ReportsInFull | server/cookie_monster_alpha.py:263-299 | what a run reports for a file carries exactly its id, location, method, version and facts as key |
| KnowledgeLedger.IndexByKey | server/cookie_monster_alpha.py:255-259 | the dictionary holds for each key the last row with it |
| KnowledgeLedger.LatestHashOf | server/cookie_monster_alpha.py:260-260 | the backward search finds the last hash that is present |
| KnowledgeLedger.MakeKnowledgeRecords | server/cookie_monster_alpha.py:249-299 | the loop adds the rows of the specification and reports for each asset its record, old or new |
| ReviewLog.ReplayHistory | server/cookie_monster_review.py:65-80 | the loop computes the states or the first error of the replay |
| ReviewLog.DecisionsAreExactlyTheAllowedMoves | server/cookie_monster_review.py:88-126 | a decision is taken if and only if the request is well formed, the history replays and the move is allowed from the current state |
| ReviewLog.DecisionMovesOneRecord | server/cookie_monster_review.py:112-126 | the log with the new decision replays to the old states with exactly one record moved, and gains no gap |
| ReviewLog.TrailsAreWalks | server/cookie_monster_review.py:65-80 | the decisions about one record lead by allowed moves from its initial to its current state |
| ReviewLog.WalksAreShort | server/cookie_monster_review.py:18-23 | a record gets at most two decisions, and a verdict is always reached from pending review |
| ReviewLog.IngestionKeepsReviews | server/cookie_monster_review.py:56-80 | new records never disturb the review history: it replays as before with only new records added |
| ReviewLog.EveryRunIsSound | server/cookie_monster_review.py:65-126 | after any mixture of ingestion and review both logs verify, keys are unique and the history replays |
| ReviewLog.NothingIsDecidedUnreviewed | server/cookie_monster_review.py:65-126 | in every run an approved or rejected record has a logged decision out of pending review |
| ReviewLog.DecisionInFull | server/cookie_monster_review.py:88-126 | granted if and only if well made, for a known record, and a move from draft to review or from review to a verdict; which refusal otherwise; and what the decision records |
| ReviewLog.GrantedExactly | server/cookie_monster_review.py:65-126 | after every run a request is granted if and only if it is well made, its record exists, and the move leads on from where the record's decisions have led |
| ReviewLog.CookieMonsterOutput.Snapshot | server/cookie_monster_alpha.py:419-423 | one run appends exactly the new records to the stored ledger and reports all of them |
| ReviewLog.CookieMonsterOutput.MakeDecision | server/cookie_monster_review.py:88-126 | the answer is the first failing check or the decision, which is appended |
| RuntimePublish.AnyPrefixIsUndone | deploy/cookie_monster_runtime_publish.py:407-452 | a publication torn at any point and rolled back shows every reader the old state, and is exactly the old state if and only if no managed name was a symlink; no other name is touched |
| RuntimePublish.RollbackUndoesAnyRun | deploy/cookie_monster_runtime_publish.py:429-452 | the same for any directory that differs from the old one as a run may leave it |
| RuntimePublish.RunsOnlyTouchManagedNames | deploy/cookie_monster_runtime_publish.py:407-426 | any prefix of any steps on managed names leaves all other names alone and puts only regular files or nothing where no directory was |
| RuntimePublish.SuccessShowsThePlan | deploy/cookie_monster_runtime_publish.py:391-426 | a publication that succeeds shows exactly the plan, and its manifest lists exactly what it shows |
| RuntimePublish.PublishesExactly | deploy/cookie_monster_runtime_publish.py:357-426 | a publication succeeds if and only if no error strikes before its last replacement and no directory stands where a file is to be written |
| RuntimePublish.Publisher.BackupDestination | deploy/cookie_monster_runtime_publish.py:373-388 | the backup records for every managed name what a reader saw there |
| RuntimePublish.Publisher.Apply | deploy/cookie_monster_runtime_publish.py:407-426 | succeeds exactly when no error strikes and no directory is in the way; backup and directory for a failure at any step |
| RuntimePublish.Publisher.OneStep | deploy/cookie_monster_runtime_publish.py:357-370 | one atomic replacement or removal, with its temporary file left behind if it fails in between |
| RuntimePublish.Publisher.Rollback | deploy/cookie_monster_runtime_publish.py:429-452 | the loop over managed names restores the backup of the specification |
| Activation.PublicationsCanBeUndone | deploy/cookie_monster_edge1_activate.py:506-536 | a failed publication has undone itself from its one backup, and a successful one can be undone with the backup it returned; the files are exactly the old ones if and only if no managed name was a symlink or the publisher failed before its backup was complete |
| Activation.FailedActivationLeavesNoTrace | deploy/cookie_monster_edge1_activate.py:673-744 | if activation fails at any step, registry, marker and what readers see are as before, the job file is if and only if it was not a dangling link, and the web files are if and only if no managed name was a symlink or the publisher had no complete backup yet |
| Activation.RollbackUndoesActivation | deploy/cookie_monster_edge1_activate.py:625-662 | rolling back a successful activation restores registry, job and web view, the web files exactly if and only if no managed name was a symlink |
| Activation.RollingBackAgainChangesNothing | deploy/cookie_monster_edge1_activate.py:625-671 | the marker still names the backup after a rollback, and a second rollback changes no file |
| Activation.SuccessfulActivation | deploy/cookie_monster_edge1_activate.py:673-724 | a successful activation has enabled the registry, written the job and published the plan |
| Activation.ActivatesExactly | deploy/cookie_monster_edge1_activate.py:673-744 | an activation succeeds if and only if nothing fails, the registry is a regular file, the job file can be replaced and the view can be published; and what it then has written and saved |
| Activation.EdgeActivation.RunPublisher | deploy/cookie_monster_edge1_activate.py:506-519 | the publisher process for each way it can fail |
| Activation.EdgeActivation.PublishView | deploy/cookie_monster_edge1_activate.py:506-536 | publication with its own rollback on failure |
| Activation.EdgeActivation.TryActivate | deploy/cookie_monster_edge1_activate.py:679-724 | the forward run up to the failing step |
| Activation.EdgeActivation.Compensate | deploy/cookie_monster_edge1_activate.py:579-590 | web view, registry and job are restored from the backup |
| Activation.EdgeActivation.Apply | deploy/cookie_monster_edge1_activate.py:673-744 | succeeds if and only if nothing fails and registry, job file and web view allow it; otherwise registry and marker are as before |
| Activation.EdgeActivation.RollbackLast | deploy/cookie_monster_edge1_activate.py:625-671 | the backup named by the marker is restored and the marker says so |
| ControlPlane.UnreachableCollapses | reference/telegraph_control_plane.py:224-268 | an unreachable peer scores zero and is therefore always recommended for quarantine, so the status itself never survives derivation |
| ControlPlane.FailuresOnlyHurt | reference/telegraph_control_plane.py:224-281 | more failures never raise the score, lower the cost or lift a quarantine |
| ControlPlane.ScoreFallsWithAge | reference/telegraph_control_plane.py:224-259 | the exact condition for the score of a silent peer to only fall, maintenance windows included: it rises only if a self-declared unreachable peer ages, or a window ends before the last heartbeat is too old, and the penalties do not take the score to zero anyway |
| ControlPlane.CostRisesWithAge | reference/telegraph_control_plane.py:224-281 | the exact condition for the cost to only rise: as for the score, and the failures must keep the peer in quarantine as well |
| ControlPlane.DerivationInFull | reference/telegraph_control_plane.py:224-281 | status by leave, silence, self-report and services; score 100, 65, 40 or 0 less 10 for each failure up to 40, latency by hundreds up to 25, 15 or 35 for congestion at warning or critical, 20 for an idle backlog; given up when failing too often or unreachable; cost by score, congestion, latency and status |
| ControlPlane.CongestionInFull | reference/telegraph_control_plane.py:78-82 | congestion is the nearest whole percentage of the queue, halves to even, 100 when full and 0 without capacity |
| ControlPlane.HeartbeatsArrive | reference/telegraph_control_plane.py:117-208 | a heartbeat of one office is accepted by another if and only if it is within the skew, unexpired and newer, and then all reported metrics arrive unchanged |
| ControlPlane.OnlyFreshPeersAreUnreachable | reference/telegraph_control_plane.py:153-222 | in every run scores are in 0..100 and only a peer from which nothing was derived is still unreachable |
| ControlPlane.RefreshLeavesNoneUnreachable | reference/telegraph_control_plane.py:218-222 | after any run and a refresh no peer is unreachable |
| ControlPlane.AcceptedSequencesIncrease | reference/telegraph_control_plane.py:173-178 | the accepted sequence numbers of one office strictly increase |
| ControlPlane.TelegraphControlPlane.MakeHeartbeat | reference/telegraph_control_plane.py:117-151 | the number is spent even when the queue metrics are refused, which they are exactly when negative or over capacity |
| ControlPlane.TelegraphControlPlane.IngestHeartbeat | reference/telegraph_control_plane.py:153-208 | accepted exactly when timely and genuine, and then the peer is derived from what was reported; refusals leave all peers alone but for a fresh entry |
| ControlPlane.TelegraphControlPlane.CountFailure | reference/telegraph_control_plane.py:210-216 | one more failure for that peer, derived anew point by point; the others stay |
| ControlPlane.TelegraphControlPlane.RefreshAll | reference/telegraph_control_plane.py:218-222 | the loop derives every peer anew, point by point |
| ControlPlane.TelegraphControlPlane.Derive | reference/telegraph_control_plane.py:224-281 | the step-by-step computation gives the status, the points, the cost and the recommendation that what was observed calls for |
| OfficeManager.MostSpecificRuleDecides | server/ava_office_manager.py:184-189 | the deciding rule matches and no matching rule has a longer prefix; a capability is unknown if and only if no rule matches |
| OfficeManager.InstructionsOnlyRestrict | server/ava_office_manager.py:443-475 | adding standing instructions never permits more |
| OfficeManager.AuthorityInFull | server/ava_office_manager.py:184-189 | the first of the longest rules whose prefix covers the capability decides, and none exactly when none covers it |
| OfficeManager.EvaluationInFull | server/ava_office_manager.py:443-475 | blocked if and only if uncovered, restricted, denied or behind a hard gate; else confirmation if and only if a prefix or an instruction asks for it or the authority exceeds the autonomy; executable if and only if allowed, enabled and routine or conditional |
| OfficeManager.ExecutableProposalsPassedTheGates | server/ava_office_manager.py:443-522 | in every run an executable proposal stands under a routine or conditional rule and behind no hard gate, with execution enabled, and unless approved within the autonomy and asked no confirmation by prefix |
| OfficeManager.RunsAreSound | server/ava_office_manager.py:443-522 | in every run each executable proposal passed every hard gate and was covered by autonomy or explicitly approved, and the audit chain verifies |
| OfficeManager.BlockedIsForever | server/ava_office_manager.py:477-522 | a blocked proposal is never approved, made executable or changed by any later run |
| OfficeManager.OnlyApprovalConfirms | server/ava_office_manager.py:507-522 | a proposal changes only by an approval of its own while it awaits confirmation |
| OfficeManager.OfficeManagerStore.Audit | server/ava_office_manager.py:299-315 | a row linked to the last hash is appended, or the actor is refused |
| OfficeManager.OfficeManagerStore.VerifyAuditChain | server/ava_office_manager.py:317-333 | true if and only if the chain has no gap |
| OfficeManager.OfficeManagerStore.AddStandingInstruction | server/ava_office_manager.py:417-431 | the instruction is stored, and stays even when its audit row is refused |
| OfficeManager.OfficeManagerStore.EvaluateAction | server/ava_office_manager.py:443-475 | blocked, confirmation or allowed, and executable, exactly as rules, prefixes, autonomy and the instructions in force call for |
| OfficeManager.OfficeManagerStore.ProposeAction | server/ava_office_manager.py:477-493 | the stored proposal records the decision its capability calls for, and is stored even when its audit row is refused |
| OfficeManager.OfficeManagerStore.ApproveAction | server/ava_office_manager.py:507-522 | approved if and only if it awaits confirmation, its rule is not restricted, no hard gate covers it and no instruction denies it; executable as its rule and the policy allow |

## Left out

General

- HTTP servers, sockets, subprocess and systemd calls, argument parsing and logging: input and output without a law to state.
- The inside of Ed25519, HMAC, SHA-256 and JSON encoding: digests, signatures and documents are ideal, and a truncated digest used as an id is as good as the whole.
- Rounding of floating-point times and delays: times are integers, or reals where the source compares fractions of a second.
- SQLite itself: a transaction either happens or does not, and rows are maps and sequences.

Route search

- Ties of the heap between entries of equal priority and path: links have no order to compare by, so any least entry may be popped; the error that Python raises in that case is not modelled.
- Trust strings outside the known ones: the source fails on them with a missing key, the model has only the known ones.
- `from_directory`: it only fills the graph from a document.

Queue, directory and journal

- `status`, `events` and schema migration of the queue: reading back what the model already has.
- StoreForward.SettledTally: a sender that itself changes the queue while it is called is not covered.
- `accept_message`, message storage and the persistence of `federation_status`: the source does not keep memory and table in agreement there.
- Type checks of single fields of received documents: a field that fails its check is absent in the model.

Keys, turns, receipts, operations

- Key ids as text: an id is an office and a generation, so the parsing of `office#signing-n` is not covered.
- Two clock readings inside one request of the operations API: the model reads the clock once.
- ReceiptChain.RestartAmongForeignReceipts: which of two receipts of equal sequence and message id was recorded first is left open.
- The shell-command actions, the allow-list loader and the VPN registration of the operations API: checks settled by one branch.

Gateway

- The client secret check, tool policy, upstream forwarding and metadata documents.
- Digits outside ASCII: `isdigit` accepts more characters than the model does.
- TotpGuard.LockoutsAreApart: the lockout end truncates a fractional clock; the model's clock is in whole seconds.

Ledgers, publication, activation, office manager

- Discovery of files, metadata tools, audit events and the status view of an ingestion run, and the counts of the review view.
- The event id of a decision, which is a digest of its other fields.
- Provenance checks against the source directory.
- Symlinks that lead from one managed name to another: a link's target lies outside the managed names.
- Checks that a backup's own files are intact, and the preserved copy of the publisher that a rollback runs: backups are values.
- The all-zero hash that starts the audit chain: the first link is absent in the model.
- Length and form checks of titles, statements and domains in the office manager, except for the actor of an audit row.
- Temporary files left by a torn write: they are separate names in the model, and rollback promises nothing about them.
- A second publisher running at the same time, and failures of the compensating writes.
- Everything activation prepares outside the registry, the job file and the web view: dataset, generated evidence and worker output are kept on purpose.
- Work items, artifacts and the summary of the office manager, and the search for sensitive keys, whose answer is a parameter.
- An audit row and the change it describes are two transactions: the model keeps the change when the row is refused, and does not model a crash between them.

Control plane

- Error texts of failures, and the sorted document forms of observations.
- Aliasing of the observation objects that the source returns: the model returns values.
