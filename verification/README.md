# Verified model of the quota and usage service

The service watches what AI gateways spend. It collects usage records from gateways, prices and aggregates them,
predicts quota windows, and lets a person spend irreversible provider-side resets. It keeps its rows in one SQLite
database with a single writer, and a little state in the process. This project models the parts where an
interleaving, a restart, an ordering or an arithmetic slip would cost money or data, and proves what they promise.

One module per part; a write transaction is one step, an instant an integer, money a `real`.

| module | what it models |
|---|---|
| `QuotaActions`, `QuotaProtocol` | durable claims on human quota actions: rows, idempotency keys, leases, boot ids, family locks, over every run with panics and restarts |
| `ManualResets` | clear, commit, consume, fetch, store: the irreversible spending of a reset beside refreshes |
| `ChangeFeed`, `Coherence` | the pruned cursor log, snapshot diffs, a reader's cache beside the writers, and wake-ups |
| `ActionFeed` | the action history beside the feed: what the feed does not name of it |
| `UsageStream` | subscribe, replay, then live, beside commits and publications |
| `Resp` | the RESP2 reader that keeps its own stack, and the writer |
| `Base62`, `IdGenerator` | the spelling of ids, and minting them by compare-and-exchange |
| `RecordHash`, `Accounts`, `Ingest` | the hashed bytes of a record, merged accounts, and batches with deduplication |
| `MetaMarker` | an exhaustion marker kept from outcomes that arrive in any order |
| `Prices` | ranking price rows, frozen costs, repricing |
| `Metrics`, `Series`, `Rollup` | sums by cell, the flat bucket-by-key table, totals per bucket and group |
| `Billing`, `Prediction` | clamped billing months, and the quota window that holds now |
| `Sequences`, `Wrappers` | filtering ordered rows; option and result |

Code that updates rows in place is a class or a method with loops, proved against a function of the old state; the
theorems are about those functions and about runs of steps built from them.

## Where the code does less than it says

The model follows the code in each of these. Each comes with a run or an input that shows it and a lemma that gives the
exact condition.

- Two writes change the action history and name no change: a stored grant list closing a waiting reset, and the after
  state a worker saves once its completion has woken the readers. No other step does
  (`ActionFeed.UnnamedExactlyWhenSilent`). A reader of `/quota/actions` that follows the feed and has caught up is right
  exactly when neither came since it last read (`ActionFeed.CaughtUpCopyIsRightExactlyWhenNothingWasSilent`); both
  mislead it (`ActionFeed.AnAfterStateMisleads`, `ActionFeed.AClosedResetMisleads`).
- A refresh that stores a grant list closes unfinished reset rows without asking the leases, so a queued reset and a
  second one for the same scope can be alive together (`QuotaProtocol.QueuedResetsOverlap`). It happens exactly when the
  live worker's row was closed that way (`QuotaProtocol.SecondWorkerExactlyAfterReconciling`), and it never leads to a
  second spend on one list (`ManualResets`).
- A client that reconnects before an event it already has is published gets it again when its replay is empty
  (`UsageStream.KnownEventCanRepeat`, `UsageStream.KnownEventRepeatsExactlyWhenReplayIsEmpty`).
- `resolve` says that the window of the account a merged one answers to widens instead of its own; both widen
  (`Accounts.AMergedWindowWidens`). Its own stays exactly when it holds the instant already
  (`Accounts.MergedWindowStaysExactlyWhenItCovers`).
- Creating or editing a plan does not ask whether its account is merged, so a plan can sit on an account no request will
  ever be charged to (`Accounts.APlanCanSitOnAMergedAccount`), exactly when it was last placed there
  (`Accounts.OnMergedExactlyWhenPlacedThere`).
- The exhaustion marker forgets the order of delivery exactly when the latest record is not contradicted by another of
  its instant, and no success of another provider on the account is later
  (`MetaMarker.OrderIsForgottenExactlyWhenSettled`); otherwise two orders end differently
  (`MetaMarker.UnsettledDivides`, `MetaMarker.DeliveryOrderCanMatter`).
- A reprice keeps the billed amount of every LiteLLM event, also one this service computed because the gateway reported
  none (`Prices.AComputedBillOutlivesItsPrice`, `Prices.RepriceIsFromScratch`).

## Assumptions

Ids, change cursors and action ids are never reissued. A hash has no collisions where a lemma says so. Clocks are
arbitrary unless a lemma bounds them. Exactly one process serves a database at a time.

Two functions have bounds that nothing in the service reaches. The search for a window opened on use ends for every
window of an hour or more (`Prediction.LongWindowsSettle`), and the only provider that reports such windows reports five
hours (src/quota/provider/claude.rs:188-195, `Prediction.FiveHourWindowsSettle`); for shorter ones the exact condition is
`Prediction.EndsExactlyWhenNoWindowOpensOver`. Billing months are listed while the next one can still be written down,
that is, until `now` comes within a month of the end of the year 9999 (`Billing.EveryInstantIsBilled`).

## Model

| member | source | states |
|---|---|---|
| QuotaActions.ActionOwners.Abandoned | src/http/quota_action_owner.rs:41-48 | exactly the registered ids no worker holds |
| QuotaActions.NewestOf | src/http/quota_action_store.rs:138-158 | the highest id of the candidates, or none when there are none |
| QuotaActions.ActionStore.Sweep | src/http/quota_action_store.rs:111-120 | closes exactly the unfinished rows of another boot or an abandoned lease, one change if any |
| QuotaActions.ActionStore.RecordKey | src/http/quota_action_store.rs:31-52 | binds a free key and answers false only for a key of another action |
| QuotaActions.ActionStore.Choose | src/http/quota_action_store.rs:121-159 | the keyed row, else the newest pending row of the scope, else the newest reusable result |
| QuotaActions.ActionStore.Claim | src/http/quota_action_store.rs:95-190 | the whole new state of a claim: conflict rolls back, reuse logs, fresh work opens a leased row |
| QuotaActions.ActionStore.Complete | src/http/quota_action_store.rs:213-257 | overwrites the row whatever its state; an unwound worker's row is interrupted and not shared |
| QuotaProtocol.SweepSparesTheLiving | src/http/quota_action_store.rs:111-120 | a claim never closes a row whose worker is alive |
| QuotaProtocol.CommittedClaimClosesTheDead | src/http/quota_action_store.rs:111-120 | after a committed claim every unfinished row has a live worker of this boot |
| QuotaProtocol.OnlyWrongScopeConflicts | src/http/quota_action_store.rs:121-135 | a claim conflicts exactly for a key of another scope; the late conflicts are unreachable |
| QuotaProtocol.FreshExactlyWhenNothingAnswers | src/http/quota_action_store.rs:138-174 | work starts exactly when no key, pending row or reusable result answers |
| QuotaProtocol.FreshRow | src/http/quota_action_store.rs:159-188 | the row, request, key and lease of new work, field by field, and the request of what only joins |
| QuotaProtocol.ClaimKeeps | src/http/quota_action_store.rs:95-190 | a claim keeps the invariant of rows, leases, scopes and locks |
| QuotaProtocol.StepKeeps | src/http/quota_action.rs:142-200 | so does every other step, a panic and a restart included |
| QuotaProtocol.EveryRunIsSafe | src/http/quota_action.rs:142-200 | one unfinished row per scope, one worker per family lock, a lease behind every unfinished row of this boot, in every reachable state |
| QuotaProtocol.LiveWorkersShareAScopeOnlyAfterReconciling | src/quota/mod.rs:355-372 | two live workers of one scope only for a reset, and only after a stored list closed one's row |
| QuotaProtocol.SecondWorkerExactlyAfterReconciling | src/quota/mod.rs:366-371 | a claim beside a live worker starts a second exactly after that |
| QuotaProtocol.ReconcilingSparesExecutingResets | src/quota/mod.rs:355-372 | storing a list never closes the row of an executing reset |
| QuotaProtocol.QueuedResetsOverlap | src/quota/mod.rs:366-371 | a run with two live resets of one scope |
| QuotaProtocol.RecentAnswerIsSound | src/http/quota_action_store.rs:138-158 | what answers an unkeyed claim, field by field: live work of its scope, or a shared result under a minute old, not refused and not followed by a reset, that shows the claimed account refreshed or enabled |
| QuotaProtocol.RecentResultAnswers | src/http/quota_action_store.rs:145-158 | and such a result, of the account or of all accounts, does answer: no work starts |
| QuotaProtocol.LiveWorkAnswers | src/http/quota_action_store.rs:136-144 | so does unfinished work of the very scope |
| QuotaProtocol.SweepInterruptsTheDead | src/http/quota_action_store.rs:111-117 | a claim closes exactly the unfinished rows without a live worker, as interrupted, 503 and unshared |
| QuotaProtocol.EndedRow | src/http/quota_action_store.rs:230-240 | the outcome of ended work by its status, and of work that unwound; no other row changes |
| QuotaProtocol.UnsavedEnding | src/http/quota_action_store.rs:257-260 | a completion that could not be saved leaves every row to the next claim |
| QuotaProtocol.LockIsFreeExactlyWhen | src/http/quota_action.rs:176-181 | a worker goes on exactly when none of its family has gone on; hard refresh and reset are one family |
| QuotaProtocol.ReconciledRow | src/quota/mod.rs:366-371 | a stored list closes exactly the account's unfinished resets, of unknown outcome |
| QuotaProtocol.RestartAndForgetting | src/http/quota_action_owner.rs:5-24 | a restart keeps rows and drops workers and leases; a claim forgets exactly the leases it found dead |
| QuotaProtocol.FirstClaimBinds | src/http/quota_action_store.rs:31-52 | a committed keyed claim binds its key to the action it answers |
| QuotaProtocol.KeyIsBoundForGood | src/http/quota_action_store.rs:31-52 | after any later run the key answers the same action, starts nothing, and conflicts for another scope |
| ManualResets.CreditTable.Clear | src/quota/manual_reset.rs:94-104 | removes the account's grants and no other's |
| ManualResets.CreditTable.Replace | src/quota/manual_reset.rs:53-77 | stores exactly the list, and touches no other account |
| ManualResets.CreditTable.UnexpiredCount | src/quota/manual_reset.rs:79-92 | the sum of what the unexpired grants have left |
| ManualResets.StepKeeps | src/quota/manual_reset.rs:137-186 | every step under the reset lock keeps: spent implies nothing stored, consumes bounded by lists |
| ManualResets.NoSecondSpendOnOneList | src/quota/manual_reset.rs:137-186 | in every run, a consume after the stored list was fetched leaves no stored grant, and consumes never outnumber non-empty lists |
| ManualResets.ConsumesNeverOutnumberLists | src/quota/manual_reset.rs:137-186 | counted over the run: no more consume requests for an account than non-empty lists stored for it |
| ManualResets.ConsumesAreSeparatedByAFetchedList | src/quota/manual_reset.rs:137-186 | between two consumes a non-empty list fetched after the first was stored |
| ManualResets.ResetDesk.SpendChecked | src/quota/manual_reset.rs:170-205 | clear, consume, fetch and store as a run of the protocol, with its result and final grants |
| ManualResets.ResetDesk.Spend | src/quota/manual_reset.rs:129-205 | a request is sent exactly for a resettable account with something unexpired; every call is a run of the protocol |
| ManualResets.ResetDesk.RecordReport | src/quota/mod.rs:348-372 | a readable list replaces the stored one, anything else leaves it |
| ManualResets.ResetDesk.RefreshOne | src/quota/mod.rs:228-246 | fetching and recording one account is a run of the protocol, spends nothing and stores a reported list |
| ManualResets.ResetDesk.Refresh | src/quota/mod.rs:165-251 | a refresh is a run of the protocol, spends nothing, counts its failures and leaves each account its last reported list |
| ManualResets.LastReportIsKept | src/quota/mod.rs:228-240 | an account keeps the last list reported for it |
| ManualResets.UnreportedStays | src/quota/mod.rs:362-366 | and what it had when none was |
| ManualResets.NothingLeftExactlyWhen | src/quota/manual_reset.rs:79-92 | nothing is left exactly when every grant has expired or is used up |
| ManualResets.AtMostFourFetches | src/quota/mod.rs:47-47 | no run has more than four fetches in flight |
| ChangeFeed.ColumnsRoundTrip | src/change/mod.rs:336-398 | a subject reads back from its columns |
| ChangeFeed.OnlySubjectsAreReadable | src/change/mod.rs:336-398 | columns are readable exactly as the spelling of a subject |
| ChangeFeed.SubjectsAreSpelled | src/change/mod.rs:142-153 | what each kind of change is called |
| ChangeFeed.Feed.Record | src/change/mod.rs:191-229 | appends one change with the next cursor |
| ChangeFeed.Feed.MaxCursor | src/change/mod.rs:233-240 | the last cursor committed or pruned |
| ChangeFeed.Feed.After | src/change/mod.rs:243-285 | the page after a cursor, or that it expired |
| ChangeFeed.FirstUnseen | src/change/mod.rs:243-285 | the first page of the wanted changes after the cursor |
| ChangeFeed.PartByAge | src/change/mod.rs:316-333 | what stays, what goes and the cursor the horizon rises to |
| ChangeFeed.Feed.Prune | src/change/mod.rs:316-333 | deletes exactly the old changes and raises the horizon over them |
| ChangeFeed.PageIsExact | src/change/mod.rs:243-285 | a page is the recorded changes of the kinds in (cursor, next], caught up unless full |
| ChangeFeed.PageHolds | src/change/mod.rs:261-284 | change by change: a page holds the recorded ones of a wanted kind up to its cursor, five hundred at most |
| ChangeFeed.ExpiredExactlyWhenAnUnseenChangeIsGone | src/change/mod.rs:243-285 | a cursor expires exactly when a change after it was deleted, whatever order the instants came in |
| ChangeFeed.PagesAddUp | src/change/mod.rs:243-285 | over any commits and prunes the pages are the changes since the start, none missing or repeated |
| ChangeFeed.NextReadGetsTheChange | src/change/mod.rs:243-285 | the next read of a caught-up reader gets a new change it follows, and moves past one it does not |
| ChangeFeed.NextReadTellsOfADeletion | src/change/mod.rs:258-260 | a reader is told exactly when its cursor is below the horizon or ahead |
| ChangeFeed.Wait | src/change/mod.rs:289-312 | a long poll stops at the first wake-up that has a wanted change or has lost an unseen one, and answers the first page after its cursor or that it expired |
| Coherence.DiffSnapshots | src/change/snapshot.rs:130-149 | the subjects that read differently before and after |
| Coherence.RecordsExactlyWhatChanged | src/change/snapshot.rs:130-149 | a write in its scope records exactly the subjects of the whole database that read differently |
| Coherence.OnlyTheScopeIsRecorded | src/change/snapshot.rs:151-183 | a snapshot never records what lies outside its scope |
| Coherence.ReadsTheSameExactlyWhen | src/change/snapshot.rs:54-68 | fields read the same when their text does, grants when each unexpired one is listed equally often |
| Coherence.RecordedExactlyWhen | src/change/snapshot.rs:134-141 | so a write records fields whose text changed, appeared or went, and grants of which an unexpired one did |
| Coherence.SameLater | src/change/snapshot.rs:58-68 | lists that read the same now do so until any later instant, though grants expire unrecorded |
| Coherence.CaughtUpReaderIsRight | src/change/mod.rs:243-285 | a caught-up reader shows what is stored of every subject no write changed unrecorded since it last read it, over any interleaving |
| Coherence.CaughtUpOnNamedSubjects | src/change/mod.rs:243-285 | of a subject whose writes always record it, a caught-up reader is always right |
| Coherence.CaughtUpCopyIsTheStored | src/change/mod.rs:243-285 | on the stored values: the copy has the same text, or the same unexpired grants |
| Coherence.AnyReaderCanCatchUp | src/change/mod.rs:279-284 | from any state, pages to the end and one read of everything catch a reader up |
| Coherence.SnapshotWriteOmitsNothing | src/change/snapshot.rs:130-149 | a write that stays in its snapshot's scope leaves nothing unrecorded |
| Coherence.ReplacingGrantsOmitsNothing | src/quota/manual_reset.rs:170-174 | a spend's clear and a refresh's replacement stay in their scope |
| Coherence.Transaction.Commit | src/database/mod.rs:92-103 | a commit wakes the readers exactly when it recorded a change |
| Coherence.EveryCommitWakesOnce | src/database/mod.rs:92-103 | over any run, every commit that recorded something has sent or owes exactly one wake-up |
| Coherence.NoWakeUpIsLost | src/database/mod.rs:92-103 | a poll asleep with no wake-up pending has read every committed change |
| ActionFeed.LoudStepIsNamed | src/http/quota_action_store.rs:118-180 | every other step that changes the action history records it |
| ActionFeed.ReadsAlikeExactlyWhen | src/http/api/quota_action.rs:72-74 | the history shows every field of an action but its lease and reuse marks |
| ActionFeed.SilentStepAddsFacts | src/quota/mod.rs:366-371 | a silent write finishes an action or gives it an after state, for good |
| ActionFeed.UnnamedExactlyWhenSilent | src/http/quota_action_store.rs:261-271 | the history changes unnamed exactly by a closed reset or a saved after state |
| ActionFeed.CaughtUpCopyIsRightExactlyWhenNothingWasSilent | src/http/api/quota_action.rs:51-74 | over any run, a caught-up copy of the history is right exactly when nothing silent came since it was read |
| ActionFeed.SilentWriteMisleads | src/http/api/quota_action.rs:51-74 | every silent write leaves a caught-up reader caught up and wrong |
| ActionFeed.AnAfterStateMisleads | src/http/quota_action_store.rs:254-271 | a run in which a saved after state does |
| ActionFeed.AClosedResetMisleads | src/quota/mod.rs:366-371 | a run in which a closed reset does |
| UsageStream.Replay | src/http/api/usage.rs:101-133 | the first stored events after the client's last one |
| UsageStream.ReplayHolds | src/http/api/usage.rs:112-119 | all the later events, or the first five hundred |
| UsageStream.Live | src/http/api/usage.rs:357-372 | passes on what the replay did not send, until the receiver lags or closes |
| UsageStream.EveryPriceIsPassedOn | src/http/api/usage.rs:363-367 | every price heard is passed on, in order |
| UsageStream.NothingIsSentTwice | src/http/api/usage.rs:109-133 | no event is sent twice, for any interleaving |
| UsageStream.PageHasNoGap | src/http/api/usage.rs:109-133 | a replay misses nothing up to its end |
| UsageStream.MissedExactlyWhenCutOff | src/http/api/usage.rs:109-133 | a later event is missed exactly when it was published before and cut off the replay |
| UsageStream.EveryLaterEventArrivesOnce | src/http/api/usage.rs:109-133 | under the replay limit every later event arrives exactly once |
| UsageStream.KnownEventRepeatsExactlyWhenReplayIsEmpty | src/http/api/usage.rs:357-372 | a known event comes again exactly when the replay is empty and it is published late |
| UsageStream.KnownEventCanRepeat | src/usage/ingest.rs:226-245 | a run in which it does |
| Resp.Connection.Send | src/collector/resp.rs:65-78 | writes the array of bulk strings of the arguments |
| Resp.Connection.ReadLine | src/collector/resp.rs:150-161 | the bytes before the first CR LF, or why there is no line |
| Resp.Connection.ReadFrame | src/collector/resp.rs:110-148 | one frame of the grammar, or its error |
| Resp.Connection.Read | src/collector/resp.rs:86-108 | the reader with its own stack answers the recursive grammar on every input, and leaves its tail |
| Resp.ReplyReadsBack | src/collector/resp.rs:86-148 | any nested reply within the limits reads back, leaving exactly what follows it |
| Resp.SentArgumentsReadBack | src/collector/resp.rs:65-78 | what was sent reads back as the arguments |
| Resp.AcceptedIsWellFormed | src/collector/resp.rs:163-178 | whatever is accepted is within the limits |
| Resp.IntegerReadsBack | src/collector/resp.rs:163-167 | every 64-bit integer reads back from its digits |
| Resp.ParsesExactlyWhen | src/collector/resp.rs:163-167 | an optional sign, at least one digit, and the range of 64 bits |
| Resp.PrintedSign | src/collector/resp.rs:65-78 | only numbers below nothing are printed with a sign |
| Resp.LengthExactlyWhen | src/collector/resp.rs:169-178 | -1 is null, and other lengths lie within the limit |
| Resp.WireBytes | src/collector/resp.rs:8-9 | the marker bytes and the limits |
| Resp.EncodedIsUtf8 | src/collector/resp.rs:110-120 | the encoding of any text is accepted as text |
| Resp.Utf8IsEncoded | src/collector/resp.rs:110-120 | and whatever is accepted is the encoding of some text |
| Base62.Encode | src/id.rs:48-58 | the buffer loop spells the id's bits in eleven digits |
| Base62.Position | src/id.rs:172-175 | the digit of a character, or none outside the alphabet |
| Base62.Decode | src/id.rs:162-188 | the checked 64-bit loop answers what unbounded arithmetic does, error for error |
| Base62.EncodingReadsBack | src/id.rs:162-188 | an id decodes to itself, and the bits of a negative one overflow |
| Base62.AcceptedTextIsThePrintedOne | src/id.rs:162-188 | a text is accepted for an id exactly when it is the id's spelling |
| Base62.AcceptedExactlyWhen | src/id.rs:162-188 | accepted exactly for eleven digits of the alphabet below 2^63 |
| Base62.Utf8LengthExactly | src/id.rs:166-168 | the length that is checked counts bytes, one to four a character |
| Base62.LastDigitOnly | src/id.rs:176-179 | the accumulator can overflow on the eleventh digit only |
| Base62.TenDigitsFit | src/id.rs:23-24 | eleven digits always suffice and ten never overflow |
| Base62.TextOrderIsNumericOrder | src/id.rs:23-24 | spellings sort as their values |
| IdGenerator.Generator.Exchange | src/id.rs:209-234 | one turn of the loop: stores and answers the candidate, or neither |
| IdGenerator.ExchangeMintsExactlyWhen | src/id.rs:224-234 | an exchange mints exactly when the word is still the one loaded and it does not fail for no reason |
| IdGenerator.CandidateIsLater | src/id.rs:209-224 | a candidate word is later than the loaded one and no earlier than the clock |
| IdGenerator.SpinsExactlyWhenTheSequenceIsUsedUp | src/id.rs:213-222 | a caller waits exactly while a full millisecond has not passed |
| IdGenerator.IdsFollowTheWord | src/id.rs:230-232 | ids order as the shared word, are non-negative and carry node and time |
| IdGenerator.MintedIdsIncrease | src/id.rs:205-237 | over any interleaving, spurious failures and any clock, ids minted later are greater |
| IdGenerator.FirstIdOf | src/id.rs:205-237 | an undisturbed caller mints at once: the clock, the node and number zero |
| IdGenerator.NodesDoNotCollide | src/id.rs:196-203 | two nodes never mint the same id |
| RecordHash.Hasher.Feed | src/usage/ingest.rs:57-90 | the hasher is fed the encoding of the record's identity |
| RecordHash.TextSplits | src/usage/ingest.rs:59-62 | a length prefix says where a text ends |
| RecordHash.MeasureSplits | src/usage/ingest.rs:82-87 | a tag says whether a measure follows |
| RecordHash.SameBytesSameIdentity | src/usage/ingest.rs:57-90 | two records feed the same bytes exactly when they are the same request |
| RecordHash.SameHashExactlyWhen | src/usage/ingest.rs:57-90 | field by field: records that name keys hash alike exactly when all fields do, keys included; records that name none when the rest do |
| RecordHash.UnattributedSpells | src/account/mod.rs:329-335 | what an unattributed key starts with |
| Accounts.Book.Resolve | src/account/mod.rs:91-136 | the rows, kind and label included, and the account a record is charged to |
| Accounts.Book.Register | src/account/mod.rs:141-169 | a listed credential is added, or its provider, kind and label are updated and its window is not |
| Accounts.Book.Insert | src/usage/ingest.rs:180-222 | an event is stored unless its source delivered it before |
| Accounts.Book.Merge | src/account/mod.rs:174-255 | every refusal in order, or the whole merged state |
| Accounts.ResolveGrows | src/account/mod.rs:91-136 | resolving keeps pointers flat and widens both windows over the instant |
| Accounts.RecordRenames | src/account/mod.rs:102-121 | a known credential keeps its provider, takes the reported kind, and a name only from a record that has one |
| Accounts.ListingRenames | src/account/mod.rs:150-168 | a listing also renews the provider, and leaves the window |
| Accounts.RecordCharges | src/usage/ingest.rs:138-150 | a new event is charged to what answers for its credential from then on |
| Accounts.MergeUnites | src/account/mod.rs:231-241 | after a merge the group of one account answers to the other |
| Accounts.MergeIsAUnion | src/account/mod.rs:231-241 | two credentials share an account exactly when they did or the merge joined them |
| Accounts.MergeConserves | src/account/mod.rs:216-230 | every event and plan is kept and exactly those of the merged account move |
| Accounts.MergeRedirects | src/account/mod.rs:122-135 | later records follow the earlier events |
| Accounts.MergedWindowStaysExactlyWhenItCovers | src/account/mod.rs:104-135 | a merged account's own window stays exactly when it holds the instant already |
| Accounts.AMergedWindowWidens | src/account/mod.rs:104-110 | a run in which it widens |
| Accounts.ResolveStaysIn | src/usage/ingest.rs:112-119 | resolving changes no account or plan of another source |
| Accounts.RegisterStaysIn | src/quota/mod.rs:282-347 | nor does listing a credential |
| Accounts.MergeStaysIn | src/account/mod.rs:214-250 | nor does a merge, which moves plans only between accounts of its source |
| Accounts.StepKeeps | src/account/mod.rs:91-255 | every step keeps pointers flat, in one source, and windows covering |
| Accounts.EventsFollowTheirCredential | src/account/mod.rs:91-255 | in every run each event sits on an unmerged account that answers for its credential, within its window |
| Accounts.StepMisplaces | src/plan/mod.rs:65-96 | only placing a plan decides whether it sits on a merged account |
| Accounts.OnMergedExactlyWhenPlacedThere | src/plan/mod.rs:65-145 | so over any run, it does exactly when last placed on one |
| Accounts.APlanCanSitOnAMergedAccount | src/plan/mod.rs:65-96 | a run that ends so |
| Ingest.Gateway.Store | src/usage/ingest.rs:138-159 | one record: its account, and its event unless delivered before |
| Ingest.ChargedToItsKey | src/account/mod.rs:329-335 | a record that names a key is charged to what answers for that key, one that names none to its provider's own account |
| Ingest.DifferentKeysAreDifferentRequests | src/usage/ingest.rs:69-69 | records that name different keys are different requests of different accounts |
| Ingest.Gateway.Ingest | src/usage/ingest.rs:98-177 | the counts sum to the batch, accepted counts the new distinct requests, stored ids are the new events |
| Ingest.BatchHolds | src/usage/ingest.rs:98-177 | after a batch a source holds what it held and what the batch names |
| Ingest.NewIsUnheld | src/usage/ingest.rs:180-222 | a record is new when neither held before nor earlier in its batch |
| Ingest.EachRequestIsStoredOnce | src/usage/ingest.rs:98-177 | over any run of batches, listings and merges a delivered request is stored exactly once |
| Ingest.StoredSetIgnoresBatching | src/usage/ingest.rs:98-177 | cutting, repeating or reordering deliveries changes nothing stored |
| Ingest.DuplicateExactlyWhenSameRequest | src/usage/ingest.rs:57-90 | without collisions, a duplicate is exactly the same request |
| Ingest.EachDeliveredRequestIsStoredOnce | src/usage/ingest.rs:98-177 | without collisions, over any run, a request is stored once if its source delivered it and not at all otherwise |
| Ingest.BatchStaysIn | src/usage/ingest.rs:112-119 | a batch changes no account or plan of another source |
| MetaMarker.Window.Observe | src/quota/response.rs:86-142 | the marker after a record, with the guard on newer successes |
| MetaMarker.Window.Expire | src/quota/response.rs:146-176 | the marker goes once its reset has come |
| MetaMarker.MarkerGoesExactlyWhenItsResetHasCome | src/quota/response.rs:161-172 | and stays as it was otherwise |
| MetaMarker.OnlyMetaMovesTheMarker | src/usage/ingest.rs:112-119 | records of other providers change no marker |
| MetaMarker.OnlyTheOrderMatters | src/quota/response.rs:86-100 | while the named resets are ahead, arrival instants do not matter |
| MetaMarker.LatestDecides | src/quota/response.rs:101-142 | the last arrival of the latest instant decides |
| MetaMarker.SettledHasOneOutcome | src/quota/response.rs:86-142 | settled records end the same in every order |
| MetaMarker.UnsettledDivides | src/quota/response.rs:86-142 | unsettled ones have two orders that end differently |
| MetaMarker.OrderIsForgottenExactlyWhenSettled | src/quota/response.rs:86-142 | the marker converges exactly when the records are settled |
| MetaMarker.DeliveryOrderCanMatter | src/quota/response.rs:104-117 | two records that end differently in their two orders |
| MetaMarker.DistinctInstantsSettle | src/quota/response.rs:86-142 | Meta's records of distinct instants always settle |
| MetaMarker.TheLatestWordStands | src/quota/response.rs:89-141 | in every order, a 429 naming a reset stands unless something later speaks, and a later 2xx of Meta leaves no marker |
| Prices.Book.Choose | src/price/cost.rs:25-50 | the scan finds the preferred row |
| Prices.Book.Fill | src/price/cost.rs:74-87 | prices every unpriced event it can and answers which |
| Prices.Book.Reprice | src/price/cost.rs:89-115 | clears exactly the events in range, counts them, and prices again |
| Prices.BestIsTheMaximum | src/price/cost.rs:28-49 | the choice is the one eligible row above all others, or there is none |
| Prices.ChosenFits | src/price/cost.rs:40-48 | field by field, a chosen row matches the event's model, provider, tier, size and time |
| Prices.FittingRowIsPriced | src/price/cost.rs:40-48 | and an event with a matching row is priced |
| Prices.PreferredExactlyWhen | src/price/cost.rs:30-36 | which of two rows is preferred, column by column |
| Prices.ListCostExactly | src/price/cost.rs:52-56 | cached tokens are not paid for twice |
| Prices.TableOrderDoesNotMatter | src/price/cost.rs:28-49 | the same rows in any order choose the same price |
| Prices.FillIsIdempotent | src/price/cost.rs:49-69 | a second pass changes nothing |
| Prices.PricedEventsAreFrozen | src/price/cost.rs:49-69 | only a reprice that covers it changes a priced event |
| Prices.StepKeeps | src/price/cost.rs:74-115 | every priced event carries the cost of its own row, and a reported charge stays billed |
| Prices.PartsAddUp | src/analytics/metrics.rs:28-36 | in every run the four parts of any events add up to their list cost |
| Prices.RepriceIsFromScratch | src/price/cost.rs:89-115 | a full reprice lists from scratch, and bills so except for a computed LiteLLM charge |
| Prices.RepriceCoversExactly | src/price/cost.rs:95-105 | a reprice touches exactly the events from its first instant through its last |
| Prices.RepriceForgetsHistory | src/price/cost.rs:89-115 | equal rows and requests list equal costs after a reprice, however they got there |
| Prices.AComputedBillOutlivesItsPrice | src/price/cost.rs:87-99 | a run in which a computed charge is kept |
| Metrics.ClassesAddUp | src/analytics/metrics.rs:108-135 | the sums of neighbouring cells add up to the rows that fall in any of them |
| Metrics.Places | src/analytics/series.rs:102-111 | the lookup from a key to its place |
| Series.Totals | src/analytics/series.rs:80-83 | the total of each group over the window |
| Series.Rank | src/analytics/series.rs:84-90 | the groups ordered by measure, ties by name |
| Series.RankingIsUnique | src/analytics/series.rs:84-90 | one ranking, whatever order the table gives its keys in |
| Series.KeepTop | src/analytics/series.rs:91-101 | the first of the ranking keep their key, and a last column exists exactly for the rest |
| Series.AddRows | src/analytics/series.rs:113-123 | every row lands in its own cell, in bounds, or a bucket is missing |
| Series.Load | src/analytics/series.rs:80-123 | the table of the top groups and the rest; an error exactly for an unknown bucket |
| Series.BucketIsConserved | src/analytics/series.rs:113-156 | the columns of a bucket add up to its rows |
| Series.TableIsConserved | src/analytics/series.rs:113-156 | all cells add up to all rows |
| Series.KeptOutrankMerged | src/analytics/series.rs:84-99 | every kept group outranks every merged one |
| Series.KeptHaveMore | src/analytics/metrics.rs:148-156 | on the sums: no kept group has less of what is ranked by |
| Rollup.AddToGroup | src/analytics/rollup.rs:105-107 | adds to one group, kept in key order |
| Rollup.Load | src/analytics/rollup.rs:91-128 | every number is the sum of its own rows, each bucket's groups sorted; an error exactly for an unreadable row |
| Rollup.SortByKey | src/analytics/rollup.rs:110-117 | the same groups in the order of their keys |
| Rollup.EveryBucketIsInKeyOrder | src/analytics/rollup.rs:110-117 | rows grouped by bucket and key come out in strict key order in every bucket |
| Rollup.EverySplitAgrees | src/analytics/rollup.rs:91-128 | the total, the buckets, the groups and each bucket's groups agree |
| Billing.Periods | src/plan/leverage.rs:97-119 | exactly the months that bill, in order, and the loop ends |
| Billing.PeriodsTile | src/plan/leverage.rs:97-119 | each period ends where the next begins, on the anchor's day clamped to its month |
| Billing.PeriodsEndWithThePlan | src/plan/leverage.rs:114-114 | no period runs past the plan's end, and one cut short is the last and ends there |
| Billing.LastInstant | src/plan/leverage.rs:99-104 | the last instant a start may have, on the calendar |
| Billing.PeriodsAreDisjoint | src/plan/leverage.rs:97-119 | an instant lies in at most one period |
| Billing.EveryInstantIsBilled | src/plan/leverage.rs:97-119 | and in one, exactly when the calendar has a later start |
| Billing.DateReadsBack | src/plan/leverage.rs:99-104 | a civil date reads back from its instant |
| Prediction.OpenedOnUse | src/quota/prediction.rs:139-174 | the loop, stopped after a given number of turns, answers where the search ends if it has ended |
| Prediction.HourExactly | src/quota/prediction.rs:146-148 | a window opens on the whole hour before its first request |
| Prediction.RangeOfInstants | src/quota/prediction.rs:158-166 | the range an end must fall in to be answered |
| Prediction.LongWindowsSettle | src/quota/prediction.rs:146-174 | a window of an hour or more takes no more turns than there are requests since the reset |
| Prediction.NoMoreTurnsThanRequests | src/quota/prediction.rs:146-174 | with any number of requests it goes on at most that many times |
| Prediction.FiveHourWindowsSettle | src/quota/provider/claude.rs:188-195 | so the search ends for every window a provider reports |
| Prediction.EndsExactlyWhenNoWindowOpensOver | src/quota/prediction.rs:146-174 | the search ends exactly when no window on its way is over as it opens |
| Prediction.AShortWindowIsSearchedForever | src/quota/prediction.rs:146-174 | an input on which it does not |
| Prediction.WindowsFollow | src/quota/prediction.rs:135-174 | windows follow one another and the one answered holds now |
| Prediction.EveryRequestIsInAWindow | src/quota/prediction.rs:135-174 | each request since the reset is in one of them; none holds now exactly when all are in closed ones |
| Prediction.ScheduleHoldsNow | src/quota/prediction.rs:178-189 | the answer is the window of the schedule that holds now, or its numbers leave their range |
| Prediction.ScheduledWindowIsUnique | src/quota/prediction.rs:178-189 | there is one such window |
| Prediction.EmptyScheduleHoldsNothing | src/quota/prediction.rs:178-189 | an answer holds now exactly for a positive length |

## Left out

- Action instants compared as text (src/http/quota_action_store.rs:156): the model compares integers, so a fraction printed with fewer digits is not captured.
- Action ids reissued after a rolled-back insert, and a claim whose lease is registered but whose commit fails: the model commits every claim that registers a lease.
- QuotaActions.ActionStore.Complete: does not model the requests it logs for the shared actions its body names; they only add rows to the request log.
- The bodies of action responses, the wait of a reused action and automatic recovery: presentation and timeouts around the claim.
- ManualResets.ResetDesk.Refresh: takes its targets one at a time and leaves out what answers an account from a recent action; up to four fetches in flight are part of the runs of `ManualResets`.
- Coherence.RecordsExactlyWhatChanged: a subject is what its snapshot compares or its record names. Lists also show traffic, predictions and suggested continuations, which a change need not name.
- UsageStream.EveryLaterEventArrivesOnce: for a receiver that does not lag; one that does ends the stream.
- Accounts.Book.Merge: whether a suggested continuation still holds is an input; the changes it records are covered by `Coherence`.
- Provider adapters and the gateway's management calls: a provider is whatever it answers.
- QuotaProtocol.SecondWorkerExactlyAfterReconciling: asks for one live worker of the scope and no recent result, so that only the closed row decides.
- SQL text, codecs and migrations: tables are maps and sequences, queries their meaning.
- Resp.Connection.Read: the input is all there at once; time-outs and partial reads of the socket are not part of this model.
- IdGenerator: that a caller stops spinning needs a clock that moves and a scheduler that is fair.
- IdGenerator.MintedIdsIncrease: holds for clocks below 2^41 milliseconds, which the epoch allows until 2094.
- RecordHash.Hasher.Feed: texts are their UTF-8 bytes and an instant is its stored spelling; how an instant is printed is not part of this model.
- Ingest.Gateway.Ingest: the changes a batch records in its transaction and reading its events back to publish them are covered by `Coherence` and `UsageStream`; asking the gateway about a new credential is not modelled.
- MetaMarker.Window.Observe: the reset is taken from the record; searching the error body for it is not part of this model.
- Prices.StepKeeps: money is `real`, so the rounding of floating point is not captured.
- Series.Load: labels and the reader's spelling of keys, and the default lower end of the window, are not part of this model.
- Bucket starts and local time: the rules live in the time-zone library, so bucket keys are given, each once.
- Billing.Periods: that the span type can hold the count of months, at most 239,976, is not checked.
- Prediction.EndsExactlyWhenNoWindowOpensOver: for instants since 1970 and lengths not below zero, as providers report them.
- The share of a window spent by now (src/quota/prediction.rs:102-110): one multiplication over a sum.
- HTTP routing, the web interface, tokens, sessions of the collectors and retention of dead letters: plumbing.
