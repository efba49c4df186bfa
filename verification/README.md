# Models and proofs of the backend's protocols and algorithms

This project models the parts of the backend that are hard to get right by reading one function at a time, and proves
what they promise: protocols whose safety comes from how compare-and-set updates of several processes combine, and
self-contained algorithms over text and bytes.

`dafny verify dfyconfig.toml` checks everything.

## How a protocol is modelled

Every protocol has three layers.

1. *Rows*: the tables as maps, and one function for each `$transaction` or single `updateMany`, with the guards the code
   has. Each of them is one atomic step.
2. *Store*: a class whose fields are the tables and whose methods carry the same transactions out in place, one update at
   a time. Their contracts equate the new tables with the function of layer 1.
3. *Protocol*: a world of tables, one monotone clock, and any number of processes. An action is one step of one process.
   What a process read before its transaction is part of its own state and can be stale when the transaction runs; a
   process can stop between any two steps; identifiers are fresh. Where a promise is about the past, the world also
   records history. An invariant is proved of every action, and the theorems in the `Safety` modules (or the last section
   of a protocol module) speak about every run, or about every continuation of every run.

What each transaction does and answers is said a second time, on the plain fields of the rows before and after it and
without the functions of layer 1: the predicates of the `Effects` modules. The store methods ensure them, and the
`Outcomes` modules (`ConversationConsent` for conversations) prove them of the steps of every process, in both directions:
when a step takes effect, what it changes, and what the caller is told.

An algorithm is a recursive specification function, a method with the loops of the source proved equal to it, and lemmas
about the specification. The `Reading` modules, `DiceGrammar` and `WebpOutcomes` give the inputs a grammar of their own, on
characters or bytes, and prove that the specification accepts exactly what the grammar describes, with that meaning.

| files | what they model |
|---|---|
| `MediaKeys`, `MediaRows`, `MediaDatabase`, `MediaPublication`, `MediaInvariant`, `MediaSafety`, `MediaClaims`, `MediaEffects`, `MediaOutcomes` | display and preview publication with cleaners, deletion claims, late PUTs and DELETEs |
| `ConversationRows`, `ConversationProtocol`, `ConversationInvariant`, `ConversationSafety`, `ConversationEffects`, `ConversationConsent`, `MessagePaging` | direct conversations and their message lists |
| `SessionRows`, `SessionProtocol`, `SessionSafety`, `SessionEffects`, `SessionOutcomes` | refresh-token families and login failures |
| `EconomyRows`, `EconomyLedger`, `EconomyProtocol`, `EconomyEffects`, `EconomyOutcomes`, `RowLocks` | wallets, ledger, idempotent tips, ordered row locks |
| `CampaignDispatch`, `CampaignOutcomes` | notification campaigns with overlapping leases |
| `EncodingSlot` | the promise chain that serialises media encoding |
| `VerificationCodes`, `VerificationTimes`, `VerificationEffects`, `VerificationOutcomes` | e-mail verification codes |
| `DiceNotation`, `DiceScanner`, `DiceRewriting`, `DiceContent`, `DiceParsing`, `DiceGrammar`, `DiceReading` | dice markers in posts |
| `Riff`, `WebpStill`, `WebpAnimation`, `WebpEncoder`, `WebpOutcomes` | the animated WebP container (sections 2.3 and 2.7 of RFC 9649) |
| `InlineCode`, `InlineCodeReading`, `InternalReference`, `InternalReferenceReading`, `ReferenceLabels`, `ReferencePreviews` | code spans, site-internal links |
| `Options`, `Sequences`, `Text`, `Spacing` | shared data types and text functions |

## Model

| member | source | states |
|---|---|---|
| MediaKeys.RenderSeparatesAttempts | src/media/media-animation-display-policy.ts:7-9 | for source keys with an extension that do not look generated, equal object keys mean the same attempt, the same kind and the same preview size: keys of two attempts, and a source and a generated key, never collide |
| MediaStore.MediaDatabase.RegisterDisplay | src/media/media-display-publisher.ts:20-31 | the attempt row is written exactly when the media still accepts display work and is not claimed for deletion |
| MediaStore.MediaDatabase.PublishDisplay | src/media/media-display-publisher.ts:48-62 | attempt and media row change together or not at all, even though the first update is undone by a second one |
| MediaStore.MediaDatabase.LeaseDisplay | src/media/media-display-publisher.ts:85-92 | the lease is granted exactly when the counter that was read is still the stored one and no running lease is younger than five minutes |
| MediaStore.MediaDatabase.FailDisplay | src/media/media-display-publisher.ts:103-104 | a failure is recorded only under the current lease number |
| MediaStore.MediaDatabase.CompleteMedia | src/media/media-animation-preview-publisher.ts:63-92 | a media in processing and unclaimed becomes COMPLETED; its previews are stored and their attempt published exactly when the attempt was pending for this media and not expired, otherwise it has none and the attempt stays; nothing changes for any other media, and after a commit whose outcome is unknown the fallback leaves the tables as the commit left them |
| MediaStore.MediaDatabase.CleanupBatch | src/media/media-preview-cleanup.ts:22-58 | a whole batch of stale snapshots never touches a PUBLISHED attempt and never makes one |
| MediaStore.MediaDatabase.ClaimDeletion | src/media/media-display-reclamation.ts:4-12 | a claim needs the guard, computed with the clock of the caller, and keeps the time of an earlier claim |
| MediaSafety.ReferencedKeysArePublishedAndStored | src/media/media-preview-cleanup.ts:15-56 | in every run, each key an unclaimed media refers to belongs to a PUBLISHED attempt of that media and is in the object store |
| MediaSafety.NoDeleteTargetsReferencedKey | src/media/media-preview-cleanup.ts:27-38 | no DELETE ever sent, however late it lands, names the object of such a key: their names differ as strings |
| MediaSafety.AttemptStatusIsFinal | src/media/media-preview-cleanup.ts:27-31 | in every continuation of every run a PUBLISHED attempt stays PUBLISHED and a CLEANING one is never published |
| MediaSafety.PublishedPreviewsAreKept | src/media/media-animation-preview-publisher.ts:67-91 | no continuation of a run, and no fallback after an unknown commit, erases or replaces published previews |
| MediaSafety.ReadyIffOnePublishedAttempt | src/media/media-display-publisher.ts:48-62 | the asset is set iff the status is READY iff exactly one display attempt of the media is PUBLISHED |
| MediaSafety.DisplayAssetIsWriteOnce | src/media/media-display-publisher.ts:54-57 | once set, the asset is never replaced or cleared |
| MediaSafety.AllCallersGetTheSameDescriptor | src/media/media-display-publisher.ts:14-70 | all calls that return for one media return the same descriptor, and it is the stored one |
| MediaSafety.ClaimStopsDisplayWork | src/media/media-display-publisher.ts:20-31 | after a deletion claim no lease is granted, no asset published and no display attempt recorded |
| MediaSafety.ClaimFindsAttemptsSettled | src/media/media-display-reclamation.ts:4-12 | when a claim takes effect every unpublished attempt expired at least seven days ago and had all its objects removed once, and no recent lease is running |
| MediaSafety.LeasesAreBoundedAndDistinct | src/media/media-display-publisher.ts:82-92 | at most three leases are granted for a media and no two processes hold the same one |
| MediaSafety.StaleFailureChangesNothing | src/media/media-display-publisher.ts:99-105 | the failure write of a worker whose lease was taken over, or after publication, changes no row |
| MediaOutcomes.UploadedPreviewsArePublished | src/media/media-animation-preview-publisher.ts:67-87 | in every run, uploaded previews are published with the completion of their media, and stored with it, exactly when their attempt is still pending and not expired |
| MediaOutcomes.WorkerStages | src/media/media-animation-preview-publisher.ts:35-41 | an attempt is recorded with exactly the keys of its sizes before they are sent |
| MediaOutcomes.CallRegisters | src/media/media-display-publisher.ts:20-31 | a call records its attempt and sends its PUT exactly for an unclaimed media in processing or completed, with half a minute to run |
| MediaOutcomes.CallPublishes | src/media/media-display-publisher.ts:48-63 | an uploaded display becomes the asset, and is returned, exactly when its attempt is pending and not expired and its open media has none |
| MediaOutcomes.WorkerLeases | src/media/media-display-publisher.ts:84-92 | a lease is taken exactly on the count that was read, when no lease of the last five minutes runs |
| MediaOutcomes.CleanerLeases | src/media/media-preview-cleanup.ts:27-38 | only an attempt that is still as it was read, and expired, is leased for ten minutes, and only then are its objects deleted |
| MediaOutcomes.CleanerEnds | src/media/media-preview-cleanup.ts:50-55 | a removed pass counts and comes back after one, two, four, then seven days; a failed one after ten minutes |
| MediaEffects.BatchEffects | src/media/media-preview-cleanup.ts:22-57 | a batch treats each attempt by its own snapshot and changes nothing else |
| MediaOutcomes.ReclaimerClaims | src/media/media-display-reclamation.ts:4-12 | a deletion claim takes effect exactly without a recent lease and with every unpublished attempt removed once and a week old |
| MediaClaims.PreviewsAfterClaimIff | src/media/media-animation-preview-publisher.ts:38-45 | after a deletion claim a new attempt of the media can still be recorded and its objects sent exactly when some process already has its display and has not staged its previews |
| MediaClaims.ClaimMeetsStager | src/media/media-processing.service.ts:63-65 | for every source key and attempt ids there is a run in which a claim meets such a process |
| ConversationStore.ConversationDatabase.FindDuplicate | src/direct-messages/direct-messages.service.ts:543-548 | finds the message with a sender and client request id iff there is one |
| ConversationStore.ConversationDatabase.CreateMessage | src/direct-messages/direct-messages.service.ts:425-447 | stores the message unless the unique key is taken |
| ConversationStore.ConversationDatabase.Create | src/direct-messages/direct-messages.service.ts:68-97 | conversation and first message appear together, accepted exactly when the members follow each other and a request otherwise, or neither when the pair or the key is taken |
| ConversationStore.ConversationDatabase.TransitionAndSend | src/direct-messages/direct-messages.service.ts:373-424 | the status-only compare-and-set, the read marks and the message; a key conflict undoes the status change that came first |
| ConversationStore.ConversationDatabase.SendAccepted | src/direct-messages/direct-messages.service.ts:333-371 | the message is stored only while the conversation is accepted, which is read again inside the transaction |
| ConversationStore.ConversationDatabase.Accept | src/direct-messages/direct-messages.service.ts:157-169 | only the recipient of a pending request accepts it, which marks the request as read |
| ConversationStore.ConversationDatabase.Decline | src/direct-messages/direct-messages.service.ts:170-186 | only the recipient of a pending request declines it, which deletes its messages |
| ConversationStore.ConversationDatabase.MarkRead | src/direct-messages/direct-messages.service.ts:209-231 | marks through a message of this conversation and nothing when it is not one |
| ConversationStore.ConversationDatabase.Recall | src/direct-messages/direct-messages.service.ts:251-275 | the outcomes in the order the code tries them: a pending request is canceled with its messages, an accepted one only marks the message |
| ConversationSafety.StatusDecidesMessages | src/direct-messages/direct-messages.service.ts:157-187 | in every run a declined or canceled conversation is empty, a pending one has exactly one message from requester to recipient, and the last message time is that of the newest message |
| ConversationSafety.AcceptedIsFinal | src/direct-messages/direct-messages.service.ts:387-395 | acceptance is absorbing |
| ConversationSafety.RolesHoldUntilAccepted | src/direct-messages/direct-messages.service.ts:283-331 | requester and recipient never swap before acceptance, through any declines, cancellations and new requests |
| ConversationSafety.StatusComparisonIsAbaSafe | src/direct-messages/direct-messages.service.ts:387-395 | when the status-only update of a stale request takes effect, the row has the pair and the roles that were read |
| ConversationSafety.DeclinerSpeaksFirst | src/direct-messages/direct-messages.service.ts:305-316 | after a decline the next message of the conversation is sent by the member who declined |
| ConversationSafety.RetryFindsTheMessage | src/direct-messages/direct-messages.service.ts:118-125 | a message of an accepted conversation is never lost and stays the only one with its idempotency key, so a retry finds it and stores nothing |
| ConversationSafety.KeysAreUnique | src/direct-messages/direct-messages.service.ts:543-548 | a client request id names at most one stored message of a sender, and a pair has at most one conversation |
| ConversationConsent.AcceptedOnlyWithConsent | src/direct-messages/direct-messages.service.ts:64-78 | in every run a conversation is accepted only after a mutual-follow read, an acceptance by its recipient, or a message by the other member |
| ConversationConsent.WithoutConsentStillARequest | src/direct-messages/direct-messages.service.ts:283-331 | without any of them it is not accepted, whatever was sent, declined, canceled and sent again |
| ConversationConsent.NewInitiation | src/direct-messages/direct-messages.service.ts:64-78 | a first message carries the answer of the mutual-follow read to the transaction that creates the conversation |
| ConversationConsent.KnownInitiation | src/direct-messages/direct-messages.service.ts:289-330 | what a message to an existing conversation asks for, by its status and requester: a canceled one is accepted when the former recipient writes or the members follow each other, and pending again otherwise |
| ConversationConsent.CommitEffects | src/direct-messages/direct-messages.service.ts:68-97 | what the transaction of every kind of request changes, and exactly when, on the rows before and after it |
| ConversationEffects.RecallEffect | src/direct-messages/direct-messages.service.ts:251-275 | a recall deletes the request or marks the message by the status, and answers in the order of the checks |
| MessagePaging.FindMessages | src/direct-messages/direct-message-query.service.ts:112-173 | the page is the slice of the ordered list next to the anchor, without it, of thirty messages or as many as asked for up to fifty, with the next cursor and whether more remain; two anchors or a foreign one are errors |
| MessagePaging.ReverseInPlace | src/direct-messages/direct-message-query.service.ts:166 | a descending page is turned round in place |
| MessagePaging.OlderVisitsAll | src/direct-messages/direct-message-query.service.ts:137-172 | following `cursor` until `hasMore` is false visits every older message once, in order, for any page size from one on |
| MessagePaging.NewerVisitsAll | src/direct-messages/direct-message-query.service.ts:137-172 | the same for `after` and every newer message |
| MessagePaging.MarkReadMarksPrefix | src/direct-messages/direct-messages.service.ts:218-229 | marking through a message marks exactly the reader's unread messages up to its place in that same order and touches nothing else |
| SessionStore.SessionDatabase.ReplaceSession | src/auth/auth-session.service.ts:85-101 | the slot's live token is revoked and the new one stored |
| SessionStore.SessionDatabase.CreateSession | src/auth/auth-session.service.ts:108-124 | a session opens unless the user is sanctioned |
| SessionStore.SessionDatabase.Login | src/auth/auth-session.service.ts:145-204 | the checks in order: deactivation, lock, password with its failure count, sanction; only then a session opens and the failures are cleared |
| SessionStore.SessionDatabase.VerifyCredentials | src/auth/appeal-access.service.ts:122-174 | the appeal form checks a password on the same counter and lock; a right one clears them, whoever is sanctioned, and opens no session |
| SessionStore.SessionDatabase.Refresh | src/auth/auth-session.service.ts:234-342 | a new token, with the lifetime of its platform, exactly for an unrevoked and unexpired token of a present user who is not sanctioned; every other outcome by the fields of token and user, with the tokens it revokes |
| SessionStore.SessionDatabase.Logout | src/auth/auth-session.service.ts:369-379 | revokes the user's own live token and nothing else |
| SessionStore.SessionDatabase.RevokeSession | src/auth/auth-session.service.ts:413-434 | revokes the live tokens of the family and reports whether there were any |
| SessionSafety.OneLiveToken | src/auth/auth-session.service.ts:85-101 | in every run at most one token is live for a user and platform, and at most one in a family |
| SessionSafety.FamilyIdentityIsFixed | src/auth/auth-session.service.ts:316-332 | all tokens a family ever has carry the same user, platform and session start |
| SessionSafety.EachTokenRotatesOnce | src/auth/auth-session.service.ts:302-306 | no token is rotated twice and no token succeeds two |
| SessionSafety.DeadFamilyStaysDead | src/auth/auth-session.service.ts:234-342 | a family without a live token never has one again |
| SessionSafety.RevocationIsFinal | src/auth/auth-session.service.ts:266-280 | a revoked token stays revoked, with its time, until it is removed |
| SessionSafety.ReplayKillsFamily | src/auth/auth-session.service.ts:266-280 | replaying a rotated token changes nothing within ten seconds of its revocation and kills its family for the rest of the run afterwards |
| SessionSafety.RotationMovesTheSession | src/auth/auth-session.service.ts:302-341 | after a rotation the new token is the only live one of the family, with the family's identity and a full lifetime |
| SessionSafety.RefreshRotatesOrEndsTheSession | src/auth/auth-session.service.ts:253-342 | a refresh rotates, or is an early replay and changes nothing, or leaves no live token in the family |
| SessionSafety.SanctionKillsFamily | src/auth/auth-session.service.ts:257-264 | a sanctioned user's refresh ends the session whatever the token's state |
| SessionSafety.GuessingSlowsDown | src/auth/auth-session.service.ts:165-191 | in every run, from the fifth wrong password since the last accepted one on, wrong passwords are at least fifteen minutes apart |
| SessionSafety.LockHolds | src/auth/auth-session.service.ts:165-171 | from any reached state, until the time of a lock nothing in any continuation moves it or the failure count, and no password tried on either form, right or wrong, changes a row |
| SessionOutcomes.RefreshRotatesIff | src/auth/auth-session.service.ts:253-341 | in every run a refresh stores a new token exactly for an unrevoked, unexpired token of a present user who is not sanctioned, and which of the other answers it gives otherwise |
| SessionOutcomes.LoginOpensIff | src/auth/auth-session.service.ts:145-203 | a login opens a new family exactly for the right password of a known account that is neither locked nor sanctioned; the fifth and every later failure locks for fifteen minutes |
| SessionEffects.RefreshEffect | src/auth/auth-session.service.ts:253-341 | what each answer of a refresh leaves of the tokens |
| EconomyRows.SplitIsExact | src/economy/economy.constants.ts:1-7 | the two shares of a tip add up to it, both are at least one, and the recipient's is the rounded-down 85 percent |
| EconomyStore.EconomyDatabase.CheckInUser | src/economy/economy.service.ts:61-136 | one reward per day; a later call returns the stored one |
| EconomyStore.EconomyDatabase.RunTip | src/economy/economy.service.ts:341-536 | the tip is paid exactly when wallets, key, permission, target, balance and columns allow it; then the three balances, the content total, the entry with its snapshots, the event and the answer in terms of the old rows; otherwise nothing changes and the first thing missing is answered |
| EconomyStore.EconomyDatabase.PayTip | src/economy/economy.service.ts:328-558 | at most three attempts; the first that is not rolled back as a serialization failure decides, and only a committed one takes effect; a unique conflict is answered from the stored entry |
| EconomyProtocol.CachesRefineLedger | src/economy/economy.service.ts:443-509 | in every run each cached balance, total and count is the fold of the ledger, non-negative and in range, and each stored snapshot is the fold up to its entry |
| EconomyProtocol.RewardsAreTheOnlySource | src/economy/economy.service.ts:91-107 | all balances together are the sum of the check-in rewards |
| EconomyProtocol.TotalGrowsByRewards | src/economy/economy.service.ts:91-95 | a step changes the total by the reward of a check-in, at most three, or not at all |
| EconomyProtocol.OneRewardPerDay | src/economy/economy.service.ts:73-89 | a member has at most one check-in entry for a day |
| EconomyProtocol.OneTipPerKey | src/economy/economy.service.ts:339-557 | for any interleaving of concurrent, aborted, unheard and retried tips a key has one ledger entry and one outbox event, and all successful answers for it are the same and carry the same payload |
| EconomyProtocol.RetryGetsTheFirstAnswer | src/economy/economy.service.ts:596-616 | a retry changes nothing and gets the first answer whatever happened in between |
| EconomyProtocol.ReusedKeyHasNoEffect | src/economy/economy.service.ts:608-616 | a key reused for another target or amount fails and nothing changes |
| EconomyOutcomes.TipPaysIff | src/economy/economy.service.ts:341-536 | in every run the ledger grows by a tip exactly when it is payable, a tip of the whole balance included, and the caller gets the amounts it moved: 85 percent rounded down for the recipient, the rest for the platform |
| EconomyOutcomes.PreparationSteps | src/economy/economy.service.ts:560-594 | which tips are attempted at all, and that a used key is answered from its entry |
| EconomyOutcomes.FailedAttempts | src/economy/economy.service.ts:537-557 | a failed attempt changes no row; the third serialization failure ends it, and a unique conflict is answered from the stored entry |
| EconomyEffects.CheckInEffect | src/economy/economy.service.ts:61-136 | a reward is given exactly once a day to an active member whose balance has room, and moves nothing else |
| EconomyEffects.AnswerEffect | src/economy/economy.service.ts:359-536 | the answer of an attempt by the rows it ran on, in the order of the checks |
| EconomyLedger.TipKeeps | src/economy/economy.service.ts:443-532 | a tip keeps ledger, caches, outbox and check-ins consistent with each other |
| EconomyLedger.CheckInKeeps | src/economy/economy.service.ts:91-125 | so does a check-in |
| RowLocks.LockOrder | src/access/block-visibility.where.ts:48-52 | user ids are locked in strictly increasing order, each once, none left out |
| RowLocks.TipProgram | src/economy/economy.service.ts:359-441 | a tip locks both users, the three wallets and its content row, in the global order |
| RowLocks.CheckInProgram | src/economy/economy.service.ts:63-95 | a check-in locks its user before its wallet |
| RowLocks.InteractionProgram | src/access/block-visibility.where.ts:48-57 | the checks of one transaction lock everybody involved, in the global order exactly when no later check brings in an id below one that is held |
| RowLocks.RepeatedChecksAscend | src/mentions/mentions.service.ts:67-68 | a single check is in order, and so are checks after it among the users it has locked |
| RowLocks.WaitsForIsAcyclic | src/access/block-visibility.where.ts:47-52 | in every reachable lock state nobody waits for itself, directly or through others |
| RowLocks.NeverStuck | src/economy/economy.service.ts:359-382 | while any transaction is open, some open transaction can lock its next row or end |
| CampaignDispatch.BatchCovers | src/admin/notification-campaign.service.ts:249-283 | after a batch is notified the cursor may move to its last member, and a short batch completes the audience |
| CampaignDispatch.CampaignDatabase.ClaimCampaign | src/admin/notification-campaign.service.ts:209-243 | a claim takes effect once, exactly for a campaign that is due or left behind for five minutes with fewer than ten attempts, and changes only status, attempt and lease |
| CampaignDispatch.CampaignDatabase.Dispatch | src/admin/notification-campaign.service.ts:209-293 | a dispatch that runs to its end notifies everyone past the cursor it started from, counts exactly them, and notifies nobody outside the audience |
| CampaignProtocol.CursorCoversAudience | src/admin/notification-campaign.service.ts:209-293 | with overlapping leases, slow workers that move the cursor back, failed notifications and crashes anywhere, everyone up to the cursor has been notified, SENT means everyone was, and attempts never exceed ten |
| CampaignProtocol.SentStaysTrue | src/admin/notification-campaign.service.ts:285-292 | after SENT the audience stays notified and cursor, attempts and recipient count never change again, whatever slow workers and stale cancellations do |
| CampaignProtocol.CancellationHoldsIff | src/admin/notification-campaign.service.ts:139-148 | in every run, for all continuations: the status stays CANCELED exactly when no worker is active at the moment the cancellation is written; nobody else is notified exactly when none is active or everybody has been notified; nobody is ever notified exactly when, besides no worker being active, nobody has been, or the audience is empty |
| CampaignProtocol.ScheduledCancellationHolds | src/admin/notification-campaign.service.ts:142-148 | while the status is still SCHEDULED at the update, the guard the update lacks, it stays CANCELED and nobody is ever notified |
| CampaignProtocol.CancelCanLose | src/admin/notification-campaign.service.ts:139-162 | for every audience a run in which a stale cancellation overwrites a campaign in progress before anybody is notified, and everybody is notified afterwards |
| CampaignProtocol.CancelAfterSending | src/admin/notification-campaign.service.ts:139-162 | for every audience a run in which it is written over SENT and stays, with everybody notified |
| CampaignOutcomes.NobodyBeforeTime | src/admin/notification-campaign.service.ts:211-226 | in no run is anybody notified, or an attempt made, before the scheduled time |
| CampaignOutcomes.ClaimIff | src/admin/notification-campaign.service.ts:211-243 | a worker gets the campaign exactly when it is due, or left behind for five minutes with fewer than ten attempts made |
| CampaignOutcomes.FetchTakesNext | src/admin/notification-campaign.service.ts:249-258 | in every run a batch is the next at most five hundred members past the cursor, in order and without gaps |
| CampaignOutcomes.BatchIsSent | src/admin/notification-campaign.service.ts:259-283 | a batch reaches its members and nobody else; cursor and count move while the campaign is being sent |
| EncodingSlot.MediaEncodingSlot.Begin | src/media/media-encoding-slot.ts:5-8 | a call takes the chain as it is and puts its own gate behind it |
| EncodingSlot.MediaEncodingSlot.TryEnter | src/media/media-encoding-slot.ts:11-17 | a call enters exactly when the chain before it has resolved |
| EncodingSlot.MediaEncodingSlot.TimeOut | src/media/media-encoding-slot.ts:13-21 | a waiter past its deadline gives up and releases its gate |
| EncodingSlot.MediaEncodingSlot.Settle | src/media/media-encoding-slot.ts:17-21 | a job that ends releases its gate |
| EncodingSlot.MutualExclusion | src/media/media-encoding-slot.ts:1-22 | at most one job runs at any time |
| EncodingSlot.EntryIsFifo | src/media/media-encoding-slot.ts:5-12 | jobs start in the order of arrival, whoever gave up in between |
| EncodingSlot.TimeoutAdmitsNobody | src/media/media-encoding-slot.ts:18-21 | while a job runs a waiter that times out admits nobody behind it |
| EncodingSlot.TimedOutNeverRuns | src/media/media-encoding-slot.ts:15 | a call that timed out never runs its job |
| EncodingSlot.EveryCallerSettles | src/media/media-encoding-slot.ts:10-21 | if every started job settles, every caller settles |
| EncodingSlot.RunsEnd | src/media/media-encoding-slot.ts:10-21 | without new arrivals only finitely many steps are left |
| VerificationStore.VerificationDatabase.Create | src/auth/verification-code.service.ts:106-125 | a record is stored unless one of the two unique indexes is taken |
| VerificationStore.VerificationDatabase.ClaimExisting | src/auth/verification-code.service.ts:144-195 | the send window is claimed exactly when the stamp of the last one is a minute old; the others are told that the mail was sent exactly when the two marks agree |
| VerificationStore.VerificationDatabase.Mark | src/auth/verification-code.service.ts:198-211 | delivery is noted only for the window that was used |
| VerificationStore.VerificationDatabase.CheckVerificationCode | src/auth/auth.service.ts:98-142 | an expired record never verifies, the right code on a live one does, a wrong one counts and the fifth removes it |
| VerificationStore.VerificationDatabase.ConsumeVerification | src/auth/auth.service.ts:56-96 | a code is consumed exactly when it is right and the work it guards succeeds |
| VerificationProtocol.WindowsAreAMinuteApart | src/auth/verification-code.service.ts:154-161 | over any interleaving, the stamps of a record's send windows are at least a minute apart |
| VerificationTimes.ClaimsAreApartIff | src/auth/verification-code.service.ts:91-161 | with requests that stall at most `stall` between reading the clock and the claim, the claims of one record are `gap` apart in all runs exactly when `gap` is zero or `gap + stall` is at most a minute |
| VerificationTimes.AnchorClaimsAreApartIff | src/auth/verification-code.service.ts:91-161 | claims for one user or address and purpose: exactly the same distance while the later request finds the record of the earlier claim reusable; otherwise, whatever the stall, no distance at all |
| VerificationTimes.ReusableRecordIsClaimed | src/auth/verification-code.service.ts:93-101 | a request that could reuse a record when it began claims a window of that record or none |
| VerificationTimes.StalledRun | src/auth/verification-code.service.ts:91-161 | for every stall up to a minute a run whose second and third claim are that much closer than a minute |
| VerificationTimes.ExpiredRun | src/auth/verification-code.service.ts:99-117 | for every moment from a minute after the first mail on, a run in which a mail is sent again then and a new code is mailed at the moment of expiry |
| VerificationTimes.GuessedAwayRun | src/auth/auth.service.ts:124-133 | a run in which five wrong guesses remove the record and the next mail is claimed at the same moment |
| VerificationProtocol.OneSenderPerWindow | src/auth/verification-code.service.ts:163-172 | a claimed window has at most one sender |
| VerificationProtocol.ExpiryCountsFromTheFirstWindow | src/auth/verification-code.service.ts:108-117 | a code expires fifteen minutes after its first window however often it is sent |
| VerificationProtocol.ResendingKeepsTheCode | src/auth/verification-code.service.ts:155-161 | sending again never changes the code or its expiry and forgives no wrong guess |
| VerificationProtocol.GuessesAreBounded | src/auth/auth.service.ts:115-139 | a live record has had fewer than five wrong guesses, all counted, and none ever has more than five |
| VerificationProtocol.OneSuccessPerRecord | src/auth/auth.service.ts:85-90 | a record yields at most one success and is gone afterwards |
| VerificationProtocol.ReportedMailWasDelivered | src/auth/verification-code.service.ts:187-194 | a caller that is told the mail was sent is told about the current window, whose mail was delivered |
| VerificationOutcomes.GuessSucceedsIff | src/auth/auth.service.ts:81-139 | in every run a guess succeeds exactly with the right code, less than fifteen minutes after its first window, after fewer than five wrong guesses and when the work it guards succeeds; a record goes exactly when it succeeded, expired or was guessed wrong the fifth time |
| VerificationOutcomes.RequestBegins | src/auth/verification-code.service.ts:93-104 | a record is reused exactly while it is not expired and, where asked for, has the same address |
| VerificationOutcomes.InsertStep | src/auth/verification-code.service.ts:106-125 | a new code is good for fifteen minutes from the request, unless user or address already has one for the purpose |
| VerificationOutcomes.ClaimStep | src/auth/verification-code.service.ts:154-172 | a request may send exactly when no window of its record was claimed in the minute before it began |
| VerificationEffects.GuessEffects | src/auth/auth.service.ts:105-141 | the verdict and what is left of the record, by its fields |
| DiceNotation.ParsePrint | src/dice/dice.service.ts:76-105 | every notation in range is parsed back from its canonical form |
| DiceNotation.PrintParse | src/dice/dice.service.ts:76-105 | the canonical form of accepted notation is accepted with the same meaning; what accepted notation means is `DiceGrammar.ParseIff` |
| DiceGrammar.ParseIff | src/dice/dice.service.ts:76-97 | accepted is exactly spaces, optional digits, spaces, `d` or `D`, spaces, digits, an optional sign with digits, and spaces, within the ranges; an absent quantity is one, an absent modifier zero, and a minus sign subtracts |
| DiceGrammar.OneDie | src/dice/dice.service.ts:80 | `d` and the sides alone is one die, for every number of sides |
| DiceGrammar.ParseNatIsDecimal | src/dice/dice.service.ts:80-82 | digits are read as their positional decimal value |
| DiceGrammar.PrintIsCanonical | src/dice/dice.service.ts:99-104 | the canonical form has the quantity always, a modifier only if there is one, no spaces and no leading zeros |
| DiceScanner.ScanKeepsText | src/dice/dice.service.ts:135-177 | the scan of a line accounts for every character of it |
| DiceRewriting.ContentAlike | src/dice/dice.service.ts:158-160 | rewriting the markers of a line leaves what the scanner looks ahead at unchanged up to case |
| DiceRewriting.ContentRuns | src/dice/dice.service.ts:144-156 | rewriting the markers leaves the longest backtick runs, and with them every code-span decision, unchanged |
| DiceRewriting.ScanContent | src/dice/dice.service.ts:135-177 | scanning a rewritten line makes the same decisions and finds the same pieces in canonical form |
| DiceContent.FenceTokenKept | src/dice/dice.service.ts:117-129 | rewriting the markers of a line never makes it a fence line |
| DiceContent.ParseContentIdempotent | src/dice/dice.service.ts:108-195 | accepted content is accepted again, with the same content and the same nodes |
| DiceContent.NoNodesUnchanged | src/dice/dice.service.ts:190-194 | text without dice is returned as it was |
| DiceParsing.ContentIsWoven | src/dice/dice.service.ts:190-194 | an accepted text is text woven with markers; its content is the same text woven with the serialized nodes in order, and the content without dice is that text alone |
| DiceParsing.ScanText | src/dice/dice.service.ts:132-180 | one line: fails exactly for a malformed marker or a repeated identifier, otherwise yields content, content without dice, nodes and identifiers |
| DiceParsing.ParseContent | src/dice/dice.service.ts:108-195 | the nested loops compute the specified result or error for every text |
| DiceReading.MarkerIff | src/dice/dice.service.ts:158-167 | a marker is read exactly when its prefix, version 4 UUID, notation of 1 to 32 characters and closing brackets are there, with the identifier in lower case |
| DiceReading.SpanIff | src/dice/dice.service.ts:144-156 | a code span reaches exactly to the first later place with as many backticks as its opening run |
| DiceReading.LineIff | src/dice/dice.service.ts:135-177 | a line is accepted exactly when it reads as escapes, code spans, markers and other characters, and as those |
| DiceReading.LinesIff | src/dice/dice.service.ts:117-129 | lines are fenced from an opening line to the first line with at least as many of the same characters; the others are read one by one |
| DiceReading.ContentIff | src/dice/dice.service.ts:108-195 | a text is refused as invalid exactly when it does not read or repeats an identifier, for too many rolls exactly above twenty, and otherwise gives the nodes it reads with |
| Riff.MakeChunk | src/media/media-animation-display-encoder.ts:19-25 | tag, little-endian length, payload and a zero byte after an odd payload |
| Riff.DecodeEncode | src/media/media-animation-display-encoder.ts:19-25 | any sequence of chunks is read back from its bytes |
| Riff.EncodeDecode | src/media/media-animation-display-encoder.ts:35-51 | bytes that read as chunks are the bytes of those chunks |
| Riff.EncodedIsEven | src/media/media-animation-display-encoder.ts:20 | padding makes every sequence of chunks even in length |
| WebpStill.StillFrameChunks | src/media/media-animation-display-encoder.ts:27-54 | terminates in bounds on every input and fails exactly for a malformed file; otherwise yields the image chunks and the transparency flag |
| WebpStill.ExtractedDataParses | src/media/media-animation-display-encoder.ts:46-53 | the extracted data is again the kept chunks in order, exactly one of them the image, and even in length |
| WebpAnimation.ContainerReads | src/media/media-animation-display-encoder.ts:121-136 | the RIFF size is exact and an independent reader of RFC 9649 finds canvas, loop count, transparency and every frame in order |
| WebpEncoder.MakeFrameHeader | src/media/media-animation-display-encoder.ts:106-111 | the frame header written at its offsets |
| WebpEncoder.EncodeFrames | src/media/media-animation-display-encoder.ts:90-119 | the running size is the size of the container so far, and the first failure is the one the specification names |
| WebpEncoder.CollectIff | src/media/media-animation-display-encoder.ts:104-118 | with every still readable and the canvas in range, the limit fails exactly when the whole container would exceed it |
| WebpEncoder.RoundedIsNearest | src/media/media-animation-display-encoder.ts:75-78 | a scaled side is the nearest pixel, with ties rounded either way |
| WebpEncoder.ScaledFits | src/media/media-animation-display-encoder.ts:75-78 | the longest side becomes the edge and no side exceeds it |
| WebpEncoder.DisplayReads | src/media/media-animation-display-encoder.ts:88-136 | an accepted animation never exceeds the limit, its size is the running size, and it reads back as one full frame per still, in order, with its delay and image data |
| WebpEncoder.EncodeDisplayFrames | src/media/media-animation-display-encoder.ts:61-149 | options, pixel limit, timeline, frames and final check in order, and the result |
| WebpOutcomes.LowByteFirst | src/media/media-animation-display-encoder.ts:22 | numbers are read and written with the lowest byte first |
| WebpOutcomes.StillIff | src/media/media-animation-display-encoder.ts:27-54 | a still is read exactly when it is a WebP file with the length it states, exactly one picture chunk and no lossless chunk cut short; its transparency and the chunks it contributes, by their tags |
| WebpOutcomes.RefusedIff | src/media/media-animation-display-encoder.ts:64-86 | options, pixel limit and timeline are refused exactly outside their ranges, in that order |
| WebpOutcomes.SidesAreNearest | src/media/media-animation-display-encoder.ts:75-78 | each side of the result is the nearest pixel to its scaled side, at least one, and unchanged when nothing has to shrink |
| WebpOutcomes.SingleFrame | src/media/media-animation-display-encoder.ts:99-103 | a single frame is passed on as it is up to and including the output limit |
| WebpOutcomes.AnimationIff | src/media/media-animation-display-encoder.ts:104-119 | an animation is written exactly when every still contributes, both sides fit in three bytes and the container stays within the output limit |
| WebpOutcomes.AlphaIff | src/media/media-animation-display-encoder.ts:125-126 | the transparency flag of the canvas is set exactly when some still has transparent pixels |
| WebpOutcomes.AnimationLayout | src/media/media-animation-display-encoder.ts:106-135 | an accepted animation byte by byte, at absolute offsets: the header, and for every still in order a full frame with its size, delay, flags and data |
| InlineCode.StripInlineCode | src/common/markdown-v3-migration.ts:50-83 | the nested loops terminate and compute the specification |
| InlineCode.StripRuns | src/common/markdown-v3-migration.ts:50-83 | the backtick runs that are left are runs of the line and pairwise different in length |
| InlineCode.UnchangedIff | src/common/markdown-v3-migration.ts:64-78 | a line is returned unchanged exactly when no run is followed by one of equal length |
| InlineCode.StripIdempotent | src/common/markdown-v3-migration.ts:50-83 | stripping twice is stripping once |
| InlineCodeReading.StripIff | src/common/markdown-v3-migration.ts:50-83 | the result is exactly the line with every span, from a run to the first later run of its length, replaced by one space, and everything else kept |
| InternalReference.CanonicalHrefParses | src/common/internal-reference.ts:53-136 | every canonical link of the six kinds parses to the reference it was made from |
| InternalReference.NormalisingIsIdempotent | src/common/internal-reference.ts:53-136 | the canonical link of any recognised input is recognised as the same reference |
| InternalReferenceReading.ParseIff | src/common/internal-reference.ts:53-136 | a link is recognised exactly when, trimmed, it has no fragment, is relative or https on the site's host without a port, names no user, and its path and query name a reference of one of the six kinds |
| InternalReferenceReading.AbsoluteOnlyOnSite | src/common/internal-reference.ts:64-66 | an absolute link is recognised only with https on the production host and without a port |
| ReferenceLabels.DecodeEscape | src/common/internal-reference.ts:157-160 | decoding undoes the three-pass escape of every label |
| ReferenceLabels.DecodeInternalReferenceLabel | src/common/internal-reference.ts:138-151 | the loop computes the specified decoding |
| ReferenceLabels.SerializedShowsLabel | src/common/internal-reference.ts:168-205 | a serialized link is shown as its trimmed label, whatever text follows it |
| ReferenceLabels.FormatSerialized | src/common/internal-reference.ts:153-205 | formatting a serialized link gives back the trimmed label |
| ReferencePreviews.SerializeIff | src/common/internal-reference.ts:153-162 | a reference is written exactly for a recognised link and a name that is neither blank nor broken over lines, with every bracket and backslash of the name escaped |
| ReferencePreviews.BareLinkShown | src/common/internal-reference.ts:182-203 | a bare canonical link of any kind that stands apart is shown as the default label, and the text after it is read on |
| ReferencePreviews.PlainKept | src/common/internal-reference.ts:173-204 | a character that can start no candidate stays |
| ReferencePreviews.UnrecognisedKept | src/common/internal-reference.ts:192-195 | a candidate whose link is not recognised stays as it is written |

## Where code and documentation differ

The model follows the code.

- `docs/modules/auth.md:149` allows one claim of a mail every 60 seconds for an address, or a user, and a purpose. Two
  things come closer. The minute is measured between the times at which requests began, so a request that stalls before
  its claim comes closer to the next (`StalledRun`). And the minute is kept by the record, so a request that finds the
  record expired, used or guessed away sends at once (`ExpiredRun`, `GuessedAwayRun`). `AnchorClaimsAreApartIff` gives the
  exact distance with and without a reusable record.
- `docs/modules/admin.md:72` lets a campaign be canceled before it is sent. A cancellation that was read in time can be
  written too late: over a dispatch in progress, which then completes (`CancelCanLose`), or over SENT
  (`CancelAfterSending`). `CancellationHoldsIff` gives the exact condition for the status and for the notifications.

## Left out

- Visibility below the level of a transaction: a `$transaction` and a single `updateMany` are one step each. The branch of
  a refresh for a token revoked between its read and its update inside one transaction does not occur at this level.
- Media: encoders, upload deadlines inside a process, staging objects, still variants, the selection filter of the
  historical backlog by content type, cascade deletion of users. A stored descriptor is taken as readable, so
  `readMediaDisplay` is the identity on it.
- Direct messages: archiving, send and request rates, blocks and deactivated users inside the transactions (a transaction
  they stop has no effect), attachments, stickers and outbox events. `markRead` reads its anchor and updates in two
  statements (src/direct-messages/direct-messages.service.ts:211-229); they are one step here.
- Sessions: password hashing, token signing and hashing (hashes are distinct identifiers), device information, listing.
  The admin login (src/admin/admin-auth.service.ts:97-103) and the checks of the old password
  (src/auth/auth.service.ts:263, 280 and 390) verify the same password without counting failures; `GuessingSlowsDown` and
  `LockHolds` speak of the two forms that count.
- Economy: the number syntax of `parseAmount`, progression and experience, transaction listing. Blocks, visibility and
  deactivation are answers the transaction reads. Locks taken by foreign keys are not part of the lock order.
- Row locks: users locked again by a service after it has locked content (src/mentions/mentions.service.ts:138) are not in
  any program; `InteractionProgram` says which repeated checks stay ordered.
- Campaigns: creation, listing, audit records, the audience filter (the audience is fixed), the text of failure messages.
- Verification codes: sending itself, the random source, and the code paths that delete records for other reasons, which
  appear as deletion at any time. Preparing inside a caller's transaction is a run of the same statements without
  interference.
- Dice: rolling, and the difference between UTF-16 code units and code points, which no decision of the scanner depends
  on. A modifier of minus zero is zero.
- WebP: decoding, resizing and encoding of pixels; the still files and the final inspection are inputs. Tags are compared
  as Node decodes ASCII, with the highest bit of each byte dropped.
- Internal references: the WHATWG URL parser and percent-decoding are parameters, of which only the behaviour on plain
  paths with at most one plain parameter is assumed (`Faithful`). The redaction passes for invitations after the preview
  are not part of this model.
- The rest of the backend: controllers, configuration, caches, logging, and services whose compare-and-set patterns repeat
  the ones above with less to prove (drafts, bookmarks, taxonomy, admin invitations, site settings).
