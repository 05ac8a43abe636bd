# Bubbles: a verified model

Bubbles is a native iMessage client. This project models the parts of it that carry state over time
or invert a format, and proves what those parts are for:

* **Cloud sync.** A zone of CloudKit records is a change log served in pages. A walk over it keeps a
  cursor on disk, applies tombstones and live records to the message store, restarts once when its
  token has expired, and is interrupted anywhere. `Zone`, `MessageStore`, `CloudRecords` and
  `Conversations` are the data; `Convergence`, `SyncMachine`, `SyncConvergence`, `PagedReplay`,
  `PageSources` and `PageRewind` say what interrupted walks end with, `SyncExpiry` what an expired
  token or a torn cursor file costs, `SyncForecast` the same before the walk, `SyncOutcome` what is in
  the store afterwards in terms of the records' contents; `MessageWalk`, `MessageSync`, `ChatWalk`, `SyncState` and `SyncRun` are the loops that do it, tied
  step by step to the machines; `ChatDisk` is about the chat cache and its token on disk over
  launches and crashes, `TokenIsolation` about whose tokens are sent over launches, account switches
  and crashes.
* **Receiving.** `BufferedConn` is the lock-protected buffer between the push connection and its
  subscribers, `ReceiveLoop` the whole way of a message to the store. Both are interleavings of atomic
  steps.
* **Registration.** `CertificateHeal` is the recovery from a superseded certificate with any number of
  callers, `RetryGuard` the limit on immediate retries.
* **Pictures.** `Exif` and `Jpeg` read orientation and size from arbitrary bytes, `JpegBytes` says what
  they find byte by byte, `Orientation` turns and cuts pixel buffers.
* **Aggregation and text.** `LivePhotos`, `Tapbacks`, `Markup`, `VCards`. `Text` and `Options` are
  shared.

Code that updates variables is a method with the loops the program has; each method is proved against
a function or a machine, and the lemmas are about those. The environment (server answers, failed writes,
writes that break off, crashes, other callers, map iteration order) is an arbitrary choice wherever the program does not
decide. Three numbers run through the sync modules: a position in the log (what an opaque token
stands for), the page limit of 5000 requests, and status 3 for the end of the zone.

What turned out not to hold as one would like, each with its exact condition:

* Replaying a page is not always harmless. A tombstone whose record name maps to one guid and is itself
  the guid of another stored message deletes that message on replay (`Convergence.TombstoneReplayIff`),
  and a reaction carried in the same stretch as its target's tombstone stays or goes with the page
  boundary (`Convergence.TombstoneCommutesIff`). Hence `Convergence.Independent`: required of the whole
  log when pages may be cut anywhere, and only within each page when they are cut at fixed places
  (told from log and first store alone in `PageSources`). Each of its parts is needed
  (`Convergence.InsertsCommuteIff`, `Convergence.TombstonesCommuteIff`). Replaying several pages over a
  store that is past them can bring a deleted reaction back (`Convergence.LateReplayIff`;
  `PageRewind.RewoundReactionStays` is a whole history of it).
* When the token of an incremental walk expires, or a write of the cursor breaks off, the rescan stores the window only, and what changed
  outside it since the saved position and was not stored yet is lost for good
  (`SyncExpiry.ExpiryLosesRecord`). Told before the walk: no history can lose anything exactly when
  every storable record after the saved position that is dated before the window is in the store as it
  is (`SyncForecast.LosesNothingIff`, `SyncForecast.MeetsSpecIff`). Told of one history: it lost
  nothing exactly when every record it was to store was committed or would have changed nothing
  (`SyncExpiry.NothingLostIff`, `SyncExpiry.OneShotIff`, and by dates and positions
  `SyncExpiry.MissingStaysIff`).
* When the chat walk fails, the message walk still persists the chat token, and the cache on disk falls
  behind it (`ChatDisk.SkippedStretchIff`, `ChatDisk.ResetTokenIff`, `ChatDisk.FailedWalkLosesChat`).
  The same follows a write of the cache that fails or breaks off (`ChatDisk.TornCacheLosesChat`), and
  a walk that restarted, stopped at the page limit and crashed before the cursor was written
  (`ChatDisk.RestartCutOffIff`, `ChatDisk.PageLimitLosesChat`). Over whole histories the files lead to the zone exactly while each
  skipped stretch is harmless (`ChatDisk.SoundIffSettled`).
* Two unknown groups can share a key, although the comment at `src/sync.rs:197-198` says they never
  merge. Without semicolons in ids and handles they do exactly when each message names someone who is
  called like the other group's label, and otherwise the same people
  (`Conversations.UnknownGroupsKeptApart`, `Conversations.ImitationCollision`); with semicolons exactly
  when labels and people cut at the semicolons give the same pieces
  (`Conversations.UnknownGroupPiecesIff`, `Conversations.SemicolonCollision`). A sender or destination that the record does not list splits a
  recorded conversation (`Conversations.RecordedConversationKeyIff`).
* The bounds check of `crop_rgba` adds 32-bit numbers. Where a sum overflows and overflow is not
  checked, a rectangle outside the picture can pass (`Orientation.CropRgba`, `Orientation.CropSlips`).
* A buffer of size zero keeps one message and counts one drop too many, exactly when a message came in
  before anyone subscribed (`BufferedConn.StreamIsWhatCameLast`). The comment in
  `src/api/buffered_conn.rs:31-33` calls the subscribe closure one-shot; the code, and the model, let
  it be called again.
* A watcher that subscribes before the receive loop takes the backlog, and no drop is reported
  (`ReceiveLoop.AttachMissesWhatWasSent`).
* A recovery given up between minting and loading loses the certificate
  (`CertificateHeal.NewestLoadedUnlessLost`).
* The code swaps orientations 5 and 7 relative to the Orientation field of TIFF 6.0 (section 8), whose
  meaning the comment at `src/image.rs:325-337` claims. It turns a picture as the standard says exactly
  for the other orientations and for pictures that are their own half turn
  (`Orientation.StandardTurnIff`, `Orientation.StandardMissed`).
* An account switch that dies between its two writes leaves the other account's chat cache beside a
  reset token, which does no harm exactly when the zone mentions every record in it
  (`ChatDisk.ResetTokenIff`).
* `unfold_vcard` takes all white space after a fold away, not one character as in section 2.6 of RFC
  2426 (`VCards.RecoveredIff`), and is idempotent exactly when no unfolded line before the last ends in
  a carriage return (`VCards.UnfoldTwiceIff`).

## Model

| member | source | states |
|---|---|---|
| Text.CharactersSpelled | src/sync.rs:119-144 | which characters are lowercased, which are digits and which are white space, one by one |
| Text.TrimIff | src/sync.rs:120-120 | trimming cuts white space off both ends and nothing else |
| Text.LexLessIff | src/store/model.rs:20-23 | the order members are sorted in, by the first character in which they differ |
| Conversations.NormalizeHandleIdempotent | src/sync.rs:119-144 | a normalised handle is its own normal form |
| Conversations.PhoneIsItsDigits | src/sync.rs:124-143 | a phone number's normal form depends on its digits and a leading plus alone; ten digits without a plus get the country code |
| Conversations.MailIsItsAddress | src/sync.rs:124-131 | a mail address gets the scheme and lower case, whether or not it has the scheme already, in any case |
| Conversations.NoHandleIff | src/sync.rs:120-130 | only a blank handle or a bare mail scheme has no normal form; surrounding space makes no difference |
| Conversations.ParseChatIdIff | src/sync.rs:147-156 | a chat id parses to three parts exactly when it is those parts joined, the first two without semicolons and the last not empty |
| Conversations.KeyEqualIffSameMembers | src/store/model.rs:19-30 | for non-empty participants without a semicolon, keys are equal exactly when the lowercased member sets are |
| Conversations.KeyIgnoresOrderAndCase | src/store/model.rs:19-30 | the same member set gives the same key, for any participants |
| Conversations.GroupIff | src/store/model.rs:32-35 | a conversation is a group exactly when it has three or more members |
| Conversations.MembersOfChatRef | src/sync.rs:171-221 | who a cloud message's conversation consists of |
| Conversations.MembersOfRecordedChat | src/sync.rs:181-219 | a recorded conversation's members are exactly the lowercased normal forms of the listed participants, the handle last addressed from, the destination and the sender, or the service's bucket if there is none |
| Conversations.MembersOfUnrecordedChat | src/sync.rs:192-219 | without a record: of the other party or the group's label, the destination and the sender, or the bucket |
| Conversations.NameOfChat | src/sync.rs:191-191 | the display name is the record's, unless it is empty |
| Conversations.DirectConversationKey | src/sync.rs:192-210 | an unrecorded one-to-one message gets the push path's key, whether it is incoming or our own |
| Conversations.RecordedPushKey | src/sync.rs:181-219 | a message of a recorded conversation between listed people gets the push path's key for that member set |
| Conversations.RecordedConversationKey | src/sync.rs:181-210 | two messages of a recorded conversation get one key if they name the same people outside the record, none in particular |
| Conversations.RecordedConversationKeyIff | src/sync.rs:181-210 | for well-formed members they get one key exactly then: another stranger as sender or destination splits the conversation |
| Conversations.UnknownGroupKeyIff | src/sync.rs:192-210 | without semicolons, messages of two unknown groups share a key exactly when label, handle and sender make up one set |
| Conversations.UnknownGroupsKeptApart | src/sync.rs:192-210 | with ids that differ beyond letter case, they do exactly when each message names someone called like the other's label, and otherwise the same people |
| Conversations.KeyEqualIffSamePieces | src/store/model.rs:19-30 | for any participants, keys are equal exactly when the sorted members, cut at every semicolon, are |
| Conversations.UnknownGroupPiecesIff | src/sync.rs:192-210 | whatever the semicolons, two unknown groups share a key exactly when label, handle and sender give the same pieces |
| Conversations.SemicolonGroupsCollide | src/sync.rs:147-156 | with a semicolon in an id two different groups get one key |
| Conversations.GroupIdExists | src/sync.rs:147-156 | every non-empty identifier, semicolons included, is some chat id's |
| Conversations.CollidingMember | src/sync.rs:119-144 | a member that sorts behind the label, in its own letter case and in lower case |
| Conversations.SemicolonCollision | src/sync.rs:147-210 | the group "a" with that member and the group "a;zz" get one key |
| Conversations.ImitatedLabelsCollide | src/sync.rs:192-210 | two unknown groups get one key when a member of each is called like the other's label |
| Conversations.ImitationCollision | src/sync.rs:119-210 | so the groups "a" and "b" do, with such members |
| MessageStore.Store.ApplyIngest | src/store/mod.rs:634-753 | one transaction changes the rows and the record table as the specification says |
| MessageStore.InsertIdempotent | src/store/mod.rs:332-366 | storing the same guid twice is storing it once |
| MessageStore.StoredAgain | src/store/mod.rs:353-366 | a guid stored again keeps sender, date, service, effect and target; its text, its subject and its conversation move only as said |
| MessageStore.DeletedIff | src/store/mod.rs:702-753 | exactly which rows and names a tombstone takes |
| MessageStore.PlaceholderIff | src/store/mod.rs:521-537 | the key of well-formed members is a placeholder exactly when there is a single one, or one with an unknown label or a bare address |
| MessageStore.UnknownGroupIsPlaceholder | src/store/mod.rs:521-528 | so is the key of a group without a record, whose messages therefore move once it is known |
| CloudRecords.EffectCarriesGuid | src/sync.rs:261-306 | a record is stored exactly when it is translatable and its conversation wanted, under its own guid |
| CloudRecords.StoredIff | src/sync.rs:57-97 | a record is stored exactly when it has a text or is a reaction with one of the twelve codes, and the existing conversations are not given or contain its key |
| CloudRecords.EffectIsRecord | src/sync.rs:37-93 | conversation, sender, direction, date, text, subject, service, effect and target of what is stored are the record's |
| CloudRecords.DatesCount | src/sync.rs:22-24 | dates count nanoseconds from the first of January 2001, cut to milliseconds toward zero |
| Convergence.ReflectsUnique | src/sync.rs:2544-2630 | what was committed determines the store |
| Convergence.InsertExtends | src/store/mod.rs:332-366 | committing a live record, again or for the first time, adds its effect and nothing else |
| Convergence.LinkExtends | src/sync.rs:297-304 | committing the record name adds that entry only |
| Convergence.DeleteExtends | src/store/mod.rs:702-753 | committing a tombstone, again or for the first time, removes its message and reactions and nothing else |
| Convergence.SkipExtends | src/sync.rs:262-293 | a filtered or untranslatable record has no effect |
| Convergence.TombstoneReplayIff | src/store/mod.rs:702-753 | exactly when committing a tombstone twice equals committing it once |
| Convergence.TombstoneReplayLosesMessage | src/store/mod.rs:702-753 | a store on which a replayed tombstone deletes a second message |
| Convergence.TombstoneCommutesIff | src/store/mod.rs:702-753 | exactly when a new row and a tombstone commute |
| Convergence.InsertsCommuteIff | src/store/mod.rs:332-366 | exactly when two records with one new guid may be stored in either order |
| Convergence.TombstonesCommuteIff | src/store/mod.rs:702-753 | exactly when the tombstones of a message and of a reaction to it may be applied in either order: no row reacts to the reaction |
| Convergence.LateReplayIff | src/store/mod.rs:702-753 | exactly when a new row and a later tombstone may be replayed together over the result: the row does not react to the deleted message |
| Zone.Fetch | src/sync.rs:2544-2562 | a page continues from the token it was asked for, ends anywhere, and says so exactly at the end of the log; expiry and failure come at any time |
| Zone.NetConcat | src/sync.rs:2552-2575 | the net change of two stretches is the later over the earlier |
| SyncMachine.DueGrows | src/sync.rs:2564-2575 | moving the cursor forward adds exactly the records of the stretch passed, wherever it is cut |
| SyncConvergence.PathKeeps | src/sync.rs:2532-2633 | in every world of every history, expiries of any token included, the store reflects exactly the transactions committed, these are within what was read or rescanned, and the persisted cursor covers only records that are in the store |
| SyncConvergence.CompletedWalkCommitted | src/sync.rs:2544-2630 | a completed history committed all that its first course was to store up to the furthest stored page, and all of that course or all of a rescan; nothing beyond what it read on the first course and the rescan |
| SyncConvergence.CompletedWalkMeetsSpec | src/sync.rs:2544-2630 | without expiry, and for a scan from the beginning even with it, a completed walk leaves the prior store without the tombstoned messages and with exactly the wanted live records of the window, whatever the page cuts and interruptions |
| SyncConvergence.InterruptionsDoNotMatter | src/sync.rs:2532-2633 | two histories with different crashes, failures and page cuts, and for a scan from the beginning different expiries, end with one store and one position |
| SyncConvergence.CompleteScanIsAtTheEnd | src/sync.rs:2609-2621 | when an initial scan, picked up anywhere and expired at any time, is saved as complete, the saved position is the end of the zone |
| SyncConvergence.RunContinues | src/protocol/rustpush_backend.rs:1872-1874 | a run that starts from what a history left on disk continues that history |
| SyncOutcome.CompletedWalkInWords | src/sync.rs:2522-2630 | after a completed walk a guid is in the store exactly when a wanted, translatable record of the course brought it, or it was there and neither it nor its target was tombstoned |
| SyncOutcome.BroughtIsStored | src/sync.rs:2571-2600 | a record brought is in the store, if new with its own conversation, sender, date, text and target |
| SyncOutcome.NewWasBrought | src/sync.rs:2571-2600 | what is new in the store was brought by such a record |
| SyncOutcome.BuriedIsGone | src/sync.rs:2580-2586 | a tombstoned message and the reactions to it are gone |
| SyncOutcome.GoneWasBuried | src/sync.rs:2580-2586 | what is gone was tombstoned or reacted to what was |
| SyncExpiry.StayIff | src/sync.rs:2544-2630 | records that would change nothing may be counted as committed or not |
| SyncExpiry.NothingLostIff | src/sync.rs:2547-2556 | with expiries from any start, a completed history has all it was to store exactly when each such record was committed or would have changed nothing |
| SyncExpiry.OneShotIff | src/sync.rs:2547-2556 | if the window up to the saved position was in the store, the history meets the one-shot specification exactly then |
| SyncExpiry.MissingStaysIff | src/sync.rs:2571-2575 | by dates and positions: if every storable record dated before the window after the last page stored before the expiry is in the store as it is, and only if every one after the last page read is; exactly then if the two pages are one |
| SyncExpiry.ExpiryLosesRecord | src/sync.rs:2547-2575 | a history with one expiry that completes without a message it was to store |
| SyncExpiry.LosingZoneExists | src/sync.rs:2547-2575 | a concrete zone, window and cursor for it |
| SyncForecast.LosesNothingIff | src/sync.rs:2532-2633 | for an incremental walk, told from log, saved position and store alone: every completed history, whatever expires or breaks off, has all it was to store, exactly when every storable record after the saved position dated before the window is in the store as it is |
| SyncForecast.MeetsSpecIff | src/sync.rs:2532-2633 | from a store with the window up to the saved position, every completed history meets the one-shot specification exactly then |
| SyncForecast.RescanHistory | src/sync.rs:2547-2556 | a history that commits the rescan and nothing else: the token has expired at once |
| SyncForecast.InitialScanLosesNothing | src/sync.rs:2522-2525 | a completed initial scan has all it was to store, whatever expired or broke off |
| PagedReplay.PageByPageUnique | src/sync.rs:2544-2630 | taking each page once gives one result |
| PagedReplay.InterruptedPagesMeetSpec | src/sync.rs:2532-2633 | on any log, with fixed cuts, no expiry, and no run that ends with its file behind its cursor, an interrupted history ends with the store that taking each page once gives |
| PagedReplay.InterruptionsDoNotMatterOnAnyLog | src/sync.rs:2532-2633 | on any log, two such histories end with one store |
| PageSources.PagesApartAreIndependent | src/sync.rs:2544-2630 | a condition on the log and the first store alone that makes every page independent on the store the pages before it leave |
| PageRewind.RewoundReactionStays | src/sync.rs:2580-2623 | a history over independent pages that ends a run with its file behind and reaches the end of the zone with a reaction that taking each page once does not leave |
| PageRewind.RewindingZoneExists | src/sync.rs:2580-2623 | a concrete zone for it |
| SyncState.Disk.WriteCursor | src/sync.rs:2409-2415 | the cursor file is the new one, the old one if writing failed, or reads as empty if it broke off |
| SyncState.Disk.WriteChats | src/sync.rs:2430-2436 | the cache file is the new one, the old one if writing failed, or reads as empty if it broke off |
| MessageWalk.PageConserved | src/sync.rs:2564-2603 | every record of a page is counted once |
| MessageWalk.RecordsConserved | src/sync.rs:2563-2603 | stored, filtered, skipped, deleted and ignored records add up to the records read, over any answers |
| MessageWalk.ScannedSinceReset | src/sync.rs:2603-2603 | the scan counter grows by exactly the records read since the last reset |
| MessageWalk.ScanTotalRecorded | src/sync.rs:2608-2618 | the recorded total is the counter at the moment the scan completes, and otherwise stays |
| MessageWalk.CommitRecord | src/sync.rs:294-304 | the two transactions of a stored record are two steps of the machine |
| MessageWalk.ProcessSyncPage | src/sync.rs:249-317 | the live records of a page are each committed or passed over; the counts are those of the translatable records whose conversation is wanted and of those whose is not |
| MessageSync.SplitPage | src/sync.rs:2566-2579 | a page is split into tombstones, records to look at and records outside the window |
| MessageSync.ApplyTombstones | src/sync.rs:2580-2586 | every tombstone is committed once, before any live record |
| MessageSync.StorePage | src/sync.rs:2564-2600 | the whole page is committed along a path of the machine |
| MessageSync.RestartWalk | src/sync.rs:2547-2556 | an expiry resets token, completeness and counter and persists that before the next request |
| MessageSync.TakePage | src/sync.rs:2563-2622 | one page moves cursor, counters, store and disk as one stretch of the machine |
| MessageSync.PersistPage | src/sync.rs:2603-2622 | the cursor moves past the page and is then written, once |
| MessageSync.MoveCursor | src/sync.rs:2603-2621 | the cursor after a page |
| MessageSync.AskOnce | src/sync.rs:2543-2630 | one request: a page, one restart, or the end of the run |
| MessageSync.WalkPages | src/sync.rs:2543-2630 | the loop ends at the end of the zone, at an error or after 5000 requests, and each is told apart |
| MessageSync.SyncMessagesWithCursor | src/sync.rs:2532-2633 | the walk is a path of the machine from the saved cursor to the saved cursor; cursor and counters follow the answers; requests are chained by tokens |
| ChatWalk.MergeStretches | src/sync.rs:2491-2501 | merging two stretches one after the other is merging both |
| ChatWalk.MergePage | src/sync.rs:2491-2501 | a page overwrites its records and removes its tombstones, in any order |
| ChatWalk.SyncChatsWithCursor | src/sync.rs:2468-2509 | on every exit the cache is the saved one moved on, or after a restart the replay of the zone, up to the token |
| ChatDisk.WalkReplays | src/sync.rs:2468-2509 | so a cache that was the replay of the zone up to its token is so again on every exit |
| ChatDisk.WalkConverges | src/sync.rs:2468-2509 | and one that leads to the zone still does |
| ChatDisk.WalkKeeps | src/sync.rs:2491-2503 | a pair of cache and token that leads to the zone still does after a page |
| ChatDisk.CacheAheadOfToken | src/protocol/rustpush_backend.rs:1880-1887 | a cache written ahead of its token still leads to the zone: replaying the stretch changes nothing |
| ChatDisk.GrowthKeeps | src/sync.rs:2473-2478 | a pair that leads to the zone still does when the zone has grown |
| ChatDisk.SkippedStretchIff | src/protocol/rustpush_backend.rs:1893-1896 | exactly when a token persisted without its cache does no harm |
| ChatDisk.ResetTokenIff | src/sync.rs:2369-2386 | exactly when a token reset without its cache does no harm |
| ChatDisk.FailedWalkLosesChat | src/protocol/rustpush_backend.rs:1893-1896 | a whole history with a failed chat walk after which a conversation never reaches the cache |
| ChatDisk.TornCacheLosesChat | src/sync.rs:2430-2436 | a whole history in which the cache write breaks off and the token stays |
| ChatDisk.TokenBehindCache | src/protocol/rustpush_backend.rs:1880-1887 | a token anywhere behind its cache leads to the zone, whatever lies between |
| ChatDisk.SettledIff | src/protocol/rustpush_backend.rs:1880-1896 | exactly when the pair on disk leads to the zone, by the stretch between the cache's position and the token |
| ChatDisk.StepSoundIff | src/protocol/rustpush_backend.rs:1872-1979 | each step of a launch, failed writes and errors included, keeps the pairs good exactly when that stretch stays harmless |
| ChatDisk.SoundIffSettled | src/protocol/rustpush_backend.rs:1872-1979 | over any history of launches, expiries, errors, page limits, writes, failed writes and crashes the files always lead to the zone exactly when the stretch always is harmless |
| ChatDisk.LaunchesConverge | src/protocol/rustpush_backend.rs:1872-1892 | they do in every history in which the token on disk never passes the cache on disk, and a walk at the end then has the zone in memory |
| ChatDisk.RestartCutOffIff | src/sync.rs:2476-2507 | exactly when a restart ended by the page limit and then cut off between the writes does no harm |
| ChatDisk.PageLimitLosesChat | src/sync.rs:2476-2507 | a history in which it loses a conversation |
| ChatDisk.ChatPartIsPath | src/protocol/rustpush_backend.rs:1880-1897 | what the account check, the walk and the two writes did, any write of which may have failed or broken off, is a path of the launch machine |
| ChatDisk.LaunchIsPath | src/protocol/rustpush_backend.rs:1872-1979 | and so is the whole launch, with the cursor written again by the message walk |
| TokenIsolation.LoadedIsTagged | src/sync.rs:2369-2398 | after the account check the cursor holds this account's tokens only |
| TokenIsolation.SentTokensOwn | src/sync.rs:2544-2562 | every token a walk sends is the account's own |
| TokenIsolation.CutOffIsFaithful | src/protocol/rustpush_backend.rs:1872-1985 | a launch that crashed after some requests and some writes keeps to the same rules |
| TokenIsolation.FilesStayIsolated | src/sync.rs:2369-2398 | over any launches, whichever write was the last to succeed, the file never holds another account's token under its tag |
| TokenIsolation.TokensStayIsolated | src/sync.rs:2359-2398 | over any launches, account switches, expiries, failed writes and crashes, every token sent in either zone is none, the persisted one of the same account, or the one returned with the page before |
| SyncRun.EnsureCursorAccount | src/sync.rs:2369-2398 | a cursor of another account is reset, an untagged one claimed, the cursor file written before the cache file |
| SyncRun.DiskTokensOwn | src/sync.rs:2554-2623 | in every world of a message walk's path the token on disk is the account's own |
| SyncRun.ChatMapKeyParses | src/sync.rs:403-417 | a chat record is found under a chat id that parses back to its service, kind and identifier |
| SyncRun.ChatMapKeysIff | src/sync.rs:403-417 | a chat record is found under exactly its record name, its guid and its compound identifier, as far as it has them |
| SyncRun.ChatLookupMap | src/sync.rs:2440-2448 | the lookup map has exactly the identifiers of the cached chats, each leading to one of its chats |
| SyncRun.SyncChats | src/protocol/rustpush_backend.rs:1880-1897 | success writes the cache and then the cursor, an error writes neither; either way the cache in memory agrees with the token in memory |
| SyncRun.SyncOwnChats | src/protocol/rustpush_backend.rs:1872-1897 | account check and chat zone together: requests chained from the loaded token, every file written tagged with the account |
| SyncRun.SyncMessages | src/protocol/rustpush_backend.rs:1970-1985 | the message walk is a path of the machine from cursor, store and file as they were to store and file as they are, and every file it writes is the account's |
| SyncRun.SyncMissedMessages | src/protocol/rustpush_backend.rs:1872-1985 | a whole sync is a launch as `TokenIsolation` has them, its message part a path of the message machine and its chat part a path of the launch machine, from the files and store found to those left; at most 5000 requests a zone |
| SyncRun.SyncContinues | src/protocol/rustpush_backend.rs:1872-1985 | a sync carries on the history of store and cursor file that the syncs before it left, so the results on histories hold of any number of syncs of one zone and scope |
| BufferedConn.Forwarder.OnReceive | src/api/buffered_conn.rs:63-79 | the forwarder's step under the lock |
| BufferedConn.Forwarder.OnSend | src/api/buffered_conn.rs:64-66 | the send after the lock is released |
| BufferedConn.Forwarder.OnLag | src/api/buffered_conn.rs:82-87 | a lagging source is counted |
| BufferedConn.Forwarder.OnAttach | src/api/buffered_conn.rs:94-94 | a receiver sees what is sent after it was created |
| BufferedConn.Forwarder.OnLock | src/api/buffered_conn.rs:95-97 | the first subscriber to take the lock marks the state as subscribed and has the buffer to empty |
| BufferedConn.Forwarder.OnDrain | src/api/buffered_conn.rs:98-100 | one turn of the loop: the oldest buffered message goes to the output |
| BufferedConn.Forwarder.OnUnlock | src/api/buffered_conn.rs:101-102 | the lock is let go once the buffer is empty |
| BufferedConn.StreamIsWhatCameLast | src/api/buffered_conn.rs:38-107 | in every interleaving output, message in flight and buffer are the received messages minus the oldest few; the counter is those plus the source's lag, one more exactly for a zero buffer that held something |
| BufferedConn.FirstSubscriberGetsTheStream | src/api/buffered_conn.rs:93-104 | a receiver created before the drain gets all of that |
| BufferedConn.DrainFitsTheOutput | src/api/buffered_conn.rs:94-100 | all the while the buffer is emptied, output and buffer together are what was buffered, whoever subscribes meanwhile, and no receiver has more waiting than the output holds |
| BufferedConn.SubscribedLosesNothing | src/api/buffered_conn.rs:63-66 | from the first subscription on, also while the buffer is emptied, only source lag is ever counted |
| BufferedConn.LateSubscriberGetsTheRest | src/api/buffered_conn.rs:94-102 | a receiver created later, be it in the middle of emptying, gets what is in flight or still buffered and everything after |
| ReceiveLoop.Receiver.Attach | src/protocol/rustpush_backend.rs:1126-1127 | the loop's receiver starts at the end of the output |
| ReceiveLoop.Receiver.Report | src/protocol/rustpush_backend.rs:1128-1141 | the drops not yet reported are reported and remembered |
| ReceiveLoop.Receiver.Turn | src/protocol/rustpush_backend.rs:777-796 | one turn processes the next message in the output, or on a lag skips to the oldest one still there and tells how many, or on a closed channel gives the receiver up |
| ReceiveLoop.TurnIsStep | src/protocol/rustpush_backend.rs:777-796 | such a turn is the one step of the machine that can be taken then |
| ReceiveLoop.EveryMessageIsAccountedFor | src/protocol/rustpush_backend.rs:759-797 | in every interleaving processed, queued, in flight, buffered and unread messages are in publication order without repeats, and with skipped, dropped and missed ones add up to those published |
| ReceiveLoop.LoopKeeps | src/protocol/rustpush_backend.rs:792-794 | a wake kick, a report and a turn of the loop leave the order of messages as it is |
| ReceiveLoop.AllProcessed | src/protocol/rustpush_backend.rs:759-797 | with nothing lost and nothing queued, exactly the published messages were processed, in order |
| ReceiveLoop.NothingMissed | src/protocol/rustpush_backend.rs:774-790 | nothing is sent past the loop unless someone else subscribes or the channel closes |
| ReceiveLoop.AttachMissesWhatWasSent | src/protocol/rustpush_backend.rs:903-912 | a loop that attaches late misses exactly what was sent before, untold |
| ReceiveLoop.DrainDoesNotLag | src/api/buffered_conn.rs:94-102 | at no moment while the loop empties the buffer does it lag |
| ReceiveLoop.ReportsTelescope | src/protocol/rustpush_backend.rs:1119-1143 | the drops reported on subscribing add up to the counter at the last subscription |
| CertificateHeal.Registration.RefreshIdentity | src/protocol/rustpush_backend.rs:486-508 | a new certificate, or none minted |
| CertificateHeal.Registration.UpdateUsers | third_party/rustpush/src/ids/identity_manager.rs:497-503 | the certificate is loaded even when the re-register after it fails |
| CertificateHeal.Registration.HealWithNewCertificate | src/protocol/rustpush_backend.rs:544-573 | on every exit a minted certificate is the loaded one |
| CertificateHeal.Registration.Heal | src/protocol/rustpush_backend.rs:520-574 | its answers are one of the recoveries written out; it mints at most once, nothing when healthy; Ok only when healthy; an error only after everything was tried |
| CertificateHeal.RecoveryIff | src/protocol/rustpush_backend.rs:520-574 | the recoveries that come to an end are exactly those written out: healthy at once, healthy after a plain re-register, or decided by a new certificate in every other case |
| CertificateHeal.FailureTriedEverything | src/protocol/rustpush_backend.rs:540-571 | a failed recovery asked for a certificate; if it came and registered, both later checks and the second re-register were made |
| CertificateHeal.NewestLoadedUnlessLost | src/protocol/rustpush_backend.rs:520-574 | with any callers, whenever the lock is free the newest certificate is loaded, exactly unless one was given up before loading |
| CertificateHeal.OkMeansHealthy | src/protocol/rustpush_backend.rs:524-571 | in every run, a caller finished with Ok exactly when its last answer was a healthy check, and then the registration was healthy |
| CertificateHeal.HealthyQueueMintsNothing | src/protocol/rustpush_backend.rs:521-527 | while the registration stays healthy queued callers all get Ok and mint nothing |
| CertificateHeal.RecoveryEnds | src/protocol/rustpush_backend.rs:520-574 | a recovery takes at most ten answers and mints at most once |
| RetryGuard.WrappingHidesNothing | src/protocol/rustpush_backend.rs:3212-3227 | the error 6005 of a lookup, an authentication or a registration is recognised under any layers, and nothing else is |
| RetryGuard.Unwrap | src/protocol/rustpush_backend.rs:3212-3227 | every error is a core under some layers |
| RetryGuard.StatusFrom | src/protocol/rustpush_backend.rs:657-686 | a rejected certificate is reported as such whatever the resource plans; another failure with the resource's own wait, or as logged out if there is none |
| RetryGuard.Launch6005RetryGuard.Evaluate | src/protocol/rustpush_backend.rs:3173-3202 | allows a retry exactly when the history of sightings does |
| RetryGuard.AllowedIff | src/protocol/rustpush_backend.rs:3173-3202 | a retry is allowed exactly for a rejection at least a cooldown after every retry since the last success, whatever the clock does |
| RetryGuard.RetryRate | src/protocol/rustpush_backend.rs:3163-3203 | at most one retry per success, one per cooldown, and one more |
| Exif.NumberInverse | src/image.rs:170-191 | reading a number inverts writing it, in both byte orders |
| Exif.ParseTiffOrientation | src/image.rs:158-257 | the scan computes the specification, within bounds, on any bytes |
| Exif.TiffOrientationIff | src/image.rs:158-257 | an orientation is found exactly when the first entry with the tag is one SHORT from 1 to 8 |
| Exif.OrientationInBytes | src/image.rs:158-257 | an orientation is found exactly when the bytes state one, low byte first after "II", high byte first after "MM" |
| Exif.PrintedTiffIsRead | src/image.rs:158-257 | a printed block with any entries before the orientation reads back its value if valid, in both byte orders |
| Jpeg.ReadExifOrientation | src/image.rs:101-152 | the walk over the segments computes the specification, within bounds, on any bytes |
| Jpeg.OrientationIff | src/image.rs:101-152 | an orientation is returned exactly for files that print as passable segments and an Exif segment whose block states it |
| JpegBytes.OrientationIffBytes | src/image.rs:101-152 | an orientation is returned exactly for files that start FF D8 and whose segments lead, over those passed over, to an Exif block that states it |
| Jpeg.PrintedOrientationIsRead | src/image.rs:101-257 | any printed file reads back its orientation |
| Jpeg.ReadImageDimensions | src/image.rs:263-321 | the size reader computes the specification, within bounds, on any bytes |
| Jpeg.DimensionsIff | src/image.rs:276-321 | a size is returned exactly for JPEG files that print as passable segments and a frame segment with that size |
| JpegBytes.DimensionsIffBytes | src/image.rs:263-321 | a size is returned exactly for PNG files whose header says it and JPEG files whose segments lead to a frame header that does |
| Orientation.ApplyOrientation | src/image.rs:338-472 | every pixel of the flat buffer lands in its place |
| Orientation.TurnedTwice | src/image.rs:338-472 | turning twice is turning once by the product |
| Orientation.Laws | src/image.rs:338-472 | the products form a group of eight: 2, 3, 4, 5 and 7 are their own inverses, 6 and 8 each other's, 6 twice is 3, 6 then 4 is 5, 8 then 4 is 7 |
| Orientation.TurnedOneWay | src/image.rs:338-472 | the pixels' places determine the buffer |
| Orientation.TurningBackRestores | src/image.rs:338-472 | every orientation is undone by its inverse, so pixels are permuted |
| Orientation.StandardIsInCode | src/image.rs:324-337 | turning as the standard says is turning as the code does by the number with 5 and 7 exchanged |
| Orientation.StandardTurnIff | src/image.rs:324-472 | the code turns a picture as the standard says exactly for orientations other than 5 and 7 and for pictures that are their own half turn |
| Orientation.StandardMissed | src/image.rs:394-411 | two different pixels that orientation 5 puts in the wrong order |
| Orientation.CropRgba | src/image.rs:532-562 | for any 32-bit numbers: a rectangle that fits is cut out; any other is an error, exactly unless a sum overflows into the picture, and then the result is given too |
| Orientation.CropSlips | src/image.rs:542-546 | rectangles for which that happens |
| Orientation.CropCommutes | src/image.rs:532-562 | cutting then turning is turning then cutting the rectangle's image |
| LivePhotos.FileNameIff | src/store/model.rs:290-297 | the file name is the last component that is neither empty nor the current directory, unless that is the parent directory |
| LivePhotos.StemIff | src/store/model.rs:290-297 | the stem is what stands before the last dot, if that is not the first character |
| LivePhotos.PairingKeyIff | src/store/model.rs:290-297 | a file's key is its pairing id, or without one the stem of its name |
| LivePhotos.FitIff | src/store/model.rs:311-321 | two files fit exactly when one is flagged, their keys agree but for letter case, and one is a picture and the other a video |
| LivePhotos.GroupAttachments | src/store/model.rs:303-340 | the loop computes the grouping |
| LivePhotos.GroupsExplained | src/store/model.rs:290-340 | every attachment is in one group, groups stand in the order of their first, pairs are a picture and a video that fit, the later file takes the earliest free partner, and no two left alone fit |
| Tapbacks.LiveTapbacks | src/store/model.rs:418-461 | the live reactions are the keys whose last event is an add, once each, with its author, in any order |
| Tapbacks.LiveIff | src/store/model.rs:418-461 | live by position: an add with no later event about its key |
| Tapbacks.CodesSpelled | src/store/model.rs:427-443 | the codes 2000 to 2005 make the reaction of that number live, 3000 to 3005 end it, and each leaves every other reaction alone |
| Tapbacks.GroupTapbacksByTarget | src/store/model.rs:476-509 | one summary per message and reaction, ascending, counting distinct senders |
| Tapbacks.CountsLiveSenders | src/store/model.rs:418-509 | composed, each count is the number of senders with a live reaction to any part |
| Tapbacks.OneSummary | src/store/model.rs:495-509 | for one list of live reactions there is one right summary |
| Tapbacks.OneSummaryOfEvents | src/store/model.rs:418-509 | the events determine the summary, whatever order either map is walked in |
| Markup.EscapeIsPerCharacter | src/ui/text_format.rs:86-98 | the replacements one after the other are one substitution per character |
| Markup.EscapesSpelled | src/ui/text_format.rs:86-98 | which characters are escaped, and how |
| Markup.LinkSpelled | src/ui/text_format.rs:34-38 | how a link is written |
| Markup.TextToMarkup | src/ui/text_format.rs:23-46 | the loop computes the markup of the text with those links |
| Markup.MarkupInverts | src/ui/text_format.rs:23-46 | parsing the markup gives the text back, and links whose reference is what they show |
| Markup.TextWithoutPreviewUrl | src/ui/text_format.rs:50-74 | exactly the characters outside the represented links remain, in order |
| Markup.SameLinkIff | src/ui/text_format.rs:76-84 | two links are one exactly when they are the same but for space around them, or one has the https scheme before the other's www |
| Markup.TakenIff | src/ui/text_format.rs:50-74 | a place of the text is removed exactly when it lies in a link that is one with the preview's own or the one it came from |
| VCards.UnfoldVcard | src/contacts_eds.rs:344-373 | the loop computes the logical lines, joined |
| VCards.LogicalLinesAreClean | src/contacts_eds.rs:344-373 | every line that comes out is non-empty and starts with neither space nor tab |
| VCards.UnfoldTwiceIff | src/contacts_eds.rs:344-373 | exactly when unfolding twice is unfolding once |
| VCards.UnfoldIdempotent | src/contacts_eds.rs:344-373 | on text without carriage returns it always is |
| VCards.UnfoldRecovers | src/contacts_eds.rs:344-373 | any folded lines come back, but for white space after each cut and lines that come out empty |
| VCards.StripSpelled | src/contacts_eds.rs:348-348 | a line loses one carriage return at its end and no more |
| VCards.RecoveredIff | src/contacts_eds.rs:344-373 | a line comes back unchanged exactly when no cut stands before white space |

## Left out

- SyncConvergence.InterruptionsDoNotMatter: asks for a log in which each record occurs once and nothing interferes, because pages may be cut differently after every interruption; PagedReplay.InterruptionsDoNotMatterOnAnyLog lifts that for fixed cuts.
- SyncConvergence.CompletedWalkMeetsSpec: asks that no token of an incremental walk expired, because the walk then misses its specification; SyncForecast says exactly for which starts.
- PagedReplay.InterruptedPagesMeetSpec: does not model expiry, nor a run that ends after a failed cursor write no later one made good, because several pages are then replayed over a store that is already past them; Convergence.LateReplayIff and PageRewind.RewoundReactionStays show what that can do.
- PagedReplay.InterruptionsDoNotMatterOnAnyLog: has the same limits.
- TokenIsolation.TokensStayIsolated: takes an untagged file to be the signed-in account's, as the program does.
- ChatDisk.LaunchesConverge: asks that the token on disk is never past the cache on disk, because the program does not ensure it; ChatDisk.SoundIffSettled is about all histories.
- SyncRun.EnsureCursorAccount: does not promise that the cache on disk belongs to the account after a crash between the two writes, because the program writes the cursor first.
- BufferedConn.StreamIsWhatCameLast: does not model the wrap-around of the 64-bit drop counter.
- The message zone, the window, the chat map and the set of wanted conversations are the same in all runs of one history; ChatDisk.GrowthKeeps covers a growing chat zone.
- Errors of the store's database, which the sync logs and passes over.
- Chats, handles, read state, attachments, link previews and last-message dates in the store.
- Letter case and digits beyond ASCII; white space is exact.
- Fetching and decrypting pages, Apple login, key exchange: answers of the environment. Minting a certificate is one step that happens or does not.
- The backoff of subscribe_with_reconnect: the subscribe closure it retries never fails.
- The texts of errors and statuses, and all logging.
- sync_once and fetch_cloud_chats, which the sync no longer uses.
- scan_pending, configuration and timestamp files, power and retry helpers: one branch each.
- The regular expression that finds links: a list of ascending, disjoint, non-empty ranges.
- Decoding, scaling and masking of pictures, the user interface, contacts search.
