# Verification model of the replication backend

The backend sits between CouchDB and its clients. It filters the replication traffic by
permissions, keeps its permission configuration in a CouchDB document, audits writes, and
caches logins. This project models that logic in Dafny and proves what the parts keep over
all inputs, all runs and all interleavings.

`dafny verify dfyconfig.toml` checks everything.

## The parts

- **Changes feed** (`ChangeLog`, `ChangesFeed`, `ResponseStream`). `ChangeLog` is CouchDB as a
  reader sees it: a log that lists each document once, at its latest sequence number, with other
  clients writing between requests. Its theorems say when moving a cursor over such a log never
  passes over a change. `ChangesFeed` is the controller: a filter loop over one batch, the request
  loop over batches, and a client session over many requests. `ResponseStream` is the streamed
  response. The ghost trace of the changes taken by the loop is what "classified" means in the
  theorems; the results and lost ids are functions of it.
- **JSON array filter** (`Json`, `JsonText`, `JsonArrayFilter`, `StreamedText`). `Json` has values,
  parser tokens, lexemes, and a reader that recovers a value from its lexemes; `JsonText` goes down
  to characters. `JsonArrayFilter` is the five-mode token machine, first as a step function, then
  as the object whose methods update its fields, and its agreement with "parse the whole object,
  filter one array, print".
- **Permission configuration** (`RulesConfig`, `ConfigText`, `AbilityCache`, `PermissionProtocol`,
  `WriteBackRuns`, `RulesService`). `RulesConfig` has the pure parts: legacy keys, managed defaults,
  rules of a user; `ConfigText` is the JSON text by which two configurations are compared.
  `PermissionProtocol` is a transition system of any number of instances around one stored
  document, in which every asynchronous step of the source is an event of its own. `RulesService`
  has the loops and handlers as methods. Each feed handler, each request of the startup load and
  each wait behind it is one step of the protocol; the write-back loop is a sequence of requests,
  and `WriteBackRuns` shows that these are events of the protocol.
- **Writes and audit** (`Documents`, `BulkDocuments`, `DocumentWrite`, `Audit`). Bulk writes and
  single writes are methods against a database object. `Audit` builds the records and proves that
  replaying them gives back what was written; the three writing methods each keep the log
  explaining the store.
- **Small machines** (`Backoff`, `ChangesListener`, `LoginCache`): retry delays, the backend's own
  feed cursor, and the bounded login cache.

`Wrappers`, `JsObject`, `Sequences` and `DocumentFilter` are shared: optional values, JavaScript
objects as ordered entries (also used for `Map`, which has the same order), and the id filter.

## What turned out false

Each of these has its exact condition, and a lemma at a concrete input.

- **Limit 0.** A `_changes` request with limit 0 moves the cursor behind a permitted change it did
  not deliver. `ChangesFeed.CursorExactIff` says exactly when a batch's cursor is right;
  `ChangesFeed.LimitZeroLosesAChange` is a case. The other theorems about requests take a limit of
  at least 1, or none.
- **Audit records of related ids.** The lookup for earlier records is a prefix query on
  `AuditRecord:<id>:<timestamp>:<rev>`. It confuses an id with one that extends it by a colon, and
  an id with one it extends when it goes on the way that record's timestamp and revision do. The
  first write to an existing entity can be replayed exactly when no record is confused with one of
  its own (`Audit.FirstWriteReplaysIff`, `Audit.RangeExact`). Cases: `A:1:2` hides `A:1`
  (`Audit.LongerIdHidesBaseline`), and `Config:CONFIG_ENTITY` hides its backup of the same instant,
  `Config:CONFIG_ENTITY:<timestamp>` (`Audit.ShorterIdHidesBaseline`). For a whole batch:
  `Audit.BatchReplaysIff`. Creates are not concerned, as they need no baseline.
- **Repeated ids in a bulk request.** The audit entries are derived by id. Whatever the database
  makes of a request, the right documents are reported exactly when no id is repeated
  (`BulkDocuments.ReportsExactlyIff`); for one outcome, exactly when no id is both written and
  refused (`BulkDocuments.ReportedIffWritten`). Case: `BulkDocuments.RepeatedIdMisreported`.
- **If-Match.** A put is taken on the revision the header names and on no other exactly when the
  current version was read and the user may replace the whole document; not on a field-wise update,
  and not when the document is missing or could not be read (`DocumentWrite.IfMatchEnforcedIff`).
  Cases: `DocumentWrite.StaleIfMatchAccepted`.
- **Unreadable documents.** A put whose read failed counts as a create. A user who may not update a
  stored document overwrites it exactly then, with the right to create and the current revision
  (`DocumentWrite.OverwriteWithoutUpdateIff`). Case:
  `DocumentWrite.UnreadableOverwritten`.
- **Removal by a put.** A put whose body is marked as deleted removes the document. The right to
  delete is not asked for, as it is in a bulk write: the right to update decides
  (`DocumentWrite.RemovedByPutIff`), and the audit log gets an update. Case:
  `DocumentWrite.UpdateRemoves`.
- **Record ids in one batch.** A comment promises that the ids of one batch never collide. For
  distinct entities and revisions without a colon they differ exactly when no entry that gets a
  baseline keeps its revision (`Audit.BatchIdsDifferIff`). Case: the stored revision is sent again as
  the first audited write (`Audit.SentAgainCollides`).

Two more conditions that the protocol needs and the source meets, or nearly:

- Requests are served once the load is finished. An earlier one would leave a denial in the ability
  cache that the load does not clear (`PermissionProtocol.EarlyRequestStaleIff`).
- An instance that never handled a permission event agrees with the stored document if its feed was
  connected before the load fetched. If the feed connects later, an edit in between goes unnoticed
  until the next one (`PermissionProtocol.MissedChangeStaleIff` for any system,
  `PermissionProtocol.LateFeedStaleIff` for a run from the start).

The repository's README.md:61-64 says that startup is aborted on 401 or 403. The code retries
every error except 404 until the time budget is used up, and the model follows the code.

## Model

| member | source | states |
|---|---|---|
| ChangeLog.MockAnswers | test/utils/mock-couchdb.ts:207-240 | the mock server's answers are answers in the sense of the model, whose `last_seq` may lie anywhere between the last result and the next unsent change |
| ChangeLog.NothingSkipped | src/restricted-endpoints/replication/changes/changes.controller.ts:283-305 | whatever is written between the visits of a cursor, every document whose latest change is at or before the cursor had that change taken |
| ChangeLog.NothingSkippedLater | src/restricted-endpoints/replication/changes/changes.controller.ts:283-305 | the same at any later time: newer writes all lie behind the cursor |
| ChangeLog.TakenOnce | src/restricted-endpoints/replication/changes/changes.controller.ts:283-305 | sequence numbers rise along the whole trace, so no change is taken twice |
| ChangeLog.FixedLog | src/restricted-endpoints/replication/changes/changes.controller.ts:283-305 | on a log nobody writes to, what was taken and what lies after the cursor make up the whole log, in order |
| ChangesFeed.FilterChanges | src/restricted-endpoints/replication/changes/changes.controller.ts:407-448 | the filter loop computes results, lost ids, cursor and pending of exactly the processed front of a batch |
| ChangesFeed.BatchTells | src/restricted-endpoints/replication/changes/changes.controller.ts:407-464 | of the processed changes of a batch, the results are exactly the replicated ones that are deleted without a document, whose document the user may read, or whose document is a deletion mark with nothing beside id and revision; the lost ids are exactly the other replicated ones with a document |
| ChangesFeed.RequestTells | src/restricted-endpoints/replication/changes/changes.controller.ts:281-308 | the same over everything a whole request has taken, at any limit |
| ChangesFeed.InternalLimitTells | src/restricted-endpoints/replication/changes/changes.controller.ts:379-382 | CouchDB is asked for five times the room left, and never for more than 1000 |
| ChangesFeed.ToJsonTells | test/utils/mock-couchdb.ts:218-232 | what a client finds in an item: position, id, revision, the deletion mark and the document |
| ChangesFeed.CutAtLimit | src/restricted-endpoints/replication/changes/changes.controller.ts:425-431 | a batch is cut short only at a permitted change, and only when the limit is exactly filled |
| ChangesFeed.CursorExactIff | src/restricted-endpoints/replication/changes/changes.controller.ts:414-447 | the cursor of a filtered batch lies exactly behind the changes processed, unless the limit is 0 and the first change is permitted, and only then not |
| ChangesFeed.LimitZeroLosesAChange | src/restricted-endpoints/replication/changes/changes.controller.ts:414-447 | a concrete batch with limit 0 whose permitted change is neither delivered nor left after the cursor |
| ChangesFeed.RoundExact | src/restricted-endpoints/replication/changes/changes.controller.ts:369-448 | for one batch, the taken changes, cursor, results, lost ids and pending fit together, and pending counts the log after the cursor |
| ChangesFeed.ChangesController.StreamPermittedChanges | src/restricted-endpoints/replication/changes/changes.controller.ts:266-324 | the request loop: what is streamed and returned is the outcome of a run of rounds against the database as it was at each fetch, and it stops for no other reason than completion or an outside stop |
| ChangesFeed.ChangesController.Changes | src/restricted-endpoints/replication/changes/changes.controller.ts:230-259 | the body sent is the serialization of the whole response with exactly that outcome |
| ChangesFeed.RequestExact | src/restricted-endpoints/replication/changes/changes.controller.ts:283-305 | results and lost ids are the classification, in order, of everything taken; pending is the number of log entries after the returned cursor; the limit is never exceeded |
| ChangesFeed.RequestSkipsNothing | src/restricted-endpoints/replication/changes/changes.controller.ts:266-308 | under concurrent writes every document whose latest change is at or before the returned cursor had that change classified, and with nothing pending all documents had |
| ChangesFeed.IncompleteRound | src/restricted-endpoints/replication/changes/changes.controller.ts:379-382 | a batch that does not end the request takes at least five log entries |
| ChangesFeed.RoundTripBound | src/restricted-endpoints/replication/changes/changes.controller.ts:283-305 | on a fixed log with r entries left a request makes at most r / 5 + 1 round trips, without any deadline |
| ChangesFeed.SessionTracks | src/restricted-endpoints/replication/changes/changes.controller.ts:281-307 | a session of requests, each resumed from the returned cursor, is one exact run of visits, with results, lost ids and pending to match |
| ChangesFeed.SessionSkipsNothing | src/restricted-endpoints/replication/changes/changes.controller.ts:281-307 | over a whole session with concurrent writes nothing is skipped and nothing taken twice |
| ChangesFeed.SessionExact | src/restricted-endpoints/replication/changes/changes.controller.ts:281-324 | on a fixed log, for any limits of at least 1 and any early stops, the concatenated results are the permitted changes in order exactly once, and likewise the lost ids |
| ResponseStream.EnvelopeText | src/restricted-endpoints/replication/changes/changes.controller.ts:127-155 | opening, items and closing concatenate to the serialization of the whole response |
| ResponseStream.StreamedEqualsBuffered | src/restricted-endpoints/replication/changes/changes.controller.ts:94-155 | for every split into batches, empty ones included, the chunks concatenate to the serialization of the whole response |
| ResponseStream.ClientReads | src/restricted-endpoints/replication/changes/changes.controller.ts:94-155 | a reader of the streamed lexemes recovers the whole response |
| ResponseStream.ChangesResponseStream.WriteResults | src/restricted-endpoints/replication/changes/changes.controller.ts:114-124 | a batch extends what was sent by exactly its items, separators included, and opens the envelope once |
| ResponseStream.ProjectedTells | src/restricted-endpoints/replication/changes/changes.controller.ts:114-121 | an item is sent as it is with `include_docs`, and otherwise without its document and with every other field |
| ResponseStream.ChangesResponseStream.Finish | src/restricted-endpoints/replication/changes/changes.controller.ts:127-138 | after finishing, the text sent is the serialization of the whole response |
| ResponseStream.ChangesResponseStream.Unfinished | src/restricted-endpoints/replication/changes/changes.controller.ts:326-340 | before finishing, the text sent is a strict prefix of every response it could become and never a complete document |
| StreamedText.StreamedTextParses | src/restricted-endpoints/replication/changes/changes.controller.ts:114-155 | the streamed characters parse to the whole response, however the results were split |
| StreamedText.StreamedTextCut | src/restricted-endpoints/replication/changes/changes.controller.ts:326-340 | a changes response cut anywhere does not parse |
| Json.ReadLexemes | src/common/json-array-filter.ts:152-153 | reading the lexemes of any value, with anything behind them, gives the value and the rest |
| Json.ReadSound | src/common/json-array-filter.ts:152-153 | whatever the reader accepts is the serialization of what it returns |
| Json.NoPrefixIsDocument | src/common/json-array-filter.ts:58-61 | no strict prefix of an array's or object's serialization is a complete document |
| Json.DecimalExact | src/restricted-endpoints/replication/changes/changes.controller.ts:133-136 | a count is written as the decimal literal of its value |
| JsonText.LexText | src/common/json-array-filter.ts:134-136 | lexing the text of lexemes gives the lexemes back, escapes and number literals included |
| JsonText.EscapedIsPlain | src/common/json-array-filter.ts:134-136 | the escaped text of any string has no control character and no unescaped quote |
| JsonText.ParseStringify | src/permissions/permission/permission.service.ts:103-103 | parsing the text of a value gives the value back |
| JsonText.TruncatedTextNeverParses | src/common/json-array-filter.ts:58-61 | no strict beginning of an object's or array's text parses, wherever it is cut |
| JsonArrayFilter.ConsumeTokens | src/common/json-array-filter.ts:180-190 | feeding any value's tokens to the assembler stores exactly that value, in any surrounding container |
| JsonArrayFilter.AssembledDistinct | src/common/json-array-filter.ts:180-190 | a value without repeated keys is assembled unchanged |
| JsonArrayFilter.ValueBoundary | src/common/json-array-filter.ts:181-187 | the depth counter is zero after the last token of a value and after no earlier one |
| JsonArrayFilter.RunValue | src/common/json-array-filter.ts:168-192 | the machine consumes a whole value and completes exactly once, with the assembled value |
| JsonArrayFilter.FilterRefines | src/common/json-array-filter.ts:93-200 | for every object, field name and item mapping, the token machine ends in `done` with the serialization of the filtered object |
| JsonArrayFilter.FilterReadsBack | src/common/json-array-filter.ts:93-200 | a reader of the output recovers the filtered object |
| JsonArrayFilter.OthersUnchanged | src/common/json-array-filter.ts:46-50 | same members in the same order; only a top-level array under the field name is replaced, nested arrays of that name and a non-array value under it are not |
| JsonArrayFilter.CompleteOnlyWhenDone | src/common/json-array-filter.ts:83-91 | for every token stream, valid or not, only a run that is `done` has emitted a complete document |
| JsonArrayFilter.TruncatedNeverDone | src/common/json-array-filter.ts:58-61 | after a strict prefix of an object's tokens the machine is not `done` and has emitted no complete document |
| JsonArrayFilter.OnlyOneRoot | src/common/json-array-filter.ts:95-103 | any token after the root, and any root that is not an object, is rejected |
| JsonArrayFilter.RejectedIff | src/common/json-array-filter.ts:93-178 | a token is rejected exactly when it is a root that is no object, neither key nor end within the root, no value where one is due, or after the root |
| JsonArrayFilter.JsonArrayFilterTransform.ProcessToken | src/common/json-array-filter.ts:93-162 | one token updates the fields exactly as the machine's step does, and changes nothing when it is rejected |
| JsonArrayFilter.JsonArrayFilterTransform.ConsumeValueToken | src/common/json-array-filter.ts:168-192 | one value token updates assembler, depth and output exactly as the machine does |
| JsonArrayFilter.Transform | src/common/json-array-filter.ts:74-91 | the whole pipeline succeeds exactly when the machine ends in `done`, and then returns its output |
| StreamedText.FilteredTextParses | src/common/json-array-filter.ts:93-200 | the characters streamed for any object parse to the filtered object |
| StreamedText.FilteredTextCut | src/common/json-array-filter.ts:58-61 | a filtered body cut anywhere, also inside a string or number, does not parse |
| RulesConfig.NormalizeSectionKeys | src/permissions/rules/rules.service.ts:109-123 | the loop over the legacy keys in use computes the normalization |
| RulesConfig.NormalizeGet | src/permissions/rules/rules.service.ts:104-123 | key by key: legacy keys are gone, a current key wins over a legacy one unless absent or null, every other section is unchanged |
| RulesConfig.NormalizeIdempotent | src/permissions/rules/rules.service.ts:109-123 | normalizing twice changes nothing, and a config without legacy keys is left alone |
| RulesConfig.ManagedSetMarked | src/permissions/rules/default-permissions.ts:21-60 | every rule of the managed set carries the marker by which it is recognized |
| RulesConfig.UnmarkedTells | src/permissions/rules/default-permissions.ts:79-83 | the admin's own rules are exactly those without the marker text in their reason, in their order |
| RulesConfig.DroppedTells | src/permissions/rules/default-permissions.ts:84-95 | the rules reported as dropped are exactly those with the marker text that are not managed now |
| RulesConfig.MergeStable | src/permissions/rules/default-permissions.ts:73-98 | merging keeps exactly the unmarked rules, in order, behind the managed ones, and merging again reports no change |
| RulesConfig.WriteBackSafe | src/permissions/rules/rules.service.ts:407-425 | a write-back keeps all other sections and all unmarked rules of the effective default section, and leaves data on which every later attempt is a no-op |
| RulesConfig.WriteBackNoneIff | src/permissions/rules/rules.service.ts:413-425 | nothing is written exactly when there is no `default` key and `_default` is the managed rules followed by rules without the marker |
| RulesConfig.WriteBackTells | src/permissions/rules/rules.service.ts:415-425 | what is written under `_default` is the managed rules and then, in order, the rules without the marker of the default section in effect |
| RulesConfig.NormalizeWriteBack | src/permissions/rules/rules.service.ts:415-425 | normalizing the written-back data equals normalizing the original and replacing its default section by the merge, for every mix of present, absent and null keys |
| RulesConfig.MigrationIsNoChange | src/permissions/rules/rules.service.ts:311-313 | a write-back that only migrates the legacy key leaves the normalized configuration identical, entry for entry |
| RulesConfig.FailClosed | src/permissions/rules/rules.service.ts:71-79 | under the bootstrap config exactly the users holding `admin_app` get any rule; without a config nobody does |
| RulesConfig.BootstrapGrantsAll | src/permissions/rules/rules.service.ts:71-79 | whoever gets rules from the bootstrap config gets `manage all` and nothing else |
| RulesConfig.ReservedRolesGrantNothing | src/permissions/rules/rules.service.ts:475-487 | a role named like a section, or with an underscore in front, adds no rule |
| RulesConfig.OneRoleTells | src/permissions/rules/rules.service.ts:475-487 | one role gives the rules of its section, but none if it is `default`, `public` or begins with an underscore |
| RulesConfig.RolesAddUp | src/permissions/rules/rules.service.ts:475-487 | the rules of several roles are those of each, in the order of the roles |
| RulesConfig.UserRulesDecide | src/permissions/rules/rules.service.ts:470-492 | the rules a user gets decide as the role rules do, and where those do not decide, as the default section does |
| RulesConfig.NoDefaultTells | src/permissions/rules/rules.service.ts:488-492 | without a default section the role rules are all a user gets |
| RulesConfig.PublicTells | src/permissions/rules/rules.service.ts:471-473 | without a user there is the public section and nothing else |
| RulesConfig.InjectAt | src/permissions/rules/rules.service.ts:502-506 | the variables are put into every rule, one by one and in place |
| RulesConfig.ManagedNeverOverride | src/permissions/rules/default-permissions.ts:11-15 | with the last matching rule deciding, the merge never changes a decision another rule already makes |
| RulesConfig.ManagedDecideLast | src/permissions/rules/default-permissions.ts:11-15 | in the rules a user really gets, the managed rules decide only what neither role rules nor the admin's default rules do |
| RulesConfig.DecisionTells | src/permissions/rules/default-permissions.ts:11-15 | the last matching rule decides, an inverted one against |
| AbilityCache.KeysDistinguishUsers | src/permissions/permission/permission.service.ts:99-104 | different identities have different keys, and `anonymous` is no user's key |
| AbilityCache.ServedCoherent | src/permissions/permission/permission.service.ts:72-91 | serving keeps the cache coherent and within 1000 entries, and the answer is the freshly built ability |
| AbilityCache.PermissionService.GetAbilityFor | src/permissions/permission/permission.service.ts:72-91 | on a coherent cache, hit or miss, the answer is the ability built from the current config, whose rules `RulesConfig.UserRulesDecide` describes |
| PermissionProtocol.StepOk | src/permissions/rules/rules.service.ts:239-331 | every step of every instance keeps the invariants of held copies, feed, memory, cache and write-backs |
| PermissionProtocol.WriteBackConverges | src/permissions/rules/rules.service.ts:371-455 | under every interleaving of any number of instances at most one write-back succeeds between two external edits, each safe and leaving nothing to write |
| PermissionProtocol.ConfigAgreement | src/permissions/rules/rules.service.ts:239-331 | the config in memory is unset, bootstrap, or the normalization of a stored one; an instance that has handled every reported change agrees with the document stored now when the last change was applied or a deletion, and when there was none but its feed was connected before the load fetched |
| PermissionProtocol.UpdateArrives | src/permissions/rules/rules.service.ts:239-315 | an instance that hears of a change and can fetch it ends up with the stored config, and has started its write-back |
| PermissionProtocol.DeletionArrives | src/permissions/rules/rules.service.ts:249-255 | one that hears of a deletion falls back to the bootstrap config at once |
| PermissionProtocol.PutArrives | src/permissions/rules/rules.service.ts:429-430 | a write-back that holds the stored version is stored |
| PermissionProtocol.MissedChangeStaleIff | src/permissions/rules/rules.service.ts:133-139 | in any system, an instance that loaded without its feed and is connected behind a change looks caught up, and agrees exactly when its config is what the changed document says |
| PermissionProtocol.LateFeedStaleIff | src/permissions/rules/rules.service.ts:133-139 | the run in which the load fetches, the document is edited and then the feed connects ends caught up on the old config, and agrees only if the edit changes nothing |
| PermissionProtocol.DeletionFailsClosed | src/permissions/rules/rules.service.ts:317-331 | from a processed deletion until the next successful update exactly the users holding `admin_app` get any rule |
| ConfigText.SerializedInjective | src/permissions/rules/rules.service.ts:342-347 | two configs with the same JSON text are the same, section by section and rule by rule |
| PermissionProtocol.CacheAlwaysCoherent | src/permissions/permission/permission.service.ts:56-68 | in every reachable state every cached ability is the one built from the current config, also across updates that skip the clear because the JSON texts match, and the cache holds at most 1000 entries |
| PermissionProtocol.EarlyRequestStaleIff | src/permissions/rules/rules.service.ts:85-92 | a request served before the first load leaves a coherent cache exactly when the loaded config grants that user nothing |
| RulesService.RulesService.ApplyUpdatedPermission | src/permissions/rules/rules.service.ts:298-315 | memory, cache and the started write-backs change as in the protocol's step, and the cache stays coherent |
| RulesService.RulesService.ApplyPermissionDeletion | src/permissions/rules/rules.service.ts:322-331 | memory and cache change as in the protocol's deletion step, and the cache stays coherent |
| RulesService.RulesService.LoadInitialPermissions | src/permissions/rules/rules.service.ts:141-237 | at most nine attempts, each started within the budget; it returns normally exactly when a config is in memory; what it loads never replaces a config the live feed installed; after a valid document its write-back has come to an end |
| RulesService.RulesService.TryLoad | src/permissions/rules/rules.service.ts:152-174 | one request of the load changes the memory as the protocol's load step does |
| RulesService.NineAttempts | src/permissions/rules/rules.service.ts:143-153 | the delays 1, 2, 4, 8 and then 10 seconds sum to 55 seconds before the ninth attempt and 65 after it |
| RulesService.AtMostNine | src/permissions/rules/rules.service.ts:151-151 | for all request durations an attempt that starts within the budget is one of the first nine |
| RulesService.AllNine | src/permissions/rules/rules.service.ts:151-151 | with instant failures all nine attempts start within the budget |
| RulesService.RulesService.EnsureManagedDefaults | src/permissions/rules/rules.service.ts:379-455 | ends with the merge stored directly behind the version it was computed from, at a version that needs none, after three conflicts, or at a failed request; a document that needs no write-back is never written; after a merge or at a valid config that needs none, `_default` begins with the managed rules; its requests take the store to where it is then |
| WriteBackRuns.RequestsRun | src/permissions/rules/rules.service.ts:379-455 | the requests of a write-back, with the changes of others between them, are events of the protocol: same stores, same attempts, same end |
| Backoff.DelayMonotone | src/common/exponential-backoff.ts:38-49 | delays never shrink with the attempt number and never exceed the cap |
| Backoff.DelayDoubles | src/common/exponential-backoff.ts:38-49 | the delay starts at the initial one, doubles with every attempt up to the cap, and stays from the largest exponent on |
| Backoff.JustSaturatedOnce | src/common/exponential-backoff.ts:111-132 | `justSaturated` holds at exactly the first failure that reaches the cap, and at none if the cap is out of reach |
| Backoff.StreakDelays | src/common/exponential-backoff.ts:75-132 | over every run of failures and resets, delays along a streak never decrease or exceed the cap, and no two of its failures are both the saturating one |
| Backoff.ExponentialBackoff.JustSaturated | src/common/exponential-backoff.ts:120-132 | on a failure it is true exactly when the cap is within reach and this failure is the first of the streak to reach it |
| ChangesListener.FeedTracks | src/couchdb/document-changes.service.ts:88-137 | failures never move the cursor: from the first success on, any mix of failed and successful polls is an exact run of visits whose trace is the delivered batches |
| ChangesListener.FeedComplete | src/couchdb/document-changes.service.ts:88-137 | every document changed after the position fixed by the first success has had the event for its latest change up to the cursor, and no event twice |
| ChangesListener.DocumentChangesFeed.RunFeed | src/couchdb/document-changes.service.ts:88-137 | for any run of polls the cursor is that of the last success, the events are exactly the successful batches in order, and the failure count is that of the current streak |
| Sequences.FilterSelects | src/restricted-endpoints/replication/bulk-document/bulk-document.service.ts:162-173 | the posted docs are a subsequence of the submitted ones: exactly those to keep, in order, each position once |
| BulkDocuments.FetchedPermits | src/restricted-endpoints/replication/bulk-document/bulk-document.service.ts:204-218 | deciding on the fetched documents is deciding on the stored version when one exists and on the submitted one otherwise |
| BulkDocuments.BulkDocumentService.FetchExistingDocs | src/restricted-endpoints/replication/bulk-document/bulk-document.service.ts:130-154 | for every id in the request the map holds the stored document, or nothing when there is none |
| BulkDocuments.BulkDocumentService.FilterDocs | src/restricted-endpoints/replication/bulk-document/bulk-document.service.ts:156-189 | the loop keeps exactly the permitted docs and passes `new_edits` on |
| BulkDocuments.BulkDocumentService.IndexBulkResponse | src/audit/audit.service.ts:212-223 | an id is in the error set exactly when some result refuses it, and maps to the revision last reported for it |
| BulkDocuments.BulkDocumentService.BuildBulkEntries | src/audit/audit.service.ts:197-256 | the derived entries are those the response reports as written, in order |
| BulkDocuments.ReportedIffWritten | src/audit/audit.service.ts:225-240 | under both response shapes the docs reported as written are those written, exactly when no id is both written and refused |
| BulkDocuments.ReportsExactlyIff | src/audit/audit.service.ts:225-240 | whatever the database makes of the docs, the docs reported as written are those written, exactly for the requests without a repeated id |
| BulkDocuments.RepeatedIdMisreported | src/audit/audit.service.ts:225-240 | a request naming `A:1` twice: one response shape reports the refused doc, the other does not report the written one |
| BulkDocuments.BulkEntriesExact | src/audit/audit.service.ts:170-256 | with distinct ids the entries are exactly the writes that happened, each with its operation, before-state and revision, under both response shapes |
| BulkDocuments.OperationsTell | src/audit/audit.service.ts:242-249 | an entry is a delete exactly when its id is not stored afterwards, a create when it was not and is, an update when it was and is; and a delete exactly when the body is marked as deleted; its audit entry is an update |
| BulkDocuments.BulkWriteExact | src/restricted-endpoints/replication/bulk-document/bulk-document.service.ts:97-115 | the same end to end, for the permitted part of any request with distinct ids |
| BulkDocuments.BulkIsLinear | src/restricted-endpoints/replication/bulk-document/bulk-document.service.ts:97-115 | a bulk write of distinct docs is a linear batch of the entries of its auditable docs: they start from the stored documents and the store afterwards holds what they wrote |
| BulkDocuments.BulkExplains | src/restricted-endpoints/replication/bulk-document/bulk-document.service.ts:97-115 | for a request with distinct ids the grown log goes on explaining the store, and replays to every auditable doc just written |
| BulkDocuments.BulkDocumentService.HandleBulkDocs | src/restricted-endpoints/replication/bulk-document/bulk-document.service.ts:97-115 | the permitted docs and no others reach the database, its response is passed on, and the audit log grows by the records of what it reports; with distinct ids it goes on explaining the store and replays to what was written |
| DocumentWrite.OnlyPermittedFieldsChange | src/restricted-endpoints/document/document-write.service.ts:148-169 | a field-wise update takes the permitted submitted fields and leaves every other field as stored |
| DocumentWrite.IfMatchEnforcedIff | src/restricted-endpoints/document/document-write.service.ts:43-98 | whatever is submitted, a put is taken on the If-Match revision and on no other, exactly when the current version was read and the whole document is replaced |
| DocumentWrite.StaleIfMatchAccepted | src/restricted-endpoints/document/document-write.service.ts:43-98 | two concrete puts under a stale If-Match that are taken: a field-wise one, and one whose current version could not be read |
| DocumentWrite.OverwriteWithoutUpdateIff | src/restricted-endpoints/document/document-write.service.ts:43-88 | a user who may not update a stored document can overwrite it exactly when the read failed, creating is allowed and the body carries the current revision |
| DocumentWrite.UnreadableOverwritten | src/restricted-endpoints/document/document-write.service.ts:43-75 | a concrete put after a failed read: the user may create but not update, and the stored document is replaced |
| DocumentWrite.RemovedByPutIff | src/restricted-endpoints/document/document-write.service.ts:78-98 | a put removes a document that was read exactly when the user may update it, the database takes the body, and the body is marked as deleted; its audit entry is an update |
| DocumentWrite.UpdateRemoves | src/restricted-endpoints/document/document-write.service.ts:78-98 | a concrete put by a user who may update but not delete, which removes the document; the same body would not be posted in a bulk request |
| DocumentWrite.DocumentWriteService.ApplyPermissions | src/restricted-endpoints/document/document-write.service.ts:153-169 | the final document is the old object, changed in place, or the new object |
| DocumentWrite.DocumentWriteService.PutDocument | src/restricted-endpoints/document/document-write.service.ts:34-112 | when a put succeeds and what it stores; a refused put changes neither store nor log; the log goes on explaining the store and replays to what was written, whether or not the current version was read |
| DocumentWrite.DocumentWriteService.UpdateDocument | src/restricted-endpoints/document/document-write.service.ts:78-111 | the audited before-state is the stored document although the fetched object was changed in place |
| DocumentWrite.DocumentWriteService.DeleteDocument | src/restricted-endpoints/document/document-write.service.ts:114-146 | when a delete succeeds, what it removes and what it records; a refused one changes nothing; the log goes on explaining the store |
| DocumentWrite.PutIsOneWrite | src/restricted-endpoints/document/document-write.service.ts:34-112 | a put, whichever way it merges and whether or not the current version was read, changes its own document only and reports the stored version or none |
| DocumentWrite.OneWriteExplains | src/audit/audit.service.ts:127-157 | one audited write keeps the log explaining the store, and replays |
| DocumentWrite.DeleteIsOneWrite | src/restricted-endpoints/document/document-write.service.ts:114-146 | a delete removes its own document only and reports the stored version |
| Audit.PatchDiff | src/audit/audit.service.ts:337-341 | patching a document with a diff gives the diff's target, also from no document at all |
| Audit.CleanTells | src/audit/audit.service.ts:30-35 | cleaning drops `_rev`, `_revisions`, `_conflicts` and `_attachments` and keeps every other field |
| Audit.DiffTells | src/audit/audit.service.ts:337-341 | a diff names exactly the fields that differ, with their values before and after |
| Audit.RangeExact | src/audit/audit.service.ts:281-290 | a record is in an entity's key range exactly when it is the entity's, or that of an id extending it by a colon, or that of an id it extends while going on like the record's timestamp and revision |
| Audit.LookupExact | src/audit/audit.service.ts:277-296 | the lookup answers "first" exactly when there is neither a record of the entity nor one it confuses with the entity's |
| Audit.FirstWriteReplaysIff | src/audit/audit.service.ts:258-296 | on every log, the first write to an entity that already existed replays exactly when the lookup answers "first", that is, when no record is confused with one of the entity's |
| Audit.LongerIdHidesBaseline | src/audit/audit.service.ts:277-296 | with one record of `A:1:2`, the first update of an existing `A:1` does not replay |
| Audit.ShorterIdHidesBaseline | src/audit/audit.service.ts:277-296 | with one record of `Config:CONFIG_ENTITY`, the first update of its backup named by the same instant does not replay |
| Audit.SeparateIds | src/audit/audit.service.ts:277-296 | among ids of which none extends another by a colon the lookup is always right |
| Audit.ReplayEntry | src/audit/audit.service.ts:135-153 | after one entry's records the entity replays to the document the entry recorded as written |
| Audit.ReplayBatch | src/audit/audit.service.ts:127-157 | after a batch every entry's entity replays to the document that entry recorded, although baselines are decided on the log before the batch |
| Audit.BatchExplains | src/audit/audit.service.ts:127-157 | a linear batch keeps every live audited entity replaying to its stored document, and everything it wrote replays |
| Audit.BatchReplaysIff | src/audit/audit.service.ts:127-157 | everything a linear batch wrote replays exactly when, for each entry with a before-state, the entity has a record or the lookup answers "first" |
| Audit.HistoryExplains | src/audit/audit.service.ts:127-157 | over every such history, every live audited entity replays to its stored document |
| Audit.AuditReplay | src/audit/audit.service.ts:127-157 | with auditing switched on over any existing store and linear writes from then on, whose replaced documents the lookup is right about, every entity replays right after each write to the cleaned document its entry recorded as written |
| Audit.AuditReplayFields | src/audit/audit.service.ts:127-157 | the same field by field: every field but CouchDB's own four is replayed with the value that was written |
| Audit.DefaultAuditService.EnsureDb | src/audit/audit.service.ts:382-388 | an audit database is created at most once and never emptied |
| Audit.DefaultAuditService.Record | src/audit/audit.service.ts:101-168 | an audit database is never audited; otherwise the batch's records are appended to the one log and no other changes |
| Audit.RecordsTell | src/audit/audit.service.ts:298-343 | every record names entity, database, user and time; a baseline has the whole document under its own revision, the other record the operation, the new revision and the difference |
| Audit.RelevantTells | src/audit/audit.service.ts:111-125 | recorded are exactly the entries whose id is there and neither a design document's nor a local one's, in order |
| Audit.RecordIdTells | src/audit/audit-record.dto.ts:102-110 | the id of a record, spelled out |
| Audit.AuditDbTells | src/audit/audit.config.ts:22-38 | every database has an audit database of its own, and exactly those are recognized as audit databases |
| Audit.BatchIdsDifferIff | src/audit/audit-record.dto.ts:102-110 | for distinct entities and revisions without a colon, the record ids of one batch differ exactly when no entry that gets a baseline keeps its revision |
| Audit.SentAgainCollides | src/audit/audit-record.dto.ts:102-110 | the stored revision sent again as the first audited write: its baseline and its record have one id |
| LoginCache.KeysDistinguishCredentials | src/auth/guards/basic-auth/basic-auth.strategy.ts:84-91 | without a colon in the username a key belongs to one pair of credentials |
| LoginCache.RunBounded | src/auth/guards/basic-auth/basic-auth.strategy.ts:34-82 | over every run of overlapping requests there are never more than 1000 entries |
| LoginCache.LiveStays | src/auth/guards/basic-auth/basic-auth.strategy.ts:60-74 | nothing live is evicted while dropping expired entries makes enough room |
| LoginCache.SurvivorsAreLatest | src/auth/guards/basic-auth/basic-auth.strategy.ts:75-81 | otherwise exactly one place is made, and whatever live entry was inserted after a survivor survives |
| LoginCache.CachedAnswer | src/auth/guards/basic-auth/basic-auth.strategy.ts:34-58 | a cached answer is the user of the latest successful login with the same credentials, cached less than 60 seconds ago |
| LoginCache.CalmCacheExact | src/auth/guards/basic-auth/basic-auth.strategy.ts:34-82 | while fewer than 1000 logins are unexpired, the cache answers if and only if such a login exists |
| LoginCache.BasicAuthStrategy.LookUp | src/auth/guards/basic-auth/basic-auth.strategy.ts:34-43 | the step before the wait: the live cached user, or none with the expired entry dropped |
| LoginCache.BasicAuthStrategy.CacheLogin | src/auth/guards/basic-auth/basic-auth.strategy.ts:50-54 | the step after a successful login: make room, then set the entry |
| LoginCache.BasicAuthStrategy.EvictIfNeeded | src/auth/guards/basic-auth/basic-auth.strategy.ts:65-82 | the two eviction loops leave the live entries, or the latest 999 of them |

## Left out

- HTTP, sockets, compression, backpressure, client disconnects and the abort of a failed stream: a response is an appended text, and a stop from outside is the number of rounds after which the loop ends.
- Wall-clock time in the changes feed: the deadline is that same outside stop. The startup load and the login cache take times as inputs.
- Sequence numbers are natural numbers; real CouchDB sequence strings are opaque. CouchDB serves limit 0 as 1, and so does the model; the mock server would return nothing.
- CASL: an ability is a predicate on documents, or the list of rules it is built from with the last match deciding; conditions, and the injection of user variables, are abstract functions.
- jsondiffpatch: diffs are per top-level field, without its nested deltas and array handling.
- The stream-json tokenizer: the filter starts from tokens. Number literals stay as they are written; JavaScript would reformat them, and would move integer-like keys to the front of an object and treat `__proto__` specially.
- Changes with a falsy but defined `doc`, and sections of a configuration that are falsy without being null.
- Sections of a configuration that are neither an array, a rule, null nor text, arrays with anything but rules in them, and the order of the keys within a rule: a rule has one JSON text. A public or default section that is no array gives an error; what CASL makes of it is not part of this model.
- `parentRev` of audit records, and the trimming of the user: they do not take part in the replay.
- Failed audit posts and failed lookups of earlier records: they are swallowed by the source, and the replay theorems are about successful ones. The upper end of the audit key range is a prefix test. The audit log takes every record, also one with an id it has.
- Write-backs that overlap within one instance: the methods have the one awaited by the load and a list of those started by the feed; their interleavings are runs of the protocol.
- Replay in `_id` order: records of one batch have equal timestamps and would sort by revision text, so the theorems replay in posting order.
- Concurrent writes between the fetch and the write of one bulk or single write: the batch is then not linear, and the audited before-state is not the one replaced.
- DocumentWrite.DocumentWriteService.PutDocument: does not model a put over a deletion's revision, because deleted documents are not kept in the store.
- BulkDocuments.BulkDocumentService.HandleBulkDocs: with `new_edits: false` a written document becomes the stored one, because a linear history has no conflicting branches.
- The attachments database, where permissions are checked on the owning entity: one more branch with the same checks.
- `_bulk_get`, `_all_docs` and `_find` filters: item mappings for the array filter, whose theorem holds for every mapping.
- `UserIdentityService`, guards, cookies, JWT, Keycloak, design documents, session and admin endpoints: thin wrappers or one-branch logic.
- The maps of feeds and subscriptions per database: the model has the feed of one database.
- Retries of the feed's on-demand fetch, and the delayed clearing of local documents: a fetch either succeeds or is given up.
- Logging everywhere.
