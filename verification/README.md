# Verification of the data platform's stateful code

A Dafny model of the parts of the platform that keep state, move data or transform text, with
proofs of what they promise. `dafny verify dfyconfig.toml` checks all of it. The platform's own
code was read, not executed.

| module | models |
|---|---|
| `Events`, `EventStream` | the event hub of the portal (history, subscriber queues, failure poller) and its server-sent event stream |
| `TokenMint` | the double-checked minting of the Power BI token |
| `SearchCache`, `CacheEviction` | the search cache with its time to live and bulk eviction |
| `Recents` | the table of recently opened items |
| `Signature` | the decoder of webhook signatures |
| `GrantParser`, `Phrases`, `GrantRules`, `Grants`, `Bridge` | events parsed to grants, and which are; webhooks, replays and restarts against Keycloak; the handlers as programs |
| `Constraints`, `Ingest` | the table checks of the CSV job, and the ingest jobs as a multi-step move without a transaction |
| `Enrich`, `Patches`, `Annotations` | metadata to tags, JSON Patch documents, and what an enriched table carries |
| `OpaSync`, `Governance`, `SecondRun`, `RunOutcome` | the OPA purposes, the whole chain, the chain run again, and what a run leaves behind |
| `QuoteScanner` | the comment cutter and quote swapper that turn a TypeScript literal into JSON |
| `LinkRewriter`, `LinkTargets` | path normalising and link rewriting of the documentation |
| `Chunker`, `ChunkWindows` | the overlapping chunker of the documentation index |
| `MarkdownBlocks` | the block loop of the Markdown printer |
| `StreamRouting`, `Medallion` | file paths to streams to tables; micro-batches to bronze, latest-wins silver, the gold funnel |
| `RowPacker` | keep/delete and the row layout of the dashboard clean-up |
| `Common`, `Text`, `Subsequence` | shared helpers |

How the model is built:

- Where requests, tasks or job runs interleave, the model is a state machine: `Step` is what one
  of them does between two points where another can come in, `Run` folds any sequence of steps,
  and the results hold after every `Run`. A step that is not possible leaves the state alone, so
  "every sequence of steps" includes every schedule. Bookkeeping fields (what was published,
  accepted, uploaded) are only read by the statements.
- Loops and objects that the source changes in place are methods and classes, each proved against
  a function or a state machine whose properties are then proved as lemmas. `EventHub`,
  `SearchCache`, `RecentsTable`, `PowerBi`, `AccessBridge`, `Lakehouse`, `Bronze` and
  `SilverTable` are the objects.
- The functions that only compute (`GrantParser.ParseGrant`, `Patches.BuildOps`,
  `LinkRewriter.Rewrite`, `Chunker.Chunks`, `TokenMint.Step`, `Grants.Step`, `Ingest.Step`,
  `EventStream.Step`, `OpaSync.Scan`, ...) follow the branches of the source; the table below
  names the lemma or method that says what they achieve.

## Where the code does not do what it seems to

Each of these is stated exactly, with the condition under which the code does meet the promise.

- The event stream is ordered and free of duplicates, but not lossless: what is published between
  the history snapshot and the subscription, while the replay is being sent, never reaches that
  client (`EventStream.LosslessIff`, `EventStream.GapLosesAnEvent`).
- The token margin is 60 seconds; the docstring says five minutes
  (`TokenMint.ServedWithinFiveMinutes`, `TokenMint.ServedLifetimesAreExactly`).
- A missing date, or a text that is no date, is reported as new. A date that is another JSON value,
  a number say, raises: it stops the poll, and that failure is never reported. So every fetched
  failure is reported if and only if each such run comes after a run of the same key
  (`EventStream.EveryFailureIsReported`, `EventStream.OneBadDate`,
  `EventStream.BrokenDateIsNeverReported`).
- Timestamps of recents have one-second ties; among them even the row just written can be pruned
  (`Recents.SurvivesIff`).
- `base64.urlsafe_b64decode` of Python 3.11 has no `validate` parameter, so the second decoder
  raises a TypeError that is not caught: URL-safe digests with '-' or '_' are never decoded
  (`Signature.UrlSafeRoundTrip`). The parameter `urlSafeTakesKeyword` stands for a library that
  has it; the fallback order is then right for every digest.
- A replay compares the path with the flat task id only, so the event of an approval is never
  replayed as it is; it must be edited first, and a refused replay has forgotten the id
  (`GrantParser.ApprovalIsNeverReplayed`, `GrantParser.FlatApprovalIsReplayedIff`,
  `GrantParser.EntityApprovalIsReplayedIff`, `Grants.DuplicateAnswerIff`).
- The bridge joins the texts of a thread before it looks for "request access", so the end of one
  and the start of the next can make a request together (`GrantRules.TwoTextsMakeARequest`).
- The bridge splits table names at dots inside quotes too, unlike the OPA sync
  (`Governance.RoleNamesTheSchemaIff`), and refuses names with a line break that the request
  endpoint accepts (`GrantParser.ApprovedRequestIsGranted`).
- An upload onto a key that a live run is working on is lost, at every stage of the run and also
  when runs of the job itself are serial; otherwise it is safe (`Ingest.UploadIsSafeIff`). A run
  is live until it ends, unless another one registered the table after it looked for it.
- Two data products of one name in the mapping are both appended (`Patches.ProductsStayDistinctIff`).
- The FQN scanner drops an empty last segment (`OpaSync.ScannerInvertsPrinter`).
- A double-quoted literal that ends in an escaped backslash turns the state of the quote swapper
  over (`QuoteScanner.SwapsExactlyTheSinglesIff`).
- The quote swapper doubles backslashes, so a literal keeps its meaning exactly when it has no
  escapes (`QuoteScanner.LiteralKeepsItsMeaningIff`).
- Links starting with `docs/` lose one such start per pass, and a pass more is needed when a
  branch takes the rest (`LinkRewriter.RewriteSettlesIff`, `LinkRewriter.DocsLinksSettleLater`).
- The prefix to the security page is right exactly for page directories without `.`, `..` or
  empty segments (`LinkRewriter.SecurityLinkResolvesIff`).
- A stream shares its bronze table with another one unless it has three names, the last two
  without an underscore (`StreamRouting.StreamOwnsItsTableIff`).
- The enricher does not quote names, so a model whose table is there is found exactly when none of
  its names holds a dot (`Governance.DottedModelsAreMissed`).
- The OPA sync drops the quotes of names, so the glob of a schema is also that of another one
  exactly when its catalog or schema name holds a dot, and each of the two then allows the
  purposes of the other (`OpaSync.GlobOwnsItsSchemaIff`, `OpaSync.SchemasMayShareAGlob`).
- When the last line of a document fills its window, the chunker adds a chunk that only repeats the
  end of the one before (`ChunkWindows.FullLineIsRepeated`).
- A blank line does not end a code fence that was left open
  (`MarkdownBlocks.BlankLineSeparatesIff`).
- The dashboard layout pairs ids with names by position after absent names were skipped
  (`RowPacker.BlocksAreAlignedIff`), and a chart listed twice is kept and deleted
  (`RowPacker.KeptIsDeletedIff`).
- A task id that comes back with another grant is answered as a duplicate, and the grant is held
  only if something else gave it (`Grants.DuplicateIsGrantedIff`).

## Model

| member | source | states |
|---|---|---|
| Events.RunKeyTellsApart | portal/scripts/portal-backend.py:666-669 | the key under which a failure is reported once tells two runs apart when DAG ids hold no slash, whatever the run ids hold |
| Events.AgoReads | portal/scripts/portal-backend.py:611-627 | the age of a failure is the number of full minutes, hours or days in the largest unit that fits, and "nu" under a minute or without a date that parses |
| Events.EventHub.PublishEvent | portal/scripts/portal-backend.py:598-608 | a publish appends to the history, which drops its oldest event at 50, and reaches every subscriber queue of fewer than 20, in whatever order the set of subscribers is walked |
| Events.EventHub.PollAirflowFailures | portal/scripts/portal-backend.py:630-682 | one poll, at any time, publishes the fetched runs whose key is new and stops at the first one whose date is a value that is no text; missing dates and texts that do not parse do not stop it |
| EventStream.HubStaysBounded | portal/scripts/portal-backend.py:587-608 | in every schedule no run is published twice, the history is exactly the last 50 published events, no queue exceeds 20, and exactly the subscribed and connected clients have one |
| EventStream.ReportedExactlyThePolled | portal/scripts/portal-backend.py:630-682 | published, under one event each, are exactly the failures a poll reached for the first time before a date that raises stopped it |
| EventStream.EventsTellOfRuns | portal/scripts/portal-backend.py:666-680 | every published event carries the DAG id and the run id of a fetched run, and both as its key |
| EventStream.EveryFailureIsReported | portal/scripts/portal-backend.py:630-682 | only fetched failures are published, and all of them are if and only if every fetched run whose date raises comes after a run of the same key |
| EventStream.OneBadDate | portal/scripts/portal-backend.py:611-682 | a poll over a date that does not parse, a number and a good date publishes the first only; the next poll publishes the last, and the one with the number is lost |
| EventStream.BrokenDateIsNeverReported | portal/scripts/portal-backend.py:665-682 | the failure a poll broke off at counts as seen and no later poll reports it |
| EventStream.StreamInPublishOrder | portal/scripts/portal-backend.py:703-726 | what a client received followed by its queue is strictly increasing in publish order, so nothing comes twice |
| EventStream.SnapshotIsTheHistory | portal/scripts/portal-backend.py:703-712 | a new client has the whole history, the last 50 events, in front of it, in order; what it misses is counted from there |
| EventStream.LosslessIff | portal/scripts/portal-backend.py:703-726 | an open stream is complete from its snapshot on if and only if nothing was published between snapshot and subscription and nothing met a full queue; the number of missing events is exact |
| EventStream.GapLosesAnEvent | portal/scripts/portal-backend.py:703-715 | a schedule, for any two failures, in which the second is published while a client is still being replayed the first, and never reaches it |
| EventStream.PollIsTheHubsPoll | portal/scripts/portal-backend.py:630-682 | the poll step of the state machine is the poll of the class |
| TokenMint.PowerBi.SpToken | portal/scripts/portal-backend.py:783-819 | a call, with whatever others put into the cache while it waits for the lock, is its sequence of steps, ends with the lock free, and returns the first of: the cached token with more than 60 seconds left, the one found inside, the one answered with its lifetime from then |
| TokenMint.SingleFlight | portal/scripts/portal-backend.py:783-819 | for any number of tasks and any schedule at most one token request is in flight, and the lock holder makes it |
| TokenMint.MintsAreSpaced | portal/scripts/portal-backend.py:785-792 | a request starts only when every token minted before has at most 60 seconds left |
| TokenMint.MintedAsAnswered | portal/scripts/portal-backend.py:805-817 | in every schedule a minted token is one the authority answered with, and expires its lifetime after that answer |
| TokenMint.ServedTokensAreGood | portal/scripts/portal-backend.py:783-819 | every caller served gets a token the authority minted, just minted or with more than 60 seconds left when it looked |
| TokenMint.MintRateIsBounded | portal/scripts/portal-backend.py:783-819 | if tokens outlive the margin by a spacing, n mints take at least n - 1 spacings however many requests come in |
| TokenMint.NeverStuck | portal/scripts/portal-backend.py:774-819 | while a task is unfinished some step is possible: no deadlock, also after cancellations |
| TokenMint.ServedWithinFiveMinutes | portal/scripts/portal-backend.py:783-788 | either look at the cache serves a token with at most five minutes left if and only if the cached one has more than one minute and at most five |
| TokenMint.ServedLifetimesAreExactly | portal/scripts/portal-backend.py:783-819 | over all schedules the lifetimes left with which tokens come out of the cache are exactly those above 60 seconds, the ones below five minutes included |
| SearchCache.SearchCache.Get | portal/scripts/portal-backend.py:350-356 | the items of an entry younger than 30 seconds, nothing otherwise, and the cache is not changed |
| SearchCache.SearchCache.Set | portal/scripts/portal-backend.py:358-366 | the dictionary after a set with its eviction of the 50 oldest |
| SearchCache.SortIsStable | portal/scripts/portal-backend.py:362-364 | the sort by age is ordered, a permutation and stable |
| SearchCache.EvictDropsTheOldest | portal/scripts/portal-backend.py:361-366 | evicted entries are no younger than any that stays, at most 50 go, the others keep their value |
| CacheEviction.EvictsTheFirstFifty | portal/scripts/portal-backend.py:361-366 | a full cache loses exactly 50 entries: those first by time and, at equal times, by place in the dictionary; the others keep their order |
| SearchCache.PutKeepsPlaces | portal/scripts/portal-backend.py:358-360 | a write to a key that is there keeps every place, a new key comes last |
| SearchCache.SetKeepsItsKey | portal/scripts/portal-backend.py:358-366 | with a clock that does not run backwards a set never evicts the key it wrote, ties included |
| SearchCache.CacheRefinesLastWrites | portal/scripts/portal-backend.py:342-366 | after any sets the cache is the unbounded map of last writes with keys missing, at most 200 in all; a key is missing only when 150 others were written at its time or later |
| SearchCache.HitIsTheLastWrite | portal/scripts/portal-backend.py:350-366 | a hit is the last value set for that key, less than 30 seconds old |
| SearchCache.MissIsExplained | portal/scripts/portal-backend.py:350-366 | a miss means never set, expired, or crowded out |
| SearchCache.JustSetIsAHit | portal/scripts/portal-backend.py:350-366 | the key set last is a hit |
| Recents.RecentsTable.UpsertRecent | portal/scripts/portal-backend.py:225-255 | an upsert is an INSERT and then a DELETE whose subquery answered at that moment |
| Recents.RecentsTable.GetRecents | portal/scripts/portal-backend.py:210-222 | a read answers the query and, when the user's times are distinct, the move-to-front list |
| Recents.Select | portal/scripts/portal-backend.py:212-221 | taking the newest row again and again answers ORDER BY ... DESC LIMIT |
| Recents.ReadsTheMruList | portal/scripts/portal-backend.py:210-255 | for every interleaving of the statements of all requests a read is the move-to-front list cut off at 20 |
| Recents.InterleavingsAgree | portal/scripts/portal-backend.py:225-255 | interleavings with the same inserts per user in the same order, after which every user's DELETE is through, end in the same table: the 20 newest rows of each user |
| Recents.InterleavingIsSerial | portal/scripts/portal-backend.py:225-255 | every such interleaving ends in the table that the same upserts leave when each runs whole before the next |
| Recents.PruneUnderTies | portal/scripts/portal-backend.py:243-255 | with ties at most 20 rows stay, no dropped row is newer than a kept one, other users are untouched |
| Recents.SurvivesIff | portal/scripts/portal-backend.py:243-255 | a row surely survives the DELETE if and only if fewer than 20 others of the user are as recent |
| Signature.StandardRoundTrip | platform/18-om-access-bridge/app/app.py:117-139 | every standard base64 digest, padded or not, decodes to its 32 bytes |
| Signature.UrlSafeFailsTheFirstDecoder | platform/18-om-access-bridge/app/app.py:130-138 | the lenient decoder makes at most 31 bytes, or an error, of a URL-safe digest with '-' or '_', so the fallback order is never wrong |
| Signature.UrlSafeRoundTrip | platform/18-om-access-bridge/app/app.py:117-139 | a URL-safe digest decodes for every digest if the library takes the keyword; as it is, exactly when it holds neither '-' nor '_' |
| Signature.UrlSafeDigestThatRaises | platform/18-om-access-bridge/app/app.py:130-138 | a concrete digest for which the TypeError is raised |
| Signature.DigestsHave32Bytes | platform/18-om-access-bridge/app/app.py:117-139 | whatever is received, a digest that comes out has 32 bytes |
| Signature.SpacesAroundAreIgnored | platform/18-om-access-bridge/app/app.py:125 | white space around a signature does not matter |
| Signature.ForeignIsSkipped | platform/18-om-access-bridge/app/app.py:130-134 | a character outside the alphabet changes nothing for the lenient decoder wherever it stands |
| Signature.HexDigestRoundTrip | platform/18-om-access-bridge/app/app.py:126-131 | hex digests in either case decode to their bytes |
| GrantParser.ApprovedRequestIsGranted | platform/18-om-access-bridge/app/app.py:415-609 | the approval of every asset the request endpoint accepts is parsed, in both event shapes, to a grant of that asset's role to the requester, unless its name has a line break |
| GrantRules.GrantedIff | platform/18-om-access-bridge/app/app.py:474-609 | for every event: it is granted if and only if it is a resolved task or thread, closed or approved, with a requester, the words of a request, a schema of a supported service and an id; the grant is that requester, the role of that schema, that id |
| GrantRules.EveryEventIsCovered | platform/18-om-access-bridge/app/app.py:510-527 | every event carries a thread and a task except text that does not parse, which is refused |
| GrantRules.OnlyTheMessage | platform/18-om-access-bridge/app/app.py:554-575 | when the message is the only text, a grant means that "request access" stands in it in some case: a description task is refused |
| GrantRules.TwoTextsMakeARequest | platform/18-om-access-bridge/app/app.py:558-566 | a family of threads that are granted although no text of theirs says "request access" |
| Phrases.JoinedSays | platform/18-om-access-bridge/app/app.py:560-566 | two words occur in the joined texts if and only if they occur in one of them, or one ends with the first and the next that is not empty starts with the second |
| GrantRules.UnwrapIff | platform/18-om-access-bridge/app/app.py:88-94 | a reference is unwrapped to a name if and only if it is the entity token around it, of some kind and without a line break |
| GrantParser.AssetRole | platform/18-om-access-bridge/app/app.py:579-602 | the role of a wrapped asset reference is named after its catalog and schema |
| GrantParser.ApprovalIsNeverReplayed | platform/18-om-access-bridge/app/app.py:757-765 | the event of every approval the webhook grants, flat or with its thread in `entity`, is refused by the replay on every path |
| GrantParser.FlatApprovalIsReplayedIff | platform/18-om-access-bridge/app/app.py:757-769 | a flat approval passes if and only if its id is replaced by the text of the path and its name has no line break; the grant then has that id |
| GrantParser.EntityApprovalIsReplayedIff | platform/18-om-access-bridge/app/app.py:757-769 | an approval in `entity` passes if and only if a flat task with the path as its id is added and its name has no line break; the grant keeps the id of the thread |
| Bridge.AccessBridge.EnsureRole | platform/18-om-access-bridge/app/app.py:245-274 | GET, POST, GET gives a role of that name and keeps names and ids unique |
| Bridge.AccessBridge.GrantRole | platform/18-om-access-bridge/app/app.py:276-289 | it succeeds if and only if the user exists, and the user then holds the role; otherwise nothing changes |
| Bridge.AccessBridge.WebhookOm | platform/18-om-access-bridge/app/app.py:729-753 | granted if and only if signed, parsed, not processed and the user known; the id is remembered only then; the whole is the run of its steps |
| Bridge.AccessBridge.ReplayTask | platform/18-om-access-bridge/app/app.py:756-769 | the same for a replay, which forgets the id in any case |
| Grants.ProcessedIsGranted | platform/18-om-access-bridge/app/app.py:729-769 | through duplicates, concurrency, failures and restarts an id in the processed set means a grant of that id is in Keycloak |
| Grants.GrantsAreExactlyTheApplied | platform/18-om-access-bridge/app/app.py:276-289 | users hold what they held before and what was applied, nothing else; applied grants stem from accepted events and include all completed ones |
| Grants.OneRolePerName | platform/18-om-access-bridge/app/app.py:245-274 | concurrent handlers never leave two roles of one name, and all that got a role of a name, mapped or not yet, got the same one |
| Grants.AnsweredMeansGranted | platform/18-om-access-bridge/app/app.py:729-769 | if an id always names one grant, every delivery answered with success has its grant in Keycloak, then and after anything that follows |
| Grants.AllAnsweredMeansAllGranted | platform/18-om-access-bridge/app/app.py:276-289 | when every handler has its answer, accepted, applied and completed are one set, and users hold what they held before and the union of the completed grants |
| Grants.DuplicateIsGrantedIff | platform/18-om-access-bridge/app/app.py:739-742 | after a duplicate answer its grant is held if and only if it was at the start or some applied grant, under whatever id, gave that role to that user |
| Grants.DuplicateAnswerIff | platform/18-om-access-bridge/app/app.py:727-767 | over whole runs: a signed delivery is answered as a duplicate if and only if a grant of its id was finished since the last restart and the last replay of that id, refused replays included; otherwise it is let in |
| Constraints.ValidateConstraints | platform/11-airflow/jobs/csv_to_bronze.py:189-209 | a table is accepted if and only if it has rows and every column is good; otherwise the first bad column is reported, with the number of rows in which its value is missing, too low or too high |
| Ingest.Lakehouse.RunJob | platform/11-airflow/jobs/csv_to_bronze.py:324-369 | a run left alone is its sequence of steps: rows appended once, catalog entry there, copy made, object gone; a rejected or absent input changes nothing |
| Ingest.CopiesEqualAppends | platform/11-airflow/jobs/csv_to_bronze.py:235-369 | for any interleaving, stops and re-triggers the table holds an upload's rows as often as runs passed the append with it |
| Ingest.NothingIsLost | platform/11-airflow/jobs/convert_to_delta.py:206-273 | if nobody uploads onto the key of a live run, every upload is in staging, or replaced there, or in a registered table with a processed copy |
| Ingest.UploadUnderARunIsLost | platform/11-airflow/jobs/convert_to_delta.py:182-273 | the rule is needed at every stage of a run: an upload onto the key of a live run leaves staging with the rest of that run and never reaches the table |
| Ingest.UploadIsSafeIff | platform/11-airflow/jobs/convert_to_delta.py:182-273 | after a quiet run an upload stays accounted for in every quiet continuation if and only if no live run works on its key |
| Ingest.SerialRunsLoadOnce | platform/11-airflow/include/csv_ingest_factory.py:143 | with one run at a time on a key, later triggers write nothing of an object a run deleted, and its rows are there once if no other run had appended it |
| Ingest.OutOfReachForever | platform/11-airflow/jobs/csv_to_bronze.py:310-369 | an upload no run holds and staging does not have keeps its row count through everything that follows |
| Enrich.UnionTagsLoop | platform/13-openmetadata-config/enrich_from_dbt_meta.py:184-191 | the dictionary loop builds the union |
| Enrich.UnionTagsUnites | platform/13-openmetadata-config/enrich_from_dbt_meta.py:184-191 | the union keeps all existing tags, adds all wanted ones, has no doubles, and again changes nothing |
| Enrich.DeriveTierLoop | platform/13-openmetadata-config/enrich_from_dbt_meta.py:194-203 | the tier is the default or a mapped one and none of the candidates ranks better |
| Annotations.TierIff | platform/13-openmetadata-config/enrich_from_dbt_meta.py:194-203 | the tier is the default if no tag stands for a better one, and else the best of those, whatever the order |
| Annotations.TableTags | platform/13-openmetadata-config/enrich_from_dbt_meta.py:184-272 | an enriched table has exactly the tag names it had and those mapped from doelbindingen, legal basis, BIO class and risk tier, the tier, the terms and the flag; a tag it had not has the source of its origin |
| Annotations.TableExtension | platform/13-openmetadata-config/enrich_from_dbt_meta.py:315-353 | under every extension key the value of the model's field if it gives one, and else what was there |
| Annotations.TableOwner | platform/13-openmetadata-config/enrich_from_dbt_meta.py:356-370 | a table without owners gets the mapped or like-named team, else the user, else none; one with owners keeps them |
| Annotations.TableDomains | platform/13-openmetadata-config/enrich_from_dbt_meta.py:372-384 | the domain is appended if and only if it is mapped, known and not there by name |
| Annotations.TableProducts | platform/13-openmetadata-config/enrich_from_dbt_meta.py:386-400 | exactly the products with a tag of the model, known and not there by name are appended, in the order of the mapping |
| Annotations.TableColumns | platform/13-openmetadata-config/enrich_from_dbt_meta.py:275-312 | a column gets the tag of its name, after its others, if it is the last of a listed and mapped PII name and has not got it; every other column stays |
| Patches.BuildColumnPatches | platform/13-openmetadata-config/enrich_from_dbt_meta.py:275-312 | the loop over the name index builds the column operations of the last column of each name |
| Patches.PatchEnriches | platform/13-openmetadata-config/enrich_from_dbt_meta.py:415-486 | the patch always applies (RFC 6902 sections 4.1 and 4.3: every replaced member and every column exists) and has the effect that is stated without patches |
| Patches.PatchFlags | platform/13-openmetadata-config/enrich_from_dbt_meta.py:415-486 | the patch says replace exactly for what the table has |
| Patches.PatchParts | platform/13-openmetadata-config/enrich_from_dbt_meta.py:415-486 | it holds an operation on extension, owners, domains or products exactly if there is something to change |
| SecondRun.RunByTable | platform/13-openmetadata-config/enrich_from_dbt_meta.py:505-537 | the run enriches each table by the models that name it, in their order, and by no other |
| SecondRun.SecondRunChangesNothing | platform/13-openmetadata-config/enrich_from_dbt_meta.py:415-537 | a second run over any list of models changes nothing in any store, although models that share a table overwrite each other's extension keys in both runs |
| RunOutcome.RunTags | platform/13-openmetadata-config/enrich_from_dbt_meta.py:489-537 | after a run over all models a table has exactly the tag names it had and those some complete model of its name asks for |
| RunOutcome.PurposesComeFromModels | platform/13-openmetadata-config/om_to_opa_sync.py:113-202 | from the manifest to OPA, both ways: a purpose is allowed under a glob if and only if some table scanned to it had a Doelbinding tag for it or a model that reaches it asks for one |
| Patches.EnrichIsIdempotent | platform/13-openmetadata-config/enrich_from_dbt_meta.py:415-486 | a second run by the same model leaves the table unchanged |
| Patches.PiiColumnIsTagged | platform/13-openmetadata-config/enrich_from_dbt_meta.py:275-312 | a named PII column with a mapping carries its tag afterwards, whatever the case of its name |
| Patches.ProductsStayDistinctIff | platform/13-openmetadata-config/enrich_from_dbt_meta.py:463-481 | products are free of doubles afterwards if and only if they were and no two products of the mapping share a name the table lacks while both have a tag of the model and a known name |
| OpaSync.GlobFromFqnLoop | platform/13-openmetadata-config/om_to_opa_sync.py:88-110 | the character loop computes the glob of the scanned segments |
| OpaSync.ScannerInvertsPrinter | platform/13-openmetadata-config/om_to_opa_sync.py:94-107 | scanning a printed name gives its segments back if and only if the last one is not empty, dots included |
| OpaSync.GlobOwnsItsSchemaIff | platform/13-openmetadata-config/om_to_opa_sync.py:94-110 | no other schema has the glob of a schema if and only if neither its catalog nor its schema name holds a dot |
| OpaSync.SchemasMayShareAGlob | platform/13-openmetadata-config/om_to_opa_sync.py:94-110 | a family of pairs of tables of different schemas whose fully qualified names are scanned to one glob |
| OpaSync.GlobNeedsFourSegments | platform/13-openmetadata-config/om_to_opa_sync.py:94-110 | a printed name has no glob exactly when fewer than four segments are kept of it |
| OpaSync.ExtractDoelbindingen | platform/13-openmetadata-config/om_to_opa_sync.py:113-119 | the purposes of a tag list are exactly the lower-case rests of its Doelbinding tags |
| OpaSync.AggregateResourcePurposes | platform/13-openmetadata-config/om_to_opa_sync.py:122-131 | per glob the union over its tables, and no entry for an empty one |
| OpaSync.AggregatedIff | platform/13-openmetadata-config/om_to_opa_sync.py:113-131 | a purpose is in the aggregate under a glob if and only if a table with that glob has a tag named Doelbinding and the purpose, in some case |
| OpaSync.AggregateIgnoresOrder | platform/13-openmetadata-config/om_to_opa_sync.py:122-131 | the aggregate depends neither on order nor on repetition of tables |
| OpaSync.MergePurposes | platform/13-openmetadata-config/om_to_opa_sync.py:197-202 | the merge loop overwrites exactly the covered entries |
| OpaSync.MergeCoversAndKeeps | platform/13-openmetadata-config/om_to_opa_sync.py:197-204 | covered globs get the new value, the others keep theirs, merging twice is merging once |
| Governance.EnrichAllLoop | platform/13-openmetadata-config/enrich_from_dbt_meta.py:505-537 | the loop over the models enriches the tables one after the other |
| Governance.NodeGlob | platform/13-openmetadata-config/enrich_from_dbt_meta.py:489-502 | for a service name without dot and quote, the FQN the enricher writes for a model is scanned to its own schema if and only if database and schema hold neither dot nor quote and the name is more than quotes |
| Governance.DottedModelsAreMissed | platform/13-openmetadata-config/enrich_from_dbt_meta.py:489-502 | among tables named as OpenMetadata prints names, a model with quote-free names whose table is there is found if and only if no name holds a dot |
| Governance.MetadataReachesOpa | platform/13-openmetadata-config/om_to_opa_sync.py:113-202 | end to end: each mapped doelbinding of each model with a table allows its purpose on the schema its FQN is scanned to, which is its own exactly as `NodeGlob` says; covered globs allow exactly what the tables scanned to them are tagged with, which are those of one schema exactly as `OpaSync.GlobOwnsItsSchemaIff` says; uncovered entries keep their value |
| Governance.RoleNamesTheSchemaIff | platform/18-om-access-bridge/app/app.py:579-602 | the role the bridge grants names the catalog and schema of the table if and only if neither holds a dot |
| QuoteScanner.StripLineComment | scripts/docs_gen.py:81-97 | the flag loop cuts where the recursive scanner does |
| QuoteScanner.SwapQuotes | scripts/docs_gen.py:104-131 | the index loop computes the swapped text |
| QuoteScanner.CutsAtTheComment | scripts/docs_gen.py:74-98 | a line of tokens and a comment is cut exactly where the comment starts, never inside a literal |
| QuoteScanner.NothingElseIsCut | scripts/docs_gen.py:74-98 | a line without a comment is not cut |
| QuoteScanner.SwapsExactlyTheSinglesIff | scripts/docs_gen.py:104-131 | for every stream of tokens exactly the single-quoted literals are replaced if and only if no such literal, and no single quote in a double-quoted one, comes while the swapper is in the wrong state |
| QuoteScanner.SwapsExactlyTheSingles | scripts/docs_gen.py:104-131 | it is so for streams without a double-quoted literal that ends in an escaped backslash |
| QuoteScanner.LiteralKeepsItsMeaningIff | scripts/docs_gen.py:123-126 | the JSON string (RFC 8259 section 7) reads as the literal's source text, hence as its TypeScript value if and only if the literal has no escape of any kind, \x and \u included |
| QuoteScanner.EscapeDecodes | scripts/docs_gen.py:125 | reading the escaped text as a JSON string gives the text back |
| LinkRewriter.NormaliseLoop | scripts/docs_hooks.py:72-85 | the loop over the parts stack resolves the path clamped at the root |
| LinkRewriter.NormaliseIsIdempotent | scripts/docs_hooks.py:72-85 | normalising is idempotent and leaves ordinary segments only |
| LinkRewriter.NormaliseComposes | scripts/docs_hooks.py:72-85 | the directory part may be normalised first |
| LinkRewriter.ExternalIff | scripts/docs_hooks.py:88-105 | a path is external if and only if the first segment it resolves to is a known root or file |
| LinkRewriter.SecurityLinkResolvesIff | scripts/docs_hooks.py:186-190 | the link to the security page resolves to docs/security.md if and only if the page directory has ordinary segments only |
| LinkRewriter.RewriteIsIdempotent | scripts/docs_hooks.py:127-196 | rewriting is idempotent for every link that does not start with docs/ |
| LinkRewriter.RewriteSettlesIff | scripts/docs_hooks.py:127-196 | for every link a second pass changes nothing if and only if it does not start with docs/ or no branch takes what is left without that start, as when nothing is left |
| LinkRewriter.RewriteChangesIff | scripts/docs_hooks.py:127-196 | a link is left as it is if and only if no branch takes it: every branch that takes a link changes it |
| LinkRewriter.DocsLinksSettleLater | scripts/docs_hooks.py:139-141 | a link with n starts changes in each of the first n passes, is then its rest, is settled there if and only if no branch takes the rest, and is settled one pass later in any case |
| LinkTargets.WhereLinksLead | scripts/docs_hooks.py:127-196 | every relative link, by the directories it resolves to: a directory below docs gets its index page, SECURITY.md becomes the way up from the page and down to the rendered one, a path of the repository an address, and every other link stays |
| LinkTargets.OutsideLink | scripts/docs_hooks.py:60-69 | the address is that of exactly the resolved path, as a tree if the path without its fragment ends in a slash and else as a blob |
| LinkTargets.OneAddressIff | scripts/docs_hooks.py:60-196 | two links, on any pages, get one address if and only if they lead to one path |
| Chunker.ChunkMarkdown | platform/19-nanitics-observatory/app/docs_index.py:94-120 | the buffer loop computes the chunks |
| Chunker.ChunksConserveTheText | platform/19-nanitics-observatory/app/docs_index.py:94-120 | without the carried tails the chunks hold the document's non-space characters in order and once |
| ChunkWindows.ChunksAreWindows | platform/19-nanitics-observatory/app/docs_index.py:94-120 | the chunks are the trimmed texts of windows of lines, each filled until it reaches the limit, each behind the last characters of the text before, labelled with the last title up to its end |
| ChunkWindows.OneCut | platform/19-nanitics-observatory/app/docs_index.py:94-120 | a document is cut into such windows in one way only |
| ChunkWindows.ChunksOverlap | platform/19-nanitics-observatory/app/docs_index.py:110-113 | of two successive chunks the second starts, white space aside, with the last characters of the first, as many as the overlap says or the first has |
| ChunkWindows.FullLineIsRepeated | platform/19-nanitics-observatory/app/docs_index.py:108-119 | a family of documents whose last chunk only repeats the end of the one before |
| Chunker.ChunksAreLabelledAndBounded | platform/19-nanitics-observatory/app/docs_index.py:94-120 | each chunk has the last non-empty heading read so far as its label and, with an overlap below the limit, exceeds the limit by at most its last line |
| MarkdownBlocks.ParseTable | scripts/md-to-pdf.py:86-106 | the index passes header, separator and all following rows, and no more |
| MarkdownBlocks.ParseList | scripts/md-to-pdf.py:109-120 | the index passes all following items of the kind, and at least one |
| MarkdownBlocks.ParseBlocks | scripts/md-to-pdf.py:123-223 | the loop ends for every document and its blocks are a parse; the index ends at the last line, one past it if and only if a fence is left open |
| MarkdownBlocks.ParseIsUnique | scripts/md-to-pdf.py:123-223 | a document has one parse |
| MarkdownBlocks.WhatBlocksAre | scripts/md-to-pdf.py:123-223 | each block by the patterns of its lines: which of several matching patterns decides its kind, and where it ends |
| MarkdownBlocks.EveryLineInOneBlock | scripts/md-to-pdf.py:123-223 | every non-blank line is in exactly one block |
| MarkdownBlocks.ParagraphsStopInTime | scripts/md-to-pdf.py:197-221 | no line after the first of a paragraph would open another block |
| MarkdownBlocks.BlankLineSeparatesIff | scripts/md-to-pdf.py:133-223 | a blank line keeps two documents apart, each with its own blocks, if and only if the first leaves no fence open |
| StreamRouting.PathGivesItsStream | spark-jobs/streaming_files_to_lakehouse.py:41-68 | the lazy pattern reads the directory names of a raw file, joined by dots, up to the first later name that looks like a date, whatever follows |
| StreamRouting.FileReachesItsTable | spark-jobs/streaming_files_to_lakehouse.py:46-68 | a file lands in the table named after all its directories if and only if there are three or more, the first is `uwv`, none holds a dot and no later one looks like a date |
| StreamRouting.StreamOwnsItsTableIff | spark-jobs/streaming_files_to_lakehouse.py:46-57 | no other stream has the table of a stream if and only if it has three names and the last two hold no underscore |
| StreamRouting.StreamsKeepApart | spark-jobs/streaming_files_to_lakehouse.py:46-57 | among streams without underscores no two share a table |
| StreamRouting.StreamsMayShareATable | spark-jobs/streaming_files_to_lakehouse.py:52-57 | a family of streams that share a table |
| Medallion.Bronze.ProcessBatch | spark-jobs/streaming_files_to_lakehouse.py:71-111 | every row with a recognised stream is appended once to its table, and no other row anywhere |
| Medallion.Dedupe | spark-jobs/batch_silver_wia.py:110-119 | one row per non-null id is kept, and no other row of that id is later |
| Medallion.SilverTable.RunJob | spark-jobs/batch_silver_wia.py:89-142 | one run leaves the latest row of every id of all of bronze, by first write or by MERGE; an empty bronze changes nothing |
| Medallion.MergeIsLatest | spark-jobs/batch_silver_wia.py:125-137 | merging the latest rows into an older silver gives the latest per id, unique ids included |
| Medallion.SilverIsLatestOfAll | spark-jobs/batch_silver_wia.py:89-142 | after any micro-batches and runs, one more run equals the one-shot computation over all of bronze |
| Medallion.LatestIsUnique | spark-jobs/batch_silver_wia.py:110-119 | without ties the latest rows are determined |
| Medallion.DuplicatesDoNotMatter | spark-jobs/batch_silver_wia.py:110-119 | rows delivered again change nothing |
| Medallion.GoldCountsEveryIdOnce | spark-jobs/batch_gold_wia.py:66-82 | the counts of the funnel add up to the silver rows, which are the ids of bronze |
| Medallion.GoldGroups | spark-jobs/batch_gold_wia.py:66-82 | gold has a row for a day, a department and a status if and only if some silver row has these three, and counts the different ids that have them; an empty silver leaves gold alone |
| Medallion.RawRowsReachGold | spark-jobs/batch_gold_wia.py:66-82 | over any micro-batches of raw rows of all streams and any silver runs: silver rows are raw rows routed to the table, each id there has a row whose source time is not earlier, gold has exactly the groups of silver with their ids counted, and its counts add up to the number of ids |
| RowPacker.BuildLayout | scripts/cleanup-superset-uc11-duplicates.py:126-150 | the layout loop places the zipped charts row by row |
| RowPacker.LayoutIsThePacking | scripts/cleanup-superset-uc11-duplicates.py:126-150 | every chart up to the shortest list is placed once and in order, with its number, id, name and width, and the rows are the packing |
| RowPacker.PackIsGreedy | scripts/cleanup-superset-uc11-duplicates.py:130-150 | for all widths, each row takes charts until the next one would exceed 12, and only a single chart can be wider |
| RowPacker.PackIsOptimal | scripts/cleanup-superset-uc11-duplicates.py:130-150 | for widths up to 12 no row exceeds 12 and no order-preserving cut has fewer rows |
| RowPacker.KeepAndDelete | scripts/cleanup-superset-uc11-duplicates.py:73-87 | the loop over the names computes the kept and the deleted ids |
| RowPacker.KeepAndDropPartition | scripts/cleanup-superset-uc11-duplicates.py:73-87 | kept and deleted ids partition the ids listed under the names |
| RowPacker.KeepsTheGreatest | scripts/cleanup-superset-uc11-duplicates.py:80-87 | the greatest id is kept per name |
| RowPacker.KeptIsDeletedIff | scripts/cleanup-superset-uc11-duplicates.py:80-87 | over all names: every chart with a listed name is kept or deleted, and a kept one is deleted as well if and only if the listing showed it more than once |
| RowPacker.BlocksAreAlignedIff | scripts/cleanup-superset-uc11-duplicates.py:128-129 | every block shows a chart of its own name if and only if the absent names come last |

## Left out

- Events.EventHub: the title of an event and its age are not stored in it (the age is `FormatAgo`), the cancellation inside `wait_for`, and a restart of the process, which is a new initial state; queues are named by their client.
- TokenMint.Step: the content of HTTP errors; a failed, refused or cancelled request is a step without a token. Clock values are inputs and do not run backwards.
- SearchCache.SearchCache: the dictionary is a sequence in insertion order and the library's sort is a function proved stable; other processes have their own cache.
- Recents.Execute: SQLite is a map with the meaning of the two statements; rows left by an interrupted upsert are covered, journal files are not.
- GrantParser.ParseGrant: JSON text is parsed or not (`EntityText`), absent members are the empty string, lower-casing is that of ASCII.
- Grants.Step: the HMAC check is the boolean `signed`; token requests and HTTP errors are the step `Fail`; a request sent by a handler that then failed or was killed is the step `ServeLate`; users are fixed and roles are not deleted by others.
- Bridge.AccessBridge: runs one handler without others beside it; what interleaves is proved on the steps in `Grants`.
- Signature.DecodeSignature: the library's lenient decoder is modelled from its documented behaviour, for ASCII input.
- Ingest.Step: parsing and validating a file are one step that passes or stops; the prefix check of the object key is part of it. Delta, the catalog and object storage are maps with atomic operations.
- Ingest.Lakehouse: runs one job without others beside it; what interleaves is proved on the steps.
- Constraints.ValidateConstraints: NaN, and the text of the messages.
- Enrich.WantedTags: accents of glossary terms are taken as already stripped; name lookups are a fixed directory; the server accepts every patch.
- Patches.BuildOps: paths of operations are constructors, and a `replace` or `add` is a flag on them; the label fields `state` and `description` are not modelled.
- OpaSync.AggregateResourcePurposes: a sorted list of purposes is the set of them; pages of the listing and the ConfigMap are inputs and outputs.
- The regular expressions of the literal converter (block comments, bare keys, trailing commas) and of the link finder.
- LinkRewriter.Rewrite: link titles; the empty target, which the link pattern does not match, is left alone; only the one internal page of the source is listed.
- Chunker.ChunkMarkdown: `splitlines`, and an overlap below zero.
- MarkdownBlocks.ParseBlocks: which pattern a line matches is an input, and blocks are ranges of lines; inline rendering and the HTML are left out.
- Medallion.GoldCountsEveryIdOnce: averages and approximate counts of the funnel.
- Medallion.Bronze: Spark and Delta are multisets and sequences of rows; registering a table is left out.
- Medallion.SilverTable: silver ids are ids of bronze, which only grows; the retention of bronze is not modelled.
- StreamRouting.PathGivesItsStream: the matcher is the one pattern of the source, not a general engine; paths have non-empty names.
- RowPacker.BuildLayout: heights, requests to the dashboard service, and block identifiers.
- Web pages, generators of synthetic data, configuration and continuous-integration scripts.
