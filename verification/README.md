# Catalog / Admin Config Service: a verified model

The service keeps two small global catalogs, departments and subscription
plans, in Postgres, and serves them through a shared Valkey cache. Operators
change them with version-guarded PATCH requests; everyone else lists them. Two
scripts beside it rewrite generated Swagger files and merge coverage profiles.

The project has four parts.

**The store and its statements.** `Sql`, `Departments` and `Plans` give the
tables with their triggers (fired in name order, then the CHECKs, then the unique
indexes) and the UPDATE statements the repositories number at run time. Each
generated statement is shown to mean one flat patch of one row. `Runs` looks at
any sequence of commits from the seeded database: what every state satisfies, and
how a row may stand to its own earlier self.

**The protocol.** `Protocol` is a state machine over any number of pods and
requests, one step per SQL statement or cache call. Every cache call may fail,
entries expire, vanish or turn undecodable, requests stop anywhere, and another
writer may slip in between an UPDATE and its probe. `Freshness` states what
readers and writers may rely on, in every interleaving. `Uninterrupted` ties the
steps to the service's own methods, `ReadThrough` and `Listing` treat the runs
without overlap and the in-memory filter.

**The request pipeline.** `Store`, `DepartmentServices`, `DepartmentHandlers`,
`PlanServices`, `PlanHandlers`, `Requests` and `Errors` follow handler, service,
repository and error mapping as classes with the source's fields, method by
method. The department PATCH and POST and the plan PATCH are shown to come down
to one decision each (`DecidePatch`, `DecideCreate`, `Decides`), in which the
first failing check wins. `DepartmentContracts` and `PlanContracts` then say what
an operator sees of these decisions, in terms of the JSON members (`Bodies`), the
columns and the SQLSTATEs alone.

**The scripts.** `Blocks`, `Lines` and `PyText` give the strip loop and the
Python string operations; `SwaggerYaml`, `SwaggerJson`, `SwaggerDocs` and
`DocsReruns` the three patches and what a second run does; `Coverage` the merge.

## Where the code and its documentation disagree

The model follows the code.

- CACHE_DESIGN.md:31-36 says that a write is visible to the service's own GETs
  at once. A reader that selected before the commit may store what it read after
  the Delete. `Freshness.DocumentedVisibilityFails` gives such a run, in which no
  call fails; `Freshness.VisibleForeverIff` says exactly when a write stays
  visible, and `Freshness.BoundedStaleness` how old an answer can be.
- scripts/patch-swagger-extensions.py:15 promises idempotence. The YAML and JSON
  patches are idempotent on every input. For docs.go a second run changes the file
  when more text follows the version line on its own line, or when blank lines end
  the file: `DocsReruns.LastRunWinsIff` gives the exact condition, two lemmas give
  files that fail it.
- The same line promises that an existing block is replaced in place. All three
  patches remove the block and insert a new one at a place of their own. The two
  places agree exactly when the old block stood right before the first
  `securityDefinitions:` line, or ended a file without one
  (`SwaggerYaml.InPlaceIff`); when the old entry stood right before
  `securityDefinitions`, or was the last (`SwaggerJson.InPlaceIff`); when the
  first version line ended right above the block and no empty line ends the file
  (`DocsReruns.InPlaceIff`). `SwaggerYaml.BlockAtTopMoves`,
  `SwaggerJson.EntryInFrontMoves` and `DocsReruns.BlockAboveMoves` give inputs
  whose block moves.
- 000001_init_schema.up.sql protects `is_system` by no trigger and nested feature
  values by no CHECK. `Departments.StoreAloneDoesNotFreezeIsSystem` and
  `Plans.StoreAloneAcceptsNestedFeatures` show that the statement list and the
  service loop carry these rules alone.

## Model

| member | source | states |
|---|---|---|
| Sql.AddIfMeaning | internal/adapter/outbound/postgres/plan_repository.go:101-129 | an appended SET item resolves to its own field's value on top of what the list meant before; an absent field leaves the meaning alone |
| Sql.AddIfNames | internal/adapter/outbound/postgres/plan_repository.go:99-132 | the list names a column exactly when its field is present, never twice, and appending keeps what $1..$n mean |
| Departments.BuilderMeaning | internal/adapter/outbound/postgres/department_repository.go:120-134 | the generated SET list and arguments turn every row into the field-by-field merge; $1 is the id, $2 the version; `code` is never named |
| Departments.PatchRefinesFlat | internal/adapter/outbound/postgres/department_repository.go:116-150 | generated statement, three triggers, CHECKs and unique index together are one flat versioned patch, failures included |
| Departments.FlatPatchKeepsValid | internal/adapter/outbound/postgres/migrations/000001_init_schema.up.sql:18-33 | a patch keeps the table invariant, touches one row, keeps code, is_system and a system row's name, and leaves the version alone exactly when it changes nothing |
| Departments.PatchKeepsValid | internal/adapter/outbound/postgres/migrations/000001_init_schema.up.sql:80-145 | the same for the generated statement run through triggers and CHECKs |
| Departments.InsertKeepsValid | internal/adapter/outbound/postgres/department_repository.go:90-114 | an INSERT succeeds iff no active or retired row has the code, and then adds one row at version 1 |
| Departments.StoreAloneDoesNotFreezeIsSystem | internal/adapter/outbound/postgres/migrations/000001_init_schema.up.sql:99-145 | a statement naming is_system passes every trigger and CHECK on any system row |
| Departments.CodeCannotChange | internal/adapter/outbound/postgres/migrations/000001_init_schema.up.sql:109-120 | a statement that would change the code of any row, system row or not, is refused |
| Departments.VersionCannotBeChosen | internal/adapter/outbound/postgres/migrations/000001_init_schema.up.sql:80-92 | a statement that names record_version stores the next version all the same, and changes nothing else |
| Departments.InsertIff | internal/adapter/outbound/postgres/migrations/000001_init_schema.up.sql:18-33 | an INSERT stores a row exactly when id and code are unused, code and name not empty and a system row active; the stored row holds the given columns, version 1 and one time |
| Departments.ValidIff | internal/adapter/outbound/postgres/migrations/000001_init_schema.up.sql:18-33 | the table invariant column by column: own id, code and name more than white space, version at least 1, system rows active, codes unique |
| Plans.BuilderMeaning | internal/adapter/outbound/postgres/plan_repository.go:99-134 | the seven-field builder's statement evaluates to the merge on every row, fails exactly on an unknown branding level, and is well-formed iff some field is present |
| Plans.PatchRefinesFlat | internal/adapter/outbound/postgres/plan_repository.go:95-150 | generated statement, touch trigger and CHECKs are the flat plan patch |
| Plans.PatchKeepsValid | internal/core/service/plan_service.go:79-136 | an accepted patch is never rejected by the store, misses iff the version differs, keeps the three plans valid, and bumps the version iff the row changed |
| Plans.StoreAloneAcceptsNestedFeatures | internal/core/service/plan_service.go:114-127 | the store alone takes a nested feature value and so leaves the invariant |
| Plans.ValidIff | internal/adapter/outbound/postgres/migrations/000001_init_schema.up.sql:47-65 | the table invariant column by column: all three plans, display name more than white space, numbers not negative, version at least 1, features an object of scalars |
| Plans.VersionCannotBeChosen | internal/adapter/outbound/postgres/migrations/000001_init_schema.up.sql:80-97 | the same for a plan row |
| Plans.ScanIff | internal/adapter/outbound/postgres/plan_repository.go:29-49 | a row scans exactly when its features are JSON null or an object, every field then being its column |
| Plans.PatchStores | internal/adapter/outbound/postgres/plan_repository.go:156-175 | an accepted patch with the current version stores exactly the merge, bumped |
| Plans.PatchesCompose | internal/adapter/outbound/postgres/plan_repository.go:95-150 | p then q with the returned version stores the content of the merged patch, q's fields winning, at no lower version |
| Plans.BumpIffChanged | internal/adapter/outbound/postgres/migrations/000001_init_schema.up.sql:80-97 | touch_row adds one to the version exactly when the content changed, and nothing to the content |
| Runs.SeedIsValid | internal/adapter/outbound/postgres/migrations/000001_init_schema.up.sql:37-71 | the seeded tables satisfy both invariants, every row at version 1 |
| Runs.SeedShows | internal/adapter/outbound/postgres/migrations/000001_init_schema.up.sql:37-43 | the five seeded departments by code and name: system, active, version 1; a run may start from them |
| Runs.SeedPlansShow | internal/adapter/outbound/postgres/migrations/000001_init_schema.up.sql:67-71 | the three seeded plans, column by column |
| Runs.CommitFacts | internal/adapter/outbound/postgres/migrations/000001_init_schema.up.sql:80-145 | any commit keeps the invariants, moves no row but its target, met its version guard, and takes its row at most one version further |
| Runs.UnmatchedIffMisses | internal/adapter/outbound/postgres/department_repository.go:133-176 | an UPDATE matches no row iff the row is missing or has another version; accepted plan patches are never rejected |
| Runs.EveryStateValid | internal/adapter/outbound/postgres/migrations/000001_init_schema.up.sql:18-71 | every state of every run is valid: unique codes over active and retired rows, names not blank, system rows active, exactly three plans, limits null or non-negative, scalar features |
| Runs.RowOverTime | internal/adapter/outbound/postgres/migrations/000001_init_schema.up.sql:80-145 | between any two moments a row stays, keeps id, code and is_system (a system row its name and activity), and never goes down in version |
| Runs.VersionDeterminesContent | internal/adapter/outbound/postgres/migrations/000001_init_schema.up.sql:80-97 | same key and same record_version at any two moments of any run mean the same value in every column |
| Runs.PatchAppliesToWhatWasRead | internal/adapter/outbound/postgres/department_repository.go:133-134 | a PATCH that commits was applied to exactly the row its caller read, however long ago |
| Runs.OnlyTheLastChanges | internal/adapter/outbound/postgres/department_repository.go:116-150 | of all committed patches with one key and expected version, every one but the last was a no-op |
| Runs.VersionCountsChanges | internal/adapter/outbound/postgres/migrations/000001_init_schema.up.sql:80-97 | record_version is one plus the number of row-changing updates so far |
| Runs.RetryProgress | internal/adapter/outbound/postgres/department_repository.go:156-176 | resending the version of each 409 gives ever larger versions, never a 404, and at most as many conflicts as versions were added since the first read |
| Cache.TtlStaysPositive | internal/core/service/department_service.go:36-43 | no sequence of WithCacheTTL calls makes the TTL zero or negative |
| Store.ValkeyStore.Get | internal/adapter/outbound/valkey/cache.go:69-82 | a call that gets through gives the stored bytes while their time lasts; an outage, a missing key and an expired one give nothing |
| Store.ValkeyStore.Set | internal/adapter/outbound/valkey/cache.go:84-86 | a call that gets through stores the bytes for exactly the given time, without end if that is not positive |
| Listing.SortIsListing | internal/adapter/outbound/postgres/department_repository.go:46-66 | the ordered query returns each row once, sorted by code |
| Listing.ListingIsUnique | internal/adapter/outbound/postgres/department_repository.go:46-66 | with unique codes the rows and the order determine the listing |
| Listing.FilterActive | internal/core/service/department_service.go:57-63 | the loop returns exactly the active rows, in order |
| Listing.FilterEqualsWhere | internal/core/service/department_service.go:49-64 | filtering the full listing in memory is the query with WHERE is_active = true, order included, for every table with unique codes |
| Listing.PlansListInFull | internal/adapter/outbound/postgres/plan_repository.go:61-76 | a valid table lists its three plans, in enum order, each scanned without error |
| Listing.PlansShowTheirRows | internal/adapter/outbound/postgres/plan_repository.go:29-76 | the plan query lists starter, pro and enterprise, each field equal to its column |
| Listing.PlanListingDeterminesTable | internal/adapter/outbound/postgres/plan_repository.go:29-49 | scanning loses nothing: equal listings come from equal tables |
| Protocol.StepKeepsInv | internal/core/service/department_service.go:66-150 | every step of reader, writer, cache or clock keeps the protocol invariant |
| Protocol.ReachableInv | internal/core/service/department_service.go:66-150 | every reachable state, over any number of requests and any failures, satisfies it |
| Freshness.CachedCatalogIsCommitted | internal/core/service/department_service.go:66-85 | a decodable cached catalog is a committed table; a commit it misses had no effective Delete, or commit and Delete both fell between the filler's SELECT and Set |
| Freshness.AnswerMissesOnlyAcrossDelete | internal/core/service/department_service.go:131-149 | an answer that misses a commit deleted before its Get came from a Set that straddled commit and Delete |
| Freshness.BoundedStaleness | internal/core/service/department_service.go:32-85 | whatever Deletes fail, every List answer is the full table as it stood no later than the answer, and later than its Get minus (TTL + longest SELECT-to-Set) |
| Freshness.VisibleForeverIff | internal/core/service/department_service.go:163-167 | from any moment after a commit on, no later List answer misses it, in any continuation, iff the cache holds nothing older and no reader that selected before it is still to Set; and exactly then the cache never holds anything older |
| Freshness.DeleteClears | internal/adapter/outbound/valkey/cache.go:102-115 | an effective Delete leaves nothing older than its commit behind |
| Freshness.DocumentedVisibilityFails | CACHE_DESIGN.md:31-36 | a failure-free run in which a Get after the Delete still answers with the old table |
| Freshness.ClientProgress | internal/adapter/outbound/postgres/plan_repository.go:156-175 | retry progress in the concurrent machine, UPDATE and probe being separate steps |
| Uninterrupted.ListRefinesService | internal/core/service/department_service.go:66-85 | a List's protocol steps, taken in a row, give the answer and the cache contents of the service's own List |
| Uninterrupted.PatchRefinesRepository | internal/adapter/outbound/postgres/department_repository.go:116-176 | a department PATCH's protocol steps, taken in a row, leave the table, reply and cache that repository and service leave |
| Uninterrupted.PlanPatchRefinesRepository | internal/adapter/outbound/postgres/plan_repository.go:95-175 | the same for an accepted plan PATCH, which is never rejected |
| Uninterrupted.InsertRefinesRepository | internal/adapter/outbound/postgres/department_repository.go:90-114 | the same for a new department |
| Uninterrupted.EntryAnswersForItsTtl | internal/adapter/outbound/valkey/cache.go:69-86 | whatever happens between, a Set entry that is still there is answered by every Get before its time is over and by none from then on |
| Uninterrupted.NothingWaits | internal/core/service/department_service.go:66-150 | no request ever waits for another: in every state its next step, its early end and a new request are possible |
| Uninterrupted.IssuedIff | internal/core/service/department_service.go:95-150 | the writes the machine admits are exactly those the services let through, said of their fields |
| ReadThrough.CacheIsTransparent | internal/core/service/department_service.go:49-150 | without overlap and with effective Deletes, every List of the cached service answers as the service with a nil cache would, whatever Get, Set, eviction or damage do |
| ReadThrough.LastAnswerIsCurrent | internal/core/service/department_service.go:49-150 | after any such run a List answers the catalog of the database its writes left |
| ReadThrough.FilledEntryServesItsTtl | internal/core/service/department_service.go:66-85 | once a List has filled the cache, every List that reaches it within the TTL gives the same catalog whatever the database does, even down; from the end of the TTL on it is the database that answers or fails |
| ReadThrough.AnswersFromCacheIff | internal/core/service/department_service.go:66-81 | with the database down a List succeeds exactly when it reaches an unexpired entry of its own kind |
| Errors.ErrorResponseWithDetails | internal/adapter/inbound/http/middleware.go:260-284 | the filled map is envelope overridden by details, with "error" following "code", in whatever order the details are visited |
| Errors.HandleError | internal/adapter/inbound/http/middleware.go:197-245 | the written response is the one function of the error's class |
| Errors.BodyAgrees | internal/adapter/inbound/http/middleware.go:197-314 | in every error body "error" repeats "code"; "status" is the HTTP status exactly when details do not put another value there |
| Errors.AvailabilityIs503 | internal/adapter/outbound/postgres/db.go:106-127 | status and code of every driver error from its SQLSTATE alone: 503 db_unavailable exactly for the classes 08, 53, 57, 58, 503 dependency_unavailable for what is neither a SQL error nor a cancelled context, 500 internal_error for the rest |
| Errors.DomainErrorBody | internal/adapter/inbound/http/middleware.go:260-314 | a domain error's body shows its sub-code as both "error" and "code", its other details beside them |
| Listing.OneListing | internal/adapter/outbound/postgres/department_repository.go:46-51 | whatever order the server may choose among rows it must sort by code, unique codes leave it one answer |
| Listing.SelectedRows | internal/adapter/outbound/postgres/department_repository.go:46-66 | the department query lists every row of the table, or every active one, exactly once and by code |
| Store.DepartmentRepository.List | internal/adapter/outbound/postgres/department_repository.go:46-66 | from any stream of the selected rows, each once and sorted by code, the loop returns a listing of the table, and with unique codes the one there is |
| Store.RepoPatchAnswers | internal/adapter/outbound/postgres/department_repository.go:116-176 | a success stored its row over the version sent; a negative answer left the table alone; a conflict carries the current version, which is not the one sent; a 404 is about a missing row |
| Store.DepartmentRepository.Insert | internal/adapter/outbound/postgres/department_repository.go:90-114 | only a used code stands in the way, any unique violation of the statement is a conflict, a failed transaction leaves the table alone |
| Store.DepartmentRepository.Update | internal/adapter/outbound/postgres/department_repository.go:116-150 | the statement grown step by step, run and probed, has the effect and result of the flat repository patch; an empty patch only reads |
| DepartmentServices.DepartmentService.WithCacheTTL | internal/core/service/department_service.go:38-43 | non-positive durations are ignored; the TTL stays positive |
| DepartmentServices.DepartmentService.ListAllCached | internal/core/service/department_service.go:66-85 | Get, fall back to SELECT, Set: answer and cache contents as one read step says |
| DepartmentServices.DepartmentService.List | internal/core/service/department_service.go:49-64 | an answer read from the table equals the filtered query |
| DepartmentServices.DepartmentService.Create | internal/core/service/department_service.go:95-111 | result, table and cache: the key is deleted exactly after success |
| DepartmentServices.DepartmentService.Patch | internal/core/service/department_service.go:113-150 | validation, repository and constraint mapping as one flat step; the key is deleted exactly after success |
| DepartmentServices.DepartmentService.InvalidateCache | internal/core/service/department_service.go:163-167 | removes the one key if the call gets through, nothing else |
| DepartmentHandlers.ServiceDecides | internal/core/service/department_service.go:113-150 | service, repository, SQL, triggers, CHECKs and error mapping answer as the flat decision on the decoded fields |
| DepartmentHandlers.FlatPatchCases | internal/adapter/outbound/postgres/migrations/000001_init_schema.up.sql:80-145 | on a valid table: miss, then system name, then system retirement, else stored |
| DepartmentHandlers.PatchAnswersTruthfully | internal/adapter/inbound/http/department_handler.go:138-184 | every non-2xx leaves the table alone; a 200 shows the stored row, one lawful step from the row with the version that was sent |
| DepartmentHandlers.PatchBodiesConsistent | internal/adapter/inbound/http/middleware.go:197-314 | every error answer of the department PATCH has error = code and status = the HTTP status |
| DepartmentHandlers.CreateBodiesConsistent | internal/adapter/inbound/http/middleware.go:197-314 | the same for the department POST |
| DepartmentHandlers.CreateDecides | internal/core/service/department_service.go:95-111 | the layers below POST answer as the flat decision and add at most one row |
| DepartmentHandlers.BodyStages | internal/adapter/inbound/http/department_handler.go:148-173 | the raw-map reading and the struct binding of the body agree on what is an object, and the second adds only the field types |
| DepartmentHandlers.DepartmentHandler.Patch | internal/adapter/inbound/http/department_handler.go:138-184 | refines the flat decision: answer, table and cache, for every table state, request and failure |
| DepartmentHandlers.DepartmentHandler.DecodePatch | internal/adapter/inbound/http/department_handler.go:139-173 | caller, path, body, immutable fields, binding: first failing check wins |
| DepartmentHandlers.DepartmentHandler.Create | internal/adapter/inbound/http/department_handler.go:100-117 | refines the flat decision for POST |
| DepartmentHandlers.DepartmentHandler.DecodeCreate | internal/adapter/inbound/http/department_handler.go:101-109 | caller, then binding with required code and name |
| DepartmentHandlers.DepartmentHandler.DeleteBlocked | internal/adapter/inbound/http/department_handler.go:198-204 | 401, 403, otherwise always 405 |
| DepartmentContracts.PatchAnswersAsExpected | internal/adapter/inbound/http/department_handler.go:138-184 | status and code of every answer of the department PATCH from the JSON members, the row and the database failure alone; a 409 shows the current version, a 422 names the refused member |
| DepartmentContracts.PatchShowsStoredRow | internal/adapter/inbound/http/department_handler.go:24-28 | a 200 shows the stored row column by column; that row takes name and is_active from the body where they are, keeps the rest, moves to the next version iff it changed; no other row moves |
| DepartmentContracts.CreateAnswersAsExpected | internal/adapter/inbound/http/department_handler.go:100-117 | status and code of every answer of the department POST, from the JSON members, the table and the database failure alone |
| DepartmentContracts.CreateShowsNewRow | internal/adapter/inbound/http/department_handler.go:100-117 | a 201 shows the new row column by column: code, name and is_system as the body has them, active, version 1; no other row moves |
| PlanServices.PlanRepository.BuildUpdate | internal/adapter/outbound/postgres/plan_repository.go:99-129 | the closure-driven appends build the statement whose meaning is proved |
| PlanServices.PlanRepository.Update | internal/adapter/outbound/postgres/plan_repository.go:95-150 | result and table of the flat plan patch; a failed transaction leaves the table alone |
| PlanServices.RepoPlanPatchAnswers | internal/adapter/outbound/postgres/plan_repository.go:95-175 | the same reading of the plan repository's answers; on a valid table no plan is ever missing |
| PlanServices.PlanRepository.List | internal/adapter/outbound/postgres/plan_repository.go:61-76 | all rows scanned in order, or the error of a row that does not scan |
| Plans.AcceptedIffStoredValid | internal/core/service/plan_service.go:79-127 | with the current version, the accepted patches are exactly those the store takes and the table invariant survives: a refused one would fail or spoil the table |
| PlanServices.AcceptsExactlyWhatStaysValid | internal/core/service/plan_service.go:79-127 | the same for the ordered checks and the feature loop themselves |
| PlanServices.AcceptedIff | internal/core/service/plan_service.go:79-127 | the ordered checks and the loop pass a patch iff the code is a plan's and every present field is within its rule |
| PlanServices.PlanService.CheckFeatures | internal/core/service/plan_service.go:120-127 | finds a non-scalar feature iff there is one, in any visiting order |
| PlanServices.PlanService.List | internal/core/service/plan_service.go:44-63 | the read step on cat:plans |
| PlanServices.PlanService.Patch | internal/core/service/plan_service.go:79-136 | first failing check wins; departments untouched; the key is deleted exactly after success |
| PlanServices.PlanService.WithCacheTTL | internal/core/service/plan_service.go:35-40 | non-positive durations are ignored; the TTL stays positive |
| PlanHandlers.PlanHandler.Patch | internal/adapter/inbound/http/plan_handler.go:105-177 | answer, table and cache: on a valid table the flat decision, for every request and failure; departments untouched; the key is deleted exactly after success |
| PlanHandlers.AnswerIsDecision | internal/adapter/inbound/http/plan_handler.go:105-177 | handler, service, repository and error mapping come down to one decision on a valid table: first failing check wins, a 409 before anything is written, which nested feature is named left open |
| PlanHandlers.FieldsDecide | internal/core/service/plan_service.go:79-127 | the service's checks and feature loop refuse what the decision refuses, in the same order, with the same bodies |
| PlanHandlers.RowDecides | internal/adapter/outbound/postgres/plan_repository.go:95-175 | for an accepted patch, repository, SQL, trigger and CHECKs answer and store as the decision on the row |
| PlanHandlers.PatchBodiesConsistent | internal/adapter/inbound/http/middleware.go:197-314 | every error answer of the plan PATCH has error = code and status = the HTTP status |
| PlanHandlers.DecodedLimits | internal/adapter/inbound/http/plan_handler.go:125-162 | after decoding, absent, null and n mean unchanged, unlimited and n |
| PlanHandlers.TriStateEndToEnd | internal/adapter/inbound/http/plan_handler.go:105-177 | the three states survive decoding, UPDATE, scan and response; the answer is the stored row; a failure leaves the table alone |
| Bodies.DecodesToSame | internal/adapter/inbound/http/plan_handler.go:105-123 | a JSON value decodes into `any` exactly when every number in it has a float64, and to the one value that says the same |
| PlanContracts.BodyDecodes | internal/adapter/inbound/http/plan_handler.go:105-162 | a plan body decodes exactly when every member is absent, null or of its type, and then to the patch its members describe, each under its own name |
| PlanContracts.PatchAnswersAsExpected | internal/adapter/inbound/http/plan_handler.go:105-177 | status and code of every answer of the plan PATCH from the JSON members, the row and the database failure alone; a 409 shows the current version |
| PlanContracts.PatchShowsStoredRow | internal/adapter/inbound/http/plan_handler.go:22-30 | a 200 shows the stored row column by column; it is the row the path names, with the version that was sent, and takes every member the body holds |
| PlanServices.StoredPatch | internal/adapter/outbound/postgres/plan_repository.go:29-49 | what the repository returns is the scan of the stored row, one lawful step from the row before |
| Coverage.CountsAreMax | scripts/merge_coverage.py:10-28 | the counts are, for exactly the recorded blocks, the largest count over all inputs (at least 0) |
| Coverage.MaxIsUnique | scripts/merge_coverage.py:26 | that property determines the counts |
| Coverage.OrderIrrelevant | scripts/merge_coverage.py:10-28 | inputs that record the same lines, in whatever order and number, give the same counts |
| Coverage.PrintedLineParses | scripts/merge_coverage.py:14-32 | parsing a printed line gives back its block and count |
| Coverage.PaddedLineParses | scripts/merge_coverage.py:14 | white space before and after a printed line is no part of it |
| Coverage.LineEndIgnored | scripts/merge_coverage.py:13-14 | a printed line with its line feed, as the file yields it, parses to its block and count |
| Coverage.ParseIff | scripts/merge_coverage.py:14-26 | of any line: its text between the white space counts iff it is no mode line and its last two spaces cut off an integer, and then with that block and count |
| Coverage.PrintRecords | scripts/merge_coverage.py:30-32 | a printed profile records its counts and nothing else |
| Coverage.MergingIsAssociative | scripts/merge_coverage.py:10-32 | merging a merged output with further profiles is merging all originals |
| Coverage.RemergeReproduces | scripts/merge_coverage.py:10-32 | merging an output again reproduces it |
| Coverage.MergeProfiles | scripts/merge_coverage.py:10-32 | the loops over files and lines compute the merge |
| Coverage.ReadProfile | scripts/merge_coverage.py:13-26 | one profile's lines added to the dictionary, skipping what does not parse |
| Coverage.PrintCounts | scripts/merge_coverage.py:30-32 | the mode line, then the blocks in code point order |
| Coverage.SortedKeys | scripts/merge_coverage.py:31 | every key exactly once, in ascending order |
| Strings.LeqIff | scripts/merge_coverage.py:31 | the order of the printed blocks: a prefix first, otherwise by code point at the first difference |
| Coverage.OneLineEach | scripts/merge_coverage.py:30-32 | a printed profile is the mode line and one parsable line for each block, in order |
| PyText.StripShape | scripts/merge_coverage.py:14 | what strip() leaves has no white space at either end |
| PyText.StripSurrounded | scripts/merge_coverage.py:14 | strip() takes the white space at both ends and nothing else |
| PyText.SpaceCharacters | scripts/merge_coverage.py:14 | what counts as white space, code point by code point |
| PyText.RSplitIff | scripts/merge_coverage.py:17-21 | rsplit gives three parts exactly as the last two spaces cut the line |
| PyText.DigitsIff | scripts/merge_coverage.py:23 | int() reads exactly the numerals, each as the number its digits write |
| PyText.ParseIntIff | scripts/merge_coverage.py:23 | int() takes white space around, one sign and a numeral, and nothing else |
| PyText.ShowIsCanonical | scripts/merge_coverage.py:32 | a count is printed as its decimal digits without leading zeros |
| PyText.ParseIntOfShow | scripts/merge_coverage.py:23 | int() undoes printing a count |
| Lines.SplitAfter | scripts/patch-swagger-extensions.py:88-89 | joined lines, a line feed and more text split into those lines and the lines of the rest |
| Lines.SplitJoin | scripts/patch-swagger-extensions.py:113-139 | splitlines undoes the join but for one final empty line |
| Lines.JoinSplit | scripts/patch-swagger-extensions.py:113-139 | joining the lines of a text gives it back, less one final line feed |
| Lines.FindSame | scripts/patch-swagger-extensions.py:146-150 | the first occurrence depends only on the text up to its end |
| Lines.ReplaceOnceIs | scripts/patch-swagger-extensions.py:146-150 | replacing once changes the first occurrence and nothing else |
| Lines.SplitAtBreak | scripts/patch-swagger-extensions.py:113 | any of the ten breaks ends a line, a carriage return with its line feed as one |
| Blocks.AfterMeansInBlock | scripts/patch-swagger-extensions.py:62-75 | the loop's flag says: some opener above is followed by inner lines only |
| Blocks.StripIsOutside | scripts/patch-swagger-extensions.py:62-75 | the strip loop keeps exactly the lines outside blocks, in order |
| Blocks.StripWhole | scripts/patch-swagger-extensions.py:62-75 | stripping a file with one block leaves the lines before and after it |
| Blocks.StripConcat | scripts/patch-swagger-extensions.py:62-75 | stripping goes through a file part by part, handing on the flag |
| SwaggerYaml.Clean | scripts/patch-swagger-extensions.py:60-75 | the skip loop is the strip machine |
| SwaggerYaml.PatchYaml | scripts/patch-swagger-extensions.py:59-89 | the loops compute the patched text |
| SwaggerYaml.CleanedAgain | scripts/patch-swagger-extensions.py:59-89 | what a run inserts, the next one strips, and nothing else |
| SwaggerYaml.LastRunWins | scripts/patch-swagger-extensions.py:59-89 | a run after a run with another table gives what it alone would give; with the same table: idempotent, on every line list |
| SwaggerYaml.LastRunWinsOnText | scripts/patch-swagger-extensions.py:59-90 | the same on file contents, through splitlines and join |
| SwaggerYaml.PatchShape | scripts/patch-swagger-extensions.py:83-89 | exactly one tags block, just before the first securityDefinitions line or at the end; all lines outside earlier blocks kept in order |
| SwaggerYaml.InPlaceIff | scripts/patch-swagger-extensions.py:15 | the new block stands where the file's one block stood iff that one stood right before the first securityDefinitions line, or ended a file without |
| SwaggerYaml.BlockAtTopMoves | scripts/patch-swagger-extensions.py:15 | a concrete file whose block moves down |
| SwaggerYaml.ScalarReadsBack | scripts/patch-swagger-extensions.py:93-98 | quoting and escaping can be undone: no two descriptions are written alike |
| SwaggerYaml.QuotedIff | scripts/patch-swagger-extensions.py:93-98 | a description is quoted exactly when one of the seventeen characters occurs in it |
| SwaggerYaml.BlockReadsBack | scripts/patch-swagger-extensions.py:77-81 | a reader that insists on the tags line and on the two keys of each entry, in their order, gets the tag table back |
| SwaggerJson.PatchJson | scripts/patch-swagger-extensions.py:40-50 | the key-by-key loop and its fallback compute the patched entries |
| SwaggerJson.PatchShape | scripts/patch-swagger-extensions.py:41-50 | distinct keys, one tags entry just before securityDefinitions or last, every other entry with its value and place |
| SwaggerJson.LastRunWins | scripts/patch-swagger-extensions.py:40-51 | the last run decides; idempotent on every object |
| SwaggerJson.InPlaceIff | scripts/patch-swagger-extensions.py:15 | the tags entry keeps its place iff it stood right before securityDefinitions, or last in an object without |
| SwaggerJson.EntryInFrontMoves | scripts/patch-swagger-extensions.py:15 | a concrete object whose tags entry moves |
| SwaggerJson.PopKeepsDistinct | scripts/patch-swagger-extensions.py:42 | popping leaves distinct keys without the popped one |
| SwaggerTags.TableIsOneLine | scripts/patch-swagger-extensions.py:29-33 | the script's own table is departments, operator, internal, and meets what the text-level theorems ask of one |
| SwaggerDocs.KeyEndsBlock | scripts/patch-swagger-extensions.py:123-127 | the branch for depth-one keys never drops a line the other branches would keep, nor the reverse |
| SwaggerDocs.Clean | scripts/patch-swagger-extensions.py:113-137 | the in_tags loop with all its branches is the strip machine |
| SwaggerDocs.PatchDocs | scripts/patch-swagger-extensions.py:105-153 | the patched text; a file without the anchor is left alone |
| SwaggerDocs.FragmentIs | scripts/patch-swagger-extensions.py:141-144 | rendering, indenting, stripping and joining the tags gives the block's lines |
| SwaggerDocs.EmptyFragment | scripts/patch-swagger-extensions.py:142-144 | an empty table is one line, without the block's line breaks |
| SwaggerDocs.EscapeReadsBack | scripts/patch-swagger-extensions.py:142 | for every string, what is written between the quotes is one JSON string (section 7 of RFC 8259) and reads as that string |
| SwaggerDocs.FragmentReadsBack | scripts/patch-swagger-extensions.py:142-144 | a reader that insists on the opening and closing lines, the brace lines, the two keys in order and the commas between objects gets the tag table back |
| SwaggerDocs.TextReadsBack | scripts/patch-swagger-extensions.py:142-144 | the same for the lines of the inserted text |
| SwaggerDocs.EscapeIsPlainIff | scripts/patch-swagger-extensions.py:142 | a text is written as it is exactly when it holds no quote, backslash or control character: nothing else is escaped |
| SwaggerDocs.FragmentIsStripped | scripts/patch-swagger-extensions.py:112-144 | the inserted lines are one block, which stripping removes whole |
| DocsReruns.LastRunWinsIff | scripts/patch-swagger-extensions.py:105-153 | for every text: a further run replaces the block and changes nothing else iff nothing follows the version line on its line and no blank line ends the cleaned text (or no anchor is left) |
| DocsReruns.CleanedAgain | scripts/patch-swagger-extensions.py:112-153 | on such texts the next run's cleaned text is this run's, less one final line feed |
| DocsReruns.Torn | scripts/patch-swagger-extensions.py:146-150 | text after the version line is torn off it by the second run |
| DocsReruns.InsertedLines | scripts/patch-swagger-extensions.py:146-152 | the block's lines stand between the version line and what followed it |
| DocsReruns.PatchShape | scripts/patch-swagger-extensions.py:112-153 | exactly one tags block, right below the version line; all lines outside earlier blocks kept in order, but for one final empty line |
| DocsReruns.InPlaceIff | scripts/patch-swagger-extensions.py:15 | the new block stands where the file's one block stood iff the first version line ended right above it and no empty line ends the file |
| DocsReruns.BlockAboveMoves | scripts/patch-swagger-extensions.py:15 | a concrete file whose block moves below the version line |
| DocsReruns.BlankLinesAtEndBreakIdempotence | scripts/patch-swagger-extensions.py:15 | a concrete file with blank lines at its end that the second run changes |
| DocsReruns.TextAfterVersionBreaksIdempotence | scripts/patch-swagger-extensions.py:15 | a concrete file with text after the version line that the second run changes |

## Left out

- Assumed of code outside the repository: the JSON codec loses nothing on catalogs; a transaction is all or nothing and reports its outcome truthfully; every cache command takes effect atomically or not at all; uuid.New() is fresh; each SQL statement is atomic.
- Store.DepartmentRepository.Insert: stated for tables in the invariant that `Runs.EveryStateValid` proves of every run, and for a fresh id.
- Store.DepartmentRepository.Update: stated for tables in that invariant; what it does on a table no run reaches is not.
- DepartmentServices.DepartmentService.List: stated for tables in that invariant.
- DepartmentServices.DepartmentService.Create: stated for tables in that invariant and a fresh id.
- DepartmentServices.DepartmentService.Patch: stated for tables in that invariant.
- DepartmentHandlers.DepartmentHandler.Patch: stated for tables in that invariant.
- DepartmentHandlers.DepartmentHandler.Create: stated for tables in that invariant and a fresh id.
- PlanServices.PlanService.List: stated for tables in that invariant, where every row scans; `PlanServices.PlanRepository.List` covers rows that do not.
- PlanHandlers.PlanHandler.Patch: which of several nested features an error names is left open, as Go's map order leaves it.
- Which float64 a number literal rounds to is part of the parsed request (`Domain.Literal`); feature values are float64s throughout, as decoding into `any` and jsonb keep them.
- DepartmentServices.DepartmentService.ListAllCached: stated for tables with unique codes, which the unique index ensures.
- Errors.AvailabilityIs503: classes 57 and 58 are matched on the SQLSTATE, not on the text `SQLSTATE 57` in the driver's message.
- Sql.AddIfMeaning: statements are kept parsed; the text with `$n`, commas and `::jsonb` is not rendered.
- Lines.SplitAfter: texts are code points after decoding; universal-newline translation on reading a file is not modelled.
- PyText.ParseIntOfShow: int() takes ASCII digits with optional sign and underscores as modelled in PyText; other Unicode digits and the digit-count limit are not.
- SwaggerJson.PatchJson: json.loads and json.dumps of the whole document are not modelled; the object is taken as its ordered entries.
- SwaggerYaml.LastRunWinsOnText: asks that the earlier tag table's names and descriptions hold no line break; the table in the script qualifies (`SwaggerTags.TableIsOneLine`).
- SwaggerYaml.ScalarReadsBack: undoes the script's own escaping; YAML itself also takes other backslashes in a quoted text as escapes, so a quoted description with a backslash would read differently there (the script's table has none).
- DocsReruns.LastRunWinsIff: asks the same, and that the earlier table is not empty; the table in the script qualifies.
- DepartmentHandlers.BodyStages: case-insensitive member names, repeated members and unknown-field handling of encoding/json are not modelled; nor are body-size limits and content types.
- Numbers outside int4 for the limits and trial days: the outcome depends on the driver; the columns are taken as unbounded.
- NUL characters in text parameters, which Postgres rejects.
- A nil patch passed to PlanRepository.Update, which no caller in the repository does.
- FindByCode, GetByCode, Get and the list handlers: reads of one row or a copy of a list, easy beside the rest.
- TRUNCATE, DDL and writers other than this service.
- Sub-millisecond rounding of the TTL by the cache client.
- Metrics, logging, tracing, health probes, startup, shutdown, environment validation, ApplyStatementTimeout, routing and role middleware, Swagger UI, Helm, dashboards.
- Consumer-side caches (`om:*`, `gm:*`), which live in other repositories.
