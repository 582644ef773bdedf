# Packrune: two stores that must agree

Packrune keeps content-addressed blobs on a filesystem and, in a database, an
`artifacts` table that maps (repository, path) to a digest. This project models
both stores, the operations that write them, and the protocols that run over
them, and proves what every run keeps true between the two.

Code that works in place is modelled in place: the storage backend, the blob
store, the artifact table, the upload handler, the manifest handler, the proxy,
the webhook service, the npm document and the migration database are classes
whose methods change their fields. Each method is proved equal to a function of
the old state, and the theorems are about those functions and about runs of
them. What comes from outside - which backend call, query or statement fails, how
long a request body lasts, clocks, random keys, the order in which a map is walked -
is a parameter. A theorem holds for every choice of it, or says which choices it
needs. The few calls that cannot fail here are under "Left out".

SHA-256 is an uninterpreted function from bytes to 64 lower-case hex digits.
Integrity ("the bytes under a digest's key hash to the digest") needs nothing
more. Where byte strings must be equal and not only their hashes, the lemma asks
that the byte strings in play are collision free (`Cas.CollisionFree` of a set).

## Modules

| file | part of Packrune |
|---|---|
| `Storage.dfy`, `Order.dfy`, `Text.dfy`, `Sequences.dfy` | filesystem backend with its paged listing; string order, string and sequence facts |
| `Cas.dfy` | content-addressed blobs |
| `Artifacts.dfy`, `Groups.dfy`, `Like.dfy` | artifact table, point and list lookup through groups, what they return in terms of the configured members, SQL `LIKE` |
| `Registry.dfy` | both stores together: every row has its blob |
| `Gc.dfy` | the garbage collector as one sequential run |
| `UploadGcProtocol.dfy`, `UploadGcAlone.dfy` | uploads and collector interleaved step by step; the same steps run alone |
| `DockerUpload.dfy`, `DockerManifest.dfy`, `DockerProxy.dfy`, `DockerRoute.dfy` | Docker registry: upload sessions, manifests and tags, proxy, URL routing |
| `DockerSessions.dfy` | which upload sessions are open, and which answers requests get |
| `DockerRuns.dfy`, `DockerDigests.dfy`, `DockerBlobs.dfy` | all requests to one repository in any mixture; digest references and blob rows over such runs; blobs by digest |
| `DockerOverlap.dfy` | uploads that overlap step by step |
| `DockerTags.dfy`, `DockerTagRuns.dfy` | the tag list against the bindings, for given rows and over runs of requests |
| `Webhook.dfy`, `WebhookRuns.dfy`, `WebhookOutcomes.dfy` | webhook deliveries and the retry worker; what a row says in terms of the POSTs made |
| `Npm.dfy`, `NpmRuns.dfy`, `NpmEntries.dfy`, `NpmOverlap.dfy` | npm publishing, one publish after the other, what each tag and version then is, and publishes that overlap step by step |
| `GoModRoute.dfy` | GOPROXY escaping and URL classification |
| `Migrate.dfy`, `MigrationFiles.dfy` | the migration runner and its files |

## Where the code does not do what is said of it

Each of these is a lemma below, with the exact condition under which the code
does keep the promise.

- The collector's comment (cmd/packrune/gc.go:4-7) says it is safe beside
  uploads. It is not: an upload that finds its blob already stored can be
  overtaken by a collection and end with a row and no blob (`DedupRace`).
  `SafeIffNoHazard` and `UploadGcProtocol.RunSafeIffHazardFree` name the steps to avoid, all of
  them, in any run from an empty installation (`StartIsSafe`) or another safe state.
- The comment on temporary keys (internal/storage/cas/cas.go:135-136) says the
  collector reaps them. Their keys have three segments, and the collector skips
  keys with fewer than four, so they stay forever (`StagedSurvives`).
- A prefix listing goes through `LIKE`. It is a literal prefix match exactly for
  prefixes without wildcards, escapes and, on SQLite, letters
  (`ListIsLiteralIffPlain`).
- So the tag list of an image is not always what was tagged. Over runs of requests
  it is, if and only if the database is PostgreSQL and the name has no underscore
  and is one that manifest routing can produce (`TagListExactIff`). On SQLite it
  fails for every name: the PUT that finishes an upload does not check the name in
  its URL (internal/format/docker/upload.go:175-220), and a blob finished under the
  image's name in capitals is listed as a tag (`CapitalsAreListed`). If that name
  were checked, both databases would meet the same condition
  (`TagListExactIffValidated`).
- A manifest put to a digest other than its own is answered 201 and is not found there
  (`ForeignDigestIsLost`); a GET by the reference of an accepted PUT finds it if and
  only if that is a tag or the document's own digest (`CreatedIsServed`).
- A POST that carries a whole blob is answered 201 but leaves its session and
  staged file behind (`CreatedRemovesSessionIffPut`).
- An append between the hashing and the storing of a PUT can end in rows without
  their blob (`IntrusionDanglesIff`). The stores agree throughout a run of
  overlapping uploads if and only if no PUT stores something else than it hashed
  while the hashed content is not stored (`RunSafeIffLateFree`).
- A proxied manifest whose upstream digest header is wrong gets a row without a
  blob (`FetchManifestSoundIff`); discarding a mismatched blob can take away the
  blob of another row (`FetchBlobSoundIff`).
- npm versions are meant to be immutable (internal/format/npm/packument.go:52-55).
  But a publish ignores that it failed to load what is stored, starts from nothing,
  is accepted and replaces it (`FailedLoadForgets`). Over runs of publishes no
  version is ever lost or changed, if and only if no accepted publish failed to load
  and left out some of what is stored (`NpmRuns.RunKeepsVersionsIff`).
- Two publishes to one package that race are both accepted, and what the first
  published is lost unless the second brings it, too (`RaceKeepsIff`). Over every
  interleaving versions are kept if and only if no publish writes the row while
  something is published that it neither loaded nor brings
  (`NpmOverlap.RunKeepsVersionsIff`).
- An npm publish that is refused, as a conflict or otherwise, can have changed the
  artifact table (`RepublishRebinds`). It has not, if and only if every attachment
  it got to store was in the table already, with the same digest, size, media type
  and metadata (`PublishLeavesRowsIff`).
- The server strips `/v2` from a registry URL and the handler strips it again, so
  an image whose name begins with `v2` is taken for what follows: `v2ray` for `ray`
  (`V2RayIsRay`, `V2IsDropped`). Every round trip below holds of stripped paths
  exactly for those that do not begin with `v2`.
- The README promises webhook backoff up to 32 minutes (README.md:418); the
  longest delay ever stored is 16 (`LongestDelayUnused`).
- On PostgreSQL no migration ever runs and no call returns nil
  (`NothingRunsOnPostgres`): the query for the applied versions
  (internal/db/migrate.go:128) compares a boolean column with 0, and PostgreSQL has
  no such comparison. What follows about migrations is about SQLite.
- Two migration files of one version, which a leading zero is enough to make
  (`SpellingsCollide`), end in a nil return with one body never run
  (`TwinIsLost`); nil means that everything ran exactly for distinct versions
  (`NilRanAllIffDistinct`).

## Model

| member | source | states |
|---|---|---|
| `Storage.Backend.Put` | internal/storage/fs/fs.go:74-100 | an object is replaced whole or, on any failure, not at all |
| `Storage.Backend.Delete` | internal/storage/fs/fs.go:146-155 | removes the one key; a missing key is no error |
| `Storage.Backend.List` | internal/storage/fs/fs.go:161-210 | collecting, sorting, binary-searching the token and cutting at the limit gives the first keys, in byte order, of those strictly past the token, and a next token exactly when more remain; a page that is not the last has exactly the limit asked for, or 1000 keys if that is not between 1 and 10000, and its token is its last key |
| `Order.LtIffFirstDifference` | internal/storage/fs/fs.go:195-203 | the order that listings, pages and tag lists are in is ascending byte order: the first difference decides, and a proper beginning comes before the whole |
| `Storage.CursorSkips` | internal/storage/fs/fs.go:196-203 | the position binary search finds, moved past an equal key, cuts the sorted listing exactly at the keys greater than the token |
| `Storage.DirectoryPrefix` | internal/storage/fs/fs.go:165-192 | walking the directory of a prefix finds every key with that prefix if and only if the prefix is empty or ends in a slash |
| `Storage.PageSplits` | internal/storage/fs/fs.go:195-209 | a page followed by all that lies beyond its token is all that lay beyond the previous token; tokens strictly increase and what remains strictly shrinks |
| `Storage.WalkIsSortedListing` | internal/storage/fs/fs.go:157-210 | following next tokens from any token ends, and the pages together are the sorted keys past it, each once |
| `Storage.WalkUnderChange` | internal/storage/fs/fs.go:157-210 | while keys come and go between pages, returned keys still ascend strictly and every key that stays throughout is returned |
| `Cas.CAS.Put` | internal/storage/cas/cas.go:43-78 | temp write, hash, stat, copy, delete, with any of the five backend calls failing: the new store and the result in terms of the old store |
| `Cas.CAS.Get` | internal/storage/cas/cas.go:81-86 | refuses malformed digests and otherwise returns the bytes at the digest's key, or the backend's error |
| `Cas.CAS.Delete` | internal/storage/cas/cas.go:99-104 | refuses malformed digests and otherwise removes exactly the digest's key |
| `Cas.PutSucceedsIff` | internal/storage/cas/cas.go:43-78 | a put succeeds exactly if the bytes can be staged and either are stored already and seen to be or can be copied to their key; a failing delete of the temporary object does not matter |
| `Cas.KeyForInjective` | internal/storage/cas/cas.go:106-133 | different valid digests have different keys |
| `Cas.StagingIsNotABlob` | internal/storage/cas/cas.go:110-142 | a temporary key is no valid digest's key |
| `Cas.BlobDropped` | internal/storage/cas/cas.go:99-104 | after a delete exactly the other blobs can be fetched |
| `Cas.PutKeepsBlobs` | internal/storage/cas/cas.go:43-78 | whatever fails, every stored blob still hashes to its digest and no other blob changes; a success reports the hash and length of the body and makes it fetchable; a failure changes no blob |
| `Cas.CleanPutAddsOnlyTheBlob` | internal/storage/cas/cas.go:43-78 | a faultless put adds the one blob, or nothing if it was there, and leaves no temporary object |
| `Cas.PutStoresTheBytes` | internal/storage/cas/cas.go:43-78 | barring collisions, the bytes fetched by the returned digest are exactly the bytes put |
| `Artifacts.Store.UpsertArtifact` | internal/repo/store.go:112-126 | inserts or overwrites the one row (repository, path), keeping id and creation time of an existing row; an unknown repository is an error and changes nothing |
| `Artifacts.Store.DeleteArtifact` | internal/repo/store.go:278-284 | removes the one row; a missing row is no error |
| `Artifacts.Store.ListArtifactsByPrefix` | internal/repo/store.go:257-274 | exactly the repository's rows whose path matches the pattern, ascending by path, or an error if the query fails |
| `Artifacts.Store.ResolveArtifact` | internal/repo/store.go:155-184 | the first hit along direct repository and members, in order; a member whose queries fail is passed over, a failing query for the repository itself is an error, and the group is only read on a direct miss |
| `Artifacts.Store.ResolveArtifactsByPrefix` | internal/repo/store.go:190-236 | the loops with the `seen` map compute the combined listing along direct repository and members; a member whose queries fail is passed over, the other failures are errors |
| `Artifacts.CombinedHolds` | internal/repo/store.go:186-236 | the combined listing repeats no path and holds, for each matching path, its first hit and nothing else |
| `Artifacts.LookupsAgree` | internal/repo/store.go:155-236 | list and point lookup, written separately, agree whatever queries fail: a list comes back unless a query for the repository itself fails, and an artifact is listed exactly when its path matches and the point lookup of that path, under the same failures, returns this artifact; no path repeats |
| `Artifacts.ListIsLiteralIffPlain` | internal/repo/store.go:255-274 | the list is the resolvable artifacts under the literal prefix, for every database, if and only if the prefix is plain for the database's `LIKE` |
| `Groups.ResolvesFirstPlace` | internal/repo/store.go:155-184 | over the configured members and the rows: a point lookup returns the row at the first place that has the path, the places being the repository itself and then each configured member that exists in its format and can be asked; it is "not found" exactly if no place has it; and it fails exactly if the own query fails, or the one for the group on a direct miss |
| `Groups.ListsFirstPlaces` | internal/repo/store.go:190-236 | in the same terms: the list holds for every matching path the row at its first place, once, and nothing else |
| `Groups.ListIsInPlaceOrder` | internal/repo/store.go:213-235 | the list goes through the places in their order, and through the paths of each place in byte order |
| `Like.WithoutPercent` | internal/repo/store.go:258-260 | a pattern without percent signs and escapes matches exactly the texts that fit it letter by letter |
| `Like.PlainIsLiteral` | internal/repo/store.go:255-260 | for a plain prefix `LIKE` is a literal prefix match |
| `Like.FindsLiteralMatches` | internal/repo/store.go:255-260 | unless the prefix holds an escape character, everything that begins with it is found |
| `Like.LiteralIffPlain` | internal/repo/store.go:255-260 | the converse too: for any other prefix some text is matched or missed wrongly |
| `Gc.Snapshot` | cmd/packrune/gc.go:53-70 | the reference set is the set of digests of all rows, or the query fails |
| `Gc.SweepPage` | cmd/packrune/gc.go:84-108 | one page visited key by key: counters and deletions are those of the page, whichever stats and deletes fail, and in a dry run nothing is deleted |
| `Gc.RunGC` | cmd/packrune/gc.go:53-113 | the paged sweep, though it deletes between pages, reports on and sweeps the complete listing it started with, each key once, whichever stats and deletes fail; a dry run reports the same and changes nothing; an aborted run has swept a beginning of the listing, and after a failed snapshot nothing |
| `Gc.KeyForInverted` | cmd/packrune/gc.go:86-92 | splitting a key gives back the digest it was made from |
| `Gc.Survivors` | cmd/packrune/gc.go:79-108 | a complete run leaves exactly the keys outside `blobs/`, the keys with fewer than four segments and the referenced keys, contents unchanged |
| `Gc.BlobSurvivesIffReferenced` | cmd/packrune/gc.go:79-108 | a blob survives if and only if its digest is referenced |
| `Gc.StagedSurvives` | internal/storage/cas/cas.go:135-142 | leftovers of crashed uploads are never reaped |
| `Gc.AloneKeepsRows` | cmd/packrune/gc.go:53-113 | run alone, the collector leaves every row its blob |
| `Gc.FreedBytesAddUp` | cmd/packrune/gc.go:72-119 | bytes before equal bytes after plus the bytes reported as freed, corrected by exactly the orphans that were counted but could not be deleted and those deleted whose size could not be read |
| `Gc.FreedBytesAreLost` | cmd/packrune/gc.go:72-119 | with every stat and delete working, bytes before equal bytes after plus the bytes reported as freed |
| `UploadGcProtocol.StepKeepsInv` | internal/storage/cas/cas.go:43-104 | every step of any interleaving of puts, deletes, row writes and collection keeps the store intact and every staged upload in place |
| `UploadGcProtocol.ContentIsAlwaysAddressed` | internal/storage/cas/cas.go:43-78 | in every reachable state of every interleaving bytes under a digest's key hash to the digest, and a put that returned has reported hash and length of what it read |
| `UploadGcProtocol.SafeIffNoHazard` | cmd/packrune/gc.go:53-113 | from a safe state a step leads to a safe state exactly when it is not one of the named hazards, among them a put that stores something else than its rows will name |
| `UploadGcProtocol.RunSafeIffHazardFree` | cmd/packrune/gc.go:53-113 | a run stays safe throughout if and only if none of its steps is a hazard |
| `UploadGcProtocol.HazardFreeRunKeepsRows` | cmd/packrune/gc.go:4-7 | no row of a hazard-free run is ever left pointing at a missing blob |
| `UploadGcProtocol.SweepDeletes` | cmd/packrune/gc.go:79-113 | left alone, a running collection reaches and deletes every blob it threatens |
| `UploadGcProtocol.SafeIffCannotDangle` | cmd/packrune/gc.go:53-113 | safety is exactly the impossibility of a dangling row: in a safe state carrying on with what is under way never leaves a row without its blob, in an unsafe one it can |
| `UploadGcProtocol.HazardCanDangle` | cmd/packrune/gc.go:4-7 | after any hazard a dangling row can follow, so no hazard can be dropped from the condition |
| `UploadGcProtocol.KeptApartKeepsRows` | cmd/packrune/gc.go:53-113 | if each upload has its row before the snapshot or starts after the sweep, nothing needed is deleted outright and no put stores something else than its rows will name while that is missing, no row ever dangles |
| `UploadGcProtocol.DedupRace` | cmd/packrune/gc.go:4-7 | for every content a concrete run, deduplicated by the stat hit and then overtaken by a collection, ends with a row and no blob |
| `UploadGcAlone.UploadAloneIsPut` | internal/storage/cas/cas.go:43-78 | the upload steps run one after the other leave and return what the sequential put does |
| `UploadGcAlone.CollectionAloneIsGC` | cmd/packrune/gc.go:53-113 | the collector steps run one after the other leave what the sequential collector does |
| `Registry.PutRowSoundIff` | internal/repo/store.go:112-126 | writing a row keeps "every row has its blob" if and only if its blob is there |
| `Registry.UpsertKeepsIdentity` | internal/repo/store.go:112-126 | a row that is overwritten keeps its id and creation time and takes everything else from the new one, metadata `{}` if none is given; no other row changes |
| `DockerUpload.Handler.AppendChunk` | internal/format/docker/upload.go:95-107 | staged bytes and recorded size grow by what was read, also when the body breaks off |
| `DockerUpload.Handler.FinalizeSession` | internal/format/docker/upload.go:232-264 | hash, compare, put and the two row writes, stopping at the first failure |
| `DockerUpload.Handler.HandleUploadStart` | internal/format/docker/upload.go:131-172 | sessions, stores and answer after a POST, in terms of the state before |
| `DockerUpload.Handler.HandleUploadSession` | internal/format/docker/upload.go:175-228 | sessions, stores and answer after GET, PATCH, PUT or DELETE |
| `DockerUpload.HandleFollows` | internal/format/docker/upload.go:131-228 | a request touches only the session it addresses and appends exactly the bytes it sent |
| `DockerUpload.StagedIsReceived` | internal/format/docker/upload.go:95-228 | over every run the staged bytes of every open session are the bodies sent to it, in order, and the size is their length |
| `DockerUpload.FinalizeSound` | internal/format/docker/upload.go:232-264 | finalize keeps "every row has its blob" whatever fails; success means that the claimed digest is the true one and that blob and both rows are there |
| `DockerUpload.RunSound` | internal/format/docker/upload.go:131-264 | over every run of upload requests every row keeps its blob |
| `DockerUpload.FinishedUploadIsStored` | internal/format/docker/upload.go:199-263 | a PUT answered 201 has stored exactly the received bytes under the claimed digest with both rows, and its session is gone |
| `DockerUpload.FinishCreatedIff` | internal/format/docker/upload.go:199-263 | a PUT is answered 201 exactly if its chunk arrived whole, the claim is the digest of all bytes received, and no read, put or row write failed |
| `DockerUpload.RefusedFinishKeepsSession` | internal/format/docker/upload.go:199-215 | a PUT not answered 201 keeps the session, the final chunk already appended |
| `DockerUpload.CreatedRemovesSessionIffPut` | internal/format/docker/upload.go:151-219 | a 201 removes the session if and only if the request was a PUT |
| `DockerSessions.OpenIff` | internal/format/docker/upload.go:131-228 | over every run, read off the requests and their answers: a session is open exactly if a POST answered 202 or 201 opened it and since then neither a DELETE nor a PUT answered 201 addressed it |
| `DockerSessions.CancelledIsUnknown` | internal/format/docker/upload.go:175-223 | every request to a cancelled session is answered 404 and changes nothing |
| `DockerSessions.StartAnswers` | internal/format/docker/upload.go:131-172 | which answer a POST gets: 202 exactly for a valid name without content, 201 exactly if the whole blob arrived with its true digest and was stored under both rows |
| `DockerSessions.SessionAnswers` | internal/format/docker/upload.go:175-228 | which answer the other requests get: 404 exactly if the session is not open, 204 to GET and DELETE, 202 and 500 to PATCH by whether the body arrived whole; nothing but a PUT touches the stores |
| `DockerSessions.WholePostIsStored` | internal/format/docker/upload.go:151-165 | a POST answered 201 has stored its content under the claimed digest with both rows |
| `DockerSessions.RefusedWritesNoReference` | internal/format/docker/upload.go:249-263 | a POST or PUT not answered 201 has written at most the row of the blob itself, never the one under the name |
| `DockerUpload.RacingAppendIff` | internal/format/docker/upload.go:232-263 | with an append between hashing and storing, a successful finalize keeps the stores in agreement if and only if what it stored has the claimed digest or that blob was there |
| `DockerOverlap.StepSafeIff` | internal/format/docker/upload.go:57-264 | with any number of uploads under way, a step (opening a session, append, hash, store, either row, failure, removal of a session) keeps "every row has its blob, and so has every row still to be written" if and only if it does not store something else than was hashed while the hashed content is missing |
| `DockerOverlap.RunSafeIffLateFree` | internal/format/docker/upload.go:57-264 | so over every interleaving the stores are safe throughout if and only if no such step occurs |
| `DockerOverlap.SafeIffCannotDangle` | internal/format/docker/upload.go:249-263 | that safety is exactly the impossibility of a dangling row: in a safe state the row writes under way never leave one, in an unsafe state they can |
| `DockerOverlap.KeptApartIsSafe` | internal/format/docker/upload.go:95-264 | if nothing is appended to a file between its hashing and its storing, every interleaving is safe throughout |
| `DockerOverlap.IntrusionDanglesIff` | internal/format/docker/upload.go:232-263 | an append in between can lead to a dangling row if and only if it changes the digest and the hashed content is not stored already |
| `DockerOverlap.AloneIsFinalize` | internal/format/docker/upload.go:232-264 | the steps of one PUT run one after the other do what the sequential finalize does, whatever is claimed and whatever fails |
| `DockerOverlap.StoreIsUpload` | internal/format/docker/upload.go:240-249 | in the protocol of uploads and collections, storing is an upload that claims what was hashed and reads what is staged by now; so that protocol's theorems cover overlapping PUTs beside a collection |
| `DockerOverlap.RecordIsWriteRow` | internal/format/docker/upload.go:253-263 | and writing either row is the protocol's writing of a row |
| `DockerManifest.Handler.UploadManifest` | internal/format/docker/manifest.go:95-138 | blob, tag row and digest row after a PUT, stopping at the first failure |
| `DockerManifest.Handler.DeleteManifest` | internal/format/docker/manifest.go:140-147 | the one row is removed, or the request fails and changes nothing |
| `DockerManifest.Handler.ServeManifest` | internal/format/docker/manifest.go:51-93 | the bytes of the blob that the resolved binding names, whatever queries fail and whether or not the blob can be read |
| `DockerManifest.Handler.HandleTagsList` | internal/format/docker/manifest.go:150-181 | for a valid name the references, digests skipped, of the paths the listing returns; otherwise, or if the listing fails, an error |
| `DockerManifest.PathInjective` | internal/format/docker/manifest.go:218-220 | for names that routing can produce a manifest path determines name and reference |
| `DockerManifest.HandleSound` | internal/format/docker/manifest.go:95-147 | every manifest request keeps every row's blob in place |
| `DockerManifest.DeleteUnbindsOnlyItself` | internal/format/docker/manifest.go:140-147 | deleting a reference leaves every other one as served before, a tag's digest binding included |
| `DockerManifest.ManifestAnswers` | internal/format/docker/manifest.go:95-147 | which answer a PUT or DELETE gets: 400 is a matter of the name and the document, 201 takes everything to work, the row of the reference included only if that is a tag, and 202 does not ask whether there was a row |
| `DockerManifest.CreatedBinds` | internal/format/docker/manifest.go:119-133 | a PUT answered 201 has bound the digest of its document, and its reference if that is a tag, with size and media type, and touched no other row |
| `DockerManifest.CreatedIsServed` | internal/format/docker/manifest.go:51-138 | after a PUT answered 201 GET by the digest of its document serves it, whole up to 4 MiB and cut off there; GET by the reference it was put to does, too, if and only if that is a tag or the document's own digest |
| `DockerManifest.ForeignDigestIsLost` | internal/format/docker/manifest.go:119-133 | a document put to a digest that is not its own is answered 201 and is not found there |
| `DockerRuns.RoutedNamesOk` | internal/format/docker/route.go:48-86 | what routing guarantees of names: those of manifest requests are non-empty and hold no manifest separator, those of blob and upload requests hold none before their blob separator except at the very start |
| `DockerRuns.BlobPathsApart` | internal/format/docker/upload.go:257-262 | so the rows of uploads, also under names that no handler checks, are never at the path of a manifest |
| `DockerRuns.StepFollowsEffect` | internal/format/docker/manifest.go:95-147 | one request of any kind (upload, manifest, blob delete, proxy fetch) changes a tag's digest exactly as its own binding or unbinding of that tag says |
| `DockerRuns.RowIsBoundDigest` | internal/format/docker/manifest.go:95-147 | over every mixed run a tag's row names exactly the digest the requests last bound it to |
| `DockerRuns.RunSoundIff` | internal/format/docker/proxy.go:83-161 | over every mixed run, proxy fetches included, every row keeps its blob throughout if and only if no upstream misleads a fetch: no wrong blob whose content a row refers to, no manifest recorded under a digest that is neither its own nor stored |
| `DockerRuns.HostedRunSound` | internal/format/docker/upload.go:131-264 | so over every mixed run of a hosted repository every row keeps its blob |
| `DockerRuns.GetByTagIsLastPut` | internal/format/docker/manifest.go:51-147 | over every mixed run of uploads, manifest requests and deletes on a hosted repository, GET by tag returns the document last put to the tag and not deleted since, unless its query or the blob's read fails |
| `DockerRuns.GroupGetIsLastPut` | internal/format/docker/manifest.go:51-147 | through a group, too: GET by tag returns what was last put to the tag in the repository itself or in its n-th configured member, if no earlier one has the tag, unless a query or read it needs fails |
| `DockerRuns.HostedRunKeepsDigestRows` | internal/format/docker/manifest.go:127-133 | over every such run a row at a digest reference carries that digest |
| `DockerRuns.GetByDigestIsTrue` | internal/format/docker/manifest.go:51-147 | over every such run GET by digest serves bytes with that hash, and serves exactly when the binding is there and its query and the blob's read work |
| `DockerDigests.BoundIffWritten` | internal/format/docker/manifest.go:95-147 | over every mixed run, proxy fetches included, a digest reference is bound exactly if a PUT of a document with that digest was answered 201, or a fetch recorded it, or it was bound at the start, and no DELETE of it was accepted after that |
| `DockerDigests.GetByDigestIffWritten` | internal/format/docker/manifest.go:51-147 | so over every mixed run of a hosted repository GET by digest serves the document with that hash exactly while it is bound in this sense |
| `DockerBlobs.Handler.GetBlob` | internal/format/docker/blob.go:60-84 | the blob store is asked, not the rows; after a clean miss the upstream, and then the blob store again |
| `DockerBlobs.Handler.DeleteBlob` | internal/format/docker/blob.go:84-90 | drops the one row of the blob under this name if the database works, and is accepted either way |
| `DockerBlobs.ServesIff` | internal/format/docker/blob.go:60-84 | what GET of a blob serves always has the digest asked for; it serves exactly if the read works and the blob is there or an upstream sends that very content and it can be stored and read back |
| `DockerBlobs.BlobsOutliveDeletes` | internal/format/docker/blob.go:84-90 | over every mixed run of a hosted repository a stored blob stays what it is, also after its own DELETE |
| `DockerBlobs.RowIffRecorded` | internal/format/docker/blob.go:84-90 | over every mixed run an image has the row of a blob exactly if an upload of it under this name was answered 201, or a fetch recorded it, or it was there at the start, and no DELETE that worked came after |
| `DockerTags.BoundIsListed` | internal/format/docker/manifest.go:160-173 | every bound tag is listed |
| `DockerTags.ListsWhatResolvesIff` | internal/format/docker/manifest.go:149-181 | in every repository, groups included, and whatever rows it has, the tags listed are exactly those a GET finds if and only if the database is PostgreSQL and the name has no underscore |
| `DockerTagRuns.UnderscoreListsAnother` | internal/format/docker/manifest.go:160-173 | an image with an underscore in its name lists the tag of another image after one PUT of a manifest to that other image, on either database |
| `DockerTagRuns.SeparatorListsAnother` | internal/format/docker/manifest.go:160-173 | an image whose name holds `/manifests/` lists a manifest put to the image named by what comes before |
| `DockerTagRuns.LeadingSeparatorListsBlob` | internal/format/docker/upload.go:131-172 | an image whose name begins with `/manifests/` lists a blob uploaded to a longer name |
| `DockerTagRuns.CapitalsAreListed` | internal/format/docker/upload.go:175-220 | on SQLite every image lists a blob whose upload is finished under the image's name in capitals |
| `DockerTagRuns.TagListExactIff` | internal/format/docker/manifest.go:149-181 | the answer to a request for the tags is exactly what the requests have bound, in ascending order and each once, after every run of requests that URLs can carry, if and only if the database is PostgreSQL, the name has no underscore and manifest routing can produce it |
| `DockerTagRuns.TagListExactIffValidated` | internal/format/docker/upload.go:175-220 | over runs in which the names that finish uploads are valid, the list is exact on either database if and only if the name has no underscore and manifest routing can produce it |
| `DockerProxy.Handler.ProxyFetchBlob` | internal/format/docker/proxy.go:83-113 | put, compare, delete on mismatch, row: both stores and the result after a fetch |
| `DockerProxy.Handler.ProxyFetchManifest` | internal/format/docker/proxy.go:118-161 | put, trust in the digest header, tag row and digest row: both stores and the result |
| `DockerProxy.Handler.ServeManifest` | internal/format/docker/manifest.go:51-93 | local binding first; on a miss, but not on a failing query, fetch and look up again; the second lookup and the blob's read may fail |
| `DockerProxy.FetchBlobSoundIff` | internal/format/docker/proxy.go:94-112 | a blob fetch keeps every row's blob if and only if it does not discard content some row refers to |
| `DockerProxy.FetchedBlobIsTrue` | internal/format/docker/proxy.go:94-112 | a successful blob fetch has cached content with the digest asked for |
| `DockerProxy.FetchManifestSoundIff` | internal/format/docker/proxy.go:135-160 | a manifest fetch keeps every row's blob if and only if the digest header, when a row is written, is absent, true, or names a blob already stored |
| `DockerProxy.FetchSucceedsIff` | internal/format/docker/proxy.go:83-161 | a fetch succeeds exactly if the upstream answers and the content can be stored and, for a blob, has the digest asked for; row errors do not count |
| `DockerProxy.FetchOnlyOnMiss` | internal/format/docker/manifest.go:51-61 | a local hit or a failing query fetches nothing and is answered as without an upstream |
| `DockerProxy.MissServesUpstreamIff` | internal/format/docker/manifest.go:51-93 | a GET that finds nothing locally serves what the upstream sent exactly if that could be stored, the digest header was absent or true, the row of the reference asked for was written (a digest has one only if it is the document's own), and the second lookup and the read worked |
| `DockerRoute.ParsedPrintsBack` | internal/format/docker/route.go:37-89 | printing what a path was parsed to gives the path back, up to the optional slash that starts an upload |
| `DockerRoute.TagsListRoundTrips` | internal/format/docker/route.go:48-51 | a tag list path parses back for every name below the mount, and stripped of it exactly if it does not begin with `v2` |
| `DockerRoute.ManifestRoundTripsIff` | internal/format/docker/route.go:48-60 | a manifest path parses back exactly if the name is non-empty with no earlier separator and the reference does not make it a tag list; stripped of the mount, exactly if moreover it does not begin with `v2` |
| `DockerRoute.BlobRoundTripsIff` | internal/format/docker/route.go:48-86 | a blob path parses back exactly under conditions on where the separators first occur; stripped of the mount, exactly if moreover it does not begin with `v2` |
| `DockerRoute.UploadStartRoundTripsIff` | internal/format/docker/route.go:53-65 | the path that starts an upload parses back exactly if no manifest separator comes first; stripped of the mount, exactly if moreover it does not begin with `v2` |
| `DockerRoute.UploadSessionRoundTripsIff` | internal/format/docker/route.go:48-77 | an upload session path parses back exactly under conditions on where the separators first occur; stripped of the mount, exactly if moreover it does not begin with `v2` |
| `DockerRoute.StrippedParsesAlikeIff` | internal/format/docker/route.go:35-39 | a path given without its mount is parsed alike if and only if it does not begin with `v2` |
| `DockerRoute.StrippedRoundTripIff` | cmd/packrune/serve.go:178 | for every route: stripped of the mount its path parses back exactly if it does so below the mount and does not begin with `v2` |
| `DockerRoute.V2IsDropped` | internal/format/docker/route.go:37-39 | a route whose name begins with `v2` is parsed, stripped of the mount, as the one named by the rest |
| `DockerRoute.V2RayIsRay` | internal/format/docker/route.go:37-60 | a manifest of the image `v2ray` is taken for one of `ray` |
| `DockerRoute.ParsedNamesAreRoutable` | internal/format/docker/route.go:53-60 | names parsed from manifest paths are those that the manifest theorems ask for |
| `Webhook.Service.Deliver` | internal/webhook/webhook.go:189-227 | the row after a first attempt: inserted as attempt 1, then delivered or failed if that could be recorded |
| `Webhook.Service.RetryOne` | internal/webhook/worker.go:105-144 | the row after a retry: delivered with one attempt more, or marked for the next |
| `Webhook.Service.MarkRetryRow` | internal/webhook/worker.go:146-168 | one attempt more, with the backoff as next time, or none after the sixth |
| `Webhook.Service.RunOnce` | internal/webhook/worker.go:71-103 | a round retries the rows of its batch, as read and but for those that cannot be read, in order |
| `Webhook.StepKeepsInv` | internal/webhook/worker.go:71-168 | in every state of every run the row's columns agree with the POSTs that were made, and a queued row is as it was read |
| `WebhookRuns.AtMostSixPosts` | internal/webhook/worker.go:23-27 | a delivery is posted at most six times, plus once for every outcome that could not be recorded |
| `WebhookRuns.UnrecordedPostsNeverEnd` | internal/webhook/worker.go:133-168 | recording is needed for that bound: from every state without it any delivery in a batch can be posted any number of times |
| `WebhookRuns.AttemptsAreSpaced` | internal/webhook/worker.go:29-37 | in every run, whatever could not be recorded, the POST after the k-th recorded one starts no earlier than 2^(k-1) minutes after that one ended, k from 2 to 5; six recorded attempts span half an hour |
| `WebhookRuns.FirstFailureIsEligible` | internal/webhook/webhook.go:195-226 | a failed first attempt may be retried at once |
| `WebhookRuns.LongestDelayUnused` | internal/webhook/worker.go:29-37 | in no run does a stored delay exceed 16 minutes after the last POST |
| `WebhookRuns.SettledRowsStay` | internal/webhook/worker.go:73-80 | "delivered" is final, and a row left "pending" by a crash is never retried |
| `WebhookRuns.RetriesAreBounded` | internal/webhook/worker.go:71-168 | over any run recorded retries plus remaining attempts are bounded by the attempts at the start and five per new delivery |
| `WebhookRuns.NotStarved` | internal/webhook/worker.go:71-103 | over every run an eligible row is left out of rounds only as often as fifty goes into the attempts older rows have left plus what was excused: outcomes not recorded, rows not read, rounds cut short, older rows added |
| `WebhookRuns.UnrecordedRoundsStarve` | internal/webhook/worker.go:133-168 | the excuse for unrecorded outcomes is needed: without recording a row that fifty older ones keep out can be left out any number of times |
| `WebhookOutcomes.StatusTellsOutcome` | internal/webhook/webhook.go:189-227 | over every run, from the POSTs that were made: a row is "delivered" exactly if one succeeded and this was recorded, "failed" exactly if outcomes were recorded but no success, "pending" exactly if none was; no batch holds a delivery with a recorded success |
| `WebhookOutcomes.NoPostAfterSuccess` | internal/webhook/worker.go:71-144 | once a success was recorded the delivery is never posted again, even if its row was queued, read or deleted meanwhile |
| `WebhookOutcomes.SuccessIsLast` | internal/webhook/worker.go:71-144 | so in every run from the beginning a recorded success is the last POST of its delivery |
| `WebhookOutcomes.EligibleIffDue` | internal/webhook/worker.go:73-80 | over every run a row may be retried exactly if its subscription is there, one to five outcomes are recorded, none a success, and the backoff after the last one is over; after the first there is none |
| `WebhookOutcomes.RowStays` | internal/webhook/worker.go:71-168 | a row goes with its subscription and only then, and no step changes its subscription or its age |
| `WebhookOutcomes.ReadsTheRest` | internal/webhook/worker.go:87-98 | a round retries every row of its batch that can be scanned, and no other |
| `WebhookOutcomes.RoundIsRunOnce` | internal/webhook/worker.go:71-103 | one call of the worker's round is, step by step, a round of the state machine that the theorems over runs speak of |
| `Npm.Document.MergeFrom` | internal/format/npm/packument.go:56-99 | whatever the order in which the maps are walked, the merge succeeds exactly if no posted version is stored, and then every posted version, tag and time has its posted value, every other one is as it was, and texts and maintainers are the posted ones where there are any; no existing version changes even on failure |
| `Npm.AddNew` | internal/format/npm/packument.go:73-78 | the version loop succeeds exactly on disjoint key sets and then computes the union |
| `Npm.OrderDoesNotMatter` | internal/format/npm/packument.go:73-78 | every explicit walking order succeeds on exactly the same inputs and computes the same map |
| `Npm.Handler.PersistTarballs` | internal/format/npm/handler.go:262-281 | blobs and rows of the attachments, in order, up to the first failure |
| `Npm.Handler.PublishPackument` | internal/format/npm/handler.go:234-310 | both stores and the answer after a publish, with a stored document read as far as it parses and taken for none when its row or blob cannot be read |
| `NpmRuns.PublishSound` | internal/format/npm/handler.go:251-305 | a publish keeps every row's blob in place whatever fails |
| `NpmRuns.PublishOutcome` | internal/format/npm/handler.go:251-310 | answered 201 the stored document is the merge of what was loaded with what was posted and the versions were new to what was loaded, answered otherwise it is unchanged; other packages are never touched |
| `NpmRuns.PublishKeepsIff` | internal/format/npm/handler.go:251-305 | a publish keeps every published version with its metadata if and only if it is not an accepted one that failed to load what is stored and left out some of it |
| `NpmRuns.FailedLoadForgets` | internal/format/npm/handler.go:251-260 | whatever is stored, when the query for its row fails a publish is accepted and its versions are all that is left |
| `NpmRuns.RunKeepsVersionsIff` | internal/format/npm/handler.go:251-305 | over every run of publishes no version is taken away or changed if and only if none of them is of that kind |
| `NpmRuns.VersionsAreForever` | internal/format/npm/packument.go:73-78 | and then a version that maps to some metadata maps to it forever |
| `NpmOverlap.StepKeepsVersionsIff` | internal/format/npm/handler.go:251-305 | with any number of publishes under way, a step (load, tarball, store, row, end) takes away or changes a published version if and only if it writes a row while something is published that its publish neither loaded nor brings |
| `NpmOverlap.RunKeepsVersionsIff` | internal/format/npm/handler.go:251-305 | so over every interleaving the versions of a package stay if and only if no such step occurs |
| `NpmOverlap.KeptApartKeepsVersions` | internal/format/npm/handler.go:251-305 | if every load works and no two publishes of the package overlap from load to row, every interleaving keeps its versions |
| `NpmOverlap.SecondRowKeepsIff` | internal/format/npm/handler.go:251-305 | of two publishes that loaded the same, the second to write its row keeps what the first has published if and only if it brings all of that itself |
| `NpmOverlap.RaceKeepsIff` | internal/format/npm/handler.go:251-305 | from every state two publishes of new versions can race, are both accepted, and leave the versions of the first only if the second brings them |
| `NpmOverlap.AloneIsPublish` | internal/format/npm/handler.go:251-305 | the steps of one publish run one after the other do what the sequential publish does, whatever fails |
| `NpmEntries.MergePublishes` | internal/format/npm/packument.go:56-99 | the same of the merge as the theorems use it, for versions, tags and times alike |
| `NpmEntries.EntryIsLastPosted` | internal/format/npm/handler.go:251-310 | after any run of publishes, to any packages, a tag, version or time maps to the value that the last accepted publish carrying it gave, and is there exactly if there was one; only an accepted publish that failed to load the document takes others away |
| `NpmEntries.FaultlessAnswers` | internal/format/npm/handler.go:234-310 | when storing works a publish is answered 400 exactly for an unreadable body or another name, 409 exactly if a posted version is among those loaded, and 201 otherwise |
| `NpmRuns.ConflictRebindsTarballs` | internal/format/npm/handler.go:262-287 | whatever a publish is answered, every file it got to store is bound to its bytes, and a conflict has stored every file it carried |
| `NpmRuns.PublishLeavesRowsIff` | internal/format/npm/handler.go:251-310 | a publish leaves the artifact table as it was, whatever it is answered, if and only if every attachment it got to store was there already and an accepted one stored the same document again |
| `NpmRuns.RepublishRebinds` | internal/format/npm/handler.go:262-287 | a publish repeated after it was accepted is refused as a conflict and binds the file it carries; the table is then unchanged exactly if the file was bound to these bytes before |
| `NpmRuns.LostBlobForgetsVersions` | internal/format/npm/handler.go:251-287 | with the stored document's blob gone no publish is refused as a conflict, and an accepted one replaces all that was published |
| `GoModRoute.DecodeModule` | internal/format/gomod/route.go:90-113 | the index loop decodes its input |
| `GoModRoute.DecodeSucceedsIff` | internal/format/gomod/route.go:90-113 | decoding succeeds exactly if the text is non-empty and every `!` is followed by a lower-case letter; the result has no `!` |
| `GoModRoute.DecodeEncodeIff` | internal/format/gomod/route.go:87-113 | a module path survives escaping and decoding exactly if it is non-empty and has no `!` |
| `GoModRoute.EncodeDecodeIff` | internal/format/gomod/route.go:87-113 | accepted text is the escape of its decoding exactly if it has no capital letter |
| `GoModRoute.LatestRoundTripsIff` | internal/format/gomod/route.go:39-46 | the URL of the latest version parses back exactly for non-empty modules without `!` |
| `GoModRoute.ListRoundTripsIff` | internal/format/gomod/route.go:48-55 | the URL of the version list parses back exactly for non-empty modules without `!` |
| `GoModRoute.FileRoundTripsIff` | internal/format/gomod/route.go:57-82 | the URL of a version file parses back exactly if moreover the version is non-empty and `/@v/` does not occur again |
| `Migrate.Database.ApplyMigration` | internal/db/migrate.go:144-168 | the version table and the committed bodies after one transaction, wherever it fails |
| `Migrate.Database.ApplyMigrations` | internal/db/migrate.go:26-57 | the loop over the sorted list with the applied versions read once |
| `Migrate.CallAdvances` | internal/db/migrate.go:26-57 | on an ascending list the transactional loop does exactly what a counter with a stuck flag does |
| `Migrate.RunIsProgress` | internal/db/migrate.go:26-168 | over any run of calls, by older and newer releases, with any failures, the committed migrations are a beginning of the list, each once, and at most the next one has a dirty row |
| `Migrate.CommittedStays` | internal/db/migrate.go:26-168 | committed migrations are never undone or repeated |
| `Migrate.NilMeansAllApplied` | internal/db/migrate.go:26-57 | a call returns nil exactly if nothing is in the way; then its whole list is committed and a further call returns nil and changes nothing |
| `Migrate.NothingRunsOnPostgres` | internal/db/migrate.go:127-131 | over every run of calls on PostgreSQL nothing is ever committed or marked, and no call returns nil |
| `Migrate.DirtyIsFinal` | internal/db/migrate.go:158-164 | once a version's row is dirty it stays dirty, no later call commits that version, and no call that lists it returns nil |
| `Migrate.RunOncePerVersion` | internal/db/migrate.go:162-164 | whatever lists the calls bring, no two bodies of one version are ever both committed |
| `Migrate.NilRanAllIffDistinct` | internal/db/migrate.go:26-57 | after a run of calls that ended in nil the whole list has run in order if and only if its versions are distinct |
| `Migrate.TwinIsLost` | internal/db/migrate.go:44-52 | with two bodies of one version the second call returns nil although the second body never ran |
| `MigrationFiles.LoadMigrations` | internal/db/migrate.go:67-103 | the files' migrations, each once, sorted by version, or an error |
| `MigrationFiles.GatherRefusesIff` | internal/db/migrate.go:73-100 | loading fails if and only if some migration file has no version or cannot be read |
| `MigrationFiles.GatherHolds` | internal/db/migrate.go:73-100 | what is loaded are the migrations of the well-named files and nothing else |
| `MigrationFiles.NamedFileParses` | internal/db/migrate.go:65-99 | a file named in the documented way is found under the value of its digits |
| `MigrationFiles.SpellingsCollide` | internal/db/migrate.go:82-99 | different file names can have the same version |

## Left out

- Atomicity of a backend `Put`: the temporary file and rename inside it are one step here, so a temporary file in a listed directory, which the collector would take for an orphan key of four segments, does not appear.
- `Backend.Append`, leading slashes in keys, and clashes between a file and a directory of the same name.
- UploadGcProtocol.SafeIffNoHazard: the collector's stat and delete of one key are one step, and a snapshot is one statement; a failed listing or snapshot is the abort step.
- Gc.RunGC: sizes are those at the moment of the visit, because nothing else runs.
- Artifacts.Store.ListArtifactsByPrefix: `ORDER BY path` is byte order, the collation of SQLite and of PostgreSQL's `C` locale.
- DockerUpload.FinishedUploadIsStored: requests run one at a time; overlapping uploads are the subject of `DockerOverlap`, where each read of the staged file sees one state of it, the put is one step, and the size counter of a session is left out.
- DockerManifest.Handler.ServeManifest: a body that breaks off after the answer has begun.
- DockerTagRuns.TagListExactIff: speaks of repositories that are no groups, starting empty, with queries that work; groups are the subject of `ListsWhatResolvesIff`, over given rows.
- DockerRuns.GetByTagIsLastPut: hash collisions between the documents of the run and the blobs stored at its end are excluded.
- DockerRuns.RunSoundIff: GET of a blob appears in a run only as the fetch it causes on a proxy; what it serves is the subject of `DockerBlobs`.
- DockerBlobs.Handler.GetBlob: HEAD, which asks for the size and not the bytes.
- DockerSessions.OpenIff: the random id of a new session is never that of an open one.
- NpmEntries.FaultlessAnswers: which error comes first when several attachments cannot be stored.
- NpmRuns.PublishOutcome: hash collisions among the bytes stored are excluded; JSON is a function that writes a document and one that reads bytes over a document, as far as they parse. Version metadata is its parsed value, since storing re-indents the text; what is written must read back to the same values.
- NpmOverlap.RunKeepsVersionsIff: a blob put is one step, and nothing deletes blobs meanwhile.
- Webhook.Service.RunOnce: a failing query of the worker is a round that does not take place; the shutdown of the worker is a step of the state machine.
- Migrate.Database.ApplyMigration: SQL bodies are opaque, so removing the duplicate `CREATE TABLE` from the first one is not modelled; two processes migrating at once are not modelled.
- Npm.Handler.PublishPackument: writing a parsed document as JSON does not fail.
- Path normalisation by the HTTP router before the route parsers see a URL.
- HTTP methods, headers and status texts beyond the outcome of each request.
- PyPI's rows of size 0, which have no blob by design and are outside "every row has its blob"; the Helm, PyPI, Maven and Go upload handlers and the npm proxy, which repeat the put-then-upsert step.
- Maven's version index and path splitting: easy once listing and sorting are modelled.
- Authentication, audit, configuration, the admin API, backup and restore, and the web front end.
