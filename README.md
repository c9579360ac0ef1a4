# ALTO editor service: a verified model of its core

The ALTO editor is a Spring service for correcting OCR output. Each page of a
digitised document lives in a Kramerius digital library under a PID of the form
`uuid:<u>`. The service keeps numbered versions of the page's ALTO XML (the
Library of Congress layout format) together with their owners and review states.
It imports a page's ancestors from Kramerius and stores ALTO and OCR text in an
Akubra object store. It also runs OCR engines as batch jobs. The repository is
half migrated: the live `domain`/`infrastructure` packages sit beside older
`core`/`process` copies. A Python helper script, `pero-vut.py`, submits one image
to the PERO OCR web service.

This project models that core in Dafny and proves properties of it. One module
stands for each area of the source:

- `AltoVersions` and `AltoVersionSvc`: the ALTO version table and its review
  lifecycle.
  - Version 0 is fetched from Kramerius.
  - A new version is one above the maximum and starts PENDING.
  - A user's PENDING version is edited in place.
  - Accepting a version archives the other ACTIVE ones.
  - The repository queries are functions over the table; the service is a class
    over the table and the store.
- `ObjectHierarchy` and `RetrieveHierarchy`:
  - the import of a page's ancestors (the upward walk with a stack, then creation
    root first, then the page-count refresh);
  - the breadth-first retrieval batch over a hierarchy.
- `DigitalObjects`, `DomainObjects` and `CoreObjects`: the older digital-object
  table in its two copies.
  - The `domain` copy has integer versions.
  - The `core` copy has `"p.n"` text versions.
  - Both copies share the priority pick of the ALTO to show and the pick of the
    row an edit goes into.
- `Batches`, `BatchOrder`, `GeneratorRun`, `ExternalCommands` and `Engines`:
  - the batch record and its setters;
  - the startup sweep of RUNNING batches;
  - the dispatcher's priority order;
  - the fixed step sequence of the OCR generator in both copies;
  - the engines' command lines and configuration checks;
  - the engine list pages.
- `AltoText`: plain text from an ALTO tree, the version-string increment and the
  schema check.
- `Akubra`: datastream keys, the upsert into the key-value store and the choice
  of a FOXML datastream's latest version.
- `Uuids`, `Users`, `KrameriusSettings`, `StoreSettings`, `UserFactory` and
  `ErrorHandler`: PID and UUID text, users, URL trimming and endpoint joining,
  store-pattern normalisation, Kramerius role mapping and the mapping of
  upstream HTTP errors (server errors are the 5xx class of section 15.6 of
  RFC 9110).
- `PeroClient`: `pero-vut.py`.
  - The file-system and the HTTP server are a value the script reads and
    changes.
  - The poll loop runs over a finite sequence of server replies.
- `JavaText` and `Wrappers`: the Java library behaviour the rest relies on
  (`String.split`, `trim`, `Integer.parseInt` and `int` wrap-around) and the
  `Option` and `Result` types.

Stateful parts are classes whose methods are proved against specification
functions:

- a repository class holds the table as a `seq` and the next sequence id;
- a store class holds the datastreams as a `map`;
- a service class reads both through `Now()`, and each of its methods ensures
  that the new state and the result are what its specification function gives
  for the old state.

The properties are lemmas about those functions.

Where the code and its documentation disagree, the model follows the code:

- `setStateForObject` sets any state on any row. Its doc comments and the
  controller's documentation describe rejecting or archiving a PENDING version
  only. `AltoVersions.GuardedStateTransition` states the documented rule
  separately and shows where the two differ.
- In `pero-vut.py`, the wait for a "success" status after the processing request
  never fetches the status again. A status other than "success" therefore makes
  the script spin forever; it is not a harmless guard. The model calls this
  outcome `Hangs`.
- In `pero-vut.py`, the ALTO result is downloaded once, right after the text
  result is ready, and is not awaited. An ALTO reply that is not ready yet leaves
  the ALTO output unwritten while the script still exits 0
  (`PeroClient.AltoNotAwaited`).
- Several source files call members that the classes they use do not declare:
  - `findByDigitalObjectUuidAndUserId`;
  - `updateOrCreateKrameriusVersion`;
  - `processedItemCount`;
  - the `domain` digital-object repository's priority and update-candidate
    queries;
  - `batch.getUuid()`;
  - `d.versionXml` and `d.updated` in the `core` repository's ranked
    queries, read as the entity's `version` and `date` columns;
  - `findByPidAndInstanceId` in the `core` repository, read as a lookup by
    the `instance` column;
  - the Batch builder's `createdBy`, kept as a `createdBy` user id on the
    batch record;
  - `batch.getCreatedAt()` in the processes' constructors, read as the
    batch's `createDate`;
  - `contentHash` and `presentInInstances` of the ALTO version entity,
    kept as two columns of the version row that only the repository's
    queries read and write;
  - `digitalObjectService.createFromKrameriusMetadata`, read as building a
    hierarchy object from the metadata under the given parent, the way the
    hierarchy builder does (`ObjectHierarchy.BuildObject`).

  These are given their evident meaning. The two ranked queries take the
  declarations of the `core` repository.

## Model

| member | source | states |
|---|---|---|
| Akubra.DsKey | src/main/java/cz/inovatika/altoEditor/infrastructure/storage/AkubraService.java:102-104 | the key is pid, "+", the datastream name, "+", the name again, "." and the version |
| Akubra.DsKeyInjective | src/main/java/cz/inovatika/altoEditor/infrastructure/storage/AkubraService.java:102-104 | for one pid, different (datastream, version) pairs never share a key |
| Akubra.AddObject | src/main/java/cz/inovatika/altoEditor/infrastructure/storage/AkubraService.java:118-122 | the low-level add fails exactly when the key exists, and otherwise adds that one key with the content |
| Akubra.ReplaceObject | src/main/java/cz/inovatika/altoEditor/infrastructure/storage/AkubraService.java:109-115 | the low-level replace fails exactly when the key is missing, and otherwise keeps the key set and sets the content |
| Akubra.FirstDatastream | src/main/java/cz/inovatika/altoEditor/infrastructure/storage/AkubraService.java:87-89 | None exactly when no datastream has the ID, otherwise the index of the first one that has it |
| Akubra.GetLatestDsVersionBinaryContent | src/main/java/cz/inovatika/altoEditor/infrastructure/storage/AkubraService.java:84-100 | the last version's content of the first datastream with the ID, null exactly when no datastream has it |
| Akubra.AkubraStore.SaveDatastreamContent | src/main/java/cz/inovatika/altoEditor/infrastructure/storage/AkubraService.java:106-123 | upsert: afterwards the key of (pid, ds, version) holds the content and every other key is unchanged |
| Akubra.AkubraStore.SaveAltoContent | src/main/java/cz/inovatika/altoEditor/infrastructure/storage/AkubraService.java:125-128 | the upsert under the ALTO datastream |
| Akubra.AkubraStore.SaveOcrContent | src/main/java/cz/inovatika/altoEditor/infrastructure/storage/AkubraService.java:130-132 | the upsert under the TEXT_OCR datastream |
| Akubra.AkubraStore.RetrieveDsBinaryContent | src/main/java/cz/inovatika/altoEditor/infrastructure/storage/AkubraService.java:134-158 | "Datastream does not exist" for a missing key; otherwise all the stored bytes, copied by the 4096-byte read loop |
| Akubra.SaveThenRetrieve | src/main/java/cz/inovatika/altoEditor/infrastructure/storage/AkubraService.java:106-158 | after a save the key reads back the saved bytes, and the other (datastream, version) keys of the pid are as present as before |
| Users.GetUserById | src/main/java/cz/inovatika/altoEditor/domain/service/UserService.java:54-57 | found exactly when some user has the id, and then that user; otherwise "User not found" |
| Users.GetUserByUsername | src/main/java/cz/inovatika/altoEditor/domain/service/UserService.java:66-69 | found exactly when some user has the username, and then that user; otherwise "User not found" |
| Users.UserRepository.CreateUser | src/main/java/cz/inovatika/altoEditor/domain/service/UserService.java:33-44 | a taken username is refused and nothing changes; otherwise a user with the uid, the username and a fresh id is appended, and ids and usernames stay unique |
| Users.CreatedUserIsFound | src/main/java/cz/inovatika/altoEditor/domain/service/UserService.java:33-69 | a created user is found again both by id and by username |
| Uuids.ParseUuid | src/main/java/cz/inovatika/altoEditor/domain/adapter/PidAdapter.java:14 | UUID.fromString accepts exactly the 8-4-4-4-12 hex text, giving its lower-case form |
| Uuids.ParseUuidText | src/main/java/cz/inovatika/altoEditor/domain/model/ObjectHierarchyNode.java:85-87 | parsing a UUID's text gives the UUID back |
| Uuids.PidOf | src/main/java/cz/inovatika/altoEditor/domain/model/ObjectHierarchyNode.java:85-87 | getPid is "uuid:" followed by the UUID's text |
| Uuids.PidOfInjective | src/main/java/cz/inovatika/altoEditor/domain/model/ObjectHierarchyNode.java:85-87 | different UUIDs have different PIDs |
| Uuids.UuidOfPid | src/main/java/cz/inovatika/altoEditor/domain/adapter/PidAdapter.java:11-14 | a PID without "uuid:" is refused; otherwise the result is the parse of the text after the first 5 characters |
| Uuids.ToUuid | src/main/java/cz/inovatika/altoEditor/domain/adapter/PidAdapter.java:7-15 | null gives null, a PID without "uuid:" throws, and otherwise the parse of the rest |
| Uuids.ToUuidOfPid | src/main/java/cz/inovatika/altoEditor/domain/adapter/PidAdapter.java:14 | toUuid is a left inverse of getPid: toUuid("uuid:" + u) = u |
| Uuids.PidOfToUuid | src/main/java/cz/inovatika/altoEditor/domain/adapter/PidAdapter.java:7-15 | for a PID with canonical lower-case UUID text, getPid of toUuid gives the PID back |
| Uuids.ParsePid | src/main/java/cz/inovatika/altoEditor/infrastructure/kramerius/model/KrameriusObjectMetadata.java:23-26 | the second ':'-field of pid.split(":") parsed as a UUID; a PID with fewer than two fields fails |
| Uuids.ParentUuid | src/main/java/cz/inovatika/altoEditor/infrastructure/kramerius/model/KrameriusObjectMetadata.java:32-34 | getParentUuid fails on a null parent PID and otherwise parses it |
| Uuids.ParsePidIgnoresPrefix | src/main/java/cz/inovatika/altoEditor/infrastructure/kramerius/model/KrameriusObjectMetadata.java:23-26 | whatever the namespace before the first ':' and whatever fields follow, the UUID in the second field is returned |
| Uuids.ParsePidAgreesWithToUuid | src/main/java/cz/inovatika/altoEditor/infrastructure/kramerius/model/KrameriusObjectMetadata.java:23-26 | on "uuid:" PIDs the metadata parser and PidAdapter.toUuid accept the same texts and give the same UUID |
| Uuids.ClipTitle | src/main/java/cz/inovatika/altoEditor/domain/model/ObjectHierarchyNode.java:75-82 | a title over 255 characters becomes its first 252 characters plus "...", 255 in all; shorter titles and null are kept |
| Uuids.NodeParentPid | src/main/java/cz/inovatika/altoEditor/domain/model/ObjectHierarchyNode.java:89-91 | null exactly when there is no parent, otherwise a PID that parses back to the parent's UUID |
| Uuids.NodePidRoundTrip | src/main/java/cz/inovatika/altoEditor/domain/model/ObjectHierarchyNode.java:65-73 | the builder's pid() followed by getPid gives the PID back |
| StoreSettings.NormalizedPattern | src/main/java/cz/inovatika/altoEditor/config/properties/StoreProperties.java:20-22 | every 'x' becomes '#' and every other character is kept, so no 'x' is left |
| StoreSettings.NormalizedPatternIdempotent | src/main/java/cz/inovatika/altoEditor/config/properties/StoreProperties.java:20-22 | normalising twice is normalising once |
| StoreSettings.NormalizedPatternFixes | src/main/java/cz/inovatika/altoEditor/config/properties/StoreProperties.java:20-22 | a pattern without 'x' is returned unchanged |
| StoreSettings.DefaultPatternNormalized | src/main/java/cz/inovatika/altoEditor/config/properties/StoreProperties.java:16-21 | the default pattern "xx" normalises to "##" |
| UserFactory.MappedRoles | src/main/java/cz/inovatika/altoEditor/infrastructure/kramerius/model/KrameriusUserFactory.java:25-27 | a role is in the list exactly when some role name maps to it; unknown names are dropped |
| UserFactory.Distinct | src/main/java/cz/inovatika/altoEditor/infrastructure/kramerius/model/KrameriusUserFactory.java:28 | distinct(): the same roles, without duplicates |
| UserFactory.From | src/main/java/cz/inovatika/altoEditor/infrastructure/kramerius/model/KrameriusUserFactory.java:19-37 | Map.of refuses equal editor and curator names; otherwise the user keeps the username and has no duplicate roles |
| UserFactory.FromFlags | src/main/java/cz/inovatika/altoEditor/infrastructure/kramerius/model/KrameriusUserFactory.java:31-36 | editor is set exactly when the editor role name is given and EDITOR is in the roles; the same for curator |
| UserFactory.FromIgnoresUnknown | src/main/java/cz/inovatika/altoEditor/infrastructure/kramerius/model/KrameriusUserFactory.java:25-27 | an unmapped role name changes nothing |
| UserFactory.FromRepeatedName | src/main/java/cz/inovatika/altoEditor/kramerius/domain/KrameriusUserFactory.java:26-30 | a repeated role name gives its role once |
| KrameriusSettings.DropSlashRun | src/main/java/cz/inovatika/altoEditor/config/properties/KrameriusProperties.java:32-34 | the final run of '/' is removed: the result followed by slashes only is the input, and it does not end in '/' |
| KrameriusSettings.FinalTerminator | src/main/java/cz/inovatika/altoEditor/config/properties/KrameriusProperties.java:32-34 | the line terminator before which the regex `$` also matches: "\r\n" or one terminator character ending the text, and none exactly when the text does not end in one |
| KrameriusSettings.StripTrailingSlashes | src/main/java/cz/inovatika/altoEditor/config/properties/KrameriusProperties.java:32-34 | replaceAll("/+$", ""): the input loses the run of '/' just before its final line terminator, or at its end when it has none; the text before the run and the terminator are kept, and the result does not end in '/' |
| KrameriusSettings.StripWithoutTerminator | src/main/java/cz/inovatika/altoEditor/config/properties/KrameriusProperties.java:32-34 | a URL that does not end in a line terminator loses exactly its final run of '/' |
| KrameriusSettings.StripTrailingSlashesIdempotent | src/main/java/cz/inovatika/altoEditor/config/properties/KrameriusProperties.java:32-34 | trimming a trimmed URL without line terminators changes nothing |
| KrameriusSettings.StripIgnoresExtraSlashes | src/main/java/cz/inovatika/altoEditor/config/properties/KrameriusProperties.java:32-34 | extra trailing slashes do not change the trimmed URL when the URL does not end in a line terminator |
| KrameriusSettings.StripSecondPassRemovesMore | src/main/java/cz/inovatika/altoEditor/config/properties/KrameriusProperties.java:32-34 | with line terminators inside, a second trim can remove more: "a/\r/\n" trims to "a/\r\n", which trims to "a\r\n" |
| KrameriusSettings.DropIgnoresExtraSlashes | src/main/java/cz/inovatika/altoEditor/config/properties/KrameriusProperties.java:32-34 | extra slashes do not change the removal of the final run |
| KrameriusSettings.BuildEndpoint | src/main/java/cz/inovatika/altoEditor/config/properties/KrameriusProperties.java:36-41 | a null or blank endpoint throws, and only then |
| KrameriusSettings.BuildEndpointJoin | src/main/java/cz/inovatika/altoEditor/config/properties/KrameriusProperties.java:36-41 | the trimmed URL followed by the endpoint, with one '/' added when the endpoint does not start with one |
| KrameriusSettings.BuildEndpointIgnoresTrailingSlashes | src/main/java/cz/inovatika/altoEditor/config/KrameriusConfig.java:24-33 | trailing slashes on a configured URL that does not end in a line terminator do not change any endpoint |
| KrameriusSettings.BuildEndpointWithoutUrl | src/main/java/cz/inovatika/altoEditor/config/properties/KrameriusProperties.java:33-40 | with a null URL the string concatenation yields "null/..." |
| KrameriusSettings.DefaultInstanceId | src/main/java/cz/inovatika/altoEditor/config/properties/KrameriusProperties.java:44-47 | fails exactly when no instance is configured, otherwise returns one of the configured ids |
| ErrorHandler.HandleAltoEditorException | src/main/java/cz/inovatika/altoEditor/presentation/rest/GlobalExceptionHandler.java:25-32 | status 500 with the exception's message in the body; a null message makes Map.of throw |
| ErrorHandler.BodySnippet | src/main/java/cz/inovatika/altoEditor/presentation/rest/GlobalExceptionHandler.java:46-48 | "(no body)" for a null or blank body, the body itself up to 2000 characters, otherwise its first 2000 characters plus "..." |
| ErrorHandler.HandleUpstreamHttpError | src/main/java/cz/inovatika/altoEditor/presentation/rest/GlobalExceptionHandler.java:34-57 | fails exactly when the code is neither 5xx nor a known HttpStatus; otherwise the body carries the response status, the upstream code, the snippet and the reason phrase or "Upstream error" |
| ErrorHandler.ServerErrorsBecomeBadGateway | src/main/java/cz/inovatika/altoEditor/presentation/rest/GlobalExceptionHandler.java:42-44 | every 5xx upstream code (section 15.6 of RFC 9110) is answered with 502 Bad Gateway (section 15.6.3) |
| ErrorHandler.OtherStatusPassedThrough | src/main/java/cz/inovatika/altoEditor/presentation/rest/GlobalExceptionHandler.java:42-53 | a known non-5xx code is passed through with its reason phrase |
| ErrorHandler.BodySnippetBounded | src/main/java/cz/inovatika/altoEditor/presentation/rest/GlobalExceptionHandler.java:46-48 | the snippet is at most 2003 characters and starts with the body's first characters |
| Engines.IsValidEngineArgs | src/main/java/cz/inovatika/altoEditor/config/properties/EnginesProperties.java:47-54 | in batch mode the arguments are valid exactly when the triplets argument is set; otherwise exactly when the image, ALTO and OCR arguments are all set |
| Engines.GetEngineConfig | src/main/java/cz/inovatika/altoEditor/config/properties/EnginesProperties.java:67-73 | succeeds exactly when the engine is configured, with its configuration; otherwise the not-configured error naming the engine |
| Engines.ListedEngines | src/main/java/cz/inovatika/altoEditor/domain/service/EngineService.java:23-31 | an engine is listed exactly when some engine user has its name, its enabled flag is whether the engine is configured, and it passes the enabled filter |
| Engines.PageOf | src/main/java/cz/inovatika/altoEditor/domain/service/EngineService.java:32-36 | a page that is returned reports the full count and holds at most the page size |
| Engines.DefaultConfigValid | src/main/java/cz/inovatika/altoEditor/config/properties/EnginesProperties.java:31-37 | the default configuration is single-image and passes the argument check |
| Engines.NullBatchModeIsSingle | src/main/java/cz/inovatika/altoEditor/config/properties/EnginesProperties.java:62-64 | a null batch-mode flag means single-image mode |
| Engines.PageIsSlice | src/main/java/cz/inovatika/altoEditor/domain/service/EngineService.java:32-36 | without int overflow the page is the slice of the list at the offset, empty past the end |
| Engines.WrappedOffsetFails | src/main/java/cz/inovatika/altoEditor/domain/service/EngineService.java:32-34 | an offset past Integer.MAX_VALUE is narrowed to a negative int and subList throws |
| Engines.ListedEnginesFlags | src/main/java/cz/inovatika/altoEditor/domain/service/EngineService.java:23-31 | a listed engine is enabled exactly when it is configured, and matches the requested flag when one is given |
| ExternalCommands.BuildSingleCmdLine | src/main/java/cz/inovatika/altoEditor/infrastructure/process/altoocr/GenerateSingleExternalProcess.java:20-40 | builds the single-image command line (see SingleCmdLineShape) |
| ExternalCommands.SingleCmdLineShape | src/main/java/cz/inovatika/altoEditor/infrastructure/process/altoocr/GenerateSingleExternalProcess.java:20-40 | executable, entry, then each argument name followed by its path, then the additional arguments in order; no null on it when the configuration is valid |
| ExternalCommands.AllTripletsOk | src/main/java/cz/inovatika/altoEditor/infrastructure/process/altoocr/GenerateBatchExternalProcess.java:53-57 | the batch is ok exactly when every triplet's ALTO file exists and is non-empty and its OCR file exists (vacuously for no triplets) |
| ExternalCommands.TripletLines | src/main/java/cz/inovatika/altoEditor/infrastructure/process/altoocr/GenerateBatchExternalProcess.java:24-27 | one DataTriplet.toString per triplet, in order |
| ExternalCommands.TripletTextFields | src/main/java/cz/inovatika/altoEditor/infrastructure/process/altoocr/GenerateBatchExternalProcess.java:74-76 | a triplet's text splits on ',' back into its three paths and holds no line break |
| ExternalCommands.TripletsRunTogether | src/main/java/cz/inovatika/altoEditor/infrastructure/process/altoocr/GenerateBatchExternalProcess.java:24-27 | as written, two triplets share a line and the first OCR path merges with the second image path |
| ExternalCommands.TripletsFileLines | src/main/java/cz/inovatika/altoEditor/infrastructure/process/altoocr/GenerateBatchExternalProcess.java:24-27 | with a line break after each triplet the file splits into the triplets' texts plus an empty last line |
| ExternalCommands.TripletsFileRoundTrip | src/main/java/cz/inovatika/altoEditor/infrastructure/process/altoocr/GenerateBatchExternalProcess.java:24-27 | with a line break after each triplet every line splits back into its triplet's three paths |
| ExternalCommands.BuildBatchCmdLine | src/main/java/cz/inovatika/altoEditor/infrastructure/process/altoocr/GenerateBatchExternalProcess.java:23-45 | writes the triplets file (one triplet per line) and builds the batch command line |
| ExternalCommands.BatchCmdLineShape | src/main/java/cz/inovatika/altoEditor/infrastructure/process/altoocr/GenerateBatchExternalProcess.java:28-44 | executable, entry, the triplets argument and path, then the additional arguments; no null when the configuration is valid |
| ExternalCommands.RunRefusalOf | src/main/java/cz/inovatika/altoEditor/process/altoocr/AltoOcrGeneratorExternalProcess.java:20-31 | refuses when the image is missing, else when the ALTO output exists, else when the OCR output exists, and starts exactly otherwise |
| ExternalCommands.BuildLegacyCmdLine | src/main/java/cz/inovatika/altoEditor/process/altoocr/AltoOcrGeneratorExternalProcess.java:34-53 | builds the older runner's command line, nulls passed through |
| ExternalCommands.LegacyCmdLineAgrees | src/main/java/cz/inovatika/altoEditor/process/altoocr/AltoOcrGeneratorExternalProcess.java:34-53 | given the same values the older runner builds the same command line as the single-image one |
| ExternalCommands.LegacyRunStartsFresh | src/main/java/cz/inovatika/altoEditor/process/altoocr/AltoOcrGeneratorExternalProcess.java:20-31 | a run that is allowed to start never sees outputs that already pass isOk |
| BatchOrder.PriorityValue | src/main/java/cz/inovatika/altoEditor/infrastructure/process/templates/BatchProcess.java:46-55 | HIGH is 1, LOW is -1, MEDIUM and null are 0 |
| BatchOrder.Compare | src/main/java/cz/inovatika/altoEditor/infrastructure/process/templates/BatchProcess.java:35-37 | Integer.compare: -1, 0 or 1 as the first is below, equal to or above the second |
| BatchOrder.CompareToMatchesKey | src/main/java/cz/inovatika/altoEditor/infrastructure/process/templates/BatchProcess.java:28-44 | for distinct processes with dates, negative exactly when the first has higher priority or equal priority and an earlier date |
| BatchOrder.HigherPriorityFirst | src/main/java/cz/inovatika/altoEditor/infrastructure/process/templates/BatchProcess.java:34-40 | higher priority sorts first whatever the dates |
| BatchOrder.NullDateThrows | src/main/java/cz/inovatika/altoEditor/infrastructure/process/templates/BatchProcess.java:42-43 | on equal priority, a missing create date on either side throws |
| BatchOrder.CompareToAntisymmetric | src/main/java/cz/inovatika/altoEditor/infrastructure/process/templates/BatchProcess.java:28-44 | compareTo fails symmetrically and otherwise flips sign when the operands are swapped |
| BatchOrder.CompareToTransitive | src/main/java/cz/inovatika/altoEditor/infrastructure/process/templates/BatchProcess.java:28-44 | with dates present, "sorts no later than" is transitive |
| Batches.Created | src/main/java/cz/inovatika/altoEditor/domain/model/Batch.java:117-122 | @PrePersist: both stamps take the same instant and nothing else changes |
| Batches.Updated | src/main/java/cz/inovatika/altoEditor/domain/model/Batch.java:124-127 | @PreUpdate: only the update stamp moves |
| Batches.FindByStateOrderByIdAsc | src/main/java/cz/inovatika/altoEditor/domain/repository/BatchRepository.java:20-23 | exactly the batches in the given state, in ascending id order |
| Batches.FindById | src/main/java/cz/inovatika/altoEditor/domain/service/BatchService.java:30-32 | a batch with the id when one is stored, otherwise none |
| Batches.FailRunning | src/main/java/cz/inovatika/altoEditor/domain/repository/BatchRepository.java:25-37 | the bulk update touches each row alone, through the per-row rule |
| Batches.FailRunningEffect | src/main/java/cz/inovatika/altoEditor/domain/repository/BatchRepository.java:31-36 | afterwards no batch is RUNNING; each formerly RUNNING batch is FAILED with the message appended to its log (null read as ''), the others are unchanged, ids keep their order |
| Batches.CountRunningZero | src/main/java/cz/inovatika/altoEditor/domain/repository/BatchRepository.java:37 | the returned row count is zero exactly when no batch was RUNNING |
| Batches.BatchRepository.Persist | src/main/java/cz/inovatika/altoEditor/domain/model/Batch.java:117-122 | saving a new batch appends it with the next sequence id and both stamps set |
| Batches.BatchRepository.Save | src/main/java/cz/inovatika/altoEditor/domain/model/Batch.java:117-127 | save() of a stored id replaces that row, stamping the update only when something changed; of an unknown id appends a new row |
| Batches.BatchRepository.FailAllRunningBatches | src/main/java/cz/inovatika/altoEditor/domain/repository/BatchRepository.java:25-37 | the table becomes FailRunning of the old table and the returned count is the number of RUNNING rows before |
| Batches.GetById | src/main/java/cz/inovatika/altoEditor/domain/service/BatchService.java:30-33 | the stored batch with the id, or BatchNotFoundException exactly when none has it |
| Batches.CoreGetById | src/main/java/cz/inovatika/altoEditor/core/service/BatchService.java:26-29 | the core copy gives null exactly when the domain copy throws, and the same batch otherwise |
| Batches.ApplyCall | src/main/java/cz/inovatika/altoEditor/domain/service/BatchService.java:45-74 | a setter never changes the id, create date or priority |
| Batches.ApplyCallsSnoc | src/main/java/cz/inovatika/altoEditor/domain/service/BatchService.java:45-74 | each setter acts on the batch the earlier setters left |
| Batches.LastStateWins | src/main/java/cz/inovatika/altoEditor/domain/service/BatchService.java:45-62 | after a run of setters the state is the one chosen by the last state-setting call (setState or setFailed) |
| Batches.NoStateCallsKeepState | src/main/java/cz/inovatika/altoEditor/domain/service/BatchService.java:51-74 | setters other than setState and setFailed keep the state |
| Batches.NewBatch | src/main/java/cz/inovatika/altoEditor/domain/model/Batch.java:73-91 | a built batch is PLANNED, with no substate, log or dates, and the requested type, pid, priority and creator |
| Batches.CreateBatchOutcomeEffect | src/main/java/cz/inovatika/altoEditor/domain/service/BatchService.java:104-111 | an unknown creator throws; otherwise the new batch takes the next id, is PLANNED with the requested type, pid, priority and creator, and both stamps equal now |
| Batches.CreateBatch | src/main/java/cz/inovatika/altoEditor/domain/service/BatchService.java:104-111 | the table grows by the new batch exactly when the creator exists |
| Batches.BatchService.Apply | src/main/java/cz/inovatika/altoEditor/domain/service/BatchService.java:45-74 | a setter changes the caller's batch and saves it (see BatchRepository.Save) |
| Batches.BatchService.CreateReindexBatch | src/main/java/cz/inovatika/altoEditor/domain/service/BatchService.java:104-111 | a REINDEX batch without pid, saved only when the creator exists |
| Batches.CoreBatchService.Apply | src/main/java/cz/inovatika/altoEditor/core/service/BatchService.java:41-65 | the core setters, including setRunInfo, change the caller's batch and save it |
| ObjectHierarchy.BuildObject | src/main/java/cz/inovatika/altoEditor/domain/model/ObjectHierarchyNode.java:65-82 | the builder fails exactly when the pid does not parse as "uuid:<u>"; otherwise the object has that uuid, the clipped title, the model and the given parent, and no counts |
| ObjectHierarchy.Climb | src/main/java/cz/inovatika/altoEditor/domain/service/ObjectHierarchyService.java:161-172 | the walk up the parent chain visits at most one object per step of fuel |
| ObjectHierarchy.ClimbShape | src/main/java/cz/inovatika/altoEditor/domain/service/ObjectHierarchyService.java:161-172 | a finished walk starts at the requested object, follows parent links inside the store and ends at a root or a missing parent; it is empty exactly when the start is not stored |
| ObjectHierarchy.ClimbMoreFuel | src/main/java/cz/inovatika/altoEditor/domain/service/ObjectHierarchyService.java:163-171 | a finished walk does not depend on the step allowance |
| ObjectHierarchy.ClimbSuffix | src/main/java/cz/inovatika/altoEditor/domain/service/ObjectHierarchyService.java:163-171 | the walk from the k-th visited object is the rest of the walk |
| ObjectHierarchy.ClimbDistinct | src/main/java/cz/inovatika/altoEditor/domain/service/ObjectHierarchyService.java:163-171 | a walk that reaches a root visits no object twice |
| ObjectHierarchy.AncestryCutsOnlyCycles | src/main/java/cz/inovatika/altoEditor/domain/service/ObjectHierarchyService.java:163-171 | cutting the walk after one step per stored object only stops chains that never end |
| ObjectHierarchy.ClimbFollowsLinks | src/main/java/cz/inovatika/altoEditor/domain/service/ObjectHierarchyService.java:163-171 | the walk reads only the uuids and parent links |
| ObjectHierarchy.SetCounts | src/main/java/cz/inovatika/altoEditor/domain/service/ObjectHierarchyService.java:164-168 | only the two counts change; a null stats answer gives 0 and 0 |
| ObjectHierarchy.WithCounts | src/main/java/cz/inovatika/altoEditor/domain/service/ObjectHierarchyService.java:167-169 | writing counts keeps every parent link and uuid |
| ObjectHierarchy.RefreshEffect | src/main/java/cz/inovatika/altoEditor/domain/service/ObjectHierarchyService.java:156-172 | every object on the parent chain gets fresh counts, every other object is unchanged, the links stay, and a second refresh changes nothing |
| ObjectHierarchy.UpwardWalk | src/main/java/cz/inovatika/altoEditor/domain/service/ObjectHierarchyService.java:91-112 | a walk that succeeds has pushed at least one metadata record and stopped at a stored ancestor, if any |
| ObjectHierarchy.UpwardWalkStops | src/main/java/cz/inovatika/altoEditor/domain/service/ObjectHierarchyService.java:95-112 | the first pushed record is the requested pid's; each next one is the previous one's parent, which was not stored; the walk stops at a record with no parent or with a stored parent |
| ObjectHierarchy.Unwind | src/main/java/cz/inovatika/altoEditor/domain/service/ObjectHierarchyService.java:114-125 | the unwinding ends at an object it saved, or at the stored parent when nothing was pushed |
| ObjectHierarchy.UnwindResult | src/main/java/cz/inovatika/altoEditor/domain/service/ObjectHierarchyService.java:114-125 | the object unwinding ends at is the one of the first pushed record, the requested one |
| ObjectHierarchy.UnwindKeeps | src/main/java/cz/inovatika/altoEditor/domain/service/ObjectHierarchyService.java:114-125 | objects not on the stack are left as they were |
| ObjectHierarchy.UnwindSaves | src/main/java/cz/inovatika/altoEditor/domain/service/ObjectHierarchyService.java:116-124 | each pushed record is saved under the record pushed after it, the last under the stored parent |
| ObjectHierarchy.UnwindChain | src/main/java/cz/inovatika/altoEditor/domain/service/ObjectHierarchyService.java:114-125 | after unwinding, the saved objects form a parent chain ending at the stored parent |
| ObjectHierarchy.FetchStoredAsksNothing | src/main/java/cz/inovatika/altoEditor/domain/service/ObjectHierarchyService.java:85-89 | an already stored pid is returned from the store, nothing changes and Kramerius is not asked |
| ObjectHierarchy.FetchMissingMetadata | src/main/java/cz/inovatika/altoEditor/domain/service/ObjectHierarchyService.java:96-99 | metadata missing for the requested pid throws DigitalObjectNotFoundException with its uuid and changes nothing |
| ObjectHierarchy.FetchAndStoreOutcome | src/main/java/cz/inovatika/altoEditor/domain/service/ObjectHierarchyService.java:84-129 | a new pid saves the pushed chain and returns the requested object exactly when its refreshed parent chain ends |
| ObjectHierarchy.StoredParent | src/main/java/cz/inovatika/altoEditor/domain/service/ObjectHierarchyService.java:137-140 | the parent is the stored object of the parent pid, or none when the parent pid is null or not stored |
| ObjectHierarchy.MetadataOfPid | src/main/java/cz/inovatika/altoEditor/infrastructure/kramerius/model/KrameriusObjectMetadata.java:23-30 | for pid "uuid:<u>" both uuid parsers give u |
| ObjectHierarchy.StoreEffect | src/main/java/cz/inovatika/altoEditor/domain/service/ObjectHierarchyService.java:131-154 | a stored uuid is returned unchanged; otherwise the new object is saved under its uuid with its stored parent and the counts are refreshed from it |
| ObjectHierarchy.StoreReturnsNamed | src/main/java/cz/inovatika/altoEditor/domain/service/ObjectHierarchyService.java:131-154 | store returns the object named by the metadata's pid |
| ObjectHierarchy.ObjectRepository.FindById | src/main/java/cz/inovatika/altoEditor/domain/service/ObjectHierarchyService.java:86 | some object exactly when one is stored under the uuid, and that object |
| ObjectHierarchy.ObjectRepository.Save | src/main/java/cz/inovatika/altoEditor/domain/service/ObjectHierarchyService.java:117-124 | saving overwrites the entry under the object's uuid and nothing else |
| ObjectHierarchy.ObjectHierarchyService.RefreshPageCountsForAncestors | src/main/java/cz/inovatika/altoEditor/domain/service/ObjectHierarchyService.java:161-172 | the loop leaves the store and outcome RefreshSpec gives |
| ObjectHierarchy.ObjectHierarchyService.WalkUp | src/main/java/cz/inovatika/altoEditor/domain/service/ObjectHierarchyService.java:91-112 | the upward loop gives UpwardWalk's result |
| ObjectHierarchy.ObjectHierarchyService.UnwindStack | src/main/java/cz/inovatika/altoEditor/domain/service/ObjectHierarchyService.java:114-125 | the unwinding loop leaves the store and result Unwind gives |
| ObjectHierarchy.ObjectHierarchyService.FetchAndStore | src/main/java/cz/inovatika/altoEditor/domain/service/ObjectHierarchyService.java:84-129 | fetchAndStore leaves the store and result FetchAndStoreSpec gives |
| ObjectHierarchy.ObjectHierarchyService.Store | src/main/java/cz/inovatika/altoEditor/domain/service/ObjectHierarchyService.java:131-154 | store leaves the store and result StoreSpec gives |
| ObjectHierarchy.ObjectHierarchyService.CreateGenerateAltoBatch | src/main/java/cz/inovatika/altoEditor/domain/service/ObjectHierarchyService.java:174-183 | a GENERATE_FOR_HIERARCHY batch for the pid, saved exactly when the creator exists |
| ObjectHierarchy.ObjectHierarchyService.CreateFetchFromKrameriusBatch | src/main/java/cz/inovatika/altoEditor/domain/service/ObjectHierarchyService.java:185-194 | a RETRIEVE_HIERARCHY batch for the pid, saved exactly when the creator exists |
| RetrieveHierarchy.QueueShrinks | src/main/java/cz/inovatika/altoEditor/infrastructure/process/retrieve/RetrieveHierarchyProcess.java:73-90 | each step of the queue loop shrinks the total size of the queued subtrees, so the loop ends |
| RetrieveHierarchy.BfsDepths | src/main/java/cz/inovatika/altoEditor/infrastructure/process/retrieve/RetrieveHierarchyProcess.java:73-90 | the visit carries one depth per visited object, the target's first |
| RetrieveHierarchy.BfsByLevel | src/main/java/cz/inovatika/altoEditor/infrastructure/process/retrieve/RetrieveHierarchyProcess.java:73-90 | a FIFO queue visits objects level by level: depths never decrease |
| RetrieveHierarchy.BfsVisitsReachable | src/main/java/cz/inovatika/altoEditor/infrastructure/process/retrieve/RetrieveHierarchyProcess.java:73-90 | the queue loop visits exactly the objects reachable from the queue without expanding pages, each as often as it is reachable |
| RetrieveHierarchy.RetrieveOrder | src/main/java/cz/inovatika/altoEditor/infrastructure/process/retrieve/RetrieveHierarchyProcess.java:71-90 | starting from the target, every object below it (pages not expanded) is stored once, the target first, level by level |
| RetrieveHierarchy.RetrieveHierarchyProcess.Drain | src/main/java/cz/inovatika/altoEditor/infrastructure/process/retrieve/RetrieveHierarchyProcess.java:73-90 | the loop stores a prefix of the breadth-first order, all of it exactly when no store throws; each page's pid is handed to the ALTO request in order; each stored object is the one its pid names |
| RetrieveHierarchy.RetrieveHierarchyProcess.Run | src/main/java/cz/inovatika/altoEditor/infrastructure/process/retrieve/RetrieveHierarchyProcess.java:50-104 | an unknown batch id throws before anything changes; a null target fails the batch with the "Target object ... not found" log; otherwise the batch ends DONE after the whole walk, or FAILED with "Batch <id> failed: <message>" after a prefix of it |
| RetrieveHierarchy.PagePidsSnoc | src/main/java/cz/inovatika/altoEditor/infrastructure/process/retrieve/RetrieveHierarchyProcess.java:81-86 | visiting one more object requests one more ALTO version exactly when it is a page |
| AltoVersions.InsertRow | src/main/java/cz/inovatika/altoEditor/domain/model/AltoVersion.java:41-96 | an insert fails exactly when a NOT NULL column (object, user, state) is null or the (uuid, version) pair is taken; otherwise the row gets the next id, is appended, and the table stays valid |
| AltoVersions.Select | src/main/java/cz/inovatika/altoEditor/domain/repository/AltoVersionRepository.java:35-119 | a query selects exactly the rows it matches, in table order |
| AltoVersions.Single | src/main/java/cz/inovatika/altoEditor/domain/repository/AltoVersionRepository.java:41 | an Optional derived query gives none for no match, the row for one, and fails for more with the number of matches (the shared DigitalObjects.Single, its error told as an ALTO-version error) |
| AltoVersions.First | src/main/java/cz/inovatika/altoEditor/domain/repository/AltoVersionRepository.java:91-96 | a findFirst query gives the first match, none exactly when nothing matches |
| AltoVersions.FindAllByUuid | src/main/java/cz/inovatika/altoEditor/domain/repository/AltoVersionRepository.java:22-25 | exactly the object's rows |
| AltoVersions.ExistsIffFindAll | src/main/java/cz/inovatika/altoEditor/domain/repository/AltoVersionRepository.java:27-30 | existsByDigitalObjectUuid holds exactly when findAllByDigitalObjectUuid finds something |
| AltoVersions.FindActive | src/main/java/cz/inovatika/altoEditor/domain/repository/AltoVersionRepository.java:32-41 | an ACTIVE row of the object, none exactly when the object has no ACTIVE row |
| AltoVersions.FindPendingForUser | src/main/java/cz/inovatika/altoEditor/domain/repository/AltoVersionRepository.java:43-53 | a PENDING row of the object owned by the user, none exactly when there is no such row |
| AltoVersions.FindActiveForUser | src/main/java/cz/inovatika/altoEditor/domain/repository/AltoVersionRepository.java:55-62 | an ACTIVE row of the object owned by the user, none exactly when there is no such row |
| AltoVersions.FindEngineUpdateCandidate | src/main/java/cz/inovatika/altoEditor/domain/repository/AltoVersionRepository.java:73-81 | a row of the object owned by the user with the content hash in state ACTIVE, PENDING or ARCHIVED, none exactly when there is none |
| AltoVersions.FindByUuidAndVersion | src/main/java/cz/inovatika/altoEditor/domain/repository/AltoVersionRepository.java:83-86 | the object's row with the version, none exactly when the version is absent |
| AltoVersions.FindByUuidAndVersionUnique | src/main/java/cz/inovatika/altoEditor/domain/repository/AltoVersionRepository.java:83-86 | under the unique (uuid, version) constraint the version lookup never fails with two rows |
| AltoVersions.FindByUuidAndUserId | src/main/java/cz/inovatika/altoEditor/domain/service/AltoVersionService.java:341 | a row of the object owned by the user, none exactly when the user owns none |
| AltoVersions.FindFirstByUuidAndInstance | src/main/java/cz/inovatika/altoEditor/domain/repository/AltoVersionRepository.java:88-91 | the first row of the object in the instance, none exactly when there is none |
| AltoVersions.MaxVersionRow | src/main/java/cz/inovatika/altoEditor/domain/repository/AltoVersionRepository.java:93-96 | a row of the object whose version is at least every other version of the object, none exactly when the object has no rows |
| AltoVersions.FindRelated | src/main/java/cz/inovatika/altoEditor/domain/repository/AltoVersionRepository.java:98-119 | a row of the object that is the user's or ACTIVE, the user's whenever the user owns one, none exactly when neither exists |
| AltoVersions.FindById | src/main/java/cz/inovatika/altoEditor/domain/service/AltoVersionService.java:376-377 | the row with the id, none exactly when no row has it |
| AltoVersions.SetStateById | src/main/java/cz/inovatika/altoEditor/domain/service/AltoVersionService.java:395-402 | only the state of the row with the id changes, to the given state |
| AltoVersions.Accepted | src/main/java/cz/inovatika/altoEditor/domain/service/AltoVersionService.java:379-392 | accepting changes states only |
| AltoVersions.StatesOnlyKeepValid | src/main/java/cz/inovatika/altoEditor/domain/model/AltoVersion.java:42-96 | changing only states to non-null values keeps the table's constraints |
| AltoVersions.Without | src/main/java/cz/inovatika/altoEditor/domain/repository/AltoVersionRepository.java:121-129 | exactly the instances other than the removed one remain |
| AltoVersions.RemoveInstanceEffect | src/main/java/cz/inovatika/altoEditor/domain/repository/AltoVersionRepository.java:121-129 | the instance is removed from the object's rows' instance lists and from nothing else; all other columns stay |
| AltoVersions.PagePid | src/main/java/cz/inovatika/altoEditor/domain/model/AltoVersion.java:123-125 | null exactly without a digital object; otherwise the pid of the row's object |
| AltoVersions.Username | src/main/java/cz/inovatika/altoEditor/domain/model/AltoVersion.java:135-137 | null exactly without a user; otherwise the user's name |
| AltoVersions.PageTitle | src/main/java/cz/inovatika/altoEditor/domain/model/AltoVersion.java:147-149 | null without a digital object; otherwise the object's title |
| AltoVersions.UuidTexts | src/main/java/cz/inovatika/altoEditor/domain/model/AltoVersion.java:179-183 | one uuid text per ancestor, in order |
| AltoVersions.Titles | src/main/java/cz/inovatika/altoEditor/domain/model/AltoVersion.java:204-208 | one title per ancestor, in order |
| AltoVersions.AncestorsAgree | src/main/java/cz/inovatika/altoEditor/domain/model/AltoVersion.java:172-211 | ancestor pids and titles walk the same chain: both empty without an object, equally long, pairwise of the same ancestor, and the page itself is not among them |
| AltoVersions.PageNotItsOwnAncestor | src/main/java/cz/inovatika/altoEditor/domain/model/AltoVersion.java:179-183 | a parent chain that ends never comes back to the page |
| AltoVersions.ChainShape | src/main/java/cz/inovatika/altoEditor/domain/service/AltoVersionService.java:217-223 | the collected metadata starts at the page and follows parentPid until a null answer |
| AltoVersions.LinkStep | src/main/java/cz/inovatika/altoEditor/domain/service/AltoVersionService.java:226-231 | one pass: an already stored object is reused, a missing one is created under the previous one; nothing stored is changed |
| AltoVersions.LinkLeafFirst | src/main/java/cz/inovatika/altoEditor/domain/service/AltoVersionService.java:226-232 | the loop as written never changes a stored object |
| AltoVersions.LinkRootFirst | src/main/java/cz/inovatika/altoEditor/domain/service/AltoVersionService.java:226-232 | the loop as intended never changes a stored object |
| AltoVersions.LinkRootFirstTarget | src/main/java/cz/inovatika/altoEditor/domain/service/AltoVersionService.java:225-232 | linking root first ends at the page |
| AltoVersions.LinkRootFirstParents | src/main/java/cz/inovatika/altoEditor/domain/service/AltoVersionService.java:226-232 | linking root first creates each missing object under its real parent |
| AltoVersions.LinkLeafFirstTarget | src/main/java/cz/inovatika/altoEditor/domain/service/AltoVersionService.java:225-232 | as written the loop ends at the chain's root, not at the page |
| AltoVersions.LinkLeafFirstParents | src/main/java/cz/inovatika/altoEditor/domain/service/AltoVersionService.java:226-232 | as written each missing object is created under its child |
| AltoVersions.LinkLeafFirstHead | src/main/java/cz/inovatika/altoEditor/domain/service/AltoVersionService.java:226-232 | as written the page is created without a parent |
| AltoVersions.RowContent | src/main/java/cz/inovatika/altoEditor/infrastructure/storage/AkubraService.java:134-158 | a row's content is the blob under its object's pid, datastream and version; a missing blob fails |
| AltoVersions.WithItsContent | src/main/java/cz/inovatika/altoEditor/domain/service/AltoVersionService.java:244-249 | the row paired with its ALTO content, failing exactly when that content is missing |
| AltoVersions.DsKeyDistinctObjects | src/main/java/cz/inovatika/altoEditor/infrastructure/storage/AkubraService.java:102-104 | different objects never share a blob key |
| AltoVersions.SelectAppend | src/main/java/cz/inovatika/altoEditor/domain/repository/AltoVersionRepository.java:35-119 | a row appended to the table is appended to every selection it matches |
| AltoVersions.StoreInitialOutcome | src/main/java/cz/inovatika/altoEditor/domain/service/AltoVersionService.java:239-249 | saving version 0 of a page without versions appends the row and returns it with its content; it is the page's only ACTIVE row |
| AltoVersions.FetchSpecOutcome | src/main/java/cz/inovatika/altoEditor/domain/service/AltoVersionService.java:205-250 | a fetch of a page without versions, with ALTO in the FOXML and a chain that ends, links every missing object under its parent, adds the version-0 row and returns it with the ALTO |
| AltoVersions.RootFirstLinksPage | src/main/java/cz/inovatika/altoEditor/domain/service/AltoVersionService.java:217-232 | linking the page's chain root first ends at the page and creates each missing object under its parent |
| AltoVersions.FetchAsWrittenNeverSaves | src/main/java/cz/inovatika/altoEditor/domain/service/AltoVersionService.java:239-242 | as written fetchNewAlto never adds a row |
| AltoVersions.FetchAsWrittenRefusedAtSave | src/main/java/cz/inovatika/altoEditor/domain/service/AltoVersionService.java:234-242 | as written the version-0 row is refused for its null state after the ALTO is already stored |
| AltoVersions.FetchLeafFirstMisfiles | src/main/java/cz/inovatika/altoEditor/domain/service/AltoVersionService.java:225-247 | iterating the Stack leaf first makes the root the target: the row goes to the root, the page has no parent, and reading the content back fails |
| AltoVersions.FetchReachesLinking | src/main/java/cz/inovatika/altoEditor/domain/service/AltoVersionService.java:205-223 | a page without versions whose ALTO and chain are found goes on to linking and saving |
| AltoVersions.StoreInitialMissingContent | src/main/java/cz/inovatika/altoEditor/domain/service/AltoVersionService.java:239-247 | a target whose ALTO was not stored gets the row and then fails to read it back |
| AltoVersions.FindRelatedAltoSpec | src/main/java/cz/inovatika/altoEditor/domain/service/AltoVersionService.java:179-203 | a bad pid throws; null exactly when the user owns no row and none is ACTIVE; otherwise the user's row when there is one, else an ACTIVE one, with its content |
| AltoVersions.GetAltoVersionSpec | src/main/java/cz/inovatika/altoEditor/domain/service/AltoVersionService.java:252-271 | a bad pid throws; AltoVersionNotFoundException exactly when the version is absent; otherwise that version with its content |
| AltoVersions.GetActiveSpec | src/main/java/cz/inovatika/altoEditor/domain/service/AltoVersionService.java:273-291 | a bad pid throws; AltoVersionNotFoundException exactly when no row is ACTIVE; otherwise an ACTIVE row with its content |
| AltoVersions.GetOcrSpec | src/main/java/cz/inovatika/altoEditor/domain/service/AltoVersionService.java:354-369 | an unknown id throws; otherwise the row's ALTO converted to text |
| AltoVersions.CreateSpec | src/main/java/cz/inovatika/altoEditor/domain/service/AltoVersionService.java:293-300 | a page without versions throws AltoVersionNotFoundException and changes nothing |
| AltoVersions.CreateFresh | src/main/java/cz/inovatika/altoEditor/domain/service/AltoVersionService.java:293-319 | the new row is PENDING, one above the highest version, with that row's owner and instance; its content is stored under the new version and the table stays valid |
| AltoVersions.UpdateOrCreateBranches | src/main/java/cz/inovatika/altoEditor/domain/service/AltoVersionService.java:321-352 | the user's PENDING row is overwritten in place; no row or a non-PENDING one creates the next version; two rows of the user fail |
| AltoVersions.AcceptLeavesOneActive | src/main/java/cz/inovatika/altoEditor/domain/service/AltoVersionService.java:375-393 | an unknown id throws; otherwise the row becomes the object's only ACTIVE row, other ACTIVE rows of the object become ARCHIVED, all else stays |
| AltoVersions.AcceptedOneActive | src/main/java/cz/inovatika/altoEditor/domain/service/AltoVersionService.java:379-392 | after accepting, the accepted row is the object's only ACTIVE row |
| AltoVersions.GuardedStateTransition | src/main/java/cz/inovatika/altoEditor/domain/service/AltoVersionService.java:395-402 | setStateForObject moves a row from any state, where the documented reject/archive transition only moves PENDING rows; both change only that row's state |
| AltoVersions.PidPrefixRequired | src/main/java/cz/inovatika/altoEditor/domain/service/AltoVersionService.java:166-172 | every operation taking a pid refuses one without "uuid:" and changes nothing |
| AltoVersionSvc.RemoveInstanceKeepsValid | src/main/java/cz/inovatika/altoEditor/domain/repository/AltoVersionRepository.java:121-129 | removing an instance association keeps the table valid |
| AltoVersionSvc.AltoVersionRepository.Insert | src/main/java/cz/inovatika/altoEditor/domain/model/AltoVersion.java:41-96 | save of a new row inserts it by InsertRow's rules |
| AltoVersionSvc.AltoVersionRepository.SaveState | src/main/java/cz/inovatika/altoEditor/domain/service/AltoVersionService.java:399-401 | saving a row with a changed state changes only that state |
| AltoVersionSvc.AltoVersionRepository.RemoveInstanceAssociation | src/main/java/cz/inovatika/altoEditor/domain/repository/AltoVersionRepository.java:121-129 | the loop over rows leaves RemoveInstance of the old table |
| AltoVersionSvc.DropInstance | src/main/java/cz/inovatika/altoEditor/domain/repository/AltoVersionRepository.java:124-127 | the loop keeps exactly the instances other than the removed one |
| AltoVersionSvc.GetAncestorPids | src/main/java/cz/inovatika/altoEditor/domain/model/AltoVersion.java:172-186 | the loop gives AncestorPidsSpec |
| AltoVersionSvc.GetAncestorTitles | src/main/java/cz/inovatika/altoEditor/domain/model/AltoVersion.java:197-211 | the loop gives AncestorTitlesSpec |
| AltoVersionSvc.AltoVersionService.ContentOf | src/main/java/cz/inovatika/altoEditor/infrastructure/storage/AkubraService.java:134-158 | reads a row's content by RowContent |
| AltoVersionSvc.AltoVersionService.FindRelatedAlto | src/main/java/cz/inovatika/altoEditor/domain/service/AltoVersionService.java:188-203 | returns FindRelatedAltoSpec of the stored state |
| AltoVersionSvc.AltoVersionService.CollectChain | src/main/java/cz/inovatika/altoEditor/domain/service/AltoVersionService.java:217-223 | the metadata loop gives Chain |
| AltoVersionSvc.AltoVersionService.LinkChain | src/main/java/cz/inovatika/altoEditor/domain/service/AltoVersionService.java:225-232 | the linking loop, root first, leaves the objects LinkRootFirst gives |
| AltoVersionSvc.AltoVersionService.FetchNewAlto | src/main/java/cz/inovatika/altoEditor/domain/service/AltoVersionService.java:205-250 | leaves the state and result of FetchSpec (the corrected fetch) |
| AltoVersionSvc.AltoVersionService.GetAltoVersion | src/main/java/cz/inovatika/altoEditor/domain/service/AltoVersionService.java:252-271 | returns GetAltoVersionSpec of the stored state |
| AltoVersionSvc.AltoVersionService.GetActiveAlto | src/main/java/cz/inovatika/altoEditor/domain/service/AltoVersionService.java:273-291 | returns GetActiveSpec of the stored state |
| AltoVersionSvc.AltoVersionService.CreateNewAltoVersion | src/main/java/cz/inovatika/altoEditor/domain/service/AltoVersionService.java:293-319 | leaves the state and result of CreateSpec |
| AltoVersionSvc.AltoVersionService.UpdateAltoVersion | src/main/java/cz/inovatika/altoEditor/domain/service/AltoVersionService.java:321-338 | leaves the state and result of UpdateSpec |
| AltoVersionSvc.AltoVersionService.UpdateOrCreateAlto | src/main/java/cz/inovatika/altoEditor/domain/service/AltoVersionService.java:340-352 | leaves the state and result of UpdateOrCreateSpec |
| AltoVersionSvc.AltoVersionService.GetOcr | src/main/java/cz/inovatika/altoEditor/domain/service/AltoVersionService.java:354-369 | returns GetOcrSpec of the stored state |
| AltoVersionSvc.AltoVersionService.SetObjectActive | src/main/java/cz/inovatika/altoEditor/domain/service/AltoVersionService.java:375-393 | leaves the state and result of AcceptSpec |
| AltoVersionSvc.AltoVersionService.SetStateForObject | src/main/java/cz/inovatika/altoEditor/domain/service/AltoVersionService.java:395-402 | leaves the state and result of SetStateSpec |
| AltoVersionSvc.ChainStep | src/main/java/cz/inovatika/altoEditor/domain/service/AltoVersionService.java:220-223 | one loop step pushes the current metadata and asks for its parent |
| AltoVersionSvc.ChainEnds | src/main/java/cz/inovatika/altoEditor/domain/service/AltoVersionService.java:220 | the loop ends on a null answer; a chain longer than the metadata map is a cycle |
| AltoVersionSvc.ArchiveThenActivate | src/main/java/cz/inovatika/altoEditor/domain/service/AltoVersionService.java:379-392 | archiving the other ACTIVE rows and then activating the row gives Accepted |
| DigitalObjects.ByPid | src/main/java/cz/inovatika/altoEditor/domain/repository/DigitalObjectRepository.java:22 | the rows of the PID, no more rows than the table has |
| DigitalObjects.Single | src/main/java/cz/inovatika/altoEditor/domain/repository/DigitalObjectRepository.java:43-53 | a finder returning at most one row gives none for no match, the row for one match and a non-unique error carrying the number of matches otherwise |
| DigitalObjects.FindById | src/main/java/cz/inovatika/altoEditor/domain/service/DigitalObjectService.java:228-229 | None exactly when no row has the id; otherwise a table row with that id |
| DigitalObjects.ReplaceById | src/main/java/cz/inovatika/altoEditor/domain/service/DigitalObjectService.java:231-233 | saving a loaded row replaces the row with its id and leaves every other row and the table length |
| DigitalObjects.ExistsByPidIffRows | src/main/java/cz/inovatika/altoEditor/domain/repository/DigitalObjectRepository.java:27 | existsByPid holds exactly when findAllByPid is not empty |
| DigitalObjects.ByPidAnd | src/main/java/cz/inovatika/altoEditor/domain/repository/DigitalObjectRepository.java:43-53 | a derived finder selects exactly the rows with the PID and the other column's value |
| DigitalObjects.DerivedFinder | src/main/java/cz/inovatika/altoEditor/domain/repository/DigitalObjectRepository.java:43-53 | the derived finder gives none exactly when no row matches, and a row only when it is the one matching row |
| DigitalObjects.ByPidAndAppend | src/main/java/cz/inovatika/altoEditor/domain/repository/DigitalObjectRepository.java:43-53 | a row added at the end of the table joins the selection at its end exactly when it matches |
| DigitalObjects.NoneThenAppended | src/main/java/cz/inovatika/altoEditor/domain/repository/DigitalObjectRepository.java:43-53 | once a new PID's row is added, it is the finder's only match |
| DigitalObjects.ByPidAndNone | src/main/java/cz/inovatika/altoEditor/domain/repository/DigitalObjectRepository.java:43-53 | no matching row gives an empty selection |
| DigitalObjects.PriorityPick | src/main/java/cz/inovatika/altoEditor/core/repository/DigitalObjectRepository.java:19-38 | the first result of the priority query is None exactly when no row passes its filter, otherwise a row of the table that passes it |
| DigitalObjects.PriorityPickMinimal | src/main/java/cz/inovatika/altoEditor/core/repository/DigitalObjectRepository.java:25-31 | no row passing the filter ranks before the picked row (version match, then current user, PERO user, altoeditor user) |
| DigitalObjects.PriorityPickVersion | src/main/java/cz/inovatika/altoEditor/core/repository/DigitalObjectRepository.java:24-26 | when a version is asked for, the picked row has that version |
| DigitalObjects.PriorityPickOwner | src/main/java/cz/inovatika/altoEditor/core/repository/DigitalObjectRepository.java:27-29 | with no version asked for, a current-user row beats everything and a PERO row beats the altoeditor rows |
| DigitalObjects.UpdatePick | src/main/java/cz/inovatika/altoEditor/core/repository/DigitalObjectRepository.java:50-67 | the update candidate, read with LIMIT 1 as the ranked query is meant (see Findings), is None exactly when no row qualifies, otherwise a qualifying row of the table |
| DigitalObjects.UpdatePickFirst | src/main/java/cz/inovatika/altoEditor/core/repository/DigitalObjectRepository.java:58-65 | with LIMIT 1, no qualifying row comes before the picked one by rank and then by most recent date |
| DigitalObjects.UpdatePickPrefersOwn | src/main/java/cz/inovatika/altoEditor/core/repository/DigitalObjectRepository.java:54-60 | when the user has a NEW or EDITED row, the pick is such a row of the user, at least as recent; the candidate is the one of the LIMIT 1 query (see Findings) |
| DigitalObjects.UpdateCandidates | src/main/java/cz/inovatika/altoEditor/core/repository/DigitalObjectRepository.java:50-57 | the WHERE clause of the update-candidate query selects exactly the table's rows of the PID that are the user's NEW or EDITED rows, UPLOADED rows or the altoeditor user's NEW rows |
| DigitalObjects.AsWrittenAgreesWhenSingle | src/main/java/cz/inovatika/altoEditor/core/repository/DigitalObjectRepository.java:50-67 | the declared Optional query without LIMIT fails exactly when two or more rows qualify, and otherwise answers what the LIMIT 1 pick answers |
| DigitalObjects.UpdateCandidateAsWrittenThrows | src/main/java/cz/inovatika/altoEditor/core/repository/DigitalObjectRepository.java:50-67 | with the user's EDITED row and another user's UPLOADED row of one PID, the declared query fails with two results while the LIMIT 1 pick is the user's row |
| DigitalObjects.FirstOfPid | src/main/java/cz/inovatika/altoEditor/domain/service/DigitalObjectService.java:215 | findByPid().stream().findFirst(): None exactly when no row has the PID, otherwise the first such row in table order |
| DigitalObjects.ImageInstance | src/main/java/cz/inovatika/altoEditor/domain/service/DigitalObjectService.java:213-224 | a given instance is used as is; without one, the first row of the PID supplies it, and a PID without rows fails |
| DigitalObjects.ChooseImageInstance | src/main/java/cz/inovatika/altoEditor/domain/service/DigitalObjectService.java:214-222 | the instance choice both services make before fetching an image agrees with ImageInstance: the given instance, else the first row's, else none |
| DigitalObjects.SetStateEffect | src/main/java/cz/inovatika/altoEditor/domain/service/DigitalObjectService.java:227-234 | setting a state fails exactly for a missing id; otherwise only that row changes, to the new state, its date moving only when the state differs |
| DigitalObjects.SetStateIdempotent | src/main/java/cz/inovatika/altoEditor/domain/service/DigitalObjectService.java:227-234 | setting the same state twice leaves the table as the first call left it |
| DomainObjects.InsertRow | src/main/java/cz/inovatika/altoEditor/domain/model/DigitalObject.java:27-31 | saving a new row fails exactly when the (instance, pid, version) key is taken |
| DomainObjects.InsertKeepsValid | src/main/java/cz/inovatika/altoEditor/domain/model/DigitalObject.java:27-31 | a successful insert appends the row with the next sequence id and keeps ids distinct and keys unique |
| DomainObjects.MaxVersionRow | src/main/java/cz/inovatika/altoEditor/domain/repository/DigitalObjectRepository.java:58 | findFirstByPidOrderByVersionDesc is None exactly when the PID has no row, otherwise one of its rows |
| DomainObjects.MaxVersionIsMax | src/main/java/cz/inovatika/altoEditor/domain/repository/DigitalObjectRepository.java:58 | every row of the PID has a version no higher than the picked row's |
| DomainObjects.MaxVersionAbove | src/main/java/cz/inovatika/altoEditor/domain/repository/DigitalObjectRepository.java:58 | the picked row's version bounds every version of the PID |
| DomainObjects.FindRelated | src/main/java/cz/inovatika/altoEditor/domain/repository/DigitalObjectRepository.java:67-81 | findRelated is None exactly when no row of the PID is the user's or ACTIVE, otherwise such a row |
| DomainObjects.FindRelatedPrefersUser | src/main/java/cz/inovatika/altoEditor/domain/repository/DigitalObjectRepository.java:73-77 | when the user has a row of the PID, findRelated gives one of the user's rows |
| DomainObjects.FindRelatedFallsBackToActive | src/main/java/cz/inovatika/altoEditor/domain/repository/DigitalObjectRepository.java:71-76 | without a row of the user, findRelated finds a row exactly when the PID has an ACTIVE row, and then gives an ACTIVE one |
| DomainObjects.StoredAlto | src/main/java/cz/inovatika/altoEditor/domain/service/DigitalObjectService.java:73-76 | reading the ALTO datastream succeeds exactly when the storage holds it for that PID and version |
| DomainObjects.FetchVersionZero | src/main/java/cz/inovatika/altoEditor/domain/service/DigitalObjectService.java:97-101 | the row fetched for a new PID has version 0, as written and corrected |
| DomainObjects.FetchAsWrittenMissesContent | src/main/java/cz/inovatika/altoEditor/domain/service/DigitalObjectService.java:89-106 | as written, a fetch for a new PID whose FOXML has ALTO fails at reading the ALTO back, because nothing stored it |
| DomainObjects.FetchStoresAlto | src/main/java/cz/inovatika/altoEditor/domain/service/DigitalObjectService.java:84-109 | the corrected fetch stores the FOXML's latest ALTO as version 0, appends one NEW row for the caller and returns that ALTO |
| DomainObjects.NullStateBlocksSave | src/main/java/cz/inovatika/altoEditor/domain/service/DigitalObjectService.java:99-101 | as written, the fetched row has no state (the column is nullable, domain/model/DigitalObject.java:97), so the caller's next edit fails with NullState: the NullPointerException that `List.of(...).contains(null)` throws in the state test at DigitalObjectService.java:192-195 |
| DomainObjects.FetchedAltoIsEditable | src/main/java/cz/inovatika/altoEditor/domain/service/DigitalObjectService.java:185-200 | after the corrected fetch, the caller's edit overwrites version 0 in place and marks the row EDITED |
| DomainObjects.ReplaceKeepsValid | src/main/java/cz/inovatika/altoEditor/domain/service/DigitalObjectService.java:177-180 | saving a loaded row with the same id and key keeps ids distinct and keys unique |
| DomainObjects.ReplaceOnly | src/main/java/cz/inovatika/altoEditor/domain/service/DigitalObjectService.java:177-180 | saving a loaded row touches no other row's id or key |
| DomainObjects.CreateFresh | src/main/java/cz/inovatika/altoEditor/domain/service/DigitalObjectService.java:132-159 | a new version copies owner and instance of the highest-version row, is one above every version of the PID, is EDITED, and stores the content under it |
| DomainObjects.NextVersionFree | src/main/java/cz/inovatika/altoEditor/domain/service/DigitalObjectService.java:143 | the next version's key is not taken |
| DomainObjects.CallerWithoutRowStaysWithout | src/main/java/cz/inovatika/altoEditor/domain/service/DigitalObjectService.java:150-152 | an edit by a user with no row of the PID creates a row owned by the highest-version row's owner, so the user still has none |
| DomainObjects.OwnDraftEditedInPlace | src/main/java/cz/inovatika/altoEditor/domain/service/DigitalObjectService.java:185-200 | an edit over the user's NEW or EDITED row rewrites that row's ALTO and marks it EDITED with the new date; the candidate is the one of the LIMIT 1 query (see Findings) |
| DomainObjects.OwnDraftIsPicked | src/main/java/cz/inovatika/altoEditor/core/repository/DigitalObjectRepository.java:54-60 | the user's own NEW or EDITED row is the update candidate; the candidate is the one of the LIMIT 1 query (see Findings) |
| DomainObjects.FinishedStartsNewVersion | src/main/java/cz/inovatika/altoEditor/domain/service/DigitalObjectService.java:192-197 | over an ACCEPTED, REJECTED or UPLOADED row of the user, an edit creates a new version, which succeeds |
| DomainObjects.SettledRowEditsAnother | src/main/java/cz/inovatika/altoEditor/domain/service/DigitalObjectService.java:185-200 | over an ACTIVE or ARCHIVED row of the user, the edit fails exactly when no candidate exists and otherwise edits a different row; the candidate is the one of the LIMIT 1 query (see Findings) |
| DomainObjects.UpdateKeepsSlot | src/main/java/cz/inovatika/altoEditor/domain/service/DigitalObjectService.java:161-183 | the update changes only the candidate row, to EDITED with the new date, and stores the content under its version; the candidate is the one of the LIMIT 1 query (see Findings) |
| DomainObjects.GetOcrFindsAlto | src/main/java/cz/inovatika/altoEditor/domain/service/DigitalObjectService.java:202-211 | getOcr fails with not-found exactly when the priority query finds nothing; otherwise it converts the picked row's stored ALTO |
| DomainObjects.DigitalObjectRepository.Insert | src/main/java/cz/inovatika/altoEditor/domain/model/DigitalObject.java:27-31 | the repository's insert follows InsertRow, drawing a sequence id even when refused, and keeps the table valid |
| DomainObjects.DigitalObjectRepository.Save | src/main/java/cz/inovatika/altoEditor/domain/model/DigitalObject.java:105-108 | saving a loaded row replaces it by id and keeps the table valid |
| DomainObjects.DigitalObjectService.FindAlto | src/main/java/cz/inovatika/altoEditor/domain/service/DigitalObjectService.java:57-82 | findAlto returns the priority pick with its stored ALTO, or nothing |
| DomainObjects.DigitalObjectService.FetchNewAlto | src/main/java/cz/inovatika/altoEditor/domain/service/DigitalObjectService.java:84-109 | the fetch does what the corrected specification says and keeps the table valid |
| DomainObjects.DigitalObjectService.GetOriginalAlto | src/main/java/cz/inovatika/altoEditor/domain/service/DigitalObjectService.java:111-130 | the altoeditor user's row with its ALTO, or not-found |
| DomainObjects.DigitalObjectService.CreateNewAltoVersion | src/main/java/cz/inovatika/altoEditor/domain/service/DigitalObjectService.java:132-159 | the new version follows the create specification and keeps the table valid |
| DomainObjects.DigitalObjectService.UpdateAltoVersion | src/main/java/cz/inovatika/altoEditor/domain/service/DigitalObjectService.java:161-183 | the update follows the update specification and keeps the table valid; the candidate is the one of the LIMIT 1 query (see Findings) |
| DomainObjects.DigitalObjectService.UpdateOrCreateAlto | src/main/java/cz/inovatika/altoEditor/domain/service/DigitalObjectService.java:185-200 | the dispatch between update and create follows the specification and keeps the table valid; the candidate is the one of the LIMIT 1 query (see Findings) |
| DomainObjects.DigitalObjectService.GetOcr | src/main/java/cz/inovatika/altoEditor/domain/service/DigitalObjectService.java:202-211 | the OCR text of the found ALTO, or not-found |
| DomainObjects.DigitalObjectService.GetKrameriusObjectImage | src/main/java/cz/inovatika/altoEditor/domain/service/DigitalObjectService.java:213-225 | the image of the given instance, or of the first row's instance; not-found for a PID without rows |
| DomainObjects.DigitalObjectService.SetStateForObject | src/main/java/cz/inovatika/altoEditor/domain/service/DigitalObjectService.java:227-234 | fails exactly for a missing id; otherwise the table becomes SetState's result |
| CoreObjects.UserIdByLogin | src/main/java/cz/inovatika/altoEditor/core/repository/UserRepository.java:25 | None exactly when no user has the login, otherwise the id of a user with it |
| CoreObjects.GetUserIdByUsername | src/main/java/cz/inovatika/altoEditor/core/service/DigitalObjectService.java:42-47 | a null name gives null; an unknown name fails with user-not-found; a known name gives that user's id |
| CoreObjects.GetUserIdIsUnique | src/main/java/cz/inovatika/altoEditor/core/service/DigitalObjectService.java:42-47 | with unique logins, the lookup gives the id of the user with the login |
| CoreObjects.LexRefl | src/main/java/cz/inovatika/altoEditor/core/repository/DigitalObjectRepository.java:72-76 | the database's text order is reflexive |
| CoreObjects.LexTotal | src/main/java/cz/inovatika/altoEditor/core/repository/DigitalObjectRepository.java:72-76 | the database's text order is total |
| CoreObjects.LexTrans | src/main/java/cz/inovatika/altoEditor/core/repository/DigitalObjectRepository.java:72-76 | the database's text order is transitive |
| CoreObjects.MaxVersionRow | src/main/java/cz/inovatika/altoEditor/core/repository/DigitalObjectRepository.java:69-78 | the max-version query's first row is None exactly when the PID has no row, otherwise one of its rows |
| CoreObjects.MaxVersionIsMax | src/main/java/cz/inovatika/altoEditor/core/repository/DigitalObjectRepository.java:72-76 | no version of the PID is a greater text than the picked row's version |
| CoreObjects.NextVersion | src/main/java/cz/inovatika/altoEditor/core/entity/DigitalObject.java:69-75 | a version with no '.' has no counter and fails |
| CoreObjects.JavaSplitTwo | src/main/java/cz/inovatika/altoEditor/core/entity/DigitalObject.java:70 | splitting "p.n" gives exactly p and n |
| CoreObjects.FieldsOfVersion | src/main/java/cz/inovatika/altoEditor/core/entity/DigitalObject.java:70-71 | "p." followed by a printed int reads back as p and that int |
| CoreObjects.NextVersionStep | src/main/java/cz/inovatika/altoEditor/core/entity/DigitalObject.java:69-75 | the version after "p.n" is "p." followed by n + 1, wrapped to 32 bits |
| CoreObjects.NextVersionAddsOne | src/main/java/cz/inovatika/altoEditor/core/entity/DigitalObject.java:69-75 | getNextVersion succeeds exactly when the version has a readable counter, and then keeps the prefix and adds one to the counter |
| CoreObjects.NextVersionDropsTail | src/main/java/cz/inovatika/altoEditor/core/entity/DigitalObject.java:69-75 | anything after a second '.' is dropped from the next version |
| CoreObjects.MaxCounterRow | src/main/java/cz/inovatika/altoEditor/core/service/DigitalObjectService.java:135-145 | the corrected maximum is None exactly when the PID has no row, otherwise one of its rows |
| CoreObjects.MaxCounterIsMax | src/main/java/cz/inovatika/altoEditor/core/service/DigitalObjectService.java:135-145 | no row of the PID has a greater counter than the corrected maximum |
| CoreObjects.Insert | src/main/java/cz/inovatika/altoEditor/core/entity/DigitalObject.java:23-27 | saving a new row gives it the next sequence id and the insert date, and appends it |
| CoreObjects.InsertKeepsValid | src/main/java/cz/inovatika/altoEditor/core/entity/DigitalObject.java:23-27 | inserting keeps the ids distinct and below the sequence |
| CoreObjects.VersionNumberingStalls | src/main/java/cz/inovatika/altoEditor/core/service/DigitalObjectService.java:135-160 | as written, with "ALTO.9" and "ALTO.10" stored, the new version is "ALTO.10" again and its stored content is overwritten |
| CoreObjects.CreateIsFresh | src/main/java/cz/inovatika/altoEditor/core/service/DigitalObjectService.java:135-160 | the corrected new version has a counter above every version of the PID, is EDITED, keeps every earlier content and stores the new one |
| CoreObjects.NextCounterAbove | src/main/java/cz/inovatika/altoEditor/core/service/DigitalObjectService.java:145 | below the int limit, the next counter is above every counter of the PID |
| CoreObjects.StoreFoxml | src/main/java/cz/inovatika/altoEditor/core/service/DigitalObjectService.java:96 | after saving the FOXML its ALTO reads back at the version it carries, and every other stored datastream is as before |
| CoreObjects.FetchReturnsFoxmlAlto | src/main/java/cz/inovatika/altoEditor/core/service/DigitalObjectService.java:89-109 | a PID with rows fails and changes nothing; otherwise the fetch appends one row of the caller at the FOXML's ALTO version with the next id, returns the FOXML's ALTO, stores it at that version and keeps every other stored datastream |
| CoreObjects.FetchedNullStateBlocksSave | src/main/java/cz/inovatika/altoEditor/core/service/DigitalObjectService.java:100-101 | as written, the fetched row has no state, so the next edit by its owner fails on the state test |
| CoreObjects.FetchedRowIsEditable | src/main/java/cz/inovatika/altoEditor/core/service/DigitalObjectService.java:187-202 | a row fetched NEW is edited in place by its owner, at the fetched version |
| CoreObjects.OwnDraftIsPicked | src/main/java/cz/inovatika/altoEditor/core/repository/DigitalObjectRepository.java:54-60 | the user's own NEW or EDITED row is the update candidate; the candidate is the one of the LIMIT 1 query (see Findings) |
| CoreObjects.OwnDraftEditedInPlace | src/main/java/cz/inovatika/altoEditor/core/service/DigitalObjectService.java:187-202 | an edit over the user's NEW or EDITED row rewrites its ALTO and marks it EDITED with the new date; the candidate is the one of the LIMIT 1 query (see Findings) |
| CoreObjects.ReplaceKeepsValid | src/main/java/cz/inovatika/altoEditor/core/service/DigitalObjectService.java:179-182 | saving a loaded row keeps the ids distinct |
| CoreObjects.FinishedStartsNewVersion | src/main/java/cz/inovatika/altoEditor/core/service/DigitalObjectService.java:194-199 | over an ACCEPTED, REJECTED or UPLOADED row, an edit creates a new version and fails only as getNextVersion fails |
| CoreObjects.GetOcrOwnVersion | src/main/java/cz/inovatika/altoEditor/core/service/DigitalObjectService.java:204-221 | getOcr fails with not-found exactly when the user has no row of that version; otherwise it converts that row's ALTO |
| CoreObjects.DigitalObjectRepository.Insert | src/main/java/cz/inovatika/altoEditor/core/entity/DigitalObject.java:23-27 | the insert appends the row with the next id and the date, and keeps the table valid |
| CoreObjects.DigitalObjectRepository.Save | src/main/java/cz/inovatika/altoEditor/core/service/DigitalObjectService.java:179-182 | saving a loaded row replaces it by id and keeps the table valid |
| CoreObjects.DatastreamStore.SaveAltoContent | src/main/java/cz/inovatika/altoEditor/storage/AkubraService.java:20-23 | the ALTO text is stored under the PID and version, nothing else changes |
| CoreObjects.DatastreamStore.SaveOcrContent | src/main/java/cz/inovatika/altoEditor/storage/AkubraService.java:25-27 | the OCR text is stored under the PID and version, nothing else changes |
| CoreObjects.DatastreamStore.SaveFoxml | src/main/java/cz/inovatika/altoEditor/core/service/DigitalObjectService.java:96 | saveFoxml: the store becomes StoreFoxml of the old store |
| CoreObjects.DatastreamStore.GetDatastreamContent | src/main/java/cz/inovatika/altoEditor/storage/AkubraService.java:34-38 | the stored ALTO text, or "" when none is stored |
| CoreObjects.DigitalObjectService.FindAlto | src/main/java/cz/inovatika/altoEditor/core/service/DigitalObjectService.java:61-87 | findAlto returns the priority pick with its ALTO, or nothing |
| CoreObjects.DigitalObjectService.FetchNewAlto | src/main/java/cz/inovatika/altoEditor/core/service/DigitalObjectService.java:89-109 | the fetch saves the FOXML, inserts the row NEW and reads the ALTO back, as the corrected specification says (so it returns the FOXML's ALTO, by FetchReturnsFoxmlAlto), and keeps the table valid |
| CoreObjects.DigitalObjectService.GetOriginalAlto | src/main/java/cz/inovatika/altoEditor/core/service/DigitalObjectService.java:111-133 | the altoeditor user's row with its ALTO, or not-found |
| CoreObjects.DigitalObjectService.CreateNewAltoVersion | src/main/java/cz/inovatika/altoEditor/core/service/DigitalObjectService.java:135-161 | the new version follows the corrected create specification and keeps the table valid |
| CoreObjects.DigitalObjectService.UpdateAltoVersion | src/main/java/cz/inovatika/altoEditor/core/service/DigitalObjectService.java:163-185 | the update follows the update specification and keeps the table valid; the candidate is the one of the LIMIT 1 query (see Findings) |
| CoreObjects.DigitalObjectService.UpdateOrCreateAlto | src/main/java/cz/inovatika/altoEditor/core/service/DigitalObjectService.java:187-202 | the dispatch between update and create follows the specification and keeps the table valid; the candidate is the one of the LIMIT 1 query (see Findings) |
| CoreObjects.DigitalObjectService.GetOcr | src/main/java/cz/inovatika/altoEditor/core/service/DigitalObjectService.java:204-221 | the OCR text of the user's row of that version, or not-found |
| CoreObjects.DigitalObjectService.GetKrameriusObjectImage | src/main/java/cz/inovatika/altoEditor/core/service/DigitalObjectService.java:223-235 | the image of the given instance, or of the first row's instance; not-found for a PID without rows |
| CoreObjects.DigitalObjectService.SetStateForObject | src/main/java/cz/inovatika/altoEditor/core/service/DigitalObjectService.java:237-244 | fails exactly for a missing id; otherwise the table becomes SetState's result |
| AltoText.GetAsArray | src/main/java/cz/inovatika/altoEditor/infrastructure/editor/AltoXmlService.java:107-116 | an array field gives its elements, a missing field nothing, any other node a one-element list |
| AltoText.TransformValue | src/main/java/cz/inovatika/altoEditor/infrastructure/editor/AltoXmlService.java:118-127 | null exactly for a missing or null node; text and numbers give their text |
| AltoText.Words | src/main/java/cz/inovatika/altoEditor/infrastructure/editor/AltoXmlService.java:95-102 | every word a line keeps is non-blank |
| AltoText.LineTexts | src/main/java/cz/inovatika/altoEditor/infrastructure/editor/AltoXmlService.java:81-87 | every line a block keeps is non-blank |
| AltoText.BlockTexts | src/main/java/cz/inovatika/altoEditor/infrastructure/editor/AltoXmlService.java:67-73 | every block a page keeps is non-blank and starts and ends with a visible character |
| AltoText.ProcessTextLine | src/main/java/cz/inovatika/altoEditor/infrastructure/editor/AltoXmlService.java:92-105 | the loop gives the line's kept words, each followed by a space, trimmed |
| AltoText.ProcessTextBlock | src/main/java/cz/inovatika/altoEditor/infrastructure/editor/AltoXmlService.java:78-90 | the loop gives the block's kept lines, each followed by a newline, trimmed |
| AltoText.ProcessPrintSpace | src/main/java/cz/inovatika/altoEditor/infrastructure/editor/AltoXmlService.java:64-76 | the loop gives the page's kept blocks, each followed by a blank line, with runs of blank lines collapsed |
| AltoText.ConvertAltoToOcr | src/main/java/cz/inovatika/altoEditor/infrastructure/editor/AltoXmlService.java:50-62 | the text of the print space found under alto/Layout/Page/PrintSpace, trimmed |
| AltoText.TrimTerminated | src/main/java/cz/inovatika/altoEditor/infrastructure/editor/AltoXmlService.java:104 | trimming drops a trailing whitespace separator, so a line is its words joined by single spaces |
| AltoText.LineTextIsJoin | src/main/java/cz/inovatika/altoEditor/infrastructure/editor/AltoXmlService.java:92-105 | a line's text is its kept words joined by single spaces, trimmed |
| AltoText.BlockTextIsJoin | src/main/java/cz/inovatika/altoEditor/infrastructure/editor/AltoXmlService.java:78-90 | a block's text is its kept lines joined by newlines, trimmed |
| AltoText.BlankWordAddsNothing | src/main/java/cz/inovatika/altoEditor/infrastructure/editor/AltoXmlService.java:99 | a word that is missing, null or blank changes nothing |
| AltoText.SingleChildAsList | src/main/java/cz/inovatika/altoEditor/infrastructure/editor/AltoXmlService.java:107-116 | a single child element reads like a one-element list of it; a missing one like an empty list |
| AltoText.CollapseStart | src/main/java/cz/inovatika/altoEditor/infrastructure/editor/AltoXmlService.java:75 | the collapse is empty exactly for empty text and keeps the first character's kind |
| AltoText.CollapseNoTripleBreak | src/main/java/cz/inovatika/altoEditor/infrastructure/editor/AltoXmlService.java:75 | after the collapse, no three newlines follow each other |
| AltoText.CollapseFixes | src/main/java/cz/inovatika/altoEditor/infrastructure/editor/AltoXmlService.java:75 | text without two consecutive newlines is unchanged by the collapse |
| AltoText.CollapseAppend | src/main/java/cz/inovatika/altoEditor/infrastructure/editor/AltoXmlService.java:75 | texts not meeting at newlines collapse separately |
| AltoText.PageTextSeparatesBlocks | src/main/java/cz/inovatika/altoEditor/infrastructure/editor/AltoXmlService.java:64-76 | blocks without blank lines inside come out separated by exactly one blank line, with one trailing |
| AltoText.CollapseTerminated | src/main/java/cz/inovatika/altoEditor/infrastructure/editor/AltoXmlService.java:64-76 | the collapse leaves such blocks, each followed by a blank line, unchanged |
| AltoText.TrimKeepsUntrimmedEnds | src/main/java/cz/inovatika/altoEditor/infrastructure/editor/AltoXmlService.java:58 | trimming text with visible ends changes nothing |
| AltoText.AltoToOcrJoinsBlocks | src/main/java/cz/inovatika/altoEditor/infrastructure/editor/AltoXmlService.java:50-76 | when no block has a blank line inside, the OCR text is the non-blank blocks joined by one blank line |
| AltoText.TrimmedPageText | src/main/java/cz/inovatika/altoEditor/infrastructure/editor/AltoXmlService.java:58-75 | trimming the page text leaves the blocks joined by blank lines |
| AltoText.CollapseVisibleTexts | src/main/java/cz/inovatika/altoEditor/infrastructure/editor/AltoXmlService.java:64-76 | blocks with visible ends and no blank line inside collapse to their join plus one blank line |
| AltoText.TrimBlankLineTail | src/main/java/cz/inovatika/altoEditor/infrastructure/editor/AltoXmlService.java:58 | a trailing blank line vanishes in the trim |
| AltoText.JoinVisibleEnds | src/main/java/cz/inovatika/altoEditor/infrastructure/editor/AltoXmlService.java:58 | joined texts with visible ends are already trimmed |
| AltoText.NextVersion | src/main/java/cz/inovatika/altoEditor/infrastructure/editor/AltoXmlService.java:148-152 | a version without '.' fails for lack of a revision |
| AltoText.NextVersionIncrements | src/main/java/cz/inovatika/altoEditor/infrastructure/editor/AltoXmlService.java:148-152 | "p.n" becomes "p." followed by n + 1, the prefix kept |
| AltoText.NextVersionSecondDot | src/main/java/cz/inovatika/altoEditor/infrastructure/editor/AltoXmlService.java:149-150 | with a second '.', the revision text does not parse and the call fails |
| AltoText.NextVersionWraps | src/main/java/cz/inovatika/altoEditor/infrastructure/editor/AltoXmlService.java:150-151 | the largest int revision wraps to the smallest |
| AltoText.IsAltoSpec | src/main/java/cz/inovatika/altoEditor/infrastructure/editor/AltoXmlService.java:129-146 | accepted exactly when some schema accepts; otherwise the error names the number of schemas and carries each schema's error in order |
| AltoText.IsAlto | src/main/java/cz/inovatika/altoEditor/infrastructure/editor/AltoXmlService.java:129-146 | the loop stops at the first accepting schema or returns every error |
| AltoText.NoneBeforeAccepts | src/main/java/cz/inovatika/altoEditor/infrastructure/editor/AltoXmlService.java:132-137 | any accepting schema makes the document ALTO |
| GeneratorRun.SubstatesAppend | src/main/java/cz/inovatika/altoEditor/infrastructure/process/altoocr/AltoOcrGeneratorProcess.java:85-109 | the substates of a run are those of its parts in order |
| GeneratorRun.RunStartsRunning | src/main/java/cz/inovatika/altoEditor/infrastructure/process/altoocr/AltoOcrGeneratorProcess.java:63-66 | the first call of every run sets the batch RUNNING |
| GeneratorRun.RunSettles | src/main/java/cz/inovatika/altoEditor/infrastructure/process/altoocr/AltoOcrGeneratorProcess.java:58-136 | the batch ends DONE exactly when every step succeeds and the engine reports success, and then the ALTO and the OCR text are saved in that order; otherwise it ends FAILED with the not-found, engine or exception message |
| GeneratorRun.MissingRowStopsEarly | src/main/java/cz/inovatika/altoEditor/infrastructure/process/altoocr/AltoOcrGeneratorProcess.java:73-78 | without the page's row the batch fails with the not-found message, passes through no substate and saves nothing |
| GeneratorRun.PrefixSubstates | src/main/java/cz/inovatika/altoEditor/process/altoocr/AltoOcrGeneratorProcess.java:62-73 | before the engine runs the batch passes DOWNLOADING then GENERATING, in both copies |
| GeneratorRun.FoundSubstates | src/main/java/cz/inovatika/altoEditor/infrastructure/process/altoocr/AltoOcrGeneratorProcess.java:83-109 | a failed download stops at DOWNLOADING, a failed engine at GENERATING, and success reaches SAVING |
| GeneratorRun.SubstatesInOrder | src/main/java/cz/inovatika/altoEditor/infrastructure/process/altoocr/AltoOcrGeneratorProcess.java:83-109 | every run passes through a prefix of DOWNLOADING, GENERATING, SAVING and nothing else |
| GeneratorRun.SavesOnlyAfterEngine | src/main/java/cz/inovatika/altoEditor/infrastructure/process/altoocr/AltoOcrGeneratorProcess.java:100-119 | nothing is saved unless the engine succeeded on a found row, and saving starts with the ALTO |
| GeneratorRun.CountSetBeforeGenerating | src/main/java/cz/inovatika/altoEditor/process/altoocr/AltoOcrGeneratorProcess.java:64-73 | the current copy sets the estimated count before DOWNLOADING; the legacy copy records one SINGLE item after downloading |
| GeneratorRun.WorkDirectories.CreateWorkDir | src/main/java/cz/inovatika/altoEditor/storage/WorkDirectoryService.java:25-42 | a new work directory is added |
| GeneratorRun.WorkDirectories.Cleanup | src/main/java/cz/inovatika/altoEditor/storage/WorkDirectoryService.java:58-67 | cleanup of no directory does nothing, otherwise removes that directory |
| GeneratorRun.CurrentLookup | src/main/java/cz/inovatika/altoEditor/infrastructure/process/altoocr/AltoOcrGeneratorProcess.java:70-71 | a row found by the page's uuid and instance is a table row with a digital object |
| GeneratorRun.AltoOcrGeneratorProcess.SaveResults | src/main/java/cz/inovatika/altoEditor/infrastructure/process/altoocr/AltoOcrGeneratorProcess.java:107-122 | the save steps make the calls and saves of SaveTrace, storing each file at the row's PID and version |
| GeneratorRun.AltoOcrGeneratorProcess.Process | src/main/java/cz/inovatika/altoEditor/infrastructure/process/altoocr/AltoOcrGeneratorProcess.java:79-122 | the steps after the lookup follow FoundTrace, with the saves stored at the row's version |
| GeneratorRun.AltoOcrGeneratorProcess.Run | src/main/java/cz/inovatika/altoEditor/infrastructure/process/altoocr/AltoOcrGeneratorProcess.java:58-136 | the run makes exactly RunTrace's calls on the batch, stores only its saves and leaves no work directory behind; a missing batch changes nothing |
| GeneratorRun.LegacyLookup | src/main/java/cz/inovatika/altoEditor/process/altoocr/AltoOcrGeneratorProcess.java:51-52 | a row found by PID and instance is a table row |
| GeneratorRun.LegacyAltoOcrGeneratorProcess.SaveResults | src/main/java/cz/inovatika/altoEditor/process/altoocr/AltoOcrGeneratorProcess.java:87-102 | the save steps make the calls and saves of SaveTrace, storing each text at the row's PID and version |
| GeneratorRun.LegacyAltoOcrGeneratorProcess.Process | src/main/java/cz/inovatika/altoEditor/process/altoocr/AltoOcrGeneratorProcess.java:60-102 | the steps after the lookup follow FoundTrace for the legacy copy |
| GeneratorRun.LegacyAltoOcrGeneratorProcess.Run | src/main/java/cz/inovatika/altoEditor/process/altoocr/AltoOcrGeneratorProcess.java:40-116 | the run makes exactly RunTrace's calls on the batch, stores only its saves and leaves no work directory behind |
| PeroClient.Basename | src/main/resources/cz/inovatika/altoEditor/pero-vut.py:32 | the base name has no '/' and ends the path |
| PeroClient.Dirname | src/main/resources/cz/inovatika/altoEditor/pero-vut.py:34 | the directory name is a prefix of the path |
| PeroClient.BasenameOfJoin | src/main/resources/cz/inovatika/altoEditor/pero-vut.py:34-36 | joining a directory and a plain file name and taking the base name gives the file name back |
| PeroClient.DownloadUrl | src/main/resources/cz/inovatika/altoEditor/pero-vut.py:116-117 | the download URL is the server URL, "download_results", the request id, the file name and the format, joined by '/' |
| PeroClient.ReplaceKeepsLeadingDot | src/main/resources/cz/inovatika/altoEditor/pero-vut.py:152-155 | replacing ".tif" or ".tiff" by ".jpg" keeps a leading '.' |
| PeroClient.FirstFieldSurvivesReplace | src/main/resources/cz/inovatika/altoEditor/pero-vut.py:152-155 | the replacement leaves the text before the first '.' unchanged |
| PeroClient.ContentTypeCases | src/main/resources/cz/inovatika/altoEditor/pero-vut.py:136-148 | a content type exists exactly for tif, tiff, jpg, jpeg, JPG and jp2, and is image/tiff exactly for tif and tiff; JPEG and TIF are refused |
| PeroClient.EscapeRoundTrip | src/main/resources/cz/inovatika/altoEditor/pero-vut.py:84 | decoding the JSON string escape of a text gives the text back |
| PeroClient.CreateJsonNamesImage | src/main/resources/cz/inovatika/altoEditor/pero-vut.py:81-85 | the request body names engine 1 and has the file name as its one image key |
| PeroClient.PresentOutputsSkip | src/main/resources/cz/inovatika/altoEditor/pero-vut.py:27-28 | when both outputs exist, the script exits 0 without sending or writing anything |
| PeroClient.NoExtensionRaises | src/main/resources/cz/inovatika/altoEditor/pero-vut.py:32 | an image name without '.' raises before any request |
| PeroClient.UnsupportedExtensionSendsNothing | src/main/resources/cz/inovatika/altoEditor/pero-vut.py:136-148 | an unsupported extension exits -1 before any request or file write |
| PeroClient.SiblingKeepsTiffType | src/main/resources/cz/inovatika/altoEditor/pero-vut.py:33-37 | a TIFF with a .jpg beside it sends that .jpg, unconverted, named by the TIFF's stem, with the TIFF content type |
| PeroClient.ConversionKeepsFileName | src/main/resources/cz/inovatika/altoEditor/pero-vut.py:151-166 | the converted JPEG is written in the temporary directory under the replaced name, keeping the stem |
| PeroClient.TiffWithoutSiblingIsConverted | src/main/resources/cz/inovatika/altoEditor/pero-vut.py:38-41 | a TIFF without a .jpg beside it is converted, and the converted file's stem names the image |
| PeroClient.JpegNameIsPlain | src/main/resources/cz/inovatika/altoEditor/pero-vut.py:152-155 | the converted name is a plain non-empty file name with the original stem |
| PeroClient.PollShape | src/main/resources/cz/inovatika/altoEditor/pero-vut.py:65-71 | polling repeats the txt download until PROCESSED, then downloads the ALTO once and writes what returned 200; a fatal reply exits -1 |
| PeroClient.AltoNotAwaited | src/main/resources/cz/inovatika/altoEditor/pero-vut.py:68-69 | the ALTO download is not retried: an unfinished ALTO leaves the ALTO output as it was |
| PeroClient.HangsOnlyOnPostStatus | src/main/resources/cz/inovatika/altoEditor/pero-vut.py:92-95 | the script loops forever only when the post request succeeds with a status other than success |
| PeroClient.SubmitShape | src/main/resources/cz/inovatika/altoEditor/pero-vut.py:50-76 | a successful submission sends the post, the upload, the polls and one ALTO download in order, removes a converted image and the temporary directory |
| PeroClient.PrepareSendsNothing | src/main/resources/cz/inovatika/altoEditor/pero-vut.py:30-44 | preparing the image sends nothing and creates or removes no directory |
| PeroClient.FinishedRun | src/main/resources/cz/inovatika/altoEditor/pero-vut.py:17-78 | the temporary directory is removed exactly when the script exits 0 after sending; the requests sent are then the post, the upload, the polls and the ALTO download |
| PeroClient.PeroScript.ConvertTif | src/main/resources/cz/inovatika/altoEditor/pero-vut.py:151-166 | the conversion step does what Convert says to the files |
| PeroClient.PeroScript.PrepareImage | src/main/resources/cz/inovatika/altoEditor/pero-vut.py:30-44 | the choice of image does what Prepare says |
| PeroClient.PeroScript.DownloadResults | src/main/resources/cz/inovatika/altoEditor/pero-vut.py:116-133 | one download does what Fetch says: 200 writes the output and is PROCESSED, a not-processed message or other code below 400 is UNPROCESSED, anything else exits -1 |
| PeroClient.PeroScript.PollResults | src/main/resources/cz/inovatika/altoEditor/pero-vut.py:65-71 | the polling loop does what Poll says |
| PeroClient.PeroScript.SubmitImage | src/main/resources/cz/inovatika/altoEditor/pero-vut.py:46-78 | the submission does what Submit says |
| PeroClient.PeroScript.RunScript | src/main/resources/cz/inovatika/altoEditor/pero-vut.py:17-78 | the whole script does what Run says |
| JavaText.TrimIsInnerSlice | src/main/java/cz/inovatika/altoEditor/infrastructure/editor/AltoXmlService.java:104 | String.trim keeps a slice of the text, drops only characters up to U+0020 around it, and leaves no such character at either end |
| JavaText.TrimIgnoresTrailing | src/main/java/cz/inovatika/altoEditor/infrastructure/editor/AltoXmlService.java:89 | trailing characters up to U+0020 do not change the trim |
| JavaText.DropTrailingEmpty | src/main/java/cz/inovatika/altoEditor/core/entity/DigitalObject.java:70 | String.split drops exactly the trailing empty fields |
| JavaText.SplitFirst | src/main/java/cz/inovatika/altoEditor/infrastructure/editor/AltoXmlService.java:149 | a split with limit 2 gives the whole text when the separator is absent, and otherwise the text before its first occurrence and the rest |
| JavaText.SplitAllOfJoin | src/main/java/cz/inovatika/altoEditor/core/entity/DigitalObject.java:70 | splitting parts joined by a separator they do not contain gives the parts back |
| JavaText.Wrap32 | src/main/java/cz/inovatika/altoEditor/infrastructure/editor/AltoXmlService.java:151 | int addition wraps into the 32-bit range and is exact inside it |
| JavaText.ParseInt | src/main/java/cz/inovatika/altoEditor/core/entity/DigitalObject.java:71 | Integer.parseInt: a parsed value is an int, read from a non-empty text of decimal digits with at most a leading '+' or '-', and a negative value comes from a leading '-' |
| JavaText.ParseIntToString | src/main/java/cz/inovatika/altoEditor/core/entity/DigitalObject.java:71 | Integer.parseInt reads back any printed int |

## Left out

- REST controllers, facades, mappers, Jackson and JSON mapping, Spring wiring, thread pools and the dispatcher's executor: these are wiring around the modelled operations.
- Full-text and specification searches (`search`, Hibernate Search, `DigitalObjectSpecifications`): these are library queries with no logic of the service's own.
- `getAltoVersionUploadContent`, `getDigitalObjectUploadContent` and `AltoVersionService.getKrameriusObjectImage`: these are read-through getters that only combine lookups the model already has.
- `findStaleForUser`: it names a STALE state that the state enum does not declare, so the query cannot run.
- `getTimeout` of the external processes: it is a configuration getter.
- Processes, HTTP calls, Kramerius, the clock, the XML parser and the XSD validator are outside the model. The model takes what they return as parameters: the FOXML, the metadata map, `now`, the parsed tree and each schema's verdict.
- The legacy `storage/AkubraService` is a stub whose methods throw or return "". `CoreObjects.DatastreamStore` models the store it stands for: writes replace, reads give "" when nothing is stored, and `saveFoxml` makes the FOXML's ALTO readable at the version it carries.
- CoreObjects.DigitalObjectService.FetchNewAlto: the fetched FOXML is given by its ALTO datastream, as the version `getDsVersion` reports and that version's content. Its other datastreams, and a FOXML without ALTO, are not modelled.
- `String.getBytes` and `new String(bytes)` are taken as identity, because the model does not encode characters.
- The `domain` digital-object entity has a `user` relation, while its service calls `userId`. The model reads both as the owner's id.
- `findByPidAndInstanceId` in the `domain` repository names an `instanceId` property that the entity spells `instance_id`. The model takes the evident meaning.
- `ObjectHierarchyService` builds `DigitalObject` values with fields that only `ObjectHierarchyNode` has. The model uses hierarchy nodes.
- Database row order among equal sort keys is unspecified. The model uses table order, which is insertion order.
- Calls to the batch service inside the batch processes are assumed not to throw. A failing `setFailed` inside the catch block is only logged.
- Boxed `Long` ids in `setObjectActive` are compared by value. Reference comparison would differ only outside the small-integer cache.
- Version numbers in the ALTO version table are unbounded, with no 32-bit wrap, which would take 2^31 saves of one page.
- AltoVersionSvc.GetAncestorPids: the parent walk is bounded by the number of stored objects. A longer walk can only be a cycle, and the model reports it as `Diverges` where the source would loop.
- AltoVersionSvc.GetAncestorTitles: the same bound applies as in GetAncestorPids.
- RetrieveHierarchy.RetrieveHierarchyProcess.Run: it returns the pages whose ALTO would be requested. It does not call the undeclared `updateOrCreateKrameriusVersion`.
- CoreObjects.CreateIsFresh: it requires the maximum counter to be below `Integer.MAX_VALUE`. At the limit, `NextVersionWraps` shows that the counter wraps.
- Engines.PageOf: its own contract only bounds the page. `Engines.PageIsSlice` states what the page holds.
- PeroClient.PeroScript.RunScript:
  - argument parsing, `sleep`, the `requests` session and PIL are outside the model; their results are inputs;
  - an exception is modelled as `Raised`;
  - the endless wait on the processing request is `Hangs`;
  - running out of poll replies is `Waiting`.
- PeroClient.PeroScript.PollResults: a reply is taken with its status code, body and error message already read. A 4xx or 5xx body that is not JSON, or has no "message" key, raises in the source; the model does not cover that case.
- PeroClient.PeroScript.SubmitImage: the request id is taken as the string the reply carries. A reply without `request_id`, which the source would put into the URLs as "None", is not told apart.
- PeroClient.PeroScript.RunScript: an output directory that does not exist, and `rmdir` of a non-empty temporary directory, are not modelled.
- Uuids.ParseUuid: only the canonical 8-4-4-4-12 hex text is accepted. `UUID.fromString` also accepts shorter hex groups such as "1-2-3-4-5"; the model refuses those.
- Uuids.UuidOfPid: it inherits the canonical-only reading of `ParseUuid`. A PID whose UUID text is in a lenient JDK form fails in the model.
- Uuids.ToUuid: the same canonical-only reading applies as in UuidOfPid.
- Uuids.ParsePid: the same canonical-only reading applies as in UuidOfPid.
- Uuids.ParentUuid: the same canonical-only reading applies as in UuidOfPid.
- ObjectHierarchy.BuildObject: the same canonical-only reading applies to the builder's PID as in UuidOfPid.
- JavaText.ParseInt: only the ASCII digits '0' to '9' are read. `Integer.parseInt` also accepts other Unicode decimal digits, such as Arabic-Indic ones, which the model refuses.
- CoreObjects.NextVersionAddsOne: it inherits the ASCII-only digits of `ParseInt`. A version counter written in other Unicode digits fails in the model.
- Uuids.ClipTitle: lengths are counted in Unicode scalar values. Java counts UTF-16 code units, so the two differ for titles with characters outside the Basic Multilingual Plane. A cut through a surrogate pair cannot be expressed, because a Dafny `char` is a scalar value.
- ErrorHandler.BodySnippet: the same scalar-value counting applies as in ClipTitle.
- ObjectHierarchy.Climb: the walk carries a fuel bound, which `Ancestry` sets to the number of stored objects. A longer parent chain can only be a cycle; the model ends it unfinished where the source would loop forever.
- ObjectHierarchy.UpwardWalk: the walk carries a fuel bound, which its callers set to the number of Kramerius answers. A longer walk can only be a cycle of parent PIDs; the model ends it with `Diverges` where the source would loop forever.
- ObjectHierarchy.ObjectHierarchyService.RefreshPageCountsForAncestors: it walks with `Ancestry`, so a cyclic parent chain ends with `Diverges` after one step per stored object instead of looping.
- ObjectHierarchy.ObjectHierarchyService.WalkUp: its loop carries the same fuel as UpwardWalk, so a cyclic chain of Kramerius answers ends with `Diverges` instead of looping.
- AltoVersionSvc.AltoVersionService.CollectChain: the metadata loop carries a fuel count set to the number of Kramerius answers. A cyclic parent chain ends with `Diverges` where the source would loop forever.
- RetrieveHierarchy.QueueShrinks: the Kramerius children answers are a finite tree in the model. A cyclic answer, which would make the source's queue loop forever, cannot be expressed.
- AltoVersions.InsertRow: the `instance` is always present and is not checked against the NOT NULL, length-31 column. A null or longer instance id, which the facade can pass, is not refused at save.
- AltoVersions.StoreInitialOutcome: the same always-present instance applies as in InsertRow.
- AltoVersions.FetchSpecOutcome: the fetch is given an instance id. The facade's null instance, which would fail at save, is not covered.
- AltoVersionSvc.AltoVersionRepository.Insert: the same always-present instance applies as in InsertRow.
- AltoVersionSvc.AltoVersionService.FetchNewAlto: the same given instance id applies as in FetchSpecOutcome.
- UserFactory.From: the role names and the configured editor and curator names are never null in the model. In the source, a null role name in the list makes the immutable map's `get` throw a NullPointerException, and so does a null configured name in `Map.of`.
- ExternalCommands.BuildBatchCmdLine: it returns the triplet file's content, and writing the file is taken to succeed. The IOException that the source turns into an IllegalStateException is not modelled.
- RetrieveHierarchy.RetrieveHierarchyProcess.Drain: the Kramerius answers are given up front as a tree, so an exception from Kramerius during the drain is not modelled. Only a failing store stops the drain.

## Findings

| source | as written | input that shows it | evidently intended | confidence | as-written member | corrected member |
|---|---|---|---|---|---|---|
| src/main/java/cz/inovatika/altoEditor/domain/service/AltoVersionService.java:225-232 | the for-each over the `java.util.Stack` of fetched metadata runs in push order, so from the page up to the root | the first fetch of a page with at least one ancestor, none of them stored | create the ancestors root first, each under its parent, and give version 0 to the page | not executed | AltoVersions.FetchLeafFirstMisfiles | AltoVersions.RootFirstLinksPage |
| src/main/java/cz/inovatika/altoEditor/domain/service/AltoVersionService.java:234-242 | the version-0 row is built without a state, but the state column is NOT NULL (`AltoVersion.java:93-95`) | any first fetch of a page whose FOXML has an ALTO datastream | save version 0 with a state, ACTIVE | not executed | AltoVersions.FetchAsWrittenRefusedAtSave | AltoVersions.FetchSpecOutcome |
| src/main/java/cz/inovatika/altoEditor/infrastructure/process/altoocr/GenerateBatchExternalProcess.java:24-27 | each triplet is written without a line break after it | two triplets `a,b,c` and `d,e,f` are written as `a,b,cd,e,f` | one triplet per line | not executed | ExternalCommands.TripletsRunTogether | ExternalCommands.TripletsFileRoundTrip |
| src/main/java/cz/inovatika/altoEditor/domain/service/DigitalObjectService.java:89-106 | the fetch reads version 0 of the ALTO back from the store without storing it first | a first fetch of a PID whose FOXML has ALTO, into an empty store | store the FOXML's ALTO as version 0 and return it | not executed | DomainObjects.FetchAsWrittenMissesContent | DomainObjects.FetchStoresAlto |
| src/main/java/cz/inovatika/altoEditor/domain/service/DigitalObjectService.java:99-101 | the fetched row has no state, so the owner's next edit fails on the state test at line 192-195 | a fetch followed by an edit by the same user | save the fetched row NEW, so that the owner can edit it | not executed | DomainObjects.NullStateBlocksSave | DomainObjects.FetchedAltoIsEditable |
| src/main/java/cz/inovatika/altoEditor/core/repository/DigitalObjectRepository.java:69-78 | the maximum version is the greatest text, so "ALTO.9" ranks above "ALTO.10" | rows with "ALTO.9" and "ALTO.10": the next version is "ALTO.10" again, and its stored ALTO is overwritten | take the maximum by the counter after the '.' | not executed | CoreObjects.VersionNumberingStalls | CoreObjects.CreateIsFresh |
| src/main/java/cz/inovatika/altoEditor/core/service/DigitalObjectService.java:100-101 | the fetched row has no state, so the owner's next edit fails on the state test at lines 194-197 | a fetch followed by an edit by the same user | save the fetched row NEW | not executed | CoreObjects.FetchedNullStateBlocksSave | CoreObjects.FetchedRowIsEditable |
| src/main/java/cz/inovatika/altoEditor/core/repository/DigitalObjectRepository.java:49-66 | the ranked update-candidate query returns `Optional` with no LIMIT 1, so Spring Data throws `IncorrectResultSizeDataAccessException` whenever two rows qualify, and the ranking has no effect | the user's EDITED row of a page and another user's UPLOADED row of the same page | return the first row in the ranked order, as `findRelated` does with LIMIT 1 in the `domain` repository | not executed | DigitalObjects.UpdateCandidateAsWrittenThrows | DigitalObjects.UpdatePickFirst |
