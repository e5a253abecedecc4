# vertical_builder: the build-job control logic in Dafny

vertical_builder is a worker that publishes one "vertical" of an
organisation's site. It receives a job payload naming an org, a vertical, a
template and an export. It downloads the exported snapshot from object
storage, checks the snapshot's layout and `manifest.json`, assembles a Hugo
workspace and runs Hugo. The output is then either copied locally (site
`"local"`) or deployed to Firebase Hosting. Jobs for the same org and
vertical are kept apart by a TTL lock document. Each job's progress is
recorded in a receipt document: "queued", then "building", then a final
"deployed" or "failed".

This project models that control logic as pure functions over immutable data:

- The two document collections become maps:
  - lock documents keyed by (orgId, verticalKey);
  - receipt documents keyed by (orgId, jobId).
- The lock transaction is one atomic function over the lock map.
- Some collaborator calls are replaced by the outcome they yield, passed in
  as a parameter (`Builds.Steps`, `Jobs.JobSteps`). These are:
  - the three receipt writes and the lock release;
  - the object listing and each file download;
  - the manifest decode;
  - the theme and `config.yaml` copies;
  - Hugo, the local copy and the Hosting deploy.
- Other calls are modelled directly:
  - the lock acquire, as a function of the lock map;
  - the content, data and static copies, and the directories they create;
  - the directories the download loop creates;
  - `_prepare_run_dirs`, as the fresh empty workspace.
- Clock readings are parameters too.
- Timestamps are integer microseconds, the resolution of Python's
  `datetime`. So `durationMs` is modelled as exact truncation of a
  microsecond difference.
- Each exception the code raises is a constructor of `Outcomes.Fault`. Its
  arguments are the values the message interpolates.

Modules, in dependency order:

- Support modules:
  - `Seqs`: order-preserving selection.
  - `Strings`: `rstrip("/")`, the first `/`.
  - `Json`: decoded values, truthiness, missing keys.
  - `Outcomes`: faults and results.
  - `Config`: the runtime configuration and the job.
- `DocPaths`: the document paths.
- `Locks`: `acquire_lock`, `release_lock`.
- `Receipts`: `write_receipt`, `write_receipt_status`.
- `Targets`: `_validate_build_target`, `_validate_payload`.
- `GsUri`: `_parse_gs_uri`, `_snapshot_uri`.
- `Manifests`: `validate_manifest`.
- `Snapshots`: `download_snapshot`, `validate_snapshot_layout`,
  `load_manifest`.
- `Workspaces`: `assemble_workspace`.
- `Builds`: `_run_build`.
- `Jobs`: `handle_build_job`.

Two behaviours of the orchestrator are worth stating plainly:

- **The queued write.** The "queued" status write (builder_service.py:128) is
  inside the `try` block. If it raises, the job aborts with a "failed"
  receipt and takes no lock.
- **The final write.** A `write_receipt` that raises in the `finally` block
  (builder_service.py:144-152) escapes before `release_lock`
  (builder_service.py:153-154). The lock then stays until it expires.

## Model

| member | source | states |
|---|---|---|
| Locks.Acquire | vertical_builder/lock_service.py:22-54 | The acquire fails exactly when a record for (orgId, verticalKey) exists that never expires or expires strictly after `now`. On failure it raises the lock-conflict error for that org and vertical and leaves the store untouched. On success the key holds the job's jobId, exportId, templateKey and env, with acquiredAt = now and expiresAt = now + ttl. Either way, no other key changes. |
| Locks.Release | vertical_builder/lock_service.py:57-59 | The key is absent afterwards, whoever held it, and every other record is kept as it was. |
| Locks.ExpiredLockDoesNotBlock | vertical_builder/lock_service.py:37 | A record whose expiry is at or before `now` does not block: the acquire succeeds and the key now names the new job. |
| Locks.RecordWithoutExpiryBlocksForever | vertical_builder/lock_service.py:34-41 | A record without `expiresAt` refuses every acquire, at every time, with the store unchanged. |
| Locks.SecondAcquireBlocked | vertical_builder/lock_service.py:29-41 | Exclusion: with a positive TTL, after one job acquires a key, any acquire of the same key before the expiry fails, including one at the same `now`. |
| Locks.ReleaseThenAcquire | vertical_builder/lock_service.py:33-59 | Release leaves no residue: an acquire right after a release of the key always succeeds. |
| Locks.HeldLockSurvives | vertical_builder/lock_service.py:22-59 | Consider any sequence of acquires and releases that never releases a held key and only contends for it while its record blocks. The record survives that sequence unchanged. |
| Locks.StaleReleaseFreesSuccessorLock | vertical_builder/lock_service.py:57-59 | There is no ownership check on release. A job whose lock expired and was taken over deletes its successor's live lock, and a third job then acquires while the successor's lock still blocks. |
| DocPaths.LockPathInjective | vertical_builder/lock_service.py:13-19 | When orgIds contain no '/', two (orgId, verticalKey) pairs share a lock document path exactly when they are equal. This justifies keying the lock store by the pair. |
| DocPaths.ReceiptPathInjective | vertical_builder/receipt_service.py:9-15 | When orgIds contain no '/', two (orgId, jobId) pairs share a receipt document path exactly when they are equal. |
| DocPaths.LockAndReceiptPathsDiffer | vertical_builder/receipt_service.py:9-15 | When orgIds contain no '/', a lock document and a receipt document never share a path. |
| Json.MissingKeys | vertical_builder/app.py:41 | The missing-field list keeps the order of the required list. It is empty exactly when every required key is present. |
| Json.MissingKeysMembers | vertical_builder/bucket_service.py:27 | The missing-field list names exactly the required keys that are absent. |
| Strings.StripTrailingSlashes | vertical_builder/bucket_service.py:60 | `rstrip("/")` yields a prefix of its input that does not end in '/'. What it removes consists of '/' only. |
| Strings.FirstSlash | vertical_builder/bucket_service.py:57 | The split point of `split("/", 1)` has no '/' before it and is a '/' when inside the string. |
| Seqs.Select | vertical_builder/bucket_service.py:96 | A filtered list holds exactly the elements that pass the filter, each as often as in the input, in the original order. |
| Targets.ValidateBuildTarget | vertical_builder/builder_service.py:39-56 | The checks run in this order: a non-object target, a falsy hostingProject, a falsy site, then a project other than the runtime's for a non-local site. Each reports its own error. The target is accepted exactly when the hostingProject/site rule holds, and then (hostingProject, site) is returned. |
| Targets.ValidatePayload | vertical_builder/app.py:40-62 | Missing required fields are all named, in declaration order. The rest runs in this order: a non-object target, the environment rule (checked before the presence checks), a falsy hostingProject, then a falsy site. A project other than the runtime's for a non-local site comes last and is reported as the non-local mismatch. The payload is accepted exactly when all fields are present, the target is an object, and the environment and target rules hold. |
| Targets.JobOf | vertical_builder/builder_service.py:59-67 | A payload yields the job the build reads exactly when all seven fields are present and jobId, env, orgId, verticalKey, templateKey and exportId are strings. The job then carries those strings and the payload's buildTarget. |
| Targets.AcceptedJobPassesTargetCheck | vertical_builder/app.py:44-62 | The job of an accepted payload passes the build's target check, and its env is the runtime's unless its target is local and allows an override. |
| Targets.NoMissingPayloadFields | vertical_builder/app.py:41-43 | The missing list is empty exactly when all seven required payload fields are present. |
| Targets.AcceptedPayloadHasValidTarget | vertical_builder/app.py:54-62 | Every payload intake accepts also passes the build's own target check. |
| Targets.PayloadIsTargetCheckPlusEnv | vertical_builder/app.py:44-62 | For a payload with all fields, intake accepts exactly when the build's target check accepts and the environment rule holds. |
| Targets.ValidatorsAgreeOnTargets | vertical_builder/builder_service.py:43-56 | Where the environment rule holds, both validators reject the same targets with the same error. The one difference is that intake's project-mismatch message adds "for non-local deploys". |
| GsUri.ParseGsUri | vertical_builder/bucket_service.py:53-60 | A URI without "gs://" and a URI with no '/' after the bucket are rejected, each with its own error. Otherwise the bucket has no '/' and the path does not end in '/'. The URI is then exactly "gs://" + bucket + "/" + path followed only by '/' characters. |
| GsUri.SnapshotUriParses | vertical_builder/builder_service.py:59-63 | For a bucket without '/', parsing a constructed snapshot URI returns the bucket and the `orgs/…/exports/{exportId}` prefix with trailing '/' stripped. |
| GsUri.SnapshotUriRoundTrip | vertical_builder/builder_service.py:59-63 | The round trip returns the prefix unchanged exactly when the exportId is non-empty and does not end in '/'. |
| Manifests.ValidateManifest | vertical_builder/bucket_service.py:14-50 | The checks run in order, each with its own error: all missing top-level fields, named in declaration order; `files` not an object; `files.markdownCount` missing, then `files.assetCount`; the identity checks; the env check. The manifest is accepted exactly when it is complete, agrees on org, vertical, template and export, and matches env or the target allows a local override. |
| Manifests.CheckIdentity | vertical_builder/bucket_service.py:37-42 | The identity loop passes exactly when all four fields agree. Otherwise it reports the first disagreeing field in the order orgId, verticalKey, templateKey, exportId, with the manifest's and the payload's values. |
| Manifests.EnvCheck | vertical_builder/bucket_service.py:43-50 | An env mismatch is tolerated exactly for an object target with site "local" and a truthy allowEnvOverride. Otherwise the mismatch is reported with both values. |
| Manifests.NoMissingManifestFields | vertical_builder/bucket_service.py:27-29 | The missing list is empty exactly when all ten required fields are present. |
| Manifests.MissingManifestFieldsInOrder | vertical_builder/bucket_service.py:15-29 | The reported missing fields are exactly the absent required ones, in declaration order. |
| Manifests.FirstIdentityMismatchReported | vertical_builder/bucket_service.py:37-42 | For a well-formed manifest, the first identity field it disagrees on is the error reported, whatever else disagrees. |
| Manifests.IdentityAgreesAtEveryIndex | vertical_builder/bucket_service.py:37-38 | Identity agreement means agreement at every position of the compared-field list. |
| Manifests.EnvMismatchOnlyAfterIdentity | vertical_builder/bucket_service.py:37-50 | An env error means the manifest was complete, every identity field agreed, and no local override applied. |
| Manifests.EnvOverrideExample | vertical_builder/bucket_service.py:43-50 | Manifest env "prod" against job env "staging", for a local target: accepted when allowEnvOverride is true, rejected with both values when it is false. |
| Snapshots.PlacementMirrors | vertical_builder/bucket_service.py:85-88 | A listed name under the prefix lands at its path relative to the prefix. It is a directory exactly when the name ends in '/', and a downloaded file names its object. |
| Snapshots.PlaceFrom | vertical_builder/bucket_service.py:84-91 | The loop from a given index on succeeds exactly when no name from there on faults. A name faults when it lies outside the prefix, clashes with an earlier name, or is a file whose download fails. On success each name is placed at its relative path, in listing order. On failure the error is that of the first faulting name. |
| Snapshots.PlaceAll | vertical_builder/bucket_service.py:84-91 | The download loop succeeds exactly when no listed name faults: none lies outside the prefix, none needs as a directory a path an earlier name took as a file (or the reverse), and no file download fails. On success every name is placed at its relative path, in listing order. On failure the error is the one raised at the first faulting name. |
| Snapshots.NoClashBefore | vertical_builder/bucket_service.py:84-91 | The clash check at a name is false exactly when no earlier name under the prefix clashes with it. |
| Snapshots.PlacedAsMapped | vertical_builder/bucket_service.py:85-86 | After a successful loop every name lies under the prefix and is placed exactly where its name maps. |
| Snapshots.PlacedWithoutClash | vertical_builder/bucket_service.py:87-91 | After a successful loop no two placements claim one path, one as a file and the other as a directory. |
| Snapshots.FileThenDirectoryClashes | vertical_builder/bucket_service.py:87-88 | The listing `p/content` then `p/content/` fails at the directory object: `mkdir` meets the downloaded file. |
| Snapshots.OpenerNeedsDir | vertical_builder/bucket_service.py:88-90 | A placement that creates a top-level directory needs that path as a directory. |
| Snapshots.FileNeedsDir | vertical_builder/bucket_service.py:90 | A file whose path continues another file's path needs that file's path as a directory. |
| Snapshots.NoClashTreeConsistent | vertical_builder/bucket_service.py:84-91 | Placements no two of which clash stage a consistent tree. No root file shares a name with a top-level directory, and no file in a directory is the parent of another. |
| Snapshots.TreeOf | vertical_builder/bucket_service.py:84-91 | The staged tree has exactly the directories some placement creates and exactly the files some placement puts in each of them or in the root. |
| Snapshots.DownloadSnapshot | vertical_builder/bucket_service.py:63-91 | A URI the parser rejects gives the parser's error. A failed listing gives the listing's error, and an empty listing the no-snapshot-files error. For a non-empty listing the download succeeds exactly when no name faults. A failure carries the error of the first faulting name. A successful download stages a consistent tree. |
| Snapshots.FetchedFilesAreStaged | vertical_builder/bucket_service.py:84-91 | Every listed file object is in the staged tree at its path relative to the prefix. |
| Snapshots.DownloadedFilesAreStaged | vertical_builder/bucket_service.py:68-91 | The same, for the tree a successful `download_snapshot` stages. |
| Snapshots.DirectoryObjectsStageNoFiles | vertical_builder/bucket_service.py:87-89 | A listing made only of directory objects stages no file at all: directory objects are created, never downloaded. |
| Snapshots.ValidateLayout | vertical_builder/bucket_service.py:94-115 | The layout passes exactly when content, data and static all exist and hold at least one file. Missing directories are reported first, all of them, in order. Empty directories are reported only when all three exist, again all of them, in order. |
| Snapshots.LoadManifest | vertical_builder/bucket_service.py:118-126 | A snapshot without `manifest.json` is rejected, and so is a manifest that does not decode to an object. Otherwise the decoded object is returned. |
| Snapshots.ManifestAtRoot | vertical_builder/bucket_service.py:85-86 | The object `<prefix>/manifest.json` is a file that lands directly in the staging root as `manifest.json`. |
| Snapshots.ListedManifestIsFound | vertical_builder/bucket_service.py:118-126 | When the listing holds `<prefix>/manifest.json` and the download succeeds, `load_manifest` finds the manifest. It then loads exactly when the file decodes to an object. |
| Workspaces.CopyTop | vertical_builder/bucket_service.py:139-145 | One copy step fails only when the snapshot holds the name as a plain file, and then the workspace is untouched. Otherwise the snapshot's files are merged into the workspace directory, which is created when absent. Nothing else changes. |
| Workspaces.GoodPrefix | vertical_builder/bucket_service.py:139-145 | The loop gets through exactly the names before the first one the snapshot holds as a plain file. |
| Workspaces.CopyTops | vertical_builder/bucket_service.py:139-145 | The copy loop succeeds exactly when it meets no plain file. A failure names the first such entry. The workspace afterwards is the one before with the snapshot merged into every directory the loop got through, and nothing else changed. |
| Workspaces.CopyTopsIdempotent | vertical_builder/bucket_service.py:143 | `dirs_exist_ok` merging is idempotent: a second pass over the first pass's directories adds nothing and ends the same way. |
| Workspaces.RequiredCopies | vertical_builder/bucket_service.py:139-145 | The loop over content, data and static succeeds exactly when none of them is a plain file in the snapshot. On success each directory is its previous files plus the snapshot's. Other directories, the theme and the config are untouched. |
| Workspaces.Assemble | vertical_builder/bucket_service.py:129-155 | Assembly succeeds exactly when the copies succeed, the template is "gymnastics" and both the theme and config copies succeed. The content, data and static copies happen before the template gate. Any other template is refused with its key, after the copies and before the theme. A failed theme copy is the assembly's error, and so is a failed config copy after a successful theme copy. The theme is installed only when that gate is passed and its copy succeeds, and the config only on success. |
| Workspaces.AssembleIdempotent | vertical_builder/bucket_service.py:129-155 | Re-running the assembly over its own result changes nothing and ends the same way. |
| Workspaces.UnsupportedTemplateAfterCopies | vertical_builder/bucket_service.py:139-150 | Into the fresh workspace, an unsupported template is refused after content, data and static are copied, exactly those three with the snapshot's files. Neither the theme nor the config is installed. |
| Workspaces.CopiesIntoEmpty | vertical_builder/bucket_service.py:137-145 | Into an empty workspace the copy loop creates exactly content, data and static, each holding the snapshot's files. |
| Receipts.DurationMs | vertical_builder/receipt_service.py:27 | The duration is the elapsed time in whole milliseconds, truncated toward zero. It is non-negative when the finish is not before the start. |
| Receipts.FinalDoc | vertical_builder/receipt_service.py:29-43 | The final document has exactly the eleven fields, with `result` equal to `status`. It carries the job's identity, both times, the deploy time or null, the error or null, and the duration. |
| Receipts.WriteReceipt | vertical_builder/receipt_service.py:18-43 | A full replace: the job's document becomes exactly the final document, whatever was there before. Every other receipt is unchanged. |
| Receipts.StatusDoc | vertical_builder/receipt_service.py:54-63 | A status write sends exactly the seven status fields. |
| Receipts.WriteReceiptStatus | vertical_builder/receipt_service.py:46-65 | A merge: the job's document gains or updates the seven status fields (identity, status, start time, error). It keeps every other field it had, and a missing document is created. Every other receipt is unchanged. |
| Receipts.StatusWriteClearsError | vertical_builder/receipt_service.py:51-62 | A status write with the default error argument replaces an earlier error with null. |
| Receipts.StatusWriteKeepsFinalFields | vertical_builder/receipt_service.py:46-65 | A status write over a final receipt keeps its finish time, deploy time, duration and result and sets only the status fields. So `result` and `status` can then disagree. |
| Receipts.FinalWriteReplacesStatus | vertical_builder/receipt_service.py:18-43 | After any status writes, a final write leaves the same document as a final write on its own. |
| Builds.Stage | vertical_builder/builder_service.py:83-95 | Staging runs the download, the layout check, the manifest load, the manifest check and the assembly in that order. The first failure is staging's error, and staging passes when the snapshot is accepted. |
| Builds.StageAcceptsExactly | vertical_builder/builder_service.py:83-95 | Staging passes exactly when every check accepts the staged snapshot. A failed download is staging's error. |
| Builds.Render | vertical_builder/builder_service.py:105-116 | Hugo runs first. Then a "local" site is copied locally and reports nothing deployed, and any other site is deployed and reports deployed. The first failing step is the error, and the effects are Hugo then the publish step selected by the site. |
| Builds.RunBuild | vertical_builder/builder_service.py:76-116 | The build succeeds exactly when the target validates, the snapshot is accepted, Hugo runs and the site's publish step succeeds. It reports deployed exactly for a non-local site. An invalid target starts nothing. Otherwise the download comes first, Hugo second (only for an accepted snapshot) and the publish step third (only after Hugo). |
| Builds.LocalSiteNeverDeploys | vertical_builder/builder_service.py:106-113 | A local site never starts a Hosting deploy, and a successful local build reports that nothing was deployed. |
| Builds.DeployedTargetIsHosted | vertical_builder/builder_service.py:52-56 | A build that reports deployed validated a non-local target whose hostingProject is the runtime's project. |
| Builds.HostedBuildDeploysToRuntimeProject | vertical_builder/builder_service.py:115-116 | A build that reports deployed downloaded the snapshot, ran Hugo, and deployed the target's site to the runtime's Firebase project, in that order and nothing else. |
| Builds.SuccessfulBuildRenders | vertical_builder/builder_service.py:77-105 | A successful build validated its target, staged its snapshot and went on to render. |
| Builds.RenderDeploys | vertical_builder/builder_service.py:115-116 | A render that reports deployed ran Hugo and then deployed to the runtime's project. |
| Jobs.TryCallOrder | vertical_builder/builder_service.py:127-132 | The `try` block starts with the queued write. It never writes the final receipt or releases. It acquires only after the queued write returned, and writes "building" only right after a successful acquire. |
| Jobs.Try | vertical_builder/builder_service.py:127-140 | The lock is taken exactly when the queued write returned and the key was free. The caught error is that of the first step that raised (queued write, acquire, building write, build). `deployed_at` is set exactly when nothing raised. The lock store changes only by this job's acquire. |
| Jobs.Finally | vertical_builder/builder_service.py:141-154 | The final status is "deployed" exactly when no error was caught. The receipt write is always attempted. A raising receipt write escapes, and the release is skipped. Otherwise the lock is released exactly when it was taken, and a raising release escapes. |
| Jobs.HandleBuildJob | vertical_builder/builder_service.py:119-162 | The job ends "deployed" or "failed". The lock was taken exactly when the queued write returned and the key was free. The exception that escapes is the final write's, else the release's, else none. |
| Jobs.DeployedIffAllStepsSucceed | vertical_builder/builder_service.py:123-139 | The job is deployed exactly when every step from the queued write through the build returns, and it has an error exactly when it failed. |
| Jobs.ErrorIsFirstFailure | vertical_builder/builder_service.py:127-139 | For any build result, the recorded error is that of the first step that raised, and `deployedAt` is set exactly when the job is deployed. |
| Jobs.LocalBuildRecordsDeployedAt | vertical_builder/builder_service.py:132-137 | A successful local build reports that nothing was deployed, yet the job is recorded as deployed with a deploy time. |
| Jobs.FinallyOrdersReceiptBeforeRelease | vertical_builder/builder_service.py:144-154 | The `finally` block adds the receipt write and then, only when the lock was taken and the write returned, the release as the very last call. |
| Jobs.ReleaseFollowsReceipt | vertical_builder/builder_service.py:141-154 | Every job attempts the receipt write. The release is called exactly when the lock was taken and the receipt write returned, and then it is the last call, right after the receipt write. |
| Jobs.BuildingOnlyAfterAcquire | vertical_builder/builder_service.py:128-131 | The acquire is called only after the queued write returned. "building" is written only once the lock is held, right after the acquire. |
| Jobs.QueuedWriteFailureAborts | vertical_builder/builder_service.py:127-140 | A raising queued write aborts the job. There is no acquire and no build, only a failed receipt carrying that write's error, and the lock store is untouched. |
| Jobs.UnacquiredLockUntouched | vertical_builder/builder_service.py:153-154 | A job that did not take the lock leaves the lock store exactly as it found it, so it never deletes another job's lock. |
| Jobs.CompletedJobFreesLock | vertical_builder/builder_service.py:144-154 | After a job that took the lock and whose receipt write and release returned, the key is free and nothing escapes. |
| Jobs.FinallyLockEffects | vertical_builder/builder_service.py:141-154 | Only the job's own lock key can differ from the store before the job. A raising receipt write leaves the job's own record with its expiry. |
| Jobs.FailedFinalWriteStrandsLock | vertical_builder/builder_service.py:144-154 | A raising final write strands the lock: the job's record stays with its expiry, and a later job for the same key is refused until then. |
| Jobs.OtherLocksUntouched | vertical_builder/builder_service.py:129-154 | A job changes no lock record but its own key's. |
| Jobs.StatusWritesTouchOnlyJob | vertical_builder/builder_service.py:128-131 | The status writes change no receipt but the job's own. |
| Jobs.FinalReceiptRecorded | vertical_builder/builder_service.py:144-152 | A final write that returns stores the run's full receipt (status, times, duration, deploy time, error) and leaves every other receipt as it was. |
| Jobs.FailedFinalWriteLeavesLastStatus | vertical_builder/builder_service.py:128-152 | A raising final write leaves the receipt at the last status written, "building" or "queued", with no error and the start time, whatever the outcome. With no status write returned, the store is as it was. |
| Jobs.HandledJobRecordsReceipt | vertical_builder/builder_service.py:119-152 | When the final write returns, `handle_build_job` stores the run's final receipt, and it reads deployed exactly when every step succeeded. |
| Jobs.HandledFailedFinalWriteLeavesBuilding | vertical_builder/builder_service.py:128-154 | Take a job that took the lock and wrote "building", but whose final write raises. Its receipt still reads "building", its lock record remains, and the write's exception escapes. |

## Left out

- Flask request handling, the Pub/Sub envelope decoding (base64 and JSON) and the thread-pool submission in app.py: transport plumbing and concurrency. Only `_validate_payload` is modelled.
- deploy_service.py: the Hugo and Firebase subprocesses, their timeouts and output sniffing. `run_hugo_minify` and `deploy_hosting` are the outcomes `Steps.hugo` and `Steps.deploy`.
- config.py environment loading: `RuntimeConfig` keeps only env, firebase project, export bucket and lock TTL. The themes root and base config path stay inside the theme and config copy outcomes.
- The Firestore and Cloud Storage clients and transactions. The stores are maps and the acquire transaction is one atomic function. Cross-process concurrency and transaction retries are not modelled; exclusion is stated over sequential runs of operations.
- Transport failures of the acquire transaction itself (a Firestore error that is not the lock conflict): the acquire either succeeds or raises the conflict error.
- A store write or release that raises is taken to have changed nothing. A write that failed after partly taking effect is not modelled.
- Filesystem effects are abstracted:
  - the snapshot tree is top-level directories with their file sets, plus root files;
  - the workspace is directories plus two flags for the theme and `config.yaml`;
  - the file contents, `rmtree` and the `rglob` counts of `_run_build`'s log line are left out.
- `_prepare_run_dirs` is the fresh empty workspace `Builds.FreshWorkspace`.
- Payloads whose jobId, env, orgId, verticalKey, templateKey or exportId is not a string: `Config.Job` holds these as strings, so such a payload yields no job (`Targets.JobOf`) and its build is not modelled. Python would format such values into paths and messages.
- `Path` normalisation: `relative_to` is modelled as a name lying under prefix + "/", with repeated '/' or '.' segments not collapsed.
- JSON parsing in `load_manifest`: the decoded value or its error is a parameter.
- Wall-clock time: the clock readings are the `Jobs.Clock` parameter. Float arithmetic of `total_seconds()` is modelled as exact integer microseconds.
- Logging, and the exact wording of exception messages: the stored error is the structured fault, not its text.
- Python's equality across types (`1 == True`, `1 == 1.0`): JSON values compare structurally, and numbers are integers only.
- Receipt field names written by other writers (`Receipts.FieldName.Other`) are taken to differ from the eleven names the builder writes.
