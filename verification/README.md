# Verified model of the PreTeXt build service

The service takes uploaded PreTeXt projects, builds them (or generates single
assets) in throw-away containers, and serves the packed output. This project models
its four parts that are hard to get right and proves what they promise:

- **The job protocol** (`src/api.py`, `src/build.py`, `src/jobs.py`). API handlers and
  workers share one record per job and coordinate only by writing its fields. Every
  store call, queue call, container call and artifact write is one atomic step;
  `Protocol` interleaves the steps of any number of jobs, cancel requests, readers and
  workers, `ProtocolInvariant` proves what every step keeps, and `ProtocolTheorems`,
  `CancellationTheorems`, `OutcomeTheorems`, `DirectoryExpiry` and `ProtocolLimits` draw
  the conclusions; `ReportInvariant` and `ReportTheorems` say what is reported and served
  in terms of the steps of the run; `ProtocolRuns` builds the runs that reach a state.
  `Poll` is the wait loop, `Jobs` the record store with its expiry, `Notify` the callback.
- **The asset cache** (`src/asset_cache.py` and its call sites). `FileTree` is the
  directory tree and `os.walk`; `CacheNames` the file-name patterns, against the language
  that `Patterns` gives to a regular expression; `AssetHarvest` and
  `ProjectCaches` copying into the cache; `ConcurrentHarvest` and `ConcurrentHarvestLaws`
  the same at the granularity of open, write and rename; `CacheLinks` where it writes if the cache has
  links; `AssetPrune` and `AssetPruneLaws` eviction;
  `BuildMounts` what a build container sees; `Packing` the artifact.
- **Path containment for uploaded archives** (`PathGuard`).
- **The egress allowlist compiled to regexes** (`HostFilter`), with a matcher for the
  part of POSIX basic regular expressions it meets (section 9.3 of IEEE Std
  1003.1-2017, Base Definitions).

Code that works step by step is modelled by methods with loops and by classes
(`Jobs.Store`, `ProjectCaches.ProjectCache`, `AssetPrune.AssetCache`), each proved
against a function, and what the service promises is proved about that function.
Check everything with `dafny verify dfyconfig.toml`.

## Assumptions

- The queue hands a job to at most one worker, and `Job.cancel()` succeeds only while
  no worker has taken the job and raises otherwise (the comment at `src/api.py:196-197`
  relies on this).
- A worker is not stopped in the middle of a job: no crash, and no job timeout of the
  queue. `Poll.QueueOutlastsTheLoop` says when the queue's limit leaves the loop room.
- In the protocol, store calls succeed, and no update lands after a record has expired.
  `Jobs.RecordLivesIff` says what happens if one does.
- A Docker, file or zip call that `_run_sandboxed` does not catch is a separate
  outcome: the run "raised".
- Clocks are integers. `elapsed` in the wait loop is the nominal time the source adds
  up. In the protocol the store's clock and the directories' are the same.
- The persistent cache holds only directories and regular files, each in a directory that
  is there (`AssetHarvest.RootedIff`), except in `CacheLinks`,
  and `rmtree` removes what it is given. No two entries of a directory have one name, and
  no name has a separator (`FileTree.WellFormedIff`).
- The files in the proxy's working directory have no line break in their names.
- `realpath` of the upload directory meets no symbolic link.
- Job ids are fresh (`uuid4`).

## Where the code and its promises differ

The model follows the code.

- `README.md:247-249` says that a request answered `cancel_requested` settles to
  `cancelled`. It does exactly if the worker still reads the flag
  (`CancellationTheorems.RequestIsHonouredIffRead`); a container that returns before the next
  poll is reported as usual (`ProtocolLimits.RequestCanBeOvertaken`), and a kill that
  raises leaves `running` for ever (`ProtocolLimits.NoticedRequestCanRaise`,
  `ProtocolLimits.RaisedStaysRunning`).
- `src/build.py:173-175` says that every terminal path notifies the host. A run that
  raised notifies it too, with the status `running`; a job cancelled off the queue
  notifies nobody (`ProtocolTheorems.CallbackIsSentOnce`).
- `src/build.py:105-107` says that the record's TTL and the directory start together.
  The directory is made first, and touched for the last time when the upload has been
  unpacked; the TTL starts after that. And a scan tests a directory's age in one call
  and removes it in another. So a directory can go under a live record, exactly if some
  scan has already found it old, or the record has no TTL yet, or it was set more than a
  tick after the last touch (`DirectoryExpiry.DirectoryVanishesIff`). A job that succeeds meanwhile loses its
  artifact: for every timing of intake that can happen exactly if unpacking took longer
  than the TTL, or the TTL was set more than a tick after it
  (`DirectoryExpiry.ArtifactCanBeLostIff`). Otherwise the artifact is safe until the
  record expires (`DirectoryExpiry.SuccessServesUntilExpiry`).
- `README.md:282-283` says that `artifact_url` is present only on success. A job with its
  directory offers what it packed, or is still packing, whatever its status
  (`DirectoryExpiry.ArtifactIsOfferedIff`), so failed and running jobs do as well
  (`ProtocolLimits.FailedAndRunningJobsAreOffered`); the comment at `src/notify.py:94-96`
  says so of failed ones. A download is still refused until the job has finished.
- `README.md:374-375` says that a previewed figure is already cached when the full build
  runs. Builds have the cache mounted read-write: it is there for every build exactly if
  every container that had its type mounted left it there
  (`BuildMounts.FigureReachesEveryBuildIff`, `BuildMounts.ContainerCanRemoveAFigure`).
- `src/asset_cache.py:32-34` and `README.md:384-386` say that symbolic links are skipped.
  `harvest` follows one in the place of the job's cache root itself: what it copies is the
  job's own exactly if the root is no link, or the tree behind it has no file to store
  (`BuildMounts.CopiesAreTheJobsOwnIff`, `BuildMounts.LinkedRootIsFollowed`).
- `src/asset_cache.py:26-30` says that scoping by project keeps what a project's jobs do
  to the project itself. A harvest stays inside the project exactly if no directory on
  the way to the file is a link that a container has left in the cache
  (`CacheLinks.HarvestStaysInsideIff`).
- `egress-proxy/entrypoint.sh:12-13` says that wildcards are refused. The list is
  unquoted, so the shell first replaces a word with `*`, `?` or `[` by the file names it
  matches. The script starts the proxy exactly if every word is a host name, or is
  replaced by file names that all are (`HostFilter.AcceptsIffWordsPass`). So script and
  list disagree exactly if every word passes in this way and some word is replaced
  (`HostFilter.ChecksTheListUnlessExpanded`, `HostFilter.StarBecomesFileNames`).
- `README.md:387-390` says that eviction goes on until the total is under the cap. One
  project that has just been used and exceeds the cap alone stays
  (`AssetPruneLaws.CapHoldsUnlessKeptExceedsIt`).
- Python's `$` also matches before a final newline, so the three name patterns accept
  one more name than they seem to; `CacheNames` models that.

## Model

| member | source | states |
|---|---|---|
| ProtocolInvariant.JobStepKeepsInv | src/build.py:170-367 | one step of one job, whoever takes it, keeps the job's invariant; statuses, flag, expiry and finished records only move forward |
| ProtocolInvariant.CancelKeepsInv | src/api.py:177-200 | so do the three writes of a cancel call, at any moment between the worker's steps |
| ProtocolInvariant.ReadKeepsInv | src/api.py:167-174 | so do the steps of a download: load, check for the zip, open it |
| ProtocolInvariant.RemovedKeepsInv | src/build.py:117 | so does the removal of a job's directory by another's worker, at any moment |
| ProtocolInvariant.HarvestedKeepsInv | src/build.py:337-345 | the list a generate job is about to report as cached is among the files of the zip it closed |
| ProtocolInvariant.ReportedKeepsInv | src/build.py:346-367 | the single final write settles status and lists together, and is the only terminal write |
| ProtocolInvariant.RunKeepsInv | src/build.py:210-367 | every run of any number of jobs, callers, readers and workers keeps all invariants |
| ProtocolTheorems.StatusIsSettled | src/build.py:210-367 | at most one terminal write per job; a normal return leaves a terminal status; a raised run leaves `running` unless only the removal of a killed container raised |
| ProtocolTheorems.StatusMeansItsOutcome | src/build.py:346-367 | an exit code only of a container that exited by itself; without one, nothing was started or it was killed; `success` if and only if the code is 0 and output was packed; files are cached only after a clean exit |
| ProtocolTheorems.StatusOnlyAdvances | src/build.py:210-366 | along every step statuses only advance, the flag stays, and a finished record keeps status and lists |
| ProtocolTheorems.ContainersAreContained | src/build.py:278-320 | no container runs under a terminal status; at most one is started; removal has been tried by the time the run is left, raised or not |
| ProtocolTheorems.ReadersGetWholeArtifacts | src/api.py:306-330 | no reader gets bytes of an unfinished zip or misses a listed file, whatever is removed between its check and its reading; a recorded list is exactly the members of the closed zip |
| ProtocolTheorems.ReportedListsAgree | src/build.py:332-345 | a finished generate job that packed output lists it, and what it reports as cached is among it |
| ProtocolTheorems.CancelAnswersAreTrue | src/api.py:177-200 | "cancelled" is told to one caller only, of a job that never starts a container or a callback; "cancel_requested" means the flag is set; 409 means finished; every cancelled record has the flag |
| ProtocolTheorems.CallbackIsSentOnce | src/build.py:177-182 | one callback per job a worker ran, after the terminal write on a normal return; none for a job cancelled off the queue |
| CancellationTheorems.FlagAndEndAreForever | src/api.py:187 | over every run the flag is never cleared and a finished record is final |
| CancellationTheorems.EarlyCancelStartsNothing | src/build.py:221-224 | a request before the pre-run check starts no container, and a worker that takes the job ends it cancelled |
| CancellationTheorems.CancelAtPollKills | src/build.py:138-146 | a request before a poll's flag read: the job ends cancelled with its container killed, unless a call raises |
| CancellationTheorems.RequestIsHonouredIffRead | src/build.py:285-294 | with the flag set, a run that returns normally within the record's life ends `cancelled` if and only if the worker had read the flag, or reads it again |
| CancellationTheorems.RunKeepsFact | src/build.py:210-367 | facts about one job that outlast every step of everyone |
| CancellationTheorems.CancelAnswers | src/api.py:177-200 | every uninterrupted call on every job: 404 without a live record of the kind, 409 when finished, "cancelled" if still queued, else "cancel_requested"; and the record, queue entry and container it leaves |
| OutcomeTheorems.MisconfiguredStartsNothing | src/build.py:210-219 | without HOST_DATA_DIR no job ever starts a container or raises, and one that is taken ends `failed` |
| OutcomeTheorems.MissingImageFails | src/build.py:306-314 | over every run: once the image is missing the job never starts a container or raises, and ends `failed` |
| OutcomeTheorems.TimeoutFails | src/build.py:295-304 | over every run: once the clock of its kind has run out a job ends `failed` with its container killed, unless a call raises |
| OutcomeTheorems.RaisedIff | src/build.py:278-367 | a run has raised if and only if one of its calls did that was not the harvest |
| OutcomeTheorems.WorkStepsIff | src/build.py:210-367 | a worker can go on with an outcome if and only if the call it makes can have it: the model rules nothing out but writes to an expired record and work in a directory that is gone |
| ReportInvariant.RunRecords | src/build.py:283-328 | the code and the output directory that a job remembers are those of the run's steps |
| ReportTheorems.ExitCodeIsTheReturned | src/build.py:282-366 | over every run: a record has an exit code if and only if the job's own wait returned it and the job is finished |
| ReportTheorems.SuccessIff | src/build.py:322-366 | over every run: a finished job succeeded if and only if its container returned 0 and left a real output directory; with an exit code, output is packed if and only if it was left |
| ReportTheorems.PackedIsTheOutput | src/build.py:326-333 | what was packed is the tree found at the output directory, without top-level dotfiles for generate jobs only |
| ReportTheorems.FilesAreListedIff | src/build.py:330-334 | files are recorded of finished generate jobs that packed something, and of no other: the members of the zip, in order |
| ReportTheorems.NoListIff | src/build.py:338-345 | a harvest reports no list if and only if a directory for some new eligible file cannot be made |
| ReportTheorems.CachedFilesAreTheNewOnes | src/asset_cache.py:149-166 | else the list names exactly the eligible files without an entry whose copy does not fail |
| ReportTheorems.CachedIsTheHarvest | src/build.py:336-345 | over every run: `cached_files` is the list of the job's own harvest, into the cache it met, from the tree it left; only a generate job of a project harvests, after code 0 |
| ReportTheorems.DownloadAnswers | src/api.py:307-323 | every request in every reachable state: 404, 409, the whole zip if and only if something was packed and the directory is there, one file if and only if it is recorded |
| ReportTheorems.OutputIsServed | src/api.py:314-323 | over every run: a file left in the output directory is served with its bytes, alone for a generate job, in the zip for a build |
| ReportTheorems.CallbackMissesOnlyTheExpired | src/build.py:177-182 | a callback finds no record only after its expiry; a refused upload leaves no directory, no queue entry and no container |
| ProtocolLimits.RequestCanBeOvertaken | README.md:244-249 | from any state a run leads to one where the caller was told "cancel_requested" and the build has succeeded |
| ProtocolLimits.NoticedRequestCanRaise | src/build.py:285-287 | from any state a run leads to one where the request was noticed, the kill raised, and the callback said `running` |
| ProtocolLimits.RaisedStaysRunning | src/build.py:177-188 | a job whose run raised while `running` is never moved on by any later step |
| ProtocolLimits.FailedAndRunningJobsAreOffered | src/api.py:152-153 | from any state runs lead to a failed job with an artifact on offer, and to a running one whose zip is still being written |
| DirectoryExpiry.RunKeepsDirs | src/build.py:102-120 | over every run: a directory goes, or is found old by a scan, only if unpacking outlasted the TTL, the TTL was set late, or the record has expired |
| DirectoryExpiry.PromptDirectoryStays | src/build.py:102-107 | the directory of a job taken in promptly is there as long as its record |
| DirectoryExpiry.SuccessServesUntilExpiry | src/api.py:167-174 | while the record of a successful job taken in promptly lives, a download is answered with the complete artifact, whatever is pruned |
| DirectoryExpiry.ArtifactCanBeLostIff | src/build.py:110-117 | for every timing of intake: a reachable state has a live successful record without its artifact if and only if unpacking outlasted the TTL or the TTL was set more than a tick after it |
| DirectoryExpiry.ArtifactIsOfferedIff | src/api.py:152-153 | in every reachable state a zip is offered if and only if output was packed or is being packed, and what was packed is what is offered, as long as the directory is there |
| DirectoryExpiry.EveryTimingIsReachable | src/api.py:109-125 | every timing of intake is reachable, and for a job just queued the directory can vanish if and only if the TTL was set late |
| DirectoryExpiry.DirectoryVanishesIff | src/build.py:102-120 | from any reachable state some run removes the directory under its live record if and only if a scan has already found it old, or the record has no TTL yet, or the TTL was set more than a tick after the last touch |
| DirectoryExpiry.PackingRenewsTheDirectory | src/build.py:112-117 | once output.zip has been created, the directory can go before the record if and only if a scan has found it old already |
| DirectoryExpiry.OwnDirectoryIsSpared | src/build.py:114-115 | a worker that prunes never removes its own job's directory |
| Poll.WaitForContainer | src/build.py:127-146 | in every world in which some wait decides, the verdict is that of the first that does: the container's exit, the timeout or the flag |
| Poll.TimeoutComesIff | src/build.py:136-144 | the clock alone ends the loop if and only if the interval is positive or the first wait is long enough |
| Poll.WaitsAreBounded | src/build.py:136-144 | at most the waits that fill the timeout, rounded up; on a timeout the time passed is in [timeout, timeout + interval) |
| Poll.FlagIsNoticed | src/build.py:142-146 | a flag seen at a reading within time ends the wait as cancelled; at a reading where time is up too, the timeout wins |
| Poll.QueueOutlastsTheLoop | src/jobs.py:18-21 | the queue's limit exceeds the loop's time for every timeout if and only if the interval is at most 120 |
| Poll.TurnIsTheProtocols | src/build.py:138-146 | one turn of the loop is the protocol's wait and flag steps, with the same verdict |
| Poll.JobWaitsAreBounded | src/build.py:136-146 | over every run of the whole system a job's worker waits for its container no more often than fills the job's timeout, rounded up |
| Poll.WaitsAreCounted | src/build.py:136-139 | every wait of the job that returns or times out is counted there |
| Jobs.Store.Write | src/jobs.py:54-55 | merge into the live record, keeping its expiry; make one without expiry if it is gone |
| Jobs.Store.Create | src/jobs.py:39-43 | the record with its defaults and the TTL from now |
| Jobs.Store.Update | src/jobs.py:45-46 | the same merge, and no TTL |
| Jobs.Store.Get | src/jobs.py:48-52 | the fields of a live, non-empty record |
| Jobs.NewRecordTells | src/jobs.py:39-43 | a new record is found until its TTL, with the caller's fields as given, `queued` and the time where the caller said nothing, and no other field |
| Jobs.UpdatesOfARecord | src/jobs.py:45-55 | any updates merge up to the expiry, and the first later one starts afresh, without an expiry and without the former fields |
| Jobs.RecordLivesIff | src/jobs.py:39-55 | a record is found if and only if its TTL has not run out or some update landed after that; then it is found for ever |
| Jobs.LastWriteWins | src/jobs.py:54-55 | a field says what the last update that named it said |
| Jobs.OthersStay | src/jobs.py:35-37 | updates of one job's record change what is read of no other job |
| Notify.SendCallback | src/notify.py:143-191 | no POST without a record, a URL or permission; else POSTs of the payload of the record as read, up to the first accepted one, at most max(1, retries), and the outcome of the last is recorded |
| Notify.DeliveredIffAccepted | src/notify.py:168-191 | the number of POSTs is determined; "delivered" is recorded if and only if one of the allowed attempts is answered without an error status, else "failed" with the message of the last |
| Notify.TailIsLongestSuffix | src/notify.py:101-114 | the log tail is the longest suffix within the limit, the whole log without one, and flagged truncated exactly if it is |
| Notify.PayloadLeadsBack | src/notify.py:104-124 | the URLs of the payload route back to this job under the prefix that answers for its kind; the artifact's is there if and only if there is a zip |
| Notify.PayloadTellsTheRecord | src/notify.py:104-133 | the payload has the recorded id, kind, status, target and exit code, and the longest end of the recorded log within the limit, flagged exactly if cut |
| Notify.PayloadTellsTheAssets | src/notify.py:117-121 | of a generate job, and of no other, the assets asked for and the files listed |
| Notify.ExitCodeComesBack | src/notify.py:127-133 | an exit code written to the store as text comes back as the same number, for every number |
| Notify.LateCallbackLeavesARemnant | src/notify.py:185-191 | the recorded outcome outlives the record if and only if it is written after the expiry |
| FileTree.WalkIsReach | src/asset_cache.py:131-139 | a pruned top-down walk yields a plain entry under a path if and only if admitted real directories lead to it, for every tree |
| FileTree.WalkDistinct | src/asset_cache.py:131-139 | and no path twice |
| FileTree.DirSize | src/asset_cache.py:169-177 | the walk loop adds up the size of the tree, defined structurally |
| CacheNames.SubdirNameIsPlain | src/asset_cache.py:58 | an admitted subdirectory name has no dot and no separator |
| CacheNames.SubdirNameIsTheGrammar | src/asset_cache.py:58 | the accepted subdirectory names are the language of the pattern |
| CacheNames.CacheFilenameIsTheGrammar | src/asset_cache.py:55 | so are the accepted cache file names |
| CacheNames.ProjectIdIsTheGrammar | src/asset_cache.py:51 | and the accepted project ids |
| CacheNames.TempNameIsNoCacheFile | src/asset_cache.py:152 | a temporary name is never a cache file's |
| CacheNames.ProjectIdIsOneComponent | src/asset_cache.py:48-51 | an accepted project id, a final newline included, is one path component |
| AssetHarvest.OfferedAreEligible | src/asset_cache.py:127-148 | the filtered walk offers exactly the eligible files: configured type, plainly named real directories, a regular file named like a cache file |
| AssetHarvest.HarvestOnlyAdds | src/asset_cache.py:149-163 | every entry that was there stays as it was; what is new is an offered file with its content, or a directory |
| AssetHarvest.HarvestReportsExactly | src/asset_cache.py:163-166 | the result has no repetitions and names exactly the new files |
| AssetHarvest.HarvestIsComplete | src/asset_cache.py:149-166 | a path is in the cache afterwards if and only if it was before, or was offered and its copy did not fail |
| AssetHarvest.HarvestRaisesIff | src/asset_cache.py:151 | it raises if and only if an offered new file has a cached file where its directory should be, or a missing directory that cannot be made |
| AssetHarvest.DirsAreMadeUntil | src/asset_cache.py:151 | a call that makes directories leaves each one down to the first that is stopped |
| AssetHarvest.HarvestCopiesIff | src/asset_cache.py:149-163 | it copies anything at all if and only if some offered file has no entry yet, its copy does not fail, and nothing up to it raises: a condition on the cache before the call |
| ProjectCaches.ProjectCache.Touch | src/asset_cache.py:77-88 | type directories made and last use stamped; an invalid id changes nothing |
| ProjectCaches.ProjectCache.Harvest | src/asset_cache.py:115-166 | the nested loops compute the harvest of everything the tree offers |
| ProjectCaches.ProjectCache.HarvestType | src/asset_cache.py:131-163 | the walk loop with its in-place pruning of directories computes the harvest of one type |
| ConcurrentHarvest.RunKeepsInv | src/asset_cache.py:149-162 | the invariant of interleaved copies, failed openings, writes, renames and removals included, over every run |
| ConcurrentHarvest.VisibleFilesAreComplete | src/asset_cache.py:152-155 | however harvests interleave and wherever they stop, a visible cache file holds the complete content of a file given under that name |
| ConcurrentHarvest.VisibleContentNeverChanges | src/asset_cache.py:121-123 | with keys that determine their content, what a reader finds under a name stays |
| ConcurrentHarvest.SharedTempNameExposesPartialFile | src/asset_cache.py:152 | without unique temporary names a run exists that publishes an empty file |
| ConcurrentHarvestLaws.NothingIsLeftBehind | src/asset_cache.py:153-162 | when all interleaved harvests are through, whatever copies failed, only cache files have been added, if no worker went away and no removal of a temporary file failed |
| ConcurrentHarvestLaws.AloneOnlyAdds | src/asset_cache.py:149-150 | while nobody else acts, a harvest never touches a cache file that is there, whatever content the job has under its name |
| ConcurrentHarvestLaws.UndisturbedCopyPublishes | src/asset_cache.py:149-163 | from any state, a file whose name and temporary name are not in use can be copied in one go: it is then there with its content, and nothing else has changed |
| AssetPrune.AssetCache.Prune | src/asset_cache.py:180-226 | the two phases with their running total leave exactly the closed form, whatever the listing order |
| AssetPrune.AssetCache.EvictByAge | src/asset_cache.py:206-212 | evicts exactly the projects past the age limit and collects the others |
| AssetPrune.AssetCache.EvictBySize | src/asset_cache.py:214-226 | evicts the sorted projects up to the least index whose suffix fits |
| AssetPrune.AssetCache.ListProjects | src/asset_cache.py:195-201 | lists each real directory but the kept one, once |
| AssetPrune.AgeCutSplits | src/asset_cache.py:207-212 | a project is past the age limit if and only if it lies before the age cut |
| AssetPrune.SizeCutIsLeast | src/asset_cache.py:217-225 | the size cut is the least index whose suffix, with the kept project, fits the budget |
| AssetPrune.PhasesCompose | src/asset_cache.py:206-226 | age phase, then size phase, is one cut of the ranking at the larger of the two |
| AssetPruneLaws.SurvivorsAreTheYoungest | src/asset_cache.py:206-226 | an entry survives, unchanged, if and only if it is no candidate or lies at or after the cut |
| AssetPruneLaws.PruneAbsorbsEarlierPrune | src/asset_cache.py:180-226 | an earlier prune with the same kept project makes no difference to a later one; pruning is idempotent |
| AssetPruneLaws.AbsorptionNeedsTheSameKeep | src/asset_cache.py:180-184 | with another kept project it can |
| AssetPruneLaws.LooserLimitsKeepMore | src/asset_cache.py:207-225 | a higher age limit, a higher cap or none never loses a survivor |
| AssetPruneLaws.CapHoldsUnlessKeptExceedsIt | src/asset_cache.py:214-226 | the bytes of all project directories left fit the cap or only the kept project is left; they fit if and only if the kept project alone does |
| AssetPruneLaws.LastEvictionWasNecessary | src/asset_cache.py:221-225 | without the last eviction for size, the bytes of all project directories were over the cap |
| AssetPruneLaws.CountedBytesAreAll | src/asset_cache.py:217-219 | what is counted towards the cap is the size of every project directory in the root, kept or not |
| AssetPruneLaws.CountingIgnoresTheKept | src/asset_cache.py:217-219 | which project is kept makes no difference to what is counted |
| AssetPruneLaws.RecentUseIsSafeWithoutCap | src/asset_cache.py:214-216 | without a cap a candidate survives if and only if it was used within the age limit |
| BuildMounts.PrepareVolumes | src/build.py:239-257 | the touch, harvest and mounts of a job, with the fallback that any exception on the way leads to |
| BuildMounts.MountedIff | src/build.py:242-257 | the project's cache is mounted over all types or none: for builds only, if and only if the id is valid, the directories and mount points can be made, the harvest does not raise and no file is in the place of the cache root |
| BuildMounts.GenerateJobSeesItsOwn | src/build.py:242-244 | a generate job has no mount: its container sees exactly its own directory, and the cache gets type directories at most |
| BuildMounts.TouchSucceedsIff | src/asset_cache.py:77-88 | `touch` gets through if and only if no type directory is stopped; then every one is there, and nothing else is new |
| BuildMounts.MountPointsIff | src/asset_cache.py:99-110 | the mount points are made if and only if no type's name is taken by something else; what was there stays |
| BuildMounts.ShippedKeysStayVisible | src/build.py:241-251 | for every archive tree and cache, an eligible shipped file is visible to the container, mounted or not; a persistent entry wins; only a failed copy loses it |
| BuildMounts.PreviewedFigureReachesTheBuild | src/asset_cache.py:115-123 | a figure harvested by a generate job is in every later build's mount with its content, whatever the build ships and whichever touches, harvests and containers came between, if every container over its type left it |
| BuildMounts.FigureReachesEveryBuildIff | src/asset_cache.py:91-112 | a cached figure is in the mount of every build along the way if and only if every container that had its type mounted left it there |
| BuildMounts.FigureReachesTheBuildIff | src/asset_cache.py:91-112 | for one later build and any start: it is in the mount if and only if the last container over its type left it, or a later harvest stored it |
| BuildMounts.RemovedFigureCanComeBack | src/asset_cache.py:149-155 | a later harvest can restore a figure that a container removed |
| BuildMounts.ContainerCanRemoveAFigure | src/asset_cache.py:105-110 | one container is enough to remove any figure from the next build's mount |
| BuildMounts.CopiesAreTheJobsOwnIff | src/asset_cache.py:125-130 | what a harvest copies comes from the job's own tree if and only if the cache root is no link, or the tree behind it has no file to store |
| BuildMounts.CopiesIffEligibleIsMissing | src/asset_cache.py:149-163 | where nothing raises, a harvest copies something if and only if some eligible file has no entry and its copy does not fail |
| BuildMounts.LinkedRootIsFollowed | src/asset_cache.py:125-130 | an eligible file behind a linked root goes into the cache, though the job's own tree has none |
| CacheLinks.HarvestStaysInsideIff | src/asset_cache.py:147-155 | a harvest stores a file inside the project if and only if no directory on the way is a link, and then at the file's own place |
| CacheLinks.LinkedSubdirectoryLeadsOut | src/asset_cache.py:151 | one linked subdirectory is enough to lead outside |
| BuildMounts.OnlyContainersDisturb | src/asset_cache.py:77-166 | no touch and no harvest removes or changes a cached file |
| BuildMounts.CachesAreSound | src/asset_cache.py:77-166 | whatever touches, harvests and containers a new cache has seen, every entry is in a directory that is there, and only directories are at its top |
| Packing.ZipDir | src/build.py:78-99 | the loop packs exactly the kept files of the walk and returns their names sorted, or stops at the first unreadable one |
| Packing.ArtifactIsTheTree | src/build.py:78-99 | what real directories lead to is a member if and only if it is no directory, no link and no top-level dotfile where those are left out; a file's member holds the file's bytes |
| Packing.MemberHasEntry | src/build.py:89-98 | there are no other members: each comes from such an entry |
| Packing.ListIsTheMembers | src/build.py:95-99 | the sorted list names exactly the members |
| Packing.NamesAreInjective | src/build.py:96-98 | two files of a tree never get one name in the archive |
| Packing.CachedFilesAreListed | src/build.py:332-343 | `cached_files` is a subset of `files` for every tree and cache |
| PathGuard.TargetComponents | src/api.py:80-84 | what joining and resolving a member does, component by component, for relative and absolute destinations |
| PathGuard.AdmitsIsContainment | src/api.py:85 | on normalised paths the string test holds if and only if the destination's components are a prefix of the target's |
| PathGuard.GuardIsContainment | src/api.py:80-86 | the same for every destination and every member string |
| PathGuard.ClimbingMember | src/api.py:83-86 | a member of n parts `..` and then plain names leads n directories up and down again, and is let through if and only if the names start with the directories left |
| PathGuard.DetourLeadsNowhere | src/api.py:84 | a plain name followed by `..` can be left out anywhere in a member |
| PathGuard.DotLeadsNowhere | src/api.py:84 | so can an empty part and a `.` |
| PathGuard.RenderedPath | src/api.py:80-84 | a path written as its own plain names from the top is resolved to itself |
| PathGuard.PlainMemberIsAdmitted | src/api.py:83-86 | a relative member without `..` is never refused |
| PathGuard.BarePrefixTestIsNotContainment | src/api.py:85 | without the separator every sibling with a longer name passes; with it none does |
| PathGuard.SafeExtract | src/api.py:77-92 | the zip branch extracts everything if all members are contained, else nothing, naming the first that is not |
| HostFilter.ValidHostIsTheGrammar | egress-proxy/entrypoint.sh:14 | the test on a host accepts exactly the language of the expression |
| HostFilter.WriteFilter | egress-proxy/entrypoint.sh:8-20 | the loop leaves the compiled file of the expanded words if and only if all of them are host names, else stops at the first that is not |
| HostFilter.WordsOfAnyList | egress-proxy/entrypoint.sh:11 | the list is split at blanks, tabs, line ends and commas, in any number, and nowhere else |
| HostFilter.AcceptsIffWordsPass | egress-proxy/entrypoint.sh:11-17 | the script starts the proxy if and only if each word is a host, or is replaced by file names that all are |
| HostFilter.ChecksTheListUnlessExpanded | egress-proxy/entrypoint.sh:11-17 | the script's verdict is that on the list itself, if and only if not both: some word is replaced by file names, and every word passes |
| HostFilter.StarBecomesFileNames | egress-proxy/entrypoint.sh:11 | `*` in a directory with files named like hosts: not a valid list, and it is accepted |
| HostFilter.LineAcceptsExactlyItsHost | egress-proxy/entrypoint.sh:18 | the emitted line, as a basic regular expression, accepts a name if and only if it is the host up to case |
| HostFilter.FilterIsTheAllowlist | egress-proxy/tinyproxy.conf:13-17 | the emitted file, read back line by line, lets a name through if and only if it is listed |
| HostFilter.CompiledListIsExact | egress-proxy/entrypoint.sh:11-20 | from the comma-separated list of valid hosts to the decision, whatever files there are; an empty list accepts nothing |
| HostFilter.UnescapedDotWidens | egress-proxy/entrypoint.sh:18 | without the escaping every host with a dot would let a second name in |
| HostFilter.UnanchoredWidens | egress-proxy/entrypoint.sh:18 | without the anchors every host would let in the names it is part of |
| HostFilter.UncheckedHostWidens | egress-proxy/entrypoint.sh:12-17 | without the grammar check a host extended by a star would |

## Left out

- Real Docker, Redis, RQ, FastAPI and `requests`: replaced by the steps and outcomes the code reacts to.
- Worker crashes, RQ retries and RQ's own job timeout: outside the code that is modelled.
- The token check, HMAC signing, DNS resolution and address classes: library calls and single tests; the callback's permission is a parameter.
- Configuration, logging, container options, environment, shell quoting, MIME types and response headers: they add only easy members.
- `_status` and `_log`: they copy record fields.
- The tar branch of `_safe_extract` and the byte formats of zip and tar: library-defined; a zip is a map from member name to content.
- Symbolic links inside the fresh directory an archive is unpacked into: `realpath` is modelled as normalisation.
- `chmod` and ownership, and float clocks.
- A build container killed in the middle of a write to the mounted cache (README.md:394-398): a documented gap of the CLI; `ConcurrentHarvest` covers the service's own writes.
- The protocol is a state machine over values rather than classes, because its steps interleave; the classes and loops it uses are modelled one by one beside it.
- DirectoryExpiry.DirectoryVanishesIff: takes one `rmtree` as one step; what it removes in what order is not modelled.
- Eviction of a project: a figure is promised up to the eviction only.
- Notify.SendCallback: writes its outcome at one later time; `json` is a parameter, and of `int` and `split` only the spellings the service writes are modelled.
- CacheLinks.HarvestStaysInsideIff: links that lead to another place of the project, or back from elsewhere, are not modelled.
- HostFilter.WriteFilter: what a pattern matches is a parameter; file names with a line break are not modelled.
- ProtocolTheorems.CallbackIsSentOnce: does not say that the payload is delivered, because a callback is best effort; `Notify.SendCallback` says what is attempted.
- ProjectCaches.ProjectCache.Harvest: leaves out temporary files that a failed removal leaves behind, because they are no cache files; `ConcurrentHarvest` has them.
- AssetHarvest.HarvestReportsExactly: does not say that the result is sorted, because `os.walk` gives no order; the assertion at tests/test_asset_cache.py:99 holds for its fixture.
- ConcurrentHarvest.VisibleFilesAreComplete: writes are appends to a file; a worker that stops leaves its temporary file.
- Packing.ArtifactIsTheTree: the bytes a device or FIFO yields are not modelled.
- `scripts/`, Dockerfiles, compose files, Caddy and provisioning: infrastructure.
