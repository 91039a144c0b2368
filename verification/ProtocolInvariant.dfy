/** What every step of the job protocol keeps. */
module ProtocolInvariant {
  import opened Common
  import opened FileTree
  import opened AssetHarvest
  import opened BuildMounts
  import opened Packing
  import opened Protocol

  // --------------------------------------------- what holds at each point

  /** Nothing has been packed, reported or called back. */
  predicate Blank(j: Job) {
    && j.zip.NoZip? && j.packed.None? && j.callbacks == [] && j.output.None?
    && j.record.exitCode.None? && j.record.files.None? && j.record.cachedFiles.None?
  }

  /** The worker has the job and has written nothing yet. */
  predicate Fresh(j: Job) {
    Blank(j) && j.record.status.Queued? && j.container.Unstarted? && !j.removeTried && j.returned.None?
  }

  predicate Busy(j: Job, returned: Option<int>) {
    Blank(j) && j.record.status.Running? && !j.removeTried && j.returned == returned
  }

  /** The container has stopped by itself and its removal has been tried. */
  predicate Finishing(j: Job, code: int) {
    && j.returned == Some(code)
    && j.record.status.Running? && j.container.Exited? && j.removeTried && j.callbacks == []
    && j.record.exitCode.None? && j.record.files.None? && j.record.cachedFiles.None?
  }

  predicate Justified(j: Job, why: Why) {
    why.ByRequest? ==> j.record.cancelRequested
  }

  /** `_run_sandboxed` is over. */
  predicate Left(j: Job, raised: bool) {
    && (j.container.Unstarted? || j.removeTried)
    && (j.record.status.Running? || (j.record.status.Terminal() && !j.container.Up?))
    && (!raised ==> j.record.status.Terminal() && !j.zip.HalfWritten?)
    && (raised ==> j.packed.None? && (j.record.status.Running? || (j.zip.NoZip? && j.removeTried && j.container.Killed?)))
  }

  /** The list a generate job is about to report is that of the zip it closed. */
  predicate FilesMatch(j: Job, out: JobDir, files: Option<seq<string>>) {
    && WellFormed(TreeAt(out))
    && !j.zip.HalfWritten?
    && (files.Some? <==> out.RealDir? && j.config.kind.Generate?)
    && (out.RealDir? <==> j.packed.Some?)
    && (out.RealDir? ==> j.output == Some(out.tree))
    && (files.Some? ==> j.packed == Some(ZipOf(FilesOf(j, TreeAt(out)))) &&
                        files.value == SortStrings(Names(FilesOf(j, TreeAt(out)))))
  }

  ghost predicate At(j: Job) {
    match j.worker
    case Waiting =>
      && Blank(j) && j.container.Unstarted? && !j.removeTried && j.returned.None?
      && (j.record.status.Queued? || (j.queue.Dequeued? && j.record.status.Cancelled?))
    case AtEntry => Fresh(j)
    case AtMisconfigured => Fresh(j)
    case AtFlagRead => Fresh(j)
    case AtPreCancel => Fresh(j) && j.record.cancelRequested
    case AtRunningWrite => Fresh(j)
    case AtPrepare => Busy(j, None) && j.container.Unstarted?
    case AtStart => Busy(j, None) && j.container.Unstarted?
    case AtNoImage => Busy(j, None) && j.container.Unstarted?
    case AtPoll(_) => Busy(j, None) && (j.container.Up? || j.container.Exited?)
    case AtPollRead(_) => Busy(j, None) && (j.container.Up? || j.container.Exited?)
    case AtKill(why) => Busy(j, None) && (j.container.Up? || j.container.Exited?) && Justified(j, why)
    case AtKillLogs(why) => Busy(j, None) && j.container.Killed? && Justified(j, why)
    case AtKillWrite(why) => Busy(j, None) && j.container.Killed? && Justified(j, why)
    case AtLogs(code) => Busy(j, Some(code)) && j.container.Exited?
    case AtRemove(after) =>
      (match after
       case Return =>
         Blank(j) && j.record.status.Terminal() && j.container.Killed? && !j.removeTried && j.returned.None?
       case Raise => Busy(j, j.returned) && !j.container.Unstarted?
       case GoOn(code) => Busy(j, Some(code)) && j.container.Exited?)
    case AtOutput(code) => Finishing(j, code) && Blank(j)
    case AtZipOpen(code, out) =>
      && Finishing(j, code) && j.zip.NoZip? && j.packed.None?
      && out.RealDir? && WellFormed(out.tree) && j.output == Some(out.tree)
    case AtZipClose(code, out) =>
      && Finishing(j, code) && !j.zip.Closed? && j.packed.None?
      && out.RealDir? && WellFormed(out.tree) && j.output == Some(out.tree)
    case AtHarvest(code, out, files) => Finishing(j, code) && FilesMatch(j, out, files)
    case AtFinalWrite(code, out, files, cached) =>
      && Finishing(j, code) && FilesMatch(j, out, files)
      && (cached.Some? ==> code == 0)
      && (cached.Some? && out.RealDir? ==> files.Some? && Subset(cached.value, files.value))
    case AtExit(raised) => Left(j, raised) && j.callbacks == []
    case AtPrune(raised) => Left(j, raised) && CalledBack(j, raised)
    case Done(raised) => Left(j, raised) && CalledBack(j, raised)
  }

  predicate CalledBack(j: Job, raised: bool) {
    |j.callbacks| == 1 && (!raised ==> j.callbacks[0] in {None, Some(j.record.status)})
  }

  /** The names are those of the zip's members. */
  ghost predicate Lists(names: seq<string>, members: Zip) {
    forall name :: name in names <==> name in members
  }

  ghost predicate Subset(a: seq<string>, b: seq<string>) {
    forall name :: name in a ==> name in b
  }

  // --------------------------------------------- what holds at every point

  ghost predicate Always(j: Job) {
    && (j.worker.Waiting? <==> !j.queue.Taken?)
    && j.terminalWrites == (if j.record.status.Terminal() then 1 else 0)
    && j.starts == (if j.container.Unstarted? then 0 else 1)
    && (j.record.status.Cancelled? ==> j.record.cancelRequested)
    && (j.zip.Closed? ==> j.packed == Some(j.zip.members))
    && (j.record.files.Some? ==>
          j.packed.Some? && Lists(j.record.files.value, j.packed.value) && j.record.status.Terminal())
    && (j.record.cachedFiles.Some? ==>
          j.record.files.Some? && Subset(j.record.cachedFiles.value, j.record.files.value))
    && (j.record.status.Terminal() && j.config.kind.Generate? && j.packed.Some? ==> j.record.files.Some?)
    && (j.packed.Some? ==>
          j.output.Some? && WellFormed(j.output.value) && j.packed.value == ZipOf(FilesOf(j, j.output.value)))
    && (j.record.exitCode.Some? ==> j.record.exitCode == j.returned)
    && (j.record.status.Terminal() && j.returned.Some? ==> j.record.exitCode == j.returned)
    && (j.record.status.Success? <==> j.record.exitCode == Some(0) && j.packed.Some?)
    && (j.record.exitCode.Some? ==> (j.record.status.Success? || j.record.status.Failed?) && j.container.Exited?)
    && (j.record.status.Terminal() && j.record.exitCode.None? ==> j.container.Unstarted? || j.container.Killed?)
    && (j.record.cachedFiles.Some? ==> j.record.exitCode == Some(0))
  }

  predicate QueueInv(j: Job) {
    j.queue.Dequeued? ==>
      && j.queue.caller in j.cancellers
      && (j.cancellers[j.queue.caller].WriteCancelled? || j.cancellers[j.queue.caller] == Answered(SaidCancelled))
      && (j.record.status.Queued? <==> j.cancellers[j.queue.caller].WriteCancelled?)
  }

  predicate CancellerOk(j: Job, id: nat, c: Canceller) {
    && (c.Dequeue? || c.WriteCancelled? || c == Answered(SaidCancelled) || c == Answered(SaidRequested) ==>
          j.record.cancelRequested)
    && (c.WriteCancelled? || c == Answered(SaidCancelled) ==> j.queue == Dequeued(id))
    && (c == Answered(AlreadyFinished) ==> j.record.status.Terminal())
    && (c.Dequeue? || c.WriteCancelled? || c.SetFlag? ==> HasRecord(j))
  }

  predicate CancellersOk(j: Job) {
    forall id :: id in j.cancellers ==> CancellerOk(j, id, j.cancellers[id])
  }

  predicate ReaderOk(j: Job, r: Reader) {
    match r
    case Checking(want, names) =>
      && j.record.status.Terminal()
      && names == (match j.record.files case Some(ns) => ns case None => [])
      && (want.Some? ==> j.config.kind.Generate?)
    case Opening(want) =>
      && j.record.status.Terminal()
      && (want.Some? ==> j.packed.Some? && want.value in j.packed.value)
    case Served(want, answer) =>
      && !answer.Garbage? && !answer.NoSuchMember?
      && (answer.WholeZip? || answer.OneFile? ==> j.record.status.Terminal())
      && (answer.WholeZip? ==> j.packed == Some(answer.members))
      && (answer.OneFile? ==>
            want.Some? && j.packed.Some? && want.value in j.packed.value && answer.content == j.packed.value[want.value])
  }

  predicate ReadersOk(j: Job) {
    forall id :: id in j.readers ==> ReaderOk(j, j.readers[id])
  }

  /** The record's clock and the directory's. Only with the directory does a zip that
      has been created go. */
  predicate TimeInv(s: Settings, now: int, j: Job) {
    && (match j.intake
        case Stamped => j.queue.NotQueued? && j.expiresAt.Some?
        case Enqueued => j.expiresAt.Some?
        case _ => j.queue.NotQueued? && j.expiresAt.None?)
    && (j.expiresAt.Some? ==> j.expiresAt.value <= now + s.jobTtl)
    && (!HasRecord(j) ==> !j.record.cancelRequested)
    && (j.dir.Some? ==> j.dir.value <= now)
    && (!j.zip.NoZip? ==> j.dir.Some?)
    && ((j.packed.Some? || j.worker.AtZipClose?) && j.dir.Some? ==> !j.zip.NoZip?)
  }

  ghost predicate CoreInv(s: Settings, now: int, j: Job) {
    At(j) && Always(j) && QueueInv(j) && TimeInv(s, now, j)
  }

  ghost predicate JobInv(s: Settings, now: int, j: Job) {
    CoreInv(s, now, j) && CancellersOk(j) && ReadersOk(j)
  }

  predicate Advances(before: Status, after: Status) {
    || before == after
    || (before.Queued? && (after.Running? || after.Failed? || after.Cancelled?))
    || (before.Running? && after.Terminal())
  }

  /** What every step keeps, and what the calls in progress rely on: statuses only
      advance, the flag stays, and a finished job changes no more of its record. */
  predicate Forward(j: Job, k: Job) {
    && k.config == j.config
    && (j.record.cancelRequested ==> k.record.cancelRequested)
    && (j.queue.Dequeued? ==> k.queue == j.queue)
    && (HasRecord(j) ==> HasRecord(k))
    && (j.expiresAt.Some? ==> k.expiresAt == j.expiresAt)
    && (j.returned.Some? ==> k.returned == j.returned)
    && (j.output.Some? ==> k.output == j.output)
    && (HasRecord(j) ==> k.madeAt == j.madeAt && k.unpackedAt == j.unpackedAt)
    && Advances(j.record.status, k.record.status)
    && (j.record.status.Terminal() ==>
          && k.record.exitCode == j.record.exitCode && k.record.files == j.record.files
          && k.record.cachedFiles == j.record.cachedFiles && k.packed == j.packed)
  }

  predicate Steady(j: Job, k: Job) {
    k.cancellers == j.cancellers && k.readers == j.readers && Forward(j, k)
  }

  ghost predicate SystemInv(s: Settings, y: System) {
    forall id :: id in y.jobs ==> JobInv(s, y.now, y.jobs[id])
  }

  // ---------------------------------------------- what other steps rely on

  lemma CallsStay(s: Settings, now: int, j: Job, k: Job)
    requires JobInv(s, now, j) && Steady(j, k) && CoreInv(s, now, k)
    ensures JobInv(s, now, k)
  {
    hide Packed, ZipOf, WellFormed, Lists, Subset, SortStrings, Names;
  }

  // ----------------------------------------------------------------- the steps

  lemma IntakeKeepsInv(s: Settings, now: int, j: Job, e: Event)
    requires JobInv(s, now, j) && IntakeStep(s, now, j, e).Some?
    ensures JobInv(s, now, IntakeStep(s, now, j, e).value)
    ensures Forward(j, IntakeStep(s, now, j, e).value)
  {
    hide Packed, ZipOf, WellFormed, Lists, Subset, SortStrings, Names;
  }

  /** What a generate job is about to report as cached is among its files. */
  lemma CachedAreListed(j: Job, o: Outcome)
    requires At(j) && j.worker.AtHarvest? && o.Harvesting? && Rooted(o.cache)
    requires j.config.kind.Generate? && j.worker.out.RealDir?
    ensures var cached := CachedFiles(o.cache, j.worker.out, j.config.types, o.fails);
            cached.Some? ==> Subset(cached.value, j.worker.files.value)
  {
    var tree := j.worker.out.tree;
    var h := Harvested(o.cache, Offered(tree, j.config.types), o.fails);
    forall name | name in JoinAll(h.added) ensures name in SortStrings(Names(Packed(tree, true))) {
      CachedFilesAreListed(o.cache, tree, j.config.types, o.fails, name);
    }
  }

  lemma ListedAreMembers(found: seq<Found>)
    ensures Lists(SortStrings(Names(found)), ZipOf(found))
  {
    ZipMembers(found);
    SortStringsSorts(Names(found));
    SameMembers(SortStrings(Names(found)), Names(found));
  }

  /** The worker takes the job. */
  lemma TakenKeepsInv(s: Settings, now: int, j: Job, o: Outcome)
    requires CoreInv(s, now, j) && (j.worker.Waiting? || j.worker.AtEntry? || j.worker.AtMisconfigured?) && WorkStep(s, now, j, o).Some?
    ensures CoreInv(s, now, WorkStep(s, now, j, o).value) && Steady(j, WorkStep(s, now, j, o).value)
  {
    hide StepDuring, StepAfter, Packed, ZipOf, WellFormed, Lists, Subset, SortStrings, Names;
  }

  /** The pre-run check and the first status write. */
  lemma AdmittedKeepsInv(s: Settings, now: int, j: Job, o: Outcome)
    requires CoreInv(s, now, j) && (j.worker.AtFlagRead? || j.worker.AtPreCancel? || j.worker.AtRunningWrite?) && WorkStep(s, now, j, o).Some?
    ensures CoreInv(s, now, WorkStep(s, now, j, o).value) && Steady(j, WorkStep(s, now, j, o).value)
  {
    hide StepDuring, StepAfter, Packed, ZipOf, WellFormed, Lists, Subset, SortStrings, Names;
  }

  /** The container's start. */
  lemma StartedKeepsInv(s: Settings, now: int, j: Job, o: Outcome)
    requires CoreInv(s, now, j) && (j.worker.AtPrepare? || j.worker.AtStart?) && WorkStep(s, now, j, o).Some?
    ensures CoreInv(s, now, WorkStep(s, now, j, o).value) && Steady(j, WorkStep(s, now, j, o).value)
  {
    hide StepDuring, StepAfter, Packed, ZipOf, WellFormed, Lists, Subset, SortStrings, Names;
  }

  /** There is no image to start. */
  lemma UnstartedKeepsInv(s: Settings, now: int, j: Job, o: Outcome)
    requires CoreInv(s, now, j) && j.worker.AtNoImage? && WorkStep(s, now, j, o).Some?
    ensures CoreInv(s, now, WorkStep(s, now, j, o).value) && Steady(j, WorkStep(s, now, j, o).value)
  {
    hide StepDuring, StepAfter, Packed, ZipOf, WellFormed, Lists, Subset, SortStrings, Names;
  }

  /** One turn of the poll loop. */
  lemma PolledKeepsInv(s: Settings, now: int, j: Job, o: Outcome)
    requires CoreInv(s, now, j) && (j.worker.AtPoll? || j.worker.AtPollRead?) && WorkStep(s, now, j, o).Some?
    ensures CoreInv(s, now, WorkStep(s, now, j, o).value) && Steady(j, WorkStep(s, now, j, o).value)
  {
    hide StepBefore, StepAfter, Packed, ZipOf, WellFormed, Lists, Subset, SortStrings, Names;
  }

  /** The kill on the way out of the poll loop, and the log read after it. */
  lemma KilledKeepsInv(s: Settings, now: int, j: Job, o: Outcome)
    requires CoreInv(s, now, j) && (j.worker.AtKill? || j.worker.AtKillLogs?) && WorkStep(s, now, j, o).Some?
    ensures CoreInv(s, now, WorkStep(s, now, j, o).value) && Steady(j, WorkStep(s, now, j, o).value)
  {
    hide StepBefore, StepAfter, Packed, ZipOf, WellFormed, Lists, Subset, SortStrings, Names;
  }

  /** The terminal write after a kill. */
  lemma KillReportedKeepsInv(s: Settings, now: int, j: Job, o: Outcome)
    requires CoreInv(s, now, j) && j.worker.AtKillWrite? && WorkStep(s, now, j, o).Some?
    ensures CoreInv(s, now, WorkStep(s, now, j, o).value) && Steady(j, WorkStep(s, now, j, o).value)
  {
    hide StepBefore, StepAfter, Packed, ZipOf, WellFormed, Lists, Subset, SortStrings, Names;
  }

  /** The log read after a normal exit. */
  lemma LogReadKeepsInv(s: Settings, now: int, j: Job, o: Outcome)
    requires CoreInv(s, now, j) && j.worker.AtLogs? && WorkStep(s, now, j, o).Some?
    ensures CoreInv(s, now, WorkStep(s, now, j, o).value) && Steady(j, WorkStep(s, now, j, o).value)
  {
    hide StepBefore, StepAfter, Packed, ZipOf, WellFormed, Lists, Subset, SortStrings, Names;
  }

  /** The `finally` that removes the container. */
  lemma ContainerRemovedKeepsInv(s: Settings, now: int, j: Job, o: Outcome)
    requires CoreInv(s, now, j) && j.worker.AtRemove? && WorkStep(s, now, j, o).Some?
    ensures CoreInv(s, now, WorkStep(s, now, j, o).value) && Steady(j, WorkStep(s, now, j, o).value)
  {
    hide StepBefore, StepAfter, Packed, ZipOf, WellFormed, Lists, Subset, SortStrings, Names;
  }

  /** The output is looked at. */
  lemma LookedKeepsInv(s: Settings, now: int, j: Job, o: Outcome)
    requires CoreInv(s, now, j) && j.worker.AtOutput? && WorkStep(s, now, j, o).Some?
    ensures CoreInv(s, now, WorkStep(s, now, j, o).value) && Steady(j, WorkStep(s, now, j, o).value)
  {
    hide StepBefore, StepDuring, Packed, ZipOf, Names, SortStrings, Lists, Subset;
  }

  /** The zip is opened. */
  lemma OpenedKeepsInv(s: Settings, now: int, j: Job, o: Outcome)
    requires CoreInv(s, now, j) && j.worker.AtZipOpen? && WorkStep(s, now, j, o).Some?
    ensures CoreInv(s, now, WorkStep(s, now, j, o).value) && Steady(j, WorkStep(s, now, j, o).value)
  {
    hide StepBefore, StepDuring, Packed, ZipOf, Names, SortStrings, Lists, Subset;
  }

  /** The zip is closed. */
  lemma ClosedKeepsInv(s: Settings, now: int, j: Job, o: Outcome)
    requires CoreInv(s, now, j) && j.worker.AtZipClose? && WorkStep(s, now, j, o).Some?
    ensures CoreInv(s, now, WorkStep(s, now, j, o).value) && Steady(j, WorkStep(s, now, j, o).value)
  {
    hide StepBefore, StepDuring, Packed, ZipOf, Names, SortStrings, Harvested, Offered, JoinAll, Lists, Subset;
  }

  lemma HarvestedKeepsAt(s: Settings, now: int, j: Job, o: Outcome)
    requires At(j) && j.worker.AtHarvest? && StepAfter(s, now, j, o).Some?
    ensures At(StepAfter(s, now, j, o).value) && StepAfter(s, now, j, o).value.worker.AtFinalWrite?
    ensures var k := StepAfter(s, now, j, o).value;
            k == j.(worker := k.worker, harvested := k.harvested)
  {
    hide Packed, ZipOf, Names, SortStrings, Harvested, Offered, JoinAll, WellFormed, Lists;
    if o.Harvesting? && j.worker.out.RealDir? && j.config.kind.Generate? { CachedAreListed(j, o); }
  }

  /** A generate job's files go to the cache. */
  lemma HarvestedKeepsInv(s: Settings, now: int, j: Job, o: Outcome)
    requires CoreInv(s, now, j) && j.worker.AtHarvest? && WorkStep(s, now, j, o).Some?
    ensures CoreInv(s, now, WorkStep(s, now, j, o).value) && Steady(j, WorkStep(s, now, j, o).value)
  {
    hide StepAfter, At, WellFormed, Lists, Subset;
    HarvestedKeepsAt(s, now, j, o);
  }

  /** The final write settles the record. */
  lemma ReportedKeepsAlways(s: Settings, now: int, j: Job, o: Outcome)
    requires CoreInv(s, now, j) && j.worker.AtFinalWrite? && StepAfter(s, now, j, o).Some?
    ensures Always(StepAfter(s, now, j, o).value)
  {
    hide StepBefore, StepDuring, Packed, ZipOf, Names, SortStrings, TimeInv, QueueInv;
    if j.worker.files.Some? { ListedAreMembers(FilesOf(j, TreeAt(j.worker.out))); }
  }

  /** The final write. */
  lemma ReportedKeepsInv(s: Settings, now: int, j: Job, o: Outcome)
    requires CoreInv(s, now, j) && j.worker.AtFinalWrite? && WorkStep(s, now, j, o).Some?
    ensures CoreInv(s, now, WorkStep(s, now, j, o).value) && Steady(j, WorkStep(s, now, j, o).value)
  {
    hide StepBefore, StepDuring, Packed, ZipOf, Names, SortStrings, Lists, Subset;
    ReportedKeepsAlways(s, now, j, o);
  }

  /** The callback. */
  lemma CalledBackKeepsInv(s: Settings, now: int, j: Job, o: Outcome)
    requires CoreInv(s, now, j) && j.worker.AtExit? && WorkStep(s, now, j, o).Some?
    ensures CoreInv(s, now, WorkStep(s, now, j, o).value) && Steady(j, WorkStep(s, now, j, o).value)
  {
    hide StepBefore, StepDuring, Packed, ZipOf, WellFormed, Lists, Subset, SortStrings, Names;
  }

  /** The pruning after the callback. */
  lemma LeftKeepsInv(s: Settings, now: int, j: Job, o: Outcome)
    requires CoreInv(s, now, j) && j.worker.AtPrune? && WorkStep(s, now, j, o).Some?
    ensures CoreInv(s, now, WorkStep(s, now, j, o).value) && Steady(j, WorkStep(s, now, j, o).value)
  {
    hide StepBefore, StepDuring, Packed, ZipOf, WellFormed, Lists, Subset, SortStrings, Names;
  }

  lemma BeforeKeepsCore(s: Settings, now: int, j: Job, o: Outcome)
    requires CoreInv(s, now, j) && BeforeContainer(j.worker) && WorkStep(s, now, j, o).Some?
    ensures CoreInv(s, now, WorkStep(s, now, j, o).value) && Steady(j, WorkStep(s, now, j, o).value)
  {
    match j.worker
    case Waiting => TakenKeepsInv(s, now, j, o);
    case AtEntry => TakenKeepsInv(s, now, j, o);
    case AtMisconfigured => TakenKeepsInv(s, now, j, o);
    case AtFlagRead => AdmittedKeepsInv(s, now, j, o);
    case AtPreCancel => AdmittedKeepsInv(s, now, j, o);
    case AtRunningWrite => AdmittedKeepsInv(s, now, j, o);
    case AtPrepare => StartedKeepsInv(s, now, j, o);
    case AtStart => StartedKeepsInv(s, now, j, o);
    case AtNoImage => UnstartedKeepsInv(s, now, j, o);
  }

  lemma DuringKeepsCore(s: Settings, now: int, j: Job, o: Outcome)
    requires CoreInv(s, now, j) && DuringContainer(j.worker) && WorkStep(s, now, j, o).Some?
    ensures CoreInv(s, now, WorkStep(s, now, j, o).value) && Steady(j, WorkStep(s, now, j, o).value)
  {
    match j.worker
    case AtPoll(_) => PolledKeepsInv(s, now, j, o);
    case AtPollRead(_) => PolledKeepsInv(s, now, j, o);
    case AtKill(_) => KilledKeepsInv(s, now, j, o);
    case AtKillLogs(_) => KilledKeepsInv(s, now, j, o);
    case AtKillWrite(_) => KillReportedKeepsInv(s, now, j, o);
    case AtLogs(_) => LogReadKeepsInv(s, now, j, o);
    case AtRemove(_) => ContainerRemovedKeepsInv(s, now, j, o);
  }

  lemma AfterKeepsCore(s: Settings, now: int, j: Job, o: Outcome)
    requires CoreInv(s, now, j) && !BeforeContainer(j.worker) && !DuringContainer(j.worker) && WorkStep(s, now, j, o).Some?
    ensures CoreInv(s, now, WorkStep(s, now, j, o).value) && Steady(j, WorkStep(s, now, j, o).value)
  {
    match j.worker
    case AtOutput(_) => LookedKeepsInv(s, now, j, o);
    case AtZipOpen(_, _) => OpenedKeepsInv(s, now, j, o);
    case AtZipClose(_, _) => ClosedKeepsInv(s, now, j, o);
    case AtHarvest(_, _, _) => HarvestedKeepsInv(s, now, j, o);
    case AtFinalWrite(_, _, _, _) => ReportedKeepsInv(s, now, j, o);
    case AtExit(_) => CalledBackKeepsInv(s, now, j, o);
    case AtPrune(_) => LeftKeepsInv(s, now, j, o);
    case Done(_) =>
  }

  lemma WorkKeepsInv(s: Settings, now: int, j: Job, o: Outcome)
    requires JobInv(s, now, j) && WorkStep(s, now, j, o).Some?
    ensures JobInv(s, now, WorkStep(s, now, j, o).value)
    ensures Forward(j, WorkStep(s, now, j, o).value)
  {
    if BeforeContainer(j.worker) { BeforeKeepsCore(s, now, j, o); }
    else if DuringContainer(j.worker) { DuringKeepsCore(s, now, j, o); }
    else { AfterKeepsCore(s, now, j, o); }
    CallsStay(s, now, j, WorkStep(s, now, j, o).value);
  }

  // ---------------------------------------------------- requests and readers

  /** What a worker relies on. */
  predicate SameWork(j: Job, k: Job) {
    && k.config == j.config && k.worker == j.worker && k.container == j.container && k.removeTried == j.removeTried
    && k.zip == j.zip && k.packed == j.packed && k.callbacks == j.callbacks
    && k.returned == j.returned && k.output == j.output
    && k.starts == j.starts && k.terminalWrites == j.terminalWrites
    && k.record.(cancelRequested := false) == j.record.(cancelRequested := false)
    && (j.record.cancelRequested ==> k.record.cancelRequested)
    && (j.queue == k.queue || (j.queue.InQueue? && k.queue.Dequeued?))
  }

  lemma SameWorkKeepsAt(j: Job, k: Job)
    requires At(j) && SameWork(j, k)
    ensures At(k)
  {
    hide Packed, ZipOf, WellFormed, Lists, Subset, SortStrings, Names;
  }

  lemma SameWorkKeepsAlways(j: Job, k: Job)
    requires Always(j) && SameWork(j, k)
    ensures Always(k)
  {
    hide Packed, ZipOf, WellFormed, Lists, Subset, SortStrings, Names;
  }

  /** The write of `cancelled` by a caller that has taken the job off the queue. */
  lemma CancelledKeepsCore(s: Settings, now: int, j: Job, id: nat)
    requires CoreInv(s, now, j) && CancellerOk(j, id, WriteCancelled) && id in j.cancellers
    requires j.cancellers[id].WriteCancelled?
    ensures CoreInv(s, now, SetCanceller(WriteStatus(j, Cancelled), id, Answered(SaidCancelled)))
  {
    hide Packed, ZipOf, WellFormed, Lists, Subset, SortStrings, Names;
    assert j.worker.Waiting?;
  }

  /** Every other step of a call leaves the work alone. */
  lemma CancelIsSameWork(now: int, j: Job, id: nat, kind: Kind)
    requires CancelStep(now, j, id, kind).Some? && (id in j.cancellers ==> !j.cancellers[id].WriteCancelled?)
    ensures var k := CancelStep(now, j, id, kind).value;
            SameWork(j, k) && k.harvested == j.harvested
  {
    hide Live;
  }

  lemma CancelKeepsCore(s: Settings, now: int, j: Job, id: nat, kind: Kind)
    requires CoreInv(s, now, j) && CancelStep(now, j, id, kind).Some?
    requires id in j.cancellers ==> CancellerOk(j, id, j.cancellers[id])
    ensures CoreInv(s, now, CancelStep(now, j, id, kind).value)
  {
    var k := CancelStep(now, j, id, kind).value;
    if id in j.cancellers && j.cancellers[id].WriteCancelled? {
      CancelledKeepsCore(s, now, j, id);
    } else {
      hide At, Always, SameWork, CancelStep;
      CancelIsSameWork(now, j, id, kind);
      SameWorkKeepsAt(j, k);
      SameWorkKeepsAlways(j, k);
      OtherCallsKeepQueue(s, now, j, id, kind);
    }
  }

  lemma OtherCallsKeepQueue(s: Settings, now: int, j: Job, id: nat, kind: Kind)
    requires CoreInv(s, now, j) && CancelStep(now, j, id, kind).Some?
    requires id in j.cancellers ==> CancellerOk(j, id, j.cancellers[id]) && !j.cancellers[id].WriteCancelled?
    ensures QueueInv(CancelStep(now, j, id, kind).value) && TimeInv(s, now, CancelStep(now, j, id, kind).value)
  {
    OtherCallsKeepTime(s, now, j, id, kind);
    hide At, Always, TimeInv, Live;
  }

  lemma OtherCallsKeepTime(s: Settings, now: int, j: Job, id: nat, kind: Kind)
    requires TimeInv(s, now, j) && CancelStep(now, j, id, kind).Some?
    requires id in j.cancellers ==> CancellerOk(j, id, j.cancellers[id]) && !j.cancellers[id].WriteCancelled?
    ensures TimeInv(s, now, CancelStep(now, j, id, kind).value)
  {
  }

  lemma CancelIsOk(s: Settings, now: int, j: Job, id: nat, kind: Kind)
    requires CoreInv(s, now, j) && CancelStep(now, j, id, kind).Some?
    requires id in j.cancellers ==> CancellerOk(j, id, j.cancellers[id])
    ensures var k := CancelStep(now, j, id, kind).value;
            && k.readers == j.readers && k.cancellers == j.cancellers[id := k.cancellers[id]]
            && CancellerOk(k, id, k.cancellers[id]) && Forward(j, k)
  {
  }

  lemma CancelKeepsInv(s: Settings, now: int, j: Job, id: nat, kind: Kind)
    requires JobInv(s, now, j) && CancelStep(now, j, id, kind).Some?
    ensures JobInv(s, now, CancelStep(now, j, id, kind).value)
    ensures Forward(j, CancelStep(now, j, id, kind).value)
  {
    hide At, Always, TimeInv, QueueInv, CancelStep;
    var k := CancelStep(now, j, id, kind).value;
    CancelKeepsCore(s, now, j, id, kind);
    CancelIsOk(s, now, j, id, kind);
    forall i | i in k.cancellers ensures CancellerOk(k, i, k.cancellers[i]) {
      if i != id { assert CancellerOk(j, i, j.cancellers[i]); }
    }
    forall i | i in k.readers ensures ReaderOk(k, k.readers[i]) {
      assert ReaderOk(j, j.readers[i]);
    }
  }

  lemma ReadIsOk(s: Settings, now: int, j: Job, id: nat, kind: Kind, want: Option<string>)
    requires CoreInv(s, now, j) && ReadStep(now, j, id, kind, want).Some?
    requires id in j.readers ==> ReaderOk(j, j.readers[id])
    ensures var k := ReadStep(now, j, id, kind, want).value;
            k == SetReader(j, id, k.readers[id]) && ReaderOk(j, k.readers[id])
  {
  }

  lemma ReadKeepsInv(s: Settings, now: int, j: Job, id: nat, kind: Kind, want: Option<string>)
    requires JobInv(s, now, j) && ReadStep(now, j, id, kind, want).Some?
    ensures JobInv(s, now, ReadStep(now, j, id, kind, want).value)
    ensures Forward(j, ReadStep(now, j, id, kind, want).value)
  {
    hide At, Always, ReadStep;
    ReadIsOk(s, now, j, id, kind, want);
    var r := ReadStep(now, j, id, kind, want).value.readers[id];
    var k := SetReader(j, id, r);
    SameWorkKeepsAt(j, k);
    SameWorkKeepsAlways(j, k);
    forall i | i in k.readers ensures ReaderOk(k, k.readers[i]) {
      if i != id { assert ReaderOk(j, j.readers[i]); }
    }
    forall i | i in k.cancellers ensures CancellerOk(k, i, k.cancellers[i]) {
      assert CancellerOk(j, i, j.cancellers[i]);
    }
  }

  // ------------------------------------------------------------- the system

  /** A container exits by itself. */
  lemma ExitKeepsInv(s: Settings, now: int, j: Job)
    requires JobInv(s, now, j) && j.container.Up?
    ensures JobInv(s, now, j.(container := Exited)) && Forward(j, j.(container := Exited))
  {
    hide Packed, ZipOf, WellFormed, Lists, Subset, SortStrings, Names;
    CallsStay(s, now, j, j.(container := Exited));
  }

  /** One job's steps keep its invariant. */
  lemma JobStepKeepsInv(s: Settings, now: int, j: Job, e: Event)
    requires JobInv(s, now, j) && JobStep(s, now, j, e).Some?
    ensures JobInv(s, now, JobStep(s, now, j, e).value)
    ensures Forward(j, JobStep(s, now, j, e).value)
  {
    hide WorkStep, CancelStep, ReadStep, IntakeStep, JobInv, Forward;
    match e
    case Work(o) => WorkKeepsInv(s, now, j, o);
    case ContainerExits => ExitKeepsInv(s, now, j);
    case CancelCall(id, kind) => CancelKeepsInv(s, now, j, id, kind);
    case ReadCall(id, kind, want) => ReadKeepsInv(s, now, j, id, kind, want);
    case _ => IntakeKeepsInv(s, now, j, e);
  }

  lemma LaterKeepsInv(s: Settings, now: int, later: int, j: Job)
    requires JobInv(s, now, j) && now <= later
    ensures JobInv(s, later, j)
  {
    hide Packed, ZipOf, WellFormed, Lists, Subset, SortStrings, Names;
  }

  lemma RemovedKeepsCore(s: Settings, now: int, j: Job)
    requires CoreInv(s, now, j)
    ensures CoreInv(s, now, Removed(j)) && Steady(j, Removed(j))
  {
    hide Packed, ZipOf, WellFormed, Lists, Subset, SortStrings, Names;
  }

  /** Another job's worker removes the directory, at any moment. */
  lemma RemovedKeepsInv(s: Settings, now: int, j: Job)
    requires JobInv(s, now, j)
    ensures JobInv(s, now, Removed(j))
  {
    hide At, Always, TimeInv, Steady;
    RemovedKeepsCore(s, now, j);
    CallsStay(s, now, j, Removed(j));
  }

  lemma NextKeepsInv(s: Settings, y: System, t: Step)
    requires SystemInv(s, y) && Next(s, y, t).Some?
    ensures SystemInv(s, Next(s, y, t).value)
  {
    var z := Next(s, y, t).value;
    forall id | id in z.jobs ensures JobInv(s, z.now, z.jobs[id]) {
      match t
      case Tick(_) => LaterKeepsInv(s, y.now, z.now, y.jobs[id]);
      case Submit(_, _) =>
      case On(changed, event) => if id == changed { JobStepKeepsInv(s, y.now, y.jobs[id], event); }
      case StartScan(_) =>
      case Look(_, _) =>
      case Remove(_) => RemovedKeepsInv(s, y.now, y.jobs[id]);
    }
  }

  lemma {:induction false} RunKeepsInv(s: Settings, y: System, steps: seq<Step>)
    requires SystemInv(s, y) && Run(s, y, steps).Some?
    ensures SystemInv(s, Run(s, y, steps).value)
    decreases |steps|
  {
    if steps != [] {
      NextKeepsInv(s, y, steps[0]);
      RunKeepsInv(s, Next(s, y, steps[0]).value, steps[1..]);
    }
  }

  lemma ReachableInv(s: Settings, y: System)
    requires Reachable(s, y)
    ensures SystemInv(s, y)
  {
    var steps :| Run(s, NOTHING, steps) == Some(y);
    RunKeepsInv(s, NOTHING, steps);
  }
}
