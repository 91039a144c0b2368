/** What the fields of a job that tell its history have to do with the steps of the run,
    and what a record has to do with that history. */
module ReportInvariant {
  import opened Common
  import opened FileTree
  import opened AssetHarvest
  import opened BuildMounts
  import opened Packing
  import opened Protocol
  import opened ProtocolInvariant

  // ------------------------------------------------------- steps of the run

  /** The wait for the job's container returns this code. */
  function Returns(id: JobId, code: int): Step {
    On(id, Work(WaitReturns(code)))
  }

  /** The worker finds this tree at the job's output directory. */
  function Leaves(id: JobId, tree: Forest): Step {
    On(id, Work(Output(RealDir(tree))))
  }

  /** Its harvest meets this cache, and the file system refuses these paths. */
  function Harvests(id: JobId, cache: Cache, fails: set<Path>): Step {
    On(id, Work(Harvesting(cache, fails)))
  }

  predicate RecordsOutcome(j: Job, o: Outcome, k: Job) {
    && k.returned == (match o case WaitReturns(code) => Some(code) case _ => j.returned)
    && k.output == (match o case Output(RealDir(tree)) => Some(tree) case Output(_) => None case _ => j.output)
    && k.harvested == (match o case Harvesting(cache, fails) => Some((cache, fails)) case _ => j.harvested)
  }

  lemma BeforeRecords(s: Settings, now: int, j: Job, o: Outcome)
    requires BeforeContainer(j.worker) && StepBefore(s, now, j, o).Some?
    ensures RecordsOutcome(j, o, StepBefore(s, now, j, o).value)
  {
  }

  lemma DuringRecords(s: Settings, now: int, j: Job, o: Outcome)
    requires DuringContainer(j.worker) && StepDuring(s, now, j, o).Some?
    ensures RecordsOutcome(j, o, StepDuring(s, now, j, o).value)
  {
  }

  lemma AfterRecords(s: Settings, now: int, j: Job, o: Outcome)
    requires StepAfter(s, now, j, o).Some?
    ensures RecordsOutcome(j, o, StepAfter(s, now, j, o).value)
  {
    hide CachedFiles, Final, Live, Packed, ZipOf, Names, SortStrings, WellFormed;
  }

  lemma OthersRecordNothing(s: Settings, now: int, j: Job, e: Event)
    requires !e.Work? && JobStep(s, now, j, e).Some?
    ensures JobStep(s, now, j, e).value.returned == j.returned && JobStep(s, now, j, e).value.output == j.output
    ensures JobStep(s, now, j, e).value.harvested == j.harvested
  {
  }

  lemma JobStepRecords(s: Settings, now: int, j: Job, e: Event)
    requires JobStep(s, now, j, e).Some?
    ensures var k := JobStep(s, now, j, e).value;
            if e.Work? then RecordsOutcome(j, e.outcome, k)
            else k.returned == j.returned && k.output == j.output && k.harvested == j.harvested
  {
    hide StepBefore, StepDuring, StepAfter, RecordsOutcome;
    if !e.Work? { OthersRecordNothing(s, now, j, e); }
    else if BeforeContainer(j.worker) { BeforeRecords(s, now, j, e.outcome); }
    else if DuringContainer(j.worker) { DuringRecords(s, now, j, e.outcome); }
    else { AfterRecords(s, now, j, e.outcome); }
  }

  function ReturnedOf(y: System, id: JobId): Option<int> {
    if id in y.jobs then y.jobs[id].returned else None
  }

  function OutputOf(y: System, id: JobId): Option<Forest> {
    if id in y.jobs then y.jobs[id].output else None
  }

  lemma NextRecords(s: Settings, y: System, t: Step, id: JobId)
    requires SystemInv(s, y) && Next(s, y, t).Some?
    ensures var z := Next(s, y, t).value;
            && (forall code :: ReturnedOf(z, id) == Some(code) <==> t == Returns(id, code) || ReturnedOf(y, id) == Some(code))
            && (forall tree :: OutputOf(z, id) == Some(tree) <==> t == Leaves(id, tree) || OutputOf(y, id) == Some(tree))
  {
    hide JobStep, At, Always, TimeInv, QueueInv, CancellersOk, ReadersOk;
    if t.On? && t.id == id {
      JobStepRecords(s, y.now, y.jobs[id], t.event);
      JobStepKeepsInv(s, y.now, y.jobs[id], t.event);
    }
  }

  lemma {:induction false} RunRecords(s: Settings, y: System, steps: seq<Step>, id: JobId)
    requires SystemInv(s, y) && Run(s, y, steps).Some?
    ensures var z := Run(s, y, steps).value;
            && (forall code :: ReturnedOf(z, id) == Some(code) <==> Returns(id, code) in steps || ReturnedOf(y, id) == Some(code))
            && (forall tree :: OutputOf(z, id) == Some(tree) <==> Leaves(id, tree) in steps || OutputOf(y, id) == Some(tree))
    decreases |steps|
  {
    hide Next, SystemInv, ReturnedOf, OutputOf;
    if steps != [] {
      assert forall t :: t in steps <==> t == steps[0] || t in steps[1..];
      NextRecords(s, y, steps[0], id);
      NextKeepsInv(s, y, steps[0]);
      RunRecords(s, Next(s, y, steps[0]).value, steps[1..], id);
    }
  }

  // ------------------------------------------- what a record has to do with it

  /** What the harvest found to report, if there was one. */
  function CachedOf(j: Job, out: JobDir): Option<seq<string>> {
    match j.harvested
    case Some((cache, fails)) => CachedFiles(cache, out, j.config.types, fails)
    case None => None
  }

  predicate BeforeHarvest(w: Worker) {
    BeforeContainer(w) || DuringContainer(w) || w.AtOutput? || w.AtZipOpen? || w.AtZipClose? || w.AtHarvest?
  }

  /** Until the final write, the worker carries what it will report. */
  predicate Carries(j: Job) {
    && (BeforeHarvest(j.worker) ==> j.harvested.None?)
    && (j.worker.AtHarvest? ==> j.output == RealTree(j.worker.out))
    && (j.worker.AtFinalWrite? ==> j.output == RealTree(j.worker.out) && j.worker.cached == CachedOf(j, j.worker.out))
  }

  function RealTree(out: JobDir): Option<Forest> {
    if out.RealDir? then Some(out.tree) else None
  }

  ghost predicate Tells(j: Job) {
    && (j.harvested.Some? ==>
          j.config.hasProject && j.config.kind.Generate? && j.returned == Some(0) && Rooted(j.harvested.value.0))
    && (j.record.status.Terminal() ==>
          j.record.cachedFiles == match j.output case Some(tree) => CachedOf(j, RealDir(tree)) case None => None)
    && (j.record.exitCode.Some? ==> (j.packed.Some? <==> j.output.Some?))
    && (j.record.files.Some? ==> j.config.kind.Generate? && SortedStrings(j.record.files.value))
  }

  predicate Informs(now: int, j: Job) {
    && (None in j.callbacks ==> j.expiresAt.Some? && j.expiresAt.value <= now)
    && (j.intake.Rejected? ==> j.dir.None?)
  }

  ghost predicate Report(now: int, j: Job) {
    Carries(j) && Tells(j) && Informs(now, j)
  }

  lemma BeforeKeepsReport(s: Settings, now: int, j: Job, o: Outcome)
    requires At(j) && Always(j) && Carries(j) && Tells(j) && BeforeContainer(j.worker) && StepBefore(s, now, j, o).Some?
    ensures Carries(StepBefore(s, now, j, o).value) && Tells(StepBefore(s, now, j, o).value)
  {
    hide CachedFiles, Packed, ZipOf, Names, SortStrings, WellFormed, Rooted, Lists, Subset, SortedStrings;
  }

  lemma DuringKeepsReport(s: Settings, now: int, j: Job, o: Outcome)
    requires At(j) && Always(j) && Carries(j) && Tells(j) && DuringContainer(j.worker) && StepDuring(s, now, j, o).Some?
    ensures Carries(StepDuring(s, now, j, o).value) && Tells(StepDuring(s, now, j, o).value)
  {
    hide CachedFiles, Packed, ZipOf, Names, SortStrings, WellFormed, Rooted, Lists, Subset, SortedStrings;
  }

  lemma PackingKeepsReport(s: Settings, now: int, j: Job, o: Outcome)
    requires At(j) && Always(j) && Carries(j) && Tells(j) && StepAfter(s, now, j, o).Some?
    requires j.worker.AtOutput? || j.worker.AtZipOpen? || j.worker.AtZipClose?
    ensures Carries(StepAfter(s, now, j, o).value) && Tells(StepAfter(s, now, j, o).value)
  {
    hide CachedFiles, Packed, ZipOf, Names, SortStrings, WellFormed, Rooted, Lists, Subset, Final;
  }

  lemma HarvestingKeepsReport(s: Settings, now: int, j: Job, o: Outcome)
    requires At(j) && Always(j) && Carries(j) && Tells(j) && StepAfter(s, now, j, o).Some?
    requires j.worker.AtHarvest? || j.worker.AtExit? || j.worker.AtPrune?
    ensures Carries(StepAfter(s, now, j, o).value) && Tells(StepAfter(s, now, j, o).value)
  {
    hide CachedFiles, Packed, ZipOf, Names, SortStrings, WellFormed, Rooted, Lists, Subset, SortedStrings, Final;
  }

  lemma ReportingKeepsReport(s: Settings, now: int, j: Job, o: Outcome)
    requires At(j) && Always(j) && Carries(j) && Tells(j) && StepAfter(s, now, j, o).Some? && j.worker.AtFinalWrite?
    ensures Carries(StepAfter(s, now, j, o).value) && Tells(StepAfter(s, now, j, o).value)
  {
    hide CachedFiles, FilesOf, ZipOf, Names, SortStrings, WellFormed, Rooted, Lists, Subset, SortedStrings, Live;
    SortStringsSorts(Names(FilesOf(j, TreeAt(j.worker.out))));
  }

  lemma WorkKeepsReport(s: Settings, now: int, j: Job, o: Outcome)
    requires At(j) && Always(j) && Carries(j) && Tells(j) && WorkStep(s, now, j, o).Some?
    ensures Carries(WorkStep(s, now, j, o).value) && Tells(WorkStep(s, now, j, o).value)
  {
    hide At, Always, Carries, Tells, StepBefore, StepDuring;
    if BeforeContainer(j.worker) { BeforeKeepsReport(s, now, j, o); }
    else if DuringContainer(j.worker) { DuringKeepsReport(s, now, j, o); }
    else if j.worker.AtOutput? || j.worker.AtZipOpen? || j.worker.AtZipClose? { PackingKeepsReport(s, now, j, o); }
    else if j.worker.AtFinalWrite? { ReportingKeepsReport(s, now, j, o); }
    else { HarvestingKeepsReport(s, now, j, o); }
  }

  /** The callback misses the record only if it has expired, and a refused upload leaves
      no directory. */
  lemma JobStepInforms(s: Settings, now: int, j: Job, e: Event)
    requires Always(j) && TimeInv(s, now, j) && Informs(now, j) && JobStep(s, now, j, e).Some?
    ensures Informs(now, JobStep(s, now, j, e).value)
  {
    hide StepBefore, StepDuring, StepAfter, CancelStep, ReadStep, IntakeStep, Informs;
    match e {
      case Work(o) => WorkInforms(s, now, j, o);
      case ContainerExits => OthersInform(s, now, j, e);
      case CancelCall(_, _) => OthersInform(s, now, j, e);
      case ReadCall(_, _, _) => OthersInform(s, now, j, e);
      case _ => IntakeInforms(s, now, j, e);
    }
  }

  /** A step that calls nobody back, and makes no directory. */
  predicate Silent(j: Job, k: Job) {
    k.callbacks == j.callbacks && k.expiresAt == j.expiresAt && k.intake == j.intake && (j.dir.None? ==> k.dir.None?)
  }

  lemma WorkInforms(s: Settings, now: int, j: Job, o: Outcome)
    requires Always(j) && TimeInv(s, now, j) && Informs(now, j) && WorkStep(s, now, j, o).Some?
    ensures Informs(now, WorkStep(s, now, j, o).value)
  {
    hide StepBefore, StepDuring, StepAfter, Always, TimeInv;
    if BeforeContainer(j.worker) { BeforeIsSilent(s, now, j, o); }
    else if DuringContainer(j.worker) { DuringIsSilent(s, now, j, o); }
    else if j.worker.AtExit? { CallbackInforms(s, now, j, o); }
    else if j.worker.AtOutput? || j.worker.AtZipOpen? || j.worker.AtZipClose? { PackingIsSilent(s, now, j, o); }
    else { ReportingIsSilent(s, now, j, o); }
  }

  lemma BeforeIsSilent(s: Settings, now: int, j: Job, o: Outcome)
    requires BeforeContainer(j.worker) && StepBefore(s, now, j, o).Some?
    ensures Silent(j, StepBefore(s, now, j, o).value)
  {
  }

  lemma DuringIsSilent(s: Settings, now: int, j: Job, o: Outcome)
    requires DuringContainer(j.worker) && StepDuring(s, now, j, o).Some?
    ensures Silent(j, StepDuring(s, now, j, o).value)
  {
  }

  lemma PackingIsSilent(s: Settings, now: int, j: Job, o: Outcome)
    requires j.worker.AtOutput? || j.worker.AtZipOpen? || j.worker.AtZipClose?
    requires StepAfter(s, now, j, o).Some?
    ensures Silent(j, StepAfter(s, now, j, o).value)
  {
    hide CachedFiles, Final, Packed, ZipOf, Names, SortStrings, WellFormed, Rooted, Live;
  }

  lemma ReportingIsSilent(s: Settings, now: int, j: Job, o: Outcome)
    requires !j.worker.AtOutput? && !j.worker.AtZipOpen? && !j.worker.AtZipClose? && !j.worker.AtExit?
    requires StepAfter(s, now, j, o).Some?
    ensures Silent(j, StepAfter(s, now, j, o).value)
  {
    hide CachedFiles, Final, Packed, ZipOf, Names, SortStrings, WellFormed, Rooted, Live;
  }

  lemma CallbackInforms(s: Settings, now: int, j: Job, o: Outcome)
    requires j.worker.AtExit? && Always(j) && TimeInv(s, now, j) && Informs(now, j) && StepAfter(s, now, j, o).Some?
    ensures Informs(now, StepAfter(s, now, j, o).value)
  {
    hide CachedFiles, Final, Packed, ZipOf, Names, SortStrings, WellFormed, Rooted, Lists, Subset;
    assert !j.queue.NotQueued?;
  }

  lemma OthersInform(s: Settings, now: int, j: Job, e: Event)
    requires Informs(now, j) && JobStep(s, now, j, e).Some? && (e.ContainerExits? || e.CancelCall? || e.ReadCall?)
    ensures Informs(now, JobStep(s, now, j, e).value)
  {
  }

  lemma IntakeInforms(s: Settings, now: int, j: Job, e: Event)
    requires TimeInv(s, now, j) && Informs(now, j) && IntakeStep(s, now, j, e).Some?
    ensures Informs(now, IntakeStep(s, now, j, e).value)
  {
  }

  lemma SameWorkKeepsReport(j: Job, k: Job)
    requires Carries(j) && Tells(j) && SameWork(j, k) && k.harvested == j.harvested
    ensures Carries(k) && Tells(k)
  {
    hide CachedFiles, Rooted, SortedStrings;
  }

  /** A job taken off the queue has nothing to report. */
  lemma CancelledReports(now: int, j: Job, id: nat, kind: Kind)
    requires At(j) && Always(j) && Carries(j) && Tells(j) && CancelStep(now, j, id, kind).Some?
    requires id in j.cancellers && j.cancellers[id].WriteCancelled? && j.queue.Dequeued?
    ensures Carries(CancelStep(now, j, id, kind).value) && Tells(CancelStep(now, j, id, kind).value)
  {
    hide CachedFiles, Packed, ZipOf, Names, SortStrings, WellFormed, Rooted, Lists, Subset, Live;
    assert j.worker.Waiting?;
  }

  lemma OthersKeepReport(s: Settings, now: int, j: Job, e: Event)
    requires JobInv(s, now, j) && Carries(j) && Tells(j) && !e.Work? && JobStep(s, now, j, e).Some?
    ensures Carries(JobStep(s, now, j, e).value) && Tells(JobStep(s, now, j, e).value)
  {
    hide CachedFiles, At, Always, TimeInv, QueueInv, ReadersOk, CancelStep, Rooted, Live;
    hide Carries, Tells, ReadStep, IntakeStep;
    if e.CancelCall? {
      if e.id in j.cancellers && j.cancellers[e.id].WriteCancelled? {
        assert CancellerOk(j, e.id, j.cancellers[e.id]);
        CancelledReports(now, j, e.id, e.kind);
      } else {
        CancelIsSameWork(now, j, e.id, e.kind);
        SameWorkKeepsReport(j, JobStep(s, now, j, e).value);
      }
    } else if e.ReadCall? {
      ReadIsSameWork(now, j, e.reader, e.readerKind, e.want);
      SameWorkKeepsReport(j, JobStep(s, now, j, e).value);
    } else {
      IntakeKeepsReport(s, now, j, e);
    }
  }

  lemma ReadIsSameWork(now: int, j: Job, id: nat, kind: Kind, want: Option<string>)
    requires ReadStep(now, j, id, kind, want).Some?
    ensures var k := ReadStep(now, j, id, kind, want).value;
            SameWork(j, k) && k.harvested == j.harvested
  {
    hide Live;
  }

  /** Intake, and the exit of the container, leave all that is reported alone. */
  lemma IntakeKeepsReport(s: Settings, now: int, j: Job, e: Event)
    requires Carries(j) && Tells(j) && !e.Work? && !e.CancelCall? && !e.ReadCall? && JobStep(s, now, j, e).Some?
    ensures Carries(JobStep(s, now, j, e).value) && Tells(JobStep(s, now, j, e).value)
  {
    IntakeReportsNothing(s, now, j, e);
    hide JobStep, CachedFiles, Rooted, SortedStrings, BeforeHarvest;
  }

  lemma IntakeReportsNothing(s: Settings, now: int, j: Job, e: Event)
    requires !e.Work? && !e.CancelCall? && !e.ReadCall? && JobStep(s, now, j, e).Some?
    ensures var k := JobStep(s, now, j, e).value;
            && k.config == j.config && k.worker == j.worker && k.record == j.record && k.packed == j.packed
            && k.returned == j.returned && k.output == j.output && k.harvested == j.harvested
  {
    hide WorkStep, CancelStep, ReadStep;
  }

  lemma JobStepKeepsReport(s: Settings, now: int, j: Job, e: Event)
    requires JobInv(s, now, j) && Report(now, j) && JobStep(s, now, j, e).Some?
    ensures Report(now, JobStep(s, now, j, e).value)
  {
    hide At, Always, TimeInv, CancellersOk, ReadersOk, Carries, Tells, Informs, WorkStep, CancelStep, ReadStep, IntakeStep;
    JobStepInforms(s, now, j, e);
    if e.Work? { WorkKeepsReport(s, now, j, e.outcome); } else { OthersKeepReport(s, now, j, e); }
  }

  ghost predicate Reports(y: System) {
    forall id :: id in y.jobs ==> Report(y.now, y.jobs[id])
  }

  lemma ElsewhereKeepsReport(now: int, later: int, j: Job)
    requires Report(now, j) && now <= later
    ensures Report(later, j) && Report(later, Removed(j))
  {
  }

  lemma NewReports(now: int, config: Config)
    ensures Report(now, NewJob(config))
  {
  }

  lemma NextKeepsReports(s: Settings, y: System, t: Step)
    requires SystemInv(s, y) && Reports(y) && Next(s, y, t).Some?
    ensures Reports(Next(s, y, t).value)
  {
    hide JobStep, JobInv, Report;
    var z := Next(s, y, t).value;
    forall id | id in z.jobs ensures Report(z.now, z.jobs[id]) {
      if id !in y.jobs { NewReports(z.now, z.jobs[id].config); }
      else if t.On? && t.id == id { JobStepKeepsReport(s, y.now, y.jobs[id], t.event); }
      else { ElsewhereKeepsReport(y.now, z.now, y.jobs[id]); }
    }
  }

  lemma {:induction false} RunKeepsReports(s: Settings, y: System, steps: seq<Step>)
    requires SystemInv(s, y) && Reports(y) && Run(s, y, steps).Some?
    ensures Reports(Run(s, y, steps).value)
    decreases |steps|
  {
    hide Next, SystemInv, Reports;
    if steps != [] {
      NextKeepsInv(s, y, steps[0]);
      NextKeepsReports(s, y, steps[0]);
      RunKeepsReports(s, Next(s, y, steps[0]).value, steps[1..]);
    }
  }

  // ----------------------------------------------- the harvest in the run's steps

  function HarvestedOf(y: System, id: JobId): Option<(Cache, set<Path>)> {
    if id in y.jobs then y.jobs[id].harvested else None
  }

  lemma NextRecordsHarvest(s: Settings, y: System, t: Step, id: JobId)
    requires SystemInv(s, y) && Reports(y) && Next(s, y, t).Some?
    ensures var z := Next(s, y, t).value;
            forall cache, fails ::
              HarvestedOf(z, id) == Some((cache, fails)) <==>
              t == Harvests(id, cache, fails) || HarvestedOf(y, id) == Some((cache, fails))
  {
    hide JobStep, At, Always, TimeInv, QueueInv, CancellersOk, ReadersOk, Tells, Informs;
    if t.On? && t.id == id {
      assert Report(y.now, y.jobs[id]);
      JobStepRecords(s, y.now, y.jobs[id], t.event);
      if t.event.Work? && t.event.outcome.Harvesting? { OnlyOneHarvest(s, y.now, y.jobs[id], t.event.outcome); }
    }
  }

  lemma OnlyOneHarvest(s: Settings, now: int, j: Job, o: Outcome)
    requires Carries(j) && o.Harvesting? && JobStep(s, now, j, Work(o)).Some?
    ensures j.harvested.None?
  {
    hide CachedFiles, Packed, ZipOf, Names, SortStrings;
  }

  lemma {:induction false} RunRecordsHarvest(s: Settings, y: System, steps: seq<Step>, id: JobId)
    requires SystemInv(s, y) && Reports(y) && Run(s, y, steps).Some?
    ensures var z := Run(s, y, steps).value;
            forall cache, fails ::
              HarvestedOf(z, id) == Some((cache, fails)) <==>
              Harvests(id, cache, fails) in steps || HarvestedOf(y, id) == Some((cache, fails))
    decreases |steps|
  {
    hide Next, SystemInv, Reports, HarvestedOf;
    if steps != [] {
      assert forall t :: t in steps <==> t == steps[0] || t in steps[1..];
      NextRecordsHarvest(s, y, steps[0], id);
      NextKeepsInv(s, y, steps[0]);
      NextKeepsReports(s, y, steps[0]);
      RunRecordsHarvest(s, Next(s, y, steps[0]).value, steps[1..], id);
    }
  }

  /** Everything about the job at the end of a run from the empty system. */
  lemma AtTheEnd(s: Settings, steps: seq<Step>, id: JobId)
    requires Run(s, NOTHING, steps).Some? && id in Run(s, NOTHING, steps).value.jobs
    ensures var z := Run(s, NOTHING, steps).value;
            var j := z.jobs[id];
            && SystemInv(s, z) && JobInv(s, z.now, j) && Report(z.now, j)
            && (forall code :: j.returned == Some(code) <==> Returns(id, code) in steps)
            && (forall tree :: j.output == Some(tree) <==> Leaves(id, tree) in steps)
            && (forall cache, fails :: j.harvested == Some((cache, fails)) <==> Harvests(id, cache, fails) in steps)
  {
    hide Run, JobInv, Report;
    RunKeepsInv(s, NOTHING, steps);
    RunKeepsReports(s, NOTHING, steps);
    RunRecords(s, NOTHING, steps, id);
    RunRecordsHarvest(s, NOTHING, steps, id);
  }
}
