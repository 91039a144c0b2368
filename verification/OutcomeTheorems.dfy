/** How a job ends: what a missing setting, a missing image, the clock and a call that
    raises each lead to, over every run of the system (src/build.py:210-320). */
module OutcomeTheorems {
  import opened Common
  import opened FileTree
  import opened AssetHarvest
  import opened BuildMounts
  import opened Packing
  import opened Protocol
  import opened ProtocolInvariant
  import opened ProtocolTheorems
  import opened CancellationTheorems

  /** Ways that lead to `failed`. */
  datatype Course = Misconfigured | ImageMissing | TimedOut

  predicate Takes(s: Settings, j: Job, course: Course) {
    match course
    case Misconfigured =>
      && !s.hostDataDir && j.container.Unstarted?
      && (match j.worker
          case Waiting => true
          case AtEntry => true
          case AtMisconfigured => true
          case _ => RunOver(j.worker, false) && j.record.status.Failed?)
    case ImageMissing =>
      && j.container.Unstarted?
      && ((j.worker.AtNoImage? && j.record.status.Running?) || (RunOver(j.worker, false) && j.record.status.Failed?))
    case TimedOut =>
      || (j.worker == AtKill(ByTimeout) && j.record.status.Running?)
      || ((j.worker == AtKillLogs(ByTimeout) || j.worker == AtKillWrite(ByTimeout)) &&
          j.record.status.Running? && j.container.Killed?)
      || (j.worker == AtRemove(Return) && j.record.status.Failed? && j.container.Killed?)
      || (j.worker == AtRemove(Raise) && j.record.status.Running?)
      || (RunOver(j.worker, false) && j.record.status.Failed? && j.container.Killed?)
      || (RunOver(j.worker, true) && (j.record.status.Running? || j.record.status.Failed?))
  }

  lemma BeforeStaysOn(s: Settings, now: int, j: Job, o: Outcome, course: Course)
    requires Takes(s, j, course) && BeforeContainer(j.worker) && StepBefore(s, now, j, o).Some?
    ensures Takes(s, StepBefore(s, now, j, o).value, course)
  {
  }

  lemma DuringStaysOn(s: Settings, now: int, j: Job, o: Outcome, course: Course)
    requires Takes(s, j, course) && DuringContainer(j.worker) && StepDuring(s, now, j, o).Some?
    ensures Takes(s, StepDuring(s, now, j, o).value, course)
  {
  }

  lemma WorkStaysOn(s: Settings, now: int, j: Job, o: Outcome, course: Course)
    requires Takes(s, j, course) && WorkStep(s, now, j, o).Some?
    ensures Takes(s, WorkStep(s, now, j, o).value, course)
  {
    hide StepBefore, StepDuring, StepAfter;
    if BeforeContainer(j.worker) { BeforeStaysOn(s, now, j, o, course); }
    else if DuringContainer(j.worker) { DuringStaysOn(s, now, j, o, course); }
    else { AfterTheRun(s, now, j, o, RunOver(j.worker, true)); }
  }

  lemma StepStaysOn(s: Settings, now: int, j: Job, e: Event, course: Course)
    requires JobInv(s, now, j) && Takes(s, j, course) && JobStep(s, now, j, e).Some?
    ensures Takes(s, JobStep(s, now, j, e).value, course)
  {
    hide WorkStep, CancelStep, ReadStep, IntakeStep, JobInv;
    if e.Work? { WorkStaysOn(s, now, j, e.outcome, course); } else { OthersKeepTheWorker(s, now, j, e); }
  }

  lemma NextStaysOn(s: Settings, y: System, t: Step, id: JobId, course: Course)
    requires SystemInv(s, y) && Next(s, y, t).Some? && id in y.jobs && Takes(s, y.jobs[id], course)
    ensures id in Next(s, y, t).value.jobs && Takes(s, Next(s, y, t).value.jobs[id], course)
  {
    hide JobStep, JobInv;
    if t.On? && t.id == id { StepStaysOn(s, y.now, y.jobs[id], t.event, course); }
  }

  lemma {:induction false} RunStaysOn(s: Settings, y: System, steps: seq<Step>, id: JobId, course: Course)
    requires SystemInv(s, y) && Run(s, y, steps).Some? && id in y.jobs && Takes(s, y.jobs[id], course)
    ensures id in Run(s, y, steps).value.jobs && Takes(s, Run(s, y, steps).value.jobs[id], course)
    decreases |steps|
  {
    hide Next, SystemInv, Takes;
    if steps != [] {
      NextKeepsInv(s, y, steps[0]);
      NextStaysOn(s, y, steps[0], id, course);
      RunStaysOn(s, Next(s, y, steps[0]).value, steps[1..], id, course);
    }
  }

  // ----------------------------------------------------- a setting is missing

  lemma {:induction false} AllMisconfigured(s: Settings, y: System, steps: seq<Step>)
    requires !s.hostDataDir && SystemInv(s, y) && Run(s, y, steps).Some?
    requires forall id :: id in y.jobs ==> Takes(s, y.jobs[id], Misconfigured)
    ensures forall id :: id in Run(s, y, steps).value.jobs ==> Takes(s, Run(s, y, steps).value.jobs[id], Misconfigured)
    decreases |steps|
  {
    hide SystemInv, JobStep, Takes;
    if steps != [] {
      var z := Next(s, y, steps[0]).value;
      NextKeepsInv(s, y, steps[0]);
      forall id | id in z.jobs ensures Takes(s, z.jobs[id], Misconfigured) {
        if id in y.jobs { NextStaysOn(s, y, steps[0], id, Misconfigured); } else { NewIsMisconfigured(s, z.jobs[id].config); }
      }
      AllMisconfigured(s, z, steps[1..]);
    }
  }

  lemma NewIsMisconfigured(s: Settings, config: Config)
    requires !s.hostDataDir
    ensures Takes(s, NewJob(config), Misconfigured)
  {
  }

  /** Without HOST_DATA_DIR no job ever starts a container, and none raises: a worker that
      takes a job ends it `failed`. */
  lemma MisconfiguredStartsNothing(s: Settings, y: System, id: JobId)
    requires !s.hostDataDir && Reachable(s, y) && id in y.jobs
    ensures var j := y.jobs[id];
            && j.starts == 0 && !RunOver(j.worker, true)
            && (RunOver(j.worker, false) ==> j.record.status.Failed?)
            && (j.record.status in {Queued, Failed, Cancelled})
  {
    hide Run, TimeInv, QueueInv, CancellersOk, ReadersOk;
    ReachableInv(s, y);
    assert JobInv(s, y.now, y.jobs[id]);
    var steps :| Run(s, NOTHING, steps) == Some(y);
    AllMisconfigured(s, NOTHING, steps);
  }

  // -------------------------------------------------- no image, or no time left

  /** The image is missing: the job ends `failed` without a container, and does not raise. */
  lemma MissingImageFails(s: Settings, y: System, steps: seq<Step>, id: JobId)
    requires Reachable(s, y) && Run(s, y, [On(id, Work(NoImage))] + steps).Some?
    ensures var z := Run(s, y, [On(id, Work(NoImage))] + steps).value;
            && id in z.jobs && z.jobs[id].container.Unstarted? && !RunOver(z.jobs[id].worker, true)
            && (RunOver(z.jobs[id].worker, false) ==> z.jobs[id].record.status.Failed?)
  {
    hide SystemInv;
    ReachableInv(s, y);
    var t := On(id, Work(NoImage));
    assert ([t] + steps)[0] == t && ([t] + steps)[1..] == steps;
    NoImageIsOn(s, y, id);
    hide Next;
    NextKeepsInv(s, y, t);
    RunStaysOn(s, Next(s, y, t).value, steps, id, ImageMissing);
  }

  lemma NoImageIsOn(s: Settings, y: System, id: JobId)
    requires SystemInv(s, y) && Next(s, y, On(id, Work(NoImage))).Some?
    ensures var z := Next(s, y, On(id, Work(NoImage))).value;
            id in z.jobs && Takes(s, z.jobs[id], ImageMissing)
  {
    hide Always, TimeInv, QueueInv, CancellersOk, ReadersOk;
    assert JobInv(s, y.now, y.jobs[id]);
  }

  /** The clock runs out in the poll loop: the job ends `failed` with its container killed,
      unless a call raises. */
  lemma TimeoutFails(s: Settings, y: System, steps: seq<Step>, id: JobId, elapsed: int)
    requires Reachable(s, y) && id in y.jobs && y.jobs[id].worker == AtPoll(elapsed)
    requires elapsed + s.poll >= if y.jobs[id].config.kind.Build? then s.buildTimeout else s.generateTimeout
    requires Run(s, y, [On(id, Work(WaitTimesOut))] + steps).Some?
    ensures var z := Run(s, y, [On(id, Work(WaitTimesOut))] + steps).value;
            && id in z.jobs && (z.jobs[id].record.status.Running? || z.jobs[id].record.status.Failed?)
            && (RunOver(z.jobs[id].worker, false) ==> z.jobs[id].record.status.Failed? && z.jobs[id].container.Killed?)
  {
    hide SystemInv, WorkStep, CancelStep, ReadStep, IntakeStep;
    ReachableInv(s, y);
    var t := On(id, Work(WaitTimesOut));
    assert ([t] + steps)[0] == t && ([t] + steps)[1..] == steps;
    TimeoutIsOn(s, y, id, elapsed);
    hide Next, Live;
    NextKeepsInv(s, y, t);
    RunStaysOn(s, Next(s, y, t).value, steps, id, TimedOut);
  }

  lemma TimeoutIsOn(s: Settings, y: System, id: JobId, elapsed: int)
    requires SystemInv(s, y) && Next(s, y, On(id, Work(WaitTimesOut))).Some? && y.jobs[id].worker == AtPoll(elapsed)
    requires elapsed + s.poll >= if y.jobs[id].config.kind.Build? then s.buildTimeout else s.generateTimeout
    ensures var z := Next(s, y, On(id, Work(WaitTimesOut))).value;
            id in z.jobs && Takes(s, z.jobs[id], TimedOut)
  {
    hide Always, TimeInv, QueueInv, CancellersOk, ReadersOk;
    assert JobInv(s, y.now, y.jobs[id]);
  }

  // ------------------------------------------------------------ a call raises

  predicate RaisesNow(y: System, t: Step, id: JobId) {
    id in y.jobs && t == On(id, Work(Raises)) && !y.jobs[id].worker.AtHarvest?
  }

  /** Somewhere along the run a call of the worker raises that is not the harvest's. */
  ghost predicate RaisesIn(s: Settings, y: System, steps: seq<Step>, id: JobId)
    decreases |steps|
  {
    steps != [] && Next(s, y, steps[0]).Some? &&
    (RaisesNow(y, steps[0], id) || RaisesIn(s, Next(s, y, steps[0]).value, steps[1..], id))
  }

  lemma BeforeRaises(s: Settings, now: int, j: Job, o: Outcome)
    requires BeforeContainer(j.worker) && StepBefore(s, now, j, o).Some?
    ensures Raising(StepBefore(s, now, j, o).value.worker) <==> Raising(j.worker) || o.Raises?
  {
  }

  lemma DuringRaises(s: Settings, now: int, j: Job, o: Outcome)
    requires DuringContainer(j.worker) && StepDuring(s, now, j, o).Some?
    ensures Raising(StepDuring(s, now, j, o).value.worker) <==> Raising(j.worker) || o.Raises?
  {
  }

  lemma PackingRaises(s: Settings, now: int, j: Job, o: Outcome)
    requires j.worker.AtOutput? || j.worker.AtZipOpen? || j.worker.AtZipClose?
    requires StepAfter(s, now, j, o).Some?
    ensures Raising(StepAfter(s, now, j, o).value.worker) <==> o.Raises?
  {
    hide FilesOf, ZipOf, Live, WellFormed;
  }

  lemma ReportingRaises(s: Settings, now: int, j: Job, o: Outcome)
    requires !j.worker.AtOutput? && !j.worker.AtZipOpen? && !j.worker.AtZipClose?
    requires !BeforeContainer(j.worker) && !DuringContainer(j.worker) && StepAfter(s, now, j, o).Some?
    ensures Raising(StepAfter(s, now, j, o).value.worker) <==> Raising(j.worker) || (o.Raises? && !j.worker.AtHarvest?)
  {
    hide CachedFiles, Final, Live, Rooted;
  }

  lemma WorkRaises(s: Settings, now: int, j: Job, o: Outcome)
    requires WorkStep(s, now, j, o).Some?
    ensures Raising(WorkStep(s, now, j, o).value.worker) <==> Raising(j.worker) || (o.Raises? && !j.worker.AtHarvest?)
  {
    hide StepBefore, StepDuring, StepAfter;
    if BeforeContainer(j.worker) { BeforeRaises(s, now, j, o); }
    else if DuringContainer(j.worker) { DuringRaises(s, now, j, o); }
    else if j.worker.AtOutput? || j.worker.AtZipOpen? || j.worker.AtZipClose? {
      PackingRaises(s, now, j, o);
      assert !Raising(j.worker);
    } else { ReportingRaises(s, now, j, o); }
  }

  predicate HasRaised(y: System, id: JobId) {
    id in y.jobs && Raising(y.jobs[id].worker)
  }

  lemma NextRaises(s: Settings, y: System, t: Step, id: JobId)
    requires SystemInv(s, y) && Next(s, y, t).Some?
    ensures HasRaised(Next(s, y, t).value, id) <==> HasRaised(y, id) || RaisesNow(y, t, id)
  {
    hide WorkStep, CancelStep, ReadStep, IntakeStep, JobInv;
    if t.On? && t.id == id {
      if t.event.Work? { WorkRaises(s, y.now, y.jobs[id], t.event.outcome); }
      else { assert JobInv(s, y.now, y.jobs[id]); OthersKeepTheWorker(s, y.now, y.jobs[id], t.event); }
    }
  }

  lemma {:induction false} RunRaises(s: Settings, y: System, steps: seq<Step>, id: JobId)
    requires SystemInv(s, y) && Run(s, y, steps).Some?
    ensures HasRaised(Run(s, y, steps).value, id) <==> HasRaised(y, id) || RaisesIn(s, y, steps, id)
    decreases |steps|
  {
    hide Next, SystemInv, HasRaised, RaisesNow;
    if steps != [] {
      NextKeepsInv(s, y, steps[0]);
      NextRaises(s, y, steps[0], id);
      RunRaises(s, Next(s, y, steps[0]).value, steps[1..], id);
    }
  }

  /** A run raises exactly if one of its calls does that is not the harvest's: an error of
      the removal that is swallowed, a missing image and a timeout are none. */
  lemma RaisedIff(s: Settings, steps: seq<Step>, id: JobId)
    requires Run(s, NOTHING, steps).Some? && id in Run(s, NOTHING, steps).value.jobs
    ensures var w := Run(s, NOTHING, steps).value.jobs[id].worker;
            w == AtRemove(Raise) || RunOver(w, true) <==> RaisesIn(s, NOTHING, steps, id)
  {
    hide RaisesIn;
    RunRaises(s, NOTHING, steps, id);
  }

  // ------------------------------------------------------ nothing is ruled out

  /** What can happen at a worker's step: every outcome of the call it makes there. */
  ghost predicate Possible(now: int, j: Job, o: Outcome) {
    match j.worker
    case Waiting => o.Fine? && j.queue.InQueue?
    case AtEntry => o.Fine?
    case AtFlagRead => o.Fine?
    case AtPrepare => o.Raises? || (o.Fine? && j.dir.Some?)
    case AtStart => o.Fine? || o.Raises? || o.NoImage?
    case AtPoll(_) => o.WaitTimesOut? || o.Raises? || (o.WaitReturns? && j.container.Exited?)
    case AtPollRead(_) => o.Fine?
    case AtKill(_) => o.Fine? || o.Raises?
    case AtKillLogs(_) => o.Fine? || o.Raises?
    case AtLogs(_) => o.Fine? || o.Raises?
    case AtRemove(_) => o.Fine? || o.Raises? || o.ApiError?
    case AtOutput(_) => o.Output? && WellFormed(TreeAt(o.out))
    case AtZipOpen(_, _) => o.Raises? || (o.Fine? && j.dir.Some?)
    case AtZipClose(_, _) => o.Fine? || o.Raises?
    case AtHarvest(code, _, _) =>
      if j.config == Config(Generate, true, j.config.types) && code == 0 then o.Raises? || (o.Harvesting? && Rooted(o.cache))
      else o.Fine?
    case AtExit(_) => o.Fine?
    case AtPrune(_) => o.Fine?
    case Done(_) => false
    case _ => o.Fine? && Live(now, j)        // a store update
  }

  /** A worker can take a step with an outcome exactly if the call can have it: nothing is
      ruled out, and only writes to an expired record and a directory that is gone stop it. */
  lemma WorkStepsIff(s: Settings, now: int, j: Job, o: Outcome)
    ensures WorkStep(s, now, j, o).Some? <==> Possible(now, j, o)
  {
    hide StepBefore, StepDuring, StepAfter, Possible;
    if BeforeContainer(j.worker) { BeforeStepsIff(s, now, j, o); }
    else if DuringContainer(j.worker) { DuringStepsIff(s, now, j, o); }
    else { AfterStepsIff(s, now, j, o); }
  }

  lemma BeforeStepsIff(s: Settings, now: int, j: Job, o: Outcome)
    requires BeforeContainer(j.worker)
    ensures StepBefore(s, now, j, o).Some? <==> Possible(now, j, o)
  {
    hide Live, WellFormed, Rooted;
  }

  lemma DuringStepsIff(s: Settings, now: int, j: Job, o: Outcome)
    requires DuringContainer(j.worker)
    ensures StepDuring(s, now, j, o).Some? <==> Possible(now, j, o)
  {
    hide Live, WellFormed, Rooted;
  }

  lemma AfterStepsIff(s: Settings, now: int, j: Job, o: Outcome)
    requires !BeforeContainer(j.worker) && !DuringContainer(j.worker)
    ensures StepAfter(s, now, j, o).Some? <==> Possible(now, j, o)
  {
    hide Live, WellFormed, Rooted, CachedFiles, Final, FilesOf, ZipOf;
  }
}
