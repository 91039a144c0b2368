/** Building runs of the job protocol step by step: the stages of a job's life, and
    the runs that lead from one to the next, for any time at which they happen. */
module ProtocolRuns {
  import opened Common
  import opened FileTree
  import opened BuildMounts
  import opened Packing
  import opened Protocol

  /** Some run leads from one state to the other. */
  ghost predicate Leads(s: Settings, x: System, y: System) {
    exists steps :: Run(s, x, steps) == Some(y)
  }

  function Put(y: System, id: JobId, j: Job): System {
    y.(jobs := y.jobs[id := j])
  }

  lemma {:induction false} RunThen(s: Settings, x: System, steps: seq<Step>, y: System, t: Step)
    requires Run(s, x, steps) == Some(y) && Next(s, y, t).Some?
    ensures Run(s, x, steps + [t]) == Next(s, y, t)
    decreases |steps|
  {
    hide Next;
    if steps == [] {
      assert [t][1..] == [];
    } else {
      RunThen(s, Next(s, x, steps[0]).value, steps[1..], y, t);
      assert (steps + [t])[1..] == steps[1..] + [t];
    }
  }

  lemma Stay(s: Settings, x: System)
    ensures Leads(s, x, x)
  {
    assert Run(s, x, []) == Some(x);
  }

  lemma StepLeads(s: Settings, x: System, y: System, t: Step)
    requires Leads(s, x, y) && Next(s, y, t).Some?
    ensures Leads(s, x, Next(s, y, t).value)
  {
    hide Next;
    var steps :| Run(s, x, steps) == Some(y);
    RunThen(s, x, steps, y, t);
  }

  /** One job moves, the rest of the system stays. */
  lemma Move(s: Settings, x: System, y: System, id: JobId, j: Job, e: Event, k: Job)
    requires Leads(s, x, Put(y, id, j)) && JobStep(s, y.now, j, e) == Some(k)
    requires e.Work? ==> id !in y.scans
    ensures Leads(s, x, Put(y, id, k))
  {
    hide JobStep, Leads, Run;
    StepLeads(s, x, Put(y, id, j), On(id, e));
    assert Put(Put(y, id, j), id, k) == Put(y, id, k);
  }

  // ------------------------------------------------------------------- intake

  function JobMade(config: Config, made: int): Job {
    NewJob(config).(intake := DirMade, dir := Some(made), madeAt := made)
  }

  function JobUnpacked(config: Config, made: int, unpacked: int): Job {
    JobMade(config, made).(intake := Unpacked, dir := Some(unpacked), unpackedAt := unpacked)
  }

  function JobRecorded(config: Config, made: int, unpacked: int): Job {
    JobUnpacked(config, made, unpacked).(intake := Recorded)
  }

  function JobQueued(config: Config, made: int, unpacked: int, expires: int): Job {
    JobUnpacked(config, made, unpacked).(intake := Intake.Enqueued, expiresAt := Some(expires), queue := InQueue)
  }

  lemma MakeIt(s: Settings, x: System, y: System, id: JobId, config: Config)
    requires Leads(s, x, y) && id !in y.jobs
    ensures Leads(s, x, Put(y, id, JobMade(config, y.now)))
  {
    StepLeads(s, x, y, Submit(id, config));
    Move(s, x, y, id, NewJob(config), MakeDir, JobMade(config, y.now));
  }

  lemma UnpackIt(s: Settings, x: System, y: System, id: JobId, config: Config, made: int)
    requires Leads(s, x, Put(y, id, JobMade(config, made)))
    ensures Leads(s, x, Put(y, id, JobRecorded(config, made, y.now)))
  {
    Move(s, x, y, id, JobMade(config, made), Unpack(true), JobUnpacked(config, made, y.now));
    Move(s, x, y, id, JobUnpacked(config, made, y.now), Create, JobRecorded(config, made, y.now));
  }

  lemma QueueIt(s: Settings, x: System, y: System, id: JobId, config: Config, made: int, unpacked: int)
    requires Leads(s, x, Put(y, id, JobRecorded(config, made, unpacked)))
    ensures Leads(s, x, Put(y, id, JobQueued(config, made, unpacked, y.now + s.jobTtl)))
  {
    var stamped := JobRecorded(config, made, unpacked).(intake := Stamped, expiresAt := Some(y.now + s.jobTtl));
    Move(s, x, y, id, JobRecorded(config, made, unpacked), Stamp, stamped);
    Move(s, x, y, id, stamped, Enqueue, JobQueued(config, made, unpacked, y.now + s.jobTtl));
  }

  lemma Accept(s: Settings, x: System, y: System, id: JobId, config: Config)
    requires Leads(s, x, y) && id !in y.jobs
    ensures Leads(s, x, Put(y, id, JobQueued(config, y.now, y.now, y.now + s.jobTtl)))
  {
    hide Leads, Put;
    MakeIt(s, x, y, id, config);
    UnpackIt(s, x, y, id, config, y.now);
    QueueIt(s, x, y, id, config, y.now, y.now);
  }

  // ------------------------------------------------------------------ the run

  /** A job that waits in the queue. */
  predicate Waits(j: Job) {
    j.expiresAt.Some? && j == JobQueued(j.config, j.madeAt, j.unpackedAt, j.expiresAt.value)
  }

  function WithWorker(j: Job, status: Status, w: Worker): Job {
    j.(queue := Taken, record := j.record.(status := status), worker := w)
  }

  /** A container is up, and the worker waits for it. */
  function Polling(j: Job): Job {
    WithWorker(j, Running, AtPoll(0)).(container := Up, starts := 1)
  }

  lemma TakeIt(s: Settings, x: System, y: System, id: JobId, j: Job)
    requires Leads(s, x, Put(y, id, j)) && Waits(j) && id !in y.scans
    ensures Leads(s, x, Put(y, id, WithWorker(j, Queued, AtEntry)))
  {
    Move(s, x, y, id, j, Work(Fine), WithWorker(j, Queued, AtEntry));
  }

  lemma Begin(s: Settings, x: System, y: System, id: JobId, j: Job)
    requires Leads(s, x, Put(y, id, WithWorker(j, Queued, AtEntry)))
    requires Waits(j) && id !in y.scans && s.hostDataDir && Live(y.now, j)
    ensures Leads(s, x, Put(y, id, WithWorker(j, Running, AtPrepare)))
  {
    Move(s, x, y, id, WithWorker(j, Queued, AtEntry), Work(Fine), WithWorker(j, Queued, AtFlagRead));
    Move(s, x, y, id, WithWorker(j, Queued, AtFlagRead), Work(Fine), WithWorker(j, Queued, AtRunningWrite));
    Move(s, x, y, id, WithWorker(j, Queued, AtRunningWrite), Work(Fine), WithWorker(j, Running, AtPrepare));
  }

  lemma Start(s: Settings, x: System, y: System, id: JobId, j: Job)
    requires Leads(s, x, Put(y, id, j)) && Waits(j) && id !in y.scans && s.hostDataDir && Live(y.now, j)
    ensures Leads(s, x, Put(y, id, Polling(j)))
  {
    TakeIt(s, x, y, id, j);
    Begin(s, x, y, id, j);
    Move(s, x, y, id, WithWorker(j, Running, AtPrepare), Work(Fine), WithWorker(j, Running, AtStart));
    Move(s, x, y, id, WithWorker(j, Running, AtStart), Work(Fine), Polling(j));
  }

  // ------------------------------------------------- the end of a container

  const EMPTY: JobDir := RealDir(Nil)

  /** The worker waits for a container that is up. */
  predicate Polls(j: Job) {
    j.worker == AtPoll(0) && j.container.Up? && j.zip.NoZip? && j.packed.None? && j.config.kind.Build?
  }

  function Ending(j: Job, code: int, w: Worker): Job {
    j.(container := Exited, returned := Some(code), worker := w)
  }

  /** The container has exited, with an empty output directory. */
  function Opening(j: Job, code: int): Job {
    Ending(j, code, AtZipOpen(code, EMPTY)).(removeTried := true, output := Some(Nil))
  }

  lemma Exit(s: Settings, x: System, y: System, id: JobId, j: Job, code: int)
    requires Leads(s, x, Put(y, id, j)) && Polls(j) && id !in y.scans
    ensures Leads(s, x, Put(y, id, Ending(j, code, AtRemove(GoOn(code)))))
  {
    hide Leads, StepBefore, StepAfter, CancelStep, ReadStep, IntakeStep;
    Move(s, x, y, id, j, ContainerExits, j.(container := Exited));
    Move(s, x, y, id, j.(container := Exited), Work(WaitReturns(code)), Ending(j, code, AtLogs(code)));
    Move(s, x, y, id, Ending(j, code, AtLogs(code)), Work(Fine), Ending(j, code, AtRemove(GoOn(code))));
  }

  lemma Finish(s: Settings, x: System, y: System, id: JobId, j: Job, code: int)
    requires Leads(s, x, Put(y, id, j)) && Polls(j) && id !in y.scans
    ensures Leads(s, x, Put(y, id, Opening(j, code)))
  {
    hide Leads, StepBefore, CancelStep, ReadStep, IntakeStep;
    Exit(s, x, y, id, j, code);
    Move(s, x, y, id, Ending(j, code, AtRemove(GoOn(code))), Work(Fine), Ending(j, code, AtOutput(code)).(removeTried := true));
    Move(s, x, y, id, Ending(j, code, AtOutput(code)).(removeTried := true), Work(Output(EMPTY)), Opening(j, code));
  }

  /** The zip is being written. */
  function Zipping(j: Job, now: int, code: int): Job {
    Opening(j, code).(dir := Some(now), zip := HalfWritten, worker := AtZipClose(code, EMPTY))
  }

  function Zipped(j: Job, now: int, code: int, w: Worker): Job {
    var packed := ZipOf(FilesOf(j, Nil));
    Ending(j, code, w).(removeTried := true, output := Some(Nil), dir := Some(now), zip := Closed(packed), packed := Some(packed))
  }

  /** The final write is done. */
  function Reported(j: Job, now: int, code: int): Job {
    var k := Zipped(j, now, code, AtExit(false));
    k.(record := Final(j.record, code, EMPTY, None, None), terminalWrites := j.terminalWrites + 1)
  }

  lemma OpenZip(s: Settings, x: System, y: System, id: JobId, j: Job, code: int)
    requires Leads(s, x, Put(y, id, Opening(j, code))) && Polls(j) && id !in y.scans && j.dir.Some?
    ensures Leads(s, x, Put(y, id, Zipping(j, y.now, code)))
  {
    Move(s, x, y, id, Opening(j, code), Work(Fine), Zipping(j, y.now, code));
  }

  lemma CloseZip(s: Settings, x: System, y: System, id: JobId, j: Job, code: int)
    requires Leads(s, x, Put(y, id, Zipping(j, y.now, code))) && Polls(j) && id !in y.scans
    ensures Leads(s, x, Put(y, id, Zipped(j, y.now, code, AtHarvest(code, EMPTY, None))))
  {
    Move(s, x, y, id, Zipping(j, y.now, code), Work(Fine), Zipped(j, y.now, code, AtHarvest(code, EMPTY, None)));
  }

  lemma Report(s: Settings, x: System, y: System, id: JobId, j: Job, code: int)
    requires Leads(s, x, Put(y, id, Opening(j, code))) && Polls(j) && id !in y.scans && j.dir.Some? && Live(y.now, j)
    ensures Leads(s, x, Put(y, id, Reported(j, y.now, code)))
  {
    hide Leads, Packed, ZipOf, StepBefore, StepDuring, CancelStep, ReadStep, IntakeStep;
    OpenZip(s, x, y, id, j, code);
    CloseZip(s, x, y, id, j, code);
    var last := Zipped(j, y.now, code, AtFinalWrite(code, EMPTY, None, None));
    Move(s, x, y, id, Zipped(j, y.now, code, AtHarvest(code, EMPTY, None)), Work(Fine), last);
    Move(s, x, y, id, last, Work(Fine), Reported(j, y.now, code));
  }

  // ------------------------------------------------------------ a pruner

  lemma Leave(s: Settings, x: System, y: System, id: JobId, j: Job, raised: bool) returns (k: Job)
    requires Leads(s, x, Put(y, id, j)) && j.worker == AtExit(raised) && id !in y.scans
    ensures Leads(s, x, Put(y, id, k)) && k.worker == AtPrune(raised)
  {
    k := StepAfter(s, y.now, j, Fine).value;
    Move(s, x, y, id, j, Work(Fine), k);
  }

  /** Wherever the system is, one more job can come and its worker get to prune. */
  lemma AnotherPrunes(s: Settings, x: System, y: System, id: JobId, config: Config) returns (k: Job)
    requires Leads(s, x, y) && id !in y.jobs && id !in y.scans && 0 < s.jobTtl
    ensures Leads(s, x, Put(y, id, k)) && k.worker.AtPrune?
  {
    hide Leads;
    var j := JobQueued(config, y.now, y.now, y.now + s.jobTtl);
    Accept(s, x, y, id, config);
    TakeIt(s, x, y, id, j);
    if s.hostDataDir {
      Begin(s, x, y, id, j);
      Move(s, x, y, id, WithWorker(j, Running, AtPrepare), Work(Raises), WithWorker(j, Running, AtExit(true)));
      k := Leave(s, x, y, id, WithWorker(j, Running, AtExit(true)), true);
    } else {
      Move(s, x, y, id, WithWorker(j, Queued, AtEntry), Work(Fine), WithWorker(j, Queued, AtMisconfigured));
      var failed := WithWorker(j, Failed, AtExit(false)).(terminalWrites := 1);
      Move(s, x, y, id, WithWorker(j, Queued, AtMisconfigured), Work(Fine), failed);
      k := Leave(s, x, y, id, failed, false);
    }
  }
}
