/** Where the protocol's promises stop: runs in which a documented promise is not
    met, and what is true instead. Each starts wherever the system has got to. */
module ProtocolLimits {
  import opened Common
  import opened Protocol
  import opened ProtocolInvariant
  import opened ProtocolRuns
  import opened ProtocolTheorems
  import opened CancellationTheorems

  /** Nobody has submitted the job, and its worker does not prune. */
  predicate Unknown(y: System, id: JobId) {
    id !in y.jobs && id !in y.scans
  }

  /** The caller has been told "cancel_requested". */
  function Requested(j: Job): Job {
    j.(record := j.record.(cancelRequested := true), cancellers := map[0 := Answered(SaidRequested)])
  }

  lemma Ask(s: Settings, x: System, y: System, id: JobId, j: Job)
    requires Leads(s, x, Put(y, id, Polling(j))) && Waits(j) && Live(y.now, j)
    ensures Leads(s, x, Put(y, id, Requested(Polling(j))))
  {
    hide Leads, WorkStep;
    var asked := Polling(j).(cancellers := map[0 := SetFlag(false)]);
    Move(s, x, y, id, Polling(j), CancelCall(0, j.config.kind), asked);
    assert asked.cancellers[0 := Answered(SaidRequested)] == map[0 := Answered(SaidRequested)];
    Move(s, x, y, id, asked, CancelCall(0, j.config.kind), Requested(Polling(j)));
  }

  /** A submitted job gets to the poll loop. */
  lemma Submitted(s: Settings, x: System, id: JobId, config: Config) returns (j: Job)
    requires Unknown(x, id) && s.hostDataDir && 0 < s.jobTtl
    ensures Leads(s, x, Put(x, id, Polling(j))) && Waits(j) && Live(x.now, j) && j.config == config && j.dir.Some?
  {
    hide Leads;
    j := JobQueued(config, x.now, x.now, x.now + s.jobTtl);
    Stay(s, x);
    Accept(s, x, x, id, config);
    Start(s, x, x, id, j);
  }

  // --------------------------------------------- a request that comes too late

  /** A caller told "cancel_requested" may still see the build succeed, although
      README.md:247-249 says that it settles to "cancelled": the container returned
      before the next poll. `RequestIsHonouredIffRead` says when it does settle so. */
  lemma RequestCanBeOvertaken(s: Settings, x: System, id: JobId, config: Config)
    requires Unknown(x, id) && s.hostDataDir && 0 < s.jobTtl && config.kind.Build?
    ensures exists z ::
              Leads(s, x, z) && id in z.jobs
              && z.jobs[id].cancellers == map[0 := Answered(SaidRequested)]
              && z.jobs[id].worker == AtExit(false) && z.jobs[id].record.status.Success?
  {
    hide Leads;
    var j := Submitted(s, x, id, config);
    Ask(s, x, x, id, j);
    Finish(s, x, x, id, Requested(Polling(j)), 0);
    Report(s, x, x, id, Requested(Polling(j)), 0);
    var z := Put(x, id, Reported(Requested(Polling(j)), x.now, 0));
    assert z.jobs[id].record.status.Success?;
  }

  // -------------------------------------------------- a kill that raises

  /** Once a call has raised in a job that is `running`, no step of anyone ever moves
      it on: a caller who polls it sees `running` until the record expires. */
  lemma RaisedStaysRunning(s: Settings, y: System, steps: seq<Step>, id: JobId)
    requires Reachable(s, y) && Run(s, y, steps).Some? && id in y.jobs
    requires Raising(y.jobs[id].worker) && y.jobs[id].record.status.Running?
    ensures var z := Run(s, y, steps).value;
            id in z.jobs && z.jobs[id].record.status.Running? && !RunOver(z.jobs[id].worker, false)
  {
    hide SystemInv;
    ReachableInv(s, y);
    RunKeepsFact(s, y, steps, id, Stuck);
  }

  lemma KillRaises(s: Settings, x: System, y: System, id: JobId, j: Job)
    requires Leads(s, x, Put(y, id, j)) && id !in y.scans && Live(y.now, j)
    requires j.worker == AtPoll(0) && j.record.cancelRequested && s.poll < TimeoutOf(s, j)
    ensures Leads(s, x, Put(y, id, j.(worker := AtRemove(Raise))))
  {
    hide Leads, StepBefore, StepAfter, CancelStep, ReadStep, IntakeStep;
    Move(s, x, y, id, j, Work(WaitTimesOut), j.(worker := AtPollRead(s.poll)));
    Move(s, x, y, id, j.(worker := AtPollRead(s.poll)), Work(Fine), j.(worker := AtKill(ByRequest)));
    Move(s, x, y, id, j.(worker := AtKill(ByRequest)), Work(Raises), j.(worker := AtRemove(Raise)));
  }

  /** That can be the end of a request the worker has noticed: the kill raises, for
      one because the container has just exited. The callback then says `running`. */
  lemma NoticedRequestCanRaise(s: Settings, x: System, id: JobId, config: Config)
    requires Unknown(x, id) && s.hostDataDir && 0 < s.jobTtl && s.poll < TimeoutOf(s, NewJob(config))
    ensures exists z ::
              Leads(s, x, z) && id in z.jobs
              && z.jobs[id].cancellers == map[0 := Answered(SaidRequested)]
              && z.jobs[id].worker == AtPrune(true) && z.jobs[id].callbacks == [Some(Running)]
  {
    hide Leads, StepBefore, CancelStep, ReadStep, IntakeStep;
    var j := Submitted(s, x, id, config);
    Ask(s, x, x, id, j);
    KillRaises(s, x, x, id, Requested(Polling(j)));
    var raised := Requested(Polling(j)).(worker := AtRemove(Raise));
    var exiting := raised.(worker := AtExit(true), removeTried := true);
    var end := exiting.(worker := AtPrune(true), callbacks := [Some(Running)]);
    Move(s, x, x, id, raised, Work(Fine), exiting);
    assert exiting.callbacks + [Some(Running)] == [Some(Running)];
    Move(s, x, x, id, exiting, Work(Fine), end);
    assert Put(x, id, end).jobs[id] == end;
  }

  // -------------------------------------- artifacts of jobs without success

  /** A zip is there for download under a record with this status. */
  predicate Offered(y: System, id: JobId, status: Status) {
    id in y.jobs && Live(y.now, y.jobs[id]) && y.jobs[id].record.status == status && !y.jobs[id].zip.NoZip?
  }

  /** `artifact_url` is offered of failed jobs, and of running ones while the zip is
      still being written, although README.md:282-283 says "only on success". */
  lemma FailedAndRunningJobsAreOffered(s: Settings, x: System, id: JobId, config: Config, code: int)
    requires Unknown(x, id) && s.hostDataDir && 0 < s.jobTtl && config.kind.Build? && code != 0
    ensures exists z :: Leads(s, x, z) && Offered(z, id, Failed)
    ensures exists z :: Leads(s, x, z) && Offered(z, id, Running) && z.jobs[id].zip.HalfWritten?
  {
    hide Leads;
    var j := Submitted(s, x, id, config);
    Finish(s, x, x, id, Polling(j), code);
    OpenZip(s, x, x, id, Polling(j), code);
    assert Offered(Put(x, id, Zipping(Polling(j), x.now, code)), id, Running);
    Report(s, x, x, id, Polling(j), code);
    assert Offered(Put(x, id, Reported(Polling(j), x.now, code)), id, Failed);
  }
}
