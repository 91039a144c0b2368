/** What becomes of a cancel request, over every run of the job protocol. */
module CancellationTheorems {
  import opened Common
  import opened BuildMounts
  import opened Protocol
  import opened ProtocolInvariant
  import opened ProtocolTheorems

  /** The worker is about to read the flag: the pre-run check or a poll. */
  predicate AboutToRead(w: Worker) {
    w.AtFlagRead? || w.AtPollRead?
  }

  predicate KillingByRequest(w: Worker) {
    (w.AtKill? || w.AtKillLogs? || w.AtKillWrite?) && w.why.ByRequest?
  }

  /** The worker has seen the flag and is on its way to `cancelled`, or there. */
  predicate Coming(j: Job) {
    || j.worker.AtPreCancel?
    || KillingByRequest(j.worker)
    || ((j.worker == AtRemove(Return) || RunOver(j.worker, false)) && j.record.status.Cancelled?)
  }

  predicate Raising(w: Worker) {
    w == AtRemove(Raise) || RunOver(w, true)
  }

  // ---------------------------------------------- facts that outlast any step

  datatype Fact =
    | Known                                    // the job was submitted
    | Flagged                                  // the flag is set
    | Ended(record: Record)                    // finished, with these fields
    | NeverStarts                              // flagged before the pre-run check
    | Noticed                                  // flagged at a poll, and read there
    | Raised
    | Stuck                                    // raised, and `running`

  predicate Holds(s: Settings, now: int, j: Job, fact: Fact) {
    match fact
    case Known => true
    case Flagged => j.record.cancelRequested
    case Ended(record) =>
      j.record.status.Terminal() && j.record.(cancelRequested := record.cancelRequested) == record
    case NeverStarts =>
      && s.hostDataDir && j.record.cancelRequested && j.container.Unstarted?
      && (match j.worker
          case Waiting => true
          case AtEntry => true
          case AtFlagRead => true
          case AtPreCancel => true
          case AtRunningWrite => j.expiresAt.Some? && j.expiresAt.value <= now
          case _ => RunOver(j.worker, false) && j.record.status.Cancelled?)
    case Noticed =>
      || (j.worker == AtKill(ByRequest) && j.record.status.Running?)
      || ((j.worker == AtKillLogs(ByRequest) || j.worker == AtKillWrite(ByRequest)) &&
          j.record.status.Running? && j.container.Killed?)
      || (j.worker == AtRemove(Return) && j.record.status.Cancelled? && j.container.Killed?)
      || (j.worker == AtRemove(Raise) && j.record.status.Running?)
      || (RunOver(j.worker, false) && j.record.status.Cancelled? && j.container.Killed?)
      || (RunOver(j.worker, true) && (j.record.status.Running? || j.record.status.Cancelled?))
    case Raised => Raising(j.worker)
    case Stuck => Raising(j.worker) && j.record.status.Running?
  }

  /** After `_run_sandboxed` the record and the container stay as they are. */
  lemma AfterTheRun(s: Settings, now: int, j: Job, o: Outcome, raised: bool)
    requires RunOver(j.worker, raised) && WorkStep(s, now, j, o).Some?
    ensures var k := WorkStep(s, now, j, o).value;
            RunOver(k.worker, raised) && k.record == j.record && k.container == j.container
  {
  }

  lemma NeverStartsIsKept(s: Settings, now: int, j: Job, o: Outcome)
    requires HasRecord(j) && Holds(s, now, j, NeverStarts) && WorkStep(s, now, j, o).Some?
    ensures Holds(s, now, WorkStep(s, now, j, o).value, NeverStarts)
  {
    hide StepDuring, StepAfter;
    if RunOver(j.worker, false) { AfterTheRun(s, now, j, o, false); }
  }

  lemma NoticedIsKeptDuring(s: Settings, now: int, j: Job, o: Outcome)
    requires Holds(s, now, j, Noticed) && DuringContainer(j.worker) && StepDuring(s, now, j, o).Some?
    ensures Holds(s, now, StepDuring(s, now, j, o).value, Noticed)
  {
  }

  lemma NoticedIsKept(s: Settings, now: int, j: Job, o: Outcome)
    requires Holds(s, now, j, Noticed) && WorkStep(s, now, j, o).Some?
    ensures Holds(s, now, WorkStep(s, now, j, o).value, Noticed)
  {
    hide StepBefore, StepDuring, StepAfter;
    if DuringContainer(j.worker) { NoticedIsKeptDuring(s, now, j, o); }
    else { AfterTheRun(s, now, j, o, RunOver(j.worker, true)); }
  }

  lemma RaisedIsKept(s: Settings, now: int, j: Job, o: Outcome)
    requires Holds(s, now, j, Raised) && WorkStep(s, now, j, o).Some?
    ensures Holds(s, now, WorkStep(s, now, j, o).value, Raised)
    ensures WorkStep(s, now, j, o).value.record == j.record
  {
    hide StepBefore, StepAfter;
    if RunOver(j.worker, true) { AfterTheRun(s, now, j, o, true); }
  }

  /** What the steps of others leave alone. */
  predicate SameWorker(j: Job, k: Job) {
    && k.worker == j.worker
    && (k.container == j.container || (j.container.Up? && k.container.Exited?))
    && (k.record.status == j.record.status || j.worker.Waiting?)
  }

  lemma CallerKeepsTheWorker(s: Settings, now: int, j: Job, id: nat, kind: Kind)
    requires Always(j) && CancellersOk(j) && CancelStep(now, j, id, kind).Some?
    ensures SameWorker(j, CancelStep(now, j, id, kind).value)
  {
    if id in j.cancellers { assert CancellerOk(j, id, j.cancellers[id]); }
  }

  lemma OthersKeepTheWorker(s: Settings, now: int, j: Job, e: Event)
    requires JobInv(s, now, j) && !e.Work? && JobStep(s, now, j, e).Some?
    ensures SameWorker(j, JobStep(s, now, j, e).value)
  {
    hide WorkStep, CancelStep, At, Always, TimeInv, QueueInv, CancellerOk, ReadersOk;
    if e.CancelCall? { CallerKeepsTheWorker(s, now, j, e.id, e.kind); }
  }

  lemma OtherStepKeepsFact(s: Settings, now: int, j: Job, e: Event, fact: Fact)
    requires JobInv(s, now, j) && Holds(s, now, j, fact) && !e.Work? && JobStep(s, now, j, e).Some?
    ensures Holds(s, now, JobStep(s, now, j, e).value, fact)
  {
    hide JobStep, CoreInv, ReaderOk, CancellerOk;
    JobStepKeepsInv(s, now, j, e);
    OthersKeepTheWorker(s, now, j, e);
  }

  lemma StepKeepsFact(s: Settings, now: int, j: Job, e: Event, fact: Fact)
    requires JobInv(s, now, j) && Holds(s, now, j, fact) && JobStep(s, now, j, e).Some?
    ensures Holds(s, now, JobStep(s, now, j, e).value, fact)
  {
    hide WorkStep, CancelStep, ReadStep, IntakeStep, At, Always;
    JobStepKeepsInv(s, now, j, e);
    if e.Work? {
      match fact
      case NeverStarts => NeverStartsIsKept(s, now, j, e.outcome);
      case Noticed => NoticedIsKept(s, now, j, e.outcome);
      case Raised => RaisedIsKept(s, now, j, e.outcome);
      case Stuck => RaisedIsKept(s, now, j, e.outcome);
      case _ =>
    } else {
      OtherStepKeepsFact(s, now, j, e, fact);
    }
  }

  lemma ElsewhereKeepsFact(s: Settings, now: int, later: int, j: Job, fact: Fact)
    requires Holds(s, now, j, fact) && now <= later
    ensures Holds(s, later, j, fact) && Holds(s, later, Removed(j), fact)
  {
  }

  lemma NextKeepsFact(s: Settings, y: System, t: Step, id: JobId, fact: Fact)
    requires SystemInv(s, y) && Next(s, y, t).Some?
    requires id in y.jobs && Holds(s, y.now, y.jobs[id], fact)
    ensures var z := Next(s, y, t).value;
            id in z.jobs && Holds(s, z.now, z.jobs[id], fact)
  {
    hide JobStep, Holds;
    if t.On? && t.id == id {
      StepKeepsFact(s, y.now, y.jobs[id], t.event, fact);
    } else {
      ElsewhereKeepsFact(s, y.now, Next(s, y, t).value.now, y.jobs[id], fact);
    }
  }

  lemma {:induction false} RunKeepsFact(s: Settings, y: System, steps: seq<Step>, id: JobId, fact: Fact)
    requires SystemInv(s, y) && Run(s, y, steps).Some?
    requires id in y.jobs && Holds(s, y.now, y.jobs[id], fact)
    ensures var z := Run(s, y, steps).value;
            id in z.jobs && Holds(s, z.now, z.jobs[id], fact)
    decreases |steps|
  {
    hide Next, Holds, SystemInv;
    if steps != [] {
      NextKeepsInv(s, y, steps[0]);
      NextKeepsFact(s, y, steps[0], id, fact);
      RunKeepsFact(s, Next(s, y, steps[0]).value, steps[1..], id, fact);
    }
  }

  // ------------------------------------------------------------ over every run

  /** The flag is never cleared, and what a finished record says is final. */
  lemma FlagAndEndAreForever(s: Settings, y: System, steps: seq<Step>, id: JobId)
    requires Reachable(s, y) && Run(s, y, steps).Some? && id in y.jobs
    ensures var z := Run(s, y, steps).value;
            && id in z.jobs
            && (y.jobs[id].record.cancelRequested ==> z.jobs[id].record.cancelRequested)
            && (y.jobs[id].record.status.Terminal() ==>
                  && z.jobs[id].record.status == y.jobs[id].record.status
                  && z.jobs[id].record.exitCode == y.jobs[id].record.exitCode
                  && z.jobs[id].record.files == y.jobs[id].record.files
                  && z.jobs[id].record.cachedFiles == y.jobs[id].record.cachedFiles)
  {
    ReachableInv(s, y);
    RunKeepsFact(s, y, steps, id, Known);
    if y.jobs[id].record.cancelRequested { RunKeepsFact(s, y, steps, id, Flagged); }
    if y.jobs[id].record.status.Terminal() {
      RunKeepsFact(s, y, steps, id, Ended(y.jobs[id].record));
    }
  }

  /** A request that lands before the pre-run check starts no container, and a worker
      that takes the job ends it cancelled. */
  lemma EarlyCancelStartsNothing(s: Settings, y: System, steps: seq<Step>, id: JobId)
    requires Reachable(s, y) && Run(s, y, steps).Some? && id in y.jobs
    requires s.hostDataDir && y.jobs[id].record.cancelRequested
    requires y.jobs[id].worker.Waiting? || y.jobs[id].worker.AtEntry? || y.jobs[id].worker.AtFlagRead?
    ensures var z := Run(s, y, steps).value;
            && id in z.jobs && z.jobs[id].starts == 0
            && !RunOver(z.jobs[id].worker, true)
            && (RunOver(z.jobs[id].worker, false) ==> z.jobs[id].record.status.Cancelled?)
  {
    hide At, Always, TimeInv, QueueInv, CancellersOk, ReadersOk, Next, Run;
    ReachableInv(s, y);
    assert JobInv(s, y.now, y.jobs[id]);
    StillUnstarted(s, y.now, y.jobs[id]);
    RunKeepsFact(s, y, steps, id, NeverStarts);
    RunKeepsInv(s, y, steps);
    var z := Run(s, y, steps).value;
    assert JobInv(s, z.now, z.jobs[id]);
    NeverStarted(s, z.now, z.jobs[id]);
  }

  lemma StillUnstarted(s: Settings, now: int, j: Job)
    requires At(j) && s.hostDataDir && j.record.cancelRequested
    requires j.worker.Waiting? || j.worker.AtEntry? || j.worker.AtFlagRead?
    ensures Holds(s, now, j, NeverStarts)
  {
  }

  lemma NeverStarted(s: Settings, now: int, j: Job)
    requires Always(j) && Holds(s, now, j, NeverStarts)
    ensures j.starts == 0 && !RunOver(j.worker, true) && (RunOver(j.worker, false) ==> j.record.status.Cancelled?)
  {
  }

  lemma PollReadKills(s: Settings, now: int, j: Job)
    requires At(j) && j.worker.AtPollRead? && j.record.cancelRequested && Live(now, j)
    ensures WorkStep(s, now, j, Fine) == Some(Goto(j, AtKill(ByRequest)))
    ensures Holds(s, now, Goto(j, AtKill(ByRequest)), Noticed)
  {
  }

  lemma PollReadNotices(s: Settings, y: System, id: JobId)
    requires SystemInv(s, y) && id in y.jobs
    requires y.jobs[id].worker.AtPollRead? && y.jobs[id].record.cancelRequested && Live(y.now, y.jobs[id])
    requires Next(s, y, On(id, Work(Fine))).Some?
    ensures var read := Next(s, y, On(id, Work(Fine)));
            id in read.value.jobs && Holds(s, read.value.now, read.value.jobs[id], Noticed)
  {
    hide WorkStep, Holds, Live, Always, TimeInv, CancellerOk, ReaderOk;
    PollReadKills(s, y.now, y.jobs[id]);
  }

  /** A request that lands before a poll's flag read is acted on at that read: the
      job can then only end cancelled with its container killed, or raise. */
  lemma CancelAtPollKills(s: Settings, y: System, steps: seq<Step>, id: JobId)
    requires Reachable(s, y) && id in y.jobs
    requires y.jobs[id].worker.AtPollRead? && y.jobs[id].record.cancelRequested && Live(y.now, y.jobs[id])
    requires Run(s, y, [On(id, Work(Fine))] + steps).Some?
    ensures var z := Run(s, y, [On(id, Work(Fine))] + steps).value;
            && id in z.jobs
            && (RunOver(z.jobs[id].worker, false) ==>
                  z.jobs[id].record.status.Cancelled? && z.jobs[id].container.Killed?)
            && (z.jobs[id].record.status.Running? || z.jobs[id].record.status.Cancelled?)
  {
    hide Next, SystemInv, Live;
    ReachableInv(s, y);
    PollReadNotices(s, y, id);
    NextKeepsInv(s, y, On(id, Work(Fine)));
    assert ([On(id, Work(Fine))] + steps)[1..] == steps;
    var x := Next(s, y, On(id, Work(Fine))).value;
    RunKeepsFact(s, x, steps, id, Noticed);
  }

  predicate ReadsFlagNow(y: System, t: Step, id: JobId) {
    id in y.jobs && AboutToRead(y.jobs[id].worker) && t.On? && t.id == id && t.event.Work?
  }

  /** Somewhere along the run the job's worker reads the flag. */
  ghost predicate ReadsFlag(s: Settings, y: System, steps: seq<Step>, id: JobId)
    decreases |steps|
  {
    steps != [] && Next(s, y, steps[0]).Some? &&
    (ReadsFlagNow(y, steps[0], id) || ReadsFlag(s, Next(s, y, steps[0]).value, steps[1..], id))
  }

  /** A worker's step leads toward `cancelled` where it reads the flag, and neither
      leads there nor away from it anywhere else, unless it raises. */
  predicate Turns(j: Job, k: Job) {
    if AboutToRead(j.worker) then Coming(k) else (Coming(k) <==> Coming(j)) || Raising(k.worker)
  }

  lemma BeforeTurns(s: Settings, now: int, j: Job, o: Outcome)
    requires At(j) && j.record.cancelRequested && Live(now, j)
    requires BeforeContainer(j.worker) && StepBefore(s, now, j, o).Some?
    ensures Turns(j, StepBefore(s, now, j, o).value)
  {
    hide Blank, Finishing, FilesMatch;
  }

  lemma DuringTurns(s: Settings, now: int, j: Job, o: Outcome)
    requires At(j) && j.record.cancelRequested && Live(now, j)
    requires DuringContainer(j.worker) && StepDuring(s, now, j, o).Some?
    ensures Turns(j, StepDuring(s, now, j, o).value)
  {
  }

  lemma AfterTurns(s: Settings, now: int, j: Job, o: Outcome)
    requires At(j) && j.record.cancelRequested && Live(now, j)
    requires !BeforeContainer(j.worker) && !DuringContainer(j.worker) && StepAfter(s, now, j, o).Some?
    ensures Turns(j, StepAfter(s, now, j, o).value)
  {
  }

  lemma WorkTurns(s: Settings, now: int, j: Job, o: Outcome)
    requires At(j) && j.record.cancelRequested && Live(now, j) && WorkStep(s, now, j, o).Some?
    ensures Turns(j, WorkStep(s, now, j, o).value)
  {
    if BeforeContainer(j.worker) { BeforeTurns(s, now, j, o); }
    else if DuringContainer(j.worker) { DuringTurns(s, now, j, o); }
    else { AfterTurns(s, now, j, o); }
  }

  lemma OtherStepComing(s: Settings, now: int, j: Job, e: Event)
    requires JobInv(s, now, j) && JobStep(s, now, j, e).Some? && !e.Work?
    ensures Coming(JobStep(s, now, j, e).value) <==> Coming(j)
  {
    hide JobStep, CoreInv;
    OthersKeepTheWorker(s, now, j, e);
  }

  /** A record that lives now has lived since it was made. */
  lemma LiveBefore(s: Settings, y: System, t: Step, id: JobId)
    requires SystemInv(s, y) && Next(s, y, t).Some? && id in y.jobs && HasRecord(y.jobs[id])
    requires Live(Next(s, y, t).value.now, Next(s, y, t).value.jobs[id])
    ensures Live(y.now, y.jobs[id])
  {
    hide JobStep;
    if t.On? && t.id == id { JobStepKeepsInv(s, y.now, y.jobs[id], t.event); }
  }

  lemma {:induction false} LiveThroughout(s: Settings, y: System, steps: seq<Step>, id: JobId)
    requires SystemInv(s, y) && Run(s, y, steps).Some? && id in y.jobs && y.jobs[id].record.cancelRequested
    ensures id in Run(s, y, steps).value.jobs
    ensures Live(Run(s, y, steps).value.now, Run(s, y, steps).value.jobs[id]) ==> Live(y.now, y.jobs[id])
    decreases |steps|
  {
    if steps != [] {
      var t := steps[0];
      NextKeepsInv(s, y, t);
      NextKeepsFact(s, y, t, id, Flagged);
      LiveThroughout(s, Next(s, y, t).value, steps[1..], id);
      if Live(Next(s, y, t).value.now, Next(s, y, t).value.jobs[id]) { LiveBefore(s, y, t, id); }
    }
  }

  lemma StepTurns(s: Settings, y: System, t: Step, id: JobId)
    requires SystemInv(s, y) && Next(s, y, t).Some? && id in y.jobs
    requires y.jobs[id].record.cancelRequested && Live(y.now, y.jobs[id])
    ensures var j, k := y.jobs[id], Next(s, y, t).value.jobs[id];
            if ReadsFlagNow(y, t, id) then Coming(k) else (Coming(k) <==> Coming(j)) || Raising(k.worker)
  {
    hide WorkStep, CancelStep, ReadStep, IntakeStep;
    if t.On? && t.id == id {
      if t.event.Work? {
        WorkTurns(s, y.now, y.jobs[id], t.event.outcome);
      } else {
        OtherStepComing(s, y.now, y.jobs[id], t.event);
      }
    }
  }

  /** A request is honoured exactly when the worker reads the flag again. For a job
      with the flag set, and a run at whose end its worker has returned normally and
      its record still lives: the job is `cancelled` if and only if the worker had
      seen the flag before, or reads it along the run. */
  lemma {:induction false} CancelledIffRead(s: Settings, y: System, steps: seq<Step>, id: JobId)
    requires SystemInv(s, y) && Run(s, y, steps).Some? && id in y.jobs && y.jobs[id].record.cancelRequested
    requires id in Run(s, y, steps).value.jobs
    requires RunOver(Run(s, y, steps).value.jobs[id].worker, false)
    requires Live(Run(s, y, steps).value.now, Run(s, y, steps).value.jobs[id])
    ensures Run(s, y, steps).value.jobs[id].record.status.Cancelled? <==>
            Coming(y.jobs[id]) || ReadsFlag(s, y, steps, id)
    decreases |steps|
  {
    hide Next, Live, SystemInv;
    if steps != [] {
      var t := steps[0];
      var x := Next(s, y, t).value;
      NextKeepsInv(s, y, t);
      LiveThroughout(s, y, steps, id);
      NextKeepsFact(s, y, t, id, Flagged);
      StepTurns(s, y, t, id);
      if Raising(x.jobs[id].worker) { RunKeepsFact(s, x, steps[1..], id, Raised); }
      CancelledIffRead(s, x, steps[1..], id);
    }
  }

  /** The same from any reachable state. */
  lemma RequestIsHonouredIffRead(s: Settings, y: System, steps: seq<Step>, id: JobId)
    requires Reachable(s, y) && Run(s, y, steps).Some? && id in y.jobs && y.jobs[id].record.cancelRequested
    requires id in Run(s, y, steps).value.jobs
    requires RunOver(Run(s, y, steps).value.jobs[id].worker, false)
    requires Live(Run(s, y, steps).value.now, Run(s, y, steps).value.jobs[id])
    ensures Run(s, y, steps).value.jobs[id].record.status.Cancelled? <==>
            Coming(y.jobs[id]) || ReadsFlag(s, y, steps, id)
  {
    hide SystemInv, Coming, ReadsFlag, Live;
    ReachableInv(s, y);
    CancelledIffRead(s, y, steps, id);
  }

  // ------------------------------------------------------- what a call answers

  /** One call of `_cancel` from its first step to its last, with nothing in between: the
      job after it, and the answer. */
  function Cancelling(now: int, j: Job, id: nat, kind: Kind, steps: nat): Option<(Job, Reply)>
    decreases steps
  {
    if id in j.cancellers && j.cancellers[id].Answered? then Some((j, j.cancellers[id].reply))
    else if steps == 0 then None
    else
      match CancelStep(now, j, id, kind)
      case Some(k) => Cancelling(now, k, id, kind, steps - 1)
      case None => None
  }

  /** Every call on every job. 404 without a live record of the handler's kind, and 409 for
      a finished job, change nothing; else the flag is set, and a job that is still in the
      queue is taken off it and `cancelled`. */
  lemma CancelAnswers(now: int, j: Job, id: nat, kind: Kind)
    requires id !in j.cancellers
    ensures var r := Cancelling(now, j, id, kind, 4);
            && r.Some?
            && r.value.1 == (if !Live(now, j) || j.config.kind != kind then NotFound
                             else if j.record.status in {Success, Failed, Cancelled} then AlreadyFinished
                             else if j.record.status == Queued && j.queue == InQueue then SaidCancelled
                             else SaidRequested)
            && r.value.0.record == (match r.value.1
                                    case SaidCancelled => j.record.(cancelRequested := true, status := Cancelled)
                                    case SaidRequested => j.record.(cancelRequested := true)
                                    case _ => j.record)
            && r.value.0.queue == (if r.value.1 == SaidCancelled then Dequeued(id) else j.queue)
            && r.value.0.container == j.container
  {
    var a := CancelStep(now, j, id, kind).value;
    assert Cancelling(now, j, id, kind, 4) == Cancelling(now, a, id, kind, 3);
    if a.cancellers[id].SetFlag? { FlaggedAnswers(now, a, id, kind, j.record.status.Queued?); }
  }

  lemma FlaggedAnswers(now: int, j: Job, id: nat, kind: Kind, seenQueued: bool)
    requires id in j.cancellers && j.cancellers[id] == SetFlag(seenQueued) && Live(now, j)
    ensures var r := Cancelling(now, j, id, kind, 3);
            var off := seenQueued && j.queue == InQueue;
            && r.Some?
            && r.value.1 == (if off then SaidCancelled else SaidRequested)
            && r.value.0.record == j.record.(cancelRequested := true, status := if off then Cancelled else j.record.status)
            && r.value.0.queue == (if off then Dequeued(id) else j.queue)
            && r.value.0.container == j.container
  {
    var b := CancelStep(now, j, id, kind).value;
    assert Cancelling(now, j, id, kind, 3) == Cancelling(now, b, id, kind, 2);
    if b.cancellers[id].Dequeue? {
      var c := CancelStep(now, b, id, kind).value;
      assert Cancelling(now, b, id, kind, 2) == Cancelling(now, c, id, kind, 1);
      if c.cancellers[id].WriteCancelled? {
        assert Cancelling(now, c, id, kind, 1) == Cancelling(now, CancelStep(now, c, id, kind).value, id, kind, 0);
      }
    }
  }
}
