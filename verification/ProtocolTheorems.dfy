/** What the job protocol guarantees in every reachable state and over every run,
    for any number of jobs, cancel requests, readers and workers. */
module ProtocolTheorems {
  import opened Common
  import opened FileTree
  import opened Packing
  import opened Protocol
  import opened ProtocolInvariant

  // ------------------------------------------------------ safety in every state

  predicate RunOver(w: Worker, raised: bool) {
    w == AtExit(raised) || w == AtPrune(raised) || w == Done(raised)
  }

  /** At most one terminal status is ever written; a worker that returned normally
      has left one; a worker that raised has left `running`, unless what raised was
      the removal of a container it had killed and reported. */
  lemma StatusIsSettled(s: Settings, y: System, id: JobId)
    requires Reachable(s, y) && id in y.jobs
    ensures var j := y.jobs[id];
            && j.terminalWrites == (if j.record.status.Terminal() then 1 else 0)
            && (RunOver(j.worker, false) ==> j.record.status.Terminal())
            && (RunOver(j.worker, true) ==>
                  j.record.status.Running? || (j.record.status.Terminal() && j.container.Killed? && j.removeTried))
  {
    hide Run, At, Always, TimeInv, QueueInv, CancellersOk, ReadersOk;
    ReachableInv(s, y);
    assert JobInv(s, y.now, y.jobs[id]);
    SettledWhenOver(y.jobs[id]);
  }

  lemma SettledWhenOver(j: Job)
    requires At(j) && Always(j)
    ensures j.terminalWrites == (if j.record.status.Terminal() then 1 else 0)
    ensures RunOver(j.worker, false) ==> j.record.status.Terminal()
    ensures RunOver(j.worker, true) ==>
              j.record.status.Running? || (j.record.status.Terminal() && j.container.Killed? && j.removeTried)
  {
    hide Blank, Finishing, FilesMatch, ZipOf, WellFormed, Lists, Subset;
  }

  /** What a status means. A job succeeded exactly if its container exited with 0 and
      its output was packed; an exit code is recorded only of a container that exited
      by itself; a finished job without one never started a container or had it
      killed; and only a clean exit puts files into the cache. */
  lemma StatusMeansItsOutcome(s: Settings, y: System, id: JobId)
    requires Reachable(s, y) && id in y.jobs
    ensures var j := y.jobs[id];
            && (j.record.status.Success? <==> j.record.exitCode == Some(0) && j.packed.Some?)
            && (j.record.exitCode.Some? ==> (j.record.status.Success? || j.record.status.Failed?) && j.container.Exited?)
            && (j.record.status.Terminal() && j.record.exitCode.None? ==> j.starts == 0 || j.container.Killed?)
            && (j.record.status.Cancelled? ==> j.record.exitCode.None? && j.record.cancelRequested)
            && (j.record.cachedFiles.Some? ==> j.record.exitCode == Some(0))
  {
    ReachableInv(s, y);
  }

  /** No container runs under a finished record; a job starts at most one; and by
      the time `_run_sandboxed` is left, one way or the other, its removal has been
      tried. */
  lemma ContainersAreContained(s: Settings, y: System, id: JobId)
    requires Reachable(s, y) && id in y.jobs
    ensures var j := y.jobs[id];
            && (j.record.status.Terminal() ==> !j.container.Up?)
            && j.starts <= 1 && (j.container.Up? ==> j.starts == 1)
            && (RunOver(j.worker, false) || RunOver(j.worker, true) ==> j.starts == 0 || j.removeTried)
  {
    ReachableInv(s, y);
  }

  /** No reader ever gets anything but a whole artifact: never bytes of a zip that is
      still being written, never a listed file that the zip lacks. What is served is
      what `_zip_dir` closed, and a recorded list is exactly that zip's members. */
  lemma ReadersGetWholeArtifacts(s: Settings, y: System, id: JobId, reader: nat)
    requires Reachable(s, y) && id in y.jobs
    ensures var j := y.jobs[id];
            && (j.record.files.Some? ==> j.packed.Some? && Lists(j.record.files.value, j.packed.value))
            && (reader in j.readers && j.readers[reader].Served? ==>
                  var answer := j.readers[reader].answer;
                  && !answer.Garbage? && !answer.NoSuchMember?
                  && (answer.WholeZip? ==> j.packed == Some(answer.members))
                  && (answer.OneFile? ==>
                        && j.readers[reader].want.Some? && j.packed.Some?
                        && j.readers[reader].want.value in j.packed.value
                        && answer.content == j.packed.value[j.readers[reader].want.value]))
  {
    ReachableInv(s, y);
    if reader in y.jobs[id].readers { assert ReaderOk(y.jobs[id], y.jobs[id].readers[reader]); }
  }

  /** A finished generate job whose output was packed lists its files, and the files
      it reports as cached are among them. */
  lemma ReportedListsAgree(s: Settings, y: System, id: JobId)
    requires Reachable(s, y) && id in y.jobs
    ensures var j := y.jobs[id];
            && (j.record.status.Terminal() && j.config.kind.Generate? && j.packed.Some? ==> j.record.files.Some?)
            && (j.record.cachedFiles.Some? ==>
                  j.record.files.Some? && Subset(j.record.cachedFiles.value, j.record.files.value))
  {
    ReachableInv(s, y);
  }

  /** What `_cancel` answered is true and stays true: a 409 means the job had
      finished; "cancelled" means it ended cancelled without a container, and it is
      said to one caller only; "cancel_requested" means the flag is set. */
  lemma CancelAnswersAreTrue(s: Settings, y: System, id: JobId, a: nat, b: nat)
    requires Reachable(s, y) && id in y.jobs && a in y.jobs[id].cancellers && b in y.jobs[id].cancellers
    ensures var j := y.jobs[id];
            && (j.cancellers[a] == Answered(AlreadyFinished) ==> j.record.status.Terminal())
            && (j.cancellers[a] == Answered(SaidRequested) ==> j.record.cancelRequested)
            && (j.cancellers[a] == Answered(SaidCancelled) ==>
                  j.record.status.Cancelled? && j.starts == 0 && j.callbacks == [])
            && (j.cancellers[a] == j.cancellers[b] == Answered(SaidCancelled) ==> a == b)
            && (j.record.status.Cancelled? ==> j.record.cancelRequested)
  {
    ReachableInv(s, y);
    assert CancellerOk(y.jobs[id], a, y.jobs[id].cancellers[a]);
    assert CancellerOk(y.jobs[id], b, y.jobs[id].cancellers[b]);
  }

  /** The callback is sent exactly once for every job a worker has run, raised or
      not; on a normal return it finds the final status, unless the record has
      expired; and a job cancelled off the queue sends none. */
  lemma CallbackIsSentOnce(s: Settings, y: System, id: JobId)
    requires Reachable(s, y) && id in y.jobs
    ensures var j := y.jobs[id];
            && |j.callbacks| == (if j.worker.AtPrune? || j.worker.Done? then 1 else 0)
            && ((j.worker == AtPrune(false) || j.worker == Done(false)) ==>
                  j.callbacks[0] == None || (j.callbacks[0] == Some(j.record.status) && j.record.status.Terminal()))
            && (j.queue.Dequeued? ==> j.callbacks == [])
  {
    hide Run, At, Always, TimeInv, QueueInv, CancellersOk, ReadersOk;
    ReachableInv(s, y);
    assert JobInv(s, y.now, y.jobs[id]);
    OneCallback(y.jobs[id]);
  }

  lemma OneCallback(j: Job)
    requires At(j) && Always(j)
    ensures |j.callbacks| == (if j.worker.AtPrune? || j.worker.Done? then 1 else 0)
    ensures (j.worker == AtPrune(false) || j.worker == Done(false)) ==>
              j.callbacks[0] == None || (j.callbacks[0] == Some(j.record.status) && j.record.status.Terminal())
    ensures j.queue.Dequeued? ==> j.callbacks == []
  {
    hide FilesMatch, ZipOf, WellFormed, Lists, Subset;
  }

  // --------------------------------------------------------- along every step

  /** Statuses only advance, and a finished record keeps its status and its lists. */
  lemma StatusOnlyAdvances(s: Settings, y: System, t: Step, id: JobId)
    requires Reachable(s, y) && Next(s, y, t).Some? && id in y.jobs
    ensures var j, k := y.jobs[id], Next(s, y, t).value.jobs[id];
            && id in Next(s, y, t).value.jobs
            && Advances(j.record.status, k.record.status)
            && (j.record.cancelRequested ==> k.record.cancelRequested)
            && (j.record.status.Terminal() ==>
                  k.record.status == j.record.status && k.record.exitCode == j.record.exitCode &&
                  k.record.files == j.record.files && k.record.cachedFiles == j.record.cachedFiles)
  {
    hide JobStep, At, Always, TimeInv, QueueInv, CancellersOk, ReadersOk;
    ReachableInv(s, y);
    if t.On? && t.id == id { JobStepKeepsInv(s, y.now, y.jobs[id], t.event); }
  }
}
