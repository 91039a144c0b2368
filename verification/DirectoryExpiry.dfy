/** Job directories and records expire apart (src/build.py:102-120, src/jobs.py:39-43):
    the record when the TTL set at submission runs out, the directory when some
    worker finds it untouched for longer than the TTL and then removes it. When can
    the directory, and an artifact in it, go first? */
module DirectoryExpiry {
  import opened Common
  import opened BuildMounts
  import opened Packing
  import opened Protocol
  import opened ProtocolInvariant
  import opened ProtocolRuns
  import opened ProtocolTheorems

  // ------------------------------------------------ what a scan can find old

  /** Unpacking took no longer than the TTL, and the record's TTL was set no more
      than a tick after intake's last touch of the directory. */
  predicate Prompt(s: Settings, j: Job) {
    && j.unpackedAt <= j.madeAt + s.jobTtl
    && j.expiresAt.Some? && j.expiresAt.value <= j.unpackedAt + s.jobTtl + 1
  }

  /** A scan may have found the directory old. */
  predicate MayGo(s: Settings, now: int, j: Job) {
    match j.intake
    case NoDir => false
    case Rejected => true
    case DirMade => j.madeAt + s.jobTtl < now
    case Unpacked => j.unpackedAt > j.madeAt + s.jobTtl || j.unpackedAt + s.jobTtl < now
    case Recorded => j.unpackedAt > j.madeAt + s.jobTtl || j.unpackedAt + s.jobTtl < now
    case _ => !Prompt(s, j) || j.expiresAt.value <= now
  }

  predicate DirInv(s: Settings, now: int, j: Job) {
    && (j.intake.NoDir? ==> j.dir.None?)
    && (j.dir.None? && !j.intake.NoDir? ==> MayGo(s, now, j))
    && (j.dir.Some? ==> if j.intake.DirMade? then j.dir.value == j.madeAt else j.unpackedAt <= j.dir.value)
  }

  predicate ScanOk(s: Settings, y: System, pruner: JobId, scan: Scan) {
    && pruner in y.jobs && scan.doomed != Some(pruner)
    && scan.cutoff <= y.now - s.jobTtl
    && (scan.doomed.Some? ==> scan.doomed.value in y.jobs && MayGo(s, y.now, y.jobs[scan.doomed.value]))
  }

  ghost predicate DirsInv(s: Settings, y: System) {
    && SystemInv(s, y)
    && (forall id :: id in y.jobs ==> DirInv(s, y.now, y.jobs[id]))
    && (forall p :: p in y.scans ==> ScanOk(s, y, p, y.scans[p]))
  }

  /** A worker leaves its directory alone or touches it now. */
  predicate OnlyTouches(now: int, j: Job, k: Job) {
    && k.intake == j.intake && k.expiresAt == j.expiresAt && k.madeAt == j.madeAt && k.unpackedAt == j.unpackedAt
    && (k.dir == j.dir || (j.queue.Taken? && j.dir.Some? && k.dir == Some(now)))
  }

  lemma BeforeOnlyTouches(s: Settings, now: int, j: Job, o: Outcome)
    requires BeforeContainer(j.worker) && StepBefore(s, now, j, o).Some?
    ensures OnlyTouches(now, j, StepBefore(s, now, j, o).value)
  {
  }

  lemma DuringOnlyTouches(s: Settings, now: int, j: Job, o: Outcome)
    requires DuringContainer(j.worker) && StepDuring(s, now, j, o).Some?
    ensures OnlyTouches(now, j, StepDuring(s, now, j, o).value)
  {
  }

  lemma PackingOnlyTouches(s: Settings, now: int, j: Job, o: Outcome)
    requires j.queue.Taken? && (j.worker.AtOutput? || j.worker.AtZipOpen? || j.worker.AtZipClose?)
    requires StepAfter(s, now, j, o).Some?
    ensures OnlyTouches(now, j, StepAfter(s, now, j, o).value)
  {
    hide Packed, ZipOf, Names, SortStrings;
  }

  lemma AfterOnlyTouches(s: Settings, now: int, j: Job, o: Outcome)
    requires j.queue.Taken? && StepAfter(s, now, j, o).Some?
    ensures OnlyTouches(now, j, StepAfter(s, now, j, o).value)
  {
    hide CachedFiles, Final;
    if j.worker.AtOutput? || j.worker.AtZipOpen? || j.worker.AtZipClose? { PackingOnlyTouches(s, now, j, o); }
  }

  lemma OtherOnlyTouches(s: Settings, now: int, j: Job, e: Event)
    requires (e.CancelCall? || e.ReadCall? || e.ContainerExits?) && JobStep(s, now, j, e).Some?
    ensures OnlyTouches(now, j, JobStep(s, now, j, e).value)
  {
  }

  lemma IntakeKeepsDir(s: Settings, now: int, j: Job, e: Event)
    requires TimeInv(s, now, j) && DirInv(s, now, j) && IntakeStep(s, now, j, e).Some?
    ensures var k := IntakeStep(s, now, j, e).value;
            DirInv(s, now, k) && (MayGo(s, now, j) ==> MayGo(s, now, k))
  {
  }

  lemma TouchKeepsDir(s: Settings, now: int, j: Job, k: Job)
    requires TimeInv(s, now, j) && DirInv(s, now, j) && OnlyTouches(now, j, k)
    ensures DirInv(s, now, k) && (MayGo(s, now, j) ==> MayGo(s, now, k))
  {
  }

  lemma JobStepKeepsDir(s: Settings, now: int, j: Job, e: Event)
    requires Always(j) && TimeInv(s, now, j) && DirInv(s, now, j) && JobStep(s, now, j, e).Some?
    ensures var k := JobStep(s, now, j, e).value;
            DirInv(s, now, k) && (MayGo(s, now, j) ==> MayGo(s, now, k))
  {
    hide StepBefore, StepDuring, StepAfter, CancelStep, ReadStep, IntakeStep, OnlyTouches, TimeInv, DirInv, MayGo;
    match e {
      case Work(o) =>
        if BeforeContainer(j.worker) { BeforeOnlyTouches(s, now, j, o); }
        else if DuringContainer(j.worker) { DuringOnlyTouches(s, now, j, o); }
        else { AfterOnlyTouches(s, now, j, o); }
        TouchKeepsDir(s, now, j, JobStep(s, now, j, e).value);
      case ContainerExits =>
        OtherOnlyTouches(s, now, j, e);
        TouchKeepsDir(s, now, j, JobStep(s, now, j, e).value);
      case CancelCall(_, _) =>
        OtherOnlyTouches(s, now, j, e);
        TouchKeepsDir(s, now, j, JobStep(s, now, j, e).value);
      case ReadCall(_, _, _) =>
        OtherOnlyTouches(s, now, j, e);
        TouchKeepsDir(s, now, j, JobStep(s, now, j, e).value);
      case _ => IntakeKeepsDir(s, now, j, e);
    }
  }

  lemma LaterKeepsDir(s: Settings, now: int, later: int, j: Job)
    requires DirInv(s, now, j) && now <= later
    ensures DirInv(s, later, j) && (MayGo(s, now, j) ==> MayGo(s, later, j))
  {
  }

  /** A directory that is found old may go: its record is gone, or not prompt. */
  lemma FoundOld(s: Settings, now: int, j: Job, cutoff: int)
    requires TimeInv(s, now, j) && DirInv(s, now, j)
    requires j.dir.Some? && j.dir.value < cutoff <= now - s.jobTtl
    ensures MayGo(s, now, j)
  {
  }

  /** The job after a step that is not its own, and what that keeps. */
  lemma NextKeepsDir(s: Settings, y: System, t: Step, id: JobId)
    requires DirsInv(s, y) && Next(s, y, t).Some? && id in y.jobs
    ensures var z := Next(s, y, t).value;
            && id in z.jobs && DirInv(s, z.now, z.jobs[id])
            && (MayGo(s, y.now, y.jobs[id]) ==> MayGo(s, z.now, z.jobs[id]))
  {
    hide JobStep, MayGo, At, Always, TimeInv, CancellersOk, ReadersOk;
    var j := y.jobs[id];
    match t {
      case On(changed, e) => if changed == id { StepKeepsDirOf(s, y, id, e); }
      case Tick(_) => LaterKeepsDir(s, y.now, Next(s, y, t).value.now, j);
      case Remove(pruner) =>
        if y.scans[pruner].doomed == Some(id) { assert ScanOk(s, y, pruner, y.scans[pruner]); RemovedMayGo(s, y.now, j); }
      case _ =>
    }
  }

  lemma StepKeepsDirOf(s: Settings, y: System, id: JobId, e: Event)
    requires DirsInv(s, y) && id in y.jobs && JobStep(s, y.now, y.jobs[id], e).Some?
    ensures var k := JobStep(s, y.now, y.jobs[id], e).value;
            DirInv(s, y.now, k) && (MayGo(s, y.now, y.jobs[id]) ==> MayGo(s, y.now, k))
  {
    hide JobStep, MayGo, DirInv;
    JobStepKeepsDir(s, y.now, y.jobs[id], e);
  }

  lemma RemovedMayGo(s: Settings, now: int, j: Job)
    requires DirInv(s, now, j) && MayGo(s, now, j)
    ensures DirInv(s, now, Removed(j)) && MayGo(s, now, Removed(j))
  {
  }

  lemma NextKeepsDirs(s: Settings, y: System, t: Step)
    requires DirsInv(s, y) && Next(s, y, t).Some?
    ensures DirsInv(s, Next(s, y, t).value)
  {
    hide JobStep, MayGo, DirInv, SystemInv;
    var z := Next(s, y, t).value;
    NextKeepsInv(s, y, t);
    forall id | id in z.jobs ensures DirInv(s, z.now, z.jobs[id]) {
      if id in y.jobs { NextKeepsDir(s, y, t, id); } else { NewHasNoDir(s, z.now, z.jobs[id].config); }
    }
    forall p | p in z.scans ensures ScanOk(s, z, p, z.scans[p]) { NextKeepsScan(s, y, t, p); }
  }

  lemma NewHasNoDir(s: Settings, now: int, config: Config)
    ensures DirInv(s, now, NewJob(config))
  {
  }

  lemma NextKeepsScan(s: Settings, y: System, t: Step, p: JobId)
    requires DirsInv(s, y) && Next(s, y, t).Some? && p in Next(s, y, t).value.scans
    ensures ScanOk(s, Next(s, y, t).value, p, Next(s, y, t).value.scans[p])
  {
    hide JobStep, MayGo, DirInv, At, Always, TimeInv, CancellersOk, ReadersOk;
    var z := Next(s, y, t).value;
    if p in y.scans {
      assert ScanOk(s, y, p, y.scans[p]);
      if y.scans[p].doomed.Some? { NextKeepsDir(s, y, t, y.scans[p].doomed.value); }
    }
    if t.Look? && t.pruner == p { LookedMayGo(s, y, p, t.victim); }
  }

  lemma LookedMayGo(s: Settings, y: System, pruner: JobId, victim: JobId)
    requires DirsInv(s, y) && Next(s, y, Look(pruner, victim)).Some?
    ensures MayGo(s, y.now, y.jobs[victim])
  {
    hide MayGo, DirInv, At, Always, TimeInv, CancellersOk, ReadersOk;
    assert ScanOk(s, y, pruner, y.scans[pruner]);
    FoundOld(s, y.now, y.jobs[victim], y.scans[pruner].cutoff);
  }

  lemma {:induction false} RunKeepsDirs(s: Settings, y: System, steps: seq<Step>)
    requires DirsInv(s, y) && Run(s, y, steps).Some?
    ensures DirsInv(s, Run(s, y, steps).value)
    decreases |steps|
  {
    hide Next, DirsInv;
    if steps != [] {
      NextKeepsDirs(s, y, steps[0]);
      RunKeepsDirs(s, Next(s, y, steps[0]).value, steps[1..]);
    }
  }

  lemma ReachableDirs(s: Settings, y: System)
    requires Reachable(s, y)
    ensures DirsInv(s, y)
  {
    var steps :| Run(s, NOTHING, steps) == Some(y);
    assert DirsInv(s, NOTHING);
    RunKeepsDirs(s, NOTHING, steps);
  }

  // ----------------------------------------------------------- what is safe

  /** A worker that prunes never removes its own job's directory. */
  lemma OwnDirectoryIsSpared(s: Settings, y: System, pruner: JobId)
    requires Reachable(s, y) && Next(s, y, Remove(pruner)).Some?
    ensures pruner in y.jobs && Next(s, y, Remove(pruner)).value.jobs[pruner] == y.jobs[pruner]
  {
    hide SystemInv, DirInv, MayGo;
    ReachableDirs(s, y);
    assert ScanOk(s, y, pruner, y.scans[pruner]);
  }

  /** The directory of a prompt job is there as long as its record. */
  lemma PromptDirectoryStays(s: Settings, y: System, id: JobId)
    requires Reachable(s, y) && id in y.jobs && Live(y.now, y.jobs[id]) && Prompt(s, y.jobs[id])
    ensures y.jobs[id].dir.Some?
  {
    ReachableDirs(s, y);
    assert DirInv(s, y.now, y.jobs[id]);
    assert TimeInv(s, y.now, y.jobs[id]);
  }

  /** What is offered for download, in every reachable state: with its directory, a
      job has exactly what it packed or is just packing, whatever its status; without
      it, nothing. */
  lemma ArtifactIsOfferedIff(s: Settings, y: System, id: JobId)
    requires Reachable(s, y) && id in y.jobs
    ensures var j := y.jobs[id];
            && (j.dir.Some? ==>
                  && (!j.zip.NoZip? <==> j.packed.Some? || j.zip.HalfWritten?)
                  && (j.packed.Some? ==> j.zip == Closed(j.packed.value)))
            && (j.dir.None? ==> j.zip.NoZip?)
            && (j.record.status.Terminal() ==> !j.zip.HalfWritten?)
  {
    hide Run, At, Always, TimeInv, QueueInv, CancellersOk, ReadersOk;
    ReachableInv(s, y);
    assert JobInv(s, y.now, y.jobs[id]);
    OfferedWith(s, y.now, y.jobs[id]);
  }

  lemma OfferedWith(s: Settings, now: int, j: Job)
    requires At(j) && Always(j) && TimeInv(s, now, j)
    ensures j.dir.Some? ==>
              && (!j.zip.NoZip? <==> j.packed.Some? || j.zip.HalfWritten?)
              && (j.packed.Some? ==> j.zip == Closed(j.packed.value))
    ensures j.dir.None? ==> j.zip.NoZip?
    ensures j.record.status.Terminal() ==> !j.zip.HalfWritten?
  {
    hide ZipOf, Lists, Subset, Live;
  }

  /** While the record of a successful prompt job lives, its artifact is there and
      complete, whatever other workers prune: a request made now is answered with it. */
  lemma SuccessServesUntilExpiry(s: Settings, y: System, id: JobId, reader: nat)
    requires Reachable(s, y) && id in y.jobs && reader !in y.jobs[id].readers
    requires Live(y.now, y.jobs[id]) && Prompt(s, y.jobs[id]) && y.jobs[id].record.status.Success?
    ensures var j := y.jobs[id];
            var asked := ReadStep(y.now, j, reader, j.config.kind, None);
            && asked.Some? && j.packed.Some?
            && var found := ReadStep(y.now, asked.value, reader, j.config.kind, None);
               found.Some?
               && var served := ReadStep(y.now, found.value, reader, j.config.kind, None);
                  served.Some? && served.value.readers[reader] == Served(None, WholeZip(j.packed.value))
  {
    hide SystemInv, At;
    PromptDirectoryStays(s, y, id);
    ArtifactIsOfferedIff(s, y, id);
    StatusMeansItsOutcome(s, y, id);
  }

  // ----------------------------------------------------------- what is not

  lemma Wait(s: Settings, x: System, y: System, id: JobId, j: Job, delta: nat)
    requires Leads(s, x, Put(y, id, j))
    ensures Leads(s, x, Put(y.(now := y.now + delta), id, j))
  {
    hide Leads;
    StepLeads(s, x, Put(y, id, j), Tick(delta));
  }

  /** A worker has found the directory old and is about to remove it. */
  function Doomed(s: Settings, y: System, pruner: JobId, victim: JobId): System {
    y.(scans := y.scans[pruner := Scan(y.now - s.jobTtl, Some(victim))])
  }

  lemma FindOld(s: Settings, x: System, y: System, pruner: JobId, victim: JobId, j: Job)
    requires Leads(s, x, Put(y, victim, j)) && pruner != victim
    requires pruner in y.jobs && y.jobs[pruner].worker.AtPrune? && pruner !in y.scans
    requires j.dir.Some? && j.dir.value < y.now - s.jobTtl
    ensures Leads(s, x, Put(Doomed(s, y, pruner, victim), victim, j))
  {
    hide Leads, JobStep;
    var scanning := y.(scans := y.scans[pruner := Scan(y.now - s.jobTtl, None)]);
    StepLeads(s, x, Put(y, victim, j), StartScan(pruner));
    StepLeads(s, x, Put(scanning, victim, j), Look(pruner, victim));
    assert scanning.scans[pruner := Scan(y.now - s.jobTtl, Some(victim))] ==
           y.scans[pruner := Scan(y.now - s.jobTtl, Some(victim))];
  }

  lemma RemoveIt(s: Settings, x: System, y: System, pruner: JobId, victim: JobId, j: Job) returns (z: System)
    requires Leads(s, x, Put(y, victim, j)) && pruner in y.scans && y.scans[pruner].doomed == Some(victim)
    ensures Leads(s, x, z) && z.now == y.now && victim in z.jobs && z.jobs[victim] == Removed(j)
  {
    hide Leads, JobStep;
    StepLeads(s, x, Put(y, victim, j), Remove(pruner));
    z := Next(s, Put(y, victim, j), Remove(pruner)).value;
  }

  /** Some run from here leads to a live record without its directory. */
  ghost predicate CanVanish(s: Settings, y: System, id: JobId) {
    exists z :: Leads(s, y, z) && Vanished(z, id)
  }

  predicate Vanished(z: System, id: JobId) {
    id in z.jobs && Live(z.now, z.jobs[id]) && z.jobs[id].dir.None?
  }

  predicate IsDoomed(y: System, id: JobId) {
    exists p :: p in y.scans && y.scans[p].doomed == Some(id)
  }

  lemma DoomedVanishes(s: Settings, y: System, id: JobId)
    requires id in y.jobs && Live(y.now, y.jobs[id]) && IsDoomed(y, id)
    ensures CanVanish(s, y, id)
  {
    hide Leads;
    var p :| p in y.scans && y.scans[p].doomed == Some(id);
    Stay(s, y);
    assert Put(y, id, y.jobs[id]) == y;
    var z := RemoveIt(s, y, y, p, id, y.jobs[id]);
    assert Vanished(z, id);
  }

  /** The record has no TTL yet, or it outlasts the directory's by more than a tick. */
  predicate AgesFirst(s: Settings, j: Job)
    requires j.dir.Some?
  {
    match j.expiresAt case Some(t) => j.dir.value + s.jobTtl + 1 < t case None => true
  }

  lemma LateStampVanishes(s: Settings, y: System, id: JobId, pruner: JobId)
    requires DirsInv(s, y) && id in y.jobs && Live(y.now, y.jobs[id])
    requires y.jobs[id].dir.Some? && AgesFirst(s, y.jobs[id])
    requires pruner !in y.jobs && 0 < s.jobTtl
    ensures CanVanish(s, y, id)
  {
    hide Leads, JobStep, SystemInv, DirInv;
    var j := y.jobs[id];
    forall p | p in y.scans ensures p in y.jobs { assert ScanOk(s, y, p, y.scans[p]); }
    Stay(s, y);
    var k := AnotherPrunes(s, y, y, pruner, j.config);
    var found := Put(y, pruner, k);
    assert Put(found, id, j) == found;
    var due := j.dir.value + s.jobTtl + 1;
    var delta: nat := if y.now < due then due - y.now else 0;
    Wait(s, y, found, id, j, delta);
    var later := found.(now := y.now + delta);
    FindOld(s, y, later, pruner, id, j);
    var z := RemoveIt(s, y, Doomed(s, later, pruner, id), pruner, id, j);
    assert Vanished(z, id);
  }

  /** No scan is about to remove the directory of the live record, and none will find
      it old before the record is gone. */
  ghost predicate Covered(s: Settings, y: System, id: JobId) {
    id in y.jobs && HasRecord(y.jobs[id]) && y.jobs[id].expiresAt.Some?
    && (Live(y.now, y.jobs[id]) ==>
          && !IsDoomed(y, id) && y.jobs[id].dir.Some?
          && y.jobs[id].expiresAt.value <= y.jobs[id].dir.value + s.jobTtl + 1)
  }

  lemma NextKeepsCovered(s: Settings, y: System, t: Step, id: JobId)
    requires DirsInv(s, y) && Next(s, y, t).Some? && Covered(s, y, id)
    ensures Covered(s, Next(s, y, t).value, id)
  {
    hide JobStep, DirInv, At, Always, TimeInv, CancellersOk, ReadersOk, MayGo;
    var z := Next(s, y, t).value;
    var j := y.jobs[id];
    if t.On? && t.id == id {
      CoveredStep(s, y.now, j, t.event);
      assert forall p :: p in z.scans && z.scans[p].doomed == Some(id) ==> p in y.scans && y.scans[p].doomed == Some(id);
    } else if t.Look? && t.victim == id {
      assert ScanOk(s, y, t.pruner, y.scans[t.pruner]);
      assert !Live(y.now, j);
    } else if t.Remove? && y.scans[t.pruner].doomed == Some(id) {
      assert IsDoomed(y, id);
    } else {
      assert forall p :: p in z.scans && z.scans[p].doomed == Some(id) ==> p in y.scans && y.scans[p].doomed == Some(id);
    }
  }

  /** The job's own steps only make the directory younger. */
  lemma CoveredStep(s: Settings, now: int, j: Job, e: Event)
    requires JobInv(s, now, j) && HasRecord(j) && j.expiresAt.Some? && JobStep(s, now, j, e).Some?
    ensures var k := JobStep(s, now, j, e).value;
            && HasRecord(k) && k.expiresAt == j.expiresAt
            && (j.dir.Some? ==> k.dir.Some? && j.dir.value <= k.dir.value)
  {
    hide StepBefore, StepDuring, StepAfter, CancelStep, ReadStep, At, CancellersOk, ReadersOk;
    match e {
      case Work(o) =>
        if BeforeContainer(j.worker) { BeforeOnlyTouches(s, now, j, o); }
        else if DuringContainer(j.worker) { DuringOnlyTouches(s, now, j, o); }
        else { AfterOnlyTouches(s, now, j, o); }
      case ContainerExits => OtherOnlyTouches(s, now, j, e);
      case CancelCall(_, _) => OtherOnlyTouches(s, now, j, e);
      case ReadCall(_, _, _) => OtherOnlyTouches(s, now, j, e);
      case _ =>
    }
  }

  lemma {:induction false} RunKeepsCovered(s: Settings, y: System, steps: seq<Step>, id: JobId)
    requires DirsInv(s, y) && Run(s, y, steps).Some? && Covered(s, y, id)
    ensures Covered(s, Run(s, y, steps).value, id)
    decreases |steps|
  {
    hide Next, Covered, DirsInv;
    if steps != [] {
      NextKeepsDirs(s, y, steps[0]);
      NextKeepsCovered(s, y, steps[0], id);
      RunKeepsCovered(s, Next(s, y, steps[0]).value, steps[1..], id);
    }
  }

  /** From any reachable state: the directory of a live record can go before the record
      exactly if a worker has already found it old, or the record has no TTL yet, or its
      TTL was set more than a tick after the directory was last touched. `pruner` stands
      for a job still to come, whose worker prunes. */
  lemma DirectoryVanishesIff(s: Settings, y: System, id: JobId, pruner: JobId)
    requires Reachable(s, y) && id in y.jobs && Live(y.now, y.jobs[id])
    requires y.jobs[id].dir.Some? && pruner !in y.jobs && 0 < s.jobTtl
    ensures CanVanish(s, y, id) <==> IsDoomed(y, id) || AgesFirst(s, y.jobs[id])
  {
    hide Next, DirsInv;
    ReachableDirs(s, y);
    if IsDoomed(y, id) {
      DoomedVanishes(s, y, id);
    } else if AgesFirst(s, y.jobs[id]) {
      LateStampVanishes(s, y, id, pruner);
    } else {
      forall z | Leads(s, y, z) ensures !Vanished(z, id) {
        var steps :| Run(s, y, steps) == Some(z);
        RunKeepsCovered(s, y, steps, id);
      }
    }
  }

  /** Creating output.zip makes the directory young again: from then on it can go before the
      record only if a worker has found it old already. */
  lemma PackingRenewsTheDirectory(s: Settings, y: System, id: JobId, pruner: JobId)
    requires Reachable(s, y) && id in y.jobs && y.jobs[id].worker.AtZipOpen? && Live(y.now, y.jobs[id])
    requires Next(s, y, On(id, Work(Fine))).Some? && pruner !in y.jobs && 0 < s.jobTtl
    ensures var z := Next(s, y, On(id, Work(Fine))).value;
            id in z.jobs && (CanVanish(s, z, id) <==> IsDoomed(z, id))
  {
    var z := Next(s, y, On(id, Work(Fine))).value;
    StepReaches(s, y, On(id, Work(Fine)));
    OpenedNow(s, y, id);
    hide Run, Next, CanVanish, IsDoomed, CoreInv, CancellersOk, ReadersOk;
    ReachableInv(s, z);
    assert JobInv(s, z.now, z.jobs[id]);
    YoungAsItsRecord(s, z.now, z.jobs[id]);
    DirectoryVanishesIff(s, z, id, pruner);
  }

  lemma StepReaches(s: Settings, y: System, t: Step)
    requires Reachable(s, y) && Next(s, y, t).Some?
    ensures Reachable(s, Next(s, y, t).value)
  {
    assert Leads(s, NOTHING, y);
    StepLeads(s, NOTHING, y, t);
  }

  lemma OpenedNow(s: Settings, y: System, id: JobId)
    requires id in y.jobs && y.jobs[id].worker.AtZipOpen? && Live(y.now, y.jobs[id])
    requires Next(s, y, On(id, Work(Fine))).Some?
    ensures var z := Next(s, y, On(id, Work(Fine))).value;
            z.jobs.Keys == y.jobs.Keys && z.jobs[id].dir == Some(z.now) && Live(z.now, z.jobs[id]) && z.jobs[id].worker.AtZipClose?
  {
    hide JobStep;
    OpeningTouches(s, y.now, y.jobs[id]);
  }

  lemma YoungAsItsRecord(s: Settings, now: int, j: Job)
    requires CoreInv(s, now, j) && HasRecord(j) && j.worker.AtZipClose? && j.dir == Some(now)
    ensures !AgesFirst(s, j)
  {
    hide At;
    assert j.queue.Taken?;
  }

  lemma OpeningTouches(s: Settings, now: int, j: Job)
    requires j.worker.AtZipOpen? && JobStep(s, now, j, Work(Fine)).Some?
    ensures var k := JobStep(s, now, j, Work(Fine)).value;
            k.dir == Some(now) && k.expiresAt == j.expiresAt && k.intake == j.intake && k.worker.AtZipClose?
  {
    hide StepBefore, StepDuring, Packed, ZipOf, Names, SortStrings;
  }

  // ----------------------------------------------------- when it is lost

  /** The record of a successful job lives, and its artifact is gone. */
  predicate Lost(s: Settings, y: System, id: JobId, made: int, unpacked: int, stamped: int) {
    id in y.jobs && Live(y.now, y.jobs[id]) && y.jobs[id].record.status.Success? && y.jobs[id].zip.NoZip?
    && y.jobs[id].madeAt == made && y.jobs[id].unpackedAt == unpacked
    && y.jobs[id].expiresAt == Some(stamped + s.jobTtl)
  }

  const VICTIM: JobId := "v"
  const PRUNER: JobId := "p"
  const PLAIN: Config := Config(Build, false, [])

  lemma TickIs(s: Settings, y: System, delta: nat)
    ensures Next(s, y, Tick(delta)) == Some(y.(now := y.now + delta))
  {
  }

  /** Every timing of intake is reachable, and for a job that has just been queued the
      condition is one on that timing. */
  lemma EveryTimingIsReachable(s: Settings, made: nat, unpacked: nat, stamped: nat)
    requires 0 < s.jobTtl && made <= unpacked <= stamped
    ensures exists y ::
              Reachable(s, y) && VICTIM in y.jobs && y.now == stamped && Live(y.now, y.jobs[VICTIM])
              && y.jobs[VICTIM] == JobQueued(PLAIN, made, unpacked, stamped + s.jobTtl)
              && (CanVanish(s, y, VICTIM) <==> unpacked + 1 < stamped)
  {
    hide Run, CanVanish, Next;
    Stay(s, NOTHING);
    TickIs(s, NOTHING, made);
    StepLeads(s, NOTHING, NOTHING, Tick(made));
    var x := NOTHING.(now := made);
    MakeIt(s, NOTHING, x, VICTIM, PLAIN);
    Wait(s, NOTHING, x, VICTIM, JobMade(PLAIN, made), unpacked - made);
    UnpackIt(s, NOTHING, x.(now := unpacked), VICTIM, PLAIN, made);
    Wait(s, NOTHING, x.(now := unpacked), VICTIM, JobRecorded(PLAIN, made, unpacked), stamped - unpacked);
    QueueIt(s, NOTHING, x.(now := stamped), VICTIM, PLAIN, made, unpacked);
    var y := Put(x.(now := stamped), VICTIM, JobQueued(PLAIN, made, unpacked, stamped + s.jobTtl));
    assert Reachable(s, y);
    DirectoryVanishesIff(s, y, VICTIM, PRUNER);
  }

  /** The worker succeeds although another has found the directory old before. */
  lemma SucceedAndLose(s: Settings, y: System, j: Job) returns (z: System)
    requires Reachable(s, Put(y, VICTIM, j)) && Waits(j) && j.config.kind.Build? && Live(y.now, j) && s.hostDataDir
    requires PRUNER in y.scans && y.scans[PRUNER].doomed == Some(VICTIM) && VICTIM !in y.scans
    ensures Reachable(s, z) && z.now == y.now && VICTIM in z.jobs
    ensures z.jobs[VICTIM] == Removed(Reported(Polling(j), y.now, 0))
  {
    assert Leads(s, NOTHING, Put(y, VICTIM, j));
    assert forall w :: Leads(s, NOTHING, w) ==> Reachable(s, w);
    hide Leads;
    Start(s, NOTHING, y, VICTIM, j);
    Finish(s, NOTHING, y, VICTIM, Polling(j), 0);
    Report(s, NOTHING, y, VICTIM, Polling(j), 0);
    z := RemoveIt(s, NOTHING, y, PRUNER, VICTIM, Reported(Polling(j), y.now, 0));
  }

  /** A worker that prunes, and a job that starts to be taken in at this time. */
  lemma PrunerAndVictim(s: Settings, made: nat) returns (y: System)
    requires 0 < s.jobTtl
    ensures Leads(s, NOTHING, Put(y, VICTIM, JobMade(PLAIN, made)))
    ensures y.now == made && y.scans == map[] && PRUNER in y.jobs && y.jobs[PRUNER].worker.AtPrune?
  {
    hide Leads;
    Stay(s, NOTHING);
    var k := AnotherPrunes(s, NOTHING, NOTHING, PRUNER, PLAIN);
    Wait(s, NOTHING, NOTHING, PRUNER, k, made);
    y := Put(NOTHING.(now := made), PRUNER, k);
    MakeIt(s, NOTHING, y, VICTIM, PLAIN);
  }

  /** Unpacking takes longer than the TTL: the directory is found old meanwhile. */
  lemma LostWhileUnpacking(s: Settings, made: nat, unpacked: nat, stamped: nat) returns (z: System)
    requires s.hostDataDir && 0 < s.jobTtl && made <= unpacked <= stamped && made + s.jobTtl < unpacked
    ensures Reachable(s, z) && Lost(s, z, VICTIM, made, unpacked, stamped)
  {
    hide Leads, Run;
    var y := PrunerAndVictim(s, made);
    Wait(s, NOTHING, y, VICTIM, JobMade(PLAIN, made), unpacked - made);
    var during := y.(now := unpacked);
    FindOld(s, NOTHING, during, PRUNER, VICTIM, JobMade(PLAIN, made));
    var doomed := Doomed(s, during, PRUNER, VICTIM);
    UnpackIt(s, NOTHING, doomed, VICTIM, PLAIN, made);
    Wait(s, NOTHING, doomed, VICTIM, JobRecorded(PLAIN, made, unpacked), stamped - unpacked);
    var late := doomed.(now := stamped);
    QueueIt(s, NOTHING, late, VICTIM, PLAIN, made, unpacked);
    z := SucceedAndLoseFrom(s, late, JobQueued(PLAIN, made, unpacked, stamped + s.jobTtl));
  }

  /** The TTL is set late: the directory is found old while the job waits. */
  lemma LostWhileWaiting(s: Settings, made: nat, unpacked: nat, stamped: nat) returns (z: System)
    requires s.hostDataDir && 0 < s.jobTtl && made <= unpacked <= stamped && unpacked + 1 < stamped
    ensures Reachable(s, z) && Lost(s, z, VICTIM, made, unpacked, stamped)
  {
    hide Leads, Run;
    var y := PrunerAndVictim(s, made);
    Wait(s, NOTHING, y, VICTIM, JobMade(PLAIN, made), unpacked - made);
    UnpackIt(s, NOTHING, y.(now := unpacked), VICTIM, PLAIN, made);
    Wait(s, NOTHING, y.(now := unpacked), VICTIM, JobRecorded(PLAIN, made, unpacked), stamped - unpacked);
    QueueIt(s, NOTHING, y.(now := stamped), VICTIM, PLAIN, made, unpacked);
    var j := JobQueued(PLAIN, made, unpacked, stamped + s.jobTtl);
    var due := if stamped < unpacked + s.jobTtl + 1 then unpacked + s.jobTtl + 1 else stamped;
    Wait(s, NOTHING, y.(now := stamped), VICTIM, j, due - stamped);
    FindOld(s, NOTHING, y.(now := due), PRUNER, VICTIM, j);
    z := SucceedAndLoseFrom(s, Doomed(s, y.(now := due), PRUNER, VICTIM), j);
  }

  lemma SucceedAndLoseFrom(s: Settings, y: System, j: Job) returns (z: System)
    requires Leads(s, NOTHING, Put(y, VICTIM, j)) && Waits(j) && j.config.kind.Build? && Live(y.now, j) && s.hostDataDir
    requires PRUNER in y.scans && y.scans[PRUNER].doomed == Some(VICTIM) && VICTIM !in y.scans
    ensures Reachable(s, z) && Lost(s, z, VICTIM, j.madeAt, j.unpackedAt, j.expiresAt.value - s.jobTtl)
  {
    hide Run;
    assert Reachable(s, Put(y, VICTIM, j));
    z := SucceedAndLose(s, y, j);
  }

  /** For every timing of intake: an artifact can be lost under the live record of a
      successful job exactly if unpacking took longer than the TTL, or the TTL was set
      more than a tick after intake's last touch of the directory. */
  lemma ArtifactCanBeLostIff(s: Settings, made: nat, unpacked: nat, stamped: nat)
    requires s.hostDataDir && 0 < s.jobTtl && made <= unpacked <= stamped
    ensures (exists y, id :: Reachable(s, y) && Lost(s, y, id, made, unpacked, stamped)) <==>
            made + s.jobTtl < unpacked || unpacked + 1 < stamped
  {
    hide Run, Leads;
    if made + s.jobTtl < unpacked {
      var z := LostWhileUnpacking(s, made, unpacked, stamped);
    } else if unpacked + 1 < stamped {
      var z := LostWhileWaiting(s, made, unpacked, stamped);
    } else {
      forall y, id | Reachable(s, y) && Lost(s, y, id, made, unpacked, stamped) ensures false {
        PromptDirectoryStays(s, y, id);
        ArtifactIsOfferedIff(s, y, id);
        StatusMeansItsOutcome(s, y, id);
      }
    }
  }
}
