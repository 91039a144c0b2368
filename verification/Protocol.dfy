/** The life of a job as a protocol (src/api.py, src/build.py, src/jobs.py). API
    handlers and workers share one record per job and coordinate only by writing
    its fields. Every store call, queue call, container call and artifact write is
    one atomic step; steps of any number of jobs, cancel requests, readers and
    workers interleave freely.

    Where the source depends on something outside it, a step carries the outcome:
    a wait times out or returns, a call raises. The assumptions:
    - the queue hands a job to at most one worker, and `Job.cancel()` succeeds only
      on a job that is still in the queue and raises otherwise;
    - a store call succeeds, and no update lands after the record has expired;
    - a worker is not stopped from outside in the middle of a job. */
module Protocol {
  import opened Common
  import opened FileTree
  import opened AssetHarvest
  import opened BuildMounts
  import opened Packing

  // ------------------------------------------------------------------ state

  datatype Settings = Settings(hostDataDir: bool, buildTimeout: int, generateTimeout: int, poll: int, jobTtl: int)

  datatype Config = Config(kind: Kind, hasProject: bool, types: seq<string>)

  datatype Status = Queued | Running | Success | Failed | Cancelled {
    predicate Terminal() { Success? || Failed? || Cancelled? }
  }

  /** The fields of the record that the protocol reads. */
  datatype Record = Record(status: Status, cancelRequested: bool, exitCode: Option<int>,
                           files: Option<seq<string>>, cachedFiles: Option<seq<string>>)

  /** How far `_intake` and the enqueueing have come. */
  datatype Intake = NoDir | DirMade | Unpacked | Rejected | Recorded | Stamped | Enqueued

  datatype Queue = NotQueued | InQueue | Taken | Dequeued(caller: nat)

  datatype Container = Unstarted | Up | Exited | Killed

  /** output.zip in the job's directory. */
  datatype ZipFile = NoZip | HalfWritten | Closed(members: Zip)

  datatype Why = ByRequest | ByTimeout

  /** What follows the `finally` that removes the container. */
  datatype After = Return | Raise | GoOn(code: int)

  /** The worker's next step in `_run_job` / `_run_sandboxed`. */
  datatype Worker =
    | Waiting
    | AtEntry
    | AtMisconfigured
    | AtFlagRead
    | AtPreCancel
    | AtRunningWrite
    | AtPrepare
    | AtStart
    | AtNoImage
    | AtPoll(elapsed: int)
    | AtPollRead(elapsed: int)
    | AtKill(why: Why)
    | AtKillLogs(why: Why)
    | AtKillWrite(why: Why)
    | AtLogs(code: int)
    | AtRemove(after: After)
    | AtOutput(code: int)
    | AtZipOpen(code: int, out: JobDir)
    | AtZipClose(code: int, out: JobDir)
    | AtHarvest(code: int, out: JobDir, files: Option<seq<string>>)
    | AtFinalWrite(code: int, out: JobDir, files: Option<seq<string>>, cached: Option<seq<string>>)
    | AtExit(raised: bool)
    | AtPrune(raised: bool)
    | Done(raised: bool)

  datatype Reply = NotFound | AlreadyFinished | SaidCancelled | SaidRequested

  /** One call of `_cancel`. */
  datatype Canceller = SetFlag(seenQueued: bool) | Dequeue | WriteCancelled | Answered(reply: Reply)

  datatype Answer =
    | Missing404
    | NotFinished409
    | WholeZip(members: Zip)
    | OneFile(content: Bytes)
    | Garbage         // read from a zip that is not closed
    | NoSuchMember    // the zip lacks a listed file
    | ServerError     // the zip is gone between the check for it and its opening

  /** One call of `_artifact` (no file wanted) or `get_generated_file`. */
  datatype Reader =
    | Checking(want: Option<string>, names: seq<string>)
    | Opening(want: Option<string>)
    | Served(want: Option<string>, answer: Answer)

  datatype Job = Job(
    config: Config,
    intake: Intake,
    record: Record,
    expiresAt: Option<int>,       // set once, by Store.create
    dir: Option<int>,             // the job directory's mtime, if it is there
    queue: Queue,
    worker: Worker,
    container: Container,
    zip: ZipFile,
    cancellers: map<nat, Canceller>,
    readers: map<nat, Reader>,
    // what has happened so far
    madeAt: int,                  // when intake made the directory
    unpackedAt: int,              // when intake touched it last
    starts: nat,                  // containers started
    removeTried: bool,            // container.remove(force=True) called
    terminalWrites: nat,          // writes of a terminal status
    packed: Option<Zip>,          // what _zip_dir closed
    callbacks: seq<Option<Status>>, // the status each send_callback found
    returned: Option<int>,        // the code its wait has returned
    output: Option<Forest>,       // the real output directory it left
    harvested: Option<(Cache, set<Path>)>) // the cache its harvest met, and the paths refused

  function NewJob(config: Config): Job {
    Job(config, NoDir, Record(Queued, false, None, None, None), None, None, NotQueued, Waiting, Unstarted, NoZip,
        map[], map[], 0, 0, 0, false, 0, None, [], None, None, None)
  }

  predicate HasRecord(j: Job) {
    j.intake.Recorded? || j.intake.Stamped? || j.intake.Enqueued?
  }

  /** `store.get` finds the record. */
  predicate Live(now: int, j: Job) {
    HasRecord(j) && match j.expiresAt case Some(t) => now < t case None => true
  }

  function TimeoutOf(s: Settings, j: Job): int {
    if j.config.kind.Build? then s.buildTimeout else s.generateTimeout
  }

  // ------------------------------------------------------------------ events

  /** What the world answers to a worker's step. */
  datatype Outcome =
    | Fine
    | Raises
    | ApiError                                  // swallowed around container.remove
    | NoImage
    | WaitReturns(code: int)
    | WaitTimesOut
    | Output(out: JobDir)                       // what is at the output directory
    | Harvesting(cache: Cache, fails: set<Path>)

  datatype Event =
    | MakeDir
    | Unpack(ok: bool)
    | Create
    | Stamp
    | Enqueue
    | Work(outcome: Outcome)
    | ContainerExits
    | CancelCall(id: nat, kind: Kind)
    | ReadCall(reader: nat, readerKind: Kind, want: Option<string>)

  function WriteStatus(j: Job, status: Status): Job {
    j.(record := j.record.(status := status),
       terminalWrites := j.terminalWrites + if status.Terminal() then 1 else 0)
  }

  function Goto(j: Job, w: Worker): Job {
    j.(worker := w)
  }

  /** A store update of the worker: the status, and the step after it. */
  function Update(now: int, j: Job, o: Outcome, status: Status, w: Worker): Option<Job> {
    if o.Fine? && Live(now, j) then Some(Goto(WriteStatus(j, status), w)) else None
  }

  /** Go on if the call succeeded; where an exception leads, if it can raise. */
  function OnFine(o: Outcome, j: Job, w: Worker): Option<Job> {
    if o.Fine? then Some(Goto(j, w)) else None
  }

  function OrRaise(o: Outcome, ok: Job, failed: Job): Option<Job> {
    if o.Fine? then Some(ok) else if o.Raises? then Some(failed) else None
  }

  /** Everything up to the container's start (src/build.py:210-314). */
  function StepBefore(s: Settings, now: int, j: Job, o: Outcome): Option<Job> {
    match j.worker
    case Waiting => if j.queue.InQueue? then OnFine(o, j.(queue := Taken), AtEntry) else None
    case AtEntry => OnFine(o, j, if s.hostDataDir then AtFlagRead else AtMisconfigured)
    case AtMisconfigured => Update(now, j, o, Failed, AtExit(false))
    case AtFlagRead => OnFine(o, j, if Live(now, j) && j.record.cancelRequested then AtPreCancel else AtRunningWrite)
    case AtPreCancel => Update(now, j, o, Cancelled, AtExit(false))
    case AtRunningWrite => Update(now, j, o, Running, AtPrepare)
    case AtPrepare =>
      if o.Fine? && j.dir.None? then None else OrRaise(o, Goto(j, AtStart), Goto(j, AtExit(true)))
    case AtStart =>
      if o.NoImage? then Some(Goto(j, AtNoImage))
      else OrRaise(o, Goto(j.(container := Up, starts := j.starts + 1), AtPoll(0)), Goto(j, AtExit(true)))
    case AtNoImage => Update(now, j, o, Failed, AtExit(false))
    case _ => None
  }

  /** While the container is there (src/build.py:136-146 and 283-320). */
  function StepDuring(s: Settings, now: int, j: Job, o: Outcome): Option<Job> {
    match j.worker
    case AtPoll(elapsed) =>
      (match o
       case WaitReturns(code) => if j.container.Exited? then Some(Goto(j.(returned := Some(code)), AtLogs(code))) else None
       case WaitTimesOut =>
         Some(Goto(j, if elapsed + s.poll >= TimeoutOf(s, j) then AtKill(ByTimeout) else AtPollRead(elapsed + s.poll)))
       case Raises => Some(Goto(j, AtRemove(Raise)))
       case _ => None)
    case AtPollRead(elapsed) =>
      OnFine(o, j, if Live(now, j) && j.record.cancelRequested then AtKill(ByRequest) else AtPoll(elapsed))
    case AtKill(why) => OrRaise(o, Goto(j.(container := Killed), AtKillLogs(why)), Goto(j, AtRemove(Raise)))
    case AtKillLogs(why) => OrRaise(o, Goto(j, AtKillWrite(why)), Goto(j, AtRemove(Raise)))
    case AtKillWrite(why) => Update(now, j, o, if why.ByRequest? then Cancelled else Failed, AtRemove(Return))
    case AtLogs(code) => OrRaise(o, Goto(j, AtRemove(GoOn(code))), Goto(j, AtRemove(Raise)))
    case AtRemove(after) =>
      if o.Raises? then Some(Goto(j.(removeTried := true), AtExit(true)))
      else if o.Fine? || o.ApiError? then Some(Goto(j.(removeTried := true), Following(after)))
      else None
    case _ => None
  }

  function Following(after: After): Worker {
    match after
    case Return => AtExit(false)
    case Raise => AtExit(true)
    case GoOn(code) => AtOutput(code)
  }

  function FilesOf(j: Job, tree: Forest): seq<Found> {
    Packed(tree, j.config.kind.Generate?)
  }

  /** The status and the fields of the single final write (src/build.py:346-366). */
  function Final(record: Record, code: int, out: JobDir, files: Option<seq<string>>, cached: Option<seq<string>>): Record {
    if code != 0 then record.(status := Failed, exitCode := Some(code), files := files, cachedFiles := cached)
    else if !out.RealDir? then record.(status := Failed, exitCode := Some(code))
    else record.(status := Success, exitCode := Some(code), files := files, cachedFiles := cached)
  }

  /** Packing, harvesting and reporting (src/build.py:322-366 and 177-188). */
  function StepAfter(s: Settings, now: int, j: Job, o: Outcome): Option<Job> {
    match j.worker
    case AtOutput(code) =>
      if o.Output? && WellFormed(TreeAt(o.out))
      then Some(Goto(j.(output := if o.out.RealDir? then Some(o.out.tree) else None),
                     if o.out.RealDir? then AtZipOpen(code, o.out) else AtHarvest(code, o.out, None))) else None
    case AtZipOpen(code, out) =>
      if o.Fine? && j.dir.None? then None
      else OrRaise(o, Goto(j.(zip := HalfWritten, dir := Some(now)), AtZipClose(code, out)), Goto(j, AtExit(true)))
    case AtZipClose(code, out) =>
      var found := FilesOf(j, TreeAt(out));
      var closed := j.(zip := if j.dir.Some? then Closed(ZipOf(found)) else NoZip, packed := Some(ZipOf(found)));
      var files := if j.config.kind.Generate? then Some(SortStrings(Names(found))) else None;
      OrRaise(o, Goto(closed, AtHarvest(code, out, files)), Goto(j, AtExit(true)))
    case AtHarvest(code, out, files) =>
      if j.config.hasProject && j.config.kind.Generate? && code == 0 then
        // an exception is caught: the job goes on without a list
        if o.Raises? then Some(Goto(j, AtFinalWrite(code, out, files, None)))
        else if o.Harvesting? && Rooted(o.cache) then
          Some(Goto(j.(harvested := Some((o.cache, o.fails))),
                    AtFinalWrite(code, out, files, CachedFiles(o.cache, out, j.config.types, o.fails))))
        else None
      else OnFine(o, j, AtFinalWrite(code, out, files, None))
    case AtFinalWrite(code, out, files, cached) =>
      if !Live(now, j) then None
      else OnFine(o, j.(record := Final(j.record, code, out, files, cached), terminalWrites := j.terminalWrites + 1),
                  AtExit(false))
    case AtExit(raised) =>
      OnFine(o, j.(callbacks := j.callbacks + [if Live(now, j) then Some(j.record.status) else None]), AtPrune(raised))
    case AtPrune(raised) => OnFine(o, j, Done(raised))
    case _ => None
  }

  function CachedFiles(cache: Cache, out: JobDir, types: seq<string>, fails: set<Path>): Option<seq<string>> {
    var h := Harvested(cache, Offered(TreeAt(out), types), fails);
    if h.raised then None else Some(JoinAll(h.added))
  }

  predicate BeforeContainer(w: Worker) {
    w.Waiting? || w.AtEntry? || w.AtMisconfigured? || w.AtFlagRead? || w.AtPreCancel? || w.AtRunningWrite?
    || w.AtPrepare? || w.AtStart? || w.AtNoImage?
  }

  predicate DuringContainer(w: Worker) {
    w.AtPoll? || w.AtPollRead? || w.AtKill? || w.AtKillLogs? || w.AtKillWrite? || w.AtLogs? || w.AtRemove?
  }

  function WorkStep(s: Settings, now: int, j: Job, o: Outcome): Option<Job> {
    if BeforeContainer(j.worker) then StepBefore(s, now, j, o)
    else if DuringContainer(j.worker) then StepDuring(s, now, j, o)
    else StepAfter(s, now, j, o)
  }

  function IntakeStep(s: Settings, now: int, j: Job, e: Event): Option<Job> {
    match (e, j.intake)
    case (MakeDir, NoDir) => Some(j.(intake := DirMade, dir := Some(now), madeAt := now))
    case (Unpack(true), DirMade) =>
      if j.dir.None? then None else Some(j.(intake := Unpacked, dir := Some(now), unpackedAt := now))
    case (Unpack(false), DirMade) => Some(j.(intake := Rejected, dir := None))
    case (Create, Unpacked) => Some(j.(intake := Recorded))
    case (Stamp, Recorded) => Some(j.(intake := Stamped, expiresAt := Some(now + s.jobTtl)))
    case (Enqueue, Stamped) => Some(j.(intake := Enqueued, queue := InQueue))
    case _ => None
  }

  function SetCanceller(j: Job, id: nat, c: Canceller): Job {
    j.(cancellers := j.cancellers[id := c])
  }

  /** `_cancel` (src/api.py:177-200). An id that is not there yet is a new call. */
  function CancelStep(now: int, j: Job, id: nat, kind: Kind): Option<Job> {
    if id !in j.cancellers then
      Some(SetCanceller(j, id,
                        if !Live(now, j) || j.config.kind != kind then Answered(NotFound)
                        else if j.record.status.Terminal() then Answered(AlreadyFinished)
                        else SetFlag(j.record.status.Queued?)))
    else
      match j.cancellers[id]
      case SetFlag(seenQueued) =>
        if !Live(now, j) then None
        else Some(SetCanceller(j.(record := j.record.(cancelRequested := true)), id,
                               if seenQueued then Dequeue else Answered(SaidRequested)))
      case Dequeue =>
        if j.queue.InQueue? then Some(SetCanceller(j.(queue := Dequeued(id)), id, WriteCancelled))
        else Some(SetCanceller(j, id, Answered(SaidRequested)))
      case WriteCancelled =>
        if !Live(now, j) then None
        else Some(SetCanceller(WriteStatus(j, Cancelled), id, Answered(SaidCancelled)))
      case Answered(_) => None
  }

  function SetReader(j: Job, id: nat, r: Reader): Job {
    j.(readers := j.readers[id := r])
  }

  /** `_artifact` and `get_generated_file` (src/api.py:167-174 and 307-330). */
  function ReadStep(now: int, j: Job, id: nat, kind: Kind, want: Option<string>): Option<Job> {
    if id !in j.readers then
      Some(SetReader(j, id,
                     if !Live(now, j) || j.config.kind != kind || (want.Some? && kind.Build?) then Served(want, Missing404)
                     else if !j.record.status.Terminal() then Served(want, NotFinished409)
                     else Checking(want, match j.record.files case Some(names) => names case None => [])))
    else
      match j.readers[id]
      case Checking(want, names) =>
        Some(SetReader(j, id, if j.zip.NoZip? || (want.Some? && want.value !in names) then Served(want, Missing404)
                              else Opening(want)))
      case Opening(want) =>
        Some(SetReader(j, id, Served(want,
          if j.zip.NoZip? then ServerError
          else if j.zip.HalfWritten? then Garbage
          else
            match want
            case None => WholeZip(j.zip.members)
            case Some(path) => if path in j.zip.members then OneFile(j.zip.members[path]) else NoSuchMember)))
      case Served(_, _) => None
  }

  /** One step of one job; None where the event cannot happen. */
  function JobStep(s: Settings, now: int, j: Job, e: Event): Option<Job> {
    match e
    case Work(outcome) => WorkStep(s, now, j, outcome)
    case ContainerExits => if j.container.Up? then Some(j.(container := Exited)) else None
    case CancelCall(id, kind) => CancelStep(now, j, id, kind)
    case ReadCall(id, kind, want) => ReadStep(now, j, id, kind, want)
    case _ => IntakeStep(s, now, j, e)
  }

  // ---------------------------------------------------------------- the system

  type JobId = string

  /** A call of `_prune_expired_jobs`: the limit it computed first, and the directory
      it has just found older and is about to remove. */
  datatype Scan = Scan(cutoff: int, doomed: Option<JobId>)

  datatype System = System(now: int, jobs: map<JobId, Job>, scans: map<JobId, Scan>)

  datatype Step =
    | Tick(delta: nat)
    | Submit(id: JobId, config: Config)
    | On(id: JobId, event: Event)
    | StartScan(pruner: JobId)
    | Look(pruner: JobId, victim: JobId)       // entry.stat() finds it older than the limit
    | Remove(pruner: JobId)                    // shutil.rmtree

  function Removed(j: Job): Job {
    j.(dir := None, zip := NoZip)
  }

  function Next(s: Settings, y: System, t: Step): Option<System> {
    match t
    case Tick(delta) => Some(y.(now := y.now + delta))
    case Submit(id, config) =>
      if id in y.jobs then None else Some(y.(jobs := y.jobs[id := NewJob(config)]))
    case On(id, event) =>
      // a worker that is about to remove a directory does that first
      if id !in y.jobs || (event.Work? && id in y.scans && y.scans[id].doomed.Some?) then None
      else
        (match JobStep(s, y.now, y.jobs[id], event)
         case None => None
         case Some(j) => Some(y.(jobs := y.jobs[id := j])))
    case StartScan(pruner) =>
      if pruner !in y.jobs || !y.jobs[pruner].worker.AtPrune? || pruner in y.scans then None
      else Some(y.(scans := y.scans[pruner := Scan(y.now - s.jobTtl, None)]))
    case Look(pruner, victim) =>
      if pruner !in y.scans || pruner !in y.jobs || !y.jobs[pruner].worker.AtPrune? || y.scans[pruner].doomed.Some?
         || victim !in y.jobs || victim == pruner
      then None
      else
        (match y.jobs[victim].dir
         case Some(mtime) =>
           if mtime < y.scans[pruner].cutoff
           then Some(y.(scans := y.scans[pruner := y.scans[pruner].(doomed := Some(victim))])) else None
         case None => None)
    case Remove(pruner) =>
      if pruner !in y.scans || y.scans[pruner].doomed.None? || y.scans[pruner].doomed.value !in y.jobs then None
      else
        var victim := y.scans[pruner].doomed.value;
        Some(y.(jobs := y.jobs[victim := Removed(y.jobs[victim])],
                scans := y.scans[pruner := y.scans[pruner].(doomed := None)]))
  }

  function Run(s: Settings, y: System, steps: seq<Step>): Option<System>
    decreases |steps|
  {
    if steps == [] then Some(y)
    else match Next(s, y, steps[0]) case None => None case Some(z) => Run(s, z, steps[1..])
  }

  const NOTHING: System := System(0, map[], map[])

  /** Some run from the empty system leads here. */
  ghost predicate Reachable(s: Settings, y: System) {
    exists steps :: Run(s, NOTHING, steps) == Some(y)
  }
}
