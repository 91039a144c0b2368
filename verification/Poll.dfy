/** `_wait_for_container` (src/build.py:127-146): the container is waited for in
    short slices, and between slices the clock and the cancel flag are looked at.
    The world answers the k-th wait and the k-th reading of the flag. */
module Poll {
  import P = Protocol

  datatype Wait = Returns(code: int) | TimesOut | Fails

  datatype Verdict = Exited(code: int) | TimeUp | Cancelled | Raised

  datatype World = World(wait: nat -> Wait, flag: nat -> bool)

  /** The time that counts as passed after k + 1 waits. */
  function Elapsed(poll: int, k: nat): int {
    (k + 1) * poll
  }

  /** The loop is left after the wait with this number. */
  predicate Decides(w: World, timeout: int, poll: int, k: nat) {
    !w.wait(k).TimesOut? || Elapsed(poll, k) >= timeout || w.flag(k)
  }

  function VerdictAt(w: World, timeout: int, poll: int, k: nat): Verdict {
    match w.wait(k)
    case Returns(code) => Exited(code)
    case Fails => Raised
    case TimesOut => if Elapsed(poll, k) >= timeout then TimeUp else Cancelled
  }

  /** The first deciding wait. */
  predicate IsFirst(w: World, timeout: int, poll: int, k: nat) {
    Decides(w, timeout, poll, k) && forall i: nat :: i < k ==> !Decides(w, timeout, poll, i)
  }

  // ------------------------------------------------------------- the clock

  lemma LaterIsMore(poll: int, i: nat, k: nat)
    requires 0 < poll && i < k
    ensures Elapsed(poll, i) + poll <= Elapsed(poll, k)
  {
  }

  /** The clock alone ends the loop for some number of waits exactly if the interval
      is positive, or already the first wait is long enough. With
      BUILD_POLL_INTERVAL=0 a container that never exits is polled for ever. */
  lemma TimeoutComesIff(timeout: int, poll: int)
    ensures (exists k: nat :: Elapsed(poll, k) >= timeout) <==> 0 < poll || timeout <= poll
  {
    if 0 < poll {
      var k: nat := if timeout < 0 then 0 else timeout;
      assert Elapsed(poll, k) >= k + 1 by { assert (k + 1) * poll >= (k + 1) * 1; }
    } else if timeout <= poll {
      assert Elapsed(poll, 0) >= timeout;
    } else {
      forall k: nat ensures Elapsed(poll, k) < timeout {
        assert k * poll <= 0;
        assert Elapsed(poll, k) == k * poll + poll;
      }
    }
  }

  /** The number of waits that fills the timeout, rounded up. */
  function MaxWaits(timeout: int, poll: int): nat
    requires 0 < poll
  {
    if timeout <= poll then 1 else (timeout + poll - 1) / poll
  }

  lemma MaxWaitsFills(timeout: int, poll: int)
    requires 0 < poll
    ensures MaxWaits(timeout, poll) >= 1
    ensures Elapsed(poll, MaxWaits(timeout, poll) - 1) >= timeout
    ensures 0 < timeout ==> Elapsed(poll, MaxWaits(timeout, poll) - 1) < timeout + poll
  {
  }

  // ------------------------------------------------------------ the loop

  /** The verdict is that of the first deciding wait. The loop ends for every world in
      which some wait decides, and only then; `TimeoutComesIff` says when the clock
      alone sees to that. */
  method WaitForContainer(w: World, timeout: int, poll: int) returns (verdict: Verdict, waits: nat)
    requires exists k: nat :: Decides(w, timeout, poll, k)
    ensures 1 <= waits && IsFirst(w, timeout, poll, waits - 1)
    ensures verdict == VerdictAt(w, timeout, poll, waits - 1)
  {
    ghost var last: nat :| Decides(w, timeout, poll, last);
    var elapsed := 0;
    waits := 0;
    while true
      invariant elapsed == waits * poll
      invariant waits <= last
      invariant forall i: nat :: i < waits ==> !Decides(w, timeout, poll, i)
      decreases last - waits
    {
      var k := waits;
      waits := waits + 1;
      match w.wait(k) {
        case Returns(code) => return Exited(code), waits;
        case Fails => return Raised, waits;
        case TimesOut =>
          elapsed := elapsed + poll;
          assert elapsed == Elapsed(poll, k);
          if elapsed >= timeout { return TimeUp, waits; }
          if w.flag(k) { return Cancelled, waits; }
          assert !Decides(w, timeout, poll, k);
      }
    }
  }

  // ------------------------------------------------- what callers rely on

  /** No more waits than fill the timeout; on a timeout the time passed is at least
      the timeout and less than one interval over. */
  lemma WaitsAreBounded(w: World, timeout: int, poll: int, k: nat)
    requires 0 < poll && IsFirst(w, timeout, poll, k)
    ensures k + 1 <= MaxWaits(timeout, poll)
    ensures VerdictAt(w, timeout, poll, k).TimeUp? && 0 < timeout ==> timeout <= Elapsed(poll, k) < timeout + poll
  {
    MaxWaitsFills(timeout, poll);
    var last := MaxWaits(timeout, poll) - 1;
    assert Decides(w, timeout, poll, last);
    if 0 < k { assert !Decides(w, timeout, poll, k - 1); assert Elapsed(poll, k) == Elapsed(poll, k - 1) + poll; }
  }

  /** A flag that is up by the k-th reading and stays up ends the wait there, if no
      earlier wait has ended it, and the clock has not run out: at a reading where
      both are due the clock wins. */
  lemma FlagIsNoticed(w: World, timeout: int, poll: int, k: nat, first: nat)
    requires 0 < poll && IsFirst(w, timeout, poll, first)
    requires forall i: nat :: i < k ==> w.wait(i).TimesOut? && !w.flag(i)
    requires w.wait(k).TimesOut? && w.flag(k)
    ensures Elapsed(poll, k) < timeout ==> first == k && VerdictAt(w, timeout, poll, first).Cancelled?
    ensures timeout <= Elapsed(poll, k) ==> first <= k && VerdictAt(w, timeout, poll, first).TimeUp?
  {
    forall i: nat | i < k && Elapsed(poll, k) < timeout ensures !Decides(w, timeout, poll, i) {
      LaterIsMore(poll, i, k);
    }
    assert Decides(w, timeout, poll, k);
  }

  /** The queue gives a job its own timeout plus 120 seconds (src/jobs.py:20-21): more
      than the loop lets pass, whatever the timeout, exactly if the interval is at
      most 120 seconds. */
  lemma QueueOutlastsTheLoop(poll: int)
    requires 0 < poll
    ensures poll <= 120 <==>
            forall timeout :: 0 < timeout ==> Elapsed(poll, MaxWaits(timeout, poll) - 1) < timeout + 120
  {
    if poll <= 120 {
      forall timeout | 0 < timeout ensures Elapsed(poll, MaxWaits(timeout, poll) - 1) < timeout + 120 {
        MaxWaitsFills(timeout, poll);
      }
    } else {
      assert Elapsed(poll, MaxWaits(1, poll) - 1) == poll;
    }
  }

  // ------------------------------------------ the same loop in the protocol

  function AsOutcome(wait: Wait): P.Outcome {
    match wait
    case Returns(code) => P.WaitReturns(code)
    case TimesOut => P.WaitTimesOut
    case Fails => P.Raises
  }

  /** Where the protocol's worker goes from a verdict. */
  function After(v: Verdict): P.Worker {
    match v
    case Exited(code) => P.AtLogs(code)
    case TimeUp => P.AtKill(P.ByTimeout)
    case Cancelled => P.AtKill(P.ByRequest)
    case Raised => P.AtRemove(P.Raise)
  }

  /** One turn of the loop is the protocol's one or two steps: the wait, and the
      reading of the flag if the wait timed out in time. */
  lemma TurnIsTheProtocols(s: P.Settings, now: int, j: P.Job, w: World, k: nat)
    requires j.worker == P.AtPoll(k * s.poll) && P.Live(now, j) && (w.wait(k).Returns? ==> j.container.Exited?)
    requires j.record.cancelRequested == w.flag(k)
    ensures var timeout := if j.config.kind.Build? then s.buildTimeout else s.generateTimeout;
            var waited := P.StepDuring(s, now, j, AsOutcome(w.wait(k)));
            && waited.Some?
            && var turned := if waited.value.worker.AtPollRead? then P.StepDuring(s, now, waited.value, P.Fine) else waited;
               turned.Some? &&
               turned.value.worker == if Decides(w, timeout, s.poll, k) then After(VerdictAt(w, timeout, s.poll, k))
                                      else P.AtPoll((k + 1) * s.poll)
  {
  }

  // ------------------------------------------------------ the waits of a run

  /** The waits that are left at most, with so much time passed. */
  function WaitsFrom(timeout: int, poll: int, elapsed: int): (n: nat)
    requires 0 < poll
    ensures 1 <= n
    decreases timeout - elapsed
  {
    if elapsed + poll >= timeout then 1 else 1 + WaitsFrom(timeout, poll, elapsed + poll)
  }

  /** All of them are as many as fill the timeout. */
  lemma {:induction false} WaitsFromFill(timeout: int, poll: int, k: nat)
    requires 0 < poll && k < MaxWaits(timeout, poll)
    ensures k + WaitsFrom(timeout, poll, k * poll) == MaxWaits(timeout, poll)
    decreases MaxWaits(timeout, poll) - k
  {
    var most := MaxWaits(timeout, poll);
    MaxWaitsFills(timeout, poll);
    assert k * poll + poll == (k + 1) * poll == Elapsed(poll, k);
    if k + 1 < most {
      LaterIsMore(poll, k, most - 1);
      WaitsFromFill(timeout, poll, k + 1);
    } else {
      assert Elapsed(poll, k) >= timeout;
    }
  }

  /** The waits a job's worker still makes at most. */
  function WaitsLeft(s: P.Settings, j: P.Job): nat
    requires 0 < s.poll
  {
    match j.worker
    case AtPoll(elapsed) => WaitsFrom(P.TimeoutOf(s, j), s.poll, elapsed)
    case AtPollRead(elapsed) => WaitsFrom(P.TimeoutOf(s, j), s.poll, elapsed)
    case _ => if P.BeforeContainer(j.worker) then MaxWaits(P.TimeoutOf(s, j), s.poll) else 0
  }

  predicate IsWait(y: P.System, t: P.Step, id: P.JobId) {
    t.On? && t.id == id && t.event.Work? && id in y.jobs && y.jobs[id].worker.AtPoll?
  }

  /** Each wait of the job that returns or times out is one of them. */
  lemma WaitsAreCounted(s: P.Settings, y: P.System, t: P.Step, id: P.JobId)
    requires P.Next(s, y, t).Some? && t.On? && t.id == id && t.event.Work?
    requires t.event.outcome.WaitReturns? || t.event.outcome.WaitTimesOut?
    ensures IsWait(y, t, id)
  {
    hide P.StepAfter;
    if !P.BeforeContainer(y.jobs[id].worker) && !P.DuringContainer(y.jobs[id].worker) { AfterNeverWaits(s, y.now, y.jobs[id], t.event.outcome); }
  }

  lemma AfterNeverWaits(s: P.Settings, now: int, j: P.Job, o: P.Outcome)
    requires o.WaitReturns? || o.WaitTimesOut?
    ensures P.StepAfter(s, now, j, o).None?
  {
    hide P.CachedFiles, P.Final, P.FilesOf, P.Live;
  }

  /** How often the job's worker waits for its container along a run. */
  function Waits(s: P.Settings, y: P.System, steps: seq<P.Step>, id: P.JobId): nat
    requires P.Run(s, y, steps).Some?
    decreases |steps|
  {
    if steps == [] then 0
    else (if IsWait(y, steps[0], id) then 1 else 0) + Waits(s, P.Next(s, y, steps[0]).value, steps[1..], id)
  }

  lemma PollUsesAWait(s: P.Settings, now: int, j: P.Job, o: P.Outcome)
    requires 0 < s.poll && P.DuringContainer(j.worker) && P.StepDuring(s, now, j, o).Some?
    ensures var k := P.StepDuring(s, now, j, o).value;
            (if j.worker.AtPoll? then 1 else 0) + WaitsLeft(s, k) <= WaitsLeft(s, j)
  {
  }

  lemma StartHasAllWaits(s: P.Settings, now: int, j: P.Job, o: P.Outcome)
    requires 0 < s.poll && P.BeforeContainer(j.worker) && P.StepBefore(s, now, j, o).Some?
    ensures WaitsLeft(s, P.StepBefore(s, now, j, o).value) <= WaitsLeft(s, j)
  {
    WaitsFromFill(P.TimeoutOf(s, j), s.poll, 0);
    MaxWaitsFills(P.TimeoutOf(s, j), s.poll);
    hide WaitsFrom, MaxWaits;
  }

  /** Packing and reporting never lead back. */
  predicate WaitsOver(w: P.Worker) {
    !P.BeforeContainer(w) && !P.DuringContainer(w)
  }

  lemma PackingNeverWaits(s: P.Settings, now: int, j: P.Job, o: P.Outcome)
    requires (j.worker.AtOutput? || j.worker.AtZipOpen? || j.worker.AtZipClose?) && P.StepAfter(s, now, j, o).Some?
    ensures WaitsOver(P.StepAfter(s, now, j, o).value.worker)
  {
    hide P.FilesOf;
  }

  lemma EndHasNoWaits(s: P.Settings, now: int, j: P.Job, o: P.Outcome)
    requires P.StepAfter(s, now, j, o).Some?
    ensures WaitsOver(P.StepAfter(s, now, j, o).value.worker)
  {
    hide P.CachedFiles, P.Final, P.FilesOf, P.Live;
    if j.worker.AtOutput? || j.worker.AtZipOpen? || j.worker.AtZipClose? { PackingNeverWaits(s, now, j, o); }
  }

  lemma OtherStepKeepsWaits(s: P.Settings, now: int, j: P.Job, e: P.Event)
    requires 0 < s.poll && !e.Work? && P.JobStep(s, now, j, e).Some?
    ensures WaitsLeft(s, P.JobStep(s, now, j, e).value) == WaitsLeft(s, j)
  {
    hide P.WorkStep, WaitsFrom, MaxWaits;
  }

  lemma StepUsesWaits(s: P.Settings, y: P.System, t: P.Step, id: P.JobId)
    requires 0 < s.poll && id in y.jobs && P.Next(s, y, t).Some?
    ensures id in P.Next(s, y, t).value.jobs
    ensures (if IsWait(y, t, id) then 1 else 0) + WaitsLeft(s, P.Next(s, y, t).value.jobs[id]) <= WaitsLeft(s, y.jobs[id])
  {
    hide P.StepBefore, P.StepDuring, P.StepAfter, P.CancelStep, P.ReadStep, P.IntakeStep, WaitsFrom, MaxWaits;
    if t.On? && t.id == id {
      if !t.event.Work? { OtherStepKeepsWaits(s, y.now, y.jobs[id], t.event); }
      else if P.DuringContainer(y.jobs[id].worker) { PollUsesAWait(s, y.now, y.jobs[id], t.event.outcome); }
      else if P.BeforeContainer(y.jobs[id].worker) { StartHasAllWaits(s, y.now, y.jobs[id], t.event.outcome); }
      else { EndHasNoWaits(s, y.now, y.jobs[id], t.event.outcome); }
    }
  }

  lemma {:induction false} RunUsesWaits(s: P.Settings, y: P.System, steps: seq<P.Step>, id: P.JobId)
    requires 0 < s.poll && id in y.jobs && P.Run(s, y, steps).Some?
    ensures Waits(s, y, steps, id) <= WaitsLeft(s, y.jobs[id])
    decreases |steps|
  {
    hide P.Next, WaitsLeft, IsWait;
    if steps != [] {
      StepUsesWaits(s, y, steps[0], id);
      RunUsesWaits(s, P.Next(s, y, steps[0]).value, steps[1..], id);
    }
  }

  /** Over every run of the whole system, whatever everyone else does, a job's worker
      waits for its container no more often than fills the job's timeout. */
  lemma JobWaitsAreBounded(s: P.Settings, y: P.System, steps: seq<P.Step>, id: P.JobId)
    requires 0 < s.poll && id in y.jobs && P.BeforeContainer(y.jobs[id].worker) && P.Run(s, y, steps).Some?
    ensures var timeout := if y.jobs[id].config.kind.Build? then s.buildTimeout else s.generateTimeout;
            Waits(s, y, steps, id) <= MaxWaits(timeout, s.poll)
  {
    hide P.Run, P.Next, WaitsFrom, MaxWaits;
    RunUsesWaits(s, y, steps, id);
  }
}
