/** After `stop`, every task is finished within a bounded number of steps. */
module EngineShutdown {
  import opened Options
  import opened EngineModel
  import opened EngineInvariant
  import opened EngineRuns
  import opened EngineTheorems
  import opened EngineFinishes
  import C = Channels
  import R = Reactions

  /** The steps the engine takes by itself, as against calls from outside. */
  predicate Internal(step: Step) {
    step.React? || step.Resume? || step.Start? || step.BeginRun? || step.EndRun? || step.Conclude?
    || step.Finally? || step.Finish? || step.Loop?
  }

  /** How far a process is from being gone, once the engine is stopped. */
  function Distance(pc: Pc): nat {
    match pc
    case Announcing(ops) => 28 + |ops|
    case Announced => 28
    case InQueue => 27
    case Held(_) => 26
    case Beginning(_, ops) => 12 + |ops|
    case InRunner(_) => 12
    case Working(_) => 11
    case Caught(_) => 7
    case Settling(_, ops, _, _) => 4 + |ops|
    case Refusing(ops) => 4 + |ops|
    case Refused => 3
    case Settled(_, _) => 3
    case Bounced => 2
    case Leaving(_, _) => 2
    case Gone(_) => 0
    case Lost => 0
  }

  function Distances(procs: seq<Proc>): nat {
    if procs == [] then 0 else Distances(procs[..|procs| - 1]) + Distance(procs[|procs| - 1].pc)
  }

  function AtWork(workers: seq<Worker>): nat {
    if workers == [] then 0
    else AtWork(workers[..|workers| - 1]) + if workers[|workers| - 1].Exited? then 0 else 1
  }

  function Rank(s: State): nat {
    Distances(s.procs) + AtWork(s.workers)
  }

  lemma {:induction false} DistancesAfter(procs: seq<Proc>, i: nat, pc: Pc)
    requires i < |procs|
    ensures Distances(procs[i := procs[i].(pc := pc)]) == Distances(procs) - Distance(procs[i].pc) + Distance(pc)
  {
    var n := |procs| - 1;
    var changed := procs[i := procs[i].(pc := pc)];
    if i == n {
      assert changed[..n] == procs[..n];
    } else {
      assert changed[..n] == procs[..n][i := procs[..n][i].(pc := pc)];
      DistancesAfter(procs[..n], i, pc);
    }
  }

  lemma {:induction false} AtWorkAfter(workers: seq<Worker>, w: nat, now: Worker)
    requires w < |workers|
    ensures AtWork(workers[w := now]) == AtWork(workers) - (if workers[w].Exited? then 0 else 1) + (if now.Exited? then 0 else 1)
  {
    var n := |workers| - 1;
    var changed := workers[w := now];
    if w == n {
      assert changed[..n] == workers[..n];
    } else {
      assert changed[..n] == workers[..n][w := now];
      AtWorkAfter(workers[..n], w, now);
    }
  }

  /** What one internal step after `stop` comes down to. */
  ghost predicate StepsCloser(s: State, s': State, i: nat) {
    && OnlyMoved(s, s', i)
    && Distance(s'.procs[i].pc) < Distance(s.procs[i].pc)
    && s'.stopped
    && (s'.workers == s.workers || exists w: nat :: StaysAtWork(s, s', w))
  }

  /** One worker changed what it does, without leaving. */
  ghost predicate StaysAtWork(s: State, s': State, w: nat) {
    && w < |s.workers| && |s'.workers| == |s.workers|
    && s'.workers == s.workers[w := s'.workers[w]]
    && !s.workers[w].Exited?
  }

  lemma CloserLowersRank(s: State, s': State, i: nat)
    requires StepsCloser(s, s', i)
    ensures Rank(s') < Rank(s)
  {
    DistancesAfter(s.procs, i, s'.procs[i].pc);
    if s'.workers != s.workers {
      var w: nat :| StaysAtWork(s, s', w);
      AtWorkAfter(s.workers, w, s'.workers[w]);
    }
  }

  lemma ReactStepsCloser(s: State, i: nat, ok: bool)
    requires Local(s, i) && s.stopped && Enabled(s, React(i, ok))
    ensures StepsCloser(s, ReactNext(s, i, ok), i)
  {
  }

  lemma ProcStepsCloser(s: State, step: Step)
    requires step.Start? || step.EndRun? || step.Finally?
    requires Local(s, step.proc) && s.stopped && Enabled(s, step)
    ensures StepsCloser(s, Next(s, step), step.proc)
  {
  }

  lemma ConcludeStepsCloser(s: State, i: nat, to: R.Reaction)
    requires Local(s, i) && s.stopped && Enabled(s, Conclude(i, to))
    ensures StepsCloser(s, ConcludeNext(s, i, to), i)
  {
    ConcludeIs(s, i, to);
    assert ConcludeNext(s, i, to).workers == s.workers;
  }

  lemma ResumeStepsCloser(s: State, i: nat)
    requires Local(s, i) && s.stopped && s.chan.closed && Enabled(s, Resume(i))
    ensures StepsCloser(s, Next(s, Resume(i)), i)
  {
  }

  lemma FinishStepsCloser(s: State, i: nat)
    requires Workers(s) && s.stopped && Enabled(s, Finish(i))
    ensures StepsCloser(s, Next(s, Finish(i)), i)
  {
    var s' := FinishNext(s, i);
    if s.procs[i].pc.Bounced? {
      BouncedShape(s, i);
    } else {
      LeavingShape(s, i);
      var w := s.procs[i].pc.worker;
      assert s'.workers == s.workers[w := Looping];
      assert StaysAtWork(s, s', w);
    }
  }

  lemma TakingLowersRank(s: State, s': State, w: nat, i: nat)
    requires Takes(s, s', w, i) && s.procs[i].pc.InQueue? && s.workers[w].Looping?
    ensures Rank(s') < Rank(s)
  {
    DistancesAfter(s.procs, i, Held(w));
    AtWorkAfter(s.workers, w, Busy(i));
  }

  lemma RestingLowersRank(s: State, s': State, w: nat)
    requires w < |s.workers| && s.workers[w].Looping? && s.stopped && Rests(s, s', w)
    ensures Rank(s') < Rank(s)
  {
    AtWorkAfter(s.workers, w, Exited);
  }

  lemma LoopLowersRank(s: State, w: nat)
    requires Queue(s) && s.stopped && Enabled(s, Loop(w))
    ensures Rank(Next(s, Loop(w))) < Rank(s) && Next(s, Loop(w)).stopped
  {
    if s.chan.buffer != [] {
      LoopTakes(s, w);
      TakingLowersRank(s, Next(s, Loop(w)), w, s.chan.buffer[0]);
    } else {
      LoopRests(s, w);
      RestingLowersRank(s, Next(s, Loop(w)), w);
    }
  }

  /** Each step the engine takes after `stop` brings it nearer to the end. */
  lemma StepLowersRank(s: State, step: Step)
    requires Inv(s) && s.stopped && Enabled(s, step) && Internal(step)
    ensures Rank(Next(s, step)) < Rank(s) && Next(s, step).stopped
  {
    if step.Loop? {
      LoopLowersRank(s, step.worker);
    } else if step.BeginRun? {
      NoRunBeginsAfterStop(s, step.proc);
    } else {
      var i := step.proc;
      InvIsLocal(s, i);
      if step.Finish? {
        FinishStepsCloser(s, i);
      } else if step.Resume? {
        ResumeStepsCloser(s, i);
      } else if step.Conclude? {
        ConcludeStepsCloser(s, i, step.to);
      } else if step.React? {
        ReactStepsCloser(s, i, step.ok);
      } else {
        ProcStepsCloser(s, step);
      }
      CloserLowersRank(s, Next(s, step), i);
    }
  }

  /** After `stop`, calls from outside start nothing: at most the store forgets old entries. */
  lemma CallsAfterStopStartNothing(s: State, step: Step)
    requires Inv(s) && s.stopped && Enabled(s, step) && !Internal(step)
    ensures Next(s, step) == s.(handled := Next(s, step).handled)
  {
    if step.Stop? {
      StopSeats(s);
      assert StopNext(s).workers == s.workers;
      assert s.aborted + s.controllers == s.aborted;
    }
  }

  function InternalSteps(steps: seq<Step>): nat {
    if steps == [] then 0 else (if Internal(steps[0]) then 1 else 0) + InternalSteps(steps[1..])
  }

  /** However the steps interleave, at most Rank(s) of them are the engine's own. */
  lemma {:induction false} DrainsWithin(s: State, steps: seq<Step>)
    requires Inv(s) && s.stopped && ValidRun(s, steps)
    ensures Run(s, steps).stopped
    ensures InternalSteps(steps) + Rank(Run(s, steps)) <= Rank(s)
    decreases |steps|
  {
    if steps != [] {
      StepKeeps(s, steps[0]);
      if Internal(steps[0]) {
        StepLowersRank(s, steps[0]);
      } else {
        CallsAfterStopStartNothing(s, steps[0]);
      }
      DrainsWithin(Next(s, steps[0]), steps[1..]);
    }
  }

  /** A step that a process can take by itself. */
  function OwnStep(p: Proc, i: nat): Step {
    if InMove(p.pc) then React(i, true)
    else if p.pc.Announced? || p.pc.Refused? then Resume(i)
    else if p.pc.Held? then Start(i)
    else if p.pc.InRunner? then EndRun(i)
    else if p.pc.Bounced? || p.pc.Leaving? then Finish(i)
    else if (p.pc.Working? && p.task.Review?) || p.pc.Caught? then Conclude(i, R.Failure)
    else Finally(i)
  }

  /** A process that is neither over nor queued can take it. */
  lemma ProcessCanGoOn(s: State, i: nat)
    requires i < |s.procs| && WellPlaced(s.procs[i]) && !Over(s.procs[i].pc) && !s.procs[i].pc.InQueue?
    ensures Internal(OwnStep(s.procs[i], i)) && Enabled(s, OwnStep(s.procs[i], i))
  {
  }

  /** As long as a process is not over or a worker has not left, the engine has a step to take. */
  lemma NotDoneCanGoOn(s: State) returns (step: Step)
    requires Inv(s) && s.stopped && |s.workers| > 0
    requires (exists i :: 0 <= i < |s.procs| && !Over(s.procs[i].pc)) || exists w :: 0 <= w < |s.workers| && !s.workers[w].Exited?
    ensures Internal(step) && Enabled(s, step)
  {
    if w :| 0 <= w < |s.workers| && !s.workers[w].Exited? {
      assert !s.workers[w].Parked?;
      if s.workers[w].Busy? {
        ProcessCanGoOn(s, s.workers[w].proc);
        step := OwnStep(s.procs[s.workers[w].proc], s.workers[w].proc);
      } else {
        step := Loop(w);
      }
    } else {
      assert s.workers[0].Exited?;
      var i :| 0 <= i < |s.procs| && !Over(s.procs[i].pc);
      ProcessCanGoOn(s, i);
      step := OwnStep(s.procs[i], i);
    }
  }

  lemma {:induction false} AllOverOwesNothing(procs: seq<Proc>)
    requires forall i :: 0 <= i < |procs| ==> Over(procs[i].pc)
    ensures CountOwed(procs) == 0
  {
    if procs != [] {
      AllOverOwesNothing(procs[..|procs| - 1]);
    }
  }

  /**
   * `stop` drains: a run that cannot go on after it owes nothing; every process
   * is over, and all workers have left. With DrainsWithin, every run gets there.
   */
  lemma StopDrains(s: State, steps: seq<Step>)
    requires Inv(s) && s.stopped && |s.workers| > 0 && ValidRun(s, steps)
    requires forall step :: Internal(step) ==> !Enabled(Run(s, steps), step)
    ensures Run(s, steps).outstanding == 0
    ensures forall i :: 0 <= i < |Run(s, steps).procs| ==> Over(Run(s, steps).procs[i].pc)
    ensures forall w :: 0 <= w < |Run(s, steps).workers| ==> Run(s, steps).workers[w].Exited?
  {
    var end := Run(s, steps);
    RunKeeps(s, steps);
    DrainsWithin(s, steps);
    WorkersStay(s, steps);
    if (exists i :: 0 <= i < |end.procs| && !Over(end.procs[i].pc)) || exists w :: 0 <= w < |end.workers| && !end.workers[w].Exited? {
      var step := NotDoneCanGoOn(end);
    }
    AllOverOwesNothing(end.procs);
  }

  /** And so every task that a whole run submitted, before `stop` or after, has finished exactly once when it is drained. */
  lemma EveryTaskFinishes(ids: R.Ids, concurrency: nat, handled: map<MsgId, Status>, shown: map<MsgId, set<string>>,
                          steps: seq<Step>, i: nat)
    requires concurrency > 0 && ValidRun(Fresh(ids, concurrency, handled, shown), steps)
    requires Run(Fresh(ids, concurrency, handled, shown), steps).stopped
    requires forall step :: Internal(step) ==> !Enabled(Run(Fresh(ids, concurrency, handled, shown), steps), step)
    ensures var start := Fresh(ids, concurrency, handled, shown);
      && Finishes(steps, i) == Submissions(start, steps, i)
      && AllFinishes(steps) == AllSubmissions(start, steps)
      && (forall j :: 0 <= j < |Run(start, steps).procs| ==> Over(Run(start, steps).procs[j].pc))
  {
    var start := Fresh(ids, concurrency, handled, shown);
    var end := Run(start, steps);
    FreshInv(ids, concurrency, handled, shown);
    RunKeeps(start, steps);
    WorkersStay(start, steps);
    StopDrains(end, []);
    FinishesOnce(ids, concurrency, handled, shown, steps, i);
    RunCounts(start, steps, i);
  }
}
