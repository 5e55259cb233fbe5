/** How often each task is submitted and finishes, over whole runs of the engine. */
module EngineFinishes {
  import opened Options
  import opened EngineModel
  import opened EngineInvariant
  import opened EngineRuns
  import opened EngineTheorems
  import C = Channels
  import R = Reactions

  /** The call of `submit` in a step: by a handler that has announced its job, or by `enqueueRepo`. */
  function SubmittedBy(s: State, step: Step): Option<nat> {
    if step.Resume? && step.proc < |s.procs| && s.procs[step.proc].pc.Announced? then Some(step.proc)
    else if step.EnqueueRepo? && EnqueueAccepts(s, step.key) then Some(|s.procs|)
    else None
  }

  function One(b: bool): nat {
    if b then 1 else 0
  }

  /** How often a run submits the process. */
  function Submissions(s: State, steps: seq<Step>, i: nat): nat
    requires ValidRun(s, steps)
    decreases |steps|
  {
    if steps == [] then 0
    else One(SubmittedBy(s, steps[0]) == Some(i)) + Submissions(Next(s, steps[0]), steps[1..], i)
  }

  /** How often it calls the `finish` of the process. */
  function Finishes(steps: seq<Step>, i: nat): nat {
    if steps == [] then 0 else One(steps[0] == Finish(i)) + Finishes(steps[1..], i)
  }

  function AllSubmissions(s: State, steps: seq<Step>): nat
    requires ValidRun(s, steps)
    decreases |steps|
  {
    if steps == [] then 0 else One(SubmittedBy(s, steps[0]).Some?) + AllSubmissions(Next(s, steps[0]), steps[1..])
  }

  function AllFinishes(steps: seq<Step>): nat {
    if steps == [] then 0 else One(steps[0].Finish?) + AllFinishes(steps[1..])
  }

  // ----- Where a process stands says how often it was submitted and has finished -----

  predicate Sent(s: State, i: nat) {
    i < |s.procs| && !s.procs[i].task.Refusal? && (Owed(s.procs[i].pc) || s.procs[i].pc.Gone?)
  }

  predicate Ended(s: State, i: nat) {
    i < |s.procs| && !s.procs[i].task.Refusal? && s.procs[i].pc.Gone?
  }

  /** A step of process j: it counts for that process alone. */
  ghost predicate Counts(s: State, s': State, step: Step, j: nat)
    requires OnlyMoved(s, s', j)
  {
    && (SubmittedBy(s, step).Some? ==> SubmittedBy(s, step) == Some(j)) && (step.Finish? ==> step.proc == j)
    && One(Sent(s', j)) == One(Sent(s, j)) + One(SubmittedBy(s, step).Some?)
    && One(Ended(s', j)) == One(Ended(s, j)) + One(step.Finish?)
  }

  lemma CountsForOne(s: State, s': State, step: Step, j: nat, i: nat)
    requires OnlyMoved(s, s', j) && Counts(s, s', step, j)
    ensures One(Sent(s', i)) == One(Sent(s, i)) + One(SubmittedBy(s, step) == Some(i))
    ensures One(Ended(s', i)) == One(Ended(s, i)) + One(step == Finish(i))
  {
    if i != j && i < |s.procs| {
      assert s'.procs[i] == s.procs[i];
    }
  }

  lemma ReactStaysThere(s: State, i: nat, ok: bool)
    requires CanReact(s, i)
    ensures !s.procs[i].pc.Gone? && !ReactNext(s, i, ok).procs[i].pc.Gone?
  {
  }

  lemma StartStaysThere(s: State, i: nat)
    requires Enabled(s, Start(i))
    ensures !StartNext(s, i).procs[i].pc.Gone?
  {
  }

  lemma ConcludeStaysThere(s: State, i: nat, to: R.Reaction)
    requires CanConclude(s, i, to)
    ensures !ConcludeNext(s, i, to).procs[i].pc.Gone?
  {
  }

  lemma LocalStaysThere(s: State, step: Step)
    requires Enabled(s, step) && IsLocal(step)
    ensures var s' := Next(s, step);
      s'.outstanding == s.outstanding && step.proc < |s'.procs|
      && !s.procs[step.proc].pc.Gone? && !s'.procs[step.proc].pc.Gone?
  {
    if step.React? {
      ReactStaysThere(s, step.proc, step.ok);
    } else if step.Start? {
      StartStaysThere(s, step.proc);
    } else if step.Conclude? {
      ConcludeStaysThere(s, step.proc, step.to);
    } else if step.Finally? {
      assert FinallyNext(s, step.proc).procs[step.proc].pc.Leaving?;
    }
  }

  lemma LocalCounts(s: State, step: Step)
    requires Enabled(s, step) && IsLocal(step) && Local(s, step.proc)
    ensures OnlyMoved(s, Next(s, step), step.proc) && Counts(s, Next(s, step), step, step.proc)
  {
    StepIsLocal(s, step);
    LocalStaysThere(s, step);
    LocalCountsNothing(s, Next(s, step), step);
  }

  lemma LocalCountsNothing(s: State, s': State, step: Step)
    requires IsLocal(step) && Carries(s, s', step.proc) && s'.outstanding == s.outstanding
    requires !s.procs[step.proc].pc.Gone? && !s'.procs[step.proc].pc.Gone?
    ensures Counts(s, s', step, step.proc)
  {
  }

  lemma SubmitSends(s: State, i: nat)
    requires Workers(s) && i < |s.procs| && s.procs[i].pc.Announced?
    ensures var s' := Submit(s, i); Owed(s'.procs[i].pc) && OnlyMoved(s, s', i)
  {
    assert s.chan.receivers != [] ==> s.chan.receivers[0] < |s.workers|;
  }

  lemma RefusalEnds(s: State, i: nat)
    requires Enabled(s, Resume(i)) && s.procs[i].pc.Refused?
    ensures var s' := ResumeNext(s, i); s'.procs == s.procs[i := s.procs[i].(pc := Gone(false))] && s.procs[i].task.Refusal?
  {
  }

  lemma ResumeCounts(s: State, j: nat)
    requires Workers(s) && Shapes(s) && Enabled(s, Resume(j))
    ensures OnlyMoved(s, ResumeNext(s, j), j) && Counts(s, ResumeNext(s, j), Resume(j), j)
  {
    if s.procs[j].pc.Announced? {
      SubmitSends(s, j);
    } else {
      RefusalEnds(s, j);
    }
  }

  lemma FinishCounts(s: State, j: nat)
    requires Enabled(s, Finish(j)) && Local(s, j)
    ensures OnlyMoved(s, FinishNext(s, j), j) && Counts(s, FinishNext(s, j), Finish(j), j)
  {
    if s.procs[j].pc.Leaving? {
      LeavingShape(s, j);
    } else {
      BouncedShape(s, j);
    }
  }

  lemma TakesCounts(s: State, w: nat)
    requires Queue(s) && Enabled(s, Loop(w)) && s.chan.buffer != []
    ensures var s', j := LoopNext(s, w), s.chan.buffer[0];
      OnlyMoved(s, s', j) && Counts(s, s', Loop(w), j)
  {
    LoopTakes(s, w);
  }

  /** The steps that change no process, but may add one. */
  ghost predicate Adds(s: State, s': State, step: Step) {
    && s.procs <= s'.procs && !step.Finish? && !step.Resume?
    && (forall i :: |s.procs| <= i < |s'.procs| ==> (Sent(s', i) <==> SubmittedBy(s, step) == Some(i)) && !Ended(s', i))
    && (SubmittedBy(s, step).Some? ==> |s.procs| <= SubmittedBy(s, step).value < |s'.procs|)
  }

  lemma AddsForOne(s: State, s': State, step: Step, i: nat)
    requires Adds(s, s', step)
    ensures One(Sent(s', i)) == One(Sent(s, i)) + One(SubmittedBy(s, step) == Some(i))
    ensures One(Ended(s', i)) == One(Ended(s, i)) + One(step == Finish(i))
  {
    if i < |s.procs| {
      assert s'.procs[i] == s.procs[i];
    }
  }

  lemma TakenUpAdds(s: State, s': State, task: Task, p: Proc, step: Step)
    requires Handles(step) && !task.Repo? && TakenUp(s, s', task, p) && !Owed(p.pc) && !p.pc.Gone?
    ensures Adds(s, s', step)
  {
  }

  lemma HandleAdds(s: State, step: Step)
    requires Handles(step)
    ensures Adds(s, Next(s, step), step)
  {
    if !s.stopped && step.msg !in s.handled {
      if step.HandleReply? || (step.HandleJob? && step.key in s.inFlight) {
        assert Next(s, step) == TakeUp(s, step.msg, Done);
      } else if step.HandleError? || |s.inFlight| >= MAX_QUEUED {
        RefusingIs(s, step.msg);
        NewProcShape(s, Refusal(step.msg), Refusing([]));
        TakenUpAdds(s, RefuseMessage(s, step.msg), Refusal(step.msg), NewProc(s, Refusal(step.msg), Refusing([])), step);
      } else {
        AdmittingIs(s, step.msg, step.key);
        NewProcShape(s, Review(step.msg, step.key), Announcing([]));
        TakenUpAdds(s, HandleJobNext(s, step.msg, step.key), Review(step.msg, step.key),
                    NewProc(s, Review(step.msg, step.key), Announcing([])), step);
      }
    }
  }

  lemma SpawnedSends(s: State, key: Key)
    requires Workers(s) && EnqueueAccepts(s, key)
    ensures var s', n := EnqueueRepoNext(s, key), |s.procs|;
      |s'.procs| == n + 1 && s'.procs[n].task == Repo(key) && Owed(s'.procs[n].pc)
  {
    var spawned := Spawn(s.(inFlight := s.inFlight + {key}), Repo(key));
    assert spawned.procs[|s.procs|] == Proc(Repo(key), Announced);
    assert Parking(spawned) && s.chan.receivers == spawned.chan.receivers && s.workers == spawned.workers;
    assert s.chan.receivers != [] ==> s.chan.receivers[0] < |s.workers|;
  }

  lemma EnqueueAdds(s: State, key: Key)
    requires Workers(s)
    ensures Adds(s, EnqueueRepoNext(s, key), EnqueueRepo(key))
  {
    if EnqueueAccepts(s, key) {
      SpawnedSends(s, key);
    }
  }

  lemma StopAdds(s: State)
    requires s.chan.senders == []
    ensures Adds(s, StopNext(s), Stop)
  {
    assert StopNext(s).procs == s.procs;
  }

  lemma RestAdds(s: State, w: nat)
    requires Queue(s) && Enabled(s, Loop(w)) && s.chan.buffer == []
    ensures Adds(s, LoopNext(s, w), Loop(w))
  {
    LoopRests(s, w);
  }

  lemma StepCounts(s: State, step: Step, i: nat)
    requires Inv(s) && Enabled(s, step)
    ensures One(Sent(Next(s, step), i)) == One(Sent(s, i)) + One(SubmittedBy(s, step) == Some(i))
    ensures One(Ended(Next(s, step), i)) == One(Ended(s, i)) + One(step == Finish(i))
  {
    var s' := Next(s, step);
    if IsLocal(step) {
      InvIsLocal(s, step.proc);
      LocalCounts(s, step);
      CountsForOne(s, s', step, step.proc, i);
    } else if step.Resume? {
      ResumeCounts(s, step.proc);
      CountsForOne(s, s', step, step.proc, i);
    } else if step.Finish? {
      InvIsLocal(s, step.proc);
      FinishCounts(s, step.proc);
      CountsForOne(s, s', step, step.proc, i);
    } else if step.Loop? && s.chan.buffer != [] {
      TakesCounts(s, step.worker);
      CountsForOne(s, s', step, s.chan.buffer[0], i);
    } else {
      if Handles(step) {
        HandleAdds(s, step);
      } else if step.EnqueueRepo? {
        EnqueueAdds(s, step.key);
      } else if step.Stop? {
        StopAdds(s);
      } else if step.Loop? {
        RestAdds(s, step.worker);
      }
      AddsForOne(s, s', step, i);
    }
  }

  lemma {:induction false} RunCounts(s: State, steps: seq<Step>, i: nat)
    requires Inv(s) && ValidRun(s, steps)
    ensures One(Sent(Run(s, steps), i)) == One(Sent(s, i)) + Submissions(s, steps, i)
    ensures One(Ended(Run(s, steps), i)) == One(Ended(s, i)) + Finishes(steps, i)
    decreases |steps|
  {
    if steps != [] {
      StepKeeps(s, steps[0]);
      StepCounts(s, steps[0], i);
      RunCounts(Next(s, steps[0]), steps[1..], i);
    }
  }

  lemma SubmitOwes(s: State, step: Step)
    requires Enabled(s, step) && (step.Resume? || step.EnqueueRepo?)
    ensures Next(s, step).outstanding == s.outstanding + One(SubmittedBy(s, step).Some?)
  {
  }

  lemma OthersOweNothing(s: State, step: Step)
    requires Enabled(s, step) && !step.Resume? && !step.EnqueueRepo? && !step.Finish?
    ensures Next(s, step).outstanding == s.outstanding
  {
  }

  lemma StepOwes(s: State, step: Step)
    requires Enabled(s, step)
    ensures Next(s, step).outstanding == s.outstanding + One(SubmittedBy(s, step).Some?) - One(step.Finish?)
  {
    if step.Resume? || step.EnqueueRepo? {
      SubmitOwes(s, step);
    } else if !step.Finish? {
      OthersOweNothing(s, step);
    }
  }

  lemma {:induction false} RunOwes(s: State, steps: seq<Step>)
    requires ValidRun(s, steps)
    ensures Run(s, steps).outstanding == s.outstanding + AllSubmissions(s, steps) - AllFinishes(steps)
    decreases |steps|
  {
    if steps != [] {
      StepOwes(s, steps[0]);
      RunOwes(Next(s, steps[0]), steps[1..]);
    }
  }

  /**
   * Over every run: a task is submitted at most once, finishes at most as often,
   * and has finished exactly if it is gone; and what is outstanding is what was
   * submitted and has not finished, never less than nothing.
   */
  lemma FinishesOnce(ids: R.Ids, concurrency: nat, handled: map<MsgId, Status>, shown: map<MsgId, set<string>>,
                     steps: seq<Step>, i: nat)
    requires ValidRun(Fresh(ids, concurrency, handled, shown), steps)
    ensures var start := Fresh(ids, concurrency, handled, shown);
      && Finishes(steps, i) <= Submissions(start, steps, i) <= 1
      && (Finishes(steps, i) == 1 <==> Ended(Run(start, steps), i))
      && Run(start, steps).outstanding == AllSubmissions(start, steps) - AllFinishes(steps)
      && AllFinishes(steps) <= AllSubmissions(start, steps)
  {
    var start := Fresh(ids, concurrency, handled, shown);
    FreshInv(ids, concurrency, handled, shown);
    RunCounts(start, steps, i);
    RunOwes(start, steps);
    RunKeeps(start, steps);
  }
}
