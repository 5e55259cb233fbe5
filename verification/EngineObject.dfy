/**
 * The engine as the object `createEngine` returns: closure variables that each
 * stretch of code updates, valid as long as a run of the engine leads there.
 */
module EngineObject {
  import opened Options
  import opened EngineModel
  import opened EngineInvariant
  import opened EngineRuns
  import opened EngineTheorems
  import opened EngineShutdown
  import C = Channels
  import R = Reactions

  // What each step reaches, by the function that says what it does.

  lemma HandleJobReaches(start: State, s: State, m: MsgId, key: Key)
    requires Reached(start, s)
    ensures Reached(start, HandleJobNext(s, m, key))
  {
    ReachOn(start, s, Step.HandleJob(m, key));
  }

  lemma HandleErrorReaches(start: State, s: State, m: MsgId)
    requires Reached(start, s)
    ensures Reached(start, HandleErrorNext(s, m))
  {
    ReachOn(start, s, Step.HandleError(m));
  }

  lemma HandleReplyReaches(start: State, s: State, m: MsgId)
    requires Reached(start, s)
    ensures Reached(start, HandleReplyNext(s, m))
  {
    ReachOn(start, s, Step.HandleReply(m));
  }

  lemma EnqueueRepoReaches(start: State, s: State, key: Key)
    requires Reached(start, s)
    ensures Reached(start, EnqueueRepoNext(s, key))
  {
    ReachOn(start, s, Step.EnqueueRepo(key));
  }

  lemma StopReaches(start: State, s: State)
    requires Reached(start, s)
    ensures Reached(start, StopNext(s))
  {
    ReachOn(start, s, Step.Stop);
  }

  class Engine {
    const ids: R.Ids
    ghost const start: State
    var stopped: bool
    var inFlight: set<Key>
    var handled: map<MsgId, Status>
    var reactionState: map<MsgId, R.Reaction>
    var procs: seq<Proc>
    var jobs: C.Chan<nat>
    var workers: seq<Worker>
    var controllers: set<nat>
    var aborted: set<nat>
    var outstanding: int
    // What the chat shows, and the history that the promises are about.
    ghost var thrown: set<MsgId>
    ghost var doubled: set<MsgId>
    ghost var shown: map<MsgId, set<string>>
    ghost var clean: set<MsgId>
    ghost var flaky: bool

    ghost function View(): State
      reads this
    {
      State(ids, stopped, inFlight, handled, reactionState, procs, jobs, workers,
            controllers, aborted, outstanding, thrown, doubled, shown, clean, flaky)
    }

    /** Its state is one that a run of the engine comes into. */
    ghost predicate Valid()
      reads this
    {
      Reached(start, View())
    }

    /** What that means for the numbers a caller sees. */
    lemma ValidMeans()
      requires Valid()
      ensures Inv(View())
      ensures outstanding >= 0 && jobs.senders == [] && |inFlight| <= MAX_QUEUED && |jobs.buffer| <= |inFlight|
      ensures thrown <= doubled
    {
      ReachedInv(start, View());
      BufferedAreFew(View());
    }

    constructor (ids: R.Ids, concurrency: nat, handled: map<MsgId, Status>, shown: map<MsgId, set<string>>)
      ensures Valid() && View() == Fresh(ids, concurrency, handled, shown)
    {
      FreshIsReached(ids, concurrency, handled, shown);
      start := Fresh(ids, concurrency, handled, shown);
      this.ids := ids;
      stopped, inFlight, this.handled, reactionState, procs := false, {}, handled, map[], [];
      jobs := C.Chan(C.Bounded(MAX_QUEUED), [], seq(concurrency, w => w), [], false);
      workers := seq(concurrency, _ => Parked);
      controllers, aborted, outstanding := {}, {}, 0;
      thrown, doubled := {}, {};
      this.shown, clean, flaky := shown, {}, false;
    }

    method GoTo(i: nat, pc: Pc)
      requires i < |procs|
      modifies this`procs
      ensures View() == Goto(old(View()), i, pc)
    {
      procs := procs[i := procs[i].(pc := pc)];
    }

    method BeginMove(i: nat, m: MsgId, move: Pc)
      requires i < |procs| && InMove(move)
      modifies this`procs, this`thrown
      ensures View() == StartMove(old(View()), i, m, move)
    {
      var from := if m in reactionState then Some(reactionState[m]) else None;
      match R.Transition(from, Target(move), ids) {
        case Err(_) =>
          GoTo(i, OnThrow(move));
          thrown := thrown + {m};
        case Ok(ops) => GoTo(i, move.(ops := ops));
      }
    }

    method Begin(m: MsgId, task: Task) returns (i: nat)
      modifies this`procs, this`clean
      ensures i == |old(procs)| && View() == Spawn(Meet(old(View()), m), task)
    {
      clean := if View().Shown(m) == {} then clean + {m} else clean - {m};
      i := |procs|;
      procs := procs + [Proc(task, Announced)];
    }

    method TakeUp(m: MsgId, status: Status)
      modifies this`handled, this`doubled
      ensures View() == EngineModel.TakeUp(old(View()), m, status)
    {
      doubled := if DroppedLive(View(), m) then doubled + {m} else doubled;
      handled := handled[m := status];
    }

    method Refuse(m: MsgId)
      modifies this`handled, this`doubled, this`procs, this`clean, this`thrown
      ensures View() == RefuseMessage(old(View()), m)
    {
      TakeUp(m, Failed);
      var i := Begin(m, Refusal(m));
      BeginMove(i, m, Refusing([]));
    }

    method Submit(i: nat)
      requires i < |procs|
      modifies this`procs, this`jobs, this`workers, this`outstanding
      ensures View() == EngineModel.Submit(old(View()), i)
    {
      outstanding := outstanding + 1;
      var sent := C.Send(jobs, i, i);
      jobs := sent.chan;
      match sent.fate {
        case Handed(w) =>
          if w < |workers| {
            workers := workers[w := Busy(i)];
            GoTo(i, Held(w));
          }
        case Stored => GoTo(i, InQueue);
        case Waits => GoTo(i, InQueue);
        case Refused => GoTo(i, Bounced);
      }
    }

    method HandleJob(m: MsgId, key: Key)
      requires Valid()
      modifies this
      ensures Valid() && View() == HandleJobNext(old(View()), m, key)
      ensures m !in doubled ==> Sound(View(), m)
    {
      HandleJobReaches(start, View(), m, key);
      if stopped || m in handled {
      } else if key in inFlight {
        TakeUp(m, Done);
      } else if |inFlight| >= MAX_QUEUED {
        Refuse(m);
      } else {
        Admit(m, key);
      }
      if m !in doubled {
        SoundIfUndoubled(m);
      }
    }

    lemma SoundIfUndoubled(m: MsgId)
      requires Valid() && m !in doubled
      ensures Sound(View(), m)
    {
      ValidMeans();
      UndoubledIsSound(View(), m);
    }

    method Admit(m: MsgId, key: Key)
      requires !stopped && m !in handled && key !in inFlight && |inFlight| < MAX_QUEUED
      modifies this
      ensures View() == HandleJobNext(old(View()), m, key)
    {
      TakeUp(m, Pending);
      inFlight := inFlight + {key};
      var i := Begin(m, Review(m, key));
      BeginMove(i, m, Announcing([]));
    }

    method HandleError(m: MsgId)
      requires Valid()
      modifies this
      ensures Valid() && View() == HandleErrorNext(old(View()), m)
    {
      HandleErrorReaches(start, View(), m);
      if !stopped && m !in handled {
        Refuse(m);
      }
    }

    method HandleReply(m: MsgId)
      requires Valid()
      modifies this
      ensures Valid() && View() == HandleReplyNext(old(View()), m)
    {
      HandleReplyReaches(start, View(), m);
      if !stopped && m !in handled {
        TakeUp(m, Done);
      }
    }

    /** A job that is accepted never waits for room, and never shares its key. */
    method EnqueueRepo(key: Key) returns (accepted: bool)
      requires Valid()
      modifies this
      ensures Valid() && View() == EnqueueRepoNext(old(View()), key)
      ensures accepted == EnqueueAccepts(old(View()), key) && jobs.senders == []
    {
      EnqueueRepoReaches(start, View(), key);
      accepted := !(stopped || |inFlight| >= MAX_QUEUED || key in inFlight);
      if accepted {
        inFlight := inFlight + {key};
        procs := procs + [Proc(Repo(key), Announced)];
        Submit(|procs| - 1);
      }
      ValidMeans();
    }

    // The steps the engine takes by itself.

    /** The chat settles one call of the move that process i waits in. */
    method React(i: nat, ok: bool)
      requires CanReact(View(), i)
      modifies this
      ensures View() == ReactNext(old(View()), i, ok)
    {
      var pc, m := procs[i].pc, procs[i].task.msg;
      shown := if ok then shown[m := R.Perform(View().Shown(m), pc.ops[0])] else shown;
      flaky := flaky || !ok;
      if |pc.ops| > 1 {
        GoTo(i, pc.(ops := pc.ops[1..]));
      } else {
        reactionState := reactionState[m := Target(pc)];
        GoTo(i, After(pc));
      }
    }

    method Resume(i: nat)
      requires Enabled(View(), Step.Resume(i))
      modifies this
      ensures View() == ResumeNext(old(View()), i)
    {
      if procs[i].pc.Announced? {
        Submit(i);
      } else {
        reactionState := reactionState - {procs[i].task.msg};
        GoTo(i, Gone(false));
      }
    }

    method Skip(i: nat)
      requires Enabled(View(), Step.Start(i)) && stopped
      modifies this`procs, this`inFlight
      ensures View() == StartNext(old(View()), i)
    {
      if procs[i].task.Repo? {
        inFlight := inFlight - {procs[i].task.key};
      }
      GoTo(i, Leaving(procs[i].pc.worker, procs[i].task.Review?));
    }

    /** A worker calls its task; after `stop` that does nothing to any message. */
    method Start(i: nat)
      requires Enabled(View(), Step.Start(i))
      modifies this
      ensures View() == StartNext(old(View()), i)
      ensures old(stopped) ==> handled == old(handled) && reactionState == old(reactionState) && shown == old(shown)
    {
      if stopped {
        Skip(i);
        return;
      }
      var w := procs[i].pc.worker;
      controllers := controllers + {i};
      if procs[i].task.Review? {
        handled := handled[procs[i].task.msg := Running];
        BeginMove(i, procs[i].task.msg, Beginning(w, []));
      } else {
        GoTo(i, Working(w));
      }
    }

    /** `began` says whether the runner was called: not if the signal was aborted. */
    method Execute(i: nat) returns (began: bool)
      requires i < |procs| && procs[i].pc.Working?
      modifies this
      ensures began == (i !in old(aborted))
      ensures View() == if began then Next(old(View()), BeginRun(i)) else old(View())
    {
      began := i !in aborted;
      if began {
          GoTo(i, InRunner(procs[i].pc.worker));
      }
    }

    method RunnerReturns(i: nat)
      requires Enabled(View(), EndRun(i))
      modifies this
      ensures View() == Next(old(View()), EndRun(i))
    {
      GoTo(i, Working(procs[i].pc.worker));
    }

    /** A job has its outcome; `fail` is the case of Failure, from the catch as well. */
    method Conclude(i: nat, to: R.Reaction)
      requires CanConclude(View(), i, to)
      modifies this
      ensures View() == ConcludeNext(old(View()), i, to)
    {
      var m := procs[i].task.msg;
      handled := handled[m := if to.Failure? then Failed else Done];
      BeginMove(i, m, Settling(procs[i].pc.worker, [], to, procs[i].pc.Caught?));
    }

    method Finally(i: nat)
      requires Enabled(View(), Step.Finally(i))
      modifies this
      ensures View() == FinallyNext(old(View()), i)
    {
      if procs[i].task.Review? {
        reactionState := reactionState - {procs[i].task.msg};
      }
      inFlight := inFlight - {procs[i].task.key};
      controllers := controllers - {i};
      GoTo(i, Leaving(procs[i].pc.worker, false));
    }

    method Finish(i: nat)
      requires Enabled(View(), Step.Finish(i))
      modifies this
      ensures View() == FinishNext(old(View()), i)
    {
      outstanding := outstanding - 1;
      if procs[i].pc.Leaving? {
        var w := procs[i].pc.worker;
        if w < |workers| {
          workers := workers[w := Looping];
        }
        GoTo(i, Gone(procs[i].pc.kept));
      } else {
        GoTo(i, Gone(true));
      }
    }

    /** A worker's `for await` asks for the next task. */
    method Loop(w: nat)
      requires Enabled(View(), Step.Loop(w))
      modifies this
      ensures View() == LoopNext(old(View()), w)
    {
      var received := C.Receive(jobs, w);
      jobs := received.chan;
      match received.fate {
        case Got(i) =>
          if i < |procs| {
            workers := workers[w := Busy(i)];
            GoTo(i, Held(w));
          }
        case Ended => workers := workers[w := Exited];
        case Parked => workers := workers[w := Worker.Parked];
      }
    }

    /** Daily maintenance forgets old entries. */
    method Prune(expired: set<MsgId>)
      requires Valid()
      modifies this`handled
      ensures Valid() && View() == Next(old(View()), Step.Prune(expired))
    {
      ReachOn(start, View(), Step.Prune(expired));
      handled := handled - expired;
    }

    method CloseAll()
      modifies this
      ensures View() == StopNext(old(View()))
    {
      stopped := true;
      aborted := aborted + controllers;
      var closed := C.Close(jobs);
      jobs := closed.chan;
      workers := Dismiss(workers, closed.ended);
      procs := BounceAll(procs, closed.refused);
    }

    /** The first half of `stop`, up to its await. */
    method Close()
      requires Valid()
      modifies this
      ensures Valid() && View() == StopNext(old(View())) && stopped
    {
      StopReaches(start, View());
      CloseAll();
    }

    method Update(step: Step)
      requires Internal(step) && Enabled(View(), step)
      modifies this
      ensures View() == Next(old(View()), step)
    {
      match step {
        case React(i, ok) => React(i, ok);
        case Resume(i) => Resume(i);
        case Start(i) => Start(i);
        case BeginRun(i) => var began := Execute(i);
        case EndRun(i) => RunnerReturns(i);
        case Conclude(i, to) => Conclude(i, to);
        case Finally(i) => Finally(i);
        case Finish(i) => Finish(i);
        case Loop(w) => Loop(w);
      }
    }

    /** One of the steps the engine takes by itself: after it, no send waits, and no more has finished than was submitted. */
    method Perform(step: Step)
      requires Valid() && Internal(step) && Enabled(View(), step)
      modifies this
      ensures Valid() && View() == Next(old(View()), step)
      ensures jobs.senders == [] && outstanding >= 0
      ensures step.BeginRun? ==> !stopped
      ensures step.Conclude? ==> handled == old(handled)[old(procs[step.proc].task.msg) := if step.to == R.Failure then Failed else Done]
    {
      ReachOn(start, View(), step);
      NoRunAfterStop(step);
      Update(step);
      ValidMeans();
    }

    lemma NoRunAfterStop(step: Step)
      requires Valid() && Enabled(View(), step)
      ensures step.BeginRun? ==> !stopped && !Next(View(), step).stopped
    {
      if step.BeginRun? && stopped {
        ValidMeans();
        NoRunBeginsAfterStop(View(), step.proc);
      }
    }

    function WorkerStep(w: nat): Step
      requires w < |workers| && (workers[w].Busy? ==> workers[w].proc < |procs|)
      reads this
    {
      if workers[w].Busy? then OwnStep(procs[workers[w].proc], workers[w].proc) else Step.Loop(w)
    }

    lemma StoppedWorker(w: nat)
      requires Valid() && stopped && w < |workers| && !workers[w].Exited?
      ensures workers[w].Busy? ==> workers[w].proc < |procs|
      ensures Internal(WorkerStep(w)) && Enabled(View(), WorkerStep(w))
    {
      ValidMeans();
      assert !workers[w].Parked?;
      if workers[w].Busy? {
        ProcessCanGoOn(View(), workers[w].proc);
      }
    }

    lemma LeftProcess(i: nat)
      requires Valid() && stopped && |workers| > 0 && workers[0].Exited? && i < |procs| && !Over(procs[i].pc)
      ensures Internal(OwnStep(procs[i], i)) && Enabled(View(), OwnStep(procs[i], i))
    {
      ValidMeans();
      ProcessCanGoOn(View(), i);
    }

    /** The first worker that has not left. */
    method WorkerLeft() returns (found: Option<nat>)
      ensures found.Some? ==> found.value < |workers| && !workers[found.value].Exited?
      ensures found.None? ==> forall w :: 0 <= w < |workers| ==> workers[w].Exited?
    {
      for w := 0 to |workers|
        invariant forall v :: 0 <= v < w ==> workers[v].Exited?
      {
        if !workers[w].Exited? {
          return Some(w);
        }
      }
      return None;
    }

    /** The first process that is not over. */
    method ProcessLeft() returns (found: Option<nat>)
      ensures found.Some? ==> found.value < |procs| && !Over(procs[found.value].pc)
      ensures found.None? ==> forall i :: 0 <= i < |procs| ==> Over(procs[i].pc)
    {
      for i := 0 to |procs|
        invariant forall j :: 0 <= j < i ==> Over(procs[j].pc)
      {
        if !Over(procs[i].pc) {
          return Some(i);
        }
      }
      return None;
    }

    /** After `stop`: a step that can be taken, unless everything is over. */
    method FindStep() returns (step: Option<Step>)
      requires Valid() && stopped && |workers| > 0
      ensures step.Some? ==> Internal(step.value) && Enabled(View(), step.value)
      ensures step.None? ==> forall w :: 0 <= w < |workers| ==> workers[w].Exited?
      ensures step.None? ==> forall i :: 0 <= i < |procs| ==> Over(procs[i].pc)
    {
      var worker := WorkerLeft();
      if worker.Some? {
        StoppedWorker(worker.value);
        step := Some(WorkerStep(worker.value));
      } else {
        var i := ProcessLeft();
        if i.None? {
          return None;
        }
        LeftProcess(i.value);
        step := Some(OwnStep(procs[i.value], i.value));
      }
    }

    /**
     * `stop`: it closes the engine and waits until its workers have left. Every
     * task is over by then and none outstanding, and the loop is bounded, however
     * it picks among the steps.
     */
    method Stop()
      requires Valid() && |workers| > 0
      modifies this
      ensures Valid() && stopped && outstanding == 0
      ensures forall w :: 0 <= w < |workers| ==> workers[w].Exited?
      ensures forall i :: 0 <= i < |procs| ==> Over(procs[i].pc)
    {
      Close();
      var step := FindStep();
      while step.Some?
        invariant Valid() && stopped && |workers| > 0
        invariant step.Some? ==> Internal(step.value) && Enabled(View(), step.value)
        invariant step.None? ==> forall w :: 0 <= w < |workers| ==> workers[w].Exited?
        invariant step.None? ==> forall i :: 0 <= i < |procs| ==> Over(procs[i].pc)
        decreases Rank(View()), if step.Some? then 1 else 0
      {
        ValidMeans();
        StepLowersRank(View(), step.value);
        WorkersCount(View(), step.value);
        Perform(step.value);
        step := FindStep();
      }
      ValidMeans();
      AllOverOwesNothing(procs);
    }
  }
}
