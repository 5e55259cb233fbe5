/**
 * The upgrade flow on the job engine: what the flow calls its live jobs are the
 * repository jobs that the engine has in flight, and the steps of one are steps
 * of the other.
 */
module UpgradeJobs {
  import opened Options
  import opened EngineModel
  import opened EngineInvariant
  import opened EngineRuns
  import opened EngineTheorems
  import opened EngineFinishes
  import D = DepsFlows
  import R = Reactions

  const PREFIX := "deps:"

  function JobId(repo: string): Key {
    PREFIX + repo
  }

  predicate IsJobId(key: Key) {
    |key| >= |PREFIX| && key[..|PREFIX|] == PREFIX
  }

  lemma JobIdsDiffer(repo: string, other: string)
    ensures IsJobId(JobId(repo)) && (JobId(repo) == JobId(other) ==> repo == other)
  {
    assert JobId(repo)[|PREFIX|..] == repo && JobId(other)[|PREFIX|..] == other;
  }

  /** The flow has a job live exactly if the engine has its key in flight. */
  ghost predicate Linked(f: D.Flow, s: State) {
    forall repo :: repo in f.live <==> JobId(repo) in s.inFlight
  }

  /** The key of a pull request is never that of an upgrade. */
  ghost predicate ReviewsApart(s: State) {
    forall i :: 0 <= i < |s.procs| && s.procs[i].task.Review? ==> !IsJobId(s.procs[i].task.key)
  }

  /** `room` of the flow, as the engine has it. */
  predicate Room(s: State) {
    !s.stopped && |s.inFlight| < MAX_QUEUED
  }

  /** `upgrade` asks the engine, and accepts exactly when the engine does; both go on linked. */
  lemma UpgradeIsEnqueue(c: D.Settings, f: D.Flow, s: State)
    requires Linked(f, s) && f.scan.Asking? && f.scan.i < |c.repos|
    ensures var repo := c.repos[f.scan.i]; var f' := D.Answered(c, f, D.NoneOpen, Room(s));
      && (EnqueueAccepts(s, JobId(repo)) <==> f'.accepted == f.accepted + [(repo, f.scan.windowStart)])
      && (!EnqueueAccepts(s, JobId(repo)) ==> f'.accepted == f.accepted)
      && Linked(f', EnqueueRepoNext(s, JobId(repo)))
  {
    var repo := c.repos[f.scan.i];
    EnqueueKeys(s, JobId(repo));
    forall other
      ensures JobId(other) == JobId(repo) ==> other == repo
    {
      JobIdsDiffer(repo, other);
    }
  }

  lemma EnqueueKeys(s: State, key: Key)
    ensures EnqueueRepoNext(s, key).inFlight == if EnqueueAccepts(s, key) then s.inFlight + {key} else s.inFlight
  {
  }

  /** What a step of the engine is to the flow: nothing, or the end of a job. */
  ghost predicate EndsOrStays(f: D.Flow, s': State) {
    Linked(f, s') || exists repo :: repo in f.live && Linked(f.(live := f.live - {repo}), s')
  }

  lemma StaysLinked(f: D.Flow, s: State, s': State)
    requires Linked(f, s) && forall key :: IsJobId(key) ==> (key in s'.inFlight <==> key in s.inFlight)
    ensures Linked(f, s')
  {
    forall repo
      ensures repo in f.live <==> JobId(repo) in s'.inFlight
    {
      JobIdsDiffer(repo, repo);
    }
  }

  lemma EndsOne(f: D.Flow, s: State, s': State, key: Key)
    requires Linked(f, s) && key in s.inFlight && s'.inFlight == s.inFlight - {key}
    ensures EndsOrStays(f, s')
  {
    if IsJobId(key) {
      var repo := key[|PREFIX|..];
      assert key == JobId(repo);
      forall other
        ensures other in f.live - {repo} <==> JobId(other) in s'.inFlight
      {
        JobIdsDiffer(repo, other);
      }
      assert repo in f.live && Linked(f.(live := f.live - {repo}), s');
    } else {
      StaysLinked(f, s, s');
    }
  }

  lemma ProcessEndsOrStays(f: D.Flow, s: State, s': State, i: nat)
    requires Linked(f, s) && Keys(s) && ReviewsApart(s) && Carries(s, s', i)
    ensures EndsOrStays(f, s') && ReviewsApart(s')
  {
    if s'.inFlight == s.inFlight {
      StaysLinked(f, s, s');
    } else {
      EndsOne(f, s, s', s.procs[i].task.key);
    }
  }

  lemma TakenUpStays(f: D.Flow, s: State, s': State, task: Task, p: Proc)
    requires Linked(f, s) && ReviewsApart(s) && !task.Repo? && p.task == task && TakenUp(s, s', task, p)
    requires task.Review? ==> !IsJobId(task.key)
    ensures Linked(f, s') && ReviewsApart(s')
  {
    StaysLinked(f, s, s');
  }

  lemma HandleStays(f: D.Flow, s: State, step: Step)
    requires Linked(f, s) && ReviewsApart(s) && Handles(step) && (step.HandleJob? ==> !IsJobId(step.key))
    ensures Linked(f, Next(s, step)) && ReviewsApart(Next(s, step))
  {
    if !s.stopped && step.msg !in s.handled {
      if step.HandleReply? || (step.HandleJob? && step.key in s.inFlight) {
        assert Next(s, step) == TakeUp(s, step.msg, Done);
      } else if step.HandleError? || |s.inFlight| >= MAX_QUEUED {
        RefusingIs(s, step.msg);
        TakenUpStays(f, s, RefuseMessage(s, step.msg), Refusal(step.msg), NewProc(s, Refusal(step.msg), Refusing([])));
      } else {
        AdmittingIs(s, step.msg, step.key);
        TakenUpStays(f, s, HandleJobNext(s, step.msg, step.key), Review(step.msg, step.key),
                     NewProc(s, Review(step.msg, step.key), Announcing([])));
      }
    }
  }

  lemma OtherEnqueueStays(f: D.Flow, s: State, key: Key)
    requires Linked(f, s) && ReviewsApart(s) && Workers(s) && !IsJobId(key)
    ensures Linked(f, EnqueueRepoNext(s, key)) && ReviewsApart(EnqueueRepoNext(s, key))
  {
    EnqueueKeys(s, key);
    EnqueueAdds(s, key);
    if EnqueueAccepts(s, key) {
      SpawnedSends(s, key);
    }
    StaysLinked(f, s, EnqueueRepoNext(s, key));
  }

  lemma RestStays(f: D.Flow, s: State, step: Step)
    requires Inv(s) && Linked(f, s) && ReviewsApart(s) && Enabled(s, step)
    requires !Handles(step) && !OfProcess(s, step) && !step.EnqueueRepo?
    ensures Linked(f, Next(s, step)) && ReviewsApart(Next(s, step))
  {
    if step.Stop? {
      StopSeats(s);
    } else if step.Loop? {
      LoopRests(s, step.worker);
    }
    StaysLinked(f, s, Next(s, step));
  }

  /** Every step of the engine but an upgrade's `enqueueRepo` leaves the flow alone, or ends one of its jobs. */
  lemma EngineStepIsFlows(f: D.Flow, s: State, step: Step)
    requires Inv(s) && Linked(f, s) && ReviewsApart(s) && Enabled(s, step)
    requires (step.HandleJob? || step.EnqueueRepo?) ==> !IsJobId(step.key)
    ensures EndsOrStays(f, Next(s, step)) && ReviewsApart(Next(s, step))
  {
    if Handles(step) {
      HandleStays(f, s, step);
    } else if OfProcess(s, step) {
      var i := StepGoesOn(s, step);
      ProcessEndsOrStays(f, s, Next(s, step), i);
    } else if step.EnqueueRepo? {
      OtherEnqueueStays(f, s, step.key);
    } else {
      RestStays(f, s, step);
    }
  }

  /** A crash leaves no job on either side. */
  lemma CrashLinks(f: D.Flow, ids: R.Ids, concurrency: nat, handled: map<MsgId, Status>, shown: map<MsgId, set<string>>)
    ensures Linked(f.(live := map[], scan := D.Idle), Fresh(ids, concurrency, handled, shown))
  {
  }
}
