/** What a message comes to: the answers of the handlers, the status a job ends with, and the reaction that stays. */
module EngineOutcomes {
  import opened Options
  import opened EngineModel
  import opened EngineInvariant
  import opened EngineRuns
  import opened EngineTheorems
  import R = Reactions

  // ----- The answers of the handlers -----

  /** The message is taken up by one process more, for the task. */
  predicate JoinedBy(s: State, s': State, task: Task) {
    |s'.procs| == |s.procs| + 1 && s'.procs[..|s.procs|] == s.procs && s'.procs[|s.procs|].task == task
  }

  /**
   * A message that asks for a job: one that is known, or comes after `stop`,
   * changes nothing; one whose key is in flight is done at once, full queue or
   * not; with a free key and 64 in flight it has failed; else it waits, and its
   * key is taken.
   */
  lemma JobIsAnswered(s: State, m: MsgId, key: Key)
    ensures var s' := Next(s, HandleJob(m, key));
      if s.stopped || m in s.handled then s' == s
      else if key in s.inFlight then
        s'.handled == s.handled[m := Done] && s'.inFlight == s.inFlight && s'.procs == s.procs && s'.shown == s.shown
      else if |s.inFlight| >= 64 then
        s'.handled == s.handled[m := Failed] && s'.inFlight == s.inFlight && JoinedBy(s, s', Refusal(m))
      else
        s'.handled == s.handled[m := Pending] && s'.inFlight == s.inFlight + {key} && JoinedBy(s, s', Review(m, key))
  {
    if !s.stopped && m !in s.handled && key !in s.inFlight {
      if |s.inFlight| >= 64 {
        RefusalAdds(s, m);
      } else {
        AdmissionAdds(s, m, key);
      }
    }
  }

  lemma RefusalAdds(s: State, m: MsgId)
    ensures var s' := RefuseMessage(s, m);
      s'.handled == s.handled[m := Failed] && s'.inFlight == s.inFlight && JoinedBy(s, s', Refusal(m))
  {
    RefusingIs(s, m);
  }

  lemma AdmissionAdds(s: State, m: MsgId, key: Key)
    requires !s.stopped && m !in s.handled && key !in s.inFlight && |s.inFlight| < MAX_QUEUED
    ensures var s' := HandleJobNext(s, m, key);
      s'.handled == s.handled[m := Pending] && s'.inFlight == s.inFlight + {key} && JoinedBy(s, s', Review(m, key))
  {
    AdmittingIs(s, m, key);
    assert StatusOf(NewProc(s, Review(m, key), Announcing([]))) == Pending;
  }

  /** One that is an error has failed, and takes no key; one that only wants a reply is done. */
  lemma OthersAreAnswered(s: State, m: MsgId)
    ensures var s' := Next(s, HandleError(m));
      if s.stopped || m in s.handled then s' == s
      else s'.handled == s.handled[m := Failed] && s'.inFlight == s.inFlight && JoinedBy(s, s', Refusal(m))
    ensures var s' := Next(s, HandleReply(m));
      if s.stopped || m in s.handled then s' == s
      else s'.handled == s.handled[m := Done] && s'.inFlight == s.inFlight && s'.procs == s.procs && s'.shown == s.shown
  {
    RefusalAdds(s, m);
  }

  // ----- The status of a job -----

  /** A job that ends with a failure is stored as failed, one that ends with a verdict as done. */
  lemma ConcludeStores(s: State, i: nat, to: R.Reaction)
    requires Enabled(s, Conclude(i, to))
    ensures var m, s' := s.procs[i].task.msg, Next(s, Conclude(i, to));
      && to in {R.Approved, R.ChangesRequested, R.Comment, R.Failure}
      && s'.handled == s.handled[m := if to == R.Failure then Failed else Done]
  {
  }

  /** In every reachable state, while the store has the entry of a message that a job speaks for: what it says. */
  lemma EntrySaysWhere(ids: R.Ids, concurrency: nat, handled: map<MsgId, Status>, shown: map<MsgId, set<string>>, steps: seq<Step>, i: nat)
    requires ValidRun(Fresh(ids, concurrency, handled, shown), steps)
    requires var s := Run(Fresh(ids, concurrency, handled, shown), steps);
      i < |s.procs| && Live(s.procs[i]) && s.procs[i].task.msg in s.handled && s.procs[i].task.msg !in s.doubled
    ensures var s := Run(Fresh(ids, concurrency, handled, shown), steps);
      var pc, entry := s.procs[i].pc, s.handled[s.procs[i].task.msg];
      && (s.procs[i].task.Refusal? ==> entry == Failed)
      && (s.procs[i].task.Review? && (pc.Announcing? || pc.Announced? || pc.InQueue? || pc.Held?) ==> entry == Pending)
      && (pc.Beginning? || pc.Working? || pc.InRunner? ==> entry == Running)
      && (pc.Settling? || pc.Settled? ==> (entry == Failed <==> pc.to == R.Failure) && (entry == Done <==> pc.to != R.Failure))
  {
    FreshInv(ids, concurrency, handled, shown);
    RunKeeps(Fresh(ids, concurrency, handled, shown), steps);
    assert Tracked(Run(Fresh(ids, concurrency, handled, shown), steps), i);
  }

  // ----- What is shown on the way -----

  /** Between moves, a clean message shows that its job waits, or that it runs. */
  lemma ShownOnTheWay(ids: R.Ids, concurrency: nat, handled: map<MsgId, Status>, shown: map<MsgId, set<string>>, steps: seq<Step>, i: nat)
    requires ValidRun(Fresh(ids, concurrency, handled, shown), steps)
    requires var s := Run(Fresh(ids, concurrency, handled, shown), steps);
      && !s.flaky && i < |s.procs| && s.procs[i].task.Review? && s.procs[i].task.msg in s.clean - s.doubled
    ensures var s := Run(Fresh(ids, concurrency, handled, shown), steps);
      var m, pc := s.procs[i].task.msg, s.procs[i].pc;
      && (pc.Announced? || pc.InQueue? || pc.Held? ==> s.Shown(m) == {ids.pending})
      && (pc.Working? || pc.InRunner? ==> s.Shown(m) == {ids.inProgress})
  {
    var start := Fresh(ids, concurrency, handled, shown);
    var s := Run(start, steps);
    FreshInv(ids, concurrency, handled, shown);
    RunKeeps(start, steps);
    IdsStay(start, steps);
    if Live(s.procs[i]) {
      ShownWhereItStands(s, i);
    }
  }

  lemma ShownWhereItStands(s: State, i: nat)
    requires Reactions(s) && !s.flaky && i < |s.procs| && Live(s.procs[i]) && s.procs[i].task.msg in s.clean - s.doubled
    requires s.procs[i].task.Review?
    ensures var m, pc := s.procs[i].task.msg, s.procs[i].pc;
      && (pc.Announced? || pc.InQueue? || pc.Held? ==> s.Shown(m) == {s.ids.pending})
      && (pc.Working? || pc.InRunner? ==> s.Shown(m) == {s.ids.inProgress})
  {
    assert ShowsRight(s, i);
  }

  /** A chat call that fails shows nothing, and is remembered; one that succeeds puts its reaction or takes it away. */
  lemma CallsShow(s: State, i: nat)
    requires CanReact(s, i)
    ensures var m := s.procs[i].task.msg; var op := s.procs[i].pc.ops[0];
      var failed, done := Next(s, React(i, false)), Next(s, React(i, true));
      && failed.shown == s.shown && failed.flaky
      && done.flaky == s.flaky && (forall o :: o != m ==> done.Shown(o) == s.Shown(o))
      && done.Shown(m) == if op.Put? then s.Shown(m) + {op.id} else s.Shown(m) - {op.id}
  {
  }

  // ----- What stays -----

  /** The store has the message, and what speaks for it has made its last move. */
  ghost predicate Resting(s: State, m: MsgId) {
    m in s.handled && forall i :: 0 <= i < |s.procs| && Live(s.procs[i]) && s.procs[i].task.msg == m ==> LastMoveMade(s.procs[i].pc)
  }

  predicate LastMoveMade(pc: Pc) {
    pc.Settled? || pc.Refused?
  }

  /** Status and reactions of a message stay. */
  ghost predicate Stays(s: State, s': State, m: MsgId) {
    m in s.handled && Resting(s', m) && s'.handled[m] == s.handled[m] && s'.Shown(m) == s.Shown(m)
  }

  /** A step of one process, which does not touch the message. */
  ghost predicate Elsewhere(s: State, s': State, i: nat, m: MsgId) {
    && OnlyMoved(s, s', i)
    && (m in s.handled ==> m in s'.handled && s'.handled[m] == s.handled[m]) && s'.Shown(m) == s.Shown(m)
    && (Live(s'.procs[i]) && s.procs[i].task.msg == m ==> Live(s.procs[i]) && LastMoveMade(s'.procs[i].pc))
  }

  lemma ElsewhereStays(s: State, s': State, i: nat, m: MsgId)
    requires Resting(s, m) && Elsewhere(s, s', i, m)
    ensures Stays(s, s', m)
  {
    forall j | 0 <= j < |s'.procs| && Live(s'.procs[j]) && s'.procs[j].task.msg == m
      ensures LastMoveMade(s'.procs[j].pc)
    {
      if j != i {
        assert s'.procs[j] == s.procs[j];
      }
    }
  }

  lemma CarriedElsewhere(s: State, s': State, i: nat, m: MsgId)
    requires Carries(s, s', i) && !(Live(s.procs[i]) && s.procs[i].task.msg == m)
    ensures Elsewhere(s, s', i, m)
  {
  }

  /** What has made its last move only leaves. */
  lemma RestingLeaves(s: State, step: Step, m: MsgId)
    requires Enabled(s, step) && (IsLocal(step) || step.Resume? || step.Finish?)
    requires step.proc < |s.procs| && LastMoveMade(s.procs[step.proc].pc)
    ensures var s' := Next(s, step); OnlyMoved(s, s', step.proc) && Elsewhere(s, s', step.proc, m)
  {
  }

  lemma ProcessStays(s: State, step: Step, m: MsgId)
    requires Inv(s) && Enabled(s, step) && Resting(s, m) && (IsLocal(step) || step.Resume? || step.Finish?)
    ensures Stays(s, Next(s, step), m)
  {
    var i := step.proc;
    InvIsLocal(s, i);
    if Live(s.procs[i]) && s.procs[i].task.msg == m {
      RestingLeaves(s, step, m);
    } else {
      StepCarries(s, step);
      CarriedElsewhere(s, Next(s, step), i, m);
    }
    ElsewhereStays(s, Next(s, step), i, m);
  }

  lemma TakenStays(s: State, w: nat, m: MsgId)
    requires Inv(s) && Enabled(s, Loop(w)) && s.chan.buffer != [] && Resting(s, m)
    ensures Stays(s, Next(s, Loop(w)), m)
  {
    var i := s.chan.buffer[0];
    InvIsLocal(s, i);
    LoopTakes(s, w);
    LoopTakesCarries(s, Next(s, Loop(w)), w, i);
    CarriedElsewhere(s, Next(s, Loop(w)), i, m);
    ElsewhereStays(s, Next(s, Loop(w)), i, m);
  }

  lemma KeptStays(s: State, s': State, m: MsgId)
    requires Resting(s, m) && KeepsMessage(s, s', m) && s'.shown == s.shown
    ensures Stays(s, s', m)
  {
    forall j | 0 <= j < |s'.procs| && Live(s'.procs[j]) && s'.procs[j].task.msg == m
      ensures LastMoveMade(s'.procs[j].pc)
    {
      assert j < |s.procs| && s'.procs[j] == s.procs[j];
    }
  }

  lemma HandlersShowNothing(s: State, step: Step)
    requires Handles(step) && !s.stopped && step.msg !in s.handled
    ensures Next(s, step).shown == s.shown
  {
    if step.HandleReply? || (step.HandleJob? && step.key in s.inFlight) {
      assert Next(s, step) == TakeUp(s, step.msg, Done);
    } else if step.HandleError? || |s.inFlight| >= MAX_QUEUED {
      RefusingIs(s, step.msg);
    } else {
      AdmittingIs(s, step.msg, step.key);
    }
  }

  lemma EnqueueShowsNothing(s: State, key: Key)
    ensures EnqueueRepoNext(s, key).shown == s.shown
  {
  }

  lemma RestShowsNothing(s: State, step: Step)
    requires Enabled(s, step) && (step.EnqueueRepo? || step.Stop? || step.Loop?)
    ensures Next(s, step).shown == s.shown
  {
    if step.EnqueueRepo? {
      EnqueueShowsNothing(s, step.key);
    }
  }

  lemma StepStays(s: State, step: Step, m: MsgId)
    requires Inv(s) && Enabled(s, step) && Resting(s, m) && !(step.Prune? && m in step.expired)
    ensures Stays(s, Next(s, step), m)
  {
    if IsLocal(step) || step.Resume? || step.Finish? {
      ProcessStays(s, step, m);
    } else if step.Loop? && s.chan.buffer != [] {
      TakenStays(s, step.worker, m);
    } else if Handles(step) {
      if !s.stopped && step.msg !in s.handled {
        SpawnsForOther(s, step, m);
        HandlersShowNothing(s, step);
        KeptStays(s, Next(s, step), m);
      }
    } else if !step.Prune? {
      RestKeeps(s, step, m);
      RestShowsNothing(s, step);
      KeptStays(s, Next(s, step), m);
    }
  }

  lemma {:induction false} RunStays(s: State, steps: seq<Step>, m: MsgId)
    requires Inv(s) && ValidRun(s, steps) && Resting(s, m)
    requires forall k :: 0 <= k < |steps| && steps[k].Prune? ==> m !in steps[k].expired
    ensures Stays(s, Run(s, steps), m)
    decreases |steps|
  {
    if steps != [] {
      StepStays(s, steps[0], m);
      StepKeeps(s, steps[0]);
      RunStays(Next(s, steps[0]), steps[1..], m);
    }
  }

  /** The id that is shown for a verdict or a failure. */
  function FinalId(ids: R.Ids, to: R.Reaction): string {
    match to
    case Approved => ids.approved
    case ChangesRequested => ids.changesRequested
    case Comment => ids.comment
    case _ => ids.failure
  }

  /**
   * A job has made its last move, and no chat call has failed so far; its message
   * showed none of our reactions when it came, and no handler was called for it
   * while its entry was dropped. Then over any further run that keeps its entry
   * it is stored as failed if that move was to failure, and as done if it was to
   * a verdict, and what it shows is the one reaction of that failure or verdict.
   */
  lemma OutcomeShown(ids: R.Ids, concurrency: nat, handled: map<MsgId, Status>, shown: map<MsgId, set<string>>,
                     before: seq<Step>, i: nat, after: seq<Step>)
    requires ValidRun(Fresh(ids, concurrency, handled, shown), before)
    requires var s := Run(Fresh(ids, concurrency, handled, shown), before);
      && i < |s.procs| && s.procs[i].task.Review? && s.procs[i].pc.Settled?
      && s.procs[i].task.msg in s.handled && s.procs[i].task.msg in s.clean - s.doubled && !s.flaky
      && ValidRun(s, after) && forall k :: 0 <= k < |after| && after[k].Prune? ==> s.procs[i].task.msg !in after[k].expired
    ensures var s := Run(Fresh(ids, concurrency, handled, shown), before);
      var m, to, end := s.procs[i].task.msg, s.procs[i].pc.to, Run(s, after);
      && m in end.handled
      && (end.handled[m] == Failed <==> to == R.Failure)
      && (end.handled[m] == Done <==> to in {R.Approved, R.ChangesRequested, R.Comment})
      && end.Shown(m) == {FinalId(ids, to)}
  {
    var start := Fresh(ids, concurrency, handled, shown);
    var s := Run(start, before);
    FreshInv(ids, concurrency, handled, shown);
    RunKeeps(start, before);
    EntrySaysWhere(ids, concurrency, handled, shown, before, i);
    SettledRests(s, i);
    SettledShows(s, i);
    RunStays(s, after, s.procs[i].task.msg);
    IdsStay(start, before);
  }

  lemma SettledRests(s: State, i: nat)
    requires Messages(s) && i < |s.procs| && s.procs[i].task.Review? && s.procs[i].pc.Settled?
    requires s.procs[i].task.msg in s.handled && s.procs[i].task.msg !in s.doubled
    ensures Resting(s, s.procs[i].task.msg)
  {
    assert Live(s.procs[i]);
  }

  lemma SettledShows(s: State, i: nat)
    requires Shapes(s) && Reactions(s) && i < |s.procs| && s.procs[i].task.Review? && s.procs[i].pc.Settled?
    requires s.procs[i].task.msg in s.clean - s.doubled && !s.flaky
    ensures s.procs[i].pc.to in {R.Approved, R.ChangesRequested, R.Comment, R.Failure}
    ensures s.Shown(s.procs[i].task.msg) == {FinalId(s.ids, s.procs[i].pc.to)}
  {
    assert Live(s.procs[i]) && ShowsRight(s, i) && WellPlaced(s.procs[i]);
  }

  /** A refused message, once its move is over: failed, and it shows the failure, over any further run that keeps its entry. */
  lemma RefusalShown(ids: R.Ids, concurrency: nat, handled: map<MsgId, Status>, shown: map<MsgId, set<string>>,
                     before: seq<Step>, i: nat, after: seq<Step>)
    requires ValidRun(Fresh(ids, concurrency, handled, shown), before)
    requires var s := Run(Fresh(ids, concurrency, handled, shown), before);
      && i < |s.procs| && s.procs[i].task.Refusal? && s.procs[i].pc.Refused?
      && s.procs[i].task.msg in s.handled && s.procs[i].task.msg in s.clean - s.doubled && !s.flaky
      && ValidRun(s, after) && forall k :: 0 <= k < |after| && after[k].Prune? ==> s.procs[i].task.msg !in after[k].expired
    ensures var s := Run(Fresh(ids, concurrency, handled, shown), before);
      var m, end := s.procs[i].task.msg, Run(s, after);
      m in end.handled && end.handled[m] == Failed && end.Shown(m) == {ids.failure}
  {
    var start := Fresh(ids, concurrency, handled, shown);
    var s := Run(start, before);
    FreshInv(ids, concurrency, handled, shown);
    RunKeeps(start, before);
    EntrySaysWhere(ids, concurrency, handled, shown, before, i);
    RefusedRests(s, i);
    RunStays(s, after, s.procs[i].task.msg);
    IdsStay(start, before);
  }

  lemma RefusedRests(s: State, i: nat)
    requires Messages(s) && Reactions(s) && i < |s.procs| && s.procs[i].task.Refusal? && s.procs[i].pc.Refused?
    requires s.procs[i].task.msg in s.handled && s.procs[i].task.msg in s.clean - s.doubled && !s.flaky
    ensures Resting(s, s.procs[i].task.msg) && s.Shown(s.procs[i].task.msg) == {s.ids.failure}
  {
    assert Live(s.procs[i]) && ShowsRight(s, i);
  }

  lemma {:induction false} IdsStay(s: State, steps: seq<Step>)
    requires ValidRun(s, steps)
    ensures Run(s, steps).ids == s.ids
    decreases |steps|
  {
    if steps != [] {
      IdsStay(Next(s, steps[0]), steps[1..]);
    }
  }
}
