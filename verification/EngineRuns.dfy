/**
 * The steps that send through the channel, submitting and asking for the next
 * task, beside those of one process; that every step keeps the invariant; and
 * so what holds in every reachable state of the engine.
 *
 * `Reached` says that a run leads from one state to another, for the object
 * whose state is always a reachable one.
 */
module EngineRuns {
  import opened Options
  import opened EngineModel
  import opened EngineInvariant
  import C = Channels
  import R = Reactions

  /** A process that only changes its place, and means the same for its key, message and controller. */
  ghost predicate PlainMove(s: State, s': State, i: nat, pc: Pc)
    requires i < |s.procs|
  {
    var p := s.procs[i];
    var p' := p.(pc := pc);
    && s' == s.(procs := s.procs[i := p'], chan := s'.chan, workers := s'.workers, outstanding := s'.outstanding)
    && WellPlaced(p')
    && HoldsKey(p') == HoldsKey(p) && Live(p') == Live(p)
    && (Live(p) ==> StatusOf(p') == StatusOf(p) && MarkOf(p') == MarkOf(p))
    && !InMove(pc) && !InMove(p.pc) && !Controlled(pc) && !Controlled(p.pc) && !Upset(p')
    && s'.outstanding - s.outstanding == (if Owed(pc) then 1 else 0) - (if Owed(p.pc) then 1 else 0)
  }

  lemma PlainMoveCarries(s: State, s': State, i: nat, pc: Pc)
    requires Local(s, i) && PlainMove(s, s', i, pc)
    ensures Carries(s, s', i)
  {
    assert s.controllers - {i} == s.controllers;
  }

  // ----- submit -----

  /** A waiting worker is given the process. */
  ghost predicate Gives(s: State, s': State, i: nat) {
    && i < |s.procs| && s.procs[i].pc.Announced? && s.chan.receivers != []
    && s'.procs == s.procs[i := s.procs[i].(pc := Held(s.chan.receivers[0]))]
    && s.chan.receivers[0] < |s.workers| && s'.workers == s.workers[s.chan.receivers[0] := Busy(i)]
    && s'.chan == s.chan.(receivers := s.chan.receivers[1..]) && s'.stopped == s.stopped
  }

  lemma ParkingGiven(s: State, s': State, i: nat)
    requires Parking(s) && Gives(s, s', i)
    ensures Parking(s')
  {
    var w, rest := s.chan.receivers[0], s.chan.receivers[1..];
    assert forall r :: 0 <= r < |rest| ==> rest[r] == s.chan.receivers[r + 1] && rest[r] != w;
    forall v | 0 <= v < |s'.workers| && s'.workers[v].Parked? ensures v in rest {
      assert v in s.chan.receivers && v != w;
    }
  }

  lemma SeatGiven(s: State, s': State, i: nat)
    requires Workers(s) && Gives(s, s', i)
    ensures Workers(s')
  {
    ParkingGiven(s, s', i);
    assert forall j :: 0 <= j < |s.procs| && j != i ==> s'.procs[j] == s.procs[j];
  }

  lemma QueueUntouched(s: State, s': State, i: nat, pc: Pc)
    requires Queue(s) && i < |s.procs| && s.procs[i].pc.Announced? && !pc.InQueue?
    requires s'.procs == s.procs[i := s.procs[i].(pc := pc)]
    requires s'.chan == s.chan.(receivers := s'.chan.receivers) && s'.stopped == s.stopped
    ensures Queue(s')
  {
  }

  lemma SubmitHandedKeeps(s: State, i: nat)
    requires Queue(s) && Workers(s)
    requires i < |s.procs| && s.procs[i].pc.Announced? && !s.stopped && s.chan.receivers != []
    ensures Queue(Submit(s, i)) && Workers(Submit(s, i))
  {
    SeatGiven(s, Submit(s, i), i);
    QueueUntouched(s, Submit(s, i), i, Held(s.chan.receivers[0]));
  }

  lemma QueueLengthened(s: State, s': State, i: nat)
    requires Queue(s) && Workers(s) && i < |s.procs| && s.procs[i].pc.Announced? && !s.stopped && s.chan.receivers == []
    requires s'.procs == s.procs[i := s.procs[i].(pc := InQueue)] && s'.workers == s.workers
    requires s'.chan == s.chan.(buffer := s.chan.buffer + [i]) && s'.stopped == s.stopped
    ensures Queue(s') && Workers(s')
  {
    assert s'.chan.buffer[|s.chan.buffer|] == i;
    forall j | 0 <= j < |s'.procs| && s'.procs[j].pc.InQueue?
      ensures j in s'.chan.buffer
    {
      if j != i {
        assert j in s.chan.buffer;
      }
    }
  }

  lemma SubmitStoredKeeps(s: State, i: nat)
    requires Queue(s) && Workers(s)
    requires i < |s.procs| && s.procs[i].pc.Announced? && !s.stopped && s.chan.receivers == [] && |s.chan.buffer| < MAX_QUEUED
    ensures Queue(Submit(s, i)) && Workers(Submit(s, i))
  {
    QueueLengthened(s, Submit(s, i), i);
  }

  lemma SubmitBouncedKeeps(s: State, i: nat)
    requires Queue(s) && Workers(s)
    requires i < |s.procs| && s.procs[i].pc.Announced? && s.stopped
    ensures Queue(Submit(s, i)) && Workers(Submit(s, i))
  {
    var s' := Submit(s, i);
    assert s'.procs[i].pc == Bounced && s'.chan == s.chan;
  }

  lemma SubmitCarries(s: State, i: nat)
    requires Local(s, i) && s.procs[i].pc.Announced?
    requires s.chan.closed == s.stopped && s.chan.capacity == C.Bounded(MAX_QUEUED)
    requires |s.chan.buffer| < MAX_QUEUED || s.stopped
    requires s.chan.receivers != [] ==> s.chan.receivers[0] < |s.workers|
    ensures Carries(s, Submit(s, i), i)
  {
    PlainMoveCarries(s, Submit(s, i), i, Submit(s, i).procs[i].pc);
  }

  lemma SubmitKeeps(s: State, i: nat)
    requires Inv(s) && i < |s.procs| && s.procs[i].pc.Announced?
    ensures Inv(Submit(s, i))
  {
    InvIsLocal(s, i);
    RoomToSend(s, i);
    SubmitCarries(s, i);
    if s.stopped {
      SubmitBouncedKeeps(s, i);
    } else if s.chan.receivers != [] {
      SubmitHandedKeeps(s, i);
    } else {
      SubmitStoredKeeps(s, i);
    }
    CarryingKeeps(s, Submit(s, i), i);
  }

  lemma EnqueueRepoKeeps(s: State, key: Key)
    requires Inv(s)
    ensures Inv(Next(s, EnqueueRepo(key)))
  {
    if EnqueueAccepts(s, key) {
      var p := Proc(Repo(key), Announced);
      var spawned := Spawn(s.(inFlight := s.inFlight + {key}), Repo(key));
      SpawnStepKeeps(s, spawned, p);
      SubmitKeeps(spawned, |s.procs|);
    }
  }

  // ----- workers -----

  /** A worker puts down its process, which leaves every seat. */
  lemma SeatVacated(s: State, s': State, i: nat)
    requires Queue(s) && Workers(s) && i < |s.procs| && s.procs[i].pc.Leaving?
    requires s'.procs == s.procs[i := s.procs[i].(pc := Gone(s.procs[i].pc.kept))]
    requires s.procs[i].pc.worker < |s.workers| && s'.workers == s.workers[s.procs[i].pc.worker := Looping]
    requires s'.chan == s.chan && s'.stopped == s.stopped
    ensures Queue(s') && Workers(s')
  {
  }

  /** A worker picks up the first queued process. */
  lemma SeatTaken(s: State, s': State, w: nat, i: nat)
    requires Workers(s) && i < |s.procs| && s.procs[i].pc.InQueue? && w < |s.workers| && s.workers[w].Looping?
    requires s'.procs == s.procs[i := s.procs[i].(pc := Held(w))] && s'.workers == s.workers[w := Busy(i)]
    requires s.chan.buffer != [] && s'.chan == s.chan.(buffer := s.chan.buffer[1..]) && s'.stopped == s.stopped
    ensures Workers(s')
  {
  }

  lemma QueueShortened(s: State, s': State, w: nat)
    requires Queue(s) && s.chan.buffer != []
    requires s'.procs == s.procs[s.chan.buffer[0] := s.procs[s.chan.buffer[0]].(pc := Held(w))]
    requires s'.chan == s.chan.(buffer := s.chan.buffer[1..]) && s'.stopped == s.stopped
    ensures Queue(s')
  {
    forall j | 0 <= j < |s'.procs| && s'.procs[j].pc.InQueue?
      ensures j in s'.chan.buffer
    {
      var b :| 0 <= b < |s.chan.buffer| && s.chan.buffer[b] == j;
      assert s'.chan.buffer[b - 1] == j;
    }
  }

  lemma FinishSeats(s: State, i: nat)
    requires Queue(s) && Workers(s) && Enabled(s, Finish(i))
    ensures Queue(Next(s, Finish(i))) && Workers(Next(s, Finish(i)))
  {
    var s' := FinishNext(s, i);
    if s.procs[i].pc.Leaving? {
      SeatVacated(s, s', i);
    } else {
      QueueAndWorkersAfter(s, s', i);
    }
  }

  lemma FinishKeeps(s: State, i: nat)
    requires Inv(s) && Enabled(s, Finish(i))
    ensures Inv(Next(s, Finish(i)))
  {
    InvIsLocal(s, i);
    FinishSeats(s, i);
    FinishCarries(s, i);
    CarryingKeeps(s, Next(s, Finish(i)), i);
  }

  lemma LeavingCarries(s: State, s': State, i: nat)
    requires Local(s, i) && s.procs[i].pc.Leaving?
    requires s' == s.(procs := s.procs[i := s.procs[i].(pc := Gone(s.procs[i].pc.kept))],
                      workers := s'.workers, outstanding := s.outstanding - 1)
    ensures Carries(s, s', i)
  {
    PlainMoveCarries(s, s', i, Gone(s.procs[i].pc.kept));
  }

  lemma BouncedCarries(s: State, s': State, i: nat)
    requires Local(s, i) && s.procs[i].pc.Bounced?
    requires s' == s.(procs := s.procs[i := s.procs[i].(pc := Gone(true))], outstanding := s.outstanding - 1)
    ensures Carries(s, s', i)
  {
    PlainMoveCarries(s, s', i, Gone(true));
  }

  lemma LeavingShape(s: State, i: nat)
    requires Enabled(s, Finish(i)) && s.procs[i].pc.Leaving?
    ensures var s' := FinishNext(s, i);
      s' == s.(procs := s.procs[i := s.procs[i].(pc := Gone(s.procs[i].pc.kept))], workers := s'.workers,
               outstanding := s.outstanding - 1)
  {
  }

  lemma BouncedShape(s: State, i: nat)
    requires Enabled(s, Finish(i)) && s.procs[i].pc.Bounced?
    ensures FinishNext(s, i) == s.(procs := s.procs[i := s.procs[i].(pc := Gone(true))], outstanding := s.outstanding - 1)
  {
  }

  lemma FinishCarries(s: State, i: nat)
    requires Local(s, i) && Enabled(s, Finish(i))
    ensures Carries(s, FinishNext(s, i), i)
  {
    if s.procs[i].pc.Leaving? {
      LeavingShape(s, i);
      LeavingCarries(s, FinishNext(s, i), i);
    } else {
      BouncedShape(s, i);
      BouncedCarries(s, FinishNext(s, i), i);
    }
  }

  /** Taking from a buffer nobody waits behind. */
  lemma TakeFirst(c: C.Chan<nat>, w: nat)
    requires c.senders == [] && c.buffer != []
    ensures C.Receive(c, w).chan == c.(buffer := c.buffer[1..])
    ensures C.Receive(c, w).fate == C.Got(c.buffer[0])
  {
  }

  /** A worker takes the first process of the buffer. */
  ghost predicate Takes(s: State, s': State, w: nat, i: nat) {
    && w < |s.workers| && i < |s.procs| && s.chan.buffer != [] && i == s.chan.buffer[0]
    && s' == s.(procs := s.procs[i := s.procs[i].(pc := Held(w))], workers := s.workers[w := Busy(i)],
                chan := s.chan.(buffer := s.chan.buffer[1..]))
  }

  lemma LoopTakes(s: State, w: nat)
    requires Queue(s) && Enabled(s, Loop(w)) && s.chan.buffer != []
    ensures Takes(s, Next(s, Loop(w)), w, s.chan.buffer[0])
  {
    LoopNextTakes(s, w);
  }

  lemma LoopNextTakes(s: State, w: nat)
    requires w < |s.workers| && s.chan.senders == [] && s.chan.buffer != [] && s.chan.buffer[0] < |s.procs|
    ensures Takes(s, LoopNext(s, w), w, s.chan.buffer[0])
  {
    TakeFirst(s.chan, w);
  }

  lemma LoopTakesSeats(s: State, s': State, w: nat, i: nat)
    requires Queue(s) && Workers(s) && Enabled(s, Loop(w)) && Takes(s, s', w, i)
    ensures Queue(s') && Workers(s')
  {
    SeatTaken(s, s', w, i);
    QueueShortened(s, s', w);
  }

  lemma LoopTakesCarries(s: State, s': State, w: nat, i: nat)
    requires Queue(s) && Takes(s, s', w, i) && Local(s, i)
    ensures Carries(s, s', i)
  {
    PlainMoveCarries(s, s', i, Held(w));
  }

  /** A worker that finds nothing parks, or leaves for good once the channel is closed. */
  ghost predicate Rests(s: State, s': State, w: nat)
    requires w < |s.workers|
  {
    && s.chan.buffer == []
    && s' == if s.stopped then s.(workers := s.workers[w := Exited])
             else s.(workers := s.workers[w := Parked], chan := s.chan.(receivers := s.chan.receivers + [w]))
  }

  lemma LoopRests(s: State, w: nat)
    requires Queue(s) && Enabled(s, Loop(w)) && s.chan.buffer == []
    ensures Rests(s, Next(s, Loop(w)), w)
  {
  }

  lemma RestingSeats(s: State, s': State, w: nat)
    requires Queue(s) && Workers(s) && Shapes(s) && Control(s)
    requires w < |s.workers| && s.workers[w].Looping? && Rests(s, s', w)
    ensures Queue(s') && Workers(s') && Shapes(s') && Control(s')
  {
    if !s.stopped {
      assert s'.chan.receivers[|s.chan.receivers|] == w;
    }
  }

  /** Only the channel, the workers and the abort signals changed. */
  ghost predicate SeatsOnly(s: State, s': State) {
    s' == s.(chan := s'.chan, workers := s'.workers, stopped := s'.stopped, aborted := s'.aborted)
  }

  lemma KeysAfterSeats(s: State, s': State)
    requires Keys(s) && SeatsOnly(s, s')
    ensures Keys(s')
  {
    forall k | k in s'.inFlight
      ensures exists j :: 0 <= j < |s'.procs| && HoldsKey(s'.procs[j]) && s'.procs[j].task.key == k
    {
      var j :| 0 <= j < |s.procs| && HoldsKey(s.procs[j]) && s.procs[j].task.key == k;
      assert HoldsKey(s'.procs[j]);
    }
  }

  lemma MessagesAfterSeats(s: State, s': State)
    requires Messages(s) && Reactions(s) && SeatsOnly(s, s')
    ensures Messages(s') && Reactions(s')
  {
    forall m | m in s'.marks && m !in s'.doubled
      ensures LiveMessage(s', m)
    {
      assert LiveMessage(s, m);
    }
    forall j | 0 <= j < |s'.procs| && Live(s'.procs[j]) && s'.procs[j].task.msg !in s'.doubled
      ensures Tracked(s', j)
      ensures !s'.flaky && s'.procs[j].task.msg in s'.clean ==> ShowsRight(s', j)
    {
      assert Tracked(s, j);
      assert !s.flaky && s.procs[j].task.msg in s.clean ==> ShowsRight(s, j);
    }
  }

  lemma SeatsOnlyKeeps(s: State, s': State)
    requires Inv(s) && SeatsOnly(s, s') && Queue(s') && Workers(s') && Shapes(s') && Control(s')
    ensures Inv(s')
  {
    KeysAfterSeats(s, s');
    MessagesAfterSeats(s, s');
  }

  lemma LoopKeeps(s: State, w: nat)
    requires Inv(s) && Enabled(s, Loop(w))
    ensures Inv(Next(s, Loop(w)))
  {
    var s' := Next(s, Loop(w));
    if s.chan.buffer != [] {
      LoopTakes(s, w);
      LoopTakesSeats(s, Next(s, Loop(w)), w, s.chan.buffer[0]);
      InvIsLocal(s, s.chan.buffer[0]);
      LoopTakesCarries(s, Next(s, Loop(w)), w, s.chan.buffer[0]);
      CarryingKeeps(s, s', s.chan.buffer[0]);
    } else {
      LoopRests(s, w);
      RestingSeats(s, s', w);
      SeatsOnlyKeeps(s, s');
    }
  }

  // ----- stop -----

  lemma StopSeats(s: State)
    requires Queue(s) && Workers(s) && Shapes(s) && Control(s)
    ensures SeatsOnly(s, StopNext(s))
    ensures Queue(StopNext(s)) && Workers(StopNext(s)) && Shapes(StopNext(s)) && Control(StopNext(s))
  {
    var s' := StopNext(s);
    assert s'.procs == s.procs;
  }

  lemma StopKeeps(s: State)
    requires Inv(s)
    ensures Inv(StopNext(s))
  {
    StopSeats(s);
    SeatsOnlyKeeps(s, StopNext(s));
  }

  // ----- every step, every run -----

  predicate IsLocal(step: Step) {
    step.React? || step.Start? || step.BeginRun? || step.EndRun? || step.Conclude? || step.Finally?
  }

  lemma StepIsLocal(s: State, step: Step)
    requires Enabled(s, step) && IsLocal(step) && Local(s, step.proc)
    ensures LocalStep(s, Next(s, step), step.proc)
  {
    match step {
      case React(i, ok) =>
        if |s.procs[i].pc.ops| > 1 { ReactMidwayIsLocal(s, i, ok); } else { ReactLastIsLocal(s, i, ok); }
      case Start(i) =>
        if s.stopped { StartAfterStopIsLocal(s, i); }
        else if s.procs[i].task.Repo? { StartRepoIsLocal(s, i); }
        else { StartReviewIsLocal(s, i); }
      case BeginRun(i) => BeginRunIsLocal(s, i);
      case EndRun(i) => EndRunIsLocal(s, i);
      case Conclude(i, to) => ConcludeIsLocal(s, i, to);
      case Finally(i) => FinallyIsLocal(s, i);
    }
  }

  lemma LocalStepsKeep(s: State, step: Step)
    requires Inv(s) && Enabled(s, step) && IsLocal(step)
    ensures Inv(Next(s, step))
  {
    InvIsLocal(s, step.proc);
    StepIsLocal(s, step);
    LocalStepKeeps(s, Next(s, step), step.proc);
  }

  /** Every step of one process carries what is its own along. */
  lemma StepCarries(s: State, step: Step)
    requires Inv(s) && Enabled(s, step) && (IsLocal(step) || step.Resume? || step.Finish?)
    ensures Carries(s, Next(s, step), step.proc)
  {
    var i := step.proc;
    InvIsLocal(s, i);
    if IsLocal(step) {
      StepIsLocal(s, step);
    } else if step.Finish? {
      FinishCarries(s, i);
    } else if s.procs[i].pc.Announced? {
      RoomToSend(s, i);
      SubmitCarries(s, i);
    } else {
      DropMarkIsLocal(s, i);
    }
  }

  lemma StepKeeps(s: State, step: Step)
    requires Inv(s) && Enabled(s, step)
    ensures Inv(Next(s, step))
  {
    match step {
      case HandleJob(_, _) => HandleKeeps(s, step);
      case HandleError(_) => HandleKeeps(s, step);
      case HandleReply(_) => HandleKeeps(s, step);
      case EnqueueRepo(key) => EnqueueRepoKeeps(s, key);
      case Resume(i) => ResumeKeeps(s, i);
      case Finish(i) => FinishKeeps(s, i);
      case Loop(w) => LoopKeeps(s, w);
      case Stop => StopKeeps(s);
      case Prune(expired) =>
        PruningIsStore(s, expired);
        StoreStepKeeps(s, Next(s, step));
      case _ => LocalStepsKeep(s, step);
    }
  }

  lemma ResumeKeeps(s: State, i: nat)
    requires Inv(s) && Enabled(s, Resume(i))
    ensures Inv(Next(s, Resume(i)))
  {
    if s.procs[i].pc.Announced? {
      SubmitKeeps(s, i);
    } else {
      InvIsLocal(s, i);
      DropMarkIsLocal(s, i);
      LocalStepKeeps(s, Next(s, Resume(i)), i);
    }
  }

  lemma FreshInv(ids: R.Ids, concurrency: nat, handled: map<MsgId, Status>, shown: map<MsgId, set<string>>)
    ensures Inv(Fresh(ids, concurrency, handled, shown))
  {
    var s := Fresh(ids, concurrency, handled, shown);
    forall w | 0 <= w < |s.workers|
      ensures w in s.chan.receivers
    {
      assert s.chan.receivers[w] == w;
    }
  }

  lemma {:induction false} RunKeeps(s: State, steps: seq<Step>)
    requires Inv(s) && ValidRun(s, steps)
    ensures Inv(Run(s, steps))
    decreases |steps|
  {
    if steps != [] {
      StepKeeps(s, steps[0]);
      RunKeeps(Next(s, steps[0]), steps[1..]);
    }
  }

  // ----- Reachable states -----

  predicate LeadTo(s: State, steps: seq<Step>, end: State) {
    ValidRun(s, steps) && Run(s, steps) == end
  }

  ghost predicate IsFresh(s: State) {
    exists concurrency, handled, shown :: s == Fresh(s.ids, concurrency, handled, shown)
  }

  /** A fresh engine can come into this state. */
  ghost predicate Reached(start: State, s: State) {
    IsFresh(start) && exists steps :: LeadTo(start, steps, s)
  }

  lemma FreshIsReached(ids: R.Ids, concurrency: nat, handled: map<MsgId, Status>, shown: map<MsgId, set<string>>)
    ensures Reached(Fresh(ids, concurrency, handled, shown), Fresh(ids, concurrency, handled, shown))
  {
    assert LeadTo(Fresh(ids, concurrency, handled, shown), [], Fresh(ids, concurrency, handled, shown));
  }

  lemma ReachedInv(start: State, s: State)
    requires Reached(start, s)
    ensures Inv(s)
  {
    var concurrency, handled, shown :| start == Fresh(start.ids, concurrency, handled, shown);
    var steps :| LeadTo(start, steps, s);
    FreshInv(start.ids, concurrency, handled, shown);
    RunKeeps(start, steps);
  }

  lemma {:induction false} LeadOn(s: State, steps: seq<Step>, mid: State, step: Step)
    requires LeadTo(s, steps, mid) && Enabled(mid, step)
    ensures LeadTo(s, steps + [step], Next(mid, step))
    decreases |steps|
  {
    if steps == [] {
      assert [step][1..] == [];
    } else {
      LeadOn(Next(s, steps[0]), steps[1..], mid, step);
      assert (steps + [step])[1..] == steps[1..] + [step];
    }
  }

  lemma ReachOn(start: State, s: State, step: Step)
    requires Reached(start, s) && Enabled(s, step)
    ensures Reached(start, Next(s, step))
  {
    var steps :| LeadTo(start, steps, s);
    LeadOn(start, steps, s, step);
  }
}
