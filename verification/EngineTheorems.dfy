/** What the invariant means for the jobs, the messages and the shutdown of the engine. */
module EngineTheorems {
  import opened Options
  import opened EngineModel
  import opened EngineInvariant
  import opened EngineRuns
  import C = Channels
  import R = Reactions

  // ----- The queue and the keys in flight -----

  function Holders(procs: seq<Proc>): set<nat> {
    set i: nat | i < |procs| && HoldsKey(procs[i])
  }

  function SeatedProcs(procs: seq<Proc>): set<nat> {
    set i: nat | i < |procs| && Seated(procs[i].pc)
  }

  /** No more processes are seated than there are workers. */
  lemma SeatsAreFew(s: State)
    requires Workers(s)
    ensures |SeatedProcs(s.procs)| <= |s.workers|
  {
    var seats := set i | i in SeatedProcs(s.procs) :: s.procs[i].pc.worker;
    SeatsOfMany(s, SeatedProcs(s.procs));
    assert seats <= Below(|s.workers|);
    CardinalityOfSubset(seats, Below(|s.workers|));
  }

  function Below(n: nat): (r: set<nat>)
    ensures |r| == n
    ensures forall w: nat :: w in r <==> w < n
  {
    if n == 0 then {} else Below(n - 1) + {n - 1}
  }

  lemma {:induction false} SeatsOfMany(s: State, procs: set<nat>)
    requires Workers(s) && procs <= SeatedProcs(s.procs)
    ensures |set i | i in procs :: s.procs[i].pc.worker| == |procs|
  {
    if procs != {} {
      var i :| i in procs;
      var rest := procs - {i};
      SeatsOfMany(s, rest);
      var w := s.procs[i].pc.worker;
      assert forall j :: j in rest ==> s.procs[j].pc.worker != w;
      assert (set j | j in procs :: s.procs[j].pc.worker) == (set j | j in rest :: s.procs[j].pc.worker) + {w};
    }
  }

  /** The key a handler took before its move threw: it stays in flight, and no job will free it. */
  predicate Leaked(p: Proc) {
    p.task.Review? && p.pc.Lost?
  }

  function KeysHeld(procs: seq<Proc>): set<Key> {
    set i | i in Holders(procs) :: procs[i].task.key
  }

  /** The keys of the jobs not yet past their `finally`. */
  function JobKeys(procs: seq<Proc>): set<Key> {
    set i | i in Holders(procs) && !Leaked(procs[i]) :: procs[i].task.key
  }

  /**
   * In every reachable state, whatever maintenance drops and when: the keys in
   * flight are those of the jobs not yet past their `finally` and of the
   * handlers whose move threw, no two of which share one; there are at most
   * MAX_QUEUED of them; the queued tasks never outnumber them, so no send ever
   * waits; and no more tasks run at once than there are workers.
   */
  lemma QueueAndKeys(ids: R.Ids, concurrency: nat, handled: map<MsgId, Status>, shown: map<MsgId, set<string>>, steps: seq<Step>)
    requires ValidRun(Fresh(ids, concurrency, handled, shown), steps)
    ensures var s := Run(Fresh(ids, concurrency, handled, shown), steps);
      && s.inFlight == KeysHeld(s.procs)
      && (forall i, j :: i in Holders(s.procs) && j in Holders(s.procs) && i != j ==> s.procs[i].task.key != s.procs[j].task.key)
      && |s.inFlight| <= 64
      && |s.chan.buffer| <= |s.inFlight|
      && s.chan.senders == []
      && |SeatedProcs(s.procs)| <= concurrency
  {
    FreshInv(ids, concurrency, handled, shown);
    RunKeeps(Fresh(ids, concurrency, handled, shown), steps);
    WorkersStay(Fresh(ids, concurrency, handled, shown), steps);
    var s := Run(Fresh(ids, concurrency, handled, shown), steps);
    SeatsAreFew(s);
    BufferedAreFew(s);
    KeysAreHeld(s);
  }

  /** They are exactly those of the jobs if and only if no handler's move threw over a key. */
  lemma KeysExactIff(s: State)
    requires Inv(s)
    ensures s.inFlight == JobKeys(s.procs) <==> forall i :: 0 <= i < |s.procs| ==> !Leaked(s.procs[i])
  {
    KeysAreHeld(s);
    if i :| 0 <= i < |s.procs| && Leaked(s.procs[i]) {
      assert i in Holders(s.procs);
      var key := s.procs[i].task.key;
      assert key in s.inFlight;
      assert forall j :: j in Holders(s.procs) && !Leaked(s.procs[j]) ==> s.procs[j].task.key != key;
    } else {
      assert forall j :: j in Holders(s.procs) ==> !Leaked(s.procs[j]);
    }
  }

  lemma BufferedAreFew(s: State)
    requires Keys(s) && Queue(s) && Shapes(s)
    ensures |s.chan.buffer| <= |s.inFlight|
  {
    if s.chan.buffer != [] {
      var tasks := s.chan.buffer;
      forall b, c | 0 <= b < c < |tasks|
        ensures s.procs[tasks[b]].task.key != s.procs[tasks[c]].task.key
      {
        assert HoldsKey(s.procs[tasks[b]]) && HoldsKey(s.procs[tasks[c]]) && tasks[b] != tasks[c];
      }
      KeysOfCount(s.procs, tasks);
      CardinalityOfSubset(KeysOf(s.procs, tasks), s.inFlight);
    }
  }

  lemma KeysAreHeld(s: State)
    requires Keys(s)
    ensures s.inFlight == KeysHeld(s.procs)
    ensures forall i, j :: i in Holders(s.procs) && j in Holders(s.procs) && i != j ==> s.procs[i].task.key != s.procs[j].task.key
  {
    forall k | k in s.inFlight
      ensures k in KeysHeld(s.procs)
    {
      var i :| 0 <= i < |s.procs| && HoldsKey(s.procs[i]) && s.procs[i].task.key == k;
      assert i in Holders(s.procs);
    }
    forall i, j | i in Holders(s.procs) && j in Holders(s.procs) && i != j
      ensures s.procs[i].task.key != s.procs[j].task.key
    {
      if i < j {
        assert s.procs[i].task.key != s.procs[j].task.key;
      } else {
        assert s.procs[j].task.key != s.procs[i].task.key;
      }
    }
  }

  lemma WorkersCount(s: State, step: Step)
    requires Enabled(s, step)
    ensures |Next(s, step).workers| == |s.workers|
  {
  }

  lemma {:induction false} WorkersStay(s: State, steps: seq<Step>)
    requires ValidRun(s, steps)
    ensures |Run(s, steps).workers| == |s.workers|
    decreases |steps|
  {
    if steps != [] {
      WorkersCount(s, steps[0]);
      WorkersStay(Next(s, steps[0]), steps[1..]);
    }
  }

  // ----- Messages that are taken up while a job of theirs goes on -----

  predicate Handles(step: Step) {
    step.HandleJob? || step.HandleError? || step.HandleReply?
  }

  /** A handler is called for a message that a process speaks for, and whose entry the store has dropped. */
  predicate CallsDropped(s: State, step: Step, m: MsgId) {
    !s.stopped && Handles(step) && step.msg == m && DroppedLive(s, m)
  }

  predicate CalledWhileDropped(s: State, steps: seq<Step>, m: MsgId)
    requires ValidRun(s, steps)
    decreases |steps|
  {
    steps != [] && (CallsDropped(s, steps[0], m) || CalledWhileDropped(Next(s, steps[0]), steps[1..], m))
  }

  lemma HandlesDoubles(s: State, step: Step, m: MsgId)
    requires Handles(step)
    ensures m in Next(s, step).doubled <==> m in s.doubled || CallsDropped(s, step, m)
  {
  }

  lemma OthersDoubleNone(s: State, step: Step)
    requires Enabled(s, step) && !Handles(step)
    ensures Next(s, step).doubled == s.doubled
  {
  }

  lemma DoubledStep(s: State, step: Step, m: MsgId)
    requires Enabled(s, step)
    ensures m in Next(s, step).doubled <==> m in s.doubled || CallsDropped(s, step, m)
  {
    if Handles(step) {
      HandlesDoubles(s, step, m);
    } else {
      OthersDoubleNone(s, step);
    }
  }

  lemma {:induction false} DoubledIff(s: State, steps: seq<Step>, m: MsgId)
    requires ValidRun(s, steps)
    ensures m in Run(s, steps).doubled <==> m in s.doubled || CalledWhileDropped(s, steps, m)
    decreases |steps|
  {
    if steps != [] {
      DoubledStep(s, steps[0], m);
      DoubledIff(Next(s, steps[0]), steps[1..], m);
    }
  }

  /**
   * What is promised of a message: no move of it threw, no handler of it left a
   * key behind, one process at most speaks for it, and that one's place is what
   * its mark says, and its entry while the store has it.
   */
  ghost predicate Sound(s: State, m: MsgId) {
    && m !in s.thrown
    && (forall i :: 0 <= i < |s.procs| && Leaked(s.procs[i]) ==> s.procs[i].task.msg != m)
    && (forall i :: 0 <= i < |s.procs| && Live(s.procs[i]) && s.procs[i].task.msg == m ==> Tracked(s, i))
    && (forall i, j :: 0 <= i < j < |s.procs| && Live(s.procs[i]) && Live(s.procs[j]) && s.procs[i].task.msg == m ==>
          s.procs[j].task.msg != m)
  }

  lemma UndoubledIsSound(s: State, m: MsgId)
    requires Inv(s) && m !in s.doubled
    ensures Sound(s, m)
  {
    forall i | 0 <= i < |s.procs| && Leaked(s.procs[i])
      ensures s.procs[i].task.msg != m
    {
      assert Upset(s.procs[i]);
    }
  }

  /** Over every run, the promise is kept for each message that no handler is called for while its entry is dropped. */
  lemma SoundUnlessCalled(ids: R.Ids, concurrency: nat, handled: map<MsgId, Status>, shown: map<MsgId, set<string>>,
                          steps: seq<Step>, m: MsgId)
    requires ValidRun(Fresh(ids, concurrency, handled, shown), steps)
    requires !CalledWhileDropped(Fresh(ids, concurrency, handled, shown), steps, m)
    ensures Sound(Run(Fresh(ids, concurrency, handled, shown), steps), m)
  {
    FreshInv(ids, concurrency, handled, shown);
    RunKeeps(Fresh(ids, concurrency, handled, shown), steps);
    DoubledIff(Fresh(ids, concurrency, handled, shown), steps, m);
    UndoubledIsSound(Run(Fresh(ids, concurrency, handled, shown), steps), m);
  }

  /** The store's entry contradicts the job that goes on, after one of two calls. */
  lemma CallContradicts(s: State, i: nat) returns (step: Step)
    requires Inv(s) && !s.stopped && i < |s.procs| && Live(s.procs[i]) && s.procs[i].task.msg !in s.handled
    ensures Handles(step) && step.msg == s.procs[i].task.msg && !Sound(Next(s, step), step.msg)
  {
    var m := s.procs[i].task.msg;
    step := if StatusOf(s.procs[i]) == Done then HandleError(m) else HandleReply(m);
    var s' := Next(s, step);
    assert s'.procs[i] == s.procs[i] && s'.handled[m] != StatusOf(s'.procs[i]);
    assert !Tracked(s', i);
  }

  /** And it is kept by every call for the message that may come next, exactly if its entry is not dropped under a job. */
  lemma SafeToHandleIff(s: State, m: MsgId)
    requires Inv(s) && !s.stopped && m !in s.doubled
    ensures (forall step :: Handles(step) && step.msg == m ==> Sound(Next(s, step), m)) <==> !DroppedLive(s, m)
  {
    if DroppedLive(s, m) {
      var i :| 0 <= i < |s.procs| && Live(s.procs[i]) && s.procs[i].task.msg == m;
      var step := CallContradicts(s, i);
    } else {
      forall step | Handles(step) && step.msg == m
        ensures Sound(Next(s, step), m)
      {
        StepKeeps(s, step);
        DoubledStep(s, step, m);
        UndoubledIsSound(Next(s, step), m);
      }
    }
  }

  /**
   * A message that asks for a job, with room and a free key: its first move
   * throws, and the key is left in flight without a job, exactly if a job of
   * the same message has moved already; and then the store had dropped it.
   */
  lemma ForbiddenIff(s: State, m: MsgId, key: Key)
    requires Inv(s) && !s.stopped && m !in s.handled && m !in s.doubled
    requires key !in s.inFlight && |s.inFlight| < MAX_QUEUED
    ensures var s' := Next(s, HandleJob(m, key));
      && key in s'.inFlight
      && (m in s'.thrown <==> s.Mark(m).Some?)
      && (key !in JobKeys(s'.procs) <==> s.Mark(m).Some?)
      && (s.Mark(m).Some? ==> DroppedLive(s, m))
  {
    var p := NewProc(s, Review(m, key), Announcing([]));
    AdmittingIs(s, m, key);
    NewProcShape(s, Review(m, key), Announcing([]));
    TakenUpForbiddenIff(s, HandleJobNext(s, m, key), m, key, p);
  }

  lemma TakenUpForbiddenIff(s: State, s': State, m: MsgId, key: Key, p: Proc)
    requires Messages(s) && Keys(s) && m !in s.thrown && m !in s.doubled && m !in s.handled && key !in s.inFlight
    requires p == NewProc(s, Review(m, key), Announcing([])) && TakenUp(s, s', Review(m, key), p) && HoldsKey(p)
    ensures key in s'.inFlight
    ensures m in s'.thrown <==> s.Mark(m).Some?
    ensures key !in JobKeys(s'.procs) <==> s.Mark(m).Some?
    ensures s.Mark(m).Some? ==> DroppedLive(s, m)
  {
    assert p.pc.Lost? <==> s.Mark(m).Some?;
    NewKeyIsJobs(s, s', p);
  }

  /** A message that is refused: its move to failure throws exactly if a job of the same message has made its last move already. */
  lemma RefusalForbiddenIff(s: State, m: MsgId)
    requires Calm(s) && !s.stopped && m !in s.handled && m !in s.doubled
    ensures m in Next(s, HandleError(m)).thrown <==>
      s.Mark(m) in {Some(R.Approved), Some(R.ChangesRequested), Some(R.Comment), Some(R.Failure)}
  {
    RefusingIs(s, m);
    R.TableIs(s.Mark(m), R.Failure, s.ids);
    if s.Mark(m).Some? {
      var r := s.Mark(m).value;
      assert r in {R.Pending, R.InProgress, R.Approved, R.ChangesRequested, R.Comment, R.Failure};
    }
  }

  /** The key of a new process is that of a job, unless it was lost at once. */
  lemma NewKeyIsJobs(s: State, s': State, p: Proc)
    requires Keys(s) && p.task.Review? && HoldsKey(p) && p.task.key !in s.inFlight && s'.procs == s.procs + [p]
    ensures p.task.key in JobKeys(s'.procs) <==> !Leaked(p)
  {
    var n := |s.procs|;
    assert s'.procs[n] == p && n in Holders(s'.procs);
    forall i | i in Holders(s'.procs) && i != n
      ensures s'.procs[i].task.key != p.task.key
    {
      assert s'.procs[i] == s.procs[i];
    }
  }

  /** The input on which it happens: an old entry is dropped while its job is queued, and the message comes again. */
  lemma DroppedThenThrown(s: State, i: nat, key: Key)
    requires Inv(s) && !s.stopped && i < |s.procs| && s.procs[i].pc.InQueue? && s.procs[i].task.Review?
    requires s.procs[i].task.msg !in s.doubled && key !in s.inFlight && |s.inFlight| < MAX_QUEUED
    ensures var m := s.procs[i].task.msg; var s' := HandleJobNext(s.(handled := s.handled - {m}), m, key);
      m in s'.thrown && key in s'.inFlight && key !in JobKeys(s'.procs)
  {
    var m := s.procs[i].task.msg;
    StepKeeps(s, Prune({m}));
    assert Tracked(s, i);
    ForbiddenIff(s.(handled := s.handled - {m}), m, key);
  }

  /** Over every run the keys in flight are those of the jobs, if no message is called for while its entry is dropped. */
  lemma ExactUnlessCalled(ids: R.Ids, concurrency: nat, handled: map<MsgId, Status>, shown: map<MsgId, set<string>>, steps: seq<Step>)
    requires ValidRun(Fresh(ids, concurrency, handled, shown), steps)
    requires forall m :: !CalledWhileDropped(Fresh(ids, concurrency, handled, shown), steps, m)
    ensures var s := Run(Fresh(ids, concurrency, handled, shown), steps); s.inFlight == JobKeys(s.procs)
  {
    var s := Run(Fresh(ids, concurrency, handled, shown), steps);
    FreshInv(ids, concurrency, handled, shown);
    RunKeeps(Fresh(ids, concurrency, handled, shown), steps);
    forall i | 0 <= i < |s.procs|
      ensures !Leaked(s.procs[i])
    {
      if Leaked(s.procs[i]) {
        SoundUnlessCalled(ids, concurrency, handled, shown, steps, s.procs[i].task.msg);
      }
    }
    KeysExactIff(s);
  }

  // ----- A run that gets there -----

  /** A message is taken up by a handler, for the first time. */
  ghost predicate First(s: State, s': State, m: MsgId, key: Key, pc: Pc) {
    && s'.procs == s.procs + [Proc(Review(m, key), pc)] && s'.inFlight == s.inFlight + {key}
    && s'.ids == s.ids && s'.doubled == s.doubled && s'.chan == s.chan && s'.workers == s.workers && s'.stopped == s.stopped
    && s'.handled == s.handled[m := Pending]
  }

  predicate CanTakeUp(s: State, m: MsgId, key: Key) {
    && !s.stopped && m !in s.handled && m !in s.doubled && !LiveMessage(s, m)
    && key !in s.inFlight && |s.inFlight| < MAX_QUEUED
  }

  lemma TakesUp(start: State, s: State, m: MsgId, key: Key) returns (s': State)
    requires Reached(start, s) && CanTakeUp(s, m, key)
    ensures Reached(start, s') && First(s, s', m, key, Announcing([R.Put(s.ids.pending)]))
  {
    s' := HandleJobNext(s, m, key);
    ReachedInv(start, s);
    ReachOn(start, s, HandleJob(m, key));
    AdmittingIs(s, m, key);
    assert NewProc(s, Review(m, key), Announcing([])) == Proc(Review(m, key), Announcing([R.Put(s.ids.pending)]));
  }

  lemma Announces(start: State, s: State, i: nat, m: MsgId, key: Key, op: R.Op) returns (s': State)
    requires Reached(start, s) && i < |s.procs| && s.procs[i] == Proc(Review(m, key), Announcing([op]))
    ensures Reached(start, s')
    ensures s' == s.(procs := s.procs[i := Proc(Review(m, key), Announced)], shown := s'.shown, marks := s'.marks)
  {
    s' := ReactNext(s, i, true);
    ReachOn(start, s, React(i, true));
  }

  lemma Submits(start: State, s: State, i: nat) returns (s': State)
    requires Reached(start, s) && i < |s.procs| && s.procs[i].pc.Announced? && !s.stopped
    ensures Reached(start, s') && s'.inFlight == s.inFlight && s'.handled == s.handled
    ensures s'.doubled == s.doubled && s'.stopped == s.stopped
    ensures |s'.procs| == |s.procs| && forall j :: 0 <= j < |s.procs| && j != i ==> s'.procs[j] == s.procs[j]
    ensures s'.procs[i].task == s.procs[i].task
    ensures s.chan.receivers == [] ==> s'.procs[i].pc.InQueue?
    ensures s.chan.receivers != [] ==> s'.procs[i].pc.Held? && s'.chan.receivers == s.chan.receivers[1..]
  {
    s' := Submit(s, i);
    ReachedInv(start, s);
    RoomToSend(s, i);
    SubmitShape(s, i);
    ReachOn(start, s, Resume(i));
  }

  /** What is sent is queued, or given to the first worker that waits. */
  lemma SubmitShape(s: State, i: nat)
    requires i < |s.procs| && !s.chan.closed && s.chan.HasRoom()
    requires s.chan.receivers != [] ==> s.chan.receivers[0] < |s.workers|
    ensures var s' := Submit(s, i);
      && s'.inFlight == s.inFlight
      && (s.chan.receivers == [] ==> s'.procs[i].pc.InQueue?)
      && (s.chan.receivers != [] ==> s'.procs[i].pc.Held? && s'.chan.receivers == s.chan.receivers[1..])
  {
  }

  /** A message is announced and its job submitted. */
  lemma Queues(start: State, s: State, m: MsgId, key: Key) returns (s': State)
    requires Reached(start, s) && CanTakeUp(s, m, key)
    ensures Reached(start, s') && s'.inFlight == s.inFlight + {key} && s'.handled == s.handled[m := Pending]
    ensures s'.doubled == s.doubled && s'.stopped == s.stopped
    ensures |s'.procs| == |s.procs| + 1 && forall j :: 0 <= j < |s.procs| ==> s'.procs[j] == s.procs[j]
    ensures s'.procs[|s.procs|].task == Review(m, key)
    ensures s.chan.receivers == [] ==> s'.procs[|s.procs|].pc.InQueue?
    ensures s.chan.receivers != [] ==> s'.procs[|s.procs|].pc.Held? && s'.chan.receivers == s.chan.receivers[1..]
  {
    var taken := TakesUp(start, s, m, key);
    var ready := Announces(start, taken, |s.procs|, m, key, R.Put(s.ids.pending));
    s' := Submits(start, ready, |s.procs|);
  }

  lemma Drops(start: State, s: State, i: nat, again: Key) returns (s': State)
    requires Reached(start, s) && !s.stopped && i < |s.procs| && s.procs[i].pc.InQueue? && s.procs[i].task.Review?
    requires s.procs[i].task.msg !in s.doubled && again !in s.inFlight && |s.inFlight| < MAX_QUEUED
    ensures Reached(start, s') && s.procs[i].task.msg in s'.thrown && again in s'.inFlight && again !in JobKeys(s'.procs)
  {
    var m := s.procs[i].task.msg;
    var pruned := Next(s, Prune({m}));
    ReachedInv(start, s);
    DroppedThenThrown(s, i, again);
    ReachOn(start, s, Prune({m}));
    ReachOn(start, pruned, HandleJob(m, again));
    s' := Next(pruned, HandleJob(m, again));
  }

  /** The only worker is given the first job. */
  lemma WorkerIsBusy(ids: R.Ids, x: MsgId, kx: Key) returns (s: State)
    ensures Reached(Fresh(ids, 1, map[], map[]), s) && s.inFlight == {kx} && s.handled == map[x := Pending] && s.doubled == {} && !s.stopped
    ensures |s.procs| == 1 && s.procs[0].task == Review(x, kx) && s.chan.receivers == []
  {
    var start := Fresh(ids, 1, map[], map[]);
    FreshIsReached(ids, 1, map[], map[]);
    s := Queues(start, start, x, kx);
  }

  /**
   * Two messages and one worker: the second job waits behind the first; its
   * entry is dropped, the message comes again, and a key is lost.
   */
  lemma AKeyIsLost(ids: R.Ids, x: MsgId, m: MsgId, kx: Key, key: Key, again: Key) returns (s: State)
    requires x != m && kx != key && again !in {kx, key}
    ensures Reached(Fresh(ids, 1, map[], map[]), s) && m in s.thrown && again in s.inFlight && again !in JobKeys(s.procs)
  {
    var start := Fresh(ids, 1, map[], map[]);
    var busy := WorkerIsBusy(ids, x, kx);
    CanFollow(busy, x, m, kx, key);
    var waiting := Queues(start, busy, m, key);
    assert waiting.inFlight == {kx, key} && |waiting.inFlight| == 2;
    s := Drops(start, waiting, 1, again);
  }

  lemma CanFollow(s: State, x: MsgId, m: MsgId, kx: Key, key: Key)
    requires s.inFlight == {kx} && s.handled == map[x := Pending] && s.doubled == {} && !s.stopped
    requires |s.procs| == 1 && s.procs[0].task == Review(x, kx) && x != m && kx != key
    ensures CanTakeUp(s, m, key)
  {
  }

  // ----- The lifecycle of a message -----

  /** pending, then running, then done or failed; a message may also be settled at once. */
  predicate StatusMoves(before: Option<Status>, after: Option<Status>) {
    match before
    case None => after != Some(Running)
    case Some(Pending) => after == Some(Pending) || after == Some(Running)
    case Some(Running) => after != None && after != Some(Pending)
    case Some(_) => after == before
  }

  /** The status of a message: its entry, or while that is dropped, where the process that speaks for it stands. */
  ghost function Standing(s: State, m: MsgId): Option<Status> {
    if m in s.handled then Some(s.handled[m])
    else if LiveMessage(s, m) then
      var i :| 0 <= i < |s.procs| && Live(s.procs[i]) && s.procs[i].task.msg == m;
      Some(StatusOf(s.procs[i]))
    else None
  }

  /** It is forgotten: the store has dropped it, and nothing speaks for it any more. */
  ghost predicate Forgotten(s: State, s': State, m: MsgId) {
    && m !in s'.handled && !LiveMessage(s', m)
    && (LiveMessage(s, m) ==> Standing(s, m).Some? && Terminal(Standing(s, m).value))
  }

  lemma StandingOf(s: State, i: nat)
    requires Messages(s) && i < |s.procs| && Live(s.procs[i]) && s.procs[i].task.msg !in s.doubled
    ensures Standing(s, s.procs[i].task.msg) == Some(StatusOf(s.procs[i]))
  {
    assert Tracked(s, i) && LiveMessage(s, s.procs[i].task.msg);
  }

  /** A process and its message go on, or it is done with it. */
  ghost predicate GoesOn(s: State, s': State, i: nat) {
    && Carries(s, s', i)
    && (Live(s.procs[i]) && s.procs[i].task.msg !in s.doubled ==>
          if Live(s'.procs[i]) then StatusMoves(Some(StatusOf(s.procs[i])), Some(StatusOf(s'.procs[i])))
          else s'.handled == s.handled && Terminal(StatusOf(s.procs[i])))
  }

  /** Another process than the one that speaks for the message went on. */
  lemma OtherStanding(s: State, s': State, i: nat, m: MsgId)
    requires Messages(s) && Messages(s') && GoesOn(s, s', i) && m !in s.doubled
    requires !(Live(s.procs[i]) && s.procs[i].task.msg == m)
    ensures Standing(s', m) == Standing(s, m)
  {
    if j :| 0 <= j < |s.procs| && Live(s.procs[j]) && s.procs[j].task.msg == m {
      StandingOf(s, j);
      assert s'.procs[j] == s.procs[j];
      StandingOf(s', j);
    } else {
      assert !LiveMessage(s, m) && !LiveMessage(s', m) by {
        assert forall k :: 0 <= k < |s'.procs| && Live(s'.procs[k]) ==> Live(s.procs[k]) && s'.procs[k].task == s.procs[k].task;
      }
    }
  }

  lemma OwnStanding(s: State, s': State, i: nat)
    requires Messages(s) && Messages(s') && GoesOn(s, s', i) && Live(s.procs[i]) && s.procs[i].task.msg !in s.doubled
    ensures var m := s.procs[i].task.msg;
      StatusMoves(Standing(s, m), Standing(s', m)) || Forgotten(s, s', m)
  {
    var m := s.procs[i].task.msg;
    StandingOf(s, i);
    if Live(s'.procs[i]) {
      StandingOf(s', i);
    } else if m !in s'.handled {
      assert !LiveMessage(s', m) by {
        assert forall k :: 0 <= k < |s'.procs| && Live(s'.procs[k]) ==> k != i && Live(s.procs[k]) && s'.procs[k] == s.procs[k];
      }
    } else {
      assert Tracked(s, i);
    }
  }

  lemma GoingOnMoves(s: State, s': State, i: nat, m: MsgId)
    requires Messages(s) && Messages(s') && GoesOn(s, s', i) && m !in s.doubled
    ensures StatusMoves(Standing(s, m), Standing(s', m)) || Forgotten(s, s', m)
  {
    if Live(s.procs[i]) && s.procs[i].task.msg == m {
      OwnStanding(s, s', i);
    } else {
      OtherStanding(s, s', i, m);
      StandingIsNotNew(s, m);
    }
  }

  /** Whatever stands may stay. */
  lemma StandingIsNotNew(s: State, m: MsgId)
    ensures Standing(s, m) != None ==> StatusMoves(Standing(s, m), Standing(s, m))
    ensures StatusMoves(None, None)
  {
  }

  /** The steps of one process. */
  predicate OfProcess(s: State, step: Step) {
    step.React? || step.Resume? || step.Start? || step.BeginRun? || step.EndRun? || step.Conclude? || step.Finally? || step.Finish?
    || (step.Loop? && s.chan.buffer != [])
  }

  lemma StartStatus(s: State, i: nat)
    requires Local(s, i) && Enabled(s, Start(i)) && Live(s.procs[i]) && s.procs[i].task.msg !in s.doubled
    ensures var s' := StartNext(s, i);
      if Live(s'.procs[i]) then StatusMoves(Some(StatusOf(s.procs[i])), Some(StatusOf(s'.procs[i])))
      else s'.handled == s.handled && Terminal(StatusOf(s.procs[i]))
  {
  }

  lemma ConcludeStatus(s: State, i: nat, to: R.Reaction)
    requires Local(s, i) && Enabled(s, Conclude(i, to)) && s.procs[i].task.msg !in s.doubled
    ensures var s' := ConcludeNext(s, i, to);
      Live(s'.procs[i]) && StatusMoves(Some(StatusOf(s.procs[i])), Some(StatusOf(s'.procs[i])))
  {
    ConcludeIs(s, i, to);
  }

  /** The process goes on with the status it had, or is done with its message. */
  ghost predicate SameStatus(s: State, s': State, i: nat)
    requires i < |s.procs|
  {
    && i < |s'.procs|
    && if Live(s'.procs[i]) then StatusOf(s.procs[i]) == StatusOf(s'.procs[i])
       else s'.handled == s.handled && Terminal(StatusOf(s.procs[i]))
  }

  lemma ReactStatus(s: State, i: nat, ok: bool)
    requires Enabled(s, React(i, ok)) && Local(s, i) && Live(s.procs[i])
    ensures SameStatus(s, ReactNext(s, i, ok), i)
  {
  }

  lemma ResumeStatus(s: State, i: nat)
    requires Enabled(s, Resume(i)) && Local(s, i) && Live(s.procs[i])
    ensures SameStatus(s, ResumeNext(s, i), i)
  {
  }

  lemma FinishStatus(s: State, i: nat)
    requires Enabled(s, Finish(i)) && Local(s, i) && Live(s.procs[i])
    ensures SameStatus(s, FinishNext(s, i), i)
  {
  }

  lemma FinallyStatus(s: State, i: nat)
    requires Enabled(s, Finally(i)) && Local(s, i) && Live(s.procs[i])
    ensures SameStatus(s, FinallyNext(s, i), i)
  {
  }

  lemma OtherStatus(s: State, step: Step)
    requires step.React? || step.Resume? || step.BeginRun? || step.EndRun? || step.Finally? || step.Finish?
    requires Enabled(s, step) && Local(s, step.proc) && Live(s.procs[step.proc])
    ensures SameStatus(s, Next(s, step), step.proc)
  {
    if step.React? {
      ReactStatus(s, step.proc, step.ok);
    } else if step.Resume? {
      ResumeStatus(s, step.proc);
    } else if step.Finish? {
      FinishStatus(s, step.proc);
    } else if step.Finally? {
      FinallyStatus(s, step.proc);
    }
  }

  lemma StepGoesOn(s: State, step: Step) returns (i: nat)
    requires Inv(s) && Enabled(s, step) && OfProcess(s, step)
    ensures GoesOn(s, Next(s, step), i)
  {
    if step.Loop? {
      i := s.chan.buffer[0];
      InvIsLocal(s, i);
      LoopTakes(s, step.worker);
      LoopTakesCarries(s, Next(s, step), step.worker, i);
    } else {
      i := step.proc;
      InvIsLocal(s, i);
      StepCarries(s, step);
      if Live(s.procs[i]) && s.procs[i].task.msg !in s.doubled {
        if step.Start? {
          StartStatus(s, i);
        } else if step.Conclude? {
          ConcludeStatus(s, i, step.to);
        } else {
          OtherStatus(s, step);
        }
      }
    }
  }

  /** A handler's call, for the message or another one. */
  lemma HandleMoves(s: State, step: Step, m: MsgId)
    requires Inv(s) && Handles(step) && m !in Next(s, step).doubled
    ensures StatusMoves(Standing(s, m), Standing(Next(s, step), m))
  {
    var s' := Next(s, step);
    StepKeeps(s, step);
    DoubledStep(s, step, m);
    if s.stopped || step.msg in s.handled {
      StandingIsNotNew(s, m);
    } else if step.msg == m {
      TakenUpStatus(s, step);
    } else {
      SpawnsForOther(s, step, m);
      KeptStanding(s, s', m);
      StandingIsNotNew(s, m);
    }
  }

  lemma TakenUpStatus(s: State, step: Step)
    requires Handles(step) && !s.stopped && step.msg !in s.handled
    ensures step.msg in Next(s, step).handled && Next(s, step).handled[step.msg] != Running
  {
  }

  /** Nothing happened to the message and its process. */
  ghost predicate KeepsMessage(s: State, s': State, m: MsgId) {
    && (m in s'.handled <==> m in s.handled) && (m in s.handled ==> s'.handled[m] == s.handled[m])
    && s.procs <= s'.procs
    && forall i :: |s.procs| <= i < |s'.procs| && Live(s'.procs[i]) ==> s'.procs[i].task.msg != m
  }

  lemma TakenUpForOther(s: State, s': State, task: Task, p: Proc, m: MsgId)
    requires !task.Repo? && p.task == task && TakenUp(s, s', task, p) && task.msg != m
    ensures KeepsMessage(s, s', m)
  {
  }

  lemma SpawnsForOther(s: State, step: Step, m: MsgId)
    requires Handles(step) && step.msg != m && !s.stopped && step.msg !in s.handled
    ensures KeepsMessage(s, Next(s, step), m)
  {
    if step.HandleReply? || (step.HandleJob? && step.key in s.inFlight) {
      assert Next(s, step) == TakeUp(s, step.msg, Done);
    } else if step.HandleError? || |s.inFlight| >= MAX_QUEUED {
      RefusingIs(s, step.msg);
      TakenUpForOther(s, RefuseMessage(s, step.msg), Refusal(step.msg), NewProc(s, Refusal(step.msg), Refusing([])), m);
    } else {
      AdmittingIs(s, step.msg, step.key);
      TakenUpForOther(s, HandleJobNext(s, step.msg, step.key), Review(step.msg, step.key),
                      NewProc(s, Review(step.msg, step.key), Announcing([])), m);
    }
  }

  lemma KeptStanding(s: State, s': State, m: MsgId)
    requires Messages(s) && Messages(s') && m !in s.doubled && m !in s'.doubled && KeepsMessage(s, s', m)
    ensures Standing(s', m) == Standing(s, m)
  {
    if i :| 0 <= i < |s.procs| && Live(s.procs[i]) && s.procs[i].task.msg == m {
      assert s'.procs[i] == s.procs[i];
      StandingOf(s, i);
      StandingOf(s', i);
    } else {
      assert !LiveMessage(s, m);
      assert !LiveMessage(s', m) by {
        assert forall k :: 0 <= k < |s.procs| ==> s'.procs[k] == s.procs[k];
      }
    }
  }

  lemma PruneMoves(s: State, expired: set<MsgId>, m: MsgId)
    requires Inv(s) && m !in s.doubled
    ensures var s' := Next(s, Prune(expired));
      Standing(s', m) == Standing(s, m) || Forgotten(s, s', m)
  {
    var s' := Next(s, Prune(expired));
    StepKeeps(s, Prune(expired));
    if i :| 0 <= i < |s.procs| && Live(s.procs[i]) && s.procs[i].task.msg == m {
      assert s'.procs[i] == s.procs[i];
      StandingOf(s, i);
      StandingOf(s', i);
    } else {
      assert !LiveMessage(s, m) && !LiveMessage(s', m);
    }
  }

  lemma EnqueueKeepsMessage(s: State, key: Key, m: MsgId)
    ensures KeepsMessage(s, EnqueueRepoNext(s, key), m)
  {
  }

  lemma RestKeeps(s: State, step: Step, m: MsgId)
    requires Inv(s) && Enabled(s, step)
    requires step.EnqueueRepo? || step.Stop? || (step.Loop? && s.chan.buffer == [])
    ensures KeepsMessage(s, Next(s, step), m)
  {
    if step.Stop? {
      StopSeats(s);
    } else if step.Loop? {
      LoopRests(s, step.worker);
    } else {
      EnqueueKeepsMessage(s, step.key, m);
    }
  }

  /** The steps that start or touch no process that speaks for a message. */
  lemma RestMoves(s: State, step: Step, m: MsgId)
    requires Inv(s) && Enabled(s, step) && m !in s.doubled
    requires step.EnqueueRepo? || step.Stop? || (step.Loop? && s.chan.buffer == [])
    ensures Standing(Next(s, step), m) == Standing(s, m)
  {
    StepKeeps(s, step);
    OthersDoubleNone(s, step);
    RestKeeps(s, step, m);
    KeptStanding(s, Next(s, step), m);
  }

  /** A job that ends with a failure leaves its message failed, one that ends with a verdict done; one that begins leaves it running. */
  predicate EndsAs(s: State, step: Step, m: MsgId, standing: Option<Status>)
    requires Enabled(s, step)
  {
    && (step.Conclude? && s.procs[step.proc].task.msg == m ==> standing == Some(if step.to == R.Failure then Failed else Done))
    && (step.Start? && s.procs[step.proc].task.Review? && s.procs[step.proc].task.msg == m && !s.stopped ==> standing == Some(Running))
  }

  lemma EndStands(s: State, step: Step, m: MsgId)
    requires Enabled(s, step)
    ensures EndsAs(s, step, m, Standing(Next(s, step), m))
  {
    if step.Conclude? && s.procs[step.proc].task.msg == m {
      assert Next(s, step).handled == s.handled[m := if step.to == R.Failure then Failed else Done];
    } else if step.Start? && s.procs[step.proc].task.Review? && s.procs[step.proc].task.msg == m && !s.stopped {
      assert Next(s, step).handled == s.handled[m := Running];
    }
  }

  /**
   * One step moves the status of a message along its lifecycle, or leaves it
   * forgotten, whatever maintenance drops: unless it is called while dropped.
   */
  lemma StatusStep(s: State, step: Step, m: MsgId)
    requires Inv(s) && Enabled(s, step) && m !in s.doubled && !CallsDropped(s, step, m)
    ensures StatusMoves(Standing(s, m), Standing(Next(s, step), m)) || Forgotten(s, Next(s, step), m)
    ensures EndsAs(s, step, m, Standing(Next(s, step), m))
  {
    EndStands(s, step, m);
    DoubledStep(s, step, m);
    StandingIsNotNew(s, m);
    if Handles(step) {
      HandleMoves(s, step, m);
    } else if OfProcess(s, step) {
      StepKeeps(s, step);
      var i := StepGoesOn(s, step);
      GoingOnMoves(s, Next(s, step), i, m);
    } else if step.Prune? {
      PruneMoves(s, step.expired, m);
    } else {
      RestMoves(s, step, m);
    }
  }

  /** So over every run, a message goes through its lifecycle unless it is called for while its entry is dropped. */
  lemma LifecycleUnlessCalled(ids: R.Ids, concurrency: nat, handled: map<MsgId, Status>, shown: map<MsgId, set<string>>,
                              steps: seq<Step>, step: Step, m: MsgId)
    requires ValidRun(Fresh(ids, concurrency, handled, shown), steps)
    requires !CalledWhileDropped(Fresh(ids, concurrency, handled, shown), steps, m)
    requires var s := Run(Fresh(ids, concurrency, handled, shown), steps); Enabled(s, step) && !CallsDropped(s, step, m)
    ensures var s := Run(Fresh(ids, concurrency, handled, shown), steps);
      && (StatusMoves(Standing(s, m), Standing(Next(s, step), m)) || Forgotten(s, Next(s, step), m))
      && EndsAs(s, step, m, Standing(Next(s, step), m))
  {
    FreshInv(ids, concurrency, handled, shown);
    RunKeeps(Fresh(ids, concurrency, handled, shown), steps);
    DoubledIff(Fresh(ids, concurrency, handled, shown), steps, m);
    StatusStep(Run(Fresh(ids, concurrency, handled, shown), steps), step, m);
  }

  lemma EntriesKept(s: State, step: Step, m: MsgId)
    requires Enabled(s, step) && m in s.handled && !(step.Prune? && m in step.expired)
    ensures m in Next(s, step).handled
  {
  }

  lemma TerminalKept(s: State, s': State, m: MsgId)
    requires m in s.handled && Terminal(s.handled[m]) && m in s'.handled
    requires StatusMoves(Standing(s, m), Standing(s', m)) || Forgotten(s, s', m)
    ensures s'.handled[m] == s.handled[m]
  {
  }

  /** Whatever happens later, a message that is done stays done and one that failed stays failed, while its entry is kept. */
  lemma {:induction false} TerminalStays(s: State, steps: seq<Step>, m: MsgId)
    requires Inv(s) && ValidRun(s, steps) && m in s.handled && Terminal(s.handled[m]) && m !in s.doubled
    requires forall k :: 0 <= k < |steps| && steps[k].Prune? ==> m !in steps[k].expired
    ensures m in Run(s, steps).handled && Run(s, steps).handled[m] == s.handled[m]
    decreases |steps|
  {
    if steps != [] {
      StepKeeps(s, steps[0]);
      StatusStep(s, steps[0], m);
      DoubledStep(s, steps[0], m);
      EntriesKept(s, steps[0], m);
      TerminalKept(s, Next(s, steps[0]), m);
      TerminalStays(Next(s, steps[0]), steps[1..], m);
    }
  }

  lemma LastCallSettles(s: State, i: nat, ok: bool)
    requires CanReact(s, i) && |s.procs[i].pc.ops| == 1
    ensures var s' := ReactNext(s, i, ok); var m := s.procs[i].task.msg;
      && s'.Mark(m) == Some(Target(s.procs[i].pc))
      && (s.flaky || !ok ==> s'.flaky)
      && (!s'.flaky ==> s'.Shown(m) == R.PerformAll(s.Shown(m), s.procs[i].pc.ops))
  {
    OneCallDone(s.Shown(s.procs[i].task.msg), s.procs[i].pc.ops);
  }

  lemma MarkAllowsTarget(p: Proc)
    requires WellPlaced(p) && InMove(p.pc) && !Upset(p)
    ensures R.Allowed(MarkOf(p), Target(p.pc))
  {
  }

  /**
   * Of a message that no handler was called for while its entry was dropped, no
   * `move` in any interleaving asks for a forbidden transition; and when one
   * ends, the message carries exactly the reaction of its new state, if no chat
   * call failed and it carried none of ours at first.
   */
  lemma MovesAreAllowedAndShown(s: State, i: nat, ok: bool)
    requires Inv(s) && Enabled(s, React(i, ok)) && |s.procs[i].pc.ops| == 1 && s.procs[i].task.msg !in s.doubled
    ensures var s' := Next(s, React(i, ok)); var m := s.procs[i].task.msg;
      && m !in s'.thrown
      && R.Allowed(s.Mark(m), Target(s.procs[i].pc))
      && s'.Mark(m) == Some(Target(s.procs[i].pc))
      && (!s'.flaky && m in s.clean ==> s'.Shown(m) == {s.ids.Of(Target(s.procs[i].pc))})
  {
    InvIsLocal(s, i);
    MarkAllowsTarget(s.procs[i]);
    LastCallSettles(s, i, ok);
    assert s.flaky || s.procs[i].task.msg !in s.clean || ShowsRight(s, i);
  }

  // ----- Shutdown -----

  /** After `stop`, no runner starts: `execute` sees its signal aborted. */
  lemma NoRunBeginsAfterStop(s: State, i: nat)
    requires Inv(s) && s.stopped
    ensures !Enabled(s, BeginRun(i))
  {
    if i < |s.procs| && s.procs[i].pc.Working? {
      assert Controlled(s.procs[i].pc) && i in s.controllers;
    }
  }

  /** After `stop`, a task that was still queued returns without touching any message. */
  lemma QueuedTasksDoNothingAfterStop(s: State, i: nat)
    requires Inv(s) && s.stopped && Enabled(s, Start(i))
    ensures var s' := Next(s, Start(i));
      s'.handled == s.handled && s'.marks == s.marks && s'.shown == s.shown && s'.procs[i].pc.Leaving?
  {
  }

  /** Nothing is left to do. */
  predicate Over(pc: Pc) {
    pc.Gone? || pc.Lost?
  }

  lemma GoneUntouched(s: State, step: Step, i: nat)
    requires Enabled(s, step) && i < |s.procs| && Over(s.procs[i].pc) && !step.Stop? && !step.Loop?
    ensures i < |Next(s, step).procs| && Next(s, step).procs[i] == s.procs[i]
  {
  }

  lemma GoneIsNotTaken(s: State, w: nat, i: nat)
    requires Queue(s) && Enabled(s, Loop(w)) && i < |s.procs| && Over(s.procs[i].pc)
    ensures i < |LoopNext(s, w).procs| && LoopNext(s, w).procs[i] == s.procs[i]
  {
    if s.chan.buffer != [] {
      TakeFirst(s.chan, w);
    }
  }

  /** A task that has finished, or was lost to its handler, is not touched again. */
  lemma GoneForGood(s: State, step: Step, i: nat)
    requires Queue(s) && Enabled(s, step) && i < |s.procs| && Over(s.procs[i].pc)
    ensures i < |Next(s, step).procs| && Next(s, step).procs[i] == s.procs[i]
  {
    match step {
      case Stop =>
      case Loop(w) => GoneIsNotTaken(s, w, i);
      case _ => GoneUntouched(s, step, i);
    }
  }
}
