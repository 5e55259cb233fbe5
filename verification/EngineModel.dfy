/**
 * The job engine of pkg/channel-review/src/engine.ts as a state machine. Each
 * step is one stretch of code between two awaits; any step may come next, so a
 * run is any interleaving of message handlers, workers, `enqueueRepo`, `stop`
 * and the chat provider.
 *
 * The steps are functions of the state. What one leaves alone, its contract
 * says; what it is for, the theorems about runs say.
 */
module EngineModel {
  import opened Options
  import C = Channels
  import R = Reactions

  const MAX_QUEUED: nat := 64

  type MsgId = string

  /** A PR key or a repo job id: what `inFlight` holds. */
  type Key = string

  datatype Status = Pending | Running | Done | Failed

  predicate Terminal(status: Status) {
    status.Done? || status.Failed?
  }

  /** Where a process stands: the await it is suspended at. `ops` are chat calls still to settle. */
  datatype Pc =
    | Announcing(ops: seq<R.Op>)       // `handle` inside move(pending)
    | Announced                        // that move is over, submit is next
    | Refusing(ops: seq<R.Op>)         // `handle` inside move(failure)
    | Refused                          // that move is over, the mark goes next
    | InQueue
    | Bounced                          // the channel refused the task
    | Held(worker: nat)                // given to a worker that has not started it
    | Beginning(worker: nat, ops: seq<R.Op>)                  // inside move(inProgress)
    | Working(worker: nat)
    | InRunner(worker: nat)                                   // inside runner.run
    | Settling(worker: nat, ops: seq<R.Op>, to: R.Reaction, last: bool)  // inside the last move, or that of the catch
    | Settled(worker: nat, to: R.Reaction)
    | Caught(worker: nat)              // a move threw; the catch of `runJob` is next
    | Leaving(worker: nat, kept: bool) // only the wrapper's `finish` is left
    | Gone(kept: bool)                 // `kept`: it returned without freeing its key
    | Lost                             // its move threw in `handle`, which ended there

  predicate InMove(pc: Pc) {
    pc.Announcing? || pc.Refusing? || pc.Beginning? || pc.Settling?
  }

  /** The state a move leads to. */
  function Target(pc: Pc): R.Reaction
    requires InMove(pc)
  {
    match pc
    case Announcing(_) => R.Pending
    case Refusing(_) => R.Failure
    case Beginning(_, _) => R.InProgress
    case Settling(_, _, to, _) => to
  }

  /** Where a process goes on once its move is over. */
  function After(pc: Pc): Pc
    requires InMove(pc)
  {
    match pc
    case Announcing(_) => Announced
    case Refusing(_) => Refused
    case Beginning(w, _) => Working(w)
    case Settling(w, _, to, _) => Settled(w, to)
  }

  /** Where it goes on if the move throws: out of `handle`, into the catch, or out of that into the `finally`. */
  function OnThrow(pc: Pc): Pc
    requires InMove(pc)
  {
    match pc
    case Announcing(_) => Lost
    case Refusing(_) => Lost
    case Beginning(w, _) => Caught(w)
    case Settling(w, _, to, last) => if last then Settled(w, to) else Caught(w)
  }

  datatype Task = Review(msg: MsgId, key: Key) | Refusal(msg: MsgId) | Repo(key: Key)

  datatype Proc = Proc(task: Task, pc: Pc)

  datatype Worker = Parked | Busy(proc: nat) | Looping | Exited

  datatype State = State(
    ids: R.Ids,
    stopped: bool,
    inFlight: set<Key>,
    handled: map<MsgId, Status>,       // the store's handled map
    marks: map<MsgId, R.Reaction>,     // the engine's reactionState map
    procs: seq<Proc>,
    chan: C.Chan<nat>,                 // tasks, named by their process
    workers: seq<Worker>,
    controllers: set<nat>,
    aborted: set<nat>,
    outstanding: int,
    thrown: set<MsgId>,                // a `move` of theirs raised a disallowed transition
    doubled: set<MsgId>,               // `handle` took them up while a job of theirs went on
    shown: map<MsgId, set<string>>,    // the bot's reactions on each message
    clean: set<MsgId>,                 // handled while showing no reaction of ours
    flaky: bool)                       // some chat call failed
  {
    function Mark(m: MsgId): Option<R.Reaction> {
      if m in marks then Some(marks[m]) else None
    }

    function Shown(m: MsgId): set<string> {
      if m in shown then shown[m] else {}
    }
  }

  datatype Step =
    | HandleJob(msg: MsgId, key: Key)  // toJob made a job of the message
    | HandleError(msg: MsgId)          // toJob made an error of it
    | HandleReply(msg: MsgId)          // help and $emoji commands
    | EnqueueRepo(key: Key)
    | React(proc: nat, ok: bool)       // the chat settles one call of a move
    | Resume(proc: nat)                // a handler goes on after its move
    | Start(proc: nat)
    | BeginRun(proc: nat)
    | EndRun(proc: nat)
    | Conclude(proc: nat, to: R.Reaction)
    | Finally(proc: nat)
    | Finish(proc: nat)
    | Loop(worker: nat)
    | Stop
    | Prune(expired: set<MsgId>)

  function Goto(s: State, i: nat, pc: Pc): (r: State)
    requires i < |s.procs|
    ensures |r.workers| == |s.workers| && r.ids == s.ids && r.outstanding == s.outstanding && r.stopped == s.stopped && r.doubled == s.doubled
    ensures r.handled == s.handled
    ensures |r.procs| == |s.procs| && forall j :: 0 <= j < |s.procs| && j != i ==> r.procs[j] == s.procs[j]
  {
    s.(procs := s.procs[i := s.procs[i].(pc := pc)])
  }

  function FinalStatus(to: R.Reaction): Status {
    if to.Failure? then Failed else Done
  }

  /** The start of `move`: it computes its chat calls from the mark of the message. */
  function StartMove(s: State, i: nat, m: MsgId, move: Pc): (r: State)
    requires i < |s.procs| && InMove(move)
    ensures |r.workers| == |s.workers| && r.ids == s.ids && r.outstanding == s.outstanding && r.stopped == s.stopped && r.doubled == s.doubled
    ensures r.handled == s.handled
    ensures |r.procs| == |s.procs| && forall j :: 0 <= j < |s.procs| && j != i ==> r.procs[j] == s.procs[j]
  {
    match R.Transition(s.Mark(m), Target(move), s.ids)
    case Err(_) => Goto(s, i, OnThrow(move)).(thrown := s.thrown + {m})
    case Ok(ops) => Goto(s, i, move.(ops := ops))
  }

  function Spawn(s: State, task: Task): (r: State)
    ensures |r.workers| == |s.workers| && r.ids == s.ids && r.outstanding == s.outstanding && r.stopped == s.stopped && r.doubled == s.doubled
    ensures r.handled == s.handled
    ensures s.procs <= r.procs
  {
    s.(procs := s.procs + [Proc(task, Announced)])
  }

  /** Whether a process has a place in the `inFlight` set. */
  predicate HoldsKey(p: Proc) {
    !p.task.Refusal? && match p.pc
    case Leaving(_, kept) => kept
    case Gone(kept) => kept
    case _ => true
  }

  /** Whether a process still speaks for its message. */
  predicate Live(p: Proc) {
    match p.task
    case Review(_, _) => HoldsKey(p) && !p.pc.Lost?
    case Refusal(_) => !p.pc.Gone? && !p.pc.Lost?
    case Repo(_) => false
  }

  predicate LiveMessage(s: State, m: MsgId) {
    exists i :: 0 <= i < |s.procs| && Live(s.procs[i]) && s.procs[i].task.msg == m
  }

  /** The store dropped the entry of the message while a process still speaks for it. */
  predicate DroppedLive(s: State, m: MsgId) {
    m !in s.handled && LiveMessage(s, m)
  }

  /** `handle` takes up a message the store does not have, perhaps while a job of it still goes on. */
  function TakeUp(s: State, m: MsgId, status: Status): (r: State)
    ensures |r.workers| == |s.workers| && r.ids == s.ids && r.outstanding == s.outstanding && r.stopped == s.stopped
    ensures r.handled == s.handled[m := status] && r.procs == s.procs
  {
    s.(handled := s.handled[m := status], doubled := if DroppedLive(s, m) then s.doubled + {m} else s.doubled)
  }

  /** Records what the message showed when its handler began. */
  function Meet(s: State, m: MsgId): (r: State)
    ensures |r.workers| == |s.workers| && r.ids == s.ids && r.outstanding == s.outstanding && r.stopped == s.stopped && r.doubled == s.doubled
    ensures r.handled == s.handled && r.procs == s.procs
  {
    s.(clean := if s.Shown(m) == {} then s.clean + {m} else s.clean - {m})
  }

  function RefuseMessage(s: State, m: MsgId): (r: State)
    ensures |r.workers| == |s.workers| && r.ids == s.ids && r.outstanding == s.outstanding && r.stopped == s.stopped && r.doubled == TakeUp(s, m, Failed).doubled
    ensures s.procs <= r.procs
    ensures r.handled == s.handled[m := Failed]
  {
    var met := Spawn(Meet(TakeUp(s, m, Failed), m), Refusal(m));
    StartMove(met, |s.procs|, m, Refusing([]))
  }

  /** `handle` for a message that asks for a job. */
  function HandleJobNext(s: State, m: MsgId, key: Key): (r: State)
    ensures |r.workers| == |s.workers| && r.ids == s.ids && r.outstanding == s.outstanding && r.stopped == s.stopped
    ensures s.stopped || m in s.handled ==> r == s
    ensures !s.stopped && m !in s.handled ==> r.doubled == TakeUp(s, m, Done).doubled
    ensures s.procs <= r.procs
    ensures !s.stopped ==> r.handled.Keys == s.handled.Keys + {m}
  {
    if s.stopped || m in s.handled then s
    else if key in s.inFlight then TakeUp(s, m, Done)
    else if |s.inFlight| >= MAX_QUEUED then RefuseMessage(s, m)
    else
      var admitted := TakeUp(s, m, Pending).(inFlight := s.inFlight + {key});
      StartMove(Spawn(Meet(admitted, m), Review(m, key)), |s.procs|, m, Announcing([]))
  }

  function HandleErrorNext(s: State, m: MsgId): (r: State)
    ensures |r.workers| == |s.workers| && r.ids == s.ids && r.outstanding == s.outstanding && r.stopped == s.stopped
    ensures s.stopped || m in s.handled ==> r == s
    ensures !s.stopped && m !in s.handled ==> r.doubled == TakeUp(s, m, Done).doubled
    ensures s.procs <= r.procs
    ensures !s.stopped ==> r.handled.Keys == s.handled.Keys + {m}
  {
    if s.stopped || m in s.handled then s else RefuseMessage(s, m)
  }

  function HandleReplyNext(s: State, m: MsgId): (r: State)
    ensures |r.workers| == |s.workers| && r.ids == s.ids && r.outstanding == s.outstanding && r.stopped == s.stopped
    ensures s.stopped || m in s.handled ==> r == s
    ensures !s.stopped && m !in s.handled ==> r.doubled == TakeUp(s, m, Done).doubled
    ensures !s.stopped ==> r.handled.Keys == s.handled.Keys + {m}
  {
    if s.stopped || m in s.handled then s else TakeUp(s, m, Done)
  }

  function Submit(s: State, i: nat): (r: State)
    requires i < |s.procs|
    ensures |r.workers| == |s.workers| && r.ids == s.ids && r.stopped == s.stopped && r.doubled == s.doubled
    ensures r.handled == s.handled
    ensures |r.procs| == |s.procs| && forall j :: 0 <= j < |s.procs| && j != i ==> r.procs[j] == s.procs[j]
    ensures r.procs[i].task == s.procs[i].task
    ensures r.procs[i].pc.Held? || r.procs[i].pc.InQueue? || r.procs[i].pc.Bounced? || r.procs[i].pc == s.procs[i].pc
    ensures r.outstanding == s.outstanding + 1
  {
    var Sent(chan, fate) := C.Send(s.chan, i, i);
    var counted := s.(outstanding := s.outstanding + 1, chan := chan);
    match fate
    case Handed(w) =>
      if w < |s.workers| then Goto(counted, i, Held(w)).(workers := s.workers[w := Busy(i)]) else counted
    case Stored => Goto(counted, i, InQueue)
    case Waits => Goto(counted, i, InQueue)
    case Refused => Goto(counted, i, Bounced)
  }

  predicate EnqueueAccepts(s: State, key: Key) {
    !s.stopped && |s.inFlight| < MAX_QUEUED && key !in s.inFlight
  }

  function EnqueueRepoNext(s: State, key: Key): (r: State)
    ensures |r.workers| == |s.workers| && r.ids == s.ids && r.stopped == s.stopped && r.doubled == s.doubled
    ensures r.handled == s.handled
    ensures s.procs <= r.procs
    ensures r.outstanding == if EnqueueAccepts(s, key) then s.outstanding + 1 else s.outstanding
  {
    if !EnqueueAccepts(s, key) then s
    else Submit(Spawn(s.(inFlight := s.inFlight + {key}), Repo(key)), |s.procs|)
  }

  predicate CanReact(s: State, i: nat) {
    i < |s.procs| && InMove(s.procs[i].pc) && s.procs[i].pc.ops != [] && !s.procs[i].task.Repo?
  }

  /** One awaited chat call of a `move` settles; the last one sets the mark. */
  function ReactNext(s: State, i: nat, ok: bool): (r: State)
    requires CanReact(s, i)
    ensures |r.workers| == |s.workers| && r.ids == s.ids && r.outstanding == s.outstanding && r.stopped == s.stopped && r.doubled == s.doubled
    ensures r.handled == s.handled
    ensures |r.procs| == |s.procs| && forall j :: 0 <= j < |s.procs| && j != i ==> r.procs[j] == s.procs[j]
  {
    var pc := s.procs[i].pc;
    var m := s.procs[i].task.msg;
    var settled := if ok then s.(shown := s.shown[m := R.Perform(s.Shown(m), pc.ops[0])]) else s.(flaky := true);
    if |pc.ops| > 1 then Goto(settled, i, pc.(ops := pc.ops[1..]))
    else Goto(settled, i, After(pc)).(marks := s.marks[m := Target(pc)])
  }

  function ResumeNext(s: State, i: nat): (r: State)
    requires i < |s.procs| && (s.procs[i].pc.Announced? || (s.procs[i].pc.Refused? && s.procs[i].task.Refusal?))
    ensures |r.workers| == |s.workers| && r.ids == s.ids && r.stopped == s.stopped && r.doubled == s.doubled
    ensures r.handled == s.handled
    ensures |r.procs| == |s.procs| && forall j :: 0 <= j < |s.procs| && j != i ==> r.procs[j] == s.procs[j]
    ensures r.outstanding == if s.procs[i].pc.Announced? then s.outstanding + 1 else s.outstanding
  {
    if s.procs[i].pc.Announced? then Submit(s, i)
    else Goto(s, i, Gone(false)).(marks := s.marks - {s.procs[i].task.msg})
  }

  /** The head of `runJob` and `runRepoJob`. */
  function StartNext(s: State, i: nat): (r: State)
    requires i < |s.procs| && s.procs[i].pc.Held? && !s.procs[i].task.Refusal?
    ensures |r.workers| == |s.workers| && r.ids == s.ids && r.outstanding == s.outstanding && r.stopped == s.stopped && r.doubled == s.doubled
    ensures |r.procs| == |s.procs| && forall j :: 0 <= j < |s.procs| && j != i ==> r.procs[j] == s.procs[j]
  {
    var w := s.procs[i].pc.worker;
    match s.procs[i].task
    case Review(m, key) =>
      if s.stopped then Goto(s, i, Leaving(w, true))
      else StartMove(s.(controllers := s.controllers + {i}, handled := s.handled[m := Running]),
                     i, m, Beginning(w, []))
    case Repo(key) =>
      if s.stopped then Goto(s, i, Leaving(w, false)).(inFlight := s.inFlight - {key})
      else Goto(s, i, Working(w)).(controllers := s.controllers + {i})
  }

  /**
   * A verdict is in, or the job failed: the status is saved and the last move
   * begins. The catch does the same with a failure; what throws there ends the job.
   */
  function ConcludeNext(s: State, i: nat, to: R.Reaction): (r: State)
    requires CanConclude(s, i, to)
    ensures |r.workers| == |s.workers| && r.ids == s.ids && r.outstanding == s.outstanding && r.stopped == s.stopped && r.doubled == s.doubled
    ensures |r.procs| == |s.procs| && forall j :: 0 <= j < |s.procs| && j != i ==> r.procs[j] == s.procs[j]
  {
    var m := s.procs[i].task.msg;
    StartMove(s.(handled := s.handled[m := FinalStatus(to)]), i, m,
              Settling(s.procs[i].pc.worker, [], to, s.procs[i].pc.Caught?))
  }

  predicate CanConclude(s: State, i: nat, to: R.Reaction) {
    && i < |s.procs| && s.procs[i].task.Review?
    && ((s.procs[i].pc.Working? && to in R.Successors(Some(R.InProgress))) || (s.procs[i].pc.Caught? && to.Failure?))
  }

  /** The `finally` blocks of `runJob` and `runRepoJob`. */
  function FinallyNext(s: State, i: nat): (r: State)
    requires i < |s.procs| && !s.procs[i].task.Refusal? && (s.procs[i].pc.Working? || s.procs[i].pc.Settled?)
    ensures |r.workers| == |s.workers| && r.ids == s.ids && r.outstanding == s.outstanding && r.stopped == s.stopped && r.doubled == s.doubled
    ensures r.handled == s.handled
    ensures |r.procs| == |s.procs| && forall j :: 0 <= j < |s.procs| && j != i ==> r.procs[j] == s.procs[j]
  {
    var freed := Goto(s, i, Leaving(s.procs[i].pc.worker, false)).(
      inFlight := s.inFlight - {s.procs[i].task.key},
      controllers := s.controllers - {i});
    if s.procs[i].task.Review? then freed.(marks := s.marks - {s.procs[i].task.msg}) else freed
  }

  /** `finish` of the wrapper that `submit` puts around a task. */
  function FinishNext(s: State, i: nat): (r: State)
    requires i < |s.procs| && (s.procs[i].pc.Bounced? || s.procs[i].pc.Leaving?)
    ensures |r.workers| == |s.workers| && r.ids == s.ids && r.stopped == s.stopped && r.doubled == s.doubled
    ensures r.handled == s.handled
    ensures |r.procs| == |s.procs| && forall j :: 0 <= j < |s.procs| && j != i ==> r.procs[j] == s.procs[j]
    ensures r.outstanding == s.outstanding - 1
  {
    var finished := s.(outstanding := s.outstanding - 1);
    if s.procs[i].pc.Bounced? then Goto(finished, i, Gone(true))
    else
      var gone := Goto(finished, i, Gone(s.procs[i].pc.kept));
      var w := s.procs[i].pc.worker;
      if w < |s.workers| then gone.(workers := s.workers[w := Looping]) else gone
  }

  /** A worker asks the channel for its next task. */
  function LoopNext(s: State, w: nat): (r: State)
    requires w < |s.workers|
    ensures |r.workers| == |s.workers| && r.ids == s.ids && r.outstanding == s.outstanding && r.stopped == s.stopped && r.doubled == s.doubled
    ensures r.handled == s.handled
  {
    var Received(chan, fate, _) := C.Receive(s.chan, w);
    var asked := s.(chan := chan);
    match fate
    case Got(i) =>
      if i < |s.procs| then Goto(asked, i, Held(w)).(workers := s.workers[w := Busy(i)]) else asked
    case Ended => asked.(workers := s.workers[w := Exited])
    case Parked => asked.(workers := s.workers[w := Parked])
  }

  /** Waiting receivers end with the channel. */
  function Dismiss(workers: seq<Worker>, ended: seq<nat>): (r: seq<Worker>)
    ensures |r| == |workers|
    ensures forall w :: 0 <= w < |r| ==> r[w] == if w in ended then Exited else workers[w]
  {
    seq(|workers|, w requires 0 <= w < |workers| => if w in ended then Exited else workers[w])
  }

  /** Waiting senders are rejected with it. */
  function BounceAll(procs: seq<Proc>, refused: seq<nat>): (r: seq<Proc>)
    ensures |r| == |procs|
    ensures forall i :: 0 <= i < |r| ==> r[i] == if i in refused then procs[i].(pc := Bounced) else procs[i]
  {
    seq(|procs|, i requires 0 <= i < |procs| => if i in refused then procs[i].(pc := Bounced) else procs[i])
  }

  function StopNext(s: State): (r: State)
    ensures |r.workers| == |s.workers| && r.ids == s.ids && r.outstanding == s.outstanding && r.doubled == s.doubled
    ensures r.handled == s.handled
  {
    var Closed(chan, ended, refused) := C.Close(s.chan);
    s.(stopped := true,
       aborted := s.aborted + s.controllers,
       chan := chan,
       workers := Dismiss(s.workers, ended),
       procs := BounceAll(s.procs, refused))
  }

  predicate Enabled(s: State, step: Step) {
    match step
    case HandleJob(_, _) => true
    case HandleError(_) => true
    case HandleReply(_) => true
    case EnqueueRepo(_) => true
    case React(i, _) => CanReact(s, i)
    case Resume(i) => i < |s.procs| && (s.procs[i].pc.Announced? || (s.procs[i].pc.Refused? && s.procs[i].task.Refusal?))
    case Start(i) => i < |s.procs| && s.procs[i].pc.Held? && !s.procs[i].task.Refusal?
    // `execute` checks its abort signal before it calls the runner.
    case BeginRun(i) => i < |s.procs| && s.procs[i].pc.Working? && i !in s.aborted
    case EndRun(i) => i < |s.procs| && s.procs[i].pc.InRunner?
    case Conclude(i, to) => CanConclude(s, i, to)
    case Finally(i) =>
      i < |s.procs| && ((s.procs[i].task.Review? && s.procs[i].pc.Settled?) || (s.procs[i].task.Repo? && s.procs[i].pc.Working?))
    case Finish(i) => i < |s.procs| && (s.procs[i].pc.Bounced? || s.procs[i].pc.Leaving?)
    case Loop(w) => w < |s.workers| && s.workers[w].Looping?
    case Stop => true
    // Maintenance looks at the age of an entry alone: its job may still be queued or running.
    case Prune(_) => true
  }

  function Next(s: State, step: Step): State
    requires Enabled(s, step)
  {
    match step
    case HandleJob(m, key) => HandleJobNext(s, m, key)
    case HandleError(m) => HandleErrorNext(s, m)
    case HandleReply(m) => HandleReplyNext(s, m)
    case EnqueueRepo(key) => EnqueueRepoNext(s, key)
    case React(i, ok) => ReactNext(s, i, ok)
    case Resume(i) => ResumeNext(s, i)
    case Start(i) => StartNext(s, i)
    case BeginRun(i) => Goto(s, i, InRunner(s.procs[i].pc.worker))
    case EndRun(i) => Goto(s, i, Working(s.procs[i].pc.worker))
    case Conclude(i, to) => ConcludeNext(s, i, to)
    case Finally(i) => FinallyNext(s, i)
    case Finish(i) => FinishNext(s, i)
    case Loop(w) => LoopNext(s, w)
    case Stop => StopNext(s)
    case Prune(expired) => s.(handled := s.handled - expired)
  }

  /** A fresh engine: every worker has asked the empty channel for a task. */
  function Fresh(ids: R.Ids, concurrency: nat, handled: map<MsgId, Status>, shown: map<MsgId, set<string>>): State {
    State(ids, false, {}, handled, map[], [],
          C.Chan(C.Bounded(MAX_QUEUED), [], seq(concurrency, w => w), [], false),
          seq(concurrency, _ => Parked), {}, {}, 0, {}, {}, shown, {}, false)
  }

  predicate ValidRun(s: State, steps: seq<Step>)
    decreases |steps|
  {
    steps == [] || (Enabled(s, steps[0]) && ValidRun(Next(s, steps[0]), steps[1..]))
  }

  function Run(s: State, steps: seq<Step>): State
    requires ValidRun(s, steps)
    decreases |steps|
  {
    if steps == [] then s else Run(Next(s, steps[0]), steps[1..])
  }
}
