/** The daemon of pkg/channel-review/src/daemon/serve.ts: events of each chat in turn, one row that survives a crash, a relay that replays. */
module Daemon {
  import opened Options
  import opened EngineModel
  import opened EngineInvariant
  import opened EngineRuns
  import opened EngineTheorems
  import opened EngineOutcomes
  import opened EngineFinishes
  import R = Reactions

  type Chat = string

  /** What `handle` makes of a message. On one without a sender it `Throws`, before it looks at anything else. */
  datatype Ask = Job(key: Key) | Error | Reply | Nothing | Throws

  datatype Event = Message(msg: MsgId, ask: Ask) | Other

  /** The database row. Event ids are positions in the stream of their chat, from 1. */
  datatype Row = Row(lastIds: map<Chat, nat>, handled: map<MsgId, Status>)

  datatype Pump = Idle | Handling(event: nat, proc: Option<nat>)

  datatype Phase = Down | Up | Draining

  datatype System = System(
    streams: Streams,
    row: Row,
    phase: Phase,
    lastIds: map<Chat, nat>,     // in memory
    cursors: map<Chat, nat>,     // the last event the relay delivered
    pumps: map<Chat, Pump>,
    engine: State,
    admitted: seq<MsgId>,        // every admission there was, over all restarts
    forgotten: set<MsgId>,       // messages whose handled entry was dropped
    completed: set<(Chat, nat)>) // events whose `handle` call returned in some run
  {
    function Cursor(c: Chat): nat { At(cursors, c) }

    function PumpOf(c: Chat): Pump {
      if c in pumps then pumps[c] else Idle
    }

    function Stream(c: Chat): seq<Event> {
      StreamOf(streams, c)
    }

    /** Messages the store has, or had once and dropped. */
    function Known(): set<MsgId> {
      row.handled.Keys + forgotten
    }
  }

  type Streams = map<Chat, seq<Event>>

  function StreamOf(streams: Streams, c: Chat): seq<Event> {
    if c in streams then streams[c] else []
  }

  function At(ids: map<Chat, nat>, c: Chat): nat {
    if c in ids then ids[c] else 0
  }

  datatype Move =
    | Deliver(chat: Chat)
    | Complete(chat: Chat, saved: bool)  // `handle` returned; its id may be saved now or by a timer
    | Timer
    | Resubscribe(chat: Chat)            // after a fresh secret the stream starts over
    | Engine(step: Step)
    | Crash
    | CrashInRecovery(repaired: set<MsgId>, expired: set<MsgId>)
    | Restart(ids: R.Ids, concurrency: nat, shown: map<MsgId, set<string>>, expired: set<MsgId>)

  /** Every save writes the whole state. */
  function Saved(y: System): System {
    y.(row := Row(y.lastIds, y.engine.handled))
  }

  /** `markHandled` saves at once, so a change of the handled map is a save. */
  function WithEngine(y: System, engine: State): (r: System)
    ensures r == y.(engine := engine, row := r.row)
    ensures r.row.lastIds == y.row.lastIds || r.row.lastIds == y.lastIds
    ensures y.row.handled == y.engine.handled ==> r.row.handled == engine.handled
  {
    if engine.handled == y.engine.handled then y.(engine := engine) else Saved(y.(engine := engine))
  }

  function HandleStep(msg: MsgId, ask: Ask): Step
    requires ask.Job? || ask.Error? || ask.Reply?
  {
    match ask
    case Job(key) => Step.HandleJob(msg, key)
    case Error => Step.HandleError(msg)
    case Reply => Step.HandleReply(msg)
  }

  /** Whether this call of `handle` takes a key for its message. */
  predicate TakesKey(s: State, msg: MsgId, ask: Ask) {
    ask.Job? && !s.stopped && msg !in s.handled && ask.key !in s.inFlight && |s.inFlight| < MAX_QUEUED
  }

  /** Whether it admits the message as a job: it takes a key, and announcing the job does not throw. */
  predicate Admits(s: State, msg: MsgId, ask: Ask) {
    TakesKey(s, msg, ask) && R.Allowed(s.Mark(msg), R.Pending)
  }

  /** The process that this call of `handle` started, if it did. */
  function Started(s: State, s': State): Option<nat> {
    if |s'.procs| > |s.procs| then Some(|s.procs|) else None
  }

  /** The move it began with threw, and so did the call. */
  predicate Threw(s: State, s': State) {
    |s'.procs| > |s.procs| && s'.procs[|s.procs|].pc.Lost?
  }

  function DeliverNext(y: System, c: Chat): System
    requires y.Cursor(c) < |y.Stream(c)|
  {
    var e := y.Cursor(c) + 1;
    var moved := y.(cursors := y.cursors[c := e]);
    match y.Stream(c)[e - 1]
    case Other => moved.(pumps := y.pumps[c := Handling(e, None)])
    case Message(msg, ask) =>
      if ask.Throws? then moved
      else if ask.Nothing? then moved.(pumps := y.pumps[c := Handling(e, None)])
      else
        var s' := Next(y.engine, HandleStep(msg, ask));
        WithEngine(moved, s').(
          pumps := if Threw(y.engine, s') then y.pumps else y.pumps[c := Handling(e, Started(y.engine, s'))],
          admitted := if Admits(y.engine, msg, ask) then y.admitted + [msg] else y.admitted)
  }

  predicate PastHandler(pc: Pc) {
    !pc.Announcing? && !pc.Announced? && !pc.Refusing? && !pc.Refused?
  }

  /** Whether the handler a pump waits for has returned. */
  predicate Returned(s: State, proc: Option<nat>) {
    proc.None? || (proc.value < |s.procs| && PastHandler(s.procs[proc.value].pc))
  }

  function CompleteNext(y: System, c: Chat, saved: bool): System
    requires y.PumpOf(c).Handling?
  {
    var e := y.PumpOf(c).event;
    var recorded := y.(pumps := y.pumps[c := Idle], lastIds := y.lastIds[c := e], completed := y.completed + {(c, e)});
    if saved then Saved(recorded) else recorded
  }

  function Interrupted(handled: map<MsgId, Status>): set<MsgId> {
    set m | m in handled && !Terminal(handled[m])
  }

  /** What `recover` leaves of the handled map, having repaired some of it. */
  function Repaired(handled: map<MsgId, Status>, repaired: set<MsgId>, expired: set<MsgId>): map<MsgId, Status> {
    map m | m in handled && m !in expired :: if m in repaired && !Terminal(handled[m]) then Failed else handled[m]
  }

  predicate CanMove(y: System, move: Move) {
    match move
    case Deliver(c) => y.phase.Up? && y.PumpOf(c).Idle? && y.Cursor(c) < |y.Stream(c)|
    case Complete(c, _) => y.phase.Up? && y.PumpOf(c).Handling? && Returned(y.engine, y.PumpOf(c).proc)
    case Timer => !y.phase.Down?
    case Resubscribe(c) => y.phase.Up? && y.PumpOf(c).Idle?
    case Engine(step) =>
      && !y.phase.Down? && Enabled(y.engine, step)
      && !step.HandleJob? && !step.HandleError? && !step.HandleReply?
      // serve waits for its pumps before it stops the engine.
      && (step.Stop? ==> forall c :: c in y.pumps ==> y.pumps[c].Idle?)
    case Crash => !y.phase.Down?
    case CrashInRecovery(_, _) => y.phase.Down?
    case Restart(_, _, _, _) => y.phase.Down?
  }

  function MoveNext(y: System, move: Move): System
    requires CanMove(y, move)
  {
    match move
    case Deliver(c) => DeliverNext(y, c)
    case Complete(c, saved) => CompleteNext(y, c, saved)
    case Timer => Saved(y)
    case Resubscribe(c) => y.(cursors := y.cursors[c := At(y.lastIds, c)])
    case Engine(step) =>
      WithEngine(y, Next(y.engine, step)).(
        phase := if step.Stop? then Draining else y.phase,
        forgotten := if step.Prune? then y.forgotten + step.expired else y.forgotten)
    case Crash => y.(phase := Down)
    case CrashInRecovery(repaired, expired) =>
      y.(row := y.row.(handled := Repaired(y.row.handled, repaired, expired)), forgotten := y.forgotten + expired)
    case Restart(ids, concurrency, shown, expired) =>
      var handled := Repaired(y.row.handled, Interrupted(y.row.handled), expired);
      y.(phase := Up,
         row := y.row.(handled := handled),
         lastIds := y.row.lastIds,
         cursors := y.row.lastIds,
         pumps := map[],
         engine := Fresh(ids, concurrency, handled, shown),
         forgotten := y.forgotten + expired)
  }

  predicate ValidMoves(y: System, moves: seq<Move>)
    decreases |moves|
  {
    moves == [] || (CanMove(y, moves[0]) && ValidMoves(MoveNext(y, moves[0]), moves[1..]))
  }

  function Moved(y: System, moves: seq<Move>): System
    requires ValidMoves(y, moves)
    decreases |moves|
  {
    if moves == [] then y else Moved(MoveNext(y, moves[0]), moves[1..])
  }

  /** Before the first start: an empty row. */
  function Untouched(streams: Streams, ids: R.Ids): System {
    System(streams, Row(map[], map[]), Down, map[], map[], map[], Fresh(ids, 0, map[], map[]), [], {}, {})
  }

  predicate IsMessage(streams: Streams, c: Chat, e: nat) {
    1 <= e <= |StreamOf(streams, c)| && StreamOf(streams, c)[e - 1].Message?
  }

  /** The event is a message without a sender. */
  predicate Poisoned(streams: Streams, c: Chat, e: nat) {
    IsMessage(streams, c, e) && StreamOf(streams, c)[e - 1].ask.Throws?
  }

  /** The event asks for something of its message. */
  predicate Asks(streams: Streams, c: Chat, e: nat) {
    IsMessage(streams, c, e) && !StreamOf(streams, c)[e - 1].ask.Throws? && !StreamOf(streams, c)[e - 1].ask.Nothing?
  }

  /** The event asks for something of a message whose entry was dropped at some time. */
  predicate Dropped(streams: Streams, forgotten: set<MsgId>, c: Chat, e: nat) {
    Asks(streams, c, e) && StreamOf(streams, c)[e - 1].msg in forgotten
  }

  /** `handle` returned for the event in some run; if not, it had no sender, or its message had been dropped. */
  predicate Passed(streams: Streams, completed: set<(Chat, nat)>, forgotten: set<MsgId>, c: Chat, e: nat) {
    (c, e) in completed || Poisoned(streams, c, e) || Dropped(streams, forgotten, c, e)
  }

  ghost predicate AllPassed(streams: Streams, completed: set<(Chat, nat)>, forgotten: set<MsgId>, ids: map<Chat, nat>) {
    forall c, e :: 1 <= e <= At(ids, c) ==> Passed(streams, completed, forgotten, c, e)
  }

  /** The event did not throw, and the store came to know its message if it asks for something. */
  predicate Answered(streams: Streams, known: set<MsgId>, c: Chat, e: nat) {
    !Poisoned(streams, c, e) && (Asks(streams, c, e) ==> StreamOf(streams, c)[e - 1].msg in known)
  }

  ghost predicate AllAnswered(streams: Streams, completed: set<(Chat, nat)>, known: set<MsgId>) {
    forall c, e :: (c, e) in completed ==> Answered(streams, known, c, e)
  }

  /** What a chat delivered so far is passed, but for the event still being handled. */
  ghost predicate PumpCovered(
    streams: Streams, completed: set<(Chat, nat)>, forgotten: set<MsgId>, known: set<MsgId>, cursor: nat, pump: Pump, c: Chat)
  {
    && (forall e :: 1 <= e < cursor ==> Passed(streams, completed, forgotten, c, e))
    && match pump
       case Idle => cursor > 0 ==> Passed(streams, completed, forgotten, c, cursor)
       case Handling(e, _) => e == cursor >= 1 && Answered(streams, known, c, e)
  }

  ghost predicate PumpsCovered(y: System) {
    forall c :: PumpCovered(y.streams, y.completed, y.forgotten, y.Known(), y.Cursor(c), y.PumpOf(c), c)
  }

  ghost predicate Covered(y: System) {
    && AllPassed(y.streams, y.completed, y.forgotten, y.row.lastIds)
    && AllAnswered(y.streams, y.completed, y.Known())
    && (!y.phase.Down? ==> AllPassed(y.streams, y.completed, y.forgotten, y.lastIds) && PumpsCovered(y))
  }

  function Count(log: seq<MsgId>, m: MsgId): nat {
    multiset(log)[m]
  }

  /** A message whose entry is kept was admitted at most once, and only if the row has it. */
  ghost predicate OnceEach(admitted: seq<MsgId>, forgotten: set<MsgId>, handled: set<MsgId>) {
    forall m :: m !in forgotten ==> Count(admitted, m) <= 1 && (Count(admitted, m) == 1 ==> m in handled)
  }

  /** The store knows the messages of the engine's processes, or did; a doubled one it had dropped. */
  ghost predicate Remembered(s: State, known: set<MsgId>, forgotten: set<MsgId>) {
    && s.doubled <= forgotten
    && forall i :: 0 <= i < |s.procs| && !s.procs[i].task.Repo? ==> s.procs[i].task.msg in known
  }

  ghost predicate InStep(y: System) {
    !y.phase.Down? ==>
      && Inv(y.engine) && y.row.handled == y.engine.handled && (y.phase.Up? ==> !y.engine.stopped)
      && Remembered(y.engine, y.Known(), y.forgotten)
  }

  ghost predicate SystemInv(y: System) {
    InStep(y) && Covered(y) && OnceEach(y.admitted, y.forgotten, y.row.handled.Keys)
  }

  lemma PumpsKnowMore(y: System, y': System)
    requires PumpsCovered(y) && y.Known() <= y'.Known() && y.forgotten <= y'.forgotten
    requires y'.streams == y.streams && y'.completed == y.completed && y'.cursors == y.cursors && y'.pumps == y.pumps
    ensures PumpsCovered(y')
  {
    forall c
      ensures PumpCovered(y'.streams, y'.completed, y'.forgotten, y'.Known(), y'.Cursor(c), y'.PumpOf(c), c)
    {
      assert PumpCovered(y.streams, y.completed, y.forgotten, y.Known(), y.Cursor(c), y.PumpOf(c), c);
      forall e | Passed(y.streams, y.completed, y.forgotten, c, e)
        ensures Passed(y'.streams, y'.completed, y'.forgotten, c, e)
      {
      }
    }
  }

  lemma SavedKeeps(y: System)
    requires SystemInv(y) && !y.phase.Down?
    ensures SystemInv(Saved(y))
  {
    assert Saved(y).Known() == y.Known();
    PumpsKnowMore(y, Saved(y));
  }

  // ----- Completed calls -----

  lemma PassedGrows(streams: Streams, completed: set<(Chat, nat)>, more: set<(Chat, nat)>,
                    forgotten: set<MsgId>, later: set<MsgId>, ids: map<Chat, nat>)
    requires AllPassed(streams, completed, forgotten, ids) && completed <= more && forgotten <= later
    ensures AllPassed(streams, more, later, ids)
  {
    forall c, e | 1 <= e <= At(ids, c)
      ensures Passed(streams, more, later, c, e)
    {
      assert Passed(streams, completed, forgotten, c, e);
    }
  }

  lemma CompleteCovers(y: System, c: Chat)
    requires Covered(y) && y.phase.Up? && y.PumpOf(c).Handling?
    ensures Covered(CompleteNext(y, c, false))
  {
    var y' := CompleteNext(y, c, false);
    var e := y.PumpOf(c).event;
    assert PumpCovered(y.streams, y.completed, y.forgotten, y.Known(), y.Cursor(c), y.PumpOf(c), c);
    PassedGrows(y.streams, y.completed, y'.completed, y.forgotten, y.forgotten, y.row.lastIds);
    forall d, f | 1 <= f <= At(y'.lastIds, d)
      ensures Passed(y.streams, y'.completed, y.forgotten, d, f)
    {
      if d != c || f != e {
        assert Passed(y.streams, y.completed, y.forgotten, d, f);
      }
    }
    forall d
      ensures PumpCovered(y.streams, y'.completed, y.forgotten, y.Known(), y'.Cursor(d), y'.PumpOf(d), d)
    {
      assert PumpCovered(y.streams, y.completed, y.forgotten, y.Known(), y.Cursor(d), y.PumpOf(d), d);
      forall f | 1 <= f < y.Cursor(d)
        ensures Passed(y.streams, y'.completed, y.forgotten, d, f)
      {
        assert Passed(y.streams, y.completed, y.forgotten, d, f);
      }
    }
    assert y'.Known() == y.Known();
  }

  lemma CompleteKeeps(y: System, c: Chat, saved: bool)
    requires SystemInv(y) && CanMove(y, Complete(c, saved))
    ensures SystemInv(MoveNext(y, Complete(c, saved)))
  {
    var y' := CompleteNext(y, c, false);
    CompleteCovers(y, c);
    SavedKeeps(y');
  }

  lemma ResubscribeKeeps(y: System, c: Chat)
    requires SystemInv(y) && CanMove(y, Resubscribe(c))
    ensures SystemInv(MoveNext(y, Resubscribe(c)))
  {
    var y' := MoveNext(y, Resubscribe(c));
    forall d
      ensures PumpCovered(y.streams, y.completed, y.forgotten, y.Known(), y'.Cursor(d), y'.PumpOf(d), d)
    {
      assert PumpCovered(y.streams, y.completed, y.forgotten, y.Known(), y.Cursor(d), y.PumpOf(d), d);
    }
  }

  // ----- Crashes and restarts -----

  lemma AnsweredGrows(streams: Streams, completed: set<(Chat, nat)>, known: set<MsgId>, more: set<MsgId>)
    requires AllAnswered(streams, completed, known) && known <= more
    ensures AllAnswered(streams, completed, more)
  {
    forall c, e | (c, e) in completed
      ensures Answered(streams, more, c, e)
    {
      assert Answered(streams, known, c, e);
    }
  }

  lemma RepairKeeps(y: System, y': System)
    requires SystemInv(y) && y.phase.Down?
    requires y'.row.lastIds == y.row.lastIds && y'.streams == y.streams && y'.completed == y.completed && y'.admitted == y.admitted
    requires exists repaired, expired :: y'.row.handled == Repaired(y.row.handled, repaired, expired) && y'.forgotten == y.forgotten + expired
    ensures AllPassed(y'.streams, y'.completed, y'.forgotten, y'.row.lastIds)
    ensures AllAnswered(y'.streams, y'.completed, y'.Known())
    ensures OnceEach(y'.admitted, y'.forgotten, y'.row.handled.Keys)
  {
    PassedGrows(y.streams, y.completed, y.completed, y.forgotten, y'.forgotten, y.row.lastIds);
    AnsweredGrows(y.streams, y.completed, y.Known(), y'.Known());
  }

  lemma CrashKeeps(y: System, move: Move)
    requires SystemInv(y) && CanMove(y, move) && (move.Crash? || move.CrashInRecovery?)
    ensures SystemInv(MoveNext(y, move))
  {
    if move.CrashInRecovery? {
      RepairKeeps(y, MoveNext(y, move));
    }
  }

  lemma RestartKeeps(y: System, move: Move)
    requires SystemInv(y) && CanMove(y, move) && move.Restart?
    ensures SystemInv(MoveNext(y, move))
  {
    var y' := MoveNext(y, move);
    FreshInv(move.ids, move.concurrency, y'.row.handled, move.shown);
    RepairKeeps(y, y');
    forall c
      ensures PumpCovered(y'.streams, y'.completed, y'.forgotten, y'.Known(), y'.Cursor(c), y'.PumpOf(c), c)
    {
      assert forall e :: 1 <= e <= At(y.row.lastIds, c) ==> Passed(y'.streams, y'.completed, y'.forgotten, c, e);
    }
  }

  // ----- Steps of the engine -----

  lemma OnlyStopStops(s: State, step: Step)
    requires Enabled(s, step) && !step.Stop?
    ensures Next(s, step).stopped == s.stopped
  {
  }

  /** The messages of the processes stay the same, as long as no handler is called. */
  ghost predicate SameTasks(s: State, s': State) {
    && |s.procs| <= |s'.procs|
    && (forall i :: 0 <= i < |s.procs| ==> s'.procs[i].task == s.procs[i].task)
    && (forall i :: |s.procs| <= i < |s'.procs| ==> s'.procs[i].task.Repo?)
  }

  lemma MovedTasks(s: State, s': State, i: nat)
    requires OnlyMoved(s, s', i)
    ensures SameTasks(s, s')
  {
  }

  lemma EnqueuedTasks(s: State, key: Key)
    requires Workers(s)
    ensures SameTasks(s, EnqueueRepoNext(s, key))
  {
    EnqueueAdds(s, key);
    if EnqueueAccepts(s, key) {
      SpawnedSends(s, key);
    }
  }

  lemma TasksStay(s: State, step: Step)
    requires Inv(s) && Enabled(s, step) && !Handles(step)
    ensures SameTasks(s, Next(s, step))
  {
    if OfProcess(s, step) {
      var i := StepGoesOn(s, step);
      MovedTasks(s, Next(s, step), i);
    } else if step.EnqueueRepo? {
      EnqueuedTasks(s, step.key);
    } else if step.Stop? {
      StopSeats(s);
    } else if step.Loop? {
      LoopRests(s, step.worker);
    }
  }

  lemma EntriesStay(s: State, step: Step)
    requires Enabled(s, step) && !step.Prune?
    ensures s.handled.Keys <= Next(s, step).handled.Keys
  {
    forall m | m in s.handled
      ensures m in Next(s, step).handled
    {
      EntriesKept(s, step, m);
    }
  }

  /** The engine went on and the store with it; the row may have been saved. */
  ghost predicate StoreAdvanced(y: System, y': System) {
    && y'.row.handled == y'.engine.handled
    && (y'.row.lastIds == y.row.lastIds || y'.row.lastIds == y.lastIds)
    && y'.lastIds == y.lastIds && y'.streams == y.streams && y'.completed == y.completed
    && y'.cursors == y.cursors && y'.pumps == y.pumps && y'.admitted == y.admitted
    && y.forgotten <= y'.forgotten && y.row.handled.Keys <= y'.Known()
    && (y'.phase.Up? ==> !y'.engine.stopped)
  }

  lemma StoreAdvancedKeeps(y: System, y': System)
    requires SystemInv(y) && !y.phase.Down? && StoreAdvanced(y, y') && Inv(y'.engine)
    requires SameTasks(y.engine, y'.engine) && y'.engine.doubled == y.engine.doubled
    ensures SystemInv(y')
  {
    PassedGrows(y.streams, y.completed, y.completed, y.forgotten, y'.forgotten, y.row.lastIds);
    PassedGrows(y.streams, y.completed, y.completed, y.forgotten, y'.forgotten, y.lastIds);
    AnsweredGrows(y.streams, y.completed, y.Known(), y'.Known());
    PumpsKnowMore(y, y');
  }

  /** What one step of the engine does to the row, whatever else it does. */
  lemma EngineAdvances(y: System, step: Step, engine: State)
    requires y.row.handled == y.engine.handled
    requires if step.Prune? then engine.handled == y.engine.handled - step.expired else y.engine.handled.Keys <= engine.handled.Keys
    requires y.phase.Up? && !step.Stop? ==> !engine.stopped
    ensures StoreAdvanced(y, WithEngine(y, engine).(
      phase := if step.Stop? then Draining else y.phase,
      forgotten := if step.Prune? then y.forgotten + step.expired else y.forgotten))
  {
  }

  /** What the daemon needs to know of a step. */
  ghost predicate StepFacts(s: State, step: Step, s': State) {
    && Inv(s') && SameTasks(s, s') && s'.doubled == s.doubled
    && (if step.Prune? then s'.handled == s.handled - step.expired else s.handled.Keys <= s'.handled.Keys)
    && (!step.Stop? ==> s'.stopped == s.stopped)
  }

  lemma EngineStepFacts(s: State, step: Step)
    requires Inv(s) && Enabled(s, step) && !Handles(step)
    ensures StepFacts(s, step, Next(s, step))
  {
    StepKeeps(s, step);
    TasksStay(s, step);
    OthersDoubleNone(s, step);
    if !step.Prune? {
      EntriesStay(s, step);
    }
    if !step.Stop? {
      OnlyStopStops(s, step);
    }
  }

  lemma EngineMoveKeeps(y: System, step: Step, engine: State)
    requires SystemInv(y) && !y.phase.Down? && StepFacts(y.engine, step, engine)
    ensures SystemInv(WithEngine(y, engine).(
      phase := if step.Stop? then Draining else y.phase,
      forgotten := if step.Prune? then y.forgotten + step.expired else y.forgotten))
  {
    EngineAdvances(y, step, engine);
    StoreAdvancedKeeps(y, WithEngine(y, engine).(
      phase := if step.Stop? then Draining else y.phase,
      forgotten := if step.Prune? then y.forgotten + step.expired else y.forgotten));
  }

  lemma EngineKeeps(y: System, step: Step)
    requires SystemInv(y) && CanMove(y, Engine(step))
    ensures SystemInv(MoveNext(y, Engine(step)))
  {
    EngineStepFacts(y.engine, step);
    EngineMoveKeeps(y, step, Next(y.engine, step));
  }

  // ----- Deliveries -----

  /** The chat is one event further, and the engine as it was. */
  ghost predicate Passes(y: System, y': System, c: Chat) {
    var e := y.Cursor(c) + 1;
    && y' == y.(cursors := y.cursors[c := e], pumps := y'.pumps)
    && if y'.pumps == y.pumps then Poisoned(y.streams, c, e)
       else y'.pumps == y.pumps[c := Handling(e, None)] && Answered(y.streams, y.Known(), c, e)
  }

  lemma PassingCovers(y: System, y': System, c: Chat)
    requires Covered(y) && y.phase.Up? && y.PumpOf(c).Idle? && Passes(y, y', c)
    ensures Covered(y')
  {
    assert y'.Known() == y.Known();
    forall d
      ensures PumpCovered(y.streams, y.completed, y.forgotten, y'.Known(), y'.Cursor(d), y'.PumpOf(d), d)
    {
      assert PumpCovered(y.streams, y.completed, y.forgotten, y.Known(), y.Cursor(d), y.PumpOf(d), d);
    }
  }

  lemma QuietDeliveryPasses(y: System, c: Chat)
    requires CanMove(y, Deliver(c)) && !Asks(y.streams, c, y.Cursor(c) + 1)
    ensures Passes(y, DeliverNext(y, c), c)
  {
  }

  /** A delivery that leaves the engine alone: nothing was asked, or nobody had sent it. */
  lemma QuietDeliveryKeeps(y: System, c: Chat)
    requires SystemInv(y) && CanMove(y, Deliver(c)) && !Asks(y.streams, c, y.Cursor(c) + 1)
    ensures SystemInv(MoveNext(y, Deliver(c)))
  {
    QuietDeliveryPasses(y, c);
    PassingCovers(y, MoveNext(y, Deliver(c)), c);
  }

  /** What the daemon needs to know of a handler's call. */
  ghost predicate AskFacts(s: State, msg: MsgId, s': State) {
    && Inv(s') && !s'.stopped && s'.handled.Keys == s.handled.Keys + {msg}
    && (forall m :: m in s'.doubled ==> m in s.doubled || (m == msg && DroppedLive(s, msg)))
    && (Threw(s, s') ==> msg in s'.doubled && msg !in s.handled)
    && |s.procs| <= |s'.procs| && (forall i :: 0 <= i < |s.procs| ==> s'.procs[i].task == s.procs[i].task)
    && (forall i :: |s.procs| <= i < |s'.procs| ==> !s'.procs[i].task.Repo? && s'.procs[i].task.msg == msg)
  }

  /** A handler starts one process at most, for its message. */
  ghost predicate SpawnsFor(s: State, s': State, msg: MsgId) {
    && s.procs <= s'.procs && (|s'.procs| > |s.procs| ==> msg !in s.handled)
    && forall i :: |s.procs| <= i < |s'.procs| ==> !s'.procs[i].task.Repo? && s'.procs[i].task.msg == msg
  }

  lemma TakenUpSpawns(s: State, s': State, task: Task, p: Proc)
    requires !task.Repo? && p.task == task && TakenUp(s, s', task, p) && task.msg !in s.handled
    ensures SpawnsFor(s, s', task.msg)
  {
  }

  lemma HandleSpawns(s: State, step: Step)
    requires Handles(step)
    ensures SpawnsFor(s, Next(s, step), step.msg)
  {
    if !s.stopped && step.msg !in s.handled {
      if step.HandleReply? || (step.HandleJob? && step.key in s.inFlight) {
        assert Next(s, step) == TakeUp(s, step.msg, Done);
      } else if step.HandleError? || |s.inFlight| >= MAX_QUEUED {
        RefusingIs(s, step.msg);
        TakenUpSpawns(s, RefuseMessage(s, step.msg), Refusal(step.msg), NewProc(s, Refusal(step.msg), Refusing([])));
      } else {
        AdmittingIs(s, step.msg, step.key);
        TakenUpSpawns(s, HandleJobNext(s, step.msg, step.key), Review(step.msg, step.key),
                      NewProc(s, Review(step.msg, step.key), Announcing([])));
      }
    }
  }

  lemma HandledKeys(s: State, step: Step)
    requires Handles(step) && !s.stopped
    ensures Next(s, step).handled.Keys == s.handled.Keys + {step.msg} && !Next(s, step).stopped
  {
  }

  lemma DoublesOnly(s: State, step: Step)
    requires Handles(step)
    ensures forall m :: m in Next(s, step).doubled ==> m in s.doubled || (m == step.msg && DroppedLive(s, m))
  {
    forall m | m in Next(s, step).doubled
      ensures m in s.doubled || (m == step.msg && DroppedLive(s, m))
    {
      DoubledStep(s, step, m);
    }
  }

  lemma AskKeepsEngine(s: State, msg: MsgId, ask: Ask)
    requires Inv(s) && !s.stopped && (ask.Job? || ask.Error? || ask.Reply?)
    ensures AskFacts(s, msg, Next(s, HandleStep(msg, ask)))
  {
    var step := HandleStep(msg, ask);
    StepKeeps(s, step);
    HandledKeys(s, step);
    HandleSpawns(s, step);
    DoublesOnly(s, step);
    AskFactsHold(s, msg, Next(s, step));
  }

  lemma AskFactsHold(s: State, msg: MsgId, s': State)
    requires Inv(s') && !s'.stopped && s'.handled.Keys == s.handled.Keys + {msg} && SpawnsFor(s, s', msg)
    requires forall m :: m in s'.doubled ==> m in s.doubled || (m == msg && DroppedLive(s, m))
    ensures AskFacts(s, msg, s')
  {
    ThrewIsDoubled(s, s', msg);
  }

  lemma ThrewIsDoubled(s: State, s': State, msg: MsgId)
    requires Calm(s')
    requires forall i :: |s.procs| <= i < |s'.procs| ==> !s'.procs[i].task.Repo? && s'.procs[i].task.msg == msg
    ensures Threw(s, s') ==> msg in s'.doubled
  {
    if Threw(s, s') {
      assert Upset(s'.procs[|s.procs|]);
    }
  }

  /** Admitting a message the store did not have adds its first and only admission. */
  lemma AdmissionKeepsOnce(admitted: seq<MsgId>, forgotten: set<MsgId>, handled: set<MsgId>, msg: MsgId)
    requires OnceEach(admitted, forgotten, handled) && msg !in handled
    ensures OnceEach(admitted + [msg], forgotten, handled + {msg})
  {
    assert multiset(admitted + [msg]) == multiset(admitted)[msg := multiset(admitted)[msg] + 1];
  }

  /** A message that is live and not in the store had been dropped from it. */
  lemma DoublingIsForgotten(s: State, msg: MsgId, s': State, forgotten: set<MsgId>)
    requires Remembered(s, s.handled.Keys + forgotten, forgotten) && AskFacts(s, msg, s')
    ensures Remembered(s', s'.handled.Keys + forgotten, forgotten)
    ensures Threw(s, s') ==> msg in forgotten
  {
    if DroppedLive(s, msg) {
      var i :| 0 <= i < |s.procs| && Live(s.procs[i]) && s.procs[i].task.msg == msg;
      assert msg in forgotten;
    }
  }

  /** The state after a delivery whose message asks for something. */
  lemma AskCovers(y: System, y': System, c: Chat, pump: Pump)
    requires Covered(y) && y.phase.Up? && y.PumpOf(c).Idle? && Asks(y.streams, c, y.Cursor(c) + 1)
    requires y'.streams == y.streams && y'.completed == y.completed && y'.lastIds == y.lastIds && y'.phase == y.phase
    requires y'.forgotten == y.forgotten && (y'.row.lastIds == y.row.lastIds || y'.row.lastIds == y.lastIds)
    requires y'.cursors == y.cursors[c := y.Cursor(c) + 1]
    requires pump.Idle? ==> y'.pumps == y.pumps && Dropped(y.streams, y.forgotten, c, y.Cursor(c) + 1)
    requires pump.Handling? ==> pump.event == y.Cursor(c) + 1 && y'.pumps == y.pumps[c := pump]
    requires y.Known() + {StreamOf(y.streams, c)[y.Cursor(c)].msg} <= y'.Known()
    ensures Covered(y')
  {
    AnsweredGrows(y.streams, y.completed, y.Known(), y'.Known());
    forall d
      ensures PumpCovered(y.streams, y.completed, y.forgotten, y'.Known(), y'.Cursor(d), y'.PumpOf(d), d)
    {
      assert PumpCovered(y.streams, y.completed, y.forgotten, y.Known(), y.Cursor(d), y.PumpOf(d), d);
    }
  }

  /** What such a delivery does to the system, whatever the engine does with it. */
  ghost predicate AskAdvanced(y: System, y': System, c: Chat, engine: State) {
    && Asks(y.streams, c, y.Cursor(c) + 1)
    && var event := y.Stream(c)[y.Cursor(c)];
    && y'.engine == engine && y'.row.handled == engine.handled && y'.forgotten == y.forgotten
    && y'.admitted == (if Admits(y.engine, event.msg, event.ask) then y.admitted + [event.msg] else y.admitted)
    && y'.streams == y.streams && y'.completed == y.completed && y'.lastIds == y.lastIds && y'.phase == y.phase
    && (y'.row.lastIds == y.row.lastIds || y'.row.lastIds == y.lastIds)
    && y'.cursors == y.cursors[c := y.Cursor(c) + 1]
    && y'.pumps == if Threw(y.engine, engine) then y.pumps else y.pumps[c := Handling(y.Cursor(c) + 1, Started(y.engine, engine))]
  }

  lemma AskAdvances(y: System, c: Chat, engine: State)
    requires y.row.handled == y.engine.handled
    requires CanMove(y, Deliver(c)) && Asks(y.streams, c, y.Cursor(c) + 1)
    requires var event := y.Stream(c)[y.Cursor(c)]; engine == Next(y.engine, HandleStep(event.msg, event.ask))
    ensures AskAdvanced(y, DeliverNext(y, c), c, engine)
  {
    var event := y.Stream(c)[y.Cursor(c)];
    var moved := WithEngine(y.(cursors := y.cursors[c := y.Cursor(c) + 1]), engine);
    assert moved.row.handled == engine.handled;
    assert moved == y.(cursors := y.cursors[c := y.Cursor(c) + 1], engine := engine, row := moved.row);
    assert DeliverNext(y, c) == moved.(
      pumps := if Threw(y.engine, engine) then y.pumps else y.pumps[c := Handling(y.Cursor(c) + 1, Started(y.engine, engine))],
      admitted := if Admits(y.engine, event.msg, event.ask) then y.admitted + [event.msg] else y.admitted);
  }

  lemma AskAdvancedKeeps(y: System, y': System, c: Chat, engine: State)
    requires SystemInv(y) && CanMove(y, Deliver(c)) && AskAdvanced(y, y', c, engine)
    requires AskFacts(y.engine, y.Stream(c)[y.Cursor(c)].msg, engine)
    ensures SystemInv(y')
  {
    var event := y.Stream(c)[y.Cursor(c)];
    DoublingIsForgotten(y.engine, event.msg, engine, y.forgotten);
    AskCovers(y, y', c, if Threw(y.engine, engine) then Idle else Handling(y.Cursor(c) + 1, Started(y.engine, engine)));
    if Admits(y.engine, event.msg, event.ask) {
      AdmissionKeepsOnce(y.admitted, y.forgotten, y.row.handled.Keys, event.msg);
    }
  }

  lemma AskDeliveryKeeps(y: System, c: Chat)
    requires SystemInv(y) && CanMove(y, Deliver(c)) && Asks(y.streams, c, y.Cursor(c) + 1)
    ensures SystemInv(MoveNext(y, Deliver(c)))
  {
    var event := y.Stream(c)[y.Cursor(c)];
    AskKeepsEngine(y.engine, event.msg, event.ask);
    AskAdvances(y, c, Next(y.engine, HandleStep(event.msg, event.ask)));
    AskAdvancedKeeps(y, DeliverNext(y, c), c, Next(y.engine, HandleStep(event.msg, event.ask)));
  }

  // ----- Every run -----

  lemma MoveKeeps(y: System, move: Move)
    requires SystemInv(y) && CanMove(y, move)
    ensures SystemInv(MoveNext(y, move))
  {
    match move {
      case Deliver(c) =>
        if Asks(y.streams, c, y.Cursor(c) + 1) { AskDeliveryKeeps(y, c); } else { QuietDeliveryKeeps(y, c); }
      case Complete(c, saved) => CompleteKeeps(y, c, saved);
      case Timer => SavedKeeps(y);
      case Resubscribe(c) => ResubscribeKeeps(y, c);
      case Engine(step) => EngineKeeps(y, step);
      case Crash => CrashKeeps(y, move);
      case CrashInRecovery(_, _) => CrashKeeps(y, move);
      case Restart(_, _, _, _) => RestartKeeps(y, move);
    }
  }

  lemma {:induction false} MovesKeep(y: System, moves: seq<Move>)
    requires SystemInv(y) && ValidMoves(y, moves)
    ensures SystemInv(Moved(y, moves))
    decreases |moves|
  {
    if moves != [] {
      MoveKeeps(y, moves[0]);
      MovesKeep(MoveNext(y, moves[0]), moves[1..]);
    }
  }

  /**
   * Over any run with crashes, restarts and replays: a message whose handled
   * entry was never dropped is admitted at most once; of every event at or
   * before the persisted id, `handle` returned in some run, unless it had no
   * sender, or its message had been dropped; and the store has every message
   * asked for, or dropped it.
   */
  lemma ExactlyOnce(streams: Streams, ids: R.Ids, moves: seq<Move>)
    requires ValidMoves(Untouched(streams, ids), moves)
    ensures var y := Moved(Untouched(streams, ids), moves);
      && (forall m :: m !in y.forgotten ==> Count(y.admitted, m) <= 1)
      && (forall c, e :: 1 <= e <= At(y.row.lastIds, c) && !Poisoned(y.streams, c, e) && !Dropped(y.streams, y.forgotten, c, e) ==>
            (c, e) in y.completed)
      && (forall c, e :: (c, e) in y.completed ==> !Poisoned(y.streams, c, e))
      && (forall c, e :: 1 <= e <= At(y.row.lastIds, c) && Asks(y.streams, c, e) ==>
            StreamOf(y.streams, c)[e - 1].msg in y.row.handled.Keys + y.forgotten)
  {
    var start := Untouched(streams, ids);
    assert SystemInv(start);
    MovesKeep(start, moves);
    var y := Moved(start, moves);
    forall c, e | 1 <= e <= At(y.row.lastIds, c)
      ensures !Poisoned(y.streams, c, e) && !Dropped(y.streams, y.forgotten, c, e) ==> (c, e) in y.completed
      ensures Asks(y.streams, c, e) ==> StreamOf(y.streams, c)[e - 1].msg in y.row.handled.Keys + y.forgotten
    {
      assert Passed(y.streams, y.completed, y.forgotten, c, e);
      assert (c, e) in y.completed ==> Answered(y.streams, y.Known(), c, e);
    }
    forall c, e | (c, e) in y.completed
      ensures !Poisoned(y.streams, c, e)
    {
      assert Answered(y.streams, y.Known(), c, e);
    }
  }

  // ----- What a move records -----

  /** The next event asks for a job, is an error, or wants a reply, and its message is not known: what the engine stores of it. */
  lemma DeliveryStores(y: System, c: Chat)
    requires CanMove(y, Deliver(c)) && y.Stream(c)[y.Cursor(c)].Message? && !y.engine.stopped
    requires y.Stream(c)[y.Cursor(c)].msg !in y.engine.handled
    ensures var Message(m, ask), s, s' := y.Stream(c)[y.Cursor(c)], y.engine, MoveNext(y, Deliver(c)).engine;
      && (ask.Throws? || ask.Nothing? ==> s' == s)
      && (ask.Reply? ==> s'.handled == s.handled[m := Done] && s'.procs == s.procs)
      && (ask.Error? ==> s'.handled == s.handled[m := Failed] && JoinedBy(s, s', Task.Refusal(m)))
      && (ask.Job? && ask.key in s.inFlight ==> s'.handled == s.handled[m := Done] && s'.procs == s.procs)
      && (ask.Job? && ask.key !in s.inFlight ==>
            if |s.inFlight| >= 64 then s'.handled == s.handled[m := Failed] && JoinedBy(s, s', Task.Refusal(m))
            else s'.handled == s.handled[m := Pending] && JoinedBy(s, s', Task.Review(m, ask.key)))
  {
    var event := y.Stream(c)[y.Cursor(c)];
    OthersAreAnswered(y.engine, event.msg);
    if event.ask.Job? {
      JobIsAnswered(y.engine, event.msg, event.ask.key);
    }
  }

  /** A handled event is recorded with the row, at once or when the timer runs out; and then a crash does not lose it. */
  lemma HandledIsRecorded(y: System, c: Chat)
    requires CanMove(y, Complete(c, false))
    ensures At(MoveNext(y, Complete(c, true)).row.lastIds, c) == y.PumpOf(c).event
    ensures var unsaved := MoveNext(y, Complete(c, false));
      && unsaved.row == y.row && At(unsaved.lastIds, c) == y.PumpOf(c).event && (c, y.PumpOf(c).event) in unsaved.completed
      && CanMove(unsaved, Timer)
      && var saved := MoveNext(unsaved, Timer);
         At(saved.row.lastIds, c) == y.PumpOf(c).event && At(MoveNext(saved, Crash).row.lastIds, c) == y.PumpOf(c).event
  {
  }

  /** A chat that is subscribed to anew is read from behind the last id in memory. */
  lemma ResubscribeReads(y: System, c: Chat)
    requires CanMove(y, Resubscribe(c))
    ensures var y' := MoveNext(y, Resubscribe(c));
      && y'.Cursor(c) == At(y.lastIds, c) && (forall o :: o != c ==> y'.Cursor(o) == y.Cursor(o))
      && y'.row == y.row && y'.lastIds == y.lastIds && y'.engine == y.engine && y'.completed == y.completed
  {
  }

  /**
   * A restart comes up with the row's ids and reads each chat from behind them;
   * no entry is left pending or running: those have failed, and what was settled
   * is kept, but for what has expired.
   */
  lemma RestartRepairs(y: System, ids: R.Ids, concurrency: nat, shown: map<MsgId, set<string>>, expired: set<MsgId>)
    requires y.phase.Down?
    ensures var y' := MoveNext(y, Restart(ids, concurrency, shown, expired));
      && y'.phase.Up? && y'.lastIds == y.row.lastIds && (forall c :: y'.Cursor(c) == At(y.row.lastIds, c))
      && y'.engine.handled == y'.row.handled && y'.engine.procs == [] && y'.engine.inFlight == {}
      && (forall m :: m in y'.row.handled <==> m in y.row.handled && m !in expired)
      && (forall m :: m in y'.row.handled ==>
            y'.row.handled[m] == if y.row.handled[m] in {Pending, Running} then Failed else y.row.handled[m])
  {
    var y' := MoveNext(y, Restart(ids, concurrency, shown, expired));
    forall m | m in y.row.handled
      ensures Terminal(y.row.handled[m]) <==> y.row.handled[m] !in {Pending, Running}
    {
      var status := y.row.handled[m];
      assert status == Pending || status == Running || status == Done || status == Failed;
    }
  }

  // ----- The event that is lost -----

  /** The next event of the chat asks for a job that there is a key and room for. */
  predicate AsksForJob(y: System, c: Chat) {
    && CanMove(y, Deliver(c)) && Asks(y.streams, c, y.Cursor(c) + 1)
    && var event := y.Stream(c)[y.Cursor(c)]; TakesKey(y.engine, event.msg, event.ask) && event.msg !in y.engine.doubled
  }

  /**
   * `handle` throws on it exactly if a job of the same message has been
   * announced and still goes on; then the message's entry had been dropped, and
   * its key stays in flight without a job.
   */
  lemma LosesIff(y: System, c: Chat)
    requires SystemInv(y) && AsksForJob(y, c)
    ensures var event := y.Stream(c)[y.Cursor(c)]; var y' := DeliverNext(y, c);
      && (y'.PumpOf(c).Idle? <==> event.msg in y.engine.marks)
      && (event.msg in y.engine.marks ==>
            event.msg in y.forgotten && event.ask.key in y'.engine.inFlight && event.ask.key !in JobKeys(y'.engine.procs))
  {
    var event := y.Stream(c)[y.Cursor(c)];
    var engine := HandleJobNext(y.engine, event.msg, event.ask.key);
    AskAdvances(y, c, engine);
    ForbiddenIff(y.engine, event.msg, event.ask.key);
    AdmittingIs(y.engine, event.msg, event.ask.key);
    if event.msg in y.engine.marks {
      var i :| 0 <= i < |y.engine.procs| && Live(y.engine.procs[i]) && y.engine.procs[i].task.msg == event.msg;
    }
  }

  /** The event is behind what is recorded, and its call was never completed. */
  ghost predicate Skipped(y: System, c: Chat, e: nat) {
    && (c, e) !in y.completed && At(y.row.lastIds, c) >= e
    && (!y.phase.Down? ==>
          && At(y.lastIds, c) >= e && y.Cursor(c) >= e
          && (y.PumpOf(c).Handling? ==> y.PumpOf(c).event > e))
  }

  /** What a delivery does to a daemon, apart from the engine. */
  ghost predicate Delivered(y: System, y': System, c: Chat) {
    && y'.completed == y.completed && y'.lastIds == y.lastIds && y'.phase == y.phase && y'.streams == y.streams
    && (y'.row.lastIds == y.row.lastIds || y'.row.lastIds == y.lastIds)
    && y'.cursors == y.cursors[c := y.Cursor(c) + 1]
    && (y'.pumps == y.pumps
        || (y'.PumpOf(c).Handling? && y'.PumpOf(c).event == y.Cursor(c) + 1 && y'.pumps == y.pumps[c := y'.PumpOf(c)]))
  }

  lemma AskDelivered(y: System, c: Chat, engine: State)
    requires CanMove(y, Deliver(c)) && Asks(y.streams, c, y.Cursor(c) + 1)
    requires var event := y.Stream(c)[y.Cursor(c)]; engine == Next(y.engine, HandleStep(event.msg, event.ask))
    ensures Delivered(y, DeliverNext(y, c), c)
  {
    var event := y.Stream(c)[y.Cursor(c)];
    var moved := WithEngine(y.(cursors := y.cursors[c := y.Cursor(c) + 1]), engine);
    assert moved == y.(cursors := y.cursors[c := y.Cursor(c) + 1], engine := engine, row := moved.row);
    assert DeliverNext(y, c) == moved.(
      pumps := if Threw(y.engine, engine) then y.pumps else y.pumps[c := Handling(y.Cursor(c) + 1, Started(y.engine, engine))],
      admitted := if Admits(y.engine, event.msg, event.ask) then y.admitted + [event.msg] else y.admitted);
  }

  lemma DeliveryOfOthers(y: System, c: Chat)
    requires CanMove(y, Deliver(c))
    ensures Delivered(y, DeliverNext(y, c), c)
  {
    if Asks(y.streams, c, y.Cursor(c) + 1) {
      var event := y.Stream(c)[y.Cursor(c)];
      AskDelivered(y, c, Next(y.engine, HandleStep(event.msg, event.ask)));
    } else {
      QuietDeliveryPasses(y, c);
    }
  }

  lemma SkippedStep(y: System, move: Move, c: Chat, e: nat)
    requires CanMove(y, move) && Skipped(y, c, e)
    ensures Skipped(MoveNext(y, move), c, e)
  {
    if move.Deliver? {
      DeliveryOfOthers(y, move.chat);
    }
  }

  /** No later run completes it: it is not delivered again. */
  lemma {:induction false} SkippedForGood(y: System, moves: seq<Move>, c: Chat, e: nat)
    requires ValidMoves(y, moves) && Skipped(y, c, e)
    ensures Skipped(Moved(y, moves), c, e)
    decreases |moves|
  {
    if moves != [] {
      SkippedStep(y, moves[0], c, e);
      SkippedForGood(MoveNext(y, moves[0]), moves[1..], c, e);
    }
  }

  lemma NextIsRecorded(y: System, c: Chat)
    requires y.phase.Up? && y.PumpOf(c).Idle? && y.Cursor(c) < |y.Stream(c)| && y.Stream(c)[y.Cursor(c)].Other?
    requires (c, y.Cursor(c)) !in y.completed
    ensures CanMove(y, Deliver(c)) && CanMove(DeliverNext(y, c), Complete(c, true))
    ensures Skipped(CompleteNext(DeliverNext(y, c), c, true), c, y.Cursor(c))
  {
    assert DeliverNext(y, c) == y.(cursors := y.cursors[c := y.Cursor(c) + 1], pumps := y.pumps[c := Handling(y.Cursor(c) + 1, None)]);
  }

  /** And that is what becomes of a lost event as soon as the one behind it is recorded. */
  lemma LostIsSkipped(y: System, c: Chat)
    requires SystemInv(y) && AsksForJob(y, c) && y.Stream(c)[y.Cursor(c)].msg in y.engine.marks
    requires y.Cursor(c) + 1 < |y.Stream(c)| && y.Stream(c)[y.Cursor(c) + 1].Other? && (c, y.Cursor(c) + 1) !in y.completed
    ensures var lost := DeliverNext(y, c);
      && CanMove(lost, Deliver(c)) && CanMove(DeliverNext(lost, c), Complete(c, true))
      && Skipped(CompleteNext(DeliverNext(lost, c), c, true), c, y.Cursor(c) + 1)
  {
    LosesIff(y, c);
    DeliveryOfOthers(y, c);
    NextIsRecorded(DeliverNext(y, c), c);
  }

  // ----- A run that loses one -----

  ghost predicate Comes(streams: Streams, ids: R.Ids, y: System) {
    exists moves :: MovesTo(Untouched(streams, ids), moves, y)
  }

  predicate MovesTo(y: System, moves: seq<Move>, end: System) {
    ValidMoves(y, moves) && Moved(y, moves) == end
  }

  lemma {:induction false} MoveOn(y: System, moves: seq<Move>, mid: System, move: Move)
    requires MovesTo(y, moves, mid) && CanMove(mid, move)
    ensures MovesTo(y, moves + [move], MoveNext(mid, move))
    decreases |moves|
  {
    if moves == [] {
      assert [move][1..] == [];
    } else {
      MoveOn(MoveNext(y, moves[0]), moves[1..], mid, move);
      assert (moves + [move])[1..] == moves[1..] + [move];
    }
  }

  lemma ComesOn(streams: Streams, ids: R.Ids, y: System, move: Move)
    requires Comes(streams, ids, y) && CanMove(y, move)
    ensures Comes(streams, ids, MoveNext(y, move))
  {
    var moves :| MovesTo(Untouched(streams, ids), moves, y);
    MoveOn(Untouched(streams, ids), moves, y, move);
  }

  lemma ComesInv(streams: Streams, ids: R.Ids, y: System)
    requires Comes(streams, ids, y)
    ensures SystemInv(y)
  {
    var moves :| MovesTo(Untouched(streams, ids), moves, y);
    MovesKeep(Untouched(streams, ids), moves);
  }

  /** The chat has the same message twice, with different pull requests, and one event more. */
  ghost predicate Twice(streams: Streams, c: Chat, m: MsgId, a: Key, b: Key) {
    StreamOf(streams, c) == [Message(m, Job(a)), Message(m, Job(b)), Other]
  }

  lemma StartsUp(streams: Streams, ids: R.Ids) returns (y: System)
    ensures Comes(streams, ids, y) && y.phase.Up? && y.streams == streams && y.engine == Fresh(ids, 1, map[], map[])
    ensures y.cursors == map[] && y.pumps == map[] && y.completed == {} && y.row.handled == map[]
  {
    var start, move := Untouched(streams, ids), Restart(ids, 1, map[], {});
    assert MovesTo(start, [], start);
    ComesOn(streams, ids, start, move);
    y := MoveNext(start, move);
    assert Repaired(map[], Interrupted(map[]), {}) == map[];
  }

  /** An engine with one worker and one job, which stands there. */
  ghost predicate OneJob(s: State, ids: R.Ids, m: MsgId, a: Key, pc: Pc) {
    && s.ids == ids && s.procs == [Proc(Review(m, a), pc)] && s.inFlight == {a} && s.doubled == {} && !s.stopped
    && |s.workers| == 1
  }

  lemma FreshTakes(ids: R.Ids, m: MsgId, a: Key)
    ensures var s, s' := Fresh(ids, 1, map[], map[]), HandleJobNext(Fresh(ids, 1, map[], map[]), m, a);
      && TakesKey(s, m, Job(a)) && !Threw(s, s') && Started(s, s') == Some(0)
      && OneJob(s', ids, m, a, Announcing([R.Put(ids.pending)])) && s'.chan.receivers == [0]
  {
    var s := Fresh(ids, 1, map[], map[]);
    AdmittingIs(s, m, a);
    assert NewProc(s, Review(m, a), Announcing([])) == Proc(Review(m, a), Announcing([R.Put(ids.pending)]));
  }

  lemma DeliversJob(y: System, c: Chat, m: MsgId, a: Key, b: Key, engine: State)
    requires Twice(y.streams, c, m, a, b) && y.phase.Up? && y.PumpOf(c).Idle? && y.Cursor(c) == 0
    requires y.row.handled == y.engine.handled && engine == HandleJobNext(y.engine, m, a)
    requires !Threw(y.engine, engine) && Started(y.engine, engine) == Some(0)
    ensures CanMove(y, Deliver(c))
    ensures var y' := DeliverNext(y, c);
      && y'.engine == engine && y'.phase.Up? && y'.streams == y.streams && y'.completed == y.completed
      && y'.Cursor(c) == 1 && y'.PumpOf(c) == Handling(1, Some(0))
  {
    AskAdvances(y, c, engine);
  }

  /** The first event is delivered: its job is to be announced. */
  lemma TakesFirst(streams: Streams, ids: R.Ids, y: System, c: Chat, m: MsgId, a: Key, b: Key) returns (y': System)
    requires Twice(streams, c, m, a, b) && Comes(streams, ids, y) && y.phase.Up? && y.streams == streams
    requires y.engine == Fresh(ids, 1, map[], map[]) && y.cursors == map[] && y.pumps == map[] && y.completed == {}
    requires y.row.handled == map[]
    ensures Comes(streams, ids, y') && y'.phase.Up? && y'.streams == streams && y'.completed == {}
    ensures y'.Cursor(c) == 1 && y'.PumpOf(c) == Handling(1, Some(0))
    ensures OneJob(y'.engine, ids, m, a, Announcing([R.Put(ids.pending)])) && y'.engine.chan.receivers == [0]
  {
    FreshTakes(ids, m, a);
    DeliversJob(y, c, m, a, b, HandleJobNext(Fresh(ids, 1, map[], map[]), m, a));
    ComesOn(streams, ids, y, Deliver(c));
    y' := DeliverNext(y, c);
  }

  /** A step of the engine by itself leaves the rest of the daemon where it is. */
  lemma EngineGoes(streams: Streams, ids: R.Ids, y: System, step: Step) returns (y': System)
    requires Comes(streams, ids, y) && y.phase.Up? && Enabled(y.engine, step) && !Handles(step) && !step.Stop?
    ensures Comes(streams, ids, y') && y'.engine == Next(y.engine, step)
    ensures y' == y.(engine := y'.engine, row := y'.row, forgotten := y'.forgotten)
  {
    ComesOn(streams, ids, y, Engine(step));
    y' := MoveNext(y, Engine(step));
  }

  lemma AnnouncedNext(s: State, ids: R.Ids, m: MsgId, a: Key, op: R.Op)
    requires OneJob(s, ids, m, a, Announcing([op]))
    ensures Enabled(s, React(0, true))
    ensures OneJob(ReactNext(s, 0, true), ids, m, a, Announced) && ReactNext(s, 0, true).chan == s.chan
  {
  }

  lemma SubmittedNext(s: State, ids: R.Ids, m: MsgId, a: Key)
    requires OneJob(s, ids, m, a, Announced) && s.chan.receivers == [0] && !s.chan.closed
    ensures Enabled(s, Resume(0)) && OneJob(ResumeNext(s, 0), ids, m, a, Held(0))
  {
  }

  /** The job is announced and submitted. */
  lemma SubmitsFirst(streams: Streams, ids: R.Ids, y: System, m: MsgId, a: Key) returns (y': System)
    requires Comes(streams, ids, y) && y.phase.Up?
    requires OneJob(y.engine, ids, m, a, Announcing([R.Put(ids.pending)])) && y.engine.chan.receivers == [0]
    ensures Comes(streams, ids, y') && OneJob(y'.engine, ids, m, a, Held(0))
    ensures y' == y.(engine := y'.engine, row := y'.row, forgotten := y'.forgotten)
  {
    AnnouncedNext(y.engine, ids, m, a, R.Put(ids.pending));
    var announced := EngineGoes(streams, ids, y, React(0, true));
    IsOpen(streams, ids, announced);
    SubmittedNext(announced.engine, ids, m, a);
    y' := EngineGoes(streams, ids, announced, Resume(0));
  }

  lemma IsOpen(streams: Streams, ids: R.Ids, y: System)
    requires Comes(streams, ids, y) && y.phase.Up?
    ensures !y.engine.chan.closed && !y.engine.stopped
  {
    ComesInv(streams, ids, y);
  }

  /** The handler returns, and a day later maintenance drops the message. */
  lemma DropsFirst(streams: Streams, ids: R.Ids, y: System, c: Chat, m: MsgId, a: Key) returns (y': System)
    requires Comes(streams, ids, y) && y.phase.Up? && y.PumpOf(c) == Handling(1, Some(0)) && OneJob(y.engine, ids, m, a, Held(0))
    ensures Comes(streams, ids, y') && y'.phase.Up? && y'.PumpOf(c).Idle? && OneJob(y'.engine, ids, m, a, Held(0))
    ensures y'.streams == y.streams && y'.completed == y.completed + {(c, 1)} && y'.cursors == y.cursors && m !in y'.engine.handled
  {
    ComesOn(streams, ids, y, Complete(c, false));
    y' := EngineGoes(streams, ids, CompleteNext(y, c, false), Prune({m}));
  }

  lemma IsMarked(streams: Streams, ids: R.Ids, y: System, m: MsgId, a: Key)
    requires Comes(streams, ids, y) && y.phase.Up? && OneJob(y.engine, ids, m, a, Held(0))
    ensures m in y.engine.marks
  {
    ComesInv(streams, ids, y);
    assert Live(y.engine.procs[0]) && Tracked(y.engine, 0);
  }

  /** The message comes again, and then the event behind it. */
  lemma LosesSecond(streams: Streams, ids: R.Ids, y: System, c: Chat, m: MsgId, a: Key, b: Key) returns (y': System)
    requires Comes(streams, ids, y) && y.phase.Up? && y.PumpOf(c).Idle? && OneJob(y.engine, ids, m, a, Held(0)) && a != b
    requires Twice(streams, c, m, a, b) && y.streams == streams && y.Cursor(c) == 1
    requires (c, 2) !in y.completed && m !in y.engine.handled
    ensures Comes(streams, ids, y') && Skipped(y', c, 2)
  {
    IsMarked(streams, ids, y, m, a);
    ComesInv(streams, ids, y);
    LostIsSkipped(y, c);
    ComesOn(streams, ids, y, Deliver(c));
    ComesOn(streams, ids, DeliverNext(y, c), Deliver(c));
    ComesOn(streams, ids, DeliverNext(DeliverNext(y, c), c), Complete(c, true));
    y' := CompleteNext(DeliverNext(DeliverNext(y, c), c), c, true);
  }

  /**
   * From an empty row: a message is admitted and waits; its entry is dropped
   * after a day; it comes again and `handle` throws; the event behind it is
   * recorded, and no run ever completes that one.
   */
  lemma AnEventIsLost(streams: Streams, ids: R.Ids, c: Chat, m: MsgId, a: Key, b: Key) returns (y: System)
    requires Twice(streams, c, m, a, b) && a != b
    ensures Comes(streams, ids, y) && Skipped(y, c, 2) && Asks(streams, c, 2)
  {
    var up := StartsUp(streams, ids);
    var taken := TakesFirst(streams, ids, up, c, m, a, b);
    var waiting := SubmitsFirst(streams, ids, taken, m, a);
    var pruned := DropsFirst(streams, ids, waiting, c, m, a);
    y := LosesSecond(streams, ids, pruned, c, m, a, b);
  }
}
