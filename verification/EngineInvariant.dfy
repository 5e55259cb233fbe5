/**
 * What every step of the engine keeps: where each task stands agrees with the
 * keys in flight, the stored statuses, the marks, the reactions shown, the
 * queue, the workers, the controllers and the count of what is outstanding.
 *
 * A step is proved to keep this by what it does to the one task it moves: the
 * predicates that end in Follows say that its key, message, reaction, seat and
 * controller go along with it, and the lemmas that end in After that the rest
 * of the state then still agrees. The steps through the channel, which move a
 * task and a worker at once, are those of EngineRuns.
 */
module EngineInvariant {
  import opened Options
  import opened EngineModel
  import C = Channels
  import R = Reactions

  /** The status the store has for the message of a live process. */
  function StatusOf(p: Proc): Status {
    if p.task.Refusal? then Failed
    else if p.pc.Settling? || p.pc.Settled? then FinalStatus(p.pc.to)
    else if p.pc.Beginning? || p.pc.Working? || p.pc.InRunner? then Running
    else Pending
  }

  /** The mark of a live process: the state its last completed move reached. */
  function MarkOf(p: Proc): Option<R.Reaction> {
    if p.pc.Announcing? || p.pc.Refusing? then None
    else if p.pc.Refused? then Some(R.Failure)
    else if p.pc.Working? || p.pc.InRunner? || p.pc.Settling? then Some(R.InProgress)
    else if p.pc.Settled? then Some(p.pc.to)
    else Some(R.Pending)
  }

  /** Whether a process sits on a worker. */
  predicate Seated(pc: Pc) {
    pc.Held? || pc.Leaving? || Controlled(pc)
  }

  /** Between `controllers.add` and `controllers.delete`. */
  predicate Controlled(pc: Pc) {
    pc.Beginning? || pc.Working? || pc.InRunner? || pc.Settling? || pc.Settled? || pc.Caught?
  }

  /** Submitted and not yet finished. */
  predicate Owed(pc: Pc) {
    pc.InQueue? || pc.Bounced? || Seated(pc)
  }

  function CountOwed(procs: seq<Proc>): nat {
    if procs == [] then 0
    else CountOwed(procs[..|procs| - 1]) + if Owed(procs[|procs| - 1].pc) then 1 else 0
  }

  /** Which places each kind of process can be in. */
  predicate WellPlaced(p: Proc) {
    && (InMove(p.pc) ==> p.pc.ops != [])
    && (p.pc.Refusing? || p.pc.Refused? ==> p.task.Refusal?)
    && (p.task.Refusal? ==> p.pc.Refusing? || p.pc.Refused? || p.pc.Lost? || p.pc == Gone(false))
    && (p.task.Repo? ==> !InMove(p.pc) && !p.pc.Settled? && !p.pc.Caught? && !p.pc.Lost?)
    && (p.pc.Settling? || p.pc.Settled? ==> p.pc.to in R.Successors(Some(R.InProgress)))
  }

  /** A move of the process threw. */
  predicate Upset(p: Proc) {
    !p.task.Repo? && (p.pc.Lost? || p.pc.Caught? || (p.pc.Settling? && p.pc.last))
  }

  /** Moves throw for doubled messages alone. */
  ghost predicate Calm(s: State) {
    && s.thrown <= s.doubled
    && forall i :: 0 <= i < |s.procs| && Upset(s.procs[i]) ==> s.procs[i].task.msg in s.thrown
  }

  ghost predicate Shapes(s: State) {
    forall i :: 0 <= i < |s.procs| ==> WellPlaced(s.procs[i])
  }

  /** The keys in flight are those of the jobs not past their `finally`, and of handlers that threw; each key once. */
  ghost predicate Keys(s: State) {
    && (forall i :: 0 <= i < |s.procs| && HoldsKey(s.procs[i]) ==> s.procs[i].task.key in s.inFlight)
    && (forall i, j :: 0 <= i < j < |s.procs| && HoldsKey(s.procs[i]) && HoldsKey(s.procs[j]) ==>
          s.procs[i].task.key != s.procs[j].task.key)
    && (forall k :: k in s.inFlight ==> KeyHeld(s.procs, k))
    && |s.inFlight| <= MAX_QUEUED
  }

  ghost predicate KeyHeld(procs: seq<Proc>, k: Key) {
    exists i :: 0 <= i < |procs| && HoldsKey(procs[i]) && procs[i].task.key == k
  }

  /** The mark of a live process says where it stands, and so does the store while it has the entry. */
  ghost predicate Tracked(s: State, i: nat)
    requires i < |s.procs| && Live(s.procs[i])
  {
    var m := s.procs[i].task.msg;
    (m in s.handled ==> s.handled[m] == StatusOf(s.procs[i])) && s.Mark(m) == MarkOf(s.procs[i])
  }

  /** Of a message that was never doubled: one live process at most, tracked; no mark without one. */
  ghost predicate Messages(s: State) {
    && (forall i :: 0 <= i < |s.procs| && Live(s.procs[i]) && s.procs[i].task.msg !in s.doubled ==> Tracked(s, i))
    && (forall i, j :: 0 <= i < j < |s.procs| && Live(s.procs[i]) && Live(s.procs[j]) && s.procs[i].task.msg !in s.doubled ==>
          s.procs[i].task.msg != s.procs[j].task.msg)
    && (forall m :: m in s.marks && m !in s.doubled ==> LiveMessage(s, m))
  }

  /** Between moves a message shows its mark; inside one, the calls left lead to the new one. */
  ghost predicate ShowsRight(s: State, i: nat)
    requires i < |s.procs| && Live(s.procs[i])
  {
    var p := s.procs[i];
    if InMove(p.pc) then R.PerformAll(s.Shown(p.task.msg), p.pc.ops) == R.Shows(Some(Target(p.pc)), s.ids)
    else s.Shown(p.task.msg) == R.Shows(MarkOf(p), s.ids)
  }

  ghost predicate Reactions(s: State) {
    !s.flaky ==> forall i :: 0 <= i < |s.procs| && Live(s.procs[i]) && s.procs[i].task.msg in s.clean - s.doubled ==> ShowsRight(s, i)
  }

  /** The buffer holds the queued processes, each once. */
  ghost predicate Queue(s: State) {
    && s.chan.capacity == C.Bounded(MAX_QUEUED)
    && s.chan.closed == s.stopped
    && s.chan.senders == []
    && (forall b :: 0 <= b < |s.chan.buffer| ==>
          s.chan.buffer[b] < |s.procs| && s.procs[s.chan.buffer[b]].pc.InQueue?)
    && (forall b, c :: 0 <= b < c < |s.chan.buffer| ==> s.chan.buffer[b] != s.chan.buffer[c])
    && (forall i :: 0 <= i < |s.procs| && s.procs[i].pc.InQueue? ==> i in s.chan.buffer)
  }

  /** The parked workers are the receivers, who wait for nothing that is there; workers leave an empty channel only. */
  ghost predicate Parking(s: State) {
    && (forall r :: 0 <= r < |s.chan.receivers| ==>
          s.chan.receivers[r] < |s.workers| && s.workers[s.chan.receivers[r]].Parked?)
    && (forall r, q :: 0 <= r < q < |s.chan.receivers| ==> s.chan.receivers[r] != s.chan.receivers[q])
    && (forall w :: 0 <= w < |s.workers| && s.workers[w].Parked? ==> w in s.chan.receivers)
    && (s.chan.receivers != [] ==> s.chan.buffer == [] && !s.stopped)
    && (forall w :: 0 <= w < |s.workers| && s.workers[w].Exited? ==> s.stopped && s.chan.buffer == [])
  }

  /** A busy worker and the process on it point at each other. */
  ghost predicate Seats(s: State) {
    && (forall w :: 0 <= w < |s.workers| && s.workers[w].Busy? ==>
          s.workers[w].proc < |s.procs| && Seated(s.procs[s.workers[w].proc].pc) && s.procs[s.workers[w].proc].pc.worker == w)
    && (forall i :: 0 <= i < |s.procs| && Seated(s.procs[i].pc) ==>
          s.procs[i].pc.worker < |s.workers| && s.workers[s.procs[i].pc.worker] == Busy(i))
  }

  ghost predicate Workers(s: State) {
    Parking(s) && Seats(s)
  }

  ghost predicate Control(s: State) {
    && (forall i :: 0 <= i < |s.procs| ==> (i in s.controllers <==> Controlled(s.procs[i].pc)))
    && (forall i :: i in s.controllers ==> i < |s.procs|)
    && (s.stopped ==> s.controllers <= s.aborted)
    && (!s.stopped ==> s.aborted == {})
  }

  ghost predicate Inv(s: State) {
    && Calm(s)
    && Shapes(s)
    && Keys(s)
    && Messages(s)
    && Reactions(s)
    && Queue(s)
    && Workers(s)
    && Control(s)
    && s.outstanding == CountOwed(s.procs)
  }

  lemma {:induction false} CountAfterGoto(procs: seq<Proc>, i: nat, pc: Pc)
    requires i < |procs|
    ensures CountOwed(procs[i := procs[i].(pc := pc)])
            == CountOwed(procs) - (if Owed(procs[i].pc) then 1 else 0) + (if Owed(pc) then 1 else 0)
  {
    var n := |procs| - 1;
    var changed := procs[i := procs[i].(pc := pc)];
    if i == n {
      assert changed[..n] == procs[..n];
    } else {
      assert changed[..n] == procs[..n][i := procs[..n][i].(pc := pc)];
      CountAfterGoto(procs[..n], i, pc);
    }
  }

  lemma CountAfterSpawn(procs: seq<Proc>, p: Proc)
    ensures CountOwed(procs + [p]) == CountOwed(procs) + if Owed(p.pc) then 1 else 0
  {
    assert (procs + [p])[..|procs|] == procs;
  }

  // ----- Steps that move one process and touch neither the channel nor the workers -----

  /** Only the place of process i changed. */
  ghost predicate OnlyMoved(s: State, s': State, i: nat) {
    i < |s.procs| && |s'.procs| == |s.procs| && s'.procs == s.procs[i := s.procs[i].(pc := s'.procs[i].pc)]
  }

  ghost predicate KeyFollows(s: State, s': State, i: nat)
    requires OnlyMoved(s, s', i)
  {
    && (HoldsKey(s'.procs[i]) ==> HoldsKey(s.procs[i]))
    && s'.inFlight == if HoldsKey(s.procs[i]) && !HoldsKey(s'.procs[i])
                      then s.inFlight - {s.procs[i].task.key} else s.inFlight
  }

  lemma KeysAfter(s: State, s': State, i: nat)
    requires Keys(s) && OnlyMoved(s, s', i) && KeyFollows(s, s', i)
    ensures Keys(s')
  {
    forall k | k in s'.inFlight
      ensures exists j :: 0 <= j < |s'.procs| && HoldsKey(s'.procs[j]) && s'.procs[j].task.key == k
    {
      var j :| 0 <= j < |s.procs| && HoldsKey(s.procs[j]) && s.procs[j].task.key == k;
      assert HoldsKey(s'.procs[j]) && s'.procs[j].task.key == k;
    }
    if HoldsKey(s.procs[i]) && !HoldsKey(s'.procs[i]) {
      assert |s'.inFlight| <= |s.inFlight|;
    }
  }

  /** The message of process i follows it, unless it is doubled; no other message changes. */
  ghost predicate MessageFollows(s: State, s': State, i: nat)
    requires OnlyMoved(s, s', i)
  {
    && s'.doubled == s.doubled
    && if !Live(s.procs[i]) then !Live(s'.procs[i]) && s'.handled == s.handled && s'.marks == s.marks
       else
         var m := s.procs[i].task.msg;
         && (m !in s.doubled ==> if Live(s'.procs[i]) then Tracked(s', i) else m !in s'.marks)
         && (forall o :: o != m ==> s'.Mark(o) == s.Mark(o))
         && (forall o :: o != m ==> (o in s'.handled <==> o in s.handled))
         && (forall o :: o != m && o in s.handled ==> s'.handled[o] == s.handled[o])
  }

  lemma MessagesAfter(s: State, s': State, i: nat)
    requires Messages(s) && OnlyMoved(s, s', i) && MessageFollows(s, s', i)
    ensures Messages(s')
  {
    forall j | 0 <= j < |s'.procs| && Live(s'.procs[j]) && s'.procs[j].task.msg !in s'.doubled
      ensures Tracked(s', j)
    {
      assert Live(s.procs[j]) && Tracked(s, j);
    }
    forall m | m in s'.marks && m !in s'.doubled
      ensures LiveMessage(s', m)
    {
      if !(Live(s'.procs[i]) && s'.procs[i].task.msg == m) {
        assert s'.Mark(m) == s.Mark(m);
        var j :| 0 <= j < |s.procs| && Live(s.procs[j]) && s.procs[j].task.msg == m;
        assert Live(s'.procs[j]) && s'.procs[j].task.msg == m;
      }
    }
  }

  ghost predicate ReactionFollows(s: State, s': State, i: nat)
    requires OnlyMoved(s, s', i)
  {
    && s'.ids == s.ids && s'.clean == s.clean && (s.flaky ==> s'.flaky)
    && (Live(s'.procs[i]) ==> Live(s.procs[i]))
    && (forall o :: s.procs[i].task.Repo? || o != s.procs[i].task.msg || !Live(s.procs[i]) ==> s'.Shown(o) == s.Shown(o))
    && (Live(s'.procs[i]) && !s'.flaky && s.procs[i].task.msg !in s.doubled && ShowsRight(s, i) ==> ShowsRight(s', i))
  }

  lemma ReactionsAfter(s: State, s': State, i: nat)
    requires Reactions(s) && Messages(s) && OnlyMoved(s, s', i) && ReactionFollows(s, s', i) && s'.doubled == s.doubled
    ensures Reactions(s')
  {
    if !s'.flaky {
      forall j | 0 <= j < |s'.procs| && Live(s'.procs[j]) && s'.procs[j].task.msg in s'.clean - s'.doubled
        ensures ShowsRight(s', j)
      {
        assert Live(s.procs[j]) && ShowsRight(s, j);
      }
    }
  }

  ghost predicate SeatFollows(s: State, s': State, i: nat)
    requires OnlyMoved(s, s', i)
  {
    && s'.chan == s.chan && s'.stopped == s.stopped && s'.workers == s.workers
    && !s.procs[i].pc.InQueue? && !s'.procs[i].pc.InQueue?
    && (Seated(s'.procs[i].pc) <==> Seated(s.procs[i].pc))
    && (Seated(s.procs[i].pc) ==> s'.procs[i].pc.worker == s.procs[i].pc.worker)
  }

  lemma QueueAndWorkersAfter(s: State, s': State, i: nat)
    requires Queue(s) && Workers(s) && OnlyMoved(s, s', i) && SeatFollows(s, s', i)
    ensures Queue(s') && Workers(s')
  {
  }

  ghost predicate ControlFollows(s: State, s': State, i: nat)
    requires OnlyMoved(s, s', i)
  {
    && s'.aborted == s.aborted && s'.stopped == s.stopped
    && s'.controllers == (if Controlled(s'.procs[i].pc) then s.controllers + {i} else s.controllers - {i})
    && (s.stopped && Controlled(s'.procs[i].pc) ==> Controlled(s.procs[i].pc))
  }

  lemma ControlAfter(s: State, s': State, i: nat)
    requires Control(s) && OnlyMoved(s, s', i) && ControlFollows(s, s', i)
    ensures Control(s')
  {
  }

  /** If a move of process i threw, its message is doubled. */
  ghost predicate CalmFollows(s: State, s': State, i: nat)
    requires OnlyMoved(s, s', i)
  {
    && s'.doubled == s.doubled && s.thrown <= s'.thrown <= s'.doubled
    && (Upset(s'.procs[i]) ==> s.procs[i].task.msg in s'.thrown)
  }

  lemma CalmAfter(s: State, s': State, i: nat)
    requires Calm(s) && OnlyMoved(s, s', i) && CalmFollows(s, s', i)
    ensures Calm(s')
  {
  }

  /** A step of one process that carries its key, message, reaction and controller along. */
  ghost predicate Carries(s: State, s': State, i: nat) {
    && OnlyMoved(s, s', i)
    && WellPlaced(s'.procs[i])
    && CalmFollows(s, s', i)
    && KeyFollows(s, s', i)
    && MessageFollows(s, s', i)
    && ReactionFollows(s, s', i)
    && ControlFollows(s, s', i)
    && s'.outstanding - s.outstanding == (if Owed(s'.procs[i].pc) then 1 else 0) - (if Owed(s.procs[i].pc) then 1 else 0)
  }

  /** ... and its seat. */
  ghost predicate LocalStep(s: State, s': State, i: nat) {
    Carries(s, s', i) && SeatFollows(s, s', i)
  }

  lemma CarryingKeeps(s: State, s': State, i: nat)
    requires Inv(s) && Carries(s, s', i) && Queue(s') && Workers(s')
    ensures Inv(s')
  {
    CalmAfter(s, s', i);
    KeysAfter(s, s', i);
    MessagesAfter(s, s', i);
    ReactionsAfter(s, s', i);
    ControlAfter(s, s', i);
    CountAfterGoto(s.procs, i, s'.procs[i].pc);
  }

  lemma LocalStepKeeps(s: State, s': State, i: nat)
    requires Inv(s) && LocalStep(s, s', i)
    ensures Inv(s')
  {
    QueueAndWorkersAfter(s, s', i);
    CarryingKeeps(s, s', i);
  }

  /** What a step of process i may rely on. */
  ghost predicate Local(s: State, i: nat) {
    && s.thrown <= s.doubled
    && i < |s.procs| && WellPlaced(s.procs[i])
    && (Upset(s.procs[i]) ==> s.procs[i].task.msg in s.thrown)
    && (Live(s.procs[i]) && s.procs[i].task.msg !in s.doubled ==> Tracked(s, i))
    && (i in s.controllers <==> Controlled(s.procs[i].pc))
    && (s.stopped ==> s.controllers <= s.aborted)
  }

  lemma InvIsLocal(s: State, i: nat)
    requires Inv(s) && i < |s.procs|
    ensures Local(s, i)
  {
  }

  lemma BeginRunIsLocal(s: State, i: nat)
    requires Local(s, i) && Enabled(s, BeginRun(i))
    ensures LocalStep(s, Next(s, BeginRun(i)), i)
  {
  }

  lemma EndRunIsLocal(s: State, i: nat)
    requires Local(s, i) && Enabled(s, EndRun(i))
    ensures LocalStep(s, Next(s, EndRun(i)), i)
  {
  }

  lemma FinallyReviewFollows(s: State, s': State, i: nat)
    requires Local(s, i) && s.procs[i].task.Review? && s.procs[i].pc.Settled?
    requires var p := s.procs[i];
      s' == s.(procs := s.procs[i := p.(pc := Leaving(p.pc.worker, false))], marks := s.marks - {p.task.msg},
               inFlight := s.inFlight - {p.task.key}, controllers := s.controllers - {i})
    ensures LocalStep(s, s', i)
  {
  }

  lemma FinallyRepoFollows(s: State, s': State, i: nat)
    requires Local(s, i) && s.procs[i].task.Repo? && s.procs[i].pc.Working?
    requires var p := s.procs[i];
      s' == s.(procs := s.procs[i := p.(pc := Leaving(p.pc.worker, false))],
               inFlight := s.inFlight - {p.task.key}, controllers := s.controllers - {i})
    ensures LocalStep(s, s', i)
  {
  }

  lemma FinallyIsLocal(s: State, i: nat)
    requires Local(s, i) && Enabled(s, Finally(i))
    ensures LocalStep(s, FinallyNext(s, i), i)
  {
    if s.procs[i].task.Review? {
      FinallyReviewFollows(s, FinallyNext(s, i), i);
    } else {
      FinallyRepoFollows(s, FinallyNext(s, i), i);
    }
  }

  /** A move begins, or throws: which, the mark decides. */
  lemma MoveBegins(s: State, i: nat, m: MsgId, move: Pc)
    requires i < |s.procs| && InMove(move)
    ensures var t := R.Transition(s.Mark(m), Target(move), s.ids);
      StartMove(s, i, m, move) ==
        if t.Ok? then s.(procs := s.procs[i := s.procs[i].(pc := move.(ops := t.value))])
        else s.(procs := s.procs[i := s.procs[i].(pc := OnThrow(move))], thrown := s.thrown + {m})
    ensures R.Transition(s.Mark(m), Target(move), s.ids).Ok? <==> R.Allowed(s.Mark(m), Target(move))
  {
  }

  /** A job saves a status of its message and begins a move. */
  lemma BegunFollows(s: State, s': State, i: nat, status: Status, move: Pc)
    requires Local(s, i) && s.procs[i].task.Review? && Live(s.procs[i]) && InMove(move) && move.ops != []
    requires Seated(s.procs[i].pc) && !InMove(s.procs[i].pc) && Controlled(move) && move.worker == s.procs[i].pc.worker
    requires s.stopped ==> Controlled(s.procs[i].pc)
    requires var p := s.procs[i].(pc := move); var m := p.task.msg;
      && WellPlaced(p) && Live(p) && StatusOf(p) == status && (Upset(p) ==> m in s.thrown)
      && s' == s.(procs := s.procs[i := p], handled := s.handled[m := status], controllers := s.controllers + {i})
      && (m !in s.doubled ==> MarkOf(p) == MarkOf(s.procs[i]))
      && (m !in s.doubled ==> R.PerformAll(R.Shows(MarkOf(p), s.ids), move.ops) == R.Shows(Some(Target(move)), s.ids))
    ensures LocalStep(s, s', i)
  {
  }

  /** The move of a doubled message threw. */
  lemma ThrownFollows(s: State, s': State, i: nat, status: Status, pc: Pc)
    requires Local(s, i) && s.procs[i].task.Review? && Live(s.procs[i]) && s.procs[i].task.msg in s.doubled
    requires Seated(s.procs[i].pc) && Controlled(pc) && pc.worker == s.procs[i].pc.worker && !InMove(pc)
    requires s.stopped ==> Controlled(s.procs[i].pc)
    requires var p := s.procs[i].(pc := pc); var m := p.task.msg;
      && WellPlaced(p) && Live(p)
      && s' == s.(procs := s.procs[i := p], handled := s.handled[m := status], controllers := s.controllers + {i},
                  thrown := s.thrown + {m})
    ensures LocalStep(s, s', i)
  {
  }

  /** The state after a verdict or failure is saved and its move begins, or throws. */
  lemma ConcludeIs(s: State, i: nat, to: R.Reaction)
    requires Enabled(s, Conclude(i, to))
    ensures var p := s.procs[i]; var m := p.task.msg; var t := R.Transition(s.Mark(m), to, s.ids);
      ConcludeNext(s, i, to) ==
        if t.Ok? then s.(handled := s.handled[m := FinalStatus(to)],
                         procs := s.procs[i := p.(pc := Settling(p.pc.worker, t.value, to, p.pc.Caught?))])
        else s.(handled := s.handled[m := FinalStatus(to)], thrown := s.thrown + {m},
                procs := s.procs[i := p.(pc := if p.pc.Caught? then Settled(p.pc.worker, to) else Caught(p.pc.worker))])
  {
    var p := s.procs[i];
    MoveBegins(s.(handled := s.handled[p.task.msg := FinalStatus(to)]), i, p.task.msg, Settling(p.pc.worker, [], to, p.pc.Caught?));
  }

  lemma ConcludeIsLocal(s: State, i: nat, to: R.Reaction)
    requires Local(s, i) && Enabled(s, Conclude(i, to))
    ensures LocalStep(s, ConcludeNext(s, i, to), i)
  {
    var p := s.procs[i];
    var m := p.task.msg;
    ConcludeIs(s, i, to);
    assert s.controllers + {i} == s.controllers;
    if R.Allowed(s.Mark(m), to) {
      R.TransitionShows(s.Mark(m), to, s.ids);
      var ops := R.Transition(s.Mark(m), to, s.ids).value;
      BegunFollows(s, ConcludeNext(s, i, to), i, FinalStatus(to), Settling(p.pc.worker, ops, to, p.pc.Caught?));
    } else {
      ThrownFollows(s, ConcludeNext(s, i, to), i, FinalStatus(to), OnThrow(Settling(p.pc.worker, [], to, p.pc.Caught?)));
    }
  }

  lemma StartAfterStopIsLocal(s: State, i: nat)
    requires Local(s, i) && Enabled(s, Start(i)) && s.stopped
    ensures LocalStep(s, Next(s, Start(i)), i)
  {
  }

  lemma StartRepoIsLocal(s: State, i: nat)
    requires Local(s, i) && Enabled(s, Start(i)) && !s.stopped && s.procs[i].task.Repo?
    ensures LocalStep(s, Next(s, Start(i)), i)
  {
  }

  lemma StartReviewIsLocal(s: State, i: nat)
    requires Local(s, i) && Enabled(s, Start(i)) && !s.stopped && s.procs[i].task.Review?
    ensures LocalStep(s, StartNext(s, i), i)
  {
    var p := s.procs[i];
    var m := p.task.msg;
    var move := Beginning(p.pc.worker, []);
    MoveBegins(s.(controllers := s.controllers + {i}, handled := s.handled[m := Running]), i, m, move);
    if R.Allowed(s.Mark(m), R.InProgress) {
      R.TransitionShows(s.Mark(m), R.InProgress, s.ids);
      var ops := R.Transition(s.Mark(m), R.InProgress, s.ids).value;
      BegunFollows(s, StartNext(s, i), i, Running, Beginning(p.pc.worker, ops));
    } else {
      ThrownFollows(s, StartNext(s, i), i, Running, Caught(p.pc.worker));
    }
  }

  /** A settled chat call is the first of the calls left. */
  lemma OneCallDone(shown: set<string>, ops: seq<R.Op>)
    requires ops != []
    ensures R.PerformAll(shown, ops) == R.PerformAll(R.Perform(shown, ops[0]), ops[1..])
    ensures |ops| == 1 ==> R.PerformAll(shown, ops) == R.Perform(shown, ops[0])
  {
  }

  /** A move goes on: process i has one chat call less to wait for. */
  lemma MidwayShows(s: State, s': State, i: nat)
    requires Local(s, i) && CanReact(s, i) && |s.procs[i].pc.ops| > 1
    requires var m := s.procs[i].task.msg; var pc := s.procs[i].pc;
      && s' == s.(procs := s.procs[i := s.procs[i].(pc := pc.(ops := pc.ops[1..]))], shown := s'.shown, flaky := s'.flaky)
      && (s.flaky ==> s'.flaky)
      && (forall o :: o != m ==> s'.Shown(o) == s.Shown(o))
      && (!s'.flaky ==> s'.Shown(m) == R.Perform(s.Shown(m), pc.ops[0]))
    ensures OnlyMoved(s, s', i) && MessageFollows(s, s', i) && ReactionFollows(s, s', i)
  {
    OneCallDone(s.Shown(s.procs[i].task.msg), s.procs[i].pc.ops);
  }

  lemma MidwayFollows(s: State, s': State, i: nat)
    requires Local(s, i) && CanReact(s, i) && |s.procs[i].pc.ops| > 1
    requires var m := s.procs[i].task.msg; var pc := s.procs[i].pc;
      && s' == s.(procs := s.procs[i := s.procs[i].(pc := pc.(ops := pc.ops[1..]))], shown := s'.shown, flaky := s'.flaky)
      && (s.flaky ==> s'.flaky)
      && (forall o :: o != m ==> s'.Shown(o) == s.Shown(o))
      && (!s'.flaky ==> s'.Shown(m) == R.Perform(s.Shown(m), pc.ops[0]))
    ensures LocalStep(s, s', i)
  {
    MidwayShows(s, s', i);
  }

  lemma ReactMidwayIsLocal(s: State, i: nat, ok: bool)
    requires Local(s, i) && Enabled(s, React(i, ok)) && |s.procs[i].pc.ops| > 1
    ensures LocalStep(s, Next(s, React(i, ok)), i)
  {
    MidwayFollows(s, ReactNext(s, i, ok), i);
  }

  /** A move is over: the mark is set and process i goes on. */
  lemma LastShows(s: State, s': State, i: nat)
    requires Local(s, i) && CanReact(s, i) && |s.procs[i].pc.ops| == 1
    requires var m := s.procs[i].task.msg; var pc := s.procs[i].pc;
      && s' == s.(procs := s.procs[i := s.procs[i].(pc := After(pc))], marks := s.marks[m := Target(pc)],
                  shown := s'.shown, flaky := s'.flaky)
      && (s.flaky ==> s'.flaky)
      && (forall o :: o != m ==> s'.Shown(o) == s.Shown(o))
      && (!s'.flaky ==> s'.Shown(m) == R.Perform(s.Shown(m), pc.ops[0]))
    ensures OnlyMoved(s, s', i) && MessageFollows(s, s', i) && ReactionFollows(s, s', i)
  {
    OneCallDone(s.Shown(s.procs[i].task.msg), s.procs[i].pc.ops);
  }

  lemma LastFollows(s: State, s': State, i: nat)
    requires Local(s, i) && CanReact(s, i) && |s.procs[i].pc.ops| == 1
    requires var m := s.procs[i].task.msg; var pc := s.procs[i].pc;
      && s' == s.(procs := s.procs[i := s.procs[i].(pc := After(pc))], marks := s.marks[m := Target(pc)],
                  shown := s'.shown, flaky := s'.flaky)
      && (s.flaky ==> s'.flaky)
      && (forall o :: o != m ==> s'.Shown(o) == s.Shown(o))
      && (!s'.flaky ==> s'.Shown(m) == R.Perform(s.Shown(m), pc.ops[0]))
    ensures LocalStep(s, s', i)
  {
    LastShows(s, s', i);
  }

  lemma ReactLastIsLocal(s: State, i: nat, ok: bool)
    requires Local(s, i) && Enabled(s, React(i, ok)) && |s.procs[i].pc.ops| == 1
    ensures LocalStep(s, Next(s, React(i, ok)), i)
  {
    LastFollows(s, ReactNext(s, i, ok), i);
  }

  lemma DropMarkIsLocal(s: State, i: nat)
    requires Local(s, i) && Enabled(s, Resume(i)) && s.procs[i].pc.Refused?
    ensures LocalStep(s, Next(s, Resume(i)), i)
  {
  }

  // ----- Steps that start a process -----

  /** A new process that takes a key takes a free one, while there is room. */
  ghost predicate SpawnsKey(s: State, s': State, p: Proc) {
    && s'.procs == s.procs + [p]
    && HoldsKey(p) == !p.task.Refusal?
    && (if p.task.Refusal? then s'.inFlight == s.inFlight
        else p.task.key !in s.inFlight && |s.inFlight| < MAX_QUEUED && s'.inFlight == s.inFlight + {p.task.key})
  }

  /** A new process speaks for its message alone, whose entry it made, before any move of it. */
  ghost predicate FirstFor(s: State, s': State, p: Proc)
    requires !p.task.Repo?
  {
    var m := p.task.msg;
    && !LiveMessage(s, m) && Live(p) && InMove(p.pc) && MarkOf(p) == None
    && (m in s'.clean ==> s.Shown(m) == {})
    && R.PerformAll({}, p.pc.ops) == R.Shows(Some(Target(p.pc)), s.ids)
  }

  /** Process p is new: its key was free, the store did not have its message, and it stands nowhere near the queue. */
  ghost predicate SpawnStep(s: State, s': State, p: Proc) {
    && s'.procs == s.procs + [p]
    && WellPlaced(p) && !Owed(p.pc) && !p.pc.Gone?
    && s'.ids == s.ids && s'.stopped == s.stopped && s'.marks == s.marks && s'.chan == s.chan && s'.workers == s.workers
    && s'.controllers == s.controllers && s'.aborted == s.aborted && s'.outstanding == s.outstanding
    && s'.shown == s.shown && s'.flaky == s.flaky
    && s.doubled <= s'.doubled && s.thrown <= s'.thrown <= s'.doubled
    && (Upset(p) ==> p.task.msg in s'.thrown)
    && (if p.task.Refusal? then s'.inFlight == s.inFlight
        else p.task.key !in s.inFlight && |s.inFlight| < MAX_QUEUED && s'.inFlight == s.inFlight + {p.task.key})
    && (if p.task.Repo? then s'.handled == s.handled && s'.clean == s.clean
        else
          var m := p.task.msg;
          && m !in s.handled && s'.handled == s.handled[m := StatusOf(p)]
          && (forall o :: o != m ==> (o in s'.clean <==> o in s.clean))
          && (m !in s'.doubled ==> FirstFor(s, s', p)))
  }

  lemma HeldStays(procs: seq<Proc>, p: Proc, k: Key)
    requires KeyHeld(procs, k)
    ensures KeyHeld(procs + [p], k)
  {
    var j :| 0 <= j < |procs| && HoldsKey(procs[j]) && procs[j].task.key == k;
    assert (procs + [p])[j] == procs[j];
  }

  lemma HeldByNew(procs: seq<Proc>, p: Proc)
    requires HoldsKey(p)
    ensures KeyHeld(procs + [p], p.task.key)
  {
    assert (procs + [p])[|procs|] == p;
  }

  lemma DistinctAfterSpawn(s: State, s': State, p: Proc)
    requires Keys(s) && SpawnsKey(s, s', p)
    ensures forall i, j :: 0 <= i < j < |s'.procs| && HoldsKey(s'.procs[i]) && HoldsKey(s'.procs[j]) ==>
      s'.procs[i].task.key != s'.procs[j].task.key
  {
    forall i, j | 0 <= i < j < |s'.procs| && HoldsKey(s'.procs[i]) && HoldsKey(s'.procs[j])
      ensures s'.procs[i].task.key != s'.procs[j].task.key
    {
      assert s'.procs[i] == s.procs[i];
    }
  }

  lemma KeysAfterSpawn(s: State, s': State, p: Proc)
    requires Keys(s) && SpawnsKey(s, s', p)
    ensures Keys(s')
  {
    DistinctAfterSpawn(s, s', p);
    forall k | k in s'.inFlight ensures KeyHeld(s'.procs, k) {
      if k in s.inFlight {
        HeldStays(s.procs, p, k);
      } else {
        HeldByNew(s.procs, p);
      }
    }
  }

  lemma LiveStays(s: State, s': State, p: Proc, m: MsgId)
    requires s'.procs == s.procs + [p] && LiveMessage(s, m)
    ensures LiveMessage(s', m)
  {
    var j :| 0 <= j < |s.procs| && Live(s.procs[j]) && s.procs[j].task.msg == m;
    assert Live(s'.procs[j]) && s'.procs[j].task.msg == m;
  }

  lemma MessagesAfterSpawn(s: State, s': State, p: Proc)
    requires Messages(s) && SpawnStep(s, s', p)
    ensures Messages(s')
  {
    var n := |s.procs|;
    forall j | 0 <= j < |s'.procs| && Live(s'.procs[j]) && s'.procs[j].task.msg !in s'.doubled
      ensures Tracked(s', j)
      ensures j < n ==> Live(s.procs[j]) && (Live(p) ==> p.task.msg != s.procs[j].task.msg)
    {
      if j < n {
        assert Live(s.procs[j]) && Tracked(s, j) && s.procs[j] == s'.procs[j];
      }
    }
    forall m | m in s'.marks && m !in s'.doubled
      ensures LiveMessage(s', m)
    {
      LiveStays(s, s', p, m);
    }
  }

  lemma ReactionsAfterSpawn(s: State, s': State, p: Proc)
    requires Reactions(s) && Messages(s) && SpawnStep(s, s', p)
    ensures Reactions(s')
  {
    if !s'.flaky {
      forall j | 0 <= j < |s'.procs| && Live(s'.procs[j]) && s'.procs[j].task.msg in s'.clean - s'.doubled
        ensures ShowsRight(s', j)
      {
        if j < |s.procs| {
          assert Live(s.procs[j]) && s.procs[j] == s'.procs[j] && LiveMessage(s, s.procs[j].task.msg);
          assert ShowsRight(s, j);
        }
      }
    }
  }

  lemma CalmAfterSpawn(s: State, s': State, p: Proc)
    requires Calm(s) && SpawnStep(s, s', p)
    ensures Calm(s')
  {
  }

  lemma SeatsAfterSpawn(s: State, s': State, p: Proc)
    requires Shapes(s) && Queue(s) && Workers(s) && Control(s) && SpawnStep(s, s', p)
    ensures Shapes(s') && Queue(s') && Workers(s') && Control(s')
  {
  }

  lemma SpawnStepKeeps(s: State, s': State, p: Proc)
    requires Inv(s) && SpawnStep(s, s', p)
    ensures Inv(s')
  {
    CalmAfterSpawn(s, s', p);
    KeysAfterSpawn(s, s', p);
    MessagesAfterSpawn(s, s', p);
    ReactionsAfterSpawn(s, s', p);
    SeatsAfterSpawn(s, s', p);
    CountAfterSpawn(s.procs, p);
  }

  /** A message that is not doubled has no mark when it is taken up. */
  lemma UndoubledIsUnmarked(s: State, m: MsgId, status: Status)
    requires Messages(s) && m !in s.handled && m !in TakeUp(s, m, status).doubled
    ensures !LiveMessage(s, m) && s.Mark(m) == None
  {
  }

  /** The process that takes up a message, begun or thrown. */
  function NewProc(s: State, task: Task, move: Pc): Proc
    requires !task.Repo? && InMove(move)
  {
    var t := R.Transition(s.Mark(task.msg), Target(move), s.ids);
    Proc(task, if t.Ok? then move.(ops := t.value) else OnThrow(move))
  }

  lemma FirstIsFirst(s: State, s': State, task: Task, move: Pc)
    requires Messages(s) && ((task.Refusal? && move == Refusing([])) || (task.Review? && move == Announcing([])))
    requires task.msg !in s.handled && task.msg !in TakeUp(s, task.msg, Done).doubled
    requires task.msg in s'.clean ==> s.Shown(task.msg) == {}
    ensures FirstFor(s, s', NewProc(s, task, move))
  {
    UndoubledIsUnmarked(s, task.msg, Done);
    R.TransitionShows(None, Target(move), s.ids);
  }

  /** What taking up a message makes of the state. */
  ghost predicate TakenUp(s: State, s': State, task: Task, p: Proc)
    requires !task.Repo?
  {
    s' == s.(handled := s.handled[task.msg := StatusOf(p)],
             doubled := if DroppedLive(s, task.msg) then s.doubled + {task.msg} else s.doubled,
             procs := s.procs + [p],
             clean := if s.Shown(task.msg) == {} then s.clean + {task.msg} else s.clean - {task.msg},
             inFlight := if task.Review? then s.inFlight + {task.key} else s.inFlight,
             thrown := if Upset(p) then s.thrown + {task.msg} else s.thrown)
  }

  lemma NewProcShape(s: State, task: Task, move: Pc)
    requires (task.Refusal? && move == Refusing([])) || (task.Review? && move == Announcing([]))
    ensures var p := NewProc(s, task, move);
      p.task == task && WellPlaced(p) && !Owed(p.pc) && !p.pc.Gone? && (HoldsKey(p) <==> task.Review?)
  {
  }

  lemma TakenUpIsSpawn(s: State, s': State, task: Task, p: Proc)
    requires !task.Repo? && p.task == task && WellPlaced(p) && !Owed(p.pc) && !p.pc.Gone?
    requires s.thrown <= s.doubled && (Upset(p) ==> task.msg in s'.doubled)
    requires task.msg !in s.handled && TakenUp(s, s', task, p)
    requires task.Review? ==> task.key !in s.inFlight && |s.inFlight| < MAX_QUEUED
    requires task.msg !in s'.doubled ==> FirstFor(s, s', p)
    ensures SpawnStep(s, s', p)
  {
  }

  lemma TakingUpIsSpawn(s: State, s': State, task: Task, move: Pc)
    requires Messages(s) && s.thrown <= s.doubled
    requires (task.Refusal? && move == Refusing([])) || (task.Review? && move == Announcing([]))
    requires task.msg !in s.handled
    requires task.Review? ==> task.key !in s.inFlight && |s.inFlight| < MAX_QUEUED
    requires TakenUp(s, s', task, NewProc(s, task, move))
    ensures SpawnStep(s, s', NewProc(s, task, move))
  {
    NewProcShape(s, task, move);
    if task.msg !in s'.doubled {
      FirstIsFirst(s, s', task, move);
    }
    TakenUpIsSpawn(s, s', task, NewProc(s, task, move));
  }

  lemma RefusingIs(s: State, m: MsgId)
    ensures TakenUp(s, RefuseMessage(s, m), Refusal(m), NewProc(s, Refusal(m), Refusing([])))
  {
    var met := Spawn(Meet(TakeUp(s, m, Failed), m), Refusal(m));
    MoveBegins(met, |s.procs|, m, Refusing([]));
  }

  lemma RefusingIsSpawn(s: State, m: MsgId)
    requires Messages(s) && Calm(s) && m !in s.handled
    ensures SpawnStep(s, RefuseMessage(s, m), NewProc(s, Refusal(m), Refusing([])))
  {
    RefusingIs(s, m);
    TakingUpIsSpawn(s, RefuseMessage(s, m), Refusal(m), Refusing([]));
  }

  lemma AdmittingIs(s: State, m: MsgId, key: Key)
    requires m !in s.handled && !s.stopped && key !in s.inFlight && |s.inFlight| < MAX_QUEUED
    ensures TakenUp(s, HandleJobNext(s, m, key), Review(m, key), NewProc(s, Review(m, key), Announcing([])))
  {
    var met := Spawn(Meet(TakeUp(s, m, Pending).(inFlight := s.inFlight + {key}), m), Review(m, key));
    MoveBegins(met, |s.procs|, m, Announcing([]));
  }

  lemma AdmittingIsSpawn(s: State, m: MsgId, key: Key)
    requires Messages(s) && Calm(s) && m !in s.handled && !s.stopped
    requires key !in s.inFlight && |s.inFlight| < MAX_QUEUED
    ensures SpawnStep(s, HandleJobNext(s, m, key), NewProc(s, Review(m, key), Announcing([])))
  {
    AdmittingIs(s, m, key);
    TakingUpIsSpawn(s, HandleJobNext(s, m, key), Review(m, key), Announcing([]));
  }

  /** Only the store changed: no entry of a live process but as it says, unless its message is doubled by now. */
  ghost predicate StoreStep(s: State, s': State) {
    && s' == s.(handled := s'.handled, doubled := s'.doubled) && s.doubled <= s'.doubled
    && forall i :: 0 <= i < |s.procs| && Live(s.procs[i]) && s.procs[i].task.msg !in s'.doubled ==> Tracked(s', i)
  }

  lemma MessagesAfterStore(s: State, s': State)
    requires Messages(s) && StoreStep(s, s')
    ensures Messages(s')
  {
    forall m | m in s'.marks && m !in s'.doubled
      ensures LiveMessage(s', m)
    {
      assert LiveMessage(s, m);
    }
  }

  lemma SeatsAfterStore(s: State, s': State)
    requires Calm(s) && Shapes(s) && Queue(s) && Workers(s) && Control(s) && StoreStep(s, s')
    ensures Calm(s') && Shapes(s') && Queue(s') && Workers(s') && Control(s')
  {
  }

  lemma KeysAfterStore(s: State, s': State)
    requires Keys(s) && StoreStep(s, s')
    ensures Keys(s')
  {
    forall k | k in s'.inFlight
      ensures exists j :: 0 <= j < |s'.procs| && HoldsKey(s'.procs[j]) && s'.procs[j].task.key == k
    {
      var j :| 0 <= j < |s.procs| && HoldsKey(s.procs[j]) && s.procs[j].task.key == k;
      assert HoldsKey(s'.procs[j]);
    }
  }

  lemma ReactionsAfterStore(s: State, s': State)
    requires Reactions(s) && StoreStep(s, s')
    ensures Reactions(s')
  {
    if !s'.flaky {
      forall j | 0 <= j < |s'.procs| && Live(s'.procs[j]) && s'.procs[j].task.msg in s'.clean - s'.doubled
        ensures ShowsRight(s', j)
      {
        assert ShowsRight(s, j);
      }
    }
  }

  lemma StoreStepKeeps(s: State, s': State)
    requires Inv(s) && StoreStep(s, s')
    ensures Inv(s')
  {
    MessagesAfterStore(s, s');
    SeatsAfterStore(s, s');
    KeysAfterStore(s, s');
    ReactionsAfterStore(s, s');
  }

  /** Taking up an unknown message without starting anything. */
  lemma TakingUpIsStore(s: State, m: MsgId, status: Status)
    requires Messages(s) && m !in s.handled
    ensures StoreStep(s, TakeUp(s, m, status))
  {
    var s' := TakeUp(s, m, status);
    forall i | 0 <= i < |s.procs| && Live(s.procs[i]) && s.procs[i].task.msg !in s'.doubled
      ensures Tracked(s', i)
    {
      assert Tracked(s, i) && LiveMessage(s, s.procs[i].task.msg);
    }
  }

  lemma PruningIsStore(s: State, expired: set<MsgId>)
    requires Messages(s)
    ensures StoreStep(s, Next(s, Prune(expired)))
  {
    forall i | 0 <= i < |s.procs| && Live(s.procs[i]) && s.procs[i].task.msg !in s.doubled
      ensures Tracked(s.(handled := s.handled - expired), i)
    {
      assert Tracked(s, i);
    }
  }

  lemma HandleKeeps(s: State, step: Step)
    requires Inv(s) && (step.HandleJob? || step.HandleError? || step.HandleReply?)
    ensures Inv(Next(s, step))
  {
    if !s.stopped && step.msg !in s.handled {
      var m := step.msg;
      if step.HandleReply? || (step.HandleJob? && step.key in s.inFlight) {
        TakingUpIsStore(s, m, Done);
        StoreStepKeeps(s, TakeUp(s, m, Done));
      } else if step.HandleError? || |s.inFlight| >= MAX_QUEUED {
        RefusingIsSpawn(s, m);
        SpawnStepKeeps(s, RefuseMessage(s, m), NewProc(s, Refusal(m), Refusing([])));
      } else {
        AdmittingIsSpawn(s, m, step.key);
        SpawnStepKeeps(s, HandleJobNext(s, m, step.key), NewProc(s, Review(m, step.key), Announcing([])));
      }
    }
  }

  // ----- Steps through the channel -----

  function KeysOf(procs: seq<Proc>, tasks: seq<nat>): set<Key>
    requires forall b :: 0 <= b < |tasks| ==> tasks[b] < |procs| && !procs[tasks[b]].task.Refusal?
  {
    set b | 0 <= b < |tasks| :: procs[tasks[b]].task.key
  }

  /** Tasks with different keys have as many keys as there are tasks. */
  lemma {:induction false} KeysOfCount(procs: seq<Proc>, tasks: seq<nat>)
    requires forall b :: 0 <= b < |tasks| ==> tasks[b] < |procs| && !procs[tasks[b]].task.Refusal?
    requires forall b, c :: 0 <= b < c < |tasks| ==> procs[tasks[b]].task.key != procs[tasks[c]].task.key
    ensures |KeysOf(procs, tasks)| == |tasks|
  {
    if tasks != [] {
      var n := |tasks| - 1;
      KeysOfCount(procs, tasks[..n]);
      var last := procs[tasks[n]].task.key;
      assert last !in KeysOf(procs, tasks[..n]);
      assert KeysOf(procs, tasks) == KeysOf(procs, tasks[..n]) + {last};
    }
  }

  /** A task that is about to be sent finds room: the queued ones leave its place free. */
  lemma RoomToSend(s: State, i: nat)
    requires Keys(s) && Queue(s) && Shapes(s)
    requires i < |s.procs| && HoldsKey(s.procs[i]) && !s.procs[i].pc.InQueue?
    ensures |s.chan.buffer| < |s.inFlight|
  {
    var tasks := s.chan.buffer + [i];
    forall b, c | 0 <= b < c < |tasks|
      ensures s.procs[tasks[b]].task.key != s.procs[tasks[c]].task.key
    {
      assert HoldsKey(s.procs[tasks[b]]) && HoldsKey(s.procs[tasks[c]]) && tasks[b] != tasks[c];
    }
    KeysOfCount(s.procs, tasks);
    assert KeysOf(s.procs, tasks) <= s.inFlight;
    CardinalityOfSubset(KeysOf(s.procs, tasks), s.inFlight);
  }

  lemma {:induction false} CardinalityOfSubset<T>(a: set<T>, b: set<T>)
    requires a <= b
    ensures |a| <= |b|
  {
    if a != {} {
      var x :| x in a;
      CardinalityOfSubset(a - {x}, b - {x});
    }
  }
}
