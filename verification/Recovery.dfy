/** `recover` of pkg/channel-review/src/engine.ts: what the daemon repairs before it takes events. */
module Recovery {
  import opened Options
  import opened EngineModel
  import R = Reactions
  import Daemon

  const HANDLED_TTL_MS: int := 24 * 3_600_000
  const DEPS_RUNNING := "running"

  datatype Entry = Entry(status: Status, at: int, chatId: Option<string>)

  datatype IssueStatus = Seen | Notified | Deferred | Fixing | PrOpen | Broken

  datatype Issue = Issue(status: IssueStatus, firstSeen: int, prUrl: Option<string>, at: int)

  datatype DepsRun = DepsRun(windowStart: int, at: int, result: string)

  /** A process the runner had spawned, as the store remembers it. */
  datatype Running = Running(messageId: MsgId, pid: Option<nat>, pidStart: Option<string>, startedAt: int)

  /** The parts of the stored state that recovery reads or writes. */
  datatype Doc = Doc(
    handled: map<MsgId, Entry>,
    issues: map<string, Issue>,
    lastRun: map<string, DepsRun>,
    running: map<MsgId, Running>,
    current: Option<Running>)

  datatype Transition = Transition(msg: MsgId, chat: string, from: R.Reaction, to: R.Reaction)

  predicate Expired(entry: Entry, now: int) {
    now - entry.at > HANDLED_TTL_MS
  }

  function Kept(handled: map<MsgId, Entry>, now: int): map<MsgId, Entry> {
    map m | m in handled && !Expired(handled[m], now) :: handled[m]
  }

  function ChatOf(entry: Entry, defaultChat: string): string {
    match entry.chatId
    case None => defaultChat
    case Some(chat) => chat
  }

  /** What the repaired state is to be, entry by entry. */
  function RepairedEntry(entry: Entry, now: int, defaultChat: string): Entry {
    if Terminal(entry.status) then entry else Entry(Failed, now, Some(ChatOf(entry, defaultChat)))
  }

  function RepairedIssue(issue: Issue, now: int): Issue {
    if issue.status.Fixing? then Issue(Broken, issue.firstSeen, None, now) else issue
  }

  function RepairedRun(run: DepsRun, now: int): DepsRun {
    if run.result == DEPS_RUNNING then DepsRun(run.windowStart, now, "failed") else run
  }

  function Recovered(doc: Doc, now: int, defaultChat: string): Doc {
    var kept := Kept(doc.handled, now);
    Doc(map m | m in kept :: RepairedEntry(kept[m], now, defaultChat),
        map k | k in doc.issues :: RepairedIssue(doc.issues[k], now),
        map k | k in doc.lastRun :: RepairedRun(doc.lastRun[k], now),
        map[],
        None)
  }

  /** The running jobs, and the current one if it is not among them. */
  function Orphans(doc: Doc): set<Running> {
    if doc.current.Some? && doc.current.value.messageId !in doc.running
    then doc.running.Values + {doc.current.value} else doc.running.Values
  }

  /** `seam` stands for the checks on the live process: alive, same start time, one of our runners. */
  predicate Killable(job: Running, now: int, longestTimeoutMs: int, seam: Running -> bool) {
    job.pid.Some? && job.pidStart.Some? && seam(job) && now - job.startedAt < longestTimeoutMs
  }

  function Kills(orphans: set<Running>, now: int, longestTimeoutMs: int, seam: Running -> bool): set<Running> {
    set job | job in orphans && Killable(job, now, longestTimeoutMs, seam)
  }

  method KillThese(orphans: set<Running>, now: int, longestTimeoutMs: int, seam: Running -> bool) returns (killed: set<Running>)
    ensures killed == Kills(orphans, now, longestTimeoutMs, seam)
  {
    killed := {};
    var rest := orphans;
    while rest != {}
      invariant rest <= orphans
      invariant forall job :: job in killed <==> job in orphans && job !in rest && Killable(job, now, longestTimeoutMs, seam)
      decreases |rest|
    {
      var job :| job in rest;
      if Killable(job, now, longestTimeoutMs, seam) {
        killed := killed + {job};
      }
      rest := rest - {job};
    }
  }

  /** The reaction a message of this status was left with. */
  function LeftAt(status: Status): R.Reaction {
    if status.Pending? then R.Pending else R.InProgress
  }

  function Interrupted(handled: map<MsgId, Entry>): set<MsgId> {
    set m | m in handled && !Terminal(handled[m].status)
  }

  function MovedMessages(moves: seq<Transition>): seq<MsgId> {
    seq(|moves|, i requires 0 <= i < |moves| => moves[i].msg)
  }

  class Recoverer {
    var doc: Doc
    var reactionState: map<MsgId, R.Reaction>
    var killed: set<Running>
    var moves: seq<Transition>
    var notices: nat

    constructor (doc: Doc)
      ensures this.doc == doc && reactionState == map[] && killed == {} && moves == [] && notices == 0
    {
      this.doc := doc;
      reactionState, killed, moves, notices := map[], {}, [], 0;
    }

    method KillOrphans(now: int, longestTimeoutMs: int, seam: Running -> bool)
      modifies this`killed
      ensures killed == old(killed) + Kills(Orphans(doc), now, longestTimeoutMs, seam)
    {
      var orphans := doc.running.Values;
      if doc.current.Some? && doc.current.value.messageId !in doc.running {
        orphans := orphans + {doc.current.value};
      }
      var found := KillThese(orphans, now, longestTimeoutMs, seam);
      killed := killed + found;
    }

    method FailFixes(now: int)
      modifies this`doc, this`notices
      ensures doc == old(doc).(issues := Recovered(old(doc), now, "").issues)
    {
      var before := doc.issues;
      var rest := set k | k in before && before[k].status.Fixing?;
      while rest != {}
        invariant rest <= before.Keys
        invariant forall k :: k in rest ==> before[k].status.Fixing?
        invariant doc == old(doc).(issues := doc.issues) && doc.issues.Keys == before.Keys
        invariant forall k :: k in before ==> doc.issues[k] == if k in rest then before[k] else RepairedIssue(before[k], now)
        decreases |rest|
      {
        var k :| k in rest;
        doc := doc.(issues := doc.issues[k := Issue(Broken, before[k].firstSeen, None, now)]);
        notices := notices + 1;
        rest := rest - {k};
      }
      assert doc.issues == Recovered(old(doc), now, "").issues;
    }

    method FailUpgrades(now: int)
      modifies this`doc, this`notices
      ensures doc == old(doc).(lastRun := Recovered(old(doc), now, "").lastRun)
    {
      var before := doc.lastRun;
      var rest := set k | k in before && before[k].result == DEPS_RUNNING;
      while rest != {}
        invariant rest <= before.Keys
        invariant forall k :: k in rest ==> before[k].result == DEPS_RUNNING
        invariant doc == old(doc).(lastRun := doc.lastRun) && doc.lastRun.Keys == before.Keys
        invariant forall k :: k in before ==> doc.lastRun[k] == if k in rest then before[k] else RepairedRun(before[k], now)
        decreases |rest|
      {
        var k :| k in rest;
        doc := doc.(lastRun := doc.lastRun[k := DepsRun(before[k].windowStart, now, "failed")]);
        notices := notices + 1;
        rest := rest - {k};
      }
      assert doc.lastRun == Recovered(old(doc), now, "").lastRun;
    }

    /** One interrupted message fails, and its reaction with it. */
    method FailMessage(m: MsgId, entry: Entry, now: int, defaultChat: string) returns (move: Transition)
      requires !Terminal(entry.status)
      modifies this`doc, this`moves, this`reactionState
      ensures move == Transition(m, ChatOf(entry, defaultChat), LeftAt(entry.status), R.Failure)
      ensures doc == old(doc).(handled := old(doc.handled)[m := RepairedEntry(entry, now, defaultChat)])
      ensures moves == old(moves) + [move] && reactionState == old(reactionState) - {m}
    {
      move := Transition(m, ChatOf(entry, defaultChat), LeftAt(entry.status), R.Failure);
      doc := doc.(handled := doc.handled[m := Entry(Failed, now, Some(move.chat))]);
      moves := moves + [move];
      reactionState := reactionState[m := R.Failure] - {m};
    }

    /** Every interrupted message fails, and its chat is told so, once each. */
    method FailInterrupted(now: int, defaultChat: string)
      modifies this`doc, this`moves, this`reactionState
      ensures doc == old(doc).(handled := doc.handled) && doc.handled.Keys == old(doc.handled).Keys
      ensures forall m :: m in doc.handled ==> doc.handled[m] == RepairedEntry(old(doc.handled)[m], now, defaultChat)
      ensures reactionState == old(reactionState) - Interrupted(old(doc.handled))
      ensures |moves| >= |old(moves)| && moves[..|old(moves)|] == old(moves)
      ensures MovesFail(old(doc.handled), moves[|old(moves)|..], defaultChat)
      ensures forall m :: m in MovedMessages(moves[|old(moves)|..]) <==> m in Interrupted(old(doc.handled))
    {
      var before := doc.handled;
      var all := Interrupted(before);
      var rest := all;
      ghost var made := [];
      while rest != {}
        invariant rest <= all
        invariant doc == old(doc).(handled := doc.handled) && doc.handled.Keys == before.Keys
        invariant forall m :: m in before ==>
          doc.handled[m] == if m in rest then before[m] else RepairedEntry(before[m], now, defaultChat)
        invariant reactionState == old(reactionState) - (all - rest)
        invariant moves == old(moves) + made
        invariant Moved(before, made, rest, defaultChat)
        decreases |rest|
      {
        var m :| m in rest;
        var move := FailMessage(m, before[m], now, defaultChat);
        MovedOneMore(before, made, move, rest, defaultChat);
        rest := rest - {m};
        made := made + [move];
      }
      assert moves[|old(moves)|..] == made;
    }

    method Recover(now: int, defaultChat: string, longestTimeoutMs: int, seam: Running -> bool)
      modifies this
      ensures doc == Recovered(old(doc), now, defaultChat)
      ensures killed == old(killed) + Kills(Orphans(old(doc)), now, longestTimeoutMs, seam)
      ensures |moves| >= |old(moves)| && moves[..|old(moves)|] == old(moves)
      ensures MovesFail(Kept(old(doc.handled), now), moves[|old(moves)|..], defaultChat)
      ensures forall m :: m in MovedMessages(moves[|old(moves)|..]) <==> m in Interrupted(Kept(old(doc.handled), now))
    {
      doc := doc.(handled := Kept(doc.handled, now));
      KillOrphans(now, longestTimeoutMs, seam);
      doc := doc.(current := None, running := map[]);
      FailFixes(now);
      FailUpgrades(now);
      FailInterrupted(now, defaultChat);
      assert doc.handled == Recovered(old(doc), now, defaultChat).handled;
    }
  }

  /** The moves of recovery: each allowed, each from where its message stood, one a message. */
  ghost predicate MovesFail(handled: map<MsgId, Entry>, moves: seq<Transition>, defaultChat: string) {
    && (forall i :: 0 <= i < |moves| ==>
          && moves[i].msg in Interrupted(handled)
          && moves[i].from == (if handled[moves[i].msg].status == Pending then R.Pending else R.InProgress)
          && moves[i].to == R.Failure
          && (handled[moves[i].msg].chatId == None ==> moves[i].chat == defaultChat)
          && (handled[moves[i].msg].chatId != None ==> Some(moves[i].chat) == handled[moves[i].msg].chatId)
          && R.Allowed(Some(moves[i].from), moves[i].to))
    && (forall i, j :: 0 <= i < j < |moves| ==> moves[i].msg != moves[j].msg)
  }

  /** The moves made so far, with `rest` still to be moved. */
  ghost predicate Moved(handled: map<MsgId, Entry>, moves: seq<Transition>, rest: set<MsgId>, defaultChat: string) {
    && MovesFail(handled, moves, defaultChat)
    && forall m :: m in MovedMessages(moves) <==> m in Interrupted(handled) && m !in rest
  }

  lemma MovedOneMore(handled: map<MsgId, Entry>, moves: seq<Transition>, move: Transition, rest: set<MsgId>, defaultChat: string)
    requires Moved(handled, moves, rest, defaultChat) && move.msg in rest && rest <= Interrupted(handled)
    requires move == Transition(move.msg, ChatOf(handled[move.msg], defaultChat), LeftAt(handled[move.msg].status), R.Failure)
    ensures Moved(handled, moves + [move], rest - {move.msg}, defaultChat)
  {
    forall i | 0 <= i < |moves|
      ensures moves[i].msg in MovedMessages(moves)
    {
      assert MovedMessages(moves)[i] == moves[i].msg;
    }
    assert MovedMessages(moves + [move]) == MovedMessages(moves) + [move.msg];
  }

  /** From whatever state a crash left, nothing is left half done, and nothing else changed. */
  lemma RecoveredIsSettled(doc: Doc, now: int, defaultChat: string)
    ensures var after := Recovered(doc, now, defaultChat);
      && (forall m :: m in after.handled ==> Terminal(after.handled[m].status))
      && (forall k :: k in after.issues ==> !after.issues[k].status.Fixing?)
      && (forall k :: k in after.lastRun ==> after.lastRun[k].result != DEPS_RUNNING)
      && after.running == map[] && after.current == None
      && after.issues.Keys == doc.issues.Keys && after.lastRun.Keys == doc.lastRun.Keys
      && (forall m :: m in after.handled <==> m in doc.handled && !Expired(doc.handled[m], now))
      && (forall m :: m in after.handled && Terminal(doc.handled[m].status) ==> after.handled[m] == doc.handled[m])
      && (forall k :: k in doc.issues && !doc.issues[k].status.Fixing? ==> after.issues[k] == doc.issues[k])
      && (forall k :: k in doc.lastRun && doc.lastRun[k].result != DEPS_RUNNING ==> after.lastRun[k] == doc.lastRun[k])
      && (forall k :: k in doc.lastRun ==> after.lastRun[k].windowStart == doc.lastRun[k].windowStart)
  {
  }

  /** Each kept message that was pending or running has failed now, in its chat or the default one; a day is the limit of keeping. */
  lemma InterruptedFail(doc: Doc, now: int, defaultChat: string, m: MsgId)
    requires m in doc.handled && doc.handled[m].status in {Pending, Status.Running}
    ensures var after := Recovered(doc, now, defaultChat).handled; var entry := doc.handled[m];
      && (m in after <==> now - entry.at <= 86_400_000)
      && (m in after ==> after[m].status == Failed && after[m].at == now
                         && after[m].chatId == if entry.chatId == None then Some(defaultChat) else entry.chatId)
  {
  }

  /** An issue under repair is broken now, first seen when it was, without its pull request; a running upgrade has failed, in its window. */
  lemma WorkFails(doc: Doc, now: int, defaultChat: string, key: string)
    ensures key in doc.issues && doc.issues[key].status == Fixing ==>
      Recovered(doc, now, defaultChat).issues[key] == Issue(Broken, doc.issues[key].firstSeen, None, now)
    ensures key in doc.lastRun && doc.lastRun[key].result == "running" ==>
      Recovered(doc, now, defaultChat).lastRun[key] == DepsRun(doc.lastRun[key].windowStart, now, "failed")
  {
  }

  /** What is killed: a job the store has as running, or as the current one beside them, if its process is still that job's and not too old. */
  lemma KilledIff(doc: Doc, now: int, longestTimeoutMs: int, seam: Running -> bool, job: Running)
    ensures job in Kills(Orphans(doc), now, longestTimeoutMs, seam) <==>
      && ((exists m :: m in doc.running && doc.running[m] == job) || (doc.current == Some(job) && job.messageId !in doc.running))
      && job.pid != None && job.pidStart != None && seam(job) && now - job.startedAt < longestTimeoutMs
  {
  }

  function Statuses(handled: map<MsgId, Entry>): map<MsgId, Status> {
    map m | m in handled :: handled[m].status
  }

  /** Recovery is the repair the daemon's restart relies on. */
  lemma RecoveryRepairs(doc: Doc, now: int, defaultChat: string)
    ensures Statuses(Recovered(doc, now, defaultChat).handled)
            == Daemon.Repaired(Statuses(doc.handled), Daemon.Interrupted(Statuses(doc.handled)),
                               set m | m in doc.handled && Expired(doc.handled[m], now))
  {
  }

  /** Recovering again changes nothing but what has expired since. */
  lemma RecoveredTwice(doc: Doc, now: int, defaultChat: string)
    ensures Recovered(Recovered(doc, now, defaultChat), now, defaultChat) == Recovered(doc, now, defaultChat)
  {
    var once := Recovered(doc, now, defaultChat);
    assert Kept(once.handled, now) == once.handled;
    assert Recovered(once, now, defaultChat).handled == once.handled;
    assert Recovered(once, now, defaultChat).issues == once.issues;
    assert Recovered(once, now, defaultChat).lastRun == once.lastRun;
  }
}
