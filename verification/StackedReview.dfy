/** Stacked reviews of pkg/channel-review/src/engine.ts and summary.ts; `Surroundings` is what the outside decides for one target. */
module StackedReview {
  import opened Options
  import opened Reactions

  datatype Runner = Claude | Codex | Copilot | Grok

  datatype Verdict = Accepted | Commented | RequestedChanges

  /** A verdict, or the number of an error code (204 for CR-204). */
  datatype Outcome = Judged(verdict: Verdict) | Failed(code: nat)

  datatype Selection = Selection(runner: Runner, model: Option<string>)

  /** One run of a runner: when its time was computed, and how much it was given. */
  datatype Execution = Execution(target: string, agent: Selection, at: int, granted: int)

  /** How a run ends. `posted`: the pull request shows a review written since the run began. */
  datatype Finish =
    | Threw
    | Finished(aborted: bool, timedOut: bool, code: Option<nat>, status: Option<int>, posted: bool)

  /** The clock, the abort signal and the runner, as one attempt meets them. */
  datatype Attempt = Attempt(at: int, aborted: bool, finish: Finish)

  datatype Reading = Found(verdict: Verdict) | Nothing | Refused(code: nat) | Broke

  datatype Surroundings = Surroundings(
    aborted: bool,          // before the target is begun
    startedAt: int,
    first: Attempt,
    abortedAtLimit: bool,   // when the first attempt met its usage limit
    ready: bool,            // the fallback's probe
    abortedAfterProbe: bool,
    probedAt: int,
    second: Attempt,
    reading: Reading)

  datatype Row = Row(target: string, outcome: Outcome)

  /** The error of a finished run; none if it went well, or met its limit after it had posted. */
  function Settle(f: Finish): Option<nat> {
    match f
    case Threw => Some(203)
    case Finished(aborted, timedOut, code, status, posted) =>
      if aborted then Some(205)
      else if timedOut then Some(204)
      else if code == Some(207) && status == Some(0) && posted then None
      else if code.Some? then code
      else if status == Some(0) then None
      else Some(203)
  }

  /** An attempt reaches the runner only before the deadline and without an abort. */
  predicate Runs(a: Attempt, deadline: int) {
    a.at < deadline && !a.aborted
  }

  function ErrorOf(a: Attempt, deadline: int): Option<nat> {
    if deadline <= a.at then Some(204) else if a.aborted then Some(205) else Settle(a.finish)
  }

  function Granted(target: string, agent: Selection, a: Attempt, deadline: int): seq<Execution> {
    if Runs(a, deadline) then [Execution(target, agent, a.at, deadline - a.at)] else []
  }

  predicate MeetsLimit(fallback: Option<Runner>, agent: Selection, s: Surroundings, deadline: int) {
    ErrorOf(s.first, deadline) == Some(207) && agent.runner == Claude && fallback.Some?
  }

  predicate Switches(fallback: Option<Runner>, agent: Selection, s: Surroundings, deadline: int) {
    && MeetsLimit(fallback, agent, s, deadline)
    && !s.abortedAtLimit && !s.abortedAfterProbe && s.probedAt < deadline && s.ready
  }

  /** The configuration refuses the first runner as the fallback. */
  predicate GoodFallback(fallback: Option<Runner>) {
    fallback != Some(Claude)
  }

  function OutcomeOf(failed: Option<nat>, reading: Reading): Outcome {
    if failed.Some? then Failed(failed.value)
    else match reading
      case Found(v) => Judged(v)
      case Nothing => Failed(301)
      case Refused(code) => Failed(code)
      case Broke => Failed(203)
  }

  /** What one target leaves behind: the runs it made, the selection it leaves, and its outcome. */
  datatype Round = Round(target: string, before: Selection, after: Selection, runs: seq<Execution>, outcome: Outcome)

  ghost predicate Reviewed(fallback: Option<Runner>, timeout: int, s: Surroundings, r: Round) {
    var deadline := s.startedAt + timeout;
    var switched := Switches(fallback, r.before, s, deadline);
    && r.after == (if switched then Selection(fallback.value, None) else r.before)
    && r.runs == Granted(r.target, r.before, s.first, deadline)
              + (if switched then Granted(r.target, r.after, s.second, deadline) else [])
    && (switched ==> r.outcome == OutcomeOf(ErrorOf(s.second, deadline), s.reading))
    && (!MeetsLimit(fallback, r.before, s, deadline) ==> r.outcome == OutcomeOf(ErrorOf(s.first, deadline), s.reading))
    && (MeetsLimit(fallback, r.before, s, deadline) && !switched ==>
          r.outcome == (if s.abortedAtLimit || s.abortedAfterProbe then Failed(205)
                        else if deadline <= s.probedAt then Failed(204) else Failed(207)))
  }

  /** Every run of one target ends, at the latest, at the same instant. */
  lemma OneDeadline(fallback: Option<Runner>, timeout: int, s: Surroundings, r: Round)
    requires Reviewed(fallback, timeout, s, r)
    ensures forall e :: e in r.runs ==> e.target == r.target && 0 < e.granted && e.at + e.granted == s.startedAt + timeout
    ensures forall e :: e in r.runs ==> s.startedAt <= e.at ==> e.granted <= timeout
  {
  }

  /** An attempt in time and without an abort whose run ends well, or meets its usage limit behind a review it has posted. */
  predicate WentWell(a: Attempt, deadline: int) {
    && a.at < deadline && !a.aborted
    && a.finish.Finished? && !a.finish.aborted && !a.finish.timedOut && a.finish.status == Some(0)
    && (a.finish.code == None || (a.finish.code == Some(207) && a.finish.posted))
  }

  /** The code of an attempt that did not go well: late, aborted, timed out, thrown, the runner's own code, or a bad status. */
  lemma ErrorIs(a: Attempt, deadline: int)
    ensures ErrorOf(a, deadline) == None <==> WentWell(a, deadline)
    ensures a.at >= deadline ==> ErrorOf(a, deadline) == Some(204)
    ensures a.at < deadline && a.aborted ==> ErrorOf(a, deadline) == Some(205)
    ensures a.at < deadline && !a.aborted && a.finish == Threw ==> ErrorOf(a, deadline) == Some(203)
    ensures a.at < deadline && !a.aborted && a.finish.Finished? && a.finish.aborted ==> ErrorOf(a, deadline) == Some(205)
    ensures a.at < deadline && !a.aborted && a.finish.Finished? && !a.finish.aborted ==>
      && (a.finish.timedOut ==> ErrorOf(a, deadline) == Some(204))
      && (!a.finish.timedOut && !WentWell(a, deadline) ==>
            ErrorOf(a, deadline) == if a.finish.code.Some? then a.finish.code else Some(203))
  {
  }

  /** The attempt that decides a target: the second if the runner was changed. */
  function LastAttempt(s: Surroundings, r: Round): Attempt {
    if r.before != r.after then s.second else s.first
  }

  /** A target is judged if and only if its last attempt went well and a verdict was read, and then that is its verdict. */
  lemma VerdictIff(fallback: Option<Runner>, timeout: int, s: Surroundings, r: Round, v: Verdict)
    requires GoodFallback(fallback) && Reviewed(fallback, timeout, s, r)
    ensures r.outcome == Judged(v) <==> WentWell(LastAttempt(s, r), s.startedAt + timeout) && s.reading == Found(v)
  {
    ErrorIs(s.first, s.startedAt + timeout);
    ErrorIs(s.second, s.startedAt + timeout);
  }

  /** With a run that went well, but without a verdict: none was there, reading was refused with a code, or it broke. */
  lemma UnreadIs(fallback: Option<Runner>, timeout: int, s: Surroundings, r: Round)
    requires GoodFallback(fallback) && Reviewed(fallback, timeout, s, r) && WentWell(LastAttempt(s, r), s.startedAt + timeout)
    ensures s.reading == Nothing ==> r.outcome == Failed(301)
    ensures s.reading.Refused? ==> r.outcome == Failed(s.reading.code)
    ensures s.reading == Broke ==> r.outcome == Failed(203)
  {
    ErrorIs(s.first, s.startedAt + timeout);
    ErrorIs(s.second, s.startedAt + timeout);
  }

  /**
   * The runner is changed for the fallback if and only if the first one met its
   * usage limit in time and without a posted review, nothing was aborted until
   * the fallback answered that it is ready, and time is left then.
   */
  lemma SwitchIff(fallback: Option<Runner>, timeout: int, s: Surroundings, r: Round, other: Runner)
    requires Reviewed(fallback, timeout, s, r) && r.before.runner == Claude && fallback == Some(other) && other != Claude
    ensures var deadline := s.startedAt + timeout;
      && (r.after != r.before <==>
            && s.first.at < deadline && !s.first.aborted && s.first.finish.Finished?
            && !s.first.finish.aborted && !s.first.finish.timedOut && s.first.finish.code == Some(207)
            && !(s.first.finish.status == Some(0) && s.first.finish.posted)
            && !s.abortedAtLimit && s.ready && !s.abortedAfterProbe && s.probedAt < deadline)
      && (r.after != r.before ==> r.after == Selection(other, None))
      && (r.after != r.before && s.second.at < deadline && !s.second.aborted ==>
            r.runs == [Execution(r.target, r.before, s.first.at, deadline - s.first.at),
                       Execution(r.target, r.after, s.second.at, deadline - s.second.at)])
  {
    if s.first.finish.Finished? && s.first.finish.code == Some(207) {
      assert Settle(s.first.finish) == Some(207) || s.first.finish.aborted || s.first.finish.timedOut || Settle(s.first.finish) == None;
    }
  }

  /** A usage limit that changes nothing: aborted meanwhile, out of time, or with no fallback ready. */
  lemma LimitIs(fallback: Option<Runner>, timeout: int, s: Surroundings, r: Round)
    requires GoodFallback(fallback) && Reviewed(fallback, timeout, s, r) && r.after == r.before
    requires ErrorOf(s.first, s.startedAt + timeout) == Some(207)
    ensures r.outcome ==
      if fallback == None || r.before.runner != Claude then Failed(207)
      else if s.abortedAtLimit || s.abortedAfterProbe then Failed(205)
      else if s.probedAt >= s.startedAt + timeout then Failed(204)
      else Failed(207)
  {
  }

  function Total(rounds: seq<Round>): nat {
    if rounds == [] then 0 else |rounds[0].runs| + Total(rounds[1..])
  }

  function SwitchCount(rounds: seq<Round>): nat {
    if rounds == [] then 0 else (if rounds[0].before != rounds[0].after then 1 else 0) + SwitchCount(rounds[1..])
  }

  /** A stacked review: each target begins with the selection the one before left. */
  ghost predicate Linked(fallback: Option<Runner>, timeout: int, env: seq<Surroundings>, from: Selection, rounds: seq<Round>)
    decreases |rounds|
  {
    rounds == []
    || (env != [] && rounds[0].before == from && Reviewed(fallback, timeout, env[0], rounds[0])
        && Linked(fallback, timeout, env[1..], rounds[0].after, rounds[1..]))
  }

  /** A runner other than the first is never left again, and makes one run a target. */
  lemma {:induction false} SwitchedForGood(
      fallback: Option<Runner>, timeout: int, env: seq<Surroundings>, from: Selection, rounds: seq<Round>)
    requires Linked(fallback, timeout, env, from, rounds) && from.runner != Claude
    ensures Total(rounds) <= |rounds| && SwitchCount(rounds) == 0
    ensures forall k :: 0 <= k < |rounds| ==> rounds[k].after == from && forall e :: e in rounds[k].runs ==> e.agent == from
    decreases |rounds|
  {
    if rounds != [] {
      SwitchedForGood(fallback, timeout, env[1..], rounds[0].after, rounds[1..]);
      assert forall k :: 1 <= k < |rounds| ==> rounds[k] == rounds[1..][k - 1];
    }
  }

  /** n targets cost at most n + 1 runs and one change of runner; without a change, at most n. */
  lemma {:induction false} StackBound(
      fallback: Option<Runner>, timeout: int, env: seq<Surroundings>, from: Selection, rounds: seq<Round>)
    requires GoodFallback(fallback) && Linked(fallback, timeout, env, from, rounds)
    ensures SwitchCount(rounds) <= 1 && Total(rounds) <= |rounds| + SwitchCount(rounds)
    decreases |rounds|
  {
    if rounds != [] {
      if rounds[0].before == rounds[0].after {
        StackBound(fallback, timeout, env[1..], rounds[0].after, rounds[1..]);
      } else {
        SwitchedForGood(fallback, timeout, env[1..], rounds[0].after, rounds[1..]);
      }
    }
  }

  /** Where a stack ends: with the selection it began with, or with the fallback and its default model. */
  lemma {:induction false} LastSelection(
      fallback: Option<Runner>, timeout: int, env: seq<Surroundings>, from: Selection, rounds: seq<Round>)
    requires GoodFallback(fallback) && Linked(fallback, timeout, env, from, rounds)
    ensures LastOf(from, rounds) == from
      || (from.runner == Claude && fallback.Some? && LastOf(from, rounds) == Selection(fallback.value, None))
    decreases |rounds|
  {
    if rounds != [] {
      LastSelection(fallback, timeout, env[1..], rounds[0].after, rounds[1..]);
    }
  }

  /** The rule the bound rests on: with the first runner as its own fallback, every target could run twice. */
  lemma SelfFallbackRunsTwice(target: string)
    ensures exists s: Surroundings, r: Round ::
      Reviewed(Some(Claude), 10, s, r) && r.before == r.after && |r.runs| == 2 && r.target == target
  {
    var limit := Attempt(0, false, Finished(false, false, Some(207), Some(1), false));
    var s := Surroundings(false, 0, limit, false, true, false, 0, limit, Nothing);
    var sel := Selection(Claude, None);
    var r := Round(target, sel, sel, Granted(target, sel, limit, 10) + Granted(target, sel, limit, 10), Failed(207));
    assert Reviewed(Some(Claude), 10, s, r);
  }

  /** The pull requests held back until a later review clears them. */
  function Held(blocked: set<string>, row: Row): set<string> {
    if row.outcome == Judged(RequestedChanges) then blocked + {row.target}
    else if row.outcome.Judged? || row.outcome == Failed(302) then blocked - {row.target}
    else blocked
  }

  function HeldAfter(blocked: set<string>, rows: seq<Row>): set<string> {
    if rows == [] then blocked else Held(HeldAfter(blocked, rows[..|rows| - 1]), rows[|rows| - 1])
  }

  predicate Decides(o: Outcome) {
    o.Judged? || o == Failed(302)
  }

  /** From the i-th row on none decides about the pull request. */
  ghost predicate Undecided(rows: seq<Row>, key: string, i: nat) {
    forall j :: i <= j < |rows| ==> !(rows[j].target == key && Decides(rows[j].outcome))
  }

  /** The i-th row asks for changes, and none behind it decides. */
  ghost predicate HoldsBack(rows: seq<Row>, key: string, i: nat) {
    i < |rows| && rows[i] == Row(key, Judged(RequestedChanges)) && Undecided(rows, key, i + 1)
  }

  lemma UndecidedLonger(rows: seq<Row>, row: Row, key: string, i: nat)
    requires i <= |rows|
    ensures Undecided(rows + [row], key, i) <==> Undecided(rows, key, i) && !(row.target == key && Decides(row.outcome))
  {
    var all := rows + [row];
    assert all[|rows|] == row && forall j :: 0 <= j < |rows| ==> all[j] == rows[j];
  }

  lemma HoldsBackLonger(rows: seq<Row>, row: Row, key: string)
    requires !(row.target == key && Decides(row.outcome))
    ensures (exists i: nat :: HoldsBack(rows + [row], key, i)) <==> (exists i: nat :: HoldsBack(rows, key, i))
  {
    forall i: nat | i < |rows| ensures HoldsBack(rows + [row], key, i) <==> HoldsBack(rows, key, i) {
      UndecidedLonger(rows, row, key, i + 1);
    }
    assert !HoldsBack(rows + [row], key, |rows|);
  }

  lemma LastHoldsBack(rows: seq<Row>, row: Row, key: string)
    requires row.target == key && Decides(row.outcome)
    ensures (exists i: nat :: HoldsBack(rows + [row], key, i)) <==> row.outcome == Judged(RequestedChanges)
  {
    forall i: nat | i < |rows| ensures !HoldsBack(rows + [row], key, i) {
      UndecidedLonger(rows, row, key, i + 1);
    }
    if row.outcome == Judged(RequestedChanges) {
      assert HoldsBack(rows + [row], key, |rows|);
    }
  }

  /** A pull request is held back exactly when the last row that decides it asked for changes, or none decides it and it was. */
  lemma {:induction false} HeldIff(blocked: set<string>, rows: seq<Row>, key: string)
    ensures key in HeldAfter(blocked, rows) <==>
      (exists i: nat :: HoldsBack(rows, key, i)) || (key in blocked && Undecided(rows, key, 0))
  {
    if rows != [] {
      var n := |rows| - 1;
      var before, row := rows[..n], rows[n];
      assert rows == before + [row];
      HeldIff(blocked, before, key);
      UndecidedLonger(before, row, key, 0);
      if row.target == key && Decides(row.outcome) {
        LastHoldsBack(before, row, key);
      } else {
        HoldsBackLonger(before, row, key);
      }
    }
  }

  function ReactionOf(o: Outcome): Reaction {
    match o
    case Failed(_) => Failure
    case Judged(RequestedChanges) => ChangesRequested
    case Judged(Commented) => Comment
    case Judged(Accepted) => Approved
  }

  function Severity(r: Reaction): nat {
    match r
    case Failure => 3
    case ChangesRequested => 2
    case Comment => 1
    case _ => 0
  }

  function Aggregate(worst: Reaction, rows: seq<Row>): Reaction
    decreases |rows|
  {
    if rows == [] then worst
    else
      var next := ReactionOf(rows[0].outcome);
      Aggregate(if Severity(next) > Severity(worst) then next else worst, rows[1..])
  }

  /** The summary reaction is the worst of the rows, and one the table allows after `InProgress`. */
  lemma {:induction false} AggregateIsWorst(worst: Reaction, rows: seq<Row>)
    requires worst in {Approved, Comment, ChangesRequested, Failure}
    ensures var a := Aggregate(worst, rows);
      && (a == worst || exists i :: 0 <= i < |rows| && a == ReactionOf(rows[i].outcome))
      && Severity(worst) <= Severity(a)
      && (forall i :: 0 <= i < |rows| ==> Severity(ReactionOf(rows[i].outcome)) <= Severity(a))
      && Allowed(Some(InProgress), a)
    decreases |rows|
  {
    if rows != [] {
      var next := ReactionOf(rows[0].outcome);
      var now := if Severity(next) > Severity(worst) then next else worst;
      AggregateIsWorst(now, rows[1..]);
      assert forall i :: 1 <= i < |rows| ==> rows[i] == rows[1..][i - 1];
    }
  }

  /** The summary of a stack: a failure if any row failed, else changes if any asked for them, else a comment if any is one. */
  lemma AggregateMeans(rows: seq<Row>)
    ensures var a := Aggregate(Approved, rows);
      && (a == Failure <==> exists i :: 0 <= i < |rows| && rows[i].outcome.Failed?)
      && (a == ChangesRequested <==>
            (forall i :: 0 <= i < |rows| ==> rows[i].outcome.Judged?)
            && exists i :: 0 <= i < |rows| && rows[i].outcome == Judged(RequestedChanges))
      && (a == Comment <==>
            (forall i :: 0 <= i < |rows| ==> rows[i].outcome in {Judged(Accepted), Judged(Commented)})
            && exists i :: 0 <= i < |rows| && rows[i].outcome == Judged(Commented))
      && (a == Approved <==> forall i :: 0 <= i < |rows| ==> rows[i].outcome == Judged(Accepted))
  {
    AggregateIsWorst(Approved, rows);
    forall i | 0 <= i < |rows|
      ensures Level(rows[i].outcome) <= Severity(Aggregate(Approved, rows)) && Level(rows[i].outcome) == Severity(ReactionOf(rows[i].outcome))
    {
      LevelIs(rows[i].outcome);
    }
    WorstIs(rows, Aggregate(Approved, rows));
  }

  function Level(o: Outcome): nat {
    if o.Failed? then 3 else if o == Judged(RequestedChanges) then 2 else if o == Judged(Commented) then 1 else 0
  }

  lemma LevelIs(o: Outcome)
    ensures Level(o) == Severity(ReactionOf(o))
    ensures Level(o) == 3 <==> o.Failed?
    ensures Level(o) == 2 <==> o == Judged(RequestedChanges)
    ensures Level(o) == 1 <==> o == Judged(Commented)
    ensures Level(o) == 0 <==> o == Judged(Accepted)
  {
    if o.Judged? {
      assert o.verdict == Accepted || o.verdict == Commented || o.verdict == RequestedChanges;
    }
  }

  ghost predicate Worst(rows: seq<Row>, level: nat) {
    (forall i :: 0 <= i < |rows| ==> Level(rows[i].outcome) <= level)
    && (level == 0 || exists i :: 0 <= i < |rows| && Level(rows[i].outcome) == level)
  }

  lemma WorstIs(rows: seq<Row>, a: Reaction)
    requires a in {Approved, Comment, ChangesRequested, Failure} && Worst(rows, Severity(a))
    ensures a == Failure <==> exists i :: 0 <= i < |rows| && rows[i].outcome.Failed?
    ensures a == ChangesRequested <==>
      (forall i :: 0 <= i < |rows| ==> rows[i].outcome.Judged?)
      && exists i :: 0 <= i < |rows| && rows[i].outcome == Judged(RequestedChanges)
    ensures a == Comment <==>
      (forall i :: 0 <= i < |rows| ==> rows[i].outcome in {Judged(Accepted), Judged(Commented)})
      && exists i :: 0 <= i < |rows| && rows[i].outcome == Judged(Commented)
    ensures a == Approved <==> forall i :: 0 <= i < |rows| ==> rows[i].outcome == Judged(Accepted)
  {
    forall i | 0 <= i < |rows|
      ensures Level(rows[i].outcome) == 3 <==> rows[i].outcome.Failed?
      ensures Level(rows[i].outcome) == 2 <==> rows[i].outcome == Judged(RequestedChanges)
      ensures Level(rows[i].outcome) == 1 <==> rows[i].outcome == Judged(Commented)
      ensures Level(rows[i].outcome) == 0 <==> rows[i].outcome == Judged(Accepted)
    {
      LevelIs(rows[i].outcome);
    }
  }

  /** A review job while it runs: the selection it may change, and what it has done. */
  class ReviewJob {
    const fallback: Option<Runner>
    const timeout: int
    var selection: Selection
    var blocked: set<string>
    var runs: seq<Execution>

    constructor (fallback: Option<Runner>, timeout: int, selection: Selection, blocked: set<string>)
      ensures this.fallback == fallback && this.timeout == timeout && this.selection == selection
      ensures this.blocked == blocked && runs == []
    {
      this.fallback, this.timeout, this.selection, this.blocked, runs := fallback, timeout, selection, blocked, [];
    }

    method Try(target: string, a: Attempt, deadline: int) returns (failed: Option<nat>)
      modifies this`runs
      ensures failed == ErrorOf(a, deadline)
      ensures runs == old(runs) + Granted(target, selection, a, deadline)
    {
      var remaining := deadline - a.at;
      if remaining <= 0 {
        return Some(204);
      }
      if a.aborted {
        return Some(205);
      }
      runs := runs + [Execution(target, selection, a.at, remaining)];
      failed := Settle(a.finish);
    }

    method Review(target: string, s: Surroundings) returns (outcome: Outcome, ghost round: Round)
      modifies this`runs, this`selection
      ensures round.target == target && round.before == old(selection) && round.after == selection
      ensures round.outcome == outcome && runs == old(runs) + round.runs
      ensures Reviewed(fallback, timeout, s, round)
    {
      var deadline := s.startedAt + timeout;
      var failed := Try(target, s.first, deadline);
      round := Round(target, old(selection), old(selection), runs[|old(runs)|..], Failed(205));
      if failed == Some(207) && selection.runner == Claude && fallback.Some? {
        if s.abortedAtLimit {
          return Failed(205), round;
        }
        if s.abortedAfterProbe {
          return Failed(205), round;
        }
        if deadline <= s.probedAt {
          return Failed(204), round.(outcome := Failed(204));
        }
        if s.ready {
          selection := Selection(fallback.value, None);
          failed := Try(target, s.second, deadline);
        }
      }
      outcome := OutcomeOf(failed, s.reading);
      round := Round(target, old(selection), selection, runs[|old(runs)|..], outcome);
    }

    /** Held back, or no longer. */
    method SettleBlocked(target: string, outcome: Outcome)
      modifies this`blocked
      ensures blocked == Held(old(blocked), Row(target, outcome))
    {
      if outcome == Judged(RequestedChanges) {
        blocked := blocked + {target};
      } else if target in blocked && (outcome.Judged? || outcome.code == 302) {
        blocked := blocked - {target};
      }
    }

    /** One target of the stack: its review, unless the job was aborted before it, and what it holds back. */
    method ReviewTarget(target: string, s: Surroundings, ghost env: seq<Surroundings>, ghost from: Selection, ghost rounds: seq<Round>)
      returns (outcome: Outcome, ghost after: seq<Round>)
      requires |rounds| < |env| && s == env[|rounds|] && Linked(fallback, timeout, env, from, rounds)
      requires selection == LastOf(from, rounds)
      modifies this
      ensures Linked(fallback, timeout, env, from, after) && selection == LastOf(from, after)
      ensures |runs| - |old(runs)| == Total(after) - Total(rounds)
      ensures (after == rounds && s.aborted && outcome == Failed(205))
        || (|after| == |rounds| + 1 && rounds == after[..|rounds|]
            && after[|rounds|].target == target && after[|rounds|].outcome == outcome)
      ensures blocked == if outcome == Failed(205) then old(blocked) else Held(old(blocked), Row(target, outcome))
    {
      if s.aborted {
        return Failed(205), rounds;
      }
      ghost var round;
      outcome, round := Review(target, s);
      LinkedExtends(fallback, timeout, env, from, rounds, round);
      TotalExtends(rounds, round);
      after := rounds + [round];
      if outcome != Failed(205) {
        SettleBlocked(target, outcome);
      }
    }

    /**
     * All the targets in order, unless the job is aborted: then the targets
     * before the abort keep what they did. The runs obey the bound either way.
     */
    method ReviewStack(targets: seq<string>, env: seq<Surroundings>)
      returns (rows: Option<seq<Row>>, ghost rounds: seq<Round>, ghost done: seq<Row>)
      requires |env| == |targets| && GoodFallback(fallback)
      modifies this
      ensures Linked(fallback, timeout, env, old(selection), rounds) && |rounds| <= |targets|
      ensures selection == LastOf(old(selection), rounds) && |runs| == |old(runs)| + Total(rounds)
      ensures |runs| <= |old(runs)| + |targets| + 1
      ensures Rowed(targets, rounds, done) && blocked == HeldAfter(old(blocked), done)
      ensures rows == if |done| == |targets| then Some(done) else None
      ensures rows.None? ==>
        env[|done|].aborted || (|rounds| == |done| + 1 && rounds[|done|].outcome == Failed(205))
    {
      rounds, done := [], [];
      var list: seq<Row> := [];
      for k := 0 to |targets|
        invariant |rounds| == k == |list| && done == list
        invariant Linked(fallback, timeout, env, old(selection), rounds)
        invariant selection == LastOf(old(selection), rounds) && |runs| == |old(runs)| + Total(rounds)
        invariant Rowed(targets, rounds, list) && blocked == HeldAfter(old(blocked), list)
      {
        var outcome, after := ReviewTarget(targets[k], env[k], env, old(selection), rounds);
        RowedStays(targets, rounds, after, list);
        rounds := after;
        if outcome == Failed(205) {
          StackBound(fallback, timeout, env, old(selection), rounds);
          return None, rounds, done;
        }
        HeldExtends(old(blocked), list, Row(targets[k], outcome));
        RowedMore(targets, rounds, list, outcome);
        list := list + [Row(targets[k], outcome)];
        done := list;
      }
      StackBound(fallback, timeout, env, old(selection), rounds);
      return Some(list), rounds, done;
    }
  }

  /** Each finished row is the outcome of the round of its target, in the order of the targets. */
  ghost predicate Rowed(targets: seq<string>, rounds: seq<Round>, done: seq<Row>) {
    |done| <= |targets| && |done| <= |rounds|
    && forall k :: 0 <= k < |done| ==>
         rounds[k].target == targets[k] && done[k] == Row(targets[k], rounds[k].outcome) && done[k].outcome != Failed(205)
  }

  lemma RowedStays(targets: seq<string>, rounds: seq<Round>, after: seq<Round>, done: seq<Row>)
    requires Rowed(targets, rounds, done) && rounds <= after
    ensures Rowed(targets, after, done)
  {
  }

  lemma RowedMore(targets: seq<string>, rounds: seq<Round>, done: seq<Row>, outcome: Outcome)
    requires Rowed(targets, rounds, done) && |done| < |targets| && |done| < |rounds| && outcome != Failed(205)
    requires rounds[|done|].target == targets[|done|] && rounds[|done|].outcome == outcome
    ensures Rowed(targets, rounds, done + [Row(targets[|done|], outcome)])
  {
  }

  lemma HeldExtends(blocked: set<string>, rows: seq<Row>, row: Row)
    ensures HeldAfter(blocked, rows + [row]) == Held(HeldAfter(blocked, rows), row)
  {
    assert (rows + [row])[..|rows|] == rows;
  }

  function LastOf(from: Selection, rounds: seq<Round>): Selection {
    if rounds == [] then from else rounds[|rounds| - 1].after
  }

  lemma {:induction false} LinkedExtends(
      fallback: Option<Runner>, timeout: int, env: seq<Surroundings>, from: Selection, rounds: seq<Round>, r: Round)
    requires Linked(fallback, timeout, env, from, rounds) && |rounds| < |env|
    requires r.before == LastOf(from, rounds) && Reviewed(fallback, timeout, env[|rounds|], r)
    ensures Linked(fallback, timeout, env, from, rounds + [r])
    decreases |rounds|
  {
    if rounds == [] {
      assert (rounds + [r])[1..] == [];
    } else {
      LinkedExtends(fallback, timeout, env[1..], rounds[0].after, rounds[1..], r);
      assert (rounds + [r])[1..] == rounds[1..] + [r];
    }
  }

  lemma {:induction false} TotalExtends(rounds: seq<Round>, r: Round)
    ensures Total(rounds + [r]) == Total(rounds) + |r.runs|
  {
    if rounds == [] {
      assert (rounds + [r])[1..] == [];
    } else {
      TotalExtends(rounds[1..], r);
      assert (rounds + [r])[1..] == rounds[1..] + [r];
    }
  }
}
