// The upgrades of pkg/channel-review/src/automation/deps-flow.ts, one a repository and window. A step is what runs
// between two awaits of a tick or of a job, a passing of time, a crash, or the recovery after it.
module DepsFlows {
  import opened Options
  import opened Schedules

  datatype Upshot = Running | Skipped | Failed | NoChanges | DraftPr | Ready

  datatype Run = Run(windowStart: int, upshot: Upshot)

  /** A tick: not begun, at a repository, or waiting for the open pull requests of one. */
  datatype Scan = Idle | At(i: nat) | Asking(i: nat, windowStart: int)

  datatype Settings = Settings(repos: seq<string>, schedules: map<string, Schedule>)
  {
    predicate Valid() {
      forall i :: 0 <= i < |repos| ==> repos[i] in schedules && schedules[repos[i]].Valid()
    }
  }

  datatype Flow = Flow(
    now: int,
    lastRun: map<string, Run>,      // persisted
    live: map<string, int>,         // the jobs accepted and not ended, with their window
    scan: Scan,
    accepted: seq<(string, int)>)   // every job the engine ever accepted

  datatype Listing = Unlisted | StillOpen | NoneOpen

  datatype Step =
    | Wait(until: int)
    | Begin
    | Look(aborted: bool)
    | Answer(listing: Listing, room: bool)   // `room`: the engine is neither full nor stopped
    | Record(repo: string, upshot: Upshot)
    | End(repo: string)
    | Crash
    | Recover

  predicate Enabled(c: Settings, f: Flow, step: Step) {
    match step
    case Wait(until) => f.now <= until
    case Begin => f.scan.Idle?
    case Look(_) => f.scan.At?
    case Answer(_, _) => f.scan.Asking? && f.scan.i < |c.repos|
    case Record(repo, _) => repo in f.live
    case End(repo) => repo in f.live
    case Crash => true
    case Recover => true
  }

  /** `tick` up to its first await for one repository. */
  function Looked(c: Settings, f: Flow, aborted: bool): Flow
    requires c.Valid() && f.scan.At?
  {
    var i := f.scan.i;
    if |c.repos| <= i || aborted then f.(scan := Idle)
    else
      var window := DueWindow(f.now, c.schedules[c.repos[i]]);
      if window.None? then f.(scan := At(i + 1))
      else if c.repos[i] in f.lastRun && f.lastRun[c.repos[i]].windowStart == window.value.start then f.(scan := At(i + 1))
      else f.(scan := Asking(i, window.value.start))
  }

  /** The rest of the turn: nothing, a skip, or `upgrade`, which records before it asks the engine. */
  function Answered(c: Settings, f: Flow, listing: Listing, room: bool): Flow
    requires f.scan.Asking? && f.scan.i < |c.repos|
  {
    var repo := c.repos[f.scan.i];
    var start := f.scan.windowStart;
    var next := f.(scan := At(f.scan.i + 1));
    match listing
    case Unlisted => next
    case StillOpen => next.(lastRun := f.lastRun[repo := Run(start, Skipped)])
    case NoneOpen =>
      var recorded := next.(lastRun := f.lastRun[repo := Run(start, Running)]);
      if room && repo !in f.live
      then recorded.(live := f.live[repo := start], accepted := f.accepted + [(repo, start)])
      else recorded
  }

  /** After a crash no run is left `Running`; its window is kept. */
  function Settled(lastRun: map<string, Run>): map<string, Run> {
    map repo | repo in lastRun ::
      if lastRun[repo].upshot == Running then Run(lastRun[repo].windowStart, Failed) else lastRun[repo]
  }

  function Next(c: Settings, f: Flow, step: Step): Flow
    requires c.Valid() && Enabled(c, f, step)
  {
    match step
    case Wait(until) => f.(now := until)
    case Begin => f.(scan := At(0))
    case Look(aborted) => Looked(c, f, aborted)
    case Answer(listing, room) => Answered(c, f, listing, room)
    case Record(repo, upshot) => f.(lastRun := f.lastRun[repo := Run(f.live[repo], upshot)])
    case End(repo) => f.(live := f.live - {repo})
    case Crash => f.(live := map[], scan := Idle)
    case Recover => f.(lastRun := Settled(f.lastRun))
  }

  // ----- One turn -----

  /** A tick asks for the open pull requests of a repository exactly if one of its windows is due that is not the recorded one. */
  lemma AsksIff(c: Settings, f: Flow, start: int)
    requires c.Valid() && f.scan.At? && f.scan.i < |c.repos|
    ensures var repo, f' := c.repos[f.scan.i], Next(c, f, Look(false));
      && (f'.scan == Asking(f.scan.i, start) <==>
            && DueWindow(f.now, c.schedules[repo]).Some? && DueWindow(f.now, c.schedules[repo]).value.start == start
            && !(repo in f.lastRun && f.lastRun[repo].windowStart == start))
      && (!f'.scan.Asking? ==> f'.scan == At(f.scan.i + 1))
      && f' == f.(scan := f'.scan)
    ensures Next(c, f, Look(true)) == f.(scan := Idle)
  {
  }

  /**
   * What is recorded then: nothing if they could not be listed, so that the next
   * tick asks again; a skip if one is still open; else a run, whether or not the
   * engine takes the job, which it does with room and no job of the repository.
   */
  lemma TurnRecords(c: Settings, f: Flow, room: bool)
    requires c.Valid() && f.scan.Asking? && f.scan.i < |c.repos|
    ensures var repo, start, next := c.repos[f.scan.i], f.scan.windowStart, At(f.scan.i + 1);
      && Next(c, f, Answer(Unlisted, room)) == f.(scan := next)
      && Next(c, f, Answer(StillOpen, room)) == f.(scan := next, lastRun := f.lastRun[repo := Run(start, Skipped)])
      && var run := f.(scan := next, lastRun := f.lastRun[repo := Run(start, Running)]);
         Next(c, f, Answer(NoneOpen, room)) ==
           if room && repo !in f.live then run.(live := f.live[repo := start], accepted := f.accepted + [(repo, start)]) else run
  {
  }

  /** A job records under its own window; a crash ends all jobs, and the recovery behind it fails what was running, in its window. */
  lemma JobsRecord(c: Settings, f: Flow, repo: string, upshot: Upshot)
    requires c.Valid()
    ensures repo in f.live ==>
      && Next(c, f, Record(repo, upshot)) == f.(lastRun := f.lastRun[repo := Run(f.live[repo], upshot)])
      && Next(c, f, End(repo)) == f.(live := f.live - {repo})
    ensures var after := Next(c, Next(c, f, Crash), Recover);
      && after.live == map[] && after.scan == Idle && after.accepted == f.accepted
      && after.lastRun.Keys == f.lastRun.Keys
      && forall r :: r in f.lastRun ==>
           after.lastRun[r] == if f.lastRun[r].upshot == Running then Run(f.lastRun[r].windowStart, Failed) else f.lastRun[r]
  {
  }

  // ----- Runs -----

  ghost predicate ValidRun(c: Settings, f: Flow, steps: seq<Step>)
    requires c.Valid()
    decreases |steps|
  {
    steps == [] || (Enabled(c, f, steps[0]) && ValidRun(c, Next(c, f, steps[0]), steps[1..]))
  }

  ghost function After(c: Settings, f: Flow, steps: seq<Step>): Flow
    requires c.Valid() && ValidRun(c, f, steps)
    decreases |steps|
  {
    if steps == [] then f else After(c, Next(c, f, steps[0]), steps[1..])
  }

  ghost predicate IsDue(s: Schedule, t: int, start: int) {
    DueWindow(t, s).Some? && DueWindow(t, s).value.start == start
  }

  /** The start is that of the window due at some time up to now. */
  ghost predicate WasDue(c: Settings, repo: string, start: int, now: int) {
    repo in c.schedules && c.schedules[repo].Valid() && exists t :: t <= now && IsDue(c.schedules[repo], t, start)
  }

  lemma DueStays(c: Settings, repo: string, start: int, now: int, later: int)
    requires WasDue(c, repo, start, now) && now <= later
    ensures WasDue(c, repo, start, later)
  {
    var t :| t <= now && IsDue(c.schedules[repo], t, start);
    assert t <= later;
  }

  lemma NowIsLast(c: Settings, repo: string, start: int, now: int)
    requires WasDue(c, repo, start, now) && DueWindow(now, c.schedules[repo]).Some?
    ensures start <= DueWindow(now, c.schedules[repo]).value.start
  {
    var t :| t <= now && IsDue(c.schedules[repo], t, start);
    DueWindowAdvances(t, now, c.schedules[repo]);
  }

  /** A tick asks only about a window that was due. */
  ghost predicate AsksDue(c: Settings, f: Flow) {
    f.scan.Asking? ==> f.scan.i < |c.repos| && WasDue(c, c.repos[f.scan.i], f.scan.windowStart, f.now)
  }

  /** Nothing can bring a window of the repository up to this one back: not what is recorded, running or asked for. */
  ghost predicate Floor(c: Settings, f: Flow, repo: string, start: int) {
    && repo in f.lastRun && start <= f.lastRun[repo].windowStart
    && WasDue(c, repo, f.lastRun[repo].windowStart, f.now)
    && (repo in f.live ==> start <= f.live[repo] && WasDue(c, repo, f.live[repo], f.now))
    && (f.scan.Asking? && f.scan.i < |c.repos| && c.repos[f.scan.i] == repo ==> start < f.scan.windowStart)
  }

  lemma LookKeepsFloor(c: Settings, f: Flow, aborted: bool, repo: string, start: int)
    requires c.Valid() && f.scan.At? && Floor(c, f, repo, start)
    ensures Floor(c, Looked(c, f, aborted), repo, start) && AsksDue(c, Looked(c, f, aborted))
  {
    LookAsksDue(c, f, aborted);
    if f.scan.i < |c.repos| && c.repos[f.scan.i] == repo && DueWindow(f.now, c.schedules[repo]).Some? {
      NowIsLast(c, repo, f.lastRun[repo].windowStart, f.now);
    }
  }

  lemma LookAsksDue(c: Settings, f: Flow, aborted: bool)
    requires c.Valid() && f.scan.At?
    ensures AsksDue(c, Looked(c, f, aborted))
  {
    var f' := Looked(c, f, aborted);
    if f'.scan.Asking? {
      assert IsDue(c.schedules[c.repos[f.scan.i]], f.now, f'.scan.windowStart);
    }
  }

  lemma StepKeepsAsks(c: Settings, f: Flow, step: Step)
    requires c.Valid() && Enabled(c, f, step) && AsksDue(c, f)
    ensures AsksDue(c, Next(c, f, step)) && f.now <= Next(c, f, step).now
  {
    if step.Look? {
      LookAsksDue(c, f, step.aborted);
    } else if step.Wait? && f.scan.Asking? {
      DueStays(c, c.repos[f.scan.i], f.scan.windowStart, f.now, step.until);
    }
  }

  /** A floor stands for ever, and what is accepted from then on lies above it. */
  lemma StepKeepsFloor(c: Settings, f: Flow, step: Step, repo: string, start: int)
    requires c.Valid() && Enabled(c, f, step) && AsksDue(c, f) && Floor(c, f, repo, start)
    ensures var f' := Next(c, f, step);
      && Floor(c, f', repo, start)
      && (f'.accepted == f.accepted
          || (|f'.accepted| == |f.accepted| + 1 && f.accepted <= f'.accepted
              && (f'.accepted[|f.accepted|].0 == repo ==> start < f'.accepted[|f.accepted|].1)))
  {
    match step {
      case Wait(until) =>
        DueStays(c, repo, f.lastRun[repo].windowStart, f.now, until);
        if repo in f.live {
          DueStays(c, repo, f.live[repo], f.now, until);
        }
      case Look(aborted) => LookKeepsFloor(c, f, aborted, repo, start);
      case Begin =>
      case Answer(_, _) =>
      case Record(_, _) =>
      case End(_) =>
      case Crash =>
      case Recover =>
    }
  }

  /** Once a floor stands, no run accepts a job of the repository for that window or one before it. */
  lemma {:induction false} FloorStands(c: Settings, f: Flow, steps: seq<Step>, repo: string, start: int)
    requires c.Valid() && ValidRun(c, f, steps) && AsksDue(c, f) && Floor(c, f, repo, start)
    ensures var g := After(c, f, steps);
      && Floor(c, g, repo, start) && f.accepted <= g.accepted
      && forall k :: |f.accepted| <= k < |g.accepted| && g.accepted[k].0 == repo ==> start < g.accepted[k].1
    decreases |steps|
  {
    if steps != [] {
      StepKeepsAsks(c, f, steps[0]);
      StepKeepsFloor(c, f, steps[0], repo, start);
      FloorStands(c, Next(c, f, steps[0]), steps[1..], repo, start);
    }
  }

  /** Every job accepted so far is a floor, and later ones of its repository are of later windows. */
  ghost predicate Inv(c: Settings, f: Flow) {
    && AsksDue(c, f)
    && (forall k :: 0 <= k < |f.accepted| ==> Floor(c, f, f.accepted[k].0, f.accepted[k].1))
    && Increasing(f.accepted)
  }

  predicate Increasing(accepted: seq<(string, int)>) {
    forall j, k :: 0 <= j < k < |accepted| && accepted[j].0 == accepted[k].0 ==> accepted[j].1 < accepted[k].1
  }

  lemma StepKeepsInv(c: Settings, f: Flow, step: Step)
    requires c.Valid() && Enabled(c, f, step) && Inv(c, f)
    ensures Inv(c, Next(c, f, step))
  {
    var f' := Next(c, f, step);
    StepKeepsAsks(c, f, step);
    forall k | 0 <= k < |f'.accepted|
      ensures Floor(c, f', f'.accepted[k].0, f'.accepted[k].1)
      ensures k < |f.accepted| ==> f'.accepted[k] == f.accepted[k]
      ensures k >= |f.accepted| ==> forall j :: 0 <= j < k && f'.accepted[j].0 == f'.accepted[k].0 ==> f'.accepted[j].1 < f'.accepted[k].1
    {
      if k < |f.accepted| {
        StepKeepsFloor(c, f, step, f.accepted[k].0, f.accepted[k].1);
      }
    }
  }

  lemma {:induction false} RunKeepsInv(c: Settings, f: Flow, steps: seq<Step>)
    requires c.Valid() && ValidRun(c, f, steps) && Inv(c, f)
    ensures Inv(c, After(c, f, steps))
    decreases |steps|
  {
    if steps != [] {
      StepKeepsInv(c, f, steps[0]);
      RunKeepsInv(c, Next(c, f, steps[0]), steps[1..]);
    }
  }

  /**
   * Over every run from a start with no job, whatever is recorded, through late
   * jobs, crashes and restarts: a repository and window start are accepted at
   * most once, and the windows of a repository only go forward.
   */
  lemma AtMostOncePerWindow(c: Settings, now: int, lastRun: map<string, Run>, steps: seq<Step>)
    requires c.Valid() && ValidRun(c, Flow(now, lastRun, map[], Idle, []), steps)
    ensures var accepted := After(c, Flow(now, lastRun, map[], Idle, []), steps).accepted;
      && (forall j, k :: 0 <= j < k < |accepted| ==> accepted[j] != accepted[k])
      && Increasing(accepted)
  {
    RunKeepsInv(c, Flow(now, lastRun, map[], Idle, []), steps);
  }

  /**
   * A window passed over while no job of the repository is live is lost: the
   * record made before the engine was asked keeps every later tick away.
   */
  lemma RefusedIsLost(c: Settings, f: Flow, room: bool, listing: Listing, steps: seq<Step>)
    requires c.Valid() && AsksDue(c, f) && Enabled(c, f, Answer(listing, room)) && !listing.Unlisted?
    requires c.repos[f.scan.i] !in f.live && (listing.StillOpen? || !room)
    requires ValidRun(c, Next(c, f, Answer(listing, room)), steps)
    ensures var repo := c.repos[f.scan.i];
      var g := After(c, Next(c, f, Answer(listing, room)), steps);
      && |f.accepted| <= |g.accepted|
      && forall k :: |f.accepted| <= k < |g.accepted| && g.accepted[k].0 == repo ==> f.scan.windowStart < g.accepted[k].1
  {
    var repo, start := c.repos[f.scan.i], f.scan.windowStart;
    var f' := Next(c, f, Answer(listing, room));
    StepKeepsAsks(c, f, Answer(listing, room));
    assert Floor(c, f', repo, start);
    FloorStands(c, f', steps, repo, start);
  }

  // ----- When a window that was recorded can still be accepted -----

  /** A job of the repository and window is accepted on the way. */
  ghost predicate Accepts(c: Settings, f: Flow, steps: seq<Step>, repo: string, start: int)
    requires c.Valid()
  {
    && ValidRun(c, f, steps)
    && var g := After(c, f, steps);
       exists k :: |f.accepted| <= k < |g.accepted| && g.accepted[k] == (repo, start)
  }

  /** What is asked about a repository was due at some time since then. */
  ghost predicate AsksSince(c: Settings, f: Flow, repo: string, since: int)
    requires repo in c.schedules
  {
    && since <= f.now
    && (f.scan.Asking? && f.scan.i < |c.repos| && c.repos[f.scan.i] == repo ==>
          exists t :: since <= t && IsDue(c.schedules[repo], t, f.scan.windowStart))
  }

  lemma StepAsksSince(c: Settings, f: Flow, step: Step, repo: string, since: int)
    requires c.Valid() && repo in c.schedules && Enabled(c, f, step) && AsksSince(c, f, repo, since)
    ensures AsksSince(c, Next(c, f, step), repo, since)
    ensures var f' := Next(c, f, step);
      f.accepted <= f'.accepted && forall k :: |f.accepted| <= k < |f'.accepted| && f'.accepted[k].0 == repo ==>
        exists t :: since <= t && IsDue(c.schedules[repo], t, f'.accepted[k].1)
  {
    if step.Look? {
      var f' := Looked(c, f, step.aborted);
      if f'.scan.Asking? && c.repos[f'.scan.i] == repo {
        assert IsDue(c.schedules[repo], f.now, f'.scan.windowStart);
      }
    }
  }

  lemma {:induction false} AcceptedWasDue(c: Settings, f: Flow, steps: seq<Step>, repo: string, since: int)
    requires c.Valid() && repo in c.schedules && ValidRun(c, f, steps) && AsksSince(c, f, repo, since)
    ensures var g := After(c, f, steps);
      f.accepted <= g.accepted && forall k :: |f.accepted| <= k < |g.accepted| && g.accepted[k].0 == repo ==>
        exists t :: since <= t && IsDue(c.schedules[repo], t, g.accepted[k].1)
    decreases |steps|
  {
    if steps != [] {
      StepAsksSince(c, f, steps[0], repo, since);
      AcceptedWasDue(c, Next(c, f, steps[0]), steps[1..], repo, since);
    }
  }

  /** Only repositories of the list are accepted. */
  lemma {:induction false} AcceptedIsListed(c: Settings, f: Flow, steps: seq<Step>, repo: string)
    requires c.Valid() && ValidRun(c, f, steps) && repo !in c.repos
    ensures var g := After(c, f, steps);
      f.accepted <= g.accepted && forall k :: |f.accepted| <= k < |g.accepted| ==> g.accepted[k].0 != repo
    decreases |steps|
  {
    if steps != [] {
      AcceptedIsListed(c, Next(c, f, steps[0]), steps[1..], repo);
    }
  }

  lemma Cons(c: Settings, f: Flow, step: Step, rest: seq<Step>)
    requires c.Valid() && Enabled(c, f, step) && ValidRun(c, Next(c, f, step), rest)
    ensures ValidRun(c, f, [step] + rest) && After(c, f, [step] + rest) == After(c, Next(c, f, step), rest)
  {
    assert ([step] + rest)[1..] == rest;
  }

  /** A tick passes over the repositories before one, however it finds them, and comes to it. */
  lemma {:induction false} TickComesTo(c: Settings, f: Flow, from: nat, i: nat) returns (steps: seq<Step>)
    requires c.Valid() && f.scan == At(from) && from <= i < |c.repos|
    ensures ValidRun(c, f, steps) && After(c, f, steps) == f.(scan := At(i))
    decreases i - from
  {
    if from == i {
      steps := [];
    } else {
      var looked := Next(c, f, Look(false));
      if looked.scan.Asking? {
        var passed := Next(c, looked, Answer(Unlisted, false));
        var rest := TickComesTo(c, passed, from + 1, i);
        Cons(c, looked, Answer(Unlisted, false), rest);
        Cons(c, f, Look(false), [Answer(Unlisted, false)] + rest);
        steps := [Look(false)] + ([Answer(Unlisted, false)] + rest);
      } else {
        var rest := TickComesTo(c, looked, from + 1, i);
        Cons(c, f, Look(false), rest);
        steps := [Look(false)] + rest;
      }
    }
  }

  /** At a repository without a job, whose window is due and not recorded: it is accepted. */
  lemma AcceptsHere(c: Settings, f: Flow, i: nat, start: int)
    requires c.Valid() && i < |c.repos| && f.scan == At(i) && c.repos[i] !in f.live
    requires IsDue(c.schedules[c.repos[i]], f.now, start)
    requires c.repos[i] in f.lastRun ==> f.lastRun[c.repos[i]].windowStart != start
    ensures var steps := [Look(false), Answer(NoneOpen, true)];
      ValidRun(c, f, steps) && After(c, f, steps).accepted == f.accepted + [(c.repos[i], start)]
  {
    var looked := Next(c, f, Look(false));
    Cons(c, looked, Answer(NoneOpen, true), []);
    Cons(c, f, Look(false), [Answer(NoneOpen, true)]);
    assert [Look(false)] + [Answer(NoneOpen, true)] == [Look(false), Answer(NoneOpen, true)];
  }

  lemma {:induction false} Joined(c: Settings, f: Flow, first: seq<Step>, second: seq<Step>)
    requires c.Valid() && ValidRun(c, f, first) && ValidRun(c, After(c, f, first), second)
    ensures ValidRun(c, f, first + second) && After(c, f, first + second) == After(c, After(c, f, first), second)
    decreases |first|
  {
    if first == [] {
      assert first + second == second;
    } else {
      Joined(c, Next(c, f, first[0]), first[1..], second);
      assert (first + second)[1..] == first[1..] + second;
    }
  }

  /** Between ticks, with nothing of the repository live: a due window that is not recorded can be accepted. */
  lemma NextTickAccepts(c: Settings, f: Flow, i: nat, start: int) returns (steps: seq<Step>)
    requires c.Valid() && i < |c.repos| && f.scan.Idle? && c.repos[i] !in f.live
    requires IsDue(c.schedules[c.repos[i]], f.now, start)
    requires c.repos[i] in f.lastRun ==> f.lastRun[c.repos[i]].windowStart != start
    ensures ValidRun(c, f, steps) && After(c, f, steps).accepted == f.accepted + [(c.repos[i], start)]
  {
    var begun := Next(c, f, Begin);
    var walk := TickComesTo(c, begun, 0, i);
    AcceptsHere(c, begun.(scan := At(i)), i, start);
    Joined(c, begun, walk, [Look(false), Answer(NoneOpen, true)]);
    Cons(c, f, Begin, walk + [Look(false), Answer(NoneOpen, true)]);
    steps := [Begin] + (walk + [Look(false), Answer(NoneOpen, true)]);
  }

  /** The late job ends under its own window, and the next tick asks again. */
  lemma LateJobGivesItBack(c: Settings, f: Flow, i: nat, start: int, t: int) returns (steps: seq<Step>)
    requires c.Valid() && f.scan.Idle? && i < |c.repos| && c.repos[i] in f.live && f.live[c.repos[i]] < start
    requires f.now <= t && IsDue(c.schedules[c.repos[i]], t, start)
    ensures ValidRun(c, f, steps) && After(c, f, steps).accepted == f.accepted + [(c.repos[i], start)]
  {
    var repo := c.repos[i];
    var later := Next(c, f, Wait(t));
    var recorded := Next(c, later, Record(repo, Ready));
    var ended := Next(c, recorded, End(repo));
    var rest := NextTickAccepts(c, ended, i, start);
    Cons(c, recorded, End(repo), rest);
    Cons(c, later, Record(repo, Ready), [End(repo)] + rest);
    Cons(c, f, Wait(t), [Record(repo, Ready)] + ([End(repo)] + rest));
    steps := [Wait(t)] + ([Record(repo, Ready)] + ([End(repo)] + rest));
  }

  /**
   * Between ticks, a window recorded for a repository can still be accepted
   * exactly if the repository is on the list, a job of an earlier window of it
   * is live, and the window is or will be due: for then that job, when it ends,
   * records its own window over it.
   */
  lemma StillAcceptedIff(c: Settings, f: Flow, repo: string)
    requires c.Valid() && f.scan.Idle? && repo in f.lastRun && WasDue(c, repo, f.lastRun[repo].windowStart, f.now)
    requires repo in f.live ==> WasDue(c, repo, f.live[repo], f.now)
    ensures var start := f.lastRun[repo].windowStart;
      (exists steps :: Accepts(c, f, steps, repo, start)) <==>
        (repo in c.repos && repo in f.live && f.live[repo] < start
         && exists t :: f.now <= t && IsDue(c.schedules[repo], t, start))
  {
    var start := f.lastRun[repo].windowStart;
    if steps :| Accepts(c, f, steps, repo, start) {
      var g := After(c, f, steps);
      var k :| |f.accepted| <= k < |g.accepted| && g.accepted[k] == (repo, start);
      if repo !in c.repos {
        AcceptedIsListed(c, f, steps, repo);
      }
      if !(repo in f.live && f.live[repo] < start) {
        FloorStands(c, f, steps, repo, start);
      }
      AcceptedWasDue(c, f, steps, repo, f.now);
    }
    if repo in c.repos && repo in f.live && f.live[repo] < start && exists t :: f.now <= t && IsDue(c.schedules[repo], t, start) {
      var i :| 0 <= i < |c.repos| && c.repos[i] == repo;
      var t :| f.now <= t && IsDue(c.schedules[repo], t, start);
      var steps := LateJobGivesItBack(c, f, i, start, t);
      assert After(c, f, steps).accepted[|f.accepted|] == (repo, start);
      assert Accepts(c, f, steps, repo, start);
    }
  }

  /** The flow as the object `createDepsFlow` returns, with the store and engine it is built on. */
  class DepsFlow {
    const settings: Settings
    var now: int
    var lastRun: map<string, Run>
    var live: map<string, int>
    var scan: Scan
    ghost var accepted: seq<(string, int)>

    ghost function View(): Flow
      reads this
    {
      Flow(now, lastRun, live, scan, accepted)
    }

    constructor (settings: Settings, now: int, lastRun: map<string, Run>)
      ensures this.settings == settings && View() == Flow(now, lastRun, map[], Idle, [])
    {
      this.settings, this.now, this.lastRun, live, scan, accepted := settings, now, lastRun, map[], Idle, [];
    }

    method LookAt(aborted: bool)
      requires settings.Valid() && scan.At?
      modifies this`scan
      ensures View() == Next(settings, old(View()), Look(aborted))
    {
      if |settings.repos| <= scan.i || aborted {
        scan := Idle;
        return;
      }
      var repo := settings.repos[scan.i];
      var window := DueWindow(now, settings.schedules[repo]);
      if window.None? {
        scan := At(scan.i + 1);
        return;
      }
      if repo in lastRun && lastRun[repo].windowStart == window.value.start {
        scan := At(scan.i + 1);
        return;
      }
      scan := Asking(scan.i, window.value.start);
    }

    method RecordRun(repo: string, windowStart: int, upshot: Upshot)
      modifies this`lastRun
      ensures lastRun == old(lastRun)[repo := Run(windowStart, upshot)]
    {
      lastRun := lastRun[repo := Run(windowStart, upshot)];
    }

    method Listed(listing: Listing, room: bool)
      requires settings.Valid() && scan.Asking? && scan.i < |settings.repos|
      modifies this
      ensures View() == Next(settings, old(View()), Answer(listing, room))
    {
      var repo, start := settings.repos[scan.i], scan.windowStart;
      scan := At(scan.i + 1);
      match listing {
        case Unlisted =>
        case StillOpen => RecordRun(repo, start, Skipped);
        case NoneOpen => var taken := Upgrade(repo, start, room);
      }
    }

    method Upgrade(repo: string, start: int, room: bool) returns (taken: bool)
      modifies this`lastRun, this`live, this`accepted
      ensures lastRun == old(lastRun)[repo := Run(start, Running)]
      ensures taken == (room && repo !in old(live))
      ensures live == if taken then old(live)[repo := start] else old(live)
      ensures accepted == if taken then old(accepted) + [(repo, start)] else old(accepted)
    {
      RecordRun(repo, start, Running);
      taken := room && repo !in live;
      if taken {
        live := live[repo := start];
        accepted := accepted + [(repo, start)];
      }
    }

    /** A job records under the window it was made for, however late. */
    method JobRecords(repo: string, upshot: Upshot)
      requires settings.Valid() && repo in live
      modifies this`lastRun
      ensures View() == Next(settings, old(View()), Record(repo, upshot))
    {
      RecordRun(repo, live[repo], upshot);
    }

    method JobEnds(repo: string)
      requires settings.Valid() && repo in live
      modifies this`live
      ensures View() == Next(settings, old(View()), End(repo))
    {
      live := live - {repo};
    }
  }
}
