/** The reaction table of pkg/channel-review/src/reactions.ts. */
module Reactions {
  import opened Options

  datatype Reaction = Pending | InProgress | Approved | ChangesRequested | Comment | Failure

  /** The emoji id of each state, as configured. Two states may share an id. */
  datatype Ids = Ids(
    pending: string, inProgress: string, approved: string,
    changesRequested: string, comment: string, failure: string)
  {
    function Of(r: Reaction): string {
      match r
      case Pending => pending
      case InProgress => inProgress
      case Approved => approved
      case ChangesRequested => changesRequested
      case Comment => comment
      case Failure => failure
    }
  }

  datatype Op = Delete(id: string) | Put(id: string)

  function Successors(from: Option<Reaction>): set<Reaction> {
    match from
    case None => {Pending, Failure}
    case Some(Pending) => {InProgress, Failure}
    case Some(InProgress) => {Approved, ChangesRequested, Comment, Failure}
    case Some(_) => {}
  }

  predicate Allowed(from: Option<Reaction>, to: Reaction) {
    to in Successors(from)
  }

  /** The chat calls that take a message from one state to the next; an error if the table forbids it. */
  function Transition(from: Option<Reaction>, to: Reaction, ids: Ids): Result<seq<Op>, string> {
    if !Allowed(from, to) then Err("reaction transition is not allowed")
    else match from
      case None => Ok([Put(ids.Of(to))])
      case Some(r) => Ok([Delete(ids.Of(r)), Put(ids.Of(to))])
  }

  /** What one chat call does to the bot's reactions on a message. */
  function Perform(shown: set<string>, op: Op): set<string> {
    match op
    case Delete(id) => shown - {id}
    case Put(id) => shown + {id}
  }

  function PerformAll(shown: set<string>, ops: seq<Op>): set<string>
    decreases |ops|
  {
    if ops == [] then shown else PerformAll(Perform(shown, ops[0]), ops[1..])
  }

  /** The reactions a message shows in a state: its own one, or none before the first. */
  function Shows(state: Option<Reaction>, ids: Ids): set<string> {
    match state
    case None => {}
    case Some(r) => {ids.Of(r)}
  }

  /** A message begins as pending or with a failure; it can fail until it has a verdict; and a verdict or a failure is final. */
  lemma TableIs(from: Option<Reaction>, to: Reaction, ids: Ids)
    ensures Transition(from, to, ids).Ok? <==>
      match to
      case Pending => from == None
      case InProgress => from == Some(Pending)
      case Failure => from in {None, Some(Pending), Some(InProgress)}
      case _ => from == Some(InProgress)
  {
  }

  /** A transition replaces the reaction of the old state by that of the new one. */
  lemma TransitionShows(from: Option<Reaction>, to: Reaction, ids: Ids)
    requires Allowed(from, to)
    ensures Transition(from, to, ids).Ok?
    ensures PerformAll(Shows(from, ids), Transition(from, to, ids).value) == Shows(Some(to), ids)
  {
    var ops := Transition(from, to, ids).value;
    assert PerformAll(Shows(from, ids), ops) == PerformAll(Perform(Shows(from, ids), ops[0]), ops[1..]);
    if from.Some? {
      assert ops[1..] == [Put(ids.Of(to))];
      var bare := Perform(Shows(from, ids), ops[0]);
      assert PerformAll(bare, ops[1..]) == PerformAll(Perform(bare, ops[1]), ops[1..][1..]);
    }
  }
}
