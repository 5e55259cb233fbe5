/** The bounded FIFO channel of pkg/common/src/channel.ts. */
module Channels {
  datatype Capacity = Unbounded | Bounded(limit: nat)

  /** A `send` that waits for room, named by the call that made it. */
  datatype Sender<T> = Sender(call: nat, value: T)

  /** The closure variables of a channel. Receivers are named by the caller. */
  datatype Chan<T> = Chan(
    capacity: Capacity,
    buffer: seq<T>,
    receivers: seq<nat>,
    senders: seq<Sender<T>>,
    closed: bool)
  {
    predicate HasRoom() {
      capacity.Unbounded? || |buffer| < capacity.limit
    }
  }

  /** What became of one `send` call, at the moment it was made. */
  datatype SendFate = Handed(receiver: nat) | Stored | Waits | Refused

  datatype Sent<T> = Sent(chan: Chan<T>, fate: SendFate)

  /** What became of one `receive` call; `resumed` are the senders it let in. */
  datatype ReceiveFate<T> = Got(value: T) | Ended | Parked

  datatype Received<T> = Received(chan: Chan<T>, fate: ReceiveFate<T>, resumed: seq<nat>)

  datatype Closed<T> = Closed(chan: Chan<T>, ended: seq<nat>, refused: seq<nat>)

  function Send<T>(c: Chan<T>, call: nat, value: T): Sent<T> {
    if c.closed then Sent(c, Refused)
    else if |c.receivers| > 0 then
      Sent(c.(receivers := c.receivers[1..]), Handed(c.receivers[0]))
    else if c.HasRoom() then Sent(c.(buffer := c.buffer + [value]), Stored)
    else Sent(c.(senders := c.senders + [Sender(call, value)]), Waits)
  }

  /** How many waiting senders fit into the buffer. */
  function Fitting<T>(c: Chan<T>): (k: nat)
    ensures k <= |c.senders|
  {
    if c.capacity.Unbounded? then |c.senders|
    else if c.capacity.limit <= |c.buffer| then 0
    else if c.capacity.limit - |c.buffer| < |c.senders| then c.capacity.limit - |c.buffer|
    else |c.senders|
  }

  function Values<T>(senders: seq<Sender<T>>): (vs: seq<T>)
    ensures |vs| == |senders|
  {
    seq(|senders|, i requires 0 <= i < |senders| => senders[i].value)
  }

  function Calls<T>(senders: seq<Sender<T>>): (cs: seq<nat>)
    ensures |cs| == |senders|
  {
    seq(|senders|, i requires 0 <= i < |senders| => senders[i].call)
  }

  function Refilled<T>(c: Chan<T>): Chan<T> {
    var k := Fitting(c);
    c.(buffer := c.buffer + Values(c.senders[..k]), senders := c.senders[k..])
  }

  function Receive<T>(c: Chan<T>, receiver: nat): Received<T> {
    if |c.buffer| > 0 then
      var shorter := c.(buffer := c.buffer[1..]);
      Received(Refilled(shorter), Got(c.buffer[0]), Calls(shorter.senders[..Fitting(shorter)]))
    else if c.closed then Received(c, Ended, [])
    else Received(c.(receivers := c.receivers + [receiver]), Parked, [])
  }

  function Close<T>(c: Chan<T>): Closed<T> {
    if c.closed then Closed(c, [], [])
    else Closed(c.(closed := true, receivers := [], senders := []), c.receivers, Calls(c.senders))
  }
}
