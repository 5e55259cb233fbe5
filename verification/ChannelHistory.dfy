/**
 * A channel with the whole history of its calls: call i of `send` is sends[i],
 * call i of `receive` is receives[i]; their promises are settled as far as now.
 */
module ChannelHistory {
  import opened Channels
  import opened Options

  datatype Promise = Waiting | Resolved | Rejected

  datatype SendCall<T> = SendCall(value: T, promise: Promise)

  datatype ReceiveCall<T> = Hanging | Delivered(value: T) | Finished

  datatype Tape<T> = Tape(chan: Chan<T>, sends: seq<SendCall<T>>, receives: seq<ReceiveCall<T>>)

  datatype Call<T> = DoSend(value: T) | DoReceive | DoClose

  function Blank<T>(capacity: Capacity): Tape<T> {
    Tape(Chan(capacity, [], [], [], false), [], [])
  }

  function Settle<T>(sends: seq<SendCall<T>>, calls: seq<nat>, promise: Promise): (r: seq<SendCall<T>>)
    ensures |r| == |sends|
    ensures forall i :: 0 <= i < |r| ==>
      r[i] == if i in calls then sends[i].(promise := promise) else sends[i]
  {
    seq(|sends|, i requires 0 <= i < |sends| =>
      if i in calls then sends[i].(promise := promise) else sends[i])
  }

  function Finish<T>(receives: seq<ReceiveCall<T>>, calls: seq<nat>): (r: seq<ReceiveCall<T>>)
    ensures |r| == |receives|
    ensures forall i :: 0 <= i < |r| ==> r[i] == if i in calls then Finished else receives[i]
  {
    seq(|receives|, i requires 0 <= i < |receives| => if i in calls then Finished else receives[i])
  }

  function Deliver<T>(receives: seq<ReceiveCall<T>>, call: nat, value: T): seq<ReceiveCall<T>> {
    if call < |receives| then receives[call := Delivered(value)] else receives
  }

  function TapeSend<T>(t: Tape<T>, value: T): Tape<T> {
    var Sent(chan, fate) := Send(t.chan, |t.sends|, value);
    match fate
    case Handed(r) =>
      Tape(chan, t.sends + [SendCall(value, Resolved)], Deliver(t.receives, r, value))
    case Stored => Tape(chan, t.sends + [SendCall(value, Resolved)], t.receives)
    case Waits => Tape(chan, t.sends + [SendCall(value, Waiting)], t.receives)
    case Refused => Tape(chan, t.sends + [SendCall(value, Rejected)], t.receives)
  }

  function TapeReceive<T>(t: Tape<T>): Tape<T> {
    var Received(chan, fate, resumed) := Receive(t.chan, |t.receives|);
    match fate
    case Got(v) => Tape(chan, Settle(t.sends, resumed, Resolved), t.receives + [Delivered(v)])
    case Ended => Tape(chan, t.sends, t.receives + [Finished])
    case Parked => Tape(chan, t.sends, t.receives + [Hanging])
  }

  function TapeClose<T>(t: Tape<T>): Tape<T> {
    var Closed(chan, ended, refused) := Close(t.chan);
    Tape(chan, Settle(t.sends, refused, Rejected), Finish(t.receives, ended))
  }

  function Apply<T>(t: Tape<T>, call: Call<T>): Tape<T> {
    match call
    case DoSend(v) => TapeSend(t, v)
    case DoReceive => TapeReceive(t)
    case DoClose => TapeClose(t)
  }

  function Run<T>(t: Tape<T>, calls: seq<Call<T>>): Tape<T>
    decreases |calls|
  {
    if calls == [] then t else Apply(Run(t, calls[..|calls| - 1]), calls[|calls| - 1])
  }

  /** The i-th receive that got a value got the value of the i-th send, and that send resolved. */
  ghost predicate Fifo<T>(t: Tape<T>) {
    forall i :: 0 <= i < |t.receives| && t.receives[i].Delivered? ==>
      i < |t.sends| && t.sends[i] == SendCall(t.receives[i].value, Resolved)
  }

  function DeliveredValues<T>(receives: seq<ReceiveCall<T>>): seq<T> {
    if receives == [] then []
    else if receives[0].Delivered? then [receives[0].value] + DeliveredValues(receives[1..])
    else DeliveredValues(receives[1..])
  }

  function ValuesWith<T>(sends: seq<SendCall<T>>, promise: Promise): seq<T> {
    if sends == [] then []
    else if sends[0].promise == promise then [sends[0].value] + ValuesWith(sends[1..], promise)
    else ValuesWith(sends[1..], promise)
  }

  /** How many receives have been given a value, if those come first. */
  ghost predicate DeliveredPrefix<T>(t: Tape<T>, d: nat) {
    && d <= |t.receives|
    && (forall i :: 0 <= i < d ==> t.receives[i].Delivered?)
    && (forall i :: d <= i < |t.receives| ==> t.receives[i] == if t.chan.closed then Finished else Hanging)
  }

  /** The first r sends are resolved; the rest wait while open and are rejected once closed. */
  ghost predicate ResolvedPrefix<T>(t: Tape<T>, r: nat) {
    && r <= |t.sends|
    && (forall i :: 0 <= i < r ==> t.sends[i].promise == Resolved)
    && (forall i :: r <= i < |t.sends| ==>
          t.sends[i].promise == if t.chan.closed then Rejected else Waiting)
  }

  /** What was delivered, and then what is buffered, is what was sent, in order. */
  ghost predicate Conserved<T>(t: Tape<T>, d: nat, r: nat)
    requires DeliveredPrefix(t, d) && ResolvedPrefix(t, r)
  {
    && r == d + |t.chan.buffer|
    && (forall i :: 0 <= i < d ==> t.receives[i].value == t.sends[i].value)
    && (forall i :: 0 <= i < |t.chan.buffer| ==> t.chan.buffer[i] == t.sends[d + i].value)
  }

  /** While open, the waiting calls are the unsettled ones; nothing waits that could go on. */
  ghost predicate Waiters<T>(t: Tape<T>, d: nat, r: nat)
    requires DeliveredPrefix(t, d) && ResolvedPrefix(t, r)
  {
    && (t.chan.buffer != [] ==> |t.receives| == d)
    && if t.chan.closed then t.chan.senders == [] && t.chan.receivers == []
    else
      && |t.chan.senders| == |t.sends| - r
      && (forall i :: 0 <= i < |t.chan.senders| ==>
            t.chan.senders[i] == Sender(r + i, t.sends[r + i].value))
      && |t.chan.receivers| == |t.receives| - d
      && (forall i :: 0 <= i < |t.chan.receivers| ==> t.chan.receivers[i] == d + i)
      && (t.chan.receivers != [] ==> t.chan.senders == [])
      && (t.chan.senders != [] ==> !t.chan.HasRoom())
  }

  /**
   * The whole account: the first d sends are the ones delivered, in order; the
   * next |buffer| are buffered; the rest wait as the senders.
   */
  ghost predicate Account<T>(t: Tape<T>, d: nat, r: nat) {
    && DeliveredPrefix(t, d)
    && ResolvedPrefix(t, r)
    && Conserved(t, d, r)
    && Waiters(t, d, r)
    && (t.chan.capacity.Bounded? ==> |t.chan.buffer| <= t.chan.capacity.limit)
  }

  /** A capacity the channel works with: anything but zero. */
  predicate Usable(capacity: Capacity) {
    capacity.Bounded? ==> capacity.limit >= 1
  }

  /** A run of consecutive call numbers contains exactly the numbers in its range. */
  lemma Consecutive(calls: seq<nat>, from: nat)
    requires forall i :: 0 <= i < |calls| ==> calls[i] == from + i
    ensures forall c: nat :: c in calls <==> from <= c < from + |calls|
  {
    forall c: nat
      ensures c in calls <==> from <= c < from + |calls|
    {
      if from <= c < from + |calls| {
        assert calls[c - from] == c;
      }
    }
  }

  /** Taking from a buffer with nobody waiting behind it. */
  lemma ReceiveWithoutSenders<T>(t: Tape<T>, d: nat, r: nat)
    requires Account(t, d, r) && |t.chan.buffer| > 0 && t.chan.senders == []
    ensures TapeReceive(t) == Tape(t.chan.(buffer := t.chan.buffer[1..]), t.sends, t.receives + [Delivered(t.chan.buffer[0])])
    ensures Account(TapeReceive(t), d + 1, r)
  {
    var shorter := t.chan.(buffer := t.chan.buffer[1..]);
    assert Calls(shorter.senders[..0]) == [];
    assert Settle(t.sends, [], Resolved) == t.sends;
    assert Refilled(shorter) == shorter;
  }

  /** Taking from a full buffer lets in exactly one waiting sender: the oldest. */
  lemma ReceiveLetsInOne<T>(t: Tape<T>, d: nat, r: nat)
    requires Usable(t.chan.capacity) && Account(t, d, r) && t.chan.senders != []
    ensures r < |t.sends| && |t.chan.buffer| > 0
    ensures TapeReceive(t) == Tape(
              t.chan.(buffer := t.chan.buffer[1..] + [t.sends[r].value], senders := t.chan.senders[1..]),
              t.sends[r := SendCall(t.sends[r].value, Resolved)],
              t.receives + [Delivered(t.chan.buffer[0])])
  {
    var shorter := t.chan.(buffer := t.chan.buffer[1..]);
    assert Fitting(shorter) == 1;
    assert Calls(t.chan.senders[..1]) == [r];
    assert Values(t.chan.senders[..1]) == [t.sends[r].value];
    assert Settle(t.sends, [r], Resolved) == t.sends[r := SendCall(t.sends[r].value, Resolved)];
  }

  lemma LettingOneInKeepsAccount<T>(t: Tape<T>, t': Tape<T>, d: nat, r: nat)
    requires Account(t, d, r) && t.chan.senders != [] && r < |t.sends| && |t.chan.buffer| > 0
    requires t' == Tape(
              t.chan.(buffer := t.chan.buffer[1..] + [t.sends[r].value], senders := t.chan.senders[1..]),
              t.sends[r := SendCall(t.sends[r].value, Resolved)],
              t.receives + [Delivered(t.chan.buffer[0])])
    ensures Account(t', d + 1, r + 1)
  {
    assert DeliveredPrefix(t', d + 1);
    assert ResolvedPrefix(t', r + 1);
    assert Conserved(t', d + 1, r + 1);
  }

  /** A receive on an empty buffer ends if the channel is closed, and waits if not. */
  lemma EmptyReceiveKeepsAccount<T>(t: Tape<T>, d: nat, r: nat)
    requires Usable(t.chan.capacity) && Account(t, d, r) && |t.chan.buffer| == 0
    ensures Account(TapeReceive(t), d, r)
  {
    assert t.chan.senders == [];
  }

  lemma ReceiveKeepsAccount<T>(t: Tape<T>, d: nat, r: nat) returns (d': nat, r': nat)
    requires Usable(t.chan.capacity) && Account(t, d, r)
    ensures Account(TapeReceive(t), d', r')
  {
    if t.chan.senders != [] {
      d', r' := d + 1, r + 1;
      ReceiveLetsInOne(t, d, r);
      LettingOneInKeepsAccount(t, TapeReceive(t), d, r);
    } else if |t.chan.buffer| > 0 {
      d', r' := d + 1, r;
      ReceiveWithoutSenders(t, d, r);
    } else {
      d', r' := d, r;
      EmptyReceiveKeepsAccount(t, d, r);
    }
  }

  lemma CloseKeepsAccount<T>(t: Tape<T>, d: nat, r: nat)
    requires Usable(t.chan.capacity) && Account(t, d, r)
    ensures Account(TapeClose(t), d, r)
  {
    if !t.chan.closed {
      Consecutive(Calls(t.chan.senders), r);
      Consecutive(t.chan.receivers, d);
    }
  }

  lemma SendKeepsAccount<T>(t: Tape<T>, v: T, d: nat, r: nat) returns (d': nat, r': nat)
    requires Usable(t.chan.capacity) && Account(t, d, r)
    ensures Account(TapeSend(t, v), d', r')
  {
    var fate := Send(t.chan, |t.sends|, v).fate;
    d' := if fate.Handed? then d + 1 else d;
    r' := if fate.Handed? || fate.Stored? then r + 1 else r;
  }

  lemma ApplyKeepsAccount<T>(t: Tape<T>, call: Call<T>, d: nat, r: nat) returns (d': nat, r': nat)
    requires Usable(t.chan.capacity) && Account(t, d, r)
    ensures Account(Apply(t, call), d', r') && Apply(t, call).chan.capacity == t.chan.capacity
  {
    match call {
      case DoSend(v) => d', r' := SendKeepsAccount(t, v, d, r);
      case DoReceive => d', r' := ReceiveKeepsAccount(t, d, r);
      case DoClose =>
        d', r' := d, r;
        CloseKeepsAccount(t, d, r);
    }
  }

  /** Every run of calls on a usable channel keeps the account. */
  lemma {:induction false} RunKeepsAccount<T>(capacity: Capacity, calls: seq<Call<T>>) returns (d: nat, r: nat)
    requires Usable(capacity)
    ensures Account(Run(Blank(capacity), calls), d, r)
    ensures Run(Blank<T>(capacity), calls).chan.capacity == capacity
    decreases |calls|
  {
    if calls == [] {
      d, r := 0, 0;
    } else {
      d, r := RunKeepsAccount(capacity, calls[..|calls| - 1]);
      d, r := ApplyKeepsAccount(Run(Blank(capacity), calls[..|calls| - 1]), calls[|calls| - 1], d, r);
    }
  }

  lemma {:induction false} DeliveredPrefixValues<T>(receives: seq<ReceiveCall<T>>, d: nat)
    requires d <= |receives|
    requires forall i :: 0 <= i < |receives| ==> (receives[i].Delivered? <==> i < d)
    ensures |DeliveredValues(receives)| == d
    ensures forall i :: 0 <= i < d ==> DeliveredValues(receives)[i] == receives[i].value
  {
    if receives != [] {
      DeliveredPrefixValues(receives[1..], if d == 0 then 0 else d - 1);
    }
  }

  /** The values of a stretch [lo, hi) that is exactly the sends with one fate. */
  lemma {:induction false} StretchValues<T>(sends: seq<SendCall<T>>, promise: Promise, lo: nat, hi: nat)
    requires lo <= hi <= |sends|
    requires forall i :: 0 <= i < |sends| ==> (sends[i].promise == promise <==> lo <= i < hi)
    ensures |ValuesWith(sends, promise)| == hi - lo
    ensures forall i :: 0 <= i < hi - lo ==> ValuesWith(sends, promise)[i] == sends[lo + i].value
  {
    if sends != [] {
      StretchValues(sends[1..], promise, if lo == 0 then 0 else lo - 1, if hi == 0 then 0 else hi - 1);
    }
  }

  /**
   * First in, first out, whatever the interleaving of calls; and nothing is
   * lost, doubled or invented: what was delivered and then what is buffered is
   * exactly what the resolved sends carried, and what waits is exactly what the
   * waiting sends carry. A rejected value is in neither.
   */
  lemma FifoAndConservation<T>(capacity: Capacity, calls: seq<Call<T>>)
    requires Usable(capacity)
    ensures var t := Run(Blank(capacity), calls);
      && Fifo(t)
      && DeliveredValues(t.receives) + t.chan.buffer == ValuesWith(t.sends, Resolved)
      && Values(t.chan.senders) == ValuesWith(t.sends, Waiting)
      && (!t.chan.closed ==> ValuesWith(t.sends, Rejected) == [])
      && (t.chan.closed ==> ValuesWith(t.sends, Waiting) == [])
  {
    var t := Run(Blank(capacity), calls);
    var d, r := RunKeepsAccount(capacity, calls);
    DeliveredPrefixValues(t.receives, d);
    StretchValues(t.sends, Resolved, 0, r);
    if t.chan.closed {
      StretchValues(t.sends, Waiting, |t.sends|, |t.sends|);
    } else {
      StretchValues(t.sends, Waiting, r, |t.sends|);
      StretchValues(t.sends, Rejected, |t.sends|, |t.sends|);
    }
  }

  /** With no room at all, a value sent to a waiting receiver overtakes the one that waited first. */
  lemma ZeroCapacityOvertakes()
    ensures !Fifo(Run(Blank(Bounded(0)), [DoSend(1), DoReceive, DoSend(2)]))
  {
    var t0 := Blank<int>(Bounded(0));
    var calls := [DoSend(1), DoReceive, DoSend(2)];
    assert calls[..2] == [DoSend(1), DoReceive] && calls[..2][..1] == [DoSend(1)] && calls[..1][..0] == [];
    var t1 := TapeSend(t0, 1);
    var t2 := TapeReceive(t1);
    var t3 := TapeSend(t2, 2);
    assert Run(t0, [DoSend(1)]) == t1;
    assert Run(t0, [DoSend(1), DoReceive]) == t2;
    assert Run(t0, calls) == t3;
    assert t3.receives[0] == Delivered(2) && t3.sends[0].value == 1;
  }

  /** The channel is first-in first-out for every run exactly when its capacity is not zero. */
  lemma FifoExactlyWhenUsable(capacity: Capacity)
    ensures (forall calls: seq<Call<int>> :: Fifo(Run(Blank(capacity), calls))) <==> Usable(capacity)
  {
    if Usable(capacity) {
      forall calls: seq<Call<int>>
        ensures Fifo(Run(Blank(capacity), calls))
      {
        FifoAndConservation(capacity, calls);
      }
    } else {
      ZeroCapacityOvertakes();
    }
  }

  /** The channel object: closure variables that its three operations change in place. */
  class Channel<T> {
    const capacity: Capacity
    var buffer: seq<T>
    var receivers: seq<nat>
    var senders: seq<Sender<T>>
    var closed: bool
    // A call's number stands for the promise it returned.
    var sendCalls: nat
    var receiveCalls: nat
    ghost var calls: seq<Call<T>>

    function View(): Chan<T>
      reads this
    {
      Chan(capacity, buffer, receivers, senders, closed)
    }

    ghost function History(): Tape<T>
      reads this
    {
      Run(Blank(capacity), calls)
    }

    ghost predicate Valid()
      reads this
    {
      View() == History().chan && sendCalls == |History().sends| && receiveCalls == |History().receives|
    }

    constructor (capacity: Capacity)
      ensures Valid() && this.capacity == capacity && calls == []
    {
      this.capacity := capacity;
      buffer, receivers, senders, closed := [], [], [], false;
      sendCalls, receiveCalls := 0, 0;
      calls := [];
    }

    method Refill() returns (resumed: seq<nat>)
      modifies this`buffer, this`senders
      ensures View() == Refilled(old(View()))
      ensures resumed == Calls(old(senders)[..Fitting(old(View()))])
    {
      resumed := [];
      ghost var n := 0;
      while View().HasRoom() && senders != []
        invariant n <= Fitting(old(View())) && senders == old(senders)[n..]
        invariant buffer == old(buffer) + Values(old(senders)[..n])
        invariant resumed == Calls(old(senders)[..n])
        decreases |senders|
      {
        var sender := senders[0];
        senders := senders[1..];
        buffer := buffer + [sender.value];
        resumed := resumed + [sender.call];
        n := n + 1;
      }
    }

    /** `handed` is the receive call the value went to, if one was waiting. */
    method Send(value: T) returns (promise: Promise, handed: Option<nat>)
      requires Valid()
      modifies this
      ensures Valid() && calls == old(calls) + [DoSend(value)]
      ensures |History().sends| == old(sendCalls) + 1 && History().sends[old(sendCalls)] == SendCall(value, promise)
      ensures handed.Some? <==> !old(closed) && old(receivers) != []
      ensures handed.Some? ==> handed.value == old(receivers)[0]
    {
      sendCalls := sendCalls + 1;
      calls := calls + [DoSend(value)];
      assert calls[..|calls| - 1] == old(calls);
      handed := None;
      if closed {
        promise := Rejected;
      } else if receivers != [] {
        handed := Some(receivers[0]);
        receivers := receivers[1..];
        promise := Resolved;
      } else if View().HasRoom() {
        buffer := buffer + [value];
        promise := Resolved;
      } else {
        senders := senders + [Sender(sendCalls - 1, value)];
        promise := Waiting;
      }
    }

    /** `resumed` are the send calls that resolve because this one made room. */
    method Receive() returns (result: ReceiveCall<T>, resumed: seq<nat>)
      requires Valid()
      modifies this
      ensures Valid() && calls == old(calls) + [DoReceive]
      ensures |History().receives| == old(receiveCalls) + 1 && History().receives[old(receiveCalls)] == result
      ensures History().sends == Settle(old(History().sends), resumed, Resolved)
    {
      receiveCalls := receiveCalls + 1;
      calls := calls + [DoReceive];
      assert calls[..|calls| - 1] == old(calls);
      resumed := [];
      assert Settle(old(History().sends), [], Resolved) == old(History().sends);
      if buffer != [] {
        result := Delivered(buffer[0]);
        buffer := buffer[1..];
        resumed := Refill();
      } else if closed {
        result := Finished;
      } else {
        receivers := receivers + [receiveCalls - 1];
        result := Hanging;
      }
    }

    /** `ended` and `refused` are the calls whose promises the close settles. */
    method Close() returns (ended: seq<nat>, refused: seq<nat>)
      requires Valid()
      modifies this
      ensures Valid() && calls == old(calls) + [DoClose] && closed
      ensures History().sends == Settle(old(History().sends), refused, Rejected)
      ensures History().receives == Finish(old(History().receives), ended)
    {
      calls := calls + [DoClose];
      assert calls[..|calls| - 1] == old(calls);
      ended, refused := [], [];
      if !closed {
        closed := true;
        ended, receivers := receivers, [];
        refused, senders := Calls(senders), [];
      }
    }
  }
}
