// The state store of pkg/channel-review/src/state.ts: a copy of the state in memory, saved by a compare-and-swap
// on the revision of the row, on which any number of stores may be open.
module StateStore {
  import opened Options

  /** One open store. `base` is the state it last read from the row or wrote to it. */
  datatype Memory<D> = Memory(
    state: D,
    revision: nat,
    closed: bool,
    timer: bool,       // an event id waits to be saved
    lastSavedAt: int,
    base: D,
    failed: bool)      // some save of this store failed

  /** All the states the row ever held, by revision, and the stores open on it. */
  datatype World<D> = World(log: seq<D>, stores: seq<Memory<D>>)

  datatype Saved<D> = Saved(log: seq<D>, memory: Memory<D>, ok: bool)

  function Read<D>(log: seq<D>): Memory<D>
    requires log != []
  {
    Memory(log[|log| - 1], |log| - 1, false, false, 0, log[|log| - 1], false)
  }

  /** `save`: the row changes only if its revision is the store's. */
  function SaveOf<D>(log: seq<D>, m: Memory<D>, now: int): Saved<D> {
    var calm := m.(timer := false);
    if m.closed || m.revision + 1 != |log| then Saved(log, calm.(failed := true), false)
    else Saved(log + [m.state], calm.(revision := m.revision + 1, lastSavedAt := now, base := m.state), true)
  }

  /** Every setter but one: change the memory, then save. */
  function UpdateOf<D>(log: seq<D>, m: Memory<D>, change: D -> D, now: int): Saved<D> {
    SaveOf(log, m.(state := change(m.state)), now)
  }

  /** `setLastEventId` saves at most once in an interval; in between a timer is set. */
  function SetEventOf<D>(log: seq<D>, m: Memory<D>, change: D -> D, now: int, interval: int): Saved<D> {
    var changed := m.(state := change(m.state));
    if m.timer then Saved(log, changed, true)
    else if m.lastSavedAt + interval - now <= 0 then SaveOf(log, changed, now)
    else Saved(log, changed.(timer := true), true)
  }

  function FlushOf<D>(log: seq<D>, m: Memory<D>, now: int): Saved<D> {
    if m.timer then SaveOf(log, m, now) else Saved(log, m, true)
  }

  function CloseOf<D>(log: seq<D>, m: Memory<D>, now: int): Saved<D> {
    if m.closed then Saved(log, m, true)
    else
      var flushed := FlushOf(log, m, now);
      flushed.(memory := flushed.memory.(closed := true))
  }

  datatype Call<!D> =
    | Open
    | DoUpdate(store: nat, change: D -> D, now: int)
    | DoSetEvent(store: nat, change: D -> D, now: int, interval: int)
    | DoTimer(store: nat, now: int)
    | DoFlush(store: nat, now: int)
    | DoClose(store: nat, now: int)

  predicate CanCall<D>(w: World<D>, call: Call<D>) {
    w.log != [] && (call.Open? || (call.store < |w.stores| && (call.DoTimer? ==> w.stores[call.store].timer)))
  }

  function Outcome<D>(w: World<D>, call: Call<D>): Saved<D>
    requires CanCall(w, call) && !call.Open?
  {
    var m := w.stores[call.store];
    match call
    case DoUpdate(_, change, now) => UpdateOf(w.log, m, change, now)
    case DoSetEvent(_, change, now, interval) => SetEventOf(w.log, m, change, now, interval)
    case DoTimer(_, now) => SaveOf(w.log, m, now)
    case DoFlush(_, now) => FlushOf(w.log, m, now)
    case DoClose(_, now) => CloseOf(w.log, m, now)
  }

  function Called<D>(w: World<D>, call: Call<D>): World<D>
    requires CanCall(w, call)
  {
    if call.Open? then w.(stores := w.stores + [Read(w.log)])
    else
      var r := Outcome(w, call);
      World(r.log, w.stores[call.store := r.memory])
  }

  predicate CanCallAll<D>(w: World<D>, calls: seq<Call<D>>)
    decreases |calls|
  {
    calls == [] || (CanCall(w, calls[0]) && CanCallAll(Called(w, calls[0]), calls[1..]))
  }

  function CalledAll<D>(w: World<D>, calls: seq<Call<D>>): World<D>
    requires CanCallAll(w, calls)
    decreases |calls|
  {
    if calls == [] then w else CalledAll(Called(w, calls[0]), calls[1..])
  }

  /** A store knows the state its revision names; with nothing pending, that is what it holds. */
  ghost predicate Honest<D>(log: seq<D>, m: Memory<D>) {
    && m.revision < |log| && m.base == log[m.revision]
    && (!m.failed && !m.timer ==> m.state == m.base)
  }

  ghost predicate AllHonest<D>(w: World<D>) {
    w.log != [] && forall i :: 0 <= i < |w.stores| ==> Honest(w.log, w.stores[i])
  }

  /**
   * A save that succeeds writes over exactly the state its store last read or
   * wrote; one that fails leaves the row alone.
   */
  lemma SaveActsOnWhatWasSeen<D>(log: seq<D>, m: Memory<D>, now: int)
    requires Honest(log, m)
    ensures var r := SaveOf(log, m, now);
      && (r.ok ==> m.base == log[|log| - 1] && r.log == log + [m.state] && r.memory.base == m.state)
      && (!r.ok ==> r.log == log)
      && Honest(r.log, r.memory)
  {
  }

  /**
   * One call of one store: either the row is untouched, or the call wrote its
   * memory over exactly the state it knew, as the next revision.
   */
  lemma CallKeepsHonest<D>(w: World<D>, call: Call<D>)
    requires AllHonest(w) && CanCall(w, call)
    ensures AllHonest(Called(w, call))
    ensures var w' := Called(w, call);
      w'.log == w.log
      || (!call.Open? && w.log[|w.log| - 1] == w.stores[call.store].base
          && w'.log == w.log + [w'.stores[call.store].state] && w'.stores[call.store].revision == |w.log|)
  {
  }

  /** The call writes the state of revision k, over the one before, which its store had read or written itself. */
  ghost predicate Writes<D>(w: World<D>, call: Call<D>, k: nat)
    requires CanCall(w, call)
  {
    && !call.Open? && k == |w.log| > 0
    && var m, w' := w.stores[call.store], Called(w, call);
       && m.revision == k - 1 && m.base == w.log[k - 1]
       && w'.log == w.log + [w'.stores[call.store].state] && w'.stores[call.store].revision == k
  }

  /** One of the calls did. */
  ghost predicate WrittenBy<D>(w: World<D>, calls: seq<Call<D>>, k: nat)
    requires CanCallAll(w, calls)
    decreases |calls|
  {
    calls != [] && (Writes(w, calls[0], k) || WrittenBy(Called(w, calls[0]), calls[1..], k))
  }

  /**
   * The history of the row is one line: over any calls of any number of stores,
   * what was in it stays, and every state that came to it was written by a
   * store that had last read or written the state right before.
   */
  lemma {:induction false} LinearHistory<D>(w: World<D>, calls: seq<Call<D>>)
    requires AllHonest(w) && CanCallAll(w, calls)
    ensures AllHonest(CalledAll(w, calls)) && w.log <= CalledAll(w, calls).log
    ensures forall k :: |w.log| <= k < |CalledAll(w, calls).log| ==> WrittenBy(w, calls, k)
    decreases |calls|
  {
    if calls != [] {
      var w' := Called(w, calls[0]);
      CallKeepsHonest(w, calls[0]);
      LinearHistory(w', calls[1..]);
      forall k | |w.log| <= k < |CalledAll(w, calls).log|
        ensures WrittenBy(w, calls, k)
      {
        if k < |w'.log| {
          assert Writes(w, calls[0], k);
        }
      }
    }
  }

  /**
   * Whether another store has saved since this one last read the row or wrote
   * to it; `before` says so of the time before the calls.
   */
  function Overtaken<D>(w: World<D>, calls: seq<Call<D>>, i: nat, before: bool): bool
    requires CanCallAll(w, calls)
    decreases |calls|
  {
    if calls == [] then before
    else
      var call, w' := calls[0], Called(w, calls[0]);
      var now :=
        if !call.Open? && |w'.log| > |w.log| then call.store != i && i < |w.stores|
        else before;
      Overtaken(w', calls[1..], i, now)
  }

  lemma CallOvertakes<D>(w: World<D>, call: Call<D>, i: nat)
    requires AllHonest(w) && CanCall(w, call) && i < |Called(w, call).stores|
    ensures var w' := Called(w, call);
      w'.stores[i].revision + 1 != |w'.log| <==>
        if !call.Open? && |w'.log| > |w.log| then call.store != i
        else i < |w.stores| && w.stores[i].revision + 1 != |w.log|
  {
  }

  /** A store's revision is the row's exactly if no other store has saved since it last read or wrote. */
  lemma {:induction false} CurrentIff<D>(w: World<D>, calls: seq<Call<D>>, i: nat, before: bool)
    requires AllHonest(w) && CanCallAll(w, calls) && i < |CalledAll(w, calls).stores|
    requires i < |w.stores| ==> (before <==> w.stores[i].revision + 1 != |w.log|)
    requires i >= |w.stores| ==> !before
    ensures var w' := CalledAll(w, calls);
      w'.stores[i].revision + 1 == |w'.log| <==> !Overtaken(w, calls, i, before)
    decreases |calls|
  {
    if calls != [] {
      var call, w' := calls[0], Called(w, calls[0]);
      CallKeepsHonest(w, call);
      if i < |w'.stores| {
        CallOvertakes(w, call, i);
      }
      var now :=
        if !call.Open? && |w'.log| > |w.log| then call.store != i && i < |w.stores|
        else before;
      CurrentIff(w', calls[1..], i, now);
    }
  }

  /** The next save of a store succeeds exactly if it is not closed, and no other store has saved since it last read or wrote. */
  lemma SaveSucceedsIff<D>(doc: D, calls: seq<Call<D>>, i: nat, now: int)
    requires CanCallAll(World([doc], []), calls) && i < |CalledAll(World([doc], []), calls).stores|
    ensures var w := CalledAll(World([doc], []), calls);
      SaveOf(w.log, w.stores[i], now).ok <==> !w.stores[i].closed && !Overtaken(World([doc], []), calls, i, false)
  {
    CurrentIff(World([doc], []), calls, i, false);
  }

  /**
   * For a store none of whose saves failed, with no event pending: what it holds
   * and its revision are what the row holds and the row's, exactly if no other
   * store has saved since this one last read or wrote.
   */
  lemma MemoryIsRowIff<D>(doc: D, calls: seq<Call<D>>, i: nat)
    requires CanCallAll(World([doc], []), calls)
    requires var w := CalledAll(World([doc], []), calls); i < |w.stores| && !w.stores[i].failed && !w.stores[i].timer
    ensures var w := CalledAll(World([doc], []), calls); var m := w.stores[i];
      && w.log != []
      && ((m.state == w.log[|w.log| - 1] && m.revision == |w.log| - 1) <==> !Overtaken(World([doc], []), calls, i, false))
  {
    LinearHistory(World([doc], []), calls);
    CurrentIff(World([doc], []), calls, i, false);
    assert Honest(CalledAll(World([doc], []), calls).log, CalledAll(World([doc], []), calls).stores[i]);
  }

  /** The only store open on its row: no save of it fails before it is closed. */
  ghost predicate Alone<D>(w: World<D>) {
    && AllHonest(w) && |w.stores| == 1
    && w.stores[0].revision + 1 == |w.log|
    && (!w.stores[0].closed ==> !w.stores[0].failed)
  }

  lemma {:induction false} AloneStays<D>(w: World<D>, calls: seq<Call<D>>)
    requires Alone(w) && CanCallAll(w, calls)
    requires forall k :: 0 <= k < |calls| ==> !calls[k].Open?
    ensures Alone(CalledAll(w, calls))
    decreases |calls|
  {
    if calls != [] {
      CallKeepsHonest(w, calls[0]);
      AloneStays(Called(w, calls[0]), calls[1..]);
    }
  }

  /**
   * With one store, after any run and one more call, memory and row agree
   * whenever the store is open and no event is pending, and always after `flush`
   * and after the `close` that closes it.
   */
  lemma AloneAgrees<D>(w: World<D>, calls: seq<Call<D>>, last: Call<D>)
    requires Alone(w) && CanCallAll(w, calls) && CanCall(CalledAll(w, calls), last)
    requires !last.Open? && forall k :: 0 <= k < |calls| ==> !calls[k].Open?
    requires |CalledAll(w, calls).stores| == 1 ==> !CalledAll(w, calls).stores[0].closed
    ensures var w' := Called(CalledAll(w, calls), last);
      && |w'.stores| == 1 && w'.log != []
      && !w'.stores[0].failed
      && (!w'.stores[0].timer || last.DoFlush? || last.DoClose? ==> w'.stores[0].state == w'.log[|w'.log| - 1])
  {
    AloneStays(w, calls);
    CallKeepsHonest(CalledAll(w, calls), last);
  }

  // ----- What is written -----

  /** What the changes of one store make of a state, in the order of its calls. */
  function Folded<D>(state: D, calls: seq<Call<D>>, i: nat): D
    decreases |calls|
  {
    if calls == [] then state
    else
      var call := calls[0];
      var next := if (call.DoUpdate? || call.DoSetEvent?) && call.store == i then call.change(state) else state;
      Folded(next, calls[1..], i)
  }

  /** Whatever others do, and whether it saves or not, the memory of a store is what its own changes made of it. */
  lemma {:induction false} MemoryIsFolded<D>(w: World<D>, calls: seq<Call<D>>, i: nat)
    requires CanCallAll(w, calls) && i < |w.stores|
    ensures i < |CalledAll(w, calls).stores| && CalledAll(w, calls).stores[i].state == Folded(w.stores[i].state, calls, i)
    decreases |calls|
  {
    if calls != [] {
      MemoryIsFolded(Called(w, calls[0]), calls[1..], i);
    }
  }

  /** A setter of an open store that is not overtaken: the row's next state is the changed one. */
  lemma UpdateIsWritten<D>(w: World<D>, i: nat, change: D -> D, now: int)
    requires i < |w.stores| && !w.stores[i].closed && w.stores[i].revision + 1 == |w.log|
    ensures var w' := Called(w, DoUpdate(i, change, now));
      && w'.log == w.log + [change(w.stores[i].state)]
      && w'.stores[i].state == change(w.stores[i].state) && w'.stores[i].lastSavedAt == now && !w'.stores[i].timer
  {
  }

  /**
   * An event id is in the memory at once. It is in the row at once exactly if no
   * save waits, the interval since the last one is over, and the store is open
   * and not overtaken; while time is left, the row is untouched and a save waits.
   */
  lemma EventIsTaken<D>(w: World<D>, i: nat, change: D -> D, now: int, interval: int)
    requires i < |w.stores| && w.log != []
    ensures var m, w' := w.stores[i], Called(w, DoSetEvent(i, change, now, interval));
      && w'.stores[i].state == change(m.state)
      && (if !m.timer && now - m.lastSavedAt >= interval && !m.closed && m.revision + 1 == |w.log|
          then w'.log == w.log + [change(m.state)] && !w'.stores[i].timer && w'.stores[i].lastSavedAt == now
          else w'.log == w.log)
      && (m.timer || now - m.lastSavedAt < interval ==> w'.stores[i].timer)
  {
  }

  /** When the timer runs out, an open store that is not overtaken writes what it holds. */
  lemma TimerWrites<D>(w: World<D>, i: nat, now: int)
    requires i < |w.stores| && w.stores[i].timer && !w.stores[i].closed && w.stores[i].revision + 1 == |w.log|
    ensures var w' := Called(w, DoTimer(i, now));
      w'.log == w.log + [w.stores[i].state] && !w'.stores[i].timer && w'.stores[i].lastSavedAt == now
  {
  }

  /**
   * For a store that is alone: after any calls and one more, once nothing is
   * pending, or by `flush` or `close`, the row is what all the changes, in
   * order, made of the state it began with. No change is lost, none comes twice.
   */
  lemma RowIsFolded<D>(w: World<D>, calls: seq<Call<D>>, last: Call<D>)
    requires Alone(w) && CanCallAll(w, calls + [last])
    requires forall k :: 0 <= k < |calls + [last]| ==> !(calls + [last])[k].Open?
    requires CanCallAll(w, calls) ==> |CalledAll(w, calls).stores| == 1 && !CalledAll(w, calls).stores[0].closed
    ensures var w' := CalledAll(w, calls + [last]);
      && w'.log != [] && |w'.stores| == 1
      && (!w'.stores[0].timer || last.DoFlush? || last.DoClose? ==>
            w'.log[|w'.log| - 1] == Folded(w.stores[0].state, calls + [last], 0))
  {
    CalledLast(w, calls, last);
    forall k | 0 <= k < |calls|
      ensures !calls[k].Open?
    {
      assert (calls + [last])[k] == calls[k];
    }
    assert (calls + [last])[|calls|] == last;
    AloneAgrees(w, calls, last);
    MemoryIsFolded(w, calls + [last], 0);
  }

  lemma {:induction false} CalledLast<D>(w: World<D>, calls: seq<Call<D>>, last: Call<D>)
    requires CanCallAll(w, calls + [last])
    ensures CanCallAll(w, calls) && CanCall(CalledAll(w, calls), last)
    ensures CalledAll(w, calls + [last]) == Called(CalledAll(w, calls), last)
    decreases |calls|
  {
    if calls == [] {
      assert [last][1..] == [] && calls + [last] == [last];
    } else {
      assert (calls + [last])[0] == calls[0] && (calls + [last])[1..] == calls[1..] + [last];
      CalledLast(Called(w, calls[0]), calls[1..], last);
    }
  }

  /** With two stores the first falls behind: its memory is no longer the row, though none of its saves failed. */
  lemma SecondStoreOvertakes()
    ensures var start: World<int> := World([0], []); var calls := [Open, Open, DoUpdate(1, x => x + 1, 0)];
      && CanCallAll(start, calls)
      && var w := CalledAll(start, calls);
         !w.stores[0].failed && !w.stores[0].timer && w.stores[0].state != w.log[|w.log| - 1]
  {
    var start: World<int> := World([0], []);
    var bump := DoUpdate(1, (x: int) => x + 1, 0);
    var w1 := Called(start, Open);
    var w2 := Called(w1, Open);
    var w3 := Called(w2, bump);
    assert CanCallAll(w3, []) && CalledAll(w3, []) == w3;
    assert [bump][1..] == [];
    assert CanCallAll(w2, [bump]) && CalledAll(w2, [bump]) == w3;
    assert [Open, bump][1..] == [bump];
    assert CanCallAll(w1, [Open, bump]) && CalledAll(w1, [Open, bump]) == w3;
    assert [Open, Open, bump][1..] == [Open, bump];
  }

  /** The database row: one line of states, the last of them current. */
  class Row<D> {
    var doc: D
    var revision: nat
    ghost var log: seq<D>

    ghost predicate Valid()
      reads this
    {
      |log| == revision + 1 && log[revision] == doc
    }

    constructor (doc: D)
      ensures Valid() && log == [doc]
    {
      this.doc, revision, log := doc, 0, [doc];
    }

    /** The compare-and-swap update. */
    method CompareAndSwap(expected: nat, doc: D) returns (changed: bool)
      requires Valid()
      modifies this
      ensures Valid() && changed == (expected == old(revision))
      ensures log == if changed then old(log) + [doc] else old(log)
    {
      changed := expected == revision;
      if changed {
        this.doc, revision, log := doc, revision + 1, log + [doc];
      }
    }
  }

  /** The store object over a row that other stores may share. */
  class Store<D> {
    const row: Row<D>
    const interval: int
    var state: D
    var revision: nat
    var closed: bool
    var timer: bool
    var lastSavedAt: int
    ghost var base: D
    ghost var failed: bool

    ghost function View(): Memory<D>
      reads this
    {
      Memory(state, revision, closed, timer, lastSavedAt, base, failed)
    }

    ghost predicate Valid()
      reads this, row
    {
      row.Valid() && Honest(row.log, View())
    }

    constructor (row: Row<D>, interval: int)
      requires row.Valid()
      ensures Valid() && this.row == row && this.interval == interval
      ensures row.log != [] && View() == Read(row.log)
    {
      this.row, this.interval := row, interval;
      state, revision := row.doc, row.revision;
      closed, timer, lastSavedAt := false, false, 0;
      base, failed := row.doc, false;
    }

    method Update(change: D -> D, now: int) returns (ok: bool)
      requires Valid()
      modifies this, row
      ensures Valid() && UpdateOf(old(row.log), old(View()), change, now) == Saved(row.log, View(), ok)
      ensures state == change(old(state)) && row.log == if ok then old(row.log) + [state] else old(row.log)
    {
      state := change(state);
      ok := Save(now);
    }

    /** The memory may just have been changed, so it need not be the base. */
    method Save(now: int) returns (ok: bool)
      requires row.Valid() && revision < |row.log| && base == row.log[revision]
      modifies this, row
      ensures Valid() && SaveOf(old(row.log), old(View()), now) == Saved(row.log, View(), ok)
    {
      timer := false;
      ok := false;
      if !closed {
        ok := row.CompareAndSwap(revision, state);
      }
      if ok {
        revision := revision + 1;
        lastSavedAt := now;
        base := state;
      } else {
        failed := true;
      }
    }

    method SetLastEventId(change: D -> D, now: int) returns (ok: bool)
      requires Valid()
      modifies this, row
      ensures Valid() && SetEventOf(old(row.log), old(View()), change, now, interval) == Saved(row.log, View(), ok)
      ensures state == change(old(state))
      ensures row.log == old(row.log)
        || (row.log == old(row.log) + [change(old(state))] && !old(timer) && now - old(lastSavedAt) >= interval)
    {
      state := change(state);
      ok := true;
      if timer {
        return;
      }
      var wait := lastSavedAt + interval - now;
      if wait <= 0 {
        ok := Save(now);
      } else {
        timer := true;
      }
    }

    method Flush(now: int) returns (ok: bool)
      requires Valid()
      modifies this, row
      ensures Valid() && FlushOf(old(row.log), old(View()), now) == Saved(row.log, View(), ok)
      ensures state == old(state) && (ok ==> !timer) && row.log == if ok && old(timer) then old(row.log) + [state] else old(row.log)
    {
      ok := true;
      if timer {
        ok := Save(now);
      }
    }

    method Close(now: int) returns (ok: bool)
      requires Valid()
      modifies this, row
      ensures Valid() && CloseOf(old(row.log), old(View()), now) == Saved(row.log, View(), ok)
    {
      ok := true;
      if closed {
        return;
      }
      if timer {
        ok := Save(now);
      }
      closed := true;
    }
  }
}
