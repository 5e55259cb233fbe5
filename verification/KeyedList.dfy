/**
 * The keyed-list reconciliation of pkg/pages/src/dom-keyed-list.ts, on a
 * container whose element children move in place.
 */
module KeyedList {
  import opened Options

  /** No element stands at two places. */
  ghost predicate Distinct<A>(xs: seq<A>) {
    forall i, j :: 0 <= i < j < |xs| ==> xs[i] != xs[j]
  }

  /** The elements in their order, but for the ones that are gone. */
  function Minus<A(==)>(xs: seq<A>, gone: set<A>): seq<A> {
    if xs == [] then []
    else if xs[0] in gone then Minus(xs[1..], gone)
    else [xs[0]] + Minus(xs[1..], gone)
  }

  lemma {:induction false} MinusHas<A>(xs: seq<A>, gone: set<A>, x: A)
    ensures x in Minus(xs, gone) <==> x in xs && x !in gone
  {
    if xs != [] {
      MinusHas(xs[1..], gone, x);
      assert x in xs <==> x == xs[0] || x in xs[1..];
      if xs[0] !in gone {
        assert x in Minus(xs, gone) <==> x == xs[0] || x in Minus(xs[1..], gone);
      }
    }
  }

  lemma {:induction false} MinusDistinct<A>(xs: seq<A>, gone: set<A>)
    requires Distinct(xs)
    ensures Distinct(Minus(xs, gone))
  {
    if xs != [] {
      MinusDistinct(xs[1..], gone);
      MinusHas(xs[1..], gone, xs[0]);
      var rest := Minus(xs[1..], gone);
      assert forall i :: 0 <= i < |rest| ==> rest[i] in rest;
    }
  }

  /** The last element of each key, of the first n. */
  function LastByKey<A>(xs: seq<A>, keys: seq<Option<string>>, n: nat): map<string, A>
    requires n <= |xs| == |keys|
  {
    if n == 0 then map[]
    else
      var before := LastByKey(xs, keys, n - 1);
      if keys[n - 1].Some? then before[keys[n - 1].value := xs[n - 1]] else before
  }

  /** The children that no key leads to: those without a key, and those whose key a later child has. */
  function Strays<A(==)>(xs: seq<A>, keys: seq<Option<string>>): seq<A>
    requires |xs| == |keys|
  {
    Minus(xs, LastByKey(xs, keys, |xs|).Values)
  }

  predicate IsStray(keys: seq<Option<string>>, i: nat)
    requires i < |keys|
  {
    keys[i].None? || keys[i] in keys[i + 1..]
  }

  lemma {:induction false} LastIs<A>(xs: seq<A>, keys: seq<Option<string>>, n: nat, key: string)
    requires n <= |xs| == |keys|
    ensures key in LastByKey(xs, keys, n) <==> exists i :: 0 <= i < n && keys[i] == Some(key)
    ensures key in LastByKey(xs, keys, n) ==> exists i ::
      0 <= i < n && keys[i] == Some(key) && LastByKey(xs, keys, n)[key] == xs[i] && forall j :: i < j < n ==> keys[j] != Some(key)
  {
    if n > 0 {
      LastIs(xs, keys, n - 1, key);
      if keys[n - 1] == Some(key) {
        assert LastByKey(xs, keys, n)[key] == xs[n - 1];
      } else {
        assert key in LastByKey(xs, keys, n) <==> key in LastByKey(xs, keys, n - 1);
      }
    }
  }

  /** A child is a stray exactly when no key leads to it. */
  lemma StrayIff<A>(xs: seq<A>, keys: seq<Option<string>>, i: nat)
    requires i < |xs| == |keys| && Distinct(xs)
    ensures xs[i] in Strays(xs, keys) <==> IsStray(keys, i)
  {
    var last := LastByKey(xs, keys, |xs|);
    MinusHas(xs, last.Values, xs[i]);
    assert forall m :: i < m < |keys| ==> keys[m] == keys[i + 1..][m - i - 1];
    if xs[i] in last.Values {
      var key :| key in last && last[key] == xs[i];
      LastIs(xs, keys, |xs|, key);
    }
    if keys[i].Some? {
      LastIs(xs, keys, |xs|, keys[i].value);
      if !IsStray(keys, i) {
        var key := keys[i].value;
        var j :| 0 <= j < |xs| && keys[j] == Some(key) && last[key] == xs[j] && forall m :: j < m < |xs| ==> keys[m] != Some(key);
        assert last[key] in last.Values;
      }
    }
  }

  /** There are no strays exactly when every child has a key and no two share one. */
  lemma NoStraysIff<A>(xs: seq<A>, keys: seq<Option<string>>)
    requires |xs| == |keys| && Distinct(xs)
    ensures Strays(xs, keys) == []
      <==> (forall i :: 0 <= i < |keys| ==> keys[i].Some?) && Distinct(keys)
  {
    forall i | 0 <= i < |xs| ensures xs[i] in Strays(xs, keys) <==> IsStray(keys, i) {
      StrayIff(xs, keys, i);
    }
    if Strays(xs, keys) == [] {
      assert forall i :: 0 <= i < |xs| ==> xs[i] !in Strays(xs, keys) && !IsStray(keys, i);
      forall i | 0 <= i < |keys| ensures keys[i].Some? {
        assert !IsStray(keys, i);
      }
      forall i, j | 0 <= i < j < |keys| ensures keys[i] != keys[j] {
        assert keys[i + 1..][j - i - 1] == keys[j];
        assert keys[j] in keys[i + 1..];
        assert !IsStray(keys, i);
      }
    } else {
      var x := Strays(xs, keys)[0];
      MinusHas(xs, LastByKey(xs, keys, |xs|).Values, x);
      var i :| 0 <= i < |xs| && xs[i] == x;
      assert IsStray(keys, i);
    }
  }

  /** What remains in front of nothing: taking one more away. */
  lemma {:induction false} MinusOne<A>(xs: seq<A>, gone: set<A>, x: A)
    ensures Minus(xs, gone + {x}) == Minus(Minus(xs, gone), {x})
  {
    if xs != [] {
      MinusOne(xs[1..], gone, x);
      var rest := Minus(xs[1..], gone);
      assert ([xs[0]] + rest)[1..] == rest;
    }
  }

  lemma {:induction false} MinusSame<A>(xs: seq<A>, gone: set<A>, other: set<A>)
    requires forall x :: x in xs ==> (x in gone <==> x in other)
    ensures Minus(xs, gone) == Minus(xs, other)
  {
    if xs != [] {
      MinusSame(xs[1..], gone, other);
    }
  }

  lemma {:induction false} MinusNothing<A>(xs: seq<A>, gone: set<A>)
    requires forall x :: x in xs ==> x !in gone
    ensures Minus(xs, gone) == xs
  {
    if xs != [] {
      MinusNothing(xs[1..], gone);
    }
  }

  lemma {:induction false} MinusAppend<A>(xs: seq<A>, ys: seq<A>, gone: set<A>)
    ensures Minus(xs + ys, gone) == Minus(xs, gone) + Minus(ys, gone)
  {
    if xs == [] {
      assert xs + ys == ys;
    } else {
      MinusAppend(xs[1..], ys, gone);
      assert (xs + ys)[0] == xs[0] && (xs + ys)[1..] == xs[1..] + ys;
      var a, b := Minus(xs[1..], gone), Minus(ys, gone);
      assert [xs[0]] + (a + b) == [xs[0]] + a + b;
    }
  }

  /** `insertBefore`: the element leaves where it stood, and comes to stand before the cursor, or last. */
  function Moved<A(==)>(xs: seq<A>, x: A, cursor: Option<A>): seq<A> {
    var rest := Minus(xs, {x});
    match cursor
    case None => rest + [x]
    case Some(c) => InFront(rest, x, c)
  }

  function InFront<A(==)>(xs: seq<A>, x: A, c: A): seq<A> {
    if xs == [] then [x] else if xs[0] == c then [x] + xs else [xs[0]] + InFront(xs[1..], x, c)
  }

  function NextOf<A(==)>(xs: seq<A>, x: A): Option<A> {
    if xs == [] then None
    else if xs[0] == x then if |xs| > 1 then Some(xs[1]) else None
    else NextOf(xs[1..], x)
  }

  function FirstOf<A>(xs: seq<A>): Option<A> {
    if xs == [] then None else Some(xs[0])
  }

  lemma {:induction false} InFrontAt<A>(placed: seq<A>, rest: seq<A>, x: A)
    requires rest != [] && Distinct(placed + rest)
    ensures InFront(placed + rest, x, rest[0]) == placed + [x] + rest
  {
    if placed == [] {
      assert placed + rest == rest;
    } else {
      assert (placed + rest)[0] == placed[0] && (placed + rest)[|placed|] == rest[0];
      assert (placed + rest)[1..] == placed[1..] + rest;
      InFrontAt(placed[1..], rest, x);
    }
  }

  lemma {:induction false} NextAt<A>(placed: seq<A>, x: A, rest: seq<A>)
    requires x !in placed
    ensures NextOf(placed + [x] + rest, x) == FirstOf(rest)
  {
    if placed == [] {
      assert placed + [x] + rest == [x] + rest;
    } else {
      assert (placed + [x] + rest)[1..] == placed[1..] + [x] + rest;
      NextAt(placed[1..], x, rest);
    }
  }

  lemma DistinctSuffix<A>(xs: seq<A>, ys: seq<A>)
    requires Distinct(xs + ys)
    ensures Distinct(ys)
  {
    assert forall i :: 0 <= i < |ys| ==> (xs + ys)[|xs| + i] == ys[i];
  }

  lemma MinusBehind<A>(placed: seq<A>, rest: seq<A>, x: A)
    requires x !in placed
    ensures Minus(placed + rest, {x}) == placed + Minus(rest, {x})
  {
    MinusAppend(placed, rest, {x});
    MinusNothing(placed, {x});
  }

  lemma MinusFirst<A>(rest: seq<A>, x: A)
    requires rest != [] && Distinct(rest)
    ensures rest[0] == x ==> rest == [x] + Minus(rest, {x})
    ensures rest[0] != x ==> Minus(rest, {x}) != [] && Minus(rest, {x})[0] == rest[0]
  {
    if rest[0] == x {
      MinusNothing(rest[1..], {x});
    }
  }

  /** One turn of the loop on the list: the element takes the place at the cursor, and stays if it has it. */
  lemma MovedAt<A>(placed: seq<A>, rest: seq<A>, x: A)
    requires Distinct(placed + rest) && x !in placed && FirstOf(rest) != Some(x)
    ensures Moved(placed + rest, x, FirstOf(rest)) == placed + [x] + Minus(rest, {x})
  {
    MinusBehind(placed, rest, x);
    if rest == [] {
      assert Minus(placed + rest, {x}) == placed;
    } else {
      DistinctSuffix(placed, rest);
      MinusFirst(rest, x);
      MinusDistinct(placed + rest, {x});
      InFrontAt(placed, Minus(rest, {x}), x);
    }
  }

  lemma StaysAt<A>(placed: seq<A>, rest: seq<A>, x: A)
    requires Distinct(placed + rest) && FirstOf(rest) == Some(x)
    ensures placed + rest == placed + [x] + Minus(rest, {x})
  {
    DistinctSuffix(placed, rest);
    MinusFirst(rest, x);
  }

  /** A child element: its `data-key`, and the item it was last updated with. */
  class Element<T> {
    var key: Option<string>
    var shown: Option<T>

    constructor ()
      ensures key == None && shown == None
    {
      key, shown := None, None;
    }
  }

  function KeysOf<T>(xs: seq<Element<T>>): (keys: seq<Option<string>>)
    reads xs
    ensures |keys| == |xs| && forall i :: 0 <= i < |xs| ==> keys[i] == xs[i].key
  {
    if xs == [] then [] else [xs[0].key] + KeysOf(xs[1..])
  }

  class Container<T> {
    var children: seq<Element<T>>

    constructor (children: seq<Element<T>>)
      ensures this.children == children
    {
      this.children := children;
    }

    method InsertBefore(element: Element<T>, cursor: Option<Element<T>>)
      modifies this
      ensures children == Moved(old(children), element, cursor)
    {
      children := Moved(children, element, cursor);
    }

    method Remove(element: Element<T>)
      modifies this
      ensures children == Minus(old(children), {element})
    {
      children := Minus(children, {element});
    }
  }

  /** Each key leads to a child, and no two to the same. */
  ghost predicate Leads<A>(last: map<string, A>, xs: seq<A>) {
    && (forall k :: k in last ==> last[k] in xs)
    && (forall a, b :: a in last && b in last && a != b ==> last[a] != last[b])
  }

  lemma LastLeads<A>(xs: seq<A>, keys: seq<Option<string>>)
    requires |xs| == |keys| && Distinct(xs)
    ensures Leads(LastByKey(xs, keys, |xs|), xs)
  {
    forall k | k in LastByKey(xs, keys, |xs|) ensures LastByKey(xs, keys, |xs|)[k] in xs {
      LastIs(xs, keys, |xs|, k);
    }
    forall a, b | a in LastByKey(xs, keys, |xs|) && b in LastByKey(xs, keys, |xs|) && a != b
      ensures LastByKey(xs, keys, |xs|)[a] != LastByKey(xs, keys, |xs|)[b]
    {
      LastIs(xs, keys, |xs|, a);
      LastIs(xs, keys, |xs|, b);
    }
  }

  /** Of the children that keys lead to, the ones taken by the items with these keys. */
  ghost function Taken<A>(last: map<string, A>, used: set<string>): set<A> {
    set key | key in last && key in used :: last[key]
  }

  /** The list after the items with the used keys: their elements, then what is left of the children, the cursor between. */
  ghost predicate Halfway<A>(xs: seq<A>, last: map<string, A>, used: set<string>, placed: seq<A>, list: seq<A>,
                             cursor: Option<A>, existing: map<string, A>) {
    var rest := Minus(xs, Taken(last, used));
    && list == placed + rest && Distinct(list) && cursor == FirstOf(rest)
    && existing == last - used
  }

  lemma TakeOne<A>(xs: seq<A>, last: map<string, A>, used: set<string>, key: string)
    requires Leads(last, xs)
    ensures key in last && key !in used ==>
      && Minus(Minus(xs, Taken(last, used)), {last[key]}) == Minus(xs, Taken(last, used + {key}))
      && last[key] in Minus(xs, Taken(last, used))
    ensures key !in last || key in used ==> Taken(last, used + {key}) == Taken(last, used)
  {
    if key in last && key !in used {
      assert Taken(last, used + {key}) == Taken(last, used) + {last[key]};
      MinusOne(xs, Taken(last, used), last[key]);
      MinusHas(xs, Taken(last, used), last[key]);
    } else {
      assert Taken(last, used + {key}) == Taken(last, used);
    }
  }

  lemma HalfwayStart<A>(xs: seq<A>, last: map<string, A>)
    requires Distinct(xs)
    ensures Halfway(xs, last, {}, [], xs, FirstOf(xs), last)
  {
    assert Taken(last, {}) == {};
    MinusNothing(xs, {});
  }

  lemma UsedMore(used: set<string>, keys: seq<string>, k: nat)
    requires k < |keys| && forall j :: j in used <==> j in keys[..k]
    ensures forall j :: j in used + {keys[k]} <==> j in keys[..k + 1]
  {
    assert keys[..k + 1] == keys[..k] + [keys[k]];
  }

  /** One turn: the element with the key, or a new one, comes to the cursor, and the cursor goes on. */
  lemma TurnKeeps<A>(xs: seq<A>, last: map<string, A>, used: set<string>, placed: seq<A>, list: seq<A>,
                     cursor: Option<A>, existing: map<string, A>, key: string, x: A)
    requires Leads(last, xs) && Halfway(xs, last, used, placed, list, cursor, existing)
    requires if key in existing then x == existing[key] else x !in list && x !in xs
    ensures var list' := if cursor != Some(x) then Moved(list, x, cursor) else list;
      Halfway(xs, last, used + {key}, placed + [x], list', NextOf(list', x), existing - {key})
  {
    var rest := Minus(xs, Taken(last, used));
    TakeOne(xs, last, used, key);
    if x in placed {
      DistinctApart(placed, rest, x);
    }
    var left := Minus(xs, Taken(last, used + {key}));
    if key in existing {
      assert left == Minus(rest, {x});
    } else {
      MinusNothing(rest, {x});
    }
    var list' := if cursor != Some(x) then Moved(list, x, cursor) else list;
    if cursor != Some(x) {
      MovedAt(placed, rest, x);
    } else {
      StaysAt(placed, rest, x);
    }
    assert list' == placed + [x] + left;
    NextAt(placed, x, left);
    StillDistinct(placed, rest, x);
    assert existing - {key} == last - (used + {key});
  }

  lemma DistinctApart<A>(a: seq<A>, b: seq<A>, x: A)
    requires Distinct(a + b) && x in a
    ensures x !in b
  {
    var i :| 0 <= i < |a| && a[i] == x;
    assert (a + b)[i] == x;
    assert forall j :: 0 <= j < |b| ==> (a + b)[|a| + j] == b[j];
  }

  lemma StillDistinct<A>(placed: seq<A>, rest: seq<A>, x: A)
    requires Distinct(placed + rest) && x !in placed
    ensures Distinct(placed + [x] + Minus(rest, {x}))
  {
    MinusBehind(placed, rest, x);
    MinusDistinct(placed + rest, {x});
    MinusHas(placed + rest, {x}, x);
    var list := placed + Minus(rest, {x});
    assert x !in list;
    var longer := placed + [x] + Minus(rest, {x});
    forall i, j | 0 <= i < j < |longer| ensures longer[i] != longer[j] {
      assert i != |placed| ==> longer[i] == list[if i < |placed| then i else i - 1];
      assert j != |placed| ==> longer[j] == list[if j < |placed| then j else j - 1];
    }
  }

  /** A child whose key no item has leaves. */
  lemma LeftoverGoes<A>(xs: seq<A>, last: map<string, A>, used: set<string>, placed: seq<A>, key: string)
    requires Leads(last, xs) && key in last && key !in used && Distinct(placed + Minus(xs, Taken(last, used)))
    ensures var list := placed + Minus(xs, Taken(last, used + {key}));
      Minus(placed + Minus(xs, Taken(last, used)), {last[key]}) == list && Distinct(list)
  {
    var rest := Minus(xs, Taken(last, used));
    TakeOne(xs, last, used, key);
    LeftApart(xs, last, used, placed, key);
    MinusBehind(placed, rest, last[key]);
    MinusDistinct(placed + rest, {last[key]});
  }

  lemma LeftApart<A>(xs: seq<A>, last: map<string, A>, used: set<string>, placed: seq<A>, key: string)
    requires Leads(last, xs) && key in last - used && Distinct(placed + Minus(xs, Taken(last, used)))
    ensures last[key] !in placed
  {
    TakeOne(xs, last, used, key);
    if last[key] in placed {
      DistinctApart(placed, Minus(xs, Taken(last, used)), last[key]);
    }
  }

  lemma MinusKey<A>(last: map<string, A>, used: set<string>, key: string)
    ensures last - used - {key} == last - (used + {key})
  {
  }

  lemma AllTaken<A>(xs: seq<A>, last: map<string, A>, used: set<string>)
    requires last - used == map[]
    ensures Minus(xs, Taken(last, used)) == Minus(xs, last.Values)
  {
    assert (last - used).Keys == last.Keys - used == {};
    forall x | x in last.Values ensures x in Taken(last, used) {
      var key :| key in last.Keys && last[key] == x;
      assert key in last.Keys - used || key in used;
    }
    assert Taken(last, used) == last.Values;
  }

  /** The element that an item is given: the child its key leads to, unless an earlier item took that; else a new one. */
  ghost predicate Given<A>(xs: seq<A>, last: map<string, A>, itemKeys: seq<string>, placed: seq<A>, i: nat)
    requires i < |itemKeys| && i < |placed|
  {
    if itemKeys[i] in last && itemKeys[i] !in itemKeys[..i] then placed[i] == last[itemKeys[i]] else placed[i] !in xs
  }

  ghost predicate AllGiven<A>(xs: seq<A>, last: map<string, A>, itemKeys: seq<string>, placed: seq<A>) {
    |placed| <= |itemKeys| && forall j :: 0 <= j < |placed| ==> Given(xs, last, itemKeys, placed, j)
  }

  lemma GivenMore<A>(xs: seq<A>, last: map<string, A>, itemKeys: seq<string>, placed: seq<A>, used: set<string>, x: A)
    requires |placed| < |itemKeys| && AllGiven(xs, last, itemKeys, placed)
    requires forall k :: k in used <==> k in itemKeys[..|placed|]
    requires var key := itemKeys[|placed|]; if key in last && key !in used then x == last[key] else x !in xs
    ensures AllGiven(xs, last, itemKeys, placed + [x])
  {
    forall j | 0 <= j < |placed + [x]| ensures Given(xs, last, itemKeys, placed + [x], j) {
      if j < |placed| {
        assert Given(xs, last, itemKeys, placed, j);
      }
    }
  }

  ghost predicate Shows<T>(e: Element<T>, key: string, item: T)
    reads e
  {
    e.key == Some(key) && e.shown == Some(item)
  }

  /** Each element placed so far shows its item. */
  ghost predicate AllShow<T>(placed: seq<Element<T>>, itemKeys: seq<string>, items: seq<T>)
    reads placed
  {
    |placed| <= |items| == |itemKeys| && forall j :: 0 <= j < |placed| ==> Shows(placed[j], itemKeys[j], items[j])
  }

  function ItemKeys<T>(items: seq<T>, keyOf: T -> string): (keys: seq<string>)
    ensures |keys| == |items| && forall i :: 0 <= i < |items| ==> keys[i] == keyOf(items[i])
  {
    seq(|items|, i requires 0 <= i < |items| => keyOf(items[i]))
  }

  method IndexByKey<T>(children: seq<Element<T>>) returns (existing: map<string, Element<T>>)
    ensures existing == LastByKey(children, KeysOf(children), |children|)
  {
    existing := map[];
    for k := 0 to |children|
      invariant existing == LastByKey(children, KeysOf(children), k)
    {
      if children[k].key.Some? {
        existing := existing[children[k].key.value := children[k]];
      }
    }
  }

  /** The element the key leads to, or a new one with the key; updated either way. */
  method ElementFor<T>(existing: map<string, Element<T>>, key: string, item: T) returns (element: Element<T>)
    requires key in existing ==> existing[key].key == Some(key)
    modifies if key in existing then {existing[key]} else {}
    ensures if key in existing then element == existing[key] else fresh(element)
    ensures Shows(element, key, item)
  {
    if key in existing {
      element := existing[key];
    } else {
      element := new Element();
      element.key := Some(key);
    }
    element.shown := Some(item);
  }

  /** One turn of the loop: the element comes to the cursor, and the cursor goes on. */
  method Turn<T>(container: Container<T>, item: T, key: string, existing: map<string, Element<T>>, cursor: Option<Element<T>>,
      ghost xs: seq<Element<T>>, ghost last: map<string, Element<T>>, ghost used: set<string>, ghost placed: seq<Element<T>>)
    returns (element: Element<T>, next: Option<Element<T>>)
    requires Leads(last, xs) && Halfway(xs, last, used, placed, container.children, cursor, existing)
    requires key in existing ==> existing[key].key == Some(key)
    modifies container, if key in existing then {existing[key]} else {}
    ensures Halfway(xs, last, used + {key}, placed + [element], container.children, next, existing - {key})
    ensures if key in existing then element == existing[key] && element !in placed else fresh(element)
    ensures Shows(element, key, item)
  {
    if key in existing {
      LeftApart(xs, last, used, placed, key);
    }
    element := ElementFor(existing, key, item);
    TurnKeeps(xs, last, used, placed, container.children, cursor, existing, key, element);
    if cursor != Some(element) {
      container.InsertBefore(element, cursor);
    }
    next := NextOf(container.children, element);
  }

  ghost predicate KeysTrue<T>(index: map<string, Element<T>>)
    reads index.Values
  {
    forall k :: k in index ==> index[k].key == Some(k)
  }

  /** The elements placed so far are the right ones, and show their items; the index still says the keys. */
  ghost predicate Arranged<T>(xs: seq<Element<T>>, last: map<string, Element<T>>, itemKeys: seq<string>, items: seq<T>,
                              placed: seq<Element<T>>, used: set<string>)
    reads placed, last.Values
  {
    && AllShow(placed, itemKeys, items) && AllGiven(xs, last, itemKeys, placed) && KeysTrue(last)
    && forall j :: j in used <==> j in itemKeys[..|placed|]
  }

  /** The turn of the next item. */
  method TurnOf<T>(container: Container<T>, item: T, key: string, existing: map<string, Element<T>>, cursor: Option<Element<T>>,
      ghost xs: seq<Element<T>>, ghost last: map<string, Element<T>>, ghost used: set<string>, ghost placed: seq<Element<T>>,
      ghost itemKeys: seq<string>, ghost items: seq<T>)
    returns (element: Element<T>, next: Option<Element<T>>)
    requires Leads(last, xs) && Halfway(xs, last, used, placed, container.children, cursor, existing)
    requires Arranged(xs, last, itemKeys, items, placed, used)
    requires |placed| < |items| && item == items[|placed|] && key == itemKeys[|placed|]
    modifies container, if key in existing then {existing[key]} else {}
    ensures Halfway(xs, last, used + {key}, placed + [element], container.children, next, existing - {key})
    ensures Arranged(xs, last, itemKeys, items, placed + [element], used + {key})
    ensures if key in existing then element == existing[key] else fresh(element)
  {
    element, next := Turn(container, item, key, existing, cursor, xs, last, used, placed);
    GivenMore(xs, last, itemKeys, placed, used, element);
    UsedMore(used, itemKeys, |placed|);
  }

  /** The cursor's walk: item by item the elements are brought before what is left. */
  method Arrange<T>(container: Container<T>, items: seq<T>, keyOf: T -> string, index: map<string, Element<T>>,
      ghost xs: seq<Element<T>>, ghost itemKeys: seq<string>)
    returns (existing: map<string, Element<T>>, ghost placed: seq<Element<T>>, ghost used: set<string>)
    requires xs == container.children && Distinct(xs) && itemKeys == ItemKeys(items, keyOf)
    requires Leads(index, xs) && KeysTrue(index)
    modifies container, index.Values
    ensures |placed| == |items| && AllShow(placed, itemKeys, items) && AllGiven(xs, index, itemKeys, placed)
    ensures existing == index - used && Distinct(container.children) && KeysTrue(index)
    ensures container.children == placed + Minus(xs, Taken(index, used))
    ensures forall e :: e in xs && e !in placed ==> unchanged(e)
  {
    existing := index;
    var cursor := FirstOf(container.children);
    placed, used := [], {};
    HalfwayStart(xs, index);
    for k := 0 to |items|
      invariant |placed| == k && Arranged(xs, index, itemKeys, items, placed, used)
      invariant Halfway(xs, index, used, placed, container.children, cursor, existing)
      invariant forall e :: e in xs && e !in placed ==> unchanged(e)
    {
      var key := keyOf(items[k]);
      var element, next := TurnOf(container, items[k], key, existing, cursor, xs, index, used, placed, itemKeys, items);
      existing, cursor := existing - {key}, next;
      placed, used := placed + [element], used + {key};
    }
  }

  /** What no item took leaves, in any order. */
  method RemoveLeftovers<T>(container: Container<T>, leftovers: map<string, Element<T>>,
      ghost xs: seq<Element<T>>, ghost last: map<string, Element<T>>, ghost itemKeys: set<string>, ghost placed: seq<Element<T>>)
    requires Leads(last, xs) && leftovers == last - itemKeys && Distinct(container.children)
    requires container.children == placed + Minus(xs, Taken(last, itemKeys))
    modifies container
    ensures container.children == placed + Minus(xs, last.Values) && Distinct(container.children)
  {
    var existing := leftovers;
    ghost var used := itemKeys;
    while existing != map[]
      invariant existing == last - used
      invariant container.children == placed + Minus(xs, Taken(last, used)) && Distinct(container.children)
      decreases |existing|
    {
      var key :| key in existing;
      LeftoverGoes(xs, last, used, placed, key);
      container.Remove(existing[key]);
      MinusKey(last, used, key);
      existing, used := existing - {key}, used + {key};
    }
    AllTaken(xs, last, used);
  }

  lemma IndexTrue<T>(xs: seq<Element<T>>)
    ensures KeysTrue(LastByKey(xs, KeysOf(xs), |xs|))
  {
    forall k | k in LastByKey(xs, KeysOf(xs), |xs|) ensures LastByKey(xs, KeysOf(xs), |xs|)[k].key == Some(k) {
      LastIs(xs, KeysOf(xs), |xs|, k);
    }
  }

  /**
   * The children become one element an item, in item order, and behind them the
   * strays: an element a key leads to is the very object it was, and every other
   * child with a key is gone.
   */
  method PatchKeyedList<T>(container: Container<T>, items: seq<T>, keyOf: T -> string)
    requires Distinct(container.children)
    modifies container, container.children
    ensures |items| <= |container.children| && Distinct(container.children)
    ensures container.children[|items|..] == old(Strays(container.children, KeysOf(container.children)))
    ensures AllShow(container.children[..|items|], ItemKeys(items, keyOf), items)
    ensures AllGiven(old(container.children), old(LastByKey(container.children, KeysOf(container.children), |container.children|)),
                     ItemKeys(items, keyOf), container.children[..|items|])
    ensures forall e :: e in old(container.children) && e !in container.children[..|items|] ==> unchanged(e)
  {
    ghost var xs := container.children;
    var index := IndexByKey(container.children);
    LastLeads(xs, KeysOf(xs));
    IndexTrue(xs);
    var existing, placed, used := Arrange(container, items, keyOf, index, xs, ItemKeys(items, keyOf));
    RemoveLeftovers(container, existing, xs, index, used, placed);
    assert container.children[..|items|] == placed;
  }
}
