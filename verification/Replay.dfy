/** The replay cache: a list in arrival order and a map over it, with expiry and a capacity. */
module Replay {
  import opened Prelude

  /** The SHA-256 sum of a request body. */
  type Key = Bytes

  datatype Entry = Entry(key: Key, expiresAt: Time)

  // --- The list operations, newest entry first ---

  /** evictExpired: drop from the back until an entry is still live. */
  function Evict(order: seq<Entry>, now: Time): seq<Entry> {
    if order == [] || now < order[|order| - 1].expiresAt then order
    else Evict(order[..|order| - 1], now)
  }

  function Find(order: seq<Entry>, key: Key): Option<Entry> {
    if order == [] then None
    else if order[0].key == key then Some(order[0])
    else Find(order[1..], key)
  }

  /** list.Remove of the element that holds key. */
  function Without(order: seq<Entry>, key: Key): seq<Entry> {
    if order == [] then []
    else if order[0].key == key then order[1..]
    else [order[0]] + Without(order[1..], key)
  }

  /** Drop from the back until at most max entries are left. */
  function Cap(order: seq<Entry>, max: int): seq<Entry> {
    if |order| > max && order != [] then Cap(order[..|order| - 1], max) else order
  }

  function Push(ttl: Time, max: int, order: seq<Entry>, key: Key, now: Time): seq<Entry> {
    Cap([Entry(key, now + ttl)] + order, max)
  }

  /** AddIfNew on the list; the flag is true when the key is new. */
  function Add(ttl: Time, max: int, order: seq<Entry>, key: Key, now: Time): (seq<Entry>, bool) {
    var live := Evict(order, now);
    match Find(live, key)
    case Some(e) => if now < e.expiresAt then (live, false) else (Push(ttl, max, Without(live, key), key, now), true)
    case None => (Push(ttl, max, live, key, now), true)
  }

  predicate Distinct(order: seq<Entry>) {
    forall i, j :: 0 <= i < j < |order| ==> order[i].key != order[j].key
  }

  lemma {:induction false} FindAt(order: seq<Entry>, i: nat)
    requires Distinct(order) && i < |order|
    ensures Find(order, order[i].key) == Some(order[i])
  {
    if i > 0 {
      assert order[0].key != order[i].key;
      assert order[1..][i - 1] == order[i];
      FindAt(order[1..], i - 1);
    }
  }

  lemma {:induction false} FindSome(order: seq<Entry>, key: Key) returns (i: nat)
    requires Find(order, key).Some?
    ensures i < |order| && order[i] == Find(order, key).value && order[i].key == key
  {
    if order[0].key == key {
      i := 0;
    } else {
      i := FindSome(order[1..], key);
      i := i + 1;
    }
  }

  lemma {:induction false} FindNone(order: seq<Entry>, key: Key)
    requires Find(order, key).None?
    ensures forall i :: 0 <= i < |order| ==> order[i].key != key
  {
    if order != [] {
      FindNone(order[1..], key);
      forall i | 0 <= i < |order| ensures order[i].key != key {
        assert i > 0 ==> order[i] == order[1..][i - 1];
      }
    }
  }

  lemma {:induction false} FindAbsent(order: seq<Entry>, key: Key)
    requires forall e :: e in order ==> e.key != key
    ensures Find(order, key).None?
  {
    if order != [] {
      FindAbsent(order[1..], key);
    }
  }

  lemma {:induction false} EvictPrefix(order: seq<Entry>, now: Time)
    ensures var m := |Evict(order, now)|;
            && m <= |order| && Evict(order, now) == order[..m]
            && (forall i :: m <= i < |order| ==> order[i].expiresAt <= now)
            && (m > 0 ==> now < order[m - 1].expiresAt)
  {
    if order != [] && order[|order| - 1].expiresAt <= now {
      EvictPrefix(order[..|order| - 1], now);
    }
  }

  lemma {:induction false} CapPrefix(order: seq<Entry>, max: int)
    ensures var m := if |order| <= max then |order| else if max < 0 then 0 else max;
            Cap(order, max) == order[..m]
  {
    if |order| > max && order != [] {
      CapPrefix(order[..|order| - 1], max);
    }
  }

  lemma {:induction false} WithoutKeeps(order: seq<Entry>, key: Key)
    requires Distinct(order)
    ensures Distinct(Without(order, key))
    ensures forall e :: e in Without(order, key) <==> e in order && e.key != key
  {
    if order != [] {
      var tail := order[1..];
      WithoutKeeps(tail, key);
      assert forall e :: e in order <==> e == order[0] || e in tail;
      if order[0].key == key {
        assert forall e :: e in tail ==> e.key != key;
      } else {
        var w := Without(tail, key);
        assert Without(order, key) == [order[0]] + w;
        assert forall e :: e in w ==> e in tail && e.key != order[0].key;
      }
    }
  }

  // --- The cache as it is built ---

  class ReplayLRU {
    const ttl: Time
    const max: int
    var byKey: map<Key, Entry>
    var order: seq<Entry>

    /** List and map hold the same entries, one per key. */
    ghost predicate Valid()
      reads this
    {
      && Distinct(order)
      && (forall e :: e in order ==> e.key in byKey && byKey[e.key] == e)
      && (forall k :: k in byKey ==> byKey[k] in order && byKey[k].key == k)
    }

    constructor (ttl: Time, max: int)
      ensures Valid() && order == [] && this.ttl == ttl && this.max == max
    {
      this.ttl := ttl;
      this.max := max;
      byKey := map[];
      order := [];
    }

    method DropBack()
      requires Valid() && order != []
      modifies this
      ensures Valid() && order == old(order)[..|old(order)| - 1]
    {
      var back := order[|order| - 1];
      ghost var was := order;
      order := order[..|order| - 1];
      byKey := byKey - {back.key};
      forall e | e in order ensures e.key != back.key && e in was {
        var i :| 0 <= i < |order| && order[i] == e;
        assert was[i] == e && was[|was| - 1] == back;
      }
      forall k | k in byKey ensures byKey[k] in order {
        var i :| 0 <= i < |was| && was[i] == byKey[k];
        assert order == was[..|was| - 1];
        assert i < |was| - 1;
        assert order[i] == byKey[k];
      }
    }

    method EvictExpired(now: Time)
      requires Valid()
      modifies this
      ensures Valid() && order == Evict(old(order), now)
    {
      while order != [] && order[|order| - 1].expiresAt <= now
        invariant Valid() && Evict(order, now) == Evict(old(order), now)
        decreases |order|
      {
        DropBack();
      }
    }

    method RemoveKey(key: Key)
      requires Valid() && key in byKey
      modifies this
      ensures Valid() && order == Without(old(order), key) && key !in byKey
    {
      WithoutKeeps(order, key);
      order := Without(order, key);
      byKey := byKey - {key};
    }

    method PushFront(key: Key, now: Time)
      requires Valid() && key !in byKey
      modifies this
      ensures Valid() && order == [Entry(key, now + ttl)] + old(order)
    {
      var ent := Entry(key, now + ttl);
      forall e | e in order ensures e.key != key { assert e.key in byKey; }
      order := [ent] + order;
      byKey := byKey[key := ent];
    }

    /** AddIfNew at clock reading now. */
    method AddIfNew(key: Key, now: Time) returns (isNew: bool)
      requires Valid()
      modifies this
      ensures Valid()
      ensures (order, isNew) == Add(ttl, max, old(order), key, now)
    {
      EvictExpired(now);
      ghost var live := order;
      if key in byKey {
        var ent := byKey[key];
        ghost var i :| 0 <= i < |order| && order[i] == ent;
        FindAt(order, i);
        if now < ent.expiresAt {
          return false;
        }
        RemoveKey(key);
      } else {
        forall e | e in order ensures e.key != key { assert e.key in byKey; }
        FindAbsent(order, key);
      }
      PushFront(key, now);
      ghost var pushed := order;
      while |order| > max && order != []
        invariant Valid() && Cap(order, max) == Cap(pushed, max)
        decreases |order|
      {
        DropBack();
      }
      isNew := true;
    }
  }

  // --- Refinement of the history ---

  datatype Call = Call(key: Key, now: Time)

  predicate Monotone(calls: seq<Call>) {
    forall i, j :: 0 <= i < j < |calls| ==> calls[i].now <= calls[j].now
  }

  /** The list after a run of AddIfNew calls on an empty cache. */
  function Run(ttl: Time, max: int, calls: seq<Call>): seq<Entry> {
    if calls == [] then []
    else
      var c := calls[|calls| - 1];
      Add(ttl, max, Run(ttl, max, calls[..|calls| - 1]), c.key, c.now).0
  }

  /** The position of the latest acceptance of key. */
  function Latest(accepted: seq<Call>, key: Key): (l: Option<nat>)
    ensures l.Some? ==> l.value < |accepted|
  {
    if accepted == [] then None
    else if accepted[|accepted| - 1].key == key then Some(|accepted| - 1)
    else Latest(accepted[..|accepted| - 1], key)
  }

  /** What the cache is for: a key is a replay when its latest acceptance is less than ttl old and
      fewer than max keys have been accepted since. */
  predicate IsReplay(ttl: Time, max: int, accepted: seq<Call>, key: Key, now: Time) {
    var latest := Latest(accepted, key);
    latest.Some? && now - accepted[latest.value].now < ttl && |accepted| - 1 - latest.value < max
  }

  /** The calls accepted when every answer is given from the history alone. */
  function Accepted(ttl: Time, max: int, calls: seq<Call>): seq<Call> {
    if calls == [] then []
    else
      var c := calls[|calls| - 1];
      var before := Accepted(ttl, max, calls[..|calls| - 1]);
      if IsReplay(ttl, max, before, c.key, c.now) then before else before + [c]
  }

  lemma {:induction false} LatestIs(accepted: seq<Call>, key: Key)
    ensures var l := Latest(accepted, key);
            && (l.Some? ==> l.value < |accepted| && accepted[l.value].key == key
                            && forall j :: l.value < j < |accepted| ==> accepted[j].key != key)
            && (l.None? ==> forall j :: 0 <= j < |accepted| ==> accepted[j].key != key)
  {
    if accepted != [] && accepted[|accepted| - 1].key != key {
      LatestIs(accepted[..|accepted| - 1], key);
    }
  }

  /** The list is the newest part of the accepted calls; everything older is expired or was
      pushed out by max later ones. */
  predicate Recent(ttl: Time, max: int, order: seq<Entry>, accepted: seq<Call>, clock: Time) {
    && |order| <= |accepted|
    && (|order| <= max || order == [])
    && Distinct(order)
    && (forall i :: 0 <= i < |order| ==>
         order[i] == Entry(accepted[|accepted| - 1 - i].key, accepted[|accepted| - 1 - i].now + ttl))
    && (forall j :: 0 <= j < |accepted| - |order| ==> accepted[j].now + ttl <= clock || |accepted| - 1 - j >= max)
  }

  predicate Sorted(accepted: seq<Call>, clock: Time) {
    Monotone(accepted) && forall j :: 0 <= j < |accepted| ==> accepted[j].now <= clock
  }

  lemma EvictRecent(ttl: Time, max: int, order: seq<Entry>, accepted: seq<Call>, clock: Time, now: Time)
    requires Recent(ttl, max, order, accepted, clock) && Sorted(accepted, clock) && clock <= now
    ensures Recent(ttl, max, Evict(order, now), accepted, now)
    ensures forall i :: 0 <= i < |Evict(order, now)| ==> now < Evict(order, now)[i].expiresAt
  {
    EvictPrefix(order, now);
    var live := Evict(order, now);
    var m := |live|;
    forall i | 0 <= i < m ensures now < live[i].expiresAt {
      assert live[i].expiresAt >= order[m - 1].expiresAt;
    }
    forall j | 0 <= j < |accepted| - m ensures accepted[j].now + ttl <= now || |accepted| - 1 - j >= max {
      if j >= |accepted| - |order| {
        var i := |accepted| - 1 - j;
        assert m <= i < |order| && order[i] == Entry(accepted[j].key, accepted[j].now + ttl);
      }
    }
  }

  /** A key found on the list was last accepted where its entry says. */
  lemma FoundIsLatest(ttl: Time, max: int, live: seq<Entry>, accepted: seq<Call>, clock: Time, key: Key)
    returns (i: nat)
    requires Recent(ttl, max, live, accepted, clock) && Find(live, key).Some?
    ensures i < |live| && live[i] == Find(live, key).value && Latest(accepted, key) == Some(|accepted| - 1 - i)
  {
    LatestIs(accepted, key);
    i := FindSome(live, key);
    var j := |accepted| - 1 - i;
    assert accepted[j].key == key;
    forall j' | j < j' < |accepted| ensures accepted[j'].key != key {
      var i' := |accepted| - 1 - j';
      assert live[i'].key != live[i].key;
      assert live[i'] == Entry(accepted[|accepted| - 1 - i'].key, accepted[|accepted| - 1 - i'].now + ttl);
    }
  }

  /** On the live list a key is found exactly when the history calls it a replay. */
  lemma FoundIffReplay(ttl: Time, max: int, live: seq<Entry>, accepted: seq<Call>, key: Key, now: Time)
    requires Recent(ttl, max, live, accepted, now)
    requires forall i :: 0 <= i < |live| ==> now < live[i].expiresAt
    ensures Find(live, key).Some? <==> IsReplay(ttl, max, accepted, key, now)
    ensures Find(live, key).Some? ==> now < Find(live, key).value.expiresAt
  {
    if Find(live, key).Some? {
      var i := FoundIsLatest(ttl, max, live, accepted, now, key);
    } else if IsReplay(ttl, max, accepted, key, now) {
      LatestIs(accepted, key);
      var l := Latest(accepted, key);
      var i := |accepted| - 1 - l.value;
      assert i < |live|;
      assert live[i] == Entry(accepted[l.value].key, accepted[l.value].now + ttl);
      FindAt(live, i);
    }
  }

  lemma PushRecent(ttl: Time, max: int, live: seq<Entry>, accepted: seq<Call>, key: Key, now: Time)
    requires Recent(ttl, max, live, accepted, now) && Find(live, key).None?
    ensures Recent(ttl, max, Push(ttl, max, live, key, now), accepted + [Call(key, now)], now)
  {
    FindNone(live, key);
    var pushed := [Entry(key, now + ttl)] + live;
    var acc := accepted + [Call(key, now)];
    CapPrefix(pushed, max);
    var order := Cap(pushed, max);
    forall i | 0 <= i < |pushed|
      ensures pushed[i] == Entry(acc[|acc| - 1 - i].key, acc[|acc| - 1 - i].now + ttl)
    {
      if i > 0 {
        assert pushed[i] == live[i - 1];
        assert acc[|acc| - 1 - i] == accepted[|accepted| - 1 - (i - 1)];
      }
    }
    forall j | 0 <= j < |acc| - |order| ensures acc[j].now + ttl <= now || |acc| - 1 - j >= max {
      if j < |accepted| - |live| {
        assert acc[j] == accepted[j];
      }
    }
  }

  function Clock(calls: seq<Call>): Time {
    if calls == [] then 0 else calls[|calls| - 1].now
  }

  lemma {:induction false} AcceptedSorted(ttl: Time, max: int, calls: seq<Call>)
    requires Monotone(calls)
    ensures Sorted(Accepted(ttl, max, calls), Clock(calls))
  {
    if calls != [] {
      var init := calls[..|calls| - 1];
      AcceptedSorted(ttl, max, init);
      if init != [] {
        assert calls[|init| - 1] == init[|init| - 1];
      }
    }
  }

  lemma {:induction false} RunIsRecent(ttl: Time, max: int, calls: seq<Call>)
    requires Monotone(calls)
    ensures Recent(ttl, max, Run(ttl, max, calls), Accepted(ttl, max, calls), Clock(calls))
  {
    if calls != [] {
      var init, c := calls[..|calls| - 1], calls[|calls| - 1];
      RunIsRecent(ttl, max, init);
      StepRecent(ttl, max, init, c.key, c.now);
    }
  }

  lemma StepRecent(ttl: Time, max: int, init: seq<Call>, key: Key, now: Time)
    requires Monotone(init + [Call(key, now)])
    requires Recent(ttl, max, Run(ttl, max, init), Accepted(ttl, max, init), Clock(init))
    ensures var r := Add(ttl, max, Run(ttl, max, init), key, now);
            var acc := Accepted(ttl, max, init);
            && r.1 == !IsReplay(ttl, max, acc, key, now)
            && Recent(ttl, max, r.0, if r.1 then acc + [Call(key, now)] else acc, now)
  {
    var order, acc := Run(ttl, max, init), Accepted(ttl, max, init);
    PrefixClock(init, Call(key, now));
    AcceptedSorted(ttl, max, init);
    if init == [] {
      assert Recent(ttl, max, order, acc, now) && Sorted(acc, now);
      AddRecent(ttl, max, order, acc, now, key, now);
    } else {
      AddRecent(ttl, max, order, acc, Clock(init), key, now);
    }
  }

  lemma PrefixClock(init: seq<Call>, c: Call)
    requires Monotone(init + [c])
    ensures Monotone(init) && (init != [] ==> Clock(init) <= c.now)
  {
    var calls := init + [c];
    assert init == calls[..|init|];
    if init != [] {
      assert calls[|init| - 1].now <= calls[|init|].now;
    }
  }

  lemma AddRecent(ttl: Time, max: int, order: seq<Entry>, acc: seq<Call>, clock: Time, key: Key, now: Time)
    requires Recent(ttl, max, order, acc, clock) && Sorted(acc, clock) && clock <= now
    ensures var r := Add(ttl, max, order, key, now);
            && r.1 == !IsReplay(ttl, max, acc, key, now)
            && Recent(ttl, max, r.0, if r.1 then acc + [Call(key, now)] else acc, now)
  {
    EvictRecent(ttl, max, order, acc, clock, now);
    var live := Evict(order, now);
    FoundIffReplay(ttl, max, live, acc, key, now);
    if Find(live, key).None? {
      PushRecent(ttl, max, live, acc, key, now);
    }
  }

  /** The cache answers every call of every run on a non-decreasing clock as its history does, and
      never holds more than max entries. */
  lemma AnswersFromHistory(ttl: Time, max: int, calls: seq<Call>, key: Key, now: Time)
    requires Monotone(calls + [Call(key, now)])
    ensures Add(ttl, max, Run(ttl, max, calls), key, now).1 <==>
              !IsReplay(ttl, max, Accepted(ttl, max, calls), key, now)
    ensures |Run(ttl, max, calls)| <= max || Run(ttl, max, calls) == []
  {
    assert calls == (calls + [Call(key, now)])[..|calls|];
    RunIsRecent(ttl, max, calls);
    StepRecent(ttl, max, calls, key, now);
  }

  /** After a run the list is sorted by expiry, latest first. */
  lemma OrderSorted(ttl: Time, max: int, calls: seq<Call>, i: nat, j: nat)
    requires Monotone(calls) && i <= j < |Run(ttl, max, calls)|
    ensures Run(ttl, max, calls)[i].expiresAt >= Run(ttl, max, calls)[j].expiresAt
  {
    RunIsRecent(ttl, max, calls);
    AcceptedSorted(ttl, max, calls);
  }

  /** Two acceptances of one key are at least ttl apart, or at least max others came between. */
  lemma {:induction false} AcceptancesApart(ttl: Time, max: int, calls: seq<Call>, i: nat, j: nat)
    requires i < j < |Accepted(ttl, max, calls)|
    requires Accepted(ttl, max, calls)[i].key == Accepted(ttl, max, calls)[j].key
    requires Monotone(calls)
    ensures var acc := Accepted(ttl, max, calls);
            acc[j].now - acc[i].now >= ttl || j - 1 - i >= max
  {
    var init := calls[..|calls| - 1];
    var before, acc := Accepted(ttl, max, init), Accepted(ttl, max, calls);
    if j < |before| {
      AcceptancesApart(ttl, max, init, i, j);
    } else {
      LatestIs(before, acc[j].key);
      var l := Latest(before, acc[j].key).value;
      assert before[i] == acc[i];
      AcceptedSorted(ttl, max, init);
      assert before[l].now >= before[i].now;
    }
  }
}
