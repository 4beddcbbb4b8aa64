/** The limiter of remote key loads: ten successes per device and hour. */
module RateLimit {
  import opened Prelude

  const LIMIT := 10
  const WINDOW: Time := 60 * MINUTE

  // --- What the limiter does to the times of one device ---

  /** The times after cutoff, in order. */
  function Recent(times: seq<Time>, cutoff: Time): seq<Time> {
    if times == [] then []
    else
      var init, last := Recent(times[..|times| - 1], cutoff), times[|times| - 1];
      if last > cutoff then init + [last] else init
  }

  type Loads = map<string, seq<Time>>

  function Times(v: Loads, device: string): seq<Time> {
    if device in v then v[device] else []
  }

  function Prune(v: Loads, device: string, cutoff: Time): Loads {
    var kept := Recent(Times(v, device), cutoff);
    if kept == [] then v - {device} else v[device := kept]
  }

  lemma PruneThenSet(v: Loads, device: string, cutoff: Time, times: seq<Time>)
    ensures Prune(v, device, cutoff)[device := times] == v[device := times]
  {
  }

  lemma SameElsewhere(v: Loads, w: Loads, device: string, times: seq<Time>)
    requires v.Keys == w.Keys && forall d :: d in v && d != device ==> v[d] == w[d]
    ensures v[device := times] == w[device := times]
  {
  }

  lemma PruneByResize(v: Loads, compacted: Loads, device: string, n: nat, cutoff: Time)
    requires device in v && compacted.Keys == v.Keys && n <= |compacted[device]|
    requires forall d :: d in v && d != device ==> compacted[d] == v[d]
    requires compacted[device][..n] == Recent(v[device], cutoff)
    ensures Prune(v, device, cutoff) ==
            if n == 0 then compacted - {device} else compacted[device := compacted[device][..n]]
  {
    assert |Recent(v[device], cutoff)| == n;
  }

  function Query(v: Loads, device: string, now: Time): (Loads, bool) {
    if device == "" then (v, false)
    else (Prune(v, device, now - WINDOW), |Recent(Times(v, device), now - WINDOW)| < LIMIT)
  }

  function Record(v: Loads, device: string, now: Time): (Loads, bool) {
    if device == "" then (v, false)
    else
      var kept := Recent(Times(v, device), now - WINDOW);
      if |kept| >= LIMIT then (Prune(v, device, now - WINDOW), false)
      else (v[device := kept + [now]], true)
  }

  function Clear(v: Loads, device: string): Loads {
    if device == "" then v else v - {device}
  }

  // --- The limiter as it is built: slices over arrays, compacted in place ---

  datatype Slice = Slice(data: array<Time>, len: nat)

  class LoadRateLimiter {
    var loads: map<string, Slice>

    /** Slices stay inside their arrays, and no two devices share one. */
    ghost predicate Valid()
      reads this
    {
      && (forall d :: d in loads ==> loads[d].len <= loads[d].data.Length)
      && (forall d, e :: d in loads && e in loads && d != e ==> loads[d].data != loads[e].data)
    }

    ghost function Arrays(): set<object>
      reads this
    {
      set d | d in loads :: loads[d].data
    }

    ghost function View(): Loads
      requires Valid()
      reads this, Arrays()
    {
      map d | d in loads :: loads[d].data[..loads[d].len]
    }

    constructor ()
      ensures Valid() && View() == map[]
    {
      loads := map[];
    }

    /** pruneLocked: the surviving times move to the front of the same array. */
    method PruneLocked(device: string, cutoff: Time) returns (times: Slice)
      requires Valid()
      modifies this, Arrays()
      ensures Valid() && View() == Prune(old(View()), device, cutoff)
      ensures times.len <= times.data.Length && times.data[..times.len] == Recent(Times(old(View()), device), cutoff)
      ensures device in old(loads) ==> times.data == old(loads)[device].data
      ensures device !in old(loads) ==> fresh(times.data)
      ensures forall d :: d in loads ==> d in old(loads) && loads[d].data == old(loads)[d].data
    {
      if device !in loads {
        var none := new Time[0];
        times := Slice(none, 0);
        return;
      }
      var n := Compact(device, cutoff);
      times := Slice(loads[device].data, n);
      PruneByResize(old(View()), View(), device, n, cutoff);
      Resize(device, n);
    }

    method Compact(device: string, cutoff: Time) returns (n: nat)
      requires Valid() && device in loads
      modifies loads[device].data
      ensures n <= loads[device].len && View()[device][..n] == Recent(old(View())[device], cutoff)
      ensures View().Keys == old(View()).Keys && forall d :: d in loads && d != device ==> View()[d] == old(View())[d]
    {
      n := CompactAfter(loads[device].data, loads[device].len, cutoff);
    }

    method SetSlice(device: string, s: Slice)
      requires Valid() && s.len <= s.data.Length
      requires forall d :: d in loads && d != device ==> loads[d].data != s.data
      modifies this
      ensures Valid() && loads == old(loads)[device := s] && View() == old(View())[device := s.data[..s.len]]
    {
      loads := loads[device := s];
    }

    method Resize(device: string, n: nat)
      requires Valid() && device in loads && n <= loads[device].len
      modifies this
      ensures Valid() && View() == if n == 0 then old(View()) - {device}
                else old(View())[device := old(View())[device][..n]]
      ensures forall d :: d in loads ==> d in old(loads) && loads[d].data == old(loads)[d].data
    {
      if n == 0 {
        loads := loads - {device};
      } else {
        assert loads[device].data[..loads[device].len][..n] == loads[device].data[..n];
        SetSlice(device, Slice(loads[device].data, n));
      }
    }

    method Allowed(device: string, now: Time) returns (ok: bool)
      requires Valid()
      modifies this, Arrays()
      ensures Valid() && (View(), ok) == Query(old(View()), device, now)
    {
      if device == "" {
        return false;
      }
      var times := PruneLocked(device, now - WINDOW);
      ok := times.len < LIMIT;
    }

    method TryRecordSuccess(device: string, now: Time) returns (ok: bool)
      requires Valid()
      modifies this, Arrays()
      ensures Valid() && (View(), ok) == Record(old(View()), device, now)
    {
      if device == "" {
        return false;
      }
      var times := PruneLocked(device, now - WINDOW);
      if times.len >= LIMIT {
        return false;
      }
      PruneThenSet(old(View()), device, now - WINDOW, times.data[..times.len] + [now]);
      Extend(device, times, now);
      return true;
    }

    /** Store append(times, now) for the device. */
    method Extend(device: string, times: Slice, now: Time)
      requires Valid() && times.len <= times.data.Length
      requires forall d :: d in loads && d != device ==> loads[d].data != times.data
      modifies this, times.data
      ensures Valid() && View() == old(View())[device := old(times.data[..times.len]) + [now]]
    {
      ghost var was := View();
      var grown := Append(times, now);
      SameElsewhere(was, View(), device, grown.data[..grown.len]);
      SetSlice(device, grown);
    }

    method Forget(device: string)
      requires Valid()
      modifies this
      ensures Valid() && View() == Clear(old(View()), device)
    {
      if device == "" {
        return;
      }
      loads := loads - {device};
    }
  }

  lemma RecentNext(times: seq<Time>, i: nat, cutoff: Time)
    requires i < |times|
    ensures Recent(times[..i + 1], cutoff) == Recent(times[..i], cutoff) + if times[i] > cutoff then [times[i]] else []
  {
    assert times[..i + 1][..i] == times[..i];
  }

  /** The compaction loop: keep the times after cutoff, in order, at the front of the array. */
  method CompactAfter(a: array<Time>, len: nat, cutoff: Time) returns (n: nat)
    requires len <= a.Length
    modifies a
    ensures n <= len && a[..n] == Recent(old(a[..len]), cutoff)
  {
    n := 0;
    var i := 0;
    while i < len
      invariant n <= i <= len
      invariant a[..n] == Recent(old(a[..len])[..i], cutoff)
      invariant a[i..len] == old(a[i..len])
    {
      var ts := a[i];
      ghost var kept := a[..n];
      assert ts == a[i..len][0] == old(a[i]);
      RecentNext(old(a[..len]), i, cutoff);
      if ts > cutoff {
        a[n] := ts;
        n := n + 1;
        assert a[..n] == kept + [ts];
      }
      i := i + 1;
    }
    assert old(a[..len])[..len] == old(a[..len]);
  }

  /** append: in place while there is room, else into a larger copy. */
  method Append(s: Slice, now: Time) returns (r: Slice)
    requires s.len <= s.data.Length
    modifies s.data
    ensures r.len == s.len + 1 <= r.data.Length && r.data[..r.len] == old(s.data[..s.len]) + [now]
    ensures r.data == s.data || fresh(r.data)
  {
    if s.len < s.data.Length {
      s.data[s.len] := now;
      return Slice(s.data, s.len + 1);
    }
    var bigger := new Time[2 * s.len + 1];
    forall i | 0 <= i < s.len {
      bigger[i] := s.data[i];
    }
    bigger[s.len] := now;
    return Slice(bigger, s.len + 1);
  }

  // --- Refinement of the history ---

  datatype Op = Try(device: string, now: Time) | Ask(device: string, now: Time) | Revoke(device: string, now: Time)

  function Step(v: Loads, op: Op): Loads {
    match op
    case Try(d, now) => Record(v, d, now).0
    case Ask(d, now) => Query(v, d, now).0
    case Revoke(d, _) => Clear(v, d)
  }

  function Run(ops: seq<Op>): Loads {
    if ops == [] then map[] else Step(Run(ops[..|ops| - 1]), ops[|ops| - 1])
  }

  predicate Monotone(ops: seq<Op>) {
    forall i, j :: 0 <= i < j < |ops| ==> ops[i].now <= ops[j].now
  }

  /** Whether a history leaves room for one more success. */
  predicate UnderLimit(successes: seq<Time>, now: Time) {
    |Recent(successes, now - WINDOW)| < LIMIT
  }

  /** The successes of a device since it was last revoked, by the history alone. */
  function Successes(ops: seq<Op>, device: string): seq<Time> {
    if ops == [] then []
    else
      var before := Successes(ops[..|ops| - 1], device);
      match ops[|ops| - 1]
      case Try(d, now) => if d == device && d != "" && UnderLimit(before, now) then before + [now] else before
      case Ask(_, _) => before
      case Revoke(d, _) => if d == device then [] else before
  }

  lemma {:induction false} RecentTwice(times: seq<Time>, c: Time, cutoff: Time)
    requires c <= cutoff
    ensures Recent(Recent(times, c), cutoff) == Recent(times, cutoff)
  {
    if times != [] {
      var init := times[..|times| - 1];
      RecentTwice(init, c, cutoff);
      var kept := Recent(init, c);
      if times[|times| - 1] > c {
        var all := kept + [times[|times| - 1]];
        assert all[..|all| - 1] == kept;
      }
    }
  }

  lemma RecentAppend(times: seq<Time>, t: Time, cutoff: Time)
    ensures Recent(times + [t], cutoff) == Recent(times, cutoff) + (if t > cutoff then [t] else [])
  {
    assert (times + [t])[..|times|] == times;
  }

  /** Limiter and history agree on every time the window can still reach. */
  ghost predicate Agrees(v: Loads, ops: seq<Op>, clock: Time) {
    forall device, cutoff :: cutoff >= clock - WINDOW ==>
      Recent(Times(v, device), cutoff) == Recent(Successes(ops, device), cutoff)
  }

  function Clock(ops: seq<Op>): Time {
    if ops == [] then 0 else ops[|ops| - 1].now
  }

  lemma StepAgrees(v: Loads, ops: seq<Op>, op: Op, clock: Time)
    requires Agrees(v, ops, clock) && clock <= op.now
    ensures Agrees(Step(v, op), ops + [op], op.now)
  {
    assert (ops + [op])[..|ops|] == ops;
    var v', ops' := Step(v, op), ops + [op];
    forall device, cutoff | cutoff >= op.now - WINDOW
      ensures Recent(Times(v', device), cutoff) == Recent(Successes(ops', device), cutoff)
    {
      if device != op.device || device == "" {
        assert Times(v', device) == Times(v, device);
        assert Recent(Times(v, device), cutoff) == Recent(Successes(ops, device), cutoff);
        EmptyDevice(ops, op);
      } else {
        OwnDeviceAgrees(v, ops, op, clock, cutoff);
      }
    }
  }

  lemma EmptyDevice(ops: seq<Op>, op: Op)
    ensures Successes(ops, "") == [] && Successes(ops + [op], "") == []
  {
    NoAnonymous(ops);
    NoAnonymous(ops + [op]);
  }

  lemma {:induction false} NoAnonymous(ops: seq<Op>)
    ensures Successes(ops, "") == []
  {
    if ops != [] {
      NoAnonymous(ops[..|ops| - 1]);
    }
  }

  lemma OwnDeviceAgrees(v: Loads, ops: seq<Op>, op: Op, clock: Time, cutoff: Time)
    requires Agrees(v, ops, clock) && clock <= op.now && cutoff >= op.now - WINDOW && op.device != ""
    ensures Recent(Times(Step(v, op), op.device), cutoff) == Recent(Successes(ops + [op], op.device), cutoff)
  {
    var d, edge := op.device, op.now - WINDOW;
    assert Recent(Times(v, d), edge) == Recent(Successes(ops, d), edge);
    assert Recent(Times(v, d), cutoff) == Recent(Successes(ops, d), cutoff);
    OwnTimes(v, op);
    OwnSuccesses(ops, op);
    OwnRecent(op, Times(v, d), Successes(ops, d), cutoff);
  }

  /** What an operation leaves of its own device's times. */
  function Left(op: Op, times: seq<Time>): seq<Time> {
    var kept := Recent(times, op.now - WINDOW);
    match op
    case Try(_, now) => if |kept| >= LIMIT then kept else kept + [now]
    case Ask(_, _) => kept
    case Revoke(_, _) => []
  }

  /** What it makes of its own device's successes. */
  function Extended(op: Op, history: seq<Time>): seq<Time> {
    match op
    case Try(_, now) => if UnderLimit(history, now) then history + [now] else history
    case Ask(_, _) => history
    case Revoke(_, _) => []
  }

  lemma OwnTimes(v: Loads, op: Op)
    requires op.device != ""
    ensures Times(Step(v, op), op.device) == Left(op, Times(v, op.device))
  {
  }

  lemma OwnSuccesses(ops: seq<Op>, op: Op)
    requires op.device != ""
    ensures Successes(ops + [op], op.device) == Extended(op, Successes(ops, op.device))
  {
    assert (ops + [op])[..|ops|] == ops;
  }

  lemma {:induction false} OwnRecent(op: Op, times: seq<Time>, history: seq<Time>, cutoff: Time)
    requires cutoff >= op.now - WINDOW
    requires Recent(times, op.now - WINDOW) == Recent(history, op.now - WINDOW)
    requires Recent(times, cutoff) == Recent(history, cutoff)
    ensures Recent(Left(op, times), cutoff) == Recent(Extended(op, history), cutoff)
  {
    var kept := Recent(times, op.now - WINDOW);
    RecentTwice(times, op.now - WINDOW, cutoff);
    if op.Try? && |kept| < LIMIT {
      AppendBoth(kept, history, op.now, cutoff);
    }
  }

  lemma {:induction false} AppendBoth(kept: seq<Time>, history: seq<Time>, now: Time, cutoff: Time)
    requires Recent(kept, cutoff) == Recent(history, cutoff)
    ensures Recent(kept + [now], cutoff) == Recent(history + [now], cutoff)
  {
    RecentAppend(history, now, cutoff);
    RecentAppend(kept, now, cutoff);
  }

  lemma {:induction false} RunAgrees(ops: seq<Op>)
    requires Monotone(ops)
    ensures Agrees(Run(ops), ops, Clock(ops))
  {
    if ops != [] {
      var init, op := ops[..|ops| - 1], ops[|ops| - 1];
      RunAgrees(init);
      assert init + [op] == ops;
      if init == [] {
        StepAgrees(Run(init), init, op, op.now);
      } else {
        assert ops[|init| - 1].now <= ops[|init|].now;
        StepAgrees(Run(init), init, op, Clock(init));
      }
    }
  }

  /** In every run on a non-decreasing clock both questions are answered from the successes of the
      last hour. */
  lemma AnswersFromHistory(ops: seq<Op>, device: string, now: Time)
    requires Monotone(ops + [Try(device, now)])
    ensures Record(Run(ops), device, now).1 <==> device != "" && UnderLimit(Successes(ops, device), now)
    ensures Query(Run(ops), device, now).1 <==> device != "" && UnderLimit(Successes(ops, device), now)
  {
    var all := ops + [Try(device, now)];
    assert forall i :: 0 <= i < |ops| ==> ops[i] == all[i];
    RunAgrees(ops);
    if ops != [] {
      assert all[|ops| - 1].now <= all[|ops|].now;
      assert Recent(Times(Run(ops), device), now - WINDOW) == Recent(Successes(ops, device), now - WINDOW);
    }
  }

  predicate Sorted(times: seq<Time>) {
    forall i, j :: 0 <= i < j < |times| ==> times[i] <= times[j]
  }

  lemma {:induction false} SuccessesSorted(ops: seq<Op>, device: string)
    requires Monotone(ops)
    ensures Sorted(Successes(ops, device))
    ensures forall i :: 0 <= i < |Successes(ops, device)| ==> Successes(ops, device)[i] <= Clock(ops)
  {
    if ops != [] {
      var init := ops[..|ops| - 1];
      SuccessesSorted(init, device);
      if init != [] {
        assert ops[|init| - 1].now <= ops[|init|].now;
      }
    }
  }

  lemma {:induction false} RecentCount(times: seq<Time>, cutoff: Time, i: nat)
    requires Sorted(times) && i < |times| && times[i] > cutoff
    ensures |Recent(times, cutoff)| >= |times| - i
  {
    var init := times[..|times| - 1];
    if i < |init| {
      assert init[i] == times[i] && times[|times| - 1] >= times[i];
      RecentCount(init, cutoff, i);
    }
  }

  /** Any eleven successes of a device span at least an hour, so no hour holds more than ten. */
  lemma {:induction false} HourHoldsTen(ops: seq<Op>, device: string, i: nat)
    requires Monotone(ops) && i + 10 < |Successes(ops, device)|
    ensures Successes(ops, device)[i + 10] - Successes(ops, device)[i] >= 60 * MINUTE
  {
    var init := ops[..|ops| - 1];
    var before, s := Successes(init, device), Successes(ops, device);
    if i + LIMIT < |before| {
      HourHoldsTen(init, device, i);
    } else {
      SuccessesSorted(init, device);
      assert s == before + [ops[|ops| - 1].now];
      if s[i + LIMIT] - before[i] < WINDOW {
        RecentCount(before, s[i + LIMIT] - WINDOW, i);
        assert false;
      }
    }
  }

  /** A run without its questions. */
  function WithoutAsks(ops: seq<Op>): seq<Op> {
    if ops == [] then []
    else
      var init := WithoutAsks(ops[..|ops| - 1]);
      if ops[|ops| - 1].Ask? then init else init + [ops[|ops| - 1]]
  }

  lemma {:induction false} AsksChangeNothing(ops: seq<Op>, device: string)
    ensures Successes(WithoutAsks(ops), device) == Successes(ops, device)
  {
    if ops != [] {
      var init, op := ops[..|ops| - 1], ops[|ops| - 1];
      AsksChangeNothing(init, device);
      if !op.Ask? {
        var w := WithoutAsks(init);
        assert (w + [op])[..|w|] == w;
      }
    }
  }

  lemma {:induction false} WithoutAsksMonotone(ops: seq<Op>)
    requires Monotone(ops)
    ensures Monotone(WithoutAsks(ops))
    ensures forall i :: 0 <= i < |WithoutAsks(ops)| ==> WithoutAsks(ops)[i].now <= Clock(ops)
  {
    if ops != [] {
      var init := ops[..|ops| - 1];
      WithoutAsksMonotone(init);
      if init != [] {
        assert ops[|init| - 1].now <= ops[|init|].now;
      }
    }
  }

  /** Asking whether a load is allowed, however often, changes no later answer. */
  lemma AsksAreReadOnly(ops: seq<Op>, device: string, now: Time)
    requires Monotone(ops + [Try(device, now)])
    ensures Record(Run(ops), device, now).1 == Record(Run(WithoutAsks(ops)), device, now).1
    ensures Query(Run(ops), device, now).1 == Query(Run(WithoutAsks(ops)), device, now).1
  {
    var all, w := ops + [Try(device, now)], WithoutAsks(ops);
    assert forall i :: 0 <= i < |ops| ==> ops[i] == all[i];
    WithoutAsksMonotone(ops);
    if ops != [] {
      assert all[|ops| - 1].now <= all[|ops|].now;
    }
    AnswersFromHistory(ops, device, now);
    AnswersFromHistory(w, device, now);
    AsksChangeNothing(ops, device);
  }

  lemma {:induction false} RecentLength(times: seq<Time>, cutoff: Time)
    ensures |Recent(times, cutoff)| <= |times|
  {
    if times != [] {
      RecentLength(times[..|times| - 1], cutoff);
    }
  }

  /** The question leaves the limiter itself as it is exactly when there is nothing to prune. */
  lemma AskLeavesLimiterIff(v: Loads, device: string, now: Time)
    ensures Query(v, device, now).0 == v <==>
              device == "" || device !in v || (v[device] != [] && Recent(v[device], now - WINDOW) == v[device])
  {
    if device != "" && device in v {
      var kept := Recent(v[device], now - WINDOW);
      assert kept != [] ==> v[device := kept][device] == kept;
      assert kept == v[device] ==> v[device := kept] == v;
    }
  }

  /** An hour after a success the question throws it away. */
  lemma AskPrunes(device: string)
    requires device != ""
    ensures Run([Try(device, 0)]) == map[device := [0]] && Query(Run([Try(device, 0)]), device, WINDOW).0 == map[]
  {
    assert [Try(device, 0)][..0] == [];
    assert Recent([], 0 - WINDOW) + [0] == [0];
    var v: Loads := map[device := [0]];
    assert [0][..0] == [];
    assert v - {device} == map[];
  }

  // --- The window, counted directly ---

  function Within(times: seq<Time>, cutoff: Time): set<int> {
    set i | 0 <= i < |times| && times[i] > cutoff
  }

  /** The filter keeps as many times as lie after the cutoff. */
  lemma {:induction false} RecentCounts(times: seq<Time>, cutoff: Time)
    ensures |Recent(times, cutoff)| == |Within(times, cutoff)|
  {
    if times != [] {
      var init, n := times[..|times| - 1], |times| - 1;
      RecentCounts(init, cutoff);
      if times[n] > cutoff {
        assert Within(times, cutoff) == Within(init, cutoff) + {n};
      } else {
        assert Within(times, cutoff) == Within(init, cutoff);
      }
    }
  }

  /** In every run on a non-decreasing clock a success is recorded, and allowed, exactly when fewer
      than ten successes of the device are less than an hour old. */
  lemma TenPerHour(ops: seq<Op>, device: string, now: Time)
    requires device != "" && Monotone(ops + [Try(device, now)])
    ensures Record(Run(ops), device, now).1 <==> |Within(Successes(ops, device), now - 60 * MINUTE)| < 10
    ensures Query(Run(ops), device, now).1 <==> |Within(Successes(ops, device), now - 60 * MINUTE)| < 10
  {
    AnswersFromHistory(ops, device, now);
    RecentCounts(Successes(ops, device), now - 60 * MINUTE);
  }

  /** A success is remembered, and forgetting a device forgets all of its successes and no others'. */
  lemma RememberAndForget(ops: seq<Op>, device: string, other: string, now: Time)
    requires device != "" && Monotone(ops + [Try(device, now)])
    ensures Successes(ops + [Revoke(device, now)], device) == []
    ensures other != device ==> Successes(ops + [Revoke(device, now)], other) == Successes(ops, other)
    ensures Successes(ops + [Try(device, now)], device)
         == Successes(ops, device) + if Record(Run(ops), device, now).1 then [now] else []
  {
    assert (ops + [Revoke(device, now)])[..|ops|] == ops && (ops + [Try(device, now)])[..|ops|] == ops;
    AnswersFromHistory(ops, device, now);
    assert Successes(ops, device) + [] == Successes(ops, device);
  }
}
