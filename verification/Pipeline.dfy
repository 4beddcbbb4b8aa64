/** The request pipeline in front of the handlers: body MAC, timestamp window, replay cache, and
    for sign requests the client key checks. */
module Pipeline {
  import opened Prelude
  import opened Replay

  const WINDOW_SECONDS := 30

  /** time.Time.Unix. */
  function Unix(t: Time): int {
    t / SECOND
  }

  /** ValidateTimestampAt, in 64-bit arithmetic: negating the least integer leaves it negative. */
  predicate TimestampOk(ts: Int64, now: Time, window: nat) {
    var delta := Wrap64(Unix(now) - ts);
    (if delta < 0 then Wrap64(-delta) else delta) <= window
  }

  /** Clock readings before the year 146 billion. */
  predicate Plausible(now: Time) {
    0 <= Unix(now) < 0x4000_0000_0000_0000
  }

  /** The check admits the window and one timestamp more, whose distance overflows. */
  lemma TimestampExact(ts: Int64, now: Time, window: nat)
    requires Plausible(now) && window < 0x4000_0000_0000_0000
    ensures TimestampOk(ts, now, window) <==>
            0 - window <= Unix(now) - ts <= window || ts == Unix(now) - 0x8000_0000_0000_0000
  {
    var d := Unix(now) - ts;
    if d >= 0x8000_0000_0000_0000 {
      assert Wrap64(d) == d - 0x1_0000_0000_0000_0000;
    }
  }

  /** At every reading there is such a timestamp: it passes although it is no part of the window. */
  lemma TimestampException(now: Time, window: nat)
    requires Plausible(now) && window < 0x4000_0000_0000_0000
    ensures var ts := Unix(now) - 0x8000_0000_0000_0000;
            TimestampOk(ts, now, window) && Unix(now) - ts > window
  {
    TimestampExact(Unix(now) - 0x8000_0000_0000_0000, now, window);
  }

  /** One timestamp cannot pass at two readings more than twice the window and a second apart,
      the overflowing one included. */
  lemma WindowSpan(ts: Int64, first: Time, second: Time, window: nat)
    requires Plausible(first) && Plausible(second) && window < 0x1000_0000_0000_0000
    requires TimestampOk(ts, first, window) && TimestampOk(ts, second, window)
    ensures Unix(second) - Unix(first) <= 2 * window
    ensures second - first < (2 * window + 1) * SECOND
  {
    TimestampExact(ts, first, window);
    TimestampExact(ts, second, window);
    UnixGap(first, second, 2 * window);
  }

  lemma UnixGap(first: Time, second: Time, k: int)
    ensures Unix(second) - Unix(first) <= k ==> second - first < (k + 1) * SECOND
    ensures second - first >= k * SECOND ==> Unix(second) - Unix(first) >= k
  {
    assert first == Unix(first) * SECOND + first % SECOND;
    assert second == Unix(second) * SECOND + second % SECOND;
  }

  // --- Admission ---

  datatype AuthError = InvalidHMAC | TimestampOutsideWindow | ReplayDetected | BadPublicKey | InvalidPoP
      | BadDisplayFields

  /** The checks of ValidateCLIKeysLoad, which ValidateSignRequest starts with. */
  function Admit(ttl: Time, max: int, order: seq<Entry>, macOk: bool, ts: Int64, key: Key, checkedAt: Time,
                 cachedAt: Time)
    : (seq<Entry>, Option<AuthError>)
  {
    if !macOk then (order, Some(InvalidHMAC))
    else if !TimestampOk(ts, checkedAt, WINDOW_SECONDS) then (order, Some(TimestampOutsideWindow))
    else
      var (order', isNew) := Add(ttl, max, order, key, cachedAt);
      (order', if isNew then None else Some(ReplayDetected))
  }

  /** What each check refuses, and what a refused request leaves untouched. */
  lemma AdmitExact(ttl: Time, max: int, order: seq<Entry>, macOk: bool, ts: Int64, key: Key, checkedAt: Time,
                   cachedAt: Time)
    ensures var (order', err) := Admit(ttl, max, order, macOk, ts, key, checkedAt, cachedAt);
            && (err == Some(InvalidHMAC) <==> !macOk)
            && (err == Some(TimestampOutsideWindow) <==> macOk && !TimestampOk(ts, checkedAt, 30))
            && (err == Some(ReplayDetected) <==>
                  macOk && TimestampOk(ts, checkedAt, 30) && !Add(ttl, max, order, key, cachedAt).1)
            && (!macOk || !TimestampOk(ts, checkedAt, 30) ==> order' == order)
            && (macOk && TimestampOk(ts, checkedAt, 30) ==> order' == Add(ttl, max, order, key, cachedAt).0)
  {
  }

  method ValidateCLIKeysLoad(cache: ReplayLRU, macOk: bool, ts: Int64, key: Key, checkedAt: Time, cachedAt: Time)
    returns (err: Option<AuthError>)
    requires cache.Valid()
    modifies cache
    ensures cache.Valid()
    ensures (cache.order, err) == Admit(cache.ttl, cache.max, old(cache.order), macOk, ts, key, checkedAt, cachedAt)
  {
    if !macOk {
      return Some(InvalidHMAC);
    }
    if !TimestampOk(ts, checkedAt, WINDOW_SECONDS) {
      return Some(TimestampOutsideWindow);
    }
    var isNew := cache.AddIfNew(key, cachedAt);
    if !isNew {
      return Some(ReplayDetected);
    }
    return None;
  }

  /** The key checks come after the cache has recorded the body, so a request that fails them is
      spent all the same. */
  method ValidateSignRequest(cache: ReplayLRU, macOk: bool, ts: Int64, key: Key, checkedAt: Time, cachedAt: Time,
                             keyParses: bool, popOk: bool, displayOk: bool)
    returns (err: Option<AuthError>)
    requires cache.Valid()
    modifies cache
    ensures cache.Valid()
    ensures var r := Admit(cache.ttl, cache.max, old(cache.order), macOk, ts, key, checkedAt, cachedAt);
            && cache.order == r.0
            && (r.1.Some? ==> err == r.1)
            && (r.1.None? ==> err == if !keyParses then Some(BadPublicKey) else if !popOk then Some(InvalidPoP)
                                     else if !displayOk then Some(BadDisplayFields) else None)
  {
    err := ValidateCLIKeysLoad(cache, macOk, ts, key, checkedAt, cachedAt);
    if err.Some? {
      return;
    }
    if !keyParses {
      return Some(BadPublicKey);
    }
    if !popOk {
      return Some(InvalidPoP);
    }
    if !displayOk {
      return Some(BadDisplayFields);
    }
  }

  // --- Runs of requests ---

  /** The body determines its hash and its timestamp; both readings of the clock are inputs. */
  datatype Env = Env(ttl: Time, max: int, hash: Bytes -> Key, stamp: Bytes -> Int64)

  datatype Request = Request(body: Bytes, macOk: bool, checkedAt: Time, cachedAt: Time)

  function Answer(e: Env, order: seq<Entry>, r: Request): (seq<Entry>, Option<AuthError>) {
    Admit(e.ttl, e.max, order, r.macOk, e.stamp(r.body), e.hash(r.body), r.checkedAt, r.cachedAt)
  }

  function Order(e: Env, reqs: seq<Request>): seq<Entry> {
    if reqs == [] then [] else Answer(e, Order(e, reqs[..|reqs| - 1]), reqs[|reqs| - 1]).0
  }

  /** The requests let through to the handlers. */
  function Admitted(e: Env, reqs: seq<Request>): seq<Request> {
    if reqs == [] then []
    else
      var init, r := reqs[..|reqs| - 1], reqs[|reqs| - 1];
      if Answer(e, Order(e, init), r).1.None? then Admitted(e, init) + [r] else Admitted(e, init)
  }

  predicate ReachesCache(e: Env, r: Request) {
    r.macOk && TimestampOk(e.stamp(r.body), r.checkedAt, WINDOW_SECONDS)
  }

  function CallOf(e: Env, r: Request): Call {
    Call(e.hash(r.body), r.cachedAt)
  }

  /** The cache calls a run of requests makes. */
  function Calls(e: Env, reqs: seq<Request>): seq<Call> {
    if reqs == [] then []
    else
      var init, r := Calls(e, reqs[..|reqs| - 1]), reqs[|reqs| - 1];
      if ReachesCache(e, r) then init + [CallOf(e, r)] else init
  }

  predicate SameCalls(e: Env, admitted: seq<Request>, accepted: seq<Call>) {
    && |admitted| == |accepted|
    && forall i :: 0 <= i < |admitted| ==> ReachesCache(e, admitted[i]) && accepted[i] == CallOf(e, admitted[i])
  }

  lemma {:induction false} AnsweredAsAccepted(e: Env, before: seq<Call>, r: Request)
    requires Monotone(before + [CallOf(e, r)])
    ensures var accepted, calls := Accepted(e.ttl, e.max, before), before + [CallOf(e, r)];
            var added := Add(e.ttl, e.max, Run(e.ttl, e.max, before), e.hash(r.body), r.cachedAt);
            && Accepted(e.ttl, e.max, calls) == (if added.1 then accepted + [CallOf(e, r)] else accepted)
            && Run(e.ttl, e.max, calls) == added.0
  {
    assert (before + [CallOf(e, r)])[..|before|] == before;
    AnswersFromHistory(e.ttl, e.max, before, e.hash(r.body), r.cachedAt);
  }

  lemma SameCallsGrow(e: Env, admitted: seq<Request>, accepted: seq<Call>, r: Request)
    requires SameCalls(e, admitted, accepted) && ReachesCache(e, r)
    ensures SameCalls(e, admitted + [r], accepted + [CallOf(e, r)])
  {
  }

  /** Whether or not the last request is admitted, it is what the cache says. */
  lemma {:induction false} LastAdmission(e: Env, init: seq<Request>, r: Request)
    ensures var (order, err) := Answer(e, Order(e, init), r);
            && Order(e, init + [r]) == order
            && Admitted(e, init + [r]) == (if err.None? then Admitted(e, init) + [r] else Admitted(e, init))
            && Calls(e, init + [r]) == (if ReachesCache(e, r) then Calls(e, init) + [CallOf(e, r)] else Calls(e, init))
  {
    assert (init + [r])[..|init|] == init;
  }

  lemma {:induction false} AdmittedAreAccepted(e: Env, reqs: seq<Request>)
    requires Monotone(Calls(e, reqs))
    ensures Order(e, reqs) == Run(e.ttl, e.max, Calls(e, reqs))
    ensures SameCalls(e, Admitted(e, reqs), Accepted(e.ttl, e.max, Calls(e, reqs)))
  {
    if reqs != [] {
      var init, r := reqs[..|reqs| - 1], reqs[|reqs| - 1];
      assert reqs == init + [r];
      LastAdmission(e, init, r);
      CallsPrefixMonotone(e, init, r);
      AdmittedAreAccepted(e, init);
      if ReachesCache(e, r) {
        AnsweredAsAccepted(e, Calls(e, init), r);
        SameCallsGrow(e, Admitted(e, init), Accepted(e.ttl, e.max, Calls(e, init)), r);
      }
    }
  }

  /** Two admissions of one body with fewer than max admissions between them: the cache keeps them
      at least ttl apart, the timestamp check less than twice the window and a second. */
  lemma TwoAdmissions(e: Env, reqs: seq<Request>, i: nat, j: nat)
    requires Monotone(Calls(e, reqs))
    requires i < j < |Admitted(e, reqs)| && j - 1 - i < e.max
    requires Admitted(e, reqs)[i].body == Admitted(e, reqs)[j].body
    requires Plausible(Admitted(e, reqs)[i].checkedAt) && Plausible(Admitted(e, reqs)[j].checkedAt)
    ensures var a, b := Admitted(e, reqs)[i], Admitted(e, reqs)[j];
            && b.cachedAt - a.cachedAt >= e.ttl
            && b.checkedAt - a.checkedAt < (2 * WINDOW_SECONDS + 1) * SECOND
  {
    var a, b := Admitted(e, reqs)[i], Admitted(e, reqs)[j];
    AdmittedAreAccepted(e, reqs);
    AcceptancesApart(e.ttl, e.max, Calls(e, reqs), i, j);
    WindowSpan(e.stamp(a.body), a.checkedAt, b.checkedAt, WINDOW_SECONDS);
  }

  /** When ttl covers twice the window, a second and the longest delay between the two clock
      readings, a body is admitted once, short of capacity eviction. */
  lemma AtMostOnce(e: Env, reqs: seq<Request>, delay: Time, i: nat, j: nat)
    requires Monotone(Calls(e, reqs))
    requires e.ttl >= (2 * WINDOW_SECONDS + 1) * SECOND + delay
    requires i < j < |Admitted(e, reqs)| && j - 1 - i < e.max
    requires forall k | k in Admitted(e, reqs) :: Plausible(k.checkedAt)
              && k.checkedAt <= k.cachedAt <= k.checkedAt + delay
    ensures Admitted(e, reqs)[i].body != Admitted(e, reqs)[j].body
  {
    var a, b := Admitted(e, reqs)[i], Admitted(e, reqs)[j];
    assert a in Admitted(e, reqs) && b in Admitted(e, reqs);
    if a.body == b.body {
      TwoAdmissions(e, reqs, i, j);
      assert false;
    }
  }

  // --- The deployed cache: sixty seconds against a window of thirty either way ---

  const DEPLOYED_TTL := 60 * SECOND

  /** For any ttl: a request whose body was admitted before, with fewer than max admissions since,
      is admitted again exactly when its own checks pass and ttl has gone by in cache time. */
  lemma AdmittedAgain(e: Env, reqs: seq<Request>, latest: nat, r: Request)
    requires Monotone(Calls(e, reqs + [r]))
    requires Latest(Accepted(e.ttl, e.max, Calls(e, reqs)), e.hash(r.body)) == Some(latest)
    requires |Admitted(e, reqs)| - 1 - latest < e.max
    ensures latest < |Admitted(e, reqs)|
    ensures Answer(e, Order(e, reqs), r).1.None? <==>
              ReachesCache(e, r) && r.cachedAt - Admitted(e, reqs)[latest].cachedAt >= e.ttl
  {
    CallsPrefixMonotone(e, reqs, r);
    AdmittedAreAccepted(e, reqs);
    if ReachesCache(e, r) {
      AnswersFromHistory(e.ttl, e.max, Calls(e, reqs), e.hash(r.body), r.cachedAt);
    }
  }

  /** At most delay passes between the check of the timestamp and the look into the cache. */
  predicate Prompt(r: Request, delay: Time) {
    r.checkedAt <= r.cachedAt <= r.checkedAt + delay
  }

  /** The first second of the window of a timestamp, and the delay beyond it. */
  predicate Early(t: Time, ts: Int64, delay: Time) {
    (ts - WINDOW_SECONDS) * SECOND <= t < (ts - WINDOW_SECONDS + 1) * SECOND + delay
  }

  /** The last second of the window, and the delay before it. */
  predicate Late(t: Time, ts: Int64, delay: Time) {
    (ts + WINDOW_SECONDS) * SECOND - delay <= t < (ts + WINDOW_SECONDS + 1) * SECOND
  }

  lemma WindowEnds(ts: Int64, now: Time)
    ensures Unix(now) >= ts - WINDOW_SECONDS ==> now >= (ts - WINDOW_SECONDS) * SECOND
    ensures Unix(now) <= ts + WINDOW_SECONDS ==> now < (ts + WINDOW_SECONDS + 1) * SECOND
    ensures now >= (ts - WINDOW_SECONDS) * SECOND ==> Unix(now) >= ts - WINDOW_SECONDS
    ensures now < (ts + WINDOW_SECONDS + 1) * SECOND ==> Unix(now) <= ts + WINDOW_SECONDS
  {
    assert now == Unix(now) * SECOND + now % SECOND;
  }

  /** The deployed ttl is a second short. When no request takes longer than delay between its two
      readings, a body admitted before is admitted again only if it was checked in the first second
      of its window and delay, and again in the last second and delay; a timestamp that overflows
      needs a delay of more than 59 seconds. */
  lemma DeployedResidual(e: Env, reqs: seq<Request>, latest: nat, r: Request, delay: Time)
    requires e.ttl == DEPLOYED_TTL && Monotone(Calls(e, reqs + [r]))
    requires Latest(Accepted(e.ttl, e.max, Calls(e, reqs)), e.hash(r.body)) == Some(latest)
    requires |Admitted(e, reqs)| - 1 - latest < e.max
    requires latest < |Admitted(e, reqs)| && Admitted(e, reqs)[latest].body == r.body
    requires Answer(e, Order(e, reqs), r).1.None?
    requires var first := Admitted(e, reqs)[latest];
             Plausible(first.checkedAt) && Plausible(r.checkedAt) && Prompt(first, delay) && Prompt(r, delay)
    ensures var first, ts := Admitted(e, reqs)[latest], e.stamp(r.body);
            || (Early(first.checkedAt, ts, delay) && Late(r.checkedAt, ts, delay))
            || (ts == Unix(r.checkedAt) - 0x8000_0000_0000_0000 && delay > DEPLOYED_TTL - SECOND)
  {
    var first, ts := Admitted(e, reqs)[latest], e.stamp(r.body);
    CallsPrefixMonotone(e, reqs, r);
    AdmittedAreAccepted(e, reqs);
    AdmittedAgain(e, reqs, latest, r);
    TimestampExact(ts, first.checkedAt, WINDOW_SECONDS);
    TimestampExact(ts, r.checkedAt, WINDOW_SECONDS);
    WindowEnds(ts, first.checkedAt);
    WindowEnds(ts, r.checkedAt);
    UnixGap(first.checkedAt, r.checkedAt, 0);
  }

  /** Without any delay that is exactly the first and the last second, sixty seconds apart. */
  lemma DeployedInstant(e: Env, reqs: seq<Request>, latest: nat, r: Request)
    requires e.ttl == DEPLOYED_TTL && Monotone(Calls(e, reqs + [r]))
    requires Latest(Accepted(e.ttl, e.max, Calls(e, reqs)), e.hash(r.body)) == Some(latest)
    requires |Admitted(e, reqs)| - 1 - latest < e.max
    requires latest < |Admitted(e, reqs)| && Admitted(e, reqs)[latest].body == r.body
    requires var first := Admitted(e, reqs)[latest];
             Plausible(first.checkedAt) && Plausible(r.checkedAt) && Prompt(first, 0) && Prompt(r, 0)
    ensures var first, ts := Admitted(e, reqs)[latest], e.stamp(r.body);
            Answer(e, Order(e, reqs), r).1.None? <==>
              && r.macOk && Early(first.checkedAt, ts, 0) && Late(r.checkedAt, ts, 0)
              && r.checkedAt - first.checkedAt >= DEPLOYED_TTL
  {
    AdmittedAgain(e, reqs, latest, r);
    if Answer(e, Order(e, reqs), r).1.None? {
      DeployedResidual(e, reqs, latest, r, 0);
    }
    TimestampExact(e.stamp(r.body), r.checkedAt, WINDOW_SECONDS);
    WindowEnds(e.stamp(r.body), r.checkedAt);
  }

  lemma CallsPrefixMonotone(e: Env, reqs: seq<Request>, r: Request)
    requires Monotone(Calls(e, reqs + [r]))
    ensures Monotone(Calls(e, reqs))
    ensures ReachesCache(e, r) ==> Monotone(Calls(e, reqs) + [CallOf(e, r)])
  {
    var all := Calls(e, reqs + [r]);
    assert (reqs + [r])[..|reqs|] == reqs;
    var calls := Calls(e, reqs);
    assert forall i :: 0 <= i < |calls| ==> calls[i] == all[i];
  }

  /** Two requests for one body, on an empty cache, are both admitted exactly when both pass their
      checks and ttl goes by between their looks into the cache. */
  lemma BothAdmitted(e: Env, a: Request, b: Request)
    requires e.max > 0 && a.body == b.body && a.cachedAt <= b.cachedAt
    ensures Admitted(e, [a, b]) == [a, b] <==>
              ReachesCache(e, a) && ReachesCache(e, b) && b.cachedAt - a.cachedAt >= e.ttl
  {
    assert [a, b][..1] == [a] && [a] + [b] == [a, b];
    OneAdmitted(e, a);
    if ReachesCache(e, a) {
      AdmittedAgain(e, [a], 0, b);
    }
  }

  lemma OneAdmitted(e: Env, a: Request)
    ensures Admitted(e, [a]) == if ReachesCache(e, a) then [a] else []
    ensures ReachesCache(e, a) ==> Calls(e, [a]) == Accepted(e.ttl, e.max, Calls(e, [a])) == [CallOf(e, a)]
  {
    assert [a][..0] == [] && [CallOf(e, a)][..0] == [];
    assert Order(e, []) == [] && Admitted(e, []) == [] && Calls(e, []) == [];
    if ReachesCache(e, a) {
      assert Answer(e, [], a).1.None?;
      assert [] + [a] == [a] && [] + [CallOf(e, a)] == [CallOf(e, a)];
    }
  }

  /** The residual is real and its boundary sharp: from every reading in the first second of the
      window and delay, a body can be admitted twice without any request taking longer than delay. */
  lemma DeployedReplay(e: Env, body: Bytes, t: Time, delay: Time)
    requires e.ttl == DEPLOYED_TTL && e.max > 0 && 0 <= delay <= DEPLOYED_TTL
    requires Plausible(t) && Plausible(t + DEPLOYED_TTL - delay) && Early(t, e.stamp(body), delay)
    ensures var a := Request(body, true, t, t);
            var b := Request(body, true, t + DEPLOYED_TTL - delay, t + DEPLOYED_TTL);
            Prompt(a, delay) && Prompt(b, delay) && Admitted(e, [a, b]) == [a, b]
  {
    var ts, t' := e.stamp(body), t + DEPLOYED_TTL - delay;
    TimestampExact(ts, t, WINDOW_SECONDS);
    TimestampExact(ts, t', WINDOW_SECONDS);
    WindowEnds(ts, t);
    WindowEnds(ts, t');
    BothAdmitted(e, Request(body, true, t, t), Request(body, true, t', t + DEPLOYED_TTL));
  }
}
