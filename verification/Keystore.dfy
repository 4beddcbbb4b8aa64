/** The keystore: signing material behind a passphrase, with a lockout after failed decryptions. */
module Keystore {
  import opened Prelude

  const MAX_ATTEMPTS := 5
  const COOLDOWN: Time := 15 * MINUTE

  datatype Mode = LocalCA | LocalKey

  /** A decrypted private key, known by the fingerprint of its public half. */
  datatype Signer = Signer(fingerprint: string, key: Bytes)

  datatype Loaded = Loaded(signer: Signer, comment: string)

  datatype Vault = Vault(mode: Mode, ca: Option<Signer>, pool: map<string, Loaded>, fails: int,
                         lockedUntil: Option<Time>)

  datatype LoadResult = LoadedAs(fingerprint: string) | UnsealLocked | MlockFailed | DecryptFailed

  /** One call of LoadPEMBytes: its two clock readings, whether the pages of key and passphrase
      could be locked, and what decryption yields. */
  datatype Attempt = Attempt(checkedAt: Time, recordedAt: Time, mlocked: bool, decrypted: Option<Signer>,
                             comment: string)

  // --- The lockout state machine ---

  predicate Locked(v: Vault, now: Time) {
    v.lockedUntil.Some? && now < v.lockedUntil.value
  }

  /** checkUnsealLock once the lock, if any, has run out. */
  function Unlock(v: Vault): Vault {
    if v.lockedUntil.Some? then v.(lockedUntil := None, fails := 0) else v
  }

  function RecordFailure(v: Vault, now: Time): Vault {
    if v.fails + 1 >= MAX_ATTEMPTS then v.(fails := 0, lockedUntil := Some(now + COOLDOWN))
    else v.(fails := v.fails + 1)
  }

  function Insert(v: Vault, s: Signer, comment: string): Vault {
    match v.mode
    case LocalKey => v.(pool := v.pool[s.fingerprint := Loaded(s, comment)])
    case LocalCA => v.(ca := Some(s))
  }

  function Load(v: Vault, a: Attempt): (Vault, LoadResult) {
    if Locked(v, a.checkedAt) then (v, UnsealLocked)
    else if !a.mlocked then (Unlock(v), MlockFailed)
    else
      match a.decrypted
      case None => (RecordFailure(Unlock(v), a.recordedAt), DecryptFailed)
      case Some(s) => (Insert(Unlock(v), s, a.comment).(fails := 0), LoadedAs(s.fingerprint))
  }

  // --- The keystore as it is built ---

  class Store {
    const mode: Mode
    var caSigner: Option<Signer>
    var pool: map<string, Loaded>
    var unsealFails: int
    var unsealLockedUntil: Option<Time>

    function Contents(): Vault
      reads this
    {
      Vault(mode, caSigner, pool, unsealFails, unsealLockedUntil)
    }

    constructor (mode: Mode)
      ensures Contents() == Vault(mode, None, map[], 0, None)
    {
      this.mode := mode;
      caSigner, pool, unsealFails, unsealLockedUntil := None, map[], 0, None;
    }

    method CheckUnsealLock(now: Time) returns (locked: bool)
      modifies this
      ensures locked == Locked(old(Contents()), now)
      ensures Contents() == if locked then old(Contents()) else Unlock(old(Contents()))
    {
      if unsealLockedUntil.Some? {
        if now < unsealLockedUntil.value {
          return true;
        }
        unsealLockedUntil := None;
        unsealFails := 0;
      }
      return false;
    }

    method RecordUnsealFailure(now: Time)
      modifies this
      ensures Contents() == RecordFailure(old(Contents()), now)
    {
      unsealFails := unsealFails + 1;
      if unsealFails >= MAX_ATTEMPTS {
        unsealLockedUntil := Some(now + COOLDOWN);
        unsealFails := 0;
      }
    }

    /** LoadPEMBytes: the caller's buffer is wiped on every path except the locked one. */
    method LoadPEMBytes(pem: array<Byte>, pass: string, comment: string, decrypt: (Bytes, string) -> Option<Signer>,
                        mlocked: bool, checkedAt: Time, recordedAt: Time)
      returns (r: LoadResult)
      modifies this, pem
      ensures (Contents(), r) == Load(old(Contents()),
                Attempt(checkedAt, recordedAt, mlocked, old(decrypt(pem[..], pass)), comment))
      ensures r.UnsealLocked? ==> pem[..] == old(pem[..])
      ensures !r.UnsealLocked? ==> forall i :: 0 <= i < pem.Length ==> pem[i] == 0
    {
      var locked := CheckUnsealLock(checkedAt);
      if locked {
        return UnsealLocked;
      }
      if !mlocked {
        ZeroBytes(pem);
        return MlockFailed;
      }
      var parsed := decrypt(pem[..], pass);
      ZeroBytes(pem);
      match parsed {
        case None =>
          RecordUnsealFailure(recordedAt);
          r := DecryptFailed;
        case Some(signer) =>
          match mode {
            case LocalKey => pool := pool[signer.fingerprint := Loaded(signer, comment)];
            case LocalCA => caSigner := Some(signer);
          }
          unsealFails := 0;
          r := LoadedAs(signer.fingerprint);
      }
    }
  }

  method ZeroBytes(b: array<Byte>)
    modifies b
    ensures forall i :: 0 <= i < b.Length ==> b[i] == 0
  {
    for i := 0 to b.Length
      invariant forall k :: 0 <= k < i ==> b[k] == 0
    {
      b[i] := 0;
    }
  }

  // --- Runs ---

  function Run(v: Vault, attempts: seq<Attempt>): Vault {
    if attempts == [] then v
    else Load(Run(v, attempts[..|attempts| - 1]), attempts[|attempts| - 1]).0
  }

  /** The keystore is locked for the whole call, so calls follow one another. */
  predicate Monotone(attempts: seq<Attempt>) {
    && (forall i :: 0 <= i < |attempts| ==> attempts[i].checkedAt <= attempts[i].recordedAt)
    && (forall i, j :: 0 <= i < j < |attempts| ==> attempts[i].recordedAt <= attempts[j].checkedAt)
  }

  predicate Sane(v: Vault) {
    0 <= v.fails < MAX_ATTEMPTS && (v.lockedUntil.Some? ==> v.fails == 0)
  }

  predicate Fresh(v: Vault) {
    v.fails == 0 && v.lockedUntil == None
  }

  predicate InWindow(a: Attempt, start: Time) {
    start <= a.checkedAt < start + COOLDOWN
  }

  function Result(v: Vault, attempts: seq<Attempt>): LoadResult
    requires attempts != []
  {
    Load(Run(v, attempts[..|attempts| - 1]), attempts[|attempts| - 1]).1
  }

  /** Failed decryptions of a run that start inside the window of one cooldown from start. */
  function Failures(v: Vault, attempts: seq<Attempt>, start: Time): nat {
    if attempts == [] then 0
    else Failures(v, attempts[..|attempts| - 1], start) +
         if InWindow(attempts[|attempts| - 1], start) && Result(v, attempts).DecryptFailed? then 1 else 0
  }

  function Successes(v: Vault, attempts: seq<Attempt>, start: Time): nat {
    if attempts == [] then 0
    else Successes(v, attempts[..|attempts| - 1], start) +
         if InWindow(attempts[|attempts| - 1], start) && Result(v, attempts).LoadedAs? then 1 else 0
  }

  /** The fail counter never reaches the limit, and is zero while locked. */
  lemma {:induction false} CounterStaysBelowLimit(v: Vault, attempts: seq<Attempt>)
    requires Fresh(v)
    ensures Sane(Run(v, attempts))
  {
    if attempts != [] {
      CounterStaysBelowLimit(v, attempts[..|attempts| - 1]);
    }
  }

  /** Before the window nothing counts; inside it the failures are covered by the counter and the
      successes, until a lock that outlasts the window is set. */
  predicate Accounted(v: Vault, failures: nat, successes: nat, clock: Time, start: Time) {
    if clock < start then failures == 0 && successes == 0
    else if clock < start + COOLDOWN then
      || failures <= v.fails + 4 * successes
      || (failures <= 5 + 4 * successes && v.lockedUntil.Some? && v.lockedUntil.value >= start + COOLDOWN)
    else failures <= 5 + 4 * successes
  }

  lemma StepAccounted(v: Vault, a: Attempt, failures: nat, successes: nat, clock: Time, start: Time)
    requires Sane(v) && Accounted(v, failures, successes, clock, start)
    requires clock <= a.checkedAt <= a.recordedAt
    ensures var r := Load(v, a);
            Accounted(r.0, failures + (if InWindow(a, start) && r.1.DecryptFailed? then 1 else 0),
                      successes + (if InWindow(a, start) && r.1.LoadedAs? then 1 else 0), a.checkedAt, start)
  {
  }

  lemma {:induction false} RunAccounted(v: Vault, attempts: seq<Attempt>, start: Time)
    requires Fresh(v) && Monotone(attempts) && attempts != []
    ensures Accounted(Run(v, attempts), Failures(v, attempts, start), Successes(v, attempts, start),
                      attempts[|attempts| - 1].checkedAt, start)
  {
    var init, a := attempts[..|attempts| - 1], attempts[|attempts| - 1];
    CounterStaysBelowLimit(v, init);
    if init == [] {
      StepAccounted(v, a, 0, 0, if a.checkedAt < start then a.checkedAt else start - 1, start);
    } else {
      RunAccounted(v, init, start);
      assert attempts[|init| - 1].recordedAt <= attempts[|init|].checkedAt;
      var clock := init[|init| - 1].checkedAt;
      StepAccounted(Run(v, init), a, Failures(v, init, start), Successes(v, init, start), clock, start);
    }
  }

  /** In every run, every half-open window of fifteen minutes with s successful loads holds at most
      5 + 4s failed decryptions. */
  lemma GuessesPerCooldown(v: Vault, attempts: seq<Attempt>, start: Time)
    requires Fresh(v) && Monotone(attempts)
    ensures Failures(v, attempts, start) <= 5 + 4 * Successes(v, attempts, start)
  {
    if attempts != [] {
      RunAccounted(v, attempts, start);
      CounterStaysBelowLimit(v, attempts);
    }
  }

  /** The bound is met: five straight failures, and then the door is shut for a quarter of an hour
      and no longer. */
  lemma FiveFailuresLock(v: Vault, t: Time, a: Attempt)
    requires Fresh(v) && t <= a.checkedAt
    ensures var guess := Attempt(t, t, true, None, "");
            var five := [guess, guess, guess, guess, guess];
            && Failures(v, five, t) == 5
            && (Result(v, five + [a]).UnsealLocked? <==> a.checkedAt < t + 15 * MINUTE)
            && (a.checkedAt >= t + 15 * MINUTE && a.mlocked && a.decrypted.Some? ==>
                  Result(v, five + [a]) == LoadedAs(a.decrypted.value.fingerprint))
  {
    var g := Attempt(t, t, true, None, "");
    var four, five := [g, g, g, g], [g, g, g, g, g];
    FourFailures(v, g, t);
    FailureCounts(v, four, g, t);
    assert four + [g] == five;
    assert (five + [a])[..5] == five;
  }

  lemma FourFailures(v: Vault, g: Attempt, start: Time)
    requires Fresh(v) && g.mlocked && g.decrypted.None? && InWindow(g, start)
    ensures Failures(v, [g, g, g, g], start) == 4
    ensures Run(v, [g, g, g, g]).fails == 4 && Run(v, [g, g, g, g]).lockedUntil.None?
  {
    FailureCounts(v, [], g, start);
    assert [] + [g] == [g];
    FailureCounts(v, [g], g, start);
    assert [g] + [g] == [g, g];
    FailureCounts(v, [g, g], g, start);
    assert [g, g] + [g] == [g, g, g];
    FailureCounts(v, [g, g, g], g, start);
    assert [g, g, g] + [g] == [g, g, g, g];
  }

  /** One more wrong passphrase on an open door. */
  lemma FailureCounts(v: Vault, before: seq<Attempt>, g: Attempt, start: Time)
    requires Run(v, before).lockedUntil.None? && g.mlocked && g.decrypted.None? && InWindow(g, start)
    ensures Failures(v, before + [g], start) == Failures(v, before, start) + 1
    ensures Run(v, before + [g]) == RecordFailure(Run(v, before), g.recordedAt)
  {
    assert (before + [g])[..|before|] == before;
  }

  /** An attempt that does not succeed leaves the loaded signers alone; one that does replaces the
      CA slot or one pool entry and nothing else. */
  lemma OnlySuccessLoads(v: Vault, a: Attempt)
    ensures var r := Load(v, a);
            && (!r.1.LoadedAs? ==> r.0.ca == v.ca && r.0.pool == v.pool)
            && (r.1.LoadedAs? ==> !Locked(v, a.checkedAt) && a.decrypted.Some? && r.0.fails == 0)
            && (r.1.LoadedAs? && v.mode.LocalCA? ==> r.0.ca == a.decrypted && r.0.pool == v.pool)
            && (r.1.LoadedAs? && v.mode.LocalKey? ==> r.0.ca == v.ca)
            && (r.1.LoadedAs? && v.mode.LocalKey? ==>
                 r.0.pool == v.pool[r.1.fingerprint := Loaded(a.decrypted.value, a.comment)])
  {
  }

  /** A run without a success ends with the signers it began with. */
  lemma {:induction false} FailingRunLoadsNothing(v: Vault, attempts: seq<Attempt>)
    requires forall i :: 0 < i <= |attempts| ==> !Result(v, attempts[..i]).LoadedAs?
    ensures Run(v, attempts).ca == v.ca && Run(v, attempts).pool == v.pool
  {
    if attempts != [] {
      var init := attempts[..|attempts| - 1];
      forall i | 0 < i <= |init| ensures !Result(v, init[..i]).LoadedAs? {
        assert init[..i] == attempts[..i];
      }
      FailingRunLoadsNothing(v, init);
      assert attempts[..|attempts|] == attempts;
    }
  }

  // --- Every answer follows from the answers before it ---

  /** Failures in a row, of those that count towards the next lock: a success starts over, and so
      does the fifth. Attempts on a shut door or without locked memory do not count. */
  function Streak(results: seq<LoadResult>): (n: nat)
    ensures n < 5
  {
    if results == [] then 0
    else
      var before := Streak(results[..|results| - 1]);
      match results[|results| - 1]
      case DecryptFailed => if before == 4 then 0 else before + 1
      case LoadedAs(_) => 0
      case _ => before
  }

  /** When the latest fifth failure in a row was recorded. */
  function ShutAt(attempts: seq<Attempt>, results: seq<LoadResult>): Option<Time>
    requires |attempts| == |results|
  {
    if results == [] then None
    else
      var n := |results| - 1;
      if results[n].DecryptFailed? && Streak(results[..n]) == 4 then Some(attempts[n].recordedAt)
      else ShutAt(attempts[..n], results[..n])
  }

  /** What an attempt must be told, given the attempts and answers before it. */
  function Expected(attempts: seq<Attempt>, results: seq<LoadResult>, a: Attempt): LoadResult
    requires |attempts| == |results|
  {
    var shut := ShutAt(attempts, results);
    if shut.Some? && a.checkedAt < shut.value + 15 * MINUTE then UnsealLocked
    else if !a.mlocked then MlockFailed
    else if a.decrypted.None? then DecryptFailed
    else LoadedAs(a.decrypted.value.fingerprint)
  }

  function Answers(v: Vault, attempts: seq<Attempt>): (r: seq<LoadResult>)
    ensures |r| == |attempts|
  {
    if attempts == [] then [] else Answers(v, attempts[..|attempts| - 1]) + [Result(v, attempts)]
  }

  /** The counter is the streak, and a lock that is set or has run out was set at the latest fifth
      failure. */
  predicate Agrees(v: Vault, attempts: seq<Attempt>, results: seq<LoadResult>, clock: Time)
    requires |attempts| == |results|
  {
    var shut := ShutAt(attempts, results);
    && v.fails == Streak(results)
    && (v.lockedUntil.Some? ==> v.fails == 0 && shut == Some(v.lockedUntil.value - COOLDOWN))
    && (v.lockedUntil.None? && shut.Some? ==> shut.value + COOLDOWN <= clock)
  }

  lemma LoadAgrees(v: Vault, attempts: seq<Attempt>, results: seq<LoadResult>, clock: Time, a: Attempt)
    requires |attempts| == |results| && Agrees(v, attempts, results, clock) && clock <= a.checkedAt
    ensures Load(v, a).1 == Expected(attempts, results, a)
    ensures Agrees(Load(v, a).0, attempts + [a], results + [Load(v, a).1], a.checkedAt)
  {
    var all, answers := attempts + [a], results + [Load(v, a).1];
    assert all[..|attempts|] == attempts && answers[..|results|] == results;
  }

  lemma {:induction false} RunAgrees(v: Vault, attempts: seq<Attempt>)
    requires Fresh(v) && Monotone(attempts)
    ensures Agrees(Run(v, attempts), attempts, Answers(v, attempts),
                   if attempts == [] then 0 else attempts[|attempts| - 1].checkedAt)
  {
    if attempts != [] {
      var init, a := attempts[..|attempts| - 1], attempts[|attempts| - 1];
      RunAgrees(v, init);
      if init == [] {
        assert Agrees(v, [], [], a.checkedAt);
        LoadAgrees(v, [], [], a.checkedAt, a);
        assert [] + [a] == attempts && [] + [Result(v, attempts)] == Answers(v, attempts);
      } else {
        assert attempts[|init| - 1].recordedAt <= attempts[|init|].checkedAt;
        LoadAgrees(Run(v, init), init, Answers(v, init), init[|init| - 1].checkedAt, a);
        assert init + [a] == attempts;
      }
    }
  }

  /** In every run, every attempt is answered from the history alone: refused exactly within fifteen
      minutes of the latest fifth failure in a row, and otherwise by what memory and passphrase say. */
  lemma AnswersFromHistory(v: Vault, attempts: seq<Attempt>, a: Attempt)
    requires Fresh(v) && Monotone(attempts + [a])
    ensures Result(v, attempts + [a]) == Expected(attempts, Answers(v, attempts), a)
  {
    var all := attempts + [a];
    assert all[..|attempts|] == attempts;
    assert Monotone(attempts) by {
      assert forall i :: 0 <= i < |attempts| ==> attempts[i] == all[i];
    }
    RunAgrees(v, attempts);
    if attempts == [] {
      assert Agrees(v, [], [], a.checkedAt);
      LoadAgrees(v, [], [], a.checkedAt, a);
    } else {
      assert all[|attempts| - 1].recordedAt <= all[|attempts|].checkedAt;
      LoadAgrees(Run(v, attempts), attempts, Answers(v, attempts), attempts[|attempts| - 1].checkedAt, a);
    }
  }
}
