/** The proof-of-possession challenge a client signs and the proxy rebuilds. */
module Pop {
  import opened Prelude
  import opened Decimal

  /** The text user:ip:timestamp. */
  function Text(user: string, ip: string, ts: int): string {
    user + ":" + ip + ":" + Itoa(ts)
  }

  /** popChallenge of the proxy, appending to one buffer. */
  method PopChallenge(user: string, ip: string, ts: int) returns (out: string)
    ensures out == Text(user, ip, ts)
  {
    out := user;
    out := out + ":";
    out := out + ip;
    out := out + ":";
    out := out + Itoa(ts);
  }

  /** challenge of the SDK, which the client signs. */
  method SdkChallenge(user: string, ip: string, ts: int) returns (out: string)
    ensures out == Text(user, ip, ts)
  {
    out := "" + user + ":";
    out := out + ip + ":";
    out := out + Itoa(ts);
  }

  /** The part of a text after its last colon. */
  function Tail(s: string): string {
    if s == "" || s[|s| - 1] == ':' then "" else Tail(s[..|s| - 1]) + [s[|s| - 1]]
  }

  lemma {:induction false} TailAfterColon(a: string, b: string)
    requires ':' !in b
    ensures Tail(a + ":" + b) == b
  {
    var s := a + ":" + b;
    if b == "" {
      assert s[|s| - 1] == ':';
    } else {
      var init := b[..|b| - 1];
      assert s[..|s| - 1] == a + ":" + init;
      assert s[|s| - 1] == b[|b| - 1];
      TailAfterColon(a, init);
      assert b == init + [b[|b| - 1]];
    }
  }

  /** The part of a text before its first colon. */
  function Head(s: string): string {
    if s == "" || s[0] == ':' then "" else [s[0]] + Head(s[1..])
  }

  lemma {:induction false} HeadBeforeColon(a: string, b: string)
    requires ':' !in a
    ensures Head(a + ":" + b) == a
  {
    var s := a + ":" + b;
    if a == "" {
      assert s[0] == ':';
    } else {
      assert s[1..] == a[1..] + ":" + b;
      HeadBeforeColon(a[1..], b);
      assert a == [a[0]] + a[1..];
    }
  }

  lemma LeadingParts(u: string, i: string, u': string, i': string)
    requires ':' !in u && ':' !in u' && u + ":" + i == u' + ":" + i'
    ensures u == u' && i == i'
  {
    HeadBeforeColon(u, i);
    HeadBeforeColon(u', i');
    assert (u + ":" + i)[|u| + 1..] == i && (u' + ":" + i')[|u'| + 1..] == i';
  }

  lemma LastPart(a: string, d: string, a': string, d': string)
    requires ':' !in d && ':' !in d' && a + ":" + d == a' + ":" + d'
    ensures a == a' && d == d'
  {
    TailAfterColon(a, d);
    TailAfterColon(a', d');
    assert (a + ":" + d)[..|a|] == a && (a' + ":" + d')[..|a'|] == a';
  }

  /** Two requests share a challenge exactly when their timestamps agree and user and address run
      together to the same text. */
  lemma ChallengeExact(u: string, i: string, t: Int64, u': string, i': string, t': Int64)
    ensures Text(u, i, t) == Text(u', i', t') <==> t == t' && u + ":" + i == u' + ":" + i'
  {
    if Text(u, i, t) == Text(u', i', t') {
      ItoaPlain(t, ':');
      ItoaPlain(t', ':');
      LastPart(u + ":" + i, Itoa(t), u' + ":" + i', Itoa(t'));
      AtoiRoundTrip(t);
      AtoiRoundTrip(t');
    }
  }

  /** So no two requests share one as long as user names have no colon; addresses may have any
      number of them and timestamps may be negative. */
  lemma ChallengeInjective(u: string, i: string, t: Int64, u': string, i': string, t': Int64)
    requires ':' !in u && ':' !in u' && Text(u, i, t) == Text(u', i', t')
    ensures u == u' && i == i' && t == t'
  {
    ChallengeExact(u, i, t, u', i', t');
    LeadingParts(u, i, u', i');
  }

  /** And every user name with a colon shares its challenges: the colon can move into the address. */
  lemma ColonCollides(a: string, b: string, i: string, t: Int64)
    ensures Text(a + ":" + b, i, t) == Text(a, b + ":" + i, t)
  {
    assert a + ":" + b + ":" + i == a + ":" + (b + ":" + i);
    ChallengeExact(a + ":" + b, i, t, a, b + ":" + i, t);
  }
}
