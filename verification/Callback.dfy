/** The buttons of an approval message and what the poller makes of a press. */
module Callback {
  import opened Prelude
  import opened Decimal
  import opened Strings

  const DEFAULT_KEYBOARD: seq<Int64> := [180, 300, 900]
  const APPROVE := "approve"
  const DENY := "deny"
  const TX_PREFIX := "tx_"

  datatype Command = Approve(id: string, ttl: Time) | Deny(id: string)

  /** time.Duration(sec) * time.Second, in 64-bit arithmetic. */
  function Duration(sec: Int64): Time {
    Wrap64(sec * SECOND)
  }

  /** ParseCallbackData. An approval may leave its time out, and parts after the time are ignored. */
  function Parse(data: string, allowed: seq<Int64>): Option<Command> {
    var parts := Split(data, ':');
    if |parts| < 2 then None
    else if parts[0] == DENY then
      if |parts| != 2 || !(TX_PREFIX <= parts[1]) then None else Some(Deny(parts[1]))
    else if parts[0] == APPROVE then
      if !(TX_PREFIX <= parts[1]) then None
      else if |parts| >= 3 then
        match Atoi(parts[2])
        case None => None
        case Some(sec) => if sec in allowed then Some(Approve(parts[1], Duration(sec))) else None
      else Some(Approve(parts[1], 0))
    else None
  }

  function DefaultTTL(allowed: seq<Int64>): Time {
    if |allowed| > 0 then Duration(allowed[0]) else 5 * MINUTE
  }

  /** The time the poller passes on. */
  function ChosenTTL(ttl: Time, allowed: seq<Int64>): Time {
    if ttl <= 0 then DefaultTTL(allowed) else ttl
  }

  function ApproveData(id: string, sec: Int64): string {
    APPROVE + ":" + id + ":" + Itoa(sec)
  }

  function DenyData(id: string): string {
    DENY + ":" + id
  }

  /** approvalKeyboard: a button per time, or per default time when none is configured, then Deny.
      Only the callback data of the buttons is modelled. */
  method ApprovalKeyboard(id: string, allowed: seq<Int64>) returns (row: seq<string>)
    ensures var ttls := if allowed == [] then [180, 300, 900] else allowed;
            && |row| == |ttls| + 1 && row[|ttls|] == DenyData(id)
            && forall i :: 0 <= i < |ttls| ==> row[i] == ApproveData(id, ttls[i])
  {
    var ttls := allowed;
    if |ttls| == 0 {
      ttls := DEFAULT_KEYBOARD;
    }
    row := [];
    for n := 0 to |ttls|
      invariant |row| == n && forall i :: 0 <= i < n ==> row[i] == ApproveData(id, ttls[i])
    {
      var data := "approve:" + id + ":" + Itoa(ttls[n]);
      assert data == ApproveData(id, ttls[n]);
      row := row + [data];
    }
    row := row + ["deny:" + id];
  }

  lemma SplitApprove(id: string, sec: Int64)
    requires ':' !in id
    ensures Split(ApproveData(id, sec), ':') == [APPROVE, id, Itoa(sec)]
  {
    ItoaPlain(sec, ':');
    SplitThree(APPROVE, id, Itoa(sec));
  }

  lemma SplitThree(a: string, b: string, c: string)
    requires ':' !in a && ':' !in b && ':' !in c
    ensures Split(a + ":" + b + ":" + c, ':') == [a, b, c]
  {
    SplitNone(c, ':');
    SplitFirst(b, ':', c);
    SplitFirst(a, ':', b + [':'] + c);
    assert a + ":" + b + ":" + c == a + [':'] + (b + [':'] + c);
  }

  lemma SplitDeny(id: string)
    requires ':' !in id
    ensures Split(DenyData(id), ':') == [DENY, id]
  {
    SplitNone(id, ':');
    SplitFirst(DENY, ':', id);
    assert DenyData(id) == DENY + [':'] + id;
  }

  lemma PartsOf(data: string)
    ensures var parts := Split(data, ':');
            && (|parts| == 2 ==> data == parts[0] + ":" + parts[1])
            && (|parts| == 3 ==> data == parts[0] + ":" + parts[1] + ":" + parts[2])
            && (|parts| > 3 ==> data == parts[0] + ":" + parts[1] + ":" + parts[2] + ":" + Join(parts[3..], ':'))
  {
    var parts := Split(data, ':');
    SplitJoins(data, ':');
    if |parts| >= 2 {
      var b := parts[1..];
      if |parts| >= 3 {
        assert b[1..] == parts[2..];
        if |parts| > 3 {
          assert parts[2..][1..] == parts[3..];
          ColonsRegroup(parts[0], parts[1], parts[2], Join(parts[3..], ':'));
        } else {
          assert data == parts[0] + ":" + (parts[1] + ":" + parts[2]);
        }
      }
    }
  }

  lemma ColonsRegroup(a: string, b: string, c: string, d: string)
    ensures a + ":" + (b + ":" + (c + ":" + d)) == a + ":" + b + ":" + c + ":" + d
  {
  }

  /** What follows the id of an approval: nothing, or a number and perhaps more that is ignored. */
  ghost predicate TimeGiven(data: string, id: string, num: string) {
    || data == "approve:" + id + ":" + num
    || exists rest :: data == "approve:" + id + ":" + num + ":" + rest
  }

  lemma TimeFound(data: string, id: string, num: string)
    requires |Split(data, ':')| >= 3 && Split(data, ':')[..3] == [APPROVE, id, num]
    ensures TimeGiven(data, id, num)
  {
    var parts := Split(data, ':');
    PartsOf(data);
    assert parts[0] == parts[..3][0] && parts[1] == parts[..3][1] && parts[2] == parts[..3][2];
    assert APPROVE + ":" == "approve:";
  }

  ghost predicate TimedBy(data: string, allowed: seq<Int64>, id: string, num: string, ttl: Time) {
    && ':' !in num && TimeGiven(data, id, num)
    && Atoi(num).Some? && Atoi(num).value in allowed && ttl == Duration(Atoi(num).value)
  }

  /** A press is a denial of id exactly when its data is deny:id for a transaction id. */
  lemma DenyExact(data: string, allowed: seq<Int64>, id: string)
    ensures Parse(data, allowed) == Some(Deny(id)) <==> ':' !in id && "tx_" <= id && data == "deny:" + id
  {
    PartsOf(data);
    SplitJoins(data, ':');
    if ':' !in id && data == "deny:" + id {
      SplitDeny(id);
      assert data == DenyData(id);
    }
  }

  lemma SplitTimed(id: string, num: string, rest: string)
    requires ':' !in id && ':' !in num
    ensures Split("approve:" + id + ":" + num + ":" + rest, ':') == [APPROVE, id, num] + Split(rest, ':')
  {
    assert APPROVE + ":" == "approve:";
    SplitFour(APPROVE, id, num, rest);
  }

  lemma SplitFour(a: string, b: string, c: string, d: string)
    requires ':' !in a && ':' !in b && ':' !in c
    ensures Split(a + ":" + b + ":" + c + ":" + d, ':') == [a, b, c] + Split(d, ':')
  {
    SplitFirst(c, ':', d);
    SplitFirst(b, ':', c + ":" + d);
    SplitFirst(a, ':', b + ":" + (c + ":" + d));
    ColonsRegroup(a, b, c, d);
  }

  lemma SplitBare(id: string)
    requires ':' !in id
    ensures Split("approve:" + id, ':') == [APPROVE, id]
  {
    SplitNone(id, ':');
    SplitFirst(APPROVE, ':', id);
    assert "approve:" + id == APPROVE + [':'] + id;
  }

  lemma TimedParses(data: string, allowed: seq<Int64>, id: string, num: string)
    requires ':' !in id && ':' !in num && TimeGiven(data, id, num)
    ensures |Split(data, ':')| >= 3 && Split(data, ':')[..3] == [APPROVE, id, num]
  {
    if data == "approve:" + id + ":" + num {
      SplitThree(APPROVE, id, num);
      assert data == APPROVE + ":" + id + ":" + num;
    } else {
      var rest :| data == "approve:" + id + ":" + num + ":" + rest;
      SplitTimed(id, num, rest);
    }
  }

  /** A press is an approval of id for a time exactly when its data is approve:id, with no time, or
      approve:id: and an allowed number of seconds; a colon and anything may follow the number. */
  lemma ApproveExact(data: string, allowed: seq<Int64>, id: string, ttl: Time)
    ensures Parse(data, allowed) == Some(Approve(id, ttl)) <==>
            && ':' !in id && "tx_" <= id
            && ((data == "approve:" + id && ttl == 0) || exists num :: TimedBy(data, allowed, id, num, ttl))
  {
    var parts := Split(data, ':');
    PartsOf(data);
    SplitJoins(data, ':');
    assert APPROVE + ":" == "approve:";
    if Parse(data, allowed) == Some(Approve(id, ttl)) && |parts| >= 3 {
      TimeFound(data, id, parts[2]);
      assert TimedBy(data, allowed, id, parts[2], ttl);
    }
    if ':' !in id && "tx_" <= id {
      if data == "approve:" + id {
        SplitBare(id);
      }
      forall num | TimedBy(data, allowed, id, num, ttl)
        ensures Parse(data, allowed) == Some(Approve(id, ttl))
      {
        TimedParses(data, allowed, id, num);
        assert parts[0] == parts[..3][0] && parts[1] == parts[..3][1] && parts[2] == parts[..3][2];
      }
    }
  }

  /** A number of seconds lasts that long, up to the 292 years a duration can hold. */
  lemma DurationInRange(sec: Int64)
    requires 0 <= sec <= 9_223_372_036
    ensures Duration(sec) == sec * 1_000_000_000
  {
  }

  /** The poller passes a positive time on, and otherwise the first configured one, or five minutes. */
  lemma ChosenTTLExact(ttl: Time, allowed: seq<Int64>)
    ensures ttl > 0 ==> ChosenTTL(ttl, allowed) == ttl
    ensures ttl <= 0 && allowed != [] ==> ChosenTTL(ttl, allowed) == Duration(allowed[0])
    ensures ttl <= 0 && allowed == [] ==> ChosenTTL(ttl, allowed) == 300 * SECOND
  {
  }

  /** A rendered approve button parses back to its transaction and time exactly when the id looks
      like one and the time is allowed; a deny button needs the id only. */
  lemma ButtonsParse(id: string, sec: Int64, allowed: seq<Int64>)
    requires ':' !in id
    ensures Parse(ApproveData(id, sec), allowed) ==
            if TX_PREFIX <= id && sec in allowed then Some(Approve(id, Duration(sec))) else None
    ensures Parse(DenyData(id), allowed) == if TX_PREFIX <= id then Some(Deny(id)) else None
  {
    SplitApprove(id, sec);
    SplitDeny(id);
    AtoiRoundTrip(sec);
  }

  /** With a configured list every approve button works; with none the default buttons are shown
      and every one of them is refused. */
  lemma KeyboardWorksIffConfigured(id: string, allowed: seq<Int64>)
    requires ':' !in id && TX_PREFIX <= id
    ensures var ttls := if allowed == [] then DEFAULT_KEYBOARD else allowed;
            forall i :: 0 <= i < |ttls| ==>
              (Parse(ApproveData(id, ttls[i]), allowed) == Some(Approve(id, Duration(ttls[i]))) <==> allowed != [])
  {
    var ttls := if allowed == [] then DEFAULT_KEYBOARD else allowed;
    forall i | 0 <= i < |ttls|
      ensures Parse(ApproveData(id, ttls[i]), allowed) == Some(Approve(id, Duration(ttls[i]))) <==> allowed != []
    {
      ButtonsParse(id, ttls[i], allowed);
    }
  }

  /** Whatever the press, the time passed on is the length of an allowed one. */
  lemma ChosenTTLIsAllowed(data: string, allowed: seq<Int64>)
    requires allowed != [] && Parse(data, allowed).Some? && Parse(data, allowed).value.Approve?
    ensures exists sec :: sec in allowed && ChosenTTL(Parse(data, allowed).value.ttl, allowed) == Duration(sec)
  {
    var ttl := Parse(data, allowed).value.ttl;
    if ttl <= 0 {
      assert allowed[0] in allowed;
    } else {
      var sec := Atoi(Split(data, ':')[2]).value;
      assert sec in allowed && ttl == Duration(sec);
    }
  }

  // --- Who may press ---

  /** ChatAllowed. */
  predicate ChatAllowed(configured: string, chat: Int64) {
    Atoi(TrimSpace(configured)) == Some(chat)
  }

  /** TelegramUserAllowed: a listed user, or the partner of a private chat. */
  predicate UserAllowed(configured: string, users: string, user: Int64) {
    || (exists raw :: raw in Split(users, ',') && Atoi(TrimSpace(raw)) == Some(user))
    || (user > 0 && Atoi(TrimSpace(configured)) == Some(user))
  }

  lemma SpacedNumber(a: string, n: Int64, b: string)
    requires AllSpace(a) && AllSpace(b)
    ensures Atoi(TrimSpace(a + Itoa(n) + b)) == Some(n)
  {
    var core := Itoa(n);
    assert core[0] in core && core[|core| - 1] in core;
    assert forall c :: c in core ==> c == '-' || IsDigit(c) by {
      forall c | c in core ensures c == '-' || IsDigit(c) {
        if c != '-' && !IsDigit(c) {
          ItoaPlain(n, c);
        }
      }
    }
    TrimSpaceAround(a, core, b);
    AtoiRoundTrip(n);
  }

  /** The chat configured as a number, in any white space, is that chat and no other; no chat is
      allowed without one. */
  lemma ChatExact(a: string, n: Int64, b: string, chat: Int64)
    requires AllSpace(a) && AllSpace(b)
    ensures ChatAllowed(a + Itoa(n) + b, chat) <==> chat == n
    ensures !ChatAllowed("", chat)
  {
    SpacedNumber(a, n, b);
  }

  /** The list of user ids as it is configured: numbers and commas, a space after each comma. */
  function Csv(ids: seq<Int64>): string {
    if ids == [] then "" else if |ids| == 1 then Itoa(ids[0]) else Itoa(ids[0]) + ", " + Csv(ids[1..])
  }

  predicate Listed(users: string, user: Int64) {
    exists raw :: raw in Split(users, ',') && Atoi(TrimSpace(raw)) == Some(user)
  }

  /** One configured number, in white space, among the parts of the list. */
  lemma ListedPart(lead: string, id: Int64)
    requires AllSpace(lead)
    ensures ',' !in lead + Itoa(id) && Atoi(TrimSpace(lead + Itoa(id))) == Some(id)
  {
    assert !IsSpace(',');
    ItoaPlain(id, ',');
    SpacedNumber(lead, id, "");
    assert lead + Itoa(id) + "" == lead + Itoa(id);
  }

  lemma {:induction false} ListedExact(lead: string, ids: seq<Int64>, user: Int64)
    requires AllSpace(lead) && ids != []
    ensures Listed(lead + Csv(ids), user) <==> user in ids
    decreases |ids|
  {
    var first := lead + Itoa(ids[0]);
    ListedPart(lead, ids[0]);
    if |ids| == 1 {
      SplitNone(first, ',');
    } else {
      var rest := " " + Csv(ids[1..]);
      CsvStep(lead, ids);
      SplitFirst(first, ',', rest);
      ListedExact(" ", ids[1..], user);
      ListedFirst(first, rest, user);
      assert user in ids <==> user == ids[0] || user in ids[1..];
    }
  }

  lemma CsvStep(lead: string, ids: seq<Int64>)
    requires |ids| > 1
    ensures lead + Csv(ids) == lead + Itoa(ids[0]) + [','] + (" " + Csv(ids[1..]))
  {
    CommaSpace(lead, Itoa(ids[0]), Csv(ids[1..]));
  }

  lemma CommaSpace(lead: string, a: string, b: string)
    ensures lead + (a + ", " + b) == lead + a + [','] + (" " + b)
  {
    assert ", " == [',', ' '];
  }

  lemma ListedFirst(first: string, rest: string, user: Int64)
    requires Split(first + [','] + rest, ',') == [first] + Split(rest, ',')
    ensures Listed(first + [','] + rest, user) <==> Atoi(TrimSpace(first)) == Some(user) || Listed(rest, user)
  {
    var all := Split(first + [','] + rest, ',');
    assert first in all;
    forall raw | raw in Split(rest, ',') ensures raw in all {
    }
  }

  /** A user may press exactly when listed, or when the configured chat is private to that user. */
  lemma UserExact(chat: Int64, ids: seq<Int64>, user: Int64)
    ensures UserAllowed(Itoa(chat), Csv(ids), user) <==> user in ids || (user > 0 && user == chat)
  {
    SpacedNumber("", chat, "");
    assert "" + Itoa(chat) + "" == Itoa(chat);
    if ids == [] {
      SplitNone("", ',');
    } else {
      ListedExact("", ids, user);
      assert "" + Csv(ids) == Csv(ids);
    }
    assert UserAllowed(Itoa(chat), Csv(ids), user) <==> Listed(Csv(ids), user) || (user > 0 && chat == user);
  }
}
