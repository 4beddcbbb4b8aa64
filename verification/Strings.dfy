/** Splitting and trimming as Go's strings package does them. */
module Strings {

  // --- strings.Split ---

  function Split(s: string, sep: char): (parts: seq<string>)
    ensures |parts| >= 1
  {
    if s == "" then [""]
    else
      var rest := Split(s[1..], sep);
      if s[0] == sep then [""] + rest else [[s[0]] + rest[0]] + rest[1..]
  }

  lemma {:induction false} SplitNone(s: string, sep: char)
    requires sep !in s
    ensures Split(s, sep) == [s]
  {
    if s != "" {
      SplitNone(s[1..], sep);
      assert s == [s[0]] + s[1..];
    }
  }

  /** The first part ends at the first separator. */
  lemma {:induction false} SplitFirst(a: string, sep: char, b: string)
    requires sep !in a
    ensures Split(a + [sep] + b, sep) == [a] + Split(b, sep)
  {
    var s := a + [sep] + b;
    if a == "" {
      assert s[1..] == b;
    } else {
      assert s[1..] == a[1..] + [sep] + b;
      SplitFirst(a[1..], sep, b);
      assert a == [a[0]] + a[1..];
    }
  }

  function Join(parts: seq<string>, sep: char): string
    requires parts != []
  {
    if |parts| == 1 then parts[0] else parts[0] + [sep] + Join(parts[1..], sep)
  }

  /** Splitting loses nothing: the parts hold no separator and join to the text. */
  lemma {:induction false} SplitJoins(s: string, sep: char)
    ensures Join(Split(s, sep), sep) == s
    ensures forall i :: 0 <= i < |Split(s, sep)| ==> sep !in Split(s, sep)[i]
  {
    if s != "" {
      SplitJoins(s[1..], sep);
      var rest, parts := Split(s[1..], sep), Split(s, sep);
      assert s == [s[0]] + s[1..];
      if s[0] == sep {
        assert parts[1..] == rest;
      } else {
        assert parts[1..] == rest[1..];
      }
    }
  }

  // --- strings.TrimSpace ---

  /** unicode.IsSpace. */
  predicate IsSpace(c: char) {
    c in "\t\n\U{000B}\U{000C}\r \U{0085}\U{00A0}\U{1680}\U{2028}\U{2029}\U{202F}\U{205F}\U{3000}"
    || '\U{2000}' <= c <= '\U{200A}'
  }

  predicate AllSpace(s: string) {
    forall c :: c in s ==> IsSpace(c)
  }

  function TrimLeft(s: string): string {
    if s != "" && IsSpace(s[0]) then TrimLeft(s[1..]) else s
  }

  function TrimRight(s: string): string {
    if s != "" && IsSpace(s[|s| - 1]) then TrimRight(s[..|s| - 1]) else s
  }

  function TrimSpace(s: string): string {
    TrimRight(TrimLeft(s))
  }

  /** The white space of ASCII, and nothing printable, is trimmed. */
  lemma AsciiSpace(c: char)
    requires c < '\U{0080}'
    ensures IsSpace(c) <==> c == ' ' || '\U{0009}' <= c <= '\U{000D}'
  {
  }

  lemma {:induction false} TrimLeftOver(a: string, core: string)
    requires AllSpace(a) && core != "" && !IsSpace(core[0])
    ensures TrimLeft(a + core) == core
  {
    if a == "" {
      assert a + core == core;
    } else {
      assert a[0] in a;
      assert (a + core)[1..] == a[1..] + core;
      TrimLeftOver(a[1..], core);
    }
  }

  lemma {:induction false} TrimRightOver(core: string, b: string)
    requires AllSpace(b) && core != "" && !IsSpace(core[|core| - 1])
    ensures TrimRight(core + b) == core
  {
    if b == "" {
      assert core + b == core;
    } else {
      var s := core + b;
      assert b[|b| - 1] in b;
      assert s[|s| - 1] == b[|b| - 1];
      assert s[..|s| - 1] == core + b[..|b| - 1];
      TrimRightOver(core, b[..|b| - 1]);
    }
  }

  lemma TrimSpaceAround(a: string, core: string, b: string)
    requires AllSpace(a) && AllSpace(b) && core != "" && !IsSpace(core[0]) && !IsSpace(core[|core| - 1])
    ensures TrimSpace(a + core + b) == core
  {
    assert a + core + b == a + (core + b);
    assert (core + b)[0] == core[0];
    TrimLeftOver(a, core + b);
    TrimRightOver(core, b);
  }
}
