/**
 * The few .NET string operations the shaping and paging code relies on:
 * `ToLower`, `Contains`, `IndexOf`, `Substring` and `Split`.
 * Lower-casing is ASCII-only (see README, "Left out").
 */
module Text {

  predicate IsUpper(c: char) {
    'A' <= c <= 'Z'
  }

  /** `char.ToLower` on ASCII letters; every other character is left alone. */
  function LowerChar(c: char): (r: char)
    ensures !IsUpper(r)
    ensures !IsUpper(c) ==> r == c
    ensures IsUpper(c) ==> r as int - c as int == 'a' as int - 'A' as int
  {
    if IsUpper(c) then (c as int - 'A' as int + 'a' as int) as char else c
  }

  /** `string.ToLower`. */
  function Lower(s: string): (r: string)
    ensures |r| == |s|
    ensures forall i | 0 <= i < |r| :: !IsUpper(r[i])
  {
    seq(|s|, i requires 0 <= i < |s| => LowerChar(s[i]))
  }

  /** Lower-casing works character by character, in place. */
  lemma LowerEachChar(s: string, i: int)
    requires 0 <= i < |s|
    ensures Lower(s)[i] == LowerChar(s[i])
    ensures Lower(s[..i]) + [LowerChar(s[i])] + Lower(s[i + 1..]) == Lower(s)
  {
    assert s == s[..i] + [s[i]] + s[i + 1..];
  }

  /** Ordinal, case-sensitive `string.Contains(sub)`. */
  predicate Contains(s: string, sub: string) {
    exists i | 0 <= i <= |s| :: OccursAt(s, sub, i)
  }

  /** `sub` occurs in `s` starting at position `i`. */
  predicate OccursAt(s: string, sub: string, i: nat) {
    i + |sub| <= |s| && s[i..i + |sub|] == sub
  }

  lemma ContainsSelf(s: string)
    ensures Contains(s, s)
  {
    assert OccursAt(s, s, 0);
  }

  /**
   * `sub` may occur anywhere in `s`: at the start, at the end, or in
   * between; it never occurs in a shorter string.
   */
  lemma ContainsAnywhere(s: string, sub: string, i: nat)
    ensures Contains(s, sub) ==> |sub| <= |s|
    ensures i + |sub| <= |s| && s[i..i + |sub|] == sub ==> Contains(s, sub)
  {
    if i + |sub| <= |s| && s[i..i + |sub|] == sub {
      assert OccursAt(s, sub, i);
    }
  }

  /** The match is case-sensitive and need not start the name. */
  lemma ContainsExamples()
    ensures Contains("myexpenses", "expenses")
    ensures !Contains("Expenses", "expenses")
  {
    assert OccursAt("myexpenses", "expenses", 2);
    forall i | 0 <= i <= |"Expenses"|
      ensures !OccursAt("Expenses", "expenses", i)
    {
      if i == 0 {
        assert "Expenses"[0] != "expenses"[0];
      }
    }
  }

  /** `string.IndexOf(c)`: the first position of `c`, or -1. */
  function IndexOf(s: string, c: char): (r: int)
    ensures r == -1 <==> c !in s
    ensures r != -1 ==> 0 <= r < |s| && s[r] == c && c !in s[..r]
  {
    if |s| == 0 then -1
    else if s[0] == c then 0
    else
      var k := IndexOf(s[1..], c);
      if k == -1 then -1 else k + 1
  }

  /**
   * `s.Substring(s.IndexOf(".") + 1)`: the text after the first dot, or the
   * whole string when it has no dot.
   */
  function AfterFirstDot(s: string): (r: string)
    ensures '.' !in s ==> r == s
    ensures '.' in s ==> exists k | 0 <= k < |s| :: s == s[..k] + "." + r && '.' !in s[..k]
  {
    var k := IndexOf(s, '.');
    var r := s[k + 1..];
    assert k != -1 ==> s == s[..k] + "." + r;
    r
  }

  /** The inverse of `Split`: the tokens glued back with the separator. */
  function Join(tokens: seq<string>, sep: char): string
    requires |tokens| >= 1
  {
    if |tokens| == 1 then tokens[0] else tokens[0] + [sep] + Join(tokens[1..], sep)
  }

  /** `string.Split(sep)`: never empty, no trimming, empty tokens kept. */
  function Split(s: string, sep: char): (r: seq<string>)
    ensures |r| >= 1
    ensures forall i | 0 <= i < |r| :: sep !in r[i]
    ensures Join(r, sep) == s
    decreases |s|
  {
    var k := IndexOf(s, sep);
    if k == -1 then [s]
    else
      var rest := Split(s[k + 1..], sep);
      JoinFront(s[..k], sep, rest);
      assert s == s[..k] + [sep] + s[k + 1..];
      [s[..k]] + rest
  }

  /** One more separator-free token in front of a split result. */
  lemma JoinFront(t: string, sep: char, rest: seq<string>)
    requires |rest| >= 1
    requires sep !in t
    requires forall i | 0 <= i < |rest| :: sep !in rest[i]
    ensures forall i | 0 <= i < |[t] + rest| :: sep !in ([t] + rest)[i]
    ensures Join([t] + rest, sep) == t + [sep] + Join(rest, sep)
  {
    var r := [t] + rest;
    assert r[1..] == rest;
  }

  lemma IndexOfJoined(t: string, sep: char, rest: string)
    requires sep !in t
    ensures IndexOf(t + [sep] + rest, sep) == |t|
  {
    var s := t + [sep] + rest;
    assert s[|t|] == sep;
    assert s[..|t|] == t;
  }

  /** Splitting stops at the first separator. */
  lemma SplitFirst(t: string, sep: char, rest: string)
    requires sep !in t
    ensures Split(t + [sep] + rest, sep) == [t] + Split(rest, sep)
  {
    var s := t + [sep] + rest;
    IndexOfJoined(t, sep, rest);
    assert s[..|t|] == t;
    assert s[|t| + 1..] == rest;
  }

  /** Splitting a joined list of separator-free tokens gives the tokens back. */
  lemma {:induction false} SplitJoin(tokens: seq<string>, sep: char)
    requires |tokens| >= 1
    requires forall i | 0 <= i < |tokens| :: sep !in tokens[i]
    ensures Split(Join(tokens, sep), sep) == tokens
  {
    if |tokens| == 1 {
      assert IndexOf(tokens[0], sep) == -1;
    } else {
      var t, rest := tokens[0], tokens[1..];
      calc {
        Split(Join(tokens, sep), sep);
        Split(t + [sep] + Join(rest, sep), sep);
        { SplitFirst(t, sep, Join(rest, sep)); }
        [t] + Split(Join(rest, sep), sep);
        { SplitJoin(rest, sep); }
        [t] + rest;
        tokens;
      }
    }
  }
}
