/*
 * The few Python `str` operations the build scripts rely on (`lower`,
 * `isspace`, `isalnum`, `strip`, `in`, `split(" ")`, `" ".join`), on
 * `seq<char>`.  `isspace` follows Python's full whitespace table;
 * `isalnum` and `lower` are modelled on ASCII only.
 */
module PyStrings {
  /** `str.isspace` for one character: Python's whitespace characters. */
  predicate IsSpace(c: char)
  {
    c == ' ' || ('\t' <= c <= '\r') || ('\U{1c}' <= c <= '\U{1f}')
    || c == '\U{85}' || c == '\U{a0}' || c == '\U{1680}' || ('\U{2000}' <= c <= '\U{200a}')
    || c == '\U{2028}' || c == '\U{2029}' || c == '\U{202f}' || c == '\U{205f}' || c == '\U{3000}'
  }

  /** `str.isalnum` for one ASCII character. */
  predicate IsAlnum(c: char)
  {
    ('a' <= c <= 'z') || ('A' <= c <= 'Z') || ('0' <= c <= '9')
  }

  function LowerChar(c: char): (l: char)
    ensures !('A' <= l <= 'Z')
    ensures !('A' <= c <= 'Z') ==> l == c
  {
    if 'A' <= c <= 'Z' then (c as int + 32) as char else c
  }

  /** `str.lower`, on ASCII letters. */
  function Lower(s: seq<char>): (r: seq<char>)
    ensures |r| == |s| && forall i :: 0 <= i < |s| ==> r[i] == LowerChar(s[i])
  {
    seq(|s|, i requires 0 <= i < |s| => LowerChar(s[i]))
  }

  lemma LowerIdempotent(s: seq<char>)
    ensures Lower(Lower(s)) == Lower(s)
  {
  }

  /** `sub` occurs in `s` starting at index `i`. */
  predicate OccursAt(s: seq<char>, sub: seq<char>, i: int)
  {
    0 <= i <= |s| - |sub| && s[i..i + |sub|] == sub
  }

  /** `sub in s`. */
  predicate Contains(s: seq<char>, sub: seq<char>)
  {
    exists i :: 0 <= i <= |s| - |sub| && OccursAt(s, sub, i)
  }

  lemma ContainsAt(s: seq<char>, sub: seq<char>, i: nat)
    requires i + |sub| <= |s| && s[i..i + |sub|] == sub
    ensures Contains(s, sub)
  {
    assert OccursAt(s, sub, i);
  }

  /** Number of leading characters that `strip` removes. */
  function LeadingSpaces(s: seq<char>): (n: nat)
    ensures n <= |s|
    ensures forall i :: 0 <= i < n ==> IsSpace(s[i])
    ensures n < |s| ==> !IsSpace(s[n])
  {
    if s == [] || !IsSpace(s[0]) then 0 else 1 + LeadingSpaces(s[1..])
  }

  /** Number of trailing characters that `strip` removes. */
  function TrailingSpaces(s: seq<char>): (n: nat)
    ensures n <= |s|
    ensures forall i :: |s| - n <= i < |s| ==> IsSpace(s[i])
    ensures n < |s| ==> !IsSpace(s[|s| - n - 1])
  {
    if s == [] || !IsSpace(s[|s| - 1]) then 0 else 1 + TrailingSpaces(s[..|s| - 1])
  }

  /** `str.strip()`: drops whitespace at both ends. */
  function Strip(s: seq<char>): (r: seq<char>)
    ensures r == [] || (!IsSpace(r[0]) && !IsSpace(r[|r| - 1]))
    ensures r == [] <==> forall i :: 0 <= i < |s| ==> IsSpace(s[i])
    ensures exists i :: OccursAt(s, r, i)
  {
    var front := LeadingSpaces(s);
    var rest := s[front..];
    var back := TrailingSpaces(rest);
    var r := rest[..|rest| - back];
    assert s[front..front + |r|] == r;
    assert OccursAt(s, r, front);
    if r == [] then
      r
    else
      assert r[0] == s[front] && r[|r| - 1] == rest[|rest| - back - 1];
      r
  }

  /** Position of the first space, if any. */
  function IndexOfSpace(s: seq<char>): (i: nat)
    ensures i <= |s|
    ensures forall k :: 0 <= k < i ==> s[k] != ' '
    ensures i < |s| ==> s[i] == ' '
  {
    if s == [] || s[0] == ' ' then 0 else 1 + IndexOfSpace(s[1..])
  }

  /** `s.split(" ")`: pieces between single spaces; consecutive spaces give empty pieces. */
  function Split(s: seq<char>): (parts: seq<seq<char>>)
    ensures |parts| >= 1
    decreases |s|
  {
    var i := IndexOfSpace(s);
    if i == |s| then [s] else [s[..i]] + Split(s[i + 1..])
  }

  /** No piece of a split contains a space. */
  lemma {:induction false} SplitPiecesHaveNoSpace(s: seq<char>)
    ensures forall p :: p in Split(s) ==> ' ' !in p
    decreases |s|
  {
    var i := IndexOfSpace(s);
    assert forall k :: 0 <= k < |s[..i]| ==> s[..i][k] != ' ';
    if i < |s| {
      SplitPiecesHaveNoSpace(s[i + 1..]);
    }
  }

  /** `" ".join(parts)`. */
  function Join(parts: seq<seq<char>>): seq<char>
    requires |parts| >= 1
  {
    if |parts| == 1 then parts[0] else parts[0] + " " + Join(parts[1..])
  }

  /** Splitting on spaces and joining with spaces gives back the text. */
  lemma {:induction false} JoinSplit(s: seq<char>)
    ensures Join(Split(s)) == s
    decreases |s|
  {
    var i := IndexOfSpace(s);
    if i < |s| {
      var rest := s[i + 1..];
      JoinSplit(rest);
      SplitAtSpace(s, i);
      JoinCons(s[..i], Split(rest));
      assert s == s[..i] + " " + rest;
    } else {
      assert Split(s) == [s];
    }
  }

  lemma SplitAtSpace(s: seq<char>, i: nat)
    requires i == IndexOfSpace(s) < |s|
    ensures Split(s) == [s[..i]] + Split(s[i + 1..])
  {
  }

  lemma JoinCons(word: seq<char>, parts: seq<seq<char>>)
    requires |parts| >= 1
    ensures Join([word] + parts) == word + " " + Join(parts)
  {
    assert ([word] + parts)[1..] == parts;
  }

  /** A word followed by a space splits off as the first piece. */
  lemma SplitAfterWord(a: string, b: string)
    requires forall k :: 0 <= k < |a| ==> a[k] != ' '
    ensures Split(a + " " + b) == [a] + Split(b)
  {
    var s := a + " " + b;
    assert s[|a|] == ' ';
    assert forall k :: 0 <= k < |a| ==> s[k] == a[k];
    assert s[..|a|] == a;
    assert s[|a| + 1..] == b;
  }

  /** A text without spaces splits into itself alone. */
  lemma SplitWithoutSpace(s: seq<char>)
    requires ' ' !in s
    ensures Split(s) == [s]
  {
    assert forall k :: 0 <= k < |s| ==> s[k] in s;
  }
}
