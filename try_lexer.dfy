/*
 * The lexer of the CI configuration language (etc/try_parser.py): a
 * `Lexer` object that reads one character at a time, keeping the current
 * character `ch` at `pos` and one token of look-ahead.  Past the end of the
 * input `ch` is '\0', so an input holding a NUL character ends there too.
 *
 * `Scan` is the specification: the token that starts at a position (after
 * whitespace) and the position just after it.
 */
module TryLexer {
  import opened PyStrings

  datatype TokenType =
    | Illegal | Eof
    | Comma | SemiColon | Assign
    | Lparen | Rparen
    | String
    | FailFast | Full | Try

  datatype Token = Token(typ: TokenType, lit: string)

  /** `Token.is_seperator`. */
  predicate IsSeparator(t: Token)
  {
    t.typ == Comma || t.typ == SemiColon
  }

  const EOF_TOKEN := Token(Eof, "EOF")

  /** The character `read_char` loads from index `i`: '\0' past the end. */
  function CharAt(input: string, i: nat): (c: char)
    ensures i >= |input| ==> c == '\0'
    ensures i < |input| ==> c == input[i]
  {
    if i < |input| then input[i] else '\0'
  }

  /** `s[a:b]` for non-negative bounds: both clamped to the length, empty when reversed. */
  function PySlice(s: string, a: nat, b: nat): (r: string)
    ensures a <= b <= |s| ==> r == s[a..b]
    ensures |r| <= |s|
  {
    var lo := if a <= |s| then a else |s|;
    var hi := if b <= |s| then b else |s|;
    if hi <= lo then [] else s[lo..hi]
  }

  /** Where `skip_whitespace` stops: the first non-space position at or after `p`. */
  function SkipWs(input: string, p: nat): (q: nat)
    ensures p <= q
    ensures forall k :: p <= k < q ==> IsSpace(CharAt(input, k))
    ensures !IsSpace(CharAt(input, q))
    ensures p >= |input| ==> q == p
    decreases |input| - p
  {
    if IsSpace(CharAt(input, p)) then SkipWs(input, p + 1) else p
  }

  /** Where `read_string(end)` stops, starting on the opening quote at `p`: the next `end` or '\0'. */
  function StringEnd(input: string, p: nat, end: char): (e: nat)
    ensures p < e
    ensures forall k :: p < k < e ==> CharAt(input, k) != end && CharAt(input, k) != '\0'
    ensures CharAt(input, e) == end || CharAt(input, e) == '\0'
    ensures e <= |input| || e == p + 1
    decreases |input| + 1 - p
  {
    var c := CharAt(input, p + 1);
    if c == end || c == '\0' then p + 1 else StringEnd(input, p + 1, end)
  }

  /** The characters `read_ident` consumes. */
  predicate IsIdentChar(c: char)
  {
    IsAlnum(c) || c == '-' || c == '_'
  }

  /** Where `read_ident` stops: the end of the maximal run of identifier characters from `p`. */
  function IdentEnd(input: string, p: nat): (e: nat)
    ensures p <= e
    ensures forall k :: p <= k < e ==> IsIdentChar(CharAt(input, k))
    ensures !IsIdentChar(CharAt(input, e))
    ensures p >= |input| ==> e == p
    ensures e <= |input| || e == p
    decreases |input| - p
  {
    if IsIdentChar(CharAt(input, p)) then IdentEnd(input, p + 1) else p
  }

  /** `Lexer.keyword`. */
  function Keyword(s: string): (t: TokenType)
    ensures t == FailFast <==> s == "fail-fast"
    ensures t == Full <==> s == "full"
    ensures t == Try <==> s == "try"
    ensures t == String <==> s !in ["fail-fast", "full", "try"]
  {
    if s == "fail-fast" then FailFast
    else if s == "full" then Full
    else if s == "try" then Try
    else String
  }

  /** The look-ahead token and the position the lexer stands on. */
  datatype Stream = Stream(peek: Token, pos: nat)

  /**
   * `_next_token` from position `p`: the token that starts after the
   * whitespace there, and the position after it.
   */
  function Scan(input: string, p: nat): (next: Stream)
    ensures p < next.pos
    ensures next.peek.typ != Eof ==> next.pos <= |input| + 1
    ensures p >= |input| ==> next == Stream(EOF_TOKEN, p + 1)
  {
    var q := SkipWs(input, p);
    var c := CharAt(input, q);
    if c == '=' then Stream(Token(Assign, [c]), q + 1)
    else if c == '"' || c == '\'' then
      var e := StringEnd(input, q, c);
      Stream(Token(String, PySlice(input, q + 1, e)), e + 1)
    else if c == '(' then Stream(Token(Lparen, [c]), q + 1)
    else if c == ')' then Stream(Token(Rparen, [c]), q + 1)
    else if c == ',' then Stream(Token(Comma, [c]), q + 1)
    else if c == ';' then Stream(Token(SemiColon, [c]), q + 1)
    else if c == '\0' then Stream(EOF_TOKEN, q + 1)
    else if !IsAlnum(c) then Stream(Token(Illegal, [c]), q + 1)
    else
      var e := IdentEnd(input, q);
      var s := PySlice(input, q, e);
      Stream(Token(Keyword(s), s), e)
  }

  /** A state the lexer can be in: a token other than Eof was scanned within the input. */
  predicate WellFormed(input: string, st: Stream)
  {
    st.peek.typ == Eof || st.pos <= |input| + 1
  }

  /** Only Eof tokens remain: the look-ahead is Eof and the input is used up. */
  predicate Exhausted(input: string, st: Stream)
  {
    st.peek.typ == Eof && st.pos > |input|
  }

  /** What is left to read; it drops with every token taken until only Eof tokens remain. */
  function Remaining(input: string, st: Stream): (n: nat)
    requires WellFormed(input, st)
    ensures n == 0 <==> Exhausted(input, st)
  {
    if Exhausted(input, st) then 0 else |input| + 2 - st.pos
  }

  /** Taking a token makes progress, and once exhausted the stream stays so. */
  lemma ScanProgresses(input: string, st: Stream)
    requires WellFormed(input, st)
    ensures WellFormed(input, Scan(input, st.pos))
    ensures !Exhausted(input, st) ==> Remaining(input, Scan(input, st.pos)) < Remaining(input, st)
    ensures Exhausted(input, st) ==> Exhausted(input, Scan(input, st.pos))
  {
  }

  /** The tokens `collect` returns from a given state: up to and including the first Eof. */
  function TokensFrom(input: string, st: Stream): (tokens: seq<Token>)
    requires WellFormed(input, st)
    ensures |tokens| >= 1 && tokens[0] == st.peek
    decreases if st.peek.typ == Eof then 0 else Remaining(input, st)
  {
    if st.peek.typ == Eof then [st.peek]
    else
      ScanProgresses(input, st);
      [st.peek] + TokensFrom(input, Scan(input, st.pos))
  }

  /** `collect` ends with exactly one Eof token: the last one. */
  lemma {:induction false} TokensEndWithOneEof(input: string, st: Stream)
    requires WellFormed(input, st)
    ensures var tokens := TokensFrom(input, st);
      tokens[|tokens| - 1].typ == Eof && forall i :: 0 <= i < |tokens| - 1 ==> tokens[i].typ != Eof
    decreases if st.peek.typ == Eof then 0 else Remaining(input, st)
  {
    if st.peek.typ != Eof {
      ScanProgresses(input, st);
      var next := Scan(input, st.pos);
      TokensEndWithOneEof(input, next);
      var rest := TokensFrom(input, next);
      assert TokensFrom(input, st) == [st.peek] + rest;
    }
  }

  /** A quoted string lexes to a String token holding the text between the quotes; unterminated, it runs to the end. */
  lemma ScanQuoted(input: string, p: nat, q: nat, e: nat)
    requires p <= q < e <= |input|
    requires forall k :: p <= k < q ==> IsSpace(input[k])
    requires input[q] == '"' || input[q] == '\''
    requires forall k :: q < k < e ==> input[k] != input[q] && input[k] != '\0'
    requires e == |input| || input[e] == input[q]
    ensures Scan(input, p) == Stream(Token(String, input[q + 1..e]), e + 1)
  {
    SkipWsStopsAt(input, p, q);
    StringEndAt(input, q, e, input[q]);
  }

  /** An identifier: the maximal run of letters, digits, '-' and '_'; a keyword if it is one. */
  lemma ScanIdent(input: string, p: nat, q: nat, e: nat)
    requires p <= q < e <= |input|
    requires forall k :: p <= k < q ==> IsSpace(input[k])
    requires IsAlnum(input[q])
    requires forall k :: q <= k < e ==> IsIdentChar(input[k])
    requires e == |input| || !IsIdentChar(input[e])
    ensures Scan(input, p) == Stream(Token(Keyword(input[q..e]), input[q..e]), e)
  {
    SkipWsStopsAt(input, p, q);
    IdentEndAt(input, q, e);
  }

  /** A character that starts no token is a one-character Illegal token, and the lexer steps over it. */
  lemma ScanIllegal(input: string, p: nat, q: nat)
    requires p <= q < |input|
    requires forall k :: p <= k < q ==> IsSpace(input[k])
    requires var c := input[q];
      !IsSpace(c) && !IsAlnum(c) && c !in "=\"'(),;" && c != '\0'
    ensures Scan(input, p) == Stream(Token(Illegal, [input[q]]), q + 1)
  {
    SkipWsStopsAt(input, p, q);
  }

  /** Whitespace only, to the end: Eof. */
  lemma ScanBlank(input: string, p: nat)
    requires p <= |input|
    requires forall k :: p <= k < |input| ==> IsSpace(input[k])
    ensures Scan(input, p) == Stream(EOF_TOKEN, |input| + 1)
  {
    SkipWsStopsAt(input, p, |input|);
  }

  lemma SkipWsStopsAt(input: string, p: nat, q: nat)
    requires p <= q <= |input|
    requires forall k :: p <= k < q ==> IsSpace(input[k])
    requires !IsSpace(CharAt(input, q))
    ensures SkipWs(input, p) == q
  {
  }

  lemma StringEndAt(input: string, q: nat, e: nat, end: char)
    requires q < e <= |input|
    requires forall k :: q < k < e ==> input[k] != end && input[k] != '\0'
    requires e == |input| || input[e] == end
    ensures StringEnd(input, q, end) == e
  {
    var r := StringEnd(input, q, end);
    assert e < r ==> CharAt(input, e) != end && CharAt(input, e) != '\0';
  }

  lemma IdentEndAt(input: string, q: nat, e: nat)
    requires q <= e <= |input|
    requires forall k :: q <= k < e ==> IsIdentChar(input[k])
    requires e == |input| || !IsIdentChar(input[e])
    ensures IdentEnd(input, q) == e
  {
    var r := IdentEnd(input, q);
    assert e < r ==> IsIdentChar(CharAt(input, e));
  }

  /** The lexer of etc/try_parser.py. */
  class Lexer {
    const input: string
    var pos: nat
    var readPos: nat
    var ch: char
    var peekToken: Token

    /** `read_pos` runs one ahead of `pos`, and `ch` is the character at `pos`. */
    predicate Valid()
      reads this
    {
      readPos == pos + 1 && ch == CharAt(input, pos) && WellFormed(input, Stream(peekToken, pos))
    }

    /** The look-ahead token and the position, as a value. */
    function State(): Stream
      reads this
    {
      Stream(peekToken, pos)
    }

    /** `Lexer(s)`: load the first character, then scan the first token. */
    constructor(s: string)
      ensures input == s
      ensures Valid() && State() == Scan(s, 0)
    {
      input := s;
      pos := 0;
      readPos := 0;
      ch := '\0';
      peekToken := EOF_TOKEN;
      new;
      ReadChar();
      LexNextToken();
    }

    /** `read_char`. */
    method ReadChar()
      modifies this
      ensures ch == CharAt(input, old(readPos)) && pos == old(readPos) && readPos == old(readPos) + 1
      ensures peekToken == old(peekToken)
    {
      ch := if readPos >= |input| then '\0' else input[readPos];
      pos := readPos;
      readPos := readPos + 1;
    }

    /** `skip_whitespace`. */
    method SkipWhitespace()
      requires readPos == pos + 1 && ch == CharAt(input, pos)
      modifies this
      ensures pos == SkipWs(input, old(pos)) && readPos == pos + 1 && ch == CharAt(input, pos)
      ensures peekToken == old(peekToken)
    {
      while IsSpace(ch)
        invariant old(pos) <= pos && readPos == pos + 1 && ch == CharAt(input, pos)
        invariant SkipWs(input, pos) == SkipWs(input, old(pos))
        invariant peekToken == old(peekToken)
        decreases |input| - pos
      {
        ReadChar();
      }
    }

    /** `read_string(end)`, called on the opening quote. */
    method ReadString(end: char) returns (s: string)
      requires readPos == pos + 1 && ch == CharAt(input, pos)
      modifies this
      ensures pos == StringEnd(input, old(pos), end) && readPos == pos + 1 && ch == CharAt(input, pos)
      ensures s == PySlice(input, old(pos) + 1, pos)
      ensures peekToken == old(peekToken)
    {
      var start := pos + 1;
      ReadChar();
      while ch != end && ch != '\0'
        invariant old(pos) < pos && readPos == pos + 1 && ch == CharAt(input, pos)
        invariant pos <= StringEnd(input, old(pos), end)
        invariant peekToken == old(peekToken)
        decreases |input| - pos
      {
        ReadChar();
      }
      s := PySlice(input, start, pos);
    }

    /** `read_ident`. */
    method ReadIdent() returns (s: string)
      requires readPos == pos + 1 && ch == CharAt(input, pos)
      modifies this
      ensures pos == IdentEnd(input, old(pos)) && readPos == pos + 1 && ch == CharAt(input, pos)
      ensures s == PySlice(input, old(pos), pos)
      ensures peekToken == old(peekToken)
    {
      var start := pos;
      while IsAlnum(ch) || (ch == '-' || ch == '_')
        invariant start <= pos && readPos == pos + 1 && ch == CharAt(input, pos)
        invariant IdentEnd(input, pos) == IdentEnd(input, start)
        invariant peekToken == old(peekToken)
        decreases |input| - pos
      {
        ReadChar();
      }
      s := PySlice(input, start, pos);
    }

    /** `_next_token`: scan the next token into the look-ahead. */
    method LexNextToken()
      requires readPos == pos + 1 && ch == CharAt(input, pos)
      modifies this
      ensures Valid() && State() == Scan(input, old(pos))
    {
      SkipWhitespace();
      var tok: Token;
      if ch == '=' {
        tok := Token(Assign, [ch]);
      } else if ch == '"' || ch == '\'' {
        var s := ReadString(ch);
        tok := Token(String, s);
      } else if ch == '(' {
        tok := Token(Lparen, [ch]);
      } else if ch == ')' {
        tok := Token(Rparen, [ch]);
      } else if ch == ',' {
        tok := Token(Comma, [ch]);
      } else if ch == ';' {
        tok := Token(SemiColon, [ch]);
      } else if ch == '\0' {
        tok := EOF_TOKEN;
      } else {
        var c := ch;
        if !IsAlnum(c) {
          ReadChar();
          tok := Token(Illegal, [c]);
        } else {
          var s := ReadIdent();
          tok := Token(Keyword(s), s);
        }
        peekToken := tok;
        return;
      }
      ReadChar();
      peekToken := tok;
    }

    /** `next_token`: hand out the look-ahead and scan the one after it. */
    method NextToken() returns (t: Token)
      requires Valid()
      modifies this
      ensures t == old(peekToken)
      ensures Valid() && State() == Scan(input, old(pos))
    {
      t := peekToken;
      LexNextToken();
    }

    /** `peek_token`. */
    method PeekToken() returns (t: Token)
      ensures t == peekToken
    {
      t := peekToken;
    }

    /** `collect`: every token up to and including the first Eof. */
    method Collect() returns (tokens: seq<Token>)
      requires Valid()
      modifies this
      ensures tokens == TokensFrom(input, old(State()))
      ensures Valid()
    {
      tokens := [];
      while peekToken.typ != Eof
        invariant Valid()
        invariant tokens + TokensFrom(input, State()) == TokensFrom(input, old(State()))
        decreases Remaining(input, State())
      {
        ScanProgresses(input, State());
        var t := NextToken();
        tokens := tokens + [t];
      }
      var t := NextToken();
      tokens := tokens + [t];
    }
  }
}
