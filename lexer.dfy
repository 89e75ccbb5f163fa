/**
 * The lexer (lexer/lexer.go): a byte cursor over the source text that hands
 * out one token per call.
 *
 * `NextTokenAt(input, pos)` is the token the cursor yields at position `pos`,
 * together with the position it moves to; the class `Lexer` is the Go object
 * whose methods update its cursor fields in place, and `Lexer.NextToken` is
 * proved to agree with `NextTokenAt`.
 */
module Lexer {

  import opened Wrappers
  import opened Token
  import Strconv

  predicate IsLetter(ch: Byte) {
    'a' <= ch <= 'z' || 'A' <= ch <= 'Z' || ch == '_'
  }

  predicate IsNumber(ch: Byte) {
    '0' <= ch <= '9'
  }

  predicate IsWhitespace(ch: Byte) {
    ch == '\n' || ch == '\t' || ch == '\r' || ch == ' '
  }

  /** The byte under the cursor: the input byte, or 0 once the input is exhausted. */
  function CharAt(input: seq<Byte>, pos: nat): Byte {
    if pos < |input| then input[pos] else '\0'
  }

  /** The position of the first non-whitespace byte at or after `pos`. */
  function SkipWhitespaceFrom(input: seq<Byte>, pos: nat): (p: nat)
    ensures pos <= p
    ensures forall i :: pos <= i < p ==> i < |input| && IsWhitespace(input[i])
    ensures !IsWhitespace(CharAt(input, p))
    ensures pos <= |input| ==> p <= |input|
    ensures pos >= |input| ==> p == pos
    decreases |input| - pos
  {
    if IsWhitespace(CharAt(input, pos)) then
      assert pos < |input| && input[pos] == CharAt(input, pos);
      SkipWhitespaceFrom(input, pos + 1)
    else
      pos
  }

  /** The end of the maximal run of bytes in the class that starts at `pos`. */
  function RunEnd(input: seq<Byte>, pos: nat, inClass: Byte -> bool): (e: nat)
    requires !inClass('\0')
    ensures pos <= e
    ensures forall i :: pos <= i < e ==> i < |input| && inClass(input[i])
    ensures !inClass(CharAt(input, e))
    ensures pos <= |input| ==> e <= |input|
    decreases |input| - pos
  {
    if inClass(CharAt(input, pos)) then
      assert pos < |input| && input[pos] == CharAt(input, pos);
      RunEnd(input, pos + 1, inClass)
    else
      pos
  }

  /** The one-byte tokens other than `=` and `!`, and the 0 byte that ends
      the input. None of these bytes starts another kind of token, and each
      punctuation kind is named by its own byte. */
  function SingleByteType(ch: Byte): (r: Option<TokenType>)
    ensures r.Some? ==> ch != '=' && ch != '!' && !IsLetter(ch) && !IsNumber(ch) && !IsWhitespace(ch)
    ensures r == Some(Eof) <==> ch == '\0'
    ensures r.Some? && r.value != Eof ==> TypeName(r.value) == [ch]
  {
    match ch
    case ';' => Some(Semicolon)
    case '>' => Some(Gt)
    case '<' => Some(Lt)
    case '+' => Some(Plus)
    case '-' => Some(Minus)
    case '*' => Some(Asterisk)
    case '/' => Some(Slash)
    case ',' => Some(Comma)
    case '(' => Some(LParen)
    case ')' => Some(RParen)
    case '{' => Some(LBrace)
    case '}' => Some(RBrace)
    case '\0' => Some(Eof)
    case _ => None
  }

  /** What the lexer guarantees of every token's literal. */
  predicate WellFormedToken(tok: Token) {
    && (tok.tokenType == Int ==> |tok.literal| > 0 && Strconv.AllDigits(tok.literal))
    && (tok.tokenType == Ident || IsKeyword(tok.tokenType) ==>
          |tok.literal| > 0 && forall i :: 0 <= i < |tok.literal| ==> tok.literal[i] as int < 256 && IsLetter(tok.literal[i] as Byte))
  }

  /** The token the lexer produces when its cursor is at `pos`, and the
      cursor position after it: whitespace is skipped, then one token is
      scanned. */
  function NextTokenAt(input: seq<Byte>, pos: nat): (r: (Token, nat))
    ensures r.1 > pos
    ensures r.0.tokenType == Eof <==> CharAt(input, SkipWhitespaceFrom(input, pos)) == '\0'
  {
    ScanToken(input, SkipWhitespaceFrom(input, pos))
  }

  /** The token that starts at `start`, and the position just after it.
      Inside the input the literal is exactly the bytes consumed; the token
      is EOF exactly at a 0 byte or past the end, where it consumes one
      position and has the 0 byte as literal. */
  function ScanToken(input: seq<Byte>, start: nat): (r: (Token, nat))
    ensures r.1 > start
    ensures start < |input| ==> r.1 <= |input| && r.0.literal == input[start..r.1]
    ensures start >= |input| ==> r == (Token(Eof, "\0"), start + 1)
    ensures r.0.tokenType == Eof <==> CharAt(input, start) == '\0'
  {
    var ch := CharAt(input, start);
    if ch == '=' then
      if CharAt(input, start + 1) == '=' then
        assert input[start..start + 2] == "==";
        (Token(Eq, "=="), start + 2)
      else (Token(Assign, "="), start + 1)
    else if ch == '!' then
      if CharAt(input, start + 1) == '=' then
        assert input[start..start + 2] == "!=";
        (Token(NotEq, "!="), start + 2)
      else (Token(Bang, "!"), start + 1)
    else if SingleByteType(ch).Some? then
      (Token(SingleByteType(ch).value, [ch]), start + 1)
    else if IsLetter(ch) then
      var e := RunEnd(input, start, IsLetter);
      (Token(LookupIdent(input[start..e]), input[start..e]), e)
    else if IsNumber(ch) then
      var e := RunEnd(input, start, IsNumber);
      (Token(Int, input[start..e]), e)
    else
      (Token(Illegal, [ch]), start + 1)
  }

  /**
   * Every token's literal is exactly the input bytes it consumed after the
   * skipped whitespace, and none of those bytes is whitespace. Once the input
   * is exhausted the token is EOF, whose literal is the 0 byte, and the
   * cursor moves on by one, so EOF repeats forever.
   */
  lemma NextTokenConsumes(input: seq<Byte>, pos: nat)
    ensures var r := NextTokenAt(input, pos);
      var start := SkipWhitespaceFrom(input, pos);
      && (start < |input| ==>
            && start < r.1 <= |input|
            && r.0.literal == input[start..r.1]
            && forall i :: start <= i < r.1 ==> !IsWhitespace(input[i]))
      && (start >= |input| ==> r == (Token(Eof, "\0"), start + 1))
  {
    var start := SkipWhitespaceFrom(input, pos);
    if start < |input| {
      var ch := input[start];
      var r := ScanToken(input, start);
      if ch == '=' || ch == '!' {
        if CharAt(input, start + 1) == '=' {
          assert input[start..r.1] == [ch, '='];
        }
      }
    }
  }

  /** What the lexer guarantees of every token's literal: INT literals are
      non-empty digit runs, identifier and keyword literals non-empty letter runs. */
  lemma NextTokenWellFormed(input: seq<Byte>, pos: nat)
    ensures WellFormedToken(NextTokenAt(input, pos).0)
  {
    var start := SkipWhitespaceFrom(input, pos);
    var ch := CharAt(input, start);
    if IsLetter(ch) {
      var e := RunEnd(input, start, IsLetter);
      assert forall i :: 0 <= i < e - start ==> input[start..e][i] == input[start + i];
    } else if IsNumber(ch) {
      var e := RunEnd(input, start, IsNumber);
      assert forall i :: 0 <= i < e - start ==> input[start..e][i] == input[start + i];
    }
  }

  /** Whitespace before a token is skipped, never emitted: starting the
      cursor on a whitespace byte yields the same token as starting just after it. */
  lemma WhitespaceIsSkipped(input: seq<Byte>, pos: nat)
    requires pos < |input| && IsWhitespace(input[pos])
    ensures NextTokenAt(input, pos) == NextTokenAt(input, pos + 1)
  {
  }

  /** `=` and `!` look one byte ahead: followed by `=` they form the two-byte
      EQ and NOT_EQ tokens, otherwise they are ASSIGN and BANG. */
  lemma TwoByteOperators(input: seq<Byte>, pos: nat)
    requires var start := SkipWhitespaceFrom(input, pos);
      start < |input| && (input[start] == '=' || input[start] == '!')
    ensures var start := SkipWhitespaceFrom(input, pos);
      var (tok, next) := NextTokenAt(input, pos);
      var twoBytes := start + 1 < |input| && input[start + 1] == '=';
      && (twoBytes ==> next == start + 2 && tok == Token(if input[start] == '=' then Eq else NotEq, [input[start], '=']))
      && (!twoBytes ==> next == start + 1 && tok == Token(if input[start] == '=' then Assign else Bang, [input[start]]))
  {
  }

  /** An identifier or keyword is the maximal run of letters and `_` at the
      cursor; its kind comes from the keyword table. */
  lemma IdentifierMaximalMunch(input: seq<Byte>, pos: nat)
    requires var start := SkipWhitespaceFrom(input, pos);
      start < |input| && IsLetter(input[start])
    ensures var start := SkipWhitespaceFrom(input, pos);
      var (tok, next) := NextTokenAt(input, pos);
      && start < next <= |input|
      && tok == Token(LookupIdent(input[start..next]), input[start..next])
      && (forall i :: start <= i < next ==> IsLetter(input[i]))
      && (next == |input| || !IsLetter(input[next]))
  {
  }

  /** An integer is the maximal run of decimal digits at the cursor. */
  lemma IntegerMaximalMunch(input: seq<Byte>, pos: nat)
    requires var start := SkipWhitespaceFrom(input, pos);
      start < |input| && IsNumber(input[start])
    ensures var start := SkipWhitespaceFrom(input, pos);
      var (tok, next) := NextTokenAt(input, pos);
      && start < next <= |input|
      && tok == Token(Int, input[start..next])
      && (forall i :: start <= i < next ==> IsNumber(input[i]))
      && (next == |input| || !IsNumber(input[next]))
  {
  }

  /** A byte that starts no token is an ILLEGAL token of its own. */
  lemma IllegalByte(input: seq<Byte>, pos: nat)
    requires var start := SkipWhitespaceFrom(input, pos);
      var ch := CharAt(input, start);
      && start < |input| && ch != '=' && ch != '!' && SingleByteType(ch).None?
      && !IsLetter(ch) && !IsNumber(ch)
    ensures var start := SkipWhitespaceFrom(input, pos);
      NextTokenAt(input, pos) == (Token(Illegal, [input[start]]), start + 1)
  {
  }

  /** The tokens the lexer hands out from `pos` until the input is exhausted
      (the EOF tokens that follow forever are not listed). */
  function Tokens(input: seq<Byte>, pos: nat): seq<Token>
    decreases if pos <= |input| then |input| - pos else 0
  {
    var start := SkipWhitespaceFrom(input, pos);
    if start >= |input| then []
    else
      NextTokenConsumes(input, pos);
      var (tok, next) := NextTokenAt(input, pos);
      [tok] + Tokens(input, next)
  }

  function Literals(tokens: seq<Token>): string {
    if tokens == [] then "" else tokens[0].literal + Literals(tokens[1..])
  }

  /** The input with its whitespace bytes removed. */
  function WithoutWhitespace(s: seq<Byte>): seq<Byte> {
    if s == [] then [] else (if IsWhitespace(s[0]) then [] else [s[0]]) + WithoutWhitespace(s[1..])
  }

  /**
   * Lexing loses nothing but whitespace: the literals of the tokens, in
   * order, spell out the input with its whitespace removed. Every byte that
   * is not whitespace ends up in exactly one token.
   */
  lemma {:induction false} LexingDropsOnlyWhitespace(input: seq<Byte>, pos: nat)
    requires pos <= |input|
    ensures Literals(Tokens(input, pos)) == WithoutWhitespace(input[pos..])
    decreases |input| - pos
  {
    var start := SkipWhitespaceFrom(input, pos);
    NextTokenConsumes(input, pos);
    if start < |input| {
      var (tok, next) := NextTokenAt(input, pos);
      DropWhitespaceAround(input, pos, start, next);
      LiteralsStep(input, pos);
      LexingDropsOnlyWhitespace(input, next);
    } else {
      DropWhitespaceAround(input, pos, |input|, |input|);
    }
  }

  /** One token's worth of `Literals(Tokens(...))`. */
  lemma LiteralsStep(input: seq<Byte>, pos: nat)
    requires SkipWhitespaceFrom(input, pos) < |input|
    ensures var (tok, next) := NextTokenAt(input, pos);
      Literals(Tokens(input, pos)) == tok.literal + Literals(Tokens(input, next))
  {
    var (tok, next) := NextTokenAt(input, pos);
    var rest := Tokens(input, next);
    assert Tokens(input, pos) == [tok] + rest;
    assert ([tok] + rest)[1..] == rest;
  }

  /** Removing the whitespace from whitespace, then a word without any,
      then the rest, leaves the word followed by the rest's non-whitespace. */
  lemma DropWhitespaceAround(input: seq<Byte>, pos: nat, start: nat, next: nat)
    requires pos <= start <= next <= |input|
    requires forall i :: pos <= i < start ==> IsWhitespace(input[i])
    requires forall i :: start <= i < next ==> !IsWhitespace(input[i])
    ensures WithoutWhitespace(input[pos..]) == input[start..next] + WithoutWhitespace(input[next..])
  {
    var gap, word, rest := input[pos..start], input[start..next], input[next..];
    assert input[pos..] == gap + (word + rest);
    WithoutWhitespaceAppend(gap, word + rest);
    WithoutWhitespaceAppend(word, rest);
    assert forall i :: 0 <= i < |gap| ==> gap[i] == input[pos + i];
    AllWhitespace(gap);
    assert forall i :: 0 <= i < |word| ==> word[i] == input[start + i];
    NoWhitespace(word);
  }

  lemma {:induction false} WithoutWhitespaceAppend(a: seq<Byte>, b: seq<Byte>)
    ensures WithoutWhitespace(a + b) == WithoutWhitespace(a) + WithoutWhitespace(b)
  {
    if a != [] {
      assert (a + b)[1..] == a[1..] + b;
      WithoutWhitespaceAppend(a[1..], b);
    } else {
      assert a + b == b;
    }
  }

  lemma {:induction false} AllWhitespace(s: seq<Byte>)
    requires forall i :: 0 <= i < |s| ==> IsWhitespace(s[i])
    ensures WithoutWhitespace(s) == []
  {
    if s != [] {
      AllWhitespace(s[1..]);
    }
  }

  lemma {:induction false} NoWhitespace(s: seq<Byte>)
    requires forall i :: 0 <= i < |s| ==> !IsWhitespace(s[i])
    ensures WithoutWhitespace(s) == s
  {
    if s != [] {
      NoWhitespace(s[1..]);
      assert s == [s[0]] + s[1..];
    }
  }

  class Lexer {
    const input: seq<Byte>
    var currPosition: nat
    var nextPosition: nat
    var ch: Byte

    /** The cursor invariant that every ReadChar re-establishes. */
    ghost predicate Valid()
      reads this
    {
      nextPosition == currPosition + 1 && ch == CharAt(input, currPosition)
    }

    constructor New(input: seq<Byte>)
      ensures Valid() && this.input == input && currPosition == 0
    {
      this.input := input;
      currPosition, nextPosition, ch := 0, 0, '\0';
      new;
      ReadChar();
    }

    /** Moves the cursor to `nextPosition` and loads the byte there (0 past the end). */
    method ReadChar()
      modifies this
      ensures currPosition == old(nextPosition) && nextPosition == currPosition + 1
      ensures ch == CharAt(input, currPosition)
    {
      if nextPosition >= |input| {
        ch := '\0';
      } else {
        ch := input[nextPosition];
      }
      currPosition := nextPosition;
      nextPosition := nextPosition + 1;
    }

    method PeekChar() returns (c: Byte)
      ensures c == CharAt(input, nextPosition)
    {
      if nextPosition >= |input| {
        return '\0';
      }
      return input[nextPosition];
    }

    method SkipWhitespace()
      requires Valid()
      modifies this
      ensures Valid() && currPosition == SkipWhitespaceFrom(input, old(currPosition))
    {
      while ch == '\n' || ch == '\t' || ch == '\r' || ch == ' '
        invariant Valid()
        invariant SkipWhitespaceFrom(input, currPosition) == SkipWhitespaceFrom(input, old(currPosition))
        decreases |input| - currPosition
      {
        ReadChar();
      }
    }

    /** Consumes the maximal run of bytes in the class and returns it. */
    method GetTextEntity(inClass: Byte -> bool) returns (s: seq<Byte>)
      requires Valid() && !inClass('\0') && currPosition <= |input|
      modifies this
      ensures Valid() && currPosition == RunEnd(input, old(currPosition), inClass)
      ensures currPosition <= |input| && s == input[old(currPosition)..currPosition]
    {
      var startPos := currPosition;
      while inClass(ch)
        invariant Valid() && startPos <= currPosition <= |input|
        invariant RunEnd(input, currPosition, inClass) == RunEnd(input, startPos, inClass)
        decreases |input| - currPosition
      {
        ReadChar();
      }
      s := input[startPos..currPosition];
    }

    method NextToken() returns (tok: Token)
      requires Valid()
      modifies this
      ensures Valid() && (tok, currPosition) == NextTokenAt(input, old(currPosition))
    {
      SkipWhitespace();
      ghost var start := currPosition;
      assert NextTokenAt(input, old(currPosition)) == ScanToken(input, start);
      if ch == '=' {
        var nextChar := PeekChar();
        if nextChar == '=' {
          tok := Token(Eq, [nextChar] + [ch]);
          ReadChar();
        } else {
          tok := Token(Assign, [ch]);
        }
      } else if ch == '!' {
        var nextChar := PeekChar();
        if nextChar == '=' {
          tok := Token(NotEq, [ch] + [nextChar]);
          ReadChar();
        } else {
          tok := Token(Bang, [ch]);
        }
      } else if SingleByteType(ch).Some? {
        tok := Token(SingleByteType(ch).value, [ch]);
      } else if IsLetter(ch) {
        var identifier := GetTextEntity(IsLetter);
        tok := Token(LookupIdent(identifier), identifier);
        assert (tok, currPosition) == ScanToken(input, start);
        return;
      } else if IsNumber(ch) {
        var number := GetTextEntity(IsNumber);
        tok := Token(Int, number);
        assert (tok, currPosition) == ScanToken(input, start);
        return;
      } else {
        tok := Token(Illegal, [ch]);
      }
      assert tok == ScanToken(input, start).0;
      assert ScanToken(input, start).1 == currPosition + 1;
      ReadChar();
    }
  }
}
