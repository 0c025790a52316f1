/** The tokens of an assembly source and the cursor over them (src/vm/assembler/lexer.cpp). */
module Lexing {
  import opened Words

  datatype Lexeme =
    | End | Newline | Identifier(text: string) | Number(text: string) | Register(text: string)
    | LBracket | RBracket | Comma | Colon
    | Bad     // a character that starts no token: the lexer throws

  datatype TokenType =
    | EndType | NewlineType | IdentifierType | NumberType | RegisterType | LBracketType | RBracketType | CommaType
    | ColonType | NoType

  function TypeOf(x: Lexeme): TokenType {
    match x
    case End => EndType
    case Newline => NewlineType
    case Identifier(_) => IdentifierType
    case Number(_) => NumberType
    case Register(_) => RegisterType
    case LBracket => LBracketType
    case RBracket => RBracketType
    case Comma => CommaType
    case Colon => ColonType
    case Bad => NoType
  }

  datatype Token = Token(lexeme: Lexeme, line: nat)

  predicate Blank(c: char) { c == ' ' || c == '\t' || c == '\r' }

  predicate Digit(c: char) { '0' <= c <= '9' }

  predicate Letter(c: char) { 'a' <= c <= 'z' || 'A' <= c <= 'Z' }

  predicate WordChar(c: char) { Letter(c) || Digit(c) || c == '_' }

  predicate NotNewline(c: char) { c != '\n' }

  /** The end of the longest stretch from pos of characters that satisfy p. */
  function While(src: string, pos: nat, p: char -> bool): (end: nat)
    requires pos <= |src|
    ensures pos <= end <= |src|
    decreases |src| - pos
  {
    if pos < |src| && p(src[pos]) then While(src, pos + 1, p) else pos
  }

  /** skipWhitespace: blanks and comments, but no newline. */
  function Skip(src: string, pos: nat): (at: nat)
    requires pos <= |src|
    ensures pos <= at <= |src|
    decreases |src| - pos
  {
    if pos == |src| then pos
    else if Blank(src[pos]) then Skip(src, pos + 1)
    else if src[pos] == '#' then Skip(src, While(src, pos + 1, NotNewline))
    else pos
  }

  predicate RegisterName(text: string) {
    |text| > 1 && text[0] == 'r' && forall i :: 1 <= i < |text| ==> Digit(text[i])
  }

  function WordLexeme(text: string): Lexeme {
    if RegisterName(text) then Register(text) else Identifier(text)
  }

  /** A lexeme, where it starts and where the next one is looked for. */
  datatype Lexed = Lexed(lexeme: Lexeme, start: nat, after: nat)

  function Lex(src: string, pos: nat): (x: Lexed)
    requires pos <= |src|
    ensures pos <= x.start <= x.after <= |src|
    ensures !x.lexeme.End? && !x.lexeme.Bad? ==> x.start < x.after
  {
    var at := Skip(src, pos);
    if at == |src| then Lexed(End, at, at)
    else
      var c := src[at];
      if c == '\n' then Lexed(Newline, at, at + 1)
      else if c == '[' then Lexed(LBracket, at, at + 1)
      else if c == ']' then Lexed(RBracket, at, at + 1)
      else if c == ',' then Lexed(Comma, at, at + 1)
      else if c == ':' then Lexed(Colon, at, at + 1)
      else if Letter(c) || c == '_' then
        var end := While(src, at + 1, WordChar);
        Lexed(WordLexeme(src[at..end]), at, end)
      else if Digit(c) || c == '-' then
        var end := While(src, at + 1, Digit);
        Lexed(Number(src[at..end]), at, end)
      else Lexed(Bad, at, at)
  }

  /** The fixed token sequence from pos on; it ends where the source ends or where the lexer throws. */
  function Stream(src: string, pos: nat): (s: seq<Lexeme>)
    requires pos <= |src|
    ensures |s| <= |src| - pos
    ensures End !in s
    decreases |src| - pos
  {
    var x := Lex(src, pos);
    if x.lexeme.End? then []
    else if x.lexeme.Bad? then [Bad]
    else [x.lexeme] + Stream(src, x.after)
  }

  function First(toks: seq<Lexeme>): Lexeme {
    if toks == [] then End else toks[0]
  }

  function Tail(toks: seq<Lexeme>): seq<Lexeme> {
    if toks == [] then [] else toks[1..]
  }

  function LineAt(src: string, pos: nat): (n: nat)
    requires pos <= |src|
    ensures n >= 1
  {
    if pos == 0 then 1
    else LineAt(src, pos - 1) + if src[pos - 1] == '\n' then 1 else 0
  }

  lemma {:induction false} WhileKeepsLine(src: string, pos: nat, p: char -> bool)
    requires pos <= |src| && !p('\n')
    ensures LineAt(src, While(src, pos, p)) == LineAt(src, pos)
    decreases |src| - pos
  {
    if pos == |src| || !p(src[pos]) {
    } else {
      WhileKeepsLine(src, pos + 1, p);
    }
  }

  lemma {:induction false} SkipKeepsLine(src: string, pos: nat)
    requires pos <= |src|
    ensures LineAt(src, Skip(src, pos)) == LineAt(src, pos)
    ensures Skip(src, Skip(src, pos)) == Skip(src, pos)
    decreases |src| - pos
  {
    if pos == |src| {
    } else if Blank(src[pos]) {
      SkipKeepsLine(src, pos + 1);
    } else if src[pos] == '#' {
      WhileKeepsLine(src, pos + 1, NotNewline);
      SkipKeepsLine(src, While(src, pos + 1, NotNewline));
    }
  }

  /** Only a newline token moves the line: a rewind to its start keeps the line right for any other token. */
  lemma LexKeepsLine(src: string, pos: nat)
    requires pos <= |src|
    ensures var x := Lex(src, pos);
            && LineAt(src, x.start) == LineAt(src, pos)
            && LineAt(src, x.after) == LineAt(src, pos) + (if x.lexeme.Newline? then 1 else 0)
  {
    SkipKeepsLine(src, pos);
    var at := Skip(src, pos);
    if at < |src| {
      WhileKeepsLine(src, at + 1, WordChar);
      WhileKeepsLine(src, at + 1, Digit);
    }
  }

  // ---- The cursor ---------------------------------------------------------------------------------------

  lemma StreamAtEnd(src: string, pos: nat)
    requires pos <= |src|
    ensures Lex(src, pos).lexeme == First(Stream(src, pos))
    ensures Lex(src, pos).lexeme.End? ==> Stream(src, Lex(src, pos).after) == []
  {
  }

  /** A failed read leaves the blanks skipped; the same character fails again. */
  lemma BadStays(src: string, pos: nat)
    requires pos <= |src|
    ensures Lex(src, pos).lexeme.Bad? ==> Stream(src, Lex(src, pos).after) == Stream(src, pos)
  {
    SkipKeepsLine(src, pos);
  }

  class Lexer {
    const source: string
    var position: nat
    var line: nat
    var hasPeek: bool
    var peekToken: Token
    var peekPosition: nat
    var peekLine: nat

    /** The line is the one of the position, and a cached token is the one a fresh read would give. */
    ghost predicate Valid()
      reads this
    {
      && position <= |source| && line == LineAt(source, position)
      && (hasPeek ==>
            var x := Lex(source, position);
            && !x.lexeme.Bad? && peekToken == Token(x.lexeme, line)
            && peekPosition == x.after && peekLine == LineAt(source, x.after))
    }

    /** What is still to be read. */
    ghost function Rest(): seq<Lexeme>
      reads this
    {
      if position <= |source| then Stream(source, position) else []
    }

    constructor (source: string)
      ensures Valid() && this.source == source && Rest() == Stream(source, 0)
    {
      this.source := source;
      position, line := 0, 1;
      hasPeek, peekToken, peekPosition, peekLine := false, Token(End, 1), 0, 1;
    }

    method SkipWhitespace()
      requires position <= |source|
      modifies `position
      ensures position == Skip(source, old(position))
    {
      while position < |source|
        invariant position <= |source| && Skip(source, position) == Skip(source, old(position))
        decreases |source| - position
      {
        var ch := source[position];
        if Blank(ch) {
          position := position + 1;
        } else if ch == '#' {
          ghost var hash := position;
          position := position + 1;
          while position < |source| && source[position] != '\n'
            invariant hash < position <= |source|
            invariant While(source, position, NotNewline) == While(source, hash + 1, NotNewline)
          {
            position := position + 1;
          }
        } else {
          return;
        }
      }
    }

    method MakeIdentifierOrRegister() returns (token: Token)
      requires position < |source| && WordChar(source[position])
      modifies `position
      ensures position == While(source, old(position) + 1, WordChar)
      ensures token == Token(WordLexeme(source[old(position)..position]), line)
    {
      var start := position;
      while position < |source| && WordChar(source[position])
        invariant start <= position <= |source|
        invariant While(source, position, WordChar) == While(source, start + 1, WordChar)
      {
        position := position + 1;
      }
      var text := source[start..position];
      if |text| > 1 && text[0] == 'r' {
        var i := 1;
        while i < |text| && Digit(text[i])
          invariant 1 <= i <= |text| && forall j :: 1 <= j < i ==> Digit(text[j])
        {
          i := i + 1;
        }
        if i == |text| {
          return Token(Register(text), line);
        }
      }
      token := Token(Identifier(text), line);
    }

    method MakeNumber() returns (token: Token)
      requires position < |source| && (Digit(source[position]) || source[position] == '-')
      modifies `position
      ensures position == While(source, old(position) + 1, Digit)
      ensures token == Token(Number(source[old(position)..position]), line)
    {
      var start := position;
      if source[position] == '-' {
        position := position + 1;
      }
      while position < |source| && Digit(source[position])
        invariant start <= position <= |source|
        invariant While(source, position, Digit) == While(source, start + 1, Digit)
      {
        position := position + 1;
      }
      token := Token(Number(source[start..position]), line);
    }

    /** None is the exception for an unexpected character. */
    method ReadToken() returns (token: Option<Token>)
      requires Valid() && !hasPeek
      modifies `position, `line
      ensures Valid()
      ensures var x := Lex(source, old(position));
              && position == x.after
              && token == (if x.lexeme.Bad? then None else Some(Token(x.lexeme, old(line))))
    {
      LexKeepsLine(source, position);
      SkipWhitespace();
      if position >= |source| {
        return Some(Token(End, line));
      }
      var ch := source[position];
      if ch == '\n' {
        position := position + 1;
        line := line + 1;
        return Some(Token(Newline, line - 1));
      }
      if ch == '[' || ch == ']' || ch == ',' || ch == ':' {
        position := position + 1;
        return Some(Token(if ch == '[' then LBracket else if ch == ']' then RBracket
                          else if ch == ',' then Comma else Colon, line));
      }
      if Letter(ch) || ch == '_' {
        var t := MakeIdentifierOrRegister();
        return Some(t);
      }
      if Digit(ch) || ch == '-' {
        var t := MakeNumber();
        return Some(t);
      }
      token := None;
    }

    /** next: the first token of the rest, which it drops. */
    method Next() returns (token: Option<Token>)
      requires Valid()
      modifies this
      ensures Valid() && position == Lex(source, old(position)).after
      ensures token.None? <==> First(old(Rest())).Bad?
      ensures token.Some? ==> token.value == Token(First(old(Rest())), old(line)) && Rest() == Tail(old(Rest()))
    {
      StreamAtEnd(source, position);
      if hasPeek {
        hasPeek := false;
        position := peekPosition;
        line := peekLine;
        return Some(peekToken);
      }
      token := ReadToken();
    }

    /** peek: the same token, and nothing is dropped, whether or not it was looked at before. */
    method Peek() returns (token: Option<Token>)
      requires Valid()
      modifies this
      ensures Valid() && Rest() == old(Rest()) && LineAt(source, position) == LineAt(source, old(position))
      ensures token.None? <==> First(Rest()).Bad?
      ensures token.Some? ==> position == old(position) && token.value == Token(First(Rest()), line)
      ensures First(Rest()).End? ==> Rest() == []
    {
      if !hasPeek {
        var savedPosition, savedLine := position, line;
        LexKeepsLine(source, position);
        BadStays(source, position);
        token := ReadToken();
        if token.None? {
          return;
        }
        peekToken := token.value;
        peekPosition := position;
        peekLine := line;
        position := savedPosition;
        line := savedLine;
        hasPeek := true;
      }
      token := Some(peekToken);
    }

    method Reset()
      modifies this
      ensures Valid() && Rest() == Stream(source, 0)
    {
      position := 0;
      line := 1;
      hasPeek := false;
    }

    function Mark(): nat
      reads this
    {
      position
    }

    /** restore: the tokens from the mark are read again. line_ is not saved with the mark, so the line is right
        exactly when no newline has been read since. */
    method Restore(mark: nat)
      requires mark <= |source| && Valid()
      modifies this
      ensures position == mark && Rest() == Stream(source, mark)
      ensures Valid() <==> LineAt(source, mark) == LineAt(source, old(position))
    {
      position := mark;
      hasPeek := false;
    }
  }
}
