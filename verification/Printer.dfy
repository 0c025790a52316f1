/** Source text, said without a lexer: which characters spell which tokens. With the grammar this gives exactly the
    texts that the assembler reads as given statements, and a text for every list of statements. */
module Printing {
  import opened Words
  import opened Encoding
  import opened Lexing
  import opened Syntax
  import opened Grammar
  import opened Assembly

  // ---- Numerals -----------------------------------------------------------------------------------------

  function Digits(n: nat): (s: string)
    ensures |s| >= 1 && forall i :: 0 <= i < |s| ==> Digit(s[i])
  {
    if n < 10 then [('0' as int + n) as char] else Digits(n / 10) + [('0' as int + n % 10) as char]
  }

  lemma {:induction false} NumeralDigits(n: nat)
    ensures Numeral(Digits(n)) == n
  {
    var s := Digits(n);
    assert s[..|s| - 1] == if n < 10 then [] else Digits(n / 10);
    if n < 10 {
    } else {
      NumeralDigits(n / 10);
    }
  }

  function Decimal(v: int): string {
    if v < 0 then "-" + Digits(-v) else Digits(v)
  }

  lemma MinusDigits(s: string)
    ensures ("-" + s)[0] == '-' && ("-" + s)[1..] == s
  {
  }

  lemma Truncated(v: Int16)
    ensures ToInt16(v) == v
  {
    if v < 0 {
      Euclid(v, -1, v + 0x1_0000, 0x1_0000);
    }
  }

  /** Every 16-bit number is read back from its decimal form. */
  lemma NumberReadBack(v: Int16)
    ensures NumberValue(Decimal(v)) == Some(v)
  {
    var x: int := v;
    if x < 0 {
      NumeralDigits(-x);
      MinusDigits(Digits(-x));
    } else {
      NumeralDigits(x);
      assert Digit(Digits(x)[0]);
    }
    Truncated(v);
    hide Digits, Numeral, ToInt16;
  }

  lemma RegisterReadBack(r: RegIndex)
    ensures RegisterIndex("r" + Digits(r)) == Some(r)
  {
    NumeralDigits(r);
    assert ("r" + Digits(r))[1..] == Digits(r);
  }

  // ---- Statements as tokens -----------------------------------------------------------------------------

  function OpcodeName(op: Opcode): string {
    if op.UNKNOWN? then "" else NAMES[Code(op)]
  }

  function RegisterToken(r: RegIndex): Lexeme { Register("r" + Digits(r)) }

  function NumberToken(v: Int16): Lexeme { Number(Decimal(v)) }

  function CellTokens(name: string): seq<Lexeme> { [LBracket, Identifier(name), RBracket] }

  function PlaceTokens(p: Place): seq<Lexeme> {
    match p case Cell(name) => CellTokens(name) case At(v) => [NumberToken(v)]
  }

  function SourceTokens(s: Source): seq<Lexeme> {
    match s
    case FromRegister(r) => [RegisterToken(r)]
    case FromMemory(name) => CellTokens(name)
    case Immediate(v) => [NumberToken(v)]
  }

  function InstructionTokens(i: Instruction): seq<Lexeme> {
    match i
    case Halt => [Identifier("halt")]
    case Ret => [Identifier("ret")]
    case PushRegister(r) => [Identifier("push"), RegisterToken(r)]
    case PushLabel(name) => [Identifier("push"), Identifier(name)]
    case PushNumber(v) => [Identifier("push"), NumberToken(v)]
    case Pop(r) => [Identifier("pop"), RegisterToken(r)]
    case Call(service, p) => [Identifier("call"), Identifier(service), Comma] + PlaceTokens(p)
    case Branch(op, name) => [Identifier(OpcodeName(op)), Identifier(name)]
    case Unary(op, r) => [Identifier(OpcodeName(op)), RegisterToken(r)]
    case Transfer(op, r, p) => [Identifier(OpcodeName(op)), RegisterToken(r), Comma] + PlaceTokens(p)
    case Binary(op, r, s) => [Identifier(OpcodeName(op)), RegisterToken(r), Comma] + SourceTokens(s)
  }

  function StatementTokens(s: Statement): seq<Lexeme> {
    match s
    case Enter(section) => [Identifier(if section.DataSection? then "DATA" else "CODE"), Colon]
    case Declaration(t, name, v) => [Identifier(TypeName(t)), Identifier(name), NumberToken(v)]
    case Label(name) => [Identifier(name), Colon]
    case Ins(i) => InstructionTokens(i)
  }

  function Newlines(n: nat): seq<Lexeme> {
    if n == 0 then [] else [Newline] + Newlines(n - 1)
  }

  /** Any number of line ends before, between and after the statements; none are needed. */
  function Listing(ss: seq<Statement>, lines: seq<nat>): seq<Lexeme>
    requires |lines| == |ss| + 1
  {
    Newlines(lines[0]) + if ss == [] then [] else StatementTokens(ss[0]) + Listing(ss[1..], lines[1..])
  }

  // ---- Reading them back --------------------------------------------------------------------------------

  /** A statement that the given section can hold; labels must not be called DATA or CODE. */
  predicate Listable(s: Statement, section: Section) {
    match s
    case Enter(to) => !to.NoSection?
    case Declaration(_, _, _) => section.DataSection?
    case Label(name) => section.CodeSection? && name != "DATA" && name != "CODE"
    case Ins(i) => section.CodeSection? && Proper(i)
  }

  predicate AllListable(ss: seq<Statement>, section: Section)
    decreases |ss|
  {
    ss != [] ==> Listable(ss[0], section) && AllListable(ss[1..], SectionAfter(section, ss[0]))
  }

  lemma RegisterSpelled(r: RegIndex)
    ensures IsRegister(RegisterToken(r), r)
  {
    RegisterReadBack(r);
  }

  lemma PlaceSpelled(p: Place)
    ensures IsPlace(PlaceTokens(p), p)
  {
    if p.At? {
      NumberReadBack(p.value);
    }
  }

  lemma SourceSpelled(s: Source)
    ensures IsSource(SourceTokens(s), s)
  {
    match s {
      case FromRegister(r) => RegisterSpelled(r);
      case FromMemory(_) =>
      case Immediate(v) => NumberReadBack(v);
    }
  }

  lemma InstructionSpelled(i: Instruction)
    requires Proper(i)
    ensures IsInstruction(InstructionTokens(i), i)
  {
    hide NumberValue, IsRegister, IsPlace, IsSource, PlaceTokens, SourceTokens, NAMES, Code;
    match i {
      case PushRegister(r) => RegisterSpelled(r);
      case Pop(r) => RegisterSpelled(r);
      case PushNumber(v) => NumberReadBack(v);
      case Call(service, p) => PlaceSpelled(p);
      case Branch(op, _) => CodeClasses(op);
      case Unary(op, r) => RegisterSpelled(r); CodeClasses(op);
      case Transfer(op, r, p) => RegisterSpelled(r); PlaceSpelled(p); CodeClasses(op);
      case Binary(op, r, s) => RegisterSpelled(r); SourceSpelled(s); CodeClasses(op);
      case _ =>
    }
  }

  lemma StatementSpelled(s: Statement, section: Section)
    requires Listable(s, section)
    ensures IsStatement(StatementTokens(s), section, s)
  {
    hide Proper, IsInstruction, InstructionTokens, NumberValue;
    match s {
      case Declaration(_, _, v) => NumberReadBack(v);
      case Ins(i) => InstructionSpelled(i);
      case _ =>
    }
  }

  lemma {:induction false} NewlinesAre(n: nat)
    ensures |Newlines(n)| == n && LineEnds(Newlines(n))
  {
    if n == 0 {
    } else {
      NewlinesAre(n - 1);
    }
  }

  lemma {:induction false} ListingSpelled(ss: seq<Statement>, lines: seq<nat>, section: Section)
    requires |lines| == |ss| + 1 && AllListable(ss, section)
    ensures IsProgram(Listing(ss, lines), section, ss)
    decreases |ss|
  {
    hide IsStatement, StatementTokens, Listable, LineEnds;
    NewlinesAre(lines[0]);
    if ss == [] {
      assert Listing(ss, lines) == Newlines(lines[0]);
    } else {
      StatementSpelled(ss[0], section);
      ListingSpelled(ss[1..], lines[1..], SectionAfter(section, ss[0]));
      var t, m := Listing(ss, lines), lines[0];
      var n := m + |StatementTokens(ss[0])|;
      assert t[..m] == Newlines(m) && t[m..n] == StatementTokens(ss[0]) && t[n..] == Listing(ss[1..], lines[1..]);
    }
  }

  /** The grammar reads a listing as the statements it lists. */
  lemma ListingReadBack(ss: seq<Statement>, lines: seq<nat>, section: Section)
    requires |lines| == |ss| + 1 && AllListable(ss, section)
    ensures Statements(Listing(ss, lines), section) == Some(ss)
  {
    ListingSpelled(ss, lines, section);
    ProgramExactly(Listing(ss, lines), section, ss);
  }

  // ---- Tokens as text -----------------------------------------------------------------------------------

  /** A token with the blanks and the comment before it. */
  datatype Piece = Piece(gap: string, lexeme: Lexeme)

  function Spelling(x: Lexeme): string {
    match x
    case Newline => "\n"
    case LBracket => "["
    case RBracket => "]"
    case Comma => ","
    case Colon => ":"
    case Identifier(text) => text
    case Number(text) => text
    case Register(text) => text
    case End => ""
    case Bad => ""
  }

  predicate IsNumeral(text: string) {
    forall i :: 0 <= i < |text| ==> '0' <= text[i] <= '9'
  }

  predicate Opens(c: char) {
    'a' <= c <= 'z' || 'A' <= c <= 'Z' || c == '_'
  }

  predicate IsName(text: string) {
    text != [] && Opens(text[0]) && forall i :: 0 <= i < |text| ==> Opens(text[i]) || '0' <= text[i] <= '9'
  }

  /** r and at least one digit, as many as one likes. */
  predicate IsRegisterName(text: string) {
    |text| > 1 && text[0] == 'r' && IsNumeral(text[1..])
  }

  /** Tokens that the lexer can produce, with the text it gives them. A minus alone is a number to the lexer. */
  predicate Wellformed(x: Lexeme) {
    match x
    case End => false
    case Bad => false
    case Identifier(text) => IsName(text) && !IsRegisterName(text)
    case Register(text) => IsRegisterName(text)
    case Number(text) => text != [] && ('0' <= text[0] <= '9' || text[0] == '-') && IsNumeral(text[1..])
    case _ => true
  }

  /** The characters that would carry a word or a number on. */
  predicate Joins(x: Lexeme, c: char) {
    match x
    case Identifier(_) => Opens(c) || '0' <= c <= '9'
    case Register(_) => Opens(c) || '0' <= c <= '9'
    case Number(_) => '0' <= c <= '9'
    case _ => false
  }

  predicate Blanks(s: string) { forall i :: 0 <= i < |s| ==> s[i] in {' ', '\t', '\r'} }

  predicate Comment(s: string) {
    s != [] && s[0] == '#' && forall i :: 0 <= i < |s| ==> s[i] != '\n'
  }

  /** Blanks, and before the end of a line or of the source also a comment. */
  ghost predicate IsGap(s: string, lineEnd: bool) {
    Blanks(s) || (lineEnd && exists k :: 0 <= k < |s| && Blanks(s[..k]) && Comment(s[k..]))
  }

  function Text(ps: seq<Piece>, tail: string): string {
    if ps == [] then tail else ps[0].gap + Spelling(ps[0].lexeme) + Text(ps[1..], tail)
  }

  function Lexemes(ps: seq<Piece>): seq<Lexeme> {
    if ps == [] then [] else [ps[0].lexeme] + Lexemes(ps[1..])
  }

  /** Gaps may be empty except where the next token would carry on a word or number. */
  ghost predicate Spaced(ps: seq<Piece>, tail: string)
    decreases |ps|
  {
    if ps == [] then IsGap(tail, true)
    else
      && Wellformed(ps[0].lexeme) && IsGap(ps[0].gap, ps[0].lexeme.Newline?) && Spaced(ps[1..], tail)
      && (|ps| > 1 && Spelling(ps[1].lexeme) != [] && Joins(ps[0].lexeme, Spelling(ps[1].lexeme)[0]) ==>
            ps[1].gap != [])
  }

  // ---- Lexing it ----------------------------------------------------------------------------------------

  lemma {:induction false} WhileIs(src: string, pos: nat, end: nat, p: char -> bool)
    requires pos <= end <= |src| && (forall i :: pos <= i < end ==> p(src[i])) && (end < |src| ==> !p(src[end]))
    ensures While(src, pos, p) == end
    decreases end - pos
  {
    if pos == end {
    } else {
      WhileIs(src, pos + 1, end, p);
    }
  }

  lemma {:induction false} SkipBlanks(src: string, pos: nat, at: nat)
    requires pos <= at <= |src| && Blanks(src[pos..at])
    ensures Skip(src, pos) == Skip(src, at)
    decreases at - pos
  {
    if pos == at {
    } else {
      assert src[pos] == src[pos..at][0] && src[pos + 1..at] == src[pos..at][1..];
      SkipBlanks(src, pos + 1, at);
    }
  }

  lemma SkipComment(src: string, pos: nat, comment: string)
    requires pos + |comment| <= |src| && src[pos..pos + |comment|] == comment && Comment(comment)
    requires pos + |comment| == |src| || src[pos + |comment|] == '\n'
    ensures Skip(src, pos) == pos + |comment|
  {
    forall i | pos <= i < pos + |comment|
      ensures NotNewline(src[i])
    {
      assert comment[i - pos] == src[i];
    }
    assert comment[0] == src[pos];
    WhileIs(src, pos + 1, pos + |comment|, NotNewline);
  }

  lemma SkipCommentedGap(src: string, pos: nat, gap: string, k: nat)
    requires pos + |gap| <= |src| && src[pos..pos + |gap|] == gap
    requires k < |gap| && Blanks(gap[..k]) && Comment(gap[k..])
    requires pos + |gap| == |src| || src[pos + |gap|] == '\n'
    ensures Skip(src, pos) == pos + |gap|
  {
    hide Skip, Blanks, Comment;
    assert src[pos..pos + k] == gap[..k];
    assert src[pos + k..pos + |gap|] == gap[k..];
    SkipBlanks(src, pos, pos + k);
    SkipComment(src, pos + k, gap[k..]);
  }

  lemma SkipGap(src: string, pos: nat, gap: string, lineEnd: bool)
    requires pos + |gap| <= |src| && src[pos..pos + |gap|] == gap && IsGap(gap, lineEnd)
    requires lineEnd ==> pos + |gap| == |src| || src[pos + |gap|] == '\n'
    requires pos + |gap| < |src| ==> !Blank(src[pos + |gap|]) && src[pos + |gap|] != '#'
    ensures Skip(src, pos) == pos + |gap|
  {
    hide Blank, Blanks, Comment;
    if Blanks(gap) {
      SkipBlanks(src, pos, pos + |gap|);
    } else {
      var k :| 0 <= k < |gap| && Blanks(gap[..k]) && Comment(gap[k..]);
      SkipCommentedGap(src, pos, gap, k);
    }
  }

  predicate Wordy(x: Lexeme) { x.Identifier? || x.Register? || x.Number? }

  /** Text that does not carry on the token x. */
  predicate Breaks(x: Lexeme, rest: string) {
    rest != [] ==> !Joins(x, rest[0])
  }

  lemma RegisterNames(text: string)
    ensures RegisterName(text) <==> IsRegisterName(text)
  {
    if RegisterName(text) {
      assert forall i :: 1 <= i < |text| ==> text[1..][i - 1] == text[i];
    }
    if IsRegisterName(text) {
      assert forall i :: 1 <= i < |text| ==> text[i] == text[1..][i - 1];
    }
  }

  lemma LexWord(src: string, at: nat, x: Lexeme, end: nat)
    requires Wellformed(x) && Wordy(x) && at + |Spelling(x)| == end <= |src| && src[at..end] == Spelling(x)
    requires end < |src| ==> !Joins(x, src[end])
    requires Skip(src, at) == at
    ensures Lex(src, at).lexeme == x && Lex(src, at).after == end
  {
    hide Skip;
    assert forall i :: 0 <= i < |Spelling(x)| ==> Spelling(x)[i] == src[at + i];
    assert src[at] == Spelling(x)[0];
    if x.Number? {
      forall i | at + 1 <= i < end
        ensures Digit(src[i])
      {
        assert Spelling(x)[1..][i - at - 1] == src[i];
      }
      WhileIs(src, at + 1, end, Digit);
    } else {
      RegisterNames(x.text);
      forall i | at <= i < end
        ensures WordChar(src[i])
      {
        assert Spelling(x)[i - at] == src[i];
        assert i > at && x.Register? ==> src[i] == x.text[1..][i - at - 1];
      }
      WhileIs(src, at + 1, end, WordChar);
    }
  }

  lemma SpellingHead(x: Lexeme)
    requires Wellformed(x)
    ensures Spelling(x) != [] && !Blank(Spelling(x)[0]) && Spelling(x)[0] != '#'
    ensures !Wordy(x) ==> |Spelling(x)| == 1
    ensures Spelling(x)[0] == '\n' <==> x.Newline?
  {
  }

  lemma LexSymbol(src: string, at: nat, x: Lexeme)
    requires Wellformed(x) && !Wordy(x) && at < |src| && src[at] == Spelling(x)[0] && Skip(src, at) == at
    ensures Lex(src, at).lexeme == x && Lex(src, at).after == at + 1
  {
  }

  lemma Slices(src: string, pos: nat, a: string, b: string, c: string)
    requires pos <= |src| && src[pos..] == a + b + c
    ensures pos + |a| + |b| <= |src| && src[pos..pos + |a|] == a && src[pos + |a|..pos + |a| + |b|] == b
    ensures src[pos + |a| + |b|..] == c
    ensures b != [] ==> src[pos + |a|] == b[0]
  {
    var s := src[pos..];
    assert |s| == |a| + |b| + |c|;
    assert s[..|a|] == a && s[|a|..|a| + |b|] == b && s[|a| + |b|..] == c;
    assert src[pos..pos + |a|] == s[..|a|];
    assert src[pos + |a|..pos + |a| + |b|] == s[|a|..|a| + |b|];
    assert src[pos + |a| + |b|..] == s[|a| + |b|..];
    if b != [] {
      assert s[|a|] == b[0];
    }
  }

  lemma SameLex(src: string, pos: nat, at: nat)
    requires pos <= at <= |src| && Skip(src, pos) == at && Skip(src, at) == at
    ensures Lex(src, pos) == Lex(src, at)
  {
    hide Skip;
  }

  lemma LexPiece(src: string, pos: nat, p: Piece, rest: string)
    requires pos <= |src| && src[pos..] == p.gap + Spelling(p.lexeme) + rest
    requires Wellformed(p.lexeme) && IsGap(p.gap, p.lexeme.Newline?) && Breaks(p.lexeme, rest)
    ensures var x := Lex(src, pos);
            x.lexeme == p.lexeme && x.after == pos + |p.gap| + |Spelling(p.lexeme)| <= |src| && src[x.after..] == rest
  {
    var at, w := pos + |p.gap|, Spelling(p.lexeme);
    var end := at + |w|;
    SpellingHead(p.lexeme);
    Slices(src, pos, p.gap, w, rest);
    hide IsGap, Wellformed, Spelling, Joins, Wordy, Lex;
    assert src[at] == w[0];
    SkipGap(src, pos, p.gap, p.lexeme.Newline?);
    assert Skip(src, at) == at;
    SameLex(src, pos, at);
    if Wordy(p.lexeme) {
      assert end < |src| ==> src[end..][0] == src[end];
      LexWord(src, at, p.lexeme, end);
    } else {
      LexSymbol(src, at, p.lexeme);
    }
  }

  lemma GapBreaks(x: Lexeme, gap: string, lineEnd: bool)
    requires IsGap(gap, lineEnd)
    ensures Breaks(x, gap)
  {
    if gap != [] && !Blanks(gap) {
      var k :| 0 <= k < |gap| && Blanks(gap[..k]) && Comment(gap[k..]);
      if k > 0 {
        assert gap[..k][0] == gap[0];
      } else {
        assert gap[k..][0] == gap[0];
      }
    }
  }

  /** What follows a token in a spaced text does not carry it on. */
  lemma TextBreaks(ps: seq<Piece>, tail: string)
    requires ps != [] && Spaced(ps, tail)
    ensures Breaks(ps[0].lexeme, Text(ps[1..], tail))
  {
    hide Joins, IsGap, Wellformed, Spelling;
    if |ps| == 1 {
      GapBreaks(ps[0].lexeme, tail, true);
    } else {
      var p := ps[1];
      assert ps[1..][0] == p && Spaced(ps[1..], tail);
      SpellingHead(p.lexeme);
      if p.gap != [] {
        GapBreaks(ps[0].lexeme, p.gap, p.lexeme.Newline?);
        assert Text(ps[1..], tail)[0] == p.gap[0];
      } else {
        assert Text(ps[1..], tail)[0] == Spelling(p.lexeme)[0];
      }
    }
  }

  lemma EndReadBack(src: string, pos: nat, tail: string)
    requires pos <= |src| && src[pos..] == tail && IsGap(tail, true)
    ensures Stream(src, pos) == []
  {
    assert pos + |tail| == |src|;
    SkipGap(src, pos, tail, true);
  }

  lemma NotEnd(x: Lexeme)
    requires Wellformed(x)
    ensures !x.End? && !x.Bad?
  {
  }

  /** The lexer reads every spaced text as its tokens. */
  lemma {:induction false} TextReadBack(src: string, pos: nat, ps: seq<Piece>, tail: string)
    requires pos <= |src| && src[pos..] == Text(ps, tail) && Spaced(ps, tail)
    ensures Stream(src, pos) == Lexemes(ps)
    decreases |ps|
  {
    hide IsGap, Wellformed, Spelling, Breaks, Wordy, Lex;
    if ps == [] {
      EndReadBack(src, pos, tail);
    } else {
      TextBreaks(ps, tail);
      LexPiece(src, pos, ps[0], Text(ps[1..], tail));
      NotEnd(ps[0].lexeme);
      TextReadBack(src, Lex(src, pos).after, ps[1..], tail);
    }
  }

  // ---- Every text without a bad character is spaced ------------------------------------------------------

  lemma {:induction false} WhileAll(src: string, pos: nat, p: char -> bool)
    requires pos <= |src|
    ensures var end := While(src, pos, p);
            (forall i :: pos <= i < end ==> p(src[i])) && (end < |src| ==> !p(src[end]))
    decreases |src| - pos
  {
    if pos == |src| || !p(src[pos]) {
    } else {
      WhileAll(src, pos + 1, p);
    }
  }

  lemma BlankBefore(src: string, pos: nat, at: nat, lineEnd: bool)
    requires pos < at <= |src| && Blank(src[pos]) && IsGap(src[pos + 1..at], lineEnd)
    ensures IsGap(src[pos..at], lineEnd)
  {
    var rest, gap := src[pos + 1..at], src[pos..at];
    assert gap == [src[pos]] + rest;
    if !Blanks(rest) {
      var k :| 0 <= k < |rest| && Blanks(rest[..k]) && Comment(rest[k..]);
      assert gap[..k + 1] == [src[pos]] + rest[..k] && gap[k + 1..] == rest[k..];
    }
  }

  lemma CommentIsGap(src: string, pos: nat)
    requires pos < |src| && src[pos] == '#'
    ensures var at := While(src, pos + 1, NotNewline);
            Skip(src, at) == at && IsGap(src[pos..at], true) && (at < |src| ==> src[at] == '\n')
  {
    WhileAll(src, pos + 1, NotNewline);
    var at := While(src, pos + 1, NotNewline);
    var gap := src[pos..at];
    assert Blanks(gap[..0]) && Comment(gap[0..]);
  }

  lemma NoGap()
    ensures IsGap([], true) && IsGap([], false)
  {
    assert Blanks([]);
  }

  /** What the lexer skips is a gap. */
  lemma {:induction false} SkipIsGap(src: string, pos: nat)
    requires pos <= |src|
    ensures var at := Skip(src, pos);
            && IsGap(src[pos..at], at == |src| || src[at] == '\n')
            && (at < |src| ==> !Blank(src[at]) && src[at] != '#')
    decreases |src| - pos
  {
    hide IsGap;
    if pos < |src| && Blank(src[pos]) {
      SkipIsGap(src, pos + 1);
      var at := Skip(src, pos);
      BlankBefore(src, pos, at, at == |src| || src[at] == '\n');
    } else if pos < |src| && src[pos] == '#' {
      CommentIsGap(src, pos);
    } else {
      assert IsGap([], true) && IsGap([], false) by { NoGap(); }
      assert src[pos..pos] == [];
    }
  }

  /** What it reads as a word or number is one, as long as it can be. */
  lemma LexIsWord(src: string, at: nat)
    requires at < |src| && Skip(src, at) == at && Wordy(Lex(src, at).lexeme)
    ensures var x := Lex(src, at);
            && x.start == at && Wellformed(x.lexeme) && src[at..x.after] == Spelling(x.lexeme)
            && (x.after < |src| ==> !Joins(x.lexeme, src[x.after]))
  {
    hide Skip, RegisterName, IsRegisterName;
    WhileAll(src, at + 1, Digit);
    WhileAll(src, at + 1, WordChar);
    var x := Lex(src, at);
    var text := src[at..x.after];
    RegisterNames(text);
    assert text[0] == src[at];
    if x.lexeme.Number? {
      assert forall i :: 0 <= i < |text[1..]| ==> text[1..][i] == src[at + 1 + i];
    } else {
      assert forall i :: 0 < i < |text| ==> text[i] == src[at + i] && WordChar(src[at + i]);
    }
  }

  lemma LexNewline(src: string, at: nat)
    requires at < |src| && Skip(src, at) == at
    ensures Lex(src, at).start == at && (Lex(src, at).lexeme.Newline? <==> src[at] == '\n')
  {
    hide Skip;
  }

  /** The next token with its gap. */
  lemma LexIsPiece(src: string, pos: nat)
    requires pos <= |src| && !Lex(src, pos).lexeme.End? && !Lex(src, pos).lexeme.Bad?
    ensures var x := Lex(src, pos);
            && Wellformed(x.lexeme) && IsGap(src[pos..x.start], x.lexeme.Newline?)
            && src[x.start..x.after] == Spelling(x.lexeme)
            && (x.after < |src| ==> !Joins(x.lexeme, src[x.after]))
  {
    hide IsGap;
    SkipIsGap(src, pos);
    SkipKeepsLine(src, pos);
    var at := Skip(src, pos);
    SameLex(src, pos, at);
    if Wordy(Lex(src, at).lexeme) {
      hide Lex, Wellformed, Joins, Spelling, Skip;
      LexIsWord(src, at);
      LexNewline(src, at);
    }
  }

  /** How a text falls into pieces. */
  function Pieces(src: string, pos: nat): seq<Piece>
    requires pos <= |src|
    decreases |src| - pos
  {
    var x := Lex(src, pos);
    if x.lexeme.End? || x.lexeme.Bad? then [] else [Piece(src[pos..x.start], x.lexeme)] + Pieces(src, x.after)
  }

  function LastGap(src: string, pos: nat): string
    requires pos <= |src|
    decreases |src| - pos
  {
    var x := Lex(src, pos);
    if x.lexeme.End? || x.lexeme.Bad? then src[pos..] else LastGap(src, x.after)
  }

  lemma LastGapIsGap(src: string, pos: nat)
    requires pos <= |src| && Lex(src, pos).lexeme.End?
    ensures IsGap(src[pos..], true) && Stream(src, pos) == []
  {
    hide IsGap;
    SkipIsGap(src, pos);
    assert src[pos..|src|] == src[pos..];
  }

  lemma PieceText(src: string, pos: nat, x: Lexed)
    requires pos <= x.start <= x.after <= |src| && src[x.start..x.after] == Spelling(x.lexeme)
    ensures src[pos..] == src[pos..x.start] + Spelling(x.lexeme) + src[x.after..]
  {
  }

  lemma NextCharacter(src: string, at: nat, ps: seq<Piece>, tail: string)
    requires at <= |src| && src[at..] == Text(ps, tail) && ps != []
    requires Spelling(ps[0].lexeme) != [] && ps[0].gap == []
    ensures at < |src| && src[at] == Spelling(ps[0].lexeme)[0]
  {
    assert src[at..] == Spelling(ps[0].lexeme) + Text(ps[1..], tail);
    assert src[at..][0] == src[at];
  }

  lemma {:induction false} PiecesSpell(src: string, pos: nat)
    requires pos <= |src| && Bad !in Stream(src, pos)
    ensures Spaced(Pieces(src, pos), LastGap(src, pos)) && Lexemes(Pieces(src, pos)) == Stream(src, pos)
    ensures src[pos..] == Text(Pieces(src, pos), LastGap(src, pos))
    decreases |src| - pos
  {
    hide Lex, IsGap, Wellformed, Spelling, Joins;
    var x := Lex(src, pos);
    if x.lexeme.End? {
      LastGapIsGap(src, pos);
    } else {
      assert !x.lexeme.Bad? by { assert x.lexeme == Stream(src, pos)[0]; }
      assert Stream(src, pos) == [x.lexeme] + Stream(src, x.after);
      var ps, tail := Pieces(src, x.after), LastGap(src, x.after);
      PiecesSpell(src, x.after);
      LexIsPiece(src, pos);
      PieceText(src, pos, x);
      if ps != [] && Spelling(ps[0].lexeme) != [] && ps[0].gap == [] {
        NextCharacter(src, x.after, ps, tail);
      }
      assert ([Piece(src[pos..x.start], x.lexeme)] + ps)[1..] == ps;
    }
  }

  lemma {:induction false} SpacedHasNoBad(ps: seq<Piece>, tail: string)
    requires Spaced(ps, tail)
    ensures Bad !in Lexemes(ps)
  {
    hide Joins, IsGap, Spelling;
    if ps == [] {
    } else {
      SpacedHasNoBad(ps[1..], tail);
    }
  }

  ghost predicate IsText(src: string, toks: seq<Lexeme>) {
    exists ps, tail :: src == Text(ps, tail) && Spaced(ps, tail) && Lexemes(ps) == toks
  }

  /** The lexer reads a text as given tokens, and all of it, exactly when the text spells them. */
  lemma TextExactly(src: string, toks: seq<Lexeme>)
    ensures Stream(src, 0) == toks && Bad !in toks <==> IsText(src, toks)
  {
    hide Stream, Spaced, Text, Lexemes;
    assert src[0..] == src;
    if Stream(src, 0) == toks && Bad !in toks {
      PiecesSpell(src, 0);
    }
    if IsText(src, toks) {
      var ps, tail :| src == Text(ps, tail) && Spaced(ps, tail) && Lexemes(ps) == toks;
      TextReadBack(src, 0, ps, tail);
      SpacedHasNoBad(ps, tail);
    }
  }

  // ---- From statements to text and back -----------------------------------------------------------------

  /** src spells, with whatever layout, the statements ss. */
  ghost predicate IsSourceOf(src: string, ss: seq<Statement>) {
    exists toks :: IsText(src, toks) && IsProgram(toks, NoSection, ss)
  }

  /** The assembler reads the statements ss from exactly the texts that spell them. */
  lemma SourceExactly(src: string, ss: seq<Statement>)
    ensures Statements(Stream(src, 0), NoSection) == Some(ss) <==> IsSourceOf(src, ss)
  {
    hide Statements, Stream, IsText, IsProgram;
    var toks := Stream(src, 0);
    ProgramExactly(toks, NoSection, ss);
    TextExactly(src, toks);
    if Statements(toks, NoSection) == Some(ss) {
      ProgramHasNoBad(toks, NoSection, ss);
    }
    if IsSourceOf(src, ss) {
      var t :| IsText(src, t) && IsProgram(t, NoSection, ss);
      TextExactly(src, t);
    }
  }

  /** A text has at most one meaning, and only texts with one assemble. */
  lemma AssembledExactly(src: string)
    ensures AssembleSource(src).Some? <==> exists ss :: IsSourceOf(src, ss) && WellFormed(ss)
    ensures forall ss :: IsSourceOf(src, ss) ==> AssembleSource(src) == Assemble(ss)
  {
    hide Statements, Assemble, Stream, IsSourceOf, WellFormed;
    forall ss
      ensures Statements(Stream(src, 0), NoSection) == Some(ss) <==> IsSourceOf(src, ss)
      ensures Assemble(ss).Some? <==> WellFormed(ss)
    {
      SourceExactly(src, ss);
      AssembleExactly(ss);
    }
  }

  /** However a listing is laid out - indentation, blank lines, comments, line ends or none - the assembler makes of
      the text what it makes of the statements. */
  lemma AssemblesAsWritten(ss: seq<Statement>, lines: seq<nat>, ps: seq<Piece>, tail: string)
    requires |lines| == |ss| + 1 && AllListable(ss, NoSection)
    requires Lexemes(ps) == Listing(ss, lines) && Spaced(ps, tail)
    ensures AssembleSource(Text(ps, tail)) == Assemble(ss)
  {
    hide Statements, Assemble, Stream, Spaced, Listing;
    var src := Text(ps, tail);
    assert src[0..] == src;
    TextReadBack(src, 0, ps, tail);
    ListingReadBack(ss, lines, NoSection);
  }

  /** One such layout: every token after a single blank. */
  function Plain(toks: seq<Lexeme>): seq<Piece> {
    if toks == [] then [] else [Piece(" ", toks[0])] + Plain(toks[1..])
  }

  lemma {:induction false} PlainSpaced(toks: seq<Lexeme>)
    requires forall i :: 0 <= i < |toks| ==> Wellformed(toks[i])
    ensures Spaced(Plain(toks), "") && Lexemes(Plain(toks)) == toks
  {
    hide Wellformed;
    if toks == [] {
    } else {
      PlainSpaced(toks[1..]);
      var ps := Plain(toks);
      assert ps[1..] == Plain(toks[1..]) && ps[0].gap == " ";
      assert |ps| > 1 ==> ps[1].gap == " ";
      assert IsGap(" ", ps[0].lexeme.Newline?);
    }
  }

  predicate Nameable(name: string) { IsName(name) && !IsRegisterName(name) }

  predicate Named(s: Statement) {
    match s
    case Enter(_) => true
    case Declaration(_, name, _) => Nameable(name)
    case Label(name) => Nameable(name)
    case Ins(i) =>
      match i
      case PushLabel(name) => Nameable(name)
      case Branch(_, name) => Nameable(name)
      case Call(service, p) => Nameable(service) && (p.Cell? ==> Nameable(p.name))
      case Transfer(_, _, p) => p.Cell? ==> Nameable(p.name)
      case Binary(_, _, s) => s.FromMemory? ==> Nameable(s.name)
      case _ => true
  }

  lemma NameWellformed(name: string)
    requires Nameable(name)
    ensures Wellformed(Identifier(name))
  {
  }

  lemma KeywordsNameable()
    ensures Nameable("DATA") && Nameable("CODE") && Nameable("halt") && Nameable("ret") && Nameable("push")
    ensures Nameable("pop") && Nameable("call")
    ensures Nameable("BYTE") && Nameable("DBYTE") && Nameable("WORD") && Nameable("QWORD")
  {
    assert "ret"[1] == 'e';
  }

  lemma EarlyNameable(k: nat)
    requires k < 13
    ensures Nameable(NAMES[k])
  {
  }

  lemma LateNameable(k: nat)
    requires 13 <= k < 28
    ensures Nameable(NAMES[k])
  {
    assert "ret"[1..][0] == 'e';
  }

  lemma OpcodeNameable(op: Opcode)
    requires !op.UNKNOWN?
    ensures Nameable(OpcodeName(op))
  {
    hide Nameable;
    if Code(op) < 13 {
      EarlyNameable(Code(op));
    } else {
      LateNameable(Code(op));
    }
  }

  lemma NumberWellformed(v: Int16)
    ensures Wellformed(NumberToken(v))
  {
  }

  lemma RegisterWellformed(r: RegIndex)
    ensures Wellformed(RegisterToken(r))
  {
    var text := "r" + Digits(r);
    assert forall i :: 1 <= i < |text| ==> text[i] == Digits(r)[i - 1];
  }

  ghost predicate AllWellformed(toks: seq<Lexeme>) {
    forall i :: 0 <= i < |toks| ==> Wellformed(toks[i])
  }

  lemma MarksWellformed()
    ensures Wellformed(Colon) && Wellformed(Comma) && Wellformed(LBracket) && Wellformed(RBracket)
                && Wellformed(Newline)
  {
  }

  /** The tokens that statements are made of. */
  lemma TokensWellformed()
    ensures forall name :: Nameable(name) ==> Wellformed(Identifier(name))
    ensures forall v: Int16 :: Wellformed(NumberToken(v))
    ensures forall r: RegIndex :: Wellformed(RegisterToken(r))
    ensures forall op: Opcode :: IsBranch(op) || IsUnary(op) || IsTransfer(op) || IsBinary(op) ==>
                  Nameable(OpcodeName(op))
  {
    hide Wellformed, Nameable, RegisterToken, NumberToken, OpcodeName;
    forall name | Nameable(name)
      ensures Wellformed(Identifier(name))
    {
      NameWellformed(name);
    }
    forall v: Int16
      ensures Wellformed(NumberToken(v))
    {
      NumberWellformed(v);
    }
    forall r: RegIndex
      ensures Wellformed(RegisterToken(r))
    {
      RegisterWellformed(r);
    }
    forall op: Opcode | IsBranch(op) || IsUnary(op) || IsTransfer(op) || IsBinary(op)
      ensures Nameable(OpcodeName(op))
    {
      OpcodeNameable(op);
    }
  }

  lemma InstructionWellformed(i: Instruction)
    requires Named(Ins(i)) && Proper(i)
    ensures AllWellformed(InstructionTokens(i))
  {
    hide Wellformed, Nameable, RegisterToken, NumberToken, OpcodeName;
    KeywordsNameable();
    TokensWellformed();
    MarksWellformed();
  }

  lemma StatementWellformed(s: Statement)
    requires Named(s) && (s.Ins? ==> Proper(s.i))
    ensures AllWellformed(StatementTokens(s))
  {
    hide Wellformed, Nameable, NumberToken, InstructionTokens;
    KeywordsNameable();
    TokensWellformed();
    MarksWellformed();
    if s.Ins? {
      InstructionWellformed(s.i);
    }
  }

  lemma {:induction false} LinesWellformed(n: nat)
    ensures AllWellformed(Newlines(n))
  {
    if n == 0 {
    } else {
      LinesWellformed(n - 1);
    }
  }

  lemma {:induction false} ListingWellformed(ss: seq<Statement>, lines: seq<nat>)
    requires |lines| == |ss| + 1 && forall i :: 0 <= i < |ss| ==> Named(ss[i]) && (ss[i].Ins? ==> Proper(ss[i].i))
    ensures AllWellformed(Listing(ss, lines))
    decreases |ss|
  {
    hide Wellformed, Named, Proper, StatementTokens;
    LinesWellformed(lines[0]);
    if ss == [] {
    } else {
      StatementWellformed(ss[0]);
      ListingWellformed(ss[1..], lines[1..]);
    }
  }

  /** Every list of statements with proper names has a text, and assembling the text assembles the statements. */
  lemma EveryProgramHasText(ss: seq<Statement>, lines: seq<nat>)
    requires |lines| == |ss| + 1 && AllListable(ss, NoSection)
    requires forall i :: 0 <= i < |ss| ==> Named(ss[i]) && (ss[i].Ins? ==> Proper(ss[i].i))
    ensures AssembleSource(Text(Plain(Listing(ss, lines)), "")) == Assemble(ss)
  {
    hide Assemble, AssembleSource, Text, AllListable, Named, Proper, Wellformed;
    ListingWellformed(ss, lines);
    PlainSpaced(Listing(ss, lines));
    AssemblesAsWritten(ss, lines, Plain(Listing(ss, lines)), "");
  }
}
