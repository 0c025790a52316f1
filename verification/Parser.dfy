/** Parser (src/vm/assembler/parser.cpp): two passes of recursive descent over the lexer, proved to compute
    AssembleSource. An exception is a result `false` or None; its line and message are not modelled. */
module Parsing {
  import opened Words
  import opened Memory
  import opened Encoding
  import opened Lexing
  import opened Syntax
  import opened Assembly
  import Loader

  /** skipNewlines throws when the first thing after the newlines is no token. */
  predicate Blocked(toks: seq<Lexeme>) {
    First(SkipNewlines(toks)).Bad?
  }

  lemma BlockedFails(toks: seq<Lexeme>, section: Section)
    requires Blocked(toks)
    ensures Statements(toks, section).None?
  {
  }

  lemma {:induction false} SkipTwice(toks: seq<Lexeme>)
    ensures SkipNewlines(SkipNewlines(toks)) == SkipNewlines(toks)
    decreases |toks|
  {
    if !First(toks).Newline? {
    } else {
      SkipTwice(toks[1..]);
    }
  }

  lemma StatementsSkipped(toks: seq<Lexeme>, section: Section)
    ensures Statements(SkipNewlines(toks), section) == Statements(toks, section)
  {
    SkipTwice(toks);
  }

  function Prepend(done: seq<Statement>, rest: Option<seq<Statement>>): Option<seq<Statement>> {
    match rest case None => None case Some(ss) => Some(done + ss)
  }

  /** The statements `done` have been visited and what follows is to be read in `section`. */
  ghost predicate Halfway(toks: seq<Lexeme>, e: Env, emit: bool, done: seq<Statement>, env: Env, words: seq<Word>,
                          rest: seq<Lexeme>, section: Section) {
    && Pass(done, e, emit) == Some(Passed(env, words))
    && Statements(toks, NoSection) == Prepend(done, Statements(rest, section))
  }

  lemma HalfwayStart(toks: seq<Lexeme>, e: Env, emit: bool)
    ensures Halfway(toks, e, emit, [], e, [], SkipNewlines(toks), NoSection)
  {
    StatementsSkipped(toks, NoSection);
    var ss := Statements(toks, NoSection);
    if ss.Some? {
      assert [] + ss.value == ss.value;
    }
  }

  lemma HalfwayEnd(toks: seq<Lexeme>, e: Env, emit: bool, done: seq<Statement>, env: Env, words: seq<Word>,
                   section: Section)
    requires Halfway(toks, e, emit, done, env, words, [], section)
    ensures Statements(toks, NoSection) == Some(done) && Pass(done, e, emit) == Some(Passed(env, words))
  {
    assert done + [] == done;
  }

  /** How parsing one statement ends: success exactly when it is in the grammar, its pass accepts it and a token or the
      end follows; then the parser's tables are those of the pass. */
  ghost predicate Handled(p: Parsed<Statement>, e: Env, after: Env, emit: bool, code: seq<Word>, ok: bool,
                          out: seq<Word>,
                          rest: seq<Lexeme>) {
    && (ok <==> p.Got? && Visit(p.value, e, emit).Some? && !Blocked(p.rest))
    && (ok ==> var v := Visit(p.value, e, emit).value;
            rest == SkipNewlines(p.rest) && after == v.env && out == code + v.code)
  }

  lemma FailedHandled(p: Parsed<Statement>, e: Env, after: Env, emit: bool, code: seq<Word>, out: seq<Word>,
                      rest: seq<Lexeme>)
    requires p.Failed?
    ensures Handled(p, e, after, emit, code, false, out, rest)
  {
  }

  lemma PassAppend(done: seq<Statement>, s: Statement, e: Env, emit: bool)
    requires Pass(done, e, emit).Some? && Visit(s, Pass(done, e, emit).value.env, emit).Some?
    ensures var p := Pass(done, e, emit).value; var v := Visit(s, p.env, emit).value;
            Pass(done + [s], e, emit) == Some(Passed(v.env, p.code + v.code))
  {
    assert (done + [s])[..|done|] == done;
    hide Visit;
  }

  lemma StatementsAppend(done: seq<Statement>, rest: seq<Lexeme>, section: Section)
    requires SkipNewlines(rest) == rest != [] && StatementAt(rest, section).Got?
    ensures var p := StatementAt(rest, section);
            Prepend(done, Statements(rest, section))
              == Prepend(done + [p.value], Statements(p.rest, SectionAfter(section, p.value)))
  {
    hide StatementAt;
    var p := StatementAt(rest, section);
    var tail := Statements(p.rest, SectionAfter(section, p.value));
    if tail.Some? {
      assert done + ([p.value] + tail.value) == done + [p.value] + tail.value;
    }
  }

  lemma Associative(a: seq<Word>, b: seq<Word>, c: seq<Word>)
    ensures (a + b) + c == a + (b + c)
  {
  }

  /** One round of the loop: another statement is done, */
  lemma StatementPasses(toks: seq<Lexeme>, e: Env, emit: bool, done: seq<Statement>, env: Env, words: seq<Word>,
                        rest: seq<Lexeme>, section: Section, after: Env, code: seq<Word>, out: seq<Word>,
                        rest2: seq<Lexeme>)
    requires Halfway(toks, e, emit, done, env, words, rest, section) && SkipNewlines(rest) == rest != []
    requires Handled(StatementAt(rest, section), env, after, emit, code + words, true, out, rest2)
    ensures StatementAt(rest, section).Got? && Visit(StatementAt(rest, section).value, env, emit).Some?
    ensures var s := StatementAt(rest, section).value;
            var more := words + Visit(s, env, emit).value.code;
            && Halfway(toks, e, emit, done + [s], after, more, rest2, SectionAfter(section, s))
            && out == code + more && SkipNewlines(rest2) == rest2 && !Blocked(rest2) && |rest2| < |rest|
  {
    hide StatementAt, Visit, Pass, Statements, Prepend, SkipNewlines;
    var p := StatementAt(rest, section);
    PassAppend(done, p.value, e, emit);
    StatementsAppend(done, rest, section);
    StatementsSkipped(p.rest, SectionAfter(section, p.value));
    SkipTwice(p.rest);
    Associative(code, words, Visit(p.value, env, emit).value.code);
  }

  /** or the whole pass fails. */
  lemma StatementFails(toks: seq<Lexeme>, e: Env, emit: bool, done: seq<Statement>, env: Env, words: seq<Word>,
                       rest: seq<Lexeme>, section: Section, after: Env, code: seq<Word>, out: seq<Word>,
                       rest2: seq<Lexeme>)
    requires Halfway(toks, e, emit, done, env, words, rest, section) && SkipNewlines(rest) == rest != []
    requires Handled(StatementAt(rest, section), env, after, emit, code, false, out, rest2)
    ensures Statements(toks, NoSection).None? || Pass(Statements(toks, NoSection).value, e, emit).None?
  {
    hide StatementAt, Visit;
    var p := StatementAt(rest, section);
    if p.Got? && Blocked(p.rest) {
      BlockedFails(p.rest, SectionAfter(section, p.value));
    } else if p.Got? && Statements(toks, NoSection).Some? {
      var ss := Statements(toks, NoSection).value;
      assert ss[..|done| + 1] == done + [p.value];
      assert (done + [p.value])[..|done|] == done;
      PassPrefix(ss, |done| + 1, e, emit);
    }
  }

  /** How parsing one instruction or part of it ends: success exactly when it is in the grammar and resolvable, with
      the code of the second pass. */
  ghost predicate Compiled(p: Parsed<Instruction>, e: Env, emit: bool, ok: bool, out: seq<Word>, rest: seq<Lexeme>) {
    && (ok <==> p.Got? && CellKnown(p.value, e.symbols) && (emit ==> Lower(p.value, e.labels, e.symbols).Some?))
    && (ok ==> rest == p.rest && out == if emit then [Lower(p.value, e.labels, e.symbols).value.Raw()] else [])
  }

  lemma StatementOf(toks: seq<Lexeme>, section: Section)
    requires toks != []
    ensures StatementAt(toks, section)
         == if toks[0] == Identifier("DATA") then EnterAt(DataSection, toks[1..])
            else if toks[0] == Identifier("CODE") then EnterAt(CodeSection, toks[1..])
            else match section case NoSection => Failed case DataSection => DeclarationAt(toks)
                 case CodeSection => CodeAt(toks)
    ensures (toks[0] == Identifier("DATA") || toks[0] == Identifier("CODE")) && StatementAt(toks, section).Got? ==>
              StatementAt(toks, section).value
                == Enter(if toks[0] == Identifier("DATA") then DataSection else CodeSection)
    ensures First(toks).Bad? ==> StatementAt(toks, section).Failed?
    ensures toks[0] != Identifier("DATA") && toks[0] != Identifier("CODE") && StatementAt(toks, section).Got? ==>
              !StatementAt(toks, section).value.Enter?
  {
  }

  /** One loop for the four sizes; the source unrolls the two shorter ones. */
  method WriteSymbol(data: Mem, symbol: Symbol) returns (r: Mem)
    requires symbol.offset + Size(symbol.dataType) <= |data|
    ensures r == Splice(data, symbol.offset, SymbolBytes(symbol.dataType, symbol.value))
  {
    var n := Size(symbol.dataType);
    var value: nat := symbol.value % Pow2(8 * n);
    var i := 0;
    r := data;
    while i < n
      invariant i <= n && r == Splice(data, symbol.offset, Bytes(value, n)[..i])
    {
      ByteAt(value, n, i);
      r := r[symbol.offset + i := BitAnd(ShiftRight(value, 8 * i), 0xFF)];
      i := i + 1;
    }
    assert Bytes(value, n)[..n] == Bytes(value, n);
  }

  lemma {:induction false} ImagePrefix(symbols: seq<Symbol>, i: nat)
    requires i <= |symbols|
    ensures |Image(symbols[..i])| <= |Image(symbols)|
    decreases |symbols|
  {
    if i == |symbols| {
      assert symbols[..i] == symbols;
    } else {
      assert symbols[..|symbols| - 1][..i] == symbols[..i];
      ImagePrefix(symbols[..|symbols| - 1], i);
    }
  }

  lemma PrefixExtended(data: Mem, a: Mem, x: Mem)
    requires |a| + |x| <= |data| && data[..|a|] == a
    ensures Splice(data, |a|, x)[..|a| + |x|] == a + x
  {
  }

  method WriteImage(symbols: seq<Symbol>, size: nat) returns (data: Mem)
    requires Tiled(symbols) && size == |Image(symbols)|
    ensures data == Image(symbols)
  {
    data := seq(size, _ => 0);
    var i := 0;
    ghost var done: Mem := [];
    assert symbols[..0] == [] && Image([]) == [];
    hide Image, SymbolBytes, Splice;
    while i < |symbols|
      invariant i <= |symbols| && |data| == size && done == Image(symbols[..i])
      invariant |done| <= size && data[..|done|] == done
    {
      ImageAppend(symbols[..i], symbols[i]);
      assert symbols[..i] + [symbols[i]] == symbols[..i + 1];
      ImagePrefix(symbols, i + 1);
      ghost var x := SymbolBytes(symbols[i].dataType, symbols[i].value);
      PrefixExtended(data, done, x);
      data := WriteSymbol(data, symbols[i]);
      done := done + x;
      i := i + 1;
    }
    assert symbols[..i] == symbols;
  }

  /** What the second pass relies on: the offsets are where the symbols' bytes go. */
  lemma FirstPassTables(ss: seq<Statement>)
    requires Offset(ss, |ss|) < WORD_LIMIT && Pass(ss, EMPTY, false).Some?
    ensures var e := Pass(ss, EMPTY, false).value.env; Tiled(e.symbols) && e.offset == |Image(e.symbols)|
  {
    hide Pass, Image, Tiled, SymbolsBefore, LabelsBefore, Count, Data, Offset;
    assert ss[..|ss|] == ss;
    Assembly.FirstPass(ss, |ss|);
    SymbolsTiled(ss, |ss|);
    ImageIsData(ss, |ss|);
  }

  class Parser {
    var section: Section
    var codeAddress: Word
    var dataOffset: Word
    var labels: map<string, Word>
    var dataSymbols: seq<Symbol>

    constructor ()
    {
      section, codeAddress, dataOffset, labels, dataSymbols := NoSection, 0, 0, map[], [];
    }

    function Value(): Env
      reads this
    {
      Env(labels, dataSymbols, codeAddress, dataOffset)
    }

    // ---- Tokens -----------------------------------------------------------------------------------------

    method Consume(lexer: Lexer, tokenType: TokenType) returns (x: Option<Lexeme>)
      requires lexer.Valid() && !tokenType.NoType?
      modifies lexer
      ensures lexer.Valid()
      ensures x == if TypeOf(First(old(lexer.Rest()))) == tokenType then Some(First(old(lexer.Rest()))) else None
      ensures x.Some? ==> lexer.Rest() == Tail(old(lexer.Rest()))
    {
      hide Lexer.Valid, Lexer.Rest;
      var token := lexer.Next();
      if token.None? || TypeOf(token.value.lexeme) != tokenType {
        return None;
      }
      x := Some(token.value.lexeme);
    }

    /** None is an exception of the lexer. */
    method Match(lexer: Lexer, tokenType: TokenType) returns (matched: Option<bool>)
      requires lexer.Valid() && !tokenType.NoType?
      modifies lexer
      ensures lexer.Valid()
      ensures var x := First(old(lexer.Rest()));
              && (matched.None? <==> x.Bad?)
              && (matched.Some? ==>
                    && matched.value == (TypeOf(x) == tokenType)
                    && lexer.Rest() == if matched.value then Tail(old(lexer.Rest())) else old(lexer.Rest()))
    {
      hide Lexer.Valid, Lexer.Rest;
      var token := lexer.Peek();
      if token.None? {
        return None;
      }
      if TypeOf(token.value.lexeme) == tokenType {
        var _ := lexer.Next();
        return Some(true);
      }
      matched := Some(false);
    }

    method SkipLines(lexer: Lexer) returns (ok: bool)
      requires lexer.Valid()
      modifies lexer
      ensures lexer.Valid() && (ok <==> !Blocked(old(lexer.Rest())))
      ensures ok ==> lexer.Rest() == SkipNewlines(old(lexer.Rest()))
    {
      hide Lexer.Valid, Lexer.Rest;
      while true
        invariant lexer.Valid() && SkipNewlines(lexer.Rest()) == SkipNewlines(old(lexer.Rest()))
        decreases |lexer.Rest()|
      {
        var matched := Match(lexer, NewlineType);
        if matched.None? {
          return false;
        }
        if !matched.value {
          return true;
        }
      }
    }

    method ParseRegister(lexer: Lexer) returns (r: Option<RegIndex>)
      requires lexer.Valid()
      modifies lexer
      ensures lexer.Valid()
      ensures var p := TakeRegister(old(lexer.Rest()));
              && (r.Some? <==> p.Got?) && (r.Some? ==> r.value == p.value && lexer.Rest() == p.rest)
    {
      hide Lexer.Valid, Lexer.Rest;
      var token := Consume(lexer, RegisterType);
      if token.None? {
        return None;
      }
      r := RegisterIndex(token.value.text);
    }

    method ParseNumber(lexer: Lexer) returns (v: Option<Int16>)
      requires lexer.Valid()
      modifies lexer
      ensures lexer.Valid()
      ensures var p := TakeNumber(old(lexer.Rest()));
              && (v.Some? <==> p.Got?) && (v.Some? ==> v.value == p.value && lexer.Rest() == p.rest)
    {
      hide Lexer.Valid, Lexer.Rest;
      var token := Consume(lexer, NumberType);
      if token.None? {
        return None;
      }
      v := NumberValue(token.value.text);
    }

    /** After the bracket: the symbol's offset, looked up before the closing bracket is read. */
    method ParseCell(lexer: Lexer) returns (offset: Option<Word>, ghost name: string)
      requires lexer.Valid()
      modifies lexer
      ensures lexer.Valid()
      ensures var p := CellAt([LBracket] + old(lexer.Rest()));
              && (offset.Some? <==> p.Got? && Find(dataSymbols, p.value).Some?)
              && (offset.Some? ==> name == p.value && offset == Find(dataSymbols, p.value) && lexer.Rest() == p.rest)
    {
      hide Find, Lexer.Valid, Lexer.Rest;
      name := "";
      assert ([LBracket] + lexer.Rest())[1..] == lexer.Rest();
      var symbol := Consume(lexer, IdentifierType);
      if symbol.None? {
        return None, name;
      }
      name := symbol.value.text;
      offset := ResolveDataSymbol(symbol.value.text);
      if offset.None? {
        return;
      }
      var close := Consume(lexer, RBracketType);
      if close.None? {
        return None, name;
      }
    }

    method ResolveDataSymbol(name: string) returns (offset: Option<Word>)
      ensures offset == Find(dataSymbols, name)
    {
      var i := 0;
      while i < |dataSymbols|
        invariant i <= |dataSymbols| && Find(dataSymbols[i..], name) == Find(dataSymbols, name)
      {
        if dataSymbols[i].name == name {
          return Some(dataSymbols[i].offset);
        }
        assert dataSymbols[i..][1..] == dataSymbols[i + 1..];
        i := i + 1;
      }
      offset := None;
    }

    method ParsePlace(lexer: Lexer) returns (address: Option<Word>)
      requires lexer.Valid()
      modifies lexer
      ensures lexer.Valid()
      ensures var p := PlaceAt(old(lexer.Rest()));
              && (address.Some? <==> p.Got? && PlaceAddress(p.value, dataSymbols).Some?)
              && (address.Some? ==> address == PlaceAddress(p.value, dataSymbols) && lexer.Rest() == p.rest)
    {
      hide Lexer.Valid, Lexer.Rest;
      ghost var toks := lexer.Rest();
      var bracket := Match(lexer, LBracketType);
      if bracket.None? {
        return None;
      }
      if bracket.value {
        assert [LBracket] + toks[1..] == toks;
        var offset, _ := ParseCell(lexer);
        return offset;
      }
      var v := ParseNumber(lexer);
      address := if v.None? then None else Some(Wrap(v.value));
    }

    // ---- Instructions -----------------------------------------------------------------------------------

    method ParsePush(lexer: Lexer, emit: bool) returns (ok: bool, out: seq<Word>)
      requires lexer.Valid()
      modifies lexer
      ensures lexer.Valid()
      ensures Compiled(PushAt(old(lexer.Rest())), Value(), emit, ok, out, lexer.Rest())
    {
      hide Encode, ToInt16, Numeral, Mnemonic, DataTypeOf, ServiceOf, Find, Lexer.Valid, Lexer.Rest;
      ok, out := false, [];
      var head := lexer.Peek();
      if head.None? {
        return;
      }
      if head.value.lexeme.Register? {
        var rd := ParseRegister(lexer);
        ok := rd.Some?;
        if ok && emit {
          out := [Encode(PUSH, rd.value, rd.value, rd.value, 0)];
        }
      } else if head.value.lexeme.Identifier? {
        var target := Consume(lexer, IdentifierType);
        ok := !emit || target.value.text in labels;
        if ok && emit {
          out := [Encode(PUSH, 0, 0, IMMEDIATE_MARKER, ToInt16(labels[target.value.text]))];
        }
      } else {
        var imm := ParseNumber(lexer);
        ok := imm.Some?;
        if ok && emit {
          out := [Encode(PUSH, 0, 0, IMMEDIATE_MARKER, imm.value)];
        }
      }
    }

    method ParseCall(lexer: Lexer, emit: bool) returns (ok: bool, out: seq<Word>)
      requires lexer.Valid()
      modifies lexer
      ensures lexer.Valid()
      ensures Compiled(CallAt(old(lexer.Rest())), Value(), emit, ok, out, lexer.Rest())
    {
      hide Encode, ToInt16, Numeral, Mnemonic, DataTypeOf, ServiceOf, Find, Lexer.Valid, Lexer.Rest;
      ok, out := false, [];
      var service := Consume(lexer, IdentifierType);
      if service.None? {
        return;
      }
      var comma := Consume(lexer, CommaType);
      if comma.None? {
        return;
      }
      var arg := ParsePlace(lexer);
      if arg.None? {
        return;
      }
      if emit {
        var id := ServiceOf(service.value.text);
        if id.None? {
          return;
        }
        out := [Encode(CALL, 0, id.value, 0, ToInt16(arg.value))];
      }
      ok := true;
    }

    method ParseBranch(lexer: Lexer, emit: bool, op: Opcode) returns (ok: bool, out: seq<Word>)
      requires lexer.Valid() && IsBranch(op)
      modifies lexer
      ensures lexer.Valid()
      ensures Compiled(OperandsAt(op, old(lexer.Rest())), Value(), emit, ok, out, lexer.Rest())
    {
      hide Encode, ToInt16, TransferAt, BinaryAt, RegisterIndex, Find, Lexer.Valid, Lexer.Rest;
      ok, out := false, [];
      var target := Consume(lexer, IdentifierType);
      if target.None? || (emit && target.value.text !in labels) {
        return;
      }
      ok := true;
      if emit {
        out := [Encode(op, 0, 0, 0, ToInt16(labels[target.value.text]))];
      }
    }

    method ParseTransfer(lexer: Lexer, emit: bool, op: Opcode, rd: RegIndex) returns (ok: bool, out: seq<Word>)
      requires lexer.Valid()
      modifies lexer
      ensures lexer.Valid()
      ensures Compiled(TransferAt(op, rd, old(lexer.Rest())), Value(), emit, ok, out, lexer.Rest())
    {
      hide Encode, ToInt16, Numeral, Find, Lexer.Valid, Lexer.Rest, CellAt, TakeNumber;
      ok, out := false, [];
      var offset := ParsePlace(lexer);
      if offset.None? {
        return;
      }
      ok := true;
      if emit {
        out := [Encode(op, rd, 0, 0, ToInt16(offset.value))];
      }
    }

    /** The operand after the comma of a two-operand instruction. */
    method ParseSource(lexer: Lexer, emit: bool, op: Opcode, rd: RegIndex) returns (ok: bool, out: seq<Word>)
      requires lexer.Valid()
      modifies lexer
      ensures lexer.Valid()
      ensures Compiled(BinaryAt(op, rd, old(lexer.Rest())), Value(), emit, ok, out, lexer.Rest())
    {
      hide Encode, ToInt16, CellAt, RegisterIndex, NumberValue, Find, Lexer.Valid, Lexer.Rest;
      ok, out := false, [];
      ghost var toks := lexer.Rest();
      var head := lexer.Peek();
      if head.None? {
        return;
      }
      if head.value.lexeme.Register? {
        var rs := ParseRegister(lexer);
        ok := rs.Some?;
        if ok && emit {
          out := [Encode(op, rd, if op.MOV? then rs.value else rd, rs.value, 0)];
        }
      } else if head.value.lexeme.LBracket? {
        ok, out := ParseMemorySource(lexer, emit, op, rd);
      } else {
        var imm := ParseNumber(lexer);
        ok := imm.Some?;
        if ok && emit {
          out := [if op.MOV? then Encode(MOV, rd, 0, IMMEDIATE_MARKER, imm.value)
                  else if op.CMP? then Encode(CMP, 0, rd, IMMEDIATE_MARKER, imm.value)
                  else Encode(op, rd, rd, IMMEDIATE_MARKER, imm.value)];
        }
      }
    }

    /** A symbol in brackets: mov becomes a load, and any other opcode is refused in the second pass. */
    method ParseMemorySource(lexer: Lexer, emit: bool, op: Opcode, rd: RegIndex) returns (ok: bool, out: seq<Word>)
      requires lexer.Valid() && First(lexer.Rest()).LBracket?
      modifies lexer
      ensures lexer.Valid()
      ensures Compiled(BinaryAt(op, rd, old(lexer.Rest())), Value(), emit, ok, out, lexer.Rest())
    {
      hide Encode, ToInt16, CellAt, Find, Lexer.Valid, Lexer.Rest;
      ok, out := false, [];
      ghost var toks := lexer.Rest();
      var _ := Match(lexer, LBracketType);
      assert [LBracket] + toks[1..] == toks;
      var offset, name := ParseCell(lexer);
      if offset.None? || (emit && !op.MOV?) {
        return;
      }
      ok := true;
      if emit {
        out := [Encode(LOAD, rd, 0, 0, ToInt16(offset.value))];
      }
    }

    method ParseOperands(lexer: Lexer, emit: bool, op: Opcode) returns (ok: bool, out: seq<Word>)
      requires lexer.Valid()
      modifies lexer
      ensures lexer.Valid()
      ensures Compiled(OperandsAt(op, old(lexer.Rest())), Value(), emit, ok, out, lexer.Rest())
    {
      hide Encode, ToInt16, TransferAt, BinaryAt, RegisterIndex, Find, Lexer.Valid, Lexer.Rest;
      ok, out := false, [];
      if IsBranch(op) {
        ok, out := ParseBranch(lexer, emit, op);
        return;
      }
      var rd := ParseRegister(lexer);
      if rd.None? {
        return;
      }
      if IsUnary(op) {
        ok := true;
        if emit {
          out := [Encode(op, rd.value, 0, 0, 0)];
        }
        return;
      }
      var comma := Consume(lexer, CommaType);
      if comma.None? {
        return;
      }
      if IsTransfer(op) {
        ok, out := ParseTransfer(lexer, emit, op, rd.value);
      } else {
        ok, out := ParseSource(lexer, emit, op, rd.value);
      }
    }

    /** The forms of parseInstruction by their mnemonic. */
    method ParseForm(lexer: Lexer, emit: bool) returns (ok: bool, out: seq<Word>)
      requires lexer.Valid()
      modifies lexer
      ensures lexer.Valid()
      ensures Compiled(InstructionAt(old(lexer.Rest())), Value(), emit, ok, out, lexer.Rest())
    {
      hide Encode, ToInt16, Numeral, Mnemonic, DataTypeOf, ServiceOf, Find, Lexer.Valid, Lexer.Rest;
      ok, out := false, [];
      var opcode := Consume(lexer, IdentifierType);
      if opcode.None? {
        return;
      }
      var name := opcode.value.text;
      if name == "halt" {
        ok, out := true, if emit then [Encode(HALT, 0, 0, 0, 0)] else [];
      } else if name == "ret" {
        ok, out := true, if emit then [Encode(RET, 0, 0, 0, 0)] else [];
      } else if name == "push" {
        ok, out := ParsePush(lexer, emit);
      } else if name == "pop" {
        var rd := ParseRegister(lexer);
        ok := rd.Some?;
        if ok && emit {
          out := [Encode(POP, rd.value, 0, 0, 0)];
        }
      } else if name == "call" {
        ok, out := ParseCall(lexer, emit);
      } else {
        var op := Mnemonic(name);
        if op.Some? {
          ok, out := ParseOperands(lexer, emit, op.value);
        }
      }
    }

    method ParseInstruction(lexer: Lexer, emit: bool, code: seq<Word>) returns (ok: bool, out: seq<Word>)
      requires lexer.Valid()
      modifies `codeAddress, lexer
      ensures lexer.Valid()
      ensures Handled(InsAt(old(lexer.Rest())), old(Value()), Value(), emit, code, ok, out, lexer.Rest())
    {
      hide InstructionAt, Lower, CellKnown, Lexer.Valid, Lexer.Rest;
      var word;
      ok, word := ParseForm(lexer, emit);
      out := code + word;
      if !ok {
        return;
      }
      codeAddress := Wrap(codeAddress as int + 1);
      ok := SkipLines(lexer);
    }

    // ---- Statements -------------------------------------------------------------------------------------

    method ParseSection(lexer: Lexer, to: Section, ghost emit: bool, ghost code: seq<Word>) returns (ok: bool)
      requires lexer.Valid()
      modifies `section, lexer
      ensures lexer.Valid() && (ok ==> section == to)
      ensures Handled(EnterAt(to, old(lexer.Rest())), Value(), Value(), emit, code, ok, code, lexer.Rest())
    {
      hide Lexer.Valid, Lexer.Rest, SkipNewlines, Blocked;
      var colon := Consume(lexer, ColonType);
      if colon.None? {
        return false;
      }
      section := to;
      ok := SkipLines(lexer);
    }

    /** A declaration after its type, of which `typeName` is the token. */
    method ParseDeclaration(lexer: Lexer, emit: bool, typeName: Lexeme, ghost toks: seq<Lexeme>, ghost code: seq<Word>)
      returns (ok: bool)
      requires lexer.Valid() && toks != [] && typeName == toks[0] && lexer.Rest() == toks[1..]
      modifies `dataSymbols, `dataOffset, lexer
      ensures lexer.Valid()
      ensures Handled(DeclarationAt(toks), old(Value()), Value(), emit, code, ok, code, lexer.Rest())
    {
      hide Lexer.Valid, Lexer.Rest, Numeral, Lower, Encode, SkipNewlines, Blocked;
      if !typeName.Identifier? {
        return false;
      }
      var dataType := DataTypeOf(typeName.text);
      if dataType.None? {
        return false;
      }
      var name := Consume(lexer, IdentifierType);
      if name.None? {
        return false;
      }
      var value := ParseNumber(lexer);
      if value.None? {
        return false;
      }
      if !emit {
        dataSymbols := dataSymbols + [Symbol(name.value.text, dataType.value, value.value, dataOffset)];
        dataOffset := Wrap(dataOffset as int + Size(dataType.value));
      }
      ok := SkipLines(lexer);
    }

    /** A statement of the CODE section after its first token. Unless it is a label, the lexer is rewound to the start
        of the statement and reads the token again. */
    method ParseCode(lexer: Lexer, emit: bool, code: seq<Word>, head: Lexeme, statementStart: nat,
                     ghost toks: seq<Lexeme>)
      returns (ok: bool, out: seq<Word>)
      requires lexer.Valid() && toks != [] && head == toks[0] && lexer.Rest() == toks[1..]
      requires statementStart <= |lexer.source| && Stream(lexer.source, statementStart) == toks
      requires LineAt(lexer.source, statementStart) == LineAt(lexer.source, lexer.position)
      modifies `labels, `codeAddress, lexer
      ensures lexer.Valid()
      ensures Handled(CodeAt(toks), old(Value()), Value(), emit, code, ok, out, lexer.Rest())
    {
      hide Lexer.Valid, Lexer.Rest, Stream, LineAt, SkipNewlines, Blocked, InsAt;
      ok, out := false, code;
      if head.Identifier? {
        var next := lexer.Peek();
        if next.None? {
          return;
        }
        if next.value.lexeme.Colon? {
          var _ := lexer.Next();
          labels := labels[head.text := codeAddress];
          ok := SkipLines(lexer);
          return;
        }
      }
      lexer.Restore(statementStart);
      ok, out := ParseInstruction(lexer, emit, code);
    }

    /** One round of the loop of parseProgram. */
    method ParseStatement(lexer: Lexer, emit: bool, code: seq<Word>) returns (ok: bool, out: seq<Word>)
      requires lexer.Valid() && lexer.Rest() != [] && !First(lexer.Rest()).Newline?
      modifies this, lexer
      ensures lexer.Valid()
      ensures Handled(StatementAt(old(lexer.Rest()), old(section)), old(Value()), Value(),
                      emit, code, ok, out, lexer.Rest())
      ensures ok ==> section == SectionAfter(old(section), StatementAt(old(lexer.Rest()), old(section)).value)
    {
      ok, out := false, code;
      ghost var toks, at, e := lexer.Rest(), section, Value();
      var statementStart := lexer.Mark();
      LexKeepsLine(lexer.source, lexer.position);
      StreamAtEnd(lexer.source, lexer.position);
      assert statementStart <= |lexer.source| && toks == Stream(lexer.source, statementStart);
      assert toks != [] && !Lex(lexer.source, statementStart).lexeme.Newline?;
      StatementOf(toks, at);
      hide Lexer.Valid, Lexer.Rest, Lex, Stream, LineAt, Handled, Visit, StatementAt, EnterAt, CodeAt, DeclarationAt;
      var token := lexer.Next();
      if token.None? {
        FailedHandled(StatementAt(toks, at), e, e, emit, code, code, lexer.Rest());
        return;
      }
      var head := token.value.lexeme;
      if head == Identifier("DATA") {
        ok := ParseSection(lexer, DataSection, emit, code);
      } else if head == Identifier("CODE") {
        ok := ParseSection(lexer, CodeSection, emit, code);
      } else if section.DataSection? {
        ok := ParseDeclaration(lexer, emit, head, toks, code);
      } else if section.CodeSection? {
        ok, out := ParseCode(lexer, emit, code, head, statementStart, toks);
      } else {
        FailedHandled(StatementAt(toks, at), e, e, emit, code, code, lexer.Rest());
      }
    }

    // ---- Passes -----------------------------------------------------------------------------------------

    method ParseProgram(lexer: Lexer, emit: bool, code: seq<Word>) returns (ok: bool, out: seq<Word>)
      requires lexer.Valid()
      modifies this, lexer
      ensures lexer.Valid()
      ensures var ss := Statements(old(lexer.Rest()), NoSection);
              && (ok <==> ss.Some? && Pass(ss.value, old(Value()), emit).Some?)
              && (ok ==> Pass(ss.value, old(Value()), emit).value.env == Value()
                         && out == code + Pass(ss.value, old(Value()), emit).value.code)
    {
      hide Pass, Visit, StatementAt, Statements, Halfway, Handled, Lexer.Valid, Lexer.Rest, SkipNewlines;
      ghost var toks, e := lexer.Rest(), Value();
      section := NoSection;
      out := code;
      ok := SkipLines(lexer);
      if !ok {
        BlockedFails(toks, NoSection);
        return;
      }
      ghost var done: seq<Statement> := [];
      ghost var words: seq<Word> := [];
      HalfwayStart(toks, e, emit);
      SkipTwice(toks);
      while true
        invariant lexer.Valid() && ok && out == code + words
        invariant !Blocked(lexer.Rest()) && SkipNewlines(lexer.Rest()) == lexer.Rest()
        invariant Halfway(toks, e, emit, done, Value(), words, lexer.Rest(), section)
        decreases |lexer.Rest()|
      {
        var head := lexer.Peek();
        if head.value.lexeme.End? {
          HalfwayEnd(toks, e, emit, done, Value(), words, section);
          return;
        }
        ok := SkipLines(lexer);
        ghost var rest, before, at := lexer.Rest(), Value(), section;
        ok, out := ParseStatement(lexer, emit, out);
        if !ok {
          StatementFails(toks, e, emit, done, before, words, rest, at, Value(), code + words, out, lexer.Rest());
          return;
        }
        StatementPasses(toks, e, emit, done, before, words, rest, at, Value(), code, out, lexer.Rest());
        ghost var s := StatementAt(rest, at).value;
        done, words := done + [s], words + Visit(s, before, emit).value.code;
      }
    }

    method FirstPass(lexer: Lexer) returns (ok: bool)
      requires lexer.Valid()
      modifies this, lexer
      ensures lexer.Valid()
      ensures var ss := Statements(old(lexer.Rest()), NoSection);
              && (ok <==> ss.Some? && Pass(ss.value, old(Value()), false).Some?)
              && (ok ==> Pass(ss.value, old(Value()), false).value.env == Value())
    {
      var dummy;
      ok, dummy := ParseProgram(lexer, false, []);
    }

    /** The image is written into zeroed bytes, symbol by symbol, before the code is generated. */
    method SecondPass(lexer: Lexer) returns (program: Option<Loader.Program>)
      requires lexer.Valid() && Tiled(dataSymbols) && dataOffset == |Image(dataSymbols)|
      modifies this, lexer
      ensures lexer.Valid()
      ensures var ss := Statements(old(lexer.Rest()), NoSection);
              var e := old(Value()).(address := 0);
              program == if ss.Some? && Pass(ss.value, e, true).Some?
                         then Some(Loader.Program(Pass(ss.value, e, true).value.code, Image(e.symbols))) else None
    {
      hide Statements, Pass, Lexer.Valid, Lexer.Rest, Image, Tiled;
      ghost var ss := Statements(lexer.Rest(), NoSection);
      codeAddress := 0;
      ghost var e := Value();
      var data := WriteImage(dataSymbols, dataOffset);
      var ok, code := ParseProgram(lexer, true, []);
      if ok {
        assert [] + Pass(ss.value, e, true).value.code == Pass(ss.value, e, true).value.code;
      }
      program := if ok then Some(Loader.Program(code, data)) else None;
    }

    /** parse. If the 32-bit offsets of the data wrapped, the code would write past the end of the image. */
    method Parse(source: string) returns (program: Option<Loader.Program>)
      requires DataFits(source)
      modifies this
      ensures program == AssembleSource(source)
    {
      hide Statements, Pass, Lexer.Valid, Lexer.Rest, Stream, Image, Tiled;
      labels, dataSymbols, section, codeAddress, dataOffset := map[], [], NoSection, 0, 0;
      var lexer := new Lexer(source);
      var ok := FirstPass(lexer);
      if !ok {
        return None;
      }
      FirstPassTables(Statements(Stream(source, 0), NoSection).value);
      lexer.Reset();
      section := NoSection;
      codeAddress := 0;
      program := SecondPass(lexer);
    }
  }
}
