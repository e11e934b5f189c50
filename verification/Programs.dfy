/** Print and parse, whole programs: when a tree survives, and what a parsed program turns into. */
module Programs {
  import opened Wrappers
  import opened LuaSyntax
  import opened Emission
  import opened Grammar
  import opened CanonicalForm
  import opened RoundTrip
  import opened ParsedForm
  import opened Settled
  import opened Scanner
  import opened Spacing
  import opened Relex
  import Lexing
  import LexedTokens
  import PrintedTokens
  import SourceSpelling
  import SourceTokens
  import TokensKept

  /** The tree a reader of the printed program sees. */
  function Reread(v: Version, b: Block): Block {
    if v.HasEmptyStatement() then SettleBlock(b) else b
  }

  /** Parsing a program and printing the tree keeps the tree, up to the guards that `;` statements
      write out. */
  lemma ReprintReads(v: Version, ts: Tokens)
    requires Parse(v, ts).Some?
    ensures Parse(v, EmitBlock(Parse(v, ts).value, Eof)) == Some(Reread(v, Parse(v, ts).value))
  {
    hide Parse, CanonicalBlock, SettleBlock, EmitBlock;
    ParsedIsCanonical(v, ts);
    CanonicalReads(v, Parse(v, ts).value);
  }

  lemma CanonicalReads(v: Version, b: Block)
    requires CanonicalBlock(v, false, b)
    ensures Parse(v, EmitBlock(b, Eof)) == Some(Reread(v, b))
  {
    hide Parse, CanonicalBlock, SettleBlock, EmitBlock;
    if v.HasEmptyStatement() {
      BlockSettles(v, b);
      BlockPrintsSame(b, Eof);
      ProgramReads(v, SettleBlock(b));
    } else {
      ProgramReads(v, b);
    }
  }

  /** A tree reads back as itself exactly when it is canonical. */
  lemma ReadsIffCanonical(v: Version, b: Block)
    ensures Parse(v, EmitBlock(b, Eof)) == Some(b) <==> CanonicalBlock(v, v.HasEmptyStatement(), b)
  {
    hide Parse, CanonicalBlock, SettleBlock, EmitBlock;
    if CanonicalBlock(v, v.HasEmptyStatement(), b) {
      ProgramReads(v, b);
    }
    if Parse(v, EmitBlock(b, Eof)) == Some(b) {
      ParsedIsCanonical(v, EmitBlock(b, Eof));
      CanonicalReads(v, b);
      if v.HasEmptyStatement() {
        BlockSettles(v, b);
      }
    }
  }

  /** The same for expressions. */
  lemma ExprReadsIffCanonical(v: Version, e: Expr)
    ensures ParseExpr(v, 0, EmitExpr(e, Eof)) == Ok(e, Eof) <==> Canonical(v, v.HasEmptyStatement(), e)
  {
    hide ParseExpr, Canonical, EmitExpr, SettleExpr;
    if Canonical(v, v.HasEmptyStatement(), e) {
      WholeReads(v, e, Eof);
    }
    if ParseExpr(v, 0, EmitExpr(e, Eof)) == Ok(e, Eof) {
      ExprParsed(v, 0, EmitExpr(e, Eof));
      if v.HasEmptyStatement() {
        ExprSettles(v, e);
        ExprPrintsSame(e, Eof);
        WholeReads(v, SettleExpr(e), Eof);
      }
    }
  }

  // ----- text -----

  /** The text the compact printer writes for a program. */
  function Printed(b: Block): string { Render(None, EmitBlock(b, Eof)) }

  /** Maximal munch over the printed text of a program finds exactly the printed tokens. */
  lemma PrintedLexes(v: Version, b: Block)
    requires CanonicalBlock(v, false, b) && AllSpellable(v, EmitBlock(b, Eof))
    ensures Lex(v, Printed(b), []) == Some(EmitBlock(b, Eof))
  {
    hide CanonicalBlock, EmitBlock, Render, Lex, AllSpellable;
    assert Printable([], Eof);
    PrintedTokens.BlockPrintable(v, b, [], Eof);
    Relexes(v, None, EmitBlock(b, Eof), []);
  }

  /** Print, lex and parse: the program comes back. */
  lemma PrintedReads(v: Version, b: Block)
    requires CanonicalBlock(v, false, b) && AllSpellable(v, EmitBlock(b, Eof))
    ensures Lex(v, Printed(b), []).Some?
    ensures Parse(v, Lex(v, Printed(b), []).value) == Some(Reread(v, b))
  {
    hide CanonicalBlock, EmitBlock, Render, Lex, AllSpellable, Parse;
    PrintedLexes(v, b);
    CanonicalReads(v, b);
  }

  /** Every source that reads: its compact form has the same tokens, the separators aside, and lexes and
      parses to the same program; printing that program again gives the same text. */
  lemma SourceReprints(v: Version, source: string)
    requires Lex(v, source, []).Some? && Parse(v, Lex(v, source, []).value).Some?
    ensures var b := Parse(v, Lex(v, source, []).value).value;
            && Lex(v, Printed(b), []).Some?
            && TokensKept.Alike(Lex(v, Printed(b), []).value, Lex(v, source, []).value)
            && Parse(v, Lex(v, Printed(b), []).value) == Some(Reread(v, b))
            && Printed(Reread(v, b)) == Printed(b)
  {
    hide CanonicalBlock, EmitBlock, Render, Lex, AllSpellable, Parse, SettleBlock, TokensKept.Core;
    var ts := Lex(v, source, []).value;
    var b := Parse(v, ts).value;
    SourceTokens.LexedSpells(v, source, []);
    SourceSpelling.ParsedSpells(v, ts);
    ParsedIsCanonical(v, ts);
    PrintedLexes(v, b);
    TokensKept.ParsedPrintsItsTokens(v, ts);
    PrintedReads(v, b);
    BlockPrintsSame(b, Eof);
  }

  /** The tokens of a file as the lexer reads it from the start; none where it records an error. */
  function FileTokens(input: Lexing.Input): Option<Tokens> {
    var (last, lexemes) := Lexing.All(input, Lexing.Start(input));
    if last.errors == [] then Some(LexedTokens.Bare(lexemes)) else None
  }

  lemma FileIsText(input: Lexing.Input)
    ensures FileTokens(input) == Lex(input.version, input.source[Lexing.Start(input).cursor..], [])
  {
    hide Lex, Lexing.All, LexedTokens.Bare;
    LexedTokens.LexemesAreTokens(input, Lexing.Start(input));
  }

  /** A text that reads as a program starts with no `#` and no byte-order mark. */
  lemma ProgramStart(v: Version, text: string)
    requires text != "" && Lex(v, text, []).Some? && Parse(v, Lex(v, text, []).value).Some?
    ensures text[0] != '#' && !(Lexing.BOM <= text)
  {
    hide ParseStmts, Dispatch, Parse, Lex;
    assert text[0..] == text;
    if text[0] == '#' {
      HashFirst(v, text);
      HashIsNoProgram(v, Lex(v, text, []).value);
    } else if Lexing.BOM <= text {
      MarkFirst(v, text);
    }
  }

  lemma HashFirst(v: Version, text: string)
    requires text != "" && text[0] == '#' && Lex(v, text, []).Some?
    ensures Lex(v, text, []).value.Tok? && Lex(v, text, []).value.head == Sign(Hash)
  {
    hide WordStep, NumberStep, StringStep, Scanner.InterpStep, ShortEnd, CommentEnd, LongEnd, LongLevel;
    assert text[0..] == text && RunEnd(Blanks, text, 0) == 0;
    assert Dispatch(v, text, []) == Lexed(Sign(Hash), 1, []);
  }

  lemma MarkFirst(v: Version, text: string)
    requires Lexing.BOM <= text
    ensures Lex(v, text, []) == None
  {
    hide WordStep, NumberStep, StringStep, Scanner.InterpStep, ShortEnd, CommentEnd, LongEnd, LongLevel;
    assert text[0] == Lexing.BOM[0];
    assert text[0..] == text && RunEnd(Blanks, text, 0) == 0;
    assert Dispatch(v, text, []) == Malformed;
  }

  lemma HashIsNoProgram(v: Version, ts: Tokens)
    requires ts.Tok? && ts.head == Sign(Hash)
    ensures Parse(v, ts) == None
  {
    hide ParseSimpleStmt, ParseWordStmt, ParseReturn;
    assert ParseStmt(v, ts) == Fail;
    assert ParseStmts(v, false, ts) == Fail;
  }

  /** Every file that reads, also behind a byte-order mark or a first line that starts with `#`: its
      compact form, read as a file again, is the same program, and printing that gives the same text. */
  lemma FileReprints(input: Lexing.Input)
    requires FileTokens(input).Some? && Parse(input.version, FileTokens(input).value).Some?
    ensures var b := Parse(input.version, FileTokens(input).value).value;
            var again := FileTokens(input.(source := Printed(b)));
            && again.Some? && TokensKept.Alike(again.value, FileTokens(input).value)
            && Parse(input.version, again.value) == Some(Reread(input.version, b))
            && Printed(Reread(input.version, b)) == Printed(b)
  {
    hide Lex, Parse, Printed, FileTokens, Reread, TokensKept.Core;
    var v, text := input.version, input.source[Lexing.Start(input).cursor..];
    FileIsText(input);
    SourceReprints(v, text);
    var printed := input.(source := Printed(Parse(v, FileTokens(input).value).value));
    FileIsText(printed);
    if printed.source != "" {
      ProgramStart(v, printed.source);
    }
    assert printed.source[0..] == printed.source;
  }
}
