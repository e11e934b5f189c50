# Luck: verified cores

Luck is a toolchain for the Lua family: a formatter, a compact printer, a lexer and parser, a bundler and
a linter. Most of what it does is to write program text or trees anew without changing what they mean.
This project models the parts that carry that promise and proves it of the model.

`dafny verify dfyconfig.toml` checks the whole project. Each file holds the module of its name, except that
`CompactPrinter.dfy` holds `CompactPrinting` and `CommentFormatter.dfy` holds `CommentFormatting`.

## The cores

**Layout printer** (`Document`, `Layout`, `DocLayout`, `Propagate`, `Printer`, `Conservation`, `Pages`,
`FitSoundness`, `FlatText`, `DocumentRuns`, `FlatLimits`, `Writing`, `WrittenDocuments`). The formatter writes
a document as a flat stream of elements with paired tags; a Wadler-style printer measures and prints it in two
different walks. `Layout` states both walks over the flat stream as the code takes them, and the class
`Printer` is proved against it, field by field. `DocLayout` shows that walking the stream of a document is
recursion on the document. On documents, measuring and printing are proved to agree: what is committed to flat
breaks if and only if one of two things is met on the way, and otherwise stays on its line and inside the line
width; `FlatText` says when that is: content fits exactly where its text on one line does. `FlatLimits` holds
documents for which measuring and printing disagree. `Conservation` says what is printed at all, and once;
`Pages` reads a print as a page of lines, with margins, blank lines and the spaces between words. `Writing` is
the builder: its documents have distinct ids by construction, and every comment claimed while writing is
printed exactly once.

**Print, lex, parse** (`LuaSyntax`, `Grammar`, `Emission`, `CanonicalForm`, `RoundTrip`, `ParsedForm`,
`TokensKept`, `Settled`, `OperatorOrder`, `Synth`, `BuiltTrees`, `Scanner`, `Spacing`, `Relex`, `SpaceNeeds`,
`PrintedTokens`, `SourceTokens`, `SourceSpelling`, `CompactPrinter`, `Programs`). A parser for the Lua
dialects (precedence climbing, Luau casts, if-expressions and interpolated strings, statements), the compact
printer's tokens, spacing and text, and a lexer on characters. A tree reads back as itself if and only if it
is *canonical*, a condition on each node that the parser establishes and the tree constructors keep. The main
result, `Programs.FileReprints`, has no side condition: every file that lexes and parses survives compact
printing, with every token it had but separators. How operators group is fixed by the manual's order,
written out in `OperatorOrder`.

**Lexer** (`Lexing`, `LexedTokens`, `CommentSides`, `Search`). The stateful reader with its queue, comments
and brace stack; it skips nothing but blanks, and tells leading comments from trailing ones by the line ends.

**String literals** (`Literals`, `Quotes`). The quoting writers and the decoders, as inverses on all bytes,
and the quote normalizer on every string token. Its lemmas speak of closed literals, which tokens are: behind
a dangling backslash the new delimiter would be what is escaped (`Quotes.DanglingBackslashChangesMeaning`).

**Comment ledger** (`Comments`, `CommentLines`, `CommentRuns`, `CommentFormatter`, `Reanchoring`,
`VerbatimText`). The cursor that every emission moves in step with the stream, with speculation, rollback and
the verbatim fallback; a comment that is printed as part of its statement's source text is shown to stand in
that text, and no emission writes anything behind a comment that goes to the end of its line.

**Bundler** (`Loader`, `SourceLines`, `Splicing`, `LoaderCalls`, `Bundle`, `LineMap`, `Discovery`,
`RelativePaths`). The emitted loader as a state machine with re-entrant calls, the rewrites of a module body,
splicing and the line map, the discovery worklist, slot tables, registrations by file and by name, and the
fresh prefix.

**Rule dispatch** (`Bus`). Bucketed and chunked dispatch against the reference.

## What the proofs found

- `Synth.OpenOperandMisreads`: the binary constructor leaves a parsed left operand that ends in a bare
  if-expression without parentheses, so the printed text reads as another tree. Operands built by the
  constructors themselves are never of that kind.
- `FlatLimits`: documents that are committed to flat and still break or overrun. Three come
  from what the measuring walk does not charge for: a boundary, an indent tag behind pending indentation, the end
  of an empty group. The fourth is of another kind: a fill entry or variant is measured without the conditionals
  it skips, so a forced break inside one stays hidden (`FlatLimits.DocumentHidesBreak`).
- `Splicing.AttributedExportMovesLines`: an attributed `export function` moves the lines behind it unless
  exactly one newline stands between its last attribute and its name.
- `Discovery.RegisterByName`: by name, a require string that stands for two files reaches the first.
- `SpaceNeeds.NumeralNeedsNoSpace`: beside a numeral the compact printer can write a space that no dialect
  needs, as in `1 and`; everywhere else its spaces are needed.

## Notation

Characters stand for the bytes of the source. A lemma named `...Cut` is about a text cut off where a token
ends, one named `...Appends` about a text that goes on. `Emit...(x, k)` is the tokens of `x` followed by `k`.

## Model

| member | source | states |
|---|---|---|
| `DocumentRuns.FlatCommitmentsAreSound` | crates/luck_formatter/src/printer.rs:172-191 | for every well-formed document with distinct group ids and every line width: where a measurement commits a group, a fill entry or a variant to flat, and no indent tag comes in its body while the line's indentation is still pending, its body prints a break if and only if a boundary in it meets a queued suffix or a line in it stands in a group that was expanded before (never the latter where it is a group that commits); without a break it ends inside the line width, or no further out than a line already too long |
| `WrittenDocuments.WrittenDocumentsCommitSoundly` | crates/luck_formatter/src/ir.rs:158-236 | the same for every document the builder can write from single-line tokens and best-fitting elements of two variants or more, the ids being distinct by construction |
| `FitSoundness.FlatRun` | crates/luck_formatter/src/printer.rs:385-508 | content the measuring walk lets through, printed in either mode: it breaks if and only if a boundary meets a queued suffix or a line stands in a group expanded before; otherwise it stays on the line, keeps both stacks, decides only flat, and uses no more width than was measured |
| `FitSoundness.FlatEntries` | crates/luck_formatter/src/printer.rs:284-344 | the same for the entries and separators of a fill that was measured: every one fits again where it is printed |
| `FitSoundness.FlatBest` | crates/luck_formatter/src/printer.rs:263-280 | a best-fitting element measured by its first variant prints that variant, measured again where it stands |
| `FitSoundness.UnforcedStaysFlat` | crates/luck_formatter/src/printer.rs:424-443 | where no expanded group can be reached, conditionals skipped by the measuring walk included, no line is printed in expanded mode |
| `FitSoundness.EmitFlat` | crates/luck_formatter/src/printer.rs:490-508 | a single-line text takes exactly its own width from what remained, pending indentation and space included |
| `FitSoundness.IndentWidths` | crates/luck_formatter/src/printer.rs:360-371 | the width the measuring side sums over the indent stack is the width the printing side writes |
| `DocumentRuns.MeasuredIsUnforced` | crates/luck_formatter/src/printer.rs:81-121 | a group the forced-break pass left alone and that measures as fitting reaches no group already expanded |
| `FlatText.FitsIffOneLine` | crates/luck_formatter/src/printer.rs:385-456 | content fits if and only if its text on one line, behind the open line with its margin and what comes in between, is within the line width; an overfull line takes only what is not measured |
| `FlatText.GroupExpandsOnlyWhenNeeded` | crates/luck_formatter/src/printer.rs:172-191 | a decided group keeps its mode; any other is flat inside a flat one, and otherwise if and only if it has a form on one line that stays within the width |
| `FlatText.MeasuredText` | crates/luck_formatter/src/printer.rs:385-456 | measuring takes the width of the text on one line out of the budget and fails where that is more than there is; a hard or empty line, an expand marker and a text of several lines have no such text |
| `FlatText.DetachedText` | crates/luck_formatter/src/printer.rs:459-488 | the same for a detached variant, whose conditionals and suffixes all count |
| `FlatText.GroupDecides` | crates/luck_formatter/src/printer.rs:172-191 | the mode of a group is known to everything inside it and behind it |
| `FlatLimits.LateIndentIsNotMeasured` | crates/luck_formatter/src/printer.rs:554-580 | an indent tag behind a pending indentation is printed and not measured: the text ends exactly that many columns further, and overruns if and only if fewer were left |
| `FlatLimits.SkippedBranchHidesBreak` | crates/luck_formatter/src/printer.rs:424-443 | a fill entry or variant whose skipped conditional hides a forced break is committed to flat and breaks |
| `FlatLimits.DocumentHidesBreak` | crates/luck_formatter/src/printer.rs:284-344 | such a document, printed from the start: its fill entry is measured, fits, and the run breaks inside it |
| `DocLayout.MeasureStream` | crates/luck_formatter/src/printer.rs:385-456 | the measuring walk over the flat stream of a document, brackets, skipped conditionals and suffixes included, is measuring the document by recursion |
| `DocLayout.SliceStream` | crates/luck_formatter/src/printer.rs:459-488 | the slice measurement of a variant's stream is the recursive cost of the variant |
| `DocLayout.SkipStream` | crates/luck_formatter/src/printer.rs:638-660 | skipping over a balanced body ends at the bracket that was open before it |
| `DocLayout.PrintStream` | crates/luck_formatter/src/printer.rs:128-248 | the print loop over the flat stream of a document does what printing the document by recursion does, for every state and whatever follows |
| `DocLayout.FillStream` | crates/luck_formatter/src/printer.rs:284-344 | the fill loop over the stream of a fill prints its entries and separators one by one |
| `Propagate.PropagationIsExact` | crates/luck_formatter/src/printer.rs:81-121 | after the pass a group is marked expanded if and only if some group with its id has a forced break or a multi-line text in its own stream, suffixes and variants apart |
| `Propagate.PropagateExpand` | crates/luck_formatter/src/printer.rs:81-121 | the loop with its stack of enclosing groups computes the pass |
| `DocumentRuns.PrintConserves` | crates/luck_formatter/src/printer.rs:27-52 | a whole print at any width: the output, blanks aside, is a layout-free reading of some selection of the document with each deferred suffix at the next break; both stacks end empty |
| `Pages.PagePrinted` | crates/luck_formatter/src/printer.rs:27-52 | a whole print is its page, line by line: each word is on the open line, behind the margin if it is the first there and behind one space where a space or a flat soft line came before; each break that is not printed flat writes the waiting notes, takes the blanks off the end of the line and opens a new one, behind one blank line where an empty line is asked for, and never behind two |
| `Pages.DocShown` | crates/luck_formatter/src/printer.rs:128-248 | the same for any document printed from any state, with the indents and the mode around it; and `column` is the width of the open line |
| `Pages.BreakEndsLine` | crates/luck_formatter/src/printer.rs:510-526 | behind a break the output ends with a newline, behind an empty line with two; one newline is added to the trimmed text, two where an empty line needs them, none behind a blank line |
| `Pages.BreakShown` | crates/luck_formatter/src/printer.rs:510-543 | a break ends the open line of the page and opens the next one |
| `Pages.TextShown` | crates/luck_formatter/src/printer.rs:490-508 | a text is put on the page behind margin and space, its own newlines starting lines of their own |
| `Pages.IndentFlushed` | crates/luck_formatter/src/printer.rs:554-580 | what is written in front of a line is one tab or step of spaces for each level, then the explicit spaces |
| `Pages.RoomOnLine` | crates/luck_formatter/src/printer.rs:346-371 | what remains is the line width less the width of the open line with its margin and space |
| `Conservation.DocKept` | crates/luck_formatter/src/printer.rs:128-248 | what printing adds to the output is exactly what the decisions say, deferred texts coming once, at the next break |
| `Conservation.SelectedIsSelection` | crates/luck_formatter/src/printer.rs:263-280 | the decisions select all texts in order, leave out only whole conditionals, and take exactly one variant of each best-fitting element |
| `Conservation.StacksRestored` | crates/luck_formatter/src/printer.rs:170-248 | printing any document leaves the mode and indent stacks as it found them |
| `Conservation.NewlineVisible` | crates/luck_formatter/src/printer.rs:510-543 | a break prints every queued suffix and otherwise only blanks, and empties the queue |
| `Printer.Printer.FitsRegionWithExtra` | crates/luck_formatter/src/printer.rs:385-456 | the measuring loop decides as the specification of the flat walk says |
| `Printer.Printer.FitsSliceFlat` | crates/luck_formatter/src/printer.rs:459-488 | the slice loop leaves the budget the specification says |
| `Printer.Printer.SkipRegion` | crates/luck_formatter/src/printer.rs:638-660 | the index loop finds the end of the region |
| `Printer.Printer.PrintElement` | crates/luck_formatter/src/printer.rs:137-168 | one element leaves the printer's whole state as the specification says |
| `Printer.Printer.PrintTag` | crates/luck_formatter/src/printer.rs:170-248 | one tag, with the group decision, both stacks, skipped conditionals and queued suffixes |
| `Printer.Printer.PrintFill` | crates/luck_formatter/src/printer.rs:284-344 | the fill loop leaves the state the specification says |
| `Printer.Printer.PrintBestFitting` | crates/luck_formatter/src/printer.rs:263-280 | the first variant that fits, else the last, printed into the state |
| `Printer.Printer.EmitText` | crates/luck_formatter/src/printer.rs:490-508 | pending indentation, pending space, the text and the new column |
| `Printer.Printer.EmitNewline` | crates/luck_formatter/src/printer.rs:510-526 | suffixes flushed, trailing blanks trimmed; the output ends with a newline, with two where an empty line is asked for, and the next line starts there |
| `Printer.Printer.FlushIndent` | crates/luck_formatter/src/printer.rs:554-580 | levels first, then the explicit spaces |
| `Printer.Print` | crates/luck_formatter/src/printer.rs:27-52 | the whole run over the stream of a document gives the text that `PrintConserves` and `Pages.PagePrinted` are about |
| `Writing.Formatter.Fmt` | crates/luck_formatter/src/ir.rs:254-388 | writing any content appends exactly the stream of one document, hands out ids and moves the comment cursor as specified |
| `Writing.Formatter.FmtAndRestore` | crates/luck_formatter/src/ir.rs:220-230 | a rollback rewinds stream and comment cursor and never an id |
| `Writing.Formatter.CaptureVariants` | crates/luck_formatter/src/ir.rs:399-429 | every variant is written from the comments the first one saw, and detached from the stream |
| `WrittenDocuments.IdsDiffer` | crates/luck_formatter/src/ir.rs:145-206 | whatever is written, rolled back or captured, no two groups share an id, as long as each id asked for opens one group |
| `WrittenDocuments.EachCommentPrintsOnce` | crates/luck_formatter/src/ir.rs:399-429 | over a whole run, whichever variants the printer takes, the comments among the printed texts are those the emitters claimed, once each and in source order |
| `WrittenDocuments.CommentsOnce` | crates/luck_formatter/src/ir.rs:399-429 | every selection from what was written holds exactly the claimed comments |
| `Programs.SourceReprints` | crates/luck_codegen/src/compact.rs:45-123 | every text that lexes and parses: its compact text has the same tokens, separators aside, lexes and parses to the same program, guards written out as empty statements, and prints as the same text again |
| `Programs.FileReprints` | crates/luck_codegen/src/compact.rs:22-97 | the same for every file as the reader takes it, behind a byte-order mark or a first line that starts with `#`, and with its printed text read as a file again |
| `TokensKept.ParsedPrintsItsTokens` | crates/luck_parser/src/lib.rs:44-53 | every token sequence the parser accepts is what its tree prints, apart from `;` and `,` and split `>>` and `>=`: parsing loses and reorders nothing |
| `Programs.PrintedReads` | crates/luck_codegen/src/compact.rs:45-123 | every canonical tree with spellable tokens survives print, lex and parse |
| `Programs.PrintedLexes` | crates/luck_codegen/src/separator.rs:54-76 | maximal munch over the printed text gives back exactly the emitted tokens, interpolated strings nested to any depth included |
| `Programs.ReadsIffCanonical` | crates/luck_codegen/src/compact.rs:80-123 | a program reads back from its tokens as itself if and only if it is canonical |
| `Programs.ExprReadsIffCanonical` | crates/luck_codegen/src/compact.rs:365-392 | the same for expressions |
| `Programs.ReprintReads` | crates/luck_codegen/src/compact.rs:80-97 | a parsed program, printed and parsed again, is the same up to the guards |
| `Synth.BuiltReads` | crates/luck_ast/src/synth.rs:651-784 | every expression the constructors build, to any depth, is what precedence climbing makes of its printed tokens |
| `Synth.BinaryIsCanonicalIff` | crates/luck_ast/src/synth.rs:655-667 | for operands from anywhere, the binary constructor builds a tree that reads back if and only if the left operand gets parentheses or does not end in a bare if-expression |
| `Synth.OpenOperandMisreads` | crates/luck_ast/src/synth.rs:737-774 | a parsed operand `x + if c then y else z` on the left is printed bare, and what is read is `x + if c then y else z + w` with the sum `z + w` in the else branch |
| `Synth.EdgeSeals` | crates/luck_ast/src/synth.rs:297-310 | an operand the wrapping leaves alone takes in no parent operator, casts before `<`, `&` and `|` included |
| `BuiltTrees.BuiltAsAsked` | crates/luck_ast/src/synth.rs:447-947 | every tree the constructors build has the parts it was asked to have, each in its place, with no change but parentheses around operands, prefixes that need them and calls that must give one value |
| `OperatorOrder.ReadsIffGrouped` | crates/luck_parser/src/expr.rs:33-106 | an operator tree reads back from its tokens if and only if it is grouped as the manual's order of operators says, loosest to tightest, with the unary operators in their place |
| `OperatorOrder.TwoOperatorsRead` | crates/luck_parser/src/expr.rs:33-82 | for any atoms and any two operators of the dialect, `x a y b z` is parsed with the pair grouped first that the manual's order says |
| `OperatorOrder.UnaryReads` | crates/luck_parser/src/expr.rs:84-106 | a unary operator takes in what follows if and only if the operator there is listed above the unary ones |
| `OperatorOrder.UnaryOperandReads` | crates/luck_parser/src/expr.rs:84-106 | behind any operator a unary one is read as part of the right operand |
| `OperatorOrder.OrderIsPrecedence` | crates/luck_token/src/token.rs:325-368 | the table of precedences orders any two operators as the manual does |
| `OperatorOrder.OperatorsAreWritten` | crates/luck_token/src/token.rs:325-368 | each operator is written in the manual's characters |
| `OperatorOrder.WrapsIff` | crates/luck_ast/src/synth.rs:737-774 | an operand gets parentheses exactly where the manual's order asks for them, casts before `<`, `&` and `|` and if-expressions apart |
| `OperatorOrder.ParensAsNeeded` | crates/luck_ast/src/synth.rs:655-667 | the binary constructor wraps an operand if and only if the tree would not be grouped without |
| `OperatorOrder.UnaryParens` | crates/luck_ast/src/synth.rs:669-682 | the unary constructor wraps every binary operand |
| `RoundTrip.ExprReads` | crates/luck_parser/src/expr.rs:33-106 | printed where operators of some precedence may follow, a canonical expression is what the operator loop holds |
| `RoundTrip.StmtReads` | crates/luck_parser/src/stmt.rs:24-107 | the printed tokens of a canonical statement parse to it, whatever follows |
| `RoundTrip.BlockReads` | crates/luck_parser/src/parser.rs:278-384 | the printed tokens of a canonical block parse to it |
| `RoundTrip.ProgramReads` | crates/luck_parser/src/lib.rs:44-53 | the printed tokens of a canonical program parse to it |
| `TypeRoundTrip.TypeReads` | crates/luck_parser/src/luau.rs:111-234 | the printed tokens of a canonical cast type parse to it, split `>>` and `>=` included |
| `ParsedForm.ParsedIsCanonical` | crates/luck_parser/src/expr.rs:33-106 | whatever the parser accepts is canonical: printing is lossless on it |
| `Settled.BlockPrintsSame` | crates/luck_codegen/src/compact.rs:80-97 | writing the guards as empty statements changes no token |
| `Settled.BlockSettles` | crates/luck_codegen/src/compact.rs:80-97 | and makes a parsed tree one that reads back as itself |
| `CanonicalForm.StopSeals` | crates/luck_parser/src/expr.rs:190-288 | a closing token is taken into no expression |
| `Emission.QueriesReadFirstToken` | crates/luck_ast/src/query.rs:22-58 | the parenthesis and brace queries answer what the first printed token is, for every expression |
| `Emission.GuardReadsFirstToken` | crates/luck_ast/src/query.rs:10-20 | the statement guard is set exactly for statements whose first printed token is `(` |
| `SourceSpelling.ParsedSpells` | crates/luck_codegen/src/compact.rs:45-78 | a program parsed from spellable tokens is printed with spellable tokens |
| `SourceTokens.LexedSpells` | crates/luck_lexer/src/lexer.rs:135-233 | every token read from a text has that text as its spelling: cut off at its end it reads the same |
| `SourceTokens.NumberCut` | crates/luck_lexer/src/number.rs:7-239 | a numeral cut off where it ends is still that numeral |
| `SourceTokens.ShortCut` | crates/luck_lexer/src/string.rs:13-67 | a short string cut off behind its quote is still that string |
| `SourceTokens.SegmentAlone` | crates/luck_lexer/src/lexer.rs:655-719 | a segment of an interpolated string is a segment by itself, whichever way it ended |
| `Relex.TokenLexes` | crates/luck_lexer/src/lexer.rs:135-233 | a printed token followed by a byte it does not take in is the next token read, and the brace counts are those the tokens imply |
| `Relex.SpacingSuffices` | crates/luck_codegen/src/separator.rs:54-76 | for every pair of tokens the printer can put side by side the separator rules keep them apart |
| `SpaceNeeds.SpaceIsNeeded` | crates/luck_codegen/src/separator.rs:54-76 | and where a space is written, some dialect that has both tokens would read something else without it, except beside a numeral |
| `SpaceNeeds.NumeralNeedsNoSpace` | crates/luck_codegen/src/separator.rs:54-76 | beside a numeral the rule asks for more: `1and` would be read as the two tokens in every dialect |
| `Relex.Relexes` | crates/luck_lexer/src/lexer.rs:78-105 | the rendered text of a printable token sequence lexes to the sequence |
| `Relex.SegmentAppends` | crates/luck_lexer/src/lexer.rs:655-719 | a segment text reads the same before a hole and before the closing backtick |
| `PrintedTokens.BlockPrintable` | crates/luck_codegen/src/compact.rs:514-546 | whatever a block prints, its neighbours are ones the rules cover and its braces nest, holes in holes included |
| `PrintedTokens.HolesPrintable` | crates/luck_lexer/src/lexer.rs:427-445 | inside a hole the brace count starts afresh and is back at zero where the string goes on |
| `CompactPrinting.Print` | crates/luck_codegen/src/compact.rs:22-97 | the printer's loops write exactly the rendering of the program's tokens |
| `CompactPrinting.CompactPrinter.EmitStatements` | crates/luck_codegen/src/compact.rs:80-97 | statements with a `;` where the guard asks for one |
| `CompactPrinting.CompactPrinter.EmitHole` | crates/luck_codegen/src/compact.rs:514-546 | the expression of a hole, apart from the `{` before it |
| `CompactPrinting.CompactPrinter.EmitToken` | crates/luck_codegen/src/compact.rs:45-78 | one piece, with the space its class pair asks for |
| `Lexing.CommentsAreAttached` | crates/luck_lexer/src/lexer.rs:272-372 | over every source, read one by one or at once, comments come out in source order, each leading one attached to the first token behind it and each trailing one to the last before it |
| `CommentSides.SidesAreTold` | crates/luck_lexer/src/lexer.rs:148-313 | over every source with nothing malformed in it, a comment trails the token before it if and only if no line ends between the two outside of comments, and leads the token behind it otherwise |
| `CommentSides.NothingIsSkipped` | crates/luck_lexer/src/lexer.rs:78-105 | over every such source, each byte behind the byte-order mark is part of a token, part of a comment, or blank |
| `Lexing.DrainingIsTokenizing` | crates/luck_lexer/src/lexer.rs:78-123 | asking for tokens until the end gives the tokens, comments and errors of the whole pass |
| `Lexing.Lexer.NextToken` | crates/luck_lexer/src/lexer.rs:107-123 | the reader's next token and whole new state, reading on behind a malformed piece where a parameter says |
| `Lexing.Lexer.Tokenize` | crates/luck_lexer/src/lexer.rs:78-105 | the whole pass over the reader's state; it ends on every input, wherever reading resumes behind malformed pieces |
| `Lexing.Lexer.MakeToken` | crates/luck_lexer/src/lexer.rs:235-253 | waiting comments become leading comments of the token; their kinds are left out |
| `Lexing.Lexer.LexComment` | crates/luck_lexer/src/lexer.rs:272-313 | a comment waits for the next token or trails the last one; its kind is left out |
| `LexedTokens.LexemesAreTokens` | crates/luck_lexer/src/lexer.rs:78-105 | the reader records no error if and only if the text has tokens in the sense of the round trip, and then its lexemes are those tokens, overlapping spans of plain backtick strings included |
| `Search.FindMatch` | crates/luck_lexer/src/search.rs:47-71 | the offset of the first marked byte: the batches skip none |
| `Literals.DecodeInvertsQuote` | crates/luck_ast/src/synth.rs:1899-1938 | on all byte sequences, decoding inverts each of the three quoting writers |
| `Literals.QuoteIsOneToken` | crates/luck_bundler/src/emitter.rs:372-390 | no delimiter closes early and no escape runs on: the literal is one string token in every dialect |
| `Literals.Quote` | crates/luck_ast/src/synth.rs:1899-1938 | the writers' loops |
| `Literals.InterpTextIsSegment` | crates/luck_ast/src/synth.rs:1940-1957 | the escaped text of an interpolated string is one segment |
| `Literals.InterpTextDecodes` | crates/luck_ast/src/synth.rs:1937-1957 | and decodes to the bytes it was made from |
| `Literals.Utf8Reads` | crates/luck_formatter/src/ast_equiv.rs:1026-1105 | a code point escape stands for the bytes that read as it in UTF-8 |
| `Literals.LettersDecode` | crates/luck_formatter/src/ast_equiv.rs:1026-1105 | each letter escape stands for the manual's byte |
| `Literals.LongString` | crates/luck_ast/src/synth.rs:598-630 | the level is the smallest at which the closer does not occur early; a carriage return or NUL falls back to a quoted literal |
| `Literals.CollidesIffClosedEarly` | crates/luck_ast/src/synth.rs:611-623 | a level is rejected if and only if the first closer in content and closer is not the closer itself |
| `Literals.LongStringReads` | crates/luck_formatter/src/ast_equiv.rs:1107-1122 | at an accepted level the literal is one token and decodes to the content |
| `Quotes.NormalizeKeepsMeaning` | crates/luck_formatter/src/quotes.rs:3-62 | normalizing keeps a closed literal closed and what it decodes to the same, failing escapes included |
| `Quotes.NormalizeKeepsToken` | crates/luck_formatter/src/quotes.rs:3-62 | in every dialect: a string token is normalized to a string token with the same decoded bytes, or as undecodable as it was; short tokens are always closed |
| `Quotes.NormalizeIsIdempotent` | crates/luck_formatter/src/quotes.rs:3-81 | a second pass changes nothing, in every style |
| `Quotes.SwapKeepsCounts` | crates/luck_formatter/src/quotes.rs:64-81 | quote characters are counted the same under either delimiter |
| `Quotes.NormalizeChooses` | crates/luck_formatter/src/quotes.rs:57-81 | a literal gets the delimiter its style asks for, in the automatic styles by which quote its contents have fewer of, unless that takes more backslashes than it gives back; so no literal ever gets more |
| `Quotes.NormalizeQuote` | crates/luck_formatter/src/quotes.rs:3-62 | the character walk computes the normal form |
| `Comments.RunsKeepLedger` | crates/luck_formatter/src/comments.rs:329-784 | over every run of operations the comments before the cursor are exactly those placed, in source order along the stream: each in a text of its own, or inside one text taken from the source, as it stands or re-anchored, and there unchanged unless that text was split inside it; which it never is where the lexer finds a statement's comments in its own text again |
| `Comments.EveryCommentPlaced` | crates/luck_formatter/src/comments.rs:753-784 | a whole format run ends with every comment placed in this sense |
| `Comments.EntriesAreOrdered` | crates/luck_formatter/src/comments.rs:110-130 | for every file: the entries made from the lexer's comments are in order, apart, hold their own stretch of the source, and are attached to the first token behind them or the last before them; one that goes to the end of its line ends there |
| `Comments.EmissionAppendsExactly` | crates/luck_formatter/src/comments.rs:355-784 | each emission appends exactly the texts of the comments its cursor passes |
| `CommentLines.EmissionSwallowsNothing` | crates/luck_formatter/src/comments.rs:347-784 | in the elements of every emission, a comment that goes to the end of its line is followed by a line break or the end of its suffix before any other text, and no two share the end of a line |
| `CommentLines.EmissionIsLaid` | crates/luck_formatter/src/comments.rs:347-784 | where the comments of each emission stand: line breaks behind those before a statement, in front of those on lines of their own, exactly one space in front of an inline or suffix comment, and nothing else pushed |
| `CommentRuns.EmissionTakes` | crates/luck_formatter/src/comments.rs:347-676 | which comments each emission takes: all from the cursor on that belong there, up to the first that does not |
| `CommentRuns.AllMoveOrNone` | crates/luck_formatter/src/comments.rs:421-466 | stalled and dangling comments move all together, if nothing but white space and `;` is in the way of any, and otherwise not at all |
| `Comments.RestoreRewinds` | crates/luck_formatter/src/comments.rs:329-345 | restoring a checkpoint undoes stream, cursor and record alike |
| `Comments.VerbatimOrLeavesPending` | crates/luck_formatter/src/format_block.rs:248-298 | a comment of the statement is left pending if and only if the statement went out verbatim while an earlier comment was pending |
| `VerbatimText.VerbatimKeepsText` | crates/luck_formatter/src/format_block.rs:248-338 | a statement that opted out goes out as it stands, in one text; one that falls back goes out line by line, with nothing changed but white space |
| `CommentFormatting.Formatter.EmitLeadingComments` | crates/luck_formatter/src/comments.rs:378-409 | the loop over leading comments leaves the state the operation specifies; the ignore directive it also reports is left out |
| `CommentFormatting.Formatter.EmitStalledComments` | crates/luck_formatter/src/comments.rs:421-466 | comments stalled before an anchor move up only where nothing but white space lies between |
| `CommentFormatting.Formatter.EmitTrailingComments` | crates/luck_formatter/src/comments.rs:479-560 | inner comments first, then those behind the statement on its line; the flag it also reports is left out |
| `CommentFormatting.Formatter.EmitOwnLineCommentsIn` | crates/luck_formatter/src/comments.rs:571-592 | comments of a range on lines of their own |
| `CommentFormatting.Formatter.EmitInlineCommentsAfter` | crates/luck_formatter/src/comments.rs:603-632 | single-line block comments directly behind a position |
| `CommentFormatting.Formatter.EmitSameLineCommentsAfter` | crates/luck_formatter/src/comments.rs:642-676 | comments on the rest of a line as suffixes |
| `CommentFormatting.Formatter.EmitDanglingComments` | crates/luck_formatter/src/comments.rs:723-745 | the dangling run before the end of a block, for parsed sources |
| `CommentFormatting.Formatter.MarkPrintedRange` | crates/luck_formatter/src/comments.rs:266-282 | the cursor passes comments that a verbatim slice holds |
| `CommentFormatting.Formatter.Restore` | crates/luck_formatter/src/ir.rs:227-230 | stream and cursor rewound together |
| `CommentFormatting.Formatter.EmitVerbatimOr` | crates/luck_formatter/src/format_block.rs:248-298 | opt-out, speculation and the verbatim fallback with its lines computed from the source |
| `Reanchoring.SeparableNewlines` | crates/luck_formatter/src/format_block.rs:366-386 | the two-cursor pass finds exactly the newlines no span covers, overlapping spans included |
| `Reanchoring.FindBreaks` | crates/luck_formatter/src/format_block.rs:348-386 | the text lexed, the spans of its tokens and comments sorted, and the newlines between them found; none where the lexer records an error |
| `Reanchoring.BreaksAre` | crates/luck_formatter/src/format_block.rs:348-386 | a text without errors is split at exactly the newlines that no token and no comment holds |
| `Reanchoring.ReindentedLines` | crates/luck_formatter/src/format_block.rs:309-338 | the lines of the fallback from the source alone: split at the newlines between tokens, the statement's own indentation taken off all but the first |
| `Reanchoring.TokenTextKept` | crates/luck_formatter/src/format_block.rs:300-308 | every token and comment the lexer finds in the statement comes out as written, inside one line |
| `Reanchoring.OnlyWhiteSpaceMoves` | crates/luck_formatter/src/format_block.rs:300-338 | re-anchoring changes white space only |
| `Reanchoring.BaseIndentIs` | crates/luck_formatter/src/format_block.rs:309-322 | the base indent is what stands in front of the statement on its line, if that is blank, and otherwise nothing |
| `Reanchoring.LineIsCut` | crates/luck_formatter/src/format_block.rs:324-338 | a later line loses the base indent exactly where it starts with it, any line its carriage return, and nothing else |
| `Loader.LoaderIsMemo` | crates/luck_bundler/src/emitter.rs:398-425 | in every run over arbitrary re-entrant modules no chunk starts twice and all successful requires of a slot return one value, not nil |
| `Loader.SlotsMoveForward` | crates/luck_bundler/src/emitter.rs:398-425 | a slot only moves from absent to loading to one final value |
| `Loader.StartsOnce` | crates/luck_bundler/src/emitter.rs:398-425 | a chunk starts exactly when its slot leaves absence |
| `Loader.ReturnsWhatTheSlotHolds` | crates/luck_bundler/src/emitter.rs:398-425 | whatever a require returned is what the slot holds in the end |
| `Loader.ReentryRaises` | crates/luck_bundler/src/emitter.rs:398-425 | in every run a require of a slot raises if and only if its chunk was started before and no require of it has returned yet, returns if and only if one has, and starts the chunk if and only if nothing did |
| `Loader.ValueIsTheChunks` | crates/luck_bundler/src/emitter.rs:398-425 | whatever a require returns, a chunk of that slot has returned it, alone, then or before |
| `Loader.ChunkDecides` | crates/luck_bundler/src/emitter.rs:398-425 | a chunk that ends gives the call that started it the one value it returned, and raises where it returned nil, none, several, or raised itself |
| `Loader.FailureIsFinal` | crates/luck_bundler/src/emitter.rs:398-425 | a slot whose chunk ended without a value is never tried again |
| `LineMap.SourceLineLands` | crates/luck_bundler/src/emitter.rs:84-147 | a source line that no rewrite of its module touches appears unchanged in the bundle at the line the map says, moved by the attributed `export function` heads before it and by no other rewrite |
| `LineMap.SourceLinesRunAlong` | crates/luck_bundler/src/emitter.rs:537-541 | where every such head has exactly one newline, source and bundle lines run one to one |
| `LineMap.OnlyHeadsShift` | crates/luck_bundler/src/emitter.rs:551-624 | rewritten calls, retargeted callees and `export` words keep their newlines: what lines move by is what the attributed heads add and take away |
| `Bundle.RangesAreDisjoint` | crates/luck_bundler/src/emitter.rs:84-147 | line-map ranges rise and never overlap, for every sequence of pushes |
| `Bundle.BodyLinesLand` | crates/luck_bundler/src/emitter.rs:120-147 | line `k` of a body is the bundle's line `start + k` |
| `Bundle.MapEntryOf` | crates/luck_bundler/src/emitter.rs:120-147 | the map holds the entry of each body with its first and last line |
| `Bundle.Writer.EmitBody` | crates/luck_bundler/src/emitter.rs:120-147 | pushing a body keeps output, next line and map in step |
| `Splicing.UntouchedLinesMove` | crates/luck_bundler/src/emitter.rs:632-650 | splicing leaves every line that no replacement touches as it was, moved by what the replacements before it add and take away |
| `Splicing.UntouchedLinesStay` | crates/luck_bundler/src/emitter.rs:537-541 | replacements that keep their newline counts leave every untouched line where it was |
| `Splicing.Splice` | crates/luck_bundler/src/emitter.rs:632-650 | the cursor loop over the sorted replacements |
| `Splicing.ReplacementLands` | crates/luck_bundler/src/emitter.rs:632-650 | the text of each replacement stands where its range was, moved by what the ones before it add and take away |
| `Splicing.SourceLands` | crates/luck_bundler/src/emitter.rs:632-650 | every other byte of the source is kept, moved the same way, and there is nothing else |
| `Splicing.CallKeepsNewlines` | crates/luck_bundler/src/emitter.rs:169-172 | the text of a rewritten require has as many newlines as it is given |
| `Splicing.QuotedNameHasNoNewline` | crates/luck_bundler/src/emitter.rs:372-390 | a quoted module name never breaks a line |
| `Splicing.RewriteKeepsIff` | crates/luck_bundler/src/emitter.rs:551-624 | every rewrite keeps the newline count of its range, for any slot, name and prefix, but for an attributed `export function` head, which keeps it if and only if its range has exactly one newline |
| `Splicing.AttributedExportMovesLines` | crates/luck_bundler/src/emitter.rs:602-624 | behind an attributed head whose range has `m` newlines, line `k` becomes line `k + 1 - m`, its text unchanged; lines stay if and only if `m` is one |
| `LoaderCalls.CallPasses` | crates/luck_bundler/src/emitter.rs:169-172 | the text of a rewritten require lexes and parses as one call of the loader with the slot or the name as its one argument, read back from it in every dialect |
| `LoaderCalls.CallLexes` | crates/luck_bundler/src/emitter.rs:169-172 | the call is those four tokens, whatever follows |
| `LoaderCalls.CallParses` | crates/luck_bundler/src/emitter.rs:169-172 | and one call expression |
| `LoaderCalls.DecimalReads` | crates/luck_bundler/src/emitter.rs:169-172 | a slot number is written in digits whose value it is |
| `LoaderCalls.RewriteLexes` | crates/luck_bundler/src/emitter.rs:551-624 | every rewrite of a module body lexes to the tokens it stands for |
| `LoaderCalls.LinkByFile` | crates/luck_bundler/src/emitter.rs:149-221 | Luau, all together: the text of every rewritten require passes a slot that was filled with the function of the very file it resolves to |
| `LoaderCalls.LinkByName` | crates/luck_bundler/src/emitter.rs:222-342 | by name, all together: it passes a name that was given the function of the file of the name's first dependency |
| `Discovery.GraphBuilder.Discover` | crates/luck_bundler/src/graph.rs:124-138 | discovery ends, finds only what is reachable, and reports nothing if and only if every module reachable from the entry is readable, has no errors of its own and has every require resolved, within the module limit |
| `Discovery.GraphBuilder.ProcessModule` | crates/luck_bundler/src/graph.rs:140-224 | one module is read and numbered, exactly its own errors and its unresolved requires are reported, and everything it needs is known or queued |
| `Discovery.GraphBuilder.Finish` | crates/luck_bundler/src/graph.rs:226-249 | the entry has a number if and only if nothing was reported, and then the modules found are, in every order of them, a graph the slot tables can be built from |
| `Discovery.BuildGraph` | crates/luck_bundler/src/graph.rs:27-60 | a graph comes if and only if everything reachable from the entry is so; it then holds exactly what is reachable, each module at one number, whatever order the sort gives |
| `Discovery.AssignSlots` | crates/luck_bundler/src/emitter.rs:149-171 | Luau: every dependency of every module has a slot, and slots are distinct |
| `Discovery.Registrations` | crates/luck_bundler/src/emitter.rs:176-221 | every slot is filled, before the entry function is called, with the function of the file it was assigned to |
| `Discovery.RegisterByFile` | crates/luck_bundler/src/emitter.rs:149-221 | Luau: every rewritten require of every module names a slot filled with the function of the very file it resolves to |
| `Discovery.NameSlots` | crates/luck_bundler/src/emitter.rs:222-250 | by name: the table holds each require string with the file of its first occurrence |
| `Discovery.NamesCoverDependencies` | crates/luck_bundler/src/emitter.rs:228-240 | the lookup table has every dependency's name; it gives each its own file if and only if no name stands for two files |
| `Discovery.GroupNames` | crates/luck_bundler/src/emitter.rs:241-244 | each require string goes to the list of the one module that its first occurrence resolves to |
| `Discovery.RegisterNames` | crates/luck_bundler/src/emitter.rs:275-342 | a module's first string gets its function, the others as aliases, the entry's last: every listed string ends with the function of its own module |
| `Discovery.RegisterByName` | crates/luck_bundler/src/emitter.rs:222-342 | by name, all together: every rewritten require of every module names a string that was given a function before the entry is called, that of the file of the name's first dependency; each require's own file if and only if no name stands for two files |
| `Discovery.ChoosePrefix` | crates/luck_bundler/src/emitter.rs:356-367 | the first candidate that occurs in no module source; found within a bound from the longest source |
| `Discovery.LateCandidateIsFree` | crates/luck_bundler/src/emitter.rs:356-367 | a candidate longer than every source occurs in none |
| `RelativePaths.RelativeLeadsBack` | crates/luck_bundler/src/graph.rs:398-433 | where anything is shared with the root, the shipped path read from the root is the module again |
| `RelativePaths.SamePathIff` | crates/luck_bundler/src/graph.rs:398-433 | when two modules are shipped under one path |
| `RelativePaths.RootStaysOut` | crates/luck_bundler/src/graph.rs:405-409 | no name on the root's side appears in a shipped path |
| `Bus.AgreesWithReference` | crates/luck_linter/src/bus.rs:62-144 | if rules keep to the types they declare, bucketed and chunked dispatch gives what the every-node reference gives, rule by rule and in order, for any table and chunk length |
| `Bus.Run` | crates/luck_linter/src/bus.rs:62-121 | whole or chunked, each rule collects what it reports on the nodes it subscribed to, in node order |
| `Bus.RunChunk` | crates/luck_linter/src/bus.rs:86-121 | one chunk over buckets filled afresh |
| `Bus.RunEveryNode` | crates/luck_linter/src/bus.rs:133-144 | the reference: every rule on every node |
| `Bus.DeclaredIsEverything` | crates/luck_linter/src/bus.rs:62-70 | for rules that keep to their declaration the subscribed nodes are all that matter |
| `Bus.RuleBuckets.Clear` | crates/luck_linter/src/bus.rs:27-34 | a run starts from empty buckets whatever the last one left |

## Left out

Layout:

- DocumentRuns.FlatCommitmentsAreSound: says nothing of width where an indent tag comes in flat content while
  the line's indentation is pending; `FlatLimits.LateIndentIsNotMeasured` says how far such a line overruns.
- Display width is a sum over characters, given as a parameter; where a width in columns is stated, a space and
  a tab take one, as they do in the code's own model.
- Where the code would panic or run past the end of an unbalanced stream, the model stops.
- Group ids out of range of the mode table do not occur: the table is a map.
- The formatter's layouts for statements, tables and types, `sort_requires.rs` and the comparison half of
  `ast_equiv.rs`; configuration, command line and file access.

Print, lex, parse:

- Programs.PrintedReads: asks that every token of the tree has a spelling in the dialect, which a tree built by
  hand may fail; `Programs.SourceReprints` shows that every parsed tree meets it.
- Type annotations on bindings and parameters, generics and attributes of functions, explicit type
  instantiation, type declarations, `export` and `const`, global declarations and named varargs of Lua 5.5:
  the model's parser fails on them.
- TypeRoundTrip.TypeReads: has no table, function, `typeof`, pack, singleton and qualified types, no leading
  `|` or `&`, no trailing separator in type arguments. A union or intersection of one member is its member.
- The parser's nesting limit, and its checks of scope and context: varargs, loops around `break`, read-only
  names, goto targets, and the newline check before `(` of Lua 5.1 and Luau, which compact text never meets.
- Whether a numeral is an integer or a float; numerals carry their text.
- The constructors for statements, declarations and numbers; identifier sanitizing; span allocation.

Lexer:

- Lexing.Lexer.NextToken: where reading resumes behind a malformed piece is a parameter; the kinds of errors are
  not told apart.
- Lexing.Lexer.Tokenize: the same.
- Lexing.Lexer.MakeToken: comments carry no newline flags, and no kind: `Comments.KindOf` tells it from the text.
- Lexing.Lexer.LexComment: the same.

Comments:

- Synthetic comments and their store; the leading and trailing edges of blank lines.
- Comments.RunsKeepLedger: does not prove that a statement cut out of its file lexes as it does inside it, which
  depends on the grammar; a comment on one line is never split.
- CommentFormatting.Formatter.EmitLeadingComments: does not report whether an ignore directive was among them.
- CommentFormatting.Formatter.EmitTrailingComments: does not report whether a comment went on a line of its own.
- CommentFormatting.Formatter.EmitDanglingComments: has no synthetic comments.

Bundler:

- Parsing, file access, path resolution and the topological order are parameters: a module is unreadable, or has
  some list of requires; the order is any permutation.
- The texts of the loaders of the other dialects, hoisted hot comments, the verbatim copy of a single module,
  and which calls are static requires.
- Overlapping replacements do not occur: `Splicing.Splice` asks for ranges in order and apart.
- RelativePaths.RelativeLeadsBack: is about paths already normalized and split at `/`.

Linter:

- The rules and their hooks: a table of reports per rule and node. Chunks run one after the other.
