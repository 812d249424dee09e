# A verified model of a tiny recursive-descent front end

The program is a front end for a language of arithmetic statements:
`(expression ';')*`, where expressions are built from `+`, `*`, parentheses
and numbers or identifiers. The model has three layers:

- **Token kinds.** These are the seven codes `EOI = 0` to `NUM_OR_ID = 6`,
  modelled as the `Tokens.Kind` datatype with its code function.
- **The lexer** (`lex`, `match`, `advance`). It is a class,
  `Lexer.Session`, whose fields are the globals of the C file:
  - `yytext` and `yyleng`, as offsets into the buffer;
  - `yylineno`;
  - `lookaheadToken`, where -1 means empty;
  - the static `input_buffer`;
  - the lines `fgets` still has to deliver;
  - the diagnostics written to standard error.

  `lex()` is an imperative method. Its two inner loops are the methods
  `Refill` and `ScanBuffer`. It is proved against `LexSpec.NextToken`, a
  pure function for one call. The token stream the parser sees is
  `LexSpec.Stream`, which is proved equal to the tokenisation of the text
  still pending. The input text is cut into loads the way `fgets` cuts it
  into a 128-byte buffer: up to and including a newline, and never more
  than 127 characters.
- **The recogniser.** `statements`, `expression`, `term`, `factor` and the
  panic-mode recovery `legal_lookahead` are methods over a session, and
  `parse` becomes `Parser.Parse`. Each method is proved to do exactly what a
  reference function in `Recognizer` describes. That description covers:
  - how many tokens it consumes;
  - which problems it reports;
  - whether it returns at all.

  `legal_lookahead` fills a real array of `MAXFIRST` slots.

The recogniser is modelled **as written**, with its two defects. A
separate, clearly labelled **corrected** variant (`Variant.Corrected`) runs
the same methods, with the kind list filled as intended and the guard of
`term` negated. Only the corrected variant is proved to accept the grammar
without a diagnostic (`Grammar.ProgramAccepted`).

The code as written does not accept the grammar cleanly:
- on a statement that starts with a number it never returns
  (`Behaviour.StatementsStuck`);
- on an expression that starts with `(` it begins with a Syntax Error,
  unless the uninitialised slot `lookaheads[1]` happens to hold L_PAREN
  (`Behaviour.LParenRejected`).

Two places where the header's comments and the code disagree follow the
code:
- `match` is documented as returning a token code. The code returns the
  0/1 result of the comparison, so `Session.Match` returns a `bool`.
- The header comments describe `statements` as `expression SEMI
  statements`. The code loops until EOI and inserts missing semicolons.

Two quantities stand in for behaviour that may not terminate:
- `fuel` bounds the tokens one `legal_lookahead` call may skip;
- `count` bounds the rounds of `statements`.

A run that would need more becomes `done == false`. Nothing else in the
program needs a bound: `expression`, `term` and `factor` terminate because
the stream shrinks.

## Model

| member | source | states |
|---|---|---|
| Tokens.Code | small_compiler/c/lex.h:1-7 | every kind has a code in 0..6, and the code is 0 exactly for EOI, which is what makes 0 usable as the terminator of legal_lookahead's argument list |
| Tokens.FromCode | small_compiler/c/lex.h:1-7 | an integer stands for a kind exactly when it lies in 0..6 |
| Tokens.DecodeEncode | small_compiler/c/lex.h:1-7 | decoding the code of a kind gives the kind back |
| Tokens.EncodeDecode | small_compiler/c/lex.h:1-7 | encoding the kind of a code in 0..6 gives the code back |
| Tokens.CodeInjective | small_compiler/c/lex.h:1-7 | distinct kinds have distinct codes |
| Diagnostics.NatToString | two_small_compilers/c/parser.c:23 | the `%d` rendering of a line number is a non-empty string of decimal digits |
| Diagnostics.NatToStringValue | two_small_compilers/c/parser.c:23 | those digits denote the line number, read left to right, with no leading zero |
| Diagnostics.Message | two_small_compilers/c/lex.c:52-54 | the text of each diagnostic line: `Ignoring illegal input <c>` for the lexer, and for the parser (parser.c:23, 72, 74, 116) the line number, `: ` and the message |
| Diagnostics.MessageLine | two_small_compilers/c/parser.c:116 | a parser message can be read back: it starts with the decimal digits of its line number, then `:`; a lexer warning starts with no digit and ends with its character between `<` and `>` |
| Diagnostics.Warnings | two_small_compilers/c/lex.c:50-54 | one `Ignoring illegal input` line per illegal character, in order, with no line number |
| Diagnostics.Reported | two_small_compilers/c/lex.c:52-54 | the parser's own messages are the diagnostics without the lexer's warnings, in order; a log of warnings only has none |
| Diagnostics.ReportedWarnings | two_small_compilers/c/lex.c:52-54 | appending lexer warnings leaves the parser's messages unchanged |
| Diagnostics.ReportedMessage | two_small_compilers/c/parser.c:23 | appending a parser message appends it to the parser's messages |
| Diagnostics.Problems | two_small_compilers/c/parser.c:23 | the problems of a log are its parser messages, one for one and in order, without their line numbers |
| Diagnostics.ProblemsMessage | two_small_compilers/c/parser.c:116 | printing one parser message appends exactly its problem |
| LexSpec.Single | two_small_compilers/c/lex.c:39-44 | `$ ; + * ( )` are the one-character tokens, `$` giving EOI; none of them is alphanumeric or space, and none gives NUM_OR_ID |
| LexSpec.IsAlnum | two_small_compilers/c/lex.c:51 | isalnum in the C locale: the ASCII letters and digits |
| LexSpec.IsSpace | two_small_compilers/c/lex.c:30 | isspace in the C locale: space, `\t`, `\n`, `\v`, `\f` and `\r` |
| LexSpec.IsBlank | two_small_compilers/c/lex.c:46-48 | the three characters the switch passes over without a word: `\n`, `\t` and space |
| LexSpec.RunEnd | two_small_compilers/c/lex.c:56 | the end of a maximal run of alphanumeric characters: every character before it is alnum and the one at it is not |
| LexSpec.SkipSpace | two_small_compilers/c/lex.c:30 | the end of a maximal run of isspace characters |
| LexSpec.LoadEnd | two_small_compilers/c/lex.c:23 | one fgets call takes at least one and at most 127 characters, and stops after a newline or at the buffer limit |
| LexSpec.LoadsConcat | two_small_compilers/c/lex.c:23 | the loads fgets delivers, joined, are the whole input text |
| LexSpec.LoadsGood | two_small_compilers/c/lex.c:5 | every load holds 1 to 127 characters, no NUL, and a newline only at its end |
| LexSpec.Loads | two_small_compilers/c/lex.c:23 | the successive results of `fgets(input_buffer, 128, stdin)` on the input: each load runs up to and including a newline, or to 127 characters, or to the end (its meaning proved in LoadsConcat and LoadsGood) |
| LexSpec.ScanFrom | two_small_compilers/c/lex.c:33-63 | the tokens, with their lexemes, and the illegal characters of a buffer from a position on, in the order the switch meets them |
| LexSpec.Stream | two_small_compilers/c/lex.c:13-65 | the token kinds successive lex() calls return from a buffer position and the loads still to come, with trailing EOIs removed (proved equal to the tokenisation of the pending text in StreamScan, and to successive calls in NextTokenStream) |
| LexSpec.Tokenize | two_small_compilers/c/lex.c:7-17 | the token kinds lex() returns on an input from its initial state, where the cursor `yytext + yyleng` is at an empty string |
| LexSpec.NextToken | two_small_compilers/c/lex.c:13-65 | one lex() call reads no more loads than exist, reads them all when it returns EOI for want of input, and otherwise leaves a lexeme of length at least 1 inside the buffer |
| LexSpec.LexStep | two_small_compilers/c/lex.c:13-65 | the lexer state one lex() call leaves: the loads it read, the buffer, yytext and yyleng where the call set them, yylineno counting the loads, the warnings it wrote (its properties proved in LexStepState and LexStepStream) |
| LexSpec.NextTokenFollowsScan | two_small_compilers/c/lex.c:17-63 | what one lex() call passes over is exactly the illegal characters it warns about and then its token, and the pending text afterwards is the rest: lexemes and skipped characters cover the input in order, without overlap |
| LexSpec.LexemeShape | two_small_compilers/c/lex.c:33-58 | a NUM_OR_ID lexeme is a maximal alnum run of length yyleng starting at yytext; any other token has yyleng 1 and is the single character at yytext |
| LexSpec.StreamScan | two_small_compilers/c/lex.c:13-65 | the tokens lex() will return from a state are the token kinds of the pending text, illegal characters dropped and trailing EOIs removed (after the stream lex() returns EOI forever; a `$` gives an EOI and the tokens after it stay in the stream) |
| LexSpec.NextTokenStream | two_small_compilers/c/lex.c:13-65 | the upcoming stream is the token one call returns followed by the stream from where that call leaves off |
| LexSpec.LexStepState | two_small_compilers/c/lex.c:23-28 | one lex() call keeps the state valid; yylineno grows by exactly the number of successful fgets calls, so it never decreases; diagnostics are only appended, and only with warnings |
| LexSpec.LexStepStream | two_small_compilers/c/lex.c:13-65 | the upcoming stream of a state is the token of one lex() call followed by the upcoming stream of the state it leaves |
| LexSpec.TrackExhausted | two_small_compilers/c/lex.c:21-26 | when fgets fails at the buffer's NUL, the call returns EOI and leaves the buffer empty |
| LexSpec.TrackReread | two_small_compilers/c/lex.c:21-30 | at the buffer's NUL a successful fgets loads the next line, increments yylineno and skips its leading spaces |
| LexSpec.TrackSingle | two_small_compilers/c/lex.c:34-44 | at a one-character token the call returns its kind with yytext at that character and yyleng 1 |
| LexSpec.TrackBlank | two_small_compilers/c/lex.c:46-48 | a space, tab or newline in the buffer is passed over without a token |
| LexSpec.TrackIllegal | two_small_compilers/c/lex.c:50-54 | any other non-alnum character appends one warning and is passed over |
| LexSpec.TrackWord | two_small_compilers/c/lex.c:55-58 | an alnum character starts a NUM_OR_ID lexeme that runs to the end of its alnum run |
| Lexer.Session.constructor | two_small_compilers/c/lex.c:7-11 | before the first call yytext is the empty string, yyleng and yylineno are 0, the cell is empty and nothing has been read |
| Lexer.Session.Lex | two_small_compilers/c/lex.c:13-65 | lex() returns the token NextToken gives for the state it starts in, and leaves the state one call of lex() leaves; the cell is untouched |
| Lexer.Session.Refill | two_small_compilers/c/lex.c:20-31 | the refill loop either returns EOI with the buffer emptied, or leaves the cursor on a character of a loaded buffer, still on course for the call's outcome |
| Lexer.Session.Reread | two_small_compilers/c/lex.c:20-30 | a round of the refill loop loads the next line, counts it in yylineno and puts the cursor past its leading isspace characters, still on course for the call's outcome |
| Lexer.Session.SkipLeading | two_small_compilers/c/lex.c:30 | the cursor stops at the first character of the load that is not isspace |
| Lexer.Session.SkipWord | two_small_compilers/c/lex.c:56 | the cursor stops at the first character after the lexeme that is not isalnum |
| Lexer.Session.ScanBuffer | two_small_compilers/c/lex.c:33-63 | the character loop either finds the call's token and leaves its final state, or reaches the NUL still on course for the call's outcome |
| Lexer.Session.Match | two_small_compilers/c/lex.c:67-70 | match(token) tests the lookahead against token without consuming it; it calls lex() only when the cell is empty and otherwise changes nothing, so repeated calls are idempotent |
| Lexer.Session.Advance | two_small_compilers/c/lex.c:72-74 | advance() always refills the cell with the next lex() result; the stream loses the token that was in the cell, and the next match tests a new token |
| Lexer.Session.Report | two_small_compilers/c/parser.c:23 | a parser message is appended to the log, which appends exactly its problem; the lexer state is unchanged |
| Recognizer.ScannedShifted | two_small_compilers/c/parser.c:101-105 | the fill loop as written stores first_arg at index 0, leaves index 1 unwritten, shifts every later kind one place up, and never scans the last one |
| Recognizer.CallSiteKinds | two_small_compilers/c/parser.c:101-108 | for the callers' (NUM_OR_ID, L_PAREN, 0) the scanned kinds are NUM_OR_ID and the stale slot, so `(` is accepted exactly when the stale slot happens to hold L_PAREN |
| Recognizer.CorrectedKinds | two_small_compilers/c/parser.c:101-105 | corrected, the scanned kinds are exactly NUM_OR_ID and L_PAREN |
| Recognizer.ScannedKinds | two_small_compilers/c/parser.c:101-108 | as written, the kinds compared are lookaheads[0..p) after the fill loop: first_arg, the never-written slot 1, then every further kind but the last |
| Recognizer.IntendedKinds | two_small_compilers/c/parser.c:101-105 | corrected, the kinds compared are first_arg and then every kind passed, in order |
| Recognizer.Recover | two_small_compilers/c/parser.c:107-121 | the recovery loop, when it returns within the fuel, skipped at most that many tokens |
| Recognizer.RecoverSound | two_small_compilers/c/parser.c:107-121 | legal_lookahead never consumes a `;`: it returns 0 at a `;` or 1 at a scanned kind, and every token it skipped was neither |
| Recognizer.RecoverAtOnce | two_small_compilers/c/parser.c:107-113 | on a scanned kind legal_lookahead returns 1 at once, skipping nothing |
| Recognizer.RecoverDiverges | two_small_compilers/c/parser.c:107-121 | with no `;` and no scanned kind ahead, EOI not among the kinds, legal_lookahead never returns: advance keeps yielding EOI |
| Recognizer.RecoverSkip | two_small_compilers/c/parser.c:115-120 | a token that is neither `;` nor a scanned kind is skipped and recovery continues on the rest |
| Recognizer.RecoverProblems | two_small_compilers/c/parser.c:115-118 | one call reports at most one Syntax Error |
| Recognizer.OperandCases | two_small_compilers/c/parser.c:66-75 | factor's if-chain: NUM_OR_ID is consumed, `(` starts a parenthesised expression, anything else reports that an operand is expected |
| Recognizer.ExpressionRun | two_small_compilers/c/parser.c:32-41 | expression(): only legal_lookahead's effect when it returns 0 or does not return; otherwise its effect, then a term, then the `+` loop on what is left |
| Recognizer.PlusLoop | two_small_compilers/c/parser.c:37-40 | while the lookahead is `+`: consume it, then a term; it stops at the first token that is not `+` (Behaviour.PlusLoopStops) |
| Recognizer.TermRun | two_small_compilers/c/parser.c:48-57 | term(): as written it stops after legal_lookahead when that returns 1, and runs factor and the `*` loop only when it returns 0 (the guard of line 49); corrected, the other way round |
| Recognizer.TimesLoop | two_small_compilers/c/parser.c:53-56 | while the lookahead is `*`: consume it, then a factor; it stops at the first token that is not `*` (Behaviour.TimesLoopStops) |
| Recognizer.FactorRun | two_small_compilers/c/parser.c:63-77 | factor(): only legal_lookahead's effect when it returns 0 or does not return; otherwise its effect, then the operand |
| Recognizer.OperandRun | two_small_compilers/c/parser.c:66-75 | the operand: NUM_OR_ID consumed, a parenthesised expression, or one report that an operand is expected (OperandCases) |
| Recognizer.GroupRun | two_small_compilers/c/parser.c:68-72 | the `(` consumed, an expression, then the close step on what the expression left (Behaviour.GroupShape) |
| Recognizer.CloseRun | two_small_compilers/c/parser.c:71-72 | the `)` consumed, or one report of Mismatched ')' with nothing consumed |
| Recognizer.StatementsRun | two_small_compilers/c/parser.c:19-25 | statements(): at EOI it returns at once; otherwise a statement, then statements() on what is left, within a bound on the rounds (Behaviour.StatementsEnd, Behaviour.StatementsStuck, Grammar.ProgramAccepted) |
| Recognizer.StatementRun | two_small_compilers/c/parser.c:21-23 | one round of statements(): an expression, then the end step on what it left (Behaviour.StatementShape) |
| Recognizer.EndRun | two_small_compilers/c/parser.c:22-23 | the `;` consumed, or one report of the missing `;` with nothing consumed |
| Parser.FillLookaheads | two_small_compilers/c/parser.c:101-105 | the fill loop run on a real MAXFIRST array yields as lookaheads[0..p) exactly the shifted list ScannedKinds, with the stale slot in place 1 |
| Parser.FillLookaheadsFixed | two_small_compilers/c/parser.c:101-105 | the fill loop with the intended post-increment stores every kind passed, in order |
| Parser.MatchAny | two_small_compilers/c/parser.c:108-113 | the scan loop returns 1 exactly when the lookahead's code is among the stored kinds, changing nothing |
| Parser.SkipToLegal | two_small_compilers/c/parser.c:107-121 | the recovery loop returns what Recover describes, consumes exactly the tokens it skipped and reports one Syntax Error exactly when it skipped any |
| Parser.SkipToken | two_small_compilers/c/parser.c:115-120 | a skip prints Syntax Error only the first time (error_printed) and then advances past the token |
| Parser.LegalLookahead | two_small_compilers/c/parser.c:87-127 | with first_arg 0 it consumes nothing, reports nothing and returns 1 exactly at EOI; otherwise it recovers against the kinds its fill loop stored, with the effect on stream and diagnostics that Recover describes |
| Parser.Expression | two_small_compilers/c/parser.c:32-41 | expression() consumes, reports and returns exactly as ExpressionRun says for the stream it starts on |
| Parser.PlusTerms | two_small_compilers/c/parser.c:37-40 | the `+` loop consumes, reports and returns exactly as PlusLoop says |
| Parser.Term | two_small_compilers/c/parser.c:48-57 | term() consumes, reports and returns exactly as TermRun says, including the inverted guard of the code as written |
| Parser.TimesFactors | two_small_compilers/c/parser.c:53-56 | the `*` loop consumes, reports and returns exactly as TimesLoop says |
| Parser.Factor | two_small_compilers/c/parser.c:63-76 | factor() consumes, reports and returns exactly as FactorRun says |
| Parser.Operand | two_small_compilers/c/parser.c:66-75 | factor's if-chain consumes, reports and returns exactly as OperandRun says |
| Parser.Group | two_small_compilers/c/parser.c:68-72 | a parenthesised factor consumes the `(`, its expression and then the `)`, or reports Mismatched ')' without consuming, exactly as GroupRun says |
| Parser.Statements | two_small_compilers/c/parser.c:19-25 | statements() consumes, reports and returns exactly as StatementsRun says |
| Parser.Statement | two_small_compilers/c/parser.c:21-23 | one round of statements() consumes, reports and returns exactly as StatementRun says |
| Parser.Close | two_small_compilers/c/parser.c:71-72 | at the end of a parenthesised factor, the `)` is consumed, or Mismatched ')' is reported and nothing is consumed, as CloseRun says |
| Parser.Parse | two_small_compilers/c/parser.c:11-13 | parsing a text reports exactly the parser problems StatementsRun gives for the token stream of that text, and returns exactly when it does |
| Behaviour.StatementsEnd | two_small_compilers/c/parser.c:19-25 | statements() returns only when the lookahead is EOI: the token after everything it consumed is EOI (a `$` or the end of the input) |
| Behaviour.StatementShape | two_small_compilers/c/parser.c:21-23 | each round either consumes exactly the `;` after its expression, or consumes nothing more and appends one missing-`;` report |
| Behaviour.PlusLoopStops | two_small_compilers/c/parser.c:37-40 | the `+` loop, when it returns, stops at a token that is not `+` |
| Behaviour.TimesLoopStops | two_small_compilers/c/parser.c:53-56 | the `*` loop, when it returns, stops at a token that is not `*` |
| Behaviour.OperandFirst | two_small_compilers/c/parser.c:101-105 | NUM_OR_ID is among the scanned kinds in both variants |
| Behaviour.FactorOnOperand | two_small_compilers/c/parser.c:63-67 | on NUM_OR_ID factor() consumes exactly that token and reports nothing, in both variants |
| Behaviour.GroupShape | two_small_compilers/c/parser.c:68-72 | a parenthesised factor consumes its `(` and expression, then the `)` with nothing reported, or nothing more with one Mismatched ')' |
| Behaviour.TermSkipsOnly | two_small_compilers/c/parser.c:48-57 | as written, term() consumes nothing but what legal_lookahead skips, so its `*` loop never runs |
| Behaviour.ExpressionOnOperand | two_small_compilers/c/parser.c:32-41 | as written, on NUM_OR_ID both term() and expression() consume nothing and report nothing |
| Behaviour.StatementsStuck | two_small_compilers/c/parser.c:19-25 | as written, a statement that starts with NUM_OR_ID never ends: any number of rounds consume nothing, do not return, and report that many missing `;` |
| Behaviour.LParenRejected | two_small_compilers/c/parser.c:101-105 | as written, unless the stale slot holds L_PAREN, an expression that starts with `(` skips it and begins with a Syntax Error |
| Grammar.ExprToks | two_small_compilers/c/parser.c:27-31 | the tokens of an expression of the grammar begin with NUM_OR_ID or `(` |
| Grammar.TrmToks | two_small_compilers/c/parser.c:43-47 | the tokens of a term begin with NUM_OR_ID or `(` |
| Grammar.FacToks | two_small_compilers/c/parser.c:59-62 | the tokens of a factor begin with NUM_OR_ID or `(` |
| Grammar.LegalAtFirst | two_small_compilers/c/parser.c:107-113 | corrected, legal_lookahead at NUM_OR_ID or `(` returns 1 at once, consuming and reporting nothing |
| Grammar.TermAtFirst | two_small_compilers/c/parser.c:48-57 | corrected, term() at the first token of a factor goes on to the factor and the `*` loop |
| Grammar.ExpressionAtFirst | two_small_compilers/c/parser.c:32-41 | corrected, expression() at the first token of a factor goes on to the term and the `+` loop |
| Grammar.FactorAtFirst | two_small_compilers/c/parser.c:63-66 | corrected, factor() at the first token of a factor goes on to its operand |
| Grammar.FacAccepted | two_small_compilers/c/parser.c:59-76 | corrected, factor() consumes exactly the tokens of any factor of the grammar and reports nothing |
| Grammar.TrmAccepted | two_small_compilers/c/parser.c:43-57 | corrected, the factor and `*` loop of term() consume exactly the tokens of any term, reporting nothing, when no `*` follows |
| Grammar.TermAccepted | two_small_compilers/c/parser.c:48-57 | corrected, term() consumes exactly the tokens of any term and reports nothing, when no `*` follows |
| Grammar.PlusAccepted | two_small_compilers/c/parser.c:27-41 | corrected, the term and `+` loop of expression() consume exactly the tokens of any expression, reporting nothing, when no `+` or `*` follows |
| Grammar.ExprAccepted | two_small_compilers/c/parser.c:32-41 | corrected, expression() consumes exactly the tokens of any expression and reports nothing, when no `+` or `*` follows |
| Grammar.StatementAccepted | two_small_compilers/c/parser.c:21-23 | corrected, one round of statements() consumes an expression and its `;` and reports nothing |
| Grammar.ProgramAccepted | two_small_compilers/c/parser.c:15-25 | corrected, statements() returns on every program of the grammar having consumed all its tokens and reported nothing |
| Findings.OneSemiTokens | two_small_compilers/c/lex.c:33-58 | the text `1;` lexes to NUM_OR_ID and `;` |
| Findings.OneSemiAsWritten | two_small_compilers/c/parser.c:49 | as written, on `1;` statements() does not return within any number of rounds and reports a missing `;` in each |
| Findings.OneSemiCorrected | two_small_compilers/c/parser.c:49 | corrected, on `1;` statements() returns having consumed both tokens and reported nothing |
| Findings.GroupSemiTokens | two_small_compilers/c/lex.c:33-58 | the text `(1);` lexes to `(`, NUM_OR_ID, `)` and `;` |
| Findings.GroupSemiAsWritten | two_small_compilers/c/parser.c:103-104 | as written, unless the stale slot holds L_PAREN, the first report on `(1);` is a Syntax Error |
| Findings.GroupSemiCorrected | two_small_compilers/c/parser.c:103-104 | corrected, `(1);` is accepted with nothing reported |

## Left out

- The `case EOF:` branch of lex() (lex.c:38) is treated as unreachable. Whether a character can equal -1 depends on the signedness of `char`, which the implementation decides. A byte 0xFF is therefore an illegal character here.
- When fgets fails, lex() returns EOI but leaves yytext and yyleng where they were (lex.c:17, 23-25). If the refill loop of that same call first read lines made only of isspace characters, and the last of them reaches past yytext + yyleng, the next call scans the isspace tail of that line, which lex.c:30 had passed over, and warns about each `\r`, `\v` or `\f` in it (lex.c:50-54). The model empties the buffer instead, so every call after the end of input returns EOI without a warning.
- Lexer.Session.constructor: requires an input without NUL characters. fgets copies a NUL like any other byte, but lex()'s `*current` tests (lex.c:20, 33) take the first NUL as the end of the buffer and never look at the rest of that load.
- Each Dafny `char` of the input stands for one byte. Multi-byte characters are not modelled: in C each byte of such a character gets its own "Ignoring illegal input" line (lex.c:52-54) and counts toward the 127 bytes of a load (lex.c:5, 23), which moves where loads split and so changes yylineno.
- isalnum and isspace are their ASCII (C locale) versions; other locales are not modelled.
- Parser.FillLookaheads: requires at most 14 extra kinds. With more, the C loop writes past the end of lookaheads (parser.c:103-104), which the model does not represent. Every caller passes one.
- The va_list mechanics are modelled as a sequence of extra kinds ending before the 0 terminator.
- The stale slot `lookaheads[1]` is one fixed parameter for the whole run. In C it is whatever each call's stack frame happens to hold, and may differ from call to call.
- Parser.Statements: `count` bounds the rounds, so a run that would loop forever shows as not returning within `count`. The same holds for `fuel` in Parser.LegalLookahead. Unbounded non-termination is stated only as "for every bound" (Behaviour.StatementsStuck, Recognizer.RecoverDiverges).
- The problems the parser's properties speak of carry no line numbers. The log itself (`Diagnostics.Diagnostic`) does record yylineno, and `Diagnostics.Message` gives the text of each line. The final newline and the stderr stream are not modelled.
- yylineno is an unbounded natural; a C `int` overflow after 2^31 lines is not modelled.
- Reading standard input is modelled by the input text as a parameter of the session, cut into loads as fgets cuts it.

## Findings

| source | as written | input that shows it | evidently intended | confidence | as-written member | corrected member |
|---|---|---|---|---|---|---|
| two_small_compilers/c/parser.c:103-104 | `*++p = tok` increments p before storing: slot 1 is never written, and each kind lands one place beyond the end of the scanned range, so L_PAREN is not compared | `(1);` reports a Syntax Error and skips the `(`, unless the uninitialised slot happens to hold L_PAREN | `*p++ = tok`, so that every kind passed is compared | not executed | Parser.FillLookaheads, Recognizer.ScannedShifted, Behaviour.LParenRejected, Findings.GroupSemiAsWritten | Parser.FillLookaheadsFixed, Recognizer.CorrectedKinds, Findings.GroupSemiCorrected |
| two_small_compilers/c/parser.c:49 | `if (legal_lookahead(...)) return;` returns from term exactly when a term can start, so term consumes nothing | `1;`: statements() prints "Inserting missing ';'" forever without consuming a token | `if (!legal_lookahead(...)) return;`, as in expression and factor | not executed | Behaviour.TermSkipsOnly, Behaviour.StatementsStuck, Findings.OneSemiAsWritten | Grammar.ProgramAccepted, Findings.OneSemiCorrected |
