# E# interpreter, modelled in Dafny

E# is a small English-keyword command language. `esharp.py` runs it in
three stages. This project models all three in Dafny and proves what each
one does.

- **Lexer** (`Lexing`, `Tokens`). `Lexer.tokenize` turns text into
  keyword, identifier, integer-literal and string-literal tokens. It skips
  whitespace, `#` comments and any other character. The class `Lexer` keeps
  the scanner's `text`, `pos` and `tokens` fields and its nested loops. It
  is proved to emit exactly `Lex(text)`. `Lex` is a function over the rest
  of the text, and the lemmas about it give each token rule and a
  render/lex round trip.
- **Parser** (`Parsing`, `ParserObject`, `ParserProperties`). This is the
  recursive-descent parser with `peek`/`consume`. The functions
  `StatementAt`, `StatementsUntil`, `SecureAt`, `Program` and the rest read
  token values from a position on. The class `Parser` keeps `tokens` and
  `pos`, and each method is proved to return what its function returns.
  `ParserProperties` proves that `parse` accepts exactly the token values
  of well-formed programs and returns the program they spell
  (`ProgramCharacterization`). It also proves that statements are
  prefix-free and that a statement cut short fails to parse.
- **Interpreter** (`Semantics`, `Interpreting`, `SemanticsProperties`).
  `Exec`/`ExecAll` give the effect of each statement on the interpreter
  state. An exception becomes an outcome with a `fault`, together with the
  state reached so far. The class `Interpreter` keeps the Python fields and
  updates them in place, and every method is proved to end in the state
  and fault that `Exec` gives. The lemmas cover the memory guard, the lock
  rules, the arithmetic, SECURE recovery without rollback, and `run`
  stopping at its first failure.

Things the code does that a reader might not expect:
- Token kinds never reach the parser. A string literal `"END"` closes a
  statement as the keyword does.
- `ESTABLISH` without `RESISTANT` cannot declare a variable of kind
  `RESISTANT`.
- TRANSMIT looks up only string targets. CALCULATE, INITIALIZE and RESPOND
  look up any value.
- LISTEN checks neither the memory flag nor the locks, so it can overwrite
  a locked variable (`ListenUnguarded`). Unlike ESTABLISH, TRANSMIT and
  CALCULATE (esharp.py:96, 107, 116), LISTEN has no memory guard.
- A failed INITIALIZE leaves its new, unbound socket in place, so a later
  LISTEN fails (`FailedRebind`).
- RESPOND with an integer message fails and keeps the client.

The network is a parameter, `Network(bindable, request)`. It gives the
ports `bind` succeeds on and the text the k-th accepted client sends.
`print` in TRANSMIT appends to `output`, and `sendall` appends to `replies`.

## Model

| member | source | states |
|---|---|---|
| Tokens.IsKeyword | esharp.py:38 | `word in self.keywords`: true exactly when the word is one of the 37 keywords listed at esharp.py:17-23, compared as exact strings (the scan `Listed` is proved to be membership) |
| Tokens.DecimalValue | esharp.py:47 | `int(num)` on a run of ASCII digits, read in decimal with leading zeros allowed; never negative. `DecimalShowNat` proves it inverts decimal notation |
| Tokens.WordToken | esharp.py:38-41 | a word becomes KEYWORD exactly when it is in the keyword list, compared case-sensitively, and IDENTIFIER otherwise; its value is the word itself |
| Tokens.DecimalShowNat | esharp.py:42-47 | reading the decimal notation of n back with `int` gives n |
| Lexing.Lex | esharp.py:25-59 | the specification of `tokenize` on the unscanned rest of the text, one branch per case of the loop in the source's order (whitespace, `#`, letter, digit, quote, anything else). Its properties are the lemmas `LexWord`, `LexInteger`, `LexString`, `LexUnterminatedString`, `LexComment`, `LexOther`, `LexWellFormed` and `LexRenderAll`, and `Lexer.Tokenize` is proved to emit exactly it |
| Lexing.Lexer.constructor | esharp.py:13-16 | a new scanner is at position 0 with no tokens |
| Lexing.Lexer.ScanRun | esharp.py:35-37 | an inner loop stops at the end of the maximal run of its character class and returns that run |
| Lexing.Lexer.SkipComment | esharp.py:30-32 | a `#` comment is skipped up to the next newline or the end of the text: `pos` stops at the end of the maximal run of non-newline characters, and no token is emitted |
| Lexing.Lexer.ScanWord | esharp.py:33-41 | `pos` stops at the end of the maximal run of letters, digits and `_`, and exactly one token is appended: that run as KEYWORD or IDENTIFIER (`WordToken`), as `Lex` prescribes |
| Lexing.Lexer.ScanNumber | esharp.py:42-47 | `pos` stops at the end of the maximal digit run, and exactly one INTEGER_LITERAL holding the run's decimal value is appended |
| Lexing.Lexer.ScanString | esharp.py:48-55 | exactly one STRING_LITERAL is appended, holding verbatim the maximal run of non-quote characters after the opening quote; `pos` ends one past that run, just past the closing quote (or one past the end of the text when there is none) |
| Lexing.Lexer.ScanToken | esharp.py:27-58 | one pass of the loop moves `pos` strictly forward and appends exactly the tokens `Lex` gives for the text passed over |
| Lexing.Lexer.Tokenize | esharp.py:25-59 | the loop terminates, and the tokens appended are exactly `Lex` of the rest of the text |
| Lexing.LexWellFormed | esharp.py:33-55 | every token emitted is well formed: words are non-empty runs of letters, digits and `_` that start with a letter and are classified by the keyword list; integers are non-negative; strings contain no quote |
| Lexing.LexWord | esharp.py:33-41 | a maximal word lexes to one token, which is KEYWORD exactly when the word is a keyword |
| Lexing.LexInteger | esharp.py:42-47 | a maximal digit run lexes to one INTEGER_LITERAL with its decimal value |
| Lexing.LexString | esharp.py:48-55 | `"body"` lexes to one STRING_LITERAL holding exactly `body` |
| Lexing.LexUnterminatedString | esharp.py:48-55 | a quote with no closing quote takes the rest of the text as the literal |
| Lexing.LexComment | esharp.py:30-32 | a comment emits no token |
| Lexing.LexOther | esharp.py:56-58 | any character that is not whitespace, `#`, a letter, a digit or a quote emits no token |
| Lexing.LexRender | esharp.py:25-59 | a well-formed token written out and followed by a blank lexes back to itself |
| Lexing.LexRenderAll | esharp.py:25-59 | lexing the written form of any sequence of well-formed tokens gives back that sequence |
| Parsing.ConsumeAt | esharp.py:164-169 | `consume` on token values: end of input fails, a requested value that differs fails, otherwise the value and the next position. `Parser.Consume` is proved to agree with it |
| Parsing.Expect | esharp.py:164-169 | the chain of `consume` calls along a statement's fixed pattern: on success one value per step, ending right after them. `ExpectMeaning`, `ExpectFails` and `ExpectSucceeds` state when it succeeds and what it fails with |
| Parsing.Program | esharp.py:171-175 | `parse`: the statement loop from position 0 to the end of the input. `ProgramCharacterization` proves it returns `prog` exactly when the input spells a well-formed `prog`, and `ProgramSound` that it consumes every token |
| Parsing.OtherwiseAt | esharp.py:245-250 | the second half of `parse_secure`: OTHERWISE, the statements up to END, then END; a missing END at the end of the input fails |
| Parsing.InitializeServerAt | esharp.py:200-207 | `parse_initialize_server`: the fixed pattern, with the port at its fifth step; consumes at least one token (`InitializeServerSound`/`InitializeServerComplete` tie it to `Unparse`) |
| Parsing.ListenRequestAt | esharp.py:209-217 | `parse_listen_request`: the fixed pattern, with the variable at its sixth step; consumes at least one token (`ListenRequestSound`/`ListenRequestComplete`) |
| Parsing.RespondAt | esharp.py:219-224 | `parse_respond`: the fixed pattern, with the message at its third step; consumes at least one token (`RespondSound`/`RespondComplete`) |
| Parsing.AllocateAt | esharp.py:226-232 | `parse_allocate`: ALLOCATE MEMORY FOR EXECUTION END; consumes at least one token (`AllocateSound`/`AllocateComplete`) |
| Parsing.DeallocateAt | esharp.py:234-238 | `parse_deallocate`: DEALLOCATE MEMORY END; consumes at least one token (`DeallocateSound`/`DeallocateComplete`) |
| Parsing.EstablishAt | esharp.py:252-264 | `parse_establish`: ESTABLISH, an optional RESISTANT, then kind, name, AS, value, END, with kind, name and value taken as they come; consumes at least one token (`EstablishSound`/`EstablishComplete`) |
| Parsing.TransmitAt | esharp.py:266-272 | `parse_transmit`: TRANSMIT, any target, TO CONSOLE END; consumes at least one token (`TransmitSound`/`TransmitComplete`) |
| Parsing.CalculateAt | esharp.py:274-285 | `parse_calculate`: the operation, both sources and the destination at the source's token positions, with the operation unchecked; consumes at least one token (`CalculateSound`/`CalculateComplete`) |
| Parsing.StatementAt | esharp.py:177-198 | a parsed statement consumes at least one token, and a leading value that is not one of the nine statement keywords fails with "Unknown statement" |
| Parsing.StatementsUntil | esharp.py:171-175 | a statement list stops only at the end of the input or at its closing word |
| Parsing.SecureAt | esharp.py:240-250 | a parsed SECURE statement consumes at least one token |
| Parsing.ExpectFails | esharp.py:164-169 | a chain of `consume` calls fails at the first step whose value is missing or wrong, with that step's error |
| Parsing.ExpectSucceeds | esharp.py:164-169 | a chain of `consume` calls that all match returns the values it passed over and ends just after them |
| Parsing.StatementsStep | esharp.py:173-174 | one turn of the statement loop parses one statement and continues after it, or fails with that statement's error |
| ParserObject.Parser.constructor | esharp.py:157-159 | a new parser is at position 0 |
| ParserObject.Parser.Peek | esharp.py:161-162 | `peek` is the token at `pos`, or nothing at the end of the input |
| ParserObject.Parser.Consume | esharp.py:164-169 | `consume(v)` fails at the end of the input or when the value differs from `v`; otherwise it returns that token and advances `pos` by exactly one |
| ParserObject.Parser.ConsumePattern | esharp.py:226-232 | the consume chain of a fixed-shape statement returns the tokens taken or the first failure |
| ParserObject.Parser.Parse | esharp.py:171-175 | from position 0, `parse` returns exactly `Program` of the token values |
| ParserObject.Parser.ParseStatements | esharp.py:173-174 | the statement loop returns the statements `StatementsUntil` gives and stops where it stops |
| ParserObject.Parser.ParseStatement | esharp.py:177-198 | `parse_statement` returns what `StatementAt` gives and moves `pos` to its end |
| ParserObject.Parser.ParseSecure | esharp.py:240-250 | `parse_secure` returns what `SecureAt` gives |
| ParserObject.Parser.ParseEstablish | esharp.py:252-264 | `parse_establish` returns what `EstablishAt` gives, with the optional RESISTANT |
| ParserObject.Parser.ParseTransmit | esharp.py:266-272 | `parse_transmit` returns what `TransmitAt` gives |
| ParserObject.Parser.ParseCalculate | esharp.py:274-285 | `parse_calculate` returns what `CalculateAt` gives |
| ParserObject.Parser.ParseAllocate | esharp.py:226-232 | `parse_allocate` returns what `AllocateAt` gives |
| ParserObject.Parser.ParseDeallocate | esharp.py:234-238 | `parse_deallocate` returns what `DeallocateAt` gives |
| ParserObject.Parser.ParseInitializeServer | esharp.py:200-207 | `parse_initialize_server` returns what `InitializeServerAt` gives |
| ParserObject.Parser.ParseListenRequest | esharp.py:209-217 | `parse_listen_request` returns what `ListenRequestAt` gives |
| ParserObject.Parser.ParseRespond | esharp.py:219-224 | `parse_respond` returns what `RespondAt` gives |
| ParserProperties.ExpectMeaning | esharp.py:164-169 | a consume chain succeeds exactly when every step matches, and then returns the values it covered |
| ParserProperties.EstablishSound | esharp.py:252-264 | a parsed ESTABLISH is well formed and was written as exactly the tokens read |
| ParserProperties.TransmitSound | esharp.py:266-272 | a parsed TRANSMIT was written as exactly the tokens read |
| ParserProperties.CalculateSound | esharp.py:274-285 | a parsed CALCULATE was written as exactly the tokens read |
| ParserProperties.AllocateSound | esharp.py:226-232 | a parsed ALLOCATE was written as exactly the tokens read |
| ParserProperties.DeallocateSound | esharp.py:234-238 | a parsed DEALLOCATE was written as exactly the tokens read |
| ParserProperties.InitializeServerSound | esharp.py:200-207 | a parsed INITIALIZE was written as exactly the tokens read |
| ParserProperties.ListenRequestSound | esharp.py:209-217 | a parsed LISTEN was written as exactly the tokens read |
| ParserProperties.RespondSound | esharp.py:219-224 | a parsed RESPOND was written as exactly the tokens read |
| ParserProperties.StatementSound | esharp.py:177-198 | any statement `parse_statement` returns is well formed and was written as exactly the tokens it read; for SECURE, the body is what stood before OTHERWISE and the otherwise list is what stood before the closing END |
| ParserProperties.StatementsSound | esharp.py:171-175 | a parsed statement list was written as exactly the tokens read |
| ParserProperties.ProgramSound | esharp.py:171-175 | a program `parse` returns consumed every token and spells them exactly |
| ParserProperties.EstablishComplete | esharp.py:252-264 | the tokens of a well-formed ESTABLISH parse back to it |
| ParserProperties.TransmitComplete | esharp.py:266-272 | the tokens of a TRANSMIT parse back to it |
| ParserProperties.CalculateComplete | esharp.py:274-285 | the tokens of a CALCULATE parse back to it |
| ParserProperties.AllocateComplete | esharp.py:226-232 | the tokens of ALLOCATE parse back to it |
| ParserProperties.DeallocateComplete | esharp.py:234-238 | the tokens of DEALLOCATE parse back to it |
| ParserProperties.InitializeServerComplete | esharp.py:200-207 | the tokens of an INITIALIZE parse back to it |
| ParserProperties.ListenRequestComplete | esharp.py:209-217 | the tokens of a LISTEN parse back to it |
| ParserProperties.RespondComplete | esharp.py:219-224 | the tokens of a RESPOND parse back to it |
| ParserProperties.StatementComplete | esharp.py:177-285 | wherever the tokens of a well-formed statement stand, SECURE with nested lists included, `parse_statement` returns that statement and stops right after it |
| ParserProperties.ProgramCharacterization | esharp.py:171-285 | `parse` returns `prog` exactly when the token values are the tokens of `prog` and `prog` is well formed |
| ParserProperties.UnparsePrefixFree | esharp.py:177-285 | no well-formed statement's tokens begin with another statement's tokens, so one-token lookahead without backtracking is enough |
| ParserProperties.TruncatedStatementFails | esharp.py:164-169 | a statement whose tokens run out before its end fails to parse; this includes running out inside a SECURE block |
| ParserProperties.TruncatedProgramFails | esharp.py:171-175 | a statement's tokens cut strictly inside them (not at the start, where the empty program parses, and not at the end) are not a program |
| Semantics.Resolve | esharp.py:119-120 | `variables.get(v, v)`: the bound value, or the token value itself when unbound (CALCULATE here, and the same lookup at esharp.py:132 and 150; see `CalculateEffect`) |
| Semantics.Shown | esharp.py:110-113 | what TRANSMIT prints: a string target that names a variable prints its value, and anything else prints itself |
| Semantics.Binds | esharp.py:132-135 | when `bind` succeeds: an integer port in 0..65535 that the network accepts (`FailedRebind` shows the other case) |
| Semantics.Exec | esharp.py:72-154 | one statement: the new state and the failure raised, if any, one case per `execute_*` method, with the state kept on failure. Its properties are `ExecGrows`, `MemoryGuard`, `FailureChangesNothing`, `EstablishEffect`, `CalculateEffect`, `DeallocateEffect`, `ListenUnguarded`, `RespondOnce`, `SecureOutcome` and `SecureKeepsEffects`, and `Interpreter.Execute` is proved to compute it |
| Semantics.ExecAll | esharp.py:68-70 | a statement list in order, stopping at the first failure (`run`, and both loops of `execute_SECURE` at esharp.py:89-93). Its properties are `ExecAllGrows`, `ExecAllAppend` and `StopsAtFirstFailure`, and `Interpreter.Run` is proved to compute it |
| Semantics.Arith | esharp.py:121-127 | ADD succeeds exactly on two ints (giving the sum) or two strings (giving the concatenation); SUBTRACT succeeds exactly on two ints (giving the difference); any other operation fails |
| Interpreting.Interpreter.constructor | esharp.py:62-66 | a new interpreter has no variables, no locks, no socket and memory not allocated |
| Interpreting.Interpreter.Run | esharp.py:68-70 | `run` ends in the state and failure `ExecAll` gives for the statements |
| Interpreting.Interpreter.Execute | esharp.py:72-75 | `execute` ends in the state and failure `Exec` gives for the node |
| Interpreting.Interpreter.ExecuteAllocate | esharp.py:80-81 | only the memory flag changes, to true |
| Interpreting.Interpreter.ExecuteDeallocate | esharp.py:83-85 | the flag is cleared and `variables` emptied; nothing else changes |
| Interpreting.Interpreter.ExecuteSecure | esharp.py:87-93 | the body runs until a statement fails; then the otherwise list runs from the state the failure left; a failure there is raised |
| Interpreting.Interpreter.ExecuteEstablish | esharp.py:95-104 | the new state and failure are those `Exec` gives for ESTABLISH |
| Interpreting.Interpreter.ExecuteTransmit | esharp.py:106-113 | the new state and failure are those `Exec` gives for TRANSMIT |
| Interpreting.Interpreter.ExecuteCalculate | esharp.py:115-128 | the new state and failure are those `Exec` gives for CALCULATE |
| Interpreting.Interpreter.ExecuteInitializeServer | esharp.py:130-137 | the socket is replaced even when `bind` fails |
| Interpreting.Interpreter.ExecuteListenRequest | esharp.py:139-146 | the request text is stored and the client recorded, failing only without a listening socket |
| Interpreting.Interpreter.ExecuteRespond | esharp.py:148-154 | the reply is sent and the client dropped, failing without a client or on an integer message |
| SemanticsProperties.ExecGrows | esharp.py:99-104 | `locked_vars` never shrinks, and output and replies are only appended to, whatever a statement does, nested SECURE included |
| SemanticsProperties.ExecAllGrows | esharp.py:68-70 | the same holds for a whole statement list |
| SemanticsProperties.MemoryGuard | esharp.py:95-117 | ESTABLISH, TRANSMIT and CALCULATE fail when memory is not allocated, leaving variables, locks and output unchanged |
| SemanticsProperties.FailureChangesNothing | esharp.py:95-154 | a failing statement other than SECURE and INITIALIZE leaves the state unchanged |
| SemanticsProperties.EstablishEffect | esharp.py:95-104 | ESTABLISH succeeds exactly with memory allocated and the name unlocked; it binds the raw value without lookup and locks the name only when RESISTANT; on a locked name it fails without changes |
| SemanticsProperties.CalculateEffect | esharp.py:115-128 | CALCULATE on a locked destination fails; otherwise it succeeds exactly when the arithmetic on the resolved operands does, and then only `variables[dest]` changes |
| SemanticsProperties.DeallocateEffect | esharp.py:83-85 | DEALLOCATE empties `variables` and clears the flag but leaves `locked_vars` untouched |
| SemanticsProperties.ListenUnguarded | esharp.py:139-146 | on a listening socket LISTEN succeeds whatever the memory flag and locks, storing the request even under a locked name |
| SemanticsProperties.RespondOnce | esharp.py:148-154 | after a successful RESPOND a second one fails; RESPOND with an integer message fails and keeps the client |
| SemanticsProperties.FailedRebind | esharp.py:130-141 | a failed INITIALIZE fails the run, and LISTEN after it fails on the unbound socket |
| SemanticsProperties.ExecAllAppend | esharp.py:68-70 | running two statement lists one after the other is running their concatenation |
| SemanticsProperties.StopsAtFirstFailure | esharp.py:68-70 | `run` stops at the first failing statement and ends as that statement did |
| SemanticsProperties.SecureOutcome | esharp.py:87-93 | the otherwise list runs exactly when the body fails, and SECURE fails exactly when the otherwise list also fails |
| SemanticsProperties.SecureKeepsEffects | esharp.py:87-93 | no rollback: the otherwise list starts from the state the body's successful statements left, which the failed statement did not change |
| SemanticsProperties.UnallocatedExecAll | esharp.py:80-117 | in a program with no ALLOCATE that starts without memory, the flag stays false and no lock or output is ever added |
| SemanticsProperties.LockedStaysExecAll | esharp.py:95-146 | a locked, bound name keeps its value through any statements except DEALLOCATE and a LISTEN storing into it |

## Left out

- Printing, and the glue around the pipeline: `run_code`'s catch-all, its banners and `__main__` (esharp.py:287-324). TRANSMIT's `print` is modelled as appending the value to `output`, not its text.
- The status lines that INITIALIZE and LISTEN print (esharp.py:137, 146) are not recorded. The client address is not recorded either.
- Sockets: the network is the `Network` parameter. `bind` failing on a string port, on a port outside 0..65535, or for an operating-system reason is one fault, `BindFailed`. `accept` is assumed to return a client eventually. The 1024-byte `recv` limit and decode errors are not modelled: the oracle gives decoded text. A failing `sendall` is not modelled.
- Exception messages: a `Fault` or `ParseError` names the kind of failure and the values involved, not the message text.
- `getattr` dispatch and `no_method` (esharp.py:72-78). An exhaustive `match` over `Stmt` makes the missing-method case impossible.
- Python's Unicode `isspace`/`isalpha`/`isdigit`/`isalnum`: the lexer uses their ASCII restrictions.
- `Token.__repr__` (esharp.py:9-10) is cosmetic.
- The value that `execute_CALCULATE` returns (esharp.py:128) is dropped, since `run` ignores it.
- `parse_establish` at the end of the input, right after ESTABLISH, fails in Python on `None.value` (esharp.py:255). The model gives `UnexpectedEof`.
- ParserObject.Parser.Parse: after a failure the cursor position is left unspecified, since in the source the exception ends parsing.
- Lexing.Lex, Lexing.LexInteger, Lexing.LexRenderAll and Lexing.Lexer.ScanNumber: integers are unbounded. CPython (3.11 and the 2022 security releases) refuses to convert a decimal text of more than 4300 digits, so `int(num)` at esharp.py:47 raises ValueError on such a digit run. These members return a token instead.
- Semantics.Exec and Interpreting.Interpreter.ExecuteTransmit: for the same reason, `print` of an integer with more than 4300 digits (esharp.py:111, 113) raises in CPython, and a surrounding SECURE would then run its otherwise list. Exec's TRANSMIT always succeeds and appends the value to `output`.
- ParserProperties.ProgramCharacterization and ParserProperties.StatementComplete: CPython's recursion limit is not modelled. SECURE nested a few hundred levels deep raises RecursionError in `parse_statement`/`parse_secure` (esharp.py:177-180, 240-248), and `execute_SECURE` hits the same limit. These lemmas claim that such programs parse, and Exec runs them.
- The consume chains of the fixed-shape parse methods are each one `ConsumePattern` loop over a list of expected words, not separate calls.
