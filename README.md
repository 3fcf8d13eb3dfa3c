# Compiler-Simulator front end in Dafny

This project models the front end of the Compiler-Simulator repository. It
has three table-driven programs:

- **The C-like (WLP4) scanner** (`wlp4scanner.cc`). It builds a DFA from
  embedded table text with `DFAconstruct`. It then splits each non-empty
  input line into tokens by maximal munch (`maxmunch`). Each token goes
  through `check_restrict`: whitespace and comments are dropped, `NUM`
  literals are range-checked, and identifiers that are reserved words are
  relabelled.
- **The MIPS assembly scanner** (`mipsscanner.cc`). It runs the same
  pipeline with its own checks for `REGISTER`, `DECINT`, `HEXINT` and
  `ZERO`, and prints `NEWLINE` after every line.
- **The WLP4 parser** (`wlp4parser.cc`):
  - it reads a grammar and LR tables (`getDATA`);
  - it reads one token per line and brackets them with `BOF`/`EOF` (`getINPUT`);
  - it runs a shift-reduce parse (`beginparse`);
  - it prints the parse tree in preorder (`Tree::print`).

## Modules

| file | module | what it holds |
|---|---|---|
| `outcomes.dfy` | `Outcomes` | `Option`, `Result`, `Outcome`, `Token`, and the error kinds |
| `text.dfy` | `Text` | `isspace`/`isgraph`/`isxdigit`, signed `char`, word splitting (`>>`), `squish`, `hexToNum`, `numToHex` |
| `escapes.dfy` | `Escapes` | `escape` and `unescape` |
| `automaton.dfy` | `Automaton` | the scanners' `DFA` class and its lookups |
| `dfaloader.dfy` | `DfaLoader` | `DFAconstruct`: the three sections of the DFA text, character ranges |
| `restrict.dfy` | `Restrict` | `stoul`, both dialects' `check_restrict` |
| `maxmunch.dfy` | `MaxMunch` | `maxmunch`, a reference longest-match tokenizer, the two `main` loops |
| `parsetables.dfy` | `ParseTables` | `Rule`, the parser `DFA`, `getDATA` |
| `parsetree.dfy` | `ParseTree` | `Tree`, `RHScreate`, `Tree::print` |
| `parser.dfy` | `ShiftReduce` | `getINPUT`, `reducetrees`, `reducestates`, `shift`, `beginparse`, `main` |

Conventions:
- Text is a `seq<char>` whose characters stand for bytes.
- Input text arrives already split into lines.
- Three error kinds:
  - `Runtime(msg)` is a `runtime_error` that `main` catches and reports;
  - `Uncaught(what)` is an exception `main` does not catch (the
    `std::invalid_argument` and `std::out_of_range` of `stoul`);
  - `Unmodelled(what)` marks behaviour the code leaves undefined, or an
    iteration bound of the model. Each case is listed below.
- Behaviour of the code worth noting, which the model keeps:
  - A reduction line is read as `state rule lookahead`, despite the names
    `symbol` and `rulenum`: the code extracts an `int`, an `int` and a
    `string`, and `getReduction` matches the string against the lookahead
    (wlp4parser.cc:79-86, 141-146).
  - `\x` escapes are refused only when the first hex digit is above 8,
    although the message speaks of 0x00 to 0x7F (wlp4scanner.cc:184-189).
    So `\x80` to `\x8F` decode; a single such character is then refused as
    non-ASCII.
  - Range endpoints compare as signed `char`s (wlp4scanner.cc:367-369).
  - `RHScreate` follows every right-hand side symbol with a space, including
    the last one (wlp4parser.cc:166-173).
  - The scanners print an empty lexeme as it is. Only the parser's tree
    printing writes `.EMPTY` (wlp4parser.cc:38).

## Model

| member | source | states |
|---|---|---|
| `Text.SplitWords` | wlp4scanner.cc:339-343 | returns the words `>>` extracts from a line, in order; each is non-empty and has no whitespace |
| `Text.WordEnd` | wlp4scanner.cc:341 | a word read by `>>` runs from its first character to the next space or the end of the line |
| `Text.WordsSkipSpace` | wlp4scanner.cc:341 | `>>` skips a leading space |
| `Text.WordsTakeWord` | wlp4scanner.cc:341 | `>>` reads a maximal run of non-space characters as the next word |
| `Text.Squish` | wlp4scanner.cc:135-146 | the result is the line's words joined by single spaces, and it splits back into exactly the line's words |
| `Text.WordsOfJoin` | wlp4scanner.cc:140-144 | splitting words joined by single spaces gives back those words |
| `Text.SquishedIsWord` | wlp4scanner.cc:297-304 | a squished line equals a marker word exactly when the line's only word is that marker; it is empty exactly when the line is blank |
| `Text.HexToNum` | wlp4scanner.cc:148-158 | succeeds exactly on hex digits, with a value in 0..15; otherwise `Invalid hex digit!` |
| `Text.NumToHex` | wlp4scanner.cc:160-162 | gives an upper-case hex digit that `hexToNum` decodes back to the value |
| `Escapes.EscapedShape` | wlp4scanner.cc:164-208 | decoding never lengthens the text and keeps it byte-valued |
| `Escapes.EscapedHexStep` | wlp4scanner.cc:182-193 | a `\x` with two hex digits decodes to one byte when the first digit is at most 8, and is an error otherwise |
| `Escapes.EscapedCharStep` | wlp4scanner.cc:167-202 | a backslash before any other character decodes to that character's escape, consuming two characters |
| `Escapes.EscapedPlainStep` | wlp4scanner.cc:203-205 | a character that does not start an escape is copied unchanged |
| `Escapes.Escape` | wlp4scanner.cc:164-208 | the loop computes `Escaped`, including the error for `\x` with a first digit above 8 |
| `Escapes.UnescapedChar` | wlp4scanner.cc:213-231 | one byte is written as a non-empty run of printable characters |
| `Escapes.Unescaped` | wlp4scanner.cc:210-234 | the output is printable only and at least as long as the input |
| `Escapes.Unescape` | wlp4scanner.cc:210-234 | the loop computes `Unescaped` |
| `Escapes.UnescapedSnoc` | wlp4scanner.cc:212-232 | unescaping one more byte appends its written form to the output so far |
| `Escapes.UnescapedAppend` | wlp4scanner.cc:210-234 | unescaping a concatenation concatenates the unescaped parts |
| `Escapes.EscapeUnit` | wlp4scanner.cc:164-208 | escaping the unescaped form of one byte (code below 0x90) followed by more text yields that byte, then the escape of the rest |
| `Escapes.RoundTripChar` | wlp4scanner.cc:164-234 | `escape(unescape(c)) == c` exactly when the code of `c` is below 0x90 |
| `Escapes.RoundTrip` | wlp4scanner.cc:164-234 | for text without backslashes and with codes below 0x90, `escape` undoes `unescape` |
| `Escapes.EscapePlain` | wlp4scanner.cc:164-208 | text without a backslash escapes to itself |
| `Automaton.AcceptOfFirst` | wlp4scanner.cc:92-97 | `getAccept` succeeds exactly for a declared state, answers the flag of its first entry, and otherwise throws `Invalid state!` |
| `Automaton.FindNextFirst` | wlp4scanner.cc:111-122 | `getNextState` finds a target exactly when some transition leaves the state on that character, and then it is the first such target |
| `Automaton.DFA.constructor` | wlp4scanner.cc:86-91 | a fresh DFA has no states, no transitions and the initial pair `("", false)` |
| `Automaton.DFA.GetAccept` | wlp4scanner.cc:92-97 | the loop answers `AcceptOf` on the states, and succeeds exactly for declared states |
| `Automaton.DFA.AddState` | wlp4scanner.cc:98-100 | appends one state entry, changes nothing else, and keeps the machine well formed |
| `Automaton.DFA.AddTransition` | wlp4scanner.cc:101-110 | appends the transition exactly when both states are declared, and otherwise fails with `Invalid state!` and no change |
| `Automaton.DFA.GetNextState` | wlp4scanner.cc:111-122 | answers the first matching target, or `novalidstate` |
| `DfaLoader.SpanContents` | wlp4scanner.cc:367-369 | the span from `a` to `b` holds `b-a+1` characters with signed values `a, a+1, ...`, or none when `a > b` |
| `DfaLoader.CharRangeContents` | wlp4scanner.cc:366-369 | a range token adds one character per signed value from its first endpoint to its last, in order |
| `DfaLoader.PushRange` | wlp4scanner.cc:367-369 | the signed `char` loop, with its wrap from 127 to -128, appends exactly `CharRange` |
| `DfaLoader.StateOf` | wlp4scanner.cc:318-322 | a trailing `!` on a word of two or more characters marks an accepting state and is not part of its name |
| `DfaLoader.ReadHeader` | wlp4scanner.cc:292-305 | skips squished-blank lines up to `.STATES`, with both header errors |
| `DfaLoader.DeclareCons` | wlp4scanner.cc:318-326 | each state word before the marker appends its entry; the first one becomes the initial state |
| `DfaLoader.DeclareAtMarker` | wlp4scanner.cc:314-316 | the `.TRANSITIONS` word ends the state section unchanged |
| `DfaLoader.ReadStatesStream` | wlp4scanner.cc:307-327 | reading the state section line by line equals declaring the word stream up to the first `.TRANSITIONS`; it fails exactly when there is none |
| `DfaLoader.ReadStateSection` | wlp4scanner.cc:307-327 | the loop over `in >> s` leaves exactly the machine `ReadStates` describes, with the same error |
| `DfaLoader.AddTransitionsKeeps` | wlp4scanner.cc:376-378 | adds one transition per expanded character, in order; fails with `Invalid state!` exactly when an endpoint is undeclared; keeps the states and well-formedness |
| `DfaLoader.ExpandPlainChar` | wlp4scanner.cc:357-365 | an ASCII character other than a backslash stands for itself |
| `DfaLoader.PushToken` | wlp4scanner.cc:357-374 | one middle word appends its characters, or fails as `ExpandToken` does |
| `DfaLoader.ExpandLine` | wlp4scanner.cc:355-375 | the middle words expand, in order, to `ExpandTokens` |
| `DfaLoader.TransitionLineKeeps` | wlp4scanner.cc:338-378 | a transition line only appends transitions, and keeps the states, the initial state and well-formedness |
| `DfaLoader.TransitionLineErrors` | wlp4scanner.cc:347-374 | a line of fewer than three words is an incomplete transition line; a middle word decoding to neither one character nor a range, or to a single byte above 127, fails with the matching message naming the line |
| `DfaLoader.ReadTransitionsKeeps` | wlp4scanner.cc:329-379 | the transition section keeps the states and initial state, only extends the transitions, and leaves the machine well formed |
| `DfaLoader.ReadTransitionSection` | wlp4scanner.cc:329-379 | the loop leaves exactly the machine `ReadTransitions` describes, or its error |
| `DfaLoader.LoadShape` | wlp4scanner.cc:289-381 | a loaded DFA is well formed, and its initial state is the first state declared, or the default pair |
| `DfaLoader.DfaConstruct` | wlp4scanner.cc:289-381 | `DFAconstruct` returns a fresh DFA modelling `Load`, or throws `Load`'s error |
| `Restrict.Stoul` | wlp4scanner.cc:239 | succeeds exactly on an optionally signed numeral whose magnitude fits 64 bits, with the numeral's value taken modulo 2^64 |
| `Restrict.SignedLong` | wlp4scanner.cc:239-240 | storing into `signed long` yields the two's-complement value, congruent modulo 2^64 |
| `Restrict.StoulSignedLong` | mipsscanner.cc:228-231 | the stored `signed long` equals the numeral's value exactly when that value fits 64 signed bits |
| `Restrict.UpperReserved` | wlp4scanner.cc:247-258 | each reserved word's kind is its upper-case spelling |
| `Restrict.IdKindUpper` | wlp4scanner.cc:248-257 | an ID is relabelled to its upper-case spelling exactly when it is reserved |
| `Restrict.RestrictShape` | wlp4scanner.cc:236-260 | whitespace and comments emit nothing; other lexemes that pass are emitted once, unchanged; only C-like IDs and assembly ZEROs change kind; only NUM, REGISTER, DECINT and HEXINT can be refused |
| `Restrict.NumDigits` | wlp4scanner.cc:238-246 | a NUM passes exactly when its value is at most 2^31-1 and it has no leading zero, with each error message |
| `Restrict.IdRelabel` | wlp4scanner.cc:247-259 | an ID is emitted under its reserved-word kind, or as ID |
| `Restrict.RegisterDigits` | mipsscanner.cc:218-226 | a register with one or two digits after its marker passes exactly when the number is at most 31; otherwise `register out of range` |
| `Restrict.DecintRange` | mipsscanner.cc:227-232 | a DECINT passes exactly when its value lies in -2^31..2^32-1 |
| `Restrict.HexintLength` | mipsscanner.cc:233-235 | a HEXINT passes exactly when it has at most 10 characters |
| `Restrict.AsWrittenAgrees` | mipsscanner.cc:227-231 | for values that fit a `signed long`, the checks as written and as corrected agree |
| `Restrict.WrapAccepted` | wlp4scanner.cc:239-241 | the numeral of 2^64-1 passes the NUM and DECINT checks as written and fails the corrected ones |
| `MaxMunch.CutsPartition` | wlp4scanner.cc:262-287 | the tokens concatenate to a prefix of the line, and to the whole line when no error occurs; every lexeme is non-empty and ends in an accepting state |
| `MaxMunch.CutsCover` | wlp4scanner.cc:262-287 | the lexemes read a prefix of the line, and all of it when no error occurs |
| `MaxMunch.CutsAccepted` | wlp4scanner.cc:273-286 | each lexeme is cut only in an accepting state, and is never empty |
| `MaxMunch.CutsBytes` | wlp4scanner.cc:262-287 | on byte-valued text every lexeme is byte-valued |
| `MaxMunch.RunMaximal` | wlp4scanner.cc:266-273 | the scan from a state reads the longest input prefix the DFA can walk, and no longer prefix can be walked |
| `MaxMunch.CutsReference` | wlp4scanner.cc:266-284 | the incremental loop agrees with the reference tokenizer from any intermediate state |
| `MaxMunch.CutsIsReference` | wlp4scanner.cc:262-287 | the loop's tokens and error equal those of the reference longest-match tokenizer |
| `MaxMunch.ReferenceMunched` | wlp4scanner.cc:262-287 | every reference token is the longest prefix of the remaining input the DFA can walk |
| `MaxMunch.MaxMunchCuts` | wlp4scanner.cc:262-287 | the loop's tokens are maximal munches and cover the line when no error occurs |
| `MaxMunch.EmptyLine` | wlp4scanner.cc:285-286 | an empty line gives no token and the end-of-input error |
| `MaxMunch.RestAdvance` | wlp4scanner.cc:267-272 | a successful step moves one character onto the pending lexeme |
| `MaxMunch.RestCut` | wlp4scanner.cc:273-278 | a failed step in an accepting state emits the restricted token and restarts from the initial state on the same character |
| `MaxMunch.RestEnd` | wlp4scanner.cc:285-286 | at the end of the line an accepting state emits the last token |
| `MaxMunch.EmitLexemes` | wlp4scanner.cc:236-260 | restriction emits at most one token per lexeme, and an error only where the loop had one |
| `MaxMunch.MaxMunch` | mipsscanner.cc:240-265 | the loop prints exactly the tokens of `Tokenize` and stops at its error; the C-like loop (wlp4scanner.cc:262-287) is the same |
| `MaxMunch.ScanProgram` | wlp4scanner.cc:388-391 | the `main` loop scans every line in order, as `ScanLines` describes |
| `MaxMunch.Wlp4SkipsEmpty` | wlp4scanner.cc:389 | an empty line adds nothing to the C-like scanner's output |
| `MaxMunch.MipsNewlines` | mipsscanner.cc:366-369 | a clean assembly scan prints exactly as many NEWLINE tokens as lines |
| `MaxMunch.MipsEndsNewline` | mipsscanner.cc:366-369 | a clean assembly scan of a non-empty text ends with a NEWLINE |
| `MaxMunch.ScanMipsCons` | mipsscanner.cc:366-369 | one line of the assembly driver prints that line's tokens and a NEWLINE, or stops at the line's error |
| `MaxMunch.NoNewlineToken` | mipsscanner.cc:240-265 | the tokens scanned from one line never include the NEWLINE token |
| `MaxMunch.NoEmptyLexeme` | wlp4scanner.cc:266-278 | no printed token has an empty lexeme |
| `MaxMunch.EmitNonEmpty` | mipsscanner.cc:216-238 | restriction never produces an empty lexeme |
| `ParseTables.DropEmptyCounts` | wlp4parser.cc:20-22 | the right-hand side loses every `.EMPTY` and keeps every other symbol as often as it occurs |
| `ParseTables.DropEmptyWords` | wlp4parser.cc:20-22 | dropping `.EMPTY` from words leaves words |
| `ParseTables.RuleShape` | wlp4parser.cc:17-23 | a rule line's first word is its left-hand side (empty for a blank line); the rest, without `.EMPTY`, is its right-hand side |
| `ParseTables.ReadRule` | wlp4parser.cc:17-23 | the constructor's loop builds `RuleOf` of the line's words |
| `ParseTables.TransitionFirst` | wlp4parser.cc:70-77 | `getTransition` answers the first entry on (state, symbol), and nothing exactly when there is none or it holds `INT_MIN` |
| `ParseTables.ReductionRaw` | wlp4parser.cc:79-86 | `getReduction` answers `INT_MIN` exactly when no rule applies, and otherwise the rule itself |
| `ParseTables.ReductionFirst` | wlp4parser.cc:79-86 | `getReduction` keys on state and lookahead and answers the rule of the first such entry, or nothing |
| `ParseTables.DFA.constructor` | wlp4parser.cc:65-68 | the parser DFA holds the tables read |
| `ParseTables.DFA.GetTransition` | wlp4parser.cc:70-77 | the loop returns the first match, or `INT_MIN` |
| `ParseTables.DFA.GetReduction` | wlp4parser.cc:79-86 | the loop returns the first match's rule, or `INT_MIN` |
| `ParseTables.IntTextWord` | wlp4parser.cc:131-133 | an `int` written in decimal is one word that `>>` reads back as the same `int` |
| `ParseTables.GotoRoundTrip` | wlp4parser.cc:128-133 | writing a goto entry as `state symbol state` and reading the line gives back the entry |
| `ParseTables.ReduceRoundTrip` | wlp4parser.cc:141-146 | writing a reduction entry as `state rule lookahead` and reading the line gives back the entry |
| `ParseTables.TableLineWords` | wlp4parser.cc:122-146 | a table line that reads has at least three words, and its entry is built from the first three |
| `ParseTables.FindCfg` | wlp4parser.cc:93-105 | the header search stops just after a `.CFG` line |
| `ParseTables.CfgHeader` | wlp4parser.cc:93-105 | only empty lines come before `.CFG` |
| `ParseTables.ReadRulesSection` | wlp4parser.cc:107-119 | the rule section fails exactly when no `.TRANSITIONS` line follows, and otherwise has one rule per line before it |
| `ParseTables.ReadRulesEnd` | wlp4parser.cc:107-119 | a rule section that reads stops at a `.TRANSITIONS` line |
| `ParseTables.ReadDataOk` | wlp4parser.cc:91-119 | a successful `getDATA` found `.CFG`, read the rule section after it, and keeps those rules |
| `ParseTables.ReadDataMarkers` | wlp4parser.cc:91-148 | a successful `getDATA` saw only empty lines, then `.CFG`, and later `.TRANSITIONS` |
| `ParseTables.ReadDataRules` | wlp4parser.cc:107-119 | a successful `getDATA` holds one rule per line between the markers, in order |
| `ParseTables.SkipToCfg` | wlp4parser.cc:93-105 | the loop computes `FindCfg`, with both header errors |
| `ParseTables.ReadCfg` | wlp4parser.cc:107-119 | the loop computes `ReadRules` |
| `ParseTables.ReadTransitionLines` | wlp4parser.cc:121-135 | the loop computes `ReadGotos`: goto lines up to `.REDUCTIONS` or the end |
| `ParseTables.ReadReductionLines` | wlp4parser.cc:137-147 | the loop computes `ReadReductions`: reduction lines to the end |
| `ParseTables.GetData` | wlp4parser.cc:91-148 | `getDATA` yields the tables `ReadData` describes, or its error |
| `ParseTree.RHSCreate` | wlp4parser.cc:166-173 | the loop builds `RhsText`, each symbol followed by a space |
| `ParseTree.RhsTextWords` | wlp4parser.cc:166-173 | the `RHScreate` text splits back into the right-hand side, and is empty exactly for an empty one |
| `ParseTree.Print` | wlp4parser.cc:37-44 | `print` writes the node's line, then each child's lines in order (`Render`) |
| `ParseTree.RenderSize` | wlp4parser.cc:37-44 | `print` writes one line per node |
| `ParseTree.RenderAllSize` | wlp4parser.cc:41-43 | the children's lines number as many as their nodes |
| `ParseTree.FrontierAllAppend` | wlp4parser.cc:188-202 | the leaves of two stacked tree runs are the leaves of each, in order |
| `ParseTree.PrintedRule` | wlp4parser.cc:37-44 | read back with the `Rule` constructor, a node's printed line gives the node's rule, `.EMPTY` included |
| `ShiftReduce.InputFromShape` | wlp4parser.cc:155-163 | one token per line then `EOF`; a line of two or more words gives its first two; a shorter line keeps the stale values |
| `ShiftReduce.ReadInputShape` | wlp4parser.cc:150-164 | `Input` is `BOF`, a token per line and `EOF` |
| `ShiftReduce.GetInput` | wlp4parser.cc:150-164 | the loop, with its stale `kind` and `lexeme`, builds `ReadInput` |
| `ShiftReduce.Parser.constructor` | wlp4parser.cc:236 | the state stack starts as `[0]` and the tree stack empty |
| `ShiftReduce.Parser.ReduceStates` | wlp4parser.cc:175-186 | pops `\|rhs\|` states and pushes the goto on the left-hand side (`ReduceStatesF`); the tree stack is unchanged |
| `ShiftReduce.Parser.ReduceTrees` | wlp4parser.cc:188-202 | the top `\|rhs\|` trees, in order, become one node's children (`ReduceTreesF`); the state stack is unchanged |
| `ShiftReduce.Parser.Shift` | wlp4parser.cc:204-212 | pushes the leaf in every case, then the goto on the token kind or `No transition` |
| `ShiftReduce.Parser.ReduceBy` | wlp4parser.cc:220-221 | one reduction: trees first, then states |
| `ShiftReduce.Parser.ReduceNext` | wlp4parser.cc:221-224 | one pass of the reduce loop performs the reduction, leaves a state on the stack, and looks up the rule for the new top state |
| `ShiftReduce.Parser.ReduceAll` | wlp4parser.cc:219-225 | the reduce loop leaves exactly the stacks `ReduceLoop` describes |
| `ShiftReduce.Parser.BeginParse` | wlp4parser.cc:214-232 | `beginparse` leaves exactly the stacks `ParseFrom` describes, or its error |
| `ShiftReduce.ReduceLoopStep` | wlp4parser.cc:218-225 | one pass of the reduce loop is one reduction followed by the rest of the loop |
| `ShiftReduce.ReduceKeepsState` | wlp4parser.cc:175-186 | a reduction that succeeds leaves a state on the stack |
| `ShiftReduce.ReduceLoopEmpty` | wlp4parser.cc:220 | with a reduction due and no fuel left, the loop gives up as unmodelled |
| `ShiftReduce.ReduceLoopDone` | wlp4parser.cc:220 | the loop stops, with the stacks unchanged, where the table has no reduction |
| `ShiftReduce.ReduceLoopRaw` | wlp4parser.cc:219-225 | read through `getReduction`'s raw answer, `INT_MIN` ends the loop unchanged and any other answer is the rule reduced next |
| `ShiftReduce.RunParser` | wlp4parser.cc:234-256 | `main` prints the preorder listing of the bottom tree, or reports the first error (`Program`) |
| `ShiftReduce.HasEofCons` | wlp4parser.cc:227-229 | an input holds `EOF` exactly when its first token or the rest does |
| `ShiftReduce.FoldFrontier` | wlp4parser.cc:188-202 | folding trees into a node keeps the leaves in order and leaves `\|trees\|-\|rhs\|+1` trees |
| `ShiftReduce.ReduceSafe` | wlp4parser.cc:175-202 | a reduction keeps one state more than trees, keeps the leaves, and never finds the state stack short or empty |
| `ShiftReduce.ShiftSafe` | wlp4parser.cc:204-212 | a shift keeps the stacks in lockstep, adds the token to the right of the leaves, and fails only with `No transition` |
| `ShiftReduce.ReduceLoopSafe` | wlp4parser.cc:217-225 | the reduce loop keeps the stacks in lockstep and never finds the state stack short or empty |
| `ShiftReduce.ReduceLoopLeaves` | wlp4parser.cc:219-225 | the reduce loop keeps the leaves as they were |
| `ShiftReduce.ReduceLoopStops` | wlp4parser.cc:219-225 | the reduce loop stops only where the table has no reduction for the top state and the token kind |
| `ShiftReduce.AdvanceSafe` | wlp4parser.cc:215-226 | one token keeps the stacks in lockstep, adds the token to the right of the leaves, and meets no stack error |
| `ShiftReduce.FinishSafe` | wlp4parser.cc:227-230 | the final reduction by the start rule keeps the leaves, leaves at least one tree and meets no stack error |
| `ShiftReduce.ParseFromSafe` | wlp4parser.cc:214-232 | parsing never meets `Invalid state stack` or an empty stack |
| `ShiftReduce.ParseFromLeaves` | wlp4parser.cc:214-232 | the leaves gain exactly the tokens up to the first `EOF`; after `EOF` some tree remains, before it the stacks stay in lockstep |
| `ShiftReduce.Accepted` | wlp4parser.cc:214-239 | from `[0]` and no trees, the leaves are the consumed tokens in order; a single final tree has them as its leaves and is what is printed |
| `ShiftReduce.ConsumedEof` | wlp4parser.cc:227-229 | the consumed input ends with its first `EOF` and holds no earlier one |
| `ShiftReduce.ProgramSafe` | wlp4parser.cc:234-245 | once the tables load, the program reports no stack error, and the leaves start with `BOF` and end with the first `EOF` |

## Left out

- Reading standard input, writing to `cout`/`cerr`, the `ERROR: ` prefix and the exit codes are not modelled. Lines come in as a sequence of strings. Tokens, printed lines and errors come out as values.
- The embedded DFA text of both scanners and the grammar file `wlp4data.h` are not part of this model. The loaders take any table text as a parameter.
- The assembly scanner prints a bare `NEWLINE` line. The model emits it as the token `("NEWLINE", "")`.
- The scanners print each token as a `kind lexeme` line. The model returns the token.
- `Tree` pointers, `addchild` and `delete` are not modelled: trees are values and no tree is shared.
- `Tree::print` ignores its `ostream` parameter and stores `.EMPTY` into `data.second`. The model renders the same lines without that side effect.
- A tree node stores its rule's symbols rather than the `RHScreate` string. The printed line is the same.
- `getDATA` returns the tables instead of pushing onto the globals `cfg` and `dfa`. The globals are empty before it runs, so the contents are the same.
- Table lines that are not `int word int` (gotos) or `int int word` (reductions), with decimal `int`s in range, are `Unmodelled`. On those lines the code pushes uninitialised or saturated integers.
- The reduce loop of `beginparse` can run forever on a cyclic table. The model gives it a fuel bound per token, and running out is `Unmodelled`.
- Undefined behaviour, modelled as `Unmodelled`:
  - `states.back()` on an empty stack (`ReduceSafe` and `ParseFromSafe` show it cannot happen from the initial stacks);
  - a reduction whose rule index is outside `cfg`;
  - `cfg[0]` of an empty grammar;
  - `treestack[0]` of an empty stack (ruled out by `Accepted` for inputs with `EOF`);
  - a `REGISTER` lexeme with no digit after its marker, where `copy[1]` is read past the end.
- A range from `\x80` (signed -128) to `\x7F` (127) makes the signed `char` loop wrap forever. It is `Unmodelled`.
- `reducetrees` computes `treestack.size() - len` in an `int`. The model assumes stacks shorter than 2^31.
- `MaxMunch.MaxMunch`: requires `Startable`, that the DFA's initial state does not accept. `Cuts`, `Tokenize`, `ScanLines` and `ScanProgram` carry the same precondition. The code accepts such DFAs, and on some lines it ends: a line read entirely along transitions ends normally, and an empty line calls `check_restrict(initial, "")` once and ends (wlp4scanner.cc:285). But whenever the initial state has no transition on the next character, the loop at wlp4scanner.cc:273-278 cuts an empty lexeme, calls `check_restrict(initial, "")` and starts over on the same character, forever. DFAs with an accepting initial state are outside the model.
- `Restrict.CheckRestrict`: uses the corrected NUM and DECINT checks (see Findings). The checks as written are `Restrict.NumCheckAsWritten` and `Restrict.DecintCheckAsWritten`.
- `ShiftReduce.ProgramSafe`: the stack-error half is stated for tables that load. For tables that do not load, the error is `getDATA`'s own.

## Findings

| source | as written | input that shows it | evidently intended | confidence | as-written member | corrected member |
|---|---|---|---|---|---|---|
| wlp4scanner.cc:239-241 | `stoul` is stored in a `signed long`, so values from 2^63 to 2^64-1 wrap to negatives before the `> 2147483647` test | a NUM lexeme `18446744073709551615` passes as a NUM | every NUM above 2^31-1 fails with `NUM out of range` | not executed | `Restrict.NumCheckAsWritten`, shown by `Restrict.WrapAccepted` | `Restrict.NumCheck`, proved by `Restrict.NumDigits` |
| mipsscanner.cc:228-231 | the same wrap happens before the `-2147483648..4294967295` test | a DECINT lexeme `18446744073709551615` passes | DECINT values outside -2^31..2^32-1 fail with `decint out of range` | not executed | `Restrict.DecintCheckAsWritten`, shown by `Restrict.WrapAccepted` | `Restrict.DecintCheck`, proved by `Restrict.DecintRange` |
