# PetaBricks, verified in part

A Dafny model of algorithmic cores of the PetaBricks compiler and tuner, with proofs of what they are for.

- **Maxima front end.** `ParserTables.dfy` and `ScannerTables.dfy` hold the packed tables of the generated parser and
  scanner, one source row to a line. `MaximaAutomaton`, `MaximaStack`, `MaximaParser` and `MaximaMeaning` prove the
  shift-reduce driver sound on its arrays; `MaximaCompleteness` proves that it finds every derivation that respects the
  precedence table, and that there is only one. `ScannerAutomaton` and `Scanner` prove the match loop and the refilled
  buffer; `LexicalRules` states the lexical rules, `ScannerRules` proves that the packed tables implement them, and
  `MaximaLexer` says what the tokens of a whole text are and `MaximaSpelling` what that means for its characters;
  `MaximaScan` computes them, and `MaximaReader` reads the formulas of an answer from its bytes.
- **Formulas.** `FormulaGrammar` proves that the parser of `FormulaParser` finds exactly the derivations that respect the
  precedence table, `FormulaPrecedence` what that means for operators, and `FormulaTokens` what the tokens of a text are.
  `FormulaSyntax` and `FormulaRoundTrip` say exactly which formulas survive printing and parsing;
  `FormulaEvolution` mutates formula objects in place and says what that does to the round trip.
- **Macros.** `Macros`, `MacroExpansion` and `MacroCalls` relate sequential text replacement to simultaneous substitution.
- **Rule bodies.** `RuleBodies.dfy` slices rule bodies out of a source with nested braces, comments and strings, by the
  lexical rules.
- **Runtime.** `BlockingQueue` is the monitor queue as a step system over any number of threads; `Allocator` is the
  per-thread free-list allocator on a word-addressed memory in which links, headers and user data share words.
- **Tuner.** `CallTree`, `ParallelJobs`, `InverseSearch`, `Selectors` and `Mutators` cover the walk over the call graph, the
  job runner, the bracketing search, random selectors, scores, delta-coded cutoffs and the sliding log.

Random choices, completions of jobs, sizes of reads and addresses from the system are nondeterministic choices or
parameters, so each theorem holds for all of them.

Where code and documentation disagree, the model follows the code:

- `evolveValue` promises to tell whether the formula was mutated; for a boolean it also answers yes when the new value is
  the old one, and a float can change so little that it is printed as before (`CanStaySame`).
- A macro call with too few arguments is meant to be an error; it is accepted when the text behind the call happens to
  supply the missing ones (`WrongNumberOfActuals`, `TooFewExample`).
- `rnd_loguniform` divides by the logarithm of `10*4`; only its range matters here.

## Model

| member | source | states |
|---|---|---|
| `MaximaMeaning.ParseReply` | src/libpbcompiler_a-maximaparser.cpp:1466-1921 | a parse succeeds exactly when the tokens start with a reply, that is with what a derivation of the grammar derives that respects the precedence table, for which the stacks suffice; they suffice for every input of fewer than 9998 tokens. The formulas are that derivation's meaning and keep its operands and operators, other than `=`, in order; no token behind the first input prompt is read |
| `MaximaParser.Parse` | src/libpbcompiler_a-maximaparser.cpp:1404-1921 | the driver terminates on every input; a completed parse is a derivation of START that derives exactly the tokens read and respects the precedence table; whenever such a derivation of a prefix exists the driver finds that very one, unless recognising it takes more symbols than the stacks can hold, and exactly then it runs out of memory; on any input it does so exactly if the automaton fills the stacks, for which it takes 9998 tokens |
| `MaximaParser.Driver.Turn` | src/libpbcompiler_a-maximaparser.cpp:1466-1625 | one turn is one step of the automaton on its stacks, a stop at a reply, or a stop where the tables have no move; each turn brings the end nearer |
| `MaximaParser.Driver.Prepare` | src/libpbcompiler_a-maximaparser.cpp:1476-1625 | making room and reading the lookahead change neither stacks nor tokens, and the move chosen is the one for the next token even where none was read |
| `MaximaParser.Driver.EnsureRoom` | src/libpbcompiler_a-maximaparser.cpp:1476-1548 | growing copies both stacks and fails exactly at YYMAXDEPTH |
| `MaximaParser.Driver.Fetch` | src/libpbcompiler_a-maximaparser.cpp:1558-1581 | the lookahead is read only where the state needs it; the end of the stream reads as token 0 |
| `MaximaParser.Driver.ShiftToken` | src/libpbcompiler_a-maximaparser.cpp:1603-1617 | a shift pushes state and value of the next token on stacks of equal height and uses the token up |
| `MaximaParser.Driver.ReduceBy` | src/libpbcompiler_a-maximaparser.cpp:1630-1921 | a reduction pops exactly its right side, never more than there is, pushes the value that the new derivation denotes, and lowers the bound on reductions; rules 2 and 3 end the parse with the derivation of all tokens read |
| `MaximaParser.Driver.Replace` | src/libpbcompiler_a-maximaparser.cpp:1908-1921 | popping a right side and pushing one symbol keeps state and value stacks the same height |
| `MaximaParser.ReductionShrinks` | src/libpbcompiler_a-maximaparser.cpp:587-735 | only finitely many reductions can follow one another, also with the empty rule |
| `MaximaParser.PromptNeedsNoLook` | src/libpbcompiler_a-maximaparser.cpp:609-656 | the states that close a reply are entered without a lookahead, so nothing behind the prompt is read |
| `MaximaParser.ActionCarries` | src/libpbcompiler_a-maximaparser.cpp:1645-1885 | a semantic action computes what the new derivation denotes, whatever stale slot the default value of an empty right side reads |
| `MaximaGrammar.Action` | src/libpbcompiler_a-maximaparser.cpp:1645-1885 | every action finds operands of the kinds it reads and leaves a value of the kind its left side has |
| `MaximaAutomaton.ShiftStacks` | src/libpbcompiler_a-maximaparser.cpp:632-745 | every shift of the packed tables enters a state whose symbol is the token and which may stand above the old state |
| `MaximaAutomaton.GotoStacks` | src/libpbcompiler_a-maximaparser.cpp:623-745 | every goto enters a state of the nonterminal that may stand above the uncovered state |
| `MaximaAutomaton.ReductionFits` | src/libpbcompiler_a-maximaparser.cpp:587-745 | on every stack that the automaton can build, a reduction finds its whole right side on top |
| `MaximaAutomaton.ReductionEndsPhrase` | src/libpbcompiler_a-maximaparser.cpp:656-745 | the tables complete an operator's phrase before a token only where the precedence table says so |
| `MaximaAutomaton.ReductionsAreDefaults` | src/libpbcompiler_a-maximaparser.cpp:609-745 | no lookahead chooses a reduction: all of them are defaults of their states |
| `MaximaAutomaton.NothingShiftsError` | src/libpbcompiler_a-maximaparser.cpp:656-745 | no state shifts the error token, so the first syntax error ends the parse |
| `MaximaStack.ShiftKeeps` | src/libpbcompiler_a-maximaparser.cpp:1593-1617 | a shift keeps the stack of derivations, each complete before the one above it |
| `MaximaStack.ReduceKeeps` | src/libpbcompiler_a-maximaparser.cpp:1619-1921 | a reduction keeps the stack of derivations, their tokens and their grouping |
| `MaximaStack.StackNeedsTokens` | src/libpbcompiler_a-maximaparser.cpp:1476-1548 | all symbols on a stack derive tokens, but for one at most, so deep stacks need long inputs |
| `MaximaCompleteness.EndReduces` | src/libpbcompiler_a-maximaparser.cpp:609-745 | a completed right side is reduced before every token that may follow it |
| `MaximaCompleteness.ShiftsInfix` | src/libpbcompiler_a-maximaparser.cpp:632-745 | an infix operator is shifted wherever the precedence table lets its phrase begin |
| `MaximaCompleteness.Path` | src/libpbcompiler_a-maximaparser.cpp:587-745 | where a derivation by a rule may begin, the automaton can follow the whole right side to the state that reduces it |
| `MaximaCompleteness.Recognises` | src/libpbcompiler_a-maximaparser.cpp:1466-1921 | from any stack, the automaton turns the tokens of a derivation that fits there and respects the precedence table into that derivation, and the depth of its stack on the way is exactly the height of that derivation |
| `MaximaCompleteness.PeakOn` | src/libpbcompiler_a-maximaparser.cpp:1476-1548 | the deepest stack of a run is the deepest of its parts |
| `MaximaCompleteness.RepliesLead` | src/libpbcompiler_a-maximaparser.cpp:1466-1921 | every reply leads the automaton from its start to the end of that reply, and the stacks have room exactly if they suffice for its derivation |
| `MaximaCompleteness.OneReply` | src/compiler/maximaparser.ypp:81-152 | the precedence table leaves no ambiguity: tokens start with at most one reply, which has one derivation |
| `MaximaMeaning.ReplyEndsAtFirstPrompt` | src/compiler/maximaparser.ypp:91-106 | a reply contains no input prompt but its last token |
| `MaximaMeaning.ValueKeepsText` | src/compiler/maximaparser.ypp:108-152 | the formulas hold the operands and the operators, other than `=`, of the text in the order in which they were written |
| `MaximaReader.ReadFormulas` | src/compiler/maximaparser.ypp:156-160 | from the bytes of an answer: formulas are read exactly if its tokens, cut off by the lexical rules, start with a reply for which the stacks suffice, and they are its meaning; read from left to right, they are the words of the answer up to its first input prompt: names, numbers, `true`, `false`, `if`, `then`, `else` and the operator signs, each as it is spelled |
| `MaximaReader.WordOfText` | src/compiler/maximalexer.lpp:68-103 | what a token text leaves in the formulas: names and numbers as they are, keywords and signs in lower case, grouping signs, separators, equality and rounding nothing |
| `ScannerAutomaton.DefaultsEnd` | src/libpbcompiler_a-maximalexer.cpp:836-842 | following the defaults of a lookup always ends |
| `ScannerAutomaton.EndMark` | src/libpbcompiler_a-maximalexer.cpp:830-846 | an end-of-buffer mark leads from every state to the end-of-buffer state and the next byte jams |
| `ScannerAutomaton.StopDecides` | src/libpbcompiler_a-maximalexer.cpp:830-858 | where the scan stops, the text read or the remembered match is the longest match |
| `ScannerRules.TablesImplementRules` | src/compiler/maximalexer.lpp:68-103 | for every text and start condition, the packed tables accept exactly with the first rule whose regular expression matches the text |
| `ScannerRules.ItemStep` | src/libpbcompiler_a-maximalexer.cpp:403-545 | a table step moves the position in every pattern that is still alive over the byte read |
| `Scanner.MaximaScanner.Transition` | src/libpbcompiler_a-maximalexer.cpp:836-842 | the next state is found through the chain of defaults |
| `Scanner.MaximaScanner.MatchLoop` | src/libpbcompiler_a-maximalexer.cpp:829-846 | the match loop runs to a state without transitions or over the next NUL, and remembers the last match |
| `Scanner.MaximaScanner.PreviousState` | src/libpbcompiler_a-maximalexer.cpp:1276-1301 | the recomputed state equals the one lost at the end of the buffer, and so does the record of the last match |
| `Scanner.MaximaScanner.TryNul` | src/libpbcompiler_a-maximalexer.cpp:1308-1330 | a NUL of the text is an ordinary byte |
| `Scanner.MaximaScanner.Grow` | src/libpbcompiler_a-maximalexer.cpp:1188-1223 | growing doubles the buffer until more fits and keeps the pending text |
| `Scanner.MaximaScanner.NextBuffer` | src/libpbcompiler_a-maximalexer.cpp:1142-1270 | a refill of any size keeps pending text and file in order, the two end marks and the capacity; the end of the file is reported only when nothing is pending |
| `Scanner.MaximaScanner.EndOfBuffer` | src/libpbcompiler_a-maximalexer.cpp:1009-1128 | at a mark or NUL the scan goes on with the text it had, stops where no longer match exists, or ends the file |
| `Scanner.MaximaScanner.FindAction` | src/libpbcompiler_a-maximalexer.cpp:848-858 | the action is that of the state reached or of the remembered match, whose text is terminated by a NUL |
| `Scanner.MaximaScanner.Match` | src/libpbcompiler_a-maximalexer.cpp:819-1134 | one token is the longest prefix of the rest of the file that matches a rule, with that rule, and nothing else is used up, however the file is split into reads |
| `MaximaLexer.MatchIsLongest` | src/libpbcompiler_a-maximalexer.cpp:829-858 | the automaton's longest match is the longest match by the regular expressions |
| `MaximaSpelling.TokensAreCut` | src/compiler/maximalexer.lpp:68-103 | for every text: its tokens are the longest ones from left to right, all that spells a symbol between an output prompt and the next input prompt and only prompts elsewhere; nothing but blanks is passed over in an output, and each token carries the symbol that its text spells |
| `MaximaSpelling.CutsOnce` | src/compiler/maximalexer.lpp:68-103 | a text can be cut into such tokens in one way only |
| `MaximaSpelling.SpelledIsToken` | src/compiler/maximalexer.lpp:79-98 | every spelling of a symbol is matched first by the rule that returns that symbol |
| `MaximaSpelling.OneSymbol` | src/compiler/maximalexer.lpp:79-98 | no text spells two symbols; words are names only if they are no keywords in any case |
| `MaximaScan.NextToken` | src/libpbcompiler_a-maximalexer.cpp:781-1134 | a call skips the rules without token and returns the next token of the specification, whose text is the first longest token of the rest and spells its symbol |
| `MaximaScan.ScanFile` | src/libpbcompiler_a-maximalexer.cpp:781-1134 | for every file and every way its reads are split, the tokens are those of maximal munch by the lexical rules, up to the first unhandled byte; they cut the text as its characters ask, each with the symbol that it spells |
| `FormulaSyntax.LexPrint` | scripts/formula.py:98-139 | a printed formula is cut into exactly its tokens, in front of any text that cannot extend it |
| `FormulaSyntax.PrintedTokens` | scripts/formula.py:98-139 | the text of a formula lexes to its tokens |
| `FormulaTokens.ScanFinds` | scripts/maximaparser.py:14-48 | where a token is scanned its text stands: signs and keywords as they are spelled, names that are no keywords, numbers |
| `FormulaTokens.ScanLongest` | scripts/maximaparser.py:14-48 | no longer text is that of a token and no other token has the same text; a token is found wherever the text of one stands |
| `FormulaTokens.LexKeepsText` | scripts/maximaparser.py:14-48 | the tokens of any text, written one after another, are the text without its white space |
| `FormulaRoundTrip.ParsePrinted` | scripts/maximaparser.py:51-185 | every printed formula with legible names parses, to a formula that is given exactly |
| `FormulaRoundTrip.OnlyStableReread` | scripts/maximaparser.py:51-58 | a formula that comes back unchanged has no negative literal, no `if` left of an arithmetic operator and no stolen `else` |
| `FormulaRoundTrip.ParseLegible` | scripts/maximaparser.py:14-48 | whatever is parsed, names are unreserved identifiers |
| `FormulaRoundTrip.RoundTrip` | scripts/formula.py:98-139 | for all formulas: printing and parsing is the identity exactly if names are legible and the shape is stable |
| `FormulaRoundTrip.RegroupedExample` | scripts/formula.py:104-139 | the smallest formula that an arithmetic operator regroups |
| `FormulaGrammar.ParserFindsDerivations` | scripts/maximaparser.py:51-185 | the parser accepts exactly what some derivation of the grammar derives that respects the precedence table, with the meaning of that derivation, which is the same for all of them |
| `FormulaGrammar.Parses` | scripts/maximaparser.py:51-185 | in every context that it fits, a derivation that respects the table is parsed to its meaning |
| `FormulaGrammar.SoundOperand` | scripts/maximaparser.py:51-185 | whatever is parsed has a derivation that respects the table |
| `FormulaPrecedence.TwoOperators` | scripts/maximaparser.py:51-58 | for all operands and operators, `a p b q c`: `^` before `*` `/`, before `+` `-`, before comparisons, before `and` `or`; of one class the left operator first, and two comparisons are an error |
| `FormulaPrecedence.MinusFirst` | scripts/maximaparser.py:51-58 | `- b q c`: the sign takes products and powers with it |
| `FormulaPrecedence.MinusSecond` | scripts/maximaparser.py:51-58 | `a p - b q c`, likewise behind another operator |
| `FormulaPrecedence.IfOperator` | scripts/maximaparser.py:51-58 | `if a then b q c`: the branch takes arithmetic, comparisons and logic take the whole `if` |
| `FormulaPrecedence.ElseOperator` | scripts/maximaparser.py:51-58 | `if a then b else c q d`, likewise |
| `FormulaPrecedence.DanglingElse` | scripts/maximaparser.py:51-58 | `if a then if b then c else d`: the `else` belongs to the inner `if` |
| `FormulaPrecedence.ConditionOperator` | scripts/maximaparser.py:51-58 | `if a p b then c`: the condition takes every operator |
| `FormulaPrecedence.BranchOperator` | scripts/maximaparser.py:51-58 | `if a then b p c else d`: the branch takes arithmetic, and any other operator is an error |
| `FormulaPrecedence.OperatorIf` | scripts/maximaparser.py:51-58 | `a p if b then c q d`: arithmetic goes into the branch, otherwise the `if` is the middle operand of `p` and `q` |
| `FormulaEvolution.Node.EvolveValue` | scripts/formula.py:14-157 | mutation in place replaces exactly one value, or nothing if there is none, and says which; an integer really changes |
| `FormulaEvolution.Node.EvolveClauses` | scripts/formula.py:142-157 | of the clauses of an `if` that have a value exactly one is changed, or none if none has a value |
| `FormulaEvolution.CanStaySame` | scripts/formula.py:53-95 | as far as texts of values tell, a mutation can leave the printed formula as it was exactly if the formula holds a boolean or a float other than zero |
| `FormulaEvolution.SameExample` | scripts/formula.py:64-69 | a formula that can be mutated to itself |
| `FormulaEvolution.EvolvedRoundTrip` | scripts/formula.py:104-126 | after a mutation a formula still comes back exactly if its integers are not negative and its floats legible |
| `Macros.MarkersDiffer` | scripts/preprocessor.py:938 | different parameters have different markers |
| `Macros.DecimalReads` | scripts/preprocessor.py:938 | a number is written in digits without leading zeros that stand for it |
| `Macros.IdentifierCharacters` | scripts/preprocessor.py:918-927 | words consist of letters, digits and the underscore, listed one by one |
| `Macros.ReplaceWord` | scripts/preprocessor.py:929-943 | one pass replaces exactly the whole words equal to the parameter |
| `MacroExpansion.Compose` | scripts/preprocessor.py:929-943 | two passes in a row are one pass with more names |
| `MacroExpansion.GenerateTemplate` | scripts/preprocessor.py:929-943 | the template is the body with all parameters replaced at once by `$i` |
| `MacroExpansion.FillEvolves` | scripts/preprocessor.py:993-1015 | for any actuals and any number of parameters, each parameter is replaced by what the replacements make of its own marker |
| `MacroExpansion.FillIs` | scripts/preprocessor.py:993-1015 | for actuals without `$` and any number of parameters, what the sequence of replacements makes of the template |
| `MacroExpansion.FillIsSimultaneous` | scripts/preprocessor.py:993-1015 | replacing `$0`, `$1`, … one after another is the simultaneous substitution for all `$`-free actuals exactly if the body uses no parameter beyond the tenth |
| `MacroExpansion.ActualSurvives` | scripts/preprocessor.py:1015 | one of the first ten actuals survives, whatever the others are, exactly if it holds no marker of a later parameter |
| `MacroExpansion.FillUnmarked` | scripts/preprocessor.py:993-1015 | actuals that all survive are substituted all at once |
| `MacroExpansion.DollarExample` | scripts/preprocessor.py:1015 | an actual with a `$` that does not survive |
| `MacroCalls.FindActualEnd` | scripts/preprocessor.py:994-1006 | an actual ends at the first comma or parenthesis outside of parentheses |
| `MacroCalls.ReplaceMacro` | scripts/preprocessor.py:979-1023 | the result of a call in every case: no whole word, no parenthesis, too few or too many arguments, or the expansion, which only for a block loses the blanks and semicolons at its ends |
| `MacroCalls.StrippedOnce` | scripts/preprocessor.py:1020-1021 | what a text is without the blanks and semicolons at its ends is one text only |
| `MacroCalls.BalancedIff` | scripts/preprocessor.py:994-1006 | actuals are balanced exactly if as many parentheses close as open, none before it opens, and every comma stands inside some |
| `MacroCalls.SplitsExactly` | scripts/preprocessor.py:993-1011 | balanced actuals are split out exactly; if more are wanted the split runs on behind the call |
| `MacroCalls.CallExpands` | scripts/preprocessor.py:979-1023 | a call with as many actuals as parameters, none of which holds the marker of a later parameter, becomes exactly the simultaneous whole-word substitution in the body between the texts before and behind the call; of a block, the slice of it that is left when all blanks and semicolons at its ends are cut off |
| `MacroCalls.WrongNumberOfActuals` | scripts/preprocessor.py:1008-1018 | too many actuals are always reported; too few are accepted exactly if the text behind the call supplies the rest |
| `MacroCalls.TooFewExample` | scripts/preprocessor.py:1007-1018 | a call with one actual for two parameters that is accepted |
| `RuleText.MatchAdvances` | src/libpbcompiler_a-pblexer.cpp:1381-1476 | one match of the scanner advances a rule body the way its characters do, in code, comments, strings and at line marks |
| `RuleText.MunchIsBest` | src/compiler/pblexer.lpp:184-222 | in every condition and for every text, the match is the longest by the regular expressions of rules 49 to 67, and of equally long ones that of the first rule |
| `RuleText.HeaderIsMark` | src/libpbcompiler_a-pblexer.cpp:1273 | the position header is itself a line mark, ending at its line break |
| `RuleBodies.PbLexer.PushState` | src/libpbcompiler_a-pblexer.cpp:2270-2292 | the stack of start conditions keeps its contents when it grows |
| `RuleBodies.PbLexer.PopState` | src/libpbcompiler_a-pblexer.cpp:2294-2300 | popping returns to the condition below; an underflow is reported |
| `RuleBodies.PbLexer.OpenRule` | src/libpbcompiler_a-pblexer.cpp:1266-1275 | the opening brace enters the rule condition with nesting 1 and starts the log with `# `, digits that stand for the line, a blank, the file and a line break |
| `RuleBodies.PbLexer.Act` | src/libpbcompiler_a-pblexer.cpp:1381-1476 | every action changes condition, nesting and stack as the brace structure asks, without underflow |
| `RuleBodies.PbLexer.ScanRuleBody` | src/libpbcompiler_a-pblexer.cpp:1381-1476 | the body ends exactly at the brace that closes it outside of comments and strings; its text is the header and the exact slice of the source, and the stack is back at its depth |
| `RuleBodies.PbLexer.ReadRuleBody` | src/libpbcompiler_a-pblexer.cpp:1266-1476 | from the opening brace to the closing one: the text is `# `, digits that stand for the line, a blank, the file, a line break and the exact slice of the source, and conditions and stack are as before |
| `BlockingQueue.StepKeepsInv` | src/common/jblockingqueue.h:51-113 | every step of push, pop, tryPop and clear keeps mutual exclusion, enough wakeups and the history of a stack |
| `BlockingQueue.NeverTakesFromEmpty` | src/common/jblockingqueue.h:71-103 | no run takes from an empty queue, whatever the unlocked check saw |
| `BlockingQueue.MoveOnQueue` | src/common/jblockingqueue.h:55-113 | in every run a push adds in front the element that its thread entered `push` with, a take drops the front, a clear leaves nothing, and no other move changes the queue |
| `BlockingQueue.PushesAreConserved` | src/common/jblockingqueue.h:55-113 | in every run the elements of all completed pushes are those that takes found in front, those that clears found and those still queued |
| `BlockingQueue.HistoryIsEvents` | src/common/jblockingqueue.h:55-113 | the history is the list of completed pushes, with the elements they were called with, of takes and of clears |
| `BlockingQueue.NothingLost` | src/common/jblockingqueue.h:51-113 | in every run pushed elements are those popped, queued and cleared, and pops take the newest first |
| `BlockingQueue.HolderIsAlone` | src/common/jblockingqueue.h:55-113 | while a thread holds the lock and makes no move, no other thread changes the queue or the holder |
| `BlockingQueue.TestDecides` | src/common/jblockingqueue.h:71-103 | a thread that finds the queue filled under the lock takes, with its next move, the element that was in front then |
| `BlockingQueue.ThreadFollowsCode` | src/common/jblockingqueue.h:51-113 | in every run the moves of each thread follow the code of push, pop, tryPop and clear one after another; without a wakeup only a signal ends a wait |
| `BlockingQueue.FirstMove` | src/common/jblockingqueue.h:51-113 | a thread starts with the beginning of an operation |
| `BlockingQueue.SignalledSince` | src/common/jblockingqueue.h:64-75 | a thread that counts as signalled was sent a signal and has not moved since |
| `BlockingQueue.WaitingSince` | src/common/jblockingqueue.h:71-75 | a thread that waits found the queue empty and was not signalled since |
| `BlockingQueue.NeverStuck` | src/common/jblockingqueue.h:51-113 | in every run the thread that holds the lock can go on, and when nobody does every thread can |
| `BlockingQueue.NoLostWakeup` | src/common/jblockingqueue.h:64-75 | in every run, if the lock is free and a thread waits, there are at least as many signalled threads as elements, and one of them can go on |
| `BlockingQueue.Conservation` | src/common/jblockingqueue.h:51-113 | a history whose pops follow a stack conserves its elements |
| `AllocatorState.CarvedBlock` | src/common/jalloc.cpp:161-170 | the chunks carved out of a block lie inside it and do not overlap |
| `AllocatorState.ChunksPerBlock` | src/common/jalloc.cpp:164 | as many chunks as fit into a block, and no further one |
| `AllocatorState.LevelOf` | src/common/jalloc.cpp:255-265 | the smallest size class that holds the request, if one does |
| `AllocatorState.EveryChunkOnce` | src/common/jalloc.cpp:137-181 | a chunk is in use or on the list of exactly one thread, exactly once |
| `AllocatorState.LiveAndFree` | src/common/jalloc.cpp:161-170 | chunks in use and free chunks of a class are expansions times chunks per block; every operation says exactly which chunks and how many expansions it adds |
| `AllocatorState.StoreKeeps` | src/common/jalloc.cpp:144-158 | what programs write into their blocks never damages a free list, a header or another block |
| `Allocators.Allocator.Expand` | src/common/jalloc.cpp:161-170 | a new block of new chunks is linked on top of the list; no other chunk changes, and the level counts one expansion more |
| `Allocators.Allocator.StackAllocate` | src/common/jalloc.cpp:144-151 | an allocation hands out the top chunk, which nobody holds, and leaves all data in use alone; exactly an empty stack first gets a block, and no chunk is lost |
| `Allocators.Allocator.StackDeallocate` | src/common/jalloc.cpp:154-158 | a chunk goes on top of the freeing thread's list, whoever allocated it; nothing else changes its place |
| `Allocators.Allocator.Allocate` | src/common/jalloc.cpp:255-265 | a request gets the top chunk of its size class, or its own memory; the pool changes by nothing else |
| `Allocators.Allocator.Deallocate` | src/common/jalloc.cpp:266-275 | a block goes back to the class of its size, on top of the list; no chunk is lost |
| `Allocators.Allocator.New` | src/common/jalloc.cpp:281-286 | the block carries its size in the word before it; the pool changes as for any request of 8 bytes more |
| `Allocators.Allocator.Delete` | src/common/jalloc.cpp:292-297 | on any thread, a block goes back to the size class that `new` took it from |
| `Allocators.Allocator.Copy` | src/common/jalloc.cpp:93 | byte for byte the copy of `memcpy`; between blocks in use, bytes that fit damage nothing else |
| `Allocators.Allocator.Reallocate` | src/common/jalloc.cpp:90-96 | for every old and new size: exactly if the old contents fit into what the new request gets, moving a block keeps them, frees the old block once, on top of its own list, and leaves others alone; otherwise the copy runs over the end of the new block. The pool changes by that request and that return only |
| `AllocatorState.CopyStaysInside` | src/common/jalloc.cpp:93 | whatever memory holds, the copy changes nothing outside of the new block exactly if the old size is at most the bytes that the new request gets |
| `AllocatorState.CopiedByte` | src/common/jalloc.cpp:93 | exactly the bytes of the new block are replaced, each by that of the old block |
| `Allocators.ShrinkingBreaksAList` | src/common/jalloc.cpp:90-96 | on a fresh thread, moving 192 bytes to the class of 64 overwrites the link in the next free chunk, so its list is broken |
| `CallTree.Walker.Walk` | scripts/oldtuner.py:150-158 | the recursion visits what it can newly reach, in a tree of calls, and counts seen callees |
| `CallTree.WalkCallTree` | scripts/oldtuner.py:147-159 | on any finite call graph the walk ends, enters and leaves exactly the transforms that can be reached, each once, nested as entries and exits of a depth-first traversal; each is entered with the number of its calls of transforms entered before or of itself |
| `CallTree.Walker.CountSeen` | scripts/oldtuner.py:151 | the number of calls whose callee has been seen |
| `CallTree.EventsOfTree` | scripts/oldtuner.py:150-158 | entries are the preorder of the tree and exits its names once more |
| `ParallelJobs.Runner.Spawn` | scripts/pbutil.py:171-173 | jobs start in order while fewer than the limit run, and none that may start is left |
| `ParallelJobs.Runner.UpdateStatus` | scripts/pbutil.py:155-163 | messages come out in order up to the first missing job, and none that may be printed is left |
| `ParallelJobs.Runner.Complete` | scripts/pbutil.py:187-192 | after a round the jobs running are the old ones that did not complete, in their order, and the jobs done are the old ones and the running ones that completed, each as often as before |
| `ParallelJobs.WhereJobsAre` | scripts/pbutil.py:165-192 | in every run that was not interrupted a job is done exactly if some round after its start found it completed, runs if it was started and no such round did, and is pending otherwise |
| `ParallelJobs.Runner.Interrupt` | scripts/pbutil.py:193-200 | an interrupt of the wait prints the messages of all jobs that were started |
| `ParallelJobs.Runner.Run` | scripts/pbutil.py:140-203 | what happens is a run of starts, prints and rounds in the order of the loop, for every sequence of completions; at its end all messages were printed in order, each once, and it is interrupted only when all rounds are used up and fewer of them than there are jobs completed one |
| `ParallelJobs.RunsAreSound` | scripts/pbutil.py:140-203 | in every state of every run, jobs start in order, no more run than the limit allows, each started job is running or done, and the messages printed are those of jobs 0, 1, … that are done |
| `ParallelJobs.EachJobOnce` | scripts/pbutil.py:140-203 | pending, running and done partition the jobs |
| `ParallelJobs.ProgressIsBounded` | scripts/pbutil.py:186-192 | there are no more rounds in which a job completes than jobs |
| `ParallelJobs.Drained` | scripts/pbutil.py:194-203 | where no job runs and nothing can be printed, the messages of all started jobs were printed |
| `InverseSearch.SearchWithin` | scripts/pbutil.py:521-537 | from a bracket the search ends within the threshold, between the ends, after logarithmically many guesses |
| `InverseSearch.SearchWithoutBracket` | scripts/pbutil.py:521-529 | otherwise it returns an end of the interval, or fails exactly if the values are the wrong way round |
| `InverseSearch.InverseFound` | scripts/pbutil.py:521-537 | for every Lipschitz function: an end of the interval or a value within the threshold |
| `Selectors.NeverDisabled` | scripts/highlevelconfig.py:116-129 | a drawn cutoff can reach the disabled value exactly if n is at least 2 to the 21st |
| `Selectors.DrawnBound` | scripts/highlevelconfig.py:124-127 | cutoff i is at most 2^(i-2) times n, and cutoffs do not decrease |
| `Selectors.Selector.Randomize` | scripts/highlevelconfig.py:116-129 | a random selector has sorted enabled cutoffs followed by disabled ones |
| `Selectors.Selector.MutateChance` | scripts/highlevelconfig.py:131-149 | for every n and every outcome, safe enabled cutoffs stay sorted, within [1, n] if they were, and enabled ones come first; at most one level is enabled, and one is lost only if n reaches the disabled value |
| `Selectors.StaysOrderly` | scripts/highlevelconfig.py:131-149 | enabled sorted cutoffs stay sorted for every outcome exactly if the second is at least 1 and the last enabled one is at most n; where all levels are enabled, if the one before the last is at most n plus 1 |
| `Selectors.DrawnCanBreak` | scripts/highlevelconfig.py:116-149 | cutoffs 50, 150, 300 drawn for n equal to 100 can be brought out of order by a mutation for the same n |
| `RocScore.ComputeRocScore` | scripts/mutators.py:33-53 | the score is the number of pairs of an own entry before another's |
| `RocScore.ScoreAndReverse` | scripts/mutators.py:33-53 | the scores of a log and of its reverse add up to own entries times others |
| `Cutoffs.GetCutoffs` | scripts/mutators.py:455-468 | reading gives the differences of the enabled levels |
| `Cutoffs.SetCutoffs` | scripts/mutators.py:470-483 | writing gives the sums of the deltas, less what they have lost at the maximum so far, and the maximum behind the last delta; non-negative deltas give sorted levels |
| `Cutoffs.ExcessIsLargest` | scripts/mutators.py:474-479 | what is lost at the maximum is at least the excess of every sum so far |
| `Cutoffs.ExcessIsReached` | scripts/mutators.py:474-479 | and if anything is lost, it is the excess of one of those sums |
| `Cutoffs.WriteThenRead` | scripts/mutators.py:455-483 | cutoffs can be read back exactly if there are levels for them and their sums stay below the maximum |
| `Cutoffs.ReadThenWrite` | scripts/mutators.py:455-483 | writing back what was read keeps the enabled levels and disables all others |
| `MutatorLogs.MutatorLog.Add` | scripts/onlinelearning.py:77-84 | after any number of additions the log holds exactly the last entries of the window |
| `MutatorLogs.SortSorts` | scripts/onlinelearning.py:87-109 | a sorted view is a permutation in the order of its key, and the entries with one key stand in it in their old order |
| `MutatorLogs.WithKeyPicks` | scripts/onlinelearning.py:87-109 | the entries with one key are those at all places of that key, in order |

## Left out

- MaximaParser.Parse: error messages, locations and the recovery code, which no table entry can reach, are not modelled.
- MaximaGrammar.Action: the conversions of number texts by jconvert.h and the formula classes of the compiler are not part of this model; numbers stay texts.
- Scanner.MaximaScanner.Grow: sizes are unbounded, so the wrap-around of a doubled buffer size is not modelled; neither are failing reads and allocations.
- MaximaReader.ReadFormulas: the model cuts off all tokens before it parses, the program as the parser asks for them; an answer that does not start with a reply is rejected without telling a syntax error from a byte that no rule matches.
- MaximaScan.NextToken: the ring of 64 string copies behind the token texts is not modelled.
- FormulaRoundTrip.RoundTrip: a float is the text that Python prints for it; the recovery of the parser generator after a syntax error is not modelled, a syntax error is a failed parse.
- FormulaEvolution.CanStaySame: a float is its printed text, so the smallest floats, which like zero are never printed as before, are not told apart from others.
- MacroCalls.ReplaceMacro: the loop that looks for further macros in the result, and defined constants, are not modelled.
- RuleBodies.PbLexer.ScanRuleBody: matches are those of the lexical rules of the four conditions inside a body; the packed tables of that scanner, the line counter, which line marks set, and code outside of rule bodies are not modelled.
- BlockingQueue.StepKeepsInv: the mutex is a standard one with a condition variable, since jmutex.h is not part of this model; statistics, `empty` and `size` are left out.
- Allocators.Allocator.Reallocate: where the copy runs over the end of the new block, the model stops behind the copy; what freeing the old block does to a damaged list is not modelled.
- Allocators.Allocator.Allocate: calls are atomic, sizes are unbounded, and the system always supplies memory; the globally locked variant is not modelled.
- ParallelJobs.Runner.Run: processes, pipes and the status line; a run is a finite list of rounds, and an interrupt comes only while the runner waits; between two statements it could lose jobs that have just completed.
- InverseSearch.InverseFound: exact reals instead of floating point.
- Selectors.Selector.MutateChance: random draws are any integers within their bounds; how likely they are, and that rounding can let `random.uniform` return its upper end, is not modelled.
- MutatorLogs.MutatorLog.Add: the window holds at least one entry.
- The matrix reader, the other generated parsers and scanners, and the fixpoint of macro replacement.
- Hill climbing of selectors, rescaling of cutoffs, and all statistics of the tuner.
- Input and output, subprocesses, configuration files and databases.
