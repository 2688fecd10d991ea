# A boolean knowledge engine, modelled in Dafny

The engine keeps three things:
- named descriptions (`define`);
- a set of facts, which are symbols known to be true (`assign`);
- a list of rules `lhs -> rhs` (`imply`).

A rule's left-hand side is an infix expression over symbols with `!`, `&`, `|` and brackets. `imply` splits it at single spaces and compiles it to postfix with an operator-precedence (shunting-yard) converter, `to_postfix`. `deduct` evaluates postfix code on a boolean stack against the current facts. `learn` runs the rules forward, pass after pass, until a pass adds no fact.

This project models that core, meaning `pa1/pa1.py` lines 3-99, as pure Dafny functions over an explicit state value. It then proves what the code actually does, quirks included:
- `&` and `|` share precedence 1, so every flat chain groups from the left: `a | b & c` means `(a | b) & c`.
- The pop loop pops on a tie. Hence `! ! a` compiles to `! a !`, which always underflows.
- `deduct` uses Python's short-circuiting `pop() and pop()`. A deciding first operand leaves the second on the stack, and the result is whatever ends on top.

Modules, one concept each:

- `Results` (`results.dfy`): the two ways the core can fail. These are the `IndexError`s of `operators[-1]` in `to_postfix` and of `pop()`/`operands[-1]` in `deduct`.
- `Tokens` (`tokens.dfy`): words and tokens, `str.split(' ')` and its inverse `' '.join`, ASCII `lower()`, and the precedence table.
- `Compiler` (`compiler.dfy`): `to_postfix`, step by step. Its theorems cover:
  - when it fails;
  - that symbols keep their order;
  - that for balanced input the output is the input without brackets, as a multiset;
  - what the pop loop and the `)` loop remove.
- `Evaluator` (`evaluator.dfy`): `deduct`, token by token, with the exact short-circuit stack behaviour.
- `Formulas` (`formulas.dfy`): an independent reference semantics. It has expression trees, their classical truth and their postfix code, and it relates the real converter and evaluator to it:
  - the converter turns bracketed text into the tree's code;
  - any flat chain compiles to the left-grouped tree's code;
  - `deduct` agrees with classical truth at least on trees whose right operands are literals;
  - it does not agree on every tree: a concrete tree outside that class shows the difference.
- `KnowledgeBase` (`kb.dfy`): the state record and the four commands. `learn` appears twice:
  - as a function that terminates on a measure (the consequents not yet known);
  - as the loop the engine runs, proved equal to it.

  It also has the fixpoint and idempotence theorems.
- `Scenarios` (`scenarios.dfy`): worked sessions from the words of a command to the result.

Where the conventional reading of the engine's commands (`Teach`, `Learn`, `Query`, `Why`) differs from its code, the model follows the code:
- The conventional reading ranks `!` above `&` above `|`. The code's table gives `&` and `|` the same rank 1 and `!` rank 2.
- The conventional reading assumes a character-level tokenizer. The code splits at single spaces, so `!c` written without a space is one symbol word, not a negation. Its example `a & b | !c` is modelled both ways:
  - `Scenarios.SpacedNegation` for `! c` with a space;
  - `Scenarios.GluedNegation` for the glued word.
- The conventional reading pops two operands for every binary operator and returns the single remaining value. The code short-circuits and returns the top of the stack.
- `Query` and `Why` do not exist in the code; `query` is an empty stub. Where a worked example queries a symbol, the scenarios state the fact set or the `deduct` result instead.

## Model

| member | source | states |
|---|---|---|
| Tokens.Precedence | pa1/pa1.py:6 | `(` ranks 0, `&` and `\|` both rank 1, `!` ranks 2, each if and only if |
| Tokens.Classify | pa1/pa1.py:80-92 | a word is read as a symbol exactly when it is none of `! & \| ( )` |
| Tokens.ClassifySpelling | pa1/pa1.py:80-92 | classifying a word and spelling a token are mutually inverse, so `deduct`'s `token in facts` sees the original word |
| Tokens.Split | pa1/pa1.py:99 | `split(' ')` yields at least one piece and no piece contains a space |
| Tokens.JoinSplit | pa1/pa1.py:99 | joining the pieces with single spaces gives back the text |
| Tokens.SplitJoin | pa1/pa1.py:99 | splitting space-free words joined by single spaces gives back the words |
| Tokens.Lex | pa1/pa1.py:99 | lexing loses nothing: spelling the tokens gives back the pieces of `split(' ')`, joining those gives back the text, and every token is well formed |
| Tokens.LexJoin | pa1/pa1.py:99 | text written as space-separated words lexes to exactly those words' tokens |
| Tokens.Lower | pa1/pa1.py:69-71 | the lowered text has the input's length and no upper-case letter, and each character is the input's own or the lower-case partner of an upper-case input letter |
| Tokens.SpellsIgnoringCaseIff | pa1/pa1.py:69-71 | a value lowers to a lower-case word if and only if it has the word's length and each character is the word's letter in either case |
| Compiler.PoppedRanks | pa1/pa1.py:81-83 | every operator the pop loop removes ranks at least the incoming one, and the one it stops at ranks strictly lower |
| Compiler.PopWhileKeepsGroups | pa1/pa1.py:81-84 | an incoming operator never pops a `(` |
| Compiler.PopWhileCounts | pa1/pa1.py:81-84 | the pop loop loses no token and moves no bracket to the output |
| Compiler.CloseGroup | pa1/pa1.py:87-90 | `)` either fails as an unmatched close or cuts the stack at a `(` and emits the operators above it top first |
| Compiler.CloseGroupFinds | pa1/pa1.py:87-90 | `)` fails exactly when no `(` is on the stack, and otherwise stops at the nearest `(` |
| Compiler.CloseGroupCounts | pa1/pa1.py:87-90 | `)` removes exactly one `(` and emits the operators above it, losing nothing else |
| Compiler.Step | pa1/pa1.py:79-92 | one token keeps the operator stack free of symbols |
| Compiler.Run | pa1/pa1.py:79-92 | the operator stack only ever holds operators and `(` |
| Compiler.RunExtends | pa1/pa1.py:79-92 | the output only grows: what was emitted earlier stays as a prefix |
| Compiler.StepGroups | pa1/pa1.py:79-92 | one token fails exactly on a `)` with no `(` stacked, and otherwise moves the number of stacked `(` by its own bracket balance |
| Compiler.RunGroups | pa1/pa1.py:79-92 | the loop succeeds exactly when no prefix closes more groups than are open, and ends with the stacked `(` count moved by the input's balance |
| Compiler.RunFault | pa1/pa1.py:87-90 | the loop's only failure is an unmatched `)` |
| Compiler.ToPostfix | pa1/pa1.py:76-95 | `to_postfix` succeeds if and only if every `)` has an earlier unmatched `(`, otherwise fails with an unmatched close, and its code carries the input's symbols in the same order |
| Compiler.StepKeepsSymbolOrder | pa1/pa1.py:79-92 | one token appends its own symbol, if it is one, to the output's symbols and nothing else |
| Compiler.RunKeepsSymbolOrder | pa1/pa1.py:79-92 | the loop appends exactly the input's symbols, in order, to the output's symbols |
| Compiler.StepCounts | pa1/pa1.py:79-92 | one token hands every non-bracket token it reads to the stack or output, loses nothing held, and never emits a bracket |
| Compiler.RunCounts | pa1/pa1.py:79-92 | the same for the whole loop |
| Compiler.BalancedCounts | pa1/pa1.py:76-95 | for balanced input the conversion succeeds, each non-bracket token occurs in the output as often as in the input, and no bracket does |
| Compiler.BalancedPermutes | pa1/pa1.py:76-95 | for balanced input the output is, as a multiset, the input with its brackets removed |
| Evaluator.Exec | pa1/pa1.py:30-43 | a symbol pushes its membership in the facts; `!` negates the top; `&` with a false top leaves the stack as it was, with a true top it drops the top; `\|` mirrors this; each underflows exactly when it pops an empty stack |
| Evaluator.Deduct | pa1/pa1.py:27-44 | the only failure of `deduct` is a stack underflow |
| Evaluator.Eval | pa1/pa1.py:29-43 | the token loop's only failure is a stack underflow, and each token pushes at most one operand |
| Evaluator.EvalAppend | pa1/pa1.py:29-43 | evaluating two pieces of code in a row is evaluating the second from where the first stops |
| Evaluator.EvalFrame | pa1/pa1.py:29-43 | operands buried under the stack an evaluation works on are never touched |
| Evaluator.DeductNegation | pa1/pa1.py:36-44 | a trailing `!` negates the result and underflows exactly when the code before it does |
| Evaluator.EvalLocal | pa1/pa1.py:39-43 | adding facts that no token spells does not change the result |
| Formulas.LiteralEval | pa1/pa1.py:36-43 | a symbol under negations pushes exactly its classical truth |
| Formulas.RightLiteralEval | pa1/pa1.py:29-43 | on a tree whose right operands are literals, the stack grows, the operands below stay, and the top is the tree's classical truth |
| Formulas.DeductAgrees | pa1/pa1.py:27-44 | `deduct` of such a tree's postfix code is the tree's classical truth |
| Formulas.ShortCircuitLeak | pa1/pa1.py:30-35 | for `a \| (b & c)` with only `b` a fact, the tree is false but `deduct` returns true, because `&` leaves the false `c` popped and `b` on the stack |
| Formulas.LeakTrace | pa1/pa1.py:27-44 | `deduct` of `a b c & \|` with only `b` a fact is true |
| Formulas.InfixRun | pa1/pa1.py:79-92 | reading a tree's bracketed text emits everything but its root operator, which waits on the stack |
| Formulas.OperandRun | pa1/pa1.py:79-92 | reading a bracketed operand emits exactly its postfix code |
| Formulas.InfixToPostfix | pa1/pa1.py:76-95 | a tree written with its compound operands bracketed converts to the tree's postfix code |
| Formulas.ChainRun | pa1/pa1.py:80-84 | with one binary operator waiting, the rest of a flat chain pops each operator as the next arrives, so it grows the output by the chain's left-grouped code |
| Formulas.ChainToPostfix | pa1/pa1.py:76-95 | any flat chain `s0 op1 s1 ... opk sk` converts to the code of the tree grouped from the left, whatever the operators |
| Formulas.ChainDeduct | pa1/pa1.py:27-44 | `deduct` of a converted flat chain is the classical truth of the left-grouped tree |
| Formulas.NotNot | pa1/pa1.py:80-84 | a second `!` pops the first, since they tie and the loop pops on a tie |
| Formulas.DoubleNegation | pa1/pa1.py:80-84 | `! ! s` converts to `! s !`, whose evaluation underflows |
| Formulas.LeadingDoubleNegation | pa1/pa1.py:80-84 | any text that opens with `! !` either fails to convert or converts to code that opens with `!` and underflows on every fact set |
| Formulas.LeadingNotUnderflows | pa1/pa1.py:36-37 | code that opens with `!` always underflows |
| KnowledgeBase.Define | pa1/pa1.py:64-65 | the name is bound to the new value, every other binding and the facts and rules stay |
| KnowledgeBase.DefineLastWins | pa1/pa1.py:64-65 | of two definitions of one name the later wins |
| KnowledgeBase.Assign | pa1/pa1.py:68-73 | the name is a fact afterwards if and only if the value spells `true` in any case, or it was a fact and the value does not spell `false`; no other fact changes |
| KnowledgeBase.AssignLastWins | pa1/pa1.py:68-73 | a later `true`/`false` assignment decides alone, and any other value changes nothing |
| KnowledgeBase.DefineAssignCommute | pa1/pa1.py:64-73 | defining and assigning are independent and commute |
| KnowledgeBase.Imply | pa1/pa1.py:98-99 | succeeds exactly when every `)` is matched; then appends exactly one rule with the given sides whose code is the postfix conversion of the text's tokens, carrying its symbols in order, leaving earlier rules, facts and descriptions as they were |
| KnowledgeBase.Pass | pa1/pa1.py:50-55 | one pass only underflows or adds conclusions of rules to the facts, never removes any |
| KnowledgeBase.Learn | pa1/pa1.py:47-57 | `learn` only underflows, keeps descriptions and rules, and only adds facts that some rule concludes |
| KnowledgeBase.LearnStep | pa1/pa1.py:48-57 | a pass that adds nothing ends `learn`; one that adds something strictly shrinks what is left to learn |
| KnowledgeBase.PassFixed | pa1/pa1.py:48-57 | a pass changes nothing if and only if every rule with an unknown conclusion evaluates to false without underflow |
| KnowledgeBase.LearnReachesFixpoint | pa1/pa1.py:47-57 | what `learn` reaches is such a fixpoint |
| KnowledgeBase.LearnIdempotent | pa1/pa1.py:47-57 | learning again right after learning changes nothing |
| KnowledgeBase.LearnAtFixpoint | pa1/pa1.py:47-57 | a state already at a fixpoint is left as it is |
| KnowledgeBase.LearnLoop | pa1/pa1.py:47-57 | the `while True` / `for` loop with its `fixed` flag and live fact set computes exactly `Learn` |
| Scenarios.SpacedNegation | pa1/pa1.py:76-95 | `a & b \| ! c` compiles to `a b & c ! \|` and evaluates to `(a and b) or not c` on every fact set |
| Scenarios.GluedNegation | pa1/pa1.py:99 | `a & b \| !c` reads `!c` as one symbol and evaluates to `(a and b) or "!c" is a fact` |
| Scenarios.OrThenAnd | pa1/pa1.py:81 | `a \| b & c` compiles to `a b \| c &` |
| Scenarios.AndThenOr | pa1/pa1.py:81 | `a & b \| c` compiles to `a b & c \|` |
| Scenarios.ConjunctionCode | pa1/pa1.py:99 | `p & q` compiles to `p q &` |
| Scenarios.TeachThenLearn | pa1/pa1.py:47-57 | after `p = true`, rule `p & q -> r` and `q = true`, learning makes exactly `p`, `q` and `r` facts |
| Scenarios.LearnOneRule | pa1/pa1.py:47-57 | with one rule `p q & -> r` and facts `p`, `q`, learning adds `r` and stops |
| Scenarios.EitherRuleSuffices | pa1/pa1.py:47-57 | with rules `a -> z` and `b -> z` and only `b` a fact, learning adds `z` |
| Scenarios.TeachFalse | pa1/pa1.py:68-73 | `false` on a fresh state leaves the name false, and a later `FALSE` retracts an earlier `True` |

## Left out

- `list_all` (pa1/pa1.py:13-24) only formats the state for display, so it is not modelled.
- `__main__` (pa1/pa1.py:102-120) is not modelled. It reads commands from standard input and cuts them into arguments. The model starts from the arguments `define`, `assign` and `imply` receive. That includes the `lhs` text that `__main__` strips before `imply` splits it.
- `query` (pa1/pa1.py:60-61) is an empty stub; there is nothing to model.
- Python exceptions become `Err` values: `UnmatchedClose` for `operators[-1]` on an empty stack in `to_postfix`, and `StackUnderflow` for `pop()` or `operands[-1]` on an empty stack in `deduct`.
- KnowledgeBase.Learn: when a rule underflows, the engine's exception ends the program, and facts added earlier in that pass are never observed again. The model returns `Err(StackUnderflow)` without the partial fact set.
- Tokens.Lower: lowers ASCII letters only. Python's `str.lower()` also lowers other letters. The only comparisons are with `true` and `false`. The non-ASCII characters Python lowers to ASCII letters are the Kelvin sign (to `k`) and `İ` (to `i` and a combining dot). Neither letter occurs in `true` or `false`, so the difference does not matter.
- Formulas.DeductAgrees: is stated only for trees whose right operands are literals. `deduct` also agrees on some other trees, such as `a \| (b \| c)`, but not on every tree: Formulas.ShortCircuitLeak exhibits one where it differs.
- Unmatched `(`: no error is raised. It stays on the stack and is drained into the output, where `deduct` treats it as a word and pushes whether `(` is a fact. The model keeps this behaviour; `Compiler.BalancedPermutes` covers only input whose brackets balance.
- Evaluator.Deduct: its own contract states only which fault it can raise. Its value is pinned down by Evaluator.Exec step by step, by Formulas.DeductAgrees against classical truth, and by Evaluator.DeductNegation and Formulas.LeakTrace.
