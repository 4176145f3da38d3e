# vscode-context: the two `when`-clause evaluators, in Dafny

The extension decides whether a keybinding or snippet applies at the cursor. It does
this by evaluating a *context*, and it has two evaluators for one.

- **The scope evaluator** (`src/extension/scope.ts`) walks a parsed expression tree.
  - A node is a stored value, an array literal, an object literal, or a command invocation.
  - A command node has arguments, a negation flag, and a chain of property and method steps.
  - `and` and `or` short-circuit and yield the deciding operand.
  - `==` and `!=` use structural equality. `<`, `<=`, `>` and `>=` use ECMAScript's relational comparison.
  - Every other name runs on the document. A name in its command table is called there; any other name goes through `document.execute("scope." + name, ...)`.
- **The legacy evaluator** (`src/extension/context.ts`) reads a flat array of tokens.
  - A token `"or"` separates alternatives. Inside an alternative, a token `"and"` separates parts, so `and` binds tighter.
  - A part is one of:
    - a command string: `name`, `!name`, `not name` or `name(args)`;
    - a command object;
    - a `[context, operator, value]` triple;
    - a `{context, operator, value}` object;
    - a nested context.
  - A command asks the executor for `context.values.<name>`.
  - An operator asks for `context.operators.<operator>`, passing `{args, left, right}`.
- **The `cursor.precedingText` and `cursor.followingText` commands**
  (`src/extension/environment/commands.ts`) scan away from the cursor. Each stops at the nearest non-blank line, or at the document's edge, and returns the range between that line and the cursor.

The model works as follows.

- The host is a log of every call made to it, together with a responder. The responder answers each call given the calls made before it. This makes the following observable in every result:
  - the order of evaluation;
  - short-circuiting;
  - the double call of a registered command.
- The parser, the executor and `JSON.parse` are parameters.
- The meaning of evaluation is a family of functions that recurse on the last element.
  - Module `Scope`: `Eval`, `EvalList`, `EvalEntries`, `EvalJunction`, `EvalChain`, ...
  - Module `Context`: `EvalPart`, `PartResults`, `GroupResults`, `Check`.
- The legacy evaluator runs under a reading, held in its `Env`. `Context.Written` is the code as written: the bare-argument test of `context.ts:192` and the `result` race of `context.ts:11-17`. `Context.Meant` is what that code evidently means. The reading applies at every depth, so nested contexts follow it too.
- The source's loops are methods proved equal to those functions:
  - `RunArray`, `RunObject`, `RunCommandAnd`, `RunCommandOr` and `RunCommandExternal`;
  - `GroupByCondition`;
  - `PrecedingRange` and `FollowingRange`.
  The properties are lemmas about the functions.

Modules:
- `JsValues`: runtime values, truthiness, `in`, property access, relational comparison and the host log.
- `JsStrings`: `trim`, `includes` and decimal keys.
- `Sequences`: splitting at a separator and joining.
- `Scope` and `ScopeProperties`.
- `Context` and `ContextProperties`.
- `LineScan`.

Behaviour of the code worth noting:
- A registered command in `execute` is called twice with the same arguments, and the first answer is dropped (`src/extension/scope.ts:205-206`).
- There is no memoisation of invocations in `scope.ts`.
- A name missing from the command table is sent to `document.execute` with the `scope.` prefix rather than rejected.
- The arity error of every comparison operator names `"=="`.

## Model

| member | source | states |
|---|---|---|
| Scope.Check | src/extension/scope.ts:10-20 | A word list is joined with spaces before parsing. `check` succeeds exactly when parsing and evaluation both succeed, and its answer is the truthiness of the value. |
| Scope.Eval | src/extension/scope.ts:22-40 | Evaluating a node only ever appends to the call log. |
| Scope.EvalList | src/extension/scope.ts:42-53 | A successful list has one value per expression, and the log only grows. |
| Scope.EvalEntries | src/extension/scope.ts:55-63 | A successful object has exactly the literal's keys. |
| Scope.EvalCommand | src/extension/scope.ts:65-99 | Dispatch on the command name only appends to the log. |
| Scope.RunArray | src/extension/scope.ts:42-53 | The `runArray` loop computes exactly `EvalList`: the same values, the same calls, and the same first failure. |
| Scope.RunObject | src/extension/scope.ts:55-63 | The `runObject` loop computes exactly `EvalEntries`, with later keys overwriting earlier ones. |
| Scope.RunCommandAnd | src/extension/scope.ts:101-108 | The `runCommandAnd` loop computes exactly the short-circuiting conjunction `EvalJunction(.., true)`. |
| Scope.RunCommandOr | src/extension/scope.ts:110-117 | The `runCommandOr` loop computes exactly the short-circuiting disjunction `EvalJunction(.., false)`. |
| Scope.RunCommandExternal | src/extension/scope.ts:157-200 | The chain loop computes exactly `EvalExternal`. That is: execute; apply each property or method step in order; fail at the first unknown member; negate last. |
| Scope.ListFailureFinal | src/extension/scope.ts:48-50 | Once a prefix of the list fails, the whole list is that failure. Later items are not evaluated. |
| Scope.EntriesFailureFinal | src/extension/scope.ts:58-60 | Once a prefix of the entries fails, the whole object is that failure. |
| Scope.ChainFailureFinal | src/extension/scope.ts:160-193 | Once a chain step fails, the chain is that failure. Later steps do not run. |
| Scope.JunctionSettled | src/extension/scope.ts:101-117 | Once the accumulated value of `and` is falsy (of `or`, truthy), or an operand fails, the result is final and no later operand is evaluated. |
| ScopeProperties.NodeBasics | src/extension/scope.ts:22-40 | A value node yields its value and calls nothing. A node of no known shape fails with "Unknown scope value". |
| ScopeProperties.ListPrefix | src/extension/scope.ts:42-53 | A successful list succeeds on every prefix, with the prefix of the values. |
| ScopeProperties.ArrayElements | src/extension/scope.ts:42-53 | An array node yields as many values as items. The i-th value is the i-th item's value, evaluated after items 0..i-1. |
| ScopeProperties.EntriesPrefix | src/extension/scope.ts:55-63 | A successful object evaluation succeeds on every prefix of its entries. |
| ScopeProperties.ObjectFields | src/extension/scope.ts:55-63 | An object node has the literal's key set. Each key holds the value of the last entry for that key. |
| ScopeProperties.JunctionAllPass | src/extension/scope.ts:101-117 | When no operand decides the junction, every operand is evaluated in order. The result is then the last operand, or `true`/`false` when there are no operands. |
| ScopeProperties.JunctionDecided | src/extension/scope.ts:101-117 | The first deciding operand (the first falsy one for `and`, the first truthy one for `or`) is the result. Nothing after it is evaluated. |
| ScopeProperties.JunctionTruth | src/extension/scope.ts:101-117 | When every operand evaluates, `and` is truthy iff all operands are truthy, and `or` is truthy iff some operand is. |
| ScopeProperties.ComparisonArity | src/extension/scope.ts:144-149 | A comparison without exactly two operands fails with the `"=="` arity error and evaluates nothing. |
| ScopeProperties.ComparisonOperands | src/extension/scope.ts:119-155 | A comparison evaluates left then right, exactly as a list would, and compares the two values. |
| ScopeProperties.NotEqualNegatesEqual | src/extension/scope.ts:78-80 | `!=` is the negation of `==` on the same operands, with the same calls and the same failures. |
| ScopeProperties.OperatorIgnoresNotAndChain | src/extension/scope.ts:65-99 | The built-in operators ignore the negation flag and the chain. |
| ScopeProperties.NegationLast | src/extension/scope.ts:195-197 | Negation is applied once, after the whole chain. It inverts the truthiness of the same evaluation, after the same calls. |
| ScopeProperties.ExecuteCalls | src/extension/scope.ts:202-210 | The arguments are evaluated before any call. A registered name is called twice with the same arguments. Any other name is one `document.execute("scope." + name, ...)` call. |
| ScopeProperties.ExecuteArgumentFailure | src/extension/scope.ts:203 | A failing argument fails `execute` before any command is called. |
| ScopeProperties.PropertyChain | src/extension/scope.ts:160-173 | A chain of property steps calls nothing and equals a first-key-first reference path lookup. It fails with "Unknown property" at the first absent key. |
| ScopeProperties.ChainSteps | src/extension/scope.ts:161-190 | On an object, an absent property or method fails (a method's arguments are then not evaluated). A present property is read. A present function is called once, after its arguments. |
| ScopeProperties.CheckWords | src/extension/scope.ts:14-16 | A word-list input means the same as its words joined by single spaces. A single word means that word. |
| ScopeProperties.PlainCall | src/extension/scope.ts:202-210 | A bare unregistered command is exactly one host call, whose answer is the value. |
| ScopeProperties.IntLiteralComparison | src/extension/scope.ts:119-142 | A comparison of two integer literals is the integer comparison. |
| ScopeProperties.ScenarioAndShortCircuits | src/test/scope.test.ts:32-34 | With a document whose command table is empty and whose `execute` is the test's `run`: `commandFalse() && commandTrue()` is false, and `commandTrue` is never called. |
| ScopeProperties.ScenarioOrContinues | src/test/scope.test.ts:36-38 | With a document whose command table is empty and whose `execute` is the test's `run`: `commandFalse() \|\| commandTrue()` is true after both calls, in order. |
| ScopeProperties.ScenarioNegation | src/test/scope.test.ts:70-72 | With a document whose command table is empty and whose `execute` is the test's `run`: `!commandTrue()` is false. |
| ScopeProperties.CallbackChain | src/test/scope.test.ts:62-67 | `.callback({KEY: true}).KEY` on the test object is one call of the function member, then the property of its answer. |
| ScopeProperties.ScenarioChainsCallback | src/test/scope.test.ts:62-67 | With a document whose command table is empty and whose `execute` is the test's `run`: `getObject().callback({KEY: true}).KEY` is true, after exactly two host calls. |
| ScopeProperties.ScenarioComparisons | src/test/scope.test.ts:74-120 | All twelve comparisons of the test file have the results it expects, on any document. |
| JsValues.HasMember | src/extension/scope.ts:161-183 | `key in v` is an object's own keys, an array's indices and `length`. It is a TypeError on primitives. |
| JsValues.GetMember | src/extension/scope.ts:171 | `v[key]` reads a present key. It is undefined for an absent key and a TypeError on null and undefined. |
| JsValues.ArrayIndexMember | src/extension/scope.ts:162-171 | Every index of an array is a member and reads its element. |
| JsValues.MemberReadable | src/extension/scope.ts:162-171 | Whenever `in` holds, the read succeeds. |
| JsValues.StrLessIrreflexive | src/extension/scope.ts:134-137 | No string is less than itself. |
| JsValues.StrLessTrichotomy | src/extension/scope.ts:124-142 | Two different strings are ordered exactly one way. |
| JsValues.StrLessTransitive | src/extension/scope.ts:124-142 | String order is transitive. |
| JsValues.StringComparisons | src/extension/scope.ts:124-142 | On strings, the four operators are the strict and non-strict string orders. |
| JsValues.IntComparisons | src/extension/scope.ts:124-142 | On integers, the four operators are the integer orders. |
| JsValues.UndefinedIncomparable | src/extension/scope.ts:124-142 | Undefined makes all four relational operators false. |
| JsStrings.TrimStartShape | src/extension/context.ts:158 | Leading trim removes a prefix of whitespace and stops at non-whitespace. |
| JsStrings.TrimEndShape | src/extension/context.ts:158 | Trailing trim removes a suffix of whitespace and stops at non-whitespace. |
| JsStrings.TrimShape | src/extension/context.ts:158 | `trim` yields a slice of the input with only whitespace outside it. |
| JsStrings.TrimEnds | src/extension/context.ts:158 | A trimmed string starts and ends with non-whitespace. |
| JsStrings.TrimLength | src/extension/context.ts:158 | Trimming never lengthens a string. |
| JsStrings.TrimIdempotent | src/extension/context.ts:161 | Trimming twice is trimming once. |
| JsStrings.TrimOfTrimmed | src/extension/context.ts:161 | A string with non-whitespace at both ends is its own trim. |
| JsStrings.TrimEndSpaces | src/extension/context.ts:172 | Whitespace after a text ending in non-whitespace is exactly what trailing trim removes. |
| JsStrings.TrimStartSpaces | src/extension/context.ts:158 | Whitespace before a text starting with non-whitespace is exactly what leading trim removes. |
| JsStrings.TrimPadded | src/extension/context.ts:158 | Trimming a text padded with whitespace on both sides gives back the text, when it starts and ends with non-whitespace. |
| JsStrings.ContainsChar | src/extension/context.ts:177 | `includes` of a one-character string holds exactly when the character occurs. |
| JsStrings.NatToDecimal | src/extension/scope.ts:171 | The decimal key of an index is canonical digits whose value is the index. |
| Sequences.SplitOn | src/extension/context.ts:78-93 | There is one more group than there are separators. |
| Sequences.SplitOnDropsSeparators | src/extension/context.ts:78-93 | No group contains the separator. |
| Sequences.SplitOnElements | src/extension/context.ts:78-93 | Every grouped element comes from the input. |
| Sequences.JoinSplit | src/extension/context.ts:78-93 | Re-joining the groups with the separator gives back the input. |
| Sequences.SplitJoin | src/extension/context.ts:78-93 | Splitting a join of separator-free groups gives back the groups. |
| Sequences.SplitAfterSeparator | src/extension/context.ts:83-86 | A separator opens a new, empty group. |
| Sequences.SplitExtend | src/extension/context.ts:89 | Separator-free tokens extend only the last group. |
| Context.GroupByCondition | src/extension/context.ts:78-93 | The `groupByCondition` loop computes exactly `SplitOn(context, operator)`. |
| Context.IsCommand | src/extension/context.ts:113-117 | A string is a command. An object is one iff it has both `command` and `args`. Arrays and functions are not. A number, boolean, null or undefined throws. |
| Context.IsArrayExpression | src/extension/context.ts:95-97 | Three tokens whose first two are commands, tested in order. An error arises only from `isCommand` on a tested token. |
| Context.IsObjectExpression | src/extension/context.ts:99-111 | A non-null object with a command `context`, a command `operator` and a `value`, tested in that order. |
| Context.ExtractNegation | src/extension/context.ts:157-169 | Negated iff the trimmed text starts with `not ` or `!`. The rest is then trimmed and shorter. Otherwise the text comes back untrimmed. |
| Context.PlainName | src/extension/context.ts:168 | A trimmed, unmarked name comes back unchanged and unnegated. |
| Context.BangMarker | src/extension/context.ts:164-166 | `!name` is the negation of exactly `name`. |
| Context.NotMarker | src/extension/context.ts:160-162 | `not name` is the negation of exactly `name`. |
| Context.PaddedMarker | src/extension/context.ts:157-167 | With any whitespace before the marker, between the marker and the name, and after the name, `!` and `not ` still negate exactly the name. |
| Context.IndexOf | src/extension/context.ts:172 | The lazy first group ends at the first `(`: that position holds `(` and none comes before it. |
| Context.ShapeMatches | src/extension/context.ts:172 | A text of the call shape matches the pattern with the shape's name and arguments. |
| Context.MatchHasShape | src/extension/context.ts:172 | Every match has the call shape, with the match's groups. |
| Context.MatchCallShape | src/extension/context.ts:172 | The call pattern matches with groups (name, tail) iff the text is `name(tail)` plus whitespace, `name` has no `(`, and neither part has a line terminator. |
| Context.IntendedNarrowsAsWritten | src/extension/context.ts:192 | Every text the anchored pattern accepts, the pattern as written also accepts. |
| Context.MapResults | src/extension/context.ts:190-195 | A successful `.map` has one value per piece. |
| Context.MapResultsElements | src/extension/context.ts:190-195 | The list succeeds iff every piece does, and then holds each piece's value in its place. |
| Context.MapResultsFirstFailure | src/extension/context.ts:190-195 | The first failing piece is the list's failure. |
| Context.ExtractArgs | src/extension/context.ts:171-200 | A text that does not match is its own name with `undefined` arguments. A match keeps its name. Only a match can fail. |
| Context.QuotedArguments | src/extension/context.ts:177-185 | Arguments holding `"` are one JSON array. A parse failure gives "Failed to parse arguments JSON" naming the tail and the parser's message. |
| Context.BareArguments | src/extension/context.ts:187-196 | Other arguments give one value per comma piece, in order. The first failure is the result. |
| Context.ExtractExpression | src/extension/context.ts:147-155 | The argument test is the reading's. A string's negation is `extractNegation`'s. An object command yields its `not` as a condition, its `command` as rendered text, and its `args`. Only null or undefined fails. |
| Context.ApplyNegation | src/extension/context.ts:202-208 | The answer is the value's truthiness, inverted exactly when negated. |
| Context.NegationFlips | src/extension/context.ts:202-208 | Negation flips the answer. An unnegated boolean is itself. |
| Context.RunCommand | src/extension/context.ts:119-125 | At most one executor call is appended (the exact call per token shape is in `ContextProperties.PlainCommand` and `NegatedCommand`). |
| Context.RunExpression | src/extension/context.ts:127-145 | At most two executor calls are appended. |
| Context.RunOperator | src/extension/context.ts:134-144 | At most two executor calls are appended (the exact calls and answer are in `ContextProperties.OperatorCalls`). |
| Context.ExtractedExpression | src/extension/context.ts:133-145 | After both extractions succeed, `runExpression` is the operator run on the two extracted expressions. |
| Context.ExtractionFailures | src/extension/context.ts:133-134 | The operator is extracted first and its failure is the result; otherwise a failed context extraction is the result; neither failure makes a call. |
| Context.ContextNegationIgnored | src/extension/context.ts:134 | The negation of the context expression is ignored: it changes neither answer nor calls. |
| Context.OperatorNegationFlips | src/extension/context.ts:137-144 | The operator's negation inverts the answer and changes nothing else. |
| Context.EvalPart | src/extension/context.ts:45-72 | Evaluating one part only appends to the log. |
| Context.PartResults | src/extension/context.ts:43-74 | A successful fold has one answer per part. |
| Context.CheckOrGroup | src/extension/context.ts:41-76 | Evaluating an alternative only appends to the log. |
| Context.GroupResults | src/extension/context.ts:13-17 | A successful fold has one answer per alternative. |
| Context.Check | src/extension/context.ts:3-20 | A context that is not an array fails with "Unexpected context value" and calls nothing. Under any reading the log only grows. |
| Context.PartCompared | src/extension/context.ts:45-72 | With the same argument test, one part under the last-finished and the any-holds combination makes the same calls and fails alike; where it holds under the first, it holds under the second. This includes a nested context (`context.ts:68-70`). |
| Context.PartsCompared | src/extension/context.ts:43-74 | The same, answer by answer, for the fold over the parts. |
| Context.GroupCompared | src/extension/context.ts:41-76 | The same for one alternative. |
| Context.GroupsCompared | src/extension/context.ts:13-17 | The same, answer by answer, for the fold over the alternatives. |
| Context.CheckCompared | src/extension/context.ts:3-20 | With the same argument test, `check` under the race as written and as meant makes the same calls and fails with the same error, at every depth. Where the written one holds, the meant one holds. |
| ContextProperties.PartResultsElements | src/extension/context.ts:43-75 | In a successful fold, each part's answer is its own evaluation after the parts before it. |
| ContextProperties.GroupResultsElements | src/extension/context.ts:13-17 | In a successful fold, each alternative's answer is its own evaluation after the alternatives before it. |
| ContextProperties.PartFailureFinal | src/extension/context.ts:43-75 | A failing part fails its alternative with that part's error, even though later parts still run. |
| ContextProperties.Precedence | src/extension/context.ts:3-20 | As meant, a context that evaluates holds iff some alternative between the `"or"` tokens holds. |
| ContextProperties.LastAlternativeDecides | src/extension/context.ts:11-17 | As written, a context that evaluates holds iff its last alternative holds, whatever the others answer. |
| ContextProperties.AlternativeHolds | src/extension/context.ts:41-76 | An alternative that evaluates holds iff every part between its `"and"` tokens holds. |
| ContextProperties.OnePartGroup | src/extension/context.ts:44 | An alternative without `"and"` is its single part. |
| ContextProperties.OneAlternative | src/extension/context.ts:14 | A context without `"or"` is its single alternative, under any reading. |
| ContextProperties.OnePartContext | src/extension/context.ts:13-17 | A context without `"or"` and `"and"` is its single part, under any reading. |
| ContextProperties.PlainArguments | src/extension/context.ts:199 | A plain token names a command with `undefined` arguments, under either argument test. |
| ContextProperties.PlainExpression | src/extension/context.ts:147-155 | A plain token is its own unnegated name, with `undefined` arguments. |
| ContextProperties.NegatedExpression | src/extension/context.ts:147-169 | `!` or `not ` before a plain token negates exactly that token. |
| ContextProperties.PlainCommand | src/extension/context.ts:119-125 | A plain command is one `context.values.<name>` call, and the answer is its truthiness. |
| ContextProperties.NegatedCommand | src/extension/context.ts:119-125 | A negated command makes the same call and inverts its truthiness. |
| ContextProperties.PlainOperator | src/extension/context.ts:127-145 | `[context, operator, right]` of plain tokens runs both commands unnegated, with `undefined` arguments. |
| ContextProperties.NegatedOperator | src/extension/context.ts:127-145 | The same, with a negated operator. |
| ContextProperties.StringPart | src/extension/context.ts:64-66 | A string token part is run as a command. |
| ContextProperties.OperatorCalls | src/extension/context.ts:134-144 | For any executor: first one `context.values.<context>` call with the context's arguments. When it fails, that error and nothing more. Otherwise one `context.operators.<operator>` call with `{args, left, right}`, where `left` is the first answer. The result is the second answer negated as the operator says, or its error. |
| ContextProperties.InvalidPart | src/extension/context.ts:49-51 | A part of more than one token that is not an operator expression fails with "Invalid expression" and calls nothing. |
| ContextProperties.ObjectExpressionPart | src/extension/context.ts:55-62 | A lone object expression is `runExpression` of its `operator`, `context` and `value`. |
| ContextProperties.CommandPart | src/extension/context.ts:64-66 | A lone command that is no object expression, a string or a command object, is run as a command. |
| ContextProperties.LoneOther | src/extension/context.ts:72 | A lone token that is no object expression, no command and no array fails with "Invalid expression" and calls nothing. |
| ContextProperties.RunFailedExtraction | src/extension/context.ts:119-125 | A command whose expression cannot be extracted fails with that error, before any call. |
| ContextProperties.RunExtracted | src/extension/context.ts:119-125 | A command whose expression is extracted is one `context.values.<name>` call with its arguments, negated as extracted. |
| ContextProperties.CommandContextRuns | src/extension/context.ts:13-17 | A context of one string command is that command's run. |
| ContextProperties.CommandGroup | src/extension/context.ts:41-76 | An alternative of one string command is that command's run. |
| ContextProperties.NestedPart | src/extension/context.ts:68-70 | A context whose single part is a nested context is that context's `check`, under the same reading. |
| ContextProperties.OperatorPart | src/extension/context.ts:45-47 | Three tokens whose first two are strings form an operator expression. |
| ContextProperties.ArrayExpressionPart | src/extension/context.ts:45-47 | Any array expression, including one whose commands are command objects, has three tokens and runs the second as operator on the first and the third. |
| ContextProperties.TwoAlternatives | src/extension/context.ts:11-17 | `[a, "or", b]` evaluates both alternatives in order. As meant it holds iff either holds; as written it takes the answer of the second, which finishes last. |
| ContextProperties.TwoParts | src/extension/context.ts:41-76 | `[a, "and", b]` evaluates both parts in order, even when the first is false, and holds iff both hold. |
| ContextProperties.TwoConjuncts | src/extension/context.ts:41-76 | The same, for a whole context `[a, "and", b]`. |
| ContextProperties.CommandContext | src/test/context.test.ts:21-27 | `[c]` with the test executor is that command's boolean. |
| ContextProperties.ScenarioSingleCommands | src/test/context.test.ts:21-27 | `["commandTrue"]` holds and `["commandFalse"]` does not. |
| ContextProperties.NegatedContext | src/test/context.test.ts:92-98 | `["!c"]` and `["not c"]` are the negated boolean. |
| ContextProperties.ScenarioNegates | src/test/context.test.ts:92-98 | `["!commandTrue"]` and `["not commandTrue"]` do not hold. |
| ContextProperties.EqualsContext | src/test/context.test.ts:62-68 | `[c, "==", false]` holds iff the command answers false. |
| ContextProperties.NegatedEqualsContext | src/test/context.test.ts:100-106 | `[c, "!==", false]` and `[c, "not ==", false]` hold iff the command answers true. |
| ContextProperties.ObjectEqualsContext | src/test/context.test.ts:70-90 | `[{context: c, operator: "==", value: v}]` holds iff the command's boolean answer is `v`. |
| ContextProperties.ScenarioOperators | src/test/context.test.ts:62-106 | The test file's array-operator, object-expression and negated-operator cases have the results it expects, under any reading. |
| ContextProperties.DisjunctionContext | src/test/context.test.ts:36-38 | `[c, "or", d]` with booleans answered by the executor: as meant their disjunction, as written the answer of `d`. |
| ContextProperties.ScenarioOr | src/test/context.test.ts:36-38 | `["commandFalse", "or", "commandTrue"]` holds under any reading. |
| ContextProperties.ScenarioOrRace | src/extension/context.ts:11-17 | `["commandTrue", "or", "commandFalse"]` does not hold as written, but holds as meant. |
| ContextProperties.ScenarioNestedRace | src/extension/context.ts:68-70 | The same race inside a nested context: `[["commandTrue", "or", "commandFalse"]]` does not hold as written, but holds as meant. |
| ContextProperties.ConjunctionContext | src/test/context.test.ts:29-34 | `[c, "and", d]` calls both commands, in order, and is their conjunction. |
| ContextProperties.ScenarioAnd | src/test/context.test.ts:29-34 | `["commandFalse", "and", "commandTrue"]` is false after both calls. |
| ContextProperties.ScenarioObjectArguments | src/test/context.test.ts:138-143 | The object command `{command, args: "ARGS", not: true}` calls `context.values.command` with `"ARGS"` and negates the answer. |
| ContextProperties.ScenarioArgumentsJsonError | src/test/context.test.ts:115-129 | Unparseable quoted arguments give the test's exact message. |
| ContextProperties.UntrueAsWritten | src/extension/context.ts:192 | The pattern as written accepts `untrue`. |
| ContextProperties.UntrueIntended | src/extension/context.ts:192 | The anchored pattern rejects `untrue`. |
| ContextProperties.UntrueAsWrittenArguments | src/extension/context.ts:187-196 | With the pattern as written, `f(untrue)` hands `untrue` to `JSON.parse` and fails. |
| ContextProperties.UntrueIntendedArguments | src/extension/context.ts:187-196 | With the anchored pattern, `f(untrue)` yields `["untrue"]`. |
| ContextProperties.ScenarioUntrue | src/extension/context.ts:192-194 | Both readings of `f(untrue)`, side by side. |
| ContextProperties.UntrueToken | src/extension/context.ts:157-169 | `f(untrue)` carries no negation marker and is not a separator. |
| ContextProperties.UntrueExpression | src/extension/context.ts:147-155 | As written, extracting `f(untrue)` fails with the parser's error; as meant, it is `f` with `["untrue"]`. |
| ContextProperties.ScenarioUntrueContext | src/extension/context.ts:119-125 | In a whole context `["f(untrue)"]`: as written, `check` fails before any call; as meant, it makes one call of `context.values.f` with `["untrue"]`. |
| LineScan.PrecedingRange | src/extension/environment/commands.ts:3-22 | The range ends at the position and starts at character 0 of the nearest non-blank line above it. Line 0 is taken without being looked at. Every line in between is blank. |
| LineScan.FollowingRange | src/extension/environment/commands.ts:24-53 | The range starts at the position and ends at the end of the nearest non-blank line below it. The last line is taken without being looked at. Every line in between is blank. |
| LineScan.PrecedingStartUnique | src/extension/environment/commands.ts:3-22 | Exactly one line satisfies the preceding range's start condition. |
| LineScan.FollowingEndUnique | src/extension/environment/commands.ts:24-53 | Exactly one line satisfies the following range's end condition. |
| LineScan.PrecedingStartBounds | src/extension/environment/commands.ts:7-16 | The start is never below the position. It is the line directly above when that line is not blank. |
| LineScan.FollowingEndBounds | src/extension/environment/commands.ts:28-41 | The end is never above the position. It is the line directly below when that line is not blank and is not the last line. |

## Left out

- The expression parser (`grammar`) is a parameter `parse: string -> Result<Expr>` of `Scope.Check`; the grammar is not part of this model.
- The executor, the document's commands, `document.execute` and the function values that commands return are one responder over the call log. Their own behaviour is not modelled.
- `JSON.parse` is a parameter returning a value or a syntax-error message.
- `deep-equal` is structural equality of the model's values.
- Numbers are unbounded integers; floating point, `NaN` and numeric strings in comparisons are not modelled (such a comparison is undefined, so all four relational operators are false).
- `Promise.all` in `context.ts`: all parts of an alternative and all alternatives run, one after the other in order. The interleaving of their host calls is not modelled. When several fail, the model reports the first failure in order, not the first in time.
- The unordered race of finding 1 is modelled for alternatives that finish in the order they start (`Context.Check` under `Context.Written`). Other completion orders are not modelled.
- `this` in a method call on a chain result is not passed to the called function.
- `in` and property reads see own properties only. Inherited members such as `toString` are not modelled, in chain steps or in the command table.
- Error messages are structured `Error` values rather than text. Those the source builds with `JSON.stringify` hold the offending value. `UnknownScopeValue` and `UnknownChainPart` hold nothing, because the model's unknown nodes and chain steps carry no contents.
- The other environment commands and the editor wiring are not part of this model (`vsc.ts`, `environment.ts`, `document.ts`, `extension.ts`).
- `getText` is not modelled: `LineScan.PrecedingRange` and `LineScan.FollowingRange` return the range handed to it.
- The editor's `firstNonWhitespaceCharacterIndex` is a parameter of the document (`LineScan.TextDocument.firstNonWhitespace`), not computed from the line's text.
- LineScan.PrecedingRange and LineScan.FollowingRange require the position's line to be in the document, which the editor guarantees for the active cursor.
- Scope.Eval: its own contract bounds only the calls it appends; its meaning per input shape is stated by the lemmas in `ScopeProperties` and by the methods proved equal to it.
- Scope.EvalCommand: its own contract bounds only the calls it appends; its meaning per input shape is stated by the lemmas in `ScopeProperties` and by the methods proved equal to it.
- Context.RunCommand: its own contract bounds only the calls it appends; its meaning per input shape is stated by the lemmas in `ContextProperties`.
- Context.RunExpression: its own contract bounds only the calls it appends; its meaning is stated by `Context.ExtractionFailures` (operator extraction fails, then context extraction fails, no call), `Context.ExtractedExpression` (both succeed) and `ContextProperties.OperatorCalls` (the two calls and the answer).
- Context.RunOperator: its own contract bounds only the calls it appends; its calls and answer are stated by `ContextProperties.OperatorCalls`.
- Context.EvalPart: its own contract bounds only the calls it appends; its meaning per part shape is stated by `ContextProperties` lemmas: `ArrayExpressionPart` (any array expression, string or object commands; `OperatorPart` for two strings), `InvalidPart` (other parts longer than one), `ObjectExpressionPart`, `CommandPart` and `StringPart` (commands), `NestedPart` (nested context) and `LoneOther` (anything else).
- Context.CheckOrGroup: its own contract bounds only the calls it appends; its meaning per input shape is stated by the lemmas in `ContextProperties`.
- ScenarioAndShortCircuits: `src/test/scope.test.ts:33` passes the executor `run` itself where `check` expects a document. On it, `scope.ts:204` applies `in` to the missing command table and throws. The lemma uses a document whose command table is empty and whose `execute` is `run`, which is what the test evidently means.
- ScenarioOrContinues: the same document in place of the test's `run` (`src/test/scope.test.ts:37`).
- ScenarioNegation: the same document in place of the test's `run` (`src/test/scope.test.ts:71`).
- ScenarioChainsCallback: the same document in place of the test's `run` (`src/test/scope.test.ts:63-66`).
- HasMember: a function value has no members in the model. In JavaScript, `"length" in f` and `"name" in f` hold, because a function has those own properties.
- StringComparisons: strings are sequences of Unicode scalar values, ordered by code point. JavaScript orders strings by UTF-16 code unit, which differs from code-point order only when a character above U+FFFF is compared with one in U+E000 to U+FFFF.
- IsLessThan: an array, object or function operand is not converted by ToPrimitive, so every relational comparison involving one is false. In JavaScript, `[] < 1` and `[2] > 1` hold.

## Findings

| source | as written | input that shows it | evidently intended | confidence | as-written member | corrected member |
|---|---|---|---|---|---|---|
| src/extension/context.ts:11-17 | Each alternative's callback reads the shared `result` (still `false`) before awaiting, then overwrites it. The answer is whichever alternative finishes last. | `["commandTrue", "or", "commandFalse"]`, with alternatives that finish in the order they start: `false` | True when any alternative holds | not executed; high | Context.Check under Context.Written (shown by ContextProperties.ScenarioOrRace and ContextProperties.ScenarioNestedRace) | Context.Check under Context.Meant (ContextProperties.Precedence, Context.CheckCompared) |
| src/extension/context.ts:192 | The alternation in the bare-argument pattern is not grouped. So it accepts a leading digit, `true` or `false` anywhere, or a trailing `null`, and hands such text to `JSON.parse`. | `f(untrue)`: `untrue` goes to `JSON.parse`, which throws | Only a whole digit string, `true`, `false` or `null` is parsed as JSON; other text stays a string | not executed; high | Context.Coerces with AsWritten, used by Context.Check under Context.Written (shown by ContextProperties.UntrueAsWrittenArguments and ContextProperties.ScenarioUntrueContext) | Context.Coerces with Intended, used by Context.Check under Context.Meant (ContextProperties.UntrueIntendedArguments, Context.IntendedNarrowsAsWritten) |
