/**
  What the legacy context evaluator promises, and the scenarios of its tests.
*/
module ContextProperties {
  import opened JsStrings
  import opened JsValues
  import opened Sequences
  import opened Context

  // ---------------------------------------------------------------------------
  // Alternatives and parts
  // ---------------------------------------------------------------------------

  /** A successful fold over the parts is, at every index, the fold over the parts before
      it followed by that part's own answer, evaluated after them. */
  lemma {:induction false} PartResultsElements(env: Env, log: seq<Call>, root: Value, parts: seq<seq<Value>>, i: nat)
    requires root.Array?
    requires forall a, b :: 0 <= a < |parts| && 0 <= b < |parts[a]| ==> parts[a][b] in root.items
    requires PartResults(env, log, root, parts).result.Ok? && i < |parts|
    ensures PartResults(env, log, root, parts[..i]).result == Ok(PartResults(env, log, root, parts).result.value[..i])
    ensures EvalPart(env, PartResults(env, log, root, parts[..i]).log, root, parts[i]).result ==
            Ok(PartResults(env, log, root, parts).result.value[i])
    decreases |parts|
  {
    var init := parts[..|parts| - 1];
    var vs := PartResults(env, log, root, parts).result.value;
    assert vs[..|parts| - 1] == PartResults(env, log, root, init).result.value;
    if i < |parts| - 1 {
      assert init[..i] == parts[..i];
      PartResultsElements(env, log, root, init, i);
      assert vs[..|parts| - 1][..i] == vs[..i];
    } else {
      assert init == parts[..i];
    }
  }

  /** The same for the fold over the alternatives. */
  lemma {:induction false} GroupResultsElements(env: Env, log: seq<Call>, root: Value, groups: seq<seq<Value>>, i: nat)
    requires root.Array?
    requires forall a, b :: 0 <= a < |groups| && 0 <= b < |groups[a]| ==> groups[a][b] in root.items
    requires GroupResults(env, log, root, groups).result.Ok? && i < |groups|
    ensures GroupResults(env, log, root, groups[..i]).result == Ok(GroupResults(env, log, root, groups).result.value[..i])
    ensures CheckOrGroup(env, GroupResults(env, log, root, groups[..i]).log, root, groups[i]).result ==
            Ok(GroupResults(env, log, root, groups).result.value[i])
    decreases |groups|
  {
    var init := groups[..|groups| - 1];
    var vs := GroupResults(env, log, root, groups).result.value;
    assert vs[..|groups| - 1] == GroupResults(env, log, root, init).result.value;
    if i < |groups| - 1 {
      assert init[..i] == groups[..i];
      GroupResultsElements(env, log, root, init, i);
      assert vs[..|groups| - 1][..i] == vs[..i];
    } else {
      assert init == groups[..i];
    }
  }

  /** Once a part fails, the fold over the parts fails with that part's error, although
      every later part is still evaluated. */
  lemma {:induction false} PartFailureFinal(env: Env, log: seq<Call>, root: Value, parts: seq<seq<Value>>, k: nat)
    requires root.Array?
    requires forall a, b :: 0 <= a < |parts| && 0 <= b < |parts[a]| ==> parts[a][b] in root.items
    requires k < |parts| && PartResults(env, log, root, parts[..k]).result.Ok?
    requires EvalPart(env, PartResults(env, log, root, parts[..k]).log, root, parts[k]).result.Err?
    ensures PartResults(env, log, root, parts).result ==
            Err(EvalPart(env, PartResults(env, log, root, parts[..k]).log, root, parts[k]).result.error)
    decreases |parts|
  {
    var init := parts[..|parts| - 1];
    if k < |parts| - 1 {
      assert init[..k] == parts[..k];
      PartFailureFinal(env, log, root, init, k);
    } else {
      assert init == parts[..k];
    }
  }

  /** `and` binds tighter than `or`: as meant, a context that evaluates holds exactly when
      some alternative has all its parts hold. */
  lemma Precedence(env: Env, log: seq<Call>, context: Value)
    requires env.reading.combination == AnyHolds
    requires Check(env, log, context).result.Ok?
    ensures context.Array?
    ensures var groups := SplitOn(context.items, Str("or"));
            forall i, j :: 0 <= i < |groups| && 0 <= j < |groups[i]| ==> groups[i][j] in context.items
    ensures var groups := SplitOn(context.items, Str("or"));
            Check(env, log, context).result.value <==>
              exists i :: 0 <= i < |groups| &&
                CheckOrGroup(env, GroupResults(env, log, context, groups[..i]).log, context, groups[i]).result == Ok(true)
  {
    var groups := SplitOn(context.items, Str("or"));
    SplitOnElements(context.items, Str("or"));
    var vs := GroupResults(env, log, context, groups).result.value;
    assert Check(env, log, context).result.value == AnyTrue(vs);
    forall i | 0 <= i < |groups|
      ensures CheckOrGroup(env, GroupResults(env, log, context, groups[..i]).log, context, groups[i]).result == Ok(vs[i])
    {
      GroupResultsElements(env, log, context, groups, i);
    }
  }

  /** As written, a context that evaluates holds exactly when its last alternative holds,
      whatever the answers of the others. */
  lemma LastAlternativeDecides(env: Env, log: seq<Call>, context: Value)
    requires env.reading.combination == LastFinished
    requires Check(env, log, context).result.Ok?
    ensures context.Array?
    ensures var groups := SplitOn(context.items, Str("or"));
            forall i, j :: 0 <= i < |groups| && 0 <= j < |groups[i]| ==> groups[i][j] in context.items
    ensures var groups := SplitOn(context.items, Str("or"));
            var k := |groups| - 1;
            Check(env, log, context).result.value <==>
              CheckOrGroup(env, GroupResults(env, log, context, groups[..k]).log, context, groups[k]).result == Ok(true)
  {
    var groups := SplitOn(context.items, Str("or"));
    SplitOnElements(context.items, Str("or"));
    var vs := GroupResults(env, log, context, groups).result.value;
    assert Check(env, log, context).result.value == vs[|groups| - 1];
    GroupResultsElements(env, log, context, groups, |groups| - 1);
  }

  /** An alternative that evaluates holds exactly when each of its parts holds. */
  lemma AlternativeHolds(env: Env, log: seq<Call>, root: Value, group: seq<Value>)
    requires root.Array? && forall j :: 0 <= j < |group| ==> group[j] in root.items
    requires CheckOrGroup(env, log, root, group).result.Ok?
    ensures var parts := SplitOn(group, Str("and"));
            forall i, j :: 0 <= i < |parts| && 0 <= j < |parts[i]| ==> parts[i][j] in root.items
    ensures var parts := SplitOn(group, Str("and"));
            CheckOrGroup(env, log, root, group).result.value <==>
              forall j :: 0 <= j < |parts| ==>
                EvalPart(env, PartResults(env, log, root, parts[..j]).log, root, parts[j]).result == Ok(true)
  {
    var parts := SplitOn(group, Str("and"));
    SplitOnElements(group, Str("and"));
    var vs := PartResults(env, log, root, parts).result.value;
    forall j | 0 <= j < |parts|
      ensures EvalPart(env, PartResults(env, log, root, parts[..j]).log, root, parts[j]).result == Ok(vs[j])
    {
      PartResultsElements(env, log, root, parts, j);
    }
  }

  // ---------------------------------------------------------------------------
  // Small contexts
  // ---------------------------------------------------------------------------

  /** Tokens without a separator form one group. */
  lemma SplitNone<T>(xs: seq<T>, sep: T)
    requires sep !in xs
    ensures SplitOn(xs, sep) == [xs]
  {
    SplitExtend([], xs, sep);
    assert [] + xs == xs;
  }

  /** `[a, sep, b]` is the two groups `[a]` and `[b]`. */
  lemma SplitPair<T>(a: T, sep: T, b: T)
    requires a != sep && b != sep
    ensures SplitOn([a, sep, b], sep) == [[a], [b]]
  {
    var gs := [[a], [b]];
    assert JoinWith(gs, sep) == [a, sep, b] by {
      assert gs[..1] == [[a]];
      assert JoinWith(gs[..1], sep) == [a];
    }
    SplitJoin(gs, sep);
  }

  /** A fold over one element is that element's evaluation. */
  lemma OneGroup(env: Env, log: seq<Call>, root: Value, group: seq<Value>)
    requires root.Array? && forall j :: 0 <= j < |group| ==> group[j] in root.items
    ensures var c := CheckOrGroup(env, log, root, group);
            GroupResults(env, log, root, [group]) == Outcome(if c.result.Ok? then Ok([c.result.value]) else Err(c.result.error), c.log)
  {
    assert [group][..0] == [];
    var c := CheckOrGroup(env, log, root, group);
    if c.result.Ok? {
      assert [] + [c.result.value] == [c.result.value];
    }
  }

  lemma OnePart(env: Env, log: seq<Call>, root: Value, part: seq<Value>)
    requires root.Array? && forall j :: 0 <= j < |part| ==> part[j] in root.items
    ensures var c := EvalPart(env, log, root, part);
            PartResults(env, log, root, [part]) == Outcome(if c.result.Ok? then Ok([c.result.value]) else Err(c.result.error), c.log)
  {
    assert [part][..0] == [];
    var c := EvalPart(env, log, root, part);
    if c.result.Ok? {
      assert [] + [c.result.value] == [c.result.value];
    }
  }

  /** A fold over two parts: the first, then the second after its calls. */
  lemma PartPair(env: Env, log: seq<Call>, root: Value, p: seq<Value>, q: seq<Value>)
    requires root.Array?
    requires forall j :: 0 <= j < |p| ==> p[j] in root.items
    requires forall j :: 0 <= j < |q| ==> q[j] in root.items
    ensures var first := EvalPart(env, log, root, p);
            var second := EvalPart(env, first.log, root, q);
            first.result.Ok? && second.result.Ok? ==>
              PartResults(env, log, root, [p, q]) == Outcome(Ok([first.result.value, second.result.value]), second.log)
  {
    assert [p, q][..1] == [p];
    OnePart(env, log, root, p);
    var first := EvalPart(env, log, root, p);
    var second := EvalPart(env, first.log, root, q);
    if first.result.Ok? && second.result.Ok? {
      assert [first.result.value] + [second.result.value] == [first.result.value, second.result.value];
    }
  }

  /** A fold over two alternatives: the first, then the second after its calls. */
  lemma GroupPair(env: Env, log: seq<Call>, root: Value, g: seq<Value>, h: seq<Value>)
    requires root.Array?
    requires forall j :: 0 <= j < |g| ==> g[j] in root.items
    requires forall j :: 0 <= j < |h| ==> h[j] in root.items
    ensures var first := CheckOrGroup(env, log, root, g);
            var second := CheckOrGroup(env, first.log, root, h);
            first.result.Ok? && second.result.Ok? ==>
              GroupResults(env, log, root, [g, h]) == Outcome(Ok([first.result.value, second.result.value]), second.log)
  {
    assert [g, h][..1] == [g];
    OneGroup(env, log, root, g);
    var first := CheckOrGroup(env, log, root, g);
    var second := CheckOrGroup(env, first.log, root, h);
    if first.result.Ok? && second.result.Ok? {
      assert [first.result.value] + [second.result.value] == [first.result.value, second.result.value];
    }
  }

  /** An alternative without `"and"` is its one part. */
  lemma OnePartGroup(env: Env, log: seq<Call>, root: Value, part: seq<Value>)
    requires root.Array? && forall j :: 0 <= j < |part| ==> part[j] in root.items
    requires Str("and") !in part
    ensures CheckOrGroup(env, log, root, part) == EvalPart(env, log, root, part)
  {
    SplitNone(part, Str("and"));
    OnePart(env, log, root, part);
    var c := EvalPart(env, log, root, part);
    if c.result.Ok? {
      assert [c.result.value][0] == c.result.value;
      assert AllTrue([c.result.value]) == c.result.value;
    }
  }

  /** A context without `"or"` is its one alternative, whatever the reading. */
  lemma OneAlternative(env: Env, log: seq<Call>, items: seq<Value>)
    requires Str("or") !in items
    ensures Check(env, log, Array(items)) == CheckOrGroup(env, log, Array(items), items)
  {
    var root := Array(items);
    SplitNone(items, Str("or"));
    OneGroup(env, log, root, items);
    var c := CheckOrGroup(env, log, root, items);
    if c.result.Ok? {
      assert [c.result.value][0] == c.result.value;
      assert AnyTrue([c.result.value]) == c.result.value;
      assert Combine(env.reading.combination, [c.result.value]) == c.result.value;
    }
  }

  /** A context without `"or"` and `"and"` is its one part, whatever the reading. */
  lemma OnePartContext(env: Env, log: seq<Call>, part: seq<Value>)
    requires Str("or") !in part && Str("and") !in part
    ensures Check(env, log, Array(part)) == EvalPart(env, log, Array(part), part)
  {
    OneAlternative(env, log, part);
    OnePartGroup(env, log, Array(part), part);
  }

  /** A token `extractExpression` takes as it is: no surrounding whitespace, no negation
      marker, no call parentheses. */
  predicate PlainToken(name: string)
  {
    && |name| > 0 && !IsJsSpace(name[0]) && !IsJsSpace(name[|name| - 1]) && name[|name| - 1] != ')'
    && !StartsWith(name, "not ") && !StartsWith(name, "!")
  }

  /** A plain token names a command with `undefined` arguments. */
  lemma PlainArguments(pattern: ArgPattern, parseJson: string -> Parsed, name: string)
    requires PlainToken(name)
    ensures ExtractArgs(pattern, parseJson, name) == Ok((name, Undefined))
  {
    TrimOfTrimmed(name);
    assert MatchCall(name).None?;
  }

  /** A plain token is its own name, unnegated, with `undefined` arguments. */
  lemma PlainExpression(pattern: ArgPattern, parseJson: string -> Parsed, name: string)
    requires PlainToken(name)
    ensures ExtractExpression(pattern, parseJson, Str(name)) == Ok(Expression(false, name, Undefined))
  {
    assert ExtractNegation(name) == (name, false) by {
      TrimOfTrimmed(name);
      PlainName(name);
    }
    PlainArguments(pattern, parseJson, name);
  }

  /** `!` or `not ` before a plain token negates exactly that token. */
  lemma NegatedExpression(pattern: ArgPattern, parseJson: string -> Parsed, marker: string, name: string)
    requires PlainToken(name) && (marker == "!" || marker == "not ")
    ensures ExtractExpression(pattern, parseJson, Str(marker + name)) == Ok(Expression(true, name, Undefined))
  {
    assert ExtractNegation(marker + name) == (name, true) by {
      TrimOfTrimmed(name);
      if marker == "!" {
        BangMarker(name);
      } else {
        NotMarker(name);
      }
    }
    PlainArguments(pattern, parseJson, name);
  }

  /** A plain command is one call to `context.values.<name>` with `undefined` arguments,
      whose answer is taken as a boolean. */
  lemma PlainCommand(env: Env, log: seq<Call>, name: string)
    requires PlainToken(name)
    ensures var call := ExecuteCommand("context.values." + name, [Undefined]);
            var answer := env.executor(log, call);
            RunCommand(env, log, Str(name)) ==
              Outcome(if answer.Ok? then Ok(Truthy(answer.value)) else Err(answer.error), log + [call])
  {
    PlainExpression(env.reading.pattern, env.parseJson, name);
  }

  /** A negated plain command makes the same call and inverts its answer. */
  lemma NegatedCommand(env: Env, log: seq<Call>, marker: string, name: string)
    requires PlainToken(name) && (marker == "!" || marker == "not ")
    ensures var call := ExecuteCommand("context.values." + name, [Undefined]);
            var answer := env.executor(log, call);
            RunCommand(env, log, Str(marker + name)) ==
              Outcome(if answer.Ok? then Ok(!Truthy(answer.value)) else Err(answer.error), log + [call])
  {
    NegatedExpression(env.reading.pattern, env.parseJson, marker, name);
  }

  /** `[context, operator, right]` of plain tokens: the context's command, then the
      operator's command with `{args: undefined, left, right}`. */
  lemma PlainOperator(env: Env, log: seq<Call>, context: string, operator: string, right: Value)
    requires PlainToken(context) && PlainToken(operator)
    ensures RunExpression(env, log, Str(operator), Str(context), right) ==
      RunOperator(env, log, Expression(false, operator, Undefined), Expression(false, context, Undefined), right)
  {
    PlainExpression(env.reading.pattern, env.parseJson, operator);
    PlainExpression(env.reading.pattern, env.parseJson, context);
    ExtractedExpression(env, log, Str(operator), Str(context), right);
  }

  /** The same with a negated operator. */
  lemma NegatedOperator(env: Env, log: seq<Call>, context: string, marker: string, operator: string, right: Value)
    requires PlainToken(context) && PlainToken(operator) && (marker == "!" || marker == "not ")
    ensures RunExpression(env, log, Str(marker + operator), Str(context), right) ==
      RunOperator(env, log, Expression(true, operator, Undefined), Expression(false, context, Undefined), right)
  {
    NegatedExpression(env.reading.pattern, env.parseJson, marker, operator);
    PlainExpression(env.reading.pattern, env.parseJson, context);
    ExtractedExpression(env, log, Str(marker + operator), Str(context), right);
  }

  /** The two calls of an operator expression: `context.values.<context>` with the context's
      arguments, then, unless that fails, `context.operators.<operator>` with
      `{args, left, right}`, where `left` is the first answer; the operator's negation
      applies to the second answer. */
  lemma OperatorCalls(env: Env, log: seq<Call>, op: Expression, ctx: Expression, right: Value)
    ensures var leftCall := ExecuteCommand("context.values." + ctx.name, [ctx.args]);
            var left := env.executor(log, leftCall);
            left.Err? ==> RunOperator(env, log, op, ctx, right) == Outcome(Err(left.error), log + [leftCall])
    ensures var leftCall := ExecuteCommand("context.values." + ctx.name, [ctx.args]);
            var left := env.executor(log, leftCall);
            left.Ok? ==>
              var opCall := ExecuteCommand("context.operators." + op.name,
                                           [Object(map["args" := op.args, "left" := left.value, "right" := right])]);
              var answer := env.executor(log + [leftCall], opCall);
              RunOperator(env, log, op, ctx, right) ==
                Outcome(if answer.Ok? then Ok(ApplyNegation(answer.value, op.negated)) else Err(answer.error),
                        log + [leftCall, opCall])
  {
  }

  /** A token that is a string command is run as one. */
  lemma StringPart(env: Env, log: seq<Call>, root: Value, s: string)
    requires root.Array? && Str(s) in root.items
    ensures EvalPart(env, log, root, [Str(s)]) == RunCommand(env, log, Str(s))
  {
  }

  /** A part of more than one token that is not an operator expression fails with
      "Invalid expression", before any call. */
  lemma InvalidPart(env: Env, log: seq<Call>, root: Value, part: seq<Value>)
    requires root.Array? && forall j :: 0 <= j < |part| ==> part[j] in root.items
    requires |part| > 1 && IsArrayExpression(part) == Ok(false)
    ensures EvalPart(env, log, root, part) == Outcome(Err(InvalidExpression(part)), log)
  {
  }

  /** A lone object expression runs its operator on its context and value. */
  lemma ObjectExpressionPart(env: Env, log: seq<Call>, root: Value, v: Value)
    requires root.Array? && v in root.items
    requires IsObjectExpression(v) == Ok(true)
    ensures EvalPart(env, log, root, [v]) ==
            RunExpression(env, log, v.fields["operator"], v.fields["context"], v.fields["value"])
  {
  }

  /** A lone command that is no object expression, a string or a command object, is run
      as a command. */
  lemma CommandPart(env: Env, log: seq<Call>, root: Value, v: Value)
    requires root.Array? && v in root.items
    requires IsObjectExpression(v) == Ok(false) && IsCommand(v) == Ok(true)
    ensures EvalPart(env, log, root, [v]) == RunCommand(env, log, v)
  {
  }

  /** A lone token that is no object expression, no command and no array fails with
      "Invalid expression", before any call. */
  lemma LoneOther(env: Env, log: seq<Call>, root: Value, v: Value)
    requires root.Array? && v in root.items
    requires IsObjectExpression(v) == Ok(false) && IsCommand(v) == Ok(false) && !v.Array?
    ensures EvalPart(env, log, root, [v]) == Outcome(Err(InvalidExpression([v])), log)
  {
  }

  // ---------------------------------------------------------------------------
  // Scenarios of the repository's context tests
  // ---------------------------------------------------------------------------

  /** The test executor. */
  function TestExecutor(log: seq<Call>, c: Call): Result<Value>
  {
    if !c.ExecuteCommand? then Err(Thrown("Unknown command"))
    else if c.command == "context.values." + "commandTrue" then Ok(Bool(true))
    else if c.command == "context.values." + "commandFalse" then Ok(Bool(false))
    else if c.command == "context.operators." + "==" && |c.rest| > 0 && c.rest[0].Object? then
      var fields := c.rest[0].fields;
      Ok(Bool((if "left" in fields then fields["left"] else Undefined) == (if "right" in fields then fields["right"] else Undefined)))
    else Err(Thrown("Unknown command: " + c.command))
  }

  function TestEnv(parseJson: string -> Parsed, reading: Reading): Env
  {
    Env(TestExecutor, parseJson, reading)
  }

  lemma CommandTrueToken()
    ensures PlainToken("commandTrue")
  {
    var name := "commandTrue";
    assert name[..1][0] == 'c' && name[..4][0] == 'c';
  }

  lemma CommandFalseToken()
    ensures PlainToken("commandFalse")
  {
    var name := "commandFalse";
    assert name[..1][0] == 'c' && name[..4][0] == 'c';
  }

  lemma EqualsToken()
    ensures PlainToken("==")
  {
    var name := "==";
    assert name[..1][0] == '=';
  }

  lemma CommandTrueRuns(parseJson: string -> Parsed, reading: Reading, log: seq<Call>)
    ensures RunCommand(TestEnv(parseJson, reading), log, Str("commandTrue")) ==
            Outcome(Ok(true), log + [ExecuteCommand("context.values." + "commandTrue", [Undefined])])
  {
    var name := "commandTrue";
    CommandTrueToken();
    PlainCommand(TestEnv(parseJson, reading), log, name);
    var call := ExecuteCommand("context.values." + name, [Undefined]);
    assert TestExecutor(log, call) == Ok(Bool(true));
  }

  lemma CommandFalseRuns(parseJson: string -> Parsed, reading: Reading, log: seq<Call>)
    ensures RunCommand(TestEnv(parseJson, reading), log, Str("commandFalse")) ==
            Outcome(Ok(false), log + [ExecuteCommand("context.values." + "commandFalse", [Undefined])])
  {
    var name := "commandFalse";
    CommandFalseToken();
    PlainCommand(TestEnv(parseJson, reading), log, name);
    var call := ExecuteCommand("context.values." + name, [Undefined]);
    assert |call.command| != |"context.values." + "commandTrue"|;
    assert TestExecutor(log, call) == Ok(Bool(false));
  }

  /** `["commandTrue"]` holds and `["commandFalse"]` does not. */
  lemma ScenarioSingleCommands(parseJson: string -> Parsed, reading: Reading)
    ensures Check(TestEnv(parseJson, reading), [], Array([Str("commandTrue")])).result == Ok(true)
    ensures Check(TestEnv(parseJson, reading), [], Array([Str("commandFalse")])).result == Ok(false)
  {
    CommandTrueToken();
    CommandFalseToken();
    assert TestExecutor([], ExecuteCommand("context.values." + "commandTrue", [Undefined])) == Ok(Bool(true));
    assert TestExecutor([], ExecuteCommand("context.values." + "commandFalse", [Undefined])) == Ok(Bool(false)) by {
      assert |"context.values." + "commandFalse"| != |"context.values." + "commandTrue"|;
    }
    CommandContext(parseJson, reading, "commandTrue", true);
    CommandContext(parseJson, reading, "commandFalse", false);
  }

  /** `[c]` for a plain command `c` answered by a boolean: that boolean. */
  lemma CommandContext(parseJson: string -> Parsed, reading: Reading, c: string, value: bool)
    requires PlainToken(c) && c != "or" && c != "and"
    requires TestExecutor([], ExecuteCommand("context.values." + c, [Undefined])) == Ok(Bool(value))
    ensures Check(TestEnv(parseJson, reading), [], Array([Str(c)])).result == Ok(value)
  {
    var env := TestEnv(parseJson, reading);
    CommandContextRuns(env, [], c);
    PlainCommand(env, [], c);
  }

  /** `["!commandTrue"]` and `["not commandTrue"]` do not hold. */
  lemma ScenarioNegates(parseJson: string -> Parsed, reading: Reading)
    ensures Check(TestEnv(parseJson, reading), [], Array([Str("!" + "commandTrue")])).result == Ok(false)
    ensures Check(TestEnv(parseJson, reading), [], Array([Str("not " + "commandTrue")])).result == Ok(false)
  {
    CommandTrueToken();
    assert TestExecutor([], ExecuteCommand("context.values." + "commandTrue", [Undefined])) == Ok(Bool(true));
    NegatedContext(parseJson, reading, "!", "commandTrue", true);
    NegatedContext(parseJson, reading, "not ", "commandTrue", true);
  }

  /** `[marker + c]` for a plain command `c` answered by a boolean: its negation. */
  lemma NegatedContext(parseJson: string -> Parsed, reading: Reading, marker: string, c: string, value: bool)
    requires PlainToken(c) && (marker == "!" || marker == "not ")
    requires TestExecutor([], ExecuteCommand("context.values." + c, [Undefined])) == Ok(Bool(value))
    ensures Check(TestEnv(parseJson, reading), [], Array([Str(marker + c)])).result == Ok(!value)
  {
    var env := TestEnv(parseJson, reading);
    var v := Str(marker + c);
    assert v != Str("or") && v != Str("and") by {
      assert (marker + c)[0] == marker[0];
    }
    OnePartContext(env, [], [v]);
    StringPart(env, [], Array([v]), marker + c);
    NegatedCommand(env, [], marker, c);
  }

  /** A part of three tokens whose first two are strings is an operator expression. */
  lemma OperatorPart(env: Env, log: seq<Call>, root: Value, context: string, operator: string, right: Value)
    requires root.Array? && Str(context) in root.items && Str(operator) in root.items && right in root.items
    ensures EvalPart(env, log, root, [Str(context), Str(operator), right]) ==
            RunExpression(env, log, Str(operator), Str(context), right)
  {
  }

  /** Any array expression, whatever its two commands (strings or command objects), runs its
      second token as the operator on its first token and its third. */
  lemma ArrayExpressionPart(env: Env, log: seq<Call>, root: Value, part: seq<Value>)
    requires root.Array? && forall j :: 0 <= j < |part| ==> part[j] in root.items
    requires IsArrayExpression(part) == Ok(true)
    ensures |part| == 3
    ensures EvalPart(env, log, root, part) == RunExpression(env, log, part[1], part[0], part[2])
  {
  }

  /** The test's `==` compares the context's answer with the right-hand value. */
  lemma TestEquals(parseJson: string -> Parsed, reading: Reading, context: string, value: bool, negated: bool, right: bool)
    requires TestExecutor([], ExecuteCommand("context.values." + context, [Undefined])) == Ok(Bool(value))
    ensures RunOperator(TestEnv(parseJson, reading), [], Expression(negated, "==", Undefined), Expression(false, context, Undefined), Bool(right)).result ==
            Ok((value == right) != negated)
  {
    var leftCall := ExecuteCommand("context.values." + context, [Undefined]);
    var request := Object(map["args" := Undefined, "left" := Bool(value), "right" := Bool(right)]);
    var opCall := ExecuteCommand("context.operators." + "==", [request]);
    assert TestExecutor([leftCall], opCall) == Ok(Bool(value == right)) by {
      assert |opCall.command| != |"context.values." + "commandTrue"|;
      assert |opCall.command| != |"context.values." + "commandFalse"|;
    }
  }

  /** `[c, "==", false]` for a plain command `c` answered by a boolean: whether that
      boolean is `false`. */
  lemma EqualsContext(parseJson: string -> Parsed, reading: Reading, c: string, value: bool)
    requires PlainToken(c) && c != "or" && c != "and"
    requires TestExecutor([], ExecuteCommand("context.values." + c, [Undefined])) == Ok(Bool(value))
    ensures Check(TestEnv(parseJson, reading), [], Array([Str(c), Str("=="), Bool(false)])).result == Ok(!value)
  {
    var env := TestEnv(parseJson, reading);
    var part := [Str(c), Str("=="), Bool(false)];
    EqualsToken();
    OnePartContext(env, [], part);
    OperatorPart(env, [], Array(part), c, "==", Bool(false));
    PlainOperator(env, [], c, "==", Bool(false));
    TestEquals(parseJson, reading, c, value, false, false);
  }

  /** `[c, "!==", false]` and `[c, "not ==", false]`: the inverted answer. */
  lemma NegatedEqualsContext(parseJson: string -> Parsed, reading: Reading, c: string, marker: string, value: bool)
    requires PlainToken(c) && c != "or" && c != "and" && (marker == "!" || marker == "not ")
    requires TestExecutor([], ExecuteCommand("context.values." + c, [Undefined])) == Ok(Bool(value))
    ensures Check(TestEnv(parseJson, reading), [], Array([Str(c), Str(marker + "=="), Bool(false)])).result == Ok(value)
  {
    var env := TestEnv(parseJson, reading);
    var part := [Str(c), Str(marker + "=="), Bool(false)];
    EqualsToken();
    assert marker + "==" != "or" && marker + "==" != "and" by {
      assert (marker + "==")[|marker + "=="| - 1] == '=';
    }
    OnePartContext(env, [], part);
    OperatorPart(env, [], Array(part), c, marker + "==", Bool(false));
    NegatedOperator(env, [], c, marker, "==", Bool(false));
    TestEquals(parseJson, reading, c, value, true, false);
  }

  /** `[{context: c, operator: "==", value: right}]` for a plain command `c` answered by a
      boolean: whether that boolean is `right`. */
  lemma ObjectEqualsContext(parseJson: string -> Parsed, reading: Reading, c: string, value: bool, right: bool)
    requires PlainToken(c)
    requires TestExecutor([], ExecuteCommand("context.values." + c, [Undefined])) == Ok(Bool(value))
    ensures Check(TestEnv(parseJson, reading), [],
                  Array([Object(map["context" := Str(c), "operator" := Str("=="), "value" := Bool(right)])])).result ==
            Ok(value == right)
  {
    var env := TestEnv(parseJson, reading);
    var v := Object(map["context" := Str(c), "operator" := Str("=="), "value" := Bool(right)]);
    EqualsToken();
    OnePartContext(env, [], [v]);
    assert IsObjectExpression(v) == Ok(true);
    ObjectExpressionPart(env, [], Array([v]), v);
    PlainOperator(env, [], c, "==", Bool(right));
    TestEquals(parseJson, reading, c, value, false, right);
  }

  /** `["commandFalse", "==", false]` holds and `["commandTrue", "==", false]` does not;
      with `!==` or `not ==` the second holds. The object expression
      `{context: "commandTrue", operator: "==", value: v}` holds exactly for `v == true`. */
  lemma ScenarioOperators(parseJson: string -> Parsed, reading: Reading)
    ensures Check(TestEnv(parseJson, reading), [], Array([Str("commandFalse"), Str("=="), Bool(false)])).result == Ok(true)
    ensures Check(TestEnv(parseJson, reading), [], Array([Str("commandTrue"), Str("=="), Bool(false)])).result == Ok(false)
    ensures Check(TestEnv(parseJson, reading), [], Array([Str("commandTrue"), Str("!" + "=="), Bool(false)])).result == Ok(true)
    ensures Check(TestEnv(parseJson, reading), [], Array([Str("commandTrue"), Str("not " + "=="), Bool(false)])).result == Ok(true)
    ensures Check(TestEnv(parseJson, reading), [],
                  Array([Object(map["context" := Str("commandTrue"), "operator" := Str("=="), "value" := Bool(true)])])).result == Ok(true)
    ensures Check(TestEnv(parseJson, reading), [],
                  Array([Object(map["context" := Str("commandTrue"), "operator" := Str("=="), "value" := Bool(false)])])).result == Ok(false)
  {
    CommandTrueToken();
    CommandFalseToken();
    assert TestExecutor([], ExecuteCommand("context.values." + "commandTrue", [Undefined])) == Ok(Bool(true));
    assert TestExecutor([], ExecuteCommand("context.values." + "commandFalse", [Undefined])) == Ok(Bool(false)) by {
      assert |"context.values." + "commandFalse"| != |"context.values." + "commandTrue"|;
    }
    EqualsContext(parseJson, reading, "commandFalse", false);
    EqualsContext(parseJson, reading, "commandTrue", true);
    NegatedEqualsContext(parseJson, reading, "commandTrue", "!", true);
    NegatedEqualsContext(parseJson, reading, "commandTrue", "not ", true);
    ObjectEqualsContext(parseJson, reading, "commandTrue", true, true);
    ObjectEqualsContext(parseJson, reading, "commandTrue", true, false);
  }

  /** `[a, "or", b]`: both alternatives are evaluated, one after the other; as meant it
      holds when either does, as written it takes the answer of the second. */
  lemma TwoAlternatives(env: Env, log: seq<Call>, a: Value, b: Value)
    requires a != Str("or") && b != Str("or")
    ensures var root := Array([a, Str("or"), b]);
            var first := CheckOrGroup(env, log, root, [a]);
            var second := CheckOrGroup(env, first.log, root, [b]);
            first.result.Ok? && second.result.Ok? ==>
              Check(env, log, root) ==
                Outcome(Ok(if env.reading.combination == AnyHolds then first.result.value || second.result.value
                           else second.result.value), second.log)
  {
    var root := Array([a, Str("or"), b]);
    var first := CheckOrGroup(env, log, root, [a]);
    var second := CheckOrGroup(env, first.log, root, [b]);
    SplitPair(a, Str("or"), b);
    GroupPair(env, log, root, [a], [b]);
    if first.result.Ok? && second.result.Ok? {
      var bs := [first.result.value, second.result.value];
      assert GroupResults(env, log, root, [[a], [b]]) == Outcome(Ok(bs), second.log);
      assert Check(env, log, root) == Outcome(Ok(Combine(env.reading.combination, bs)), second.log);
      if env.reading.combination == AnyHolds {
        assert AnyTrue(bs) == (bs[0] || bs[1]);
      } else {
        assert Combine(LastFinished, bs) == bs[1];
      }
    }
  }

  /** An alternative that is one string command is that command's run. */
  lemma CommandGroup(env: Env, log: seq<Call>, root: Value, c: string)
    requires root.Array? && Str(c) in root.items && c != "and"
    ensures CheckOrGroup(env, log, root, [Str(c)]) == RunCommand(env, log, Str(c))
  {
    OnePartGroup(env, log, root, [Str(c)]);
    StringPart(env, log, root, c);
  }

  /** `[c, "or", d]` for plain commands answered by booleans: as meant their disjunction,
      as written the answer of `d`. */
  lemma DisjunctionContext(env: Env, c: string, v: bool, d: string, w: bool)
    requires PlainToken(c) && c != "or" && c != "and" && PlainToken(d) && d != "or" && d != "and"
    requires env.executor([], ExecuteCommand("context.values." + c, [Undefined])) == Ok(Bool(v))
    requires env.executor([ExecuteCommand("context.values." + c, [Undefined])], ExecuteCommand("context.values." + d, [Undefined])) == Ok(Bool(w))
    ensures Check(env, [], Array([Str(c), Str("or"), Str(d)])).result ==
            Ok(if env.reading.combination == AnyHolds then v || w else w)
  {
    var root := Array([Str(c), Str("or"), Str(d)]);
    var first := CheckOrGroup(env, [], root, [Str(c)]);
    assert first == Outcome(Ok(v), [ExecuteCommand("context.values." + c, [Undefined])]) by {
      CommandGroup(env, [], root, c);
      PlainCommand(env, [], c);
    }
    assert CheckOrGroup(env, first.log, root, [Str(d)]).result == Ok(w) by {
      CommandGroup(env, first.log, root, d);
      PlainCommand(env, first.log, d);
    }
    TwoAlternatives(env, [], Str(c), Str(d));
  }

  /** `["commandFalse", "or", "commandTrue"]` holds, whatever the reading. */
  lemma ScenarioOr(parseJson: string -> Parsed, reading: Reading)
    ensures Check(TestEnv(parseJson, reading), [], Array([Str("commandFalse"), Str("or"), Str("commandTrue")])).result == Ok(true)
  {
    CommandTrueToken();
    CommandFalseToken();
    var log := [ExecuteCommand("context.values." + "commandFalse", [Undefined])];
    assert TestExecutor(log, ExecuteCommand("context.values." + "commandTrue", [Undefined])) == Ok(Bool(true));
    assert TestExecutor([], ExecuteCommand("context.values." + "commandFalse", [Undefined])) == Ok(Bool(false)) by {
      assert |"context.values." + "commandFalse"| != |"context.values." + "commandTrue"|;
    }
    DisjunctionContext(TestEnv(parseJson, reading), "commandFalse", false, "commandTrue", true);
  }

  /** The race of `check` as written: `["commandTrue", "or", "commandFalse"]` does not hold,
      because the second alternative finishes last; as meant, it holds. */
  lemma ScenarioOrRace(parseJson: string -> Parsed, pattern: ArgPattern)
    ensures Check(TestEnv(parseJson, Reading(pattern, LastFinished)), [], Array([Str("commandTrue"), Str("or"), Str("commandFalse")])).result == Ok(false)
    ensures Check(TestEnv(parseJson, Reading(pattern, AnyHolds)), [], Array([Str("commandTrue"), Str("or"), Str("commandFalse")])).result == Ok(true)
  {
    CommandTrueToken();
    CommandFalseToken();
    var log := [ExecuteCommand("context.values." + "commandTrue", [Undefined])];
    assert TestExecutor([], ExecuteCommand("context.values." + "commandTrue", [Undefined])) == Ok(Bool(true));
    assert TestExecutor(log, ExecuteCommand("context.values." + "commandFalse", [Undefined])) == Ok(Bool(false)) by {
      assert |"context.values." + "commandFalse"| != |"context.values." + "commandTrue"|;
    }
    DisjunctionContext(TestEnv(parseJson, Reading(pattern, LastFinished)), "commandTrue", true, "commandFalse", false);
    DisjunctionContext(TestEnv(parseJson, Reading(pattern, AnyHolds)), "commandTrue", true, "commandFalse", false);
  }

  /** A part that is a nested context array is that context's `check`, under the same
      reading. */
  lemma NestedPart(env: Env, log: seq<Call>, items: seq<Value>)
    ensures Check(env, log, Array([Array(items)])) == Check(env, log, Array(items))
  {
    var inner := Array(items);
    OnePartContext(env, log, [inner]);
    assert IsCommand(inner) == Ok(false);
  }

  /** The race inside a nested context: `[["commandTrue", "or", "commandFalse"]]` does
      not hold as written, and holds as meant. */
  lemma ScenarioNestedRace(parseJson: string -> Parsed, pattern: ArgPattern)
    ensures Check(TestEnv(parseJson, Reading(pattern, LastFinished)), [],
                  Array([Array([Str("commandTrue"), Str("or"), Str("commandFalse")])])).result == Ok(false)
    ensures Check(TestEnv(parseJson, Reading(pattern, AnyHolds)), [],
                  Array([Array([Str("commandTrue"), Str("or"), Str("commandFalse")])])).result == Ok(true)
  {
    var items := [Str("commandTrue"), Str("or"), Str("commandFalse")];
    NestedPart(TestEnv(parseJson, Reading(pattern, LastFinished)), [], items);
    NestedPart(TestEnv(parseJson, Reading(pattern, AnyHolds)), [], items);
    ScenarioOrRace(parseJson, pattern);
  }

  /** The alternative `[a, "and", b]` holds when both its parts hold, evaluated one after
      the other, even when the first fails to hold. */
  lemma TwoParts(env: Env, log: seq<Call>, root: Value, a: Value, b: Value)
    requires root.Array? && a in root.items && b in root.items && Str("and") in root.items
    requires a != Str("and") && b != Str("and")
    ensures var first := EvalPart(env, log, root, [a]);
            var second := EvalPart(env, first.log, root, [b]);
            first.result.Ok? && second.result.Ok? ==>
              CheckOrGroup(env, log, root, [a, Str("and"), b]) == Outcome(Ok(first.result.value && second.result.value), second.log)
  {
    SplitPair(a, Str("and"), b);
    var first := EvalPart(env, log, root, [a]);
    var second := EvalPart(env, first.log, root, [b]);
    PartPair(env, log, root, [a], [b]);
    if first.result.Ok? && second.result.Ok? {
      var bs := [first.result.value, second.result.value];
      assert AllTrue(bs) == (bs[0] && bs[1]);
    }
  }

  /** The same for a whole context `[a, "and", b]`. */
  lemma TwoConjuncts(env: Env, log: seq<Call>, a: Value, b: Value)
    requires a != Str("or") && a != Str("and") && b != Str("or") && b != Str("and")
    ensures var root := Array([a, Str("and"), b]);
            var first := EvalPart(env, log, root, [a]);
            var second := EvalPart(env, first.log, root, [b]);
            first.result.Ok? && second.result.Ok? ==>
              Check(env, log, root) == Outcome(Ok(first.result.value && second.result.value), second.log)
  {
    var items := [a, Str("and"), b];
    OneAlternative(env, log, items);
    TwoParts(env, log, Array(items), a, b);
  }

  /** `[c, "and", d]` for plain commands answered by booleans: both are called, in order,
      and the answer is their conjunction. */
  lemma ConjunctionContext(parseJson: string -> Parsed, reading: Reading, c: string, v: bool, d: string, w: bool)
    requires PlainToken(c) && c != "or" && c != "and" && PlainToken(d) && d != "or" && d != "and"
    requires TestExecutor([], ExecuteCommand("context.values." + c, [Undefined])) == Ok(Bool(v))
    requires TestExecutor([ExecuteCommand("context.values." + c, [Undefined])], ExecuteCommand("context.values." + d, [Undefined])) == Ok(Bool(w))
    ensures Check(TestEnv(parseJson, reading), [], Array([Str(c), Str("and"), Str(d)])) ==
            Outcome(Ok(v && w), [ExecuteCommand("context.values." + c, [Undefined]), ExecuteCommand("context.values." + d, [Undefined])])
  {
    var env := TestEnv(parseJson, reading);
    var root := Array([Str(c), Str("and"), Str(d)]);
    var first := EvalPart(env, [], root, [Str(c)]);
    assert first == Outcome(Ok(v), [ExecuteCommand("context.values." + c, [Undefined])]) by {
      StringPart(env, [], root, c);
      PlainCommand(env, [], c);
    }
    assert EvalPart(env, first.log, root, [Str(d)]) ==
           Outcome(Ok(w), first.log + [ExecuteCommand("context.values." + d, [Undefined])]) by {
      StringPart(env, first.log, root, d);
      PlainCommand(env, first.log, d);
    }
    TwoConjuncts(env, [], Str(c), Str(d));
  }

  /** `["commandFalse", "and", "commandTrue"]` does not hold, and both commands are called. */
  lemma ScenarioAnd(parseJson: string -> Parsed, reading: Reading)
    ensures Check(TestEnv(parseJson, reading), [], Array([Str("commandFalse"), Str("and"), Str("commandTrue")])) ==
            Outcome(Ok(false), [ExecuteCommand("context.values." + "commandFalse", [Undefined]),
                                ExecuteCommand("context.values." + "commandTrue", [Undefined])])
  {
    CommandTrueToken();
    CommandFalseToken();
    var log := [ExecuteCommand("context.values." + "commandFalse", [Undefined])];
    assert TestExecutor(log, ExecuteCommand("context.values." + "commandTrue", [Undefined])) == Ok(Bool(true));
    assert TestExecutor([], ExecuteCommand("context.values." + "commandFalse", [Undefined])) == Ok(Bool(false)) by {
      assert |"context.values." + "commandFalse"| != |"context.values." + "commandTrue"|;
    }
    ConjunctionContext(parseJson, reading, "commandFalse", false, "commandTrue", true);
  }

  /** An object command `{command: "command", args: "ARGS", not: true}` calls
      `context.values.command` with `"ARGS"` and negates the answer. */
  lemma ScenarioObjectArguments(env: Env, log: seq<Call>)
    ensures var command := Object(map["command" := Str("command"), "args" := Str("ARGS"), "not" := Bool(true)]);
            var call := ExecuteCommand("context.values." + "command", [Str("ARGS")]);
            var answer := env.executor(log, call);
            RunCommand(env, log, command) ==
              Outcome(if answer.Ok? then Ok(!Truthy(answer.value)) else Err(answer.error), log + [call])
  {
    var command := Object(map["command" := Str("command"), "args" := Str("ARGS"), "not" := Bool(true)]);
    assert ExtractExpression(env.reading.pattern, env.parseJson, command) == Ok(Expression(true, "command", Str("ARGS")));
  }

  /** Quoted arguments that are not JSON: the message names the arguments and the parser's error. */
  lemma ScenarioArgumentsJsonError(parseJson: string -> Parsed)
    requires parseJson("[" + "\"ERROR\" \"ERROR\"" + "]") == SyntaxError("Unexpected string in JSON at position 9")
    ensures ExtractArgs(Intended, parseJson, "command" + "(" + "\"ERROR\" \"ERROR\"" + ")") ==
            Err(ArgumentsJson("Failed to parse arguments JSON \"" + "\"ERROR\" \"ERROR\"" + "\": " +
                              "Unexpected string in JSON at position 9"))
  {
    var name, tail := "command", "\"ERROR\" \"ERROR\"";
    var s := name + "(" + tail + ")";
    assert s[..|s|] == s && s[|s|..] == [];
    assert tail[0] == '"';
    QuotedArguments(Intended, parseJson, s, name, tail);
  }

  /** The bare argument `untrue`, trimmed, is itself. */
  lemma UntrueTrimmed()
    ensures Trim("untrue") == "untrue"
  {
    var t := "untrue";
    assert t[0] == 'u' && t[|t| - 1] == 'e';
    TrimOfTrimmed(t);
  }

  /** `untrue` contains `true`, so the pattern as written accepts it. */
  lemma UntrueAsWritten()
    ensures Coerces(AsWritten, "untrue")
  {
    assert "untrue"[2..6] == "true";
    ContainsAt("untrue", "true", 2);
  }

  /** `untrue` is none of the values the intended pattern accepts. */
  lemma UntrueIntended()
    ensures !Coerces(Intended, "untrue")
  {
    assert !IsDigit("untrue"[0]);
  }

  /** `name(tail)` with nothing after it has the call shape. */
  lemma ExactCallShape(name: string, tail: string)
    requires '(' !in name && NoLineTerminator(name + tail)
    ensures CallShape(name + "(" + tail + ")", name, tail)
  {
    var s := name + "(" + tail + ")";
    assert s[..|s|] == s;
    assert s[|s|..] == [];
  }

  /** `f(untrue)` has the call shape, with the single bare argument `untrue`. */
  lemma UntrueCall()
    ensures CallShape("f" + "(" + "untrue" + ")", "f", "untrue")
    ensures '"' !in "untrue"
    ensures SplitOn("untrue", ',') == ["untrue"]
  {
    assert NoLineTerminator("f" + "untrue") by {
      var t := "f" + "untrue";
      forall k | 0 <= k < |t|
        ensures !IsLineTerminator(t[k])
      {
        assert t[k] in "funtre";
      }
    }
    ExactCallShape("f", "untrue");
    assert ',' !in "untrue";
    SplitNone("untrue", ',');
  }

  /** A one-element `.map` is its one step. */
  lemma SingleResult(f: string -> Result<Value>, x: string)
    ensures MapResults(f, [x]) == if f(x).Ok? then Ok([f(x).value]) else Err(f(x).error)
  {
    assert [x][..0] == [];
    if f(x).Ok? {
      assert [] + [f(x).value] == [f(x).value];
    }
  }

  /** The bare argument `untrue`: the pattern as written hands it to `JSON.parse`. */
  lemma UntrueAsWrittenArguments(parseJson: string -> Parsed)
    requires parseJson("untrue").SyntaxError?
    ensures ExtractArgs(AsWritten, parseJson, "f" + "(" + "untrue" + ")") == Err(JsonSyntax(parseJson("untrue").message))
  {
    UntrueCall();
    var f := PieceFunction(AsWritten, parseJson);
    assert f("untrue") == Err(JsonSyntax(parseJson("untrue").message)) by {
      UntrueTrimmed();
      UntrueAsWritten();
    }
    SingleResult(f, "untrue");
    BareArguments(AsWritten, parseJson, "f" + "(" + "untrue" + ")", "f", "untrue");
  }

  /** The bare argument `untrue`: the intended pattern keeps it as a string. */
  lemma UntrueIntendedArguments(parseJson: string -> Parsed)
    ensures ExtractArgs(Intended, parseJson, "f" + "(" + "untrue" + ")") == Ok(("f", Array([Str("untrue")])))
  {
    UntrueCall();
    var f := PieceFunction(Intended, parseJson);
    assert f("untrue") == Ok(Str("untrue")) by {
      UntrueTrimmed();
      UntrueIntended();
    }
    SingleResult(f, "untrue");
    BareArguments(Intended, parseJson, "f" + "(" + "untrue" + ")", "f", "untrue");
  }

  /** The bare argument `untrue` (see `Coerces`): the pattern as written hands it to
      `JSON.parse`, which rejects it; the intended pattern keeps it as a string. */
  lemma ScenarioUntrue(parseJson: string -> Parsed)
    requires parseJson("untrue").SyntaxError?
    ensures ExtractArgs(AsWritten, parseJson, "f" + "(" + "untrue" + ")") == Err(JsonSyntax(parseJson("untrue").message))
    ensures ExtractArgs(Intended, parseJson, "f" + "(" + "untrue" + ")") == Ok(("f", Array([Str("untrue")])))
  {
    UntrueAsWrittenArguments(parseJson);
    UntrueIntendedArguments(parseJson);
  }

  /** `f(untrue)` carries no negation marker, and is no separator. */
  lemma UntrueToken()
    ensures var s := "f" + "(" + "untrue" + ")";
            ExtractNegation(s) == (s, false) && s != "or" && s != "and"
  {
    var s := "f" + "(" + "untrue" + ")";
    assert s[0] == 'f' && s[|s| - 1] == ')';
    assert s[..1][0] == 'f' && s[..4][0] == 'f';
    TrimOfTrimmed(s);
    PlainName(s);
    assert |s| != |"or"| && |s| != |"and"|;
  }

  /** The command `f(untrue)`: an error as written, a call of `f` with `["untrue"]` as meant. */
  lemma UntrueExpression(pattern: ArgPattern, parseJson: string -> Parsed)
    requires parseJson("untrue").SyntaxError?
    ensures pattern == AsWritten ==>
      ExtractExpression(pattern, parseJson, Str("f" + "(" + "untrue" + ")")) == Err(JsonSyntax(parseJson("untrue").message))
    ensures pattern == Intended ==>
      ExtractExpression(pattern, parseJson, Str("f" + "(" + "untrue" + ")")) == Ok(Expression(false, "f", Array([Str("untrue")])))
  {
    UntrueToken();
    if pattern == AsWritten {
      UntrueAsWrittenArguments(parseJson);
    } else {
      UntrueIntendedArguments(parseJson);
    }
  }

  /** A command whose expression cannot be extracted fails with that error, before any call. */
  lemma RunFailedExtraction(env: Env, log: seq<Call>, command: Value)
    requires ExtractExpression(env.reading.pattern, env.parseJson, command).Err?
    ensures RunCommand(env, log, command) ==
            Outcome(Err(ExtractExpression(env.reading.pattern, env.parseJson, command).error), log)
  {
  }

  /** A command whose expression is extracted is one call of its name with its arguments. */
  lemma RunExtracted(env: Env, log: seq<Call>, command: Value, e: Expression)
    requires ExtractExpression(env.reading.pattern, env.parseJson, command) == Ok(e)
    ensures var call := ExecuteCommand("context.values." + e.name, [e.args]);
            var answer := env.executor(log, call);
            RunCommand(env, log, command) ==
              Outcome(if answer.Ok? then Ok(ApplyNegation(answer.value, e.negated)) else Err(answer.error), log + [call])
  {
  }

  /** A context of one string command is that command's run. */
  lemma CommandContextRuns(env: Env, log: seq<Call>, s: string)
    requires s != "or" && s != "and"
    ensures Check(env, log, Array([Str(s)])) == RunCommand(env, log, Str(s))
  {
    OnePartContext(env, log, [Str(s)]);
    StringPart(env, log, Array([Str(s)]), s);
  }

  /** The same in a whole context `["f(untrue)"]`: as written, `check` fails before any
      call is made; as meant, it calls `context.values.f` with `["untrue"]`. */
  lemma ScenarioUntrueContext(env: Env, log: seq<Call>)
    requires env.parseJson("untrue").SyntaxError?
    ensures var context := Array([Str("f" + "(" + "untrue" + ")")]);
            env.reading.pattern == AsWritten ==>
              Check(env, log, context) == Outcome(Err(JsonSyntax(env.parseJson("untrue").message)), log)
    ensures var context := Array([Str("f" + "(" + "untrue" + ")")]);
            var call := ExecuteCommand("context.values." + "f", [Array([Str("untrue")])]);
            var answer := env.executor(log, call);
            env.reading.pattern == Intended ==>
              Check(env, log, context) ==
                Outcome(if answer.Ok? then Ok(Truthy(answer.value)) else Err(answer.error), log + [call])
  {
    var s := "f" + "(" + "untrue" + ")";
    UntrueToken();
    CommandContextRuns(env, log, s);
    UntrueExpression(env.reading.pattern, env.parseJson);
    var e := ExtractExpression(env.reading.pattern, env.parseJson, Str(s));
    if env.reading.pattern == AsWritten {
      assert e.Err?;
      RunFailedExtraction(env, log, Str(s));
    } else {
      assert e == Ok(Expression(false, "f", Array([Str("untrue")])));
      RunExtracted(env, log, Str(s), e.value);
    }
  }
}
