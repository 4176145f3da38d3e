/**
  The legacy evaluator of `when` contexts written as token lists.

  A context is an array of tokens. The literal token "or" separates alternatives,
  and inside each alternative the literal token "and" separates parts, so `and`
  binds tighter than `or`. A part is one of four things:
  - a command: a string `"name"`, `"!name"`, `"not name"` or `"name(args)"`, or an
    object carrying `command` and `args` and optionally `not`;
  - a three-element array expression `[context, operator, value]`;
  - an object expression `{context, operator, value}`;
  - a nested context array.
  A command is answered by the executor under `context.values.<name>`; an
  expression asks `context.operators.<operator>` with `{args, left, right}`.

  The executor and `JSON.parse` are parameters (`Env`). The executor sees the calls
  made before each call, so the order of the calls is part of every result.
*/
module Context {
  import opened JsStrings
  import opened JsValues
  import opened Sequences

  /** What `JSON.parse` yields: a value, or the message of the SyntaxError it throws. */
  datatype Parsed = Parsed(json: Value) | SyntaxError(message: string)

  /** The executor and the JSON parser the evaluator runs against, and the reading of the
      two places where the code does something other than it evidently means. */
  datatype Env = Env(executor: Responder, parseJson: string -> Parsed, reading: Reading)

  /** How `check` combines the answers of its alternatives. `LastFinished`, as written:
      every callback reads `result` (still `false`) before any of them resumes, so
      `result || await ...` keeps only the answer of the alternative that finishes last,
      which with alternatives finishing in the order they start is the last one.
      `AnyHolds`, as meant: the context holds when one of its alternatives holds. */
  datatype Combination = LastFinished | AnyHolds

  /** The test of bare arguments and the combination of alternatives; the same reading
      applies to nested contexts. */
  datatype Reading = Reading(pattern: ArgPattern, combination: Combination)

  /** The code as written. */
  const Written := Reading(AsWritten, LastFinished)

  /** The code as meant. */
  const Meant := Reading(Intended, AnyHolds)

  /** `[not, command, args]` as `extractExpression` returns it. */
  datatype Expression = Expression(negated: bool, name: string, args: Value)

  // ---------------------------------------------------------------------------
  // groupByCondition
  // ---------------------------------------------------------------------------

  /** `groupByCondition`: the groups between the tokens equal to `operator`. */
  method GroupByCondition(context: seq<Value>, operator: string) returns (results: seq<seq<Value>>)
    ensures results == SplitOn(context, Str(operator))
  {
    results := [[]];
    var index := 0;
    for i := 0 to |context|
      invariant results == SplitOn(context[..i], Str(operator))
      invariant index == |results| - 1
    {
      var value := context[i];
      assert context[..i + 1][..i] == context[..i];
      if value == Str(operator) {
        index := index + 1;
        results := results + [[]];
      } else {
        results := results[index := results[index] + [value]];
      }
    }
    assert context[..|context|] == context;
  }

  // ---------------------------------------------------------------------------
  // Shape tests
  // ---------------------------------------------------------------------------

  /** `isCommand`: a string, or a value with both a `command` and an `args` member.
      The `in` test throws on a primitive that is not a string. */
  function IsCommand(v: Value): (r: Result<bool>)
    ensures v.Str? ==> r == Ok(true)
    ensures v.Object? ==> r == Ok("command" in v.fields && "args" in v.fields)
    ensures v.Array? || v.Callable? ==> r == Ok(false)
    ensures r.Err? <==> v.Null? || v.Undefined? || v.Bool? || v.Int?
  {
    if v.Str? then Ok(true)
    else
      var hasCommand := HasMember(v, "command");
      if hasCommand.Err? then Err(hasCommand.error)
      else if !hasCommand.value then Ok(false)
      else HasMember(v, "args")
  }

  /** `isArrayExpression`: three tokens whose first two are commands; the tests stop at
      the first that fails. */
  function IsArrayExpression(part: seq<Value>): (r: Result<bool>)
    ensures |part| != 3 ==> r == Ok(false)
    ensures r == Ok(true) <==> |part| == 3 && IsCommand(part[0]) == Ok(true) && IsCommand(part[1]) == Ok(true)
    ensures r.Err? <==> |part| == 3 && (IsCommand(part[0]).Err? || (IsCommand(part[0]) == Ok(true) && IsCommand(part[1]).Err?))
  {
    if |part| != 3 then Ok(false)
    else
      var first := IsCommand(part[0]);
      if first.Err? || !first.value then first
      else IsCommand(part[1])
  }

  /** `isObjectExpression`: a non-null object with `context` (a command), `operator`
      (a command) and `value` members, tested in that order. */
  function IsObjectExpression(v: Value): (r: Result<bool>)
    ensures !v.Object? ==> r == Ok(false)
    ensures r == Ok(true) <==>
      && v.Object?
      && "context" in v.fields && IsCommand(v.fields["context"]) == Ok(true)
      && "operator" in v.fields && IsCommand(v.fields["operator"]) == Ok(true)
      && "value" in v.fields
    ensures r.Err? ==> v.Object? && "context" in v.fields
  {
    if !v.Object? then Ok(false)
    else if "context" !in v.fields then Ok(false)
    else
      var context := IsCommand(v.fields["context"]);
      if context.Err? || !context.value then context
      else if "operator" !in v.fields then Ok(false)
      else
        var operator := IsCommand(v.fields["operator"]);
        if operator.Err? || !operator.value then operator
        else Ok("value" in v.fields)
  }

  // ---------------------------------------------------------------------------
  // extractNegation
  // ---------------------------------------------------------------------------

  /** `extractNegation`: a leading `not ` or `!` of the trimmed text is a negation and is
      removed, the rest trimmed; text without one is returned as given, untrimmed. */
  function ExtractNegation(s: string): (r: (string, bool))
    ensures r.1 <==> StartsWith(Trim(s), "not ") || StartsWith(Trim(s), "!")
    ensures !r.1 ==> r.0 == s
    ensures r.1 ==> Trim(r.0) == r.0 && |r.0| < |s|
  {
    var trimmed := Trim(s);
    TrimLength(s);
    if StartsWith(trimmed, "not ") then
      TrimIdempotent(trimmed[4..]);
      TrimLength(trimmed[4..]);
      (Trim(trimmed[4..]), true)
    else if StartsWith(trimmed, "!") then
      TrimIdempotent(trimmed[1..]);
      TrimLength(trimmed[1..]);
      (Trim(trimmed[1..]), true)
    else (s, false)
  }

  /** A trimmed name that is not itself negated comes back unchanged and unnegated. */
  lemma PlainName(name: string)
    requires |name| > 0 && Trim(name) == name
    requires !StartsWith(name, "not ") && !StartsWith(name, "!")
    ensures ExtractNegation(name) == (name, false)
  {
  }

  /** `!` before a trimmed name is a negation of exactly that name. */
  lemma BangMarker(name: string)
    requires |name| > 0 && Trim(name) == name
    ensures ExtractNegation("!" + name) == (name, true)
  {
    TrimEnds(name);
    var bang := "!" + name;
    assert bang[|bang| - 1] == name[|name| - 1];
    TrimOfTrimmed(bang);
    assert bang[0] == '!';
    assert !StartsWith(bang, "not ") by {
      assert |bang| >= 4 ==> bang[..4][0] == '!';
    }
    assert StartsWith(bang, "!") by {
      assert bang[..1] == "!";
    }
    assert bang[1..] == name;
  }

  /** `not ` before a trimmed name is a negation of exactly that name. */
  lemma NotMarker(name: string)
    requires |name| > 0 && Trim(name) == name
    ensures ExtractNegation("not " + name) == (name, true)
  {
    TrimEnds(name);
    var not := "not " + name;
    assert not[|not| - 1] == name[|name| - 1];
    TrimOfTrimmed(not);
    assert not[..4] == "not " && not[4..] == name;
  }

  /** A marker keeps its meaning with whitespace around it and around the name: the
      negated rest is exactly the name. */
  lemma PaddedMarker(w1: string, marker: string, w2: string, name: string, w3: string)
    requires AllSpace(w1) && AllSpace(w2) && AllSpace(w3)
    requires marker == "!" || marker == "not "
    requires |name| > 0 && Trim(name) == name
    ensures ExtractNegation(w1 + marker + w2 + name + w3) == (name, true)
  {
    TrimEnds(name);
    var core := marker + w2 + name;
    assert core[0] == marker[0] && core[|core| - 1] == name[|name| - 1];
    assert w1 + marker + w2 + name + w3 == w1 + core + w3;
    TrimPadded(w1, core, w3);
    TrimPadded(w2, name, "");
    assert w2 + name + "" == w2 + name;
    if marker == "!" {
      assert !StartsWith(core, "not ") by {
        assert |core| >= 4 ==> core[..4][0] == '!';
      }
      assert core[..1] == "!" && core[1..] == w2 + name;
    } else {
      assert core[..4] == "not " && core[4..] == w2 + name;
    }
  }

  // ---------------------------------------------------------------------------
  // The call pattern of extractArgs
  // ---------------------------------------------------------------------------

  predicate NoLineTerminator(s: string)
  {
    forall k :: 0 <= k < |s| ==> !IsLineTerminator(s[k])
  }

  /** The first position of `c` in `s`. */
  function IndexOf(s: string, c: char): (r: Option<nat>)
    ensures r.None? <==> c !in s
    ensures r.Some? ==> r.value < |s| && s[r.value] == c && c !in s[..r.value]
  {
    if |s| == 0 then None
    else if s[0] == c then Some(0)
    else
      var rest := IndexOf(s[1..], c);
      if rest.None? then None
      else
        assert s[..rest.value + 1] == [s[0]] + s[1..][..rest.value];
        Some(rest.value + 1)
  }

  /** The match of `/^(.*?)\((.*?)\)\s*$/`: the name before the first `(` and the text up
      to the closing `)` that only whitespace follows. `.` does not cross a line
      terminator, so neither part may contain one. */
  function MatchCall(s: string): Option<(string, string)>
  {
    TrimEndShape(s);
    var t := TrimEnd(s);
    if |t| == 0 || t[|t| - 1] != ')' then None
    else
      var body := t[..|t| - 1];
      if !NoLineTerminator(body) then None
      else
        var open := IndexOf(body, '(');
        if open.None? then None
        else Some((s[..open.value], s[open.value + 1..|t| - 1]))
  }

  /** `s` is `name(tail)` followed by whitespace, `name` holds no `(` and neither part holds
      a line terminator. */
  predicate CallShape(s: string, name: string, tail: string)
  {
    var n := |name| + |tail| + 2;
    && n <= |s|
    && s[..n] == name + "(" + tail + ")"
    && AllSpace(s[n..])
    && '(' !in name
    && NoLineTerminator(name + tail)
  }

  /** Putting a `(` between two texts without line terminators adds none. */
  lemma OpenParenBody(name: string, tail: string)
    requires NoLineTerminator(name + tail)
    ensures NoLineTerminator(name + "(" + tail)
  {
    var body := name + "(" + tail;
    forall k | 0 <= k < |body|
      ensures !IsLineTerminator(body[k])
    {
      if k < |name| {
        assert body[k] == (name + tail)[k];
      } else if k > |name| {
        assert body[k] == (name + tail)[k - 1];
      }
    }
  }

  /** The first `(` of `name(rest)` is the one after `name`, when `name` holds none. */
  lemma FirstOpenParen(name: string, rest: string)
    requires '(' !in name
    ensures IndexOf(name + "(" + rest, '(') == Some(|name|)
  {
    var body := name + "(" + rest;
    assert body[|name|] == '(' && body[..|name|] == name;
  }

  /** The name and the tail sit where the call text puts them. */
  lemma CallSlices(s: string, name: string, tail: string)
    requires |name| + |tail| + 2 <= |s| && s[..|name| + |tail| + 2] == name + "(" + tail + ")"
    ensures s[..|name|] == name && s[|name| + 1..|name| + |tail| + 1] == tail
  {
    var n := |name| + |tail| + 2;
    var p := name + "(" + tail + ")";
    assert s[..|name|] == s[..n][..|name|];
    assert p[..|name|] == name;
    forall k | 0 <= k < |tail|
      ensures s[|name| + 1..n - 1][k] == tail[k]
    {
      assert s[|name| + 1 + k] == s[..n][|name| + 1 + k];
      assert p[|name| + 1 + k] == tail[k];
    }
  }

  /** A text of the call shape matches, with exactly the shape's groups. */
  lemma ShapeMatches(s: string, name: string, tail: string)
    requires CallShape(s, name, tail)
    ensures MatchCall(s) == Some((name, tail))
  {
    var n := |name| + |tail| + 2;
    var p := name + "(" + tail + ")";
    assert TrimEnd(s) == p by {
      assert s == p + s[n..];
      TrimEndSpaces(p, s[n..]);
    }
    assert p[..|p| - 1] == name + "(" + tail;
    OpenParenBody(name, tail);
    FirstOpenParen(name, tail);
    CallSlices(s, name, tail);
  }

  /** A match has the call shape, with its groups as name and tail. */
  lemma MatchHasShape(s: string, name: string, tail: string)
    requires MatchCall(s) == Some((name, tail))
    ensures CallShape(s, name, tail)
  {
    TrimEndShape(s);
    var t := TrimEnd(s);
    var body := t[..|t| - 1];
    var i := IndexOf(body, '(').value;
    assert s[..|t|] == t;
    assert name == body[..i];
    assert tail == body[i + 1..];
    assert t == body + ")";
    assert body == name + "(" + tail;
    assert NoLineTerminator(name + tail) by {
      forall k | 0 <= k < |name + tail|
        ensures !IsLineTerminator((name + tail)[k])
      {
        if k < |name| {
          assert (name + tail)[k] == body[k];
        } else {
          assert (name + tail)[k] == body[k + 1];
        }
      }
    }
  }

  /** The pattern matches with exactly the groups the shape describes: both directions,
      so a text of no such shape does not match at all. */
  lemma MatchCallShape(s: string, name: string, tail: string)
    ensures MatchCall(s) == Some((name, tail)) <==> CallShape(s, name, tail)
  {
    if CallShape(s, name, tail) {
      ShapeMatches(s, name, tail);
    }
    if MatchCall(s) == Some((name, tail)) {
      MatchHasShape(s, name, tail);
    }
  }

  // ---------------------------------------------------------------------------
  // extractArgs
  // ---------------------------------------------------------------------------

  /** Which test decides that a bare argument is handed to `JSON.parse`: the pattern
      `/^\d+|true|false|null$/` as written, or the anchored alternation it evidently means. */
  datatype ArgPattern = AsWritten | Intended

  predicate AllDigits(t: string)
  {
    forall k :: 0 <= k < |t| ==> IsDigit(t[k])
  }

  /** `AsWritten`: the alternation binds looser than the anchors, so the pattern asks for a
      leading digit, or `true` or `false` anywhere, or a trailing `null`.
      `Intended`: the whole text is digits, `true`, `false` or `null`. */
  predicate Coerces(pattern: ArgPattern, t: string)
  {
    match pattern
    case AsWritten => (|t| > 0 && IsDigit(t[0])) || Contains(t, "true") || Contains(t, "false") || EndsWith(t, "null")
    case Intended => (|t| > 0 && AllDigits(t)) || t == "true" || t == "false" || t == "null"
  }

  /** Everything the intended pattern accepts, the pattern as written accepts too. */
  lemma IntendedNarrowsAsWritten(t: string)
    requires Coerces(Intended, t)
    ensures Coerces(AsWritten, t)
  {
    if t == "true" || t == "false" {
      assert StartsWith(t, t);
    } else if t == "null" {
      assert EndsWith(t, "null");
    }
  }

  /** One bare argument: parsed as JSON (untrimmed) when its trimmed text passes the test,
      kept as its trimmed text otherwise. */
  function PieceValue(pattern: ArgPattern, parseJson: string -> Parsed, piece: string): Result<Value>
  {
    var t := Trim(piece);
    if Coerces(pattern, t) then
      match parseJson(piece)
      case Parsed(v) => Ok(v)
      case SyntaxError(message) => Err(JsonSyntax(message))
    else Ok(Str(t))
  }

  /** `.map` with a step that may fail: the first failing element fails the list. */
  function MapResults(f: string -> Result<Value>, xs: seq<string>): (r: Result<seq<Value>>)
    ensures r.Ok? ==> |r.value| == |xs|
  {
    if |xs| == 0 then Ok([])
    else
      var prev := MapResults(f, xs[..|xs| - 1]);
      if prev.Err? then prev
      else
        var last := f(xs[|xs| - 1]);
        if last.Err? then Err(last.error)
        else Ok(prev.value + [last.value])
  }

  /** The list succeeds exactly when every step does, and then holds each step's value at
      the element's place. */
  lemma {:induction false} MapResultsElements(f: string -> Result<Value>, xs: seq<string>)
    ensures var r := MapResults(f, xs);
            && (r.Ok? <==> forall i :: 0 <= i < |xs| ==> f(xs[i]).Ok?)
            && (r.Ok? ==> forall i :: 0 <= i < |xs| ==> r.value[i] == f(xs[i]).value)
  {
    if |xs| > 0 {
      var init := xs[..|xs| - 1];
      MapResultsElements(f, init);
      assert forall j :: 0 <= j < |init| ==> init[j] == xs[j];
    }
  }

  /** The first failure is the list's failure. */
  lemma {:induction false} MapResultsFirstFailure(f: string -> Result<Value>, xs: seq<string>, k: nat)
    requires k < |xs| && f(xs[k]).Err?
    requires forall i :: 0 <= i < k ==> f(xs[i]).Ok?
    ensures MapResults(f, xs) == Err(f(xs[k]).error)
  {
    if k < |xs| - 1 {
      var init := xs[..|xs| - 1];
      assert init[k] == xs[k];
      assert forall i :: 0 <= i < k ==> init[i] == xs[i];
      MapResultsFirstFailure(f, init, k);
    } else {
      var init := xs[..|xs| - 1];
      MapResultsElements(f, init);
      assert forall i :: 0 <= i < |init| ==> init[i] == xs[i];
    }
  }

  /** The step of `.map` over the bare arguments. */
  function PieceFunction(pattern: ArgPattern, parseJson: string -> Parsed): string -> Result<Value>
  {
    piece => PieceValue(pattern, parseJson, piece)
  }

  /** `extractArgs`: a text of the call shape is split into its name and arguments; any
      other text is the name itself, with `undefined` arguments. Arguments containing a
      double quote are one JSON array; otherwise they are split at commas. */
  function ExtractArgs(pattern: ArgPattern, parseJson: string -> Parsed, s: string): (r: Result<(string, Value)>)
    ensures MatchCall(s).None? ==> r == Ok((s, Undefined))
    ensures MatchCall(s).Some? && r.Ok? ==> r.value.0 == MatchCall(s).value.0
    ensures r.Err? ==> MatchCall(s).Some?
  {
    match MatchCall(s)
    case None => Ok((s, Undefined))
    case Some((name, tail)) =>
      if Contains(tail, "\"") then
        match parseJson("[" + tail + "]")
        case Parsed(v) => Ok((name, v))
        case SyntaxError(message) => Err(ArgumentsJson("Failed to parse arguments JSON \"" + tail + "\": " + message))
      else
        var values := MapResults(PieceFunction(pattern, parseJson), SplitOn(tail, ','));
        if values.Err? then Err(values.error) else Ok((name, Array(values.value)))
  }

  /** Quoted arguments: the tail inside brackets is one JSON document, and a parse failure
      names the tail and the parser's message. */
  lemma QuotedArguments(pattern: ArgPattern, parseJson: string -> Parsed, s: string, name: string, tail: string)
    requires CallShape(s, name, tail) && '"' in tail
    ensures parseJson("[" + tail + "]").Parsed? ==>
      ExtractArgs(pattern, parseJson, s) == Ok((name, parseJson("[" + tail + "]").json))
    ensures parseJson("[" + tail + "]").SyntaxError? ==>
      ExtractArgs(pattern, parseJson, s) ==
      Err(ArgumentsJson("Failed to parse arguments JSON \"" + tail + "\": " + parseJson("[" + tail + "]").message))
  {
    MatchCallShape(s, name, tail);
    ContainsChar(tail, '"');
    assert "\"" == ['"'];
  }

  /** Bare arguments: one value per comma-separated piece, in order, each as `PieceValue`
      gives it; the first failing piece is the failure. */
  lemma BareArguments(pattern: ArgPattern, parseJson: string -> Parsed, s: string, name: string, tail: string)
    requires CallShape(s, name, tail) && '"' !in tail
    ensures var values := MapResults(PieceFunction(pattern, parseJson), SplitOn(tail, ','));
            ExtractArgs(pattern, parseJson, s) == if values.Ok? then Ok((name, Array(values.value))) else Err(values.error)
  {
    MatchCallShape(s, name, tail);
    ContainsChar(tail, '"');
    assert "\"" == ['"'];
  }

  // ---------------------------------------------------------------------------
  // extractExpression, applyNegation
  // ---------------------------------------------------------------------------

  /** `extractExpression`: a string goes through negation and argument extraction, with the
      given test of bare arguments; any other command yields `not || false` (as a condition),
      the `command` member as the template literal renders it, and the `args` member. */
  function ExtractExpression(pattern: ArgPattern, parseJson: string -> Parsed, command: Value): (r: Result<Expression>)
    ensures command.Str? && r.Ok? ==> r.value.negated == ExtractNegation(command.s).1
    ensures !command.Str? ==> (r.Err? <==> command.Null? || command.Undefined?)
    ensures command.Object? ==> r == Ok(Expression(
      "not" in command.fields && Truthy(command.fields["not"]),
      if "command" in command.fields then ToJsString(command.fields["command"]) else "undefined",
      if "args" in command.fields then command.fields["args"] else Undefined))
  {
    if command.Str? then
      var (rest, negated) := ExtractNegation(command.s);
      var call := ExtractArgs(pattern, parseJson, rest);
      if call.Err? then Err(call.error) else Ok(Expression(negated, call.value.0, call.value.1))
    else
      var not := GetMember(command, "not");
      if not.Err? then Err(not.error)
      else Ok(Expression(Truthy(not.value), ToJsString(GetMember(command, "command").value), GetMember(command, "args").value))
  }

  /** `applyNegation`: the value as a boolean, inverted when negated. */
  function ApplyNegation(value: Value, negation: bool): (r: bool)
    ensures r <==> (Truthy(value) != negation)
  {
    if negation then !Truthy(value) else Truthy(value)
  }

  /** Negating flips the answer; without negation a boolean comes back as itself. */
  lemma NegationFlips(value: Value, b: bool)
    ensures ApplyNegation(value, true) == !ApplyNegation(value, false)
    ensures ApplyNegation(Bool(b), false) == b
  {
  }

  // ---------------------------------------------------------------------------
  // runCommand, runExpression
  // ---------------------------------------------------------------------------

  /** `runCommand`: one call to `context.values.<name>` with the arguments, negated as asked. */
  function RunCommand(env: Env, log: seq<Call>, command: Value): (o: Outcome<bool>)
    ensures log <= o.log && |o.log| <= |log| + 1
  {
    var e := ExtractExpression(env.reading.pattern, env.parseJson, command);
    if e.Err? then Outcome(Err(e.error), log)
    else
      var call := ExecuteCommand("context.values." + e.value.name, [e.value.args]);
      var answer := env.executor(log, call);
      if answer.Err? then Outcome(Err(answer.error), log + [call])
      else Outcome(Ok(ApplyNegation(answer.value, e.value.negated)), log + [call])
  }

  /** `runExpression`: the context's value first, then the operator with
      `{args, left, right}`; the operator's negation applies, the context's is dropped. */
  function RunExpression(env: Env, log: seq<Call>, operator: Value, context: Value, right: Value): (o: Outcome<bool>)
    ensures log <= o.log && |o.log| <= |log| + 2
  {
    var op := ExtractExpression(env.reading.pattern, env.parseJson, operator);
    if op.Err? then Outcome(Err(op.error), log)
    else
      var ctx := ExtractExpression(env.reading.pattern, env.parseJson, context);
      if ctx.Err? then Outcome(Err(ctx.error), log)
      else RunOperator(env, log, op.value, ctx.value, right)
  }

  /** The two calls of `runExpression` once both expressions are extracted. */
  function RunOperator(env: Env, log: seq<Call>, op: Expression, ctx: Expression, right: Value): (o: Outcome<bool>)
    ensures log <= o.log && |o.log| <= |log| + 2
  {
    var leftCall := ExecuteCommand("context.values." + ctx.name, [ctx.args]);
    var left := env.executor(log, leftCall);
    if left.Err? then Outcome(Err(left.error), log + [leftCall])
    else
      var request := Object(map["args" := op.args, "left" := left.value, "right" := right]);
      var opCall := ExecuteCommand("context.operators." + op.name, [request]);
      var answer := env.executor(log + [leftCall], opCall);
      if answer.Err? then Outcome(Err(answer.error), log + [leftCall, opCall])
      else Outcome(Ok(ApplyNegation(answer.value, op.negated)), log + [leftCall, opCall])
  }

  /** Once both expressions are extracted, `runExpression` is the operator's run on them. */
  lemma ExtractedExpression(env: Env, log: seq<Call>, operator: Value, context: Value, right: Value)
    requires ExtractExpression(env.reading.pattern, env.parseJson, operator).Ok? && ExtractExpression(env.reading.pattern, env.parseJson, context).Ok?
    ensures RunExpression(env, log, operator, context, right) ==
      RunOperator(env, log, ExtractExpression(env.reading.pattern, env.parseJson, operator).value, ExtractExpression(env.reading.pattern, env.parseJson, context).value, right)
  {
  }

  /** A failed extraction ends `runExpression` before any call: the operator is extracted
      first and its error wins; only then is the context extracted. */
  lemma ExtractionFailures(env: Env, log: seq<Call>, operator: Value, context: Value, right: Value)
    ensures var op := ExtractExpression(env.reading.pattern, env.parseJson, operator);
            op.Err? ==> RunExpression(env, log, operator, context, right) == Outcome(Err(op.error), log)
    ensures var op := ExtractExpression(env.reading.pattern, env.parseJson, operator);
            var ctx := ExtractExpression(env.reading.pattern, env.parseJson, context);
            op.Ok? && ctx.Err? ==> RunExpression(env, log, operator, context, right) == Outcome(Err(ctx.error), log)
  {
  }

  /** The context's own negation never matters: contexts naming the same command with the
      same arguments give the same answer and calls, whatever their negation. */
  lemma ContextNegationIgnored(env: Env, log: seq<Call>, op: Expression, c1: Expression, c2: Expression, right: Value)
    requires c1.name == c2.name && c1.args == c2.args
    ensures RunOperator(env, log, op, c1, right) == RunOperator(env, log, op, c2, right)
  {
  }

  /** The operator's negation inverts the answer and changes nothing else. */
  lemma OperatorNegationFlips(env: Env, log: seq<Call>, op: Expression, ctx: Expression, right: Value)
    ensures var r1 := RunOperator(env, log, op.(negated := true), ctx, right);
            var r2 := RunOperator(env, log, op.(negated := false), ctx, right);
            && r1.log == r2.log
            && (r1.result.Ok? <==> r2.result.Ok?)
            && (r1.result.Ok? ==> r1.result.value == !r2.result.value)
  {
  }

  // ---------------------------------------------------------------------------
  // checkOrGroup, check
  //
  // Every part of an alternative, and every alternative, is evaluated (they are
  // started together), here one after the other in order. The ghost `root` is the
  // context array whose tokens are being evaluated; it carries the termination
  // argument into the nested `check` of an array part.
  // ---------------------------------------------------------------------------

  predicate AllTrue(bs: seq<bool>)
  {
    forall i :: 0 <= i < |bs| ==> bs[i]
  }

  predicate AnyTrue(bs: seq<bool>)
  {
    exists i :: 0 <= i < |bs| && bs[i]
  }

  /** The body of the callback of `checkOrGroup` for one part. */
  function EvalPart(env: Env, log: seq<Call>, ghost root: Value, part: seq<Value>): (o: Outcome<bool>)
    requires root.Array? && forall j :: 0 <= j < |part| ==> part[j] in root.items
    ensures log <= o.log
    decreases root, 0
  {
    var arrayExpression := IsArrayExpression(part);
    if arrayExpression.Err? then Outcome(Err(arrayExpression.error), log)
    else if arrayExpression.value then RunExpression(env, log, part[1], part[0], part[2])
    else if |part| > 1 then Outcome(Err(InvalidExpression(part)), log)
    else
      var value := if |part| == 0 then Undefined else part[0];
      var objectExpression := IsObjectExpression(value);
      if objectExpression.Err? then Outcome(Err(objectExpression.error), log)
      else if objectExpression.value then
        RunExpression(env, log, value.fields["operator"], value.fields["context"], value.fields["value"])
      else
        var command := IsCommand(value);
        if command.Err? then Outcome(Err(command.error), log)
        else if command.value then RunCommand(env, log, value)
        else if value.Array? then Check(env, log, value)
        else Outcome(Err(InvalidExpression(part)), log)
  }

  /** The answers of all parts in order; the first failing part is the failure. */
  function PartResults(env: Env, log: seq<Call>, ghost root: Value, parts: seq<seq<Value>>): (o: Outcome<seq<bool>>)
    requires root.Array?
    requires forall i, j :: 0 <= i < |parts| && 0 <= j < |parts[i]| ==> parts[i][j] in root.items
    ensures log <= o.log
    ensures o.result.Ok? ==> |o.result.value| == |parts|
    decreases root, 1, parts
  {
    if |parts| == 0 then Outcome(Ok([]), log)
    else
      var prev := PartResults(env, log, root, parts[..|parts| - 1]);
      var last := EvalPart(env, prev.log, root, parts[|parts| - 1]);
      var result :=
        if prev.result.Err? then Err(prev.result.error)
        else if last.result.Err? then Err(last.result.error)
        else Ok(prev.result.value + [last.result.value]);
      Outcome(result, last.log)
  }

  /** `checkOrGroup`: the parts between the "and" tokens, all of which must hold. */
  function CheckOrGroup(env: Env, log: seq<Call>, ghost root: Value, group: seq<Value>): (o: Outcome<bool>)
    requires root.Array? && forall j :: 0 <= j < |group| ==> group[j] in root.items
    ensures log <= o.log
    decreases root, 2
  {
    var parts := SplitOn(group, Str("and"));
    SplitOnElements(group, Str("and"));
    var r := PartResults(env, log, root, parts);
    Outcome(if r.result.Err? then Err(r.result.error) else Ok(AllTrue(r.result.value)), r.log)
  }

  /** The answers of all alternatives in order; the first failing one is the failure. */
  function GroupResults(env: Env, log: seq<Call>, ghost root: Value, groups: seq<seq<Value>>): (o: Outcome<seq<bool>>)
    requires root.Array?
    requires forall i, j :: 0 <= i < |groups| && 0 <= j < |groups[i]| ==> groups[i][j] in root.items
    ensures log <= o.log
    ensures o.result.Ok? ==> |o.result.value| == |groups|
    decreases root, 3, groups
  {
    if |groups| == 0 then Outcome(Ok([]), log)
    else
      var prev := GroupResults(env, log, root, groups[..|groups| - 1]);
      var last := CheckOrGroup(env, prev.log, root, groups[|groups| - 1]);
      var result :=
        if prev.result.Err? then Err(prev.result.error)
        else if last.result.Err? then Err(last.result.error)
        else Ok(prev.result.value + [last.result.value]);
      Outcome(result, last.log)
  }

  /** The answer of a context from the answers of its alternatives. */
  predicate Combine(combination: Combination, bs: seq<bool>)
  {
    match combination
    case LastFinished => |bs| > 0 && bs[|bs| - 1]
    case AnyHolds => AnyTrue(bs)
  }

  /** `check`: a non-array fails; otherwise the answers of the alternatives between the
      "or" tokens are combined as the reading says. */
  function Check(env: Env, log: seq<Call>, context: Value): (o: Outcome<bool>)
    ensures log <= o.log
    ensures !context.Array? ==> o == Outcome(Err(UnexpectedContextValue(context)), log)
    decreases context, 4
  {
    if !context.Array? then Outcome(Err(UnexpectedContextValue(context)), log)
    else
      var groups := SplitOn(context.items, Str("or"));
      SplitOnElements(context.items, Str("or"));
      var r := GroupResults(env, log, context, groups);
      Outcome(if r.result.Err? then Err(r.result.error) else Ok(Combine(env.reading.combination, r.result.value)), r.log)
  }

  // ---------------------------------------------------------------------------
  // The two combinations compared
  // ---------------------------------------------------------------------------

  /** `env` with its combination of alternatives replaced. */
  function WithCombination(env: Env, combination: Combination): (e: Env)
    ensures e.executor == env.executor && e.parseJson == env.parseJson
    ensures e.reading == Reading(env.reading.pattern, combination)
  {
    env.(reading := env.reading.(combination := combination))
  }

  /** `w` and `m` made the same calls and failed alike, and `m` holds where `w` does. */
  predicate Weaker(w: Outcome<bool>, m: Outcome<bool>)
  {
    && w.log == m.log
    && (w.result.Err? <==> m.result.Err?)
    && (w.result.Err? ==> w.result == m.result)
    && (w.result == Ok(true) ==> m.result == Ok(true))
  }

  /** The same for folds: element by element. */
  predicate WeakerEach(w: Outcome<seq<bool>>, m: Outcome<seq<bool>>)
  {
    && w.log == m.log
    && (w.result.Err? <==> m.result.Err?)
    && (w.result.Err? ==> w.result == m.result)
    && (w.result.Ok? && m.result.Ok? ==>
          |w.result.value| == |m.result.value| &&
          forall i :: 0 <= i < |w.result.value| && w.result.value[i] ==> m.result.value[i])
  }

  /** Under both combinations a part makes the same calls and fails alike; where it holds
      as written, it holds as meant. */
  lemma {:induction false} PartCompared(env: Env, log: seq<Call>, root: Value, part: seq<Value>)
    requires root.Array? && forall j :: 0 <= j < |part| ==> part[j] in root.items
    ensures Weaker(EvalPart(WithCombination(env, LastFinished), log, root, part),
                   EvalPart(WithCombination(env, AnyHolds), log, root, part))
    decreases root, 0
  {
    if IsArrayExpression(part) == Ok(false) && |part| == 1 && part[0].Array? {
      CheckCompared(env, log, part[0]);
    }
  }

  lemma {:induction false} PartsCompared(env: Env, log: seq<Call>, root: Value, parts: seq<seq<Value>>)
    requires root.Array?
    requires forall i, j :: 0 <= i < |parts| && 0 <= j < |parts[i]| ==> parts[i][j] in root.items
    ensures WeakerEach(PartResults(WithCombination(env, LastFinished), log, root, parts),
                       PartResults(WithCombination(env, AnyHolds), log, root, parts))
    decreases root, 1, parts
  {
    if |parts| > 0 {
      var w, m := WithCombination(env, LastFinished), WithCombination(env, AnyHolds);
      var init := parts[..|parts| - 1];
      PartsCompared(env, log, root, init);
      PartCompared(env, PartResults(w, log, root, init).log, root, parts[|parts| - 1]);
    }
  }

  lemma {:induction false} GroupCompared(env: Env, log: seq<Call>, root: Value, group: seq<Value>)
    requires root.Array? && forall j :: 0 <= j < |group| ==> group[j] in root.items
    ensures Weaker(CheckOrGroup(WithCombination(env, LastFinished), log, root, group),
                   CheckOrGroup(WithCombination(env, AnyHolds), log, root, group))
    decreases root, 2
  {
    SplitOnElements(group, Str("and"));
    PartsCompared(env, log, root, SplitOn(group, Str("and")));
  }

  lemma {:induction false} GroupsCompared(env: Env, log: seq<Call>, root: Value, groups: seq<seq<Value>>)
    requires root.Array?
    requires forall i, j :: 0 <= i < |groups| && 0 <= j < |groups[i]| ==> groups[i][j] in root.items
    ensures WeakerEach(GroupResults(WithCombination(env, LastFinished), log, root, groups),
                       GroupResults(WithCombination(env, AnyHolds), log, root, groups))
    decreases root, 3, groups
  {
    if |groups| > 0 {
      var w, m := WithCombination(env, LastFinished), WithCombination(env, AnyHolds);
      var init := groups[..|groups| - 1];
      GroupsCompared(env, log, root, init);
      GroupCompared(env, GroupResults(w, log, root, init).log, root, groups[|groups| - 1]);
    }
  }

  /** With the same test of bare arguments, `check` as written and as meant make the same
      calls and fail alike, at every depth; where the written one holds, the meant one
      holds too. */
  lemma {:induction false} CheckCompared(env: Env, log: seq<Call>, context: Value)
    ensures Weaker(Check(WithCombination(env, LastFinished), log, context),
                   Check(WithCombination(env, AnyHolds), log, context))
    decreases context, 4
  {
    if context.Array? {
      var groups := SplitOn(context.items, Str("or"));
      SplitOnElements(context.items, Str("or"));
      GroupsCompared(env, log, context, groups);
    }
  }
}
