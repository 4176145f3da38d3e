/**
  The tree-walking evaluator of parsed scope expressions.

  An expression is a stored value, an array or object literal, or a command
  invocation: a name, argument expressions, an optional negation flag and a chain
  of property and method steps. The names `and`, `or`, `==`, `!=`, `<`, `<=`, `>`
  and `>=` are built-in operators; any other name is run against the document:
  through its command table when the name is registered there, through
  `document.execute("scope." + name, ...)` otherwise.

  The functions below are the meaning of evaluation (the `Eval` family); the
  methods are the source's loops (`runArray`, `runObject`, `runCommandAnd`,
  `runCommandOr`, `runCommandExternal`), each proved to compute that meaning.
  Every fold recurses on its LAST element so that each loop iteration is one
  unfolding.
*/
module Scope {
  import opened JsValues
  import opened Sequences

  /** A parsed expression node. `UnknownNode` is a node that carries none of the
      four shapes. */
  datatype Expr =
    | ValueNode(value: Value)
    | ArrayNode(items: seq<Expr>)
    | ObjectNode(entries: seq<Entry>)
    | CommandNode(command: string, args: seq<Expr>, not: bool, chain: seq<ChainPart>)
    | UnknownNode

  /** One `key: expression` pair of an object literal, in the order `Object.entries` yields it. */
  datatype Entry = Entry(key: string, value: Expr)

  /** A step of a command's chain; `UnknownPart` is a step that is neither kind. */
  datatype ChainPart =
    | PropertyPart(property: string)
    | MethodPart(member: string, args: seq<Expr>)
    | UnknownPart

  /** The document: the names in its command table, and the host answering every call. */
  datatype Document = Document(commands: set<string>, respond: Responder)

  /** The input of `check`: expression text, or words that are joined with spaces first. */
  datatype ScopeInput = Text(text: string) | Words(words: seq<string>)

  predicate IsComparison(name: string)
  {
    name == "==" || name == "!=" || name == "<" || name == "<=" || name == ">" || name == ">="
  }

  predicate IsOperator(name: string)
  {
    name == "and" || name == "or" || IsComparison(name)
  }

  /** The text handed to the parser. */
  function ScopeText(input: ScopeInput): string
  {
    match input
    case Text(text) => text
    case Words(words) => JoinWith(words, ' ')
  }

  /** `check`: parse, evaluate, coerce the result to a boolean. */
  function Check(doc: Document, parse: string -> Result<Expr>, log: seq<Call>, input: ScopeInput): (o: Outcome<bool>)
    ensures o.result.Ok? <==> parse(ScopeText(input)).Ok? && Eval(doc, log, parse(ScopeText(input)).value).result.Ok?
    ensures o.result.Ok? ==> o.result.value == Truthy(Eval(doc, log, parse(ScopeText(input)).value).result.value)
  {
    var ast := parse(ScopeText(input));
    if ast.Err? then Outcome(Err(ast.error), log)
    else
      var r := Eval(doc, log, ast.value);
      if r.result.Err? then Outcome(Err(r.result.error), r.log)
      else Outcome(Ok(Truthy(r.result.value)), r.log)
  }

  /** `run`: the value of one node. The log only ever grows. */
  function Eval(doc: Document, log: seq<Call>, e: Expr): (o: Outcome<Value>)
    ensures log <= o.log
    decreases e, 2
  {
    match e
    case ValueNode(v) => Outcome(Ok(v), log)
    case ArrayNode(items) =>
      var o := EvalList(doc, log, items);
      Outcome(if o.result.Ok? then Ok(Array(o.result.value)) else Err(o.result.error), o.log)
    case ObjectNode(entries) =>
      var o := EvalEntries(doc, log, entries);
      Outcome(if o.result.Ok? then Ok(Object(o.result.value)) else Err(o.result.error), o.log)
    case CommandNode(_, _, _, _) => EvalCommand(doc, log, e)
    case UnknownNode => Outcome(Err(UnknownScopeValue), log)
  }

  /** The meaning of `runArray`: every expression in order, each seeing the calls of those before it. */
  function EvalList(doc: Document, log: seq<Call>, es: seq<Expr>): (o: Outcome<seq<Value>>)
    ensures log <= o.log
    ensures o.result.Ok? ==> |o.result.value| == |es|
    decreases es, 0
  {
    if |es| == 0 then Outcome(Ok([]), log)
    else
      var prev := EvalList(doc, log, es[..|es| - 1]);
      if prev.result.Err? then prev
      else
        var last := Eval(doc, prev.log, es[|es| - 1]);
        if last.result.Err? then Outcome(Err(last.result.error), last.log)
        else Outcome(Ok(prev.result.value + [last.result.value]), last.log)
  }

  function EntryKeys(entries: seq<Entry>): set<string>
  {
    set i | 0 <= i < |entries| :: entries[i].key
  }

  /** The meaning of `runObject`: the entries in order; a later entry for a key overwrites an earlier one. */
  function EvalEntries(doc: Document, log: seq<Call>, entries: seq<Entry>): (o: Outcome<map<string, Value>>)
    ensures log <= o.log
    ensures o.result.Ok? ==> o.result.value.Keys == EntryKeys(entries)
    decreases entries
  {
    if |entries| == 0 then Outcome(Ok(map[]), log)
    else
      var prev := EvalEntries(doc, log, entries[..|entries| - 1]);
      if prev.result.Err? then prev
      else
        var entry := entries[|entries| - 1];
        var last := Eval(doc, prev.log, entry.value);
        if last.result.Err? then Outcome(Err(last.result.error), last.log)
        else
          assert EntryKeys(entries) == EntryKeys(entries[..|entries| - 1]) + {entry.key} by {
            assert forall i | 0 <= i < |entries| - 1 :: entries[..|entries| - 1][i] == entries[i];
          }
          Outcome(Ok(prev.result.value[entry.key := last.result.value]), last.log)
  }

  /** `runCommand`: operators first, then an ordinary command. */
  function EvalCommand(doc: Document, log: seq<Call>, c: Expr): (o: Outcome<Value>)
    requires c.CommandNode?
    ensures log <= o.log
    decreases c, 1
  {
    if c.command == "and" then EvalJunction(doc, log, c.args, true)
    else if c.command == "or" then EvalJunction(doc, log, c.args, false)
    else if IsComparison(c.command) then EvalComparison(doc, log, c.command, c.args)
    else EvalExternal(doc, log, c)
  }

  /** The meaning of `runCommandAnd` (conjunction) and `runCommandOr` (disjunction):
      start from `true` (resp. `false`); while the accumulated value is truthy (resp.
      falsy), replace it by the next operand's value; once it is not, evaluate nothing more. */
  function EvalJunction(doc: Document, log: seq<Call>, args: seq<Expr>, conjunction: bool): (o: Outcome<Value>)
    ensures log <= o.log
    decreases args
  {
    if |args| == 0 then Outcome(Ok(Bool(conjunction)), log)
    else
      var prev := EvalJunction(doc, log, args[..|args| - 1], conjunction);
      if prev.result.Err? || Truthy(prev.result.value) != conjunction then prev
      else Eval(doc, prev.log, args[|args| - 1])
  }

  /** The binary comparison operators on two evaluated operands. */
  predicate Compare(op: string, left: Value, right: Value)
    requires IsComparison(op)
  {
    if op == "==" then left == right
    else if op == "!=" then !(left == right)
    else if op == "<" then Less(left, right)
    else if op == "<=" then LessOrEqual(left, right)
    else if op == ">" then Greater(left, right)
    else GreaterOrEqual(left, right)
  }

  /** `getComparisonArgs`: exactly two operands, left evaluated before right. */
  function ComparisonArgs(doc: Document, log: seq<Call>, args: seq<Expr>): (o: Outcome<(Value, Value)>)
    ensures log <= o.log
    decreases args, 0
  {
    if |args| != 2 then Outcome(Err(WrongNumberOfArguments("==", |args|)), log)
    else
      var left := Eval(doc, log, args[0]);
      if left.result.Err? then Outcome(Err(left.result.error), left.log)
      else
        var right := Eval(doc, left.log, args[1]);
        if right.result.Err? then Outcome(Err(right.result.error), right.log)
        else Outcome(Ok((left.result.value, right.result.value)), right.log)
  }

  /** `runCommandEqual` and its siblings; `!=` negates the `==` result. */
  function EvalComparison(doc: Document, log: seq<Call>, op: string, args: seq<Expr>): (o: Outcome<Value>)
    requires IsComparison(op)
    ensures log <= o.log
    decreases args, 1
  {
    var operands := ComparisonArgs(doc, log, args);
    if operands.result.Err? then Outcome(Err(operands.result.error), operands.log)
    else Outcome(Ok(Bool(Compare(op, operands.result.value.0, operands.result.value.1))), operands.log)
  }

  /** The meaning of `runCommandExternal`: execute, apply the chain in order, and negate last. */
  function EvalExternal(doc: Document, log: seq<Call>, c: Expr): (o: Outcome<Value>)
    requires c.CommandNode?
    ensures log <= o.log
    decreases c, 0
  {
    var x := Execute(doc, log, c.command, c.args);
    if x.result.Err? then x
    else
      var y := EvalChain(doc, x.log, x.result.value, c.chain);
      if y.result.Err? || !c.not then y
      else Outcome(Ok(Bool(!Truthy(y.result.value))), y.log)
  }

  /** `execute`: evaluate the arguments, then call the command. */
  function Execute(doc: Document, log: seq<Call>, name: string, args: seq<Expr>): (o: Outcome<Value>)
    ensures log <= o.log
    decreases args, 1
  {
    var a := EvalList(doc, log, args);
    if a.result.Err? then Outcome(Err(a.result.error), a.log)
    else Invoke(doc, a.log, name, a.result.value)
  }

  /** The call part of `execute`, on evaluated arguments. A registered command is
      called twice with the same arguments; the first answer is dropped unless it is a failure. */
  function Invoke(doc: Document, log: seq<Call>, name: string, vals: seq<Value>): (o: Outcome<Value>)
    ensures log <= o.log
  {
    if name in doc.commands then
      var call := RegisteredCommand(name, vals);
      var first := doc.respond(log, call);
      if first.Err? then Outcome(first, log + [call])
      else Outcome(doc.respond(log + [call], call), log + [call, call])
    else
      var call := ExecuteCommand("scope." + name, vals);
      Outcome(doc.respond(log, call), log + [call])
  }

  /** The chain loop of `runCommandExternal`: the steps applied in declared order. */
  function EvalChain(doc: Document, log: seq<Call>, start: Value, chain: seq<ChainPart>): (o: Outcome<Value>)
    ensures log <= o.log
    decreases chain
  {
    if |chain| == 0 then Outcome(Ok(start), log)
    else
      var prev := EvalChain(doc, log, start, chain[..|chain| - 1]);
      if prev.result.Err? then prev
      else ApplyPart(doc, prev.log, prev.result.value, chain[|chain| - 1])
  }

  /** One chain step on the current result `v`. */
  function ApplyPart(doc: Document, log: seq<Call>, v: Value, part: ChainPart): (o: Outcome<Value>)
    ensures log <= o.log
    decreases part
  {
    match part
    case PropertyPart(p) =>
      var has := HasMember(v, p);
      if has.Err? then Outcome(Err(has.error), log)
      else if !has.value then Outcome(Err(UnknownProperty(p, v)), log)
      else Outcome(GetMember(v, p), log)
    case MethodPart(m, args) =>
      var has := HasMember(v, m);
      if has.Err? then Outcome(Err(has.error), log)
      else if !has.value then Outcome(Err(UnknownMethod(m, v)), log)
      else
        var f := GetMember(v, m);
        var a := EvalList(doc, log, args);
        if a.result.Err? then Outcome(Err(a.result.error), a.log)
        else if f.Ok? && f.value.Callable? then
          var call := CallValue(f.value.handle, a.result.value);
          Outcome(doc.respond(a.log, call), a.log + [call])
        else Outcome(Err(NotAFunction(m)), a.log)
    case UnknownPart => Outcome(Err(UnknownChainPart), log)
  }

  // ---------------------------------------------------------------------------
  // The source's loops, proved against the functions above.
  // ---------------------------------------------------------------------------

  /** `runArray`. */
  method RunArray(doc: Document, log: seq<Call>, items: seq<Expr>) returns (o: Outcome<seq<Value>>)
    ensures o == EvalList(doc, log, items)
  {
    var result: seq<Value> := [];
    var current := log;
    for i := 0 to |items|
      invariant EvalList(doc, log, items[..i]) == Outcome(Ok(result), current)
    {
      assert items[..i + 1][..i] == items[..i];
      var r := Eval(doc, current, items[i]);
      if r.result.Err? {
        ListFailureFinal(doc, log, items, i + 1);
        return Outcome(Err(r.result.error), r.log);
      }
      result := result + [r.result.value];
      current := r.log;
    }
    assert items[..|items|] == items;
    o := Outcome(Ok(result), current);
  }

  /** `runObject`. */
  method RunObject(doc: Document, log: seq<Call>, entries: seq<Entry>) returns (o: Outcome<map<string, Value>>)
    ensures o == EvalEntries(doc, log, entries)
  {
    var result: map<string, Value> := map[];
    var current := log;
    for i := 0 to |entries|
      invariant EvalEntries(doc, log, entries[..i]) == Outcome(Ok(result), current)
    {
      assert entries[..i + 1][..i] == entries[..i];
      var r := Eval(doc, current, entries[i].value);
      if r.result.Err? {
        EntriesFailureFinal(doc, log, entries, i + 1);
        return Outcome(Err(r.result.error), r.log);
      }
      result := result[entries[i].key := r.result.value];
      current := r.log;
    }
    assert entries[..|entries|] == entries;
    o := Outcome(Ok(result), current);
  }

  /** `runCommandAnd`: `result = result && (await run(arg))` for every argument. */
  method RunCommandAnd(doc: Document, log: seq<Call>, args: seq<Expr>) returns (o: Outcome<Value>)
    ensures o == EvalJunction(doc, log, args, true)
  {
    var result := Bool(true);
    var current := log;
    for i := 0 to |args|
      invariant EvalJunction(doc, log, args[..i], true) == Outcome(Ok(result), current)
    {
      assert args[..i + 1][..i] == args[..i];
      if Truthy(result) {
        var r := Eval(doc, current, args[i]);
        if r.result.Err? {
          JunctionSettled(doc, log, args, true, i + 1);
          return r;
        }
        result := r.result.value;
        current := r.log;
      }
    }
    assert args[..|args|] == args;
    o := Outcome(Ok(result), current);
  }

  /** `runCommandOr`: `result = result || (await run(arg))` for every argument. */
  method RunCommandOr(doc: Document, log: seq<Call>, args: seq<Expr>) returns (o: Outcome<Value>)
    ensures o == EvalJunction(doc, log, args, false)
  {
    var result := Bool(false);
    var current := log;
    for i := 0 to |args|
      invariant EvalJunction(doc, log, args[..i], false) == Outcome(Ok(result), current)
    {
      assert args[..i + 1][..i] == args[..i];
      if !Truthy(result) {
        var r := Eval(doc, current, args[i]);
        if r.result.Err? {
          JunctionSettled(doc, log, args, false, i + 1);
          return r;
        }
        result := r.result.value;
        current := r.log;
      }
    }
    assert args[..|args|] == args;
    o := Outcome(Ok(result), current);
  }

  /** `runCommandExternal`: execute, walk the chain, negate. */
  method RunCommandExternal(doc: Document, log: seq<Call>, c: Expr) returns (o: Outcome<Value>)
    requires c.CommandNode?
    ensures o == EvalExternal(doc, log, c)
  {
    var x := Execute(doc, log, c.command, c.args);
    if x.result.Err? {
      return x;
    }
    var start := x.result.value;
    var result := start;
    var current := x.log;
    for i := 0 to |c.chain|
      invariant EvalChain(doc, x.log, start, c.chain[..i]) == Outcome(Ok(result), current)
    {
      assert c.chain[..i + 1][..i] == c.chain[..i];
      var part := c.chain[i];
      var step: Outcome<Value>;
      match part {
        case PropertyPart(p) =>
          var has := HasMember(result, p);
          if has.Err? {
            step := Outcome(Err(has.error), current);
          } else if !has.value {
            step := Outcome(Err(UnknownProperty(p, result)), current);
          } else {
            step := Outcome(GetMember(result, p), current);
          }
        case MethodPart(m, args) =>
          var has := HasMember(result, m);
          if has.Err? {
            step := Outcome(Err(has.error), current);
          } else if !has.value {
            step := Outcome(Err(UnknownMethod(m, result)), current);
          } else {
            var f := GetMember(result, m);
            var a := RunArray(doc, current, args);
            if a.result.Err? {
              step := Outcome(Err(a.result.error), a.log);
            } else if f.Ok? && f.value.Callable? {
              var call := CallValue(f.value.handle, a.result.value);
              step := Outcome(doc.respond(a.log, call), a.log + [call]);
            } else {
              step := Outcome(Err(NotAFunction(m)), a.log);
            }
          }
        case UnknownPart =>
          step := Outcome(Err(UnknownChainPart), current);
      }
      assert step == ApplyPart(doc, current, result, part);
      if step.result.Err? {
        ChainFailureFinal(doc, x.log, start, c.chain, i + 1);
        return step;
      }
      result := step.result.value;
      current := step.log;
    }
    assert c.chain[..|c.chain|] == c.chain;
    if c.not {
      result := Bool(!Truthy(result));
    }
    o := Outcome(Ok(result), current);
  }

  // ---------------------------------------------------------------------------
  // A failure ends every fold: once a prefix fails, the whole fold is that failure.
  // ---------------------------------------------------------------------------

  lemma {:induction false} ListFailureFinal(doc: Document, log: seq<Call>, es: seq<Expr>, k: nat)
    requires k <= |es| && EvalList(doc, log, es[..k]).result.Err?
    ensures EvalList(doc, log, es) == EvalList(doc, log, es[..k])
    decreases |es| - k
  {
    if k < |es| {
      assert es[..|es| - 1][..k] == es[..k];
      ListFailureFinal(doc, log, es[..|es| - 1], k);
    } else {
      assert es[..k] == es;
    }
  }

  lemma {:induction false} EntriesFailureFinal(doc: Document, log: seq<Call>, entries: seq<Entry>, k: nat)
    requires k <= |entries| && EvalEntries(doc, log, entries[..k]).result.Err?
    ensures EvalEntries(doc, log, entries) == EvalEntries(doc, log, entries[..k])
    decreases |entries| - k
  {
    if k < |entries| {
      assert entries[..|entries| - 1][..k] == entries[..k];
      EntriesFailureFinal(doc, log, entries[..|entries| - 1], k);
    } else {
      assert entries[..k] == entries;
    }
  }

  lemma {:induction false} ChainFailureFinal(doc: Document, log: seq<Call>, start: Value, chain: seq<ChainPart>, k: nat)
    requires k <= |chain| && EvalChain(doc, log, start, chain[..k]).result.Err?
    ensures EvalChain(doc, log, start, chain) == EvalChain(doc, log, start, chain[..k])
    decreases |chain| - k
  {
    if k < |chain| {
      assert chain[..|chain| - 1][..k] == chain[..k];
      ChainFailureFinal(doc, log, start, chain[..|chain| - 1], k);
    } else {
      assert chain[..k] == chain;
    }
  }

  /** Short-circuit: once the accumulated value of `and` is falsy (of `or`, truthy), or an
      operand has failed, no later operand is evaluated and the result is final. */
  lemma {:induction false} JunctionSettled(doc: Document, log: seq<Call>, args: seq<Expr>, conjunction: bool, k: nat)
    requires k <= |args|
    requires var p := EvalJunction(doc, log, args[..k], conjunction);
      p.result.Err? || Truthy(p.result.value) != conjunction
    ensures EvalJunction(doc, log, args, conjunction) == EvalJunction(doc, log, args[..k], conjunction)
    decreases |args| - k
  {
    if k < |args| {
      assert args[..|args| - 1][..k] == args[..k];
      JunctionSettled(doc, log, args[..|args| - 1], conjunction, k);
    } else {
      assert args[..k] == args;
    }
  }
}
