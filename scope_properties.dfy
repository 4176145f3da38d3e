/**
  What the scope evaluator promises, stated over the `Eval` family and proved.
*/
module ScopeProperties {
  import opened JsValues
  import opened Sequences
  import opened Scope

  // ---------------------------------------------------------------------------
  // Node kinds
  // ---------------------------------------------------------------------------

  /** A value node yields its stored value unchanged and calls nothing; a node of no
      known shape fails with "Unknown scope value". */
  lemma NodeBasics(doc: Document, log: seq<Call>, v: Value)
    ensures Eval(doc, log, ValueNode(v)) == Outcome(Ok(v), log)
    ensures Eval(doc, log, UnknownNode) == Outcome(Err(UnknownScopeValue), log)
  {
  }

  /** A successful list evaluation succeeds on every prefix, with the prefix of the values. */
  lemma {:induction false} ListPrefix(doc: Document, log: seq<Call>, es: seq<Expr>, k: nat)
    requires k <= |es| && EvalList(doc, log, es).result.Ok?
    ensures EvalList(doc, log, es[..k]).result == Ok(EvalList(doc, log, es).result.value[..k])
    decreases |es| - k
  {
    if k < |es| {
      var init := es[..|es| - 1];
      assert init[..k] == es[..k];
      ListPrefix(doc, log, init, k);
      var vs := EvalList(doc, log, es).result.value;
      assert vs[..|es| - 1] == EvalList(doc, log, init).result.value;
      assert vs[..|es| - 1][..k] == vs[..k];
    } else {
      assert es[..k] == es;
      assert EvalList(doc, log, es).result.value[..k] == EvalList(doc, log, es).result.value;
    }
  }

  /** An array node yields a list of the same length whose i-th element is the i-th
      item's value, the item evaluated after items 0..i-1 and before item i+1. */
  lemma ArrayElements(doc: Document, log: seq<Call>, items: seq<Expr>, i: nat)
    requires Eval(doc, log, ArrayNode(items)).result.Ok?
    requires i < |items|
    ensures Eval(doc, log, ArrayNode(items)).result.value.Array?
    ensures |Eval(doc, log, ArrayNode(items)).result.value.items| == |items|
    ensures Eval(doc, EvalList(doc, log, items[..i]).log, items[i]) ==
            Outcome(Ok(Eval(doc, log, ArrayNode(items)).result.value.items[i]), EvalList(doc, log, items[..i + 1]).log)
  {
    var vs := EvalList(doc, log, items).result.value;
    ListPrefix(doc, log, items, i + 1);
    assert items[..i + 1][..i] == items[..i];
    assert vs[..i + 1][..i] == vs[..i];
  }

  /** A successful object evaluation succeeds on every prefix of the entries. */
  lemma {:induction false} EntriesPrefix(doc: Document, log: seq<Call>, entries: seq<Entry>, k: nat)
    requires k <= |entries| && EvalEntries(doc, log, entries).result.Ok?
    ensures EvalEntries(doc, log, entries[..k]).result.Ok?
    decreases |entries| - k
  {
    if k < |entries| {
      var init := entries[..|entries| - 1];
      assert init[..k] == entries[..k];
      EntriesPrefix(doc, log, init, k);
    } else {
      assert entries[..k] == entries;
    }
  }

  /** An object node yields exactly the literal's key set, and each key holds the value
      of the last entry written for it. */
  lemma {:induction false} ObjectFields(doc: Document, log: seq<Call>, entries: seq<Entry>, i: nat)
    requires EvalEntries(doc, log, entries).result.Ok?
    requires i < |entries|
    requires forall j :: i < j < |entries| ==> entries[j].key != entries[i].key
    ensures Eval(doc, log, ObjectNode(entries)).result.Ok?
    ensures Eval(doc, log, ObjectNode(entries)).result.value.fields.Keys == EntryKeys(entries)
    ensures EvalEntries(doc, log, entries[..i]).result.Ok?
    ensures Eval(doc, EvalEntries(doc, log, entries[..i]).log, entries[i].value).result ==
            Ok(Eval(doc, log, ObjectNode(entries)).result.value.fields[entries[i].key])
    decreases |entries|
  {
    EntriesPrefix(doc, log, entries, i);
    var init := entries[..|entries| - 1];
    if i < |entries| - 1 {
      assert init[..i] == entries[..i];
      ObjectFields(doc, log, init, i);
    } else {
      assert init == entries[..i];
    }
  }

  // ---------------------------------------------------------------------------
  // `and` / `or`
  // ---------------------------------------------------------------------------

  /** When every operand's truthiness keeps the junction going, all of them are evaluated
      in order and the result is the last operand's value (`true` for `and`, `false` for
      `or` when there are none). */
  lemma {:induction false} JunctionAllPass(doc: Document, log: seq<Call>, args: seq<Expr>, conjunction: bool)
    requires EvalList(doc, log, args).result.Ok?
    requires forall i :: 0 <= i < |args| ==> Truthy(EvalList(doc, log, args).result.value[i]) == conjunction
    ensures EvalJunction(doc, log, args, conjunction) ==
            Outcome(Ok(if |args| == 0 then Bool(conjunction) else EvalList(doc, log, args).result.value[|args| - 1]),
                    EvalList(doc, log, args).log)
  {
    if |args| > 0 {
      var init := args[..|args| - 1];
      var vs := EvalList(doc, log, args).result.value;
      assert EvalList(doc, log, init).result.value == vs[..|args| - 1];
      JunctionAllPass(doc, log, init, conjunction);
    }
  }

  /** The first operand whose truthiness decides the junction (the first falsy one for
      `and`, the first truthy one for `or`) is its result; nothing after it is evaluated. */
  lemma JunctionDecided(doc: Document, log: seq<Call>, args: seq<Expr>, conjunction: bool, k: nat, vs: seq<Value>)
    requires k < |args|
    requires EvalList(doc, log, args[..k + 1]).result == Ok(vs)
    requires forall i :: 0 <= i < k ==> Truthy(vs[i]) == conjunction
    requires Truthy(vs[k]) != conjunction
    ensures EvalJunction(doc, log, args, conjunction) == Outcome(Ok(vs[k]), EvalList(doc, log, args[..k + 1]).log)
  {
    var a := args[..k + 1];
    assert a[..k] == args[..k];
    ListPrefix(doc, log, a, k);
    assert vs[..k] == EvalList(doc, log, args[..k]).result.value;
    JunctionAllPass(doc, log, args[..k], conjunction);
    JunctionSettled(doc, log, args, conjunction, k + 1);
  }

  /** `and` is truthy exactly when no operand is falsy, `or` exactly when some operand is
      truthy, whenever every operand evaluates without failure. */
  lemma JunctionTruth(doc: Document, log: seq<Call>, args: seq<Expr>, conjunction: bool)
    requires EvalList(doc, log, args).result.Ok?
    ensures EvalJunction(doc, log, args, conjunction).result.Ok?
    ensures Truthy(EvalJunction(doc, log, args, conjunction).result.value) == conjunction <==>
            forall i :: 0 <= i < |args| ==> Truthy(EvalList(doc, log, args).result.value[i]) == conjunction
  {
    var vs := EvalList(doc, log, args).result.value;
    if forall i :: 0 <= i < |args| ==> Truthy(vs[i]) == conjunction {
      JunctionAllPass(doc, log, args, conjunction);
    } else {
      var k := 0;
      while Truthy(vs[k]) == conjunction
        invariant 0 <= k < |args|
        invariant forall i :: 0 <= i < k ==> Truthy(vs[i]) == conjunction
        invariant exists j :: k <= j < |args| && Truthy(vs[j]) != conjunction
        decreases |args| - k
      {
        k := k + 1;
      }
      ListPrefix(doc, log, args, k + 1);
      JunctionDecided(doc, log, args, conjunction, k, vs[..k + 1]);
    }
  }

  // ---------------------------------------------------------------------------
  // Comparison operators
  // ---------------------------------------------------------------------------

  /** Every comparison operator fails unless it has exactly two operands, evaluating
      nothing; the message always names "==". */
  lemma ComparisonArity(doc: Document, log: seq<Call>, op: string, args: seq<Expr>, not: bool, chain: seq<ChainPart>)
    requires IsComparison(op) && |args| != 2
    ensures Eval(doc, log, CommandNode(op, args, not, chain)) == Outcome(Err(WrongNumberOfArguments("==", |args|)), log)
  {
    assert Eval(doc, log, CommandNode(op, args, not, chain)) == EvalComparison(doc, log, op, args);
  }

  /** With two operands, a comparison evaluates them exactly as a list (left, then right)
      and compares the two values. */
  lemma ComparisonOperands(doc: Document, log: seq<Call>, op: string, args: seq<Expr>, not: bool, chain: seq<ChainPart>)
    requires IsComparison(op) && |args| == 2
    ensures var o := Eval(doc, log, CommandNode(op, args, not, chain));
            var l := EvalList(doc, log, args);
            && o.log == l.log
            && (l.result.Err? ==> o.result == Err(l.result.error))
            && (l.result.Ok? ==> o.result == Ok(Bool(Compare(op, l.result.value[0], l.result.value[1]))))
  {
    var c := CommandNode(op, args, not, chain);
    assert Eval(doc, log, c) == EvalComparison(doc, log, op, args);
    var left := Eval(doc, log, args[0]);
    assert args[..2] == args && args[..1][..0] == [] && args[..1][0] == args[0];
    assert EvalList(doc, log, args[..1][..0]) == Outcome(Ok([]), log);
    assert args[..2][..1] == args[..1];
    if left.result.Ok? {
      assert [] + [left.result.value] == [left.result.value];
      assert EvalList(doc, log, args[..1]) == Outcome(Ok([left.result.value]), left.log);
      var right := Eval(doc, left.log, args[1]);
      if right.result.Ok? {
        assert [left.result.value] + [right.result.value] == [left.result.value, right.result.value];
        assert EvalList(doc, log, args) == Outcome(Ok([left.result.value, right.result.value]), right.log);
        assert ComparisonArgs(doc, log, args) == Outcome(Ok((left.result.value, right.result.value)), right.log);
      } else {
        assert EvalList(doc, log, args) == Outcome(Err(right.result.error), right.log);
        assert ComparisonArgs(doc, log, args) == Outcome(Err(right.result.error), right.log);
      }
    } else {
      assert EvalList(doc, log, args[..1]) == Outcome(Err(left.result.error), left.log);
      assert EvalList(doc, log, args) == Outcome(Err(left.result.error), left.log);
      assert ComparisonArgs(doc, log, args) == Outcome(Err(left.result.error), left.log);
    }
  }

  /** `!=` is exactly the negation of `==` on the same operands, with the same calls. */
  lemma NotEqualNegatesEqual(doc: Document, log: seq<Call>, args: seq<Expr>, not: bool, chain: seq<ChainPart>)
    ensures var ne := Eval(doc, log, CommandNode("!=", args, not, chain));
            var eq := Eval(doc, log, CommandNode("==", args, not, chain));
            && ne.log == eq.log
            && (eq.result.Err? ==> ne.result == eq.result)
            && (eq.result.Ok? ==> eq.result.value.Bool? && ne.result == Ok(Bool(!eq.result.value.b)))
  {
    assert Eval(doc, log, CommandNode("!=", args, not, chain)) == EvalComparison(doc, log, "!=", args);
    assert Eval(doc, log, CommandNode("==", args, not, chain)) == EvalComparison(doc, log, "==", args);
  }

  /** Operators ignore the negation flag and the chain. */
  lemma OperatorIgnoresNotAndChain(doc: Document, log: seq<Call>, op: string, args: seq<Expr>, not: bool, chain: seq<ChainPart>)
    requires IsOperator(op)
    ensures Eval(doc, log, CommandNode(op, args, not, chain)) == Eval(doc, log, CommandNode(op, args, false, []))
  {
  }

  // ---------------------------------------------------------------------------
  // Ordinary commands: execute, chain, negation
  // ---------------------------------------------------------------------------

  /** The negation flag is applied once, after the whole chain: with it the result is
      `!result` of the same evaluation without it, after the same calls. */
  lemma NegationLast(doc: Document, log: seq<Call>, name: string, args: seq<Expr>, chain: seq<ChainPart>)
    requires !IsOperator(name)
    ensures var pos := Eval(doc, log, CommandNode(name, args, false, chain));
            var neg := Eval(doc, log, CommandNode(name, args, true, chain));
            && neg.log == pos.log
            && (pos.result.Err? ==> neg.result == pos.result)
            && (pos.result.Ok? ==> neg.result == Ok(Bool(!Truthy(pos.result.value))))
  {
    var pos, neg := CommandNode(name, args, false, chain), CommandNode(name, args, true, chain);
    assert Eval(doc, log, pos) == EvalExternal(doc, log, pos);
    assert Eval(doc, log, neg) == EvalExternal(doc, log, neg);
  }

  /** `execute` evaluates the arguments before any call of its own. A name in the command
      table is called there, twice with the same arguments; any other name goes to
      `document.execute("scope." + name, ...args)` once. */
  lemma ExecuteCalls(doc: Document, log: seq<Call>, name: string, args: seq<Expr>)
    requires EvalList(doc, log, args).result.Ok?
    ensures var a := EvalList(doc, log, args);
            var o := Execute(doc, log, name, args);
            var registered := RegisteredCommand(name, a.result.value);
            var fallback := ExecuteCommand("scope." + name, a.result.value);
            && (name in doc.commands && doc.respond(a.log, registered).Ok? ==>
                  o == Outcome(doc.respond(a.log + [registered], registered), a.log + [registered, registered]))
            && (name in doc.commands && doc.respond(a.log, registered).Err? ==>
                  o == Outcome(doc.respond(a.log, registered), a.log + [registered]))
            && (name !in doc.commands ==> o == Outcome(doc.respond(a.log, fallback), a.log + [fallback]))
  {
  }

  /** A failing argument fails `execute` before the command is called. */
  lemma ExecuteArgumentFailure(doc: Document, log: seq<Call>, name: string, args: seq<Expr>)
    requires EvalList(doc, log, args).result.Err?
    ensures Execute(doc, log, name, args) == Outcome(Err(EvalList(doc, log, args).result.error), EvalList(doc, log, args).log)
  {
  }

  /** The property chain `.k0.k1...` as a reference definition, first key first. */
  function PropertyPath(v: Value, keys: seq<string>): Result<Value>
    decreases |keys|
  {
    if |keys| == 0 then Ok(v)
    else
      var has := HasMember(v, keys[0]);
      if has.Err? then Err(has.error)
      else if !has.value then Err(UnknownProperty(keys[0], v))
      else
        var w := GetMember(v, keys[0]);
        if w.Err? then w else PropertyPath(w.value, keys[1..])
  }

  function Properties(keys: seq<string>): (r: seq<ChainPart>)
    ensures |r| == |keys| && forall i :: 0 <= i < |keys| ==> r[i] == PropertyPart(keys[i])
  {
    seq(|keys|, i requires 0 <= i < |keys| => PropertyPart(keys[i]))
  }

  /** One more key at the end of a path is one more property step on its value. */
  lemma {:induction false} PathSnoc(v: Value, keys: seq<string>, k: string)
    ensures PropertyPath(v, keys + [k]) ==
      (var p := PropertyPath(v, keys);
       if p.Err? then p
       else
         var has := HasMember(p.value, k);
         if has.Err? then Err(has.error)
         else if !has.value then Err(UnknownProperty(k, p.value))
         else GetMember(p.value, k))
    decreases |keys|
  {
    if |keys| > 0 {
      assert (keys + [k])[0] == keys[0];
      assert (keys + [k])[1..] == keys[1..] + [k];
      var has := HasMember(v, keys[0]);
      if has.Ok? && has.value {
        MemberReadable(v, keys[0]);
        PathSnoc(GetMember(v, keys[0]).value, keys[1..], k);
      }
    } else {
      assert [] + [k] == [k];
      var has := HasMember(v, k);
      if has.Ok? && has.value {
        MemberReadable(v, k);
        assert [k][1..] == [];
      }
    }
  }

  /** Property steps apply in declared order: a chain of property steps calls nothing and
      yields the reference path lookup, failing with "Unknown property" at the first absent key. */
  lemma {:induction false} PropertyChain(doc: Document, log: seq<Call>, v: Value, keys: seq<string>)
    ensures EvalChain(doc, log, v, Properties(keys)) == Outcome(PropertyPath(v, keys), log)
    decreases |keys|
  {
    if |keys| > 0 {
      var init := keys[..|keys| - 1];
      var k := keys[|keys| - 1];
      assert Properties(keys)[..|keys| - 1] == Properties(init);
      PropertyChain(doc, log, v, init);
      assert init + [k] == keys;
      PathSnoc(v, init, k);
    }
  }

  /** The failures of single chain steps on an object: an absent property or method
      fails (a method's arguments are then not evaluated); a present function member is
      called once, after its arguments. */
  lemma ChainSteps(doc: Document, log: seq<Call>, fields: map<string, Value>, p: string, m: string, args: seq<Expr>)
    ensures p !in fields ==>
      ApplyPart(doc, log, Object(fields), PropertyPart(p)) == Outcome(Err(UnknownProperty(p, Object(fields))), log)
    ensures p in fields ==> ApplyPart(doc, log, Object(fields), PropertyPart(p)) == Outcome(Ok(fields[p]), log)
    ensures m !in fields ==>
      ApplyPart(doc, log, Object(fields), MethodPart(m, args)) == Outcome(Err(UnknownMethod(m, Object(fields))), log)
    ensures m in fields && fields[m].Callable? && EvalList(doc, log, args).result.Ok? ==>
      var a := EvalList(doc, log, args);
      var call := CallValue(fields[m].handle, a.result.value);
      ApplyPart(doc, log, Object(fields), MethodPart(m, args)) == Outcome(doc.respond(a.log, call), a.log + [call])
    ensures ApplyPart(doc, log, Object(fields), UnknownPart) == Outcome(Err(UnknownChainPart), log)
  {
  }

  // ---------------------------------------------------------------------------
  // `check`
  // ---------------------------------------------------------------------------

  /** An array input is the same as the text of its words joined with spaces; a single
      word is that word. */
  lemma CheckWords(doc: Document, parse: string -> Result<Expr>, log: seq<Call>, words: seq<string>)
    ensures Check(doc, parse, log, Words(words)) == Check(doc, parse, log, Text(JoinWith(words, ' ')))
    ensures |words| == 1 ==> Check(doc, parse, log, Words(words)) == Check(doc, parse, log, Text(words[0]))
  {
  }

  // ---------------------------------------------------------------------------
  // Scenarios of the repository's scope tests, on the parsed trees of their inputs
  // ---------------------------------------------------------------------------

  /** The test host: `commandTrue`, `commandFalse` and `getObject` answered through
      `document.execute`, the object's `callback` returning its first argument. */
  function TestHost(log: seq<Call>, c: Call): Result<Value>
  {
    match c
    case ExecuteCommand(command, _) =>
      if command == "scope." + "commandTrue" then Ok(Bool(true))
      else if command == "scope." + "commandFalse" then Ok(Bool(false))
      else if command == "scope." + "getObject" then
        Ok(Object(map["trueProperty" := Bool(true), "falseProperty" := Bool(false), "callback" := Callable(0)]))
      else Err(Thrown("Unknown command: " + command))
    case CallValue(0, args) => Ok(if |args| > 0 then args[0] else Undefined)
    case _ => Err(Thrown("Unknown command"))
  }

  function TestDocument(): Document
  {
    Document({}, TestHost)
  }

  function Cmd(name: string): Expr
  {
    CommandNode(name, [], false, [])
  }

  /** An unregistered command without arguments, chain or negation is one call to
      `document.execute("scope." + name)`, whose answer is the value. */
  lemma PlainCall(doc: Document, log: seq<Call>, name: string)
    requires name !in doc.commands && !IsOperator(name)
    ensures var call := ExecuteCommand("scope." + name, []);
            Eval(doc, log, Cmd(name)) == Outcome(doc.respond(log, call), log + [call])
  {
    assert EvalList(doc, log, []) == Outcome(Ok([]), log);
    assert Eval(doc, log, Cmd(name)) == EvalExternal(doc, log, Cmd(name));
  }

  /** `commandFalse() && commandTrue()` is false, and `commandTrue` is never called. */
  lemma ScenarioAndShortCircuits()
    ensures Eval(TestDocument(), [], CommandNode("and", [Cmd("commandFalse"), Cmd("commandTrue")], false, [])) ==
            Outcome(Ok(Bool(false)), [ExecuteCommand("scope." + "commandFalse", [])])
  {
    var doc := TestDocument();
    var args := [Cmd("commandFalse"), Cmd("commandTrue")];
    var first := ExecuteCommand("scope." + "commandFalse", []);
    assert Eval(doc, [], args[0]) == Outcome(Ok(Bool(false)), [first]) by {
      PlainCall(doc, [], "commandFalse");
      assert [] + [first] == [first];
    }
    assert EvalJunction(doc, [], args[..1], true) == Outcome(Ok(Bool(false)), [first]) by {
      assert args[..1][..0] == [] && args[..1][0] == args[0];
    }
    JunctionSettled(doc, [], args, true, 1);
  }

  /** `commandFalse() || commandTrue()` is true, after both calls in order. */
  lemma ScenarioOrContinues()
    ensures Eval(TestDocument(), [], CommandNode("or", [Cmd("commandFalse"), Cmd("commandTrue")], false, [])) ==
            Outcome(Ok(Bool(true)), [ExecuteCommand("scope." + "commandFalse", []), ExecuteCommand("scope." + "commandTrue", [])])
  {
    var doc := TestDocument();
    var args := [Cmd("commandFalse"), Cmd("commandTrue")];
    var first := ExecuteCommand("scope." + "commandFalse", []);
    var second := ExecuteCommand("scope." + "commandTrue", []);
    assert EvalJunction(doc, [], args[..1], false) == Outcome(Ok(Bool(false)), [first]) by {
      PlainCall(doc, [], "commandFalse");
      assert [] + [first] == [first];
      assert args[..1][..0] == [] && args[..1][0] == args[0];
    }
    assert Eval(doc, [first], args[1]) == Outcome(Ok(Bool(true)), [first, second]) by {
      PlainCall(doc, [first], "commandTrue");
      assert |second.command| != |first.command|;
    }
    assert args[..2] == args;
  }

  /** `!commandTrue()` is false. */
  lemma ScenarioNegation()
    ensures Eval(TestDocument(), [], CommandNode("commandTrue", [], true, [])).result == Ok(Bool(false))
  {
    var doc := TestDocument();
    var c := CommandNode("commandTrue", [], true, []);
    assert EvalList(doc, [], []) == Outcome(Ok([]), []);
    assert Eval(doc, [], c) == EvalExternal(doc, [], c);
  }

  function TestObject(): Value
  {
    Object(map["trueProperty" := Bool(true), "falseProperty" := Bool(false), "callback" := Callable(0)])
  }

  lemma GetObjectCall(log: seq<Call>)
    ensures Execute(TestDocument(), log, "getObject", []) == Outcome(Ok(TestObject()), log + [ExecuteCommand("scope." + "getObject", [])])
  {
    assert EvalList(TestDocument(), log, []) == Outcome(Ok([]), log);
  }

  lemma KeyedLiteral(doc: Document, log: seq<Call>)
    ensures Eval(doc, log, ObjectNode([Entry("KEY", ValueNode(Bool(true)))])) == Outcome(Ok(Object(map["KEY" := Bool(true)])), log)
  {
    var entries := [Entry("KEY", ValueNode(Bool(true)))];
    assert entries[..0] == [];
    assert EvalEntries(doc, log, []) == Outcome(Ok(map[]), log);
    assert map[][("KEY") := Bool(true)] == map["KEY" := Bool(true)];
  }

  /** The chain `.callback({KEY: true}).KEY` on the test object: one call of the function
      member with the built object, then the property of what it returns. */
  lemma CallbackChain(log: seq<Call>)
    ensures var arg := ObjectNode([Entry("KEY", ValueNode(Bool(true)))]);
            var chain := [MethodPart("callback", [arg]), PropertyPart("KEY")];
            var call := CallValue(0, [Object(map["KEY" := Bool(true)])]);
            EvalChain(TestDocument(), log, TestObject(), chain) == Outcome(Ok(Bool(true)), log + [call])
  {
    var doc := TestDocument();
    var arg := ObjectNode([Entry("KEY", ValueNode(Bool(true)))]);
    var chain := [MethodPart("callback", [arg]), PropertyPart("KEY")];
    var keyed := map["KEY" := Bool(true)];
    var call := CallValue(0, [Object(keyed)]);
    assert ApplyPart(doc, log, TestObject(), chain[0]) == Outcome(Ok(Object(keyed)), log + [call]) by {
      KeyedLiteral(doc, log);
      SingletonList(doc, log, arg);
      ChainSteps(doc, log, TestObject().fields, "KEY", "callback", [arg]);
    }
    assert ApplyPart(doc, log + [call], Object(keyed), chain[1]) == Outcome(Ok(Bool(true)), log + [call]) by {
      ChainSteps(doc, log + [call], keyed, "KEY", "callback", []);
    }
    assert EvalChain(doc, log, TestObject(), chain[..1]) == Outcome(Ok(Object(keyed)), log + [call]) by {
      assert chain[..1][..0] == [];
      assert EvalChain(doc, log, TestObject(), []) == Outcome(Ok(TestObject()), log);
    }
    assert chain[..2] == chain;
  }

  /** `getObject().callback({KEY: true}).KEY` is true: the object literal is built, passed
      to the function member, and the property read from what it returns. */
  lemma ScenarioChainsCallback()
    ensures var arg := ObjectNode([Entry("KEY", ValueNode(Bool(true)))]);
            var e := CommandNode("getObject", [], false, [MethodPart("callback", [arg]), PropertyPart("KEY")]);
            Eval(TestDocument(), [], e) ==
            Outcome(Ok(Bool(true)), [ExecuteCommand("scope." + "getObject", []), CallValue(0, [Object(map["KEY" := Bool(true)])])])
  {
    var doc := TestDocument();
    var arg := ObjectNode([Entry("KEY", ValueNode(Bool(true)))]);
    var e := CommandNode("getObject", [], false, [MethodPart("callback", [arg]), PropertyPart("KEY")]);
    var get := ExecuteCommand("scope." + "getObject", []);
    assert Execute(doc, [], "getObject", []) == Outcome(Ok(TestObject()), [get]) by {
      GetObjectCall([]);
      assert [] + [get] == [get];
    }
    CallbackChain([get]);
    assert Eval(doc, [], e) == EvalExternal(doc, [], e);
  }

  /** A one-element list is its element's evaluation. */
  lemma SingletonList(doc: Document, log: seq<Call>, e: Expr)
    ensures var o := Eval(doc, log, e);
            EvalList(doc, log, [e]) == Outcome(if o.result.Ok? then Ok([o.result.value]) else Err(o.result.error), o.log)
  {
    assert [e][..0] == [];
    assert EvalList(doc, log, []) == Outcome(Ok([]), log);
    var o := Eval(doc, log, e);
    if o.result.Ok? {
      assert [] + [o.result.value] == [o.result.value];
    }
  }

  /** A comparison of two integer literals is the comparison of the integers. */
  lemma IntLiteralComparison(doc: Document, log: seq<Call>, op: string, x: int, y: int)
    requires IsComparison(op)
    ensures Eval(doc, log, CommandNode(op, [ValueNode(Int(x)), ValueNode(Int(y))], false, [])).result ==
            Ok(Bool(Compare(op, Int(x), Int(y))))
  {
    var args := [ValueNode(Int(x)), ValueNode(Int(y))];
    ComparisonOperands(doc, log, op, args, false, []);
    assert args[..1] == [args[0]];
    SingletonList(doc, log, args[0]);
    assert [Int(x)] + [Int(y)] == [Int(x), Int(y)];
    assert EvalList(doc, log, args).result == Ok([Int(x), Int(y)]);
  }

  /** The twelve comparisons of the test file: `1 >= 1`, `1 > 0`, `0 < 1`, `1 <= 1`, `0 != 1`
      and `0 == 0` are true; `1 > 2`, `2 <= 1`, `0 == 1`, `0 != 0`, `1 >= 2` and `1 < 0` are false. */
  lemma ScenarioComparisons(doc: Document, log: seq<Call>)
    ensures Eval(doc, log, CommandNode(">=", [ValueNode(Int(1)), ValueNode(Int(1))], false, [])).result == Ok(Bool(true))
    ensures Eval(doc, log, CommandNode(">", [ValueNode(Int(1)), ValueNode(Int(0))], false, [])).result == Ok(Bool(true))
    ensures Eval(doc, log, CommandNode("<", [ValueNode(Int(0)), ValueNode(Int(1))], false, [])).result == Ok(Bool(true))
    ensures Eval(doc, log, CommandNode("<=", [ValueNode(Int(1)), ValueNode(Int(1))], false, [])).result == Ok(Bool(true))
    ensures Eval(doc, log, CommandNode("!=", [ValueNode(Int(0)), ValueNode(Int(1))], false, [])).result == Ok(Bool(true))
    ensures Eval(doc, log, CommandNode(">", [ValueNode(Int(1)), ValueNode(Int(2))], false, [])).result == Ok(Bool(false))
    ensures Eval(doc, log, CommandNode("<=", [ValueNode(Int(2)), ValueNode(Int(1))], false, [])).result == Ok(Bool(false))
    ensures Eval(doc, log, CommandNode("==", [ValueNode(Int(0)), ValueNode(Int(1))], false, [])).result == Ok(Bool(false))
    ensures Eval(doc, log, CommandNode("==", [ValueNode(Int(0)), ValueNode(Int(0))], false, [])).result == Ok(Bool(true))
    ensures Eval(doc, log, CommandNode("!=", [ValueNode(Int(0)), ValueNode(Int(0))], false, [])).result == Ok(Bool(false))
    ensures Eval(doc, log, CommandNode(">=", [ValueNode(Int(1)), ValueNode(Int(2))], false, [])).result == Ok(Bool(false))
    ensures Eval(doc, log, CommandNode("<", [ValueNode(Int(1)), ValueNode(Int(0))], false, [])).result == Ok(Bool(false))
  {
    IntLiteralComparison(doc, log, ">=", 1, 1);
    IntLiteralComparison(doc, log, ">", 1, 0);
    IntLiteralComparison(doc, log, "<", 0, 1);
    IntLiteralComparison(doc, log, "<=", 1, 1);
    IntLiteralComparison(doc, log, "!=", 0, 1);
    IntLiteralComparison(doc, log, ">", 1, 2);
    IntLiteralComparison(doc, log, "<=", 2, 1);
    IntLiteralComparison(doc, log, "==", 0, 1);
    IntLiteralComparison(doc, log, "==", 0, 0);
    IntLiteralComparison(doc, log, "!=", 0, 0);
    IntLiteralComparison(doc, log, ">=", 1, 2);
    IntLiteralComparison(doc, log, "<", 1, 0);
  }
}
