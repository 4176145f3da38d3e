/**
  Runtime values of the evaluators and the JavaScript operations applied to them:
  truthiness (`!!v`), the `in` operator, property access, the relational operators
  `<`, `<=`, `>`, `>=`, and conversion to a string in a template literal.

  The host (commands, `document.execute`, the executor, function values returned by
  commands) is modelled by a log of every call made to it and a responder that
  answers each call from the calls made before it. A stateful host, such as a
  counter, is a responder that looks at the log.
*/
module JsValues {
  import opened JsStrings
  import Sequences

  /** A JavaScript value as the evaluators see it. Numbers are integers; a function
      value is an opaque handle that the host knows how to call. */
  datatype Value =
    | Null
    | Undefined
    | Bool(b: bool)
    | Int(i: int)
    | Str(s: string)
    | Array(items: seq<Value>)
    | Object(fields: map<string, Value>)
    | Callable(handle: nat)

  /** `!!v`: false exactly for null, undefined, false, 0 and the empty string. */
  predicate Truthy(v: Value)
  {
    match v
    case Null => false
    case Undefined => false
    case Bool(b) => b
    case Int(i) => i != 0
    case Str(s) => |s| > 0
    case _ => true
  }

  /** Every failure the evaluators raise, and the failures of the host. */
  datatype Error =
    | UnknownScopeValue
    | WrongNumberOfArguments(operator: string, count: nat)
    | UnknownProperty(property: string, on: Value)
    | UnknownMethod(member: string, on: Value)
    | UnknownChainPart
    | InOnPrimitive(key: string, on: Value)
    | PropertyOfNullish(key: string)
    | NotAFunction(member: string)
    | UnexpectedContextValue(context: Value)
    | InvalidExpression(part: seq<Value>)
    | ArgumentsJson(message: string)
    | JsonSyntax(message: string)
    | Thrown(message: string)

  datatype Result<T> = Ok(value: T) | Err(error: Error)

  /** `key in v`, on own properties: an object's keys, an array's indices and `length`.
      A primitive on the right of `in` is a TypeError. */
  function HasMember(v: Value, key: string): (r: Result<bool>)
    ensures r.Err? <==> !(v.Object? || v.Array? || v.Callable?)
    ensures v.Object? ==> r == Ok(key in v.fields)
    ensures v.Array? ==> r == Ok(key == "length" || (IsIndexKey(key) && DigitsValue(key) < |v.items|))
  {
    match v
    case Object(fields) => Ok(key in fields)
    case Array(items) => Ok(key == "length" || (IsIndexKey(key) && DigitsValue(key) < |items|))
    case Callable(_) => Ok(false)
    case _ => Err(InOnPrimitive(key, v))
  }

  /** `v[key]`: undefined for a missing key, a TypeError on null and undefined. Arrays and
      strings have their length and their elements by index. */
  function GetMember(v: Value, key: string): (r: Result<Value>)
    ensures r.Err? <==> v.Null? || v.Undefined?
    ensures v.Object? && key in v.fields ==> r == Ok(v.fields[key])
    ensures v.Object? && key !in v.fields ==> r == Ok(Undefined)
    ensures v.Array? && IsIndexKey(key) && DigitsValue(key) < |v.items| ==> r == Ok(v.items[DigitsValue(key)])
  {
    match v
    case Null => Err(PropertyOfNullish(key))
    case Undefined => Err(PropertyOfNullish(key))
    case Object(fields) => Ok(if key in fields then fields[key] else Undefined)
    case Array(items) =>
      Ok(if key == "length" then Int(|items|)
         else if IsIndexKey(key) && DigitsValue(key) < |items| then items[DigitsValue(key)]
         else Undefined)
    case Str(s) =>
      Ok(if key == "length" then Int(|s|)
         else if IsIndexKey(key) && DigitsValue(key) < |s| then Str([s[DigitsValue(key)]])
         else Undefined)
    case _ => Ok(Undefined)
  }

  /** Every index of an array is a member, and reading it yields the element. */
  lemma ArrayIndexMember(items: seq<Value>, i: nat)
    requires i < |items|
    ensures HasMember(Array(items), NatToDecimal(i)) == Ok(true)
    ensures GetMember(Array(items), NatToDecimal(i)) == Ok(items[i])
  {
  }

  /** Whenever `key in v` holds, reading `v[key]` succeeds. */
  lemma MemberReadable(v: Value, key: string)
    requires HasMember(v, key) == Ok(true)
    ensures GetMember(v, key).Ok?
    ensures v.Object? ==> GetMember(v, key) == Ok(v.fields[key])
  {
  }

  /** String ordering by character codes: a proper prefix is smaller. */
  predicate StrLess(s: string, t: string)
  {
    if |s| == 0 then |t| > 0
    else if |t| == 0 then false
    else if s[0] == t[0] then StrLess(s[1..], t[1..])
    else s[0] < t[0]
  }

  lemma {:induction false} StrLessIrreflexive(s: string)
    ensures !StrLess(s, s)
  {
    if |s| > 0 {
      StrLessIrreflexive(s[1..]);
    }
  }

  /** Two different strings are ordered one way or the other, and never both. */
  lemma {:induction false} StrLessTrichotomy(s: string, t: string)
    ensures s != t ==> StrLess(s, t) != StrLess(t, s)
    ensures s == t ==> !StrLess(s, t)
  {
    if s == t {
      StrLessIrreflexive(s);
    } else if |s| > 0 && |t| > 0 && s[0] == t[0] {
      StrLessTrichotomy(s[1..], t[1..]);
      assert s == [s[0]] + s[1..] && t == [t[0]] + t[1..];
    }
  }

  lemma {:induction false} StrLessTransitive(s: string, t: string, u: string)
    requires StrLess(s, t) && StrLess(t, u)
    ensures StrLess(s, u)
  {
    if |s| > 0 && |t| > 0 && |u| > 0 && s[0] == t[0] && t[0] == u[0] {
      StrLessTransitive(s[1..], t[1..], u[1..]);
    }
  }

  /** ToNumber on the primitives whose numeric value the model knows; None stands
      for NaN (undefined) and for the conversions that are not modelled. */
  function ToNumber(v: Value): Option<int>
  {
    match v
    case Null => Some(0)
    case Bool(b) => Some(if b then 1 else 0)
    case Int(i) => Some(i)
    case _ => None
  }

  datatype Option<T> = None | Some(value: T)

  /** The abstract relational comparison `a < b` of ECMAScript: Some(answer), or
      None when the comparison is undefined. */
  function IsLessThan(a: Value, b: Value): Option<bool>
  {
    if a.Str? && b.Str? then Some(StrLess(a.s, b.s))
    else if ToNumber(a).Some? && ToNumber(b).Some? then Some(ToNumber(a).value < ToNumber(b).value)
    else None
  }

  /** `a < b`, `a > b`, `a <= b`, `a >= b` as ECMAScript defines them from IsLessThan:
      an undefined comparison makes every one of them false. */
  predicate Less(a: Value, b: Value) { IsLessThan(a, b) == Some(true) }
  predicate Greater(a: Value, b: Value) { IsLessThan(b, a) == Some(true) }
  predicate LessOrEqual(a: Value, b: Value) { IsLessThan(b, a) == Some(false) }
  predicate GreaterOrEqual(a: Value, b: Value) { IsLessThan(a, b) == Some(false) }

  /** On two strings the four operators are the strict and non-strict string orders. */
  lemma StringComparisons(s: string, t: string)
    ensures Less(Str(s), Str(t)) == StrLess(s, t)
    ensures Greater(Str(s), Str(t)) == StrLess(t, s)
    ensures LessOrEqual(Str(s), Str(t)) <==> StrLess(s, t) || s == t
    ensures GreaterOrEqual(Str(s), Str(t)) <==> StrLess(t, s) || s == t
  {
    StrLessTrichotomy(s, t);
  }

  /** On two integers the four operators are the integer orders. */
  lemma IntComparisons(x: int, y: int)
    ensures Less(Int(x), Int(y)) <==> x < y
    ensures Greater(Int(x), Int(y)) <==> x > y
    ensures LessOrEqual(Int(x), Int(y)) <==> x <= y
    ensures GreaterOrEqual(Int(x), Int(y)) <==> x >= y
  {
  }

  /** Undefined never compares: all four operators are false. */
  lemma UndefinedIncomparable(v: Value)
    ensures !Less(Undefined, v) && !Greater(Undefined, v)
    ensures !LessOrEqual(Undefined, v) && !GreaterOrEqual(Undefined, v)
  {
  }

  /** Conversion to a string, as a template literal `${v}` performs it. */
  function ToJsString(v: Value): string
  {
    match v
    case Null => "null"
    case Undefined => "undefined"
    case Bool(b) => if b then "true" else "false"
    case Int(i) => IntToDecimal(i)
    case Str(s) => s
    case Array(items) => Sequences.JoinWith(ElementStrings(items), ',')
    case Object(_) => "[object Object]"
    case Callable(_) => "function"
  }

  /** The strings `Array.prototype.join` puts between the commas: null and undefined become "". */
  function ElementStrings(items: seq<Value>): (r: seq<string>)
    ensures |r| == |items|
    decreases items
  {
    if |items| == 0 then []
    else
      var last := items[|items| - 1];
      ElementStrings(items[..|items| - 1]) + [if last.Null? || last.Undefined? then "" else ToJsString(last)]
  }

  /** A call the evaluators make to the host. */
  datatype Call =
    | ExecuteCommand(command: string, rest: seq<Value>)  // `document.execute(command, ...rest)` or `executor(command, ...rest)`
    | RegisteredCommand(name: string, args: seq<Value>)  // `document.commands[name](...args)`
    | CallValue(handle: nat, args: seq<Value>)           // calling a function value found on a result

  /** The host: the answer to a call, given the calls made before it. */
  type Responder = (seq<Call>, Call) -> Result<Value>

  /** What an evaluation step yields, together with the call log after it. */
  datatype Outcome<T> = Outcome(result: Result<T>, log: seq<Call>)
}
