/**
 * The slice of JavaScript value semantics the handler relies on: values
 * produced by JSON.parse, truthiness, the `||` operator, property reads that
 * throw on `null`/`undefined`, and optional chaining (`?.`).
 */
module Js {
  import opened Wrappers

  /** A value as JSON.parse (or axios' response parsing) produces it. */
  datatype JsValue =
    | JNull
    | JBool(b: bool)
    | JNum(n: real)
    | JStr(s: string)
    | JArr(elems: seq<JsValue>)
    | JObj(fields: map<string, JsValue>)

  /** A JavaScript value that may be `undefined` (`None`). */
  type Val = Option<JsValue>

  /** `null` or `undefined`: the values a property read throws on. */
  predicate Nullish(v: Val) {
    v == None || v == Some(JNull)
  }

  /** JavaScript truthiness (JSON has no NaN, so only zero is a falsy number). */
  predicate Truthy(v: Val) {
    match v
    case None => false
    case Some(JNull) => false
    case Some(JBool(b)) => b
    case Some(JNum(n)) => n != 0.0
    case Some(JStr(s)) => s != ""
    case Some(_) => true
  }

  /** `a || b` where the fallback `b` is a defined value. */
  function Or(a: Val, b: JsValue): JsValue {
    if Truthy(a) then a.value else b
  }

  predicate IsDigit(c: char) {
    '0' <= c <= '9'
  }

  /** A canonical array-index property name: decimal digits without a leading zero. */
  predicate IsIndexName(name: string) {
    && |name| > 0
    && (forall i :: 0 <= i < |name| ==> IsDigit(name[i]))
    && (name[0] != '0' || |name| == 1)
  }

  function DecimalValue(digits: string): nat
    requires forall i :: 0 <= i < |digits| ==> IsDigit(digits[i])
    decreases |digits|
  {
    if digits == [] then 0
    else
      var last := digits[|digits| - 1];
      assert IsDigit(last);
      10 * DecimalValue(digits[..|digits| - 1]) + (last as int - '0' as int)
  }

  /**
   * The own property `name` of a non-nullish value, `undefined` when absent.
   * `x[0]` is the read of the property named "0". Members inherited from a
   * prototype (methods such as `toString`) are not modelled. The `length` of
   * arrays and strings completes the semantics of a read; the handler itself
   * never reads it.
   */
  function Get(v: JsValue, name: string): Val {
    match v
    case JObj(fields) => if name in fields then Some(fields[name]) else None
    case JArr(elems) =>
      if name == "length" then Some(JNum(|elems| as real))
      else if IsIndexName(name) && DecimalValue(name) < |elems| then Some(elems[DecimalValue(name)])
      else None
    case JStr(s) =>
      if name == "length" then Some(JNum(|s| as real))
      else if IsIndexName(name) && DecimalValue(name) < |s| then Some(JStr([s[DecimalValue(name)]]))
      else None
    case _ => None
  }

  /** How a nullish value is spelled in a TypeError message. */
  function NullishName(v: Val): string {
    if v == None then "undefined" else "null"
  }

  /** The message of the TypeError V8 throws when reading a property of a nullish value. */
  function TypeErrorMessage(base: string, name: string): string {
    "Cannot read properties of " + base + " (reading '" + name + "')"
  }

  /**
   * Whether converting a JSON value to a string (a template literal `${v}`)
   * throws. An object converts through `toString`, then `valueOf`; an own
   * `toString` key holds no callable value, so it hides the inherited method,
   * the inherited `valueOf` returns the object itself, and the conversion
   * throws. An array converts through `join`, which converts each element
   * that is not nullish.
   */
  predicate ToStringThrows(v: JsValue) {
    match v
    case JObj(fields) => "toString" in fields
    case JArr(elems) => exists i :: 0 <= i < |elems| && ToStringThrows(elems[i])
    case _ => false
  }

  /** The message of the TypeError V8 throws when that conversion fails. */
  const ConversionErrorMessage: string := "Cannot convert object to primitive value"

  /** `v.name`: throws a TypeError when `v` is `null` or `undefined`. */
  function Read(v: Val, name: string): Result<Val, string> {
    if Nullish(v) then Failure(TypeErrorMessage(NullishName(v), name))
    else Success(Get(v.value, name))
  }

  /** `v.p0.p1...`: a chain of plain property reads; the first nullish base throws. */
  function ReadPath(v: Val, path: seq<string>): Result<Val, string>
    decreases |path|
  {
    if path == [] then Success(v)
    else
      var w :- Read(v, path[0]);
      ReadPath(w, path[1..])
  }

  /** `v?.p0?.p1...`: optional chaining, which yields `undefined` instead of throwing. */
  function Chain(v: Val, path: seq<string>): Val
    decreases |path|
  {
    if path == [] then v
    else if Nullish(v) then None
    else Chain(Get(v.value, path[0]), path[1..])
  }

  /**
   * A plain read chain succeeds exactly when no proper prefix of it reaches
   * `null` or `undefined`, and then it yields what optional chaining yields.
   */
  lemma {:induction false} ReadPathMeetsChain(v: Val, path: seq<string>)
    ensures ReadPath(v, path).Success? <==>
              forall k :: 0 <= k < |path| ==> !Nullish(Chain(v, path[..k]))
    ensures ReadPath(v, path).Success? ==> ReadPath(v, path).value == Chain(v, path)
    decreases |path|
  {
    if path == [] {
    } else if Nullish(v) {
      assert Chain(v, path[..0]) == v;
    } else {
      var w := Get(v.value, path[0]);
      ReadPathMeetsChain(w, path[1..]);
      forall k | 1 <= k < |path|
        ensures Chain(v, path[..k]) == Chain(w, path[1..][..k - 1])
      {
        assert path[..k][0] == path[0];
        assert path[..k][1..] == path[1..][..k - 1];
      }
      assert Chain(v, path[..0]) == v;
      if forall k :: 0 <= k < |path| - 1 ==> !Nullish(Chain(w, path[1..][..k])) {
        forall k | 0 <= k < |path|
          ensures !Nullish(Chain(v, path[..k]))
        {
          if k > 0 {
            assert Chain(v, path[..k]) == Chain(w, path[1..][..k - 1]);
          }
        }
      } else {
        var k :| 0 <= k < |path| - 1 && Nullish(Chain(w, path[1..][..k]));
        assert Chain(v, path[..k + 1]) == Chain(w, path[1..][..k]);
      }
    }
  }

  /**
   * When a plain read chain throws, the TypeError names the property read on
   * the first prefix that is nullish, and says whether that was null or undefined.
   */
  lemma {:induction false} ReadPathFailsAt(v: Val, path: seq<string>) returns (k: nat)
    requires ReadPath(v, path).Failure?
    ensures k < |path| && Nullish(Chain(v, path[..k]))
    ensures forall j :: 0 <= j < k ==> !Nullish(Chain(v, path[..j]))
    ensures ReadPath(v, path).error == TypeErrorMessage(NullishName(Chain(v, path[..k])), path[k])
    decreases |path|
  {
    assert path != [];
    assert path[..0] == [];
    if Nullish(v) {
      k := 0;
    } else {
      var w := Get(v.value, path[0]);
      var k' := ReadPathFailsAt(w, path[1..]);
      k := k' + 1;
      forall j | 1 <= j <= k
        ensures Chain(v, path[..j]) == Chain(w, path[1..][..j - 1])
      {
        assert path[..j][0] == path[0];
        assert path[..j][1..] == path[1..][..j - 1];
      }
      forall j | 0 <= j < k
        ensures !Nullish(Chain(v, path[..j]))
      {
        if j > 0 {
          assert Chain(v, path[..j]) == Chain(w, path[1..][..j - 1]);
        }
      }
      assert Chain(v, path[..k]) == Chain(w, path[1..][..k']);
    }
  }
}
