/**
  Values as Python's `json` module decodes them, with the few Python
  operations the batch join applies to them: truthiness, equality with a
  string, `int()` and arithmetic with a float.
 */
module Json {
  import opened Wrappers
  import opened Errors
  import Text

  /**
    A decoded JSON value. Python floats are modelled as exact reals, so
    rounding, NaN and the infinities are not represented.
   */
  datatype Value =
    | Null
    | Bool(b: bool)
    | Int(i: int)
    | Float(r: real)
    | Str(s: string)
    | Array(items: seq<Value>)
    | Object(fields: map<string, Value>)

  /** Python's `bool(v)`: None, False, zero and empty containers are false. */
  predicate Truthy(v: Value) {
    match v
    case Null => false
    case Bool(b) => b
    case Int(i) => i != 0
    case Float(r) => r != 0.0
    case Str(s) => s != ""
    case Array(items) => items != []
    case Object(fields) => fields != map[]
  }

  /** The values that take part in float arithmetic (`bool` is an `int` subclass in Python). */
  predicate IsNumber(v: Value) {
    v.Bool? || v.Int? || v.Float?
  }

  function NumberValue(v: Value): real
    requires IsNumber(v)
  {
    match v
    case Bool(b) => if b then 1.0 else 0.0
    case Int(i) => i as real
    case Float(r) => r
  }

  /** Python's `v / x` for a non-zero float `x`: a float, or TypeError for a non-number. */
  function FloatDivide(v: Value, x: real): (r: Result<Value, Error>)
    requires x != 0.0
    ensures r.Ok? <==> IsNumber(v)
    ensures r.Ok? ==> r.value.Float? && r.value.r * x == NumberValue(v)
  {
    if IsNumber(v) then Ok(Float(NumberValue(v) / x)) else Err(TypeError("/"))
  }

  /** Python's `v * x` for a float `x`: a float, or TypeError for a non-number. */
  function FloatMultiply(v: Value, x: real): (r: Result<Value, Error>)
    ensures r.Ok? <==> IsNumber(v)
    ensures r.Ok? && x == 1.0 ==> r.value == Float(NumberValue(v))
  {
    if IsNumber(v) then Ok(Float(NumberValue(v) * x)) else Err(TypeError("*"))
  }

  /** Conversion of a real to an integer by truncation toward zero, as `int()` does for floats. */
  function Truncate(r: real): (n: int)
    ensures 0.0 <= r ==> n as real <= r < n as real + 1.0
    ensures r < 0.0 ==> n as real - 1.0 < r <= n as real
  {
    if r >= 0.0 then r.Floor else -((-r).Floor)
  }

  /**
    Python's `int(v)`: booleans give 0 or 1, floats are truncated, strings
    are parsed as base-10 literals; None, lists and dicts raise TypeError.
   */
  function IntOf(v: Value): (r: Result<int, Error>)
    ensures v.Null? || v.Array? || v.Object? ==> r.Err?
    ensures v.Int? ==> r == Ok(v.i)
  {
    match v
    case Bool(b) => Ok(if b then 1 else 0)
    case Int(i) => Ok(i)
    case Float(x) => Ok(Truncate(x))
    case Str(s) => Text.ParseInt(s)
    case _ => Err(TypeError("int()"))
  }

  /** The strings "0" and " 7 " are truthy and convert; the integer 0 and the empty string are falsy. */
  lemma StringTruthiness()
    ensures Truthy(Str("0")) && IntOf(Str("0")) == Ok(0)
    ensures Truthy(Str(" 7 ")) && IntOf(Str(" 7 ")) == Ok(7)
    ensures !Truthy(Int(0)) && !Truthy(Str("")) && !Truthy(Null)
  {
    Text.ParseDigits("0");
    assert Text.Lead(" 7 ", Text.IsIntSpace) == 1;
    assert Text.Trim(" 7 ", Text.IsIntSpace) == "7";
    assert Text.LiteralValue("7") == 7 by {
      assert "7"[..0] == [];
    }
  }
}
