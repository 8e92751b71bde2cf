/**
 * The number holder of the interpreter (src/hr/fer/zemris/custom/scripting/exec/ValueWrapper.java):
 * a stored object and a type tag fixed when the wrapper is made. Arithmetic runs on ints when
 * both the tag and the argument's type are INTEGER, and on doubles otherwise.
 */
module ValueWrappers {
  import opened Base
  import opened JavaNumbers
  import opened Values
  import opened NumUtil

  datatype Type = INTEGER | DOUBLE

  datatype Operation = INCREMENT | DECREMENT | MULTIPLY | DIVIDE

  /** The stored value (None is null) and the type the constructor determined for it. */
  datatype ValueWrapper = ValueWrapper(value: JObject, kind: Type)

  /**
   * determineType: null and int text are INTEGER, other double text is DOUBLE; anything
   * else is rejected with IllegalArgumentException.
   */
  function DetermineType(fp: FloatOps, value: JObject): (r: Result<Type>)
    ensures r.Err? <==> value.Some? && !IsInteger(ToStr(fp, value.value)) && !IsDouble(ToStr(fp, value.value))
    ensures r.Err? ==> r.error == IllegalArgumentException
    ensures r == Ok(INTEGER) <==> value.None? || IsInteger(ToStr(fp, value.value))
  {
    if value.None? then Ok(INTEGER)
    else if IsInteger(ToStr(fp, value.value)) then Ok(INTEGER)
    else if IsDouble(ToStr(fp, value.value)) then Ok(DOUBLE)
    else Err(IllegalArgumentException)
  }

  /** The constructor: the value is kept as given, its type is determined once. */
  function New(fp: FloatOps, value: JObject): (r: Result<ValueWrapper>)
    ensures r.Err? <==> DetermineType(fp, value).Err?
    ensures r.Ok? ==> r.value.value == value && r.value.kind == DetermineType(fp, value).value
  {
    var kind :- DetermineType(fp, value);
    Ok(ValueWrapper(value, kind))
  }

  /** setValue replaces the value and leaves the type as it was. */
  function SetValue(w: ValueWrapper, value: JObject): (r: ValueWrapper)
    ensures r.value == value && r.kind == w.kind
  {
    w.(value := value)
  }

  /** getDoubleValue: null is 0.0; otherwise Double.parseDouble of the text. */
  function GetDoubleValue(fp: FloatOps, value: JObject): (r: Result<Double>)
    ensures r.Err? <==> value.Some? && !IsDouble(ToStr(fp, value.value))
    ensures r.Err? ==> r.error == NumberFormatException
    ensures value.None? ==> r == Ok(POSITIVE_ZERO)
  {
    if value.None? then Ok(POSITIVE_ZERO)
    else if IsDouble(ToStr(fp, value.value)) then Ok(fp.parse(ToStr(fp, value.value)))
    else Err(NumberFormatException)
  }

  /** getIntegerValue: null is 0; otherwise Integer.parseInt of the text. */
  function GetIntegerValue(fp: FloatOps, value: JObject): (r: Result<int>)
    ensures r.Err? <==> value.Some? && !IsInteger(ToStr(fp, value.value))
    ensures r.Err? ==> r.error == NumberFormatException
    ensures r.Ok? ==> IsInt32(r.value)
    ensures value.None? ==> r == Ok(0)
    ensures value.Some? && r.Ok? ==> ParseInt(ToStr(fp, value.value)) == Some(r.value)
  {
    if value.None? then Ok(0)
    else
      match ParseInt(ToStr(fp, value.value))
      case Some(n) => Ok(n)
      case None => Err(NumberFormatException)
  }

  /** Java `int` arithmetic: wrapped `+ - *`, truncating `/`, and division by zero throws. */
  function PerformOperationInteger(o1: int, o2: int, oper: Operation): (r: Result<int>)
    ensures r.Err? <==> oper == DIVIDE && o2 == 0
    ensures r.Err? ==> r.error == ArithmeticException
    ensures r.Ok? ==> IsInt32(r.value)
    ensures r.Ok? && oper != DIVIDE ==> (r.value - (match oper
                                                    case INCREMENT => o1 + o2
                                                    case DECREMENT => o1 - o2
                                                    case MULTIPLY => o1 * o2
                                                    case DIVIDE => 0)) % 0x1_0000_0000 == 0
    ensures oper == DIVIDE && o2 != 0 && IsInt32(o1) && IsInt32(o2) && !(o1 == INT_MIN && o2 == -1) ==>
      r.Ok? && TruncatedQuotient(o1, o2, r.value)
    ensures oper == DIVIDE && o1 == INT_MIN && o2 == -1 ==> r == Ok(INT_MIN)
  {
    match oper
    case INCREMENT => Ok(Wrap32(o1 + o2))
    case DECREMENT => Ok(Wrap32(o1 - o2))
    case MULTIPLY => Ok(Wrap32(o1 * o2))
    case DIVIDE => if o2 == 0 then Err(ArithmeticException) else Ok(JavaDiv(o1, o2))
  }

  /** Java `double` arithmetic, through the platform's operations. */
  function PerformOperationDouble(fp: FloatOps, o1: Double, o2: Double, oper: Operation): Double {
    match oper
    case INCREMENT => fp.add(o1, o2)
    case DECREMENT => fp.sub(o1, o2)
    case MULTIPLY => fp.mul(o1, o2)
    case DIVIDE => fp.div(o1, o2)
  }

  /** Whether the int operations apply: the wrapper's tag and the argument's type are both INTEGER. */
  predicate IntegerOperands(fp: FloatOps, w: ValueWrapper, argument: JObject) {
    w.kind == INTEGER && DetermineType(fp, argument) == Ok(INTEGER)
  }

  /**
   * performOperation: the stored value is the left operand. The argument's type is checked
   * first, then both operands are parsed in the chosen arithmetic.
   */
  function PerformOperation(fp: FloatOps, w: ValueWrapper, argument: JObject, oper: Operation): (r: Result<Obj>)
    ensures r.Ok? && IntegerOperands(fp, w, argument) ==> r.value.JInt?
    ensures r.Ok? && !IntegerOperands(fp, w, argument) ==> r.value.JDouble?
    ensures DetermineType(fp, argument).Err? ==> r == Err(IllegalArgumentException)
  {
    var argumentType :- DetermineType(fp, argument);
    if w.kind != INTEGER || argumentType != INTEGER then
      var v1 :- GetDoubleValue(fp, w.value);
      var v2 :- GetDoubleValue(fp, argument);
      Ok(JDouble(PerformOperationDouble(fp, v1, v2, oper)))
    else
      var v1 :- GetIntegerValue(fp, w.value);
      var v2 := GetIntegerValue(fp, argument).value;
      var n :- PerformOperationInteger(v1, v2, oper);
      Ok(JInt(n))
  }

  /** increment, decrement, multiply and divide: the result replaces the value; the type stays. */
  function Apply(fp: FloatOps, w: ValueWrapper, argument: JObject, oper: Operation): (r: Result<ValueWrapper>)
    ensures r.Err? <==> PerformOperation(fp, w, argument, oper).Err?
    ensures r.Ok? ==> r.value.kind == w.kind
    ensures r.Ok? ==> r.value.value == Some(PerformOperation(fp, w, argument, oper).value)
  {
    var v :- PerformOperation(fp, w, argument, oper);
    Ok(SetValue(w, Some(v)))
  }

  /** Integer.compareTo: -1, 0 or 1. */
  function CompareInts(a: int, b: int): (r: int)
    ensures r < 0 <==> a < b
    ensures r == 0 <==> a == b
    ensures -1 <= r <= 1
  {
    if a < b then -1 else if a == b then 0 else 1
  }

  /** numCompare: the sign of (stored - argument), in the arithmetic performOperation would use. */
  function NumCompare(fp: FloatOps, w: ValueWrapper, withValue: JObject): (r: Result<int>)
    ensures DetermineType(fp, withValue).Err? ==> r == Err(IllegalArgumentException)
  {
    var withType :- DetermineType(fp, withValue);
    if w.kind != INTEGER || withType != INTEGER then
      var v1 :- GetDoubleValue(fp, w.value);
      var v2 :- GetDoubleValue(fp, withValue);
      Ok(fp.compare(v1, v2))
    else
      var v1 :- GetIntegerValue(fp, w.value);
      var v2 := GetIntegerValue(fp, withValue).value;
      Ok(CompareInts(v1, v2))
  }

  /** toString: the stored value's text; a null value throws. */
  function ToString(fp: FloatOps, w: ValueWrapper): (r: Result<string>)
    ensures r.Err? <==> w.value.None?
    ensures r.Ok? ==> r.value == ToStr(fp, w.value.value)
  {
    RefToStr(fp, w.value)
  }

  // ---------------------------------------------------------------- hash codes and equals

  /** String.hashCode: s[0]*31^(n-1) + ... + s[n-1], in `int` arithmetic. */
  function StringHash(s: string): (r: int)
    ensures IsInt32(r)
  {
    if s == [] then 0 else Wrap32(31 * StringHash(s[..|s| - 1]) + s[|s| - 1] as int)
  }

  /** Double.hashCode: the two halves of doubleToLongBits xor-ed, every NaN being the canonical one. */
  function DoubleHash(d: Double): (r: int)
    ensures IsInt32(r)
  {
    var isNaN := d & 0x7FF0_0000_0000_0000 == 0x7FF0_0000_0000_0000 && d & 0x000F_FFFF_FFFF_FFFF != 0;
    var bits: bv64 := if isNaN then 0x7FF8_0000_0000_0000 else d;
    var low := ((bits ^ (bits >> 32)) & 0xFFFF_FFFF) as int;
    if low > INT_MAX then low - 0x1_0000_0000 else low
  }

  /** Object.hashCode of the three kinds; Integer's is the value itself. */
  function HashCode(o: Obj): (r: int)
    ensures IsInt32(r)
    ensures o.JInt? && IsInt32(o.i) ==> r == o.i
    ensures o.JStr? ==> r == StringHash(o.s)
    ensures o.JDouble? ==> r == DoubleHash(o.d)
  {
    match o
    case JInt(i) => Wrap32(i)
    case JDouble(d) => DoubleHash(d)
    case JStr(s) => StringHash(s)
  }

  /**
   * equals(obj): false for null, otherwise the hash codes of the two values are compared.
   * The argument is the object compared with; a wrapper argument is taken as the value it
   * holds, which is what its hashCode reads when that value is not null.
   */
  function Equals(w: ValueWrapper, obj: JObject): (r: Result<bool>)
    ensures obj.None? ==> r == Ok(false)
    ensures obj.Some? && w.value.None? ==> r == Err(NullPointerException)
    ensures obj.Some? && w.value.Some? ==> r.Ok? && (r.value <==> HashCode(w.value.value) == HashCode(obj.value))
  {
    if obj.None? then Ok(false)
    else if w.value.None? then Err(NullPointerException)
    else Ok(HashCode(w.value.value) == HashCode(obj.value))
  }
}

/**
 * The wrapper as an object: the value field is overwritten in place by setValue and the four
 * arithmetic methods, while the type tag is final. Each method is specified by the function of
 * the same meaning on ValueWrapper values.
 */
module WrapperObjects {
  import opened Base
  import opened Values
  import opened ValueWrappers

  class Wrapper {
    var value: JObject
    const kind: Type

    /** The wrapper as a value, for the specification functions. */
    function Snapshot(): (r: ValueWrapper)
      reads this
      ensures r.value == value && r.kind == kind
    {
      ValueWrapper(value, kind)
    }

    constructor Of(w: ValueWrapper)
      ensures Snapshot() == w
    {
      value := w.value;
      kind := w.kind;
    }

    /** new ValueWrapper(value): the type is determined here, once, or the constructor throws. */
    static method Make(fp: FloatOps, value: JObject) returns (r: Result<Wrapper>)
      ensures r.Err? <==> New(fp, value).Err?
      ensures r.Ok? ==> fresh(r.value) && r.value.Snapshot() == New(fp, value).value
    {
      var made := New(fp, value);
      if made.Err? {
        return Err(made.error);
      }
      var w := new Wrapper.Of(made.value);
      return Ok(w);
    }

    method SetValue(v: JObject)
      modifies this
      ensures Snapshot() == ValueWrappers.SetValue(old(Snapshot()), v)
    {
      value := v;
    }

    /** performOperation then setValue: on failure the exception leaves the value as it was. */
    method Operate(fp: FloatOps, argument: JObject, oper: Operation) returns (o: Outcome)
      modifies this
      ensures o.Fail? <==> Apply(fp, old(Snapshot()), argument, oper).Err?
      ensures o.Fail? ==> o.error == Apply(fp, old(Snapshot()), argument, oper).error && value == old(value)
      ensures o.Pass? ==> Snapshot() == Apply(fp, old(Snapshot()), argument, oper).value
    {
      var result := PerformOperation(fp, Snapshot(), argument, oper);
      if result.Err? {
        return Fail(result.error);
      }
      SetValue(Some(result.value));
      return Pass;
    }

    method Increment(fp: FloatOps, incValue: JObject) returns (o: Outcome)
      modifies this
      ensures o.Fail? <==> Apply(fp, old(Snapshot()), incValue, INCREMENT).Err?
      ensures o.Fail? ==> value == old(value)
      ensures o.Pass? ==> Snapshot() == Apply(fp, old(Snapshot()), incValue, INCREMENT).value
    {
      o := Operate(fp, incValue, INCREMENT);
    }

    method Decrement(fp: FloatOps, incValue: JObject) returns (o: Outcome)
      modifies this
      ensures o.Fail? <==> Apply(fp, old(Snapshot()), incValue, DECREMENT).Err?
      ensures o.Fail? ==> value == old(value)
      ensures o.Pass? ==> Snapshot() == Apply(fp, old(Snapshot()), incValue, DECREMENT).value
    {
      o := Operate(fp, incValue, DECREMENT);
    }

    method Multiply(fp: FloatOps, incValue: JObject) returns (o: Outcome)
      modifies this
      ensures o.Fail? <==> Apply(fp, old(Snapshot()), incValue, MULTIPLY).Err?
      ensures o.Fail? ==> value == old(value)
      ensures o.Pass? ==> Snapshot() == Apply(fp, old(Snapshot()), incValue, MULTIPLY).value
    {
      o := Operate(fp, incValue, MULTIPLY);
    }

    method Divide(fp: FloatOps, incValue: JObject) returns (o: Outcome)
      modifies this
      ensures o.Fail? <==> Apply(fp, old(Snapshot()), incValue, DIVIDE).Err?
      ensures o.Fail? ==> value == old(value)
      ensures o.Pass? ==> Snapshot() == Apply(fp, old(Snapshot()), incValue, DIVIDE).value
    {
      o := Operate(fp, incValue, DIVIDE);
    }

  }
}

/** What the wrapper promises about its int arithmetic, comparison and equality. */
module ValueWrapperProps {
  import opened Base
  import opened JavaNumbers
  import opened Values
  import opened NumUtil
  import opened ValueWrappers

  /** Both operands read as the ints `a` and `b`, whatever kind of object holds them. */
  predicate IntOperands(fp: FloatOps, w: ValueWrapper, argument: JObject, a: int, b: int) {
    && w.kind == INTEGER
    && w.value.Some? && ParseInt(ToStr(fp, w.value.value)) == Some(a)
    && argument.Some? && ParseInt(ToStr(fp, argument.value)) == Some(b)
  }

  /**
   * With int operands the stored value becomes `a op b` in Java int arithmetic, the stored
   * value on the left; only a division by zero fails.
   */
  lemma IntegerArithmetic(fp: FloatOps, w: ValueWrapper, argument: JObject, a: int, b: int, oper: Operation)
    requires IntOperands(fp, w, argument, a, b)
    ensures Apply(fp, w, argument, oper)
      == (var n :- PerformOperationInteger(a, b, oper); Ok(ValueWrapper(Some(JInt(n)), INTEGER)))
  {
    assert DetermineType(fp, argument) == Ok(INTEGER);
    assert GetIntegerValue(fp, w.value) == Ok(a);
    assert GetIntegerValue(fp, argument) == Ok(b);
  }

  /** The int operations apply to an Integer argument exactly when the wrapper's own tag is INTEGER. */
  lemma IntegerOnlyWhenBothInteger(fp: FloatOps, w: ValueWrapper, b: int, oper: Operation)
    requires IsInt32(b)
    ensures IntegerOperands(fp, w, Some(JInt(b))) <==> w.kind == INTEGER
    ensures w.kind == DOUBLE && Apply(fp, w, Some(JInt(b)), oper).Ok? ==>
      Apply(fp, w, Some(JInt(b)), oper).value.value.value.JDouble?
  {
    ParseIntToString(b);
  }

  /** With int operands numCompare is negative, zero or positive as a < b, a == b or a > b. */
  lemma CompareIntegers(fp: FloatOps, w: ValueWrapper, withValue: JObject, a: int, b: int)
    requires IntOperands(fp, w, withValue, a, b)
    ensures NumCompare(fp, w, withValue).Ok?
    ensures NumCompare(fp, w, withValue).value < 0 <==> a < b
    ensures NumCompare(fp, w, withValue).value == 0 <==> a == b
    ensures NumCompare(fp, w, withValue).value > 0 <==> a > b
  {
    assert DetermineType(fp, withValue) == Ok(INTEGER);
    assert GetIntegerValue(fp, w.value) == Ok(a);
  }

  /** A null stored value counts as 0 in a comparison. */
  lemma NullComparesAsZero(fp: FloatOps, withValue: JObject, b: int)
    requires withValue.Some? && ParseInt(ToStr(fp, withValue.value)) == Some(b)
    ensures NumCompare(fp, ValueWrapper(None, INTEGER), withValue) == Ok(CompareInts(0, b))
  {
    assert DetermineType(fp, withValue) == Ok(INTEGER);
  }

  /** Text of an int makes an INTEGER wrapper that keeps the text itself as its value. */
  lemma NewFromIntText(fp: FloatOps, n: int)
    requires IsInt32(n)
    ensures New(fp, Some(JStr(IntToString(n)))) == Ok(ValueWrapper(Some(JStr(IntToString(n))), INTEGER))
  {
    ParseIntToString(n);
  }

  /**
   * The tag is never updated: an INTEGER wrapper incremented by a double argument holds a
   * Double from then on, and still says INTEGER.
   */
  lemma TagSurvivesDoubleResult(fp: FloatOps, w: ValueWrapper, argument: JObject, oper: Operation)
    requires w.kind == INTEGER && DetermineType(fp, argument) == Ok(DOUBLE)
    requires Apply(fp, w, argument, oper).Ok?
    ensures Apply(fp, w, argument, oper).value.kind == INTEGER
    ensures Apply(fp, w, argument, oper).value.value.value.JDouble?
  {
  }

  /** Two Integers are equal exactly when their values are. */
  lemma IntegersEqualByValue(w: ValueWrapper, a: int, b: int)
    requires w.value == Some(JInt(a)) && IsInt32(a) && IsInt32(b)
    ensures Equals(w, Some(JInt(b))) == Ok(a == b)
  {
  }

  /**
   * equals compares hash codes only, so an Integer equals every one-character String whose
   * character code is that Integer: the Integer 97 equals the String "a".
   */
  lemma EqualsIsHashEquality(w: ValueWrapper, n: int, c: char)
    requires w.value == Some(JInt(n)) && IsInt32(n)
    ensures Equals(w, Some(JStr([c]))) == Ok(n == c as int)
  {
    assert [c][..0] == [];
    assert StringHash([c]) == Wrap32(c as int) == c as int;
  }
}
