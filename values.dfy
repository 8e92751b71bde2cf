/**
 * The Java objects the interpreter moves around (Integer, Double, String), and the
 * floating-point behaviour of the platform, which the model takes as a parameter.
 */
module Values {
  import opened Base
  import opened JavaNumbers

  /** A Java `double`, as its IEEE-754 bit pattern; the model never computes with it itself. */
  type Double = bv64

  /** +0.0, the value a null operand takes in double arithmetic. */
  const POSITIVE_ZERO: Double := 0

  /**
   * The platform's floating-point operations, left uninterpreted: every lemma about the
   * model holds whatever these functions are.
   */
  datatype FloatOps = FloatOps(
    parse: string -> Double,             // Double.parseDouble on text IsDoubleText accepts
    show: Double -> string,              // Double.toString
    add: (Double, Double) -> Double,
    sub: (Double, Double) -> Double,
    mul: (Double, Double) -> Double,
    div: (Double, Double) -> Double,
    compare: (Double, Double) -> int,    // Double.compareTo
    sinDegrees: Double -> Double,        // Math.sin(x * Math.PI / 180)
    validPattern: string -> bool,        // new DecimalFormat(p) does not throw
    decimalFormat: (string, Obj) -> string  // new DecimalFormat(p).format(v), for a number v
  )

  /** A non-null Java object of the kinds the interpreter handles. */
  datatype Obj = JInt(i: int) | JDouble(d: Double) | JStr(s: string)

  /** A Java reference: None is null. */
  type JObject = Option<Obj>

  /** Object.toString for the three kinds. */
  function ToStr(fp: FloatOps, o: Obj): string {
    match o
    case JInt(i) => IntToString(i)
    case JDouble(d) => fp.show(d)
    case JStr(s) => s
  }

  /** toString on a reference: a NullPointerException on null. */
  function RefToStr(fp: FloatOps, o: JObject): (r: Result<string>)
    ensures r.Err? <==> o.None?
    ensures r.Err? ==> r.error == NullPointerException
    ensures o.Some? && o.value.JStr? ==> r == Ok(o.value.s)
  {
    match o
    case None => Err(NullPointerException)
    case Some(v) => Ok(ToStr(fp, v))
  }
}
