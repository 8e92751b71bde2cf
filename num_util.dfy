/** Try-parse predicates and a parse-or-zero conversion (src/hr/fer/zemris/util/NumUtil.java). */
module NumUtil {
  import opened Base
  import opened JavaNumbers
  import opened Values

  /** Holds exactly when Integer.parseInt accepts `s`. */
  predicate IsInteger(s: string) {
    ParseInt(s).Some?
  }

  /** Holds exactly when Double.parseDouble accepts `s`. */
  predicate IsDouble(s: string) {
    IsDoubleText(s)
  }

  /**
   * The value parsed as an int, 0 when toString does not parse; a null argument throws,
   * since only NumberFormatException is caught.
   */
  function GetInt(fp: FloatOps, value: JObject): (r: Result<int>)
    ensures value.None? <==> r.Err?
    ensures r.Err? ==> r.error == NullPointerException
    ensures r.Ok? ==> IsInt32(r.value)
    ensures r.Ok? && IsInteger(ToStr(fp, value.value)) ==> ParseInt(ToStr(fp, value.value)) == Some(r.value)
    ensures r.Ok? && !IsInteger(ToStr(fp, value.value)) ==> r.value == 0
  {
    match value
    case None => Err(NullPointerException)
    case Some(o) =>
      match ParseInt(ToStr(fp, o))
      case Some(n) => Ok(n)
      case None => Ok(0)
  }

  /** An Integer object converts back to its own value. */
  lemma GetIntOfInteger(fp: FloatOps, n: int)
    requires IsInt32(n)
    ensures GetInt(fp, Some(JInt(n))) == Ok(n)
  {
    ParseIntToString(n);
  }
}
