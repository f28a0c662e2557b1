/**
 * The typed values a configuration line carries (ConfigVarType and
 * ConfigData in the C sources) and the variables handed to the store.
 */
module Values {
  import opened Chars
  import Decimal

  /**
   * ConfigVarType. Its numeric encoding lives in config.h, which is not part
   * of this model; `Undefined` stands for the 0 a fresh parse starts with.
   */
  datatype VarType = Undefined | Integer | Real | String

  /**
   * One scalar. A real is kept as the two digit strings around its decimal
   * point rather than as the double `strtod` would produce from them.
   */
  datatype Value = Int(n: int) | RealLit(whole: string, frac: string) | Str(s: string)

  function TypeOf(v: Value): VarType {
    match v
    case Int(_) => Integer
    case RealLit(_, _) => Real
    case Str(_) => String
  }

  /** A scalar the line parser can produce (its strings come from a C string, so hold no NUL). */
  predicate WellFormed(v: Value) {
    match v
    case Int(n) => 0 <= n <= Decimal.LLONG_MAX
    case RealLit(w, f) => |w| > 0 && AllDigits(w) && |f| > 0 && AllDigits(f)
    case Str(s) => '\0' !in s
  }

  /** A non-empty sequence of well-formed scalars, all of type `t`. */
  predicate Homogeneous(t: VarType, vs: seq<Value>) {
    && |vs| > 0
    && t != Undefined
    && forall i | 0 <= i < |vs| :: TypeOf(vs[i]) == t && WellFormed(vs[i])
  }

  /** ConfigVariable without its name: the part the store keeps under a key. */
  datatype Variable = Variable(vtype: VarType, values: seq<Value>)
}
