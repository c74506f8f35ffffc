/** JSON values as the engine handles them after `JSON.parse`, together with the
    JavaScript operators the engine applies to them: truthiness, strict equality,
    the `in` operator / `for…in` enumeration, and numeric conversion. */
module Json {

  datatype JVal =
    | JUndefined                    // reading a property that is not there; JSON.parse never produces it
    | JNull
    | JBool(b: bool)
    | JNum(n: real)
    | JStr(s: string)
    | JArr(items: seq<JVal>)
    | JObj(props: map<string, JVal>)

  /** A parsed JSON object, such as a received frame or a status-report fragment. */
  type Object = map<string, JVal>

  /** `!!v` */
  predicate Truthy(v: JVal) {
    match v
    case JUndefined => false
    case JNull => false
    case JBool(b) => b
    case JNum(n) => n != 0.0
    case JStr(s) => s != ""
    case JArr(_) => true
    case JObj(_) => true
  }

  predicate IsComposite(v: JVal) {
    v.JArr? || v.JObj?
  }

  /** `a === b`. Arrays and objects compare by identity, and every composite the engine
      compares comes from a separate `JSON.parse`, so two composites are never identical. */
  predicate StrictEq(a: JVal, b: JVal) {
    !IsComposite(a) && !IsComposite(b) && a == b
  }

  /** `o[k]` on an object: undefined when the key is missing. */
  function Get(o: Object, k: string): (v: JVal)
    ensures k !in o ==> v == JUndefined
    ensures k in o ==> v == o[k]
  {
    if k in o then o[k] else JUndefined
  }

  /** The enumerable own properties of a value, as seen by `for…in` and by `k in v`.
      Only objects contribute; array indices and string characters are not modelled. */
  function Props(v: JVal): Object {
    if v.JObj? then v.props else map[]
  }

  /** Whether `k in v` can be evaluated at all: on a primitive it throws a TypeError. */
  predicate SupportsIn(v: JVal) {
    IsComposite(v)
  }

  /** A JavaScript number: a finite value or NaN. */
  datatype Number = Finite(value: real) | NaN

  /** `+v` for the values the engine converts. Strings and composites become NaN; the
      conversion of numeric strings and of one-element arrays is not modelled. */
  function ToNumber(v: JVal): (r: Number)
    ensures v.JNum? ==> r == Finite(v.n)
    ensures IsComposite(v) ==> r == NaN
  {
    match v
    case JUndefined => NaN
    case JNull => Finite(0.0)
    case JBool(b) => Finite(if b then 1.0 else 0.0)
    case JNum(n) => Finite(n)
    case JStr(_) => NaN
    case JArr(_) => NaN
    case JObj(_) => NaN
  }

  /** `v - 1` */
  function MinusOne(v: JVal): (r: Number)
    ensures v.JNum? ==> r == Finite(v.n - 1.0)
  {
    match ToNumber(v)
    case Finite(x) => Finite(x - 1.0)
    case NaN => NaN
  }
}
