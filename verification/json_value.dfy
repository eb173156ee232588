/**
 * The JavaScript values the rollup engine reads and writes: parsed JSON (configuration,
 * trigger payloads, child records, response bodies) plus `undefined` and `Date`.
 */
module JsonValue {
  import opened Wrappers

  /**
   * A JavaScript value. Numbers are exact reals (JavaScript doubles without rounding
   * error, NaN or infinities); a Date is its epoch-millisecond timestamp.
   */
  datatype Value =
    | Undef
    | Null
    | Bool(b: bool)
    | Num(n: real)
    | Str(s: string)
    | DateV(ms: int)
    | Arr(items: seq<Value>)
    | Obj(fields: map<string, Value>)

  /** `typeof v === 'object' && v !== null`: true of arrays and dates as well as plain objects. */
  predicate IsObject(v: Value) {
    v.Arr? || v.Obj? || v.DateV?
  }

  /** JavaScript truthiness (`Boolean(v)`). */
  predicate Truthy(v: Value)
    ensures Truthy(v) ==> v != Undef && v != Null && v != Bool(false) && v != Num(0.0) && v != Str("")
  {
    match v
    case Undef => false
    case Null => false
    case Bool(b) => b
    case Num(n) => n != 0.0
    case Str(s) => s != ""
    case _ => true
  }

  /**
   * Property read `v[key]`: a plain object's own field, `undefined` for everything else
   * (arrays' own `length` and index properties are not modelled).
   */
  function Prop(v: Value, key: string): (r: Value)
    ensures r != Undef ==> v.Obj? && key in v.fields && r == v.fields[key]
  {
    if v.Obj? && key in v.fields then v.fields[key] else Undef
  }

  /** The characters `String.prototype.trim` removes: ECMAScript WhiteSpace and LineTerminator. */
  predicate IsWhiteSpace(c: char) {
    || c == '\t' || c == '\n' || c == '\U{B}' || c == '\U{C}' || c == '\r' || c == ' '
    || c == '\U{A0}' || c == '\U{1680}' || ('\U{2000}' <= c <= '\U{200A}')
    || c == '\U{2028}' || c == '\U{2029}' || c == '\U{202F}' || c == '\U{205F}'
    || c == '\U{3000}' || c == '\U{FEFF}'
  }

  /** `s.trim().length === 0`. */
  predicate IsBlank(s: string) {
    forall i :: 0 <= i < |s| ==> IsWhiteSpace(s[i])
  }

  /** `typeof v === 'string' && v.trim().length > 0`. */
  predicate NonBlankString(v: Value) {
    v.Str? && !IsBlank(v.s)
  }

  /**
   * Strict equality `a === b` between two values that come from different sources
   * (a child record and the configuration): primitives compare by value, while objects,
   * arrays and dates are distinct references and never compare equal.
   */
  predicate StrictEquals(a: Value, b: Value) {
    a == b && !IsObject(a)
  }

  /**
   * The JavaScript built-ins whose internals are not modelled:
   * `Number(s)` (None when the result is NaN), `Date.parse(s)` (None when NaN)
   * and `new Date(ms).toISOString()`.
   */
  datatype Host = Host(
    numberOf: string -> Option<real>,
    dateParse: string -> Option<int>,
    isoString: int -> string)

  /**
   * What the engine relies on of the built-ins: an ISO-8601 timestamp is not a number
   * and parses back to the instant it was printed from.
   */
  ghost predicate IsoRoundTrips(host: Host) {
    forall ms: int {:trigger host.isoString(ms)} ::
      host.numberOf(host.isoString(ms)) == None && host.dateParse(host.isoString(ms)) == Some(ms)
  }
}
