/** Values that flow through the stats engine: parsed field values, the result of
    parseFloat, and the metric values the engine reports. */
module Values {

  datatype Option<T> = None | Some(value: T) {
    function GetOr(default: T): T {
      if Some? then value else default
    }
  }

  /** A field of a stat record, already parsed: the "NA" sentinel, a missing value
      (undefined or null), or a number. A field name missing from a record's map
      means the record has no such own property; `Absent` means the property exists
      but holds no value. */
  datatype Value = NA | Absent | Num(x: real)

  /** The field map of one stat record, or of one projection of it. */
  type Fields = map<string, Value>

  /** Reading `obj[key]`: a missing property reads as undefined. */
  function Field(f: Fields, key: string): Value
  {
    if key in f then f[key] else Absent
  }

  /** A JavaScript number as parseFloat returns it: a finite value or NaN. */
  datatype Float = Finite(v: real) | NaN

  /** parseFloat of a field value: the sentinel "NA" and undefined both give NaN. */
  function ParseFloat(s: Value): Float
  {
    match s
    case Num(x) => Finite(x)
    case _ => NaN
  }

  /** JavaScript `a != b` on numbers: NaN differs from everything, itself included. */
  predicate FloatNe(a: Float, b: Float) {
    !(a.Finite? && b.Finite? && a.v == b.v)
  }

  /** What a metric evaluates to: undefined, the empty string, the decimal text of
      a number, or the text "NaN". */
  datatype Metric = Undefined | Empty | Number(n: real) | NotANumber

  /** Math.round: the nearest integer, halves rounded towards +infinity. */
  function Round(x: real): (r: int)
    ensures x - 1.0 / 2.0 < r as real <= x + 1.0 / 2.0
  {
    (x + 1.0 / 2.0).Floor
  }

  function Abs(x: real): (r: real)
    ensures r >= 0.0 && (r == x || r == -x)
  {
    if x < 0.0 then -x else x
  }
}
