/**
 * What the core takes from the JavaScript runtime, passed in as data:
 * `Date.parse`, `Date.prototype.toISOString`, `String(number)` and the
 * `hostname` of `new URL(..)`. The predicates below state the facts about
 * these functions that the lemmas of the other modules rely on.
 */
module Runtime {
  import opened Wrappers
  import opened Strings

  /** The largest magnitude of a time value, 8.64e15 ms (section 21.4.1.1 of ECMA-262). */
  const MaxTime: int := 8_640_000_000_000_000

  predicate InTimeRange(t: int) {
    -MaxTime <= t <= MaxTime
  }

  /** The value below which `Number.prototype.toString` writes integers in plain decimal: 1e21. */
  const DecimalLimit: int := 1_000_000_000_000_000_000_000

  datatype Platform = Platform(
    /** `Date.parse`: `None` stands for `NaN`. */
    parseDate: string -> Option<int>,
    /** `new Date(t).toISOString()`. */
    isoString: int -> string,
    /** `String(n)` for a JavaScript number. */
    numberString: real -> string,
    /** `new URL(s).hostname`: `None` when the constructor throws. */
    urlHostname: string -> Option<string>)

  /** `Date.parse` yields only time values in range, and reads back every ISO rendering. */
  ghost predicate DatesCoherent(p: Platform) {
    && (forall s :: p.parseDate(s).Some? ==> InTimeRange(p.parseDate(s).value))
    && (forall t :: InTimeRange(t) ==> p.parseDate(p.isoString(t)) == Some(t))
  }

  /** `String(n)` renders integers below 1e21 in magnitude in plain decimal. */
  ghost predicate IntegersInDecimal(p: Platform) {
    forall i: int :: -DecimalLimit < i < DecimalLimit ==> p.numberString(i as real) == IntToString(i)
  }

  /** A JSON scalar accepted where the source's schemas say `string | number`. */
  datatype Scalar = Str(s: string) | Num(n: real)

  /** `String(x)` for a string or a number. */
  function ScalarString(x: Scalar, p: Platform): string {
    match x
    case Str(s) => s
    case Num(n) => p.numberString(n)
  }
}
