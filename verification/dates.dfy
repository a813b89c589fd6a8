/**
 * `toIsoDate`: Hostaway writes dates as `"2020-08-21 22:45:14"`; the helper
 * turns them into ISO 8601 by a textual rewrite, parses, and renders the
 * instant with `toISOString`, falling back to the current instant or `""`.
 */
module Dates {
  import opened Wrappers
  import opened Strings
  import opened Runtime

  /** Whether the source treats a string as already ISO-like: it contains `T` or ends in `Z`. */
  predicate LooksIso(s: string) {
    'T' in s || EndsWith(s, "Z")
  }

  /**
   * The text handed to `Date.parse`: unchanged when already ISO-like, else
   * the first space becomes `T` and a `Z` (UTC) is appended.
   */
  function Rewrite(s: string): (r: string)
    ensures LooksIso(r)
    ensures LooksIso(s) ==> r == s
    ensures !LooksIso(s) ==> |r| == |s| + 1 && r[|s|] == 'Z'
    ensures !LooksIso(s) && ' ' !in s ==> r[..|s|] == s
    ensures !LooksIso(s) && ' ' in s ==>
      var k := FirstIndex(s, ' ');
      r[k] == 'T' && r[..k] == s[..k] && r[k + 1..|s|] == s[k + 1..]
  {
    if LooksIso(s) then s
    else
      var r := ReplaceFirst(s, ' ', 'T') + "Z";
      assert r[..|s|] == ReplaceFirst(s, ' ', 'T');
      assert EndsWith(r, "Z");
      r
  }

  /** Rewriting is idempotent: its output is already ISO-like. */
  lemma RewriteIdempotent(s: string)
    ensures Rewrite(Rewrite(s)) == Rewrite(s)
  {
  }

  /**
   * Hostaway's `date time` form, as in `"2020-08-21 22:45:14"`: the space
   * becomes `T` and `Z` is appended, giving `"2020-08-21T22:45:14Z"`.
   */
  lemma {:induction false} RewriteDateTime(date: string, time: string)
    requires 'T' !in date && 'T' !in time && ' ' !in date
    requires |time| > 0 && time[|time| - 1] != 'Z'
    ensures Rewrite(date + " " + time) == date + "T" + time + "Z"
  {
    var s := date + " " + time;
    assert s[|s| - 1] == time[|time| - 1];
    assert 'T' !in s;
    assert s[..|date|] == date;
    assert s[|date|] == ' ';
    var k := FirstIndex(s, ' ');
    assert k == |date|;
    assert s[k + 1..] == time;
  }

  /** The result used when there is no usable date: the current instant, or `""`. */
  function Fallback(fallbackNow: bool, p: Platform, now: int): string {
    if fallbackNow then p.isoString(now) else ""
  }

  /** Whether the input is a string with a non-blank character. */
  predicate Usable(input: Option<string>) {
    input.Some? && |Trim(input.value)| > 0
  }

  /**
   * `toIsoDate(input, fallbackNow)` with the clock reading `now`. The input
   * is `None` when it is not a string (the normaliser passes a string or
   * `undefined`).
   */
  function ToIsoDate(input: Option<string>, fallbackNow: bool, p: Platform, now: int): (r: string)
    ensures !Usable(input) ==> r == Fallback(fallbackNow, p, now)
    ensures Usable(input) && p.parseDate(Rewrite(input.value)).None? ==> r == Fallback(fallbackNow, p, now)
    ensures Usable(input) && p.parseDate(Rewrite(input.value)).Some? ==>
      r == p.isoString(p.parseDate(Rewrite(input.value)).value)
  {
    if Usable(input) then
      match p.parseDate(Rewrite(input.value))
      case Some(t) => p.isoString(t)
      case None => Fallback(fallbackNow, p, now)
    else Fallback(fallbackNow, p, now)
  }

  /** A date that parses keeps its instant: reading the result back gives the same time value. */
  lemma ToIsoDatePreservesInstant(input: Option<string>, fallbackNow: bool, p: Platform, now: int)
    requires DatesCoherent(p)
    requires Usable(input) && p.parseDate(Rewrite(input.value)).Some?
    ensures p.parseDate(ToIsoDate(input, fallbackNow, p, now)) == p.parseDate(Rewrite(input.value))
  {
    var t := p.parseDate(Rewrite(input.value)).value;
    assert InTimeRange(t);
  }

  /** With the default `fallbackNow = true` and a clock in range, the result always parses. */
  lemma ToIsoDateParses(input: Option<string>, p: Platform, now: int)
    requires DatesCoherent(p)
    requires InTimeRange(now)
    ensures p.parseDate(ToIsoDate(input, true, p, now)).Some?
  {
    if Usable(input) && p.parseDate(Rewrite(input.value)).Some? {
      ToIsoDatePreservesInstant(input, true, p, now);
    } else {
      assert p.parseDate(p.isoString(now)) == Some(now);
    }
  }

  /** The result does not depend on the clock when the input is a usable date. */
  lemma ToIsoDateClockFree(input: Option<string>, fallbackNow: bool, p: Platform, now1: int, now2: int)
    requires Usable(input) && p.parseDate(Rewrite(input.value)).Some?
    ensures ToIsoDate(input, fallbackNow, p, now1) == ToIsoDate(input, fallbackNow, p, now2)
  {
  }
}
