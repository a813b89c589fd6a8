/**
 * `mapChannelId`: the upstream channel id, rendered with `String(..)`, looked
 * up in a three-entry table; anything else is `unknown`.
 *
 * The source looks the key up on a plain object literal, so a key naming a
 * property inherited from `Object.prototype` yields that property instead of
 * `undefined`. `MapChannelIdAsWritten` keeps that behaviour and is the one
 * the normaliser uses; `MapChannelId` is the own-property lookup the table
 * is evidently meant to be.
 */
module ChannelMap {
  import opened Wrappers
  import opened Strings
  import opened Runtime
  import opened Domain

  const Table: map<string, Channel> := map["1" := Airbnb, "2" := Booking, "3" := Vrbo]

  /** The properties every plain object inherits from `Object.prototype`. */
  const InheritedNames: set<string> :=
    {"__proto__", "constructor", "hasOwnProperty", "isPrototypeOf", "propertyIsEnumerable",
     "toLocaleString", "toString", "valueOf", "__defineGetter__", "__defineSetter__",
     "__lookupGetter__", "__lookupSetter__"}

  /** The channel for an upstream id: a table entry, or `unknown` for a missing or unlisted id. */
  function MapChannelId(channelId: Option<Scalar>, p: Platform): (r: Channel)
    ensures r != Direct
    ensures channelId.None? ==> r == Unknown
    ensures channelId.Some? && ScalarString(channelId.value, p) in Table ==> r == Table[ScalarString(channelId.value, p)]
    ensures channelId.Some? && ScalarString(channelId.value, p) !in Table ==> r == Unknown
  {
    if channelId.None? then Unknown
    else
      var key := ScalarString(channelId.value, p);
      if key in Table then Table[key] else Unknown
  }

  /**
   * The lookup as the source writes it: `None` stands for an inherited
   * `Object.prototype` member, a function or object that is not a channel name.
   */
  function MapChannelIdAsWritten(channelId: Option<Scalar>, p: Platform): (r: Option<Channel>)
    ensures r.None? <==> channelId.Some? && ScalarString(channelId.value, p) in InheritedNames
    ensures r.Some? ==> r.value == MapChannelId(channelId, p)
  {
    if channelId.None? then Some(Unknown)
    else
      var key := ScalarString(channelId.value, p);
      if key in Table then Some(Table[key])
      else if key in InheritedNames then None
      else Some(Unknown)
  }

  /** The id `"toString"` reaches an inherited method instead of `unknown`, which the review schema's channel enum rejects. */
  lemma InheritedKeyIsNotAChannel(p: Platform)
    ensures MapChannelIdAsWritten(Some(Str("toString")), p).None?
    ensures MapChannelIdAsWritten(Some(Str("__proto__")), p).None?
    ensures forall name :: ParseChannel(name).Some? ==> name !in InheritedNames
    ensures MapChannelId(Some(Str("toString")), p) == Unknown
  {
    forall name | ParseChannel(name).Some?
      ensures name !in InheritedNames
    {
      assert ChannelName(ParseChannel(name).value) == name;
    }
  }

  /** Exactly `"1"`, `"2"` and `"3"` name the three known channels. */
  lemma ChannelOfString(s: string, p: Platform)
    ensures MapChannelId(Some(Str(s)), p) == Airbnb <==> s == "1"
    ensures MapChannelId(Some(Str(s)), p) == Booking <==> s == "2"
    ensures MapChannelId(Some(Str(s)), p) == Vrbo <==> s == "3"
    ensures MapChannelId(Some(Str(s)), p) == Unknown <==> s !in Table
  {
  }

  /** A number and its decimal string map to the same channel. */
  lemma NumberLikeString(i: int, p: Platform)
    requires IntegersInDecimal(p)
    requires -DecimalLimit < i < DecimalLimit
    ensures MapChannelId(Some(Num(i as real)), p) == MapChannelId(Some(Str(IntToString(i))), p)
  {
  }

  /** An integral id maps to airbnb, booking or vrbo exactly when it is 1, 2 or 3. */
  lemma {:induction false} ChannelOfInteger(i: int, p: Platform)
    requires IntegersInDecimal(p)
    requires -DecimalLimit < i < DecimalLimit
    ensures MapChannelId(Some(Num(i as real)), p) == Airbnb <==> i == 1
    ensures MapChannelId(Some(Num(i as real)), p) == Booking <==> i == 2
    ensures MapChannelId(Some(Num(i as real)), p) == Vrbo <==> i == 3
  {
    var s := IntToString(i);
    assert p.numberString(i as real) == s;
    assert IntToString(1) == "1" && IntToString(2) == "2" && IntToString(3) == "3";
    if s == "1" { IntToStringInjective(i, 1); }
    if s == "2" { IntToStringInjective(i, 2); }
    if s == "3" { IntToStringInjective(i, 3); }
  }

  /** The cases the normaliser's tests exercise: `1` is airbnb, `999` and junk are unknown. */
  lemma TestedChannels(p: Platform)
    requires IntegersInDecimal(p)
    ensures MapChannelId(Some(Num(1.0)), p) == Airbnb
    ensures MapChannelId(Some(Num(999.0)), p) == Unknown
    ensures MapChannelId(Some(Str("999")), p) == Unknown
    ensures MapChannelId(Some(Str("abc")), p) == Unknown
    ensures MapChannelId(None, p) == Unknown
  {
    assert p.numberString(1 as real) == IntToString(1) == "1";
    assert p.numberString(999 as real) == IntToString(999);
    assert IntToString(999) == "999";
  }
}
