/**
 * The Hostaway normaliser: a loose intake parse of one upstream record, the
 * field mappings into a candidate review, and the final schema check; and
 * the batch variant that drops every record the single one rejects.
 */
module Normalize {
  import opened Wrappers
  import opened Strings
  import opened Seqs
  import opened Runtime
  import opened Domain
  import opened ChannelMap
  import opened Dates
  import Json

  // ---------------------------------------------------------------------
  // Intake: the permissive upstream shape

  datatype CategoryItem = CategoryItem(category: Option<string>, rating: Option<real>)

  /**
   * An upstream record after the intake parse. `None` is an absent key, and
   * for the three nullable keys also `null`; the source turns both into
   * `null` with `??` before using them.
   */
  datatype HostawayReview = HostawayReview(
    id: Option<Scalar>,
    listingMapId: Option<Scalar>,
    listingId: Option<Scalar>,
    listingName: Option<string>,
    reviewType: Option<string>,
    channelId: Option<Scalar>,
    status: Option<string>,
    rating: Option<real>,
    publicReview: Option<string>,
    privateFeedback: Option<string>,
    submittedAt: Option<string>,
    departureDate: Option<string>,
    guestName: Option<string>,
    reservationId: Option<Scalar>,
    reviewCategory: Option<seq<CategoryItem>>)

  /** The per-record context the source reads from the environment: the clock and a random token. */
  datatype Ambient = Ambient(now: int, token: string)

  /** Why a record is rejected: the intake parse failed, or the canonical schema did. */
  datatype NormalizeError = IntakeRejected | SchemaRejected(issues: seq<SchemaIssue>)

  type Fields = map<string, Json.Value>

  function AsScalar(v: Json.Value): (r: Option<Scalar>)
    ensures r.Some? <==> v.Str? || v.Num?
    ensures r.Some? ==> ScalarJson(r.value) == v
  {
    match v
    case Str(s) => Some(Str(s))
    case Num(n) => Some(Num(n))
    case _ => None
  }

  function ScalarJson(x: Scalar): Json.Value {
    match x
    case Str(s) => Json.Str(s)
    case Num(n) => Json.Num(n)
  }

  /** `z.union([z.string(), z.number()]).optional()` */
  predicate ScalarOk(f: Fields, k: string) { k !in f || f[k].Str? || f[k].Num? }

  /** `z.string().optional()` */
  predicate StringOk(f: Fields, k: string) { k !in f || f[k].Str? }

  /** `z.number().optional()` */
  predicate NumberOk(f: Fields, k: string) { k !in f || f[k].Num? }

  /** `z.string().nullable().optional()` */
  predicate NullableStringOk(f: Fields, k: string) { k !in f || f[k].Str? || f[k].Null? }

  /** `z.number().nullable().optional()` */
  predicate NullableNumberOk(f: Fields, k: string) { k !in f || f[k].Num? || f[k].Null? }

  predicate CategoryItemOk(v: Json.Value) {
    v.Obj? && StringOk(v.fields, "category") && NumberOk(v.fields, "rating")
  }

  /** `z.array(z.object({category: z.string().optional(), rating: z.number().optional()})).optional()` */
  predicate CategoriesOk(f: Fields, k: string) {
    k !in f || (f[k].Arr? && forall i :: 0 <= i < |f[k].items| ==> CategoryItemOk(f[k].items[i]))
  }

  /** Every key of `HostawayReviewLike` holds a value of its declared type. */
  predicate WellShaped(f: Fields) {
    && ScalarOk(f, "id")
    && ScalarOk(f, "listingMapId")
    && ScalarOk(f, "listingId")
    && StringOk(f, "listingName")
    && StringOk(f, "type")
    && ScalarOk(f, "channelId")
    && StringOk(f, "status")
    && NullableNumberOk(f, "rating")
    && NullableStringOk(f, "publicReview")
    && NullableStringOk(f, "privateFeedback")
    && StringOk(f, "submittedAt")
    && StringOk(f, "departureDate")
    && StringOk(f, "guestName")
    && ScalarOk(f, "reservationId")
    && CategoriesOk(f, "reviewCategory")
  }

  function GetScalar(f: Fields, k: string): (r: Option<Scalar>)
    requires ScalarOk(f, k)
    ensures r.None? <==> k !in f
    ensures r.Some? ==> f[k] == ScalarJson(r.value)
  {
    if k in f then AsScalar(f[k]) else None
  }

  function GetString(f: Fields, k: string): (r: Option<string>)
    requires StringOk(f, k)
    ensures r.None? <==> k !in f
    ensures r.Some? ==> f[k] == Json.Str(r.value)
  {
    if k in f then Some(f[k].s) else None
  }

  function GetNumber(f: Fields, k: string): (r: Option<real>)
    requires NumberOk(f, k)
    ensures r.None? <==> k !in f
    ensures r.Some? ==> f[k] == Json.Num(r.value)
  {
    if k in f then Some(f[k].n) else None
  }

  function GetNullableString(f: Fields, k: string): (r: Option<string>)
    requires NullableStringOk(f, k)
    ensures r.None? <==> k !in f || f[k] == Json.Null
    ensures r.Some? ==> f[k] == Json.Str(r.value)
  {
    if k in f && f[k].Str? then Some(f[k].s) else None
  }

  function GetNullableNumber(f: Fields, k: string): (r: Option<real>)
    requires NullableNumberOk(f, k)
    ensures r.None? <==> k !in f || f[k] == Json.Null
    ensures r.Some? ==> f[k] == Json.Num(r.value)
  {
    if k in f && f[k].Num? then Some(f[k].n) else None
  }

  function GetCategoryItem(v: Json.Value): (r: CategoryItem)
    requires CategoryItemOk(v)
    ensures r.category.None? <==> "category" !in v.fields
    ensures r.rating.None? <==> "rating" !in v.fields
  {
    CategoryItem(GetString(v.fields, "category"), GetNumber(v.fields, "rating"))
  }

  function GetCategories(f: Fields, k: string): (r: Option<seq<CategoryItem>>)
    requires CategoriesOk(f, k)
    ensures r.None? <==> k !in f
    ensures r.Some? ==> (|r.value| == |f[k].items|
      && forall i :: 0 <= i < |r.value| ==> r.value[i] == GetCategoryItem(f[k].items[i]))
  {
    if k in f then
      var items := f[k].items;
      Some(seq(|items|, i requires 0 <= i < |items| => GetCategoryItem(items[i])))
    else None
  }

  function Extract(f: Fields): HostawayReview
    requires WellShaped(f)
  {
    HostawayReview(
      GetScalar(f, "id"), GetScalar(f, "listingMapId"), GetScalar(f, "listingId"),
      GetString(f, "listingName"), GetString(f, "type"), GetScalar(f, "channelId"),
      GetString(f, "status"), GetNullableNumber(f, "rating"),
      GetNullableString(f, "publicReview"), GetNullableString(f, "privateFeedback"),
      GetString(f, "submittedAt"), GetString(f, "departureDate"), GetString(f, "guestName"),
      GetScalar(f, "reservationId"), GetCategories(f, "reviewCategory"))
  }

  /** `HostawayReviewLike.parse`: an object whose known keys are all well typed; other keys pass through. */
  function IntakeParse(v: Json.Value): (r: Result<HostawayReview, NormalizeError>)
    ensures r.Success? <==> v.Obj? && WellShaped(v.fields)
    ensures r.Failure? ==> r.error == IntakeRejected
    ensures r.Success? ==> r.value == Extract(v.fields)
  {
    if v.Obj? && WellShaped(v.fields) then Success(Extract(v.fields)) else Failure(IntakeRejected)
  }

  // ---------------------------------------------------------------------
  // Field mappings

  /** `mapType`: guest-to-host exactly when the lower-cased input is `"guest-to-host"`. */
  function MapType(input: Option<string>): (r: ReviewType)
    ensures r == GuestToHost <==> Lower(input.GetOr("")) == "guest-to-host"
  {
    if Lower(input.GetOr("")) == "guest-to-host" then GuestToHost else HostToGuest
  }

  /** `mapStatus`: the lower-cased input when it names a status; nothing for an empty or other input. */
  function MapStatus(status: Option<string>): (r: Option<Status>)
    ensures status.None? || status.value == "" ==> r.None?
    ensures r.Some? ==> StatusName(r.value) == Lower(status.value)
    ensures forall t :: status.Some? && Lower(status.value) == StatusName(t) ==> r == Some(t)
  {
    if status.None? || status.value == "" then None else ParseStatus(Lower(status.value))
  }

  /** Both mappings ignore case: the input and its lower-cased form map alike. */
  lemma MappingsIgnoreCase(s: string)
    ensures MapType(Some(s)) == MapType(Some(Lower(s)))
    ensures MapStatus(Some(s)) == MapStatus(Some(Lower(s)))
  {
    LowerIdempotent(s);
  }

  /** `makeCanonicalId`: `prefix:` and the upstream id, or `prefix:local_` and a random token. */
  function MakeCanonicalId(prefix: string, externalId: Option<Scalar>, p: Platform, token: string): (r: string)
    ensures |r| > |prefix| && r[..|prefix| + 1] == prefix + ":"
  {
    match externalId
    case Some(x) => prefix + ":" + ScalarString(x, p)
    case None => prefix + ":local_" + token
  }

  /** With an upstream id the canonical id is that id behind the prefix, whatever the token. */
  lemma CanonicalIdOfUpstream(prefix: string, x: Scalar, p: Platform, token1: string, token2: string)
    ensures MakeCanonicalId(prefix, Some(x), p, token1) == prefix + ":" + ScalarString(x, p)
    ensures MakeCanonicalId(prefix, Some(x), p, token1) == MakeCanonicalId(prefix, Some(x), p, token2)
  {
  }

  /** Without an upstream id the canonical id is `prefix:local_` followed by the token. */
  lemma CanonicalIdLocal(prefix: string, p: Platform, token: string)
    ensures var r := MakeCanonicalId(prefix, None, p, token);
      |r| == |prefix| + 7 + |token| && r[..|prefix| + 7] == prefix + ":local_" && r[|prefix| + 7..] == token
  {
  }

  /** Distinct upstream ids give distinct canonical ids, and the upstream id can be read back. */
  lemma {:induction false} CanonicalIdInjective(prefix: string, a: Scalar, b: Scalar, p: Platform, token: string)
    requires MakeCanonicalId(prefix, Some(a), p, token) == MakeCanonicalId(prefix, Some(b), p, token)
    ensures ScalarString(a, p) == ScalarString(b, p)
  {
    var r := MakeCanonicalId(prefix, Some(a), p, token);
    assert r[|prefix| + 1..] == ScalarString(a, p);
    assert MakeCanonicalId(prefix, Some(b), p, token)[|prefix| + 1..] == ScalarString(b, p);
  }

  /** `String(listingMapId ?? listingId ?? "unknown")`: `??` passes over absent keys only. */
  function ListingKey(raw: HostawayReview, p: Platform): (r: string)
    ensures raw.listingMapId.Some? ==> r == ScalarString(raw.listingMapId.value, p)
    ensures raw.listingMapId.None? && raw.listingId.Some? ==> r == ScalarString(raw.listingId.value, p)
    ensures raw.listingMapId.None? && raw.listingId.None? ==> r == "unknown"
  {
    if raw.listingMapId.Some? then ScalarString(raw.listingMapId.value, p)
    else if raw.listingId.Some? then ScalarString(raw.listingId.value, p)
    else "unknown"
  }

  /** The listing key is empty only when the key chosen is an empty string (numbers never render empty). */
  lemma ListingKeyEmpty(raw: HostawayReview, p: Platform)
    requires forall n :: |p.numberString(n)| > 0
    ensures |ListingKey(raw, p)| == 0 <==>
      (raw.listingMapId == Some(Str("")) || (raw.listingMapId.None? && raw.listingId == Some(Str(""))))
  {
    var chosen := if raw.listingMapId.Some? then raw.listingMapId else raw.listingId;
    if chosen.Some? && chosen.value.Num? {
      assert |p.numberString(chosen.value.n)| > 0;
    }
  }

  /** The date input: `submittedAt ?? departureDate`, so a present empty `submittedAt` wins. */
  function DateInput(raw: HostawayReview): (r: Option<string>)
    ensures raw.submittedAt.Some? ==> r == raw.submittedAt
    ensures raw.submittedAt.None? ==> r == raw.departureDate
  {
    if raw.submittedAt.Some? then raw.submittedAt else raw.departureDate
  }

  // ---------------------------------------------------------------------
  // Categories

  /**
   * The entry an item contributes: its trimmed category and its rating,
   * when the trimmed category is non-empty and the rating is a number.
   * `__proto__` contributes nothing, because assigning a number to it on a
   * plain object does not create a property.
   */
  function Contribution(item: CategoryItem): (r: Option<(string, real)>)
    ensures r.Some? <==> item.category.Some? && |Trim(item.category.value)| > 0
                         && Trim(item.category.value) != "__proto__" && item.rating.Some?
    ensures r.Some? ==> r.value == (Trim(item.category.value), item.rating.value)
  {
    if item.category.Some? && |Trim(item.category.value)| > 0
       && Trim(item.category.value) != "__proto__" && item.rating.Some?
    then Some((Trim(item.category.value), item.rating.value))
    else None
  }

  /** Entry `es[i]` writes `key`. */
  predicate Writes(es: seq<Option<(string, real)>>, i: int, key: string) {
    0 <= i < |es| && es[i].Some? && es[i].value.0 == key
  }

  /** `obj[key] = value` for every entry present, in order, starting from `{}`. */
  function AssignAll(es: seq<Option<(string, real)>>): (m: map<string, real>)
    ensures forall k :: k in m <==> exists i :: Writes(es, i, k)
  {
    if |es| == 0 then map[]
    else
      var init := es[..|es| - 1];
      var m := AssignAll(init);
      assert forall i, k :: Writes(init, i, k) <==> 0 <= i < |es| - 1 && Writes(es, i, k);
      match es[|es| - 1]
      case None => m
      case Some(e) =>
        assert Writes(es, |es| - 1, e.0);
        m[e.0 := e.1]
  }

  /** Entry `i` is the last one writing `key`. */
  predicate LastWriter(es: seq<Option<(string, real)>>, key: string, i: int) {
    Writes(es, i, key) && forall j :: i < j < |es| ==> !Writes(es, j, key)
  }

  /** Every key holds the value of the LAST entry writing it. */
  lemma {:induction false} AssignAllLastWins(es: seq<Option<(string, real)>>, k: string)
    requires k in AssignAll(es)
    ensures exists i :: LastWriter(es, k, i) && AssignAll(es)[k] == es[i].value.1
  {
    var n := |es| - 1;
    var init := es[..n];
    if Writes(es, n, k) {
      assert LastWriter(es, k, n);
    } else {
      assert AssignAll(es)[k] == AssignAll(init)[k];
      AssignAllLastWins(init, k);
      var i :| LastWriter(init, k, i) && AssignAll(init)[k] == init[i].value.1;
      assert es[i] == init[i];
      assert LastWriter(es, k, i) by {
        forall j | i < j < |es|
          ensures !Writes(es, j, k)
        {
          if j < n { assert es[j] == init[j]; assert !Writes(init, j, k); }
        }
      }
    }
  }

  function Contributions(items: seq<CategoryItem>): (es: seq<Option<(string, real)>>)
    ensures |es| == |items|
    ensures forall i :: 0 <= i < |items| ==> es[i] == Contribution(items[i])
  {
    seq(|items|, i requires 0 <= i < |items| => Contribution(items[i]))
  }

  /**
   * The categories dictionary: a key is present exactly when some item
   * contributes it, and holds the rating of the last such item.
   */
  function CollectCategories(items: seq<CategoryItem>): (m: map<string, real>)
    ensures forall k :: k in m <==> exists i :: Writes(Contributions(items), i, k)
  {
    AssignAll(Contributions(items))
  }

  /** A key's value is the rating of the LAST item contributing it. */
  lemma CategoryLastWins(items: seq<CategoryItem>, k: string)
    requires k in CollectCategories(items)
    ensures exists i :: (0 <= i < |items| && LastWriter(Contributions(items), k, i)
      && Contribution(items[i]).Some? && CollectCategories(items)[k] == items[i].rating.value)
  {
    AssignAllLastWins(Contributions(items), k);
  }

  /** Keys are stored trimmed and non-empty; every well-formed item with a numeric rating contributes. */
  lemma CategoryKeys(items: seq<CategoryItem>)
    ensures forall k :: k in CollectCategories(items) ==> |k| > 0 && Trim(k) == k && k != "__proto__"
    ensures forall i :: 0 <= i < |items| && Contribution(items[i]).Some? ==>
      Trim(items[i].category.value) in CollectCategories(items)
  {
    var es := Contributions(items);
    forall k | k in CollectCategories(items)
      ensures |k| > 0 && Trim(k) == k && k != "__proto__"
    {
      var i :| Writes(es, i, k);
      TrimIdempotent(items[i].category.value);
    }
    forall i | 0 <= i < |items| && Contribution(items[i]).Some?
      ensures Trim(items[i].category.value) in CollectCategories(items)
    {
      assert Writes(es, i, Trim(items[i].category.value));
    }
  }

  // ---------------------------------------------------------------------
  // One record

  /** The author: present, with the name only, exactly when `guestName` is non-empty. */
  function AuthorOf(guestName: Option<string>): (r: Option<Author>)
    ensures r.Some? <==> guestName.Some? && |guestName.value| > 0
    ensures r.Some? ==> r.value == Author(guestName, None)
  {
    if guestName.Some? && |guestName.value| > 0 then Some(Author(guestName, None)) else None
  }

  function ExternalIdsOf(raw: HostawayReview, p: Platform): (r: ExternalIds)
    ensures r.reviewId.Some? <==> raw.id.Some?
    ensures r.reservationId.Some? <==> raw.reservationId.Some?
    ensures r.placeId.None?
  {
    ExternalIds(
      if raw.id.Some? then Some(ScalarString(raw.id.value, p)) else None,
      if raw.reservationId.Some? then Some(ScalarString(raw.reservationId.value, p)) else None,
      None)
  }

  /** The channel id renders as the name of an inherited `Object.prototype` member. */
  predicate InheritedChannel(raw: HostawayReview, p: Platform) {
    raw.channelId.Some? && ScalarString(raw.channelId.value, p) in InheritedNames
  }

  /**
   * The candidate handed to the canonical schema. Its channel comes from the
   * table lookup as written, so an inherited name leaves a value that is not
   * a channel at all.
   */
  function Assemble(raw: HostawayReview, p: Platform, amb: Ambient): (c: Candidate)
    ensures c.channel.None? <==> InheritedChannel(raw, p)
    ensures c.channel.Some? ==> c.channel.value == MapChannelId(raw.channelId, p)
    ensures c.source == Hostaway && c.approved == Some(false)
    ensures c.rating == raw.rating && c.text == raw.publicReview && c.privateFeedback == raw.privateFeedback
    ensures c.listingName == raw.listingName
    ensures c.categories == Some(CollectCategories(raw.reviewCategory.GetOr([])))
    ensures c.author == AuthorOf(raw.guestName)
  {
    Candidate(
      MakeCanonicalId("hostaway", raw.id, p, amb.token),
      Hostaway,
      ListingKey(raw, p),
      raw.listingName,
      MapType(raw.reviewType),
      MapChannelIdAsWritten(raw.channelId, p),
      MapStatus(raw.status),
      raw.rating,
      Some(CollectCategories(raw.reviewCategory.GetOr([]))),
      raw.publicReview,
      raw.privateFeedback,
      ToIsoDate(DateInput(raw), true, p, amb.now),
      AuthorOf(raw.guestName),
      Some(false),
      Some(ExternalIdsOf(raw, p)))
  }

  /** `normalizeHostawayReview`: a valid, unapproved Hostaway review, or the reason it was rejected. */
  function NormalizeOne(v: Json.Value, p: Platform, amb: Ambient): (r: Result<Review, NormalizeError>)
    ensures r.Success? ==> ValidReview(r.value, p)
    ensures r.Success? ==> !r.value.approved && r.value.source == Hostaway
    ensures IntakeParse(v).Failure? ==> r == Failure(IntakeRejected)
    ensures r.Success? ==> IntakeParse(v).Success?
  {
    match IntakeParse(v)
    case Failure(e) => Failure(e)
    case Success(raw) =>
      match ParseReview(Assemble(raw, p, amb), p)
      case Success(review) => Success(review)
      case Failure(issues) => Failure(SchemaRejected(issues))
  }

  /**
   * Field by field, a normalised review is what `normalizeHostawayReview`
   * builds from the record the intake parse accepted: the canonical id, the
   * listing key, the mapped type, status and channel, the collected
   * categories, the rewritten date and the external ids.
   */
  lemma NormalizeOneFields(v: Json.Value, p: Platform, amb: Ambient)
    requires NormalizeOne(v, p, amb).Success?
    ensures IntakeParse(v).Success? && !InheritedChannel(IntakeParse(v).value, p)
    ensures var raw := IntakeParse(v).value; var r := NormalizeOne(v, p, amb).value;
      && r.id == MakeCanonicalId("hostaway", raw.id, p, amb.token)
      && (raw.id.Some? ==> r.id == "hostaway:" + ScalarString(raw.id.value, p))
      && r.source == Hostaway
      && r.listingId == ListingKey(raw, p)
      && r.listingName == raw.listingName
      && r.reviewType == MapType(raw.reviewType)
      && r.channel == MapChannelId(raw.channelId, p)
      && r.status == MapStatus(raw.status)
      && r.rating == raw.rating
      && r.categories == CollectCategories(raw.reviewCategory.GetOr([]))
      && r.text == raw.publicReview && r.privateFeedback == raw.privateFeedback
      && r.submittedAt == ToIsoDate(DateInput(raw), true, p, amb.now)
      && r.author == AuthorOf(raw.guestName)
      && !r.approved
      && r.externalIds == Some(ExternalIdsOf(raw, p))
  {
    var raw := IntakeParse(v).value;
    var c := Assemble(raw, p, amb);
    assert NormalizeOne(v, p, amb).value == WithDefaults(c);
    if raw.id.Some? {
      CanonicalIdOfUpstream("hostaway", raw.id.value, p, amb.token, amb.token);
    }
  }

  /** The canonical id is never empty and the author, when present, has a non-empty name and no url. */
  lemma AssembledIdAndAuthorValid(raw: HostawayReview, p: Platform, amb: Ambient)
    ensures |Assemble(raw, p, amb).id| >= 1
    ensures AuthorValid(Assemble(raw, p, amb).author, p)
  {
  }

  /**
   * With a coherent date oracle and a clock in range, a record is rejected
   * exactly when it is not a well-typed object, its listing key is empty,
   * its rating lies outside [0, 5], or its channel id names an inherited
   * `Object.prototype` member.
   */
  lemma NormalizeSucceedsIff(v: Json.Value, p: Platform, amb: Ambient)
    requires DatesCoherent(p)
    requires InTimeRange(amb.now)
    ensures NormalizeOne(v, p, amb).Success? <==>
      v.Obj? && WellShaped(v.fields)
      && |ListingKey(Extract(v.fields), p)| >= 1
      && RatingInRange(Extract(v.fields).rating)
      && !InheritedChannel(Extract(v.fields), p)
  {
    if v.Obj? && WellShaped(v.fields) {
      var raw := Extract(v.fields);
      var c := Assemble(raw, p, amb);
      ToIsoDateParses(DateInput(raw), p, amb.now);
      AssembledIdAndAuthorValid(raw, p, amb);
      assert Accepted(c, p) <==>
        |ListingKey(raw, p)| >= 1 && RatingInRange(raw.rating) && !InheritedChannel(raw, p);
    }
  }

  /** `channelId: "toString"` reaches the schema as a function, fails the channel enum, and the record is dropped. */
  lemma InheritedChannelRejected(v: Json.Value, p: Platform, amb: Ambient)
    requires v.Obj? && WellShaped(v.fields)
    requires "channelId" in v.fields && v.fields["channelId"] == Json.Str("toString")
    ensures NormalizeOne(v, p, amb).Failure?
    ensures NormalizeOne(v, p, amb).error.SchemaRejected?
    ensures ChannelNotInEnum in NormalizeOne(v, p, amb).error.issues
  {
    var raw := Extract(v.fields);
    assert raw.channelId == Some(Str("toString"));
    assert Violates(Assemble(raw, p, amb), p, ChannelNotInEnum);
  }

  /**
   * The normaliser with the own-property channel lookup: an inherited name
   * maps to `unknown` like any other unlisted id.
   */
  function NormalizeOneCorrected(v: Json.Value, p: Platform, amb: Ambient): (r: Result<Review, NormalizeError>)
    ensures r.Success? ==> ValidReview(r.value, p)
    ensures r.Success? ==> !r.value.approved && r.value.source == Hostaway
    ensures IntakeParse(v).Failure? ==> r == Failure(IntakeRejected)
    ensures r.Success? ==>
      IntakeParse(v).Success? && r.value.channel == MapChannelId(IntakeParse(v).value.channelId, p)
  {
    match IntakeParse(v)
    case Failure(e) => Failure(e)
    case Success(raw) =>
      var c := Assemble(raw, p, amb).(channel := Some(MapChannelId(raw.channelId, p)));
      match ParseReview(c, p)
      case Success(review) => Success(review)
      case Failure(issues) => Failure(SchemaRejected(issues))
  }

  /** The two normalisers differ only on records whose channel id names an inherited member. */
  lemma CorrectedAgrees(v: Json.Value, p: Platform, amb: Ambient)
    ensures !(IntakeParse(v).Success? && InheritedChannel(IntakeParse(v).value, p)) ==>
      NormalizeOneCorrected(v, p, amb) == NormalizeOne(v, p, amb)
  {
    if IntakeParse(v).Success? && !InheritedChannel(IntakeParse(v).value, p) {
      var raw := IntakeParse(v).value;
      assert Assemble(raw, p, amb).(channel := Some(MapChannelId(raw.channelId, p))) == Assemble(raw, p, amb);
    }
  }

  /**
   * The corrected normaliser drops a record exactly when it is not a
   * well-typed object, its listing key is empty, or its rating lies outside
   * [0, 5]; the channel id no longer matters.
   */
  lemma CorrectedSucceedsIff(v: Json.Value, p: Platform, amb: Ambient)
    requires DatesCoherent(p)
    requires InTimeRange(amb.now)
    ensures NormalizeOneCorrected(v, p, amb).Success? <==>
      v.Obj? && WellShaped(v.fields)
      && |ListingKey(Extract(v.fields), p)| >= 1
      && RatingInRange(Extract(v.fields).rating)
  {
    if v.Obj? && WellShaped(v.fields) {
      var raw := Extract(v.fields);
      var c := Assemble(raw, p, amb).(channel := Some(MapChannelId(raw.channelId, p)));
      ToIsoDateParses(DateInput(raw), p, amb.now);
      AssembledIdAndAuthorValid(raw, p, amb);
      assert Accepted(c, p) <==> |ListingKey(raw, p)| >= 1 && RatingInRange(raw.rating);
    }
  }

  /** An out-of-range rating makes the record fail rather than be clamped. */
  lemma RatingOutOfRangeRejected(v: Json.Value, p: Platform, amb: Ambient)
    requires v.Obj? && WellShaped(v.fields)
    requires "rating" in v.fields && v.fields["rating"].Num? && !(0.0 <= v.fields["rating"].n <= 5.0)
    ensures NormalizeOne(v, p, amb).Failure?
  {
  }

  /** `listingMapId: ""` is kept by `??`, yields an empty listing id, and the record is dropped. */
  lemma EmptyListingMapIdRejected(v: Json.Value, p: Platform, amb: Ambient)
    requires v.Obj? && WellShaped(v.fields)
    requires "listingMapId" in v.fields && v.fields["listingMapId"] == Json.Str("")
    ensures NormalizeOne(v, p, amb).Failure?
  {
    assert ListingKey(Extract(v.fields), p) == "";
  }

  /** A category rating of the wrong type fails the intake parse, so the whole record is dropped. */
  lemma MistypedCategoryRejected(v: Json.Value, p: Platform, amb: Ambient, i: nat)
    requires v.Obj? && "reviewCategory" in v.fields && v.fields["reviewCategory"].Arr?
    requires i < |v.fields["reviewCategory"].items|
    requires var item := v.fields["reviewCategory"].items[i];
      item.Obj? && "rating" in item.fields && item.fields["rating"] == Json.Str("x")
    ensures NormalizeOne(v, p, amb) == Failure(IntakeRejected)
  {
    assert !CategoryItemOk(v.fields["reviewCategory"].items[i]);
  }

  /** An empty `submittedAt` is kept by `??`: `departureDate` is not consulted and the clock is used. */
  lemma EmptySubmittedAtUsesClock(raw: HostawayReview, p: Platform, amb: Ambient)
    requires raw.submittedAt == Some("")
    ensures Assemble(raw, p, amb).submittedAt == p.isoString(amb.now)
  {
    assert Trim("") == "";
  }

  /** A record with an upstream id and a parseable date normalises the same at any time and token. */
  lemma NormalizeDeterministic(v: Json.Value, p: Platform, amb1: Ambient, amb2: Ambient)
    requires v.Obj? && WellShaped(v.fields)
    requires Extract(v.fields).id.Some?
    requires var d := DateInput(Extract(v.fields)); Usable(d) && p.parseDate(Rewrite(d.value)).Some?
    ensures NormalizeOne(v, p, amb1) == NormalizeOne(v, p, amb2)
  {
    var raw := Extract(v.fields);
    ToIsoDateClockFree(DateInput(raw), true, p, amb1.now, amb2.now);
    assert Assemble(raw, p, amb1) == Assemble(raw, p, amb2);
  }

  // ---------------------------------------------------------------------
  // Many records

  /** The successful results, in order. */
  function Successes(rs: seq<Result<Review, NormalizeError>>): (out: seq<Review>)
    ensures |out| <= |rs|
  {
    if |rs| == 0 then []
    else
      var init := Successes(rs[..|rs| - 1]);
      match rs[|rs| - 1]
      case Success(r) => init + [r]
      case Failure(_) => init
  }

  /** Every review kept is the success of some record. */
  lemma {:induction false} SuccessesOrigin(rs: seq<Result<Review, NormalizeError>>, j: nat)
    requires j < |Successes(rs)|
    ensures exists i :: 0 <= i < |rs| && rs[i] == Success(Successes(rs)[j])
    decreases |rs|
  {
    assert |rs| > 0;
    var init := rs[..|rs| - 1];
    if j < |Successes(init)| {
      SuccessesOrigin(init, j);
      var i :| 0 <= i < |init| && init[i] == Success(Successes(init)[j]);
      assert rs[i] == init[i];
    } else {
      assert rs[|rs| - 1] == Success(Successes(rs)[j]);
    }
  }

  /** The outcome of every record; record `i` sees the clock and token `amb(i)`. */
  function Attempts(inputs: seq<Json.Value>, p: Platform, amb: nat -> Ambient): (rs: seq<Result<Review, NormalizeError>>)
    ensures |rs| == |inputs|
    ensures forall i :: 0 <= i < |inputs| ==> rs[i] == NormalizeOne(inputs[i], p, amb(i))
  {
    seq(|inputs|, i requires 0 <= i < |inputs| => NormalizeOne(inputs[i], p, amb(i)))
  }

  /** `normalizeManyHostaway`: never fails; keeps the valid, unapproved reviews in input order. */
  function NormalizeAll(inputs: seq<Json.Value>, p: Platform, amb: nat -> Ambient): (out: seq<Review>)
    ensures |out| <= |inputs|
    ensures forall j :: 0 <= j < |out| ==> ValidReview(out[j], p) && !out[j].approved
  {
    var rs := Attempts(inputs, p, amb);
    AttemptsValid(inputs, p, amb);
    assert |Successes(rs)| <= |rs| == |inputs|;
    Successes(rs)
  }

  /** Every success of the batch is a valid, unapproved review. */
  lemma AttemptsValid(inputs: seq<Json.Value>, p: Platform, amb: nat -> Ambient)
    ensures forall j :: 0 <= j < |Successes(Attempts(inputs, p, amb))| ==>
      ValidReview(Successes(Attempts(inputs, p, amb))[j], p) && !Successes(Attempts(inputs, p, amb))[j].approved
  {
    var rs := Attempts(inputs, p, amb);
    var out := Successes(rs);
    forall j | 0 <= j < |out|
      ensures ValidReview(out[j], p) && !out[j].approved
    {
      SuccessesOrigin(rs, j);
      var i :| 0 <= i < |rs| && rs[i] == Success(out[j]);
      assert NormalizeOne(inputs[i], p, amb(i)) == Success(out[j]);
    }
  }

  /** One more record appends its review when it succeeds. */
  lemma SuccessesStep(rs: seq<Result<Review, NormalizeError>>, i: nat)
    requires i < |rs|
    ensures Successes(rs[..i + 1]) == Successes(rs[..i]) + (if rs[i].Success? then [rs[i].value] else [])
  {
    assert rs[..i + 1][..i] == rs[..i];
  }

  /** The position in the output of the record at index `i`: the number of successes before it. */
  function Rank(rs: seq<Result<Review, NormalizeError>>, i: nat): nat
    requires i <= |rs|
  {
    |Successes(rs[..i])|
  }

  /** Successes of a prefix are a prefix of the successes. */
  lemma {:induction false} SuccessesPrefix(rs: seq<Result<Review, NormalizeError>>, i: nat)
    requires i <= |rs|
    ensures |Successes(rs[..i])| <= |Successes(rs)|
    ensures Successes(rs[..i]) == Successes(rs)[..|Successes(rs[..i])|]
    decreases |rs| - i
  {
    if i < |rs| {
      SuccessesPrefix(rs, i + 1);
      assert rs[..i + 1][..i] == rs[..i];
    } else {
      assert rs[..i] == rs;
    }
  }

  /** A successful record `i` appears in the batch, at position `Rank(rs, i)`. */
  lemma {:induction false} SuccessAppears(rs: seq<Result<Review, NormalizeError>>, i: nat)
    requires i < |rs| && rs[i].Success?
    ensures Rank(rs, i) < |Successes(rs)| && Successes(rs)[Rank(rs, i)] == rs[i].value
  {
    assert rs[..i + 1][..i] == rs[..i];
    assert Successes(rs[..i + 1]) == Successes(rs[..i]) + [rs[i].value];
    SuccessesPrefix(rs, i + 1);
  }

  /** The batch keeps order: after a successful record `i`, every later record sits strictly later. */
  lemma {:induction false} SuccessesInOrder(rs: seq<Result<Review, NormalizeError>>, i: nat, j: nat)
    requires i < j < |rs| && rs[i].Success?
    ensures Rank(rs, i) < Rank(rs, i + 1) <= Rank(rs, j)
  {
    assert rs[..i + 1][..i] == rs[..i];
    assert Successes(rs[..i + 1]) == Successes(rs[..i]) + [rs[i].value];
    SuccessesPrefix(rs[..j], i + 1);
    assert rs[..j][..i + 1] == rs[..i + 1];
  }

  /** A minimal upstream record: an id, a type and a listing. */
  function SampleRecord(id: int, reviewType: string, listing: int): Json.Value {
    Json.Obj(map["id" := Json.Num(id as real), "type" := Json.Str(reviewType),
                 "listingMapId" := Json.Num(listing as real)])
  }

  lemma SampleRecordShape(id: int, reviewType: string, listing: int)
    ensures var v := SampleRecord(id, reviewType, listing);
      v.Obj? && WellShaped(v.fields)
      && Extract(v.fields) == HostawayReview(Some(Num(id as real)), Some(Num(listing as real)), None, None,
                                             Some(reviewType), None, None, None, None, None, None, None,
                                             None, None, None)
  {
  }

  /** The sample record normalises, keeping its upstream id behind `hostaway:`. */
  lemma SampleRecordNormalizes(id: int, reviewType: string, listing: int, p: Platform, amb: Ambient)
    requires DatesCoherent(p) && IntegersInDecimal(p) && InTimeRange(amb.now)
    requires 0 <= id < 10 && 0 <= listing < DecimalLimit
    ensures NormalizeOne(SampleRecord(id, reviewType, listing), p, amb).Success?
    ensures NormalizeOne(SampleRecord(id, reviewType, listing), p, amb).value.id == "hostaway:" + [DigitChar(id)]
  {
    var v := SampleRecord(id, reviewType, listing);
    SampleRecordShape(id, reviewType, listing);
    var raw := Extract(v.fields);
    assert p.numberString(listing as real) == IntToString(listing);
    assert |ListingKey(raw, p)| >= 1;
    NormalizeSucceedsIff(v, p, amb);
    assert p.numberString(id as real) == IntToString(id) == [DigitChar(id)];
    assert MakeCanonicalId("hostaway", raw.id, p, amb.token) == "hostaway:" + [DigitChar(id)];
  }

  /**
   * The batch from the normaliser's tests: a string and a `null` between
   * two good records are dropped, and the good ones keep their order,
   * whatever their `type` (the tests use `host-to-guest` and `guest-to-host`).
   */
  lemma BatchSkipsInvalid(inputs: seq<Json.Value>, type1: string, type2: string, p: Platform, amb: nat -> Ambient)
    requires inputs == [SampleRecord(1, type1, 42), Json.Str("totally invalid payload"),
                        Json.Null, SampleRecord(2, type2, 43)]
    requires DatesCoherent(p) && IntegersInDecimal(p)
    requires forall i: nat :: InTimeRange(amb(i).now)
    ensures |NormalizeAll(inputs, p, amb)| == 2
    ensures NormalizeAll(inputs, p, amb)[0].id == "hostaway:1"
    ensures NormalizeAll(inputs, p, amb)[1].id == "hostaway:2"
  {
    var rs := Attempts(inputs, p, amb);
    SampleBatchAttempts(inputs, type1, type2, p, amb);
    assert rs[1] == NormalizeOne(Json.Str("totally invalid payload"), p, amb(1)) == Failure(IntakeRejected);
    assert rs[2] == NormalizeOne(Json.Null, p, amb(2)) == Failure(IntakeRejected);
    SuccessesOfFour(rs);
  }

  lemma SampleBatchAttempts(inputs: seq<Json.Value>, type1: string, type2: string, p: Platform, amb: nat -> Ambient)
    requires |inputs| == 4 && inputs[0] == SampleRecord(1, type1, 42) && inputs[3] == SampleRecord(2, type2, 43)
    requires DatesCoherent(p) && IntegersInDecimal(p)
    requires forall i: nat :: InTimeRange(amb(i).now)
    ensures var rs := Attempts(inputs, p, amb);
      && |rs| == 4 && rs[0].Success? && rs[3].Success?
      && rs[0].value.id == "hostaway:1" && rs[3].value.id == "hostaway:2"
  {
    assert InTimeRange(amb(0).now) && InTimeRange(amb(3).now);
    SampleAt(inputs, 0, 1, type1, 42, p, amb);
    SampleAt(inputs, 3, 2, type2, 43, p, amb);
    SampleIds();
  }

  lemma SampleIds()
    ensures "hostaway:" + [DigitChar(1)] == "hostaway:1" && "hostaway:" + [DigitChar(2)] == "hostaway:2"
  {
    assert DigitChar(1) == '1' && DigitChar(2) == '2';
  }

  /** A sample record at index `k` of a batch normalises there. */
  lemma SampleAt(inputs: seq<Json.Value>, k: nat, id: int, reviewType: string, listing: int, p: Platform, amb: nat -> Ambient)
    requires k < |inputs| && inputs[k] == SampleRecord(id, reviewType, listing)
    requires DatesCoherent(p) && IntegersInDecimal(p) && InTimeRange(amb(k).now)
    requires 0 <= id < 10 && 0 <= listing < DecimalLimit
    ensures Attempts(inputs, p, amb)[k].Success?
    ensures Attempts(inputs, p, amb)[k].value.id == "hostaway:" + [DigitChar(id)]
  {
    SampleRecordNormalizes(id, reviewType, listing, p, amb(k));
  }

  lemma SuccessesOfFour(rs: seq<Result<Review, NormalizeError>>)
    requires |rs| == 4 && rs[0].Success? && rs[1].Failure? && rs[2].Failure? && rs[3].Success?
    ensures Successes(rs) == [rs[0].value, rs[3].value]
  {
    SuccessesStep(rs, 0);
    SuccessesStep(rs, 1);
    SuccessesStep(rs, 2);
    SuccessesStep(rs, 3);
    assert rs[..0] == [];
    assert rs[..4] == rs;
  }

  /** `normalizeManyHostaway` as the source writes it: a loop that skips every record that throws. */
  method NormalizeMany(inputs: seq<Json.Value>, p: Platform, amb: nat -> Ambient) returns (out: seq<Review>)
    ensures out == Successes(Attempts(inputs, p, amb))
  {
    ghost var rs := Attempts(inputs, p, amb);
    out := [];
    var i := 0;
    while i < |inputs|
      invariant 0 <= i <= |inputs|
      invariant out == Successes(rs[..i])
    {
      out := CollectOne(inputs, p, amb, i, out);
      i := i + 1;
    }
    assert rs[..i] == rs;
  }

  /** The loop's body: record `i` is normalised and its review appended when that succeeds. */
  method CollectOne(inputs: seq<Json.Value>, p: Platform, amb: nat -> Ambient, i: nat, out: seq<Review>)
    returns (out': seq<Review>)
    requires i < |inputs|
    ensures out == Successes(Attempts(inputs, p, amb)[..i]) ==>
      out' == Successes(Attempts(inputs, p, amb)[..i + 1])
    ensures |out| <= |out'| <= |out| + 1 && out'[..|out|] == out
  {
    ghost var rs := Attempts(inputs, p, amb);
    var res := NormalizeOne(inputs[i], p, amb(i));
    assert rs[i] == res;
    SuccessesStep(rs, i);
    if res.Success? {
      out' := out + [res.value];
    } else {
      out' := out;
    }
  }
}
