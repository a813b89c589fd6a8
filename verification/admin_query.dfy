/**
 * `GET /api/reviews/hostaway`: validate the query, normalise the upstream
 * records, keep those passing every filter, and return one page by
 * `Array.prototype.slice` together with the filtered count.
 */
module AdminQuery {
  import opened Wrappers
  import opened Seqs
  import opened Runtime
  import opened Domain
  import opened Normalize
  import Json

  /** Query-string values after coercion: each is absent or a value; the enum keys arrive as strings. */
  datatype Params = Params(
    listingId: Option<string>,
    reviewType: Option<string>,
    status: Option<string>,
    channel: Option<string>,
    minRating: Option<real>,
    maxRating: Option<real>,
    from: Option<string>,
    to: Option<string>,
    limit: Option<real>,
    offset: Option<real>)

  /** A query `QuerySchema` accepted, defaults filled in. */
  datatype Query = Query(
    listingId: Option<string>,
    reviewType: Option<ReviewType>,
    status: Option<Status>,
    channel: Option<Channel>,
    minRating: Option<real>,
    maxRating: Option<real>,
    from: Option<string>,
    to: Option<string>,
    limit: real,
    offset: real)

  const DefaultLimit: real := 50.0
  const MaxLimit: real := 200.0

  datatype QueryIssue =
    | BadType
    | BadStatus
    | BadChannel
    | MinRatingOutOfRange
    | MaxRatingOutOfRange
    | LimitOutOfRange
    | OffsetNegative
    | LimitNotInteger
    | OffsetNotInteger

  predicate InRatingScale(x: Option<real>) {
    x.None? || 0.0 <= x.value <= 5.0
  }

  predicate IsInteger(x: real) {
    x == x.Floor as real
  }

  function LimitOf(params: Params): real { params.limit.GetOr(DefaultLimit) }

  function OffsetOf(params: Params): real { params.offset.GetOr(0.0) }

  /** Whether the parameters break the constraint behind `issue`. */
  predicate Breaks(params: Params, issue: QueryIssue) {
    match issue
    case BadType => params.reviewType.Some? && ParseType(params.reviewType.value).None?
    case BadStatus => params.status.Some? && ParseStatus(params.status.value).None?
    case BadChannel => params.channel.Some? && ParseChannel(params.channel.value).None?
    case MinRatingOutOfRange => !InRatingScale(params.minRating)
    case MaxRatingOutOfRange => !InRatingScale(params.maxRating)
    case LimitOutOfRange => !(1.0 <= LimitOf(params) <= MaxLimit)
    case OffsetNegative => OffsetOf(params) < 0.0
    case LimitNotInteger => !IsInteger(LimitOf(params))
    case OffsetNotInteger => !IsInteger(OffsetOf(params))
  }

  /** The parameters break none of the constraints `QuerySchema` states. */
  predicate SchemaOk(params: Params) {
    && !Breaks(params, BadType) && !Breaks(params, BadStatus) && !Breaks(params, BadChannel)
    && !Breaks(params, MinRatingOutOfRange) && !Breaks(params, MaxRatingOutOfRange)
    && !Breaks(params, LimitOutOfRange) && !Breaks(params, OffsetNegative)
  }

  /** The constraints `QuerySchema` states; it does not ask `limit` and `offset` to be integers. */
  predicate SchemaConstraint(issue: QueryIssue) {
    issue != LimitNotInteger && issue != OffsetNotInteger
  }

  function CheckOne(params: Params, issue: QueryIssue): seq<QueryIssue> {
    if Breaks(params, issue) then [issue] else []
  }

  /** The broken schema constraints, in the order of the schema's keys. */
  function SchemaIssues(params: Params): seq<QueryIssue> {
    CheckOne(params, BadType) + CheckOne(params, BadStatus) + CheckOne(params, BadChannel)
    + CheckOne(params, MinRatingOutOfRange) + CheckOne(params, MaxRatingOutOfRange)
    + CheckOne(params, LimitOutOfRange) + CheckOne(params, OffsetNegative)
  }

  lemma SchemaIssuesExact(params: Params)
    ensures forall issue :: issue in SchemaIssues(params) <==> SchemaConstraint(issue) && Breaks(params, issue)
    ensures SchemaOk(params) <==> forall issue :: SchemaConstraint(issue) ==> !Breaks(params, issue)
  {
    forall issue: QueryIssue
      ensures issue in SchemaIssues(params) <==> SchemaConstraint(issue) && Breaks(params, issue)
    {
      var parts := [CheckOne(params, BadType), CheckOne(params, BadStatus), CheckOne(params, BadChannel),
                    CheckOne(params, MinRatingOutOfRange), CheckOne(params, MaxRatingOutOfRange),
                    CheckOne(params, LimitOutOfRange), CheckOne(params, OffsetNegative)];
      assert SchemaIssues(params) == parts[0] + parts[1] + parts[2] + parts[3] + parts[4] + parts[5] + parts[6];
    }
  }

  /** The accepted query: enum names parsed, `limit` 50 and `offset` 0 when absent. */
  function Build(params: Params): (q: Query)
    requires SchemaOk(params)
    ensures 1.0 <= q.limit <= MaxLimit && q.offset >= 0.0
    ensures InRatingScale(q.minRating) && InRatingScale(q.maxRating)
    ensures params.limit.None? ==> q.limit == DefaultLimit
    ensures params.offset.None? ==> q.offset == 0.0
  {
    Query(
      params.listingId,
      if params.reviewType.Some? then ParseType(params.reviewType.value) else None,
      if params.status.Some? then ParseStatus(params.status.value) else None,
      if params.channel.Some? then ParseChannel(params.channel.value) else None,
      params.minRating, params.maxRating, params.from, params.to,
      LimitOf(params), OffsetOf(params))
  }

  /** `QuerySchema.parse` as written: the accepted query, or every broken constraint. */
  function ParseQuery(params: Params): (r: Result<Query, seq<QueryIssue>>)
    ensures r.Success? <==> SchemaOk(params)
    ensures r.Success? <==> forall issue :: SchemaConstraint(issue) ==> !Breaks(params, issue)
    ensures r.Success? ==> r.value == Build(params)
    ensures r.Failure? ==> (|r.error| > 0
      && forall issue :: issue in r.error <==> SchemaConstraint(issue) && Breaks(params, issue))
  {
    SchemaIssuesExact(params);
    var issues := SchemaIssues(params);
    if |issues| == 0 then Success(Build(params))
    else
      assert issues[0] in issues;
      Failure(issues)
  }

  /** The query with `limit` and `offset` also required to be integers, as the public route does. */
  function ParseQueryIntegral(params: Params): (r: Result<Query, seq<QueryIssue>>)
    ensures r.Success? <==> forall issue :: !Breaks(params, issue)
    ensures r.Success? ==> r == ParseQuery(params) && IsInteger(r.value.limit) && IsInteger(r.value.offset)
    ensures r.Failure? ==> |r.error| > 0 && forall issue :: issue in r.error <==> Breaks(params, issue)
  {
    var extra := CheckOne(params, LimitNotInteger) + CheckOne(params, OffsetNotInteger);
    match ParseQuery(params)
    case Success(q) =>
      if |extra| == 0 then Success(q)
      else
        assert extra[0] in extra;
        Failure(extra)
    case Failure(issues) =>
      assert forall issue :: issue in issues + extra <==> issue in issues || issue in extra;
      Failure(issues + extra)
  }

  /** `parseDate`: `None` for an absent or empty string and for one that does not parse. */
  function ParseDate(s: Option<string>, p: Platform): (r: Option<int>)
    ensures s.None? || s.value == "" ==> r.None?
    ensures s.Some? && s.value != "" ==> r == p.parseDate(s.value)
  {
    if s.None? || s.value == "" then None else p.parseDate(s.value)
  }

  // ---------------------------------------------------------------------
  // The filter

  /** The filter callback as the source writes it: a chain of early rejections. */
  function Keep(q: Query, fromTs: Option<int>, toTs: Option<int>, p: Platform, r: Review): bool {
    if q.listingId.Some? && q.listingId.value != "" && r.listingId != q.listingId.value then false
    else if q.reviewType.Some? && r.reviewType != q.reviewType.value then false
    else if q.status.Some? && r.status != q.status then false
    else if q.channel.Some? && r.channel != q.channel.value then false
    else if q.minRating.Some? && r.rating.GetOr(0.0) < q.minRating.value then false
    else if q.maxRating.Some? && r.rating.GetOr(5.0) > q.maxRating.value then false
    else
      match p.parseDate(r.submittedAt)
      case None => true
      case Some(t) =>
        if fromTs.Some? && t < fromTs.value then false
        else if toTs.Some? && t > toTs.value then false
        else true
  }

  /** An exact-match filter applies only when given and non-empty. */
  predicate ListingMatches(q: Query, r: Review) {
    q.listingId.None? || q.listingId.value == "" || r.listingId == q.listingId.value
  }

  predicate TypeMatches(q: Query, r: Review) { q.reviewType.None? || r.reviewType == q.reviewType.value }

  predicate StatusMatches(q: Query, r: Review) { q.status.None? || r.status == q.status }

  predicate ChannelMatches(q: Query, r: Review) { q.channel.None? || r.channel == q.channel.value }

  /** A missing rating counts as 0 against the lower bound. */
  predicate AboveMin(q: Query, r: Review) {
    q.minRating.None? || (if r.rating.Some? then r.rating.value else 0.0) >= q.minRating.value
  }

  /** A missing rating counts as 5 against the upper bound. */
  predicate BelowMax(q: Query, r: Review) {
    q.maxRating.None? || (if r.rating.Some? then r.rating.value else 5.0) <= q.maxRating.value
  }

  /** The inclusive date range; a review whose date does not parse is never excluded. */
  predicate InDateRange(fromTs: Option<int>, toTs: Option<int>, p: Platform, r: Review) {
    p.parseDate(r.submittedAt).None?
    || ((fromTs.None? || fromTs.value <= p.parseDate(r.submittedAt).value)
        && (toTs.None? || p.parseDate(r.submittedAt).value <= toTs.value))
  }

  /** All filters AND-ed. */
  predicate Matches(q: Query, fromTs: Option<int>, toTs: Option<int>, p: Platform, r: Review) {
    && ListingMatches(q, r)
    && TypeMatches(q, r)
    && StatusMatches(q, r)
    && ChannelMatches(q, r)
    && AboveMin(q, r)
    && BelowMax(q, r)
    && InDateRange(fromTs, toTs, p, r)
  }

  /** The chain of early rejections keeps a review exactly when it passes every filter. */
  lemma KeepIffMatches(q: Query, fromTs: Option<int>, toTs: Option<int>, p: Platform, r: Review)
    ensures Keep(q, fromTs, toTs, p, r) <==> Matches(q, fromTs, toTs, p, r)
  {
  }

  /** The reviews passing the filters, in the order of the normalised list. */
  function Filtered(q: Query, normalized: seq<Review>, p: Platform): (out: seq<Review>)
    ensures |out| <= |normalized|
    ensures IsSubseq(out, normalized)
    ensures forall r :: r in out <==> (r in normalized
      && Matches(q, ParseDate(q.from, p), ParseDate(q.to, p), p, r))
  {
    var fromTs := ParseDate(q.from, p);
    var toTs := ParseDate(q.to, p);
    var keep := (r: Review) => Keep(q, fromTs, toTs, p, r);
    FilterIsSubseq(keep, normalized);
    assert forall r :: keep(r) <==> Matches(q, fromTs, toTs, p, r) by {
      forall r: Review
        ensures keep(r) <==> Matches(q, fromTs, toTs, p, r)
      {
        KeepIffMatches(q, fromTs, toTs, p, r);
      }
    }
    Filter(keep, normalized)
  }

  /** A review without a rating passes `minRating` only at 0, and `maxRating` only at 5. */
  lemma UnratedQuirk(q: Query, r: Review)
    requires r.rating.None?
    ensures AboveMin(q, r) <==> q.minRating.None? || q.minRating.value <= 0.0
    ensures BelowMax(q, r) <==> q.maxRating.None? || q.maxRating.value >= 5.0
  {
  }

  /** An unparseable `from` or `to` is ignored, and a review whose date does not parse passes the range. */
  lemma UnparseableDatesIgnored(q: Query, p: Platform, r: Review)
    requires q.from.Some? && p.parseDate(q.from.value).None?
    requires q.to.Some? && p.parseDate(q.to.value).None?
    ensures ParseDate(q.from, p).None? && ParseDate(q.to, p).None?
    ensures InDateRange(ParseDate(q.from, p), ParseDate(q.to, p), p, r)
  {
  }

  /** A review whose date does not parse is never excluded by the range. */
  lemma UnparseableReviewDatePasses(fromTs: Option<int>, toTs: Option<int>, p: Platform, r: Review)
    requires p.parseDate(r.submittedAt).None?
    ensures InDateRange(fromTs, toTs, p, r)
  {
  }

  // ---------------------------------------------------------------------
  // Pagination and the response

  /** `filtered.slice(offset, offset + limit)` with the numbers as given: slice truncates its bounds. */
  function PageAsWritten(filtered: seq<Review>, q: Query): (page: seq<Review>)
    ensures |page| <= |filtered|
    ensures forall x :: x in page ==> x in filtered
  {
    JsSlice(filtered, Trunc(q.offset), Trunc(q.offset + q.limit))
  }

  /** With `offset = 0.9` and `limit = 1.2` the slice is `[0, 2)`: two reviews, more than the limit. */
  lemma FractionalPageExceedsLimit(filtered: seq<Review>, q: Query)
    requires |filtered| >= 2
    requires q.offset == 0.9 && q.limit == 1.2
    ensures |PageAsWritten(filtered, q)| == 2
    ensures |PageAsWritten(filtered, q)| as real > q.limit
  {
    assert Trunc(0.9) == 0;
    assert Trunc(0.9 + 1.2) == 2;
  }

  /** On integral bounds the page is `filtered[offset .. min(offset + limit, |filtered|)]`, at most `limit` long. */
  lemma {:induction false} IntegralPage(filtered: seq<Review>, q: Query)
    requires q.offset >= 0.0 && q.limit >= 1.0 && IsInteger(q.offset) && IsInteger(q.limit)
    ensures var o := q.offset.Floor; var l := q.limit.Floor;
      && o >= 0
      && PageAsWritten(filtered, q) == JsSlice(filtered, o, o + l)
      && |PageAsWritten(filtered, q)| == Max(0, Min(o + l, |filtered|) - o)
      && |PageAsWritten(filtered, q)| as real <= q.limit
  {
    var o := q.offset.Floor;
    var l := q.limit.Floor;
    assert Trunc(q.offset) == o;
    assert q.offset + q.limit == (o + l) as real;
    assert Trunc(q.offset + q.limit) == o + l;
    SliceOfNaturals(filtered, o, o + l);
  }

  /**
   * With a non-negative offset and limit the slice is the window of the
   * filtered list from `floor(offset)` up to `floor(offset + limit)`, clamped
   * to its length.
   */
  lemma {:induction false} PageWindow(filtered: seq<Review>, q: Query)
    requires q.offset >= 0.0 && q.limit >= 0.0
    ensures var a := q.offset.Floor; var b := (q.offset + q.limit).Floor;
      && 0 <= a <= b
      && |PageAsWritten(filtered, q)| == Max(0, Min(b, |filtered|) - a)
      && forall i :: 0 <= i < |PageAsWritten(filtered, q)| ==>
           a + i < |filtered| && PageAsWritten(filtered, q)[i] == filtered[a + i]
  {
    var a := q.offset.Floor;
    var b := (q.offset + q.limit).Floor;
    assert Trunc(q.offset) == a && Trunc(q.offset + q.limit) == b;
    SliceOfNaturals(filtered, a, b);
  }

  /** The two page facts above, each under its own hypothesis. */
  lemma PageCases(filtered: seq<Review>, q: Query)
    ensures q.offset >= 0.0 && q.limit >= 0.0 ==>
      var a := q.offset.Floor; var b := (q.offset + q.limit).Floor;
      && |PageAsWritten(filtered, q)| == Max(0, Min(b, |filtered|) - a)
      && forall i :: 0 <= i < |PageAsWritten(filtered, q)| ==>
           a + i < |filtered| && PageAsWritten(filtered, q)[i] == filtered[a + i]
    ensures q.offset >= 0.0 && q.limit >= 1.0 && IsInteger(q.offset) && IsInteger(q.limit) ==>
      |PageAsWritten(filtered, q)| as real <= q.limit
  {
    if q.offset >= 0.0 && q.limit >= 0.0 {
      PageWindow(filtered, q);
    }
    if q.offset >= 0.0 && q.limit >= 1.0 && IsInteger(q.offset) && IsInteger(q.limit) {
      IntegralPage(filtered, q);
    }
  }

  datatype Response = Response(count: nat, limit: real, offset: real, reviews: seq<Review>)

  /**
   * The response for an accepted query over the normalised reviews: the
   * filtered count, the bounds echoed, and the slice of the filtered list.
   * Only integral bounds keep the page within `limit`.
   */
  function Respond(q: Query, normalized: seq<Review>, p: Platform): (resp: Response)
    ensures var filtered := Filtered(q, normalized, p);
      && resp.count == |filtered|
      && resp.limit == q.limit && resp.offset == q.offset
      && |resp.reviews| <= |filtered|
      && forall x :: x in resp.reviews ==> x in filtered
    ensures q.offset >= 0.0 && q.limit >= 0.0 ==>
      var filtered := Filtered(q, normalized, p);
      var a := q.offset.Floor; var b := (q.offset + q.limit).Floor;
      && |resp.reviews| == Max(0, Min(b, |filtered|) - a)
      && forall i :: 0 <= i < |resp.reviews| ==> a + i < |filtered| && resp.reviews[i] == filtered[a + i]
    ensures q.offset >= 0.0 && q.limit >= 1.0 && IsInteger(q.offset) && IsInteger(q.limit) ==>
      |resp.reviews| as real <= q.limit
  {
    var filtered := Filtered(q, normalized, p);
    PageCases(filtered, q);
    Response(|filtered|, q.limit, q.offset, PageAsWritten(filtered, q))
  }

  /**
   * The handler as written: validate with the schema, normalise, filter,
   * paginate. The `generatedAt` timestamp is left out.
   */
  function ListHostaway(params: Params, rawItems: seq<Json.Value>, p: Platform, amb: nat -> Ambient)
    : (r: Result<Response, seq<QueryIssue>>)
    ensures r.Failure? <==> !SchemaOk(params)
    ensures r.Failure? ==> r.error == ParseQuery(params).error
    ensures r.Success? ==> (
      var q := ParseQuery(params).value;
      && 1.0 <= q.limit <= MaxLimit && q.offset >= 0.0
      && r.value == Respond(q, NormalizeAll(rawItems, p, amb), p))
  {
    match ParseQuery(params)
    case Failure(issues) => Failure(issues)
    case Success(q) => Success(Respond(q, NormalizeAll(rawItems, p, amb), p))
  }

  /**
   * The handler with the corrected schema: it rejects fractional `limit` and
   * `offset`, answers every other request as the original does, and never
   * returns more than `limit` reviews.
   */
  function ListHostawayIntegral(params: Params, rawItems: seq<Json.Value>, p: Platform, amb: nat -> Ambient)
    : (r: Result<Response, seq<QueryIssue>>)
    ensures r.Failure? <==> ParseQueryIntegral(params).Failure?
    ensures r.Failure? ==> r.error == ParseQueryIntegral(params).error
    ensures r.Success? ==> r == ListHostaway(params, rawItems, p, amb)
    ensures r.Success? ==> |r.value.reviews| as real <= r.value.limit
  {
    match ParseQueryIntegral(params)
    case Failure(issues) => Failure(issues)
    case Success(q) => Success(Respond(q, NormalizeAll(rawItems, p, amb), p))
  }

  /**
   * `limit=1.2&offset=0.9` passes the schema as written and is answered with
   * the first two filtered reviews, while the corrected handler rejects it.
   */
  lemma FractionalQueryServed(rawItems: seq<Json.Value>, p: Platform, amb: nat -> Ambient)
    ensures var params := Params(None, None, None, None, None, None, None, None, Some(1.2), Some(0.9));
      && ListHostaway(params, rawItems, p, amb).Success?
      && var resp := ListHostaway(params, rawItems, p, amb).value;
      && |resp.reviews| == Min(2, resp.count)
      && (resp.count >= 2 ==> |resp.reviews| as real > resp.limit)
      && ListHostawayIntegral(params, rawItems, p, amb).Failure?
  {
    var params := Params(None, None, None, None, None, None, None, None, Some(1.2), Some(0.9));
    assert SchemaOk(params);
    assert Breaks(params, LimitNotInteger) by {
      assert (1.2).Floor == 1;
    }
    assert (0.9).Floor == 0 && (0.9 + 1.2).Floor == 2;
  }

  /** Every review returned passes every filter and is valid; with `channel=booking` all are booking reviews. */
  lemma ResponseMatches(params: Params, rawItems: seq<Json.Value>, p: Platform, amb: nat -> Ambient)
    requires ListHostaway(params, rawItems, p, amb).Success?
    ensures var q := ParseQuery(params).value;
      forall r :: r in ListHostaway(params, rawItems, p, amb).value.reviews ==>
        Matches(q, ParseDate(q.from, p), ParseDate(q.to, p), p, r) && ValidReview(r, p)
    ensures params.channel == Some("booking") ==>
      forall r :: r in ListHostaway(params, rawItems, p, amb).value.reviews ==> r.channel == Booking
  {
    var q := ParseQuery(params).value;
    var normalized := NormalizeAll(rawItems, p, amb);
    var filtered := Filtered(q, normalized, p);
    var resp := Respond(q, normalized, p);
    assert ListHostaway(params, rawItems, p, amb).value == resp;
    forall r | r in resp.reviews
      ensures Matches(q, ParseDate(q.from, p), ParseDate(q.to, p), p, r) && ValidReview(r, p)
    {
      assert r in filtered;
    }
    if params.channel == Some("booking") {
      assert q.channel == Some(Booking);
    }
  }

  /** The corrected handler's reviews pass the same filters, since its responses are the original's. */
  lemma ResponseMatchesIntegral(params: Params, rawItems: seq<Json.Value>, p: Platform, amb: nat -> Ambient)
    requires ListHostawayIntegral(params, rawItems, p, amb).Success?
    ensures var q := ParseQueryIntegral(params).value;
      forall r :: r in ListHostawayIntegral(params, rawItems, p, amb).value.reviews ==>
        Matches(q, ParseDate(q.from, p), ParseDate(q.to, p), p, r) && ValidReview(r, p)
  {
    ResponseMatches(params, rawItems, p, amb);
  }
}
