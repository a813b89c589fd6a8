/**
 * `GET /api/public/reviews`: validate the query, keep the approved rows
 * (of one listing when asked), order them, and return the page `skip`
 * `offset`, `take` `limit`, with the count of all matching rows and only
 * the public columns.
 */
module PublicQuery {
  import opened Wrappers
  import opened Strings
  import opened Seqs
  import opened Domain
  import opened Store
  import opened RowOrder

  /** Query-string values after coercion. */
  datatype Params = Params(listingId: Option<string>, sort: Option<string>, limit: Option<real>, offset: Option<real>)

  datatype Query = Query(listingId: Option<string>, sort: Sort, limit: nat, offset: nat)

  const DefaultLimit: real := 12.0
  const MaxLimit: real := 200.0

  datatype QueryIssue =
    | BlankListingId
    | BadSort
    | LimitNotInteger
    | LimitOutOfRange
    | OffsetNotInteger
    | OffsetNegative

  /** The four `sort` names. */
  function ParseSort(s: string): (r: Option<Sort>)
    ensures r.Some? <==> s in {"newest", "oldest", "rating_desc", "rating_asc"}
  {
    if s == "newest" then Some(Newest)
    else if s == "oldest" then Some(Oldest)
    else if s == "rating_desc" then Some(RatingDesc)
    else if s == "rating_asc" then Some(RatingAsc)
    else None
  }

  predicate IsInteger(x: real) {
    x == x.Floor as real
  }

  function LimitOf(params: Params): real { params.limit.GetOr(DefaultLimit) }

  function OffsetOf(params: Params): real { params.offset.GetOr(0.0) }

  /** Whether the parameters break the constraint behind `issue`. */
  predicate Breaks(params: Params, issue: QueryIssue) {
    match issue
    case BlankListingId => params.listingId.Some? && |Trim(params.listingId.value)| == 0
    case BadSort => params.sort.Some? && ParseSort(params.sort.value).None?
    case LimitNotInteger => !IsInteger(LimitOf(params))
    case LimitOutOfRange => !(1.0 <= LimitOf(params) <= MaxLimit)
    case OffsetNotInteger => !IsInteger(OffsetOf(params))
    case OffsetNegative => OffsetOf(params) < 0.0
  }

  predicate QueryOk(params: Params) {
    && !Breaks(params, BlankListingId) && !Breaks(params, BadSort)
    && !Breaks(params, LimitNotInteger) && !Breaks(params, LimitOutOfRange)
    && !Breaks(params, OffsetNotInteger) && !Breaks(params, OffsetNegative)
  }

  function CheckOne(params: Params, issue: QueryIssue): seq<QueryIssue> {
    if Breaks(params, issue) then [issue] else []
  }

  function QueryIssues(params: Params): seq<QueryIssue> {
    CheckOne(params, BlankListingId) + CheckOne(params, BadSort)
    + CheckOne(params, LimitNotInteger) + CheckOne(params, LimitOutOfRange)
    + CheckOne(params, OffsetNotInteger) + CheckOne(params, OffsetNegative)
  }

  lemma IssuesExact(params: Params)
    ensures forall issue :: issue in QueryIssues(params) <==> Breaks(params, issue)
    ensures QueryOk(params) <==> forall issue :: !Breaks(params, issue)
  {
    forall issue: QueryIssue
      ensures issue in QueryIssues(params) <==> Breaks(params, issue)
    {
      var parts := [CheckOne(params, BlankListingId), CheckOne(params, BadSort),
                    CheckOne(params, LimitNotInteger), CheckOne(params, LimitOutOfRange),
                    CheckOne(params, OffsetNotInteger), CheckOne(params, OffsetNegative)];
      assert QueryIssues(params) == parts[0] + parts[1] + parts[2] + parts[3] + parts[4] + parts[5];
    }
  }

  /** The accepted query: `listingId` trimmed, `sort` newest, `limit` 12 and `offset` 0 when absent. */
  function Build(params: Params): (q: Query)
    requires QueryOk(params)
    ensures 1 <= q.limit <= 200
    ensures q.limit as real == LimitOf(params) && q.offset as real == OffsetOf(params)
    ensures params.limit.None? ==> q.limit == 12
    ensures params.offset.None? ==> q.offset == 0
    ensures params.sort.None? ==> q.sort == Newest
    ensures params.listingId.None? <==> q.listingId.None?
    ensures q.listingId.Some? ==> q.listingId.value == Trim(params.listingId.value) && |q.listingId.value| >= 1
  {
    Query(
      if params.listingId.Some? then Some(Trim(params.listingId.value)) else None,
      if params.sort.Some? then ParseSort(params.sort.value).value else Newest,
      LimitOf(params).Floor, OffsetOf(params).Floor)
  }

  /** `Q.parse`: the accepted query, or every broken constraint. */
  function ParseQuery(params: Params): (r: Result<Query, seq<QueryIssue>>)
    ensures r.Success? <==> forall issue :: !Breaks(params, issue)
    ensures r.Success? ==> QueryOk(params) && r.value == Build(params)
    ensures r.Failure? ==> |r.error| > 0 && forall issue :: issue in r.error <==> Breaks(params, issue)
  {
    IssuesExact(params);
    var issues := QueryIssues(params);
    if |issues| == 0 then Success(Build(params))
    else
      assert issues[0] in issues;
      Failure(issues)
  }

  /** The `where` clause: approved, and of the listing when one is given. */
  predicate Visible(listingId: Option<string>, r: Row) {
    r.approved && (listingId.None? || r.listingId == listingId.value)
  }

  /** The `publicSelect` columns; the audit timestamps are left out. */
  datatype PublicReview = PublicReview(
    id: string,
    source: Source,
    listingId: string,
    listingName: Option<string>,
    reviewType: ReviewType,
    channel: Channel,
    status: Option<Status>,
    rating: Option<real>,
    categories: map<string, real>,
    text: Option<string>,
    submittedAt: int,
    authorName: Option<string>,
    approved: bool)

  function ToPublic(r: Row): PublicReview {
    PublicReview(r.id, r.source, r.listingId, r.listingName, r.reviewType, r.channel, r.status,
                 r.rating, r.categories, r.text, r.submittedAt, r.authorName, r.approved)
  }

  /** What a public review shows does not depend on the private feedback or the author's url. */
  lemma ToPublicHidesPrivate(r: Row, feedback: Option<string>, url: Option<string>)
    ensures ToPublic(r.(privateFeedback := feedback, authorUrl := url)) == ToPublic(r)
    ensures ToPublic(r).id == r.id && ToPublic(r).approved == r.approved && ToPublic(r).listingId == r.listingId
  {
  }

  function ToPublicAll(rows: seq<Row>): (out: seq<PublicReview>)
    ensures |out| == |rows|
    ensures forall i :: 0 <= i < |rows| ==> out[i] == ToPublic(rows[i])
  {
    if |rows| == 0 then [] else [ToPublic(rows[0])] + ToPublicAll(rows[1..])
  }

  /** The visible rows in the query's order. */
  function Ordered(listingId: Option<string>, sort: Sort, nullsHigh: bool, rows: seq<Row>): (out: seq<Row>)
    ensures Sorted(sort, nullsHigh, out)
    ensures multiset(out) == multiset(Filter((r: Row) => Visible(listingId, r), rows))
    ensures forall r :: r in out <==> r in rows && Visible(listingId, r)
  {
    var out := SortRows(sort, nullsHigh, Filter((r: Row) => Visible(listingId, r), rows));
    assert forall r :: r in out <==> r in multiset(out);
    out
  }

  datatype Response = Response(count: nat, limit: nat, offset: nat, reviews: seq<PublicReview>)

  /** The reviews of a response are the public view of one window of the ordered visible rows. */
  function Page(ordered: seq<Row>, offset: nat, limit: nat): seq<PublicReview> {
    ToPublicAll(JsSlice(ordered, offset, offset + limit))
  }

  /** The two queries of the handler over the table's rows, `nullsHigh` standing for the database's null placement. */
  function Respond(q: Query, nullsHigh: bool, rows: seq<Row>): (resp: Response)
    ensures resp.count == |Filter((r: Row) => Visible(q.listingId, r), rows)|
    ensures resp.limit == q.limit && resp.offset == q.offset
    ensures resp.reviews == Page(Ordered(q.listingId, q.sort, nullsHigh, rows), q.offset, q.limit)
    ensures |resp.reviews| <= q.limit
  {
    var ordered := Ordered(q.listingId, q.sort, nullsHigh, rows);
    SliceOfNaturals(ordered, q.offset, q.offset + q.limit);
    Response(|Filter((r: Row) => Visible(q.listingId, r), rows)|, q.limit, q.offset,
             Page(ordered, q.offset, q.limit))
  }

  /** The handler: a 400 with the issues for an invalid query, else the response. */
  function ListPublic(params: Params, nullsHigh: bool, rows: seq<Row>): (r: Result<Response, seq<QueryIssue>>)
    ensures r.Failure? <==> ParseQuery(params).Failure?
    ensures r.Failure? ==> r.error == ParseQuery(params).error
    ensures r.Success? ==> r.value == Respond(ParseQuery(params).value, nullsHigh, rows)
  {
    match ParseQuery(params)
    case Failure(issues) => Failure(issues)
    case Success(q) => Success(Respond(q, nullsHigh, rows))
  }

  /** Every public review of a list comes from a row of it. */
  lemma ToPublicAllMembers(rows: seq<Row>, v: PublicReview)
    requires v in ToPublicAll(rows)
    ensures exists r :: r in rows && ToPublic(r) == v
  {
    var i :| 0 <= i < |rows| && ToPublicAll(rows)[i] == v;
    assert rows[i] in rows;
  }

  /** Every review returned is approved, and of the requested listing when one is given. */
  lemma OnlyApproved(q: Query, nullsHigh: bool, rows: seq<Row>)
    ensures forall v :: v in Respond(q, nullsHigh, rows).reviews ==>
      v.approved && (q.listingId.None? || v.listingId == q.listingId.value)
  {
    var ordered := Ordered(q.listingId, q.sort, nullsHigh, rows);
    var page := JsSlice(ordered, q.offset, q.offset + q.limit);
    forall v | v in Respond(q, nullsHigh, rows).reviews
      ensures v.approved && (q.listingId.None? || v.listingId == q.listingId.value)
    {
      ToPublicAllMembers(page, v);
      var r :| r in page && ToPublic(r) == v;
      assert r in ordered;
    }
  }

  lemma {:induction false} ToPublicAllAppend(a: seq<Row>, b: seq<Row>)
    ensures ToPublicAll(a + b) == ToPublicAll(a) + ToPublicAll(b)
  {
    var l, r := ToPublicAll(a + b), ToPublicAll(a) + ToPublicAll(b);
    assert |l| == |r|;
    forall i | 0 <= i < |l|
      ensures l[i] == r[i]
    {
      if i < |a| {
        assert (a + b)[i] == a[i];
      } else {
        assert (a + b)[i] == b[i - |a|];
      }
    }
  }

  /** Adjacent windows of the same rows concatenate to the window spanning both. */
  lemma PagesAdjacent(ordered: seq<Row>, offset: nat, a: nat, b: nat)
    ensures Page(ordered, offset, a) + Page(ordered, offset + a, b) == Page(ordered, offset, a + b)
  {
    var s1 := JsSlice(ordered, offset, offset + a);
    var s2 := JsSlice(ordered, offset + a, offset + a + b);
    SliceAdjacent(ordered, offset, offset + a, offset + a + b);
    assert s1 + s2 == JsSlice(ordered, offset, offset + (a + b));
    ToPublicAllAppend(s1, s2);
  }

  lemma RespondPage(q: Query, listingId: Option<string>, sort: Sort, nullsHigh: bool, rows: seq<Row>)
    requires q.listingId == listingId && q.sort == sort
    ensures Respond(q, nullsHigh, rows).reviews == Page(Ordered(listingId, sort, nullsHigh, rows), q.offset, q.limit)
  {
  }

  /** The page at `offset` of size `a`, then the page at `offset + a` of size `b`, make up the page at `offset` of size `a + b`. */
  lemma ConsecutivePages(q: Query, a: nat, b: nat, nullsHigh: bool, rows: seq<Row>)
    ensures Respond(q.(limit := a), nullsHigh, rows).reviews + Respond(q.(offset := q.offset + a, limit := b), nullsHigh, rows).reviews
      == Respond(q.(limit := a + b), nullsHigh, rows).reviews
  {
    var ordered := Ordered(q.listingId, q.sort, nullsHigh, rows);
    RespondPage(q.(limit := a), q.listingId, q.sort, nullsHigh, rows);
    RespondPage(q.(offset := q.offset + a, limit := b), q.listingId, q.sort, nullsHigh, rows);
    RespondPage(q.(limit := a + b), q.listingId, q.sort, nullsHigh, rows);
    PagesAdjacent(ordered, q.offset, a, b);
  }

  /** The response does not depend on the order in which the table hands its rows over. */
  lemma OrderIndependent(q: Query, nullsHigh: bool, rows1: seq<Row>, rows2: seq<Row>)
    requires multiset(rows1) == multiset(rows2)
    requires DistinctIds(rows1)
    ensures Respond(q, nullsHigh, rows1) == Respond(q, nullsHigh, rows2)
  {
    var visible := (r: Row) => Visible(q.listingId, r);
    var f1 := Filter(visible, rows1);
    var f2 := Filter(visible, rows2);
    FilterPermutation(visible, rows1, rows2);
    assert |f1| == |multiset(f1)| == |multiset(f2)| == |f2|;
    DistinctIdsOfSeq(rows1);
    assert DistinctIdsIn(multiset(f1)) by {
      forall x: Row, y: Row | x in multiset(f1) && y in multiset(f1) && x.id == y.id
        ensures x == y && multiset(f1)[x] == 1
      {
        assert multiset(f1)[x] <= multiset(rows1)[x];
      }
    }
    SortedUnique(q.sort, nullsHigh, Ordered(q.listingId, q.sort, nullsHigh, rows1), Ordered(q.listingId, q.sort, nullsHigh, rows2));
  }
}
