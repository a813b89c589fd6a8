/**
 * The public listing page: its paging state (listing id, sort, offset)
 * with the Prev/Next buttons and the resets, the request it sends, and the
 * partial-star rendering of a rating.
 */
module PublicListing {
  import opened Wrappers
  import opened Strings
  import PublicQuery

  /** Rows per page; the page always asks for this many. */
  const PageSize: nat := 12

  /** The page's state; `sort` is whatever string the URL or the select put there. */
  datatype State = State(listingId: string, sort: string, offset: int)

  /**
   * The state on first render: `listingId` and `sort` from the URL with
   * their fallbacks, and the offset already read as a number.
   */
  function Initial(listingParam: Option<string>, sortParam: Option<string>, offset: int): (s: State)
    ensures s.listingId == listingParam.GetOr("") && s.sort == sortParam.GetOr("newest") && s.offset == offset
  {
    State(listingParam.GetOr(""), sortParam.GetOr("newest"), offset)
  }

  // ---------------------------------------------------------------------
  // Buttons and inputs

  predicate PrevEnabled(s: State) {
    s.offset != 0
  }

  /** Prev: back one page, never below 0. */
  function Prev(s: State): (t: State)
    ensures t.offset >= 0 && t.offset == if s.offset - PageSize >= 0 then s.offset - PageSize else 0
    ensures t.listingId == s.listingId && t.sort == s.sort
  {
    s.(offset := if s.offset - PageSize >= 0 then s.offset - PageSize else 0)
  }

  /** Next is enabled only while the server's count reaches past the current page. */
  predicate NextEnabled(s: State, count: nat) {
    count > s.offset + PageSize
  }

  /** Next: forward one page when enabled, otherwise nothing happens. */
  function Next(s: State, count: nat): (t: State)
    ensures NextEnabled(s, count) ==> t.offset == s.offset + PageSize
    ensures !NextEnabled(s, count) ==> t == s
    ensures t.listingId == s.listingId && t.sort == s.sort
  {
    if count > s.offset + PageSize then s.(offset := s.offset + PageSize) else s
  }

  /** Refresh: back to the first page (the refetch itself is not modelled). */
  function Refresh(s: State): (t: State)
    ensures t.offset == 0 && t.listingId == s.listingId && t.sort == s.sort
  {
    s.(offset := 0)
  }

  /** Clear: every filter back to its default. */
  function Clear(s: State): (t: State)
    ensures t == State("", "newest", 0)
  {
    State("", "newest", 0)
  }

  /** Typing in the listing id field. */
  function SetListing(s: State, listingId: string): (t: State)
    ensures t.listingId == listingId && t.sort == s.sort && t.offset == 0
  {
    s.(listingId := listingId, offset := 0)
  }

  /** Choosing a sort. */
  function SetSort(s: State, sort: string): (t: State)
    ensures t.sort == sort && t.listingId == s.listingId && t.offset == 0
  {
    s.(sort := sort, offset := 0)
  }

  /** The user's actions; the server's count is an input to Next. */
  datatype Action =
    | PrevClick
    | NextClick(count: nat)
    | RefreshClick
    | ClearClick
    | TypeListing(listingId: string)
    | ChooseSort(sort: string)

  function Step(s: State, a: Action): State {
    match a
    case PrevClick => Prev(s)
    case NextClick(count) => Next(s, count)
    case RefreshClick => Refresh(s)
    case ClearClick => Clear(s)
    case TypeListing(id) => SetListing(s, id)
    case ChooseSort(sort) => SetSort(s, sort)
  }

  function Run(s: State, actions: seq<Action>): State
    decreases |actions|
  {
    if |actions| == 0 then s else Run(Step(s, actions[0]), actions[1..])
  }

  // ---------------------------------------------------------------------
  // Properties of the paging

  /** A page boundary: a non-negative multiple of the page size. */
  predicate OnBoundary(s: State) {
    s.offset >= 0 && s.offset % PageSize == 0
  }

  /** Every action keeps the offset on a page boundary. */
  lemma StepKeepsBoundary(s: State, a: Action)
    requires OnBoundary(s)
    ensures OnBoundary(Step(s, a))
  {
  }

  /** So does every run of actions; the offset never goes negative. */
  lemma {:induction false} RunKeepsBoundary(s: State, actions: seq<Action>)
    requires OnBoundary(s)
    ensures OnBoundary(Run(s, actions)) && Run(s, actions).offset >= 0
    decreases |actions|
  {
    if |actions| > 0 {
      StepKeepsBoundary(s, actions[0]);
      RunKeepsBoundary(Step(s, actions[0]), actions[1..]);
    }
  }

  /** Refresh, Clear, a new listing id and a new sort all go back to the first page, whatever the offset was. */
  lemma ResetsLandOnFirstPage(s: State, listingId: string, sort: string)
    ensures Refresh(s).offset == 0 && Clear(s).offset == 0
    ensures SetListing(s, listingId).offset == 0 && SetSort(s, sort).offset == 0
    ensures OnBoundary(Refresh(s)) && OnBoundary(Clear(s))
  {
  }

  /** Prev is disabled exactly on the first page, and clicking it there changes nothing. */
  lemma PrevAtStart(s: State)
    ensures !PrevEnabled(s) <==> s.offset == 0
    ensures s.offset == 0 ==> Prev(s) == s
  {
  }

  /** A page reached with Next starts inside the result: it is never empty. */
  lemma NextStaysInside(s: State, count: nat)
    requires NextEnabled(s, count)
    ensures Next(s, count).offset < count && Next(s, count).offset > s.offset
  {
  }

  /** Prev undoes Next whenever Next moved from a non-negative offset. */
  lemma PrevUndoesNext(s: State, count: nat)
    requires s.offset >= 0 && NextEnabled(s, count)
    ensures Prev(Next(s, count)) == s
  {
  }

  /** Next undoes Prev from any later page on a boundary that is inside the result. */
  lemma NextUndoesPrev(s: State, count: nat)
    requires OnBoundary(s) && s.offset > 0 && count > s.offset
    ensures Next(Prev(s), count) == s
  {
    assert s.offset >= PageSize;
  }

  // ---------------------------------------------------------------------
  // The request

  /** `fetchPublicReviews`: an empty listing id is not sent; `limit` is always the page size. */
  function Request(s: State): (params: PublicQuery.Params)
    ensures params.listingId.None? <==> s.listingId == ""
    ensures params.listingId.Some? ==> params.listingId.value == s.listingId
    ensures params.sort == Some(s.sort) && params.limit == Some(PageSize as real)
    ensures params.offset == Some(s.offset as real)
  {
    PublicQuery.Params(if s.listingId == "" then None else Some(s.listingId), Some(s.sort),
                       Some(PageSize as real), Some(s.offset as real))
  }

  /** A request with a non-negative offset, one of the four sorts and a listing id that is empty or not blank is accepted as sent. */
  lemma RequestAccepted(s: State)
    requires s.offset >= 0
    requires s.sort in {"newest", "oldest", "rating_desc", "rating_asc"}
    requires s.listingId == "" || |Trim(s.listingId)| > 0
    ensures PublicQuery.ParseQuery(Request(s)).Success?
    ensures PublicQuery.ParseQuery(Request(s)).value.offset == s.offset
    ensures PublicQuery.ParseQuery(Request(s)).value.limit == PageSize
  {
    RequestOk(s);
    PublicQuery.IssuesExact(Request(s));
  }

  lemma RequestOk(s: State)
    requires s.offset >= 0
    requires s.sort in {"newest", "oldest", "rating_desc", "rating_asc"}
    requires s.listingId == "" || |Trim(s.listingId)| > 0
    ensures PublicQuery.QueryOk(Request(s))
    ensures PublicQuery.OffsetOf(Request(s)) == s.offset as real && PublicQuery.LimitOf(Request(s)) == 12.0
  {
    var params := Request(s);
    assert (s.offset as real).Floor == s.offset;
    assert !PublicQuery.Breaks(params, PublicQuery.BlankListingId);
    assert !PublicQuery.Breaks(params, PublicQuery.BadSort);
  }

  /** A listing id of spaces only is sent, and the server refuses the request. */
  lemma BlankListingRejected(s: State)
    requires s.listingId != "" && |Trim(s.listingId)| == 0
    ensures PublicQuery.ParseQuery(Request(s)).Failure?
    ensures PublicQuery.BlankListingId in PublicQuery.ParseQuery(Request(s)).error
  {
    assert PublicQuery.Breaks(Request(s), PublicQuery.BlankListingId);
  }

  // ---------------------------------------------------------------------
  // Stars

  /** The value shown, clamped to [0, 5]. */
  function Safe(value: real): (v: real)
    ensures 0.0 <= v <= 5.0
    ensures 0.0 <= value <= 5.0 ==> v == value
  {
    if value < 0.0 then 0.0 else if value > 5.0 then 5.0 else value
  }

  /** The fill of star `i` (0 to 4): full before the fractional star, empty after it, and the fraction (snapped up above 0.8) on it. */
  function Fill(value: real, i: nat): (f: real)
  {
    var safe := Safe(value);
    var whole := safe.Floor;
    var frac := safe - whole as real;
    if i < whole then 1.0
    else if i == whole then (if frac > 0.8 then 1.0 else frac)
    else 0.0
  }

  /** Every fill lies in [0, 1]; stars before `floor(safe)` are full and stars after it empty. */
  lemma FillBounds(value: real, i: nat)
    ensures 0.0 <= Fill(value, i) <= 1.0
    ensures i < Safe(value).Floor ==> Fill(value, i) == 1.0
    ensures i > Safe(value).Floor ==> Fill(value, i) == 0.0
  {
  }

  /** Fills never increase from left to right. */
  lemma FillMonotone(value: real, i: nat, j: nat)
    requires i <= j
    ensures Fill(value, j) <= Fill(value, i)
  {
    FillBounds(value, i);
    FillBounds(value, j);
  }

  /** The five fills added up. */
  function Shown(value: real): real {
    Fill(value, 0) + Fill(value, 1) + Fill(value, 2) + Fill(value, 3) + Fill(value, 4)
  }

  /** The stars show the clamped value, or up to 0.2 more when the fraction is snapped up. */
  lemma ShownCloseToValue(value: real)
    ensures Safe(value) <= Shown(value) < Safe(value) + 0.2
    ensures Safe(value) - Safe(value).Floor as real <= 0.8 ==> Shown(value) == Safe(value)
  {
    var safe := Safe(value);
    var whole := safe.Floor;
    assert 0 <= whole <= 5;
    if whole == 5 {
      assert safe == 5.0;
    }
  }
}
