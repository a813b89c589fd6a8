/**
 * The manager dashboard's own logic: the optimistic approval toggle on the
 * cached page and its rollback, the KPI figures over the page, the filter
 * merge that sends the list back to its first page, and `fromDateInput`.
 */
module Dashboard {
  import opened Wrappers
  import opened Seqs
  import opened Domain

  // ---------------------------------------------------------------------
  // The optimistic toggle

  /** The cached response for the current filters: the page and the server's count. */
  datatype Page = Page(reviews: seq<Review>, count: nat)

  /** The reviews with `approved` set on those whose id is `id`. */
  function SetApproved(list: seq<Review>, id: string, approved: bool): (out: seq<Review>)
    ensures |out| == |list|
    ensures forall i :: 0 <= i < |list| && list[i].id == id ==> out[i] == list[i].(approved := approved)
    ensures forall i :: 0 <= i < |list| && list[i].id != id ==> out[i] == list[i]
  {
    if |list| == 0 then []
    else [if list[0].id == id then list[0].(approved := approved) else list[0]]
         + SetApproved(list[1..], id, approved)
  }

  /** Only `approved` changes, and only on the matching reviews: ids, order and all other fields stay. */
  lemma SetApprovedChangesOnlyApproval(list: seq<Review>, id: string, approved: bool)
    ensures var out := SetApproved(list, id, approved);
      forall i :: 0 <= i < |list| ==>
        && out[i].(approved := list[i].approved) == list[i]
        && out[i].id == list[i].id
        && (out[i].approved == if list[i].id == id then approved else list[i].approved)
  {
  }

  /** `onMutate`: the new cache entry and the snapshot handed to `onError`. */
  function OnMutate(cache: Option<Page>, id: string, approved: bool): (r: (Option<Page>, Option<Page>))
    ensures r.1 == cache
    ensures cache.None? ==> r.0 == None
    ensures cache.Some? ==> r.0 == Some(cache.value.(reviews := SetApproved(cache.value.reviews, id, approved)))
  {
    if cache.Some? then (Some(cache.value.(reviews := SetApproved(cache.value.reviews, id, approved))), cache)
    else (cache, cache)
  }

  /** `onError`: put the snapshot back when there was one. */
  function OnError(cache: Option<Page>, snapshot: Option<Page>): (r: Option<Page>)
    ensures snapshot.Some? ==> r == snapshot
    ensures snapshot.None? ==> r == cache
  {
    if snapshot.Some? then snapshot else cache
  }

  /** A failed toggle leaves the cache exactly as it was before, whatever was cached in between. */
  lemma RollbackRestores(cache: Option<Page>, id: string, approved: bool, meanwhile: Option<Page>)
    ensures OnError(OnMutate(cache, id, approved).0, OnMutate(cache, id, approved).1) == cache
    ensures cache.Some? ==> OnError(meanwhile, OnMutate(cache, id, approved).1) == cache
  {
  }

  // ---------------------------------------------------------------------
  // KPIs

  /** `Math.round` on a real: the nearest integer, halves rounded up. */
  function Round(x: real): (n: int)
    ensures x - 0.5 < n as real <= x + 0.5
  {
    (x + 0.5).Floor
  }

  /** The numeric ratings of the page, in order. */
  function Ratings(list: seq<Review>): (nums: seq<real>)
    ensures |nums| <= |list|
    ensures |nums| == 0 <==> forall i :: 0 <= i < |list| ==> list[i].rating.None?
    ensures (forall i :: 0 <= i < |list| ==> RatingInRange(list[i].rating)) ==>
      forall j :: 0 <= j < |nums| ==> 0.0 <= nums[j] <= 5.0
  {
    if |list| == 0 then []
    else
      var rest := Ratings(list[1..]);
      assert forall i :: 1 <= i < |list| ==> list[1..][i - 1] == list[i];
      (if list[0].rating.Some? then [list[0].rating.value] else []) + rest
  }

  function Sum(xs: seq<real>): real {
    if |xs| == 0 then 0.0 else xs[0] + Sum(xs[1..])
  }

  lemma {:induction false} SumBounds(xs: seq<real>, lo: real, hi: real)
    requires forall j :: 0 <= j < |xs| ==> lo <= xs[j] <= hi
    ensures |xs| as real * lo <= Sum(xs) <= |xs| as real * hi
  {
    if |xs| > 0 {
      SumBounds(xs[1..], lo, hi);
    }
  }

  datatype Kpis = Kpis(count: nat, approved: nat, approvedPct: int, avgRating: Option<real>)

  lemma MeanBounds(nums: seq<real>)
    requires |nums| > 0
    ensures (forall j :: 0 <= j < |nums| ==> 0.0 <= nums[j] <= 5.0) ==>
      0.0 <= Sum(nums) / |nums| as real <= 5.0
  {
    if forall j :: 0 <= j < |nums| ==> 0.0 <= nums[j] <= 5.0 {
      SumBounds(nums, 0.0, 5.0);
    }
  }

  /** The mean, to one decimal. */
  function Average(nums: seq<real>): (avg: real)
    requires |nums| > 0
    ensures (forall j :: 0 <= j < |nums| ==> 0.0 <= nums[j] <= 5.0) ==> 0.0 <= avg <= 5.0
  {
    var mean := Sum(nums) / |nums| as real;
    MeanBounds(nums);
    Round(mean * 10.0) as real / 10.0
  }

  /** `approvedPct`: the rounded percentage, 0 for an empty page. */
  function ApprovedPct(approved: nat, count: nat): (pct: int)
    requires approved <= count
    ensures count == 0 ==> pct == 0
    ensures 0 <= pct <= 100
    ensures approved == 0 ==> pct == 0
    ensures count > 0 && approved == count ==> pct == 100
  {
    if count == 0 then 0
    else
      var ratio := approved as real / count as real;
      assert ratio * count as real == approved as real;
      assert 0.0 <= ratio <= 1.0;
      assert approved == count ==> ratio == 1.0;
      Round(ratio * 100.0)
  }

  /** `avgRating`: `null` without numeric ratings, else their rounded mean. */
  function AvgRating(list: seq<Review>): (avg: Option<real>)
    ensures avg.None? <==> forall i :: 0 <= i < |list| ==> list[i].rating.None?
    ensures avg.Some? && (forall i :: 0 <= i < |list| ==> RatingInRange(list[i].rating)) ==>
      0.0 <= avg.value <= 5.0
  {
    var nums := Ratings(list);
    if |nums| == 0 then None else Some(Average(nums))
  }

  /** The KPI figures over the cached page. */
  function ComputeKpis(list: seq<Review>): (k: Kpis)
    ensures k.count == |list|
    ensures k.approved == |Filter((r: Review) => r.approved, list)| && k.approved <= k.count
    ensures k.count == 0 ==> k.approvedPct == 0
    ensures 0 <= k.approvedPct <= 100
    ensures k.approved == 0 ==> k.approvedPct == 0
    ensures k.count > 0 && k.approved == k.count ==> k.approvedPct == 100
    ensures k.avgRating.None? <==> forall i :: 0 <= i < |list| ==> list[i].rating.None?
    ensures k.avgRating.Some? && (forall i :: 0 <= i < |list| ==> RatingInRange(list[i].rating)) ==>
      0.0 <= k.avgRating.value <= 5.0
  {
    var approved := Count((r: Review) => r.approved, list);
    Kpis(|list|, approved, ApprovedPct(approved, |list|), AvgRating(list))
  }

  // ---------------------------------------------------------------------
  // Filters

  /** The dashboard's query state; `None` is an absent key. */
  datatype Filters = Filters(
    id: Option<string>,
    listingId: Option<string>,
    reviewType: Option<ReviewType>,
    status: Option<Status>,
    channel: Option<Channel>,
    minRating: Option<real>,
    maxRating: Option<real>,
    from: Option<string>,
    to: Option<string>,
    q: Option<string>,
    limit: Option<int>,
    offset: Option<int>)

  /** One key of a patch: absent (`Keep`), or present with a value that may be `undefined`. */
  datatype Upd<T> = Keep | Put(v: Option<T>)

  function Apply<T>(prior: Option<T>, u: Upd<T>): (r: Option<T>)
    ensures u.Keep? ==> r == prior
    ensures u.Put? ==> r == u.v
  {
    match u
    case Keep => prior
    case Put(v) => v
  }

  datatype Patch = Patch(
    id: Upd<string>,
    listingId: Upd<string>,
    reviewType: Upd<ReviewType>,
    status: Upd<Status>,
    channel: Upd<Channel>,
    minRating: Upd<real>,
    maxRating: Upd<real>,
    from: Upd<string>,
    to: Upd<string>,
    q: Upd<string>,
    limit: Upd<int>)

  const Initial: Filters := Filters(None, None, None, None, None, None, None, None, None, None, Some(50), Some(0))

  /** `{ ...prev, ...patch, offset: 0 }`: a key present in the patch wins, even with `undefined`. */
  function Merge(prev: Filters, patch: Patch): (f: Filters)
    ensures f.offset == Some(0)
    ensures patch.limit.Keep? ==> f.limit == prev.limit
    ensures f.listingId == Apply(prev.listingId, patch.listingId)
    ensures f.channel == Apply(prev.channel, patch.channel)
  {
    Filters(
      Apply(prev.id, patch.id), Apply(prev.listingId, patch.listingId),
      Apply(prev.reviewType, patch.reviewType), Apply(prev.status, patch.status),
      Apply(prev.channel, patch.channel), Apply(prev.minRating, patch.minRating),
      Apply(prev.maxRating, patch.maxRating), Apply(prev.from, patch.from), Apply(prev.to, patch.to),
      Apply(prev.q, patch.q), Apply(prev.limit, patch.limit), Some(0))
  }

  /** The Clear button's patch: every filter key present and `undefined`; `limit` absent. */
  const ClearPatch: Patch := Patch(Put(None), Put(None), Put(None), Put(None), Put(None), Put(None),
                                   Put(None), Put(None), Put(None), Put(None), Keep)

  /** A patch as the filter inputs send it: it never names `limit`. */
  predicate FromInputs(patch: Patch) {
    patch.limit.Keep?
  }

  /** Any change from the inputs goes back to the first page and keeps the page size. */
  lemma MergeResetsOffset(prev: Filters, patch: Patch)
    requires FromInputs(patch)
    ensures Merge(prev, patch).offset == Some(0) && Merge(prev, patch).limit == prev.limit
  {
  }

  /** Clearing drops every filter and keeps only the page size. */
  lemma ClearKeepsOnlyLimit(prev: Filters)
    ensures Merge(prev, ClearPatch) == Initial.(limit := prev.limit)
  {
  }

  /** Applying the same patch twice is applying it once. */
  lemma MergeIdempotent(prev: Filters, patch: Patch)
    ensures Merge(Merge(prev, patch), patch) == Merge(prev, patch)
  {
  }

  /** A key the patch leaves out keeps its value; only `offset` changes regardless. */
  lemma MergeKeepsAbsentKeys(prev: Filters, patch: Patch)
    requires patch.id.Keep? && patch.listingId.Keep? && patch.reviewType.Keep? && patch.status.Keep?
    requires patch.channel.Keep? && patch.minRating.Keep? && patch.maxRating.Keep?
    requires patch.from.Keep? && patch.to.Keep? && patch.q.Keep? && patch.limit.Keep?
    ensures Merge(prev, patch) == prev.(offset := Some(0))
  {
  }

  /** `fromDateInput`: an empty or missing date input is no bound. */
  function FromDateInput(v: Option<string>): (r: Option<string>)
    ensures r.None? <==> v.None? || v.value == ""
    ensures r.Some? ==> r == v
  {
    if v.Some? && |v.value| > 0 then v else None
  }
}
