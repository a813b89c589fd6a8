/**
 * The canonical review: its enumerations, the record itself, and
 * `ReviewSchema.parse` as a function from a candidate object to either a
 * review or the list of violated constraints.
 */
module Domain {
  import opened Wrappers
  import opened Runtime
  import opened Seqs

  datatype Source = Hostaway | Google

  datatype ReviewType = GuestToHost | HostToGuest

  datatype Channel = Airbnb | Booking | Vrbo | Direct | Unknown

  datatype Status = Awaiting | Published | Pending | Scheduled | Expired

  function TypeName(t: ReviewType): string {
    match t
    case GuestToHost => "guest_to_host"
    case HostToGuest => "host_to_guest"
  }

  function ChannelName(c: Channel): string {
    match c
    case Airbnb => "airbnb"
    case Booking => "booking"
    case Vrbo => "vrbo"
    case Direct => "direct"
    case Unknown => "unknown"
  }

  function StatusName(s: Status): string {
    match s
    case Awaiting => "awaiting"
    case Published => "published"
    case Pending => "pending"
    case Scheduled => "scheduled"
    case Expired => "expired"
  }

  /** `z.enum([...])` for the review type: accepts exactly the two wire names. */
  function ParseType(s: string): (r: Option<ReviewType>)
    ensures r.Some? ==> TypeName(r.value) == s
    ensures forall t :: s == TypeName(t) ==> r == Some(t)
  {
    if s == "guest_to_host" then Some(GuestToHost)
    else if s == "host_to_guest" then Some(HostToGuest)
    else None
  }

  /** `z.enum([...])` for the channel: accepts exactly the five wire names. */
  function ParseChannel(s: string): (r: Option<Channel>)
    ensures r.Some? ==> ChannelName(r.value) == s
    ensures forall c :: s == ChannelName(c) ==> r == Some(c)
  {
    if s == "airbnb" then Some(Airbnb)
    else if s == "booking" then Some(Booking)
    else if s == "vrbo" then Some(Vrbo)
    else if s == "direct" then Some(Direct)
    else if s == "unknown" then Some(Unknown)
    else None
  }

  /** `z.enum([...])` for the status: accepts exactly the five wire names. */
  function ParseStatus(s: string): (r: Option<Status>)
    ensures r.Some? ==> StatusName(r.value) == s
    ensures forall t :: s == StatusName(t) ==> r == Some(t)
  {
    if s == "awaiting" then Some(Awaiting)
    else if s == "published" then Some(Published)
    else if s == "pending" then Some(Pending)
    else if s == "scheduled" then Some(Scheduled)
    else if s == "expired" then Some(Expired)
    else None
  }

  datatype Author = Author(name: Option<string>, url: Option<string>)

  datatype ExternalIds = ExternalIds(reviewId: Option<string>, reservationId: Option<string>, placeId: Option<string>)

  /** The canonical review. `None` stands for both an absent key and `null`. */
  datatype Review = Review(
    id: string,
    source: Source,
    listingId: string,
    listingName: Option<string>,
    reviewType: ReviewType,
    channel: Channel,
    status: Option<Status>,
    rating: Option<real>,
    categories: map<string, real>,
    text: Option<string>,
    privateFeedback: Option<string>,
    submittedAt: string,
    author: Option<Author>,
    approved: bool,
    externalIds: Option<ExternalIds>)

  /**
   * The object handed to `ReviewSchema.parse`: the two defaulted keys may be
   * missing, and `channel` is `None` when the value there is not a string at
   * all (an inherited `Object.prototype` member, say).
   */
  datatype Candidate = Candidate(
    id: string,
    source: Source,
    listingId: string,
    listingName: Option<string>,
    reviewType: ReviewType,
    channel: Option<Channel>,
    status: Option<Status>,
    rating: Option<real>,
    categories: Option<map<string, real>>,
    text: Option<string>,
    privateFeedback: Option<string>,
    submittedAt: string,
    author: Option<Author>,
    approved: Option<bool>,
    externalIds: Option<ExternalIds>)

  predicate RatingInRange(rating: Option<real>) {
    rating.None? || 0.0 <= rating.value <= 5.0
  }

  predicate AuthorValid(author: Option<Author>, p: Platform) {
    author.None?
    || (&& (author.value.name.None? || |author.value.name.value| >= 1)
        && (author.value.url.None? || p.urlHostname(author.value.url.value).Some?))
  }

  /** Every constraint of `ReviewSchema` that a value of type `Review` does not already carry. */
  predicate ValidReview(r: Review, p: Platform) {
    && |r.id| >= 1
    && |r.listingId| >= 1
    && RatingInRange(r.rating)
    && p.parseDate(r.submittedAt).Some?
    && AuthorValid(r.author, p)
  }

  datatype SchemaIssue =
    | EmptyId
    | EmptyListingId
    | ChannelNotInEnum
    | RatingBelowZero
    | RatingAboveFive
    | SubmittedAtNotADate
    | EmptyAuthorName
    | AuthorUrlNotAUrl

  /** Whether the candidate breaks the constraint behind `issue`. */
  predicate Violates(c: Candidate, p: Platform, issue: SchemaIssue) {
    match issue
    case EmptyId => |c.id| == 0
    case EmptyListingId => |c.listingId| == 0
    case ChannelNotInEnum => c.channel.None?
    case RatingBelowZero => c.rating.Some? && c.rating.value < 0.0
    case RatingAboveFive => c.rating.Some? && c.rating.value > 5.0
    case SubmittedAtNotADate => p.parseDate(c.submittedAt).None?
    case EmptyAuthorName =>
      c.author.Some? && c.author.value.name.Some? && |c.author.value.name.value| == 0
    case AuthorUrlNotAUrl =>
      c.author.Some? && c.author.value.url.Some? && p.urlHostname(c.author.value.url.value).None?
  }

  function Check(c: Candidate, p: Platform, issue: SchemaIssue): seq<SchemaIssue> {
    if Violates(c, p, issue) then [issue] else []
  }

  /** The violated constraints, in the order of the schema's keys. */
  function Issues(c: Candidate, p: Platform): (issues: seq<SchemaIssue>)
  {
    Check(c, p, EmptyId) + Check(c, p, EmptyListingId) + Check(c, p, ChannelNotInEnum) + Check(c, p, RatingBelowZero)
    + Check(c, p, RatingAboveFive) + Check(c, p, SubmittedAtNotADate)
    + Check(c, p, EmptyAuthorName) + Check(c, p, AuthorUrlNotAUrl)
  }

  /** The issues listed are exactly the violated constraints. */
  lemma IssuesExact(c: Candidate, p: Platform)
    ensures forall issue :: issue in Issues(c, p) <==> Violates(c, p, issue)
  {
    forall issue: SchemaIssue
      ensures issue in Issues(c, p) <==> Violates(c, p, issue)
    {
      var parts := [Check(c, p, EmptyId), Check(c, p, EmptyListingId), Check(c, p, ChannelNotInEnum),
                    Check(c, p, RatingBelowZero), Check(c, p, RatingAboveFive), Check(c, p, SubmittedAtNotADate),
                    Check(c, p, EmptyAuthorName), Check(c, p, AuthorUrlNotAUrl)];
      assert Issues(c, p) == parts[0] + parts[1] + parts[2] + parts[3] + parts[4] + parts[5] + parts[6] + parts[7];
    }
  }

  /** The candidate with the schema's defaults filled in: `approved` false, `categories` empty. */
  function WithDefaults(c: Candidate): (r: Review)
    requires c.channel.Some?
    ensures r.channel == c.channel.value
    ensures r.approved == (c.approved == Some(true))
    ensures c.categories.None? ==> r.categories == map[]
    ensures c.categories.Some? ==> r.categories == c.categories.value
  {
    Review(c.id, c.source, c.listingId, c.listingName, c.reviewType, c.channel.value, c.status,
           c.rating, c.categories.GetOr(map[]), c.text, c.privateFeedback, c.submittedAt,
           c.author, c.approved.GetOr(false), c.externalIds)
  }

  /** The schema accepts the candidate: its channel is an enum name and, completed, it is a valid review. */
  predicate Accepted(c: Candidate, p: Platform) {
    c.channel.Some? && ValidReview(WithDefaults(c), p)
  }

  /** A candidate is accepted exactly when it breaks none of the schema's constraints. */
  lemma ValidIffNoViolation(c: Candidate, p: Platform)
    ensures Accepted(c, p) <==> forall issue :: !Violates(c, p, issue)
  {
    if c.channel.None? {
      assert Violates(c, p, ChannelNotInEnum);
    } else if !ValidReview(WithDefaults(c), p) {
      if |c.id| == 0 {
        assert Violates(c, p, EmptyId);
      } else if |c.listingId| == 0 {
        assert Violates(c, p, EmptyListingId);
      } else if c.rating.Some? && c.rating.value < 0.0 {
        assert Violates(c, p, RatingBelowZero);
      } else if c.rating.Some? && c.rating.value > 5.0 {
        assert Violates(c, p, RatingAboveFive);
      } else if p.parseDate(c.submittedAt).None? {
        assert Violates(c, p, SubmittedAtNotADate);
      } else if c.author.Some? && c.author.value.name.Some? && |c.author.value.name.value| == 0 {
        assert Violates(c, p, EmptyAuthorName);
      } else {
        assert Violates(c, p, AuthorUrlNotAUrl);
      }
    }
  }

  /** `ReviewSchema.parse`: the completed candidate, or every violated constraint. */
  function ParseReview(c: Candidate, p: Platform): (r: Result<Review, seq<SchemaIssue>>)
    ensures r.Success? <==> Accepted(c, p)
    ensures r.Success? ==> c.channel.Some? && r.value == WithDefaults(c)
    ensures r.Failure? ==> |r.error| > 0 && forall issue :: issue in r.error <==> Violates(c, p, issue)
  {
    IssuesExact(c, p);
    ValidIffNoViolation(c, p);
    var issues := Issues(c, p);
    if |issues| == 0 then Success(WithDefaults(c))
    else
      assert Violates(c, p, issues[0]);
      Failure(issues)
  }
}
