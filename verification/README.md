# flex-reviews core, modelled in Dafny

This project models the review pipeline of the flex-reviews backend and the
state logic of its two front-end pages, and proves properties of the model.

- **Normaliser** (`Normalize`, `ChannelMap`, `Dates`). A loosely shaped
  Hostaway record becomes a canonical review:
  - the id is derived from the upstream id, or from a random token;
  - the listing id falls back from `listingMapId` to `listingId` to `"unknown"`;
  - type and status are mapped case-insensitively;
  - the channel id is looked up in a table (an id naming an inherited
    `Object.prototype` member gets that member, and the record is dropped);
  - the date is rewritten to ISO form, with a clock fallback;
  - the category list is folded into a map;
  - the result is checked against the canonical schema.

  The batch variant drops records that fail and keeps the rest in order.
- **Canonical schema** (`Domain`): `ReviewSchema` as a validity predicate and
  a parse that reports exactly the violated constraints.
- **Admin query** (`AdminQuery`): the `/api/reviews/hostaway` query schema,
  the AND of its filters and the slice pagination, fractional bounds
  included.
- **Public query** (`PublicQuery`, `RowOrder`, `Store`): the
  `/api/public/reviews` schema, the approved-only `where` clause, the ordering
  by primary key then id, skip/take, the count, and the public column
  selection. The database is an in-memory sequence of rows.
- **Seed script** (`Seed`): item extraction and the upsert by id over a table
  modelled as a map from id to row.
- **Request gates** (`Gate`): allow-list parsing, the CORS origin decision,
  the CSRF guard, and the headers the front end's state-changing calls send.
- **Environment** (`Config`): the `Env` schema with its length rules and
  defaults.
- **Dashboard** (`Dashboard`): the optimistic approval toggle and its
  rollback, the KPI figures, the filter merge, and `fromDateInput`.
- **Public listing page** (`PublicListing`): the Prev/Next/reset paging
  state, the request it sends, and the star fills.

The runtime functions the code relies on are parameters, bundled in
`Runtime.Platform`:
- `Date.parse` and `toISOString`;
- `String(number)`;
- `new URL(..).hostname`.

The facts the lemmas need about them are stated as predicates
(`DatesCoherent`, `IntegersInDecimal`). The clock and `Math.random` become a
per-record `Ambient` value. Numbers are `real`.

Where the documented behaviour and the code differ, the model follows the code.
That includes the defects under "## Findings". Each of them also has a
corrected variant, kept beside the as-written member and not used by the rest
of the model. The differences:
- A category item whose rating is not a number does not merely lose that
  category. The loose intake schema rejects the whole record, so it is dropped
  (`Normalize.MistypedCategoryRejected`).
- The listing id is not always non-empty. `listingMapId: ""` is kept by `??`,
  gives an empty id, and the record fails the schema
  (`Normalize.ListingKeyEmpty`, `Normalize.EmptyListingMapIdRejected`).
- An empty `submittedAt` is kept by `??`. `departureDate` is then not
  consulted, and the clock is used (`Normalize.EmptySubmittedAtUsesClock`).
- A review without a rating fails any `maxRating` below 5 and any
  `minRating` above 0 (`AdminQuery.UnratedQuirk`).
- A category named `__proto__` never becomes a key. Assigning it on a plain
  object sets the prototype instead of creating a property.
- A channel id such as `"toString"` reaches the channel enum as a function, so
  the record is dropped rather than given channel `unknown`
  (`Normalize.InheritedChannelRejected`).
- The admin route accepts a fractional `limit` or `offset`, and `slice`
  truncates them, so a page can hold more than `limit` reviews
  (`AdminQuery.FractionalQueryServed`).
- The dashboard's approval toggle sends its `PATCH` without
  `X-Requested-With`, so the CSRF guard answers it with 400
  (`Gate.ClientCallsAsWritten`).
- `toIsoDate` takes `unknown`; only its string and non-string cases matter,
  so its input is an optional string.

Lower-casing is ASCII-only. None of the words compared after `toLowerCase` can
be produced by lower-casing a non-ASCII character, so the comparisons come out
the same.

## Model

| member | source | states |
|---|---|---|
| Domain.ParseType | flex-reviews/backend/src/domain/review.ts:17 | the type enum accepts exactly the two wire names, and reads each back as the value that prints as it |
| Domain.ParseChannel | flex-reviews/backend/src/domain/review.ts:21 | the channel enum accepts exactly the five wire names, each read back to its channel |
| Domain.ParseStatus | flex-reviews/backend/src/domain/review.ts:25 | the status enum accepts exactly the five wire names, each read back to its status |
| Domain.ValidReview | flex-reviews/backend/src/domain/review.ts:38-63 | the definition: the schema constraints a `Review` value does not already carry by its type (non-empty id and listing id, rating in [0, 5], a parseable date, a valid author); `Domain.ValidIffNoViolation` relates it to the issue list |
| Domain.IssuesExact | flex-reviews/backend/src/domain/review.ts:38-63 | the issues reported are exactly the schema constraints the candidate violates |
| Domain.WithDefaults | flex-reviews/backend/src/domain/review.ts:47-54 | `approved` becomes false and `categories` the empty map when missing; given values, the channel included, are kept |
| Domain.ValidIffNoViolation | flex-reviews/backend/src/domain/review.ts:38-63 | a candidate is accepted (its channel is an enum name and, completed, it is a valid review) exactly when it violates none of the schema's constraints |
| Domain.ParseReview | flex-reviews/backend/src/domain/review.ts:38-63 | parsing succeeds iff the candidate's channel is an enum name and the completed candidate is valid, returns it unchanged, and otherwise lists exactly the violated constraints |
| ChannelMap.MapChannelId | flex-reviews/backend/src/services/hostaway/channelMap.ts:9-20 | a missing id is `unknown`; an id whose string form is in the table gets that entry; anything else is `unknown`; the result is never `direct` |
| ChannelMap.MapChannelIdAsWritten | flex-reviews/backend/src/services/hostaway/channelMap.ts:16-20 | the lookup as written: it yields a non-channel exactly when the id's string names an inherited `Object.prototype` property, and agrees with the own-property lookup otherwise |
| ChannelMap.InheritedKeyIsNotAChannel | flex-reviews/backend/src/services/hostaway/channelMap.ts:19 | `"toString"` and `"__proto__"` reach inherited properties, which are not channel names, while the own-property lookup gives `unknown` |
| ChannelMap.ChannelOfString | flex-reviews/backend/src/services/hostaway/channelMap.ts:9-14 | a string id is airbnb, booking or vrbo exactly when it is `"1"`, `"2"` or `"3"`, and `unknown` exactly when it is not in the table |
| ChannelMap.NumberLikeString | flex-reviews/backend/src/services/hostaway/channelMap.ts:18 | a number and its decimal string map to the same channel |
| ChannelMap.ChannelOfInteger | flex-reviews/backend/src/services/hostaway/channelMap.ts:9-19 | an integral id maps to airbnb, booking or vrbo exactly when it is 1, 2 or 3 |
| ChannelMap.TestedChannels | flex-reviews/backend/src/services/hostaway/channelMap.ts:16-20 | `1` is airbnb; `999`, `"999"`, `"abc"` and a missing id are `unknown` |
| Dates.LooksIso | flex-reviews/backend/src/utils/date.ts:9 | the definition: a string is taken as ISO-like when it contains `T` or ends in `Z`; `Dates.Rewrite` leaves exactly those unchanged |
| Dates.Usable | flex-reviews/backend/src/utils/date.ts:6 | the definition: a string with a non-blank character; `Dates.ToIsoDate` falls back on every other input |
| Dates.Fallback | flex-reviews/backend/src/utils/date.ts:16 | the definition: the current instant in ISO form, or `""` when the fallback is off |
| Dates.Rewrite | flex-reviews/backend/src/utils/date.ts:8-11 | an input containing `T` or ending in `Z` is kept; otherwise the first space becomes `T` and `Z` is appended; the result always looks ISO-like |
| Dates.RewriteIdempotent | flex-reviews/backend/src/utils/date.ts:8-11 | rewriting a rewritten string changes nothing |
| Dates.RewriteDateTime | flex-reviews/backend/src/utils/date.ts:8-11 | `date time` becomes `dateTtimeZ` for the upstream `YYYY-MM-DD hh:mm:ss` shape |
| Dates.ToIsoDate | flex-reviews/backend/src/utils/date.ts:5-17 | a missing or blank input, or one whose rewrite does not parse, gives the fallback; otherwise the ISO rendering of the parsed instant |
| Dates.ToIsoDatePreservesInstant | flex-reviews/backend/src/utils/date.ts:12-13 | when the input parses, the result parses back to the same instant |
| Dates.ToIsoDateParses | flex-reviews/backend/src/utils/date.ts:5-17 | with the default fallback the result always parses as a date |
| Dates.ToIsoDateClockFree | flex-reviews/backend/src/utils/date.ts:12-13 | a usable date gives the same result whatever the clock says |
| Normalize.GetScalar | flex-reviews/backend/src/services/hostaway/normalize.ts:25-26 | an optional string-or-number key reads as absent exactly when missing, and as the value stored otherwise |
| Normalize.GetString | flex-reviews/backend/src/services/hostaway/normalize.ts:28-31 | an optional string key reads as absent exactly when missing, and as the stored string otherwise |
| Normalize.GetNumber | flex-reviews/backend/src/services/hostaway/normalize.ts:44 | an optional number key reads as absent exactly when missing, and as the stored number otherwise |
| Normalize.GetNullableString | flex-reviews/backend/src/services/hostaway/normalize.ts:33-34 | a nullable string key reads as absent exactly when missing or `null` |
| Normalize.GetNullableNumber | flex-reviews/backend/src/services/hostaway/normalize.ts:32 | a nullable number key reads as absent exactly when missing or `null` |
| Normalize.GetCategoryItem | flex-reviews/backend/src/services/hostaway/normalize.ts:42-45 | a category item's two keys read as absent exactly when missing |
| Normalize.GetCategories | flex-reviews/backend/src/services/hostaway/normalize.ts:40-47 | the category list reads as absent exactly when missing, item for item otherwise |
| Normalize.AsScalar | flex-reviews/backend/src/services/hostaway/normalize.ts:25 | only strings and numbers pass a string-or-number field, and they are kept as given |
| Normalize.IntakeParse | flex-reviews/backend/src/services/hostaway/normalize.ts:23-49 | the loose parse accepts exactly an object whose known keys all have their declared types, and extracts those keys |
| Normalize.MapType | flex-reviews/backend/src/services/hostaway/normalize.ts:54-57 | `guest_to_host` exactly when the lower-cased input is `guest-to-host`; every other input, missing included, is `host_to_guest` |
| Normalize.MapStatus | flex-reviews/backend/src/services/hostaway/normalize.ts:60-65 | a missing or empty status gives none; otherwise the status whose name is the lower-cased input, and none if there is no such status |
| Normalize.MappingsIgnoreCase | flex-reviews/backend/src/services/hostaway/normalize.ts:54-65 | both mappings give the same answer for an input and its lower-cased form |
| Normalize.MakeCanonicalId | flex-reviews/backend/src/services/hostaway/normalize.ts:68-71 | the id always starts with the prefix and a colon |
| Normalize.CanonicalIdOfUpstream | flex-reviews/backend/src/services/hostaway/normalize.ts:69 | with an upstream id the canonical id is `prefix:` followed by `String(id)`, whatever the random token |
| Normalize.CanonicalIdLocal | flex-reviews/backend/src/services/hostaway/normalize.ts:70 | without an upstream id the canonical id is `prefix:local_` followed by the token |
| Normalize.CanonicalIdInjective | flex-reviews/backend/src/services/hostaway/normalize.ts:68-71 | equal canonical ids come from upstream ids with equal string forms |
| Normalize.ListingKey | flex-reviews/backend/src/services/hostaway/normalize.ts:83 | `listingMapId` when present, else `listingId`, else `"unknown"`, rendered with `String` |
| Normalize.ListingKeyEmpty | flex-reviews/backend/src/services/hostaway/normalize.ts:83 | the listing id is empty exactly when the key chosen by `??` is the empty string |
| Normalize.DateInput | flex-reviews/backend/src/services/hostaway/normalize.ts:87 | `submittedAt` when present, even if empty; `departureDate` only when it is missing |
| Normalize.Contribution | flex-reviews/backend/src/services/hostaway/normalize.ts:92-97 | an item contributes exactly when its trimmed category is non-empty and its rating is a number, and it contributes the trimmed key and the rating |
| Normalize.AssignAll | flex-reviews/backend/src/services/hostaway/normalize.ts:90-98 | the map's keys are exactly the keys some contributing item writes |
| Normalize.AssignAllLastWins | flex-reviews/backend/src/services/hostaway/normalize.ts:97 | each key holds the value written by the last item writing it |
| Normalize.Contributions | flex-reviews/backend/src/services/hostaway/normalize.ts:91-97 | the contributions correspond item for item to the category list |
| Normalize.CollectCategories | flex-reviews/backend/src/services/hostaway/normalize.ts:90-98 | a key is in the categories exactly when some item contributes it |
| Normalize.CategoryLastWins | flex-reviews/backend/src/services/hostaway/normalize.ts:97 | a later duplicate category overwrites an earlier one |
| Normalize.CategoryKeys | flex-reviews/backend/src/services/hostaway/normalize.ts:92-97 | keys are stored trimmed and non-empty, `__proto__` never becomes a key, and every other contributing item's key is present |
| Normalize.AuthorOf | flex-reviews/backend/src/services/hostaway/normalize.ts:114 | an author exists exactly when `guestName` is non-empty, and then carries only the name |
| Normalize.ExternalIdsOf | flex-reviews/backend/src/services/hostaway/normalize.ts:116-119 | `reviewId` and `reservationId` are present exactly when the upstream keys are; there is no `placeId` |
| Normalize.Assemble | flex-reviews/backend/src/services/hostaway/normalize.ts:77-120 | the candidate is a Hostaway review with `approved` false, rating, text and private feedback carried over as given or null, the collected categories and the author rule; its channel is not a channel name exactly when the channel id names an inherited `Object.prototype` member, and is the table's channel otherwise |
| Normalize.NormalizeOne | flex-reviews/backend/src/services/hostaway/normalize.ts:77-124 | a success is a valid, unapproved Hostaway review of a record the intake parse accepted; a record the intake parse refuses fails with the intake error |
| Normalize.NormalizeOneFields | flex-reviews/backend/src/services/hostaway/normalize.ts:81-123 | a normalised review carries the canonical id (`hostaway:` + `String(id)` when the record has an id), the listing key, the mapped type, status and channel, the collected categories, the rewritten date with the clock fallback, the author rule, `approved` false and the external ids, all of the record the intake parse accepted |
| Normalize.AssembledIdAndAuthorValid | flex-reviews/backend/src/services/hostaway/normalize.ts:101-120 | the canonical id is never empty and the author, when present, meets the author schema |
| Normalize.NormalizeSucceedsIff | flex-reviews/backend/src/services/hostaway/normalize.ts:77-124 | with a coherent date parser, a record normalises exactly when it is well typed, its listing id is non-empty, its rating is null or in [0, 5], and its channel id does not name an inherited `Object.prototype` member |
| Normalize.InheritedChannelRejected | flex-reviews/backend/src/services/hostaway/normalize.ts:85 | a well-typed record with channel id `"toString"` fails the schema, with the channel enum among the reasons |
| Normalize.NormalizeOneCorrected | flex-reviews/backend/src/services/hostaway/normalize.ts:77-124 | the normaliser with the own-property channel lookup: a success is a valid, unapproved Hostaway review whose channel is the table's channel for the record's id |
| Normalize.CorrectedAgrees | flex-reviews/backend/src/services/hostaway/normalize.ts:85 | the corrected normaliser gives the same result as the original on every input except a well-typed record whose channel id names an inherited member |
| Normalize.CorrectedSucceedsIff | flex-reviews/backend/src/services/hostaway/normalize.ts:77-124 | with a coherent date parser, the corrected normaliser keeps a record exactly when it is well typed, its listing id is non-empty and its rating is null or in [0, 5] |
| Normalize.RatingOutOfRangeRejected | flex-reviews/backend/src/services/hostaway/normalize.ts:109-123 | an out-of-range rating makes the record fail rather than be clamped |
| Normalize.EmptyListingMapIdRejected | flex-reviews/backend/src/services/hostaway/normalize.ts:83 | `listingMapId: ""` is kept by `??`, gives an empty listing id, and the record fails |
| Normalize.MistypedCategoryRejected | flex-reviews/backend/src/services/hostaway/normalize.ts:40-47 | a category rating that is not a number fails the intake parse, so the whole record is rejected |
| Normalize.EmptySubmittedAtUsesClock | flex-reviews/backend/src/services/hostaway/normalize.ts:87 | an empty `submittedAt` hides `departureDate`, so the current instant is used |
| Normalize.NormalizeDeterministic | flex-reviews/backend/src/services/hostaway/normalize.ts:77-124 | a record with an upstream id and a parseable date normalises the same at any time and with any random token |
| Normalize.Successes | flex-reviews/backend/src/services/hostaway/normalize.ts:127-138 | the kept reviews number at most the attempts |
| Normalize.SuccessesOrigin | flex-reviews/backend/src/services/hostaway/normalize.ts:129-136 | every kept review is the result of some successful attempt |
| Normalize.AttemptsValid | flex-reviews/backend/src/services/hostaway/normalize.ts:127-138 | every kept review is valid and unapproved |
| Normalize.Attempts | flex-reviews/backend/src/services/hostaway/normalize.ts:129-135 | record `i` is normalised on its own, with its own clock reading and token |
| Normalize.NormalizeAll | flex-reviews/backend/src/services/hostaway/normalize.ts:127-138 | the batch never fails, is no longer than its input, and holds only valid, unapproved reviews |
| Normalize.SuccessesStep | flex-reviews/backend/src/services/hostaway/normalize.ts:129-136 | one more record adds its review when it succeeds and nothing when it fails |
| Normalize.SuccessesPrefix | flex-reviews/backend/src/services/hostaway/normalize.ts:129-136 | the batch of a prefix of the input is a prefix of the batch |
| Normalize.SuccessAppears | flex-reviews/backend/src/services/hostaway/normalize.ts:129-136 | a successful record appears in the output, at the position counting the successes before it |
| Normalize.SuccessesInOrder | flex-reviews/backend/src/services/hostaway/normalize.ts:129-136 | after a successful record, every later record's output position is strictly later |
| Normalize.BatchSkipsInvalid | flex-reviews/backend/src/services/hostaway/normalize.ts:127-138 | `[ok, "garbage", null, ok]` gives exactly the reviews with ids `hostaway:1` and `hostaway:2`, in order |
| Normalize.NormalizeMany | flex-reviews/backend/src/services/hostaway/normalize.ts:127-138 | the loop that skips every record that throws computes the successes of the attempts, in order |
| Normalize.CollectOne | flex-reviews/backend/src/services/hostaway/normalize.ts:130-135 | one pass of the loop extends the successes of the first `i` records to those of the first `i + 1`, appending at most one review |
| AdminQuery.SchemaIssuesExact | flex-reviews/backend/src/routes/reviews.ts:8-19 | the issues reported are exactly the schema constraints the parameters break |
| AdminQuery.Build | flex-reviews/backend/src/routes/reviews.ts:8-19 | an accepted query has `limit` in [1, 200] (default 50), `offset` at least 0 (default 0), and both rating bounds in [0, 5] |
| AdminQuery.ParseQuery | flex-reviews/backend/src/routes/reviews.ts:8-19 | the schema as written accepts exactly the parameters breaking none of its constraints, which do not include integrality of `limit` and `offset` |
| AdminQuery.ParseQueryIntegral | flex-reviews/backend/src/routes/reviews.ts:17-18 | the corrected schema also demands integral `limit` and `offset`, and accepts the same query as the original when it accepts |
| AdminQuery.ParseDate | flex-reviews/backend/src/routes/reviews.ts:24-28 | a missing or empty string is no bound; otherwise whatever the date parser makes of it |
| AdminQuery.Keep | flex-reviews/backend/src/routes/reviews.ts:76-92 | the definition: the filter callback as a chain of early rejections; `AdminQuery.KeepIffMatches` equates it with the AND of the per-filter predicates |
| AdminQuery.KeepIffMatches | flex-reviews/backend/src/routes/reviews.ts:76-92 | the chain of early returns keeps a review exactly when it passes every filter |
| AdminQuery.Filtered | flex-reviews/backend/src/routes/reviews.ts:76-92 | the filtered list is an order-preserving subsequence of the normalised list holding exactly the matching reviews |
| AdminQuery.UnratedQuirk | flex-reviews/backend/src/routes/reviews.ts:82-83 | a review without a rating passes `minRating` only at 0 and `maxRating` only at 5 |
| AdminQuery.UnparseableDatesIgnored | flex-reviews/backend/src/routes/reviews.ts:24-28 | an unparseable `from` or `to` is no bound |
| AdminQuery.UnparseableReviewDatePasses | flex-reviews/backend/src/routes/reviews.ts:85-89 | a review whose date does not parse is never excluded by the range |
| AdminQuery.PageAsWritten | flex-reviews/backend/src/routes/reviews.ts:95-97 | the slice with the bounds as given holds only filtered reviews and is never longer than the filtered list |
| AdminQuery.FractionalPageExceedsLimit | flex-reviews/backend/src/routes/reviews.ts:95-97 | with `offset` 0.9 and `limit` 1.2 the slice returns two reviews, more than the limit |
| AdminQuery.IntegralPage | flex-reviews/backend/src/routes/reviews.ts:95-97 | on integral bounds the page is `filtered[offset .. min(offset + limit, count)]`, at most `limit` long |
| AdminQuery.PageWindow | flex-reviews/backend/src/routes/reviews.ts:95-97 | with non-negative bounds the page is the filtered list from `floor(offset)` to `floor(offset + limit)`, clamped to its length |
| AdminQuery.Respond | flex-reviews/backend/src/routes/reviews.ts:95-108 | `count` is the length of the filtered list; `limit` and `offset` are echoed; the page holds only filtered reviews, is the window from `floor(offset)` to `floor(offset + limit)`, and is at most `limit` long when both bounds are integers |
| AdminQuery.ListHostaway | flex-reviews/backend/src/routes/reviews.ts:61-109 | the parse throws exactly when it breaks the schema as written, with those issues; otherwise the response is computed from the normalised reviews with `limit` in [1, 200] and `offset` at least 0 |
| AdminQuery.ListHostawayIntegral | flex-reviews/backend/src/routes/reviews.ts:17-18 | the corrected handler rejects fractional bounds, otherwise answers exactly as the original, and never returns more than `limit` reviews |
| AdminQuery.FractionalQueryServed | flex-reviews/backend/src/routes/reviews.ts:17-18 | `limit=1.2&offset=0.9` is accepted and answered with the first two filtered reviews, more than `limit` when there are two; the corrected handler rejects it |
| AdminQuery.ResponseMatches | flex-reviews/backend/src/routes/reviews.ts:76-80 | every returned review passes every filter and is valid; `channel=booking` returns only booking reviews |
| AdminQuery.ResponseMatchesIntegral | flex-reviews/backend/src/routes/reviews.ts:76-80 | every review the corrected handler returns passes every filter of its query and is valid |
| RowOrder.PrimaryCmp | flex-reviews/backend/src/routes/public.ts:34-49 | the definition: the comparison on the primary sort key, `submittedAt` or `rating`, ascending or descending; its laws are `RowOrder.PrimaryCmpAntisymmetric` and `RowOrder.PrimaryCmpTransitive` |
| RowOrder.Before | flex-reviews/backend/src/routes/public.ts:61 | the definition: `orderBy: [primary, { id: "asc" }]` as a strict order; its laws are `RowOrder.BeforeIrreflexive`, `RowOrder.BeforeTransitive`, `RowOrder.BeforeTotal` and `RowOrder.BeforeAsymmetric` |
| RowOrder.PrimaryCmpAntisymmetric | flex-reviews/backend/src/routes/public.ts:34-49 | the primary-key comparison is antisymmetric for every sort |
| RowOrder.PrimaryCmpTransitive | flex-reviews/backend/src/routes/public.ts:34-49 | the primary-key comparison is transitive for every sort |
| RowOrder.BeforeIrreflexive | flex-reviews/backend/src/routes/public.ts:61 | no row comes before itself |
| RowOrder.BeforeTransitive | flex-reviews/backend/src/routes/public.ts:61 | the order of primary key then id is transitive |
| RowOrder.BeforeTotal | flex-reviews/backend/src/routes/public.ts:61 | rows with different ids are always ordered one way or the other |
| RowOrder.BeforeAsymmetric | flex-reviews/backend/src/routes/public.ts:61 | two rows are never each before the other |
| RowOrder.Insert | flex-reviews/backend/src/routes/public.ts:61 | inserting into a sorted sequence keeps it sorted and adds exactly the one row |
| RowOrder.SortRows | flex-reviews/backend/src/routes/public.ts:34-61 | the rows come out sorted by primary key then id, as a permutation of the input |
| RowOrder.DistinctIdsOfSeq | flex-reviews/backend/src/routes/public.ts:61 | a sequence with distinct ids gives a multiset with distinct ids |
| RowOrder.MultiplicityOne | flex-reviews/backend/src/routes/public.ts:61 | in rows with distinct ids each row occurs once |
| RowOrder.SameHead | flex-reviews/backend/src/routes/public.ts:61 | two sorted arrangements of the same distinct rows start with the same row |
| RowOrder.Tail | flex-reviews/backend/src/routes/public.ts:61 | dropping the first row keeps the rest sorted and distinct |
| RowOrder.SortedUnique | flex-reviews/backend/src/routes/public.ts:61 | rows with distinct ids have only one sorted arrangement: the order is deterministic |
| RowOrder.SortDeterministic | flex-reviews/backend/src/routes/public.ts:61 | the result does not depend on the order in which the table hands the rows over |
| PublicQuery.ParseSort | flex-reviews/backend/src/routes/public.ts:16-18 | exactly the four sort names are accepted |
| PublicQuery.IssuesExact | flex-reviews/backend/src/routes/public.ts:14-21 | the issues reported are exactly the constraints the parameters break |
| PublicQuery.Build | flex-reviews/backend/src/routes/public.ts:14-21 | the accepted query has its listing id trimmed and non-empty, sort `newest`, `limit` 12 and `offset` 0 when absent, and `limit` in [1, 200] |
| PublicQuery.ParseQuery | flex-reviews/backend/src/routes/public.ts:14-25 | parsing succeeds iff no constraint is broken, and otherwise lists exactly the broken ones |
| PublicQuery.Visible | flex-reviews/backend/src/routes/public.ts:28-31 | the definition: the `where` clause, approved rows of the listing when one is given; `PublicQuery.OnlyApproved` states it of every response |
| PublicQuery.ToPublic | flex-reviews/backend/src/routes/public.ts:51-56 | the definition: the `publicSelect` columns; `PublicQuery.ToPublicHidesPrivate` states that the private feedback and the author url do not show |
| PublicQuery.ToPublicHidesPrivate | flex-reviews/backend/src/routes/public.ts:51-56 | the public shape does not depend on `privateFeedback` or `authorUrl` |
| PublicQuery.ToPublicAll | flex-reviews/backend/src/routes/public.ts:51-64 | the selection maps row for row |
| PublicQuery.Ordered | flex-reviews/backend/src/routes/public.ts:28-61 | the approved rows of the listing, sorted by primary key then id, and no other rows |
| PublicQuery.Respond | flex-reviews/backend/src/routes/public.ts:58-77 | `count` is the number of matching rows; the page is the sorted rows from `offset`, at most `limit` of them |
| PublicQuery.ListPublic | flex-reviews/backend/src/routes/public.ts:23-85 | a rejected query is answered with its issues; otherwise with the response |
| PublicQuery.OnlyApproved | flex-reviews/backend/src/routes/public.ts:28-31 | every returned review is approved, and of the requested listing when one is given |
| PublicQuery.ToPublicAllAppend | flex-reviews/backend/src/routes/public.ts:51-56 | the selection distributes over concatenation |
| PublicQuery.PagesAdjacent | flex-reviews/backend/src/routes/public.ts:61-63 | two adjacent slices of the sorted rows make up the slice spanning both |
| PublicQuery.RespondPage | flex-reviews/backend/src/routes/public.ts:58-67 | the response's reviews are the slice of the sorted rows |
| PublicQuery.ConsecutivePages | flex-reviews/backend/src/routes/public.ts:61-63 | the page at `offset` with `limit` a followed by the page at `offset + a` with `limit` b is the page at `offset` with `limit` a + b |
| PublicQuery.OrderIndependent | flex-reviews/backend/src/routes/public.ts:58-67 | the response does not depend on the order of the table's rows |
| Seed.ExtractItems | flex-reviews/backend/src/scripts/seed.ts:14 | `raw.result` when it is an array, else `raw` when it is one, else nothing |
| Seed.ToRow | flex-reviews/backend/src/scripts/seed.ts:21-37 | the row carries the review's id and listing, is unapproved, and stores the parsed instant and the author's name and url |
| Seed.ToRows | flex-reviews/backend/src/scripts/seed.ts:18-20 | one row per normalised review, in order |
| Seed.RowOfParts | flex-reviews/backend/src/scripts/seed.ts:21-49 | a row is determined by its identity columns, its approval and its refreshed columns |
| Seed.Create | flex-reviews/backend/src/scripts/seed.ts:21-37 | a created row keeps the incoming columns and is unapproved |
| Seed.Refresh | flex-reviews/backend/src/scripts/seed.ts:38-49 | an update keeps the stored id, source, listing, type, channel and approval, and takes every refreshed column from the incoming row |
| Seed.Upsert | flex-reviews/backend/src/scripts/seed.ts:19-50 | the id is added to the table, other rows are untouched, an existing row is refreshed and a new one created |
| Seed.Ids | flex-reviews/backend/src/scripts/seed.ts:18-51 | the ids of a list of rows are exactly the ids occurring in it |
| Seed.IdsSplit | flex-reviews/backend/src/scripts/seed.ts:18 | the ids of a list are those of its prefix and its last row's id |
| Seed.SeedAll | flex-reviews/backend/src/scripts/seed.ts:18-51 | the definition: the upserts one after another in the order of the rows; its effect is stated by `Seed.SeedKeys`, `Seed.SeedEffect` and the lemmas after it |
| Seed.SeedKeys | flex-reviews/backend/src/scripts/seed.ts:18-51 | after seeding the table's ids are the old ids and the seeded ones |
| Seed.SeedWellKeyed | flex-reviews/backend/src/scripts/seed.ts:20 | every row stays stored under its own id |
| Seed.SeedUntouched | flex-reviews/backend/src/scripts/seed.ts:18-51 | a row whose id is not seeded is untouched |
| Seed.SeedKeepsFrozen | flex-reviews/backend/src/scripts/seed.ts:38-49 | an existing row keeps its approval and identity columns |
| Seed.SeedInsertsUnapproved | flex-reviews/backend/src/scripts/seed.ts:36 | a row inserted by the seed is unapproved |
| Seed.SeedMutableFromRows | flex-reviews/backend/src/scripts/seed.ts:38-49 | the refreshed columns of a seeded id depend only on the seeded rows, not on the table |
| Seed.SeedIdempotent | flex-reviews/backend/src/scripts/seed.ts:9-51 | seeding the same rows twice gives the same table as seeding them once |
| Seed.SeedEffect | flex-reviews/backend/src/scripts/seed.ts:18-51 | ids added, the table keyed by id, existing rows keep approval and identity, new rows unapproved |
| Seed.IdsOfRows | flex-reviews/backend/src/scripts/seed.ts:18-20 | the rows written carry exactly the ids of the normalised reviews |
| Seed.Run | flex-reviews/backend/src/scripts/seed.ts:11-51 | the definition: extract the items, normalise the batch, upsert the rows; `Seed.RunKeys` states the resulting ids |
| Seed.RunKeys | flex-reviews/backend/src/scripts/seed.ts:11-51 | the script adds the normalised ids to the table's and keeps it keyed by id |
| Gate.AllowSource | flex-reviews/backend/src/app.ts:22 | `FRONTEND_ORIGINS`, else `FRONTEND_ORIGIN`, else the local default; a variable set to an empty string still counts |
| Gate.TrimEach | flex-reviews/backend/src/app.ts:25 | each part is trimmed, in place |
| Gate.AllowList | flex-reviews/backend/src/app.ts:23-26 | no more entries than comma-separated parts, and none empty |
| Gate.AllowListSound | flex-reviews/backend/src/app.ts:23-26 | every entry is a non-empty trimmed part of the variable |
| Gate.AllowListComplete | flex-reviews/backend/src/app.ts:23-26 | every part that is non-empty once trimmed is an entry |
| Gate.AllowListEntries | flex-reviews/backend/src/app.ts:23-26 | every entry is already trimmed and holds no comma |
| Gate.AllowListOfJoin | flex-reviews/backend/src/app.ts:23-26 | trimmed, non-empty, comma-free origins joined with commas are read back as written |
| Gate.OriginAllowed | flex-reviews/backend/src/app.ts:28-46 | the definition: the `corsOptions` decision; `Gate.UnlistedNeedsVercelHost`, `Gate.VercelLookalikesRefused` and `Gate.AllowedMonotone` state its properties |
| Gate.UnlistedNeedsVercelHost | flex-reviews/backend/src/app.ts:30-46 | an origin that is neither empty nor listed is allowed exactly when its URL's host is some name followed by `.vercel.app` |
| Gate.VercelLookalikesRefused | flex-reviews/backend/src/app.ts:30-46 | an unlisted origin on the bare host `vercel.app`, or on a look-alike such as `evilvercel.app`, is refused |
| Gate.AllowedMonotone | flex-reviews/backend/src/app.ts:36-37 | growing the allow-list never refuses an origin it allowed |
| Gate.CorsOrigin | flex-reviews/backend/src/app.ts:28-54 | the request's origin (empty when absent) is echoed exactly when allowed |
| Gate.CsrfGuard | flex-reviews/backend/src/app.ts:60-67 | a request passes exactly when its method is not POST, PATCH, PUT or DELETE, or it carries `X-Requested-With: fetch`; otherwise 400 |
| Gate.CsrfCases | flex-reviews/backend/src/app.ts:60-67 | GET and OPTIONS always pass; POST passes only with the header; DELETE without it and PATCH with another value get 400 |
| Gate.CallVerb | flex-reviews/frontend/src/api/auth.ts:9-28 | every call the front end makes to change state uses a method the guard inspects |
| Gate.SentHeader | flex-reviews/frontend/src/api/client.ts:22-30 | the definition: sign-in and sign-out send `X-Requested-With: fetch`; the approval toggle, through `apiPatch`, sends no such header |
| Gate.SentHeaderCorrected | flex-reviews/frontend/src/api/client.ts:22-30 | `apiPatch` sending `fetch` too; every other call keeps the header it sends |
| Gate.ClientCallsAsWritten | flex-reviews/backend/src/app.ts:59-67 | the guard lets exactly the sign-in and sign-out calls through, and answers every approval toggle with 400 |
| Gate.ClientCallsCorrected | flex-reviews/backend/src/app.ts:59-67 | with the header on `apiPatch`, every state-changing call of the front end passes the guard |
| Config.EnvIssuesExact | flex-reviews/backend/src/config/env.ts:3-13 | the issues reported are exactly the constraints the environment breaks |
| Config.ValidateEnv | flex-reviews/backend/src/config/env.ts:3-22 | accepted exactly when no constraint is broken, with a secret of 16 or more, a non-empty user, a hash of 20 or more, and the two defaults; otherwise every broken constraint |
| Config.ShortSecretRejected | flex-reviews/backend/src/config/env.ts:4 | a missing or short `SESSION_SECRET` is rejected whatever else is set |
| Config.LocalOriginAccepted | flex-reviews/backend/src/config/env.ts:8-11 | an origin starting with `http://localhost` is accepted whether or not it parses as a URL |
| Config.DefaultsApply | flex-reviews/backend/src/config/env.ts:7-12 | with the optional variables unset, the cookie is `flex_admin` and the origin `http://localhost:5173` |
| Dashboard.SetApproved | flex-reviews/frontend/src/pages/Dashboard.tsx:71-73 | same length; matching reviews get the new approval, others are unchanged |
| Dashboard.SetApprovedChangesOnlyApproval | flex-reviews/frontend/src/pages/Dashboard.tsx:69-74 | only `approved` changes, and only on reviews with the id; ids, order and all other fields stay |
| Dashboard.OnMutate | flex-reviews/frontend/src/pages/Dashboard.tsx:63-78 | the snapshot is the cache before the change; an empty cache stays empty; otherwise only the page's reviews are updated |
| Dashboard.OnError | flex-reviews/frontend/src/pages/Dashboard.tsx:79-81 | a snapshot is restored; without one the cache stays |
| Dashboard.RollbackRestores | flex-reviews/frontend/src/pages/Dashboard.tsx:66-81 | a failed toggle leaves the cache exactly as before, whatever was cached in between |
| Dashboard.Ratings | flex-reviews/frontend/src/pages/Dashboard.tsx:93-95 | the numeric ratings, none exactly when no review has one, each in [0, 5] when the reviews' are |
| Dashboard.SumBounds | flex-reviews/frontend/src/pages/Dashboard.tsx:97 | the total of values in [lo, hi] lies between n*lo and n*hi |
| Dashboard.MeanBounds | flex-reviews/frontend/src/pages/Dashboard.tsx:98 | the mean of values in [0, 5] lies in [0, 5] |
| Dashboard.Round | flex-reviews/frontend/src/pages/Dashboard.tsx:98 | `Math.round`: the result is within one half of its argument, halves rounded up |
| Dashboard.Average | flex-reviews/frontend/src/pages/Dashboard.tsx:96-98 | the rounded mean of ratings in [0, 5] lies in [0, 5] |
| Dashboard.ApprovedPct | flex-reviews/frontend/src/pages/Dashboard.tsx:100 | 0 for an empty page or none approved, 100 when all are, and in [0, 100] always |
| Dashboard.AvgRating | flex-reviews/frontend/src/pages/Dashboard.tsx:92-99 | null exactly when no review has a numeric rating, and in [0, 5] otherwise |
| Dashboard.ComputeKpis | flex-reviews/frontend/src/pages/Dashboard.tsx:88-101 | `count` is the page length, `approved` the number of approved reviews, at most `count`, with the percentage and average rules |
| Dashboard.Apply | flex-reviews/frontend/src/pages/Dashboard.tsx:109 | a key absent from the patch keeps its value; a present key wins, even when it is undefined |
| Dashboard.Merge | flex-reviews/frontend/src/pages/Dashboard.tsx:109 | the offset becomes 0; `limit` is kept unless the patch names it; present keys overwrite |
| Dashboard.MergeResetsOffset | flex-reviews/frontend/src/pages/Dashboard.tsx:109 | any patch from the filter inputs goes back to the first page and keeps the page size |
| Dashboard.ClearKeepsOnlyLimit | flex-reviews/frontend/src/pages/Dashboard.tsx:268-279 | Clear drops every filter and keeps only the page size |
| Dashboard.MergeIdempotent | flex-reviews/frontend/src/pages/Dashboard.tsx:109 | applying the same patch twice is applying it once |
| Dashboard.MergeKeepsAbsentKeys | flex-reviews/frontend/src/pages/Dashboard.tsx:109 | an empty patch changes only the offset |
| Dashboard.FromDateInput | flex-reviews/frontend/src/pages/Dashboard.tsx:33-35 | an empty or missing date input is no bound; any other is kept |
| PublicListing.Initial | flex-reviews/frontend/src/pages/PublicListing.tsx:19-21 | the listing id and sort come from the URL, with `""` and `newest` as fallbacks |
| PublicListing.Prev | flex-reviews/frontend/src/pages/PublicListing.tsx:173 | back one page of 12, never below 0; listing and sort unchanged |
| PublicListing.Next | flex-reviews/frontend/src/pages/PublicListing.tsx:179-181 | forward one page of 12 exactly when the count reaches past the current page, otherwise no change |
| PublicListing.Refresh | flex-reviews/frontend/src/pages/PublicListing.tsx:85 | back to the first page, filters kept |
| PublicListing.Clear | flex-reviews/frontend/src/pages/PublicListing.tsx:90 | empty listing id, sort `newest`, first page |
| PublicListing.SetListing | flex-reviews/frontend/src/pages/PublicListing.tsx:103-106 | a new listing id goes back to the first page |
| PublicListing.SetSort | flex-reviews/frontend/src/pages/PublicListing.tsx:111-114 | a new sort goes back to the first page |
| PublicListing.Step | flex-reviews/frontend/src/pages/PublicListing.tsx:85-181 | the definition: one user action (Prev, Next, Refresh, Clear, typing a listing, choosing a sort) applied to the paging state; `PublicListing.StepKeepsBoundary` states what every action keeps |
| PublicListing.Run | flex-reviews/frontend/src/pages/PublicListing.tsx:85-181 | the definition: a sequence of actions applied in order; `PublicListing.RunKeepsBoundary` states the boundary invariant for any sequence |
| PublicListing.StepKeepsBoundary | flex-reviews/frontend/src/pages/PublicListing.tsx:173-181 | every action keeps the offset a non-negative multiple of 12 |
| PublicListing.RunKeepsBoundary | flex-reviews/frontend/src/pages/PublicListing.tsx:173-181 | any run of actions keeps the offset a non-negative multiple of 12 |
| PublicListing.ResetsLandOnFirstPage | flex-reviews/frontend/src/pages/PublicListing.tsx:85-114 | Refresh, Clear, a new listing id and a new sort all go back to offset 0 |
| PublicListing.PrevAtStart | flex-reviews/frontend/src/pages/PublicListing.tsx:173-174 | Prev is disabled exactly at offset 0, and is a no-op there |
| PublicListing.NextStaysInside | flex-reviews/frontend/src/pages/PublicListing.tsx:179-182 | a page reached with Next starts inside the result |
| PublicListing.PrevUndoesNext | flex-reviews/frontend/src/pages/PublicListing.tsx:173-180 | Prev undoes Next whenever Next moved |
| PublicListing.NextUndoesPrev | flex-reviews/frontend/src/pages/PublicListing.tsx:173-180 | Next undoes Prev from a later page on a boundary inside the result |
| PublicListing.Request | flex-reviews/frontend/src/pages/PublicListing.tsx:38 | an empty listing id is not sent; `limit` is always 12; sort and offset are sent as they are |
| PublicListing.RequestAccepted | flex-reviews/frontend/src/pages/PublicListing.tsx:38 | a request with a non-negative offset, a known sort and an empty or non-blank listing id, is accepted with the same offset and limit 12 |
| PublicListing.BlankListingRejected | flex-reviews/frontend/src/pages/PublicListing.tsx:38 | a listing id of spaces only is sent and refused by the server |
| PublicListing.Safe | flex-reviews/frontend/src/pages/PublicListing.tsx:224 | the value clamped to [0, 5]; values already in range are kept |
| PublicListing.Fill | flex-reviews/frontend/src/pages/PublicListing.tsx:222-240 | the definition: full before the fractional star, empty after it, the fraction (snapped to full above 0.8) on it; `PublicListing.FillBounds`, `PublicListing.FillMonotone` and `PublicListing.ShownCloseToValue` state its properties |
| PublicListing.FillBounds | flex-reviews/frontend/src/pages/PublicListing.tsx:236-238 | every fill is in [0, 1]; stars before `floor(safe)` are full and those after it empty |
| PublicListing.FillMonotone | flex-reviews/frontend/src/pages/PublicListing.tsx:235-238 | fills never increase from left to right |
| PublicListing.ShownCloseToValue | flex-reviews/frontend/src/pages/PublicListing.tsx:224-238 | the stars add up to the clamped value, or up to 0.2 more when a fraction above 0.8 is snapped up |
| Seqs.JsSlice | flex-reviews/backend/src/routes/reviews.ts:97 | `Array.prototype.slice` with truncated, clamped bounds: never longer than the array and only its elements |

## Left out

- AdminQuery.ListHostaway: `Failure(issues)` stands for the ZodError that `QuerySchema.parse` throws inside the async handler, which does not catch it (the public route catches it and answers 400). The admin route sends no 400 with the issues; whether the client gets a 500 or no response at all depends on the Express version, which is not part of this model.
- Express, Prisma and file plumbing: `loadMock`, `USE_MOCK`, `res.json`, the `prisma.review.*` calls (the table is a map or a sequence of rows), `process.env` and `process.exit` (the issues are returned instead).
- Authentication (`jwt.ts`, `auth.ts`, `requireAdmin.ts`): wrappers over jsonwebtoken and bcrypt with no logic of the project's own.
- The approve PATCH handler: only its test is present, and the handler is not part of this model.
- `generatedAt` in both responses, and `createdAt`/`updatedAt` in the public selection: clock and database timestamps.
- `toISODateInput` in the dashboard: it reads local-time getters.
- Floating point: numbers are exact reals; UTF-16 string lengths are modelled as code-point lengths.
- Dashboard.Average: states only that the rounded mean stays in [0, 5], not its exact value, because the rounding follows floating point.
- Dashboard.ApprovedPct: states the bounds and the 0 and 100 cases, not the exact rounded percentage, for the same reason.
- The position of null ratings in the public ordering is chosen by the database; it is the `nullsHigh` parameter, and string order on ids is code-point order rather than the database collation.
- Zod mechanics: coercion of query strings to numbers, `.passthrough()`, and the issue messages; parameters arrive as typed optional values, and issues are the constraint names.
- React and react-query mechanics: rendering, caching, `cancelQueries`, `invalidateQueries` and refetching; the cache is an optional page.
- The public page reads its offset from the URL with `Number(..)`; `PublicListing.Initial` takes the number already read, and the URL synchronisation effect is left out.
- `Math.random().toString(36)` is an arbitrary token string.
- Seed.SeedIdempotent: holds for re-seeding the same normalised rows. A record without an upstream id gets a fresh random id on each run, and a record without a usable date gets the current instant, so re-running the script on such records adds or changes rows.

## Findings

| source | as written | input that shows it | evidently intended | confidence | as-written member | corrected member |
|---|---|---|---|---|---|---|
| flex-reviews/backend/src/services/hostaway/channelMap.ts:19 | `mapping[key] ?? "unknown"` reads inherited `Object.prototype` properties | channel id `"toString"` (or `"constructor"`, `"__proto__"`) yields a function or object, which the channel enum rejects, so the whole review is dropped | an unlisted id maps to `unknown` | not executed | Normalize.NormalizeOne (counterexample Normalize.InheritedChannelRejected) | Normalize.NormalizeOneCorrected (Normalize.CorrectedSucceedsIff, over ChannelMap.MapChannelId) |
| flex-reviews/backend/src/routes/reviews.ts:17-18 | `limit` and `offset` are numbers in range but not required to be integers; `slice` truncates its bounds | `offset=0.9&limit=1.2` returns two reviews, more than `limit` | integral `limit` and `offset`, as the public route demands | not executed | AdminQuery.ListHostaway (counterexample AdminQuery.FractionalQueryServed) | AdminQuery.ListHostawayIntegral (page bound AdminQuery.IntegralPage) |
| flex-reviews/frontend/src/api/client.ts:22-30 | `apiPatch` sends no `X-Requested-With` header, while the CSRF guard at app.ts:59-67 answers every `PATCH` without `X-Requested-With: fetch` with 400 | toggling approval on the dashboard sends `PATCH /api/reviews/:id/approve` without the header and gets 400, so the optimistic update is always rolled back; the approve route's own tests send no header either | `apiPatch` sends `X-Requested-With: fetch`, as the sign-in and sign-out calls do and as the CORS options' `allowedHeaders` anticipate | not executed | Gate.ClientCallsAsWritten (over Gate.SentHeader) | Gate.ClientCallsCorrected (over Gate.SentHeaderCorrected) |

`Normalize.NormalizeOne`, `Normalize.NormalizeAll`, `AdminQuery.ListHostaway`
and `Gate.SentHeader` keep the behaviour as written. The corrected variants
stand beside them.
