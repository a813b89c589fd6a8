/**
 * The `Review` table as a map from id to row. A row keeps the canonical
 * review's fields, flattens the author to its name and url, and stores
 * `submittedAt` as a time value.
 */
module Store {
  import opened Wrappers
  import opened Domain

  datatype Row = Row(
    id: string,
    source: Source,
    listingId: string,
    listingName: Option<string>,
    reviewType: ReviewType,
    channel: Channel,
    status: Option<Status>,
    rating: Option<real>,
    categories: map<string, real>,
    text: Option<string>,
    privateFeedback: Option<string>,
    submittedAt: int,
    authorName: Option<string>,
    authorUrl: Option<string>,
    approved: bool)

  type Store = map<string, Row>

  /** Every row sits under its own id, the table's primary key. */
  predicate WellKeyed(db: Store) {
    forall k :: k in db ==> db[k].id == k
  }

  /** No two rows share an id, as in any listing of the table. */
  predicate DistinctIds(rows: seq<Row>) {
    forall i, j :: 0 <= i < j < |rows| ==> rows[i].id != rows[j].id
  }
}
