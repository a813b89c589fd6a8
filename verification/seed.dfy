/**
 * The seed script: take the item list out of the mock payload, normalise
 * it, and upsert every review by id. A new id is inserted unapproved; an
 * existing one keeps its approval and identity columns and has the rest
 * refreshed.
 */
module Seed {
  import opened Wrappers
  import opened Runtime
  import opened Domain
  import opened Store
  import opened Normalize
  import Json

  /** The items: `raw.result` when that is an array, else `raw` when it is one, else none. */
  function ExtractItems(raw: Json.Value): (items: seq<Json.Value>)
    ensures raw.Obj? && "result" in raw.fields && raw.fields["result"].Arr? ==> items == raw.fields["result"].items
    ensures raw.Arr? ==> items == raw.items
    ensures !raw.Arr? && !(raw.Obj? && "result" in raw.fields && raw.fields["result"].Arr?) ==> items == []
  {
    if raw.Obj? && "result" in raw.fields && raw.fields["result"].Arr? then raw.fields["result"].items
    else if raw.Arr? then raw.items
    else []
  }

  /** The columns written for a review; `submittedAt` becomes the instant the string denotes. */
  function ToRow(r: Review, p: Platform): (row: Row)
    requires p.parseDate(r.submittedAt).Some?
    ensures row.id == r.id && row.listingId == r.listingId && row.approved == false
    ensures row.submittedAt == p.parseDate(r.submittedAt).value
    ensures row.authorName == (if r.author.Some? then r.author.value.name else None)
    ensures row.authorUrl == (if r.author.Some? then r.author.value.url else None)
  {
    Row(r.id, r.source, r.listingId, r.listingName, r.reviewType, r.channel, r.status, r.rating,
        r.categories, r.text, r.privateFeedback, p.parseDate(r.submittedAt).value,
        if r.author.Some? then r.author.value.name else None,
        if r.author.Some? then r.author.value.url else None,
        false)
  }

  function ToRows(rs: seq<Review>, p: Platform): (rows: seq<Row>)
    requires forall i :: 0 <= i < |rs| ==> p.parseDate(rs[i].submittedAt).Some?
    ensures |rows| == |rs|
    ensures forall i :: 0 <= i < |rs| ==> rows[i] == ToRow(rs[i], p)
  {
    if |rs| == 0 then [] else [ToRow(rs[0], p)] + ToRows(rs[1..], p)
  }

  /** The columns the update leaves alone: the identity columns and the approval. */
  function Frozen(r: Row): (string, Source, string, ReviewType, Channel, bool) {
    (r.id, r.source, r.listingId, r.reviewType, r.channel, r.approved)
  }

  /** The columns the update rewrites. */
  function Mutable(r: Row): (Option<string>, Option<Status>, Option<real>, map<string, real>, Option<string>,
                             Option<string>, int, Option<string>, Option<string>) {
    (r.listingName, r.status, r.rating, r.categories, r.text, r.privateFeedback, r.submittedAt,
     r.authorName, r.authorUrl)
  }

  /** A row is its frozen and its mutable columns. */
  lemma RowOfParts(a: Row, b: Row)
    requires Frozen(a) == Frozen(b) && Mutable(a) == Mutable(b)
    ensures a == b
  {
  }

  /** The `create` branch: the row with `approved` false. */
  function Create(row: Row): (r: Row)
    ensures Mutable(r) == Mutable(row) && r.id == row.id && !r.approved
    ensures Frozen(r) == (row.id, row.source, row.listingId, row.reviewType, row.channel, false)
  {
    row.(approved := false)
  }

  /** The `update` branch: the mutable columns from the incoming row, everything else from the stored one. */
  function Refresh(stored: Row, incoming: Row): (r: Row)
    ensures Frozen(r) == Frozen(stored)
    ensures Mutable(r) == Mutable(incoming)
  {
    stored.(listingName := incoming.listingName, status := incoming.status, rating := incoming.rating,
            categories := incoming.categories, text := incoming.text,
            privateFeedback := incoming.privateFeedback, submittedAt := incoming.submittedAt,
            authorName := incoming.authorName, authorUrl := incoming.authorUrl)
  }

  /** `prisma.review.upsert` keyed by the row's id. */
  function Upsert(db: Store, row: Row): (r: Store)
    ensures r.Keys == db.Keys + {row.id}
    ensures forall k :: k in db && k != row.id ==> r[k] == db[k]
    ensures row.id in db ==> r[row.id] == Refresh(db[row.id], row)
    ensures row.id !in db ==> r[row.id] == Create(row)
  {
    if row.id in db then db[row.id := Refresh(db[row.id], row)] else db[row.id := Create(row)]
  }

  function Ids(rows: seq<Row>): (ids: set<string>)
    ensures forall k :: k in ids <==> exists i :: 0 <= i < |rows| && rows[i].id == k
  {
    set i | 0 <= i < |rows| :: rows[i].id
  }

  /** The upserts one after another, in the order of the rows. */
  function SeedAll(db: Store, rows: seq<Row>): Store
    decreases |rows|
  {
    if |rows| == 0 then db else Upsert(SeedAll(db, rows[..|rows| - 1]), rows[|rows| - 1])
  }

  /** The whole script against the table `db`. */
  function Run(db: Store, raw: Json.Value, p: Platform, amb: nat -> Ambient): Store {
    var normalized := NormalizeAll(ExtractItems(raw), p, amb);
    SeedAll(db, ToRows(normalized, p))
  }

  lemma IdsSplit(rows: seq<Row>)
    requires |rows| > 0
    ensures Ids(rows) == Ids(rows[..|rows| - 1]) + {rows[|rows| - 1].id}
  {
    var init := rows[..|rows| - 1];
    forall k
      ensures k in Ids(rows) <==> k in Ids(init) || k == rows[|rows| - 1].id
    {
      if k in Ids(rows) {
        var i :| 0 <= i < |rows| && rows[i].id == k;
        if i < |rows| - 1 {
          assert init[i].id == k;
        }
      }
      if k in Ids(init) {
        var i :| 0 <= i < |init| && init[i].id == k;
        assert rows[i].id == k;
      }
    }
  }

  /** After seeding, the table's ids are the old ids and the seeded ones. */
  lemma {:induction false} SeedKeys(db: Store, rows: seq<Row>)
    ensures SeedAll(db, rows).Keys == db.Keys + Ids(rows)
    decreases |rows|
  {
    if |rows| > 0 {
      SeedKeys(db, rows[..|rows| - 1]);
      IdsSplit(rows);
    } else {
      assert Ids(rows) == {};
    }
  }

  /** Seeding keeps every row under its own id. */
  lemma {:induction false} SeedWellKeyed(db: Store, rows: seq<Row>)
    requires WellKeyed(db)
    ensures WellKeyed(SeedAll(db, rows))
    decreases |rows|
  {
    if |rows| > 0 {
      SeedWellKeyed(db, rows[..|rows| - 1]);
    }
  }

  /** A row not named by the seeded rows is untouched. */
  lemma {:induction false} SeedUntouched(db: Store, rows: seq<Row>, k: string)
    requires k !in Ids(rows)
    ensures k in SeedAll(db, rows) <==> k in db
    ensures k in db ==> SeedAll(db, rows)[k] == db[k]
    decreases |rows|
  {
    if |rows| > 0 {
      IdsSplit(rows);
      SeedUntouched(db, rows[..|rows| - 1], k);
    }
  }

  /** A row already present keeps its approval and identity columns. */
  lemma {:induction false} SeedKeepsFrozen(db: Store, rows: seq<Row>, k: string)
    requires k in db
    ensures k in SeedAll(db, rows) && Frozen(SeedAll(db, rows)[k]) == Frozen(db[k])
    decreases |rows|
  {
    if |rows| > 0 {
      SeedKeepsFrozen(db, rows[..|rows| - 1], k);
    }
  }

  /** A row inserted by the seed is unapproved. */
  lemma {:induction false} SeedInsertsUnapproved(db: Store, rows: seq<Row>, k: string)
    requires k !in db && k in Ids(rows)
    ensures k in SeedAll(db, rows) && !SeedAll(db, rows)[k].approved
    decreases |rows|
  {
    var init := rows[..|rows| - 1];
    var last := rows[|rows| - 1];
    IdsSplit(rows);
    SeedKeys(db, init);
    if k in Ids(init) {
      SeedInsertsUnapproved(db, init, k);
    } else {
      SeedUntouched(db, init, k);
    }
  }

  /** The mutable columns of a seeded id come from the rows alone, not from what the table held. */
  lemma {:induction false} SeedMutableFromRows(db1: Store, db2: Store, rows: seq<Row>, k: string)
    requires k in Ids(rows)
    ensures k in SeedAll(db1, rows) && k in SeedAll(db2, rows)
    ensures Mutable(SeedAll(db1, rows)[k]) == Mutable(SeedAll(db2, rows)[k])
    decreases |rows|
  {
    var init := rows[..|rows| - 1];
    var last := rows[|rows| - 1];
    IdsSplit(rows);
    if last.id != k {
      SeedMutableFromRows(db1, db2, init, k);
    }
  }

  /** Seeding the same rows a second time changes nothing: the script is safe to re-run. */
  lemma SeedIdempotent(db: Store, rows: seq<Row>)
    ensures SeedAll(SeedAll(db, rows), rows) == SeedAll(db, rows)
  {
    var once := SeedAll(db, rows);
    var twice := SeedAll(once, rows);
    SeedKeys(db, rows);
    SeedKeys(once, rows);
    forall k | k in twice
      ensures twice[k] == once[k]
    {
      if k in Ids(rows) {
        SeedKeepsFrozen(once, rows, k);
        SeedMutableFromRows(once, db, rows, k);
        RowOfParts(twice[k], once[k]);
      } else {
        SeedUntouched(once, rows, k);
      }
    }
  }

  /** Seeding's effect: ids added, present rows keep approval and identity, new rows unapproved. */
  lemma SeedEffect(db: Store, rows: seq<Row>)
    requires WellKeyed(db)
    ensures SeedAll(db, rows).Keys == db.Keys + Ids(rows)
    ensures WellKeyed(SeedAll(db, rows))
    ensures forall k :: k in db ==> k in SeedAll(db, rows) && Frozen(SeedAll(db, rows)[k]) == Frozen(db[k])
    ensures forall k :: k in SeedAll(db, rows) && k !in db ==> !SeedAll(db, rows)[k].approved
  {
    SeedKeys(db, rows);
    SeedWellKeyed(db, rows);
    forall k | k in db
      ensures k in SeedAll(db, rows) && Frozen(SeedAll(db, rows)[k]) == Frozen(db[k])
    {
      SeedKeepsFrozen(db, rows, k);
    }
    forall k | k in SeedAll(db, rows) && k !in db
      ensures !SeedAll(db, rows)[k].approved
    {
      SeedInsertsUnapproved(db, rows, k);
    }
  }

  /** The rows written carry the ids of the reviews they come from. */
  lemma IdsOfRows(rs: seq<Review>, p: Platform)
    requires forall i :: 0 <= i < |rs| ==> p.parseDate(rs[i].submittedAt).Some?
    ensures Ids(ToRows(rs, p)) == set r | r in rs :: r.id
  {
    var rows := ToRows(rs, p);
    forall k
      ensures k in Ids(rows) <==> k in set r | r in rs :: r.id
    {
      if k in Ids(rows) {
        var i :| 0 <= i < |rows| && rows[i].id == k;
        assert rs[i].id == k;
      }
      if k in set r | r in rs :: r.id {
        var r :| r in rs && r.id == k;
        var i :| 0 <= i < |rs| && rs[i] == r;
        assert rows[i].id == k;
      }
    }
  }

  /** The script adds the normalised ids to the table's, and keeps it keyed by id. */
  lemma RunKeys(db: Store, raw: Json.Value, p: Platform, amb: nat -> Ambient)
    requires WellKeyed(db)
    ensures Run(db, raw, p, amb).Keys == db.Keys + (set r | r in NormalizeAll(ExtractItems(raw), p, amb) :: r.id)
    ensures WellKeyed(Run(db, raw, p, amb))
  {
    var normalized := NormalizeAll(ExtractItems(raw), p, amb);
    IdsOfRows(normalized, p);
    SeedEffect(db, ToRows(normalized, p));
  }
}
