/**
 * The public listing's `orderBy: [primary, { id: "asc" }]`: the key the
 * `sort` parameter selects, then the id. Where the database places a null
 * rating is not fixed by the route, so it is a parameter: `nullsHigh`
 * says whether null sorts above every number.
 */
module RowOrder {
  import opened Wrappers
  import opened Strings
  import opened Store

  datatype Sort = Newest | Oldest | RatingDesc | RatingAsc

  /** Three-way comparison of two ordered values. */
  function CmpInt(a: int, b: int): int {
    if a < b then -1 else if a > b then 1 else 0
  }

  function CmpReal(a: real, b: real): int {
    if a < b then -1 else if a > b then 1 else 0
  }

  /** Ascending comparison of two nullable ratings. */
  function CmpRating(nullsHigh: bool, a: Option<real>, b: Option<real>): int {
    if a.None? && b.None? then 0
    else if a.None? then (if nullsHigh then 1 else -1)
    else if b.None? then (if nullsHigh then -1 else 1)
    else CmpReal(a.value, b.value)
  }

  /** The primary key's comparison: `newest` is `submittedAt` descending, and so on. */
  function PrimaryCmp(sort: Sort, nullsHigh: bool, a: Row, b: Row): int {
    match sort
    case Newest => CmpInt(b.submittedAt, a.submittedAt)
    case Oldest => CmpInt(a.submittedAt, b.submittedAt)
    case RatingDesc => CmpRating(nullsHigh, b.rating, a.rating)
    case RatingAsc => CmpRating(nullsHigh, a.rating, b.rating)
  }

  /** `a` comes strictly before `b`: smaller primary key, or an equal one and a smaller id. */
  predicate Before(sort: Sort, nullsHigh: bool, a: Row, b: Row) {
    PrimaryCmp(sort, nullsHigh, a, b) < 0
    || (PrimaryCmp(sort, nullsHigh, a, b) == 0 && StrLt(a.id, b.id))
  }

  lemma PrimaryCmpAntisymmetric(sort: Sort, nullsHigh: bool, a: Row, b: Row)
    ensures PrimaryCmp(sort, nullsHigh, a, b) == -PrimaryCmp(sort, nullsHigh, b, a)
  {
  }

  lemma PrimaryCmpTransitive(sort: Sort, nullsHigh: bool, a: Row, b: Row, c: Row)
    requires PrimaryCmp(sort, nullsHigh, a, b) <= 0 && PrimaryCmp(sort, nullsHigh, b, c) <= 0
    ensures PrimaryCmp(sort, nullsHigh, a, c) <= 0
    ensures PrimaryCmp(sort, nullsHigh, a, b) < 0 || PrimaryCmp(sort, nullsHigh, b, c) < 0 ==>
      PrimaryCmp(sort, nullsHigh, a, c) < 0
  {
  }

  lemma BeforeIrreflexive(sort: Sort, nullsHigh: bool, a: Row)
    ensures !Before(sort, nullsHigh, a, a)
  {
    StrLtIrreflexive(a.id);
  }

  lemma BeforeTransitive(sort: Sort, nullsHigh: bool, a: Row, b: Row, c: Row)
    requires Before(sort, nullsHigh, a, b) && Before(sort, nullsHigh, b, c)
    ensures Before(sort, nullsHigh, a, c)
  {
    PrimaryCmpTransitive(sort, nullsHigh, a, b, c);
    if PrimaryCmp(sort, nullsHigh, a, b) == 0 && PrimaryCmp(sort, nullsHigh, b, c) == 0 {
      StrLtTransitive(a.id, b.id, c.id);
    }
  }

  /** Rows with different ids are always ordered one way or the other: the order is total. */
  lemma BeforeTotal(sort: Sort, nullsHigh: bool, a: Row, b: Row)
    requires a.id != b.id
    ensures Before(sort, nullsHigh, a, b) || Before(sort, nullsHigh, b, a)
  {
    PrimaryCmpAntisymmetric(sort, nullsHigh, a, b);
    StrLtTotal(a.id, b.id);
  }

  lemma BeforeAsymmetric(sort: Sort, nullsHigh: bool, a: Row, b: Row)
    requires Before(sort, nullsHigh, a, b)
    ensures !Before(sort, nullsHigh, b, a)
  {
    if Before(sort, nullsHigh, b, a) {
      BeforeTransitive(sort, nullsHigh, a, b, a);
      BeforeIrreflexive(sort, nullsHigh, a);
    }
  }

  /** No row is followed by one that should come before it. */
  predicate Sorted(sort: Sort, nullsHigh: bool, s: seq<Row>) {
    forall i, j :: 0 <= i < j < |s| ==> !Before(sort, nullsHigh, s[j], s[i])
  }

  /** Places `x` in a sorted sequence in front of the first row it comes before. */
  function Insert(sort: Sort, nullsHigh: bool, x: Row, s: seq<Row>): (r: seq<Row>)
    requires Sorted(sort, nullsHigh, s)
    ensures Sorted(sort, nullsHigh, r)
    ensures multiset(r) == multiset(s) + multiset{x}
    ensures |r| == |s| + 1
  {
    if |s| == 0 then [x]
    else if Before(sort, nullsHigh, x, s[0]) then
      InsertFront(sort, nullsHigh, x, s);
      [x] + s
    else
      var rest := Insert(sort, nullsHigh, x, s[1..]);
      InsertBehind(sort, nullsHigh, x, s, rest);
      [s[0]] + rest
  }

  /** A row put in front of a sorted sequence keeps it sorted when no row of it comes before that row. */
  lemma PrependSorted(sort: Sort, nullsHigh: bool, x: Row, s: seq<Row>)
    requires Sorted(sort, nullsHigh, s)
    requires forall y :: y in s ==> !Before(sort, nullsHigh, y, x)
    ensures Sorted(sort, nullsHigh, [x] + s)
  {
    var r := [x] + s;
    forall i, j | 0 <= i < j < |r|
      ensures !Before(sort, nullsHigh, r[j], r[i])
    {
      assert r[j] == s[j - 1];
      if i == 0 {
        assert r[j] in s;
      } else {
        assert r[i] == s[i - 1];
      }
    }
  }

  /** The case of `Insert` where `x` goes first. */
  lemma InsertFront(sort: Sort, nullsHigh: bool, x: Row, s: seq<Row>)
    requires Sorted(sort, nullsHigh, s) && |s| > 0 && Before(sort, nullsHigh, x, s[0])
    ensures Sorted(sort, nullsHigh, [x] + s)
  {
    forall y | y in s
      ensures !Before(sort, nullsHigh, y, x)
    {
      var j :| 0 <= j < |s| && s[j] == y;
      if Before(sort, nullsHigh, y, x) {
        BeforeTransitive(sort, nullsHigh, y, x, s[0]);
        if j == 0 {
          BeforeIrreflexive(sort, nullsHigh, s[0]);
        }
      }
    }
    PrependSorted(sort, nullsHigh, x, s);
  }

  /** The case of `Insert` where `s[0]` stays first, in front of `x` inserted into the rest. */
  lemma InsertBehind(sort: Sort, nullsHigh: bool, x: Row, s: seq<Row>, rest: seq<Row>)
    requires Sorted(sort, nullsHigh, s) && |s| > 0 && !Before(sort, nullsHigh, x, s[0])
    requires Sorted(sort, nullsHigh, rest) && multiset(rest) == multiset(s[1..]) + multiset{x}
    ensures Sorted(sort, nullsHigh, [s[0]] + rest)
    ensures multiset([s[0]] + rest) == multiset(s) + multiset{x}
  {
    assert multiset(s) == multiset{s[0]} + multiset(s[1..]) by {
      assert s == [s[0]] + s[1..];
    }
    forall y | y in rest
      ensures !Before(sort, nullsHigh, y, s[0])
    {
      assert y in multiset(rest);
      if y != x {
        assert y in multiset(s[1..]);
        var j :| 0 <= j < |s[1..]| && s[1..][j] == y;
        assert s[j + 1] == y;
      }
    }
    PrependSorted(sort, nullsHigh, s[0], rest);
  }

  /** The rows in the order the query's `orderBy` puts them. */
  function SortRows(sort: Sort, nullsHigh: bool, s: seq<Row>): (r: seq<Row>)
    ensures Sorted(sort, nullsHigh, r)
    ensures multiset(r) == multiset(s)
    ensures |r| == |s|
  {
    if |s| == 0 then []
    else
      assert s == s[..|s| - 1] + [s[|s| - 1]];
      Insert(sort, nullsHigh, s[|s| - 1], SortRows(sort, nullsHigh, s[..|s| - 1]))
  }

  /** No two elements of the multiset share an id. */
  ghost predicate DistinctIdsIn(m: multiset<Row>) {
    forall a, b :: a in m && b in m && a.id == b.id ==> a == b && m[a] == 1
  }

  lemma DistinctIdsOfSeq(s: seq<Row>)
    requires DistinctIds(s)
    ensures DistinctIdsIn(multiset(s))
  {
    forall a, b | a in multiset(s) && b in multiset(s) && a.id == b.id
      ensures a == b && multiset(s)[a] == 1
    {
      var i :| 0 <= i < |s| && s[i] == a;
      var j :| 0 <= j < |s| && s[j] == b;
      assert i == j;
      MultiplicityOne(s, i);
    }
  }

  lemma {:induction false} MultiplicityOne(s: seq<Row>, i: nat)
    requires DistinctIds(s) && i < |s|
    ensures multiset(s)[s[i]] == 1
  {
    if |s| > 1 {
      if i == |s| - 1 {
        assert s == s[..|s| - 1] + [s[i]];
        assert s[i] !in s[..|s| - 1];
      } else {
        assert s == s[..|s| - 1] + [s[|s| - 1]];
        MultiplicityOne(s[..|s| - 1], i);
        assert s[|s| - 1] != s[i];
      }
    }
  }

  /** Two sorted arrangements of the same rows start with the same row. */
  lemma SameHead(sort: Sort, nullsHigh: bool, s1: seq<Row>, s2: seq<Row>)
    requires Sorted(sort, nullsHigh, s1) && Sorted(sort, nullsHigh, s2)
    requires multiset(s1) == multiset(s2)
    requires DistinctIdsIn(multiset(s1))
    requires |s1| > 0
    ensures |s2| > 0 && s1[0] == s2[0]
  {
    assert |s2| == |multiset(s2)| == |s1|;
    var a, b := s1[0], s2[0];
    assert a in multiset(s1) && b in multiset(s2);
    if a != b {
      var i :| 0 <= i < |s2| && s2[i] == a;
      var j :| 0 <= j < |s1| && s1[j] == b;
      assert !Before(sort, nullsHigh, b, a);
      assert !Before(sort, nullsHigh, a, b);
      BeforeTotal(sort, nullsHigh, a, b);
    }
  }

  /** Dropping the first row keeps a sequence sorted, and its rows distinct. */
  lemma Tail(sort: Sort, nullsHigh: bool, s: seq<Row>)
    requires Sorted(sort, nullsHigh, s) && DistinctIdsIn(multiset(s)) && |s| > 0
    ensures Sorted(sort, nullsHigh, s[1..])
    ensures multiset(s[1..]) == multiset(s) - multiset{s[0]}
    ensures DistinctIdsIn(multiset(s[1..]))
  {
    assert s == [s[0]] + s[1..];
    forall a | a in multiset(s[1..])
      ensures a in multiset(s) && multiset(s[1..])[a] <= multiset(s)[a]
    {
    }
  }

  /** Of rows with distinct ids there is only one sorted arrangement. */
  lemma {:induction false} SortedUnique(sort: Sort, nullsHigh: bool, s1: seq<Row>, s2: seq<Row>)
    requires Sorted(sort, nullsHigh, s1) && Sorted(sort, nullsHigh, s2)
    requires multiset(s1) == multiset(s2)
    requires DistinctIdsIn(multiset(s1))
    ensures s1 == s2
    decreases |s1|
  {
    if |s1| == 0 {
      assert |s2| == |multiset(s2)| == 0;
    } else {
      SameHead(sort, nullsHigh, s1, s2);
      Tail(sort, nullsHigh, s1);
      Tail(sort, nullsHigh, s2);
      SortedUnique(sort, nullsHigh, s1[1..], s2[1..]);
      ConsEq(s1, s2);
    }
  }

  /** Sequences with the same head and the same tail are equal. */
  lemma ConsEq<T>(s1: seq<T>, s2: seq<T>)
    requires |s1| > 0 && |s2| > 0 && s1[0] == s2[0] && s1[1..] == s2[1..]
    ensures s1 == s2
  {
    assert s1 == [s1[0]] + s1[1..] && s2 == [s2[0]] + s2[1..];
  }

  /** The order of the rows handed in does not matter: the sorted result is determined. */
  lemma SortDeterministic(sort: Sort, nullsHigh: bool, s1: seq<Row>, s2: seq<Row>)
    requires multiset(s1) == multiset(s2)
    requires DistinctIds(s1)
    ensures SortRows(sort, nullsHigh, s1) == SortRows(sort, nullsHigh, s2)
  {
    DistinctIdsOfSeq(s1);
    SortedUnique(sort, nullsHigh, SortRows(sort, nullsHigh, s1), SortRows(sort, nullsHigh, s2));
  }
}
