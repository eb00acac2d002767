/**
 The row filter of `get_reviews_by_category`: a record matches a query when
 its categories joined with `", "` are exactly the query (case-sensitive,
 whole string), and it is kept in the list of its label with `review_type`
 removed.

 `HitPositions` says which rows of the flat sequence pass the filter, in
 order; `Select` is the filter and projection, proved to return exactly the
 rows at those positions.
 */
module Query {
  import opened Text
  import opened Records

  /** Every record of the flat sequence is tagged and has categories. */
  predicate AllNormalized(rs: seq<Record>) {
    forall i :: 0 <= i < |rs| ==> IsNormalized(rs[i])
  }

  /** The category signature `", ".join(row['categories'])`. */
  function Signature(r: Record): string
    requires CategoriesKey in r && r[CategoriesKey].Texts?
  {
    Join(r[CategoriesKey].items, ", ")
  }

  /** The row passes the category filter and the label filter. */
  predicate Hit(r: Record, kind: Label, query: string)
    requires IsNormalized(r)
  {
    Signature(r) == query && r[ReviewTypeKey] == Text(kind.Name())
  }

  /** One row after `.drop(columns=['review_type'])`: every other field is
      kept with its value. */
  function DropReviewType(r: Record): (d: Record)
    ensures d.Keys == r.Keys - {ReviewTypeKey}
    ensures forall k :: k in d ==> d[k] == r[k]
  {
    r - {ReviewTypeKey}
  }

  /** The positions of the rows that pass both filters, in increasing order:
      exactly the positions `i` where `Hit(rs[i], kind, query)`. */
  ghost function HitPositions(rs: seq<Record>, kind: Label, query: string): (idx: seq<nat>)
    requires AllNormalized(rs)
    ensures forall k :: 0 <= k < |idx| ==> idx[k] < |rs|
    ensures forall k, m :: 0 <= k < m < |idx| ==> idx[k] < idx[m]
    ensures forall i :: 0 <= i < |rs| ==> (i in idx <==> Hit(rs[i], kind, query))
  {
    if rs == [] then []
    else
      var front := rs[..|rs| - 1];
      HitPositions(front, kind, query) + (if Hit(rs[|rs| - 1], kind, query) then [|rs| - 1] else [])
  }

  /** The matching rows of one label, in flat-sequence order, without their
      `review_type`. */
  function Select(rs: seq<Record>, kind: Label, query: string): (out: seq<Record>)
    requires AllNormalized(rs)
    ensures |out| == |HitPositions(rs, kind, query)|
    ensures forall k :: 0 <= k < |out| ==> out[k] == DropReviewType(rs[HitPositions(rs, kind, query)[k]])
  {
    if rs == [] then []
    else
      var front := rs[..|rs| - 1];
      var last := rs[|rs| - 1];
      Select(front, kind, query) + (if Hit(last, kind, query) then [DropReviewType(last)] else [])
  }

  /** Row `k` of the result is the row at `HitPositions[k]` minus its
      `review_type`: it has no `review_type`, its categories join to exactly
      the query, and the stored row carries the label. */
  lemma SelectSound(rs: seq<Record>, kind: Label, query: string, k: nat)
    requires AllNormalized(rs) && k < |Select(rs, kind, query)|
    ensures HitPositions(rs, kind, query)[k] < |rs|
    ensures var x := Select(rs, kind, query)[k];
      && x == DropReviewType(rs[HitPositions(rs, kind, query)[k]])
      && ReviewTypeKey !in x
      && CategoriesKey in x && x[CategoriesKey].Texts? && Join(x[CategoriesKey].items, ", ") == query
    ensures rs[HitPositions(rs, kind, query)[k]][ReviewTypeKey] == Text(kind.Name())
  {
    var i := HitPositions(rs, kind, query)[k];
    assert i in HitPositions(rs, kind, query);
    assert Hit(rs[i], kind, query);
  }

  /** Two matching rows are both returned, in their order in `rs`. */
  lemma SelectOrder(rs: seq<Record>, kind: Label, query: string, p1: nat, p2: nat)
    requires AllNormalized(rs) && p1 < p2 < |rs|
    requires Hit(rs[p1], kind, query) && Hit(rs[p2], kind, query)
    ensures exists k1, k2 ::
      && 0 <= k1 < k2 < |Select(rs, kind, query)|
      && Select(rs, kind, query)[k1] == DropReviewType(rs[p1])
      && Select(rs, kind, query)[k2] == DropReviewType(rs[p2])
  {
    var idx := HitPositions(rs, kind, query);
    var k1 :| 0 <= k1 < |idx| && idx[k1] == p1;
    var k2 :| 0 <= k2 < |idx| && idx[k2] == p2;
    assert Select(rs, kind, query)[k1] == DropReviewType(rs[p1]);
    assert Select(rs, kind, query)[k2] == DropReviewType(rs[p2]);
  }

  /** A single row is returned, without `review_type`, exactly when it
      matches. */
  lemma SelectSingle(r: Record, kind: Label, query: string)
    requires IsNormalized(r)
    ensures AllNormalized([r])
    ensures Select([r], kind, query) == if Hit(r, kind, query) then [DropReviewType(r)] else []
  {
    assert [r][..0] == [];
  }

  /** Filtering distributes over concatenation: the matches of `a + b` are
      the matches of `a` followed by those of `b`. */
  lemma {:induction false} SelectAppend(a: seq<Record>, b: seq<Record>, kind: Label, query: string)
    requires AllNormalized(a) && AllNormalized(b)
    ensures AllNormalized(a + b)
    ensures Select(a + b, kind, query) == Select(a, kind, query) + Select(b, kind, query)
  {
    AllNormalizedAppend(a, b);
    if b == [] {
      assert a + b == a;
    } else {
      var front, last := b[..|b| - 1], b[|b| - 1];
      assert AllNormalized(front);
      assert (a + b)[..|a + b| - 1] == a + front;
      assert (a + b)[|a + b| - 1] == last;
      SelectAppend(a, front, kind, query);
      var tail := if Hit(last, kind, query) then [DropReviewType(last)] else [];
      assert Select(b, kind, query) == Select(front, kind, query) + tail;
      assert Select(a + b, kind, query) == Select(a + front, kind, query) + tail;
    }
  }

  /** Concatenating normalized sequences gives a normalized sequence. */
  lemma AllNormalizedAppend(a: seq<Record>, b: seq<Record>)
    requires AllNormalized(a) && AllNormalized(b)
    ensures AllNormalized(a + b)
  {
    forall i | 0 <= i < |a + b| ensures IsNormalized((a + b)[i]) {
      if i >= |a| {
        assert (a + b)[i] == b[i - |a|];
      }
    }
  }

  /** Number of rows whose signature is exactly `query`, whatever their label. */
  function CountSignature(rs: seq<Record>, query: string): nat
    requires AllNormalized(rs)
  {
    if rs == [] then 0
    else CountSignature(rs[..|rs| - 1], query) + (if Signature(rs[|rs| - 1]) == query then 1 else 0)
  }

  /** The fake and the genuine lists partition the matching rows: every row
      whose signature is the query lands in exactly one of them. */
  lemma {:induction false} SelectPartition(rs: seq<Record>, query: string)
    requires AllNormalized(rs)
    ensures |Select(rs, Fake, query)| + |Select(rs, Genuine, query)| == CountSignature(rs, query)
  {
    if rs != [] {
      var front := rs[..|rs| - 1];
      SelectPartition(front, query);
    }
  }
}
