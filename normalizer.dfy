/**
 The normalizer of `ReviewFinder` (`_preprocess_data`): it flattens the nested
 input into one ordered sequence of records, tagging each copy with its label
 and, when it has none, with the categories derived from its group's name.

 `Flatten` is the specification; `PreprocessData` is the source's nested loop,
 proved to compute it.
 */
module Normalizer {
  import opened Text
  import opened Records

  /** `[c.strip() for c in name.split(',')]`: the categories a group name
      stands for. */
  function DeriveCategories(name: string): seq<string> {
    var pieces := Split(name, ',');
    seq(|pieces|, i requires 0 <= i < |pieces| => Strip(pieces[i]))
  }

  /** One category per comma-separated piece of the name, in order, each the
      stripped piece: without commas, without whitespace at either end, and
      obtained from its piece by cutting whitespace only. */
  lemma {:induction false} DeriveCategoriesMeaning(name: string)
    ensures |DeriveCategories(name)| == Occurrences(name, ',') + 1
    ensures forall i :: 0 <= i < |DeriveCategories(name)| ==>
      && ',' !in DeriveCategories(name)[i]
      && IsStripped(DeriveCategories(name)[i])
      && IsTrimmingOf(DeriveCategories(name)[i], Split(name, ',')[i], LeadingSpace(Split(name, ',')[i]))
  {
    var pieces := Split(name, ',');
    var cats := DeriveCategories(name);
    forall i | 0 <= i < |cats|
      ensures ',' !in cats[i] && IsStripped(cats[i])
      ensures IsTrimmingOf(cats[i], pieces[i], LeadingSpace(pieces[i]))
    {
      assert cats[i] == Strip(pieces[i]);
      StripPiece(pieces[i], ',');
      StripMeaning(pieces[i]);
    }
  }

  /** Stripping adds no character: a piece without `c` strips to a string
      without `c`. */
  lemma StripPiece(piece: string, c: char)
    requires c !in piece
    ensures c !in Strip(piece)
  {
    StripMeaning(piece);
    var r := Strip(piece);
    var cut := LeadingSpace(piece);
    assert r == piece[cut..cut + |r|];
  }

  /** A group name whose comma-separated pieces carry no surrounding
      whitespace is recovered by joining its categories with `","`. */
  lemma DeriveCategoriesRoundTrip(name: string)
    requires forall i :: 0 <= i < |Split(name, ',')| ==> IsStripped(Split(name, ',')[i])
    ensures Join(DeriveCategories(name), ",") == name
  {
    var pieces := Split(name, ',');
    forall i | 0 <= i < |pieces| ensures Strip(pieces[i]) == pieces[i] {
      StripOfStripped(pieces[i]);
    }
    assert DeriveCategories(name) == pieces;
    JoinSplit(name, ',');
  }

  /** A name of two stripped, comma-free parts joined by `", "` stands for
      exactly those two categories. */
  lemma DeriveTwoCategories(a: string, b: string)
    requires ',' !in a && ',' !in b && IsStripped(a) && IsStripped(b)
    ensures DeriveCategories(a + ", " + b) == [a, b]
    ensures Join([a, b], ", ") == a + ", " + b
  {
    assert a + ", " + b == a + [','] + ([' '] + b);
    SplitTwoPieces(a, ',', [' '] + b);
    StripOfStripped(a);
    StripLeadingSpace(' ', b);
  }

  /** The copy of `review` that the normalizer appends: `review_type` set to
      the label, `categories` derived from the group name only when absent. */
  function Tag(review: Record, kind: Label, groupName: string): Record {
    var copy := review[ReviewTypeKey := Text(kind.Name())];
    if CategoriesKey in copy then copy
    else copy[CategoriesKey := Texts(DeriveCategories(groupName))]
  }

  /** The tagged copy has `review_type` set to the label, keeps an existing
      `categories` and otherwise gets the derived ones, and keeps every other
      field with its value; it adds no field beyond those two. */
  lemma TagFields(review: Record, kind: Label, groupName: string)
    ensures Tag(review, kind, groupName).Keys == review.Keys + {ReviewTypeKey, CategoriesKey}
    ensures Tag(review, kind, groupName)[ReviewTypeKey] == Text(kind.Name())
    ensures CategoriesKey in review ==> Tag(review, kind, groupName)[CategoriesKey] == review[CategoriesKey]
    ensures CategoriesKey !in review ==>
      Tag(review, kind, groupName)[CategoriesKey] == Texts(DeriveCategories(groupName))
    ensures forall k :: k in review && k != ReviewTypeKey && k != CategoriesKey ==>
      Tag(review, kind, groupName)[k] == review[k]
  {
  }

  /** The tagged copies of a list of reviews, in order. */
  function TagAll(reviews: seq<Record>, kind: Label, groupName: string): (rs: seq<Record>)
    ensures |rs| == |reviews|
    ensures forall j :: 0 <= j < |rs| ==> rs[j] == Tag(reviews[j], kind, groupName)
  {
    seq(|reviews|, j requires 0 <= j < |reviews| => Tag(reviews[j], kind, groupName))
  }

  /** The records of one group: its fake reviews, then its genuine ones. */
  function GroupRecords(name: string, group: Group): seq<Record> {
    TagAll(ReviewsOf(group, Fake), Fake, name) + TagAll(ReviewsOf(group, Genuine), Genuine, name)
  }

  /** Number of reviews in one group, an absent list counting as empty. */
  function GroupSize(group: Group): nat {
    |ReviewsOf(group, Fake)| + |ReviewsOf(group, Genuine)|
  }

  /** Number of reviews in the input, summed over groups. */
  function TotalReviews(data: Input): nat {
    if data == [] then 0 else GroupSize(data[0].1) + TotalReviews(data[1..])
  }

  /** The flat sequence: the groups' records, group after group. Exactly one
      record per input review. */
  function Flatten(data: Input): (rs: seq<Record>)
    ensures |rs| == TotalReviews(data)
  {
    if data == [] then [] else GroupRecords(data[0].0, data[0].1) + Flatten(data[1..])
  }

  /** Flattening distributes over concatenation of inputs. */
  lemma {:induction false} FlattenAppend(a: Input, b: Input)
    ensures Flatten(a + b) == Flatten(a) + Flatten(b)
  {
    if a != [] {
      assert (a + b)[1..] == a[1..] + b;
      FlattenAppend(a[1..], b);
    } else {
      assert a + b == b;
    }
  }

  /** The records of the first `g + 1` groups are those of the first `g`,
      then group `g`'s fake reviews, then its genuine ones. */
  lemma FlattenExtend(data: Input, g: nat)
    requires g < |data|
    ensures Flatten(data[..g + 1]) ==
      Flatten(data[..g]) + TagAll(ReviewsOf(data[g].1, Fake), Fake, data[g].0)
        + TagAll(ReviewsOf(data[g].1, Genuine), Genuine, data[g].0)
  {
    assert data[..g + 1] == data[..g] + [data[g]];
    FlattenAppend(data[..g], [data[g]]);
    assert [data[g]][1..] == [];
    var a, b := TagAll(ReviewsOf(data[g].1, Fake), Fake, data[g].0), TagAll(ReviewsOf(data[g].1, Genuine), Genuine, data[g].0);
    assert Flatten([data[g]]) == a + b;
    assert Flatten(data[..g]) + (a + b) == Flatten(data[..g]) + a + b;
  }

  /** The review count of the first groups, also where group `g`'s records
      start in the flat sequence. */
  lemma {:induction false} TotalReviewsAppend(a: Input, b: Input)
    ensures TotalReviews(a + b) == TotalReviews(a) + TotalReviews(b)
  {
    if a != [] {
      assert (a + b)[1..] == a[1..] + b;
      TotalReviewsAppend(a[1..], b);
    } else {
      assert a + b == b;
    }
  }

  /** Where review `j` of label `kind` in group `g` lands in the flat
      sequence: after every record of the groups before `g`, and for a
      genuine review after every fake one of its own group. */
  function Position(data: Input, g: nat, kind: Label, j: nat): nat
    requires g < |data|
  {
    TotalReviews(data[..g]) + GroupOffset(data[g].1, kind, j)
  }

  /** Where review `j` of label `kind` sits among its own group's records. */
  function GroupOffset(group: Group, kind: Label, j: nat): nat {
    (if kind == Fake then 0 else |ReviewsOf(group, Fake)|) + j
  }

  /** Inside one group: the fake reviews' copies first, then the genuine
      ones', each list in order. */
  lemma GroupRecordsAt(name: string, group: Group, kind: Label, j: nat)
    requires j < |ReviewsOf(group, kind)|
    ensures GroupOffset(group, kind, j) < |GroupRecords(name, group)|
    ensures GroupRecords(name, group)[GroupOffset(group, kind, j)] == Tag(ReviewsOf(group, kind)[j], kind, name)
  {
    var fakes := TagAll(ReviewsOf(group, Fake), Fake, name);
    var genuines := TagAll(ReviewsOf(group, Genuine), Genuine, name);
    if kind == Genuine {
      assert (fakes + genuines)[|fakes| + j] == genuines[j];
    }
  }

  /** A group contributes one record per review. */
  lemma GroupRecordsSize(name: string, group: Group)
    ensures |GroupRecords(name, group)| == GroupSize(group)
  {
  }

  /** The review count of the first `g` groups is the first group's size
      plus the count of the `g - 1` groups after it. */
  lemma TotalReviewsPrefix(data: Input, g: nat)
    requires 0 < g <= |data|
    ensures TotalReviews(data[..g]) == GroupSize(data[0].1) + TotalReviews(data[1..][..g - 1])
  {
    assert data[..g][0] == data[0];
    assert data[..g][1..] == data[1..][..g - 1];
  }

  /** Group `g`'s records start after those of the groups before it. */
  lemma {:induction false} FlattenAtGroup(data: Input, g: nat, p: nat)
    requires g < |data| && p < |GroupRecords(data[g].0, data[g].1)|
    ensures TotalReviews(data[..g]) + p < |Flatten(data)|
    ensures Flatten(data)[TotalReviews(data[..g]) + p] == GroupRecords(data[g].0, data[g].1)[p]
  {
    var rs, rest := GroupRecords(data[0].0, data[0].1), Flatten(data[1..]);
    assert Flatten(data) == rs + rest;
    if g == 0 {
      assert data[..0] == [];
    } else {
      assert data[1..][g - 1] == data[g];
      FlattenAtGroup(data[1..], g - 1, p);
      GroupRecordsSize(data[0].0, data[0].1);
      TotalReviewsPrefix(data, g);
    }
  }

  /** Order and provenance: the flat sequence holds, at `Position(data, g,
      kind, j)`, the tagged copy of review `j` of that label in group `g`. */
  lemma FlattenAt(data: Input, g: nat, kind: Label, j: nat)
    requires g < |data| && j < |ReviewsOf(data[g].1, kind)|
    ensures Position(data, g, kind, j) < |Flatten(data)|
    ensures Flatten(data)[Position(data, g, kind, j)] == Tag(ReviewsOf(data[g].1, kind)[j], kind, data[g].0)
  {
    GroupRecordsAt(data[g].0, data[g].1, kind, j);
    FlattenAtGroup(data, g, GroupOffset(data[g].1, kind, j));
  }

  /** Positions of distinct reviews are distinct, so no record is shared. */
  lemma PositionInjective(data: Input, g1: nat, l1: Label, j1: nat, g2: nat, l2: Label, j2: nat)
    requires g1 < |data| && j1 < |ReviewsOf(data[g1].1, l1)|
    requires g2 < |data| && j2 < |ReviewsOf(data[g2].1, l2)|
    requires Position(data, g1, l1, j1) == Position(data, g2, l2, j2)
    ensures g1 == g2 && l1 == l2 && j1 == j2
  {
    if g1 < g2 {
      PositionBefore(data, g1, g2, l1, j1);
    } else if g2 < g1 {
      PositionBefore(data, g2, g1, l2, j2);
    }
  }

  /** Every record of group `g1` lies before where group `g2 > g1` starts. */
  lemma PositionBefore(data: Input, g1: nat, g2: nat, kind: Label, j: nat)
    requires g1 < g2 < |data| && j < |ReviewsOf(data[g1].1, kind)|
    ensures Position(data, g1, kind, j) < TotalReviews(data[..g2])
  {
    assert data[..g2] == data[..g1] + data[g1..g2];
    TotalReviewsAppend(data[..g1], data[g1..g2]);
    assert data[g1..g2] == [data[g1]] + data[g1 + 1..g2];
    assert data[g1..g2][1..] == data[g1 + 1..g2];
  }

  /** Every record of the flat sequence is tagged and has a list of
      categories, provided the input's own `categories` fields are lists. */
  lemma {:induction false} FlattenNormalized(data: Input)
    requires WellTypedInput(data)
    ensures forall i :: 0 <= i < |Flatten(data)| ==> IsNormalized(Flatten(data)[i])
  {
    if data != [] {
      assert WellTypedInput(data[1..]) by {
        forall g, kind: Label, j | 0 <= g < |data[1..]| && 0 <= j < |ReviewsOf(data[1..][g].1, kind)|
          ensures CategoriesWellTyped(ReviewsOf(data[1..][g].1, kind)[j])
        {
          assert data[1..][g] == data[g + 1];
        }
      }
      FlattenNormalized(data[1..]);
      var rs := GroupRecords(data[0].0, data[0].1);
      forall i | 0 <= i < |rs| ensures IsNormalized(rs[i]) {
        var kind := if i < |ReviewsOf(data[0].1, Fake)| then Fake else Genuine;
        var j := if kind == Fake then i else i - |ReviewsOf(data[0].1, Fake)|;
        assert CategoriesWellTyped(ReviewsOf(data[0].1, kind)[j]);
      }
    }
  }

  /** One inner loop of `_preprocess_data`: appends to `allReviews` the
      tagged copy of each review of `reviews`, in order. */
  method AppendTagged(allReviews: seq<Record>, reviews: seq<Record>, kind: Label, categoryName: string)
    returns (extended: seq<Record>)
    ensures extended == allReviews + TagAll(reviews, kind, categoryName)
  {
    extended := allReviews;
    for j := 0 to |reviews|
      invariant extended == allReviews + TagAll(reviews[..j], kind, categoryName)
    {
      var reviewCopy := reviews[j];
      reviewCopy := reviewCopy[ReviewTypeKey := Text(kind.Name())];
      if CategoriesKey !in reviewCopy {
        reviewCopy := reviewCopy[CategoriesKey := Texts(DeriveCategories(categoryName))];
      }
      assert TagAll(reviews[..j + 1], kind, categoryName) == TagAll(reviews[..j], kind, categoryName) + [reviewCopy];
      extended := extended + [reviewCopy];
    }
    assert reviews[..|reviews|] == reviews;
  }

  /** `_preprocess_data`: for each group in order, its fake reviews and then
      its genuine reviews, copied and tagged one at a time. */
  method PreprocessData(data: Input) returns (allReviews: seq<Record>)
    ensures allReviews == Flatten(data)
  {
    allReviews := [];
    for g := 0 to |data|
      invariant allReviews == Flatten(data[..g])
    {
      var categoryName, reviewsDict := data[g].0, data[g].1;
      var fakes := OrEmpty(reviewsDict.fakeReviews);
      var genuines := OrEmpty(reviewsDict.genuineReviews);
      assert fakes == ReviewsOf(data[g].1, Fake) && genuines == ReviewsOf(data[g].1, Genuine);
      allReviews := AppendTagged(allReviews, fakes, Fake, categoryName);
      allReviews := AppendTagged(allReviews, genuines, Genuine, categoryName);
      FlattenExtend(data, g);
    }
    assert data[..|data|] == data;
  }
}
