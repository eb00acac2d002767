/**
 `ReviewFinder`: the query engine. The constructor saves the input's group
 names and runs the normalizer once; both fields are immutable afterwards.
 The two queries are pure reads of that state.
 */
module Finder {
  import opened Text
  import opened Records
  import opened Normalizer
  import opened Query

  /** The result of a category lookup: the `fake` and the `genuine` lists. */
  datatype Found = Found(fake: seq<Record>, genuine: seq<Record>)

  /** `set(candidates)`. */
  function SetOf(candidates: seq<string>): (s: set<string>)
    ensures forall x :: x in s <==> x in candidates
  {
    set x | x in candidates
  }

  class ReviewFinder {
    /** The top-level group names of the input. */
    const originalCategories: set<string>
    /** The flat, normalized sequence of records (the data frame's rows). */
    const records: seq<Record>

    /** Every stored record is tagged and carries a list of categories. */
    predicate Valid() {
      AllNormalized(records)
    }

    /** `ReviewFinder(review_data)`. An empty input gives the empty state: no
        group names and no records. */
    constructor (reviewData: Input)
      requires WellTypedInput(reviewData)
      ensures originalCategories == GroupNames(reviewData)
      ensures records == Flatten(reviewData)
      ensures reviewData == [] ==> originalCategories == {} && records == []
      ensures Valid()
    {
      if |reviewData| == 0 {
        originalCategories := {};
        records := [];
      } else {
        originalCategories := GroupNames(reviewData);
        var rows := PreprocessData(reviewData);
        records := rows;
      }
      FlattenNormalized(reviewData);
    }

    /** `get_reviews_by_category(query)`: for each label, the records whose
        joined categories are exactly `query`, in stored order, without
        `review_type`. */
    function GetReviewsByCategory(query: string): (r: Found)
      requires Valid()
      ensures records == [] ==> r == Found([], [])
      ensures |r.fake| == |HitPositions(records, Fake, query)|
      ensures forall k :: 0 <= k < |r.fake| ==>
        r.fake[k] == DropReviewType(records[HitPositions(records, Fake, query)[k]])
      ensures |r.genuine| == |HitPositions(records, Genuine, query)|
      ensures forall k :: 0 <= k < |r.genuine| ==>
        r.genuine[k] == DropReviewType(records[HitPositions(records, Genuine, query)[k]])
    {
      if records == [] then Found([], [])
      else Found(Select(records, Fake, query), Select(records, Genuine, query))
    }

    /** `verify_categories_exist(candidates)`: the candidates that are not
        group names of the input, and whether there are none. With nothing
        loaded, nothing is verified: the answer is `false` and every
        candidate is missing. */
    function VerifyCategoriesExist(candidates: seq<string>): (r: (bool, set<string>))
      ensures originalCategories == {} ==> !r.0 && forall x :: x in r.1 <==> x in candidates
      ensures originalCategories != {} ==>
        forall x :: x in r.1 <==> x in candidates && x !in originalCategories
      ensures originalCategories != {} ==>
        (r.0 <==> forall x :: x in candidates ==> x in originalCategories)
    {
      if originalCategories == {} then (false, SetOf(candidates))
      else
        var checkSet := SetOf(candidates);
        var missingCategories := checkSet - originalCategories;
        (missingCategories == {}, missingCategories)
    }
  }

  /** Every returned record matches the query exactly, has lost its
      `review_type`, and came from a stored record of the same label; every
      stored record of that label that matches is returned. */
  lemma LookupSound(f: ReviewFinder, query: string, x: Record)
    requires f.Valid()
    requires x in f.GetReviewsByCategory(query).fake || x in f.GetReviewsByCategory(query).genuine
    ensures ReviewTypeKey !in x
    ensures CategoriesKey in x && x[CategoriesKey].Texts? && Join(x[CategoriesKey].items, ", ") == query
    ensures exists i :: 0 <= i < |f.records| && x == DropReviewType(f.records[i])
  {
    var r := f.GetReviewsByCategory(query);
    var kind := if x in r.fake then Fake else Genuine;
    var out := Select(f.records, kind, query);
    var k :| 0 <= k < |out| && out[k] == x;
    SelectSound(f.records, kind, query, k);
  }

  /** A stored record of label `kind` whose joined categories are the query
      is among the returned ones. */
  lemma LookupComplete(f: ReviewFinder, query: string, i: nat, kind: Label)
    requires f.Valid() && i < |f.records|
    requires f.records[i][ReviewTypeKey] == Text(kind.Name()) && Signature(f.records[i]) == query
    ensures var r := f.GetReviewsByCategory(query);
      DropReviewType(f.records[i]) in (if kind == Fake then r.fake else r.genuine)
  {
    var r := f.GetReviewsByCategory(query);
    var out := if kind == Fake then r.fake else r.genuine;
    var idx := HitPositions(f.records, kind, query);
    assert i in idx;
    var k :| 0 <= k < |idx| && idx[k] == i;
    assert out[k] == DropReviewType(f.records[i]);
  }

  /** The signature a review of group `name` gets in the flat sequence: its
      own `categories` joined with `", "` when it has them, otherwise the
      group name split at commas, stripped and rejoined with `", "`. */
  function ExpectedSignature(review: Record, name: string): string
    requires CategoriesWellTyped(review)
  {
    if CategoriesKey in review then Join(review[CategoriesKey].items, ", ")
    else Join(DeriveCategories(name), ", ")
  }

  /** A review of the input is found by a query exactly when the query is its
      expected signature. */
  lemma FoundByGroupName(data: Input, g: nat, kind: Label, j: nat, query: string)
    requires WellTypedInput(data)
    requires g < |data| && j < |ReviewsOf(data[g].1, kind)|
    ensures CategoriesWellTyped(ReviewsOf(data[g].1, kind)[j])
    ensures AllNormalized(Flatten(data))
    ensures Position(data, g, kind, j) in HitPositions(Flatten(data), kind, query)
      <==> query == ExpectedSignature(ReviewsOf(data[g].1, kind)[j], data[g].0)
  {
    FlattenNormalized(data);
    FlattenAt(data, g, kind, j);
    assert CategoriesWellTyped(ReviewsOf(data[g].1, kind)[j]);
  }

  /** What a lookup hands back for an input review: the review itself
      without any `review_type` of its own, and with the derived categories
      added when it had none. */
  lemma DropTag(review: Record, kind: Label, name: string)
    ensures CategoriesKey in review ==>
      DropReviewType(Tag(review, kind, name)) == review - {ReviewTypeKey}
    ensures CategoriesKey !in review ==>
      DropReviewType(Tag(review, kind, name)) == (review - {ReviewTypeKey})[CategoriesKey := Texts(DeriveCategories(name))]
  {
    TagFields(review, kind, name);
  }

  /** Matches keep input order, also across groups: two reviews of one label
      whose expected signature is the query are both returned, the earlier
      one (by group, then by place in its list) first. */
  lemma MatchesKeepInputOrder(data: Input, kind: Label, query: string, g1: nat, j1: nat, g2: nat, j2: nat)
    requires WellTypedInput(data)
    requires g1 < |data| && j1 < |ReviewsOf(data[g1].1, kind)|
    requires g2 < |data| && j2 < |ReviewsOf(data[g2].1, kind)|
    requires g1 < g2 || (g1 == g2 && j1 < j2)
    requires CategoriesWellTyped(ReviewsOf(data[g1].1, kind)[j1])
    requires CategoriesWellTyped(ReviewsOf(data[g2].1, kind)[j2])
    requires ExpectedSignature(ReviewsOf(data[g1].1, kind)[j1], data[g1].0) == query
    requires ExpectedSignature(ReviewsOf(data[g2].1, kind)[j2], data[g2].0) == query
    ensures AllNormalized(Flatten(data))
    ensures exists k1, k2 ::
      && 0 <= k1 < k2 < |Select(Flatten(data), kind, query)|
      && Select(Flatten(data), kind, query)[k1] == DropReviewType(Tag(ReviewsOf(data[g1].1, kind)[j1], kind, data[g1].0))
      && Select(Flatten(data), kind, query)[k2] == DropReviewType(Tag(ReviewsOf(data[g2].1, kind)[j2], kind, data[g2].0))
  {
    FoundByGroupName(data, g1, kind, j1, query);
    FoundByGroupName(data, g2, kind, j2, query);
    FlattenAt(data, g1, kind, j1);
    FlattenAt(data, g2, kind, j2);
    if g1 < g2 {
      PositionBefore(data, g1, g2, kind, j1);
    }
    SelectOrder(Flatten(data), kind, query, Position(data, g1, kind, j1), Position(data, g2, kind, j2));
  }

  /** A loaded finder confirms the empty candidate list. */
  lemma VerifyNoCandidates(f: ReviewFinder)
    requires f.originalCategories != {}
    ensures f.VerifyCategoriesExist([]) == (true, {})
  {
    assert SetOf([]) == {};
  }

  /** The empty input: no names, no records, empty lookups, and nothing
      verified. */
  method EmptyInputScenario() returns (f: ReviewFinder)
    ensures f.Valid() && f.originalCategories == {} && f.records == []
    ensures f.GetReviewsByCategory("anything") == Found([], [])
    ensures f.VerifyCategoriesExist(["x"]) == (false, {"x"})
    ensures f.VerifyCategoriesExist([]) == (false, {})
  {
    f := new ReviewFinder([]);
    assert SetOf(["x"]) == {"x"};
    assert SetOf([]) == {};
  }

  /** `{"Food, Drink": {"fake_reviews": [{"id": 1}], "genuine_reviews": []}}`:
      the review is found, with the derived categories, by exactly the query
      `"Food, Drink"`; the lookup is case-sensitive and matches whole
      signatures only. */
  method RoundTripScenario() returns (f: ReviewFinder)
    ensures f.Valid()
    ensures f.GetReviewsByCategory("Food, Drink") ==
      Found([map["id" := Number(1), CategoriesKey := Texts(["Food", "Drink"])]], [])
    ensures f.GetReviewsByCategory("food, drink") == Found([], [])
    ensures f.GetReviewsByCategory("Food") == Found([], [])
    ensures f.VerifyCategoriesExist(["Food, Drink"]) == (true, {})
    ensures f.VerifyCategoriesExist(["Food", "Food, Drink"]) == (false, {"Food"})
  {
    var name := "Food, Drink";
    f := FoodDrinkFinder(name);
    FoodDrinkFound(f, name);
    assert "food, drink"[0] != name[0];
    FoodDrinkMissed(f, name, "food, drink");
    assert |"Food"| != |name|;
    FoodDrinkMissed(f, name, "Food");
    FoodDrinkVerified(f, name);
  }

  /** The finder built from the round trip's input. */
  method FoodDrinkFinder(name: string) returns (f: ReviewFinder)
    ensures f.Valid() && f.originalCategories == {name}
    ensures f.records == [Tag(map["id" := Number(1)], Fake, name)]
  {
    var review: Record := map["id" := Number(1)];
    var data: Input := [(name, Group(Some([review]), Some([])))];
    assert data[1..] == [];
    assert Flatten(data) == [Tag(review, Fake, name)];
    assert WellTypedInput(data);
    f := new ReviewFinder(data);
  }

  /** The round trip's review is found by its group's name, as a fake review
      carrying the derived categories and no `review_type`. */
  lemma FoodDrinkFound(f: ReviewFinder, name: string)
    requires name == "Food, Drink"
    requires f.Valid() && f.records == [Tag(map["id" := Number(1)], Fake, name)]
    ensures f.GetReviewsByCategory(name) ==
      Found([map["id" := Number(1), CategoriesKey := Texts(["Food", "Drink"])]], [])
  {
    var review: Record := map["id" := Number(1)];
    assert CategoriesKey !in review && ReviewTypeKey !in review;
    DeriveFoodDrink(name);
    SingleReviewFound(f, review, Fake, name);
  }

  /** A finder holding one review without `categories` returns it, with the
      derived categories, to the query that joins them. */
  lemma SingleReviewFound(f: ReviewFinder, review: Record, kind: Label, name: string)
    requires CategoriesKey !in review && ReviewTypeKey !in review
    requires f.Valid() && f.records == [Tag(review, kind, name)]
    ensures var r := f.GetReviewsByCategory(Join(DeriveCategories(name), ", "));
      var expected := [review[CategoriesKey := Texts(DeriveCategories(name))]];
      r == if kind == Fake then Found(expected, []) else Found([], expected)
  {
    var query := Join(DeriveCategories(name), ", ");
    var tagged := f.records[0];
    TagFields(review, kind, name);
    SelectSingle(tagged, Fake, query);
    SelectSingle(tagged, Genuine, query);
    DropTag(review, kind, name);
    assert review - {ReviewTypeKey} == review;
  }

  /** Every other query, however close (another case, one category of the
      two), finds nothing. */
  lemma FoodDrinkMissed(f: ReviewFinder, name: string, query: string)
    requires name == "Food, Drink" && query != name
    requires f.Valid() && f.records == [Tag(map["id" := Number(1)], Fake, name)]
    ensures f.GetReviewsByCategory(query) == Found([], [])
  {
    var tagged := f.records[0];
    DeriveFoodDrink(name);
    assert Signature(tagged) == name;
    SelectSingle(tagged, Fake, query);
    SelectSingle(tagged, Genuine, query);
  }

  /** The group name exists; `Food` alone does not. */
  lemma FoodDrinkVerified(f: ReviewFinder, name: string)
    requires name == "Food, Drink"
    requires f.originalCategories == {name}
    ensures f.VerifyCategoriesExist([name]) == (true, {})
    ensures f.VerifyCategoriesExist(["Food", name]) == (false, {"Food"})
  {
    assert SetOf([name]) == {name};
    assert "Food" != name;
    assert SetOf(["Food", name]) - {name} == {"Food"};
  }

  /** The group name `"Food, Drink"` stands for the categories `Food` and
      `Drink`. */
  lemma DeriveFoodDrink(name: string)
    requires name == "Food, Drink"
    ensures DeriveCategories(name) == ["Food", "Drink"]
    ensures Join(["Food", "Drink"], ", ") == name
  {
    assert name == "Food" + ", " + "Drink";
    DeriveTwoCategories("Food", "Drink");
  }
}
