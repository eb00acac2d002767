/**
 The data the review finder works on. A review is a JSON-like record: a
 dictionary from field names to values. The input groups reviews by a
 category-group name and, inside each group, by authenticity label.
 */
module Records {

  /** The field values a review may carry. Only `Text` and `Texts` are
      inspected by the finder (`review_type` holds a `Text`, `categories` a
      `Texts`); the others pass through unchanged. */
  datatype Value =
    | Text(s: string)
    | Texts(items: seq<string>)
    | Number(n: int)
    | Flag(b: bool)
    | Null

  /** One review: field name to value, as a Python dict. */
  type Record = map<string, Value>

  /** The field the finder adds to tag a review with its label. */
  const ReviewTypeKey: string := "review_type"
  /** The field holding a review's category list. */
  const CategoriesKey: string := "categories"

  /** The authenticity label: which list of its group a review came from. */
  datatype Label = Fake | Genuine {
    /** The string stored under `review_type`. */
    function Name(): (n: string)
      ensures n == "fake" || n == "genuine"
    {
      match this
      case Fake => "fake"
      case Genuine => "genuine"
    }
  }

  /** One category group: the optional `fake_reviews` and `genuine_reviews`
      lists (`None` is an absent key). */
  datatype Group = Group(fakeReviews: Option<seq<Record>>, genuineReviews: Option<seq<Record>>)

  datatype Option<T> = None | Some(value: T)

  /** `group.get(key, [])`: an absent list reads as the empty list. */
  function OrEmpty(list: Option<seq<Record>>): (rs: seq<Record>)
    ensures list.None? ==> rs == []
    ensures list.Some? ==> rs == list.value
  {
    match list
    case None => []
    case Some(rs) => rs
  }

  /** The reviews of one kind in a group. */
  function ReviewsOf(group: Group, kind: Label): seq<Record> {
    match kind
    case Fake => OrEmpty(group.fakeReviews)
    case Genuine => OrEmpty(group.genuineReviews)
  }

  /** The whole input: group name and group, in the dictionary's iteration
      order. */
  type Input = seq<(string, Group)>

  /** The set of top-level group names, `set(review_data.keys())`. */
  function GroupNames(data: Input): (names: set<string>)
    ensures forall g :: 0 <= g < |data| ==> data[g].0 in names
    ensures forall n :: n in names ==> exists g :: 0 <= g < |data| && data[g].0 == n
  {
    set g | 0 <= g < |data| :: data[g].0
  }

  /** A review whose `categories`, if present, is a list of strings: the
      join in the category lookup needs nothing else. */
  predicate CategoriesWellTyped(r: Record) {
    CategoriesKey in r ==> r[CategoriesKey].Texts?
  }

  /** Every review of the input has a well-typed `categories` field or none. */
  predicate WellTypedInput(data: Input) {
    forall g, kind: Label, j ::
      0 <= g < |data| && 0 <= j < |ReviewsOf(data[g].1, kind)| ==>
        CategoriesWellTyped(ReviewsOf(data[g].1, kind)[j])
  }

  /** A record of the flat sequence: tagged with a label, and with a list of
      categories. */
  predicate IsNormalized(r: Record) {
    && ReviewTypeKey in r
    && (r[ReviewTypeKey] == Text(Fake.Name()) || r[ReviewTypeKey] == Text(Genuine.Name()))
    && CategoriesKey in r
    && r[CategoriesKey].Texts?
  }
}
