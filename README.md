# Review finder — a Dafny model

This project models `ReviewFinder`, a small in-memory index over labelled
business reviews. The input maps a category-group name (such as
`"Food, Drink"`) to a group with optional `fake_reviews` and
`genuine_reviews` lists. Each list holds review records, which are
dictionaries.

The finder does two things in sequence:

- **Normalizer** (`_preprocess_data`). It flattens the input into one
  ordered sequence of records. Each record is a copy of an input review
  tagged with `review_type` (`"fake"` or `"genuine"`). When the review has
  no `categories`, the copy also gets the comma-split, whitespace-stripped
  tokens of its group's name. The constructor also saves the set of group
  names.
- **Query engine**. `get_reviews_by_category(q)` returns, split by label,
  the records whose categories joined with `", "` are exactly `q`. The order
  is kept and `review_type` is removed. `verify_categories_exist(c)` returns
  the candidates that are not group names, and whether there are none. With
  nothing loaded it always answers `false`, with every candidate missing.

Modules:

- `Text` (text.dfy): Python's `str.split` with one separator, `str.strip`
  and `str.join`, with their round-trip and trimming properties.
- `Records` (records.dfy): the record, value, label and input types.
- `Normalizer` (normalizer.dfy): `Flatten` is the specification of the
  flat sequence. `PreprocessData` is the source's nested loop, proved to
  compute it.
- `Query` (query.dfy): the row filter. `HitPositions` gives the matching
  positions in order, and `Select` is proved to return exactly those rows.
- `Finder` (finder.dfy): the class `ReviewFinder`. Its two `const` fields
  are set once by the constructor. The file also holds the two queries and
  the lemmas and scenarios about them.

The lookup matches the whole joined string, case-sensitively (lines 102-108).
The docstring at review_module.py:85-87 says it tests whether the query is
*contained in* one of the categories. The model follows the code.

Python values are immutable in Dafny, so "the input is not changed by the
copy-and-tag step" holds by construction. The model shows it by building each
tagged record as a new map.

## Model

| member | source | states |
|---|---|---|
| `Text.Split` | review_module.py:67 | `name.split(',')` gives one piece more than there are commas, and no piece contains a comma |
| `Text.JoinSplit` | review_module.py:67 | joining the pieces of a split with the same separator gives back the original string |
| `Text.SplitAtFirst` | review_module.py:67 | the first piece runs up to the first separator; the other pieces are the split of what follows it |
| `Text.TrimStart` | review_module.py:67 | the result is the suffix of the input after its leading whitespace, and it does not start with whitespace |
| `Text.TrimEnd` | review_module.py:67 | the result is the prefix of the input before its trailing whitespace, and it does not end with whitespace |
| `Text.StripMeaning` | review_module.py:67 | `strip()` cuts only whitespace, from the two ends, and leaves no whitespace at either end |
| `Text.StripUnique` | review_module.py:67 | every whitespace-free-ended piece cut from a string by removing only whitespace equals `Strip` of that string |
| `Text.StripIdempotent` | review_module.py:67 | stripping twice is stripping once |
| `Normalizer.DeriveCategoriesMeaning` | review_module.py:67 | derived categories: one per comma-separated piece of the group name, in order, each the stripped piece, with no comma and no surrounding whitespace |
| `Normalizer.DeriveCategoriesRoundTrip` | review_module.py:67 | a group name whose pieces have no surrounding whitespace is recovered by joining its derived categories with `","` |
| `Normalizer.TagFields` | review_module.py:63-67 | the tagged copy has `review_type` set to the label, keeps an existing `categories`, and otherwise gets the derived categories; every other field keeps its value; it has exactly the review's fields plus those two |
| `Normalizer.TagAll` | review_module.py:63-68 | one tagged copy per review of the list, in the same order |
| `Normalizer.Flatten` | review_module.py:60-76 | the flat sequence has one record per input review: its length is the sum over groups of the two list lengths, with an absent list counting as empty |
| `Normalizer.FlattenAppend` | review_module.py:61 | flattening the concatenation of two inputs gives the concatenation of their flat sequences, so groups keep their order |
| `Normalizer.GroupRecordsAt` | review_module.py:61-68 | inside one group, fake review `j` is record `j`, and genuine review `j` comes after all the group's fake reviews, as their tagged copies |
| `Normalizer.FlattenAtGroup` | review_module.py:61-76 | a group's records follow, in the flat sequence, all the records of the groups before it |
| `Normalizer.FlattenAt` | review_module.py:61-76 | review `j` of a label in group `g` sits at `Position(data, g, label, j)` as its tagged copy: after all earlier groups, and a genuine review after all fake ones of its group |
| `Normalizer.PositionInjective` | review_module.py:61-76 | two different input reviews never land at the same position, so no record is dropped or shared |
| `Normalizer.FlattenNormalized` | review_module.py:63-75 | every flat record has a `review_type` of `"fake"` or `"genuine"` and a list of categories |
| `Normalizer.AppendTagged` | review_module.py:63-68 | one inner loop appends the tagged copies of a list's reviews to the partial result, in order |
| `Normalizer.PreprocessData` | review_module.py:50-78 | the nested loop computes exactly `Flatten(data)` |
| `Records.GroupNames` | review_module.py:43 | the saved name set holds exactly the input's group names |
| `Records.OrEmpty` | review_module.py:63 | `.get(key, [])`: an absent list reads as empty, a present one as itself |
| `Query.DropReviewType` | review_module.py:117-118 | dropping the column removes `review_type` and keeps every other field with its value |
| `Query.HitPositions` | review_module.py:102-114 | the positions, in strictly increasing order, of exactly the rows whose joined categories equal the query and whose `review_type` is the label |
| `Query.Select` | review_module.py:111-118 | the filtered list is the rows at `HitPositions`, in that order, each without `review_type` |
| `Query.SelectSound` | review_module.py:102-118 | every returned row is the stored row at its hit position minus `review_type`: it has no `review_type`, its categories join to the query, and the stored row has the label |
| `Query.SelectOrder` | review_module.py:111-118 | two matching rows are both returned, in their stored order |
| `Query.SelectSingle` | review_module.py:102-118 | a one-row table gives that row, minus `review_type`, exactly when it matches |
| `Query.SelectAppend` | review_module.py:111-118 | the filter distributes over concatenation, so relative order is kept |
| `Query.SelectPartition` | review_module.py:111-114 | the fake and genuine lists together hold exactly as many rows as match the query by category |
| `Finder.ReviewFinder.constructor` | review_module.py:27-46 | the group-name set is the input's key set and the records are the flat sequence; empty input gives empty set and no records |
| `Finder.ReviewFinder.GetReviewsByCategory` | review_module.py:80-120 | with no records both lists are empty; otherwise each list holds, in stored order, the records of its label whose joined categories equal the query, minus `review_type` |
| `Finder.ReviewFinder.VerifyCategoriesExist` | review_module.py:123-152 | when nothing is loaded: `false`, with every candidate missing; otherwise `missing` is exactly the candidates that are not group names, and the flag is true iff every candidate is one |
| `Finder.LookupSound` | review_module.py:102-120 | every returned record lacks `review_type`, has categories that join to exactly the query, and comes from a stored record |
| `Finder.LookupComplete` | review_module.py:102-120 | every stored record of a label whose joined categories equal the query is returned in that label's list |
| `Finder.FoundByGroupName` | review_module.py:66-67 | an input review is found by a query exactly when the query is its own categories joined, or, when it has none, its group name's stripped tokens joined with `", "` |
| `Finder.DropTag` | review_module.py:63-118 | a returned input review is the review without its own `review_type`, with the derived categories added exactly when it had none |
| `Finder.SingleReviewFound` | review_module.py:60-120 | a finder holding one review without `categories` returns it, in its label's list and with the derived categories, to the query that joins them with `", "` |
| `Finder.MatchesKeepInputOrder` | review_module.py:61-76 | two reviews of a label that match the same query are both returned, the earlier one in input order first, also across groups |
| `Finder.VerifyNoCandidates` | review_module.py:145-152 | on a loaded finder, the empty candidate list gives `(true, {})` |
| `Finder.EmptyInputScenario` | review_module.py:37-40 | empty input: no names, no records; a lookup gives two empty lists; `["x"]` gives `(false, {"x"})` and `[]` gives `(false, {})` |
| `Finder.RoundTripScenario` | review_module.py:60-120 | `{"Food, Drink": {fake: [{id: 1}], genuine: []}}` looked up by `"Food, Drink"` gives the review with categories `["Food", "Drink"]`; `"food, drink"` and `"Food"` give nothing; the name verifies and `"Food"` is missing |
| `Finder.FoodDrinkMissed` | review_module.py:106 | the match is whole-string and case-sensitive: every query other than the signature finds nothing |

## Left out

- The pandas DataFrame (review_module.py:40, 78, 111-118) is a sequence of
  records with linear filters. When records carry different field sets,
  pandas fills the missing columns with NaN, and `.to_dict('records')` adds
  those fields back. This is library behaviour and is not modelled: a
  returned record has exactly the fields of its stored record, minus
  `review_type`.
- `df.empty` (review_module.py:98) is modelled as "no records". A frame with
  rows but no columns cannot arise, because every row has `review_type`.
- The `print` warnings and status messages (review_module.py:38, 46, 141)
  are console output and have no effect on results.
- The commented-out JSON loading (review_module.py:5-19) is file I/O and is
  not live code.
- A review whose own `categories` is not a list of strings would make the
  join at review_module.py:105 raise, or join a string's characters. The
  constructor requires every present `categories` to be a list of strings
  (`WellTypedInput`).
- `str.strip()` removes all Unicode whitespace. The model removes only
  space, tab, line feed, carriage return, vertical tab and form feed.
- Field values other than strings, string lists, integers, booleans and null
  (floats, nested objects) are not in `Value`. The finder passes them through
  untouched.
- The input is a sequence of (name, group) pairs, which keeps the
  dictionary's order. The model does not require the names to be distinct,
  as a dictionary's keys are. Nothing proved depends on that.
- Extra keys of a group besides `fake_reviews` and `genuine_reviews` are
  ignored by the source, and the model's `Group` does not have them.
