# Venue reviews: data layer and API handlers

A model of a small venue-review service. Users register and log in, browse a
catalogue of sports venues, and post, edit and delete star-rated reviews. All
state lives in one document with three lists: `users`, `venues` and `reviews`.

The model covers two parts of the service:

- The entity-access layer (`core/db_utils.py`): id allocation, lookup by id,
  lookup of a user by name ignoring case, and the seed document.
- The JSON handlers (`core/views.py`) that read the document (venue statistics,
  enriched review lists ordered newest first) or change it (register, create,
  update and delete a review), plus login.

The document is a value (`Records.Document`). Each handler is a method. It takes
the loaded document and, where the source uses them, the session's user id and
the request's fields. What it returns depends on the kind of handler:

- Register, create, update and delete return the status code and the document
  they save (the one they were given when they save nothing). Register, create
  and update also return the record the response is built from.
- Login returns the status code and the user found; it saves nothing.
- The read views return the status code where they have an error case, and the
  list or the stats the response carries.

A returned `User` is the whole stored record, `passwordHash` included. The
responses of register, login and the profile show only its `id` and `username`.

Each handler has two groups of contracts:

- Status: which condition gives which status code, in the order the source
  checks them.
- Effect: errors leave the document untouched; on success, exactly what changed.

The invariant `Records.Valid` holds on the seed document and every handler
preserves it. It says:

- ids are positive and unique in each list;
- usernames are unique ignoring case;
- every stored rating is between 1 and 5.

Files:

- `text.dfy`: `str.strip()`, `str.lower()` and string ordering.
- `collections.dfy`: `Option`, list comprehensions with a condition, and id uniqueness.
- `records.dfy`: the records and the invariant.
- `db_utils.dfy`: the entity-access layer.
- `sorting.dfy`: the stable descending sort by timestamp.
- `read_views.dfy`: the read-only handlers.
- `write_views.dfy`: the handlers that authenticate or change the document.

Two details of the code that the model keeps:

- The placeholder `"Unknown"` labels a missing user in the create response, and
  a missing user or venue in the update response. The read views use
  `"Unknown User"` and `"Unknown Venue"`. The create response has no venue
  placeholder: it names the venue that the handler found before saving.
- `get_next_id` is one more than the largest id present, so deleting the review
  with the largest id lets the next review reuse that id
  (`WriteViews.DeletedMaxIdReused`).
- `find_user_by_username` reads the store itself; here it searches the user
  list it is given, which is the document the handler works on.

## Model

| member | source | states |
|---|---|---|
| Text.Strip | core/views.py:52 | `strip()`: the result is the slice of the input starting at `StripStart`, only whitespace lies outside it, and it neither starts nor ends with whitespace |
| Text.StripStart | core/views.py:52 | where the stripped text starts: at most the input's length |
| Text.StripSlice | core/views.py:52 | removing leading and then trailing whitespace leaves a slice starting at `StripStart` with only whitespace around it |
| Text.Lower | core/db_utils.py:106 | `lower()`: same length; each upper-case letter becomes its lower-case partner, every other character is kept, so no upper-case letter is left |
| Text.LowerCharEqualIff | core/db_utils.py:106 | two characters lower-case alike exactly when they are equal or the two cases of one letter |
| Text.LowerEqualIff | core/db_utils.py:106 | `a.lower() == b.lower()` exactly when the strings have the same length and differ at each position at most in letter case |
| Text.LowerIdempotent | core/db_utils.py:106 | lower-casing twice equals lower-casing once |
| Text.LowerExample | core/db_utils.py:106 | "Alice", "alice" and "ALICE" all lower-case to "alice" |
| Text.LexLe | core/views.py:189 | Python's string `<=`, lexicographic by code point; a prefix is never greater than the whole |
| Text.LexLeFirstDifference | core/views.py:189 | below a common prefix, the first differing code point decides `<=` |
| Text.LexLeReflexive | core/views.py:189 | string `<=` is reflexive |
| Text.LexLeAntisymmetric | core/views.py:189 | string `<=` both ways means equal strings |
| Text.LexLeTransitive | core/views.py:189 | string `<=` is transitive |
| Text.LexLeTotal | core/views.py:189 | any two strings are comparable by `<=` |
| Collections.Filter | core/views.py:134 | a comprehension with a condition: no longer than its input, keeps only elements satisfying the condition, and keeps every such element |
| Collections.FilterAppend | core/views.py:175 | filtering a concatenation is the concatenation of the filtered parts |
| Collections.FilterKeepsAll | core/views.py:304 | a filter all elements pass returns the list unchanged |
| Collections.FilterDropsOne | core/views.py:304 | when exactly one element fails the condition, the filter removes that element and keeps the rest in order |
| Collections.UniqueIdsWithout | core/views.py:304 | removing one element keeps ids unique |
| DbUtils.MaxId | core/db_utils.py:95 | `max` over the ids of a non-empty list is an upper bound that some element attains |
| DbUtils.NextId | core/db_utils.py:92-95 | `get_next_id` is 1 for an empty list; otherwise it exceeds every id and is one more than an existing id; it is at least 1 when ids are positive |
| DbUtils.IndexOfId | core/db_utils.py:97-101 | position of the first element with the id: no earlier element has it, and the position is the list's length when none has it |
| DbUtils.FindFirst | core/db_utils.py:97-101 | the result is absent exactly when no element has the id; otherwise it is the first element that has it |
| DbUtils.FindFirstAfterAppend | core/db_utils.py:97-101 | after appending to a list that lacks an id, a lookup of that id finds the appended element exactly when it has the id |
| DbUtils.FindById | core/db_utils.py:97-101 | the scan with early return gives the same result as `FindFirst` |
| DbUtils.IndexOfUsername | core/db_utils.py:105-108 | position of the first user whose lower-cased name equals the lower-cased query, or the list's length when there is none |
| DbUtils.UserNamed | core/db_utils.py:103-108 | absent exactly when no stored name matches ignoring case; otherwise the first stored user whose name matches |
| DbUtils.UserNamedIgnoresCase | core/db_utils.py:106 | two queries that lower-case alike find the same user |
| DbUtils.UserNamedAfterAppend | core/db_utils.py:105-108 | after appending a user to a list where no name matches, the search finds that user exactly when its name matches |
| DbUtils.FindUserByUsername | core/db_utils.py:103-108 | the loop with early return gives the same result as `UserNamed` |
| DbUtils.InitialData | core/db_utils.py:10-71 | the seed has no users, venues with ids 1 to 5, reviews with ids 1 to 3 and ratings from 1 to 5, and satisfies the invariant |
| DbUtils.SeedReviewsOwnedByFirstAccount | core/db_utils.py:45-70 | the first account registered on the seed gets id 1, and seed reviews 1 and 3 name user 1 |
| Sorting.InsertDesc | core/views.py:189 | inserting one element grows the list by one |
| Sorting.InsertDescPermutes | core/views.py:189 | insertion adds exactly that element (multiset) |
| Sorting.InsertDescSorted | core/views.py:189 | inserting into a list sorted newest first keeps it sorted |
| Sorting.InsertDescStable | core/views.py:189 | insertion keeps the order of the elements with any one key and puts the new one after them |
| Sorting.StableSortDesc | core/views.py:189 | the sort keeps the length |
| Sorting.StableSortDescPermutes | core/views.py:189 | the sort output is a permutation of its input |
| Sorting.StableSortDescSorted | core/views.py:189 | the sort output has non-increasing timestamps |
| Sorting.StableSortDescStable | core/views.py:189 | elements with equal timestamps keep their original relative order |
| Sorting.StableSortDescCorrect | core/views.py:189 | sorted, a permutation and stable, together |
| Sorting.NewestFirstOfThree | core/views.py:350 | three elements with increasing timestamps T1 < T2 < T3 come out as T3, T2, T1 |
| Sorting.InsertDescShift | core/views.py:189 | moving past an element with a smaller key is one step of the insertion |
| Sorting.InsertDescStop | core/views.py:189 | the insertion stops before an element whose key is not smaller |
| Sorting.InsertInPlace | core/views.py:189 | one insertion step on an array equals `InsertDesc` on the prefix and leaves the rest alone |
| Sorting.SortDescInPlace | core/views.py:189 | the in-place sort leaves the array equal to `StableSortDesc` of its old contents |
| ReadViews.RatingSum | core/views.py:137 | `sum` of the ratings: with ratings from 1 to 5, the sum of n ratings lies between n and 5n |
| ReadViews.QuotientBounds | core/views.py:137 | arithmetic helper behind `AverageRating`'s bounds: a sum between n and 5n divided by n lies between 1 and 5 |
| ReadViews.AverageRating | core/views.py:135-137 | the average is 0 with no reviews, and otherwise lies between 1 and 5 when the ratings are valid |
| ReadViews.ReviewCountIsOccurrences | core/views.py:134 | the number of reviews selected for a venue is the number of times its id occurs among the reviews' venue ids |
| ReadViews.StatsFor | core/views.py:133-142 | one venue's stats: the venue unchanged; the count equals the occurrences of its id; the average is 0 when the count is 0 and sum/count otherwise, between 1 and 5 for valid ratings |
| ReadViews.VenuesList | core/views.py:130-143 | one stats entry per stored venue, in stored order |
| ReadViews.VenueDetail | core/views.py:146-164 | 404 exactly when no venue has the id; otherwise the stats of the first venue with it |
| ReadViews.SeedVenueOneReviews | core/views.py:134 | on the seed document, the reviews of venue 1 are the first two reviews |
| ReadViews.SeedVenueOneStats | core/views.py:134-141 | on the seed document, venue 1 has 2 reviews with average 4.5 |
| ReadViews.UsernameOf | core/views.py:181-185 | the placeholder when no user has the id; otherwise the name of the first user with it |
| ReadViews.VenueNameOf | core/views.py:182-186 | the placeholder when no venue has the id; otherwise the name of the first venue with it |
| ReadViews.Enrich | core/views.py:183-187 | the stored review unchanged, with its author's name or "Unknown User" and its venue's name or "Unknown Venue" |
| ReadViews.EnrichAll | core/views.py:179-187 | one enriched entry per review, in order, with the stored review unchanged and the author's and venue's names or their placeholders |
| ReadViews.ProfileAll | core/views.py:318-324 | one entry per review, in order, with the stored review unchanged and the venue's name or "Unknown Venue" |
| ReadViews.UnknownUserExactlyWhenMissing | core/views.py:181-185 | when no stored user is called "Unknown User", the label appears exactly when the author is missing |
| ReadViews.UnknownVenueExactlyWhenMissing | core/views.py:182-186 | when no stored venue is called "Unknown Venue", the label appears exactly when the venue is missing |
| ReadViews.UnknownUserLabelAmbiguous | core/views.py:185 | a user called "Unknown User" makes the label appear although the lookup succeeds |
| ReadViews.EnrichReviews | core/views.py:179-187 | the enrichment loop computes `EnrichAll` |
| ReadViews.EnrichForProfile | core/views.py:318-324 | the profile loop computes `ProfileAll` |
| ReadViews.SortNewestFirst | core/views.py:189 | the in-place sort of a copied list is sorted newest first, a permutation and stable |
| ReadViews.Selected | core/views.py:171-175 | with a venue id, exactly the reviews of that venue; otherwise all reviews |
| ReadViews.ReviewsList | core/views.py:167-190 | 400 exactly for an unparsable venue id; otherwise the selected reviews enriched and sorted newest first; with a venue id every result has that venue |
| ReadViews.Feed | core/views.py:337-351 | every stored review enriched, sorted newest first, a permutation and stable |
| ReadViews.UserProfile | core/views.py:310-334 | 404 exactly when no user has the id; otherwise that user and their reviews with venue names, sorted newest first |
| WriteViews.LoggedIn | core/views.py:194-196 | the session holds a user id other than the falsy 0 |
| WriteViews.ValidWithUser | core/views.py:68-75 | appending a user with the next id and an unused name keeps the invariant |
| WriteViews.ValidWithReview | core/views.py:223-231 | appending a review with the next id and a valid rating keeps the invariant |
| WriteViews.ValidWithReplaced | core/views.py:263-273 | replacing a review with one of the same id and a valid rating keeps the invariant |
| WriteViews.Register | core/views.py:47-83 | 400 exactly for a stripped name shorter than 3, a password shorter than 6, or a name already taken ignoring case, and then nothing changes; otherwise exactly one user is appended with the next id and the hashed password, a lookup by any case of the name finds it, and the invariant is kept |
| WriteViews.Login | core/views.py:86-110 | 400 exactly for an empty name or password; 200 exactly when a user matches the name ignoring case and the password check passes, and then it returns that user; 401 otherwise |
| WriteViews.CreateReview | core/views.py:193-242 | 401 without a session; then 400 for a missing field or a rating outside 1 to 5; then 404 for an unknown venue; no error changes anything; success appends exactly one review with the next id, the session's user, the rating and the stripped text, which a lookup by its id finds; the response names the venue found and the user or "Unknown"; the invariant is kept |
| WriteViews.Edited | core/views.py:263-273 | an edit changes only rating and text, each only when the body has it |
| WriteViews.UpdateReview | core/views.py:245-287 | 401 without a session, 404 for a missing review, 403 for someone else's review, 400 for no body or an unusable rating; no error changes anything; success replaces only the first review with the id by its edited form, and keeps the invariant |
| WriteViews.ValidWithout | core/views.py:304 | removing one review keeps the invariant |
| WriteViews.DeleteReview | core/views.py:290-307 | 401 without a session, 404 for a missing review, 403 for someone else's review, and no error changes anything; success keeps exactly the reviews with other ids, in order; with unique ids that removes exactly the review found; the id is then gone and the invariant is kept |
| WriteViews.DeletedMaxIdReused | core/db_utils.py:92-95 | after deleting the review with the largest id, the next id is at most the deleted one, and equal to it when the id just below is in use: ids are reused |

## Left out

- `load_db` and `save_db` (file I/O, JSON serialisation, the process-wide lock): the document is a value passed in and returned.
- The lost update between a handler's separate load and save, and the re-entrant acquisition of the non-reentrant lock in `load_db`: concurrency.
- `round(..., 1)` on the average: `ReadViews.AverageRating` is the exact quotient of the rating sum by the count.
- `make_password` and `check_password`, a hashing library: they are the function parameters `makePassword` and `checkPassword`.
- `datetime.utcnow().isoformat()`: the clock; `WriteViews.CreateReview` takes its text as the parameter `now`.
- `get_json_body` and JSON field types: each request field arrives already converted. For create, a missing, falsy or unconvertible `venue_id` or `rating` is `None`. For update, the rating is an `Option<Option<int>>`: `None` when the body has no rating, `Some(None)` when its value does not convert, and otherwise `Some(Some(n))`; a falsy 0 there is `Some(Some(0))`, which the range check rejects. An absent name or password is the empty string. An unparsable or empty body is folded into those cases (for update it is `None`). A body field of the wrong JSON type, which makes `.strip()` raise in the source, is not modelled.
- Session storage, `JsonResponse`, the HTML page views, `api_me`, `api_logout` and the URL tables: framework glue; the session's user id is an `Option<int>` parameter.
- Text.Strip, Text.Lower: whitespace and case are the ASCII ones; Unicode whitespace and case mapping are not modelled.
- Sorting.SortDescInPlace: the source calls Python's TimSort; the model sorts by insertion, which yields the same order because both are stable sorts by the same key.
- ReadViews.AverageRating: its contract gives only the zero case and the bounds from 1 to 5; the value sum/count is stated in `ReadViews.StatsFor`, and the product form (average times count equals sum) is stated nowhere.
