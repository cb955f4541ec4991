/** The API handlers that authenticate or change the document: `api_register`,
    `api_login`, `api_reviews_create`, `api_reviews_update` and
    `api_reviews_delete`. Each takes the loaded document and returns a status
    code. All but login also return the document they save (the loaded one,
    unchanged, when they save nothing); login saves nothing and returns the
    user it found. */
module WriteViews {
  import opened Collections
  import opened Text
  import opened Records
  import opened DbUtils
  import opened ReadViews

  /** `if not user_id`: the session holds no user id, or the falsy id 0. */
  predicate LoggedIn(session: Option<int>) {
    session.Some? && session.value != 0
  }

  // ---------------------------------------------------------------------------
  // The invariants under the three kinds of change the handlers make

  /** Appending a user with the next id and a name no stored name matches
      ignoring case keeps the invariants. */
  lemma ValidWithUser(doc: Document, u: User)
    requires Valid(doc)
    requires u.id == NextId(doc.users, UserKey)
    requires forall i :: 0 <= i < |doc.users| ==> Lower(doc.users[i].username) != Lower(u.username)
    ensures Valid(doc.(users := doc.users + [u]))
  {
    var us := doc.users + [u];
    assert forall i :: 0 <= i < |doc.users| ==> us[i] == doc.users[i];
  }

  /** Appending a review with the next id and a rating from 1 to 5 keeps the invariants. */
  lemma ValidWithReview(doc: Document, r: Review)
    requires Valid(doc)
    requires r.id == NextId(doc.reviews, ReviewKey) && ValidRating(r.rating)
    ensures Valid(doc.(reviews := doc.reviews + [r]))
  {
    var rs := doc.reviews + [r];
    assert forall i :: 0 <= i < |doc.reviews| ==> rs[i] == doc.reviews[i];
  }

  /** Replacing a review by one with the same id and a rating from 1 to 5
      keeps the invariants. */
  lemma ValidWithReplaced(doc: Document, k: int, e: Review)
    requires Valid(doc) && 0 <= k < |doc.reviews|
    requires e.id == doc.reviews[k].id && ValidRating(e.rating)
    ensures Valid(doc.(reviews := doc.reviews[k := e]))
  {
    var rs := doc.reviews[k := e];
    assert forall i :: 0 <= i < |rs| ==> rs[i].id == doc.reviews[i].id;
  }

  // ---------------------------------------------------------------------------
  // Accounts

  /** `api_register`. The name is stripped; it must have at least 3 characters,
      the password at least 6, and no stored name may equal it ignoring case.
      On success exactly one user is appended, with the next free id and the
      hash `makePassword` gives the password. */
  method Register(doc: Document, rawUsername: string, password: string, makePassword: string -> string)
    returns (status: int, doc': Document, user: Option<User>)
    ensures status == 200 || status == 400
    ensures status == 400 <==> (|Strip(rawUsername)| < 3 || |password| < 6
                                || exists i :: 0 <= i < |doc.users| && Lower(doc.users[i].username) == Lower(Strip(rawUsername)))
    ensures status == 400 ==> doc' == doc && user == None
    ensures status == 200 ==> user == Some(User(NextId(doc.users, UserKey), Strip(rawUsername), makePassword(password)))
    ensures status == 200 ==> doc' == doc.(users := doc.users + [user.value])
    ensures status == 200 ==> forall name :: Lower(name) == Lower(Strip(rawUsername)) ==> UserNamed(doc'.users, name) == user
    ensures Valid(doc) ==> Valid(doc')
  {
    var username := Strip(rawUsername);
    if username == [] || password == [] {
      return 400, doc, None;
    }
    if |username| < 3 {
      return 400, doc, None;
    }
    if |password| < 6 {
      return 400, doc, None;
    }
    var existing := FindUserByUsername(doc.users, username);
    if existing.Some? {
      return 400, doc, None;
    }
    var newUser := User(NextId(doc.users, UserKey), username, makePassword(password));
    doc' := doc.(users := doc.users + [newUser]);
    status, user := 200, Some(newUser);
    forall name | Lower(name) == Lower(username)
      ensures UserNamed(doc'.users, name) == user
    {
      UserNamedAfterAppend(doc.users, newUser, name);
    }
    if Valid(doc) {
      ValidWithUser(doc, newUser);
    }
  }

  /** `api_login`: 400 when the stripped name or the password is empty, 401
      when no user matches the name ignoring case or `checkPassword` rejects
      the password against that user's hash; otherwise that user. */
  method Login(doc: Document, rawUsername: string, password: string, checkPassword: (string, string) -> bool)
    returns (status: int, user: Option<User>)
    ensures status == 200 || status == 400 || status == 401
    ensures status == 400 <==> Strip(rawUsername) == [] || password == []
    ensures status == 200 <==> status != 400 && UserNamed(doc.users, Strip(rawUsername)).Some?
                               && checkPassword(password, UserNamed(doc.users, Strip(rawUsername)).value.passwordHash)
    ensures status == 200 ==> user == UserNamed(doc.users, Strip(rawUsername))
    ensures status != 200 ==> user == None
  {
    var username := Strip(rawUsername);
    if username == [] || password == [] {
      return 400, None;
    }
    var found := FindUserByUsername(doc.users, username);
    if found.None? {
      return 401, None;
    }
    if !checkPassword(password, found.value.passwordHash) {
      return 401, None;
    }
    return 200, found;
  }

  // ---------------------------------------------------------------------------
  // Reviews

  /** The placeholder the create response uses for a missing user, and the
      update response for a missing user or venue. */
  const Unknown := "Unknown"

  /** `api_reviews_create`. `venueId` and `rating` are the body's fields after
      `int()`: `None` when a field is absent, falsy or not convertible. The
      checks run in the order 401, 400, 404; on success exactly one review is
      appended, with the next free id, the session's user and the stamp
      `now + "Z"`. The response names the venue found, which cannot be
      missing there, and the user or the placeholder. */
  method CreateReview(doc: Document, session: Option<int>, venueId: Option<int>, rating: Option<int>,
                      rawText: string, now: string)
    returns (status: int, doc': Document, created: Option<EnrichedReview>)
    ensures status in {200, 400, 401, 404}
    ensures status == 401 <==> !LoggedIn(session)
    ensures status == 400 <==> LoggedIn(session) && (venueId.None? || rating.None? || !ValidRating(rating.value))
    ensures status == 404 <==> LoggedIn(session) && venueId.Some? && rating.Some? && ValidRating(rating.value)
                               && forall i :: 0 <= i < |doc.venues| ==> doc.venues[i].id != venueId.value
    ensures status != 200 ==> doc' == doc && created == None
    ensures status == 200 ==>
              var review := Review(NextId(doc.reviews, ReviewKey), session.value, venueId.value, rating.value,
                                   Strip(rawText), now + "Z");
              var venue := FindFirst(doc.venues, VenueKey, venueId.value);
              && doc' == doc.(reviews := doc.reviews + [review])
              && venue.Some?
              && created == Some(EnrichedReview(review, UsernameOf(doc.users, session.value, Unknown), venue.value.name))
    ensures status == 200 ==>
              created.Some? && FindFirst(doc'.reviews, ReviewKey, created.value.review.id) == Some(created.value.review)
    ensures Valid(doc) ==> Valid(doc')
  {
    if !LoggedIn(session) {
      return 401, doc, None;
    }
    if venueId.None? || rating.None? {
      return 400, doc, None;
    }
    if rating.value < 1 || rating.value > 5 {
      return 400, doc, None;
    }
    var venue := FindById(doc.venues, VenueKey, venueId.value);
    if venue.None? {
      return 404, doc, None;
    }
    var text := Strip(rawText);
    var review := Review(NextId(doc.reviews, ReviewKey), session.value, venueId.value, rating.value, text, now + "Z");
    doc' := doc.(reviews := doc.reviews + [review]);
    var user := FindById(doc'.users, UserKey, session.value);
    var username := if user.Some? then user.value.username else Unknown;
    assert username == UsernameOf(doc.users, session.value, Unknown);
    status, created := 200, Some(EnrichedReview(review, username, venue.value.name));
    FindFirstAfterAppend(doc.reviews, review, ReviewKey, review.id);
    if Valid(doc) {
      ValidWithReview(doc, review);
    }
  }

  /** The body of an update: `rating` is `None` when the key is absent and
      `Some(None)` when `int()` rejects its value; `text` is `None` when absent. */
  datatype UpdateBody = UpdateBody(rating: Option<Option<int>>, text: Option<string>)

  /** The review after an accepted update: only `rating` and `text` can
      change, each only when the body has it. */
  function Edited(r: Review, body: UpdateBody): (e: Review)
    requires body.rating.Some? ==> body.rating.value.Some?
    ensures e.id == r.id && e.userId == r.userId && e.venueId == r.venueId && e.timestamp == r.timestamp
    ensures e.rating == (if body.rating.Some? then body.rating.value.value else r.rating)
    ensures e.text == (if body.text.Some? then Strip(body.text.value) else r.text)
  {
    var withRating := if body.rating.Some? then r.(rating := body.rating.value.value) else r;
    if body.text.Some? then withRating.(text := Strip(body.text.value)) else withRating
  }

  /** The rating of an update body is present and unusable: not convertible,
      or outside 1 to 5. */
  predicate BadRating(body: UpdateBody) {
    body.rating.Some? && (body.rating.value.None? || !ValidRating(body.rating.value.value))
  }

  /** `api_reviews_update`. `body` is `None` when it is not JSON or is an
      empty object. The checks run in the order 401, 404, 403, 400; on success
      the first review with the id is replaced by its edited form and nothing
      else changes. */
  method UpdateReview(doc: Document, session: Option<int>, reviewId: int, body: Option<UpdateBody>)
    returns (status: int, doc': Document, updated: Option<EnrichedReview>)
    ensures status in {200, 400, 401, 403, 404}
    ensures status == 401 <==> !LoggedIn(session)
    ensures status == 404 <==> LoggedIn(session) && forall i :: 0 <= i < |doc.reviews| ==> doc.reviews[i].id != reviewId
    ensures status == 403 <==> LoggedIn(session) && FindFirst(doc.reviews, ReviewKey, reviewId).Some?
                               && FindFirst(doc.reviews, ReviewKey, reviewId).value.userId != session.value
    ensures status == 400 <==> LoggedIn(session) && FindFirst(doc.reviews, ReviewKey, reviewId).Some?
                               && FindFirst(doc.reviews, ReviewKey, reviewId).value.userId == session.value
                               && (body.None? || BadRating(body.value))
    ensures status != 200 ==> doc' == doc && updated == None
    ensures status == 200 ==>
              var k := IndexOfId(doc.reviews, ReviewKey, reviewId);
              && k < |doc.reviews| && body.Some? && !BadRating(body.value)
              && doc' == doc.(reviews := doc.reviews[k := Edited(doc.reviews[k], body.value)])
              && updated == Some(EnrichedReview(doc'.reviews[k], UsernameOf(doc.users, session.value, Unknown),
                                                VenueNameOf(doc.venues, doc.reviews[k].venueId, Unknown)))
    ensures Valid(doc) ==> Valid(doc')
  {
    if !LoggedIn(session) {
      return 401, doc, None;
    }
    var review := FindById(doc.reviews, ReviewKey, reviewId);
    if review.None? {
      return 404, doc, None;
    }
    if review.value.userId != session.value {
      return 403, doc, None;
    }
    if body.None? {
      return 400, doc, None;
    }
    var edit := body.value;
    if edit.rating.Some? {
      if edit.rating.value.None? {
        return 400, doc, None;
      }
      var rating := edit.rating.value.value;
      if rating < 1 || rating > 5 {
        return 400, doc, None;
      }
    }
    // the position of the record `find_by_id` returned, which the handler edits in place
    var k := IndexOfId(doc.reviews, ReviewKey, reviewId);
    var edited := Edited(review.value, edit);
    doc' := doc.(reviews := doc.reviews[k := edited]);
    var user := FindById(doc'.users, UserKey, session.value);
    var venue := FindById(doc'.venues, VenueKey, edited.venueId);
    var username := if user.Some? then user.value.username else Unknown;
    var venueName := if venue.Some? then venue.value.name else Unknown;
    updated := Some(EnrichedReview(edited, username, venueName));
    status := 200;
    if Valid(doc) {
      ValidWithReplaced(doc, k, edited);
    }
  }

  /** The condition of the comprehension `r['id'] != review_id`. */
  function NotId(reviewId: int): Review -> bool {
    (r: Review) => r.id != reviewId
  }

  /** Removing one review keeps the invariants. */
  lemma ValidWithout(doc: Document, k: int)
    requires Valid(doc) && 0 <= k < |doc.reviews|
    ensures Valid(doc.(reviews := doc.reviews[..k] + doc.reviews[k + 1..]))
  {
    var rs := doc.reviews;
    var d := rs[..k] + rs[k + 1..];
    UniqueIdsWithout(rs, ReviewKey, k);
    forall i | 0 <= i < |d|
      ensures d[i] == rs[if i < k then i else i + 1]
    {
    }
  }

  /** `api_reviews_delete`. The checks run in the order 401, 404, 403; on
      success every review with the id is dropped and the others keep their
      order. With unique ids that is exactly the one review found. */
  method DeleteReview(doc: Document, session: Option<int>, reviewId: int) returns (status: int, doc': Document)
    ensures status in {200, 401, 403, 404}
    ensures status == 401 <==> !LoggedIn(session)
    ensures status == 404 <==> LoggedIn(session) && forall i :: 0 <= i < |doc.reviews| ==> doc.reviews[i].id != reviewId
    ensures status == 403 <==> LoggedIn(session) && FindFirst(doc.reviews, ReviewKey, reviewId).Some?
                               && FindFirst(doc.reviews, ReviewKey, reviewId).value.userId != session.value
    ensures status != 200 ==> doc' == doc
    ensures status == 200 ==> doc' == doc.(reviews := Filter(doc.reviews, NotId(reviewId)))
    ensures status == 200 ==> FindFirst(doc'.reviews, ReviewKey, reviewId).None?
    ensures status == 200 && Valid(doc) ==>
              var k := IndexOfId(doc.reviews, ReviewKey, reviewId);
              k < |doc.reviews| && doc'.reviews == doc.reviews[..k] + doc.reviews[k + 1..]
    ensures Valid(doc) ==> Valid(doc')
  {
    if !LoggedIn(session) {
      return 401, doc;
    }
    var review := FindById(doc.reviews, ReviewKey, reviewId);
    if review.None? {
      return 404, doc;
    }
    if review.value.userId != session.value {
      return 403, doc;
    }
    doc' := doc.(reviews := Filter(doc.reviews, NotId(reviewId)));
    status := 200;
    if Valid(doc) {
      var k := IndexOfId(doc.reviews, ReviewKey, reviewId);
      FilterDropsOne(doc.reviews, NotId(reviewId), k);
      ValidWithout(doc, k);
    }
  }

  /** `get_next_id` looks only at the ids present, so deleting the review with
      the largest id lets the next review take an id no greater than the
      deleted one, and exactly that id when the id just below it is in use. */
  lemma DeletedMaxIdReused(rs: seq<Review>, k: int)
    requires UniqueIds(rs, ReviewKey) && PositiveIds(rs, ReviewKey) && 0 <= k < |rs|
    requires rs[k].id == NextId(rs, ReviewKey) - 1
    ensures NextId(Filter(rs, NotId(rs[k].id)), ReviewKey) <= rs[k].id
    ensures (exists j :: 0 <= j < |rs| && rs[j].id == rs[k].id - 1) ==>
              NextId(Filter(rs, NotId(rs[k].id)), ReviewKey) == rs[k].id
  {
    OthersKeepTheirIds(rs, k);
    FilterDropsOne(rs, NotId(rs[k].id), k);
    NextIdWithoutMax(rs, k);
  }

  /** With unique ids, every review but the one at `k` has an id other than its. */
  lemma OthersKeepTheirIds(rs: seq<Review>, k: int)
    requires UniqueIds(rs, ReviewKey) && 0 <= k < |rs|
    ensures forall i :: 0 <= i < |rs| && i != k ==> NotId(rs[k].id)(rs[i])
  {
    forall i | 0 <= i < |rs| && i != k
      ensures NotId(rs[k].id)(rs[i])
    {
      if i < k {
        assert ReviewKey(rs[i]) != ReviewKey(rs[k]);
      } else {
        assert ReviewKey(rs[k]) != ReviewKey(rs[i]);
      }
    }
  }

  /** Cutting the review with the largest id out of the list. */
  lemma NextIdWithoutMax(rs: seq<Review>, k: int)
    requires UniqueIds(rs, ReviewKey) && 0 <= k < |rs| && rs[k].id >= 1
    requires rs[k].id == NextId(rs, ReviewKey) - 1
    ensures NextId(rs[..k] + rs[k + 1..], ReviewKey) <= rs[k].id
    ensures (exists j :: 0 <= j < |rs| && rs[j].id == rs[k].id - 1) ==>
              NextId(rs[..k] + rs[k + 1..], ReviewKey) == rs[k].id
  {
    var id, after := rs[k].id, rs[..k] + rs[k + 1..];
    forall i | 0 <= i < |after|
      ensures after[i].id < id
    {
      var n := if i < k then i else i + 1;
      assert after[i] == rs[n];
      if n < k {
        assert ReviewKey(rs[n]) != ReviewKey(rs[k]);
      } else {
        assert ReviewKey(rs[k]) != ReviewKey(rs[n]);
      }
    }
    if j :| 0 <= j < |rs| && rs[j].id == id - 1 {
      var i := if j < k then j else j - 1;
      assert after[i] == rs[j];
    }
  }
}
