/** The read-only API views: venue statistics (`api_venues_list`,
    `api_venue_detail`), and the enriched review lists ordered newest first
    (`api_reviews_list`, `api_user_profile`, `api_feed`). None of them changes
    the document. */
module ReadViews {
  import opened Collections
  import opened Text
  import opened Records
  import opened DbUtils
  import opened Sorting

  // ---------------------------------------------------------------------------
  // Venue statistics

  /** The conditions of the comprehensions `r['venue_id'] == venue_id` and
      `r['user_id'] == user_id`. */
  function OfVenue(venueId: int): Review -> bool {
    (r: Review) => r.venueId == venueId
  }

  function OfUser(userId: int): Review -> bool {
    (r: Review) => r.userId == userId
  }

  /** `sum(r['rating'] for r in rs)`: with ratings from 1 to 5, the sum of n
      ratings lies between n and 5n. */
  function RatingSum(rs: seq<Review>): (sum: int)
    ensures (forall i :: 0 <= i < |rs| ==> ValidRating(rs[i].rating)) ==> |rs| <= sum <= 5 * |rs|
  {
    if rs == [] then 0
    else
      assert forall i :: 1 <= i < |rs| ==> rs[1..][i - 1] == rs[i];
      rs[0].rating + RatingSum(rs[1..])
  }

  lemma QuotientBounds(sum: real, n: real)
    requires 0.0 < n <= sum <= 5.0 * n
    ensures 1.0 <= sum / n <= 5.0
  {
    var q := sum / n;
    assert q * n == sum;
    assert (q - 1.0) * n == sum - n;
    assert (5.0 - q) * n == 5.0 * n - sum;
  }

  /** The average rating of a venue's reviews, defined as 0 when it has none;
      when every rating is valid the average lies between 1 and 5. */
  function AverageRating(rs: seq<Review>): (avg: real)
    ensures rs == [] ==> avg == 0.0
    ensures rs != [] && (forall i :: 0 <= i < |rs| ==> ValidRating(rs[i].rating)) ==> 1.0 <= avg <= 5.0
  {
    if rs == [] then 0.0
    else
      var n, sum := |rs| as real, RatingSum(rs) as real;
      var avg := sum / n;
      assert (forall i :: 0 <= i < |rs| ==> ValidRating(rs[i].rating)) ==> 1.0 <= avg <= 5.0 by {
        if forall i :: 0 <= i < |rs| ==> ValidRating(rs[i].rating) {
          QuotientBounds(sum, n);
        }
      }
      avg
  }

  /** The venue id of every review, in stored order. */
  function VenueIdsOf(rs: seq<Review>): (ids: seq<int>)
    ensures |ids| == |rs| && forall i :: 0 <= i < |rs| ==> ids[i] == rs[i].venueId
  {
    seq(|rs|, i requires 0 <= i < |rs| => rs[i].venueId)
  }

  /** The number of reviews the comprehension selects for a venue is the
      number of times that venue's id occurs among the reviews. */
  lemma {:induction false} ReviewCountIsOccurrences(rs: seq<Review>, venueId: int)
    ensures |Filter(rs, OfVenue(venueId))| == multiset(VenueIdsOf(rs))[venueId]
  {
    if rs != [] {
      ReviewCountIsOccurrences(rs[1..], venueId);
      OccurrencesOfHead(rs, venueId);
    }
  }

  /** The occurrences of an id are those in the head plus those in the tail. */
  lemma OccurrencesOfHead(rs: seq<Review>, venueId: int)
    requires rs != []
    ensures multiset(VenueIdsOf(rs))[venueId]
         == (if rs[0].venueId == venueId then 1 else 0) + multiset(VenueIdsOf(rs[1..]))[venueId]
  {
    assert VenueIdsOf(rs) == [rs[0].venueId] + VenueIdsOf(rs[1..]);
  }

  /** A venue as the API returns it, with `avg_rating` and `review_count`. */
  datatype VenueStats = VenueStats(venue: Venue, avgRating: real, reviewCount: nat)

  /** The statistics of one venue: the count of reviews naming its id, and
      their average rating (0 when there are none). */
  function StatsFor(venue: Venue, reviews: seq<Review>): (s: VenueStats)
    ensures s.venue == venue
    ensures s.reviewCount == multiset(VenueIdsOf(reviews))[venue.id]
    ensures s.reviewCount == 0 ==> s.avgRating == 0.0
    ensures s.reviewCount > 0 ==>
              s.avgRating == (RatingSum(Filter(reviews, OfVenue(venue.id))) as real) / (s.reviewCount as real)
    ensures (s.reviewCount > 0 && forall i :: 0 <= i < |reviews| ==> ValidRating(reviews[i].rating))
            ==> 1.0 <= s.avgRating <= 5.0
  {
    var matching := Filter(reviews, OfVenue(venue.id));
    ReviewCountIsOccurrences(reviews, venue.id);
    assert (forall i :: 0 <= i < |reviews| ==> ValidRating(reviews[i].rating))
           ==> forall i :: 0 <= i < |matching| ==> ValidRating(matching[i].rating) by {
      forall i | 0 <= i < |matching| && forall i :: 0 <= i < |reviews| ==> ValidRating(reviews[i].rating)
        ensures ValidRating(matching[i].rating)
      {
        assert matching[i] in reviews;
      }
    }
    var avg := AverageRating(matching);
    VenueStats(venue, avg, |matching|)
  }

  /** `api_venues_list`: one entry per stored venue, in stored order. */
  method VenuesList(doc: Document) returns (venues: seq<VenueStats>)
    ensures |venues| == |doc.venues|
    ensures forall i :: 0 <= i < |venues| ==> venues[i] == StatsFor(doc.venues[i], doc.reviews)
  {
    var statsOf := (v: Venue) => StatsFor(v, doc.reviews);
    venues := [];
    for i := 0 to |doc.venues|
      invariant venues == Map(doc.venues[..i], statsOf)
    {
      assert doc.venues[..i + 1][..i] == doc.venues[..i];
      venues := venues + [statsOf(doc.venues[i])];
    }
    assert doc.venues[..|doc.venues|] == doc.venues;
  }

  /** `api_venue_detail`: 404 exactly when no venue has the id, otherwise the
      statistics of the first venue with it. */
  method VenueDetail(doc: Document, venueId: int) returns (status: int, stats: Option<VenueStats>)
    ensures status == 200 || status == 404
    ensures status == 404 <==> forall i :: 0 <= i < |doc.venues| ==> doc.venues[i].id != venueId
    ensures status == 404 ==> stats == None
    ensures status == 200 ==> stats.Some? && stats.value.venue.id == venueId
    ensures status == 200 ==> stats == Some(StatsFor(FindFirst(doc.venues, VenueKey, venueId).value, doc.reviews))
  {
    var venue := FindById(doc.venues, VenueKey, venueId);
    if venue.None? {
      return 404, None;
    }
    return 200, Some(StatsFor(venue.value, doc.reviews));
  }

  lemma RatingSumOfTwo(a: Review, b: Review)
    ensures RatingSum([a, b]) == a.rating + b.rating
  {
    assert [a, b][1..] == [b];
    assert [b][1..] == [];
  }

  /** The seed's reviews of the first venue are its first two reviews. */
  lemma SeedVenueOneReviews()
    ensures Filter(InitialData().reviews, OfVenue(1)) == InitialData().reviews[..2]
  {
    var rs := InitialData().reviews;
    FilterDropsOne(rs, OfVenue(1), 2);
    assert rs[3..] == [];
  }

  /** The seed catalogue's first venue has the two reviews rated 5 and 4. */
  lemma SeedVenueOneStats()
    ensures StatsFor(InitialData().venues[0], InitialData().reviews)
         == VenueStats(InitialData().venues[0], 4.5, 2)
  {
    var d := InitialData();
    var rs := d.reviews;
    SeedVenueOneReviews();
    assert rs[..2] == [rs[0], rs[1]];
    RatingSumOfTwo(rs[0], rs[1]);
  }

  // ---------------------------------------------------------------------------
  // Enrichment

  const UnknownUser := "Unknown User"
  const UnknownVenue := "Unknown Venue"

  /** The name of the first user with id `userId`, or `placeholder` when there is none. */
  function UsernameOf(users: seq<User>, userId: int, placeholder: string): (name: string)
    ensures (forall i :: 0 <= i < |users| ==> users[i].id != userId) ==> name == placeholder
    ensures forall i :: (0 <= i < |users| && users[i].id == userId
                         && forall j :: 0 <= j < i ==> users[j].id != userId) ==> name == users[i].username
  {
    match FindFirst(users, UserKey, userId)
    case Some(u) => u.username
    case None => placeholder
  }

  /** The name of the first venue with id `venueId`, or `placeholder` when there is none. */
  function VenueNameOf(venues: seq<Venue>, venueId: int, placeholder: string): (name: string)
    ensures (forall i :: 0 <= i < |venues| ==> venues[i].id != venueId) ==> name == placeholder
    ensures forall i :: (0 <= i < |venues| && venues[i].id == venueId
                         && forall j :: 0 <= j < i ==> venues[j].id != venueId) ==> name == venues[i].name
  {
    match FindFirst(venues, VenueKey, venueId)
    case Some(v) => v.name
    case None => placeholder
  }

  /** A stored review with the display fields `username` and `venue_name`. */
  datatype EnrichedReview = EnrichedReview(review: Review, username: string, venueName: string)

  /** A stored review with `venue_name` only, as on a user's profile. */
  datatype ProfileReview = ProfileReview(review: Review, venueName: string)

  /** One review with the name of its author and of its venue, or the
      placeholders "Unknown User" and "Unknown Venue" when the lookup fails. */
  function Enrich(r: Review, users: seq<User>, venues: seq<Venue>): (e: EnrichedReview)
    ensures e.review == r
    ensures e.username == UsernameOf(users, r.userId, UnknownUser)
    ensures e.venueName == VenueNameOf(venues, r.venueId, UnknownVenue)
  {
    EnrichedReview(r, UsernameOf(users, r.userId, UnknownUser), VenueNameOf(venues, r.venueId, UnknownVenue))
  }

  /** Every review of `rs` enriched, in the same order, its stored fields
      unchanged and its author's and venue's names attached. */
  function EnrichAll(rs: seq<Review>, users: seq<User>, venues: seq<Venue>): (es: seq<EnrichedReview>)
    ensures |es| == |rs|
    ensures forall i :: 0 <= i < |rs| ==> es[i].review == rs[i]
    ensures forall i :: 0 <= i < |rs| ==> es[i].username == UsernameOf(users, rs[i].userId, UnknownUser)
    ensures forall i :: 0 <= i < |rs| ==> es[i].venueName == VenueNameOf(venues, rs[i].venueId, UnknownVenue)
  {
    seq(|rs|, i requires 0 <= i < |rs| => Enrich(rs[i], users, venues))
  }

  /** Every review of `rs` with its venue name attached, in the same order. */
  function ProfileAll(rs: seq<Review>, venues: seq<Venue>): (ps: seq<ProfileReview>)
    ensures |ps| == |rs|
    ensures forall i :: 0 <= i < |rs| ==> ps[i].review == rs[i]
    ensures forall i :: 0 <= i < |rs| ==> ps[i].venueName == VenueNameOf(venues, rs[i].venueId, UnknownVenue)
  {
    seq(|rs|, i requires 0 <= i < |rs| => ProfileReview(rs[i], VenueNameOf(venues, rs[i].venueId, UnknownVenue)))
  }

  /** When no stored user is literally called "Unknown User", an enriched
      review shows that label exactly when its author is missing. */
  lemma UnknownUserExactlyWhenMissing(r: Review, users: seq<User>, venues: seq<Venue>)
    requires forall i :: 0 <= i < |users| ==> users[i].username != UnknownUser
    ensures Enrich(r, users, venues).review == r
    ensures Enrich(r, users, venues).username == UnknownUser
        <==> forall i :: 0 <= i < |users| ==> users[i].id != r.userId
  {
    var found := FindFirst(users, UserKey, r.userId);
    if found.Some? {
      assert found.value in users;
    }
  }

  /** When no stored venue is literally called "Unknown Venue", an enriched
      review shows that label exactly when its venue is missing. */
  lemma UnknownVenueExactlyWhenMissing(r: Review, users: seq<User>, venues: seq<Venue>)
    requires forall i :: 0 <= i < |venues| ==> venues[i].name != UnknownVenue
    ensures Enrich(r, users, venues).venueName == UnknownVenue
        <==> forall i :: 0 <= i < |venues| ==> venues[i].id != r.venueId
  {
    var found := FindFirst(venues, VenueKey, r.venueId);
    if found.Some? {
      assert found.value in venues;
    }
  }

  /** Without that assumption the label is ambiguous: a registered user may be
      called "Unknown User", and then the label appears although the lookup succeeds. */
  lemma UnknownUserLabelAmbiguous()
    ensures var users := [User(1, UnknownUser, "")];
            var r := Review(1, 1, 1, 5, "", "");
            FindFirst(users, UserKey, 1).Some? && Enrich(r, users, []).username == UnknownUser
  {
    var users := [User(1, UnknownUser, "")];
    assert users[0].id == 1;
  }

  /** The loop of `api_reviews_list` and `api_feed` that builds `enriched_reviews`. */
  method EnrichReviews(reviews: seq<Review>, users: seq<User>, venues: seq<Venue>)
    returns (enriched: seq<EnrichedReview>)
    ensures enriched == EnrichAll(reviews, users, venues)
  {
    var enrich := (r: Review) => Enrich(r, users, venues);
    enriched := [];
    for i := 0 to |reviews|
      invariant enriched == Map(reviews[..i], enrich)
    {
      assert reviews[..i + 1][..i] == reviews[..i];
      var review := reviews[i];
      var user := FindById(users, UserKey, review.userId);
      var venue := FindById(venues, VenueKey, review.venueId);
      var username := if user.Some? then user.value.username else UnknownUser;
      var venueName := if venue.Some? then venue.value.name else UnknownVenue;
      assert username == UsernameOf(users, review.userId, UnknownUser);
      assert venueName == VenueNameOf(venues, review.venueId, UnknownVenue);
      enriched := enriched + [EnrichedReview(review, username, venueName)];
    }
    assert reviews[..|reviews|] == reviews;
  }

  /** The loop of `api_user_profile` that attaches venue names. */
  method EnrichForProfile(reviews: seq<Review>, venues: seq<Venue>) returns (enriched: seq<ProfileReview>)
    ensures enriched == ProfileAll(reviews, venues)
  {
    var profile := (r: Review) => ProfileReview(r, VenueNameOf(venues, r.venueId, UnknownVenue));
    enriched := [];
    for i := 0 to |reviews|
      invariant enriched == Map(reviews[..i], profile)
    {
      assert reviews[..i + 1][..i] == reviews[..i];
      var review := reviews[i];
      var venue := FindById(venues, VenueKey, review.venueId);
      var venueName := if venue.Some? then venue.value.name else UnknownVenue;
      enriched := enriched + [ProfileReview(review, venueName)];
    }
    assert reviews[..|reviews|] == reviews;
  }

  // ---------------------------------------------------------------------------
  // Ordered lists

  /** The sort keys: `x['timestamp']`. */
  function EnrichedTimestamp(e: EnrichedReview): string { e.review.timestamp }
  function ProfileTimestamp(p: ProfileReview): string { p.review.timestamp }

  /** `enriched_reviews.sort(key=lambda x: x['timestamp'], reverse=True)` on a
      list built from `items`. */
  method SortNewestFirst<T>(items: seq<T>, key: T -> string) returns (sorted: seq<T>)
    ensures sorted == StableSortDesc(items, key)
    ensures IsStableSortDesc(sorted, items, key)
  {
    var a := new T[|items|](i requires 0 <= i < |items| => items[i]);
    assert a[..] == items;
    SortDescInPlace(a, key);
    sorted := a[..];
    StableSortDescCorrect(items, key);
  }

  /** The `venue_id` query parameter of `api_reviews_list`: absent or empty,
      an integer, or text `int()` rejects. */
  datatype VenueQuery = AllVenues | OneVenue(venueId: int) | BadVenueId

  /** The reviews a query selects: with a venue id, exactly the reviews of that
      venue; otherwise all of them. */
  function Selected(reviews: seq<Review>, query: VenueQuery): (r: seq<Review>)
    ensures !query.OneVenue? ==> r == reviews
    ensures query.OneVenue? ==> forall i :: 0 <= i < |r| ==> r[i] in reviews && r[i].venueId == query.venueId
    ensures query.OneVenue? ==> forall i :: 0 <= i < |reviews| && reviews[i].venueId == query.venueId ==> reviews[i] in r
  {
    match query
    case OneVenue(v) => Filter(reviews, OfVenue(v))
    case _ => reviews
  }

  /** `api_reviews_list`: 400 exactly for an unparsable venue id; otherwise the
      selected reviews, enriched, newest first. */
  method ReviewsList(doc: Document, query: VenueQuery) returns (status: int, reviews: seq<EnrichedReview>)
    ensures status == 200 || status == 400
    ensures status == 400 <==> query.BadVenueId?
    ensures status == 400 ==> reviews == []
    ensures status == 200 ==> reviews == StableSortDesc(EnrichAll(Selected(doc.reviews, query), doc.users, doc.venues), EnrichedTimestamp)
    ensures status == 200 ==> IsStableSortDesc(reviews, EnrichAll(Selected(doc.reviews, query), doc.users, doc.venues), EnrichedTimestamp)
    ensures query.OneVenue? ==> forall i :: 0 <= i < |reviews| ==> reviews[i].review.venueId == query.venueId
  {
    if query.BadVenueId? {
      return 400, [];
    }
    var selected := doc.reviews;
    if query.OneVenue? {
      selected := Filter(doc.reviews, OfVenue(query.venueId));
    }
    var enriched := EnrichReviews(selected, doc.users, doc.venues);
    reviews := SortNewestFirst(enriched, EnrichedTimestamp);
    status := 200;
    if query.OneVenue? {
      forall j | 0 <= j < |enriched|
        ensures enriched[j].review.venueId == query.venueId
      {
        assert enriched[j].review == selected[j];
      }
      PermutationKeepsVenue(enriched, reviews, query.venueId);
    }
  }

  /** Reordering entries that all name one venue leaves them all naming it. */
  lemma PermutationKeepsVenue(es: seq<EnrichedReview>, ps: seq<EnrichedReview>, venueId: int)
    requires multiset(ps) == multiset(es)
    requires forall j :: 0 <= j < |es| ==> es[j].review.venueId == venueId
    ensures forall i :: 0 <= i < |ps| ==> ps[i].review.venueId == venueId
  {
    forall i | 0 <= i < |ps|
      ensures ps[i].review.venueId == venueId
    {
      assert ps[i] in multiset(es);
    }
  }

  /** `api_feed`: every stored review, enriched, newest first. */
  method Feed(doc: Document) returns (reviews: seq<EnrichedReview>)
    ensures reviews == StableSortDesc(EnrichAll(doc.reviews, doc.users, doc.venues), EnrichedTimestamp)
    ensures IsStableSortDesc(reviews, EnrichAll(doc.reviews, doc.users, doc.venues), EnrichedTimestamp)
  {
    var enriched := EnrichReviews(doc.reviews, doc.users, doc.venues);
    reviews := SortNewestFirst(enriched, EnrichedTimestamp);
  }

  /** `api_user_profile`: 404 exactly when no user has the id; otherwise that
      user and the reviews written under the id, with venue names, newest first. */
  method UserProfile(doc: Document, userId: int) returns (status: int, user: Option<User>, reviews: seq<ProfileReview>)
    ensures status == 200 || status == 404
    ensures status == 404 <==> forall i :: 0 <= i < |doc.users| ==> doc.users[i].id != userId
    ensures status == 404 ==> user == None && reviews == []
    ensures status == 200 ==> user == FindFirst(doc.users, UserKey, userId)
    ensures status == 200 ==> reviews == StableSortDesc(ProfileAll(Filter(doc.reviews, OfUser(userId)), doc.venues), ProfileTimestamp)
    ensures status == 200 ==> IsStableSortDesc(reviews, ProfileAll(Filter(doc.reviews, OfUser(userId)), doc.venues), ProfileTimestamp)
  {
    user := FindById(doc.users, UserKey, userId);
    if user.None? {
      return 404, None, [];
    }
    var own := Filter(doc.reviews, OfUser(userId));
    var enriched := EnrichForProfile(own, doc.venues);
    reviews := SortNewestFirst(enriched, ProfileTimestamp);
    status := 200;
  }
}
