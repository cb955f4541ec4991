/** The three kinds of record held in the store's single document, and the
    document itself. */
module Records {
  import opened Collections
  import opened Text

  datatype User = User(id: int, username: string, passwordHash: string)

  datatype Venue = Venue(id: int, name: string, location: string, description: string)

  /** `timestamp` is an ISO-8601 UTC text ending in 'Z'; feeds order reviews by it as text. */
  datatype Review = Review(id: int, userId: int, venueId: int, rating: int, text: string, timestamp: string)

  /** The whole persisted state: the top-level keys `users`, `venues` and `reviews`. */
  datatype Document = Document(users: seq<User>, venues: seq<Venue>, reviews: seq<Review>)

  /** The `'id'` key of each kind of record, as a value the generic lookups take. */
  function UserKey(u: User): int { u.id }
  function VenueKey(v: Venue): int { v.id }
  function ReviewKey(r: Review): int { r.id }

  /** The star ratings the handlers accept: 1 to 5 inclusive. */
  predicate ValidRating(rating: int) {
    1 <= rating <= 5
  }

  /** The invariants the data layer keeps: ids positive and unique per collection,
      usernames unique ignoring case, every stored rating between 1 and 5.
      References from reviews to users and venues may dangle. */
  predicate Valid(doc: Document) {
    && UniqueIds(doc.users, UserKey) && PositiveIds(doc.users, UserKey)
    && UniqueIds(doc.venues, VenueKey) && PositiveIds(doc.venues, VenueKey)
    && UniqueIds(doc.reviews, ReviewKey) && PositiveIds(doc.reviews, ReviewKey)
    && (forall i, j :: 0 <= i < j < |doc.users| ==> Lower(doc.users[i].username) != Lower(doc.users[j].username))
    && (forall i :: 0 <= i < |doc.reviews| ==> ValidRating(doc.reviews[i].rating))
  }
}
