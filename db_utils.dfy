/** Entity access over the collections of the document: id allocation, lookup by
    id, lookup of a user by name ignoring case, and the seed document written
    when the store is first used. */
module DbUtils {
  import opened Collections
  import opened Text
  import opened Records

  /** The largest id in a non-empty collection. */
  function MaxId<T>(c: seq<T>, key: T -> int): (m: int)
    requires c != []
    ensures forall i :: 0 <= i < |c| ==> key(c[i]) <= m
    ensures exists i :: 0 <= i < |c| && key(c[i]) == m
  {
    if |c| == 1 then key(c[0])
    else
      var rest := MaxId(c[1..], key);
      assert forall i :: 1 <= i < |c| ==> c[i] == c[1..][i - 1];
      if key(c[0]) >= rest then key(c[0]) else rest
  }

  /** `get_next_id`: 1 for an empty collection, otherwise one more than the
      largest id, so the new id is greater than, hence different from, every
      id in use. */
  function NextId<T>(c: seq<T>, key: T -> int): (r: int)
    ensures c == [] ==> r == 1
    ensures forall i :: 0 <= i < |c| ==> key(c[i]) < r
    ensures c != [] ==> exists i :: 0 <= i < |c| && key(c[i]) == r - 1
    ensures PositiveIds(c, key) ==> r >= 1
  {
    if c == [] then 1 else MaxId(c, key) + 1
  }

  /** Position of the first element whose id is `id`, or `|c|` when there is none. */
  function IndexOfId<T>(c: seq<T>, key: T -> int, id: int): (k: nat)
    ensures k <= |c|
    ensures forall j :: 0 <= j < k ==> key(c[j]) != id
    ensures k < |c| ==> key(c[k]) == id
  {
    if c == [] then 0
    else if key(c[0]) == id then 0
    else
      var k := IndexOfId(c[1..], key, id);
      assert forall j :: 1 <= j < k + 1 ==> c[j] == c[1..][j - 1];
      k + 1
  }

  /** What `find_by_id` returns: the first element with that id, or nothing
      exactly when no element has it. */
  function FindFirst<T>(c: seq<T>, key: T -> int, id: int): (r: Option<T>)
    ensures r.None? <==> forall i :: 0 <= i < |c| ==> key(c[i]) != id
    ensures r.Some? ==> exists k :: 0 <= k < |c| && r.value == c[k] && key(c[k]) == id
                                    && forall j :: 0 <= j < k ==> key(c[j]) != id
  {
    var k := IndexOfId(c, key, id);
    if k < |c| then Some(c[k]) else None
  }

  /** Appending to a collection that lacks the id: a lookup of that id finds
      the appended element if it has the id, and nothing otherwise. */
  lemma {:induction false} FindFirstAfterAppend<T>(c: seq<T>, x: T, key: T -> int, id: int)
    requires forall i :: 0 <= i < |c| ==> key(c[i]) != id
    ensures FindFirst(c + [x], key, id) == if key(x) == id then Some(x) else None
  {
    if c != [] {
      assert (c + [x])[1..] == c[1..] + [x];
      FindFirstAfterAppend(c[1..], x, key, id);
    }
  }

  /** `find_by_id`: a linear scan that returns at the first match. */
  method FindById<T>(collection: seq<T>, key: T -> int, itemId: int) returns (item: Option<T>)
    ensures item == FindFirst(collection, key, itemId)
  {
    var i := 0;
    while i < |collection|
      invariant 0 <= i <= |collection|
      invariant forall j :: 0 <= j < i ==> key(collection[j]) != itemId
    {
      if key(collection[i]) == itemId {
        return Some(collection[i]);
      }
      i := i + 1;
    }
    return None;
  }

  /** Position of the first user whose name equals `username` once both are
      lower-cased, or `|users|` when there is none. */
  function IndexOfUsername(users: seq<User>, username: string): (k: nat)
    ensures k <= |users|
    ensures forall j :: 0 <= j < k ==> Lower(users[j].username) != Lower(username)
    ensures k < |users| ==> Lower(users[k].username) == Lower(username)
  {
    if users == [] then 0
    else if Lower(users[0].username) == Lower(username) then 0
    else
      var k := IndexOfUsername(users[1..], username);
      assert forall j :: 1 <= j < k + 1 ==> users[j] == users[1..][j - 1];
      k + 1
  }

  /** What `find_user_by_username` returns: the first user whose name matches
      ignoring case, or nothing exactly when no stored name matches. */
  function UserNamed(users: seq<User>, username: string): (r: Option<User>)
    ensures r.None? <==> forall i :: 0 <= i < |users| ==> Lower(users[i].username) != Lower(username)
    ensures r.Some? ==> exists k :: 0 <= k < |users| && r.value == users[k]
                                    && Lower(users[k].username) == Lower(username)
                                    && forall j :: 0 <= j < k ==> Lower(users[j].username) != Lower(username)
  {
    var k := IndexOfUsername(users, username);
    if k < |users| then Some(users[k]) else None
  }

  /** The search depends on the name only through its lower-cased form, so
      "Alice", "alice" and "ALICE" find the same user. */
  lemma {:induction false} UserNamedIgnoresCase(users: seq<User>, a: string, b: string)
    requires Lower(a) == Lower(b)
    ensures IndexOfUsername(users, a) == IndexOfUsername(users, b)
    ensures UserNamed(users, a) == UserNamed(users, b)
  {
    if users != [] && Lower(users[0].username) != Lower(a) {
      UserNamedIgnoresCase(users[1..], a, b);
    }
  }

  /** Appending a user to a list in which no name matches `username`: the
      search finds the appended user if its name matches, and nothing otherwise. */
  lemma {:induction false} UserNamedAfterAppend(users: seq<User>, u: User, username: string)
    requires forall i :: 0 <= i < |users| ==> Lower(users[i].username) != Lower(username)
    ensures UserNamed(users + [u], username) == if Lower(u.username) == Lower(username) then Some(u) else None
  {
    if users != [] {
      assert (users + [u])[1..] == users[1..] + [u];
      UserNamedAfterAppend(users[1..], u, username);
    }
  }

  /** `find_user_by_username`, searching the given user list in order. */
  method FindUserByUsername(users: seq<User>, username: string) returns (user: Option<User>)
    ensures user == UserNamed(users, username)
  {
    var wanted := Lower(username);
    var i := 0;
    while i < |users|
      invariant 0 <= i <= |users|
      invariant forall j :: 0 <= j < i ==> Lower(users[j].username) != wanted
    {
      if Lower(users[i].username) == wanted {
        return Some(users[i]);
      }
      i := i + 1;
    }
    return None;
  }

  /** The long texts of the seed catalogue. */
  const ArenaDescription := "A state-of-the-art sports arena featuring basketball courts, volleyball nets, and indoor soccer fields. Perfect for team sports and recreational activities."
  const TennisDescription := "Premium tennis facility with 8 outdoor courts and 4 indoor courts. Offers lessons for all skill levels and hosts regular tournaments."
  const GolfDescription := "An 18-hole championship golf course with stunning mountain views. Features a pro shop, driving range, and clubhouse restaurant."
  const AquaticDescription := "Olympic-sized swimming pool with diving boards, water polo facilities, and a separate kids pool. Open year-round with heated pools."
  const StadiumDescription := "Multi-purpose stadium with track and field facilities, gym equipment, and outdoor workout areas. Hosts marathons and community sports events."
  const ReviewOneText := "Amazing facility! The basketball courts are top-notch and well-maintained."
  const ReviewTwoText := "Great place for team sports. Sometimes gets crowded on weekends."
  const ReviewThreeText := "Best tennis courts in the city! The instructors are fantastic."

  /** `get_initial_data`: no users, the catalogue of five venues with ids 1 to
      5, and three demonstration reviews with ids 1 to 3. */
  function InitialData(): (d: Document)
    ensures d.users == []
    ensures |d.venues| == 5 && forall i :: 0 <= i < 5 ==> d.venues[i].id == i + 1
    ensures |d.reviews| == 3 && forall i :: 0 <= i < 3 ==> d.reviews[i].id == i + 1
    ensures forall i :: 0 <= i < 3 ==> ValidRating(d.reviews[i].rating)
    ensures Valid(d)
  {
    Document(
      [],
      [ Venue(1, "Downtown Sports Arena", "123 Main Street, Downtown",
              ArenaDescription),
        Venue(2, "Riverside Tennis Club", "456 River Road, Westside",
              TennisDescription),
        Venue(3, "Mountain View Golf Course", "789 Highland Drive, North Hills",
              GolfDescription),
        Venue(4, "Aquatic Sports Center", "321 Ocean Boulevard, Beachfront",
              AquaticDescription),
        Venue(5, "City Fitness Stadium", "555 Athletic Way, Midtown",
              StadiumDescription)
      ],
      [ Review(1, 1, 1, 5, ReviewOneText, "2025-01-15T10:30:00Z"),
        Review(2, 2, 1, 4, ReviewTwoText, "2025-01-16T14:20:00Z"),
        Review(3, 1, 2, 5, ReviewThreeText, "2025-01-17T09:15:00Z")
      ])
  }

  /** The seed reviews name user ids 1 and 2 although the seed has no users, so
      the first account ever registered receives id 1 and owns reviews 1 and 3. */
  lemma SeedReviewsOwnedByFirstAccount()
    ensures NextId(InitialData().users, UserKey) == 1
    ensures forall i :: 0 <= i < 3 ==> (InitialData().reviews[i].userId == 1 <==> i != 1)
  {
  }
}
