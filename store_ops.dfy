/** What each operation of the in-memory store does to its four tables, as
    functions on a value that bundles the tables. The `DataService` class in
    `DataServices` performs these edits in place; its methods are proved equal
    to these functions, and `StoreProps` proves what the edits preserve. */
module StoreOps {
  import opened Seqs
  import opened Models

  /** The four arrays the store holds. */
  datatype Store = Store(users: seq<User>, circles: seq<Circle>, posts: seq<Post>, comments: seq<Comment>)

  // ------------------------------------------------------------- lookups

  /** `users.firstIndex(where: { $0.id == id })`. */
  function UserIndex(users: seq<User>, id: string): (r: Option<nat>)
    ensures r.Some? ==> r.value < |users| && users[r.value].id == id
                        && forall j :: 0 <= j < r.value ==> users[j].id != id
    ensures r.None? ==> forall j :: 0 <= j < |users| ==> users[j].id != id
  {
    FirstIndex(users, (u: User) => u.id == id)
  }

  /** `circles.firstIndex(where: { $0.id == id })`. */
  function CircleIndex(circles: seq<Circle>, id: string): (r: Option<nat>)
    ensures r.Some? ==> r.value < |circles| && circles[r.value].id == id
                        && forall j :: 0 <= j < r.value ==> circles[j].id != id
    ensures r.None? ==> forall j :: 0 <= j < |circles| ==> circles[j].id != id
  {
    FirstIndex(circles, (c: Circle) => c.id == id)
  }

  /** `posts.firstIndex(where: { $0.id == id })`. */
  function PostIndex(posts: seq<Post>, id: string): (r: Option<nat>)
    ensures r.Some? ==> r.value < |posts| && posts[r.value].id == id
                        && forall j :: 0 <= j < r.value ==> posts[j].id != id
    ensures r.None? ==> forall j :: 0 <= j < |posts| ==> posts[j].id != id
  {
    FirstIndex(posts, (p: Post) => p.id == id)
  }

  /** `getUser(byID:)`: the first user with that id. */
  function GetUser(users: seq<User>, id: string): (r: Option<User>)
    ensures r.Some? ==> r.value in users && r.value.id == id
    ensures r.None? <==> forall u :: u in users ==> u.id != id
  {
    match UserIndex(users, id)
    case None => None
    case Some(i) => Some(users[i])
  }

  // ------------------------------------------------------------ users

  /** `createUser` and `continueAsGuest`: the user is appended. */
  function AddUser(s: Store, u: User): (r: Store)
    ensures |r.users| == |s.users| + 1 && r.users[|s.users|] == u
    ensures forall i :: 0 <= i < |s.users| ==> r.users[i] == s.users[i]
    ensures r.circles == s.circles && r.posts == s.posts && r.comments == s.comments
  {
    s.(users := s.users + [u])
  }

  /** `updateUser`: the first user with the same id is replaced; no such user, no change. */
  function UpdateUser(s: Store, u: User): (r: Store)
    ensures UserIndex(s.users, u.id).None? ==> r == s
    ensures UserIndex(s.users, u.id).Some? ==>
              var i := UserIndex(s.users, u.id).value;
              |r.users| == |s.users| && r.users[i] == u
              && (forall j :: 0 <= j < |s.users| && j != i ==> r.users[j] == s.users[j])
              && GetUser(r.users, u.id) == Some(u)
    ensures r.circles == s.circles && r.posts == s.posts && r.comments == s.comments
  {
    match UserIndex(s.users, u.id)
    case None => s
    case Some(i) =>
      var users := s.users[i := u];
      FirstIndexCongruent(users, (x: User) => x.id == u.id, s.users, (x: User) => x.id == u.id);
      s.(users := users)
  }

  // ---------------------------------------------------------- circles

  /** `createCircle`: the new circle is appended; no user is touched. */
  function AddCircle(s: Store, c: Circle): (r: Store)
    ensures |r.circles| == |s.circles| + 1 && r.circles[|s.circles|] == c
    ensures forall i :: 0 <= i < |s.circles| ==> r.circles[i] == s.circles[i]
    ensures r.users == s.users && r.posts == s.posts && r.comments == s.comments
  {
    s.(circles := s.circles + [c])
  }

  /** `joinCircle`: with an unknown circle nothing changes; otherwise the user id is
      added to the circle's members and, when the user exists, the circle id to the
      user's joined circles, each only if absent. */
  function JoinCircle(s: Store, circleID: string, userID: string): (r: Store)
    ensures CircleIndex(s.circles, circleID).None? ==> r == s
    ensures CircleIndex(s.circles, circleID).Some? ==>
              var ci := CircleIndex(s.circles, circleID).value;
              |r.circles| == |s.circles|
              && r.circles[ci] == s.circles[ci].(memberIDs := AppendIfAbsent(s.circles[ci].memberIDs, userID))
              && (forall j :: 0 <= j < |s.circles| && j != ci ==> r.circles[j] == s.circles[j])
              && r.users == JoinUser(s.users, circleID, userID)
    ensures r.posts == s.posts && r.comments == s.comments
  {
    match CircleIndex(s.circles, circleID)
    case None => s
    case Some(ci) =>
      var c := s.circles[ci];
      s.(circles := s.circles[ci := c.(memberIDs := AppendIfAbsent(c.memberIDs, userID))],
         users := JoinUser(s.users, circleID, userID))
  }

  /** The user side of `joinCircle`. */
  function JoinUser(users: seq<User>, circleID: string, userID: string): (r: seq<User>)
    ensures UserIndex(users, userID).None? ==> r == users
    ensures UserIndex(users, userID).Some? ==>
              var ui := UserIndex(users, userID).value;
              |r| == |users|
              && r[ui] == users[ui].(joinedCircleIDs := AppendIfAbsent(users[ui].joinedCircleIDs, circleID))
              && (forall j :: 0 <= j < |users| && j != ui ==> r[j] == users[j])
  {
    match UserIndex(users, userID)
    case None => users
    case Some(ui) =>
      var u := users[ui];
      users[ui := u.(joinedCircleIDs := AppendIfAbsent(u.joinedCircleIDs, circleID))]
  }

  /** `leaveCircle`: every occurrence of the user id leaves the circle's members and
      every occurrence of the circle id leaves the user's joined circles; the user
      is edited even when the circle does not exist. */
  function LeaveCircle(s: Store, circleID: string, userID: string): (r: Store)
    ensures CircleIndex(s.circles, circleID).None? ==> r.circles == s.circles
    ensures CircleIndex(s.circles, circleID).Some? ==>
              var ci := CircleIndex(s.circles, circleID).value;
              |r.circles| == |s.circles|
              && r.circles[ci] == s.circles[ci].(memberIDs := RemoveAll(s.circles[ci].memberIDs, userID))
              && (forall j :: 0 <= j < |s.circles| && j != ci ==> r.circles[j] == s.circles[j])
    ensures UserIndex(s.users, userID).None? ==> r.users == s.users
    ensures UserIndex(s.users, userID).Some? ==>
              var ui := UserIndex(s.users, userID).value;
              |r.users| == |s.users|
              && r.users[ui] == s.users[ui].(joinedCircleIDs := RemoveAll(s.users[ui].joinedCircleIDs, circleID))
              && (forall j :: 0 <= j < |s.users| && j != ui ==> r.users[j] == s.users[j])
    ensures r.posts == s.posts && r.comments == s.comments
  {
    var circles := match CircleIndex(s.circles, circleID)
      case None => s.circles
      case Some(ci) => s.circles[ci := s.circles[ci].(memberIDs := RemoveAll(s.circles[ci].memberIDs, userID))];
    var users := match UserIndex(s.users, userID)
      case None => s.users
      case Some(ui) => s.users[ui := s.users[ui].(joinedCircleIDs := RemoveAll(s.users[ui].joinedCircleIDs, circleID))];
    s.(circles := circles, users := users)
  }

  /** `getUserCircles`: no such user, no circles; otherwise the circles, in store
      order, whose id the user lists among its joined circles. */
  function UserCircles(s: Store, userID: string): (r: seq<Circle>)
    ensures GetUser(s.users, userID).None? ==> r == []
    ensures GetUser(s.users, userID).Some? ==>
              (forall c :: c in r <==> c in s.circles && c.id in GetUser(s.users, userID).value.joinedCircleIDs)
              && Subseq(r, s.circles)
              && forall c :: multiset(r)[c] ==
                   if c.id in GetUser(s.users, userID).value.joinedCircleIDs then multiset(s.circles)[c] else 0
  {
    match GetUser(s.users, userID)
    case None => []
    case Some(u) =>
      FilterIsSubseq(s.circles, (c: Circle) => c.id in u.joinedCircleIDs);
      FilterMultiset(s.circles, (c: Circle) => c.id in u.joinedCircleIDs);
      Filter(s.circles, (c: Circle) => c.id in u.joinedCircleIDs)
  }

  // ------------------------------------------------------------ posts

  /** `createPost`: the post is appended and, when its circle exists, its id is
      appended to that circle's posts. */
  function AddPost(s: Store, p: Post): (r: Store)
    ensures |r.posts| == |s.posts| + 1 && r.posts[|s.posts|] == p
    ensures forall i :: 0 <= i < |s.posts| ==> r.posts[i] == s.posts[i]
    ensures CircleIndex(s.circles, p.circleID).None? ==> r.circles == s.circles
    ensures CircleIndex(s.circles, p.circleID).Some? ==>
              var ci := CircleIndex(s.circles, p.circleID).value;
              |r.circles| == |s.circles|
              && r.circles[ci] == s.circles[ci].(postIDs := s.circles[ci].postIDs + [p.id])
              && (forall j :: 0 <= j < |s.circles| && j != ci ==> r.circles[j] == s.circles[j])
    ensures r.users == s.users && r.comments == s.comments
  {
    var circles := match CircleIndex(s.circles, p.circleID)
      case None => s.circles
      case Some(ci) => s.circles[ci := s.circles[ci].(postIDs := s.circles[ci].postIDs + [p.id])];
    s.(posts := s.posts + [p], circles := circles)
  }

  /** `addReaction`: on the first post with that id, the user's reactions are replaced
      by one of the given kind; an unknown post changes nothing. */
  function AddReaction(s: Store, postID: string, userID: string, kind: ReactionType, now: nat): (r: Store)
    ensures PostIndex(s.posts, postID).None? ==> r == s
    ensures PostIndex(s.posts, postID).Some? ==>
              var pi := PostIndex(s.posts, postID).value;
              |r.posts| == |s.posts|
              && r.posts[pi] == s.posts[pi].WithReaction(userID, kind, now)
              && (forall j :: 0 <= j < |s.posts| && j != pi ==> r.posts[j] == s.posts[j])
    ensures r.users == s.users && r.circles == s.circles && r.comments == s.comments
  {
    match PostIndex(s.posts, postID)
    case None => s
    case Some(pi) => s.(posts := s.posts[pi := s.posts[pi].WithReaction(userID, kind, now)])
  }

  /** `removeReaction`: on the first post with that id, every reaction of the user is
      dropped; an unknown post changes nothing. */
  function RemoveReaction(s: Store, postID: string, userID: string): (r: Store)
    ensures PostIndex(s.posts, postID).None? ==> r == s
    ensures PostIndex(s.posts, postID).Some? ==>
              var pi := PostIndex(s.posts, postID).value;
              |r.posts| == |s.posts|
              && r.posts[pi] == s.posts[pi].WithoutReactionsBy(userID)
              && (forall j :: 0 <= j < |s.posts| && j != pi ==> r.posts[j] == s.posts[j])
    ensures r.users == s.users && r.circles == s.circles && r.comments == s.comments
  {
    match PostIndex(s.posts, postID)
    case None => s
    case Some(pi) => s.(posts := s.posts[pi := s.posts[pi].WithoutReactionsBy(userID)])
  }

  /** Sort key for "createdAt descending". */
  function NewestKey(p: Post): int { -(p.createdAt as int) }

  /** Posts ordered by `createdAt`, newest first. */
  ghost predicate NewestFirst(ps: seq<Post>)
  {
    forall i, j :: 0 <= i < j < |ps| ==> ps[i].createdAt >= ps[j].createdAt
  }

  /** `posts.filter(keep).sorted(by: { $0.createdAt > $1.createdAt })`. */
  function NewestFirstFiltered(posts: seq<Post>, keep: Post -> bool): (r: seq<Post>)
    ensures NewestFirst(r)
    ensures forall p :: multiset(r)[p] == if keep(p) then multiset(posts)[p] else 0
    ensures forall p :: p in r <==> p in posts && keep(p)
  {
    var f := Filter(posts, keep);
    FilterMultiset(posts, keep);
    var r := SortBy(f, NewestKey);
    assert forall p :: p in r <==> p in multiset(f);
    r
  }

  /** `getCirclePosts`: exactly the posts of the circle (with their multiplicities), newest first. */
  function CirclePosts(posts: seq<Post>, circleID: string): (r: seq<Post>)
    ensures NewestFirst(r)
    ensures forall p :: multiset(r)[p] == if p.circleID == circleID then multiset(posts)[p] else 0
    ensures forall p :: p in r <==> p in posts && p.circleID == circleID
  {
    NewestFirstFiltered(posts, (p: Post) => p.circleID == circleID)
  }

  /** `getFeedPosts`: nothing for an unknown user; otherwise exactly the posts whose
      circle the user lists among its joined circles, newest first. */
  function FeedPosts(s: Store, userID: string): (r: seq<Post>)
    ensures GetUser(s.users, userID).None? ==> r == []
    ensures NewestFirst(r)
    ensures GetUser(s.users, userID).Some? ==>
              var joined := GetUser(s.users, userID).value.joinedCircleIDs;
              forall p :: multiset(r)[p] == if p.circleID in joined then multiset(s.posts)[p] else 0
  {
    match GetUser(s.users, userID)
    case None => []
    case Some(u) => NewestFirstFiltered(s.posts, (p: Post) => p.circleID in u.joinedCircleIDs)
  }

  // --------------------------------------------------------- comments

  /** `createComment`: the comment is appended and, when its post exists, its id is
      appended to that post's comments. */
  function AddComment(s: Store, c: Comment): (r: Store)
    ensures |r.comments| == |s.comments| + 1 && r.comments[|s.comments|] == c
    ensures forall i :: 0 <= i < |s.comments| ==> r.comments[i] == s.comments[i]
    ensures PostIndex(s.posts, c.postID).None? ==> r.posts == s.posts
    ensures PostIndex(s.posts, c.postID).Some? ==>
              var pi := PostIndex(s.posts, c.postID).value;
              |r.posts| == |s.posts|
              && r.posts[pi] == s.posts[pi].(commentIDs := s.posts[pi].commentIDs + [c.id])
              && (forall j :: 0 <= j < |s.posts| && j != pi ==> r.posts[j] == s.posts[j])
    ensures r.users == s.users && r.circles == s.circles
  {
    var posts := match PostIndex(s.posts, c.postID)
      case None => s.posts
      case Some(pi) => s.posts[pi := s.posts[pi].(commentIDs := s.posts[pi].commentIDs + [c.id])];
    s.(comments := s.comments + [c], posts := posts)
  }

  /** Sort key for "createdAt ascending". */
  function CommentKey(c: Comment): int { c.createdAt }

  /** Comments ordered by `createdAt`, oldest first. */
  ghost predicate OldestFirst(cs: seq<Comment>)
  {
    forall i, j :: 0 <= i < j < |cs| ==> cs[i].createdAt <= cs[j].createdAt
  }

  /** `getPostComments`: exactly the comments of the post, oldest first. */
  function PostComments(comments: seq<Comment>, postID: string): (r: seq<Comment>)
    ensures OldestFirst(r)
    ensures forall c :: multiset(r)[c] == if c.postID == postID then multiset(comments)[c] else 0
    ensures forall c :: c in r <==> c in comments && c.postID == postID
  {
    var keep := (c: Comment) => c.postID == postID;
    var f := Filter(comments, keep);
    FilterMultiset(comments, keep);
    var r := SortBy(f, CommentKey);
    assert forall c :: c in r <==> c in multiset(f);
    r
  }

  // ---------------------------------------------------- default data

  /** `createDefaultCircles`: five seeded circles, created by "system", with no
      members and no posts; `freshID(k)` stands for the k-th `UUID()`. */
  function DefaultCircles(freshID: nat -> string, now: nat): (r: seq<Circle>)
    ensures |r| == 5
    ensures forall i :: 0 <= i < 5 ==>
              r[i].memberIDs == [] && r[i].postIDs == [] && r[i].creatorID == "system"
              && r[i].id == freshID(i) && r[i].createdAt == now
    ensures r[0].name == "Tech Enthusiasts" && r[1].name == "Book Lovers"
            && r[2].name == "Fitness & Wellness" && r[3].name == "Creative Arts"
            && r[4].name == "Travel & Adventure"
    ensures r[0].category == "Technology" && r[1].category == "Literature"
            && r[2].category == "Health" && r[3].category == "Arts"
            && r[4].category == "Travel"
    ensures r[0].description == "Discuss the latest in technology, programming, and innovation"
            && r[1].description == "Share your favorite reads and literary discoveries"
            && r[2].description == "Connect with others on their health and fitness journey"
            && r[3].description == "Share and appreciate art, music, and creative expression"
            && r[4].description == "Explore the world together and share travel experiences"
    ensures r[0].tags == ["tech", "programming", "innovation"]
            && r[1].tags == ["books", "reading", "literature"]
            && r[2].tags == ["fitness", "health", "wellness"]
            && r[3].tags == ["art", "music", "creativity"]
            && r[4].tags == ["travel", "adventure", "explore"]
  {
    [ Circle(freshID(0), "Tech Enthusiasts",
             "Discuss the latest in technology, programming, and innovation",
             "Technology", "system", [], [], now, ["tech", "programming", "innovation"]),
      Circle(freshID(1), "Book Lovers",
             "Share your favorite reads and literary discoveries",
             "Literature", "system", [], [], now, ["books", "reading", "literature"]),
      Circle(freshID(2), "Fitness & Wellness",
             "Connect with others on their health and fitness journey",
             "Health", "system", [], [], now, ["fitness", "health", "wellness"]),
      Circle(freshID(3), "Creative Arts",
             "Share and appreciate art, music, and creative expression",
             "Arts", "system", [], [], now, ["art", "music", "creativity"]),
      Circle(freshID(4), "Travel & Adventure",
             "Explore the world together and share travel experiences",
             "Travel", "system", [], [], now, ["travel", "adventure", "explore"]) ]
  }

  /** `clearAllData`: no users, posts or comments, and the five default circles. */
  function Cleared(freshID: nat -> string, now: nat): (r: Store)
    ensures r.users == [] && r.posts == [] && r.comments == []
    ensures |r.circles| == 5 && forall c :: c in r.circles ==> c.memberIDs == [] && c.postIDs == []
  {
    Store([], DefaultCircles(freshID, now), [], [])
  }
}
