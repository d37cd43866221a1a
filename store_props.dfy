/** What the store's edits preserve and how they compose: idempotence of joining
    and leaving, the two-way membership invariant under unique ids, at most one
    reaction per user and per post, and the back-references from comments and
    posts to their parents. */
module StoreProps {
  import opened Seqs
  import opened Models
  import opened StoreOps

  /** Every user id and every circle id occurs once. */
  ghost predicate UniqueIDs(s: Store)
  {
    && (forall i, j :: 0 <= i < j < |s.users| ==> s.users[i].id != s.users[j].id)
    && (forall i, j :: 0 <= i < j < |s.circles| ==> s.circles[i].id != s.circles[j].id)
  }

  /** The two-way membership invariant: a user is among a circle's members exactly
      when the circle is among the user's joined circles. */
  ghost predicate Consistent(s: Store)
  {
    forall ci, ui :: 0 <= ci < |s.circles| && 0 <= ui < |s.users| ==>
      (s.users[ui].id in s.circles[ci].memberIDs <==> s.circles[ci].id in s.users[ui].joinedCircleIDs)
  }

  // ----------------------------------------------------- id bookkeeping

  lemma SameCircleIDs(a: seq<Circle>, b: seq<Circle>, id: string)
    requires |a| == |b| && forall i :: 0 <= i < |a| ==> a[i].id == b[i].id
    ensures CircleIndex(a, id) == CircleIndex(b, id)
  {
    var x, y := CircleIndex(a, id), CircleIndex(b, id);
    if x.Some? && y.Some? {
      assert !(x.value < y.value) && !(y.value < x.value);
    }
  }

  lemma SameUserIDs(a: seq<User>, b: seq<User>, id: string)
    requires |a| == |b| && forall i :: 0 <= i < |a| ==> a[i].id == b[i].id
    ensures UserIndex(a, id) == UserIndex(b, id)
  {
    var x, y := UserIndex(a, id), UserIndex(b, id);
    if x.Some? && y.Some? {
      assert !(x.value < y.value) && !(y.value < x.value);
    }
  }

  lemma SamePostIDs(a: seq<Post>, b: seq<Post>, id: string)
    requires |a| == |b| && forall i :: 0 <= i < |a| ==> a[i].id == b[i].id
    ensures PostIndex(a, id) == PostIndex(b, id)
  {
    var x, y := PostIndex(a, id), PostIndex(b, id);
    if x.Some? && y.Some? {
      assert !(x.value < y.value) && !(y.value < x.value);
    }
  }

  /** Appending a post keeps the first match of every id already present. */
  lemma PostIndexAppend(a: seq<Post>, p: Post, id: string)
    requires PostIndex(a, id).Some?
    ensures PostIndex(a + [p], id) == PostIndex(a, id)
  {
    var x := PostIndex(a, id);
    assert forall j :: 0 <= j <= x.value ==> (a + [p])[j] == a[j];
  }

  // ----------------------------------------------------- join and leave

  /** Joining twice is joining once. */
  lemma JoinIdempotent(s: Store, circleID: string, userID: string)
    ensures JoinCircle(JoinCircle(s, circleID, userID), circleID, userID) == JoinCircle(s, circleID, userID)
  {
    var r := JoinCircle(s, circleID, userID);
    match CircleIndex(s.circles, circleID)
    case None =>
    case Some(ci) =>
      SameCircleIDs(s.circles, r.circles, circleID);
      SameUserIDs(s.users, r.users, userID);
      var r2 := JoinCircle(r, circleID, userID);
      AppendIfAbsentIdempotent(s.circles[ci].memberIDs, userID);
      assert r2.circles == r.circles;
      match UserIndex(s.users, userID)
      case None =>
      case Some(ui) =>
        AppendIfAbsentIdempotent(s.users[ui].joinedCircleIDs, circleID);
        assert r2.users == r.users;
  }

  /** Once joined: the user is a member of the circle, and the circle is among the
      user's joined circles when the user exists; no id is listed twice more than before. */
  lemma JoinLeavesMembership(s: Store, circleID: string, userID: string)
    requires CircleIndex(s.circles, circleID).Some?
    ensures var r := JoinCircle(s, circleID, userID);
            var ci := CircleIndex(s.circles, circleID).value;
            && CircleIndex(r.circles, circleID) == Some(ci)
            && userID in r.circles[ci].memberIDs
            && |r.circles[ci].memberIDs| <= |s.circles[ci].memberIDs| + 1
            && (UserIndex(s.users, userID).Some? ==>
                  var ui := UserIndex(s.users, userID).value;
                  UserIndex(r.users, userID) == Some(ui) && circleID in r.users[ui].joinedCircleIDs)
  {
    var r := JoinCircle(s, circleID, userID);
    SameCircleIDs(s.circles, r.circles, circleID);
    SameUserIDs(s.users, r.users, userID);
  }

  /** Leaving twice is leaving once. */
  lemma LeaveIdempotent(s: Store, circleID: string, userID: string)
    ensures LeaveCircle(LeaveCircle(s, circleID, userID), circleID, userID) == LeaveCircle(s, circleID, userID)
  {
    var r := LeaveCircle(s, circleID, userID);
    var r2 := LeaveCircle(r, circleID, userID);
    SameCircleIDs(s.circles, r.circles, circleID);
    SameUserIDs(s.users, r.users, userID);
    var foundC, foundU := CircleIndex(s.circles, circleID), UserIndex(s.users, userID);
    if foundC.Some? {
      RemoveAllIdempotent(s.circles[foundC.value].memberIDs, userID);
      assert r2.circles == r.circles;
    }
    if foundU.Some? {
      RemoveAllIdempotent(s.users[foundU.value].joinedCircleIDs, circleID);
      assert r2.users == r.users;
    }
  }

  /** Joining keeps the two-way membership invariant when ids are unique. */
  lemma JoinPreservesConsistency(s: Store, circleID: string, userID: string)
    requires UniqueIDs(s) && Consistent(s)
    ensures UniqueIDs(JoinCircle(s, circleID, userID))
    ensures Consistent(JoinCircle(s, circleID, userID))
  {
    var r := JoinCircle(s, circleID, userID);
    match CircleIndex(s.circles, circleID)
    case None =>
    case Some(ci) =>
      var found := UserIndex(s.users, userID);
      assert |r.users| == |s.users|;
      assert forall i :: 0 <= i < |s.circles| ==> r.circles[i].id == s.circles[i].id;
      assert forall i :: 0 <= i < |s.users| ==> r.users[i].id == s.users[i].id;
      forall c, u | 0 <= c < |r.circles| && 0 <= u < |r.users|
        ensures r.users[u].id in r.circles[c].memberIDs <==> r.circles[c].id in r.users[u].joinedCircleIDs
      {
        var isUser := found.Some? && u == found.value;
        assert !isUser ==> r.users[u] == s.users[u] && s.users[u].id != userID;
        assert c != ci ==> r.circles[c] == s.circles[c] && s.circles[c].id != circleID;
      }
  }

  /** Leaving keeps the two-way membership invariant when ids are unique. */
  lemma LeavePreservesConsistency(s: Store, circleID: string, userID: string)
    requires UniqueIDs(s) && Consistent(s)
    ensures UniqueIDs(LeaveCircle(s, circleID, userID))
    ensures Consistent(LeaveCircle(s, circleID, userID))
  {
    var r := LeaveCircle(s, circleID, userID);
    var foundC, foundU := CircleIndex(s.circles, circleID), UserIndex(s.users, userID);
    assert forall i :: 0 <= i < |s.circles| ==> r.circles[i].id == s.circles[i].id;
    assert forall i :: 0 <= i < |s.users| ==> r.users[i].id == s.users[i].id;
    forall c, u | 0 <= c < |r.circles| && 0 <= u < |r.users|
      ensures r.users[u].id in r.circles[c].memberIDs <==> r.circles[c].id in r.users[u].joinedCircleIDs
    {
      var isUser := foundU.Some? && u == foundU.value;
      var isCircle := foundC.Some? && c == foundC.value;
      assert !isUser ==> r.users[u] == s.users[u] && s.users[u].id != userID;
      assert !isCircle ==> r.circles[c] == s.circles[c] && s.circles[c].id != circleID;
    }
  }

  /** Creating a circle keeps the invariant exactly when, for every user, being the
      new circle's member agrees with already listing its id: the creator is
      listed as a member, but nothing adds the circle to the creator's joined circles. */
  lemma AddCircleConsistency(s: Store, c: Circle)
    requires Consistent(s)
    ensures Consistent(AddCircle(s, c)) <==>
              forall ui :: 0 <= ui < |s.users| ==>
                (s.users[ui].id in c.memberIDs <==> c.id in s.users[ui].joinedCircleIDs)
  {
    var r := AddCircle(s, c);
    if Consistent(r) {
      forall ui | 0 <= ui < |s.users|
        ensures s.users[ui].id in c.memberIDs <==> c.id in s.users[ui].joinedCircleIDs
      {
        assert r.circles[|s.circles|] == c && r.users[ui] == s.users[ui];
      }
    }
  }

  /** A consistent store with one user who creates a circle is no longer consistent. */
  lemma CreateCircleBreaksConsistency()
    ensures var s := Store([NewUser("u", "name", "mail", 0)], [], [], []);
            var r := AddCircle(s, NewCircle("c", "circle", "about", "topic", [], "u", 1));
            UniqueIDs(s) && Consistent(s) && UniqueIDs(r) && !Consistent(r)
  {
    var s := Store([NewUser("u", "name", "mail", 0)], [], [], []);
    var c := NewCircle("c", "circle", "about", "topic", [], "u", 1);
    AddCircleConsistency(s, c);
    assert s.users[0].id in c.memberIDs && c.id !in s.users[0].joinedCircleIDs;
  }

  // ---------------------------------------------------------- reactions

  /** At most one reaction per user on every post. */
  ghost predicate ReactionsUnique(s: Store)
  {
    forall i :: 0 <= i < |s.posts| ==> OneReactionPerUser(s.posts[i].reactions)
  }

  /** Both reaction commands keep at most one reaction per user on every post. */
  lemma ReactionCommandsKeepUniqueness(s: Store, postID: string, userID: string, kind: ReactionType, now: nat)
    requires ReactionsUnique(s)
    ensures ReactionsUnique(AddReaction(s, postID, userID, kind, now))
    ensures ReactionsUnique(RemoveReaction(s, postID, userID))
  {
    match PostIndex(s.posts, postID)
    case None =>
    case Some(pi) =>
      EditsKeepOneReactionPerUser(s.posts[pi], userID, kind, now);
  }

  /** A reaction followed by its removal leaves the post's other reactions, in order,
      and no reaction of the user. */
  lemma AddThenRemoveReaction(s: Store, postID: string, userID: string, kind: ReactionType, now: nat)
    requires PostIndex(s.posts, postID).Some?
    ensures var pi := PostIndex(s.posts, postID).value;
            var r := RemoveReaction(AddReaction(s, postID, userID, kind, now), postID, userID);
            r.posts[pi].reactions == ReactionsNotBy(s.posts[pi].reactions, userID)
  {
    var pi := PostIndex(s.posts, postID).value;
    var a := AddReaction(s, postID, userID, kind, now);
    SamePostIDs(s.posts, a.posts, postID);
    var p := s.posts[pi].WithReaction(userID, kind, now);
    ReactionsNotByTwice(s.posts[pi].reactions, userID);
    assert p.WithoutReactionsBy(userID).reactions == ReactionsNotBy(p.reactions, userID);
  }

  // ---------------------------------------------------- back-references

  /** Every comment's id is listed by its parent post. */
  ghost predicate CommentsLinked(s: Store)
  {
    forall k :: 0 <= k < |s.comments| ==>
      var pi := PostIndex(s.posts, s.comments[k].postID);
      pi.Some? && s.comments[k].id in s.posts[pi.value].commentIDs
  }

  /** Every post whose circle exists is listed by that circle. */
  ghost predicate PostsLinked(s: Store)
  {
    forall k :: 0 <= k < |s.posts| ==>
      var ci := CircleIndex(s.circles, s.posts[k].circleID);
      ci.Some? ==> s.posts[k].id in s.circles[ci.value].postIDs
  }

  /** Commenting on an existing post keeps every comment linked to its post. */
  lemma AddCommentKeepsLinks(s: Store, c: Comment)
    requires CommentsLinked(s) && PostIndex(s.posts, c.postID).Some?
    ensures CommentsLinked(AddComment(s, c))
  {
    var r := AddComment(s, c);
    forall k | 0 <= k < |r.comments|
      ensures var pi := PostIndex(r.posts, r.comments[k].postID);
              pi.Some? && r.comments[k].id in r.posts[pi.value].commentIDs
    {
      SamePostIDs(s.posts, r.posts, r.comments[k].postID);
    }
  }

  /** Commenting on a post that does not exist leaves an orphan comment. */
  lemma AddCommentOrphan(s: Store, c: Comment)
    requires PostIndex(s.posts, c.postID).None?
    ensures !CommentsLinked(AddComment(s, c))
  {
    var r := AddComment(s, c);
    assert r.comments[|s.comments|] == c;
  }

  /** Posting keeps every post listed by its circle. */
  lemma AddPostKeepsLinks(s: Store, p: Post)
    requires PostsLinked(s)
    ensures PostsLinked(AddPost(s, p))
  {
    var r := AddPost(s, p);
    forall k | 0 <= k < |r.posts|
      ensures var ci := CircleIndex(r.circles, r.posts[k].circleID);
              ci.Some? ==> r.posts[k].id in r.circles[ci.value].postIDs
    {
      SameCircleIDs(s.circles, r.circles, r.posts[k].circleID);
    }
  }

  /** Posting keeps every comment linked to its post: an appended post never
      moves the first post with an existing id. */
  lemma AddPostKeepsCommentLinks(s: Store, p: Post)
    requires CommentsLinked(s)
    ensures CommentsLinked(AddPost(s, p))
  {
    var r := AddPost(s, p);
    forall k | 0 <= k < |r.comments|
      ensures var pi := PostIndex(r.posts, r.comments[k].postID);
              pi.Some? && r.comments[k].id in r.posts[pi.value].commentIDs
    {
      PostIndexAppend(s.posts, p, r.comments[k].postID);
    }
  }
}
