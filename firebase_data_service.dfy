/** The cloud twin of the local store. Its commands read documents, edit local
    copies and write them back; here a document read is a value that either
    failed, did not decode, or decoded, and a command returns the writes it makes
    and what its completion reports. The remote crash-free behaviour (fetch,
    commit, listeners) is reduced to these inputs and outputs. */
module FirebaseData {
  import opened Seqs
  import opened Models
  import opened StoreOps

  /** The outcome of reading one document. */
  datatype DocRead<T> = FetchFailed | Undecodable | Decoded(value: T)

  /** What a join or leave transaction writes, and what its completion reports. */
  datatype TxOutcome = TxOutcome(circleWrite: Option<Circle>, userWrite: Option<User>, reportsSuccess: bool)

  /** What a reaction command writes, and what its completion reports. */
  datatype PostUpdate = PostUpdate(postWrite: Option<Post>, reportsSuccess: bool)

  // ------------------------------------------------------- document edits

  /** The circle side of joining: the user id is appended unless present. */
  function WithMember(c: Circle, userID: string): (r: Circle)
    ensures userID in r.memberIDs
    ensures forall x :: x in r.memberIDs <==> x in c.memberIDs || x == userID
    ensures |r.memberIDs| <= |c.memberIDs| + 1
    ensures r.(memberIDs := c.memberIDs) == c
  {
    c.(memberIDs := AppendIfAbsent(c.memberIDs, userID))
  }

  /** The user side of joining: the circle id is appended unless present. */
  function WithJoined(u: User, circleID: string): (r: User)
    ensures circleID in r.joinedCircleIDs
    ensures forall x :: x in r.joinedCircleIDs <==> x in u.joinedCircleIDs || x == circleID
    ensures |r.joinedCircleIDs| <= |u.joinedCircleIDs| + 1
    ensures r.(joinedCircleIDs := u.joinedCircleIDs) == u
  {
    u.(joinedCircleIDs := AppendIfAbsent(u.joinedCircleIDs, circleID))
  }

  /** The circle side of leaving: every occurrence of the user id goes. */
  function WithoutMember(c: Circle, userID: string): (r: Circle)
    ensures userID !in r.memberIDs
    ensures forall x :: x != userID ==> (x in r.memberIDs <==> x in c.memberIDs)
    ensures Subseq(r.memberIDs, c.memberIDs)
    ensures r.(memberIDs := c.memberIDs) == c
  {
    RemoveAllIsSubseq(c.memberIDs, userID);
    c.(memberIDs := RemoveAll(c.memberIDs, userID))
  }

  /** The user side of leaving: every occurrence of the circle id goes. */
  function WithoutJoined(u: User, circleID: string): (r: User)
    ensures circleID !in r.joinedCircleIDs
    ensures forall x :: x != circleID ==> (x in r.joinedCircleIDs <==> x in u.joinedCircleIDs)
    ensures Subseq(r.joinedCircleIDs, u.joinedCircleIDs)
    ensures r.(joinedCircleIDs := u.joinedCircleIDs) == u
  {
    RemoveAllIsSubseq(u.joinedCircleIDs, circleID);
    u.(joinedCircleIDs := RemoveAll(u.joinedCircleIDs, circleID))
  }

  /** Applying either join edit to its own result changes nothing. */
  lemma JoinEditsIdempotent(c: Circle, u: User, circleID: string, userID: string)
    ensures WithMember(WithMember(c, userID), userID) == WithMember(c, userID)
    ensures WithJoined(WithJoined(u, circleID), circleID) == WithJoined(u, circleID)
  {
    AppendIfAbsentIdempotent(c.memberIDs, userID);
    AppendIfAbsentIdempotent(u.joinedCircleIDs, circleID);
  }

  /** Applying either leave edit to its own result changes nothing. */
  lemma LeaveEditsIdempotent(c: Circle, u: User, circleID: string, userID: string)
    ensures WithoutMember(WithoutMember(c, userID), userID) == WithoutMember(c, userID)
    ensures WithoutJoined(WithoutJoined(u, circleID), circleID) == WithoutJoined(u, circleID)
  {
    RemoveAllIdempotent(c.memberIDs, userID);
    RemoveAllIdempotent(u.joinedCircleIDs, circleID);
  }

  /** The local store's join makes, at the circle's and the user's positions, the
      very documents the cloud join writes. */
  lemma JoinAgreesWithLocalStore(s: Store, circleID: string, userID: string)
    requires CircleIndex(s.circles, circleID).Some? && UserIndex(s.users, userID).Some?
    ensures var ci := CircleIndex(s.circles, circleID).value;
            var ui := UserIndex(s.users, userID).value;
            var r := JoinCircle(s, circleID, userID);
            r.circles[ci] == WithMember(s.circles[ci], userID) && r.users[ui] == WithJoined(s.users[ui], circleID)
  {
  }

  /** The same for leaving. */
  lemma LeaveAgreesWithLocalStore(s: Store, circleID: string, userID: string)
    requires CircleIndex(s.circles, circleID).Some? && UserIndex(s.users, userID).Some?
    ensures var ci := CircleIndex(s.circles, circleID).value;
            var ui := UserIndex(s.users, userID).value;
            var r := LeaveCircle(s, circleID, userID);
            r.circles[ci] == WithoutMember(s.circles[ci], userID) && r.users[ui] == WithoutJoined(s.users[ui], circleID)
  {
  }

  // ------------------------------------------------------- transactions

  /** `joinCircle`'s transaction: both documents are fetched (a failed fetch sets
      the error); when either does not decode the body returns with no writes and
      no error; otherwise the edited circle and then the edited user are staged.
      `circleEncodes` and `userEncodes` are whether each `setData` succeeds: a
      throwing `setData` ends the body without an error, so a failed user write
      leaves the circle write staged. `commitOK` is whether the commit itself
      succeeds. */
  method JoinTransaction(circleDoc: DocRead<Circle>, userDoc: DocRead<User>,
                         circleID: string, userID: string,
                         circleEncodes: bool, userEncodes: bool, commitOK: bool) returns (out: TxOutcome)
    ensures circleDoc.FetchFailed? || userDoc.FetchFailed? || !commitOK ==> out == TxOutcome(None, None, false)
    ensures !circleDoc.FetchFailed? && !userDoc.FetchFailed? && commitOK && !(circleDoc.Decoded? && userDoc.Decoded?) ==>
              out == TxOutcome(None, None, true)
    ensures circleDoc.Decoded? && userDoc.Decoded? && commitOK ==>
              out == TxOutcome(if circleEncodes then Some(WithMember(circleDoc.value, userID)) else None,
                               if circleEncodes && userEncodes then Some(WithJoined(userDoc.value, circleID)) else None,
                               true)
  {
    if circleDoc.FetchFailed? || userDoc.FetchFailed? || !commitOK {
      return TxOutcome(None, None, false);
    }
    if !circleDoc.Decoded? || !userDoc.Decoded? {
      return TxOutcome(None, None, true);
    }
    var circle := circleDoc.value;
    var user := userDoc.value;
    if userID !in circle.memberIDs {
      circle := circle.(memberIDs := circle.memberIDs + [userID]);
    }
    if circleID !in user.joinedCircleIDs {
      user := user.(joinedCircleIDs := user.joinedCircleIDs + [circleID]);
    }
    out := TxOutcome(None, None, true);
    if circleEncodes {
      out := out.(circleWrite := Some(circle));
      if userEncodes {
        out := out.(userWrite := Some(user));
      }
    }
  }

  /** `leaveCircle`'s transaction, with the same error handling as joining. */
  method LeaveTransaction(circleDoc: DocRead<Circle>, userDoc: DocRead<User>,
                          circleID: string, userID: string,
                          circleEncodes: bool, userEncodes: bool, commitOK: bool) returns (out: TxOutcome)
    ensures circleDoc.FetchFailed? || userDoc.FetchFailed? || !commitOK ==> out == TxOutcome(None, None, false)
    ensures !circleDoc.FetchFailed? && !userDoc.FetchFailed? && commitOK && !(circleDoc.Decoded? && userDoc.Decoded?) ==>
              out == TxOutcome(None, None, true)
    ensures circleDoc.Decoded? && userDoc.Decoded? && commitOK ==>
              out == TxOutcome(if circleEncodes then Some(WithoutMember(circleDoc.value, userID)) else None,
                               if circleEncodes && userEncodes then Some(WithoutJoined(userDoc.value, circleID)) else None,
                               true)
  {
    if circleDoc.FetchFailed? || userDoc.FetchFailed? || !commitOK {
      return TxOutcome(None, None, false);
    }
    if !circleDoc.Decoded? || !userDoc.Decoded? {
      return TxOutcome(None, None, true);
    }
    var circle := circleDoc.value;
    var user := userDoc.value;
    circle := circle.(memberIDs := RemoveAll(circle.memberIDs, userID));
    user := user.(joinedCircleIDs := RemoveAll(user.joinedCircleIDs, circleID));
    out := TxOutcome(None, None, true);
    if circleEncodes {
      out := out.(circleWrite := Some(circle));
      if userEncodes {
        out := out.(userWrite := Some(user));
      }
    }
  }

  // --------------------------------------------------------- reactions

  /** `addReaction`: with no snapshot or an undecodable post the completion reports
      failure and nothing is written; otherwise the post is written with the user's
      reactions replaced by the new one, and the completion reports the write's
      own success `writeOK`. */
  method AddReactionUpdate(postDoc: DocRead<Post>, userID: string, kind: ReactionType, now: nat, writeOK: bool)
    returns (out: PostUpdate)
    ensures !postDoc.Decoded? ==> out == PostUpdate(None, false)
    ensures postDoc.Decoded? ==> out == PostUpdate(Some(postDoc.value.WithReaction(userID, kind, now)), writeOK)
  {
    if !postDoc.Decoded? {
      return PostUpdate(None, false);
    }
    var post := postDoc.value;
    post := post.(reactions := ReactionsNotBy(post.reactions, userID));
    post := post.(reactions := post.reactions + [Reaction(userID, kind, now)]);
    out := PostUpdate(Some(post), writeOK);
  }

  /** `removeReaction`: the same, dropping every reaction of the user. */
  method RemoveReactionUpdate(postDoc: DocRead<Post>, userID: string, writeOK: bool) returns (out: PostUpdate)
    ensures !postDoc.Decoded? ==> out == PostUpdate(None, false)
    ensures postDoc.Decoded? ==> out == PostUpdate(Some(postDoc.value.WithoutReactionsBy(userID)), writeOK)
  {
    if !postDoc.Decoded? {
      return PostUpdate(None, false);
    }
    var post := postDoc.value;
    post := post.(reactions := ReactionsNotBy(post.reactions, userID));
    out := PostUpdate(Some(post), writeOK);
  }

  // ---------------------------------------------------------- snapshots

  /** `documents.compactMap { try? $0.data(as: T.self) }`: a document that does not
      decode is `None` and is dropped; the others keep their order. */
  function Decodable<T(!new)>(docs: seq<Option<T>>): (r: seq<T>)
    ensures |r| <= |docs|
    ensures forall x :: x in r <==> Some(x) in docs
  {
    if docs == [] then []
    else
      assert forall d :: d in docs <==> d == docs[0] || d in docs[1..];
      match docs[0]
      case None => Decodable(docs[1..])
      case Some(x) => [x] + Decodable(docs[1..])
  }

  /** Decoding works document by document, so it distributes over concatenation. */
  lemma {:induction false} DecodableAppend<T(!new)>(a: seq<Option<T>>, b: seq<Option<T>>)
    ensures Decodable(a + b) == Decodable(a) + Decodable(b)
  {
    if a == [] {
      assert a + b == b;
    } else {
      assert (a + b)[0] == a[0];
      assert (a + b)[1..] == a[1..] + b;
      DecodableAppend(a[1..], b);
    }
  }

  /** When every document decodes, the array is the snapshot in order. */
  lemma {:induction false} DecodableAll<T(!new)>(docs: seq<Option<T>>)
    requires forall i :: 0 <= i < |docs| ==> docs[i].Some?
    ensures |Decodable(docs)| == |docs|
    ensures forall i :: 0 <= i < |docs| ==> Decodable(docs)[i] == docs[i].value
  {
    if docs != [] {
      DecodableAll(docs[1..]);
    }
  }

  /** The listener-backed tables. Nothing ever fills `users`. */
  class FirebaseDataService {
    var circles: seq<Circle>
    var posts: seq<Post>
    var comments: seq<Comment>
    var users: seq<User>

    constructor()
      ensures circles == [] && posts == [] && comments == [] && users == []
    {
      circles, posts, comments, users := [], [], [], [];
    }

    /** The circles listener: with no snapshot (an error) the array is kept;
        otherwise it becomes the snapshot's decodable documents. */
    method OnCirclesSnapshot(snapshot: Option<seq<Option<Circle>>>)
      modifies this
      ensures snapshot.None? ==> circles == old(circles)
      ensures snapshot.Some? ==> circles == Decodable(snapshot.value)
      ensures posts == old(posts) && comments == old(comments) && users == old(users)
    {
      if snapshot.Some? {
        circles := Decodable(snapshot.value);
      }
    }

    /** The posts listener. */
    method OnPostsSnapshot(snapshot: Option<seq<Option<Post>>>)
      modifies this
      ensures snapshot.None? ==> posts == old(posts)
      ensures snapshot.Some? ==> posts == Decodable(snapshot.value)
      ensures circles == old(circles) && comments == old(comments) && users == old(users)
    {
      if snapshot.Some? {
        posts := Decodable(snapshot.value);
      }
    }

    /** The comments listener. */
    method OnCommentsSnapshot(snapshot: Option<seq<Option<Comment>>>)
      modifies this
      ensures snapshot.None? ==> comments == old(comments)
      ensures snapshot.Some? ==> comments == Decodable(snapshot.value)
      ensures circles == old(circles) && posts == old(posts) && users == old(users)
    {
      if snapshot.Some? {
        comments := Decodable(snapshot.value);
      }
    }
  }

  // ------------------------------------------------------------ queries

  /** `getUserCircles`: the circles, in order, that list the user among their members. */
  function MemberCircles(circles: seq<Circle>, userID: string): (r: seq<Circle>)
    ensures forall c :: c in r <==> c in circles && userID in c.memberIDs
    ensures Subseq(r, circles)
    ensures forall c :: multiset(r)[c] == if userID in c.memberIDs then multiset(circles)[c] else 0
  {
    FilterIsSubseq(circles, (c: Circle) => userID in c.memberIDs);
    FilterMultiset(circles, (c: Circle) => userID in c.memberIDs);
    Filter(circles, (c: Circle) => userID in c.memberIDs)
  }

  function Ids(cs: seq<Circle>): (r: seq<string>)
    ensures |r| == |cs| && forall i :: 0 <= i < |cs| ==> r[i] == cs[i].id
  {
    if cs == [] then [] else [cs[0].id] + Ids(cs[1..])
  }

  /** `getFeedPosts`: exactly the posts (with multiplicity) of the circles that list
      the user as a member, newest first. */
  function MemberFeed(circles: seq<Circle>, posts: seq<Post>, userID: string): (r: seq<Post>)
    ensures NewestFirst(r)
    ensures forall p :: multiset(r)[p] ==
              if (exists c :: c in circles && userID in c.memberIDs && c.id == p.circleID) then multiset(posts)[p] else 0
  {
    var ids := Ids(MemberCircles(circles, userID));
    MemberCircleIds(circles, userID);
    NewestFirstFiltered(posts, (p: Post) => p.circleID in ids)
  }

  /** A circle id is among the user's circles' ids exactly when some circle with
      that id lists the user. */
  lemma MemberCircleIds(circles: seq<Circle>, userID: string)
    ensures forall id :: id in Ids(MemberCircles(circles, userID)) <==>
              exists c :: c in circles && userID in c.memberIDs && c.id == id
  {
    var mine := MemberCircles(circles, userID);
    var ids := Ids(mine);
    forall id ensures id in ids <==> exists c :: c in circles && userID in c.memberIDs && c.id == id {
      if id in ids {
        var i :| 0 <= i < |ids| && ids[i] == id;
        assert mine[i] in mine;
      }
      if exists c :: c in circles && userID in c.memberIDs && c.id == id {
        var c :| c in circles && userID in c.memberIDs && c.id == id;
        var i :| 0 <= i < |mine| && mine[i] == c;
        assert ids[i] == id;
      }
    }
  }

  /** Under the two-way membership invariant, the two stores' `getUserCircles` agree
      for every user the local store knows. */
  lemma UserCirclesAgree(s: Store, userID: string)
    requires GetUser(s.users, userID).Some?
    requires forall ci, ui :: 0 <= ci < |s.circles| && 0 <= ui < |s.users| ==>
               (s.users[ui].id in s.circles[ci].memberIDs <==> s.circles[ci].id in s.users[ui].joinedCircleIDs)
    ensures UserCircles(s, userID) == MemberCircles(s.circles, userID)
  {
    var ui := UserIndex(s.users, userID).value;
    var u := s.users[ui];
    FilterCongruent(s.circles, (c: Circle) => c.id in u.joinedCircleIDs, (c: Circle) => userID in c.memberIDs);
  }

  /** The agreement needs the user to exist: for an unknown user the local store
      answers nothing while the cloud store answers the circles listing that id. */
  lemma UserCirclesDifferForUnknownUser()
    ensures var c := NewCircle("c", "circle", "about", "topic", [], "u", 0);
            var s := Store([], [c], [], []);
            UserCircles(s, "u") == [] && MemberCircles(s.circles, "u") == [c]
  {
    var c := NewCircle("c", "circle", "about", "topic", [], "u", 0);
    assert Filter([c], (x: Circle) => "u" in x.memberIDs) == [c];
  }
}
