/** The reaction toggle both the circle screen and the home feed use: tapping the
    kind the user already gave on a post withdraws the user's reactions there;
    tapping any other kind makes it the user's only reaction. Also the lookup of
    the user's current reaction on a post. */
module ReactionToggle {
  import opened Seqs
  import opened Models
  import opened StoreOps
  import StoreProps
  import DataServices

  /** `post.reactions.contains(where: { $0.userID == userID && $0.type == kind })`. */
  predicate HasReaction(rs: seq<Reaction>, userID: string, kind: ReactionType)
  {
    exists i :: 0 <= i < |rs| && rs[i].userID == userID && rs[i].kind == kind
  }

  /** A user with no reactions on a post has none of any kind. */
  lemma NoReactionsNoKind(rs: seq<Reaction>, userID: string, kind: ReactionType)
    requires ReactionsBy(rs, userID) == []
    ensures !HasReaction(rs, userID, kind)
  {
  }

  /** `toggleReaction`: on the first post with that id, withdraw when the user
      already gave this kind, otherwise add (which replaces the user's reactions);
      with an unknown post the add branch runs and changes nothing. */
  function Toggle(s: Store, postID: string, userID: string, kind: ReactionType, now: nat): (r: Store)
    ensures PostIndex(s.posts, postID).None? ==> r == s
    ensures PostIndex(s.posts, postID).Some? ==>
              var pi := PostIndex(s.posts, postID).value;
              var before := s.posts[pi].reactions;
              && |r.posts| == |s.posts|
              && (forall j :: 0 <= j < |s.posts| && j != pi ==> r.posts[j] == s.posts[j])
              && r.posts[pi].(reactions := before) == s.posts[pi]
              && ReactionsBy(r.posts[pi].reactions, userID)
                   == (if HasReaction(before, userID, kind) then [] else [Reaction(userID, kind, now)])
              && ReactionsNotBy(r.posts[pi].reactions, userID) == ReactionsNotBy(before, userID)
    ensures r.users == s.users && r.circles == s.circles && r.comments == s.comments
  {
    match PostIndex(s.posts, postID)
    case Some(pi) =>
      if HasReaction(s.posts[pi].reactions, userID, kind) then RemoveReaction(s, postID, userID)
      else AddReaction(s, postID, userID, kind, now)
    case None => AddReaction(s, postID, userID, kind, now)
  }

  /** The branch both screens run on the store: withdraw when the first post with
      that id already has this user's reaction of this kind, otherwise add. */
  method ApplyToggle(store: DataServices.DataService, postID: string, userID: string, kind: ReactionType, now: nat)
    modifies store
    ensures store.State() == Toggle(old(store.State()), postID, userID, kind, now)
  {
    var found := PostIndex(store.posts, postID);
    if found.Some? && HasReaction(store.posts[found.value].reactions, userID, kind) {
      store.RemoveReaction(postID, userID);
    } else {
      store.AddReaction(postID, userID, kind, now);
    }
  }

  /** `reactions.first(where: { $0.userID == userID })`. */
  function FirstReactionBy(rs: seq<Reaction>, userID: string): (r: Option<Reaction>)
    ensures r.None? <==> ReactionsBy(rs, userID) == []
    ensures r.Some? ==> r.value == ReactionsBy(rs, userID)[0]
  {
    if rs == [] then None
    else if rs[0].userID == userID then Some(rs[0])
    else FirstReactionBy(rs[1..], userID)
  }

  /** `getUserReaction`: nothing for an unknown post; otherwise the kind of the
      user's first reaction there, if any. */
  function UserReaction(posts: seq<Post>, postID: string, userID: string): (r: Option<ReactionType>)
    ensures PostIndex(posts, postID).None? ==> r.None?
    ensures PostIndex(posts, postID).Some? ==>
              var mine := ReactionsBy(posts[PostIndex(posts, postID).value].reactions, userID);
              (r.None? <==> mine == []) && (r.Some? ==> r.value == mine[0].kind)
  {
    match PostIndex(posts, postID)
    case None => None
    case Some(pi) =>
      match FirstReactionBy(posts[pi].reactions, userID)
      case None => None
      case Some(x) => Some(x.kind)
  }

  /** With at most one reaction per user, the user's reaction is `k` exactly when
      the user has given a reaction of kind `k`. */
  lemma UserReactionOfUnique(posts: seq<Post>, postID: string, userID: string, k: ReactionType)
    requires PostIndex(posts, postID).Some?
    requires OneReactionPerUser(posts[PostIndex(posts, postID).value].reactions)
    ensures UserReaction(posts, postID, userID) == Some(k) <==>
              HasReaction(posts[PostIndex(posts, postID).value].reactions, userID, k)
  {
    var rs := posts[PostIndex(posts, postID).value].reactions;
    assert |ReactionsBy(rs, userID)| <= 1;
    SoleReaction(rs, userID, k);
  }

  /** A user's only reaction has kind `k` exactly when the user gave a reaction of kind `k`. */
  lemma SoleReaction(rs: seq<Reaction>, userID: string, k: ReactionType)
    requires |ReactionsBy(rs, userID)| <= 1
    ensures (ReactionsBy(rs, userID) != [] && ReactionsBy(rs, userID)[0].kind == k) <==> HasReaction(rs, userID, k)
  {
    var mine := ReactionsBy(rs, userID);
    if HasReaction(rs, userID, k) {
      var i :| 0 <= i < |rs| && rs[i].userID == userID && rs[i].kind == k;
      assert rs[i] in mine;
    }
    if mine != [] {
      assert mine[0] in mine;
    }
  }

  /** After a toggle, the user's reaction on the post is cleared when it was the
      tapped kind, and is the tapped kind otherwise. */
  lemma ToggleThenUserReaction(s: Store, postID: string, userID: string, kind: ReactionType, now: nat)
    requires PostIndex(s.posts, postID).Some?
    ensures var before := s.posts[PostIndex(s.posts, postID).value].reactions;
            UserReaction(Toggle(s, postID, userID, kind, now).posts, postID, userID)
              == if HasReaction(before, userID, kind) then None else Some(kind)
  {
    var r := Toggle(s, postID, userID, kind, now);
    StoreProps.SamePostIDs(s.posts, r.posts, postID);
  }

  /** Starting with no reaction of the user on the post, tapping the same kind twice
      gives back the store it started from. */
  lemma ToggleTwiceRestores(s: Store, postID: string, userID: string, kind: ReactionType, now: nat, later: nat)
    requires PostIndex(s.posts, postID).Some? ==>
               ReactionsBy(s.posts[PostIndex(s.posts, postID).value].reactions, userID) == []
    ensures Toggle(Toggle(s, postID, userID, kind, now), postID, userID, kind, later) == s
  {
    match PostIndex(s.posts, postID)
    case None =>
    case Some(pi) =>
      var rs := s.posts[pi].reactions;
      NoReactionsNoKind(rs, userID, kind);
      var t := Toggle(s, postID, userID, kind, now);
      assert t == AddReaction(s, postID, userID, kind, now);
      StoreProps.SamePostIDs(s.posts, t.posts, postID);
      var added := t.posts[pi].reactions;
      assert added[|added| - 1] == Reaction(userID, kind, now);
      assert HasReaction(added, userID, kind);
      var u := Toggle(t, postID, userID, kind, later);
      ReactionsNotByAbsent(rs, userID);
      ReactionsNotByAppend(ReactionsNotBy(rs, userID), Reaction(userID, kind, now), userID);
      assert u.posts[pi] == s.posts[pi];
      assert u.posts == s.posts;
  }
}
