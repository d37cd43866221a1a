/** The records of the app: users, circles, posts with their reactions, comments
    and the derived connection suggestions. Identifiers are strings (the app's
    `UUID().uuidString`), timestamps are `nat` (the app's `Date`). */
module Models {
  import opened Seqs

  // ---------------------------------------------------------------- users

  datatype ProfileTheme = Sunset | Ocean | Forest | Cosmic | Minimal
  {
    /** The `String` raw value of the case. */
    function RawValue(): string
    {
      match this
      case Sunset => "Sunset"
      case Ocean => "Ocean"
      case Forest => "Forest"
      case Cosmic => "Cosmic"
      case Minimal => "Minimal"
    }
  }

  /** `ProfileTheme.allCases`, in declaration order. */
  const AllThemes: seq<ProfileTheme> := [Sunset, Ocean, Forest, Cosmic, Minimal]

  lemma ThemeCases()
    ensures |AllThemes| == 5
    ensures forall t: ProfileTheme :: t in AllThemes
    ensures forall i, j :: 0 <= i < j < |AllThemes| ==> AllThemes[i].RawValue() != AllThemes[j].RawValue()
  {
    forall t: ProfileTheme ensures t in AllThemes {
      match t
      case Sunset => assert AllThemes[0] == t;
      case Ocean => assert AllThemes[1] == t;
      case Forest => assert AllThemes[2] == t;
      case Cosmic => assert AllThemes[3] == t;
      case Minimal => assert AllThemes[4] == t;
    }
  }

  datatype User = User(
    id: string,
    username: string,
    email: string,
    bio: string,
    profileTheme: ProfileTheme,
    interestTags: seq<string>,
    joinedCircleIDs: seq<string>,
    isGuest: bool,
    createdAt: nat)

  /** `User.guest()`, with the fresh identifier and the clock reading supplied. */
  function Guest(id: string, now: nat): (u: User)
    ensures u.isGuest
    ensures u.interestTags == [] && u.joinedCircleIDs == []
    ensures u.username == "Guest User" && u.email == "" && u.bio == "" && u.profileTheme == Minimal
    ensures u.id == id && u.createdAt == now
  {
    User(id, "Guest User", "", "", Minimal, [], [], true, now)
  }

  /** The account that `DataService.createUser` builds. */
  function NewUser(id: string, username: string, email: string, now: nat): (u: User)
    ensures !u.isGuest
    ensures u.bio == "" && u.interestTags == [] && u.joinedCircleIDs == [] && u.profileTheme == Minimal
    ensures u.id == id && u.username == username && u.email == email && u.createdAt == now
  {
    User(id, username, email, "", Minimal, [], [], false, now)
  }

  // -------------------------------------------------------------- circles

  datatype Circle = Circle(
    id: string,
    name: string,
    description: string,
    category: string,
    creatorID: string,
    memberIDs: seq<string>,
    postIDs: seq<string>,
    createdAt: nat,
    tags: seq<string>)
  {
    function MemberCount(): nat { |memberIDs| }
  }

  /** The circle that both stores' `createCircle` build: the creator is its only member. */
  function NewCircle(id: string, name: string, description: string, category: string,
                     tags: seq<string>, creatorID: string, now: nat): (c: Circle)
    ensures c.memberIDs == [creatorID] && c.postIDs == []
    ensures c.id == id && c.creatorID == creatorID && c.createdAt == now && c.tags == tags
    ensures c.name == name && c.description == description && c.category == category
  {
    Circle(id, name, description, category, creatorID, [creatorID], [], now, tags)
  }

  // ------------------------------------------------------ posts, reactions

  datatype ReactionType = Like | Love | Insightful | Funny
  {
    /** The emoji raw value of the case. */
    function RawValue(): string
    {
      match this
      case Like => "\U{1F44D}"
      case Love => "\U{2764}\U{FE0F}"
      case Insightful => "\U{1F4A1}"
      case Funny => "\U{1F604}"
    }
  }

  /** `ReactionType.allCases`. */
  const AllReactionTypes: seq<ReactionType> := [Like, Love, Insightful, Funny]

  /** The Swift field `type` is called `kind` here (`type` is a Dafny keyword). */
  datatype Reaction = Reaction(userID: string, kind: ReactionType, timestamp: nat)

  datatype Post = Post(
    id: string,
    authorID: string,
    circleID: string,
    content: string,
    title: string,
    reactions: seq<Reaction>,
    commentIDs: seq<string>,
    createdAt: nat)
  {
    /** `reactionCount(for:)`: the reactions of kind `t`. */
    function ReactionCount(t: ReactionType): (n: nat)
      ensures n <= |reactions|
    {
      CountOfKind(reactions, t)
    }

    /** The edit both stores make on `addReaction`: drop the user's reactions, then append the new one. */
    function WithReaction(userID: string, kind: ReactionType, now: nat): (p: Post)
      ensures ReactionsBy(p.reactions, userID) == [Reaction(userID, kind, now)]
      ensures |p.reactions| > 0 && p.reactions[|p.reactions| - 1] == Reaction(userID, kind, now)
      ensures ReactionsNotBy(p.reactions, userID) == ReactionsNotBy(reactions, userID)
      ensures forall u :: u != userID ==> ReactionsBy(p.reactions, u) == ReactionsBy(reactions, u)
      ensures p.(reactions := reactions) == this
    {
      var kept := ReactionsNotBy(reactions, userID);
      var r := Reaction(userID, kind, now);
      ReactionsByAppend(kept, r, userID);
      ReactionsNotByAppend(kept, r, userID);
      ReactionsNotByTwice(reactions, userID);
      ReactionsByNoneAfterRemoval(reactions, userID);
      forall u | u != userID
        ensures ReactionsBy(kept + [r], u) == ReactionsBy(reactions, u)
      {
        ReactionsByAppend(kept, r, u);
        ReactionsByOfNotBy(reactions, userID, u);
      }
      this.(reactions := kept + [r])
    }

    /** The edit both stores make on `removeReaction`: drop every reaction of the user. */
    function WithoutReactionsBy(userID: string): (p: Post)
      ensures ReactionsBy(p.reactions, userID) == []
      ensures ReactionsNotBy(p.reactions, userID) == ReactionsNotBy(reactions, userID)
      ensures forall u :: u != userID ==> ReactionsBy(p.reactions, u) == ReactionsBy(reactions, u)
      ensures p.(reactions := reactions) == this
    {
      ReactionsNotByTwice(reactions, userID);
      ReactionsByNoneAfterRemoval(reactions, userID);
      forall u | u != userID
        ensures ReactionsBy(ReactionsNotBy(reactions, userID), u) == ReactionsBy(reactions, u)
      {
        ReactionsByOfNotBy(reactions, userID, u);
      }
      this.(reactions := ReactionsNotBy(reactions, userID))
    }
  }

  /** The post that both stores' `createPost` build: no reactions and no comments yet. */
  function NewPost(id: string, authorID: string, circleID: string, title: string,
                   content: string, now: nat): (p: Post)
    ensures p.reactions == [] && p.commentIDs == []
    ensures p.id == id && p.authorID == authorID && p.circleID == circleID && p.createdAt == now
    ensures p.title == title && p.content == content
  {
    Post(id, authorID, circleID, content, title, [], [], now)
  }

  function CountOfKind(rs: seq<Reaction>, t: ReactionType): (n: nat)
    ensures n <= |rs|
  {
    if rs == [] then 0 else (if rs[0].kind == t then 1 else 0) + CountOfKind(rs[1..], t)
  }

  /** The kinds of the reactions, in order. */
  function Kinds(rs: seq<Reaction>): (ks: seq<ReactionType>)
    ensures |ks| == |rs| && forall i :: 0 <= i < |rs| ==> ks[i] == rs[i].kind
  {
    if rs == [] then [] else [rs[0].kind] + Kinds(rs[1..])
  }

  /** `reactions.filter { $0.userID == userID }`. */
  function ReactionsBy(rs: seq<Reaction>, userID: string): (r: seq<Reaction>)
    ensures forall x :: x in r <==> x in rs && x.userID == userID
  {
    if rs == [] then []
    else
      assert forall x :: x in rs <==> x == rs[0] || x in rs[1..];
      if rs[0].userID == userID then [rs[0]] + ReactionsBy(rs[1..], userID)
      else ReactionsBy(rs[1..], userID)
  }

  /** `reactions.removeAll(where: { $0.userID == userID })`. */
  function ReactionsNotBy(rs: seq<Reaction>, userID: string): (r: seq<Reaction>)
    ensures forall x :: x in r <==> x in rs && x.userID != userID
  {
    if rs == [] then []
    else
      assert forall x :: x in rs <==> x == rs[0] || x in rs[1..];
      if rs[0].userID == userID then ReactionsNotBy(rs[1..], userID)
      else [rs[0]] + ReactionsNotBy(rs[1..], userID)
  }

  /** The invariant the stores keep for every post: at most one reaction per user. */
  ghost predicate OneReactionPerUser(rs: seq<Reaction>)
  {
    forall u :: |ReactionsBy(rs, u)| <= 1
  }

  lemma {:induction false} ReactionsByAppend(rs: seq<Reaction>, r: Reaction, u: string)
    ensures ReactionsBy(rs + [r], u) == ReactionsBy(rs, u) + (if r.userID == u then [r] else [])
  {
    if rs == [] {
      assert [] + [r] == [r];
    } else {
      assert (rs + [r])[1..] == rs[1..] + [r];
      ReactionsByAppend(rs[1..], r, u);
    }
  }

  lemma {:induction false} ReactionsNotByAppend(rs: seq<Reaction>, r: Reaction, u: string)
    ensures ReactionsNotBy(rs + [r], u) == ReactionsNotBy(rs, u) + (if r.userID == u then [] else [r])
  {
    if rs == [] {
      assert [] + [r] == [r];
    } else {
      assert (rs + [r])[1..] == rs[1..] + [r];
      ReactionsNotByAppend(rs[1..], r, u);
    }
  }

  /** Removing one user's reactions leaves every other user's reactions as they were. */
  lemma {:induction false} ReactionsByOfNotBy(rs: seq<Reaction>, userID: string, u: string)
    ensures ReactionsBy(ReactionsNotBy(rs, userID), u) == if u == userID then [] else ReactionsBy(rs, u)
  {
    if rs != [] {
      ReactionsByOfNotBy(rs[1..], userID, u);
    }
  }

  lemma ReactionsByNoneAfterRemoval(rs: seq<Reaction>, userID: string)
    ensures ReactionsBy(ReactionsNotBy(rs, userID), userID) == []
  {
    ReactionsByOfNotBy(rs, userID, userID);
  }

  /** A user with no reaction on the list has nothing removed. */
  lemma {:induction false} ReactionsNotByAbsent(rs: seq<Reaction>, userID: string)
    requires ReactionsBy(rs, userID) == []
    ensures ReactionsNotBy(rs, userID) == rs
  {
    if rs != [] {
      assert rs[0] !in ReactionsBy(rs, userID) ==> rs[0].userID != userID;
      ReactionsNotByAbsent(rs[1..], userID);
      assert rs == [rs[0]] + rs[1..];
    }
  }

  lemma ReactionsNotByTwice(rs: seq<Reaction>, userID: string)
    ensures ReactionsNotBy(ReactionsNotBy(rs, userID), userID) == ReactionsNotBy(rs, userID)
  {
    ReactionsByNoneAfterRemoval(rs, userID);
    ReactionsNotByAbsent(ReactionsNotBy(rs, userID), userID);
  }

  /** Reaction uniqueness: both reaction edits keep at most one reaction per user. */
  lemma EditsKeepOneReactionPerUser(p: Post, userID: string, kind: ReactionType, now: nat)
    requires OneReactionPerUser(p.reactions)
    ensures OneReactionPerUser(p.WithReaction(userID, kind, now).reactions)
    ensures OneReactionPerUser(p.WithoutReactionsBy(userID).reactions)
  {
    var a, b := p.WithReaction(userID, kind, now), p.WithoutReactionsBy(userID);
    forall u ensures |ReactionsBy(a.reactions, u)| <= 1 && |ReactionsBy(b.reactions, u)| <= 1 {
      if u != userID {
        assert |ReactionsBy(p.reactions, u)| <= 1;
      }
    }
  }

  /** `reactionCount(t)` is the multiplicity of `t` among the reactions' kinds. */
  lemma {:induction false} ReactionCountIsMultiplicity(rs: seq<Reaction>, t: ReactionType)
    ensures CountOfKind(rs, t) == multiset(Kinds(rs))[t]
  {
    if rs != [] {
      ReactionCountIsMultiplicity(rs[1..], t);
      assert Kinds(rs) == [rs[0].kind] + Kinds(rs[1..]);
    }
  }

  /** The four per-kind counts add up to the number of reactions. */
  lemma {:induction false} ReactionCountsSum(p: Post)
    ensures p.ReactionCount(Like) + p.ReactionCount(Love) + p.ReactionCount(Insightful)
            + p.ReactionCount(Funny) == |p.reactions|
  {
    CountsSum(p.reactions);
  }

  lemma {:induction false} CountsSum(rs: seq<Reaction>)
    ensures CountOfKind(rs, Like) + CountOfKind(rs, Love) + CountOfKind(rs, Insightful)
            + CountOfKind(rs, Funny) == |rs|
  {
    if rs != [] {
      CountsSum(rs[1..]);
    }
  }

  /** Appending a reaction of kind `t` raises that count by one and no other. */
  lemma {:induction false} ReactionCountAppend(rs: seq<Reaction>, r: Reaction, t: ReactionType)
    ensures CountOfKind(rs + [r], t) == CountOfKind(rs, t) + (if r.kind == t then 1 else 0)
  {
    if rs == [] {
      assert [] + [r] == [r];
    } else {
      assert (rs + [r])[1..] == rs[1..] + [r];
      ReactionCountAppend(rs[1..], r, t);
    }
  }

  // ------------------------------------------------------------- comments

  datatype Comment = Comment(id: string, authorID: string, postID: string, content: string, createdAt: nat)

  /** The comment that both stores' `createComment` build. */
  function NewComment(id: string, authorID: string, postID: string, content: string, now: nat): (c: Comment)
    ensures c.id == id && c.authorID == authorID && c.postID == postID
    ensures c.content == content && c.createdAt == now
  {
    Comment(id, authorID, postID, content, now)
  }

  // ---------------------------------------------------------- connections

  /** A suggested connection. The program turns the two sets of shared ids into
      arrays of unspecified order; they are kept as sets here. */
  datatype Connection = Connection(
    id: string,
    userID: string,
    matchScore: int,
    commonCircles: set<string>,
    commonTags: set<string>)
}
