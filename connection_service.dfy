/** The interest-matching ranker. A candidate is every other non-guest user; its
    score is 10 per shared circle, 5 per shared interest tag and 3 per shared
    circle in which both users have posted. Candidates with a positive score are
    ranked by score, highest first, and cut to the limit. The program's scores are
    `Double`s holding small whole numbers; they are integers here. */
module Connections {
  import opened Seqs
  import opened Models
  import opened StoreOps

  /** `Set(s)`. */
  function ToSet(s: seq<string>): (r: set<string>)
    ensures forall x :: x in r <==> x in s
  {
    set x | x in s
  }

  /** The circles both users list, as a set. */
  function CommonCircles(a: User, b: User): (r: set<string>)
    ensures forall c :: c in r <==> c in a.joinedCircleIDs && c in b.joinedCircleIDs
  {
    ToSet(a.joinedCircleIDs) * ToSet(b.joinedCircleIDs)
  }

  /** The interest tags both users list, as a set. */
  function CommonTags(a: User, b: User): (r: set<string>)
    ensures forall t :: t in r <==> t in a.interestTags && t in b.interestTags
  {
    ToSet(a.interestTags) * ToSet(b.interestTags)
  }

  /** The posts an author wrote in a circle, in store order. */
  function PostsIn(posts: seq<Post>, authorID: string, circleID: string): (r: seq<Post>)
    ensures forall p :: p in r <==> p in posts && p.authorID == authorID && p.circleID == circleID
  {
    Filter(posts, (p: Post) => p.authorID == authorID && p.circleID == circleID)
  }

  /** Both users have posted in the circle. */
  predicate BothActive(posts: seq<Post>, a: User, b: User, circleID: string)
  {
    PostsIn(posts, a.id, circleID) != [] && PostsIn(posts, b.id, circleID) != []
  }

  /** The circles of `cs` in which both users have posted. */
  function ActiveAmong(posts: seq<Post>, a: User, b: User, cs: set<string>): (r: set<string>)
    ensures r <= cs
    ensures forall c :: c in r <==> c in cs && BothActive(posts, a, b, c)
  {
    set c | c in cs && BothActive(posts, a, b, c)
  }

  /** The score the ranker gives `b` as a match for `a`. */
  function MatchScore(posts: seq<Post>, a: User, b: User): (score: int)
  {
    10 * |CommonCircles(a, b)| + 5 * |CommonTags(a, b)|
      + 3 * |ActiveAmong(posts, a, b, CommonCircles(a, b))|
  }

  /** One more circle handled by the activity loop adds 3 exactly when both users posted there. */
  lemma ActiveAmongAdd(posts: seq<Post>, a: User, b: User, done: set<string>, c: string)
    requires c !in done
    ensures |ActiveAmong(posts, a, b, done + {c})|
            == |ActiveAmong(posts, a, b, done)| + (if BothActive(posts, a, b, c) then 1 else 0)
  {
    if BothActive(posts, a, b, c) {
      assert ActiveAmong(posts, a, b, done + {c}) == ActiveAmong(posts, a, b, done) + {c};
    } else {
      assert ActiveAmong(posts, a, b, done + {c}) == ActiveAmong(posts, a, b, done);
    }
  }

  /** `calculateMatchScore`. */
  method CalculateMatchScore(posts: seq<Post>, user1: User, user2: User) returns (score: int)
    ensures score == MatchScore(posts, user1, user2)
    ensures score >= 0
  {
    score := 0;
    var commonCircles := ToSet(user1.joinedCircleIDs) * ToSet(user2.joinedCircleIDs);
    score := score + |commonCircles| * 10;
    var commonTags := ToSet(user1.interestTags) * ToSet(user2.interestTags);
    score := score + |commonTags| * 5;
    var rest := commonCircles;
    ghost var done: set<string> := {};
    while rest != {}
      invariant rest + done == commonCircles && rest !! done
      invariant score == 10 * |commonCircles| + 5 * |commonTags| + 3 * |ActiveAmong(posts, user1, user2, done)|
      decreases |rest|
    {
      var circleID :| circleID in rest;
      var user1Posts := PostsIn(posts, user1.id, circleID);
      var user2Posts := PostsIn(posts, user2.id, circleID);
      ActiveAmongAdd(posts, user1, user2, done, circleID);
      if user1Posts != [] && user2Posts != [] {
        score := score + 3;
      }
      rest := rest - {circleID};
      done := done + {circleID};
    }
    assert done == commonCircles;
  }

  /** A match scores above zero exactly when the two users share a circle or an interest tag. */
  lemma ScorePositiveIff(posts: seq<Post>, a: User, b: User)
    ensures MatchScore(posts, a, b) > 0 <==>
              (exists c :: c in a.joinedCircleIDs && c in b.joinedCircleIDs)
              || (exists t :: t in a.interestTags && t in b.interestTags)
  {
    var cc := CommonCircles(a, b);
    if cc == {} {
      assert ActiveAmong(posts, a, b, cc) == {};
    } else {
      var c :| c in cc;
      assert c in a.joinedCircleIDs && c in b.joinedCircleIDs;
    }
    var ct := CommonTags(a, b);
    if ct != {} {
      var t :| t in ct;
      assert t in a.interestTags && t in b.interestTags;
    }
  }

  /** The score sees the users' circle and tag lists only as sets: repeated or
      reordered entries change nothing. */
  lemma ScoreSeesSetsOnly(posts: seq<Post>, a: User, b: User, a2: User, b2: User)
    requires a2.id == a.id && b2.id == b.id
    requires ToSet(a2.joinedCircleIDs) == ToSet(a.joinedCircleIDs) && ToSet(b2.joinedCircleIDs) == ToSet(b.joinedCircleIDs)
    requires ToSet(a2.interestTags) == ToSet(a.interestTags) && ToSet(b2.interestTags) == ToSet(b.interestTags)
    ensures MatchScore(posts, a2, b2) == MatchScore(posts, a, b)
  {
    assert CommonCircles(a2, b2) == CommonCircles(a, b);
    assert CommonTags(a2, b2) == CommonTags(a, b);
    assert ActiveAmong(posts, a2, b2, CommonCircles(a, b)) == ActiveAmong(posts, a, b, CommonCircles(a, b));
  }

  // ------------------------------------------------------------ ranking

  /** What the loop appends for the user at position `k`: nothing for the target
      itself, for a guest or for a zero score; otherwise one connection whose id
      `freshID(k)` stands for that iteration's `UUID()`. */
  function Candidate(posts: seq<Post>, me: User, userID: string, u: User, k: nat, freshID: nat -> string): seq<Connection>
  {
    if u.id == userID || u.isGuest then []
    else
      var score := MatchScore(posts, me, u);
      if score > 0 then [Connection(freshID(k), u.id, score, CommonCircles(me, u), CommonTags(me, u))] else []
  }

  /** The candidates from the first `|us|` users, in loop order. */
  function Candidates(posts: seq<Post>, me: User, userID: string, us: seq<User>, freshID: nat -> string): (r: seq<Connection>)
    decreases |us|
  {
    if us == [] then []
    else Candidates(posts, me, userID, us[..|us| - 1], freshID)
         + Candidate(posts, me, userID, us[|us| - 1], |us| - 1, freshID)
  }

  /** Every candidate is another, non-guest user, with its positive score and
      its shared circles and tags. */
  ghost predicate Eligible(posts: seq<Post>, me: User, userID: string, users: seq<User>, c: Connection)
  {
    exists i :: 0 <= i < |users| && users[i].id == c.userID
      && users[i].id != userID && !users[i].isGuest
      && c.matchScore == MatchScore(posts, me, users[i]) > 0
      && c.commonCircles == CommonCircles(me, users[i]) && c.commonTags == CommonTags(me, users[i])
  }

  lemma {:induction false} CandidatesEligible(posts: seq<Post>, me: User, userID: string, us: seq<User>, freshID: nat -> string)
    ensures forall c :: c in Candidates(posts, me, userID, us, freshID) ==> Eligible(posts, me, userID, us, c)
  {
    if us != [] {
      var init := us[..|us| - 1];
      CandidatesEligible(posts, me, userID, init, freshID);
      forall c | c in Candidates(posts, me, userID, us, freshID)
        ensures Eligible(posts, me, userID, us, c)
      {
        if c in Candidates(posts, me, userID, init, freshID) {
          var i :| 0 <= i < |init| && init[i].id == c.userID
                   && init[i].id != userID && !init[i].isGuest
                   && c.matchScore == MatchScore(posts, me, init[i]) > 0
                   && c.commonCircles == CommonCircles(me, init[i]) && c.commonTags == CommonTags(me, init[i]);
          assert us[i] == init[i];
        } else {
          assert us[|us| - 1].id == c.userID;
        }
      }
    }
  }

  /** Conversely, every other non-guest user with a positive score yields a candidate. */
  lemma {:induction false} CandidatesComplete(posts: seq<Post>, me: User, userID: string, us: seq<User>, freshID: nat -> string, i: nat)
    requires i < |us| && us[i].id != userID && !us[i].isGuest && MatchScore(posts, me, us[i]) > 0
    ensures Connection(freshID(i), us[i].id, MatchScore(posts, me, us[i]), CommonCircles(me, us[i]), CommonTags(me, us[i]))
              in Candidates(posts, me, userID, us, freshID)
  {
    var init := us[..|us| - 1];
    if i < |us| - 1 {
      assert init[i] == us[i];
      CandidatesComplete(posts, me, userID, init, freshID, i);
    }
  }

  /** Sort key for "matchScore descending". */
  function ScoreKey(c: Connection): int { -c.matchScore }

  /** The connections ordered by score, highest first. */
  ghost predicate BestFirst(cs: seq<Connection>)
  {
    forall i, j :: 0 <= i < j < |cs| ==> cs[i].matchScore >= cs[j].matchScore
  }

  /** `connections.sorted(by: { $0.matchScore > $1.matchScore }).prefix(limit)`: the
      result is ordered by score, highest first, holds at most `limit` of the
      candidates (with multiplicity), all of them when there are no more than
      `limit`, and every candidate left out scores no higher than every one kept. */
  function Ranked(cands: seq<Connection>, limit: nat): (r: seq<Connection>)
    ensures BestFirst(r)
    ensures |r| == if |cands| <= limit then |cands| else limit
    ensures multiset(r) <= multiset(cands)
    ensures forall c :: c in r ==> c in cands
    ensures |cands| <= limit ==> multiset(r) == multiset(cands)
    ensures forall x: Connection, y: Connection :: x in multiset(cands) - multiset(r) && y in r ==> x.matchScore <= y.matchScore
  {
    var sorted := SortBy(cands, ScoreKey);
    TakeOfSorted(sorted, limit, ScoreKey);
    Take(sorted, limit)
  }

  /** `suggestConnections`: nothing for an unknown user; otherwise the candidates
      ranked by score and cut to `limit`. */
  function Suggestions(users: seq<User>, posts: seq<Post>, userID: string, limit: nat, freshID: nat -> string): (r: seq<Connection>)
    ensures GetUser(users, userID).None? ==> r == []
    ensures |r| <= limit
    ensures BestFirst(r)
  {
    match GetUser(users, userID)
    case None => []
    case Some(me) => Ranked(Candidates(posts, me, userID, users, freshID), limit)
  }

  /** Every suggestion is another, non-guest user of the store, with a positive
      score and the circles and tags it shares with the target. */
  lemma SuggestionsEligible(users: seq<User>, posts: seq<Post>, userID: string, limit: nat, freshID: nat -> string)
    requires GetUser(users, userID).Some?
    ensures var me := GetUser(users, userID).value;
            forall c :: c in Suggestions(users, posts, userID, limit, freshID) ==>
              c.userID != userID && c.matchScore > 0 && Eligible(posts, me, userID, users, c)
  {
    var me := GetUser(users, userID).value;
    var cands := Candidates(posts, me, userID, users, freshID);
    CandidatesEligible(posts, me, userID, users, freshID);
    var r := Ranked(cands, limit);
    assert Suggestions(users, posts, userID, limit, freshID) == r;
    forall c | c in r
      ensures c.userID != userID && c.matchScore > 0 && Eligible(posts, me, userID, users, c)
    {
      assert Eligible(posts, me, userID, users, c);
      var i :| 0 <= i < |users| && users[i].id == c.userID
               && users[i].id != userID && !users[i].isGuest
               && c.matchScore == MatchScore(posts, me, users[i]) > 0
               && c.commonCircles == CommonCircles(me, users[i]) && c.commonTags == CommonTags(me, users[i]);
    }
  }

  /** `suggestConnections(for:limit:)`: a loop over the users builds the candidates,
      which are then ranked and cut. */
  method SuggestConnections(users: seq<User>, posts: seq<Post>, userID: string, limit: nat, freshID: nat -> string)
    returns (result: seq<Connection>)
    ensures result == Suggestions(users, posts, userID, limit, freshID)
  {
    var found := GetUser(users, userID);
    if found.None? {
      return [];
    }
    var currentUser := found.value;
    var connections: seq<Connection> := [];
    for i := 0 to |users|
      invariant connections == Candidates(posts, currentUser, userID, users[..i], freshID)
    {
      var user := users[i];
      assert users[..i + 1][..i] == users[..i];
      if user.id == userID || user.isGuest {
        continue;
      }
      var score := CalculateMatchScore(posts, currentUser, user);
      if score > 0 {
        var commonCircles := ToSet(currentUser.joinedCircleIDs) * ToSet(user.joinedCircleIDs);
        var commonTags := ToSet(currentUser.interestTags) * ToSet(user.interestTags);
        var connection := Connection(freshID(i), user.id, score, commonCircles, commonTags);
        connections := connections + [connection];
      }
    }
    assert users[..|users|] == users;
    result := Ranked(connections, limit);
  }
}
