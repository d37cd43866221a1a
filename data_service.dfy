/** The local store: an object holding four tables that its commands edit in place.
    Every command is proved to leave exactly the state the matching `StoreOps`
    function describes, so what `StoreProps` proves about those functions holds
    for the object. `UUID()` and `Date()` are parameters (`newID`, `now`). */
module DataServices {
  import opened Seqs
  import opened Models
  import opened StoreOps

  class DataService {
    var users: seq<User>
    var circles: seq<Circle>
    var posts: seq<Post>
    var comments: seq<Comment>

    /** The four tables as one value. */
    function State(): Store
      reads this
    {
      Store(users, circles, posts, comments)
    }

    /** `init`: each table is what storage holds under its key, or empty when the key
        is missing or does not decode; with no circles, the defaults are seeded. */
    constructor(storedUsers: Option<seq<User>>, storedCircles: Option<seq<Circle>>,
                storedPosts: Option<seq<Post>>, storedComments: Option<seq<Comment>>,
                freshID: nat -> string, now: nat)
      ensures users == (if storedUsers.Some? then storedUsers.value else [])
      ensures posts == (if storedPosts.Some? then storedPosts.value else [])
      ensures comments == (if storedComments.Some? then storedComments.value else [])
      ensures circles == if storedCircles.Some? && storedCircles.value != [] then storedCircles.value
                         else DefaultCircles(freshID, now)
    {
      var loaded := if storedCircles.Some? then storedCircles.value else [];
      if |loaded| == 0 {
        loaded := DefaultCircles(freshID, now);
      }
      users := if storedUsers.Some? then storedUsers.value else [];
      circles := loaded;
      posts := if storedPosts.Some? then storedPosts.value else [];
      comments := if storedComments.Some? then storedComments.value else [];
    }

    /** `clearAllData`: everything is dropped and the default circles are seeded again. */
    method ClearAllData(freshID: nat -> string, now: nat)
      modifies this
      ensures State() == Cleared(freshID, now)
    {
      users := [];
      circles := [];
      posts := [];
      comments := [];
      circles := DefaultCircles(freshID, now);
    }

    /** `createUser`: a fresh non-guest user is appended and returned. */
    method CreateUser(username: string, email: string, newID: string, now: nat) returns (user: User)
      modifies this
      ensures user == NewUser(newID, username, email, now)
      ensures State() == AddUser(old(State()), user)
    {
      user := NewUser(newID, username, email, now);
      users := users + [user];
    }

    /** `updateUser`: the first user with the same id is overwritten. */
    method UpdateUser(user: User)
      modifies this
      ensures State() == StoreOps.UpdateUser(old(State()), user)
    {
      var found := UserIndex(users, user.id);
      if found.Some? {
        users := users[found.value := user];
      }
    }

    /** `createCircle`: the creator is the only member; the creator's own joined
        circles are not touched. */
    method CreateCircle(name: string, description: string, category: string, tags: seq<string>,
                        creatorID: string, newID: string, now: nat) returns (circle: Circle)
      modifies this
      ensures circle == NewCircle(newID, name, description, category, tags, creatorID, now)
      ensures State() == AddCircle(old(State()), circle)
    {
      circle := NewCircle(newID, name, description, category, tags, creatorID, now);
      circles := circles + [circle];
    }

    /** `joinCircle`. */
    method JoinCircle(circleID: string, userID: string)
      modifies this
      ensures State() == StoreOps.JoinCircle(old(State()), circleID, userID)
    {
      var ci := CircleIndex(circles, circleID);
      if ci.Some? {
        var i := ci.value;
        if userID !in circles[i].memberIDs {
          circles := circles[i := circles[i].(memberIDs := circles[i].memberIDs + [userID])];
        }
        var ui := UserIndex(users, userID);
        if ui.Some? {
          var j := ui.value;
          if circleID !in users[j].joinedCircleIDs {
            users := users[j := users[j].(joinedCircleIDs := users[j].joinedCircleIDs + [circleID])];
          }
        }
      }
    }

    /** `leaveCircle`: the circle side and the user side are edited independently. */
    method LeaveCircle(circleID: string, userID: string)
      modifies this
      ensures State() == StoreOps.LeaveCircle(old(State()), circleID, userID)
    {
      var ci := CircleIndex(circles, circleID);
      if ci.Some? {
        circles := circles[ci.value := circles[ci.value].(memberIDs := RemoveAll(circles[ci.value].memberIDs, userID))];
      }
      var ui := UserIndex(users, userID);
      if ui.Some? {
        users := users[ui.value := users[ui.value].(joinedCircleIDs := RemoveAll(users[ui.value].joinedCircleIDs, circleID))];
      }
    }

    /** `createPost`: the post is appended, then its id is listed by its circle when that exists. */
    method CreatePost(title: string, content: string, circleID: string, authorID: string,
                      newID: string, now: nat) returns (post: Post)
      modifies this
      ensures post == NewPost(newID, authorID, circleID, title, content, now)
      ensures State() == AddPost(old(State()), post)
    {
      post := NewPost(newID, authorID, circleID, title, content, now);
      posts := posts + [post];
      var ci := CircleIndex(circles, circleID);
      if ci.Some? {
        circles := circles[ci.value := circles[ci.value].(postIDs := circles[ci.value].postIDs + [post.id])];
      }
    }

    /** `addReaction`: the user's reactions on the post are removed, then the new one is appended. */
    method AddReaction(postID: string, userID: string, kind: ReactionType, now: nat)
      modifies this
      ensures State() == StoreOps.AddReaction(old(State()), postID, userID, kind, now)
    {
      var pi := PostIndex(posts, postID);
      if pi.Some? {
        var i := pi.value;
        posts := posts[i := posts[i].(reactions := ReactionsNotBy(posts[i].reactions, userID))];
        posts := posts[i := posts[i].(reactions := posts[i].reactions + [Reaction(userID, kind, now)])];
      }
    }

    /** `removeReaction`. */
    method RemoveReaction(postID: string, userID: string)
      modifies this
      ensures State() == StoreOps.RemoveReaction(old(State()), postID, userID)
    {
      var pi := PostIndex(posts, postID);
      if pi.Some? {
        posts := posts[pi.value := posts[pi.value].(reactions := ReactionsNotBy(posts[pi.value].reactions, userID))];
      }
    }

    /** `createComment`: the comment is appended, then its id is listed by its post when that exists. */
    method CreateComment(postID: string, authorID: string, content: string,
                         newID: string, now: nat) returns (comment: Comment)
      modifies this
      ensures comment == NewComment(newID, authorID, postID, content, now)
      ensures State() == AddComment(old(State()), comment)
    {
      comment := NewComment(newID, authorID, postID, content, now);
      comments := comments + [comment];
      var pi := PostIndex(posts, postID);
      if pi.Some? {
        posts := posts[pi.value := posts[pi.value].(commentIDs := posts[pi.value].commentIDs + [comment.id])];
      }
    }
  }
}
