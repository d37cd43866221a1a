/** One circle's screen: its posts, newest first, and a cache of each post's
    comments keyed by post id. */
module CircleDetailViewModels {
  import opened Seqs
  import opened Models
  import opened StoreOps
  import opened DataServices
  import opened Auth
  import opened ReactionToggle

  /** The comment cache after the loop of `loadPosts` has visited `ps`, where
      `load(id)` is what the store answers for post `id`: every visited post's
      comments are cached under its id, no entry is dropped, and entries of posts
      not visited keep their old value. */
  function Cache(m: map<string, seq<Comment>>, load: string -> seq<Comment>, ps: seq<Post>): (r: map<string, seq<Comment>>)
    ensures forall p :: p in ps ==> p.id in r && r[p.id] == load(p.id)
    ensures forall k :: k in m ==> k in r
    ensures forall k :: k in r ==> k in m || exists p :: p in ps && p.id == k
    ensures forall k :: k in m && (forall p :: p in ps ==> p.id != k) ==> r[k] == m[k]
    decreases |ps|
  {
    if ps == [] then m
    else
      var init, last := ps[..|ps| - 1], ps[|ps| - 1];
      assert forall p :: p in ps <==> p in init || p == last;
      Cache(m, load, init)[last.id := load(last.id)]
  }

  /** The loop of `loadPosts`: `comments[post.id] = load(post.id)` for each post in turn. */
  method CacheComments(m: map<string, seq<Comment>>, load: string -> seq<Comment>, ps: seq<Post>)
    returns (r: map<string, seq<Comment>>)
    ensures r == Cache(m, load, ps)
  {
    r := m;
    for i := 0 to |ps|
      invariant r == Cache(m, load, ps[..i])
    {
      var post := ps[i];
      assert ps[..i + 1][..i] == ps[..i];
      r := r[post.id := load(post.id)];
    }
    assert ps[..|ps|] == ps;
  }

  class CircleDetailViewModel {
    const store: DataService
    const auth: AuthService
    const circle: Circle
    var posts: seq<Post>
    var comments: map<string, seq<Comment>>

    /** What a load leaves: the circle's posts, and every one of them with its comments cached. */
    ghost predicate Loaded()
      reads this, store
    {
      && posts == CirclePosts(store.posts, circle.id)
      && forall p :: p in posts ==> p.id in comments && comments[p.id] == PostComments(store.comments, p.id)
    }

    /** `init`: the posts are loaded once. */
    constructor(store: DataService, auth: AuthService, circle: Circle)
      ensures this.store == store && this.auth == auth && this.circle == circle
      ensures Loaded()
    {
      this.store := store;
      this.auth := auth;
      this.circle := circle;
      posts := [];
      comments := map[];
      new;
      LoadPosts();
    }

    /** `loadPosts`: the circle's posts replace the list, and each post's comments are
        (re)cached; entries of earlier loads stay. */
    method LoadPosts()
      modifies this
      ensures Loaded()
      ensures forall k :: k in old(comments) ==> k in comments
      ensures forall k :: k in comments ==> k in old(comments) || exists p :: p in posts && p.id == k
      ensures forall k :: k in old(comments) && (forall p :: p in posts ==> p.id != k) ==> comments[k] == old(comments)[k]
    {
      var all := store.comments;
      posts := CirclePosts(store.posts, circle.id);
      comments := CacheComments(comments, (id: string) => PostComments(all, id), posts);
    }

    /** `createPost`: nothing without a signed-in user; otherwise the store creates
        the post in this circle and the screen reloads. */
    method CreatePost(title: string, content: string, newID: string, now: nat)
      modifies this, store
      ensures auth.currentUser.None? ==> store.State() == old(store.State()) && posts == old(posts) && comments == old(comments)
      ensures auth.currentUser.Some? ==>
                && store.State() == AddPost(old(store.State()), NewPost(newID, auth.currentUser.value.id, circle.id, title, content, now))
                && Loaded()
    {
      if auth.currentUser.None? {
        return;
      }
      var userID := auth.currentUser.value.id;
      var _ := store.CreatePost(title, content, circle.id, userID, newID, now);
      LoadPosts();
    }

    /** `addComment`: nothing without a signed-in user; otherwise the store creates
        the comment and the screen reloads. */
    method AddComment(postID: string, content: string, newID: string, now: nat)
      modifies this, store
      ensures auth.currentUser.None? ==> store.State() == old(store.State()) && posts == old(posts) && comments == old(comments)
      ensures auth.currentUser.Some? ==>
                && store.State() == StoreOps.AddComment(old(store.State()), NewComment(newID, auth.currentUser.value.id, postID, content, now))
                && Loaded()
    {
      if auth.currentUser.None? {
        return;
      }
      var userID := auth.currentUser.value.id;
      var _ := store.CreateComment(postID, userID, content, newID, now);
      LoadPosts();
    }

    /** `toggleReaction`: nothing without a signed-in user; otherwise the toggle rule
        runs on the store and the screen reloads. */
    method ToggleReaction(postID: string, kind: ReactionType, now: nat)
      modifies this, store
      ensures auth.currentUser.None? ==> store.State() == old(store.State()) && posts == old(posts) && comments == old(comments)
      ensures auth.currentUser.Some? ==>
                store.State() == Toggle(old(store.State()), postID, auth.currentUser.value.id, kind, now) && Loaded()
    {
      if auth.currentUser.None? {
        return;
      }
      var userID := auth.currentUser.value.id;
      ApplyToggle(store, postID, userID, kind, now);
      LoadPosts();
    }

    /** `getUserReaction`: nothing without a signed-in user; otherwise the user's reaction on the post. */
    function GetUserReaction(postID: string): (r: Option<ReactionType>)
      reads this, auth, store
      ensures auth.currentUser.None? ==> r.None?
      ensures auth.currentUser.Some? ==> r == UserReaction(store.posts, postID, auth.currentUser.value.id)
    {
      match auth.currentUser
      case None => None
      case Some(u) => UserReaction(store.posts, postID, u.id)
    }
  }
}
