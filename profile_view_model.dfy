/** The profile screen: the signed-in user, the posts they wrote, the circles they
    joined, and the profile editor. */
module ProfileViewModels {
  import opened Seqs
  import opened Models
  import opened StoreOps
  import opened DataServices
  import opened Auth

  /** The posts the user wrote, newest first (with their multiplicities). */
  function AuthoredPosts(posts: seq<Post>, userID: string): (r: seq<Post>)
    ensures NewestFirst(r)
    ensures forall p :: multiset(r)[p] == if p.authorID == userID then multiset(posts)[p] else 0
    ensures forall p :: p in r <==> p in posts && p.authorID == userID
  {
    NewestFirstFiltered(posts, (p: Post) => p.authorID == userID)
  }

  /** The profile edit: the four editable fields are replaced and every other field is kept. */
  function EditedProfile(u: User, username: string, bio: string, theme: ProfileTheme, tags: seq<string>): (r: User)
    ensures r.username == username && r.bio == bio && r.profileTheme == theme && r.interestTags == tags
    ensures r.id == u.id && r.email == u.email && r.joinedCircleIDs == u.joinedCircleIDs
    ensures r.isGuest == u.isGuest && r.createdAt == u.createdAt
  {
    u.(username := username, bio := bio, profileTheme := theme, interestTags := tags)
  }

  class ProfileViewModel {
    const store: DataService
    const auth: AuthService
    var user: Option<User>
    var userPosts: seq<Post>
    var userCircles: seq<Circle>

    /** `init`: the profile is loaded once. */
    constructor(store: DataService, auth: AuthService)
      ensures this.store == store && this.auth == auth && user == auth.currentUser
      ensures user.None? ==> userPosts == [] && userCircles == []
      ensures user.Some? ==>
                userPosts == AuthoredPosts(store.posts, user.value.id) && userCircles == UserCircles(store.State(), user.value.id)
    {
      this.store := store;
      this.auth := auth;
      user := None;
      userPosts := [];
      userCircles := [];
      new;
      LoadUserData();
    }

    /** `loadUserData`: the signed-in user is taken from the session; when there is
        one, that user's posts and circles are loaded, otherwise the lists are kept. */
    method LoadUserData()
      modifies this
      ensures user == auth.currentUser
      ensures user.None? ==> userPosts == old(userPosts) && userCircles == old(userCircles)
      ensures user.Some? ==>
                userPosts == AuthoredPosts(store.posts, user.value.id) && userCircles == UserCircles(store.State(), user.value.id)
    {
      user := auth.currentUser;
      if user.None? {
        return;
      }
      var userID := user.value.id;
      userPosts := AuthoredPosts(store.posts, userID);
      userCircles := UserCircles(store.State(), userID);
    }

    /** `updateProfile`: nothing when no user is loaded; otherwise the edited copy is
        written to the store (replacing the entry with its id, if any) and becomes
        both this screen's user and the session's current user. */
    method UpdateProfile(username: string, bio: string, theme: ProfileTheme, tags: seq<string>)
      modifies this, store, auth
      ensures old(user).None? ==>
                user == old(user) && store.State() == old(store.State()) && auth.currentUser == old(auth.currentUser)
      ensures old(user).Some? ==>
                var edited := EditedProfile(old(user).value, username, bio, theme, tags);
                && store.State() == StoreOps.UpdateUser(old(store.State()), edited)
                && auth.currentUser == Some(edited) && user == Some(edited)
      ensures auth.currentUserID == old(auth.currentUserID) && auth.hasCompletedOnboarding == old(auth.hasCompletedOnboarding)
      ensures userPosts == old(userPosts) && userCircles == old(userCircles)
    {
      if user.None? {
        return;
      }
      var edited := user.value;
      edited := edited.(username := username);
      edited := edited.(bio := bio);
      edited := edited.(profileTheme := theme);
      edited := edited.(interestTags := tags);
      store.UpdateUser(edited);
      auth.currentUser := Some(edited);
      user := Some(edited);
    }
  }
}
