/** The home screen: the signed-in user's feed and up to five suggested connections. */
module HomeViewModels {
  import opened Seqs
  import opened Models
  import opened StoreOps
  import opened DataServices
  import opened Auth
  import opened Connections
  import opened ReactionToggle

  /** How many suggestions the home screen asks for. */
  const SuggestionLimit: nat := 5

  class HomeViewModel {
    const store: DataService
    const auth: AuthService
    var feedPosts: seq<Post>
    var suggestedConnections: seq<Connection>
    var isLoadingPosts: bool

    /** `init`: the feed and the suggestions are loaded once. */
    constructor(store: DataService, auth: AuthService, freshID: nat -> string)
      ensures this.store == store && this.auth == auth && !isLoadingPosts
      ensures auth.currentUser.None? ==> feedPosts == [] && suggestedConnections == []
      ensures auth.currentUser.Some? ==>
                && feedPosts == FeedPosts(store.State(), auth.currentUser.value.id)
                && suggestedConnections == Suggestions(store.users, store.posts, auth.currentUser.value.id, SuggestionLimit, freshID)
    {
      this.store := store;
      this.auth := auth;
      feedPosts := [];
      suggestedConnections := [];
      isLoadingPosts := false;
      new;
      LoadFeed();
      LoadSuggestedConnections(freshID);
    }

    /** `loadFeed`: nothing without a signed-in user; otherwise the user's feed, with
        the loading flag raised during the query and lowered after it. */
    method LoadFeed()
      modifies this
      ensures auth.currentUser.None? ==> feedPosts == old(feedPosts) && isLoadingPosts == old(isLoadingPosts)
      ensures auth.currentUser.Some? ==> feedPosts == FeedPosts(store.State(), auth.currentUser.value.id) && !isLoadingPosts
      ensures suggestedConnections == old(suggestedConnections)
    {
      if auth.currentUser.None? {
        return;
      }
      var userID := auth.currentUser.value.id;
      isLoadingPosts := true;
      feedPosts := FeedPosts(store.State(), userID);
      isLoadingPosts := false;
    }

    /** `loadSuggestedConnections`: nothing without a signed-in user; otherwise the
        ranker's answer with limit 5. */
    method LoadSuggestedConnections(freshID: nat -> string)
      modifies this
      ensures auth.currentUser.None? ==> suggestedConnections == old(suggestedConnections)
      ensures auth.currentUser.Some? ==>
                suggestedConnections == Suggestions(store.users, store.posts, auth.currentUser.value.id, SuggestionLimit, freshID)
      ensures |suggestedConnections| <= SuggestionLimit || suggestedConnections == old(suggestedConnections)
      ensures feedPosts == old(feedPosts) && isLoadingPosts == old(isLoadingPosts)
    {
      if auth.currentUser.None? {
        return;
      }
      var userID := auth.currentUser.value.id;
      suggestedConnections := SuggestConnections(store.users, store.posts, userID, SuggestionLimit, freshID);
    }

    /** `toggleReaction`: nothing without a signed-in user; otherwise the toggle rule
        runs on the store and the feed reloads. */
    method ToggleReaction(postID: string, kind: ReactionType, now: nat)
      modifies this, store
      ensures auth.currentUser.None? ==>
                store.State() == old(store.State()) && feedPosts == old(feedPosts) && isLoadingPosts == old(isLoadingPosts)
      ensures auth.currentUser.Some? ==>
                && store.State() == Toggle(old(store.State()), postID, auth.currentUser.value.id, kind, now)
                && feedPosts == FeedPosts(store.State(), auth.currentUser.value.id) && !isLoadingPosts
      ensures suggestedConnections == old(suggestedConnections)
    {
      if auth.currentUser.None? {
        return;
      }
      var userID := auth.currentUser.value.id;
      ApplyToggle(store, postID, userID, kind, now);
      LoadFeed();
    }

    /** `getUserReaction`: nothing without a signed-in user; otherwise the user's reaction on the post. */
    function GetUserReaction(postID: string): (r: Option<ReactionType>)
      reads this, auth, store
      ensures auth.currentUser.None? ==> r.None?
      ensures auth.currentUser.Some? ==> r == UserReaction(store.posts, postID, auth.currentUser.value.id)
    {
      match auth.currentUser
      case None => None
      case Some(u) => UserReaction(store.posts, postID, u.id)
    }
  }
}
