/** The session: who is signed in, the id kept in app storage, and whether
    onboarding is done. The two stored values are fields (their persistence is
    not modelled); the signed-in user is looked up in the local store. */
module Auth {
  import opened Seqs
  import opened Models
  import opened StoreOps
  import opened DataServices

  class AuthService {
    const store: DataService
    var hasCompletedOnboarding: bool
    var currentUserID: string
    var currentUser: Option<User>

    /** The session invariant: a signed-in user is the one whose id is stored. */
    ghost predicate Valid()
      reads this
    {
      currentUser.Some? ==> currentUserID == currentUser.value.id
    }

    /** `init`: the stored id, when not empty, is looked up; an unknown id leaves
        nobody signed in. */
    constructor(store: DataService, storedOnboarding: bool, storedUserID: string)
      ensures this.store == store
      ensures hasCompletedOnboarding == storedOnboarding && currentUserID == storedUserID
      ensures currentUser == if storedUserID == "" then None else GetUser(store.users, storedUserID)
      ensures Valid()
    {
      this.store := store;
      hasCompletedOnboarding := storedOnboarding;
      currentUserID := storedUserID;
      currentUser := None;
      new;
      if currentUserID != "" {
        currentUser := GetUser(store.users, currentUserID);
      }
    }

    /** `signUpWithEmail`: the store creates the user, who becomes the signed-in user. */
    method SignUpWithEmail(username: string, email: string, newID: string, now: nat)
      modifies this, store
      ensures currentUser == Some(NewUser(newID, username, email, now))
      ensures currentUserID == newID && hasCompletedOnboarding
      ensures store.State() == AddUser(old(store.State()), NewUser(newID, username, email, now))
      ensures Valid()
    {
      var user := store.CreateUser(username, email, newID, now);
      currentUser := Some(user);
      currentUserID := user.id;
      hasCompletedOnboarding := true;
    }

    /** `continueAsGuest`: a guest is appended to the store's users and signed in. */
    method ContinueAsGuest(newID: string, now: nat)
      modifies this, store
      ensures currentUser == Some(Guest(newID, now))
      ensures currentUserID == newID && hasCompletedOnboarding
      ensures store.State() == AddUser(old(store.State()), Guest(newID, now))
      ensures Valid()
    {
      var user := Guest(newID, now);
      store.users := store.users + [user];
      currentUser := Some(user);
      currentUserID := user.id;
      hasCompletedOnboarding := true;
    }

    /** `logout`: the session is cleared; the store is not touched. */
    method Logout()
      modifies this
      ensures currentUser == None && currentUserID == "" && !hasCompletedOnboarding
      ensures Valid()
    {
      currentUser := None;
      currentUserID := "";
      hasCompletedOnboarding := false;
    }

    /** `deleteAccount`: the store is reset to the default circles, then the session is cleared. */
    method DeleteAccount(freshID: nat -> string, now: nat)
      modifies this, store
      ensures store.State() == Cleared(freshID, now)
      ensures currentUser == None && currentUserID == "" && !hasCompletedOnboarding
      ensures Valid()
    {
      store.ClearAllData(freshID, now);
      currentUser := None;
      currentUserID := "";
      hasCompletedOnboarding := false;
    }
  }
}
