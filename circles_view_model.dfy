/** The circle list screen's state: every circle, the signed-in user's circles,
    and the search text that filters the list. The locale-aware
    case-insensitive "contains" the program uses is a parameter `matches`
    (`matches(field, searchText)`). */
module CirclesViewModels {
  import opened Seqs
  import opened Models
  import opened StoreOps
  import opened DataServices
  import opened Auth

  /** A circle is shown for the search when its name, its description or one of its tags matches. */
  predicate Shown(c: Circle, searchText: string, matches: (string, string) -> bool)
  {
    matches(c.name, searchText) || matches(c.description, searchText)
      || exists i :: 0 <= i < |c.tags| && matches(c.tags[i], searchText)
  }

  /** `filteredCircles`: every circle for an empty search; otherwise, in order,
      exactly the circles shown for it. */
  function FilteredCircles(allCircles: seq<Circle>, searchText: string, matches: (string, string) -> bool): (r: seq<Circle>)
    ensures searchText == [] ==> r == allCircles
    ensures searchText != [] ==> Subseq(r, allCircles)
    ensures searchText != [] ==> forall c :: c in r <==> c in allCircles && Shown(c, searchText, matches)
    ensures searchText != [] ==>
              forall c :: multiset(r)[c] == if Shown(c, searchText, matches) then multiset(allCircles)[c] else 0
  {
    if searchText == [] then allCircles
    else
      FilterIsSubseq(allCircles, (c: Circle) => Shown(c, searchText, matches));
      FilterMultiset(allCircles, (c: Circle) => Shown(c, searchText, matches));
      Filter(allCircles, (c: Circle) => Shown(c, searchText, matches))
  }

  class CirclesViewModel {
    const store: DataService
    const auth: AuthService
    var allCircles: seq<Circle>
    var myCircles: seq<Circle>
    var searchText: string

    /** `init`: the lists are loaded once. */
    constructor(store: DataService, auth: AuthService)
      ensures this.store == store && this.auth == auth && searchText == ""
      ensures allCircles == store.circles
      ensures myCircles == if auth.currentUser.Some? then UserCircles(store.State(), auth.currentUser.value.id) else []
    {
      this.store := store;
      this.auth := auth;
      allCircles := store.circles;
      myCircles := [];
      searchText := "";
      new;
      if auth.currentUser.Some? {
        myCircles := UserCircles(store.State(), auth.currentUser.value.id);
      }
    }

    /** `loadCircles`: every circle, and, when someone is signed in, that user's circles. */
    method LoadCircles()
      modifies this
      ensures allCircles == store.circles
      ensures auth.currentUser.None? ==> myCircles == old(myCircles)
      ensures auth.currentUser.Some? ==> myCircles == UserCircles(store.State(), auth.currentUser.value.id)
      ensures searchText == old(searchText)
    {
      allCircles := store.circles;
      if auth.currentUser.None? {
        return;
      }
      var userID := auth.currentUser.value.id;
      myCircles := UserCircles(store.State(), userID);
    }

    /** `joinCircle`: nothing without a signed-in user; otherwise the store joins and the lists reload. */
    method JoinCircle(circle: Circle)
      modifies this, store
      ensures auth.currentUser.None? ==> store.State() == old(store.State()) && allCircles == old(allCircles) && myCircles == old(myCircles)
      ensures auth.currentUser.Some? ==>
                && store.State() == StoreOps.JoinCircle(old(store.State()), circle.id, auth.currentUser.value.id)
                && allCircles == store.circles
                && myCircles == UserCircles(store.State(), auth.currentUser.value.id)
      ensures searchText == old(searchText)
    {
      if auth.currentUser.None? {
        return;
      }
      var userID := auth.currentUser.value.id;
      store.JoinCircle(circle.id, userID);
      LoadCircles();
    }

    /** `leaveCircle`: nothing without a signed-in user; otherwise the store leaves and the lists reload. */
    method LeaveCircle(circle: Circle)
      modifies this, store
      ensures auth.currentUser.None? ==> store.State() == old(store.State()) && allCircles == old(allCircles) && myCircles == old(myCircles)
      ensures auth.currentUser.Some? ==>
                && store.State() == StoreOps.LeaveCircle(old(store.State()), circle.id, auth.currentUser.value.id)
                && allCircles == store.circles
                && myCircles == UserCircles(store.State(), auth.currentUser.value.id)
      ensures searchText == old(searchText)
    {
      if auth.currentUser.None? {
        return;
      }
      var userID := auth.currentUser.value.id;
      store.LeaveCircle(circle.id, userID);
      LoadCircles();
    }

    /** `isUserMember`: false when nobody is signed in; otherwise whether the circle lists the user. */
    function IsUserMember(circle: Circle): (r: bool)
      reads this, auth
      ensures r <==> auth.currentUser.Some? && auth.currentUser.value.id in circle.memberIDs
    {
      match auth.currentUser
      case None => false
      case Some(u) => u.id in circle.memberIDs
    }

    /** `createCircle`: nothing without a signed-in user; otherwise the store creates
        the circle with that user as creator and the lists reload, so the new circle
        is the last one listed. */
    method CreateCircle(name: string, description: string, category: string, tags: seq<string>,
                        newID: string, now: nat)
      modifies this, store
      ensures auth.currentUser.None? ==> store.State() == old(store.State()) && allCircles == old(allCircles) && myCircles == old(myCircles)
      ensures auth.currentUser.Some? ==>
                var c := NewCircle(newID, name, description, category, tags, auth.currentUser.value.id, now);
                && store.State() == AddCircle(old(store.State()), c)
                && allCircles == store.circles
                && |allCircles| > 0 && allCircles[|allCircles| - 1] == c
                && myCircles == UserCircles(store.State(), auth.currentUser.value.id)
      ensures searchText == old(searchText)
    {
      if auth.currentUser.None? {
        return;
      }
      var userID := auth.currentUser.value.id;
      var _ := store.CreateCircle(name, description, category, tags, userID, newID, now);
      LoadCircles();
    }
  }
}
