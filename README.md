# ConnectoSphere social-graph core in Dafny

ConnectoSphere is an iOS social app. People join interest *circles*, write
*posts* in them, react with one of four emoji *reactions*, comment, and are
shown suggested *connections* to other people with shared interests. This
project models the app's data layer and the state it drives:

- **The local store (`DataService`).** It holds four tables: users, circles,
  posts and comments. `StoreOps` gives its commands and queries as functions
  on a `Store` value (`store_ops.dfy`). The class `DataServices.DataService`
  keeps the four tables as fields; each of its methods updates them exactly as
  the matching `StoreOps` function describes (`data_service.dfy`).
  `StoreProps` proves what those edits preserve (`store_props.dfy`):
  - membership consistency between circles and users;
  - idempotence of join and leave;
  - one reaction per user;
  - links from comments to posts and from posts to circles.
- **The cloud twin (`FirebaseDataService`).** Its transaction mutators, reaction
  edits, snapshot handlers and query helpers are modelled
  (`firebase_data_service.dfy`). One difference from the local store is
  proved: the cloud store decides "my circles" from the circle's member list,
  while the local store uses the user's list of joined circles.
- **The connection ranker (`ConnectionService`).** It has the match score
  (10 per shared circle, 5 per shared interest tag, 3 per shared circle where
  both users posted), the candidate loop and the ranking by score
  (`connection_service.dfy`). The function `MatchScore` is that closed form;
  the loop of `CalculateMatchScore` is proved to compute it.
- **The session (`AuthService`).** It covers sign up, guest, logout, delete
  account and restoring the session at launch (`auth_service.dfy`).
- **The four view models (`CirclesViewModel`, `CircleDetailViewModel`,
  `HomeViewModel`, `ProfileViewModel`).** They are classes over the store and
  the session. Both feed screens share one reaction-toggle rule
  (`reaction_toggle.dfy`).
- **Record types and small pure parts.** `models.dfy` has the record types,
  `reactionCount` and the guest factory. `app_colors.dfy` has the integer part
  of the hex colour parser and the palette.

Conventions:
- A fresh `UUID()` is a caller-supplied string. Where a command needs several,
  it is a function `freshID: nat -> string`.
- `Date()` is a caller-supplied natural number `now`. `createDefaultCircles` calls
  `Date()` once per circle; the model stamps all five circles with one `now`.
  No query orders circles by time.
- Saving to and loading from device storage is not modelled. The stored values
  are constructor parameters.
- Reactions store their Swift field `type` as `kind`, because `type` is a Dafny
  keyword.
- Sorting by `createdAt` or by score is specified only as "the same multiset in
  non-increasing (or non-decreasing) key order". The Swift sort is not stable,
  and the model picks no tie-break.
- `firstIndex(where:)` edits reach only the first entry with a matching id.
  Properties that need unique ids state so as a precondition (`UniqueIDs`).

## Model

| member | source | states |
|---|---|---|
| Models.Guest | ConnectoSphere/Models/User.swift:27-39 | the guest is a guest account named "Guest User" with empty email, bio, tags and joined circles, the minimal theme, and the given id and time |
| Models.ThemeCases | ConnectoSphere/Models/User.swift:19-25 | there are exactly five profile themes (Sunset, Ocean, Forest, Cosmic, Minimal) and their raw values are pairwise distinct |
| Models.NewUser | ConnectoSphere/Services/DataService.swift:70-81 | an email sign-up builds a non-guest account with empty bio, tags and joined circles, the minimal theme and the given name, email, id and time |
| Models.NewCircle | ConnectoSphere/Services/DataService.swift:100-111 | a new circle lists its creator as its only member and has no posts; the cloud store's `createCircle` builds the same circle |
| Models.NewPost | ConnectoSphere/Services/DataService.swift:148-158 | a new post has no reactions and no comment ids, with the given author, circle, title, content, id and time; the cloud store's `createPost` builds the same post |
| Models.NewComment | ConnectoSphere/Firebase/FirebaseDataService.swift:275-281 | both stores build the comment from the given id, author, post, text and time |
| Models.Post.ReactionCount | ConnectoSphere/Models/Post.swift:19-21 | the count of a kind is at most the number of reactions |
| Models.ReactionCountIsMultiplicity | ConnectoSphere/Models/Post.swift:19-21 | the count of a kind equals how many reactions carry that kind |
| Models.ReactionCountsSum | ConnectoSphere/Models/Post.swift:19-35 | summed over the four reaction kinds, the counts equal the number of reactions |
| Models.ReactionCountAppend | ConnectoSphere/Models/Post.swift:19-21 | appending a reaction of kind t raises t's count by one and leaves every other kind's count unchanged |
| Models.Post.WithReaction | ConnectoSphere/Services/DataService.swift:171-175 | after the edit the user has exactly one reaction on the post, the given one, and it is last; other users' reactions keep their order |
| Models.Post.WithoutReactionsBy | ConnectoSphere/Services/DataService.swift:182 | the edit drops every reaction by the user and keeps every other reaction in order |
| Models.ReactionsByAppend | ConnectoSphere/Services/DataService.swift:172-175 | a user's reactions after an append are the old ones plus the new one if it is theirs |
| Models.ReactionsNotByAppend | ConnectoSphere/Services/DataService.swift:172-175 | other users' reactions after an append are the old ones plus the new one if it is not the user's |
| Models.ReactionsByOfNotBy | ConnectoSphere/Services/DataService.swift:172 | after removing user a's reactions, user b keeps all of theirs when b differs from a |
| Models.ReactionsByNoneAfterRemoval | ConnectoSphere/Services/DataService.swift:182 | after removal the user has no reactions left |
| Models.ReactionsNotByAbsent | ConnectoSphere/Services/DataService.swift:182 | removing the reactions of a user who has none changes nothing |
| Models.ReactionsNotByTwice | ConnectoSphere/Services/DataService.swift:182 | removing a user's reactions twice is removing them once |
| Models.EditsKeepOneReactionPerUser | ConnectoSphere/Services/DataService.swift:169-185 | both reaction edits keep "at most one reaction per user" |
| StoreOps.UserIndex | ConnectoSphere/Services/DataService.swift:88 | the index found holds the id, and no earlier entry does; none is found exactly when no entry has the id |
| StoreOps.CircleIndex | ConnectoSphere/Services/DataService.swift:118 | the index found holds the id, and no earlier entry does; none is found exactly when no entry has the id |
| StoreOps.PostIndex | ConnectoSphere/Services/DataService.swift:170 | the index found holds the id, and no earlier entry does; none is found exactly when no entry has the id |
| StoreOps.GetUser | ConnectoSphere/Services/DataService.swift:94-96 | the user found is in the table with that id; nothing is found exactly when no user has the id |
| StoreOps.AddUser | ConnectoSphere/Services/DataService.swift:82 | the user is appended and the other tables are unchanged |
| StoreOps.UpdateUser | ConnectoSphere/Services/DataService.swift:87-92 | the first user with that id is replaced and every other entry is kept; an unknown id leaves the store unchanged |
| StoreOps.AddCircle | ConnectoSphere/Services/DataService.swift:112 | the circle is appended and the other tables are unchanged |
| StoreOps.JoinCircle | ConnectoSphere/Services/DataService.swift:117-129 | an unknown circle changes nothing; otherwise the user id is added to the circle's members unless present, and the circle id to an existing user's joined list unless present |
| StoreOps.JoinUser | ConnectoSphere/Services/DataService.swift:122-126 | the first user with the id gets the circle id unless present; an unknown user leaves the table unchanged |
| StoreOps.LeaveCircle | ConnectoSphere/Services/DataService.swift:131-139 | every occurrence of the user leaves an existing circle's members and every occurrence of the circle leaves an existing user's list, each side independently of the other |
| StoreOps.UserCircles | ConnectoSphere/Services/DataService.swift:141-144 | nothing for an unknown user; otherwise exactly the circles, in order and with their multiplicity, whose id the user's joined list holds |
| StoreOps.AddPost | ConnectoSphere/Services/DataService.swift:159-163 | the post is appended and its id is appended to its circle's post ids when that circle exists |
| StoreOps.AddReaction | ConnectoSphere/Services/DataService.swift:169-178 | an unknown post changes nothing; otherwise only that post changes, by the one-reaction-per-user edit |
| StoreOps.RemoveReaction | ConnectoSphere/Services/DataService.swift:180-185 | an unknown post changes nothing; otherwise only that post changes, losing the user's reactions |
| StoreOps.NewestFirstFiltered | ConnectoSphere/ViewModels/ProfileViewModel.swift:25-27 | exactly the kept posts with their multiplicities, newest first |
| StoreOps.CirclePosts | ConnectoSphere/Services/DataService.swift:187-189 | exactly the circle's posts with their multiplicities, newest first; the cloud store's `getCirclePosts` is the same query |
| StoreOps.FeedPosts | ConnectoSphere/Services/DataService.swift:191-196 | nothing for an unknown user; otherwise exactly the posts in the user's joined circles with their multiplicities, newest first |
| StoreOps.AddComment | ConnectoSphere/Services/DataService.swift:207-212 | the comment is appended and its id is appended to its post's comment ids when that post exists |
| StoreOps.PostComments | ConnectoSphere/Services/DataService.swift:218-220 | exactly the post's comments with their multiplicities, oldest first; the cloud store's `getPostComments` is the same query |
| StoreOps.DefaultCircles | ConnectoSphere/Services/DataService.swift:224-281 | five circles created by "system" with fresh ids, no members and no posts, each with the program's name, description, category and tags |
| StoreOps.Cleared | ConnectoSphere/Services/DataService.swift:56-66 | no users, posts or comments, and exactly five circles, each with no members and no posts |
| StoreProps.SamePostIDs | ConnectoSphere/Services/DataService.swift:170 | tables with the same ids in the same order find the same post |
| StoreProps.PostIndexAppend | ConnectoSphere/Services/DataService.swift:159 | appending a post does not move an existing id's first index |
| StoreProps.JoinLeavesMembership | ConnectoSphere/Services/DataService.swift:117-129 | after joining an existing circle the user is a member, the member list grew by at most one, and an existing user lists the circle |
| StoreProps.JoinIdempotent | ConnectoSphere/Services/DataService.swift:117-129 | joining twice is joining once |
| StoreProps.LeaveIdempotent | ConnectoSphere/Services/DataService.swift:131-139 | leaving twice is leaving once |
| StoreProps.JoinPreservesConsistency | ConnectoSphere/Services/DataService.swift:117-129 | with unique ids, joining keeps "the user is a member of the circle exactly when the user lists the circle" over all existing users and circles |
| StoreProps.LeavePreservesConsistency | ConnectoSphere/Services/DataService.swift:131-139 | with unique ids, leaving keeps the same two-way membership invariant |
| StoreProps.AddCircleConsistency | ConnectoSphere/Services/DataService.swift:100-115 | adding a circle keeps the invariant exactly when each user is a member of it iff the user lists it |
| StoreProps.CreateCircleBreaksConsistency | ConnectoSphere/Services/DataService.swift:107 | a concrete consistent store where creating a circle breaks the invariant, because the creator becomes a member without listing the circle |
| StoreProps.ReactionCommandsKeepUniqueness | ConnectoSphere/Services/DataService.swift:169-185 | both reaction commands keep at most one reaction per user on every post |
| StoreProps.AddThenRemoveReaction | ConnectoSphere/Services/DataService.swift:169-185 | adding then removing a user's reaction leaves the post with the other users' reactions only |
| StoreProps.AddCommentKeepsLinks | ConnectoSphere/Services/DataService.swift:200-216 | commenting on an existing post keeps every comment attached to an existing post |
| StoreProps.AddCommentOrphan | ConnectoSphere/Services/DataService.swift:208-212 | commenting on an unknown post still stores the comment, which then has no post |
| StoreProps.AddPostKeepsLinks | ConnectoSphere/Services/DataService.swift:148-167 | creating a post keeps every post listed by its existing circle |
| StoreProps.AddPostKeepsCommentLinks | ConnectoSphere/Services/DataService.swift:148-167 | creating a post keeps every comment attached to its post |
| DataServices.DataService.constructor | ConnectoSphere/Services/DataService.swift:22-36 | the tables are the stored ones or empty, and the default circles when no circles were stored |
| DataServices.DataService.ClearAllData | ConnectoSphere/Services/DataService.swift:56-66 | the new state is the cleared store |
| DataServices.DataService.CreateUser | ConnectoSphere/Services/DataService.swift:70-85 | the new account is appended and returned |
| DataServices.DataService.UpdateUser | ConnectoSphere/Services/DataService.swift:87-92 | the new state is the store with the user replaced |
| DataServices.DataService.CreateCircle | ConnectoSphere/Services/DataService.swift:100-115 | the new circle is appended and returned |
| DataServices.DataService.JoinCircle | ConnectoSphere/Services/DataService.swift:117-129 | the new state is the store after joining |
| DataServices.DataService.LeaveCircle | ConnectoSphere/Services/DataService.swift:131-139 | the new state is the store after leaving |
| DataServices.DataService.CreatePost | ConnectoSphere/Services/DataService.swift:148-167 | the new post is added, linked to its circle, and returned |
| DataServices.DataService.AddReaction | ConnectoSphere/Services/DataService.swift:169-178 | the in-place remove-then-append gives the store after the reaction |
| DataServices.DataService.RemoveReaction | ConnectoSphere/Services/DataService.swift:180-185 | the new state is the store without the user's reactions on the post |
| DataServices.DataService.CreateComment | ConnectoSphere/Services/DataService.swift:200-216 | the new comment is added, linked to its post, and returned |
| Connections.ToSet | ConnectoSphere/Services/ConnectionService.swift:50 | the set holds exactly the list's elements |
| Connections.CommonCircles | ConnectoSphere/Services/ConnectionService.swift:50 | exactly the circle ids both users list |
| Connections.CommonTags | ConnectoSphere/Services/ConnectionService.swift:54 | exactly the tags both users list |
| Connections.PostsIn | ConnectoSphere/Services/ConnectionService.swift:59-60 | exactly the posts by the author in the circle |
| Connections.ActiveAmong | ConnectoSphere/Services/ConnectionService.swift:58-66 | exactly the given circles in which both users posted |
| Connections.ActiveAmongAdd | ConnectoSphere/Services/ConnectionService.swift:58-66 | one more circle adds one active circle exactly when both users posted there |
| Connections.CalculateMatchScore | ConnectoSphere/Services/ConnectionService.swift:46-69 | the loop computes 10 times the shared circles plus 5 times the shared tags plus 3 times the shared circles where both posted (the reference `MatchScore`), never negative |
| Connections.ScorePositiveIff | ConnectoSphere/Services/ConnectionService.swift:27 | the score is positive exactly when the users share a circle or a tag |
| Connections.ScoreSeesSetsOnly | ConnectoSphere/Services/ConnectionService.swift:50-54 | lists with the same sets of circles and tags give the same score, so repeated entries do not count |
| Connections.CandidatesEligible | ConnectoSphere/Services/ConnectionService.swift:20-39 | every candidate is another non-guest user of the table with positive score and the shared sets |
| Connections.CandidatesComplete | ConnectoSphere/Services/ConnectionService.swift:20-39 | every other non-guest user with positive score yields a candidate |
| Connections.Ranked | ConnectoSphere/Services/ConnectionService.swift:43 | best first, min(limit, count) of the candidates drawn from them, all of them when they fit, and every one left out scores no higher than every one kept |
| Connections.Suggestions | ConnectoSphere/Services/ConnectionService.swift:15-44 | nothing for an unknown user; at most limit entries, best first |
| Connections.SuggestionsEligible | ConnectoSphere/Services/ConnectionService.swift:21-27 | every suggestion is another non-guest user with positive score |
| Connections.SuggestConnections | ConnectoSphere/Services/ConnectionService.swift:15-44 | the loop that skips the user and guests and collects positive scores yields the ranked suggestions |
| FirebaseData.WithMember | ConnectoSphere/Firebase/FirebaseDataService.swift:124-126 | the user becomes a member, the list grows by at most one, and nothing else in the circle changes |
| FirebaseData.WithJoined | ConnectoSphere/Firebase/FirebaseDataService.swift:127-129 | the circle becomes listed, the list grows by at most one, and nothing else in the user changes |
| FirebaseData.WithoutMember | ConnectoSphere/Firebase/FirebaseDataService.swift:171 | every occurrence of the user leaves the members, others stay in order |
| FirebaseData.WithoutJoined | ConnectoSphere/Firebase/FirebaseDataService.swift:172 | every occurrence of the circle leaves the user's list, others stay in order |
| FirebaseData.JoinEditsIdempotent | ConnectoSphere/Firebase/FirebaseDataService.swift:124-130 | applying the join edits twice is applying them once |
| FirebaseData.LeaveEditsIdempotent | ConnectoSphere/Firebase/FirebaseDataService.swift:171-172 | applying the leave edits twice is applying them once |
| FirebaseData.JoinAgreesWithLocalStore | ConnectoSphere/Firebase/FirebaseDataService.swift:124-130 | the cloud join edits are the local store's join at the circle's and the user's positions |
| FirebaseData.LeaveAgreesWithLocalStore | ConnectoSphere/Firebase/FirebaseDataService.swift:171-172 | the cloud leave edits are the local store's leave at both positions |
| FirebaseData.JoinTransaction | ConnectoSphere/Firebase/FirebaseDataService.swift:103-148 | a failed fetch or commit writes nothing and reports failure; an undecodable document writes nothing yet reports success; otherwise the edited circle is written when it encodes, the edited user only when both encode, and success is reported |
| FirebaseData.LeaveTransaction | ConnectoSphere/Firebase/FirebaseDataService.swift:150-190 | the same outcomes for leaving |
| FirebaseData.AddReactionUpdate | ConnectoSphere/Firebase/FirebaseDataService.swift:225-249 | a missing or undecodable post writes nothing and reports failure; otherwise the one-reaction edit is written and the write's result reported |
| FirebaseData.RemoveReactionUpdate | ConnectoSphere/Firebase/FirebaseDataService.swift:251-270 | the same, writing the post without the user's reactions |
| FirebaseData.Decodable | ConnectoSphere/Firebase/FirebaseDataService.swift:32-40 | the array holds exactly the documents that decode and is no longer than the snapshot |
| FirebaseData.DecodableAppend | ConnectoSphere/Firebase/FirebaseDataService.swift:32-64 | decoding works document by document, in snapshot order |
| FirebaseData.DecodableAll | ConnectoSphere/Firebase/FirebaseDataService.swift:32-64 | when every document decodes the array is the snapshot in order |
| FirebaseData.FirebaseDataService.constructor | ConnectoSphere/Firebase/FirebaseDataService.swift:20-22 | all four arrays start empty |
| FirebaseData.FirebaseDataService.OnCirclesSnapshot | ConnectoSphere/Firebase/FirebaseDataService.swift:32-40 | an error keeps the circles; a snapshot replaces them with its decodable documents; other arrays are unchanged |
| FirebaseData.FirebaseDataService.OnPostsSnapshot | ConnectoSphere/Firebase/FirebaseDataService.swift:44-52 | the same for posts |
| FirebaseData.FirebaseDataService.OnCommentsSnapshot | ConnectoSphere/Firebase/FirebaseDataService.swift:56-64 | the same for comments |
| FirebaseData.MemberCircles | ConnectoSphere/Firebase/FirebaseDataService.swift:308-310 | exactly the circles, in order and with their multiplicity, whose members include the user |
| FirebaseData.MemberFeed | ConnectoSphere/Firebase/FirebaseDataService.swift:316-321 | exactly the posts of the circles that list the user as member, with multiplicities, newest first |
| FirebaseData.MemberCircleIds | ConnectoSphere/Firebase/FirebaseDataService.swift:317 | an id is among the member circles' ids exactly when some circle with that id lists the user |
| FirebaseData.UserCirclesAgree | ConnectoSphere/Firebase/FirebaseDataService.swift:308-310 | for an existing user, under the two-way membership invariant, both stores' "my circles" agree |
| FirebaseData.UserCirclesDifferForUnknownUser | ConnectoSphere/Firebase/FirebaseDataService.swift:308-310 | a concrete store where the two "my circles" differ for a user missing from the users table |
| ReactionToggle.Toggle | ConnectoSphere/ViewModels/CircleDetailViewModel.swift:42-53 | unknown post: no change; tapping the kind the user gave clears the user's reactions, any other kind leaves exactly that one; other users' reactions and all else are kept |
| ReactionToggle.ApplyToggle | ConnectoSphere/ViewModels/HomeViewModel.swift:39-44 | the store's new state is the toggle of its old state: remove when the post holds the user's reaction of that kind, add otherwise |
| ReactionToggle.FirstReactionBy | ConnectoSphere/ViewModels/CircleDetailViewModel.swift:59 | the first reaction by the user, none exactly when there is none |
| ReactionToggle.UserReaction | ConnectoSphere/ViewModels/CircleDetailViewModel.swift:55-60 | nothing for an unknown post; otherwise the kind of the user's first reaction, if any |
| ReactionToggle.SoleReaction | ConnectoSphere/ViewModels/CircleDetailViewModel.swift:45-59 | with at most one reaction by the user, that reaction has kind k exactly when the user gave a k |
| ReactionToggle.UserReactionOfUnique | ConnectoSphere/ViewModels/CircleDetailViewModel.swift:45-60 | with one reaction per user, the shown reaction is k exactly when the user gave a k |
| ReactionToggle.ToggleThenUserReaction | ConnectoSphere/ViewModels/CircleDetailViewModel.swift:42-60 | after a toggle the user's reaction is cleared if it was the tapped kind and is the tapped kind otherwise |
| ReactionToggle.ToggleTwiceRestores | ConnectoSphere/ViewModels/CircleDetailViewModel.swift:42-53 | starting with no reaction by the user, two taps of the same kind restore the store |
| Auth.AuthService.constructor | ConnectoSphere/Services/AuthService.swift:20-24 | the user is restored only for a non-empty stored id, and is nothing for an unknown id |
| Auth.AuthService.SignUpWithEmail | ConnectoSphere/Services/AuthService.swift:26-31 | the new account is stored and signed in, its id is kept and onboarding is done |
| Auth.AuthService.ContinueAsGuest | ConnectoSphere/Services/AuthService.swift:33-39 | a guest is appended to the users and signed in, and onboarding is done |
| Auth.AuthService.Logout | ConnectoSphere/Services/AuthService.swift:41-45 | the session is empty and onboarding is undone; the store is untouched |
| Auth.AuthService.DeleteAccount | ConnectoSphere/Services/AuthService.swift:47-52 | the store is cleared to the five default circles and the session is emptied |
| CirclesViewModels.FilteredCircles | ConnectoSphere/ViewModels/CirclesViewModel.swift:17-26 | everything for an empty search; otherwise an order-keeping subsequence holding exactly the circles whose name, description or a tag matches, each as often as in the list |
| CirclesViewModels.CirclesViewModel.constructor | ConnectoSphere/ViewModels/CirclesViewModel.swift:28-30 | the lists are loaded |
| CirclesViewModels.CirclesViewModel.LoadCircles | ConnectoSphere/ViewModels/CirclesViewModel.swift:32-36 | all circles always reload; the user's circles reload only with a user |
| CirclesViewModels.CirclesViewModel.JoinCircle | ConnectoSphere/ViewModels/CirclesViewModel.swift:38-42 | nothing without a user; otherwise the store joins and the lists reload |
| CirclesViewModels.CirclesViewModel.LeaveCircle | ConnectoSphere/ViewModels/CirclesViewModel.swift:44-48 | nothing without a user; otherwise the store leaves and the lists reload |
| CirclesViewModels.CirclesViewModel.IsUserMember | ConnectoSphere/ViewModels/CirclesViewModel.swift:50-53 | a user is signed in and the circle's members include them |
| CirclesViewModels.CirclesViewModel.CreateCircle | ConnectoSphere/ViewModels/CirclesViewModel.swift:55-65 | nothing without a user; otherwise the circle is created by the user and is the last one listed |
| CircleDetailViewModels.Cache | ConnectoSphere/ViewModels/CircleDetailViewModel.swift:24-27 | every visited post's comments are cached, no key is dropped, new keys are visited posts, unvisited keys keep their value |
| CircleDetailViewModels.CacheComments | ConnectoSphere/ViewModels/CircleDetailViewModel.swift:24-27 | the loop builds that cache |
| CircleDetailViewModels.CircleDetailViewModel.constructor | ConnectoSphere/ViewModels/CircleDetailViewModel.swift:17-20 | the screen starts loaded |
| CircleDetailViewModels.CircleDetailViewModel.LoadPosts | ConnectoSphere/ViewModels/CircleDetailViewModel.swift:22-28 | the posts are the circle's posts, each has its comments cached, and earlier keys are kept |
| CircleDetailViewModels.CircleDetailViewModel.CreatePost | ConnectoSphere/ViewModels/CircleDetailViewModel.swift:30-34 | nothing without a user; otherwise the post is created in this circle and the screen reloads |
| CircleDetailViewModels.CircleDetailViewModel.AddComment | ConnectoSphere/ViewModels/CircleDetailViewModel.swift:36-40 | nothing without a user; otherwise the comment is created and the screen reloads |
| CircleDetailViewModels.CircleDetailViewModel.ToggleReaction | ConnectoSphere/ViewModels/CircleDetailViewModel.swift:42-53 | nothing without a user; otherwise the store takes the toggle and the screen reloads |
| CircleDetailViewModels.CircleDetailViewModel.GetUserReaction | ConnectoSphere/ViewModels/CircleDetailViewModel.swift:55-60 | nothing without a user; otherwise the user's reaction on the post |
| HomeViewModels.HomeViewModel.constructor | ConnectoSphere/ViewModels/HomeViewModel.swift:19-22 | feed and suggestions are loaded for the signed-in user |
| HomeViewModels.HomeViewModel.LoadFeed | ConnectoSphere/ViewModels/HomeViewModel.swift:24-29 | nothing without a user; otherwise the user's feed, ending with loading off |
| HomeViewModels.HomeViewModel.LoadSuggestedConnections | ConnectoSphere/ViewModels/HomeViewModel.swift:31-34 | nothing without a user; otherwise the ranked suggestions with limit 5, so at most five |
| HomeViewModels.HomeViewModel.ToggleReaction | ConnectoSphere/ViewModels/HomeViewModel.swift:36-47 | nothing without a user; otherwise the store takes the toggle and the feed reloads |
| HomeViewModels.HomeViewModel.GetUserReaction | ConnectoSphere/ViewModels/HomeViewModel.swift:49-54 | nothing without a user; otherwise the user's reaction on the post |
| ProfileViewModels.AuthoredPosts | ConnectoSphere/ViewModels/ProfileViewModel.swift:25-27 | exactly the user's posts with their multiplicities, newest first |
| ProfileViewModels.EditedProfile | ConnectoSphere/ViewModels/ProfileViewModel.swift:33-37 | the four edited fields take the new values; id, email, joined circles, guest flag and creation time are kept |
| ProfileViewModels.ProfileViewModel.constructor | ConnectoSphere/ViewModels/ProfileViewModel.swift:17-19 | the profile is loaded |
| ProfileViewModels.ProfileViewModel.LoadUserData | ConnectoSphere/ViewModels/ProfileViewModel.swift:21-30 | the user is the session's; with a user, their posts and circles load, otherwise the lists are kept |
| ProfileViewModels.ProfileViewModel.UpdateProfile | ConnectoSphere/ViewModels/ProfileViewModel.swift:32-42 | nothing without a user; otherwise the edited user replaces the store entry with its id and becomes both this screen's and the session's user |
| AppColors.TrimFrom | ConnectoSphere/Resources/AppColors.swift:27 | the first alphanumeric position at or after i, everything skipped being non-alphanumeric |
| AppColors.TrimTo | ConnectoSphere/Resources/AppColors.swift:27 | the end after dropping trailing non-alphanumeric characters, the last kept one being alphanumeric |
| AppColors.Trim | ConnectoSphere/Resources/AppColors.swift:27 | a contiguous slice with only non-alphanumeric characters cut at either end, starting and ending alphanumeric, empty exactly when nothing is alphanumeric |
| AppColors.TrimAlphanumeric | ConnectoSphere/Resources/AppColors.swift:27 | an all-alphanumeric string is kept whole |
| AppColors.TrimIdempotent | ConnectoSphere/Resources/AppColors.swift:27 | trimming twice is trimming once |
| AppColors.HexRun | ConnectoSphere/Resources/AppColors.swift:29 | the length of the longest run of hex digits at the front |
| AppColors.HexValue | ConnectoSphere/Resources/AppColors.swift:29 | n hex digits denote a number below 16^n |
| AppColors.ScanHex | ConnectoSphere/Resources/AppColors.swift:29 | the digit loop yields the value of the leading hex digits, and reports whether there were any |
| AppColors.Split | ConnectoSphere/Resources/AppColors.swift:31-40 | any length other than 3, 6 or 8 gives opaque black; lengths 3 and 6 are opaque; length 3 gives multiples of 17 |
| AppColors.Decode | ConnectoSphere/Resources/AppColors.swift:26-40 | every component is in 0..255, and a trimmed length other than 3, 6 or 8 gives (255, 0, 0, 0) |
| AppColors.ColorFromHex | ConnectoSphere/Resources/AppColors.swift:26-40 | trimming, scanning and splitting give the decoded colour |
| AppColors.HexDigits | ConnectoSphere/Resources/AppColors.swift:29 | formatting writes exactly n hex digits |
| AppColors.HexValueOfDigits | ConnectoSphere/Resources/AppColors.swift:29 | scanning formatted digits gives back the number |
| AppColors.DecodeDigits | ConnectoSphere/Resources/AppColors.swift:26-40 | decoding n formatted digits of v is splitting v by length n |
| AppColors.DecodeRGB | ConnectoSphere/Resources/AppColors.swift:34-35 | six digits rrggbb decode to (255, r, g, b) |
| AppColors.DecodeARGB | ConnectoSphere/Resources/AppColors.swift:36-37 | eight digits aarrggbb decode to (a, r, g, b) |
| AppColors.DecodeShortRGB | ConnectoSphere/Resources/AppColors.swift:32-33 | three digits rgb decode to (255, 17r, 17g, 17b) |
| AppColors.TrimDropsLeading | ConnectoSphere/Resources/AppColors.swift:27 | a leading non-alphanumeric character such as "#" is trimmed away |
| AppColors.HashIgnored | ConnectoSphere/Resources/AppColors.swift:27 | a leading non-alphanumeric character such as "#" does not change the colour |
| AppColors.ByteOf | ConnectoSphere/Resources/AppColors.swift:35 | two hex digits denote a byte |
| AppColors.HexValueSix | ConnectoSphere/Resources/AppColors.swift:29-35 | six digits denote their three digit pairs as bytes, most significant first |
| AppColors.DecodeSixDigits | ConnectoSphere/Resources/AppColors.swift:34-35 | any six hex digits decode to (255, first pair, second pair, third pair) |
| AppColors.PrimaryBackgroundComponents | ConnectoSphere/Resources/AppColors.swift:11 | "ae2d27" is (255, 174, 45, 39) |
| AppColors.SecondaryBackgroundComponents | ConnectoSphere/Resources/AppColors.swift:12 | "dfb492" is (255, 223, 180, 146) |
| AppColors.TertiaryBackgroundComponents | ConnectoSphere/Resources/AppColors.swift:13 | "ffc934" is (255, 255, 201, 52) |
| AppColors.AccentGreenComponents | ConnectoSphere/Resources/AppColors.swift:16 | "1ed55f" is (255, 30, 213, 95) |
| AppColors.AccentYellowComponents | ConnectoSphere/Resources/AppColors.swift:17 | "ffff03" is (255, 255, 255, 3) |
| AppColors.AccentRedComponents | ConnectoSphere/Resources/AppColors.swift:18 | "eb262f" is (255, 235, 38, 47) |

## Left out

- Device storage. `loadData`, `saveData`, `loadFromStorage` and `saveToStorage`
  are not modelled, and neither are the `@AppStorage` values. The stored tables
  and session values are constructor parameters. A decode failure is an absent
  table.
- Firestore and Firebase Auth I/O: network reads and writes, listener
  registration and removal, transaction retries, completion timing and
  `[weak self]` captures. A fetch, decode, commit or write outcome is a
  parameter of the transaction and update functions.
- The cloud store's `createCircle`, `createPost` and `createComment` document
  writes, and the follow-up `arrayUnion` of the new id into the parent document.
  Only the record each one builds is modelled. `initializeDefaultCircles` and
  `getUser` on the cloud store are not modelled either; they are network seeding
  and a lookup over a table no listener fills.
- `@Published` change notifications, and the threading the UI relies on.
- SwiftUI views, onboarding screens and the string constants.
- The color `Double` conversion: components divided by 255 and handed to
  SwiftUI. The model ends at the integer components.
- AppColors.ScanHex: Foundation's scanner also accepts a leading `0x`/`0X` and
  skips leading whitespace. The model reads plain ASCII hex digits only.
  Alphanumerics are ASCII letters and digits, not Unicode's wider set.
- Connections.MatchScore: the ranker computes in `Double`. Every value is a
  small whole number, so it is modelled as an unbounded `int`.
- Connections.SuggestConnections: `limit` is a `nat`. A negative Swift limit,
  which would trap in `prefix`, is not modelled.
- Models.Connection: the shared circles and shared tags are kept as sets. The
  program turns them into arrays of unspecified order.
- CirclesViewModels.FilteredCircles: the locale-aware case-insensitive
  `contains` is a caller-supplied predicate `matches`.
- Auth.AuthService.ContinueAsGuest: the guest is appended straight to the store's
  users and is not saved, as in the program. The model does not track which
  edits were saved.
- ProfileViewModels.ProfileViewModel.UpdateProfile: the session invariant
  `Auth.AuthService.Valid` is not re-established here. The edit keeps the loaded
  user's id, and that id equals the session's stored id only if the session has
  not changed since the last load.
