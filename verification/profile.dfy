/** The `UserProfile` page: looking the route's user id up among the built-in
    profiles, the follow button and its follower count, and hiding the
    follow, message and book controls on one's own profile. Ratings are
    held in tenths (4.9 is 49). */
module UserProfile {

  import opened Common
  import Auth

  datatype ProfileBadge = ProfileBadge(id: string, name: string, description: string, icon: string, earnedAt: string)

  datatype Review = Review(id: string, reviewerName: string, reviewerAvatar: string, skillName: string,
                           rating: int, comment: string, createdAt: string)

  datatype Profile = Profile(
    id: string,
    name: string,
    email: string,
    photoUrl: string,
    location: string,
    bio: string,
    skillsTeaching: seq<string>,
    skillsLearning: seq<string>,
    ratingTenths: nat,
    totalSessions: nat,
    followers: int,
    following: int,
    isFollowing: bool,
    joinedDate: string,
    badges: seq<ProfileBadge>,
    reviews: seq<Review>)

  /** The two built-in profiles, keyed by user id (avatar links shortened
      to their file names). */
  const MockProfiles: map<string, Profile> := map[
    "1" := Profile("1", "Sarah Chen", "sarah.chen@example.com", "/images/portrait.jpg", "San Francisco, CA",
                   "Senior Frontend Developer with 8+ years of experience in React, TypeScript, and modern web technologies. Passionate about teaching and helping others grow in their development journey.",
                   ["React Development", "JavaScript", "TypeScript", "UI/UX Design"],
                   ["Machine Learning", "Python", "Data Science"],
                   49, 156, 342, 89, false, "2023-01-15",
                   [ProfileBadge("1", "Expert Teacher", "Completed 100+ teaching sessions", "\U{1F3C6}", "2024-06-15"),
                    ProfileBadge("2", "Community Helper", "Highly rated by students", "\U{2B50}", "2024-05-20")],
                   [Review("1", "Mike Johnson", "photo-1472099645785-5658abf4ff4e", "React Development", 5,
                           "Sarah is an excellent teacher! She explained React hooks in a way that finally made sense to me.", "2024-08-15"),
                    Review("2", "Anna Smith", "photo-1438761681033-6461ffad8d80", "TypeScript", 5,
                           "Great session on TypeScript best practices. Very knowledgeable and patient.", "2024-08-10")]),
    "2" := Profile("2", "Marcus Johnson", "marcus.johnson@example.com", "photo-1507003211169-0a1dd7228f2d", "Madrid, Spain",
                   "Native Spanish speaker and certified language teacher. I love helping people discover the beauty of Spanish language and culture.",
                   ["Spanish Conversation", "Spanish Grammar", "Latin American Culture"],
                   ["Portuguese", "Italian", "Photography"],
                   48, 203, 456, 123, true, "2022-09-20",
                   [ProfileBadge("1", "Language Master", "Expert in multiple languages", "\U{1F5E3}\U{FE0F}", "2024-03-10")],
                   [Review("1", "Lisa Wong", "photo-1544005313-94ddf0286df2", "Spanish Conversation", 5,
                           "Marcus makes learning Spanish so enjoyable! His cultural insights are invaluable.", "2024-08-20")])
  ]

  /** The names `Object.prototype` gives every object literal (section 20.1.3
      of ECMA-262 and its Annex B). Indexing `mockUsers` with one of them
      that is not an own key yields that inherited member, which is truthy. */
  const InheritedKeys: set<string> := {
    "constructor", "hasOwnProperty", "isPrototypeOf", "propertyIsEnumerable",
    "toLocaleString", "toString", "valueOf", "__proto__",
    "__defineGetter__", "__defineSetter__", "__lookupGetter__", "__lookupSetter__"
  }

  /** What `userId ? mockUsers[userId] : null` yields. */
  datatype Entry =
    | NoEntry
    | Own(profile: Profile)
    | Inherited(key: string)

  /** `profileUser`: no route parameter or an empty one finds nothing; an own
      key finds its profile; an inherited key finds a non-profile member;
      any other id finds nothing. */
  function Lookup(profiles: map<string, Profile>, userId: Option<string>): (r: Entry)
    ensures r.Own? <==> userId.Some? && userId.value != "" && userId.value in profiles
    ensures r.Own? ==> r.profile == profiles[userId.value]
    ensures r.Inherited? <==> userId.Some? && userId.value !in profiles && userId.value in InheritedKeys
    ensures r.Inherited? ==> r.key == userId.value
  {
    match userId
    case None => NoEntry
    case Some(id) =>
      if id == "" then NoEntry
      else if id in profiles then Own(profiles[id])
      else if id in InheritedKeys then Inherited(id)
      else NoEntry
  }

  /** Each built-in profile is filed under its own id, so the page shows
      the user the link asked for. */
  lemma LookupFindsOwnId(userId: string)
    requires Lookup(MockProfiles, Some(userId)).Own?
    ensures Lookup(MockProfiles, Some(userId)).profile.id == userId
  {
  }

  /** The follow button's state: whether the viewer follows, and the count
      shown next to it. */
  datatype Follow = Follow(isFollowing: bool, followerCount: int)

  /** The initial state: the profile's own flag and count. */
  function InitialFollow(p: Profile): (f: Follow)
    ensures f.isFollowing == p.isFollowing && f.followerCount == p.followers
  {
    Follow(p.isFollowing, p.followers)
  }

  /** `handleFollowToggle`: following adds one follower, unfollowing
      removes one. */
  function ToggleFollow(f: Follow): (r: Follow)
    ensures r.isFollowing == !f.isFollowing
    ensures r.followerCount == if f.isFollowing then f.followerCount - 1 else f.followerCount + 1
  {
    Follow(!f.isFollowing, if f.isFollowing then f.followerCount - 1 else f.followerCount + 1)
  }

  /** The followers other than the viewer never change. */
  function OthersFollowing(f: Follow): int
  {
    f.followerCount - (if f.isFollowing then 1 else 0)
  }

  /** Toggling twice restores the state, and any number of toggles keeps
      the count of other followers. */
  lemma ToggleFollowInvolution(f: Follow, n: nat)
    ensures ToggleFollow(ToggleFollow(f)) == f
    ensures OthersFollowing(Toggles(f, n)) == OthersFollowing(f)
    ensures Toggles(f, n) == if n % 2 == 0 then f else ToggleFollow(f)
  {
    TogglesKeepOthers(f, n);
  }

  function Toggles(f: Follow, n: nat): Follow
  {
    if n == 0 then f else ToggleFollow(Toggles(f, n - 1))
  }

  lemma {:induction false} TogglesKeepOthers(f: Follow, n: nat)
    ensures OthersFollowing(Toggles(f, n)) == OthersFollowing(f)
    ensures Toggles(f, n) == if n % 2 == 0 then f else ToggleFollow(f)
  {
    if n > 0 {
      TogglesKeepOthers(f, n - 1);
    }
  }

  /** `isOwnProfile`: the signed-in user is the profile's owner. */
  predicate IsOwnProfile(current: Option<Auth.User>, p: Profile)
  {
    current.Some? && current.value.id == p.id
  }

  /** `Crash` is a render that throws: an inherited member passes the
      not-found guard, and then reading profile fields from it fails
      (`format` of an invalid date, or `.map` of `undefined`). */
  datatype View =
    | NotFound
    | Crash
    | Page(profile: Profile, follow: Follow, showControls: bool)

  /** What the page shows: "User Not Found" when the lookup finds nothing,
      a throwing render for an inherited key, and otherwise the profile with
      the follow, message and book controls shown to everyone but the
      owner. */
  function Render(profiles: map<string, Profile>, userId: Option<string>, current: Option<Auth.User>): (v: View)
    ensures v.NotFound? <==> userId.None? || userId.value == ""
                             || (userId.value !in profiles && userId.value !in InheritedKeys)
    ensures v.Crash? <==> userId.Some? && userId.value !in profiles && userId.value in InheritedKeys
    ensures v.Page? ==> v.profile == profiles[userId.value] && v.follow == InitialFollow(v.profile)
    ensures v.Page? ==> (v.showControls <==> !(current.Some? && current.value.id == v.profile.id))
  {
    match Lookup(profiles, userId)
    case NoEntry => NotFound
    case Inherited(_) => Crash
    case Own(p) => Page(p, InitialFollow(p), !IsOwnProfile(current, p))
  }
}
