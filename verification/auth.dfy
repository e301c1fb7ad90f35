/** The authentication provider of `AuthContext`: the signed-in user and the
    browser store the user record is mirrored into. The store is a map from
    key to user record (serialisation is the identity here); ids, the clock
    and the browser's time zone are parameters. */
module Auth {

  import opened Common

  datatype Rank = Bronze | Silver | Gold

  datatype Badge = Badge(id: string, name: string, description: string, icon: string, earnedAt: string)

  datatype User = User(
    id: string,
    email: string,
    name: string,
    bio: Option<string>,
    photoUrl: Option<string>,
    location: Option<string>,
    timezone: Option<string>,
    totalCredits: int,
    currentRank: Rank,
    skillsTeaching: seq<string>,
    skillsLearning: seq<string>,
    badges: seq<Badge>,
    createdAt: string)

  /** The provider's state: who is signed in, and the persisted store. */
  datatype Session = Session(user: Option<User>, storage: map<string, User>)

  const StorageKey: string := "skillswap-user"
  const MockPassword: string := "password"
  const DefaultPhoto: string := "https://images.unsplash.com/photo-1535713875002-d1d0cf377fde?w=150&h=150&fit=crop&crop=face"

  /** The built-in accounts. */
  const MockUsers: seq<User> := [
    User("1", "john@example.com", "John Smith",
         Some("Full-stack developer passionate about teaching and learning new technologies."),
         Some("https://images.unsplash.com/photo-1472099645785-5658abf4ff4e?w=150&h=150&fit=crop&crop=face"),
         Some("San Francisco, CA"), Some("PST"), 1250, Gold,
         ["React", "Node.js", "TypeScript"], ["Python", "Machine Learning", "DevOps"],
         [Badge("1", "First Teacher", "Taught your first lesson", "\U{1F393}", "2024-01-15"),
          Badge("2", "Helpful Mentor", "Received 10+ positive reviews", "\U{2B50}", "2024-02-20")],
         "2024-01-01")
  ]

  /** `i` is where `Array.prototype.find` stops: the first account with the
      e-mail address. */
  predicate FirstWithEmail(users: seq<User>, email: string, i: int)
  {
    0 <= i < |users| && users[i].email == email && forall j :: 0 <= j < i ==> users[j].email != email
  }

  /** The first account with the e-mail address (`mockUsers.find`). */
  function FindByEmail(users: seq<User>, email: string): (r: Option<User>)
    ensures r.Some? ==> r.value in users && r.value.email == email
    ensures r.None? <==> forall u :: u in users ==> u.email != email
    ensures forall i :: FirstWithEmail(users, email, i) ==> r == Some(users[i])
  {
    if |users| == 0 then None
    else if users[0].email == email then Some(users[0])
    else FindByEmail(users[1..], email)
  }

  /** `login`: succeeds exactly when an account has the e-mail and the
      password is the shared mock password; success signs that account in
      and stores it, failure changes nothing. */
  function Login(s: Session, email: string, password: string): (r: (bool, Session))
    ensures r.0 <==> (exists u :: u in MockUsers && u.email == email) && password == MockPassword
    ensures r.0 ==> r.1.user.Some? && r.1.user.value in MockUsers && r.1.user.value.email == email
    ensures r.0 ==> r.1.storage == s.storage[StorageKey := r.1.user.value]
    ensures !r.0 ==> r.1 == s
  {
    match FindByEmail(MockUsers, email)
    case Some(u) =>
      if password == MockPassword then (true, Session(Some(u), s.storage[StorageKey := u])) else (false, s)
    case None => (false, s)
  }

  /** `register`: always succeeds with a fresh bronze account holding 100
      credits, no skills and a single Welcome badge, signed in and stored.
      The password is not used. */
  function Register(s: Session, email: string, password: string, name: string,
                    id: string, now: string, timezone: string): (r: (bool, Session))
    ensures r.0
    ensures r.1.user.Some?
    ensures var u := r.1.user.value;
            && u.id == id && u.email == email && u.name == name
            && u.totalCredits == 100 && u.currentRank == Bronze
            && u.skillsTeaching == [] && u.skillsLearning == []
            && |u.badges| == 1 && u.badges[0].name == "Welcome"
            && u.createdAt == now
    ensures r.1.storage == s.storage[StorageKey := r.1.user.value]
  {
    var u := User(id, email, name, Some(""), Some(DefaultPhoto), Some(""), Some(timezone), 100, Bronze, [], [],
                  [Badge("1", "Welcome", "Joined SkillSwap", "\U{1F44B}", now)], now);
    (true, Session(Some(u), s.storage[StorageKey := u]))
  }

  /** `logout`: nobody is signed in and the stored record is gone; other
      keys of the store are untouched. */
  function Logout(s: Session): (r: Session)
    ensures r.user.None?
    ensures StorageKey !in r.storage
    ensures forall k :: k != StorageKey ==> (k in r.storage <==> k in s.storage)
    ensures forall k :: k in r.storage ==> r.storage[k] == s.storage[k]
  {
    Session(None, s.storage - {StorageKey})
  }

  /** The start-up effect: the stored record, if any, becomes the user. */
  function Restore(storage: map<string, User>): (r: Session)
    ensures r.storage == storage
    ensures r.user.Some? <==> StorageKey in storage
    ensures r.user.Some? ==> r.user.value == storage[StorageKey]
  {
    Session(if StorageKey in storage then Some(storage[StorageKey]) else None, storage)
  }

  /** A `Partial<User>`: each present field overrides the user's. */
  datatype ProfileUpdate = ProfileUpdate(
    id: Option<string>,
    email: Option<string>,
    name: Option<string>,
    bio: Option<string>,
    photoUrl: Option<string>,
    location: Option<string>,
    timezone: Option<string>,
    totalCredits: Option<int>,
    currentRank: Option<Rank>,
    skillsTeaching: Option<seq<string>>,
    skillsLearning: Option<seq<string>>,
    badges: Option<seq<Badge>>,
    createdAt: Option<string>)

  const NoUpdate: ProfileUpdate := ProfileUpdate(None, None, None, None, None, None, None, None, None, None, None, None, None)

  /** `{ ...user, ...updates }`. */
  function Apply(u: User, up: ProfileUpdate): User
  {
    User(up.id.GetOr(u.id), up.email.GetOr(u.email), up.name.GetOr(u.name),
         if up.bio.Some? then up.bio else u.bio,
         if up.photoUrl.Some? then up.photoUrl else u.photoUrl,
         if up.location.Some? then up.location else u.location,
         if up.timezone.Some? then up.timezone else u.timezone,
         up.totalCredits.GetOr(u.totalCredits), up.currentRank.GetOr(u.currentRank),
         up.skillsTeaching.GetOr(u.skillsTeaching), up.skillsLearning.GetOr(u.skillsLearning),
         up.badges.GetOr(u.badges), up.createdAt.GetOr(u.createdAt))
  }

  /** `updateProfile`: without a signed-in user nothing happens; otherwise
      the merged record becomes the user and is mirrored into the store. */
  function UpdateProfile(s: Session, up: ProfileUpdate): (r: Session)
    ensures s.user.None? ==> r == s
    ensures s.user.Some? ==> r.user == Some(Apply(s.user.value, up))
    ensures s.user.Some? ==> r.storage == s.storage[StorageKey := r.user.value]
  {
    match s.user
    case None => s
    case Some(u) => Session(Some(Apply(u, up)), s.storage[StorageKey := Apply(u, up)])
  }

  /** Merging overrides exactly the present fields: an empty update changes
      nothing, each given field is taken from the update while each absent
      one is kept from the user, and applying the same update twice is
      applying it once. */
  lemma ApplyOverridesExactly(u: User, up: ProfileUpdate)
    ensures Apply(u, NoUpdate) == u
    ensures Apply(Apply(u, up), up) == Apply(u, up)
    ensures var a := Apply(u, up);
            && (up.id.Some? ==> a.id == up.id.value) && (up.id.None? ==> a.id == u.id)
            && (up.email.Some? ==> a.email == up.email.value) && (up.email.None? ==> a.email == u.email)
            && (up.name.Some? ==> a.name == up.name.value) && (up.name.None? ==> a.name == u.name)
            && (up.bio.Some? ==> a.bio == up.bio) && (up.bio.None? ==> a.bio == u.bio)
            && (up.photoUrl.Some? ==> a.photoUrl == up.photoUrl) && (up.photoUrl.None? ==> a.photoUrl == u.photoUrl)
            && (up.location.Some? ==> a.location == up.location) && (up.location.None? ==> a.location == u.location)
            && (up.timezone.Some? ==> a.timezone == up.timezone) && (up.timezone.None? ==> a.timezone == u.timezone)
    ensures var a := Apply(u, up);
            && (up.totalCredits.Some? ==> a.totalCredits == up.totalCredits.value)
            && (up.totalCredits.None? ==> a.totalCredits == u.totalCredits)
            && (up.currentRank.Some? ==> a.currentRank == up.currentRank.value)
            && (up.currentRank.None? ==> a.currentRank == u.currentRank)
            && (up.skillsTeaching.Some? ==> a.skillsTeaching == up.skillsTeaching.value)
            && (up.skillsTeaching.None? ==> a.skillsTeaching == u.skillsTeaching)
            && (up.skillsLearning.Some? ==> a.skillsLearning == up.skillsLearning.value)
            && (up.skillsLearning.None? ==> a.skillsLearning == u.skillsLearning)
            && (up.badges.Some? ==> a.badges == up.badges.value) && (up.badges.None? ==> a.badges == u.badges)
            && (up.createdAt.Some? ==> a.createdAt == up.createdAt.value)
            && (up.createdAt.None? ==> a.createdAt == u.createdAt)
  {
  }

  /** An update leaves the user as it was exactly when every field it gives
      already has that value. */
  lemma ApplyUnchangedIff(u: User, up: ProfileUpdate)
    ensures Apply(u, up) == u <==>
              && (up.id.None? || up.id.value == u.id)
              && (up.email.None? || up.email.value == u.email)
              && (up.name.None? || up.name.value == u.name)
              && (up.bio.None? || up.bio == u.bio)
              && (up.photoUrl.None? || up.photoUrl == u.photoUrl)
              && (up.location.None? || up.location == u.location)
              && (up.timezone.None? || up.timezone == u.timezone)
              && (up.totalCredits.None? || up.totalCredits.value == u.totalCredits)
              && (up.currentRank.None? || up.currentRank.value == u.currentRank)
              && (up.skillsTeaching.None? || up.skillsTeaching.value == u.skillsTeaching)
              && (up.skillsLearning.None? || up.skillsLearning.value == u.skillsLearning)
              && (up.badges.None? || up.badges.value == u.badges)
              && (up.createdAt.None? || up.createdAt.value == u.createdAt)
  {
  }

  /** What is persisted is what a reload restores: after a successful login,
      a registration or a profile update the restored user is the current
      one, and after a logout nobody is restored. */
  lemma PersistenceRoundTrip(s: Session, email: string, password: string, name: string,
                             id: string, now: string, timezone: string, up: ProfileUpdate)
    ensures Login(s, email, password).0 ==> Restore(Login(s, email, password).1.storage).user == Login(s, email, password).1.user
    ensures var r := Register(s, email, password, name, id, now, timezone).1;
            Restore(r.storage).user == r.user
    ensures Restore(Logout(s).storage).user.None?
    ensures s.user.Some? ==> Restore(UpdateProfile(s, up).storage).user == UpdateProfile(s, up).user
  {
  }

  /** The only way in with the built-in data: John's address and the mock password. */
  lemma LoginExamples(s: Session)
    ensures Login(s, "john@example.com", "password").0
    ensures !Login(s, "john@example.com", "secret").0
    ensures !Login(s, "nobody@example.com", "password").0
  {
    assert MockUsers[0] in MockUsers;
  }
}
