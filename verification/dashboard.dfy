/** The `Dashboard` page: the signed-in user's sessions split into upcoming
    and completed, the recent-activity excerpt, the stat cards, the join
    window of an upcoming session, and the join and cancel buttons. The
    browser clock and date parsing are parameters: `now` in milliseconds,
    `millisOf` for `new Date(iso).getTime()` and `dayOf` for
    `toDateString()`. */
module Dashboard {

  import opened Common
  import Seqs
  import Auth
  import Bookings

  type Booking = Bookings.Booking

  /** Thirty minutes, in milliseconds. */
  const JoinWindowMs: int := 30 * 60 * 1000

  /** How many completed sessions the recent-activity card lists. */
  const RecentCount: nat := 5

  /** The user teaches or learns in the booking. */
  predicate Involves(b: Booking, userId: string)
  {
    b.learnerId == userId || b.teacherId == userId
  }

  predicate IsUpcoming(b: Booking, userId: string, now: int, millisOf: string -> int)
  {
    Involves(b, userId) && b.status == Bookings.Scheduled && millisOf(b.scheduledAt) > now
  }

  predicate IsCompleted(b: Booking, userId: string)
  {
    Involves(b, userId) && b.status == Bookings.Completed
  }

  /** `userBookings`: the user's bookings, in store order. */
  function UserBookings(bookings: seq<Booking>, userId: string): (r: seq<Booking>)
    ensures forall b :: multiset(r)[b] == if Involves(b, userId) then multiset(bookings)[b] else 0
    ensures forall b :: b in r <==> b in bookings && Involves(b, userId)
    ensures Seqs.IsSubseq(r, bookings)
  {
    Seqs.FilterSpec(bookings, (b: Booking) => Involves(b, userId));
    Seqs.Filter(bookings, (b: Booking) => Involves(b, userId))
  }

  /** `upcomingBookings`: the user's scheduled bookings that lie in the
      future, in store order. */
  function Upcoming(bookings: seq<Booking>, userId: string, now: int, millisOf: string -> int): (r: seq<Booking>)
    ensures forall b :: multiset(r)[b] == if IsUpcoming(b, userId, now, millisOf) then multiset(bookings)[b] else 0
    ensures forall b :: b in r <==> b in bookings && IsUpcoming(b, userId, now, millisOf)
    ensures Seqs.IsSubseq(r, bookings)
  {
    var mine := UserBookings(bookings, userId);
    var p := (b: Booking) => b.status == Bookings.Scheduled && millisOf(b.scheduledAt) > now;
    Seqs.FilterSpec(mine, p);
    Seqs.SubseqTrans(Seqs.Filter(mine, p), mine, bookings);
    Seqs.Filter(mine, p)
  }

  /** `completedBookings`: the user's completed bookings, in store order. */
  function Completed(bookings: seq<Booking>, userId: string): (r: seq<Booking>)
    ensures forall b :: multiset(r)[b] == if IsCompleted(b, userId) then multiset(bookings)[b] else 0
    ensures forall b :: b in r <==> b in bookings && IsCompleted(b, userId)
    ensures Seqs.IsSubseq(r, bookings)
  {
    var mine := UserBookings(bookings, userId);
    var p := (b: Booking) => b.status == Bookings.Completed;
    Seqs.FilterSpec(mine, p);
    Seqs.SubseqTrans(Seqs.Filter(mine, p), mine, bookings);
    Seqs.Filter(mine, p)
  }

  /** No booking is listed both as upcoming and as completed. */
  lemma UpcomingCompletedDisjoint(bookings: seq<Booking>, userId: string, now: int, millisOf: string -> int)
    ensures forall b :: b in Upcoming(bookings, userId, now, millisOf) ==> b !in Completed(bookings, userId)
  {
  }

  /** `completedBookings.slice(0, 5)`: the first five completed sessions
      (fewer when there are fewer). */
  function Recent(completed: seq<Booking>): (r: seq<Booking>)
    ensures |r| == if |completed| < RecentCount then |completed| else RecentCount
    ensures r <= completed
  {
    if |completed| < RecentCount then completed else completed[..RecentCount]
  }

  /** The four stat cards. */
  datatype Stats = Stats(totalCredits: int, rank: Auth.Rank, sessions: nat, badges: nat)

  /** What the page shows: a refusal without a signed-in user, otherwise
      the stat cards and the three lists. */
  datatype View =
    | AccessDenied
    | Overview(stats: Stats, upcoming: seq<Booking>, completed: seq<Booking>, recent: seq<Booking>)

  function Render(user: Option<Auth.User>, bookings: seq<Booking>, now: int, millisOf: string -> int): (v: View)
    ensures v.AccessDenied? <==> user.None?
    ensures v.Overview? ==>
              && v.stats == Stats(user.value.totalCredits, user.value.currentRank, |v.completed|, |user.value.badges|)
              && v.upcoming == Upcoming(bookings, user.value.id, now, millisOf)
              && v.completed == Completed(bookings, user.value.id)
              && v.recent <= v.completed && |v.recent| <= RecentCount
              && |v.recent| == if |v.completed| < RecentCount then |v.completed| else RecentCount
  {
    match user
    case None => AccessDenied
    case Some(u) =>
      var completed := Completed(bookings, u.id);
      Overview(Stats(u.totalCredits, u.currentRank, |completed|, |u.badges|),
               Upcoming(bookings, u.id, now, millisOf), completed, Recent(completed))
  }

  // ---------------------------------------------------------- one session

  /** `isTeacher`: the user teaches in this session. */
  predicate IsTeacher(b: Booking, userId: string)
  {
    b.teacherId == userId
  }

  /** `otherUserId`: the learner when the user teaches, the teacher
      otherwise. */
  function OtherParty(b: Booking, userId: string): (r: string)
    ensures r == b.learnerId || r == b.teacherId
    ensures Involves(b, userId) && b.learnerId != b.teacherId ==> r != userId
  {
    if IsTeacher(b, userId) then b.learnerId else b.teacherId
  }

  /** `canJoin`: the session is today and starts less than thirty minutes
      from now, in either direction. */
  predicate CanJoin(b: Booking, now: int, millisOf: string -> int, dayOf: int -> string)
  {
    var t := millisOf(b.scheduledAt);
    dayOf(t) == dayOf(now) && -JoinWindowMs < t - now < JoinWindowMs
  }

  /** A join button only appears on an upcoming session, so in practice it
      is shown exactly for sessions of today that start within the next
      thirty minutes. */
  lemma JoinButtonWindow(bookings: seq<Booking>, userId: string, now: int,
                         millisOf: string -> int, dayOf: int -> string, b: Booking)
    requires b in Upcoming(bookings, userId, now, millisOf)
    ensures CanJoin(b, now, millisOf, dayOf) <==>
              dayOf(millisOf(b.scheduledAt)) == dayOf(now) && now < millisOf(b.scheduledAt) < now + JoinWindowMs
  {
  }

  /** `handleJoinMeeting`: the link to open, if the booking has one. */
  function JoinLink(bookings: seq<Booking>, bookingId: string): (r: Option<string>)
    ensures r.Some? ==> r.value != "" && exists b :: b in bookings && b.id == bookingId && b.meetingUrl == r
    ensures forall i :: Bookings.FirstWithId(bookings, bookingId, i) ==> r == Bookings.LinkOf(bookings[i].meetingUrl)
    ensures (forall b :: b in bookings ==> b.id != bookingId) ==> r.None?
  {
    Bookings.JoinMeeting(bookings, bookingId)
  }

  /** The two chained filters of the page are one filter by `IsUpcoming`. */
  lemma {:induction false} UpcomingIsFilter(bookings: seq<Booking>, userId: string, now: int, millisOf: string -> int)
    ensures Upcoming(bookings, userId, now, millisOf) == Seqs.Filter(bookings, (b: Booking) => IsUpcoming(b, userId, now, millisOf))
  {
    if |bookings| > 0 {
      UpcomingIsFilter(bookings[1..], userId, now, millisOf);
      if Involves(bookings[0], userId) {
        assert UserBookings(bookings, userId) == [bookings[0]] + UserBookings(bookings[1..], userId);
        assert UserBookings(bookings, userId)[1..] == UserBookings(bookings[1..], userId);
      }
    }
  }

  /** `handleCancelBooking`: the upcoming list loses exactly the cancelled
      session, every other entry keeping its place and multiplicity. */
  lemma CancelLeavesUpcoming(st: Bookings.Store, userId: string, bookingId: string, now: int, millisOf: string -> int)
    ensures Upcoming(Bookings.CancelBooking(st, bookingId).bookings, userId, now, millisOf)
         == Seqs.Filter(Upcoming(st.bookings, userId, now, millisOf), (b: Booking) => b.id != bookingId)
    ensures forall b :: b in Upcoming(Bookings.CancelBooking(st, bookingId).bookings, userId, now, millisOf) <==>
              b in Upcoming(st.bookings, userId, now, millisOf) && b.id != bookingId
  {
    var up := (b: Booking) => IsUpcoming(b, userId, now, millisOf);
    UpcomingIsFilter(Bookings.CancelBooking(st, bookingId).bookings, userId, now, millisOf);
    UpcomingIsFilter(st.bookings, userId, now, millisOf);
    Seqs.FilterPointwise(st.bookings, Bookings.CancelBooking(st, bookingId).bookings, up, (b: Booking) => b.id != bookingId, up);
    Seqs.FilterSpec(Upcoming(st.bookings, userId, now, millisOf), (b: Booking) => b.id != bookingId);
  }
}
