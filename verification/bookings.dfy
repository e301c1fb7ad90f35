/** The booking store of `BookingContext`: bookings, provider time slots, and
    the four operations over them. Ids, creation times and the meeting-link
    timestamp are parameters; dates are the ISO strings the store compares. */
module Bookings {

  import opened Common
  import Seqs
  import Text

  datatype Status = Scheduled | Completed | Cancelled | InProgress

  datatype TimeSlot = TimeSlot(id: string, startTime: string, endTime: string, isAvailable: bool, providerId: string)

  datatype Booking = Booking(
    id: string,
    learnerId: string,
    teacherId: string,
    skillName: string,
    scheduledAt: string,
    durationMinutes: int,
    status: Status,
    meetingUrl: Option<string>,
    notes: Option<string>,
    createdAt: string)

  /** What a caller of `createBooking` supplies: every booking field except
      the id, the creation time and the meeting link, which the store sets. */
  datatype BookingRequest = BookingRequest(
    learnerId: string,
    teacherId: string,
    skillName: string,
    scheduledAt: string,
    durationMinutes: int,
    status: Status,
    notes: Option<string>)

  datatype Store = Store(bookings: seq<Booking>, timeSlots: seq<TimeSlot>)

  /** The Jitsi server, and the prefix of every room name this app opens. */
  const JitsiBase: string := "https://meet.jit.si/"
  const RoomPrefix: string := "skillswap-"
  const MeetingPrefix: string := JitsiBase + RoomPrefix

  /** The skill part of a meeting link: lower-cased, each white-space run
      turned into one `-`. */
  function Slug(skill: string): (r: string)
    ensures forall i :: 0 <= i < |r| ==> !Text.IsSpace(r[i]) && !('A' <= r[i] <= 'Z')
    ensures |r| <= |skill|
    ensures |r| == 0 <==> |skill| == 0
    ensures Seqs.Filter(r, c => c != '-') == Seqs.Filter(Text.Lower(skill), c => !Text.IsSpace(c) && c != '-')
    ensures (forall i :: 0 <= i < |skill| ==> !Text.IsSpace(skill[i])) ==> r == Text.Lower(skill)
  {
    var low := Text.Lower(skill);
    LowerHasNoUpper(skill);
    Text.ReplaceSpaceRunsKeepsText(low, '-');
    if forall i :: 0 <= i < |skill| ==> !Text.IsSpace(skill[i]) then
      Text.ReplaceSpaceRunsNoSpace(low, '-');
      Text.ReplaceSpaceRuns(low, '-')
    else
      Text.ReplaceSpaceRuns(low, '-')
  }

  /** Replacing white-space runs by `-` in a lower-cased name brings in no
      upper-case letter. */
  lemma LowerHasNoUpper(skill: string)
    ensures var r := Text.ReplaceSpaceRuns(Text.Lower(skill), '-');
            forall i :: 0 <= i < |r| ==> !('A' <= r[i] <= 'Z')
  {
    var low := Text.Lower(skill);
    var r := Text.ReplaceSpaceRuns(low, '-');
    forall i | 0 <= i < |r|
      ensures !('A' <= r[i] <= 'Z')
    {
      if r[i] != '-' {
        var j :| 0 <= j < |low| && low[j] == r[i];
      }
    }
  }

  /** Where the dashes go: a white-space-free word followed by a whole
      white-space run contributes its lower-cased self and then exactly one
      `-`. With `Slug`'s own clause for a name without white space this
      fixes the slug of every name, word by word. */
  lemma SlugRun(a: string, w: string, b: string)
    requires forall i :: 0 <= i < |a| ==> !Text.IsSpace(a[i])
    requires |w| > 0 && forall i :: 0 <= i < |w| ==> Text.IsSpace(w[i])
    requires |b| == 0 || !Text.IsSpace(b[0])
    ensures Slug(a + w + b) == Text.Lower(a) + "-" + Slug(b)
  {
    Text.LowerThenReplaceRun(a, w, b, '-');
  }

  /** The link `createBooking` generates: the fixed Jitsi prefix, the slug,
      a `-`, and the timestamp in decimal. */
  function MeetingUrl(skill: string, stamp: nat): (r: string)
    ensures MeetingPrefix <= r
    ensures |r| == |MeetingPrefix| + |Slug(skill)| + 1 + |Text.Decimal(stamp)|
    ensures var tail := r[|r| - |Text.Decimal(stamp)| - 1..];
            tail[0] == '-' && tail[1..] == Text.Decimal(stamp) && Text.DigitsValue(tail[1..]) == stamp
    ensures r[|MeetingPrefix|..|r| - |Text.Decimal(stamp)| - 1] == Slug(skill)
  {
    var slug, d := Slug(skill), Text.Decimal(stamp);
    Text.DecimalRoundTrip(stamp);
    Seqs.ConcatParts(MeetingPrefix, slug, "-" + d);
    MeetingPrefix + slug + ("-" + d)
  }

  /** A generated link is the Jitsi server followed by a room name. */
  lemma MeetingUrlRoom(skill: string, stamp: nat)
    ensures MeetingUrl(skill, stamp) == JitsiBase + (RoomPrefix + Slug(skill) + "-" + Text.Decimal(stamp))
  {
    Seqs.ConcatRegroup(JitsiBase, RoomPrefix, Slug(skill), "-", Text.Decimal(stamp));
  }

  /** `createBooking`: appends one booking carrying every requested field,
      the given id and creation time and a generated meeting link, and marks
      unavailable every slot that starts at the booked time. */
  function CreateBooking(st: Store, req: BookingRequest, id: string, createdAt: string, stamp: nat): (r: Store)
    ensures |r.bookings| == |st.bookings| + 1
    ensures r.bookings[..|st.bookings|] == st.bookings
    ensures var b := r.bookings[|st.bookings|];
            && b.id == id && b.createdAt == createdAt
            && b.learnerId == req.learnerId && b.teacherId == req.teacherId
            && b.skillName == req.skillName && b.scheduledAt == req.scheduledAt
            && b.durationMinutes == req.durationMinutes && b.status == req.status
            && b.notes == req.notes && b.meetingUrl == Some(MeetingUrl(req.skillName, stamp))
    ensures |r.timeSlots| == |st.timeSlots|
    ensures forall i :: 0 <= i < |st.timeSlots| ==>
              if st.timeSlots[i].startTime == req.scheduledAt
              then r.timeSlots[i] == st.timeSlots[i].(isAvailable := false)
              else r.timeSlots[i] == st.timeSlots[i]
    ensures forall i :: 0 <= i < |st.timeSlots| && r.timeSlots[i].isAvailable ==> st.timeSlots[i].isAvailable
  {
    var b := Booking(id, req.learnerId, req.teacherId, req.skillName, req.scheduledAt,
                     req.durationMinutes, req.status, Some(MeetingUrl(req.skillName, stamp)), req.notes, createdAt);
    Store(st.bookings + [b], MarkTaken(st.timeSlots, req.scheduledAt))
  }

  /** The slot update of `createBooking`: every slot starting at `at` becomes
      unavailable, the others stay as they are. */
  function MarkTaken(slots: seq<TimeSlot>, at: string): (r: seq<TimeSlot>)
    ensures |r| == |slots|
    ensures forall i :: 0 <= i < |slots| ==>
              if slots[i].startTime == at then r[i] == slots[i].(isAvailable := false) else r[i] == slots[i]
  {
    seq(|slots|, i requires 0 <= i < |slots| =>
      if slots[i].startTime == at then slots[i].(isAvailable := false) else slots[i])
  }

  /** `cancelBooking`: every booking with the id becomes cancelled; all other
      bookings, the order, and the time slots stay as they were. */
  function CancelBooking(st: Store, bookingId: string): (r: Store)
    ensures |r.bookings| == |st.bookings|
    ensures r.timeSlots == st.timeSlots
    ensures forall i :: 0 <= i < |st.bookings| ==>
              if st.bookings[i].id == bookingId
              then r.bookings[i] == st.bookings[i].(status := Cancelled)
              else r.bookings[i] == st.bookings[i]
  {
    var bs := seq(|st.bookings|, i requires 0 <= i < |st.bookings| =>
                if st.bookings[i].id == bookingId then st.bookings[i].(status := Cancelled) else st.bookings[i]);
    Store(bs, st.timeSlots)
  }

  /** Cancelling twice is cancelling once. */
  lemma CancelIdempotent(st: Store, bookingId: string)
    ensures CancelBooking(CancelBooking(st, bookingId), bookingId) == CancelBooking(st, bookingId)
  {
    var once := CancelBooking(st, bookingId);
    var twice := CancelBooking(once, bookingId);
    assert twice.bookings == once.bookings;
  }

  /** The slot filter used by `getAvailableSlots`. */
  predicate OpenSlotOn(slot: TimeSlot, providerId: string, datePart: string)
  {
    slot.providerId == providerId && slot.isAvailable && datePart <= slot.startTime
  }

  /** `getAvailableSlots`: the provider's available slots whose start time
      begins with the date part, each as often as in the store and in the
      store's order. The date part (`toISOString().split('T')[0]` of the
      chosen date) is computed by the caller. */
  function GetAvailableSlots(slots: seq<TimeSlot>, providerId: string, datePart: string): (r: seq<TimeSlot>)
    ensures forall x :: multiset(r)[x] == if OpenSlotOn(x, providerId, datePart) then multiset(slots)[x] else 0
    ensures forall x :: x in r <==> x in slots && OpenSlotOn(x, providerId, datePart)
    ensures Seqs.IsSubseq(r, slots)
  {
    Seqs.FilterSpec(slots, x => OpenSlotOn(x, providerId, datePart));
    Seqs.Filter(slots, x => OpenSlotOn(x, providerId, datePart))
  }

  /** The index of the first booking with the id (`Array.prototype.find`). */
  function FindBooking(bookings: seq<Booking>, bookingId: string): (r: Option<nat>)
    ensures r.Some? ==> r.value < |bookings| && bookings[r.value].id == bookingId
    ensures r.Some? ==> forall j :: 0 <= j < r.value ==> bookings[j].id != bookingId
    ensures r.None? ==> forall j :: 0 <= j < |bookings| ==> bookings[j].id != bookingId
  {
    if |bookings| == 0 then None
    else if bookings[0].id == bookingId then Some(0)
    else match FindBooking(bookings[1..], bookingId)
      case None => None
      case Some(k) => Some(k + 1)
  }

  /** `i` is where `Array.prototype.find` stops: the first booking with the id. */
  predicate FirstWithId(bookings: seq<Booking>, bookingId: string, i: int)
  {
    0 <= i < |bookings| && bookings[i].id == bookingId && forall j :: 0 <= j < i ==> bookings[j].id != bookingId
  }

  /** `booking?.meeting_url || null`: an absent or empty link is `null`. */
  function LinkOf(url: Option<string>): Option<string>
  {
    if url.Some? && url.value != "" then url else None
  }

  /** `joinMeeting`: the link of the first booking with the id, or nothing
      when there is no such booking or it has no non-empty link. */
  function JoinMeeting(bookings: seq<Booking>, bookingId: string): (r: Option<string>)
    ensures r.Some? ==> r.value != ""
    ensures r.Some? ==> exists i :: 0 <= i < |bookings| && bookings[i].id == bookingId && bookings[i].meetingUrl == r
    ensures (forall i :: 0 <= i < |bookings| ==> bookings[i].id != bookingId) ==> r.None?
    ensures forall i :: FirstWithId(bookings, bookingId, i) ==> r == LinkOf(bookings[i].meetingUrl)
  {
    match FindBooking(bookings, bookingId)
    case None => None
    case Some(i) => LinkOf(bookings[i].meetingUrl)
  }

  /** A freshly created booking can be joined through its generated link. */
  lemma JoinAfterCreate(st: Store, req: BookingRequest, id: string, createdAt: string, stamp: nat)
    requires forall b :: b in st.bookings ==> b.id != id
    ensures JoinMeeting(CreateBooking(st, req, id, createdAt, stamp).bookings, id) == Some(MeetingUrl(req.skillName, stamp))
  {
    var bs := CreateBooking(st, req, id, createdAt, stamp).bookings;
    assert forall j :: 0 <= j < |st.bookings| ==> bs[j] in st.bookings;
    var k := FindBooking(bs, id);
    assert k == Some(|st.bookings|);
    assert Text.Decimal(stamp) != "";
  }

  /** Cancelling any booking does not change which link `joinMeeting` gives. */
  lemma JoinUnaffectedByCancel(st: Store, cancelled: string, bookingId: string)
    ensures JoinMeeting(CancelBooking(st, cancelled).bookings, bookingId) == JoinMeeting(st.bookings, bookingId)
  {
    var bs := CancelBooking(st, cancelled).bookings;
    var k := FindBooking(st.bookings, bookingId);
    var k' := FindBooking(bs, bookingId);
    if k.Some? {
      assert k' == k;
    } else {
      assert k'.None?;
    }
  }

  /** Creating a booking withdraws only slots whose start string is the
      request's `scheduledAt`: every other offered slot is still offered. */
  lemma OtherSlotStaysOffered(st: Store, req: BookingRequest, id: string, createdAt: string, stamp: nat,
                              providerId: string, datePart: string, x: TimeSlot)
    requires x in GetAvailableSlots(st.timeSlots, providerId, datePart)
    requires x.startTime != req.scheduledAt
    ensures x in GetAvailableSlots(CreateBooking(st, req, id, createdAt, stamp).timeSlots, providerId, datePart)
  {
    var after := CreateBooking(st, req, id, createdAt, stamp).timeSlots;
    var i :| 0 <= i < |st.timeSlots| && st.timeSlots[i] == x;
    assert after[i] == x;
  }

  /** Once a booking is created, no slot whose start string equals its
      `scheduledAt` is offered. */
  lemma CreatedTimeNotOffered(st: Store, req: BookingRequest, id: string, createdAt: string, stamp: nat,
                              providerId: string, datePart: string)
    ensures forall x :: x in GetAvailableSlots(CreateBooking(st, req, id, createdAt, stamp).timeSlots, providerId, datePart)
              ==> x.startTime != req.scheduledAt
  {
  }
}
