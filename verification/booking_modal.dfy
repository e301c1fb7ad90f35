/** The `BookingModal` dialog: the form state, the slots offered for the
    chosen day, the guard on the book button, and what pressing it does.
    Dates go through a `Calendar`: `isoOf` is `toISOString()` of the
    picked date and `atTime` is `toISOString()` after `setHours(h, m, 0, 0)`
    on it (time zone and roll-over are the browser's). */
module BookingModal {

  import opened Common
  import Text
  import Seqs
  import Auth
  import Bookings

  /** The three lengths the duration select offers. */
  datatype Duration = Thirty | Sixty | OneTwenty

  function Minutes(d: Duration): (m: int)
    ensures m == 30 || m == 60 || m == 120
  {
    match d
    case Thirty => 30
    case Sixty => 60
    case OneTwenty => 120
  }

  /** The select's option value. */
  function DurationValue(d: Duration): string
  {
    Text.Decimal(Minutes(d))
  }

  /** `parseInt(duration)` gives back the minutes of the chosen option, and
      distinct options have distinct values. */
  lemma DurationParses(d: Duration)
    ensures Text.NumberOf(DurationValue(d)) == Some(Minutes(d))
    ensures forall e :: DurationValue(e) == DurationValue(d) ==> e == d
  {
    Text.NumberOfDecimal(Minutes(d));
    forall e | DurationValue(e) == DurationValue(d) ensures e == d {
      Text.NumberOfDecimal(Minutes(e));
    }
  }

  /** A picked date, in milliseconds. */
  type Day = int

  datatype Calendar = Calendar(isoOf: Day -> string, atTime: (Day, int, int) -> string)

  datatype Form = Form(open: bool, selectedDate: Option<Day>, selectedTime: string, duration: Duration, notes: string)

  /** The dialog as first rendered: closed, nothing picked, one hour. */
  const InitialForm: Form := Form(false, None, "", Sixty, "")

  /** `availableSlots`: nothing until a date is picked, then the teacher's
      open slots on the picked date's ISO day. */
  function OfferedSlots(slots: seq<Bookings.TimeSlot>, teacherId: string, form: Form, cal: Calendar): (r: seq<Bookings.TimeSlot>)
    ensures form.selectedDate.None? ==> r == []
    ensures form.selectedDate.Some? ==>
              forall x :: x in r <==> x in slots && Bookings.OpenSlotOn(x, teacherId, Text.Split(cal.isoOf(form.selectedDate.value), 'T')[0])
    ensures form.selectedDate.Some? ==>
              forall x :: multiset(r)[x] == if Bookings.OpenSlotOn(x, teacherId, Text.Split(cal.isoOf(form.selectedDate.value), 'T')[0])
                                            then multiset(slots)[x] else 0
    ensures Seqs.IsSubseq(r, slots)
  {
    match form.selectedDate
    case None => []
    case Some(day) => Bookings.GetAvailableSlots(slots, teacherId, Text.Split(cal.isoOf(day), 'T')[0])
  }

  /** `selectedTime.split(':').map(Number)` read as hours and minutes; a
      missing minutes part or a part that is not a number makes the date
      invalid. */
  function ParseTime(t: string): (r: Option<(nat, nat)>)
    ensures r.Some? <==> (&& |Text.Split(t, ':')| >= 2
                          && Text.NumberOf(Text.Split(t, ':')[0]).Some?
                          && Text.NumberOf(Text.Split(t, ':')[1]).Some?)
  {
    var parts := Text.Split(t, ':');
    if |parts| < 2 then None
    else match (Text.NumberOf(parts[0]), Text.NumberOf(parts[1]))
      case (Some(h), Some(m)) => Some((h, m))
      case _ => None
  }

  /** The `HH:mm` text of a slot's start. */
  function ClockText(h: nat, m: nat): string
  {
    Text.TwoDigits(h) + ":" + Text.TwoDigits(m)
  }

  /** Every time the select offers parses back to its hours and minutes. */
  lemma ParseClockText(h: nat, m: nat)
    ensures ParseTime(ClockText(h, m)) == Some((h, m))
  {
    var hh := Text.TwoDigits(h);
    var mm := Text.TwoDigits(m);
    assert ':' !in hh by { assert forall i :: 0 <= i < |hh| ==> Text.IsDigit(hh[i]); }
    assert ':' !in mm by { assert forall i :: 0 <= i < |mm| ==> Text.IsDigit(mm[i]); }
    Text.SplitHead(hh, mm, ':');
    Text.SplitNoSep(mm, ':');
    assert ClockText(h, m) == hh + [':'] + mm;
    var parts := Text.Split(ClockText(h, m), ':');
    assert parts == [hh, mm];
    Text.NumberOfTwoDigits(h);
    Text.NumberOfTwoDigits(m);
    assert Text.NumberOf(parts[0]) == Some(h) && Text.NumberOf(parts[1]) == Some(m);
  }

  /** The book button is enabled when a date and a time are picked and
      someone is signed in. */
  predicate CanBook(user: Option<Auth.User>, form: Form)
  {
    form.selectedDate.Some? && form.selectedTime != "" && user.Some?
  }

  datatype Outcome =
    | NotSignedIn
    | MissingDateOrTime
    | InvalidTime
    | Booked(request: Bookings.BookingRequest)

  /** `handleBooking`: the two refusals in source order, then the request
      for the picked day and time. On success the dialog closes and the
      date, time and notes are cleared; the duration is kept. A time that
      does not parse leaves everything as it was. */
  function HandleBooking(user: Option<Auth.User>, form: Form, teacherId: string, skillName: string, cal: Calendar): (r: (Outcome, Form))
    ensures user.None? ==> r == (NotSignedIn, form)
    ensures user.Some? && !CanBook(user, form) ==> r == (MissingDateOrTime, form)
    ensures r.0.Booked? <==> CanBook(user, form) && ParseTime(form.selectedTime).Some?
    ensures r.0.Booked? ==>
              var req := r.0.request;
              var (h, m) := ParseTime(form.selectedTime).value;
              && req.learnerId == user.value.id && req.teacherId == teacherId && req.skillName == skillName
              && req.scheduledAt == cal.atTime(form.selectedDate.value, h, m)
              && req.durationMinutes == Minutes(form.duration)
              && req.status == Bookings.Scheduled && req.notes == Some(form.notes)
              && r.1 == Form(false, None, "", form.duration, "")
    ensures !r.0.Booked? ==> r.1 == form
  {
    if user.None? then (NotSignedIn, form)
    else if form.selectedDate.None? || form.selectedTime == "" then (MissingDateOrTime, form)
    else match ParseTime(form.selectedTime)
      case None => (InvalidTime, form)
      case Some((h, m)) =>
        var req := Bookings.BookingRequest(user.value.id, teacherId, skillName,
                                           cal.atTime(form.selectedDate.value, h, m),
                                           Minutes(form.duration), Bookings.Scheduled, Some(form.notes));
        (Booked(req), form.(open := false, selectedDate := None, selectedTime := "", notes := ""))
  }

  /** Booking a time the select offered always succeeds for a signed-in
      user, and afterwards no offered slot's start string equals the
      request's `scheduledAt`. */
  lemma BookOfferedTime(user: Auth.User, form: Form, teacherId: string, skillName: string, cal: Calendar,
                        h: nat, m: nat, st: Bookings.Store, id: string, createdAt: string, stamp: nat)
    requires form.selectedDate.Some? && form.selectedTime == ClockText(h, m)
    ensures HandleBooking(Some(user), form, teacherId, skillName, cal).0.Booked?
    ensures var req := HandleBooking(Some(user), form, teacherId, skillName, cal).0.request;
            var after := Bookings.CreateBooking(st, req, id, createdAt, stamp);
            forall x :: x in OfferedSlots(after.timeSlots, teacherId, form, cal) ==> x.startTime != req.scheduledAt
  {
    ParseClockText(h, m);
    assert form.selectedTime != "";
    var req := HandleBooking(Some(user), form, teacherId, skillName, cal).0.request;
    Bookings.CreatedTimeNotOffered(st, req, id, createdAt, stamp, teacherId,
                                   Text.Split(cal.isoOf(form.selectedDate.value), 'T')[0]);
  }

  /** The request's `scheduledAt` comes from `toISOString()`, which always
      writes milliseconds (`…:00.000Z`), while a slot's start written without
      a `.` (`…:00Z`) never equals it. So such a slot, offered before the
      booking, is still offered after it: the booked time stays bookable. */
  lemma BookedSlotStaysOffered(user: Auth.User, form: Form, teacherId: string, skillName: string, cal: Calendar,
                               h: nat, m: nat, st: Bookings.Store, id: string, createdAt: string, stamp: nat,
                               x: Bookings.TimeSlot)
    requires form.selectedDate.Some? && form.selectedTime == ClockText(h, m)
    requires '.' in cal.atTime(form.selectedDate.value, h, m)
    requires x in OfferedSlots(st.timeSlots, teacherId, form, cal) && '.' !in x.startTime
    ensures HandleBooking(Some(user), form, teacherId, skillName, cal).0.Booked?
    ensures var req := HandleBooking(Some(user), form, teacherId, skillName, cal).0.request;
            x in OfferedSlots(Bookings.CreateBooking(st, req, id, createdAt, stamp).timeSlots, teacherId, form, cal)
  {
    ParseClockText(h, m);
    assert form.selectedTime != "";
    var req := HandleBooking(Some(user), form, teacherId, skillName, cal).0.request;
    assert x.startTime != req.scheduledAt;
    Bookings.OtherSlotStaysOffered(st, req, id, createdAt, stamp, teacherId,
                                   Text.Split(cal.isoOf(form.selectedDate.value), 'T')[0], x);
  }
}
