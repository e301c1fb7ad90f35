/** The `VideoCall` dialog: the four on/off controls, the call timer and
    its `mm:ss` display, ending the call, handing over to the external
    meeting, the participant count and the meeting id shown in the footer.
    The one-second interval is modelled by `Tick`; opening a window is the
    returned link. */
module VideoCall {

  import Text
  import Bookings

  datatype Call = Call(open: bool, videoOn: bool, audioOn: bool, screenSharing: bool, showChat: bool, seconds: nat)

  /** The dialog as it opens: camera and microphone on, no screen sharing,
      chat hidden, timer at zero. */
  function Opened(): (c: Call)
    ensures c.open && c.videoOn && c.audioOn && !c.screenSharing && !c.showChat && c.seconds == 0
  {
    Call(true, true, true, false, false, 0)
  }

  /** The interval callback: one second more, and only while open. */
  function Tick(c: Call): (r: Call)
    ensures r.seconds == if c.open then c.seconds + 1 else c.seconds
    ensures r.(seconds := c.seconds) == c
  {
    if c.open then c.(seconds := c.seconds + 1) else c
  }

  /** `n` firings of the interval callback. */
  function Ticks(c: Call, n: nat): Call
  {
    if n == 0 then c else Tick(Ticks(c, n - 1))
  }

  /** After `n` seconds of an opened call the counter holds `n`, the
      controls are as opened, and the header reads back as `n` seconds. */
  lemma {:induction false} OpenedTicksReadBack(n: nat)
    ensures Ticks(Opened(), n) == Opened().(seconds := n)
    ensures var parts := Text.Split(FormatDuration(Ticks(Opened(), n).seconds), ':');
            && |parts| == 2 && Text.NumberOf(parts[0]).Some? && Text.NumberOf(parts[1]).Some?
            && 60 * Text.NumberOf(parts[0]).value + Text.NumberOf(parts[1]).value == n
  {
    OpenedTicks(n);
    FormatDurationReadsBack(n);
  }

  lemma {:induction false} OpenedTicks(n: nat)
    ensures Ticks(Opened(), n) == Opened().(seconds := n)
  {
    if n > 0 {
      OpenedTicks(n - 1);
    }
  }

  datatype Control = Audio | Video | ScreenShare | ChatPanel

  /** One control button: flips its own flag and nothing else. */
  function Toggle(c: Call, ctl: Control): (r: Call)
    ensures ctl == Audio ==> r == c.(audioOn := !c.audioOn)
    ensures ctl == Video ==> r == c.(videoOn := !c.videoOn)
    ensures ctl == ScreenShare ==> r == c.(screenSharing := !c.screenSharing)
    ensures ctl == ChatPanel ==> r == c.(showChat := !c.showChat)
  {
    match ctl
    case Audio => c.(audioOn := !c.audioOn)
    case Video => c.(videoOn := !c.videoOn)
    case ScreenShare => c.(screenSharing := !c.screenSharing)
    case ChatPanel => c.(showChat := !c.showChat)
  }

  /** Pressing a control twice undoes it, and two different controls can
      be pressed in either order. */
  lemma ToggleLaws(c: Call, a: Control, b: Control)
    ensures Toggle(Toggle(c, a), a) == c
    ensures Toggle(Toggle(c, a), b) == Toggle(Toggle(c, b), a)
  {
  }

  /** `formatDuration`: whole minutes and leftover seconds, each at least
      two digits, joined by a colon. */
  function FormatDuration(seconds: nat): (r: string)
    ensures |r| >= 5 && r[|r| - 3] == ':'
    ensures Text.AllDigits(r[..|r| - 3]) && Text.AllDigits(r[|r| - 2..])
  {
    assert |Text.TwoDigits(seconds % 60)| == 2 by {
      var n := seconds % 60;
      assert n >= 10 ==> |Text.Decimal(n)| == |Text.Decimal(n / 10)| + 1;
    }
    Text.TwoDigits(seconds / 60) + ":" + Text.TwoDigits(seconds % 60)
  }

  /** Reading the display back gives the minutes and the seconds under a
      minute, which together are the elapsed time. */
  lemma FormatDurationReadsBack(seconds: nat)
    ensures var parts := Text.Split(FormatDuration(seconds), ':');
            && |parts| == 2
            && Text.NumberOf(parts[0]).Some? && Text.NumberOf(parts[1]).Some?
            && Text.NumberOf(parts[1]).value < 60
            && 60 * Text.NumberOf(parts[0]).value + Text.NumberOf(parts[1]).value == seconds
  {
    var mm := Text.TwoDigits(seconds / 60);
    var ss := Text.TwoDigits(seconds % 60);
    assert ':' !in mm by { assert forall i :: 0 <= i < |mm| ==> Text.IsDigit(mm[i]); }
    assert ':' !in ss by { assert forall i :: 0 <= i < |ss| ==> Text.IsDigit(ss[i]); }
    Text.SplitHead(mm, ss, ':');
    Text.SplitNoSep(ss, ':');
    assert FormatDuration(seconds) == mm + [':'] + ss;
    var parts := Text.Split(FormatDuration(seconds), ':');
    assert parts == [mm, ss];
    Text.NumberOfTwoDigits(seconds / 60);
    Text.NumberOfTwoDigits(seconds % 60);
  }

  /** `handleEndCall`: the timer is reset and the dialog closes. */
  function EndCall(c: Call): (r: Call)
    ensures !r.open && r.seconds == 0
    ensures r.(open := c.open, seconds := c.seconds) == c
  {
    c.(open := false, seconds := 0)
  }

  /** A closed call does not count: ticking after the end keeps zero. */
  lemma NoTickAfterEnd(c: Call)
    ensures Tick(EndCall(c)).seconds == 0
  {
  }

  /** `handleJoinExternalMeeting`: the meeting link is opened, whatever it
      is, and the call ends. */
  function JoinExternal(c: Call, meetingUrl: string): (r: (string, Call))
    ensures r.0 == meetingUrl
    ensures r.1 == EndCall(c)
  {
    (meetingUrl, EndCall(c))
  }

  /** `meetingUrl.split('/').pop()`: what follows the last slash, or the
      whole link when it has none. */
  function MeetingId(meetingUrl: string): (r: string)
    ensures '/' !in r && |r| <= |meetingUrl| && r == meetingUrl[|meetingUrl| - |r|..]
    ensures |r| < |meetingUrl| ==> meetingUrl[|meetingUrl| - |r| - 1] == '/'
  {
    var parts := Text.Split(meetingUrl, '/');
    Text.LastPiece(meetingUrl, '/');
    parts[|parts| - 1]
  }

  /** For a link generated by a booking whose skill name has no slash, the
      meeting id is the Jitsi room name: `skillswap-`, the slug, `-`, and
      the timestamp. */
  lemma MeetingIdOfBooking(skill: string, stamp: nat)
    requires '/' !in skill
    ensures MeetingId(Bookings.MeetingUrl(skill, stamp)) == Bookings.RoomPrefix + Bookings.Slug(skill) + "-" + Text.Decimal(stamp)
  {
    var slug := Bookings.Slug(skill);
    var d := Text.Decimal(stamp);
    var room := Bookings.RoomPrefix + slug + "-" + d;
    SlugHasNoSlash(skill);
    RoomHasNoSlash(slug, d);
    Bookings.MeetingUrlRoom(skill, stamp);
    Text.LastPieceAfter(Bookings.JitsiBase, room, '/');
  }

  /** A room name built from a slash-free slug and a decimal stamp has no slash. */
  lemma RoomHasNoSlash(slug: string, d: string)
    requires '/' !in slug && Text.AllDigits(d)
    ensures '/' !in Bookings.RoomPrefix + slug + "-" + d
  {
    assert '/' !in d by { assert forall i :: 0 <= i < |d| ==> Text.IsDigit(d[i]); }
  }

  /** Lower-casing and dashing never introduce a slash. */
  lemma SlugHasNoSlash(skill: string)
    requires '/' !in skill
    ensures '/' !in Bookings.Slug(skill)
  {
    var slug := Bookings.Slug(skill);
    var low := Text.Lower(skill);
    forall i | 0 <= i < |slug| ensures slug[i] != '/' {
      if slug[i] != '-' {
        assert slug[i] in low;
        var j :| 0 <= j < |low| && low[j] == slug[i];
        assert skill[j] in skill;
      }
    }
  }
}
