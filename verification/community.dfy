/** The `Community` page: joining and leaving groups, registering for and
    leaving events, the capacity guard on the register button, and the
    window in which a registered event can be joined. Event dates are
    milliseconds. */
module Community {

  import opened Common
  import Bookings

  datatype Group = Group(
    id: string,
    name: string,
    description: string,
    category: string,
    members: int,
    image: string,
    isJoined: bool,
    tags: seq<string>)

  datatype EventType = Workshop | Meetup | StudyGroup | Webinar

  datatype Event = Event(
    id: string,
    title: string,
    description: string,
    organizer: string,
    organizerAvatar: string,
    date: int,
    duration: string,
    eventType: EventType,
    maxParticipants: int,
    currentParticipants: int,
    isRegistered: bool,
    meetingUrl: Option<string>,
    tags: seq<string>)

  /** Thirty minutes, in milliseconds. */
  const JoinWindowMs: int := 30 * 60 * 1000

  /** `handleJoinGroup`: each group with the id flips `isJoined`, gaining a
      member when joining and losing one when leaving; all other groups are
      untouched. */
  function JoinGroup(groups: seq<Group>, groupId: string): (r: seq<Group>)
    ensures |r| == |groups|
    ensures forall i :: 0 <= i < |groups| && groups[i].id != groupId ==> r[i] == groups[i]
    ensures forall i :: 0 <= i < |groups| && groups[i].id == groupId ==>
              && r[i].isJoined == !groups[i].isJoined
              && r[i].members == groups[i].members + (if groups[i].isJoined then -1 else 1)
              && r[i] == groups[i].(isJoined := r[i].isJoined, members := r[i].members)
  {
    seq(|groups|, i requires 0 <= i < |groups| =>
      if groups[i].id == groupId
      then groups[i].(isJoined := !groups[i].isJoined,
                      members := if groups[i].isJoined then groups[i].members - 1 else groups[i].members + 1)
      else groups[i])
  }

  /** Joining and then leaving (or the reverse) restores every group. */
  lemma JoinGroupTwice(groups: seq<Group>, groupId: string)
    ensures JoinGroup(JoinGroup(groups, groupId), groupId) == groups
  {
    var twice := JoinGroup(JoinGroup(groups, groupId), groupId);
    assert forall i :: 0 <= i < |groups| ==> twice[i] == groups[i];
  }

  /** `handleRegisterEvent`: each event with the id flips `isRegistered`,
      moving `currentParticipants` by one in the same direction; all other
      events are untouched. */
  function RegisterEvent(events: seq<Event>, eventId: string): (r: seq<Event>)
    ensures |r| == |events|
    ensures forall i :: 0 <= i < |events| && events[i].id != eventId ==> r[i] == events[i]
    ensures forall i :: 0 <= i < |events| && events[i].id == eventId ==>
              && r[i].isRegistered == !events[i].isRegistered
              && r[i].currentParticipants == events[i].currentParticipants + (if events[i].isRegistered then -1 else 1)
              && r[i] == events[i].(isRegistered := r[i].isRegistered, currentParticipants := r[i].currentParticipants)
  {
    seq(|events|, i requires 0 <= i < |events| =>
      if events[i].id == eventId
      then events[i].(isRegistered := !events[i].isRegistered,
                      currentParticipants := if events[i].isRegistered then events[i].currentParticipants - 1
                                             else events[i].currentParticipants + 1)
      else events[i])
  }

  /** Registering and then leaving (or the reverse) restores every event. */
  lemma RegisterEventTwice(events: seq<Event>, eventId: string)
    ensures RegisterEvent(RegisterEvent(events, eventId), eventId) == events
  {
    var twice := RegisterEvent(RegisterEvent(events, eventId), eventId);
    assert forall i :: 0 <= i < |events| ==> twice[i] == events[i];
  }

  /** The register button is enabled when the user is registered (leaving
      is always possible) or the event still has room. */
  predicate RegisterEnabled(e: Event)
  {
    e.isRegistered || e.currentParticipants < e.maxParticipants
  }

  predicate WithinCapacity(events: seq<Event>)
  {
    forall i :: 0 <= i < |events| ==> events[i].currentParticipants <= events[i].maxParticipants
  }

  /** Pressing an enabled register button never overfills an event. */
  lemma RegisterKeepsCapacity(events: seq<Event>, eventId: string)
    requires WithinCapacity(events)
    requires forall i :: 0 <= i < |events| && events[i].id == eventId ==> RegisterEnabled(events[i])
    ensures WithinCapacity(RegisterEvent(events, eventId))
  {
  }

  /** `canJoin`: the user is registered and the event starts less than
      thirty minutes from now, in either direction. */
  predicate CanJoin(e: Event, now: int)
  {
    e.isRegistered && -JoinWindowMs < e.date - now < JoinWindowMs
  }

  /** The join window is symmetric around the event time, closed to anyone
      not registered, and 30 minutes wide on each side. */
  lemma CanJoinWindow(e: Event, d: int)
    ensures CanJoin(e, e.date + d) <==> CanJoin(e, e.date - d)
    ensures CanJoin(e, e.date + d) <==> e.isRegistered && -1800000 < d < 1800000
    ensures !e.isRegistered ==> !CanJoin(e, e.date + d)
  {
  }

  /** `handleJoinEvent`: a link is opened only when it is present and not
      empty. */
  function JoinEventLink(url: Option<string>): (r: Option<string>)
    ensures r.Some? <==> url.Some? && url.value != ""
    ensures r.Some? ==> r == url
  {
    Bookings.LinkOf(url)
  }
}
