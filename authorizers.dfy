/**
 * The authorization guards placed in front of event operations, and the
 * event lookup they run after. Each guard reads the current user, the event
 * or the enrollment relation and either raises or passes the call through
 * unchanged; none writes anything.
 */
module Authorizers {
  import opened Common
  import opened Models

  /** The enrollment relation: (participant_id, event_id) pairs. */
  type Enrollments = set<(int, int)>

  /** `current_user_role_is_organizer`. */
  function CurrentUserIsOrganizer(user: User): (r: Outcome)
    ensures r.Pass? <==> user.role == Organizer
    ensures r.Fail? ==> r.error == UserNotOrganizer
  {
    if user.role != Organizer then Fail(UserNotOrganizer) else Pass
  }

  /** `current_user_role_is_participant`. */
  function CurrentUserIsParticipant(user: User): (r: Outcome)
    ensures r.Pass? <==> user.role == Participant
    ensures r.Fail? ==> r.error == UserNotParticipant
  {
    if user.role != Participant then Fail(UserNotParticipant) else Pass
  }

  /** `event_belongs_to_organizer`: decided by the owner id alone, whatever the user's role. */
  function EventBelongsToOrganizer(user: User, event: Event): (r: Outcome)
    ensures r.Pass? <==> event.organizerId == user.id
    ensures r.Fail? ==> r.error == EventNotBelongToUser
  {
    if event.organizerId != user.id then Fail(EventNotBelongToUser) else Pass
  }

  /** `participant_is_not_enrolled`. */
  function ParticipantIsNotEnrolled(enrollments: Enrollments, user: User, event: Event): (r: Outcome)
    ensures r.Pass? <==> (user.id, event.id) !in enrollments
    ensures r.Fail? ==> r.error == AlreadyEnrolled
  {
    if (user.id, event.id) in enrollments then Fail(AlreadyEnrolled) else Pass
  }

  /** `participant_is_enrolled`. */
  function ParticipantIsEnrolled(enrollments: Enrollments, user: User, event: Event): (r: Outcome)
    ensures r.Pass? <==> (user.id, event.id) in enrollments
    ensures r.Fail? ==> r.error == NotEnrolled
  {
    if (user.id, event.id) !in enrollments then Fail(NotEnrolled) else Pass
  }

  /** For every user and event, exactly one of the two enrollment guards lets the call through. */
  lemma EnrollmentGuardsAreComplementary(enrollments: Enrollments, user: User, event: Event)
    ensures ParticipantIsNotEnrolled(enrollments, user, event).Pass?
              != ParticipantIsEnrolled(enrollments, user, event).Pass?
  {
  }

  /** An organizer is still refused an event another organizer owns. */
  lemma OwnershipOverridesRole(user: User, event: Event)
    requires user.role == Organizer && event.organizerId != user.id
    ensures CurrentUserIsOrganizer(user) == Pass
    ensures EventBelongsToOrganizer(user, event) == Fail(EventNotBelongToUser)
  {
  }

  /** `get_event_by_id`: the event with that id, or NotFound("Event"). */
  function GetEventById(events: seq<Event>, eventId: int): (r: Result<Event>)
    ensures r.Ok? ==> r.value in events && r.value.id == eventId
    ensures r.Err? ==> r.error == NotFound("Event") && forall e :: e in events ==> e.id != eventId
  {
    match FindEventById(events, eventId)
    case Some(e) => Ok(e)
    case None => Err(NotFound("Event"))
  }

  /** Under the primary key, a stored event is found by its id. */
  lemma GetStoredEvent(events: seq<Event>, e: Event)
    requires UniqueEventIds(events) && e in events
    ensures GetEventById(events, e.id) == Ok(e)
  {
    FindStoredEventById(events, e);
  }

  /*
   * The guard chains of the event endpoints: the event lookup first, then the
   * role, then ownership or enrollment. The lookup is the dependency that
   * supplies the `event` the guards read, so it runs before any of them. The
   * cancel tests fix the role check before the enrollment check. For
   * enrolling and for an organizer's own event, the role check coming before
   * the second guard is this model's choice.
   */

  /** Enrolling: the event exists, the user is a participant and is not yet enrolled. */
  function EnrollChecks(events: seq<Event>, enrollments: Enrollments, user: User, eventId: int)
    : (r: Result<Event>)
    ensures r.Ok? <==>
      (exists e :: e in events && e.id == eventId) && user.role == Participant
      && (user.id, eventId) !in enrollments
    ensures r.Ok? ==> r.value in events && r.value.id == eventId
    ensures (forall e :: e in events ==> e.id != eventId) ==> r == Err(NotFound("Event"))
    ensures ((exists e :: e in events && e.id == eventId) && user.role != Participant)
              ==> r == Err(UserNotParticipant)
    ensures ((exists e :: e in events && e.id == eventId) && user.role == Participant
              && (user.id, eventId) in enrollments) ==> r == Err(AlreadyEnrolled)
  {
    var event :- GetEventById(events, eventId);
    Then(CurrentUserIsParticipant(user),
      Then(ParticipantIsNotEnrolled(enrollments, user, event), Ok(event)))
  }

  /** Cancelling an enrollment: the event exists, the user is a participant and is enrolled. */
  function CancelEnrollmentChecks(events: seq<Event>, enrollments: Enrollments, user: User, eventId: int)
    : (r: Result<Event>)
    ensures r.Ok? <==>
      (exists e :: e in events && e.id == eventId) && user.role == Participant
      && (user.id, eventId) in enrollments
    ensures r.Ok? ==> r.value in events && r.value.id == eventId
    ensures (forall e :: e in events ==> e.id != eventId) ==> r == Err(NotFound("Event"))
    ensures ((exists e :: e in events && e.id == eventId) && user.role != Participant)
              ==> r == Err(UserNotParticipant)
    ensures ((exists e :: e in events && e.id == eventId) && user.role == Participant
              && (user.id, eventId) !in enrollments) ==> r == Err(NotEnrolled)
  {
    var event :- GetEventById(events, eventId);
    Then(CurrentUserIsParticipant(user),
      Then(ParticipantIsEnrolled(enrollments, user, event), Ok(event)))
  }

  /** Viewing an event's details: the event exists and the user is a participant. */
  function EventDetailsChecks(events: seq<Event>, user: User, eventId: int): (r: Result<Event>)
    ensures r.Ok? <==> (exists e :: e in events && e.id == eventId) && user.role == Participant
    ensures r.Ok? ==> r.value in events && r.value.id == eventId
    ensures (forall e :: e in events ==> e.id != eventId) ==> r == Err(NotFound("Event"))
    ensures ((exists e :: e in events && e.id == eventId) && user.role != Participant)
              ==> r == Err(UserNotParticipant)
  {
    var event :- GetEventById(events, eventId);
    Then(CurrentUserIsParticipant(user), Ok(event))
  }

  /** Updating, deleting or viewing one's own event: the event exists, the user is an organizer and owns it. */
  function OwnEventChecks(events: seq<Event>, user: User, eventId: int): (r: Result<Event>)
    ensures r.Ok? <==>
      GetEventById(events, eventId).Ok? && user.role == Organizer
      && GetEventById(events, eventId).value.organizerId == user.id
    ensures r.Ok? ==> r.value in events && r.value.id == eventId && r.value.organizerId == user.id
    ensures (forall e :: e in events ==> e.id != eventId) ==> r == Err(NotFound("Event"))
    ensures ((exists e :: e in events && e.id == eventId) && user.role != Organizer)
              ==> r == Err(UserNotOrganizer)
    ensures (GetEventById(events, eventId).Ok? && user.role == Organizer
             && GetEventById(events, eventId).value.organizerId != user.id)
              ==> r == Err(EventNotBelongToUser)
  {
    var event :- GetEventById(events, eventId);
    Then(CurrentUserIsOrganizer(user),
      Then(EventBelongsToOrganizer(user, event), Ok(event)))
  }

  /**
   * The lookup comes first: asking for a missing event yields NotFound
   * whatever the user's role, so the role checks never run on a missing id.
   */
  lemma NotFoundPrecedesRoleChecks(events: seq<Event>, enrollments: Enrollments, user: User, eventId: int)
    requires forall e :: e in events ==> e.id != eventId
    ensures EnrollChecks(events, enrollments, user, eventId) == Err(NotFound("Event"))
    ensures CancelEnrollmentChecks(events, enrollments, user, eventId) == Err(NotFound("Event"))
    ensures EventDetailsChecks(events, user, eventId) == Err(NotFound("Event"))
    ensures OwnEventChecks(events, user, eventId) == Err(NotFound("Event"))
  {
  }

  /** After one enrollment of a pair is recorded, enrolling the same pair again is refused with AlreadyEnrolled. */
  lemma EnrollingTwiceConflicts(events: seq<Event>, enrollments: Enrollments, user: User, eventId: int)
    requires EnrollChecks(events, enrollments, user, eventId).Ok?
    ensures EnrollChecks(events, enrollments + {(user.id, eventId)}, user, eventId) == Err(AlreadyEnrolled)
    ensures CancelEnrollmentChecks(events, enrollments + {(user.id, eventId)}, user, eventId).Ok?
  {
  }
}
