/**
 * Request validation for events: the create body (title, event date and
 * description required; price and capacity optional and, when given,
 * greater than zero) and the all-optional update body.
 * Dates are integer timestamps.
 */
module EventSchemas {
  import opened Common
  import opened Models

  /** CreateEventParams: a validated create body. */
  datatype CreateEventParams = CreateEventParams(
    title: string,
    price: Option<int>,
    eventDate: int,
    description: string,
    maxCapacity: Option<int>)

  /** A create body as received: any field may be absent; an absent or null price or capacity is None. */
  datatype CreateEventBody = CreateEventBody(
    title: Option<string>,
    price: Option<int>,
    eventDate: Option<int>,
    description: Option<string>,
    maxCapacity: Option<int>)

  /** UpdateEventParams: every field optional; None means "not given". */
  datatype UpdateEventParams = UpdateEventParams(
    title: Option<string>,
    price: Option<int>,
    eventDate: Option<int>,
    description: Option<string>,
    maxCapacity: Option<int>)

  /** `Field(gt=0)` on an optional integer: None passes, a given value must exceed zero. */
  predicate PositiveIfGiven(v: Option<int>) {
    v.None? || v.value > 0
  }

  function RequiredError<T>(field: string, v: Option<T>): seq<FieldError> {
    if v.None? then [FieldError(field, Missing)] else []
  }

  function GreaterThanZeroError(field: string, v: Option<int>): seq<FieldError> {
    if PositiveIfGiven(v) then [] else [FieldError(field, GreaterThan)]
  }

  /** The position of a field in CreateEventParams' declaration. */
  function CreateFieldPosition(field: string): int {
    if field == "title" then 0
    else if field == "price" then 1
    else if field == "event_date" then 2
    else if field == "description" then 3
    else 4
  }

  /** Errors listed in strictly increasing declaration position: at most one per field. */
  ghost predicate InDeclarationOrder(errors: seq<FieldError>) {
    forall i, j :: 0 <= i < j < |errors| ==>
      CreateFieldPosition(errors[i].field) < CreateFieldPosition(errors[j].field)
  }

  /** Appending at most one error for the field at position k keeps the order. */
  lemma AppendInOrder(errors: seq<FieldError>, extra: seq<FieldError>, k: int)
    requires InDeclarationOrder(errors)
    requires forall e :: e in errors ==> CreateFieldPosition(e.field) < k
    requires |extra| <= 1 && forall e :: e in extra ==> CreateFieldPosition(e.field) == k
    ensures InDeclarationOrder(errors + extra)
    ensures forall e :: e in errors + extra ==> CreateFieldPosition(e.field) <= k
  {
    var all := errors + extra;
    forall i, j | 0 <= i < j < |all|
      ensures CreateFieldPosition(all[i].field) < CreateFieldPosition(all[j].field)
    {
      if j >= |errors| {
        assert all[i] in errors && all[j] in extra;
      } else {
        assert all[i] == errors[i] && all[j] == errors[j];
      }
    }
  }

  /**
   * The errors of a create body: one per missing required field and one per
   * non-positive price or capacity, in declaration order.
   */
  function CreateEventErrors(body: CreateEventBody): (errors: seq<FieldError>)
    ensures FieldError("title", Missing) in errors <==> body.title.None?
    ensures FieldError("event_date", Missing) in errors <==> body.eventDate.None?
    ensures FieldError("description", Missing) in errors <==> body.description.None?
    ensures FieldError("price", GreaterThan) in errors <==> !PositiveIfGiven(body.price)
    ensures FieldError("max_capacity", GreaterThan) in errors <==> !PositiveIfGiven(body.maxCapacity)
    ensures |errors| == (if body.title.None? then 1 else 0) + (if body.eventDate.None? then 1 else 0)
                        + (if body.description.None? then 1 else 0)
                        + (if PositiveIfGiven(body.price) then 0 else 1)
                        + (if PositiveIfGiven(body.maxCapacity) then 0 else 1)
  {
    RequiredError("title", body.title)
    + GreaterThanZeroError("price", body.price)
    + RequiredError("event_date", body.eventDate)
    + RequiredError("description", body.description)
    + GreaterThanZeroError("max_capacity", body.maxCapacity)
  }

  /** The errors of a create body come in declaration order. */
  lemma CreateEventErrorsInOrder(body: CreateEventBody)
    ensures InDeclarationOrder(CreateEventErrors(body))
  {
    var e0 := RequiredError("title", body.title);
    var e1 := e0 + GreaterThanZeroError("price", body.price);
    var e2 := e1 + RequiredError("event_date", body.eventDate);
    var e3 := e2 + RequiredError("description", body.description);
    assert [] + e0 == e0;
    AppendInOrder([], e0, 0);
    AppendInOrder(e0, GreaterThanZeroError("price", body.price), 1);
    AppendInOrder(e1, RequiredError("event_date", body.eventDate), 2);
    AppendInOrder(e2, RequiredError("description", body.description), 3);
    AppendInOrder(e3, GreaterThanZeroError("max_capacity", body.maxCapacity), 4);
  }

  /** Parsing a create body: every field error is reported, in declaration order. */
  function ValidateCreateEvent(body: CreateEventBody): (r: Validated<CreateEventParams>)
    ensures r.Accepted? <==>
      && body.title.Some? && body.eventDate.Some? && body.description.Some?
      && PositiveIfGiven(body.price) && PositiveIfGiven(body.maxCapacity)
    ensures r.Accepted? ==>
      r.value == CreateEventParams(body.title.value, body.price, body.eventDate.value,
                                   body.description.value, body.maxCapacity)
    ensures r.Rejected? ==>
      && (FieldError("title", Missing) in r.errors <==> body.title.None?)
      && (FieldError("event_date", Missing) in r.errors <==> body.eventDate.None?)
      && (FieldError("description", Missing) in r.errors <==> body.description.None?)
      && (FieldError("price", GreaterThan) in r.errors <==> !PositiveIfGiven(body.price))
      && (FieldError("max_capacity", GreaterThan) in r.errors <==> !PositiveIfGiven(body.maxCapacity))
    ensures r.Rejected? ==>
      |r.errors| == (if body.title.None? then 1 else 0) + (if body.eventDate.None? then 1 else 0)
                    + (if body.description.None? then 1 else 0)
                    + (if PositiveIfGiven(body.price) then 0 else 1)
                    + (if PositiveIfGiven(body.maxCapacity) then 0 else 1)
    ensures r.Rejected? ==> InDeclarationOrder(r.errors)
  {
    var errors := CreateEventErrors(body);
    CreateEventErrorsInOrder(body);
    if errors == [] then
      Accepted(CreateEventParams(body.title.value, body.price, body.eventDate.value,
                                 body.description.value, body.maxCapacity))
    else Rejected(errors)
  }

  /** Parsing an update body: only a given price or capacity is checked, and must exceed zero. */
  function ValidateUpdateEvent(body: UpdateEventParams): (r: Validated<UpdateEventParams>)
    ensures r.Accepted? <==> PositiveIfGiven(body.price) && PositiveIfGiven(body.maxCapacity)
    ensures r.Accepted? ==> r.value == body
    ensures r.Rejected? ==> forall e :: e in r.errors ==> e.kind == GreaterThan
    ensures r.Rejected? ==>
      && (FieldError("price", GreaterThan) in r.errors <==> !PositiveIfGiven(body.price))
      && (FieldError("max_capacity", GreaterThan) in r.errors <==> !PositiveIfGiven(body.maxCapacity))
      && |r.errors| == (if PositiveIfGiven(body.price) then 0 else 1)
                       + (if PositiveIfGiven(body.maxCapacity) then 0 else 1)
  {
    var errors := GreaterThanZeroError("price", body.price)
                  + GreaterThanZeroError("max_capacity", body.maxCapacity);
    if errors == [] then Accepted(body) else Rejected(errors)
  }

  function Merge<T>(given: Option<T>, current: T): T {
    if given.Some? then given.value else current
  }

  /** Applying an update body to an event: given fields replace, the rest are kept. */
  function ApplyUpdate(e: Event, u: UpdateEventParams): (r: Event)
    ensures r.id == e.id && r.organizerId == e.organizerId
    ensures u.title.None? ==> r.title == e.title
    ensures u.price.None? ==> r.price == e.price
    ensures u.eventDate.None? ==> r.eventDate == e.eventDate
    ensures u.description.None? ==> r.description == e.description
    ensures u.maxCapacity.None? ==> r.maxCapacity == e.maxCapacity
    ensures u.title.Some? ==> r.title == u.title.value
    ensures u.price.Some? ==> r.price == u.price
    ensures u.eventDate.Some? ==> r.eventDate == u.eventDate.value
    ensures u.description.Some? ==> r.description == u.description.value
    ensures u.maxCapacity.Some? ==> r.maxCapacity == u.maxCapacity
  {
    e.(title := Merge(u.title, e.title),
       price := if u.price.Some? then u.price else e.price,
       eventDate := Merge(u.eventDate, e.eventDate),
       description := Merge(u.description, e.description),
       maxCapacity := if u.maxCapacity.Some? then u.maxCapacity else e.maxCapacity)
  }

  /** An empty update leaves the event as it was. */
  lemma EmptyUpdateIsIdentity(e: Event)
    ensures ApplyUpdate(e, UpdateEventParams(None, None, None, None, None)) == e
  {
  }

  /** A full update sets every field to the given value and keeps the id and the owner. */
  lemma FullUpdateSetsEveryField(
    e: Event, title: string, price: int, eventDate: int, description: string, maxCapacity: int)
    ensures ApplyUpdate(e, UpdateEventParams(Some(title), Some(price), Some(eventDate),
                                             Some(description), Some(maxCapacity)))
            == Event(e.id, title, description, Some(price), Some(maxCapacity), eventDate, e.organizerId)
  {
  }

  /** Applying the same update twice is the same as applying it once. */
  lemma ApplyUpdateIdempotent(e: Event, u: UpdateEventParams)
    ensures ApplyUpdate(ApplyUpdate(e, u), u) == ApplyUpdate(e, u)
  {
  }

  /** The create cases the tests exercise: the required fields, and negative price or capacity. */
  lemma CreateEventExamples(now: int)
    ensures ValidateCreateEvent(CreateEventBody(None, None, None, None, None)) ==
              Rejected([FieldError("title", Missing), FieldError("event_date", Missing),
                        FieldError("description", Missing)])
    ensures ValidateCreateEvent(CreateEventBody(Some("Title"), Some(-1), Some(now), Some("Description"), None))
              == Rejected([FieldError("price", GreaterThan)])
    ensures ValidateCreateEvent(CreateEventBody(Some("Title"), None, Some(now), Some("Description"), Some(-1)))
              == Rejected([FieldError("max_capacity", GreaterThan)])
  {
  }
}
