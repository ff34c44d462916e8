/** `GlobalExceptionHandler`: turns the exceptions that leave the core into
    RFC 9457 problem details. The client-side failures keep their message,
    the server-side ones get a fixed text; bean-validation failures list one
    message per field. */
module ExceptionHandler {
  import opened Types

  /** The four statuses the handler answers with. */
  datatype HttpStatus = BadRequest | Conflict | ServiceUnavailable | InternalServerError

  function Code(status: HttpStatus): int {
    match status
    case BadRequest => 400
    case Conflict => 409
    case ServiceUnavailable => 503
    case InternalServerError => 500
  }

  function ReasonPhrase(status: HttpStatus): string {
    match status
    case BadRequest => "Bad Request"
    case Conflict => "Conflict"
    case ServiceUnavailable => "Service Unavailable"
    case InternalServerError => "Internal Server Error"
  }

  const UnavailableDetail := "Try Later - credit card service temporarily unavailable"
  const UnexpectedDetail := "An unexpected error occurred. Please try again later."
  const ValidationDetail := "Validation failed for request body"
  const InvalidValue := "Invalid value"

  /** A value stored under a problem-detail property. */
  datatype PropertyValue =
    | Timestamp(at: Instant)
    | Text(text: string)
    | FieldMessages(entries: seq<(string, string)>)

  type Properties = seq<(string, PropertyValue)>

  /** Index of the first entry under `key`, or `|entries|` when there is none. */
  function IndexOfKey<V>(entries: seq<(string, V)>, key: string): (i: nat)
    ensures i <= |entries|
    ensures forall l | 0 <= l < i :: entries[l].0 != key
    ensures i < |entries| ==> entries[i].0 == key
    decreases |entries|
  {
    if entries == [] then 0
    else
      var init := entries[..|entries| - 1];
      var i := IndexOfKey(init, key);
      if i < |init| then i else if entries[|entries| - 1].0 == key then |init| else |entries|
  }

  /** The value stored under `name`, if any. */
  function Lookup(props: Properties, name: string): (v: Option<PropertyValue>)
    ensures v.Some? <==> exists i | 0 <= i < |props| :: props[i].0 == name
  {
    var i := IndexOfKey(props, name);
    if i < |props| then Some(props[i].1) else None
  }

  /** `setProperty` on the insertion-ordered property map: a known name keeps
      its place and takes the new value, a new name goes last, and every
      other entry keeps its place and value. */
  function Put(props: Properties, name: string, value: PropertyValue): (r: Properties)
    ensures |r| == |props| + (if IndexOfKey(props, name) < |props| then 0 else 1)
    ensures r[IndexOfKey(props, name)] == (name, value)
    ensures forall j | 0 <= j < |props| && props[j].0 != name :: r[j] == props[j]
  {
    var i := IndexOfKey(props, name);
    if i == |props| then props + [(name, value)] else props[i := (name, value)]
  }

  /** After `Put`, the name holds the new value. */
  lemma PutLookup(props: Properties, name: string, value: PropertyValue)
    ensures Lookup(Put(props, name, value), name) == Some(value)
  {
    var r := Put(props, name, value);
    var i := IndexOfKey(props, name);
    assert forall l | 0 <= l < i :: r[l] == props[l];
    IndexOfKeyUnique(r, name, i);
  }

  /** After `Put`, every other name keeps its value. */
  lemma PutLookupOther(props: Properties, name: string, value: PropertyValue, other: string)
    requires other != name
    ensures Lookup(Put(props, name, value), other) == Lookup(props, other)
  {
    var r := Put(props, name, value);
    var k := IndexOfKey(props, other);
    if k < |props| {
      assert forall l | 0 <= l <= k :: props[l].0 != name ==> r[l] == props[l];
      assert forall l | 0 <= l < k :: r[l].0 != other;
      IndexOfKeyUnique(r, other, k);
    } else {
      assert forall l | 0 <= l < |r| :: r[l].0 != other;
      IndexOfKeyUnique(r, other, |r|);
    }
  }

  /** `IndexOfKey` is the first matching index. */
  lemma IndexOfKeyUnique<V>(entries: seq<(string, V)>, key: string, i: nat)
    requires i <= |entries|
    requires forall l | 0 <= l < i :: entries[l].0 != key
    requires i < |entries| ==> entries[i].0 == key
    ensures IndexOfKey(entries, key) == i
  {
  }

  /** `setProperty` for each entry in turn, as text values. */
  function PutTexts(props: Properties, entries: seq<(string, string)>): (r: Properties)
    ensures |r| >= |props|
    decreases |entries|
  {
    if entries == [] then props
    else
      var last := entries[|entries| - 1];
      Put(PutTexts(props, entries[..|entries| - 1]), last.0, Text(last.1))
  }

  /** After `PutTexts`, an entry that no later entry overrides reads back its
      text. */
  lemma {:induction false} PutTextsLookup(props: Properties, entries: seq<(string, string)>, i: nat)
    requires i < |entries|
    requires forall j | i < j < |entries| :: entries[j].0 != entries[i].0
    ensures Lookup(PutTexts(props, entries), entries[i].0) == Some(Text(entries[i].1))
    decreases |entries|
  {
    var init, last := entries[..|entries| - 1], entries[|entries| - 1];
    if i == |entries| - 1 {
      PutLookup(PutTexts(props, init), last.0, Text(last.1));
    } else {
      assert init[i] == entries[i];
      PutTextsLookup(props, init, i);
      PutLookupOther(PutTexts(props, init), last.0, Text(last.1), entries[i].0);
    }
  }

  /** After `PutTexts`, a name no entry carries keeps its value. */
  lemma {:induction false} PutTextsLookupOther(props: Properties, entries: seq<(string, string)>, name: string)
    requires forall j | 0 <= j < |entries| :: entries[j].0 != name
    ensures Lookup(PutTexts(props, entries), name) == Lookup(props, name)
    decreases |entries|
  {
    if entries != [] {
      var init, last := entries[..|entries| - 1], entries[|entries| - 1];
      PutTextsLookupOther(props, init, name);
      PutLookupOther(PutTexts(props, init), last.0, Text(last.1), name);
    }
  }

  /** A field error as the binding result reports it. */
  datatype FieldError = FieldError(field: string, defaultMessage: Option<string>)

  /** The message kept for one field error. */
  function MessageOf(e: FieldError): string {
    if e.defaultMessage.Some? then e.defaultMessage.value else InvalidValue
  }

  /** Index of the first error on `field`, or `|errors|` when there is none. */
  function FirstIndexOf(errors: seq<FieldError>, field: string): (i: nat)
    ensures i <= |errors|
    ensures forall l | 0 <= l < i :: errors[l].field != field
    ensures i < |errors| ==> errors[i].field == field
    decreases |errors|
  {
    if errors == [] then 0
    else
      var init := errors[..|errors| - 1];
      var i := FirstIndexOf(init, field);
      if i < |init| then i else if errors[|errors| - 1].field == field then |init| else |errors|
  }

  /** The errors map of the validation handler: field errors collected into
      an insertion-ordered map keyed by field, keeping the first message of a
      repeated field and writing "Invalid value" for a missing one. */
  function CollectFieldErrors(errors: seq<FieldError>): (entries: seq<(string, string)>)
    ensures |entries| <= |errors|
    decreases |errors|
  {
    if errors == [] then []
    else
      var previous := CollectFieldErrors(errors[..|errors| - 1]);
      var e := errors[|errors| - 1];
      if IndexOfKey(previous, e.field) < |previous| then previous else previous + [(e.field, MessageOf(e))]
  }

  /** A field has an entry exactly when some error is on it. */
  lemma {:induction false} CollectedKeys(errors: seq<FieldError>, field: string)
    ensures IndexOfKey(CollectFieldErrors(errors), field) < |CollectFieldErrors(errors)|
            <==> FirstIndexOf(errors, field) < |errors|
    decreases |errors|
  {
    if errors != [] {
      var init := errors[..|errors| - 1];
      var previous := CollectFieldErrors(init);
      var e := errors[|errors| - 1];
      CollectedKeys(init, field);
      CollectedKeys(init, e.field);
      if IndexOfKey(previous, e.field) == |previous| {
        var entries := previous + [(e.field, MessageOf(e))];
        assert entries[..|previous|] == previous;
      }
    }
  }

  /** No field has two entries. */
  lemma {:induction false} CollectedDistinct(errors: seq<FieldError>)
    ensures forall i, j | 0 <= i < j < |CollectFieldErrors(errors)| ::
              CollectFieldErrors(errors)[i].0 != CollectFieldErrors(errors)[j].0
    decreases |errors|
  {
    if errors != [] {
      CollectedDistinct(errors[..|errors| - 1]);
    }
  }

  /** An error added at the end does not move the first error of a field
      already seen. */
  lemma FirstIndexKept(errors: seq<FieldError>, field: string)
    requires errors != [] && FirstIndexOf(errors[..|errors| - 1], field) < |errors| - 1
    ensures FirstIndexOf(errors, field) == FirstIndexOf(errors[..|errors| - 1], field)
    ensures errors[FirstIndexOf(errors, field)] == errors[..|errors| - 1][FirstIndexOf(errors, field)]
  {
  }

  /** Each entry holds the message of the first error on its field. */
  lemma {:induction false} CollectedMessages(errors: seq<FieldError>)
    ensures forall i | 0 <= i < |CollectFieldErrors(errors)| ::
              && FirstIndexOf(errors, CollectFieldErrors(errors)[i].0) < |errors|
              && CollectFieldErrors(errors)[i].1 == MessageOf(errors[FirstIndexOf(errors, CollectFieldErrors(errors)[i].0)])
    decreases |errors|
  {
    if errors != [] {
      var init := errors[..|errors| - 1];
      var e := errors[|errors| - 1];
      var previous := CollectFieldErrors(init);
      var entries := CollectFieldErrors(errors);
      CollectedMessages(init);
      forall i | 0 <= i < |entries|
        ensures FirstIndexOf(errors, entries[i].0) < |errors|
        ensures entries[i].1 == MessageOf(errors[FirstIndexOf(errors, entries[i].0)])
      {
        if i < |previous| {
          assert entries[i] == previous[i];
          FirstIndexKept(errors, previous[i].0);
        } else {
          assert entries[i] == (e.field, MessageOf(e));
          CollectedKeys(init, e.field);
        }
      }
    }
  }

  /** Entries come in the order their fields first appear. */
  lemma {:induction false} CollectedInFirstAppearanceOrder(errors: seq<FieldError>)
    ensures forall i, j | 0 <= i < j < |CollectFieldErrors(errors)| ::
              FirstIndexOf(errors, CollectFieldErrors(errors)[i].0) < FirstIndexOf(errors, CollectFieldErrors(errors)[j].0)
    decreases |errors|
  {
    if errors != [] {
      var init := errors[..|errors| - 1];
      var e := errors[|errors| - 1];
      var previous := CollectFieldErrors(init);
      var entries := CollectFieldErrors(errors);
      CollectedInFirstAppearanceOrder(init);
      CollectedMessages(init);
      forall i | 0 <= i < |previous|
        ensures entries[i] == previous[i]
        ensures FirstIndexOf(errors, previous[i].0) == FirstIndexOf(init, previous[i].0) < |init|
      {
        FirstIndexKept(errors, previous[i].0);
      }
      if |entries| > |previous| {
        assert entries[|previous|] == (e.field, MessageOf(e));
        CollectedKeys(init, e.field);
      }
    }
  }

  /** Every erroneous field has an entry. */
  lemma CollectedCoversEveryField(errors: seq<FieldError>, k: nat)
    requires k < |errors|
    ensures IndexOfKey(CollectFieldErrors(errors), errors[k].field) < |CollectFieldErrors(errors)|
  {
    CollectedKeys(errors, errors[k].field);
  }

  /** Spring's `ProblemDetail`: status, detail, title and the ordered
      property map. */
  class ProblemDetail {
    var status: HttpStatus
    var detail: string
    var title: Option<string>
    var properties: Properties

    /** `ProblemDetail.forStatusAndDetail`. */
    constructor ForStatusAndDetail(status: HttpStatus, detail: string)
      ensures this.status == status && this.detail == detail
      ensures title == None && properties == []
    {
      this.status := status;
      this.detail := detail;
      title := None;
      properties := [];
    }

    /** `getTitle`: the title set, or else the status's reason phrase. */
    function Title(): (t: string)
      reads this
      ensures title.Some? ==> t == title.value
      ensures title.None? ==> t == ReasonPhrase(status)
    {
      if title.Some? then title.value else ReasonPhrase(status)
    }

    method SetTitle(t: string)
      modifies this`title
      ensures title == Some(t)
    {
      title := Some(t);
    }

    method SetProperty(name: string, value: PropertyValue)
      modifies this`properties
      ensures properties == Put(old(properties), name, value)
    {
      properties := Put(properties, name, value);
    }

    /** `forEach(problem::setProperty)` over text entries, in order. */
    method SetTextProperties(entries: seq<(string, string)>)
      modifies this`properties
      ensures properties == PutTexts(old(properties), entries)
    {
      var i := 0;
      while i < |entries|
        invariant 0 <= i <= |entries|
        invariant properties == PutTexts(old(properties), entries[..i])
      {
        assert entries[..i + 1][..i] == entries[..i];
        SetProperty(entries[i].0, Text(entries[i].1));
        i := i + 1;
      }
      assert entries[..|entries|] == entries;
    }
  }

  /** The properties every handler but the validation one starts with. */
  function BaseProperties(now: Instant, path: string): Properties {
    [("timestamp", Timestamp(now)), ("path", Text(path))]
  }

  /** The entries of an optional extra-property map; none for a null map. */
  function ExtraEntries(extra: Option<seq<(string, string)>>): seq<(string, string)> {
    if extra.Some? then extra.value else []
  }

  /** `buildProblemDetail` at `now` for a request described by `path`: status,
      detail, the reason phrase as title, a timestamp and the path, then the
      extra properties when there are any. */
  method BuildProblemDetail(status: HttpStatus, detail: string, extra: Option<seq<(string, string)>>,
                            now: Instant, path: string)
    returns (problem: ProblemDetail)
    ensures fresh(problem)
    ensures problem.status == status && problem.detail == detail
    ensures problem.title == Some(ReasonPhrase(status))
    ensures problem.properties == PutTexts(BaseProperties(now, path), ExtraEntries(extra))
  {
    problem := new ProblemDetail.ForStatusAndDetail(status, detail);
    problem.SetTitle(ReasonPhrase(status));
    problem.SetProperty("timestamp", Timestamp(now));
    problem.SetProperty("path", Text(path));
    assert problem.properties == BaseProperties(now, path);
    if extra.Some? && |extra.value| > 0 {
      problem.SetTextProperties(extra.value);
    }
  }

  /** The status of the handler an exception is routed to. */
  function StatusFor(f: Failure): (s: HttpStatus)
    ensures s == BadRequest <==>
              f.ReservationValidation? || f.IllegalArgument? || f.InvalidPaymentReference? || f.PaymentRejected?
    ensures s == Conflict <==> f.ReservationConflict?
    ensures s == ServiceUnavailable <==> f.CreditCardServiceUnavailable?
  {
    match f
    case ReservationValidation(_) => BadRequest
    case IllegalArgument(_) => BadRequest
    case InvalidPaymentReference(_) => BadRequest
    case PaymentRejected(_) => BadRequest
    case ReservationConflict(_) => Conflict
    case CreditCardServiceUnavailable(_, _) => ServiceUnavailable
    case MessageFormat(_) => InternalServerError
    case Unexpected(_) => InternalServerError
  }

  /** The detail of the problem an exception becomes. */
  function DetailFor(f: Failure): (d: string)
    ensures StatusFor(f) == BadRequest || StatusFor(f) == Conflict ==> d == f.message
    ensures StatusFor(f) == ServiceUnavailable ==> d == UnavailableDetail
    ensures StatusFor(f) == InternalServerError ==> d == UnexpectedDetail
  {
    match StatusFor(f)
    case BadRequest => f.message
    case Conflict => f.message
    case ServiceUnavailable => UnavailableDetail
    case InternalServerError => UnexpectedDetail
  }

  /** A server-side failure never shows its message: any other message gives
      the same status and detail. */
  lemma ServerErrorsHideMessage(f: Failure, other: string)
    requires Code(StatusFor(f)) >= 500
    ensures StatusFor(f.(message := other)) == StatusFor(f)
    ensures DetailFor(f.(message := other)) == DetailFor(f)
    ensures DetailFor(f) != f.message || f.message in {UnavailableDetail, UnexpectedDetail}
  {
  }

  /** The extra properties of the problem an exception becomes: the cause of
      an unavailable verifier, none otherwise. */
  function ExtraFor(f: Failure): (extra: Option<seq<(string, string)>>)
    ensures extra.Some? <==> f.CreditCardServiceUnavailable?
    ensures extra.Some? ==> extra.value == [("cause", f.cause)]
  {
    if f.CreditCardServiceUnavailable? then Some([("cause", f.cause)]) else None
  }

  /** `handleBadRequest`. */
  method HandleBadRequest(message: string, now: Instant, path: string) returns (problem: ProblemDetail)
    ensures fresh(problem)
    ensures problem.status == BadRequest && problem.detail == message && problem.title == Some("Bad Request")
    ensures problem.properties == [("timestamp", Timestamp(now)), ("path", Text(path))]
  {
    problem := BuildProblemDetail(BadRequest, message, None, now, path);
  }

  /** `handleReservationConflict`. */
  method HandleReservationConflict(message: string, now: Instant, path: string) returns (problem: ProblemDetail)
    ensures fresh(problem)
    ensures problem.status == Conflict && problem.detail == message && problem.title == Some("Conflict")
    ensures problem.properties == [("timestamp", Timestamp(now)), ("path", Text(path))]
  {
    problem := BuildProblemDetail(Conflict, message, None, now, path);
  }

  /** `handleCreditCardUnavailable`: the fixed detail, and the cause's message
      as the `cause` property. */
  method HandleCreditCardUnavailable(cause: string, now: Instant, path: string) returns (problem: ProblemDetail)
    ensures fresh(problem)
    ensures problem.status == ServiceUnavailable && problem.detail == UnavailableDetail
    ensures problem.title == Some("Service Unavailable")
    ensures problem.properties ==
              [("timestamp", Timestamp(now)), ("path", Text(path)), ("cause", Text(cause))]
  {
    problem := BuildProblemDetail(ServiceUnavailable, UnavailableDetail, Some([("cause", cause)]), now, path);
  }

  /** `handleAllOtherExceptions`: the fixed generic detail. */
  method HandleAllOtherExceptions(now: Instant, path: string) returns (problem: ProblemDetail)
    ensures fresh(problem)
    ensures problem.status == InternalServerError && problem.detail == UnexpectedDetail
    ensures problem.title == Some("Internal Server Error")
    ensures problem.properties == [("timestamp", Timestamp(now)), ("path", Text(path))]
  {
    problem := BuildProblemDetail(InternalServerError, UnexpectedDetail, None, now, path);
  }

  /** The routing of an exception to its handler, as the framework does it. */
  method Handle(f: Failure, now: Instant, path: string) returns (problem: ProblemDetail)
    ensures fresh(problem)
    ensures problem.status == StatusFor(f) && problem.detail == DetailFor(f)
    ensures problem.Title() == ReasonPhrase(StatusFor(f))
    ensures problem.properties == PutTexts(BaseProperties(now, path), ExtraEntries(ExtraFor(f)))
  {
    match f {
      case ReservationValidation(m) => problem := HandleBadRequest(m, now, path);
      case IllegalArgument(m) => problem := HandleBadRequest(m, now, path);
      case InvalidPaymentReference(m) => problem := HandleBadRequest(m, now, path);
      case PaymentRejected(m) => problem := HandleBadRequest(m, now, path);
      case ReservationConflict(m) => problem := HandleReservationConflict(m, now, path);
      case CreditCardServiceUnavailable(_, cause) =>
        problem := HandleCreditCardUnavailable(cause, now, path);
      case MessageFormat(_) => problem := HandleAllOtherExceptions(now, path);
      case Unexpected(_) => problem := HandleAllOtherExceptions(now, path);
    }
  }

  /** `handleValidationExceptions` at `now`: 400 with the fixed detail, the
      collected field errors and a timestamp; no title is set (the reason
      phrase is reported) and no path is added. */
  method HandleValidationExceptions(errors: seq<FieldError>, now: Instant) returns (problem: ProblemDetail)
    ensures fresh(problem)
    ensures problem.status == BadRequest && problem.detail == ValidationDetail
    ensures problem.title == None && problem.Title() == "Bad Request"
    ensures problem.properties ==
              [("errors", FieldMessages(CollectFieldErrors(errors))), ("timestamp", Timestamp(now))]
  {
    var collected := CollectFieldErrors(errors);
    problem := new ProblemDetail.ForStatusAndDetail(BadRequest, ValidationDetail);
    problem.SetProperty("errors", FieldMessages(collected));
    problem.SetProperty("timestamp", Timestamp(now));
  }
}
