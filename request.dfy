/** The creation request and the bean-validation constraints declared on its
    fields, as a function listing the violated constraints. */
module Requests {
  import opened Types
  import opened JavaText

  /** `ReservationRequest`; every field may arrive null. */
  datatype ReservationRequest = ReservationRequest(
    customerName: Option<string>,
    roomNumber: Option<string>,
    startDate: Option<Day>,
    endDate: Option<Day>,
    segment: Option<RoomSegment>,
    paymentMode: Option<PaymentMode>,
    paymentReference: Option<string>)

  /** One violated constraint: the field and the constraint's message. */
  datatype Violation = Violation(field: string, message: string)

  /** `@NotBlank` as Hibernate Validator checks it: not null, and something
      left after `trim()`. */
  predicate NotBlank(s: Option<string>) {
    s.Some? && Trim(s.value) != []
  }

  /** `@Size(min, max)` on a string, which counts UTF-16 code units; a null
      value passes. */
  predicate SizeBetween(s: Option<string>, min: nat, max: nat) {
    s.None? || min <= Utf16Length(s.value) <= max
  }

  /** `@FutureOrPresent`; a null value passes. */
  predicate TodayOrLater(d: Option<Day>, today: Day) {
    d.None? || d.value >= today
  }

  /** `@Future`; a null value passes. */
  predicate AfterToday(d: Option<Day>, today: Day) {
    d.None? || d.value > today
  }

  /** One constraint: no violation when it holds, else its field and message. */
  function Check(holds: bool, field: string, message: string): (vs: seq<Violation>)
    ensures vs == [] <==> holds
    ensures forall v | v in vs :: v == Violation(field, message)
  {
    if holds then [] else [Violation(field, message)]
  }

  /** `customerName`: `@NotBlank` and `@Size(min = 2, max = 100)`. */
  function NameViolations(name: Option<string>): (vs: seq<Violation>)
    ensures vs == [] <==> name.Some? && Trim(name.value) != [] && 2 <= Utf16Length(name.value) <= 100
    ensures forall v | v in vs :: v.field == "customerName"
  {
    Check(NotBlank(name), "customerName", "Customer name is required") +
    Check(SizeBetween(name, 2, 100), "customerName", "Customer name must be between 2 and 100 characters")
  }

  /** A hundred characters whose last lies above U+FFFF are 101 UTF-16 units:
      the name is too long. */
  lemma SurrogatePairCountsTwice(name: string)
    requires |name| == 100 && name[99] as int > 0xFFFF
    ensures NameViolations(Some(name)) ==
              [Violation("customerName", "Customer name must be between 2 and 100 characters")]
  {
  }

  /** `roomNumber`: `@NotBlank` and `@Size(min = 1, max = 10)`. */
  function RoomViolations(room: Option<string>): (vs: seq<Violation>)
    ensures vs == [] <==> room.Some? && Trim(room.value) != [] && 1 <= Utf16Length(room.value) <= 10
    ensures forall v | v in vs :: v.field == "roomNumber"
  {
    Check(NotBlank(room), "roomNumber", "Room number is required") +
    Check(SizeBetween(room, 1, 10), "roomNumber", "Room number must be between 1 and 10 characters")
  }

  /** `startDate`: `@NotNull` and `@FutureOrPresent`; `endDate`: `@NotNull`
      and `@Future`. */
  function DateViolations(start: Option<Day>, end: Option<Day>, today: Day): (vs: seq<Violation>)
    ensures vs == [] <==> start.Some? && start.value >= today && end.Some? && end.value > today
    ensures forall v | v in vs :: v.field == "startDate" || v.field == "endDate"
  {
    Check(start.Some?, "startDate", "Start date is required") +
    Check(TodayOrLater(start, today), "startDate", "Start date must be today or in the future") +
    Check(end.Some?, "endDate", "End date is required") +
    Check(AfterToday(end, today), "endDate", "End date must be in the future")
  }

  /** The violated constraints of the request on `today`, in the order the
      fields and their annotations are declared. The request is accepted
      exactly when the name and room are non-blank and within their lengths,
      the stay starts today or later, ends after today, and segment and
      payment mode are given. */
  function Violations(request: ReservationRequest, today: Day): (vs: seq<Violation>)
    ensures vs == [] <==>
              && request.customerName.Some? && Trim(request.customerName.value) != []
              && 2 <= Utf16Length(request.customerName.value) <= 100
              && request.roomNumber.Some? && Trim(request.roomNumber.value) != []
              && 1 <= Utf16Length(request.roomNumber.value) <= 10
              && request.startDate.Some? && request.startDate.value >= today
              && request.endDate.Some? && request.endDate.value > today
              && request.segment.Some?
              && request.paymentMode.Some?
    ensures forall v | v in vs ::
              v.field in {"customerName", "roomNumber", "startDate", "endDate", "segment", "paymentMode"}
  {
    NameViolations(request.customerName) +
    RoomViolations(request.roomNumber) +
    DateViolations(request.startDate, request.endDate, today) +
    Check(request.segment.Some?, "segment", "Room segment is required") +
    Check(request.paymentMode.Some?, "paymentMode", "Payment mode is required")
  }

  /** The payment reference carries no constraint at this layer: whatever it
      holds, the violations are the same. */
  lemma PaymentReferenceUnconstrained(request: ReservationRequest, today: Day, reference: Option<string>)
    ensures Violations(request.(paymentReference := reference), today) == Violations(request, today)
  {
  }

  /** The fields the service dereferences, all present: what a request that
      passed validation always has. */
  predicate Complete(request: ReservationRequest) {
    && request.customerName.Some?
    && request.roomNumber.Some?
    && request.startDate.Some?
    && request.endDate.Some?
    && request.segment.Some?
    && request.paymentMode.Some?
  }

  lemma ValidRequestIsComplete(request: ReservationRequest, today: Day)
    requires Violations(request, today) == []
    ensures Complete(request)
  {
  }
}
