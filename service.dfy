/** `ReservationService`: admission of a new reservation through three gates
    (dates, room overlap, payment) and the confirmation of a bank transfer.
    The credit-card verifier's answer is an input of each admission; the
    service records which references it asked the verifier about. */
module Service {
  import opened Types
  import opened JavaText
  import opened Entity
  import opened Requests
  import opened Repository

  /** The longest stay accepted, in nights. */
  const MaxStayDays := 30

  const EndNotAfterStart := "Reservation End date must be after Start date"
  const StayTooLong := "The Max reservation duration is 30 days"
  const ReferenceRequired := "paymentReference is required for CreditCard payments"
  const CardRejectedMessage := "The card payment was REJECTED"
  const ReferenceNotFound := "Payment Reference was not found or invalid"
  const VerifierCallFailed := "Credit card service call failed"
  const SaveFailed := "The reservation could not be written to the store"
  const ReadFailed := "The reservations could not be read from the store"

  /** The message of the conflict raised for `room`. */
  function ConflictMessage(room: string): string {
    "Room " + room + " is already booked for the requested period"
  }

  /** The body of the verifier's answer; its status may be null. */
  datatype PaymentStatusResponse = PaymentStatusResponse(status: Option<PaymentConfirmationStatus>)

  /** What one call of the credit-card verifier does: it answers (possibly
      with an empty body), fails with a 4xx client error, or fails otherwise
      (server error, timeout, open circuit). */
  datatype VerifierOutcome =
    | Answered(body: Option<PaymentStatusResponse>)
    | ClientError(reason: string)
    | OtherFailure(reason: string)

  /** What `createReservation` returns. */
  datatype ReservationResponse = ReservationResponse(reservationId: string, status: ReservationStatus)

  /** `validateDates`: the stay must end after it starts and last at most
      thirty nights. */
  function ValidateDates(start: Day, end: Day): (o: Outcome<Failure>)
    ensures o == Pass <==> start < end <= start + MaxStayDays
    ensures end <= start ==> o == Fail(ReservationValidation(EndNotAfterStart))
    ensures start < end && end - start > MaxStayDays ==> o == Fail(ReservationValidation(StayTooLong))
  {
    if end <= start then Fail(ReservationValidation(EndNotAfterStart))
    else if end - start > MaxStayDays then Fail(ReservationValidation(StayTooLong))
    else Pass
  }

  /** Exactly thirty nights is the longest stay accepted. */
  lemma ThirtyNightsIsTheLimit(start: Day)
    ensures ValidateDates(start, start + 30) == Pass
    ensures ValidateDates(start, start + 31) == Fail(ReservationValidation(StayTooLong))
    ensures ValidateDates(start, start) == Fail(ReservationValidation(EndNotAfterStart))
  {
  }

  /** `checkForOverlappingReservations`: a conflict naming the room as soon
      as one active reservation of that room meets the requested stay. */
  function CheckForOverlappingReservations(rows: Rows, room: string, start: Day, end: Day): (o: Outcome<Failure>)
    ensures o == Pass <==> forall id | id in rows :: !OverlapsRequest(rows[id], room, start, end)
    ensures o.Fail? ==> o == Fail(ReservationConflict(ConflictMessage(room)))
  {
    if FindOverlappingReservations(rows, room, start, end) != map[] then
      Fail(ReservationConflict(ConflictMessage(room)))
    else
      Pass
  }

  /** The status a new reservation is built with. */
  function InitialStatus(mode: PaymentMode): (s: ReservationStatus)
    ensures s == Confirmed <==> mode == Cash
    ensures s != Cancelled
  {
    if mode == Cash then Confirmed else PendingPayment
  }

  /** `getStatusResponse`: a client error means the reference is unknown; any
      other failure means the verifier is unavailable, keeping its reason as
      the cause. An answer passes through. */
  function ClassifyVerifierOutcome(verifier: VerifierOutcome): (r: Result<Option<PaymentStatusResponse>, Failure>)
    ensures r.Ok? <==> verifier.Answered?
    ensures r.Ok? ==> r.value == verifier.body
    ensures verifier.ClientError? ==> r == Err(InvalidPaymentReference(ReferenceNotFound))
    ensures verifier.OtherFailure? ==> r == Err(CreditCardServiceUnavailable(VerifierCallFailed, verifier.reason))
  {
    match verifier
    case Answered(body) => Ok(body)
    case ClientError(_) => Err(InvalidPaymentReference(ReferenceNotFound))
    case OtherFailure(reason) => Err(CreditCardServiceUnavailable(VerifierCallFailed, reason))
  }

  /** The reference is sent to the verifier only when it is present and not
      blank. */
  predicate ReferenceUsable(reference: Option<string>) {
    reference.Some? && !IsBlank(reference.value)
  }

  /** `handleCreditCardPayment` as a decision: passes exactly when the
      reference is usable and the verifier answers CONFIRMED. A missing or
      blank reference is a validation error raised before the verifier is
      asked; an answer other than CONFIRMED, null status included, is a
      rejection; an empty body dereferenced is an unexpected error. */
  function CreditCardGate(reference: Option<string>, verifier: VerifierOutcome): (o: Outcome<Failure>)
    ensures o == Pass <==>
              ReferenceUsable(reference) && verifier == Answered(Some(PaymentStatusResponse(Some(CardConfirmed))))
    ensures !ReferenceUsable(reference) ==> o == Fail(ReservationValidation(ReferenceRequired))
    ensures ReferenceUsable(reference) && verifier.ClientError? ==> o == Fail(InvalidPaymentReference(ReferenceNotFound))
    ensures ReferenceUsable(reference) && verifier.OtherFailure? ==>
              o == Fail(CreditCardServiceUnavailable(VerifierCallFailed, verifier.reason))
    ensures (ReferenceUsable(reference) && verifier.Answered? && verifier.body.Some? &&
             verifier.body.value.status != Some(CardConfirmed))
            ==> o == Fail(PaymentRejected(CardRejectedMessage))
    ensures ReferenceUsable(reference) && verifier == Answered(None) ==> o == Fail(Unexpected("NullPointerException"))
  {
    if !ReferenceUsable(reference) then Fail(ReservationValidation(ReferenceRequired))
    else
      match ClassifyVerifierOutcome(verifier)
      case Err(e) => Fail(e)
      case Ok(None) => Fail(Unexpected("NullPointerException"))
      case Ok(Some(response)) =>
        if response.status != Some(CardConfirmed) then Fail(PaymentRejected(CardRejectedMessage)) else Pass
  }

  /** The admission decision of `createReservation` before the write: the
      status the new reservation is saved with, or the exception that stops
      it. The gates run in order: dates, overlap, then payment. */
  function Admission(rows: Rows, request: ReservationRequest, verifier: VerifierOutcome): (r: Result<ReservationStatus, Failure>)
    requires Complete(request)
    ensures r.Ok? ==> request.startDate.value < request.endDate.value <= request.startDate.value + MaxStayDays
    ensures r.Ok? ==> FindOverlappingReservations(rows, request.roomNumber.value,
                                                  request.startDate.value, request.endDate.value) == map[]
    ensures r.Ok? ==> r.value != Cancelled && (r.value == PendingPayment <==> request.paymentMode.value == BankTransfer)
    ensures request.endDate.value <= request.startDate.value ==> r == Err(ReservationValidation(EndNotAfterStart))
    ensures ValidateDates(request.startDate.value, request.endDate.value).Fail? ==>
              r == Err(ValidateDates(request.startDate.value, request.endDate.value).error)
    ensures (ValidateDates(request.startDate.value, request.endDate.value) == Pass &&
             FindOverlappingReservations(rows, request.roomNumber.value,
                                         request.startDate.value, request.endDate.value) != map[])
            ==> r == Err(ReservationConflict(ConflictMessage(request.roomNumber.value)))
    ensures request.paymentMode.value != CreditCard ==>
              (r.Ok? <==> ValidateDates(request.startDate.value, request.endDate.value) == Pass &&
                          CheckForOverlappingReservations(rows, request.roomNumber.value,
                                                          request.startDate.value, request.endDate.value) == Pass)
    ensures request.paymentMode.value == CreditCard ==>
              (r.Ok? <==> ValidateDates(request.startDate.value, request.endDate.value) == Pass &&
                          CheckForOverlappingReservations(rows, request.roomNumber.value,
                                                          request.startDate.value, request.endDate.value) == Pass &&
                          CreditCardGate(request.paymentReference, verifier) == Pass)
    ensures (&& request.paymentMode.value == CreditCard
             && ValidateDates(request.startDate.value, request.endDate.value) == Pass
             && CheckForOverlappingReservations(rows, request.roomNumber.value,
                                                request.startDate.value, request.endDate.value) == Pass
             && CreditCardGate(request.paymentReference, verifier).Fail?)
            ==> r == Err(CreditCardGate(request.paymentReference, verifier).error)
  {
    var start, end, room := request.startDate.value, request.endDate.value, request.roomNumber.value;
    match ValidateDates(start, end)
    case Fail(e) => Err(e)
    case Pass =>
      match CheckForOverlappingReservations(rows, room, start, end)
      case Fail(e) => Err(e)
      case Pass =>
        if request.paymentMode.value != CreditCard then Ok(InitialStatus(request.paymentMode.value))
        else
          match CreditCardGate(request.paymentReference, verifier)
          case Fail(e) => Err(e)
          case Pass => Ok(Confirmed)
  }

  /** The admission asks the verifier: dates valid, no overlap, credit card,
      and a usable reference. */
  predicate ReachesVerifier(rows: Rows, request: ReservationRequest)
    requires Complete(request)
  {
    && ValidateDates(request.startDate.value, request.endDate.value) == Pass
    && CheckForOverlappingReservations(rows, request.roomNumber.value,
                                       request.startDate.value, request.endDate.value) == Pass
    && request.paymentMode.value == CreditCard
    && ReferenceUsable(request.paymentReference)
  }

  /** Cash and bank-transfer admissions never depend on the verifier, and a
      conflicting request never reaches it. */
  lemma VerifierConsultedOnlyForCards(rows: Rows, request: ReservationRequest, v1: VerifierOutcome, v2: VerifierOutcome)
    requires Complete(request)
    ensures !ReachesVerifier(rows, request) ==> Admission(rows, request, v1) == Admission(rows, request, v2)
    ensures FindOverlappingReservations(rows, request.roomNumber.value,
                                        request.startDate.value, request.endDate.value) != map[]
            ==> !ReachesVerifier(rows, request)
  {
    if !ReachesVerifier(rows, request) && request.paymentMode.value == CreditCard {
      var start, end, room := request.startDate.value, request.endDate.value, request.roomNumber.value;
      if ValidateDates(start, end) == Pass && CheckForOverlappingReservations(rows, room, start, end) == Pass {
        assert CreditCardGate(request.paymentReference, v1) == CreditCardGate(request.paymentReference, v2);
      }
    }
  }

  /** The row `createReservation` writes for an admitted request. */
  function NewRow(request: ReservationRequest, id: string, status: ReservationStatus, now: Instant): (row: StoredReservation)
    requires Complete(request)
    ensures row.id == id && row.status == status
    ensures row.roomNumber == request.roomNumber.value
    ensures row.startDate == request.startDate.value && row.endDate == request.endDate.value
    ensures row.customerName == request.customerName.value && row.segment == request.segment.value
    ensures row.paymentMode == request.paymentMode.value && row.paymentReference == request.paymentReference
    ensures row.createdAt == now && row.updatedAt == now
  {
    StoredReservation(id, request.customerName.value, request.roomNumber.value,
                      request.startDate.value, request.endDate.value, request.segment.value,
                      request.paymentMode.value, request.paymentReference, status, now, now)
  }

  /** The reservation `id` can be confirmed: it is stored, awaits payment and
      is paid by bank transfer. */
  predicate Confirmable(rows: Rows, id: string) {
    id in rows && rows[id].status == PendingPayment && rows[id].paymentMode == BankTransfer
  }

  /** The store after `confirmBankTransferPayment(id)` at `now`: a confirmable
      reservation becomes CONFIRMED and is stamped; nothing else changes. */
  function Confirm(rows: Rows, id: string, now: Instant): (rows': Rows)
    ensures rows'.Keys == rows.Keys
    ensures !Confirmable(rows, id) ==> rows' == rows
    ensures Confirmable(rows, id) ==>
              rows'[id] == rows[id].(status := Confirmed, updatedAt := now)
    ensures forall k | k in rows && k != id :: rows'[k] == rows[k]
  {
    if Confirmable(rows, id) then rows[id := rows[id].(status := Confirmed, updatedAt := now)] else rows
  }

  /** Confirming twice is confirming once: the second call finds the
      reservation CONFIRMED and skips it. */
  lemma ConfirmIdempotent(rows: Rows, id: string, now: Instant, later: Instant)
    ensures Confirm(Confirm(rows, id, now), id, later) == Confirm(rows, id, now)
  {
    if Confirmable(rows, id) {
      assert !Confirmable(Confirm(rows, id, now), id);
    }
  }

  /** Confirmation moves a reservation within the active set, so no room
      becomes double-booked. */
  lemma ConfirmKeepsNoDoubleBooking(rows: Rows, id: string, now: Instant)
    requires NoDoubleBooking(rows)
    ensures NoDoubleBooking(Confirm(rows, id, now))
  {
    NarrowingKeepsNoDoubleBooking(rows, Confirm(rows, id, now));
  }

  /** A BANK_TRANSFER reservation, once admitted and stored, awaits payment
      and can be confirmed; its confirmation makes it CONFIRMED, stamped at
      the confirmation instant, with its creation instant kept. */
  lemma BankTransferLifecycle(rows: Rows, request: ReservationRequest, verifier: VerifierOutcome,
                              id: string, now: Instant, later: Instant)
    requires Complete(request) && request.paymentMode.value == BankTransfer
    requires Admission(rows, request, verifier).Ok?
    ensures Admission(rows, request, verifier).value == PendingPayment
    ensures Confirmable(rows[id := NewRow(request, id, Admission(rows, request, verifier).value, now)], id)
    ensures Confirm(rows[id := NewRow(request, id, Admission(rows, request, verifier).value, now)], id, later)[id]
            == NewRow(request, id, Confirmed, now).(updatedAt := later)
  {
  }

  class ReservationService {
    const repository: ReservationRepository
    /** The references the credit-card verifier was asked about, in order. */
    var verifierCalls: seq<string>

    constructor (repository: ReservationRepository)
      ensures this.repository == repository && verifierCalls == []
    {
      this.repository := repository;
      verifierCalls := [];
    }

    /** `getStatusResponse`: one verifier call on `reference`. */
    method GetStatusResponse(reference: string, verifier: VerifierOutcome)
      returns (r: Result<Option<PaymentStatusResponse>, Failure>)
      modifies this`verifierCalls
      ensures verifierCalls == old(verifierCalls) + [reference]
      ensures r == ClassifyVerifierOutcome(verifier)
    {
      verifierCalls := verifierCalls + [reference];
      r := ClassifyVerifierOutcome(verifier);
    }

    /** `handleCreditCardPayment`: checks the reference, asks the verifier and
        confirms the reservation when the card payment is CONFIRMED. */
    method HandleCreditCardPayment(res: Reservation, reference: Option<string>, verifier: VerifierOutcome)
      returns (o: Outcome<Failure>)
      modifies this`verifierCalls, res`status
      ensures o == CreditCardGate(reference, verifier)
      ensures verifierCalls == old(verifierCalls) + (if ReferenceUsable(reference) then [reference.value] else [])
      ensures res.status == if o.Pass? then Confirmed else old(res.status)
    {
      if reference.None? || IsBlank(reference.value) {
        return Fail(ReservationValidation(ReferenceRequired));
      }
      var response := GetStatusResponse(reference.value, verifier);
      match response {
        case Err(e) =>
          o := Fail(e);
        case Ok(None) =>
          o := Fail(Unexpected("NullPointerException"));
        case Ok(Some(body)) =>
          if body.status != Some(CardConfirmed) {
            o := Fail(PaymentRejected(CardRejectedMessage));
          } else {
            res.status := Confirmed;
            o := Pass;
          }
      }
    }

    /** `createReservation` on a request that passed validation, at `now`,
        with `uuid` the random UUID text, `verifier` what the verifier would
        answer, `readFails` a failed overlap query and `storeFails` a refused
        database write. An admitted request
        adds exactly one row, under the generated id, and the response carries
        that id and the admitted status; every failure leaves the store as it
        was. No room becomes double-booked. */
    method CreateReservation(request: ReservationRequest, now: Instant, uuid: string,
                             verifier: VerifierOutcome, readFails: bool, storeFails: bool)
      returns (result: Result<ReservationResponse, Failure>)
      requires repository.Valid() && Complete(request) && IsUuidText(uuid)
      modifies this`verifierCalls, repository
      ensures repository.Valid()
      ensures verifierCalls == old(verifierCalls) +
                (if !readFails && ReachesVerifier(old(repository.rows), request)
                 then [request.paymentReference.value] else [])
      ensures readFails && ValidateDates(request.startDate.value, request.endDate.value) == Pass ==>
                && result == Err(Unexpected(ReadFailed))
                && repository.rows == old(repository.rows)
      ensures Admission(old(repository.rows), request, verifier).Err? &&
              (!readFails || ValidateDates(request.startDate.value, request.endDate.value).Fail?) ==>
                && result == Err(Admission(old(repository.rows), request, verifier).error)
                && repository.rows == old(repository.rows)
      ensures Admission(old(repository.rows), request, verifier).Ok? && !readFails &&
              (storeFails || IdFromUuid(uuid) in old(repository.rows)) ==>
                && result == Err(Unexpected(SaveFailed))
                && repository.rows == old(repository.rows)
      ensures Admission(old(repository.rows), request, verifier).Ok? && !readFails &&
              !storeFails && IdFromUuid(uuid) !in old(repository.rows) ==>
                && result == Ok(ReservationResponse(IdFromUuid(uuid), Admission(old(repository.rows), request, verifier).value))
                && repository.rows == old(repository.rows)[IdFromUuid(uuid) :=
                     NewRow(request, IdFromUuid(uuid), Admission(old(repository.rows), request, verifier).value, now)]
      ensures NoDoubleBooking(old(repository.rows)) ==> NoDoubleBooking(repository.rows)
    {
      var start, end, room := request.startDate.value, request.endDate.value, request.roomNumber.value;
      var dates := ValidateDates(start, end);
      if dates.Fail? {
        return Err(dates.error);
      }
      if readFails {
        return Err(Unexpected(ReadFailed));
      }
      var overlap := CheckForOverlappingReservations(repository.rows, room, start, end);
      if overlap.Fail? {
        return Err(overlap.error);
      }
      var mode := request.paymentMode.value;
      var res := new Reservation.Build(request.customerName.value, room, start, end, request.segment.value,
                                       mode, request.paymentReference, InitialStatus(mode));
      if mode == CreditCard {
        var card := HandleCreditCardPayment(res, request.paymentReference, verifier);
        if card.Fail? {
          return Err(card.error);
        }
      }
      ghost var before := repository.rows;
      var ok := repository.Persist(res, now, uuid, storeFails);
      if !ok {
        return Err(Unexpected(SaveFailed));
      }
      assert res.Snapshot() == NewRow(request, IdFromUuid(uuid), res.status, now);
      if NoDoubleBooking(before) {
        InsertAfterOverlapCheck(before, IdFromUuid(uuid), res.Snapshot());
      }
      result := Ok(ReservationResponse(res.id.value, res.status));
    }

    /** `confirmBankTransferPayment(id)` at `now`, with `readFails` a failed
        lookup and `storeFails` a refused database write. An unknown id and a
        reservation that is not a pending bank transfer are skipped; a
        confirmable one is confirmed unless the write fails. A failed lookup
        or write surfaces as an exception and changes nothing. */
    method ConfirmBankTransferPayment(id: string, now: Instant, readFails: bool, storeFails: bool)
      returns (o: Outcome<Failure>)
      requires repository.Valid()
      modifies repository
      ensures repository.Valid()
      ensures o.Fail? <==> readFails || (storeFails && Confirmable(old(repository.rows), id))
      ensures readFails ==> o == Fail(Unexpected(ReadFailed))
      ensures o.Fail? && !readFails ==> o == Fail(Unexpected(SaveFailed))
      ensures o.Fail? ==> repository.rows == old(repository.rows)
      ensures o.Pass? ==> repository.rows == Confirm(old(repository.rows), id, now)
    {
      if readFails {
        return Fail(Unexpected(ReadFailed));
      }
      var found := repository.FindById(id);
      if found.None? {
        return Pass;
      }
      var res := new Reservation.Load(found.value);
      if res.status == PendingPayment && res.paymentMode == BankTransfer {
        res.status := Confirmed;
        var ok := repository.Merge(res, now, storeFails);
        o := if ok then Pass else Fail(Unexpected(SaveFailed));
      } else {
        o := Pass;
      }
    }
  }
}
