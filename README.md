# Room reservation service: a verified model of the reservation lifecycle

This Dafny project models the core of the room-reservation service, a
Spring application that books hotel rooms. A reservation request passes bean
validation. It then passes three gates in order: the date rules (the stay
ends after it starts and lasts at most thirty nights), the room-overlap
query, and the payment rules. CASH bookings are CONFIRMED at once and
BANK_TRANSFER bookings wait in PENDING_PAYMENT. CREDIT_CARD bookings are
confirmed only when the external card verifier answers CONFIRMED. Bank
transfers are confirmed later by payment-update messages, whose transaction
description carries the reservation id. A nightly sweep cancels unpaid bank
transfers whose stay starts within two days. A global exception handler
turns every failure into an RFC 9457 problem detail.

The database is a `map` from id to row, held in a `ReservationRepository`
object. Dates are day numbers and instants are integers. Everything
external or random is a parameter of the operation that uses it:
- the verifier's answer;
- what the JSON mapper makes of a payload;
- the random UUID text;
- the clock;
- whether a database read fails;
- whether a database write is refused.

The main invariant is `Repository.NoDoubleBooking`: per room, the active
(PENDING_PAYMENT or CONFIRMED) reservations have pairwise disjoint half-open
stays. Creation, confirmation and the sweep are each proved to preserve it.

Files, one module each, in dependency order:
- `types.dfy` (`Types`): enumerations, nullable values, and the exception kinds.
- `java_text.dfy` (`JavaText`): `trim`, `isBlank`, `split(" ")` and ASCII
  `toUpperCase` with the JDK's semantics.
- `request.dfy` (`Requests`): the creation request and its field constraints.
- `reservation.dfy` (`Entity`): the stored row, the JPA entity class with its
  lifecycle hooks, and id generation.
- `repository.dfy` (`Repository`): the two queries, the no-double-booking
  invariant, and the store class with `findById` and the two branches of
  `save`.
- `service.dfy` (`Service`): admission, credit-card handling and bank-transfer
  confirmation.
- `listener.dfy` (`Listener`): reservation-id extraction and the
  payment-update consumer.
- `scheduler.dfy` (`Scheduler`): the overdue sweep.
- `exception_handler.dfy` (`ExceptionHandler`): the exception-to-problem
  mapping, the field-error map and `ProblemDetail`.

The payment listener splits the trimmed description on a single space
character, not on runs of whitespace:
- Two consecutive spaces leave
  an empty second token, and the message is rejected
  (`Listener.DoubleSpaceRejected`).
- A tab does not separate tokens.
- A description made only of Unicode spaces above U+0020 is not "missing",
  because `trim` keeps it. It fails the format check instead.

## Model

| member | source | states |
|---|---|---|
| JavaText.Trim | src/main/java/com/marvel/hospitality/reservationservice/listener/PaymentUpdateListener.java:52-56 | `trim()` gives the empty string exactly when every character is at most U+0020; otherwise the result starts and ends with a kept character, and text already without such ends is left alone |
| JavaText.TrimKeepsTheMiddle | src/main/java/com/marvel/hospitality/reservationservice/listener/PaymentUpdateListener.java:53-60 | what `trim()` returns is the substring between a leading and a trailing run of characters at most U+0020, and it starts and ends outside those runs |
| JavaText.TrimIdempotent | src/main/java/com/marvel/hospitality/reservationservice/listener/PaymentUpdateListener.java:53-56 | trimming a trimmed text changes nothing |
| JavaText.Utf16Length | src/main/java/com/marvel/hospitality/reservationservice/dto/ReservationRequest.java:21 | the length `@Size` measures counts UTF-16 code units: at least one and at most two per character, exactly one per character when none lies above U+FFFF |
| JavaText.PiecesJoin | src/main/java/com/marvel/hospitality/reservationservice/listener/PaymentUpdateListener.java:56 | splitting on a separator loses nothing: no piece holds the separator and joining the pieces with it gives the text back |
| JavaText.SplitAfter | src/main/java/com/marvel/hospitality/reservationservice/listener/PaymentUpdateListener.java:56 | `split(" ")` of a first token, one space and a rest not ending in a space yields the first token followed by every piece of the rest (no trailing piece is dropped) |
| JavaText.ToUpper | src/main/java/com/marvel/hospitality/reservationservice/entity/Reservation.java:45 | upper-casing keeps the length and maps each character through the ASCII a-z to A-Z rule |
| Requests.NameViolations | src/main/java/com/marvel/hospitality/reservationservice/dto/ReservationRequest.java:20-23 | the customer name has no violation exactly when it is present, not blank after trim, and 2 to 100 UTF-16 units long; every violation names `customerName` |
| Requests.SurrogatePairCountsTwice | src/main/java/com/marvel/hospitality/reservationservice/dto/ReservationRequest.java:21 | a hundred characters ending in one above U+FFFF are 101 units, so the name gets exactly the size violation |
| Requests.RoomViolations | src/main/java/com/marvel/hospitality/reservationservice/dto/ReservationRequest.java:25-28 | the room number has no violation exactly when it is present, not blank after trim, and 1 to 10 UTF-16 units long |
| Requests.DateViolations | src/main/java/com/marvel/hospitality/reservationservice/dto/ReservationRequest.java:30-39 | no date violation exactly when the start is present and today or later and the end is present and strictly after today |
| Requests.Violations | src/main/java/com/marvel/hospitality/reservationservice/dto/ReservationRequest.java:18-53 | a request is valid exactly when name, room and dates meet their constraints and segment and payment mode are given; every violation names one of the six constrained fields |
| Requests.PaymentReferenceUnconstrained | src/main/java/com/marvel/hospitality/reservationservice/dto/ReservationRequest.java:51-52 | whatever the payment reference holds, validation reports the same violations |
| Requests.ValidRequestIsComplete | src/main/java/com/marvel/hospitality/reservationservice/dto/ReservationRequest.java:20-49 | a request without violations has every field the service dereferences |
| Entity.RemoveDashes | src/main/java/com/marvel/hospitality/reservationservice/entity/Reservation.java:45 | removing dashes never lengthens the text, leaves no dash, leaves a dash-free text as it is and turns a lone dash into nothing |
| Entity.RemoveDashesAppend | src/main/java/com/marvel/hospitality/reservationservice/entity/Reservation.java:45 | removing dashes from a concatenation removes them from each part; with the lone-dash and dash-free cases this pins `replace("-", "")`: every dash is dropped and every other character is kept, in order |
| Entity.DashFreePrefixKept | src/main/java/com/marvel/hospitality/reservationservice/entity/Reservation.java:45 | a dash-free prefix survives dash removal in place |
| Entity.IdFromUuid | src/main/java/com/marvel/hospitality/reservationservice/entity/Reservation.java:45 | the generated id of a UUID text is its first eight hex digits upper-cased: eight characters from 0-9A-F |
| Entity.Reservation.Snapshot | src/main/java/com/marvel/hospitality/reservationservice/entity/Reservation.java:21-38 | the row written for a persisted entity carries its id, timestamps and every business field |
| Entity.Reservation.Build | src/main/java/com/marvel/hospitality/reservationservice/service/ReservationService.java:40-49 | a built entity has the given business fields and no id or timestamps |
| Entity.Reservation.Load | src/main/java/com/marvel/hospitality/reservationservice/service/ReservationService.java:111 | an entity loaded from a row is persisted and writes back as the same row |
| Entity.Reservation.OnCreate | src/main/java/com/marvel/hospitality/reservationservice/entity/Reservation.java:41-47 | both timestamps get the same instant, an id already set is kept, a missing one becomes the UUID-derived id, and no business field changes |
| Entity.Reservation.OnUpdate | src/main/java/com/marvel/hospitality/reservationservice/entity/Reservation.java:50-53 | only the modification instant moves; id, creation instant and business fields stay |
| Repository.FindOverlappingReservations | src/main/java/com/marvel/hospitality/reservationservice/repository/ReservationRepository.java:19-30 | returns exactly the stored rows of that room with status PENDING_PAYMENT or CONFIRMED whose stay meets the requested half-open stay, unchanged |
| Repository.FindByStatusAndPaymentModeAndStartDateLessThanEqual | src/main/java/com/marvel/hospitality/reservationservice/repository/ReservationRepository.java:15-17 | returns exactly the stored rows with that status and mode starting on or before the cutoff, unchanged |
| Repository.OverlapIsSharedNight | src/main/java/com/marvel/hospitality/reservationservice/repository/ReservationRepository.java:23-24 | for non-empty stays the query's two comparisons hold exactly when some night belongs to both stays |
| Repository.OverlapQueryBoundaries | src/main/java/com/marvel/hospitality/reservationservice/repository/ReservationRepository.java:21-24 | a stay ending on the requested start or starting on the requested end, a cancelled row and another room's row are never returned; an overlapping pending row is |
| Repository.OverdueCutoffInclusive | src/main/java/com/marvel/hospitality/reservationservice/repository/ReservationRepository.java:15-17 | a row starting on the cutoff is returned and one starting the day after is not |
| Repository.InsertAfterOverlapCheck | src/main/java/com/marvel/hospitality/reservationservice/service/ReservationService.java:70-82 | inserting under a fresh id a row for which the overlap query found nothing keeps no room double-booked |
| Repository.NarrowingKeepsNoDoubleBooking | src/main/java/com/marvel/hospitality/reservationservice/repository/ReservationRepository.java:22 | an update that keeps rooms and stays and never makes an inactive row active keeps no room double-booked |
| Repository.ReservationRepository.FindById | src/main/java/com/marvel/hospitality/reservationservice/service/ReservationService.java:111 | finds a row exactly when the id is stored, and the row found carries that id |
| Repository.ReservationRepository.Persist | src/main/java/com/marvel/hospitality/reservationservice/service/ReservationService.java:56 | `save` of a new entity runs the persist hook and inserts its row under the generated id, unless the write is refused or the id is taken, when the store is unchanged |
| Repository.ReservationRepository.Merge | src/main/java/com/marvel/hospitality/reservationservice/service/ReservationService.java:119 | `save` of a loaded entity stamps it and overwrites its row, unless the write is refused, when the store is unchanged |
| Service.ValidateDates | src/main/java/com/marvel/hospitality/reservationservice/service/ReservationService.java:64-68 | passes exactly when the end is after the start by at most thirty days; an end not after the start and a longer stay each fail with their validation message |
| Service.ThirtyNightsIsTheLimit | src/main/java/com/marvel/hospitality/reservationservice/service/ReservationService.java:66-67 | thirty nights pass, thirty-one fail as too long, zero nights fail as not after the start |
| Service.CheckForOverlappingReservations | src/main/java/com/marvel/hospitality/reservationservice/service/ReservationService.java:70-82 | passes exactly when no stored row overlaps the request; otherwise a conflict naming the room |
| Service.InitialStatus | src/main/java/com/marvel/hospitality/reservationservice/service/ReservationService.java:48 | CONFIRMED exactly for CASH, never CANCELLED |
| Service.ClassifyVerifierOutcome | src/main/java/com/marvel/hospitality/reservationservice/service/ReservationService.java:98-106 | an answer passes through; a client error becomes an invalid-reference error, any other failure an unavailable-verifier error keeping its reason as cause |
| Service.CreditCardGate | src/main/java/com/marvel/hospitality/reservationservice/service/ReservationService.java:85-96 | passes exactly when the reference is present and not blank and the verifier answers CONFIRMED; a missing or blank reference, a client error, another failure and a non-CONFIRMED answer each give their own error, and an empty response body fails with a null-pointer error |
| Service.Admission | src/main/java/com/marvel/hospitality/reservationservice/service/ReservationService.java:36-54 | the gates in order: a bad date range fails first with its own error (end not after start, or too long), a conflict next, then the card gate for CREDIT_CARD only, whose error is passed on; an admitted request has valid dates, no overlap, and is PENDING_PAYMENT exactly for BANK_TRANSFER |
| Service.VerifierConsultedOnlyForCards | src/main/java/com/marvel/hospitality/reservationservice/service/ReservationService.java:37-54 | when the verifier is not reached (any non-card request, a failed earlier gate, no usable reference) its answer cannot change the outcome; a conflicting request never reaches it |
| Service.NewRow | src/main/java/com/marvel/hospitality/reservationservice/service/ReservationService.java:40-49 | the written row carries the generated id, the admitted status, every requested field (name, room, stay, segment, payment mode and reference) and the creation instant as both timestamps |
| Service.BankTransferLifecycle | src/main/java/com/marvel/hospitality/reservationservice/service/ReservationService.java:48-56 | an admitted BANK_TRANSFER request is stored PENDING_PAYMENT and is confirmable; confirming it makes it CONFIRMED, stamped with the confirmation instant, creation instant kept |
| Service.Confirm | src/main/java/com/marvel/hospitality/reservationservice/service/ReservationService.java:109-124 | a stored pending bank transfer becomes CONFIRMED and is stamped; an unknown id or any other row leaves the store as it was; no other row changes |
| Service.ConfirmIdempotent | src/main/java/com/marvel/hospitality/reservationservice/service/ReservationService.java:116-123 | confirming the same id a second time changes nothing |
| Service.ConfirmKeepsNoDoubleBooking | src/main/java/com/marvel/hospitality/reservationservice/service/ReservationService.java:116-119 | confirmation keeps no room double-booked |
| Service.ReservationService.GetStatusResponse | src/main/java/com/marvel/hospitality/reservationservice/service/ReservationService.java:98-106 | one verifier call on the reference, recorded, with its outcome classified |
| Service.ReservationService.HandleCreditCardPayment | src/main/java/com/marvel/hospitality/reservationservice/service/ReservationService.java:85-96 | agrees with the card gate; the verifier is called only with a usable reference; the entity becomes CONFIRMED only when the gate passes |
| Service.ReservationService.CreateReservation | src/main/java/com/marvel/hospitality/reservationservice/service/ReservationService.java:35-61 | a rejected request returns the admission error and leaves the store unchanged; a failed overlap query after valid dates fails and changes nothing; an admitted one adds exactly its new row under the generated id and returns that id and status, unless the write fails; the verifier is asked only when reached; no room becomes double-booked |
| Service.ReservationService.ConfirmBankTransferPayment | src/main/java/com/marvel/hospitality/reservationservice/service/ReservationService.java:109-124 | the store becomes `Confirm` of the old store; it fails exactly when the lookup fails or a confirmable reservation's write is refused, and then nothing changes |
| Listener.GetPaymentEvent | src/main/java/com/marvel/hospitality/reservationservice/listener/PaymentUpdateListener.java:42-49 | fails exactly on a mapping error, with the "Unable to parse" format error; an event passes through |
| Listener.GetReservationId | src/main/java/com/marvel/hospitality/reservationservice/listener/PaymentUpdateListener.java:51-65 | an accepted id matches `^[A-Z0-9]{8}$`; a missing or trim-empty description is exactly the "Missing" error; a description without a space is the format error; every failure is a format error |
| Listener.SplitCount | src/main/java/com/marvel/hospitality/reservationservice/listener/PaymentUpdateListener.java:56-59 | a trimmed non-empty description splits into at least two parts exactly when it holds a space |
| Listener.ReservationIdOf | src/main/java/com/marvel/hospitality/reservationservice/listener/PaymentUpdateListener.java:30-32 | an event yields what its description yields; a `null` event fails with a null-pointer error and a parse error with the parse error |
| Listener.SecondToken | src/main/java/com/marvel/hospitality/reservationservice/listener/PaymentUpdateListener.java:56-60 | the second part of `reference + " " + rest` is `rest` up to its first space |
| Listener.IdIsOneToken | src/main/java/com/marvel/hospitality/reservationservice/listener/PaymentUpdateListener.java:24 | a text matching the id pattern holds no space and trim leaves it alone |
| Listener.IdVerdict | src/main/java/com/marvel/hospitality/reservationservice/listener/PaymentUpdateListener.java:60-64 | a token is accepted exactly when, trimmed, it matches `^[A-Z0-9]{8}$`, and then it is the id; otherwise the invalid-id error names the trimmed token |
| Listener.DescriptionVerdict | src/main/java/com/marvel/hospitality/reservationservice/listener/PaymentUpdateListener.java:53-64 | any event whose description is `reference + " " + rest`, with a space-free reference and no trimmable ends, is judged by the part of `rest` before its first space |
| Listener.OnlyDescriptionMatters | src/main/java/com/marvel/hospitality/reservationservice/listener/PaymentUpdateListener.java:51-52 | the verdict reads nothing of the event but its transaction description |
| Listener.OnlyTrimMatters | src/main/java/com/marvel/hospitality/reservationservice/listener/PaymentUpdateListener.java:53-56 | a description padded with characters `trim` strips gets the same verdict as its trimmed text |
| Listener.WellFormedDescription | src/main/java/com/marvel/hospitality/reservationservice/listener/PaymentUpdateListener.java:56-64 | any event whose description is `<reference> <id>`, optionally followed by further space-separated text, yields exactly the id: later parts are ignored |
| Listener.DoubleSpaceRejected | src/main/java/com/marvel/hospitality/reservationservice/listener/PaymentUpdateListener.java:56-63 | for any event, two spaces between reference and a valid id leave an empty second part, rejected as an invalid id |
| Listener.GeneratedIdsAccepted | src/main/java/com/marvel/hospitality/reservationservice/entity/Reservation.java:45 | every id the persist hook generates passes the listener's id pattern |
| Listener.PaymentUpdateListener.OnMessage | src/main/java/com/marvel/hospitality/reservationservice/listener/PaymentUpdateListener.java:28-40 | a message without a valid id fails with that error and never reaches the store; otherwise it fails exactly when the lookup fails or a confirmable row's write is refused, and else the store becomes `Confirm` with the extracted id; the message is acknowledged once exactly when nothing failed |
| Scheduler.Overdue | src/main/java/com/marvel/hospitality/reservationservice/scheduler/ReservationScheduler.java:33-38 | the candidates are exactly the stored pending bank transfers starting on or before today plus the two grace days |
| Scheduler.GraceBoundary | src/main/java/com/marvel/hospitality/reservationservice/scheduler/ReservationScheduler.java:33 | a pending bank transfer starting in two days is a candidate; one starting in three days is not |
| Scheduler.SweepResult | src/main/java/com/marvel/hospitality/reservationservice/scheduler/ReservationScheduler.java:41-50 | the cancelled ids become CANCELLED and are stamped; every other row is as it was |
| Scheduler.SweepKeepsNoDoubleBooking | src/main/java/com/marvel/hospitality/reservationservice/scheduler/ReservationScheduler.java:41-50 | a sweep keeps no room double-booked |
| Scheduler.SweepLeavesNothingOverdue | src/main/java/com/marvel/hospitality/reservationservice/scheduler/ReservationScheduler.java:37-47 | after a sweep whose writes all succeed, the overdue query finds nothing |
| Scheduler.SweepStep | src/main/java/com/marvel/hospitality/reservationservice/scheduler/ReservationScheduler.java:42-49 | one iteration, written or refused, extends the swept-so-far relation by its id: a written candidate is cancelled, a refused one stays as it was |
| Scheduler.PendingStep | src/main/java/com/marvel/hospitality/reservationservice/scheduler/ReservationScheduler.java:41-50 | finishing one candidate shrinks the pending set, and the count of successful writes grows by one exactly when its write is not refused |
| Scheduler.ReservationScheduler.CancelOne | src/main/java/com/marvel/hospitality/reservationservice/scheduler/ReservationScheduler.java:42-49 | one candidate is stored CANCELLED and stamped, or, when its write is refused, the store is unchanged and the failure is caught |
| Scheduler.ReservationScheduler.CancelEach | src/main/java/com/marvel/hospitality/reservationservice/scheduler/ReservationScheduler.java:41-50 | over fetched reservations: the ones whose writes succeed become CANCELLED and stamped, every other row stays, and the count is the number of successful writes |
| Scheduler.ReservationScheduler.CancelOverdueBankTransferReservations | src/main/java/com/marvel/hospitality/reservationservice/scheduler/ReservationScheduler.java:30-55 | a failed fetch returns quietly with the store unchanged; otherwise every candidate whose write succeeds is CANCELLED, refused ones and non-candidates are untouched, and the count is the number of successful writes |
| ExceptionHandler.Put | src/main/java/com/marvel/hospitality/reservationservice/controller/GlobalExceptionHandler.java:107-111 | setting a property keeps a known name in its place with the new value, appends a new one, and leaves every other entry where it was |
| ExceptionHandler.PutLookup | src/main/java/com/marvel/hospitality/reservationservice/controller/GlobalExceptionHandler.java:107-111 | after setting a property its name reads back the new value |
| ExceptionHandler.PutLookupOther | src/main/java/com/marvel/hospitality/reservationservice/controller/GlobalExceptionHandler.java:107-111 | setting a property leaves the value of every other name as it was |
| ExceptionHandler.CollectFieldErrors | src/main/java/com/marvel/hospitality/reservationservice/controller/GlobalExceptionHandler.java:34-38 | the errors map has at most one entry per field error |
| ExceptionHandler.CollectedKeys | src/main/java/com/marvel/hospitality/reservationservice/controller/GlobalExceptionHandler.java:34-38 | a field has an entry exactly when some field error is on it |
| ExceptionHandler.CollectedDistinct | src/main/java/com/marvel/hospitality/reservationservice/controller/GlobalExceptionHandler.java:36-38 | no field has two entries |
| ExceptionHandler.CollectedMessages | src/main/java/com/marvel/hospitality/reservationservice/controller/GlobalExceptionHandler.java:37-38 | each entry holds the message of the first error on its field, "Invalid value" when that message is missing |
| ExceptionHandler.CollectedInFirstAppearanceOrder | src/main/java/com/marvel/hospitality/reservationservice/controller/GlobalExceptionHandler.java:38 | entries come in the order their fields first appear |
| ExceptionHandler.CollectedCoversEveryField | src/main/java/com/marvel/hospitality/reservationservice/controller/GlobalExceptionHandler.java:34-36 | every erroneous field has an entry |
| ExceptionHandler.ProblemDetail.ForStatusAndDetail | src/main/java/com/marvel/hospitality/reservationservice/controller/GlobalExceptionHandler.java:105 | a new problem has the status and detail, no title and no properties |
| ExceptionHandler.ProblemDetail.Title | src/main/java/com/marvel/hospitality/reservationservice/controller/GlobalExceptionHandler.java:40-43 | the title reported is the one set, or else the status's reason phrase |
| ExceptionHandler.ProblemDetail.SetProperty | src/main/java/com/marvel/hospitality/reservationservice/controller/GlobalExceptionHandler.java:107-111 | the properties become `Put` of the old ones |
| ExceptionHandler.ProblemDetail.SetTextProperties | src/main/java/com/marvel/hospitality/reservationservice/controller/GlobalExceptionHandler.java:111 | setting each entry in turn, in order, gives the properties `PutTexts` builds from the old ones |
| ExceptionHandler.PutTextsLookup | src/main/java/com/marvel/hospitality/reservationservice/controller/GlobalExceptionHandler.java:111 | after the extra entries are set, each entry that no later one overrides reads back its text |
| ExceptionHandler.PutTextsLookupOther | src/main/java/com/marvel/hospitality/reservationservice/controller/GlobalExceptionHandler.java:111 | setting the extra entries leaves every name they do not carry as it was |
| ExceptionHandler.BuildProblemDetail | src/main/java/com/marvel/hospitality/reservationservice/controller/GlobalExceptionHandler.java:99-115 | status, detail, the reason phrase as title, the timestamp and path, then each extra property in order, none for a null or empty map |
| ExceptionHandler.StatusFor | src/main/java/com/marvel/hospitality/reservationservice/controller/GlobalExceptionHandler.java:52-96 | 400 exactly for validation, illegal-argument, invalid-reference and rejected-payment errors, 409 exactly for conflicts, 503 exactly for an unavailable verifier, 500 for the rest |
| ExceptionHandler.DetailFor | src/main/java/com/marvel/hospitality/reservationservice/controller/GlobalExceptionHandler.java:52-96 | 400 and 409 show the exception's message; 503 and 500 show their fixed texts |
| ExceptionHandler.ServerErrorsHideMessage | src/main/java/com/marvel/hospitality/reservationservice/controller/GlobalExceptionHandler.java:74-96 | for a 5xx failure, replacing its message changes neither status nor detail: the message is never exposed |
| ExceptionHandler.ExtraFor | src/main/java/com/marvel/hospitality/reservationservice/controller/GlobalExceptionHandler.java:80 | only an unavailable verifier adds a property, `cause`, holding its cause's message |
| ExceptionHandler.HandleBadRequest | src/main/java/com/marvel/hospitality/reservationservice/controller/GlobalExceptionHandler.java:52-61 | 400, "Bad Request", the message as detail, timestamp and path |
| ExceptionHandler.HandleReservationConflict | src/main/java/com/marvel/hospitality/reservationservice/controller/GlobalExceptionHandler.java:63-71 | 409, "Conflict", the message as detail, timestamp and path |
| ExceptionHandler.HandleCreditCardUnavailable | src/main/java/com/marvel/hospitality/reservationservice/controller/GlobalExceptionHandler.java:74-83 | 503 with the fixed detail and properties timestamp, path and cause, in that order |
| ExceptionHandler.HandleAllOtherExceptions | src/main/java/com/marvel/hospitality/reservationservice/controller/GlobalExceptionHandler.java:86-96 | 500 with the fixed generic detail, timestamp and path |
| ExceptionHandler.Handle | src/main/java/com/marvel/hospitality/reservationservice/controller/GlobalExceptionHandler.java:52-96 | every failure is answered with `StatusFor`, `DetailFor`, the status's reason phrase and the extra properties of `ExtraFor` |
| ExceptionHandler.HandleValidationExceptions | src/main/java/com/marvel/hospitality/reservationservice/controller/GlobalExceptionHandler.java:32-49 | 400 with the fixed detail, the collected field errors then a timestamp, no path, and no title set, so "Bad Request" is reported |

## Left out

- The card verifier's HTTP client, its retries, circuit breaker and timeouts are not modelled. The verifier is an input, `Service.VerifierOutcome`: an answer (possibly with an empty body), a 4xx client error, or another failure.
- The REST controller and the application bootstrap are not modelled. The controller only delegates.
- JSON deserialisation of payment updates is not modelled. Its result is an input, `Listener.ParsedPayload`.
- A `null` Kafka payload, on which Jackson throws `IllegalArgumentException` rather than a parse error, is not one of the `Listener.ParsedPayload` cases. Like every other failure it would be rethrown without acknowledgement.
- Kafka acknowledgement is a counter of acknowledged messages. Redelivery and dead-letter routing are not modelled.
- The model is sequential. Two concurrent admissions racing between the overlap check and the insert, and transaction rollback, are not modelled.
- The cron trigger and all logging are not modelled.
- `LocalDate.now`, `LocalDateTime.now`, `Instant.now` and `UUID.randomUUID` are parameters. Dates are day numbers and instants are integers.
- Of the payment-update event, only the fields the core reads are modelled. The amount is left out.
- Of `ProblemDetail`, only the status, detail, title and properties are modelled. `type`, `instance` and JSON rendering are left out. The request path is the text `request.getDescription(false)` and is passed in.
- Service.ReservationService.CreateReservation: requires every field that bean validation makes mandatory (`Requests.Complete`). Its only caller validates the request first, so the null-pointer failures of an unvalidated request are not modelled.
- Service.ReservationService.CreateReservation: a refused database write, and a generated id that is already stored, both surface as one `Unexpected` failure. The database's own exception types are not distinguished.
- A failed database read (the overlap query, `findById`) is one boolean input of `Service.ReservationService.CreateReservation` and `Service.ReservationService.ConfirmBankTransferPayment`, and surfaces as one `Unexpected` failure whose message is the model's own.
- Requests.Violations: lists violations in the order the annotations are declared. Hibernate Validator does not specify an order, and `ExceptionHandler.CollectFieldErrors` keeps the first message per field in whatever order it receives.
- ExceptionHandler.HandleCreditCardUnavailable: the cause's message is a string. A missing cause, or a cause with a null message, which would make `Map.of` throw, is not modelled.
- ExceptionHandler.BuildProblemDetail: the extra-property map is an ordered list. Java's `Map.of` has no defined iteration order, which matters only for maps with more than the one entry the handler passes.
- Scheduler.ReservationScheduler.CancelOverdueBankTransferReservations: visits the candidates in an unspecified order rather than in the query's list order; the final store and the count do not depend on the order. The count is an unbounded natural number, not a 32-bit `int`. Every write of one sweep is stamped with the same `now`, where the entity's update hook reads the clock once per write.
- JavaText.ToUpper: upper-cases ASCII letters only. That is all the hexadecimal UUID text needs.
- The exception classes carry no logic. They are the constructors of `Types.Failure`. The `NullPointerException` of a `null` payload or an empty verifier body is `Unexpected`.
