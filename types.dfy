/** Shared value types of the reservation service: the enumerations of the
    model package, nullable values, and the exception kinds the core throws. */
module Types {

  /** A Java reference that may be null. */
  datatype Option<+T> = None | Some(value: T)

  /** A value or the exception that replaced it. */
  datatype Result<+T, +E> = Ok(value: T) | Err(error: E)

  /** Completion of a `void` Java method: it returned, or it threw. */
  datatype Outcome<+E> = Pass | Fail(error: E)

  datatype PaymentMode = Cash | BankTransfer | CreditCard

  datatype ReservationStatus = PendingPayment | Confirmed | Cancelled

  datatype RoomSegment = Small | Medium | Large | ExtraLarge

  /** The status field of the credit-card verifier's answer (its CONFIRMED and
      REJECTED constants). */
  datatype PaymentConfirmationStatus = CardConfirmed | CardRejected

  /** The exception kinds that cross the core's boundary. `Unexpected` stands
      for every exception the core does not classify (a failed database write,
      a primary-key clash). */
  datatype Failure =
    | ReservationValidation(message: string)
    | IllegalArgument(message: string)
    | InvalidPaymentReference(message: string)
    | PaymentRejected(message: string)
    | ReservationConflict(message: string)
    | CreditCardServiceUnavailable(message: string, cause: string)
    | MessageFormat(message: string)
    | Unexpected(message: string)

  /** Day numbers stand for `LocalDate`; instants stand for `LocalDateTime`. */
  type Day = int
  type Instant = int
}
