/** `PaymentUpdateListener`: takes a payment-update message, pulls the
    reservation id out of its transaction description, confirms the bank
    transfer and acknowledges the message. Every failure is rethrown and the
    message stays unacknowledged. */
module Listener {
  import opened Types
  import opened JavaText
  import opened Entity
  import opened Repository
  import opened Service

  /** The fields of a payment update the core reads; the amount is not
      modelled. */
  datatype PaymentUpdateEvent = PaymentUpdateEvent(
    paymentId: Option<string>,
    debtorAccountNumber: Option<string>,
    transactionDescription: Option<string>)

  /** What the JSON mapper makes of a payload: an error, the JSON `null`, or
      an event. */
  datatype ParsedPayload = ParseError | NullEvent | Event(event: PaymentUpdateEvent)

  const Unparsable := "Unable to parse payment update message"
  const MissingDescription := "Missing transactionDescription"
  const BadDescription := "Invalid transactionDescription format - expected E2E<10chars> <reservationId>"

  function InvalidIdMessage(id: string): string {
    "Invalid reservationId (must be exactly 8 uppercase alphanumeric): " + id
  }

  predicate IsIdChar(c: char) {
    'A' <= c <= 'Z' || '0' <= c <= '9'
  }

  /** The pattern `^[A-Z0-9]{8}$`. */
  predicate MatchesReservationId(s: string) {
    |s| == 8 && forall i | 0 <= i < 8 :: IsIdChar(s[i])
  }

  /** `getPaymentEvent`: a mapping error becomes a format error. */
  function GetPaymentEvent(parsed: ParsedPayload): (r: Result<Option<PaymentUpdateEvent>, Failure>)
    ensures r.Err? <==> parsed == ParseError
    ensures r.Err? ==> r.error == MessageFormat(Unparsable)
    ensures parsed.Event? ==> r == Ok(Some(parsed.event))
  {
    match parsed
    case ParseError => Err(MessageFormat(Unparsable))
    case NullEvent => Ok(None)
    case Event(e) => Ok(Some(e))
  }

  /** The verdict on the token that should hold the id: trimmed, it is the id
      when it matches the pattern, and an invalid-id format error otherwise. */
  function IdVerdict(token: string): (r: Result<string, Failure>)
    ensures r.Ok? <==> MatchesReservationId(Trim(token))
    ensures r.Ok? ==> r.value == Trim(token)
    ensures r.Err? ==> r.error == MessageFormat(InvalidIdMessage(Trim(token)))
  {
    var id := Trim(token);
    if MatchesReservationId(id) then Ok(id) else Err(MessageFormat(InvalidIdMessage(id)))
  }

  /** `getReservationId`: the second space-separated token of the trimmed
      description, trimmed, provided it matches the id pattern. */
  function GetReservationId(event: PaymentUpdateEvent): (r: Result<string, Failure>)
    ensures r.Ok? ==> MatchesReservationId(r.value)
    ensures r.Err? ==> r.error.MessageFormat?
    ensures event.transactionDescription.None? || Trim(event.transactionDescription.value) == []
            <==> r == Err(MessageFormat(MissingDescription))
    ensures (&& event.transactionDescription.Some?
             && Trim(event.transactionDescription.value) != []
             && ' ' !in Trim(event.transactionDescription.value))
            ==> r == Err(MessageFormat(BadDescription))
    ensures r.Ok? ==> ' ' in Trim(event.transactionDescription.value)
  {
    var desc := event.transactionDescription;
    if desc.None? || Trim(desc.value) == [] then Err(MessageFormat(MissingDescription))
    else
      var text := Trim(desc.value);
      var parts := Split(text, ' ');
      SplitCount(text);
      if |parts| < 2 then Err(MessageFormat(BadDescription)) else IdVerdict(parts[1])
  }

  /** A trimmed, non-empty text splits on a space into one part exactly when
      it holds no space. */
  lemma SplitCount(text: string)
    requires text != [] && Trim(text) == text
    ensures ' ' !in text ==> Split(text, ' ') == [text]
    ensures ' ' in text ==> |Split(text, ' ')| >= 2
  {
    var i := IndexOf(text, ' ');
    if ' ' !in text {
      SplitWithoutSeparator(text, ' ');
    } else {
      assert IsTrimmable(' ');
      assert text == text[..i] + [' '] + text[i + 1..];
      SplitAfter(text[..i], text[i + 1..], ' ');
    }
  }

  /** Payload to reservation id. A `null` event is dereferenced and fails with
      a null-pointer exception. */
  function ReservationIdOf(parsed: ParsedPayload): (r: Result<string, Failure>)
    ensures r.Ok? ==> parsed.Event?
    ensures parsed.Event? ==> r == GetReservationId(parsed.event)
    ensures parsed.NullEvent? ==> r == Err(Unexpected("NullPointerException"))
    ensures parsed == ParseError ==> r == Err(MessageFormat(Unparsable))
  {
    match GetPaymentEvent(parsed)
    case Err(e) => Err(e)
    case Ok(None) => Err(Unexpected("NullPointerException"))
    case Ok(Some(e)) => GetReservationId(e)
  }

  /** The second token of `reference + " " + rest` is `rest` up to its first
      space. */
  lemma SecondToken(reference: string, rest: string)
    requires ' ' !in reference
    requires rest != [] && !IsTrimmable(rest[|rest| - 1])
    ensures |Split(reference + " " + rest, ' ')| >= 2
    ensures Split(reference + " " + rest, ' ')[1] == rest[..IndexOf(rest, ' ')]
  {
    assert rest[|rest| - 1] != ' ';
    SplitAfter(reference, rest, ' ');
    FirstPiece(rest, ' ');
  }

  /** An id holds no space and trim leaves it alone. */
  lemma IdIsOneToken(id: string)
    requires MatchesReservationId(id)
    ensures ' ' !in id && !IsTrimmable(id[0]) && !IsTrimmable(id[7])
    ensures Trim(id) == id
  {
    forall k | 0 <= k < |id| ensures id[k] != ' ' {
      assert IsIdChar(id[k]);
    }
    assert IsIdChar(id[0]) && IsIdChar(id[7]);
  }

  /** Proof step: `getReservationId` on a description that trim leaves alone
      and that holds a space is decided by its second part. */
  lemma SecondTokenDecides(text: string, token: string)
    requires text != [] && !IsTrimmable(text[0]) && !IsTrimmable(text[|text| - 1])
    requires |Split(text, ' ')| >= 2 && Split(text, ' ')[1] == token
    ensures GetReservationId(PaymentUpdateEvent(None, None, Some(text))) == IdVerdict(token)
  {
    assert Trim(text) == text;
  }

  /** A description `reference + " " + rest`, with a space-free reference and
      nothing for trim to strip at either end, is judged by the part of `rest`
      before its first space, trimmed: it is the reservation id when it
      matches the pattern and an invalid-id format error otherwise. */
  lemma {:induction false} DescriptionVerdict(e: PaymentUpdateEvent, reference: string, rest: string)
    requires reference != [] && ' ' !in reference && !IsTrimmable(reference[0])
    requires rest != [] && !IsTrimmable(rest[|rest| - 1])
    requires e.transactionDescription == Some(reference + " " + rest)
    ensures GetReservationId(e) == IdVerdict(rest[..IndexOf(rest, ' ')])
  {
    SpacedEnds(reference, rest);
    SecondToken(reference, rest);
    SecondTokenDecides(reference + " " + rest, rest[..IndexOf(rest, ' ')]);
    OnlyDescriptionMatters(e, PaymentUpdateEvent(None, None, e.transactionDescription));
  }

  /** `getReservationId` reads nothing of the event but its description. */
  lemma {:induction false} OnlyDescriptionMatters(e: PaymentUpdateEvent, e': PaymentUpdateEvent)
    requires e.transactionDescription == e'.transactionDescription
    ensures GetReservationId(e) == GetReservationId(e')
  {
  }

  /** Padding the description with characters `trim` strips changes nothing:
      only the trimmed description matters. */
  lemma {:induction false} OnlyTrimMatters(e: PaymentUpdateEvent, d: string)
    requires e.transactionDescription == Some(d)
    ensures GetReservationId(e) == GetReservationId(e.(transactionDescription := Some(Trim(d))))
  {
    TrimIdempotent(d);
    SameTrimSameVerdict(e, e.(transactionDescription := Some(Trim(d))), Trim(d));
  }

  /** Proof step: two events whose descriptions trim to the same text get
      the same verdict. */
  lemma {:induction false} SameTrimSameVerdict(e: PaymentUpdateEvent, e': PaymentUpdateEvent, t: string)
    requires e.transactionDescription.Some? && Trim(e.transactionDescription.value) == t
    requires e'.transactionDescription.Some? && Trim(e'.transactionDescription.value) == t
    ensures GetReservationId(e) == GetReservationId(e')
  {
  }

  /** Proof step: joining two texts with a space keeps the first one's first
      character and the second one's last. */
  lemma SpacedEnds(reference: string, rest: string)
    requires reference != [] && rest != []
    ensures (reference + " " + rest)[0] == reference[0]
    ensures (reference + " " + rest)[|reference + " " + rest| - 1] == rest[|rest| - 1]
  {
  }

  /** The format the bank writes, `<reference> <reservationId>` with any
      further tokens after a space, yields the reservation id. */
  lemma {:induction false} WellFormedDescription(e: PaymentUpdateEvent, reference: string, id: string, tail: string)
    requires reference != [] && ' ' !in reference && !IsTrimmable(reference[0])
    requires MatchesReservationId(id)
    requires tail == [] || (tail[0] == ' ' && !IsTrimmable(tail[|tail| - 1]))
    requires e.transactionDescription == Some(reference + " " + id + tail)
    ensures GetReservationId(e) == Ok(id)
  {
    IdIsOneToken(id);
    var rest := id + tail;
    var text := reference + " " + rest;
    assert reference + " " + id + tail == text;
    if tail == [] {
      assert rest == id;
      assert IndexOf(rest, ' ') == 8;
    } else {
      assert rest == id + [' '] + tail[1..];
      IndexOfAfter(id, tail[1..], ' ');
    }
    assert rest[..IndexOf(rest, ' ')] == id;
    assert rest[|rest| - 1] == if tail == [] then id[7] else tail[|tail| - 1];
    DescriptionVerdict(e, reference, rest);
  }

  /** Two spaces between the reference and the id leave an empty second
      token: the message is rejected even though the id is valid. */
  lemma {:induction false} DoubleSpaceRejected(e: PaymentUpdateEvent, reference: string, id: string)
    requires reference != [] && ' ' !in reference && !IsTrimmable(reference[0])
    requires MatchesReservationId(id)
    requires e.transactionDescription == Some(reference + "  " + id)
    ensures GetReservationId(e) == Err(MessageFormat(InvalidIdMessage("")))
  {
    IdIsOneToken(id);
    var rest := " " + id;
    var text := reference + " " + rest;
    assert reference + "  " + id == text;
    assert IndexOf(rest, ' ') == 0;
    assert rest[|rest| - 1] == id[7];
    DescriptionVerdict(e, reference, rest);
    assert !MatchesReservationId(Trim(""));
  }

  /** Every id the persist hook generates passes the listener's pattern. */
  lemma GeneratedIdsAccepted(uuid: string)
    requires IsUuidText(uuid)
    ensures MatchesReservationId(IdFromUuid(uuid))
  {
    var id := IdFromUuid(uuid);
    forall k | 0 <= k < 8 ensures IsIdChar(id[k]) {
      assert IsUpperHex(id[k]);
    }
  }

  class PaymentUpdateListener {
    const service: ReservationService
    /** How many messages were acknowledged. */
    var acknowledged: nat

    constructor (service: ReservationService)
      ensures this.service == service && acknowledged == 0
    {
      this.service := service;
      acknowledged := 0;
    }

    /** `onMessage` at `now`, with `parsed` what the mapper makes of the
        payload, `readFails` a failed lookup and `storeFails` a refused
        database write. The reservation id
        is extracted, confirmation runs once with it, then the message is
        acknowledged. On any failure the exception is passed on and the
        message is not acknowledged; a message without a valid id never
        reaches the store. */
    method OnMessage(parsed: ParsedPayload, now: Instant, readFails: bool, storeFails: bool)
      returns (o: Outcome<Failure>)
      requires service.repository.Valid()
      modifies this`acknowledged, service.repository
      ensures service.repository.Valid()
      ensures ReservationIdOf(parsed).Err? ==>
                && o == Fail(ReservationIdOf(parsed).error)
                && service.repository.rows == old(service.repository.rows)
      ensures ReservationIdOf(parsed).Ok? ==>
                (o.Fail? <==> readFails || (storeFails && Confirmable(old(service.repository.rows),
                                                                      ReservationIdOf(parsed).value)))
      ensures o.Pass? ==>
                && ReservationIdOf(parsed).Ok?
                && service.repository.rows == Confirm(old(service.repository.rows), ReservationIdOf(parsed).value, now)
      ensures o.Fail? ==> service.repository.rows == old(service.repository.rows)
      ensures acknowledged == old(acknowledged) + (if o.Pass? then 1 else 0)
    {
      var event := GetPaymentEvent(parsed);
      if event.Err? {
        return Fail(event.error);
      }
      if event.value.None? {
        return Fail(Unexpected("NullPointerException"));
      }
      var id := GetReservationId(event.value.value);
      if id.Err? {
        return Fail(id.error);
      }
      o := service.ConfirmBankTransferPayment(id.value, now, readFails, storeFails);
      if o.Pass? {
        acknowledged := acknowledged + 1;
      }
    }
  }
}
