/** The reservation entity: the persisted row, the in-memory JPA entity whose
    fields the lifecycle hooks assign, and the id the persist hook derives
    from a random UUID. */
module Entity {
  import opened Types
  import opened JavaText

  /** One row of the reservations table, as the store holds it after the
      persist hook has run. */
  datatype StoredReservation = StoredReservation(
    id: string,
    customerName: string,
    roomNumber: string,
    startDate: Day,
    endDate: Day,
    segment: RoomSegment,
    paymentMode: PaymentMode,
    paymentReference: Option<string>,
    status: ReservationStatus,
    createdAt: Instant,
    updatedAt: Instant)

  predicate IsLowerHex(c: char) {
    '0' <= c <= '9' || 'a' <= c <= 'f'
  }

  predicate IsUpperHex(c: char) {
    '0' <= c <= '9' || 'A' <= c <= 'F'
  }

  /** The text of `UUID.toString()`: 32 lower-case hex digits in groups of
      8-4-4-4-12 separated by dashes. */
  predicate IsUuidText(u: string) {
    && |u| == 36
    && (forall i | 0 <= i < 36 && i in {8, 13, 18, 23} :: u[i] == '-')
    && (forall i | 0 <= i < 36 && i !in {8, 13, 18, 23} :: IsLowerHex(u[i]))
  }

  /** `replace("-", "")`. */
  function RemoveDashes(s: string): (r: string)
    ensures |r| <= |s|
    ensures forall i | 0 <= i < |r| :: r[i] != '-'
    ensures '-' !in s ==> r == s
    ensures s == "-" ==> r == []
  {
    if s == [] then [] else (if s[0] == '-' then [] else [s[0]]) + RemoveDashes(s[1..])
  }

  /** Removing dashes works piece by piece: every other character is kept,
      in order. */
  lemma {:induction false} RemoveDashesAppend(a: string, b: string)
    ensures RemoveDashes(a + b) == RemoveDashes(a) + RemoveDashes(b)
  {
    if a != [] {
      var head := if a[0] == '-' then [] else [a[0]];
      calc {
        RemoveDashes(a + b);
        { assert (a + b)[0] == a[0] && (a + b)[1..] == a[1..] + b; }
        head + RemoveDashes(a[1..] + b);
        { RemoveDashesAppend(a[1..], b); }
        head + (RemoveDashes(a[1..]) + RemoveDashes(b));
        RemoveDashes(a) + RemoveDashes(b);
      }
    } else {
      assert a + b == b;
    }
  }

  /** Removing dashes keeps a dash-free prefix in place. */
  lemma {:induction false} DashFreePrefixKept(s: string, k: nat)
    requires k <= |s|
    requires forall i | 0 <= i < k :: s[i] != '-'
    ensures |RemoveDashes(s)| >= k && RemoveDashes(s)[..k] == s[..k]
  {
    if k > 0 {
      DashFreePrefixKept(s[1..], k - 1);
      assert RemoveDashes(s) == [s[0]] + RemoveDashes(s[1..]);
      assert s[..k] == [s[0]] + s[1..][..k - 1];
    }
  }

  /** The id `onCreate` assigns: the first eight characters of the dashless
      UUID text, upper-cased. It is always eight upper-case hex digits. */
  function IdFromUuid(u: string): (id: string)
    requires IsUuidText(u)
    ensures |id| == 8
    ensures forall i | 0 <= i < 8 :: IsUpperHex(id[i])
    ensures id == ToUpper(u[..8])
  {
    DashFreePrefixKept(u, 8);
    ToUpper(RemoveDashes(u)[..8])
  }

  /** The JPA entity. `id`, `createdAt` and `updatedAt` are null until the
      persist hook runs. */
  class Reservation {
    var id: Option<string>
    var customerName: string
    var roomNumber: string
    var startDate: Day
    var endDate: Day
    var segment: RoomSegment
    var paymentMode: PaymentMode
    var paymentReference: Option<string>
    var status: ReservationStatus
    var createdAt: Option<Instant>
    var updatedAt: Option<Instant>

    /** The fields a reservation is about; the hooks never touch them. */
    function Business(): (string, string, Day, Day, RoomSegment, PaymentMode, Option<string>, ReservationStatus)
      reads this
    {
      (customerName, roomNumber, startDate, endDate, segment, paymentMode, paymentReference, status)
    }

    predicate Persisted()
      reads this
    {
      id.Some? && createdAt.Some? && updatedAt.Some?
    }

    /** The row this entity is written as. */
    function Snapshot(): (row: StoredReservation)
      reads this
      requires Persisted()
      ensures row.id == id.value && row.status == status
      ensures row.createdAt == createdAt.value && row.updatedAt == updatedAt.value
      ensures (row.customerName, row.roomNumber, row.startDate, row.endDate, row.segment,
               row.paymentMode, row.paymentReference, row.status) == Business()
    {
      StoredReservation(id.value, customerName, roomNumber, startDate, endDate, segment,
                        paymentMode, paymentReference, status, createdAt.value, updatedAt.value)
    }

    /** `Reservation.builder()...build()`: no id and no timestamps yet. */
    constructor Build(customerName: string, roomNumber: string, startDate: Day, endDate: Day,
                      segment: RoomSegment, paymentMode: PaymentMode,
                      paymentReference: Option<string>, status: ReservationStatus)
      ensures id == None && createdAt == None && updatedAt == None
      ensures Business() == (customerName, roomNumber, startDate, endDate, segment,
                             paymentMode, paymentReference, status)
    {
      this.id := None;
      this.customerName := customerName;
      this.roomNumber := roomNumber;
      this.startDate := startDate;
      this.endDate := endDate;
      this.segment := segment;
      this.paymentMode := paymentMode;
      this.paymentReference := paymentReference;
      this.status := status;
      this.createdAt := None;
      this.updatedAt := None;
    }

    /** An entity materialised from a stored row. */
    constructor Load(row: StoredReservation)
      ensures Persisted() && Snapshot() == row
    {
      id := Some(row.id);
      customerName := row.customerName;
      roomNumber := row.roomNumber;
      startDate := row.startDate;
      endDate := row.endDate;
      segment := row.segment;
      paymentMode := row.paymentMode;
      paymentReference := row.paymentReference;
      status := row.status;
      createdAt := Some(row.createdAt);
      updatedAt := Some(row.updatedAt);
    }

    /** `@PrePersist`: both timestamps get the same instant; an id already set
        is kept, a missing one is derived from the UUID text. */
    method OnCreate(now: Instant, uuid: string)
      requires IsUuidText(uuid)
      modifies this
      ensures createdAt == Some(now) && updatedAt == Some(now)
      ensures id == if old(id).Some? then old(id) else Some(IdFromUuid(uuid))
      ensures Business() == old(Business())
      ensures Persisted()
    {
      createdAt, updatedAt := Some(now), Some(now);
      if id.None? {
        id := Some(IdFromUuid(uuid));
      }
    }

    /** `@PreUpdate`: only the modification instant moves. */
    method OnUpdate(now: Instant)
      modifies this`updatedAt
      ensures updatedAt == Some(now)
      ensures id == old(id) && createdAt == old(createdAt) && Business() == old(Business())
    {
      updatedAt := Some(now);
    }
  }
}
