/** The reservation store: a map from id to row standing for the table, the
    two custom queries as filters over it, and the two branches of `save`.
    Also the store-wide invariant the service exists to keep: no room is held
    twice for the same night by active reservations. */
module Repository {
  import opened Types
  import opened Entity

  type Rows = map<string, StoredReservation>

  /** The statuses that hold a room: PENDING_PAYMENT and CONFIRMED. */
  predicate IsActive(status: ReservationStatus) {
    status == PendingPayment || status == Confirmed
  }

  /** The WHERE clause of `findOverlappingReservations`. */
  predicate OverlapsRequest(r: StoredReservation, room: string, start: Day, end: Day) {
    && r.roomNumber == room
    && IsActive(r.status)
    && r.endDate > start
    && r.startDate < end
  }

  /** `findOverlappingReservations(room, start, end)`: the stored active
      reservations of that room whose stay meets the half-open request. */
  function FindOverlappingReservations(rows: Rows, room: string, start: Day, end: Day): (found: Rows)
    ensures found.Keys <= rows.Keys
    ensures forall id | id in found :: found[id] == rows[id]
    ensures forall id | id in rows ::
              id in found <==> (&& rows[id].roomNumber == room
                                && rows[id].status in {PendingPayment, Confirmed}
                                && start < rows[id].endDate
                                && rows[id].startDate < end)
  {
    map id | id in rows && OverlapsRequest(rows[id], room, start, end) :: rows[id]
  }

  /** `findByStatusAndPaymentModeAndStartDateLessThanEqual`: the stored
      reservations with that status and mode starting on or before `date`. */
  function FindByStatusAndPaymentModeAndStartDateLessThanEqual(
    rows: Rows, status: ReservationStatus, mode: PaymentMode, date: Day): (found: Rows)
    ensures found.Keys <= rows.Keys
    ensures forall id | id in found :: found[id] == rows[id]
    ensures forall id | id in rows ::
              id in found <==> rows[id].status == status && rows[id].paymentMode == mode && rows[id].startDate <= date
  {
    map id | id in rows && rows[id].status == status && rows[id].paymentMode == mode && rows[id].startDate <= date :: rows[id]
  }

  /** Both half-open stays `[aStart, aEnd)` and `[bStart, bEnd)` contain day `d`. */
  predicate BothHold(aStart: Day, aEnd: Day, bStart: Day, bEnd: Day, d: Day) {
    aStart <= d < aEnd && bStart <= d < bEnd
  }

  /** For non-empty stays, the query's comparison `aEnd > bStart && aStart < bEnd`
      is exactly "some night belongs to both stays". */
  lemma OverlapIsSharedNight(aStart: Day, aEnd: Day, bStart: Day, bEnd: Day)
    requires aStart < aEnd && bStart < bEnd
    ensures (aEnd > bStart && aStart < bEnd) <==> exists d :: BothHold(aStart, aEnd, bStart, bEnd, d)
  {
    if aEnd > bStart && aStart < bEnd {
      var d := if aStart < bStart then bStart else aStart;
      assert BothHold(aStart, aEnd, bStart, bEnd, d);
    }
  }

  /** What the overlap query leaves out: touching stays, cancelled rows and
      other rooms; and what it keeps: an overlapping pending reservation. */
  lemma OverlapQueryBoundaries(rows: Rows, room: string, start: Day, end: Day, id: string)
    requires id in rows
    ensures rows[id].endDate == start ==> id !in FindOverlappingReservations(rows, room, start, end)
    ensures rows[id].startDate == end ==> id !in FindOverlappingReservations(rows, room, start, end)
    ensures rows[id].status == Cancelled ==> id !in FindOverlappingReservations(rows, room, start, end)
    ensures rows[id].roomNumber != room ==> id !in FindOverlappingReservations(rows, room, start, end)
    ensures (rows[id].status == PendingPayment && rows[id].roomNumber == room &&
             rows[id].startDate < end && start < rows[id].endDate)
            ==> id in FindOverlappingReservations(rows, room, start, end)
  {
  }

  /** The cutoff of the overdue query is inclusive. */
  lemma OverdueCutoffInclusive(rows: Rows, status: ReservationStatus, mode: PaymentMode, date: Day, id: string)
    requires id in rows && rows[id].status == status && rows[id].paymentMode == mode
    ensures rows[id].startDate == date ==> id in FindByStatusAndPaymentModeAndStartDateLessThanEqual(rows, status, mode, date)
    ensures rows[id].startDate == date + 1 ==> id !in FindByStatusAndPaymentModeAndStartDateLessThanEqual(rows, status, mode, date)
  {
  }

  /** Two reservations holding the same room on a common night. */
  predicate Clash(a: StoredReservation, b: StoredReservation) {
    && a.roomNumber == b.roomNumber
    && IsActive(a.status) && IsActive(b.status)
    && a.startDate < b.endDate && b.startDate < a.endDate
  }

  /** The store-wide invariant: per room, the active reservations have
      pairwise disjoint half-open stays. */
  predicate NoDoubleBooking(rows: Rows) {
    forall a, b | a in rows && b in rows && a != b :: !Clash(rows[a], rows[b])
  }

  /** Inserting a row under a fresh key after the overlap query found nothing
      for its room and stay keeps the invariant. */
  lemma InsertAfterOverlapCheck(rows: Rows, id: string, row: StoredReservation)
    requires NoDoubleBooking(rows)
    requires id !in rows
    requires FindOverlappingReservations(rows, row.roomNumber, row.startDate, row.endDate) == map[]
    ensures NoDoubleBooking(rows[id := row])
  {
    var rows' := rows[id := row];
    forall a, b | a in rows' && b in rows' && a != b
      ensures !Clash(rows'[a], rows'[b])
    {
      if a == id {
        assert b !in FindOverlappingReservations(rows, row.roomNumber, row.startDate, row.endDate);
      } else if b == id {
        assert a !in FindOverlappingReservations(rows, row.roomNumber, row.startDate, row.endDate);
      }
    }
  }

  /** The update `confirm` and the sweep make: the same rows, the same rooms
      and stays, and a row active afterwards was active before. */
  predicate OnlyStatusNarrowed(rows: Rows, rows': Rows) {
    && rows'.Keys == rows.Keys
    && forall k | k in rows ::
         && rows'[k].roomNumber == rows[k].roomNumber
         && rows'[k].startDate == rows[k].startDate
         && rows'[k].endDate == rows[k].endDate
         && (IsActive(rows'[k].status) ==> IsActive(rows[k].status))
  }

  /** Moving rows within or out of the active set keeps the invariant. */
  lemma NarrowingKeepsNoDoubleBooking(rows: Rows, rows': Rows)
    requires NoDoubleBooking(rows)
    requires OnlyStatusNarrowed(rows, rows')
    ensures NoDoubleBooking(rows')
  {
    forall a, b | a in rows' && b in rows' && a != b
      ensures !Clash(rows'[a], rows'[b])
    {
      assert !Clash(rows[a], rows[b]);
    }
  }

  /** The reservation table behind `ReservationRepository`. */
  class ReservationRepository {
    var rows: Rows

    /** Every row is filed under its own id. */
    predicate Valid()
      reads this
    {
      forall k | k in rows :: rows[k].id == k
    }

    constructor (initial: Rows)
      requires forall k | k in initial :: initial[k].id == k
      ensures Valid() && rows == initial
    {
      rows := initial;
    }

    /** `findById`. */
    function FindById(id: string): (r: Option<StoredReservation>)
      reads this
      requires Valid()
      ensures r.Some? <==> id in rows
      ensures r.Some? ==> r.value == rows[id] && r.value.id == id
    {
      if id in rows then Some(rows[id]) else None
    }

    /** `save` on an entity without id (JPA `persist`): the persist hook
        runs, then the row is inserted. The insert fails when the database
        refuses the write (`fails`) or when the generated id is already taken;
        then nothing is stored. */
    method Persist(e: Reservation, now: Instant, uuid: string, fails: bool) returns (ok: bool)
      requires Valid()
      requires e.id.None? && IsUuidText(uuid)
      modifies this, e
      ensures Valid()
      ensures e.Persisted() && e.id == Some(IdFromUuid(uuid))
      ensures e.createdAt == Some(now) && e.updatedAt == Some(now)
      ensures e.Business() == old(e.Business())
      ensures ok <==> !fails && IdFromUuid(uuid) !in old(rows)
      ensures rows == if ok then old(rows)[IdFromUuid(uuid) := e.Snapshot()] else old(rows)
    {
      e.OnCreate(now, uuid);
      var id := e.id.value;
      if fails || id in rows {
        ok := false;
      } else {
        rows := rows[id := e.Snapshot()];
        ok := true;
      }
    }

    /** `save` on an entity loaded from the store (JPA `merge`): the update
        hook stamps the entity, then its row is overwritten, unless the
        database refuses the write (`fails`). */
    method Merge(e: Reservation, now: Instant, fails: bool) returns (ok: bool)
      requires Valid()
      requires e.Persisted() && e.id.value in rows
      modifies this, e`updatedAt
      ensures Valid()
      ensures e.updatedAt == Some(now) && e.Persisted()
      ensures ok == !fails
      ensures rows == if ok then old(rows)[e.id.value := e.Snapshot()] else old(rows)
    {
      e.OnUpdate(now);
      if fails {
        ok := false;
      } else {
        rows := rows[e.id.value := e.Snapshot()];
        ok := true;
      }
    }
  }
}
