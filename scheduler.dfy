/** `ReservationScheduler`: the sweep that cancels bank-transfer
    reservations still awaiting payment when their stay is close. One failed
    write does not stop the sweep, and a failed fetch ends it quietly. */
module Scheduler {
  import opened Types
  import opened Entity
  import opened Repository

  /** How many days ahead of today an unpaid stay is already overdue. */
  const GraceDays := 2

  /** The reservations the sweep fetches on `today`: pending bank transfers
      starting on or before `today + GraceDays`. */
  function Overdue(rows: Rows, today: Day): (found: Rows)
    ensures found.Keys <= rows.Keys
    ensures forall id | id in rows ::
              id in found <==> && rows[id].status == PendingPayment
                               && rows[id].paymentMode == BankTransfer
                               && rows[id].startDate <= today + GraceDays
  {
    FindByStatusAndPaymentModeAndStartDateLessThanEqual(rows, PendingPayment, BankTransfer, today + GraceDays)
  }

  /** A pending bank transfer starting in exactly two days is overdue; one
      starting in three days is not. */
  lemma GraceBoundary(rows: Rows, today: Day, id: string)
    requires id in rows && rows[id].status == PendingPayment && rows[id].paymentMode == BankTransfer
    ensures rows[id].startDate == today + 2 ==> id in Overdue(rows, today)
    ensures rows[id].startDate == today + 3 ==> id !in Overdue(rows, today)
  {
  }

  /** The store after the rows in `ids` were cancelled at `now`. */
  function SweepResult(rows: Rows, ids: set<string>, now: Instant): (rows': Rows)
    ensures rows'.Keys == rows.Keys
    ensures forall k | k in rows && k in ids :: rows'[k] == rows[k].(status := Cancelled, updatedAt := now)
    ensures forall k | k in rows && k !in ids :: rows'[k] == rows[k]
  {
    map k | k in rows :: if k in ids then rows[k].(status := Cancelled, updatedAt := now) else rows[k]
  }

  /** Cancelling takes rows out of the active set and nothing else, so no
      room becomes double-booked. */
  lemma SweepKeepsNoDoubleBooking(rows: Rows, ids: set<string>, now: Instant)
    requires NoDoubleBooking(rows)
    ensures NoDoubleBooking(SweepResult(rows, ids, now))
  {
    NarrowingKeepsNoDoubleBooking(rows, SweepResult(rows, ids, now));
  }

  /** After a sweep whose writes all succeed, nothing is left overdue. */
  lemma SweepLeavesNothingOverdue(rows: Rows, today: Day, now: Instant)
    ensures Overdue(SweepResult(rows, Overdue(rows, today).Keys, now), today) == map[]
  {
    var after := SweepResult(rows, Overdue(rows, today).Keys, now);
    forall id | id in after ensures id !in Overdue(after, today) {
      if id in Overdue(rows, today) {
        assert after[id].status == Cancelled;
      } else {
        assert after[id] == rows[id];
      }
    }
  }

  /** Part way through a sweep of `start`: the rows in `done` whose write
      was not refused are cancelled at `now`, all others are as they were. */
  predicate SweptSoFar(rows: Rows, start: Rows, done: set<string>, failing: set<string>, now: Instant) {
    && rows.Keys == start.Keys
    && forall k | k in start ::
         rows[k] == if k in done && k !in failing then start[k].(status := Cancelled, updatedAt := now) else start[k]
  }

  /** One more iteration of the sweep, written or refused. */
  lemma SweepStep(rows: Rows, rows': Rows, start: Rows, done: set<string>, failing: set<string>,
                  id: string, now: Instant)
    requires SweptSoFar(rows, start, done, failing, now)
    requires id in start && id !in done
    requires rows' == if id !in failing then rows[id := start[id].(status := Cancelled, updatedAt := now)] else rows
    ensures SweptSoFar(rows', start, done + {id}, failing, now)
  {
  }

  /** Moving one id from the pending set to the done set: the count of
      successful writes grows by one exactly when its write is not refused. */
  lemma PendingStep(all: set<string>, todo: set<string>, done: set<string>, failing: set<string>, id: string)
    requires todo <= all && done == all - todo && id in todo
    ensures id !in done
    ensures todo - {id} <= all && done + {id} == all - (todo - {id}) && |todo - {id}| < |todo|
    ensures |(done + {id}) - failing| == |done - failing| + (if id !in failing then 1 else 0)
  {
    if id !in failing {
      assert (done + {id}) - failing == (done - failing) + {id};
    } else {
      assert (done + {id}) - failing == done - failing;
    }
  }

  /** A finished sweep is `SweepResult`. */
  lemma SweepFinished(rows: Rows, start: Rows, done: set<string>, failing: set<string>, now: Instant)
    requires SweptSoFar(rows, start, done, failing, now)
    ensures rows == SweepResult(start, done - failing, now)
  {
  }

  class ReservationScheduler {
    const repository: ReservationRepository

    constructor (repository: ReservationRepository)
      ensures this.repository == repository
    {
      this.repository := repository;
    }

    /** One iteration of the sweep: the fetched reservation is set to
        CANCELLED and saved; a refused write (`fails`) is caught and leaves
        the store as it was. */
    method CancelOne(row: StoredReservation, now: Instant, fails: bool) returns (ok: bool)
      requires repository.Valid() && row.id in repository.rows
      modifies repository
      ensures repository.Valid()
      ensures ok == !fails
      ensures repository.rows ==
                if ok then old(repository.rows)[row.id := row.(status := Cancelled, updatedAt := now)]
                else old(repository.rows)
    {
      var res := new Reservation.Load(row);
      res.status := Cancelled;
      ok := repository.Merge(res, now, fails);
    }

    /** `cancelOverdueBankTransferReservations` on `today` at `now`.
        `fetchFails` makes the overdue query fail; the writes for the ids in
        `failing` are refused. Returns the count of cancelled reservations,
        or None when the fetch failed and nothing was done. Every overdue
        reservation whose write succeeds is CANCELLED; a refused one and every
        other reservation are left as they were. */
    method CancelOverdueBankTransferReservations(today: Day, now: Instant, fetchFails: bool, failing: set<string>)
      returns (processed: Option<nat>)
      requires repository.Valid()
      modifies repository
      ensures repository.Valid()
      ensures fetchFails ==> processed == None && repository.rows == old(repository.rows)
      ensures !fetchFails ==>
                && processed == Some(|Overdue(old(repository.rows), today).Keys - failing|)
                && repository.rows == SweepResult(old(repository.rows), Overdue(old(repository.rows), today).Keys - failing, now)
    {
      if fetchFails {
        return None;
      }
      var overdue := FindByStatusAndPaymentModeAndStartDateLessThanEqual(
                       repository.rows, PendingPayment, BankTransfer, today + GraceDays);
      var count := CancelEach(overdue, now, failing);
      processed := Some(count);
    }

    /** The loop of the sweep over the fetched reservations: each one is
        cancelled in turn, a refused write is caught and the loop goes on.
        The count is the number of successful writes. */
    method CancelEach(overdue: Rows, now: Instant, failing: set<string>) returns (count: nat)
      requires repository.Valid()
      requires forall id | id in overdue :: id in repository.rows && overdue[id] == repository.rows[id]
      modifies repository
      ensures repository.Valid()
      ensures count == |overdue.Keys - failing|
      ensures repository.rows == SweepResult(old(repository.rows), overdue.Keys - failing, now)
    {
      ghost var start := repository.rows;
      var todo := overdue.Keys;
      ghost var done: set<string> := {};
      count := 0;
      while todo != {}
        invariant repository.Valid()
        invariant todo <= overdue.Keys && done == overdue.Keys - todo
        invariant SweptSoFar(repository.rows, start, done, failing, now)
        invariant count == |done - failing|
        decreases |todo|
      {
        var id :| id in todo;
        assert overdue[id] == start[id] && start[id].id == id;
        ghost var before := repository.rows;
        var ok := CancelOne(overdue[id], now, id in failing);
        PendingStep(overdue.Keys, todo, done, failing, id);
        SweepStep(before, repository.rows, start, done, failing, id, now);
        if ok {
          count := count + 1;
        }
        todo := todo - {id};
        done := done + {id};
      }
      assert done == overdue.Keys;
      SweepFinished(repository.rows, start, done, failing, now);
    }
  }
}
