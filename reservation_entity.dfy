/** The `reservations` table: a booking of one host by one customer. */
module ReservationEntity {
  import opened Common

  /** Exactly five states. */
  datatype ReservationStatus = Pending | Confirmed | Cancelled | Completed | NoShow

  /** The value stored in the enum column. */
  function StatusName(s: ReservationStatus): (name: string)
  {
    match s
    case Pending => "pending"
    case Confirmed => "confirmed"
    case Cancelled => "cancelled"
    case Completed => "completed"
    case NoShow => "no_show"
  }

  /** Reads the enum column back; any other text is not a status. */
  function ParseStatus(name: string): (s: Option<ReservationStatus>)
    ensures s.Some? ==> StatusName(s.value) == name
    ensures forall k :: StatusName(k) == name ==> s == Some(k)
  {
    if name == "pending" then Some(Pending)
    else if name == "confirmed" then Some(Confirmed)
    else if name == "cancelled" then Some(Cancelled)
    else if name == "completed" then Some(Completed)
    else if name == "no_show" then Some(NoShow)
    else None
  }

  /** One row. Times are minutes since the epoch; `amount` is the gross price
      (a decimal with two places in the database). A reservation produced by
      a reschedule carries `isRescheduled` and the id of the one it replaced. */
  datatype Reservation = Reservation(
    id: string,
    userId: string,
    hostId: string,
    startTime: int,
    endTime: int,
    status: ReservationStatus,
    transactionId: Option<string>,
    cancellationReason: Option<string>,
    notes: Option<string>,
    amount: real,
    isRescheduled: bool,
    originalReservationId: Option<string>)

  /** A row built from the given columns only: every other column takes its
      default (status PENDING, not rescheduled, the optional columns null). */
  function NewReservation(id: string, userId: string, hostId: string, startTime: int, endTime: int, amount: real): (r: Reservation)
    ensures r.id == id && r.userId == userId && r.hostId == hostId
    ensures r.startTime == startTime && r.endTime == endTime && r.amount == amount
    ensures r.status == Pending
    ensures !r.isRescheduled && r.originalReservationId.None?
    ensures r.transactionId.None? && r.cancellationReason.None? && r.notes.None?
  {
    Reservation(id, userId, hostId, startTime, endTime, Pending, None, None, None, amount, false, None)
  }
}
