/** The `availabilities` table: a host's open window, either one-off or a
    daily template repeated on chosen weekdays. */
module AvailabilityEntity {
  import opened Common

  /** Exactly three recurrence kinds. */
  datatype RecurrenceType = Once | Daily | Weekly

  /** The value stored in the enum column. */
  function RecurrenceName(r: RecurrenceType): (name: string)
  {
    match r
    case Once => "once"
    case Daily => "daily"
    case Weekly => "weekly"
  }

  /** Reads the enum column back; any other text is not a recurrence kind. */
  function ParseRecurrence(name: string): (r: Option<RecurrenceType>)
    ensures r.Some? ==> RecurrenceName(r.value) == name
    ensures forall k :: RecurrenceName(k) == name ==> r == Some(k)
  {
    if name == "once" then Some(Once)
    else if name == "daily" then Some(Daily)
    else if name == "weekly" then Some(Weekly)
    else None
  }

  /** One row. Times are minutes since the epoch; for a recurring row only
      their time of day is used. `daysOfWeek` holds weekday numbers as text
      ("0" is Sunday) and may be absent. */
  datatype Availability = Availability(
    id: string,
    hostId: string,
    startTime: int,
    endTime: int,
    recurrenceType: RecurrenceType,
    daysOfWeek: Option<seq<string>>,
    isActive: bool,
    createdAt: int)

  /** A freshly constructed row before the service fills in its kind and
      weekdays: the column defaults apply. */
  function NewAvailability(id: string, hostId: string, startTime: int, endTime: int, createdAt: int): (a: Availability)
    ensures a.id == id && a.hostId == hostId
    ensures a.startTime == startTime && a.endTime == endTime && a.createdAt == createdAt
    ensures a.recurrenceType == Once
    ensures a.daysOfWeek.None?
    ensures a.isActive
  {
    Availability(id, hostId, startTime, endTime, Once, None, true, createdAt)
  }
}
