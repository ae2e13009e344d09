/** The booking engine: host availability windows, their expansion over a
    date range, the free-slot check, and the reservation state machine. */
module Reservations {
  import opened Common
  import opened Sorting
  import opened AvailabilityEntity
  import opened ReservationEntity
  import opened Users
  import opened Hosts

  // ---------------------------------------------------------------------
  // Calendar arithmetic on minutes since the epoch (local time is UTC).

  /** The start of the day holding `t`. */
  function Midnight(t: int): (m: int)
    ensures m <= t < m + MinutesPerDay
    ensures m % MinutesPerDay == 0
  {
    t - t % MinutesPerDay
  }

  /** Minutes since midnight: the hour and minute of `t`. */
  function TimeOfDay(t: int): (m: int)
    ensures 0 <= m < MinutesPerDay
    ensures Midnight(t) + m == t
  {
    t % MinutesPerDay
  }

  /** The weekday of `t`, 0 for Sunday; day 0 of the epoch was a Thursday. */
  function Weekday(t: int): (d: int)
    ensures 0 <= d < 7
  {
    (t / MinutesPerDay + 4) % 7
  }

  /** The weekday as the one-digit text stored in `daysOfWeek`. */
  function WeekdayString(t: int): (s: string)
    ensures |s| == 1 && '0' <= s[0] <= '6'
  {
    [('0' as int + Weekday(t)) as char]
  }

  // ---------------------------------------------------------------------
  // Expansion of availability windows.

  /** Which rows `getHostAvailability` fetches: the host's active ones. */
  predicate Selected(a: Availability, hostId: string) {
    a.hostId == hostId && a.isActive
  }

  /** Whether a recurring window repeats on the day holding `day`. */
  predicate OnDay(a: Availability, day: int) {
    a.daysOfWeek.Some? && WeekdayString(day) in a.daysOfWeek.value
  }

  /** The copy of a recurring window placed on the day holding `day`: the
      template's hour and minute on that date, every other column copied. */
  function Instance(a: Availability, day: int): Availability {
    a.(startTime := Midnight(day) + TimeOfDay(a.startTime),
       endTime := Midnight(day) + TimeOfDay(a.endTime))
  }

  /** The instances of a recurring window for the days `first`,
      `first` + 1 day, ... that lie before `limit`, in that order. */
  function Occurrences(a: Availability, first: int, limit: int): seq<Availability>
    decreases limit - first
  {
    if first >= limit then []
    else (if OnDay(a, first) then [Instance(a, first)] else []) + Occurrences(a, first + MinutesPerDay, limit)
  }

  /** What one row contributes to the expansion of [rangeStart, rangeEnd]:
      a one-off window itself when it lies inside the range (both ends
      inclusive); a daily or weekly window its occurrences. */
  function Expand(a: Availability, rangeStart: int, rangeEnd: int): seq<Availability> {
    if a.recurrenceType == Once then
      if rangeStart <= a.startTime && a.endTime <= rangeEnd then [a] else []
    else Occurrences(a, rangeStart, rangeEnd)
  }

  /** The expansions of the rows `order` names, one after the other. */
  function ExpandAll(avails: map<string, Availability>, order: seq<string>, rangeStart: int, rangeEnd: int): seq<Availability>
    requires forall i :: 0 <= i < |order| ==> order[i] in avails
  {
    if order == [] then []
    else ExpandAll(avails, order[..|order| - 1], rangeStart, rangeEnd) + Expand(avails[order[|order| - 1]], rangeStart, rangeEnd)
  }

  /** Whether `day` lies in [first, limit) a whole number of days after `first`. */
  predicate DayOfRange(day: int, first: int, limit: int) {
    first <= day < limit && (day - first) % MinutesPerDay == 0
  }

  lemma DayOfRangeStep(day: int, first: int, limit: int)
    requires first < day
    ensures DayOfRange(day, first, limit) <==> DayOfRange(day, first + MinutesPerDay, limit)
  {
    assert (day - (first + MinutesPerDay)) % MinutesPerDay == (day - first) % MinutesPerDay;
  }

  /** Every instance of a recurring window is made for a day of the range
      whose weekday the window lists. */
  lemma {:induction false} OccurrenceHasDay(a: Availability, first: int, limit: int, x: Availability)
    requires x in Occurrences(a, first, limit)
    decreases limit - first
    ensures exists day :: DayOfRange(day, first, limit) && OnDay(a, day) && x == Instance(a, day)
  {
    if OnDay(a, first) && x == Instance(a, first) {
      assert DayOfRange(first, first, limit);
    } else {
      var next := first + MinutesPerDay;
      OccurrenceHasDay(a, next, limit, x);
      var day :| DayOfRange(day, next, limit) && OnDay(a, day) && x == Instance(a, day);
      DayOfRangeStep(day, first, limit);
    }
  }

  /** Every listed day of the range yields its instance. */
  lemma {:induction false} DayHasOccurrence(a: Availability, first: int, limit: int, day: int)
    requires DayOfRange(day, first, limit) && OnDay(a, day)
    decreases limit - first
    ensures Instance(a, day) in Occurrences(a, first, limit)
  {
    if day != first {
      DayOfRangeStep(day, first, limit);
      DayHasOccurrence(a, first + MinutesPerDay, limit, day);
    }
  }

  /** A recurring window yields exactly one instance for each day of the
      range, counted in whole days from its start, whose weekday it lists. */
  lemma OccurrencesExactly(a: Availability, first: int, limit: int, x: Availability)
    ensures x in Occurrences(a, first, limit) <==>
            (exists day :: DayOfRange(day, first, limit) && OnDay(a, day) && x == Instance(a, day))
  {
    if x in Occurrences(a, first, limit) {
      OccurrenceHasDay(a, first, limit, x);
    }
    if exists day :: DayOfRange(day, first, limit) && OnDay(a, day) && x == Instance(a, day) {
      var day :| DayOfRange(day, first, limit) && OnDay(a, day) && x == Instance(a, day);
      DayHasOccurrence(a, first, limit, day);
    }
  }

  /** An instance falls on the day it was made for, at the template's hour
      and minute, whatever the template's own date. */
  lemma InstanceOnItsDay(a: Availability, day: int)
    ensures Midnight(Instance(a, day).startTime) == Midnight(day)
    ensures Weekday(Instance(a, day).startTime) == Weekday(day)
    ensures TimeOfDay(Instance(a, day).startTime) == TimeOfDay(a.startTime)
    ensures TimeOfDay(Instance(a, day).endTime) == TimeOfDay(a.endTime)
  {
    var m := Midnight(day);
    var q := m / MinutesPerDay;
    assert m == q * MinutesPerDay;
    var s := Instance(a, day).startTime;
    var r := TimeOfDay(a.startTime);
    assert s == q * MinutesPerDay + r;
    assert s / MinutesPerDay == q && s % MinutesPerDay == r;
    assert day / MinutesPerDay == q;
    var e := Instance(a, day).endTime;
    var re := TimeOfDay(a.endTime);
    assert e == q * MinutesPerDay + re;
    assert e % MinutesPerDay == re;
  }

  /** Every instance of a recurring window lies on a listed weekday. */
  lemma OccurrencesOnListedDays(a: Availability, first: int, limit: int, x: Availability)
    requires x in Occurrences(a, first, limit)
    ensures a.daysOfWeek.Some? && WeekdayString(x.startTime) in a.daysOfWeek.value
    ensures TimeOfDay(x.startTime) == TimeOfDay(a.startTime) && TimeOfDay(x.endTime) == TimeOfDay(a.endTime)
  {
    OccurrenceHasDay(a, first, limit, x);
    var day :| DayOfRange(day, first, limit) && OnDay(a, day) && x == Instance(a, day);
    InstanceOnItsDay(a, day);
  }

  /** A window is in the concatenation exactly when it is in the expansion
      of one of the rows named. */
  lemma {:induction false} ExpandAllMembers(avails: map<string, Availability>, order: seq<string>, rangeStart: int, rangeEnd: int, x: Availability)
    requires forall i :: 0 <= i < |order| ==> order[i] in avails
    ensures x in ExpandAll(avails, order, rangeStart, rangeEnd) <==>
            (exists i :: 0 <= i < |order| && x in Expand(avails[order[i]], rangeStart, rangeEnd))
  {
    if order != [] {
      var init := order[..|order| - 1];
      var last := Expand(avails[order[|order| - 1]], rangeStart, rangeEnd);
      ExpandAllMembers(avails, init, rangeStart, rangeEnd, x);
      assert ExpandAll(avails, order, rangeStart, rangeEnd) == ExpandAll(avails, init, rangeStart, rangeEnd) + last;
      if x in ExpandAll(avails, init, rangeStart, rangeEnd) {
        var i :| 0 <= i < |init| && x in Expand(avails[init[i]], rangeStart, rangeEnd);
        assert order[i] == init[i];
      } else if x !in last {
        forall i | 0 <= i < |order| ensures x !in Expand(avails[order[i]], rangeStart, rangeEnd) {
          if i < |init| {
            assert order[i] == init[i];
          }
        }
      }
    }
  }

  // ---------------------------------------------------------------------
  // The free-slot check.

  /** Whether an expanded window fully contains [start, end], both ends
      inclusive. */
  predicate Covers(w: Availability, start: int, end: int) {
    w.startTime <= start && w.endTime >= end
  }

  /** Whether some active window of the host, expanded over the days from
      the slot's first midnight to the midnight after its last day, covers
      the slot. */
  predicate Offered(avails: map<string, Availability>, hostId: string, start: int, end: int) {
    exists id :: id in avails && Selected(avails[id], hostId) &&
      exists w :: w in Expand(avails[id], Midnight(start), Midnight(end) + MinutesPerDay) && Covers(w, start, end)
  }

  /** Whether a stored reservation blocks [start, end]: it is the host's,
      CONFIRMED, and touches or overlaps the slot (both ends inclusive). */
  predicate Blocks(r: Reservation, hostId: string, start: int, end: int) {
    r.hostId == hostId && r.status == Confirmed && r.startTime <= end && r.endTime >= start
  }

  predicate Blocked(reservations: map<string, Reservation>, hostId: string, start: int, end: int) {
    exists id :: id in reservations && Blocks(reservations[id], hostId, start, end)
  }

  /** `checkHostAvailability`, stated over the two tables. */
  predicate HostFree(avails: map<string, Availability>, reservations: map<string, Reservation>, hostId: string, start: int, end: int) {
    Offered(avails, hostId, start, end) && !Blocked(reservations, hostId, start, end)
  }

  /** The expansion of exactly the host's active rows, over the slot's
      days, covers the slot exactly when the slot is offered. */
  lemma ExpandedCoversIffOffered(avails: map<string, Availability>, hostId: string, order: seq<string>, start: int, end: int)
    requires forall id :: id in order <==> id in avails && Selected(avails[id], hostId)
    requires forall i :: 0 <= i < |order| ==> order[i] in avails
    ensures var windows := ExpandAll(avails, order, Midnight(start), Midnight(end) + MinutesPerDay);
            (exists w :: w in windows && Covers(w, start, end)) <==> Offered(avails, hostId, start, end)
  {
    var rangeStart, rangeEnd := Midnight(start), Midnight(end) + MinutesPerDay;
    var windows := ExpandAll(avails, order, rangeStart, rangeEnd);
    if exists w :: w in windows && Covers(w, start, end) {
      var w :| w in windows && Covers(w, start, end);
      ExpandAllMembers(avails, order, rangeStart, rangeEnd, w);
      var k :| 0 <= k < |order| && w in Expand(avails[order[k]], rangeStart, rangeEnd);
      assert Selected(avails[order[k]], hostId);
    }
    if Offered(avails, hostId, start, end) {
      var id :| id in avails && Selected(avails[id], hostId) &&
        exists w :: w in Expand(avails[id], rangeStart, rangeEnd) && Covers(w, start, end);
      var w :| w in Expand(avails[id], rangeStart, rangeEnd) && Covers(w, start, end);
      var k :| 0 <= k < |order| && order[k] == id;
      ExpandAllMembers(avails, order, rangeStart, rangeEnd, w);
      assert w in windows;
    }
  }

  /** A slot is blocked exactly when the query for overlapping CONFIRMED
      reservations of the host finds a row. */
  lemma BlockedIffOverlapping(reservations: map<string, Reservation>, hostId: string, start: int, end: int)
    ensures Blocked(reservations, hostId, start, end) <==>
            |set id | id in reservations && Blocks(reservations[id], hostId, start, end)| > 0
  {
    var overlapping := set id | id in reservations && Blocks(reservations[id], hostId, start, end);
    if Blocked(reservations, hostId, start, end) {
      var id :| id in reservations && Blocks(reservations[id], hostId, start, end);
      assert id in overlapping;
    }
  }

  /** Reservations that are not CONFIRMED never take a slot away: adding,
      replacing or removing one leaves every slot as free as it was. */
  lemma {:induction false} OnlyConfirmedBlocks(reservations: map<string, Reservation>, id: string, r: Reservation, hostId: string, start: int, end: int)
    requires r.status != Confirmed
    ensures Blocked(reservations[id := r], hostId, start, end) <==> Blocked(reservations - {id}, hostId, start, end)
  {
    var after := reservations[id := r];
    var before := reservations - {id};
    if Blocked(after, hostId, start, end) {
      var k :| k in after && Blocks(after[k], hostId, start, end);
      assert k != id && k in before && before[k] == after[k];
    }
    if Blocked(before, hostId, start, end) {
      var k :| k in before && Blocks(before[k], hostId, start, end);
      assert k in after && after[k] == before[k];
    }
  }

  /** A CONFIRMED reservation blocks the slot that starts the minute it ends:
      back-to-back bookings collide, whatever the host's availability. */
  lemma BackToBackCollides(avails: map<string, Availability>, reservations: map<string, Reservation>, id: string, length: nat)
    requires id in reservations && reservations[id].status == Confirmed
    requires reservations[id].startTime <= reservations[id].endTime
    ensures !HostFree(avails, reservations, reservations[id].hostId, reservations[id].endTime, reservations[id].endTime + length)
    ensures Blocked(reservations, reservations[id].hostId, reservations[id].endTime, reservations[id].endTime + length)
  {
    assert Blocks(reservations[id], reservations[id].hostId, reservations[id].endTime, reservations[id].endTime + length);
  }

  // ---------------------------------------------------------------------
  // Reservation transitions that depend on the row alone.

  predicate Participant(r: Reservation, callerId: string) {
    r.userId == callerId || r.hostId == callerId
  }

  /** `cancel` on one row: the caller must be its customer or its host, the
      row must be PENDING or CONFIRMED, and `now` must not be later than 24
      hours before the start. */
  function CancelOutcome(r: Reservation, callerId: string, reason: string, now: int): (o: Result<Reservation>)
    ensures o.Ok? <==> Participant(r, callerId) && (r.status == Pending || r.status == Confirmed)
                       && now <= r.startTime - 24 * 60
    ensures o.Ok? ==> o.value == r.(status := Cancelled, cancellationReason := Some(reason))
    ensures o.Err? ==> o.error.BadRequest?
  {
    if !Participant(r, callerId) then Err(BadRequest("You are not allowed to cancel this reservation"))
    else if r.status != Pending && r.status != Confirmed then Err(BadRequest("This reservation cannot be cancelled"))
    else if now > r.startTime - 24 * 60 then Err(BadRequest("Cancellation deadline has passed"))
    else Ok(r.(status := Cancelled, cancellationReason := Some(reason)))
  }

  /** `complete` on one row: only a CONFIRMED row, and only once its end time
      has come (the end minute itself included). */
  function CompleteOutcome(r: Reservation, now: int): (o: Result<Reservation>)
    ensures o.Ok? <==> r.status == Confirmed && now >= r.endTime
    ensures o.Ok? ==> o.value == r.(status := Completed)
    ensures o.Err? ==> o.error.BadRequest?
  {
    if r.status != Confirmed then Err(BadRequest("This reservation cannot be marked as completed"))
    else if now < r.endTime then Err(BadRequest("This reservation has not ended yet"))
    else Ok(r.(status := Completed))
  }

  /** `updateStatus` on one row: any status at all; a non-empty reason goes to
      `cancellationReason` when the new status is CANCELLED and to `notes`
      otherwise. */
  function WithStatus(r: Reservation, status: ReservationStatus, reason: Option<string>): (g: Reservation)
    ensures g.status == status
    ensures g.id == r.id && g.userId == r.userId && g.hostId == r.hostId
    ensures g.startTime == r.startTime && g.endTime == r.endTime && g.amount == r.amount
    ensures g.isRescheduled == r.isRescheduled && g.originalReservationId == r.originalReservationId
    ensures g.cancellationReason == (if !Blank(reason) && status == Cancelled then reason else r.cancellationReason)
    ensures g.notes == (if !Blank(reason) && status != Cancelled then reason else r.notes)
  {
    if Blank(reason) then r.(status := status)
    else if status == Cancelled then r.(status := status, cancellationReason := reason)
    else r.(status := status, notes := reason)
  }

  /** The reservation a reschedule creates: CONFIRMED at the new times, for
      the same customer, host, amount and payment, marked as a reschedule of
      the original. */
  function RescheduledCopy(original: Reservation, id: string, start: int, end: int): (n: Reservation)
    ensures n.id == id && n.status == Confirmed && n.startTime == start && n.endTime == end
    ensures n.userId == original.userId && n.hostId == original.hostId
    ensures n.amount == original.amount && n.transactionId == original.transactionId
    ensures n.isRescheduled && n.originalReservationId == Some(original.id)
    ensures n.cancellationReason.None? && n.notes.None?
  {
    Reservation(id, original.userId, original.hostId, start, end, Confirmed,
                original.transactionId, None, None, original.amount, true, Some(original.id))
  }

  /** A cancelled or completed reservation can be neither cancelled nor
      completed again; only the unguarded status override moves it. */
  lemma FinishedIsFinal(r: Reservation, callerId: string, reason: string, now: int)
    requires r.status == Cancelled || r.status == Completed
    ensures CancelOutcome(r, callerId, reason, now).Err?
    ensures CompleteOutcome(r, now).Err?
  {}

  /** Every reschedule link points at a row of the table, and only a
      rescheduled row has one. */
  predicate LineageClosed(reservations: map<string, Reservation>) {
    forall id :: id in reservations ==>
      && (reservations[id].isRescheduled <==> reservations[id].originalReservationId.Some?)
      && (reservations[id].originalReservationId.Some? ==> reservations[id].originalReservationId.value in reservations)
  }

  /** The original of a reschedule is still CONFIRMED when the new slot is
      checked, so a new slot that touches or overlaps the original's own
      time is always refused. */
  lemma RescheduleCannotOverlapOriginal(avails: map<string, Availability>, reservations: map<string, Reservation>,
                                        id: string, start: int, end: int)
    requires id in reservations && reservations[id].status == Confirmed
    requires reservations[id].startTime <= end && start <= reservations[id].endTime
    ensures !HostFree(avails, reservations, reservations[id].hostId, start, end)
  {
    assert Blocks(reservations[id], reservations[id].hostId, start, end);
  }

  function StartDescending(r: Reservation): seq<int> { [-r.startTime] }
  function StartAscending(r: Reservation): seq<int> { [r.startTime] }

  class ReservationsService {
    var availabilities: map<string, Availability>
    var reservations: map<string, Reservation>
    const users: UsersService
    const hosts: HostsService

    ghost predicate Valid()
      reads this
    {
      && (forall id :: id in availabilities ==> availabilities[id].id == id)
      && (forall id :: id in reservations ==> reservations[id].id == id)
      && LineageClosed(reservations)
    }

    constructor (users: UsersService, hosts: HostsService)
      ensures Valid() && availabilities == map[] && reservations == map[]
      ensures this.users == users && this.hosts == hosts
    {
      availabilities := map[];
      reservations := map[];
      this.users := users;
      this.hosts := hosts;
    }

    /** `findById`: the row, or NotFound. */
    function FindById(id: string): (r: Result<Reservation>)
      reads this
      ensures r.Ok? <==> id in reservations
      ensures r.Ok? ==> r.value == reservations[id]
      ensures r.Err? ==> r.error.NotFound?
    {
      if id in reservations then Ok(reservations[id])
      else Err(NotFound("Reservation with ID " + id + " not found"))
    }

    /** `findByUser`: the customer's reservations, latest start first. */
    method FindByUser(userId: string) returns (r: seq<Reservation>)
      ensures forall x :: x in r <==> x in reservations.Values && x.userId == userId
      ensures Distinct(r) && SortedBy(r, StartDescending)
    {
      var rows := set x | x in reservations.Values && x.userId == userId;
      r := SortSet(rows, StartDescending);
    }

    /** `findByHost`: the host's reservations, latest start first. */
    method FindByHost(hostId: string) returns (r: seq<Reservation>)
      ensures forall x :: x in r <==> x in reservations.Values && x.hostId == hostId
      ensures Distinct(r) && SortedBy(r, StartDescending)
    {
      var rows := set x | x in reservations.Values && x.hostId == hostId;
      r := SortSet(rows, StartDescending);
    }

    /** `findUpcoming`: the CONFIRMED reservations of the customer (or of the
        host, when `isHost`) that start at `now` or later, earliest first. */
    method FindUpcoming(userId: string, isHost: bool, now: int) returns (r: seq<Reservation>)
      ensures forall x :: x in r <==> x in reservations.Values && (if isHost then x.hostId else x.userId) == userId
                                       && x.startTime >= now && x.status == Confirmed
      ensures Distinct(r) && SortedBy(r, StartAscending)
    {
      var rows := set x | x in reservations.Values && (if isHost then x.hostId else x.userId) == userId
                          && x.startTime >= now && x.status == Confirmed;
      r := SortSet(rows, StartAscending);
    }

    /** The day-by-day loop over one recurring window. */
    method ExpandRecurring(a: Availability, rangeStart: int, rangeEnd: int) returns (instances: seq<Availability>)
      ensures instances == Occurrences(a, rangeStart, rangeEnd)
    {
      instances := [];
      var current := rangeStart;
      while current < rangeEnd
        invariant instances + Occurrences(a, current, rangeEnd) == Occurrences(a, rangeStart, rangeEnd)
        decreases rangeEnd - current
      {
        if a.daysOfWeek.Some? && WeekdayString(current) in a.daysOfWeek.value {
          instances := instances + [Instance(a, current)];
        }
        current := current + MinutesPerDay;
      }
    }

    /** `getHostAvailability`: every active row of the host, taken in the
        order the table yields them (`order`), each expanded over the range. */
    method GetHostAvailability(hostId: string, rangeStart: int, rangeEnd: int)
      returns (result: seq<Availability>, ghost order: seq<string>)
      ensures Distinct(order)
      ensures forall id :: id in order <==> id in availabilities && Selected(availabilities[id], hostId)
      ensures result == ExpandAll(availabilities, order, rangeStart, rangeEnd)
    {
      var selected := set id | id in availabilities && Selected(availabilities[id], hostId);
      var remaining := selected;
      result := [];
      order := [];
      while remaining != {}
        invariant remaining <= selected
        invariant Distinct(order)
        invariant forall id :: id in order <==> id in selected - remaining
        invariant forall i :: 0 <= i < |order| ==> order[i] in availabilities
        invariant result == ExpandAll(availabilities, order, rangeStart, rangeEnd)
        decreases remaining
      {
        var id :| id in remaining;
        var a := availabilities[id];
        var instances: seq<Availability>;
        if a.recurrenceType == Once {
          instances := if rangeStart <= a.startTime && a.endTime <= rangeEnd then [a] else [];
        } else {
          instances := ExpandRecurring(a, rangeStart, rangeEnd);
        }
        assert id !in order;
        assert (order + [id])[..|order|] == order;
        result := result + instances;
        order := order + [id];
        remaining := remaining - {id};
      }
    }

    /** `checkHostAvailability`: some expanded window covers the slot and no
        CONFIRMED reservation of the host touches it. */
    method CheckHostAvailability(hostId: string, start: int, end: int) returns (free: bool)
      ensures free <==> HostFree(availabilities, reservations, hostId, start, end)
    {
      var rangeStart, rangeEnd := Midnight(start), Midnight(end) + MinutesPerDay;
      var windows: seq<Availability>;
      ghost var order: seq<string>;
      windows, order := GetHostAvailability(hostId, rangeStart, rangeEnd);
      var covered := false;
      var i := 0;
      while i < |windows| && !covered
        invariant 0 <= i <= |windows|
        invariant covered <==> exists j :: 0 <= j < i && Covers(windows[j], start, end)
      {
        covered := Covers(windows[i], start, end);
        i := i + 1;
      }
      assert covered <==> exists w :: w in windows && Covers(w, start, end);
      ExpandedCoversIffOffered(availabilities, hostId, order, start, end);
      if !covered {
        return false;
      }
      var overlapping := set id | id in reservations && Blocks(reservations[id], hostId, start, end);
      BlockedIffOverlapping(reservations, hostId, start, end);
      free := |overlapping| == 0;
    }

    /** `create`: the start must not be in the past, the end must be after
        the start, the slot must be free, and customer and host must exist;
        then one PENDING reservation is stored under a fresh id. */
    method Create(userId: string, hostId: string, start: int, end: int, amount: real, now: int)
      returns (r: Result<Reservation>)
      requires Valid()
      modifies this
      ensures Valid()
      ensures availabilities == old(availabilities)
      ensures r.Ok? <==> now <= start < end && HostFree(availabilities, old(reservations), hostId, start, end)
                         && userId in users.users && hostId in hosts.hosts
      ensures r.Err? ==> reservations == old(reservations)
      ensures r.Err? && !(now <= start < end && HostFree(availabilities, old(reservations), hostId, start, end))
              ==> r.error.BadRequest?
      ensures r.Err? && now <= start < end && HostFree(availabilities, old(reservations), hostId, start, end)
              ==> r.error.NotFound?
      ensures r.Ok? ==> r.value.id !in old(reservations)
                        && r.value == NewReservation(r.value.id, userId, hostId, start, end, amount)
                        && reservations == old(reservations)[r.value.id := r.value]
    {
      if start < now {
        return Err(BadRequest("Start time must be in the future"));
      }
      if !(end > start) {
        return Err(BadRequest("End time must be after start time"));
      }
      var free := CheckHostAvailability(hostId, start, end);
      if !free {
        return Err(BadRequest("Host is not available for the selected time slot"));
      }
      var user := users.FindById(userId);
      if user.Err? {
        return Err(user.error);
      }
      var host := hosts.FindById(hostId);
      if host.Err? {
        return Err(host.error);
      }
      FreshIdExists(reservations.Keys);
      var id :| id !in reservations;
      var reservation := NewReservation(id, userId, hostId, start, end, amount);
      reservations := reservations[id := reservation];
      r := Ok(reservation);
    }

    /** `updateStatus`: the unguarded override. */
    method UpdateStatus(id: string, status: ReservationStatus, reason: Option<string>) returns (r: Result<Reservation>)
      requires Valid()
      modifies this
      ensures Valid()
      ensures availabilities == old(availabilities)
      ensures r.Ok? <==> id in old(reservations)
      ensures r.Ok? ==> reservations == old(reservations)[id := WithStatus(old(reservations)[id], status, reason)]
                        && r.value == reservations[id]
      ensures r.Err? ==> r.error.NotFound? && reservations == old(reservations)
    {
      var found := FindById(id);
      if found.Err? {
        return Err(found.error);
      }
      var updated := WithStatus(found.value, status, reason);
      reservations := reservations[id := updated];
      r := Ok(updated);
    }

    /** `cancel`: the row must exist, then `CancelOutcome` decides. */
    method Cancel(id: string, callerId: string, reason: string, now: int) returns (r: Result<Reservation>)
      requires Valid()
      modifies this
      ensures Valid()
      ensures availabilities == old(availabilities)
      ensures r.Ok? <==> id in old(reservations) && CancelOutcome(old(reservations)[id], callerId, reason, now).Ok?
      ensures r.Ok? ==> r.value == CancelOutcome(old(reservations)[id], callerId, reason, now).value
                        && reservations == old(reservations)[id := r.value]
      ensures r.Err? ==> reservations == old(reservations)
      ensures r.Err? && id !in old(reservations) ==> r.error.NotFound?
      ensures r.Err? && id in old(reservations) ==> r.error.BadRequest?
    {
      var found := FindById(id);
      if found.Err? {
        return Err(found.error);
      }
      r := CancelOutcome(found.value, callerId, reason, now);
      if r.Ok? {
        reservations := reservations[id := r.value];
      }
    }

    /** `complete`: the row must exist, then `CompleteOutcome` decides. */
    method Complete(id: string, now: int) returns (r: Result<Reservation>)
      requires Valid()
      modifies this
      ensures Valid()
      ensures availabilities == old(availabilities)
      ensures r.Ok? <==> id in old(reservations) && CompleteOutcome(old(reservations)[id], now).Ok?
      ensures r.Ok? ==> r.value == old(reservations)[id].(status := Completed)
                        && reservations == old(reservations)[id := r.value]
      ensures r.Err? ==> reservations == old(reservations)
      ensures r.Err? && id !in old(reservations) ==> r.error.NotFound?
      ensures r.Err? && id in old(reservations) ==> r.error.BadRequest?
    {
      var found := FindById(id);
      if found.Err? {
        return Err(found.error);
      }
      r := CompleteOutcome(found.value, now);
      if r.Ok? {
        reservations := reservations[id := r.value];
      }
    }

    /** `reschedule`: a participant moves a CONFIRMED reservation to a free
        slot. The original becomes CANCELLED with reason "Rescheduled" and a
        linked CONFIRMED copy is stored under a fresh id. The new times are
        not checked against `now` or against each other. */
    method Reschedule(id: string, callerId: string, start: int, end: int) returns (r: Result<Reservation>)
      requires Valid()
      modifies this
      ensures Valid()
      ensures availabilities == old(availabilities)
      ensures r.Ok? <==> id in old(reservations) && Participant(old(reservations)[id], callerId)
                         && old(reservations)[id].status == Confirmed
                         && HostFree(availabilities, old(reservations), old(reservations)[id].hostId, start, end)
      ensures r.Err? ==> reservations == old(reservations)
      ensures r.Err? && id !in old(reservations) ==> r.error.NotFound?
      ensures r.Err? && id in old(reservations) ==> r.error.BadRequest?
      ensures r.Ok? ==> r.value.id !in old(reservations)
                        && r.value == RescheduledCopy(old(reservations)[id], r.value.id, start, end)
                        && reservations == old(reservations)[id := old(reservations)[id].(status := Cancelled,
                                                                  cancellationReason := Some("Rescheduled"))]
                                                           [r.value.id := r.value]
    {
      var found := FindById(id);
      if found.Err? {
        return Err(found.error);
      }
      var original := found.value;
      if !Participant(original, callerId) {
        return Err(BadRequest("You are not allowed to reschedule this reservation"));
      }
      if original.status != Confirmed {
        return Err(BadRequest("This reservation cannot be rescheduled"));
      }
      var free := CheckHostAvailability(original.hostId, start, end);
      if !free {
        return Err(BadRequest("Host is not available for the new time slot"));
      }
      FreshIdExists(reservations.Keys);
      var newId :| newId !in reservations;
      var copy := RescheduledCopy(original, newId, start, end);
      reservations := reservations[id := original.(status := Cancelled, cancellationReason := Some("Rescheduled"))];
      reservations := reservations[newId := copy];
      r := Ok(copy);
    }

    /** `createAvailability`: the end must be after the start, a recurring
        window needs a non-empty weekday list, and the host must exist; the
        row is stored active under a fresh id. A weekday list given with a
        one-off window is stored too. */
    method CreateAvailability(hostId: string, start: int, end: int, recurrence: RecurrenceType,
                              daysOfWeek: Option<seq<string>>, now: int) returns (r: Result<Availability>)
      requires Valid()
      modifies this
      ensures Valid()
      ensures reservations == old(reservations)
      ensures r.Ok? <==> start < end && (recurrence == Once || (daysOfWeek.Some? && |daysOfWeek.value| > 0))
                         && hostId in hosts.hosts
      ensures r.Err? ==> availabilities == old(availabilities)
      ensures r.Err? && !(start < end && (recurrence == Once || (daysOfWeek.Some? && |daysOfWeek.value| > 0)))
              ==> r.error.BadRequest?
      ensures r.Err? && start < end && (recurrence == Once || (daysOfWeek.Some? && |daysOfWeek.value| > 0))
              ==> r.error.NotFound?
      ensures r.Ok? ==> r.value.id !in old(availabilities)
                        && r.value == NewAvailability(r.value.id, hostId, start, end, now)
                                        .(recurrenceType := recurrence, daysOfWeek := daysOfWeek)
                        && availabilities == old(availabilities)[r.value.id := r.value]
    {
      if !(end > start) {
        return Err(BadRequest("End time must be after start time"));
      }
      if recurrence != Once && (daysOfWeek.None? || |daysOfWeek.value| == 0) {
        return Err(BadRequest("Days of week must be provided for recurring availability"));
      }
      var host := hosts.FindById(hostId);
      if host.Err? {
        return Err(host.error);
      }
      FreshIdExists(availabilities.Keys);
      var id :| id !in availabilities;
      var a := NewAvailability(id, hostId, start, end, now).(recurrenceType := recurrence);
      if daysOfWeek.Some? {
        a := a.(daysOfWeek := daysOfWeek);
      }
      availabilities := availabilities[id := a];
      r := Ok(a);
    }
  }
}
