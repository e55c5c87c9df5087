/**
 * Slot generator B (src/app/api/availability/slots/route.ts): the doctor's
 * template times for the weekday of the date, minus every time at which a
 * PENDING or CONFIRMED appointment of that doctor starts that day. Service
 * duration and overlap play no part.
 */
module AvailabilitySlotsRoute {
  import opened Wrappers
  import opened TimeGrid
  import opened SeqUtil
  import opened Clinic

  datatype TimesResponse = Times(times: seq<string>) | Failure(status: int, error: string)

  /** The local weekday (`getDay()`, Sunday = 0) and local midnight of a parsed date. */
  datatype QueryDay = QueryDay(dayOfWeek: int, dayStart: int)

  function RowTime(r: AvailabilityRow): int {
    r.time
  }

  /** The template query: this doctor's available rows for the weekday, ordered by time. */
  function Template(rows: seq<AvailabilityRow>, doctorId: string, dayOfWeek: int): (r: seq<AvailabilityRow>)
    ensures forall x :: x in r <==> x in rows && x.doctorId == doctorId && x.dayOfWeek == dayOfWeek && x.isAvailable
    ensures SortedBy(r, RowTime)
  {
    var matching := Filter(rows, (x: AvailabilityRow) => x.doctorId == doctorId && x.dayOfWeek == dayOfWeek && x.isAvailable);
    SortByIsSorted(matching, RowTime);
    SortByMembers(matching, RowTime);
    SortBy(matching, RowTime)
  }

  /** The appointment query: this doctor, start within the day (00:00:00 to 23:59:59), status PENDING or CONFIRMED. */
  function Blocking(appointments: seq<Appointment>, doctorId: string, dayStart: int): (r: seq<Appointment>)
    ensures forall a :: a in r <==> (a in appointments && a.doctorId == doctorId
      && dayStart <= a.startTime <= dayStart + 1439 && (a.status == PENDING || a.status == CONFIRMED))
  {
    Filter(appointments, (a: Appointment) => a.doctorId == doctorId
      && dayStart <= a.startTime <= dayStart + 1439 && (a.status == PENDING || a.status == CONFIRMED))
  }

  /**
   * `isBooked`: some blocking appointment's local "HH:MM" start equals the
   * template time. The strings are equal exactly when the minutes are
   * (`TimeGrid.FormatInjective`), so the comparison is made on minutes.
   */
  predicate IsBooked(slot: AvailabilityRow, blocking: seq<Appointment>, dayStart: int) {
    exists k :: 0 <= k < |blocking| && blocking[k].startTime - dayStart == slot.time
  }

  /** The template rows left after the booked ones are removed, in template order. */
  function FreeRows(template: seq<AvailabilityRow>, blocking: seq<Appointment>, dayStart: int): (r: seq<AvailabilityRow>)
    ensures forall x :: x in r <==> x in template && !IsBooked(x, blocking, dayStart)
    ensures |r| <= |template|
  {
    Filter(template, (x: AvailabilityRow) => !IsBooked(x, blocking, dayStart))
  }

  function TimesOf(rows: seq<AvailabilityRow>): (r: seq<string>)
    ensures |r| == |rows|
    ensures forall i :: 0 <= i < |r| ==> r[i] == Format(rows[i].time)
  {
    seq(|rows|, i requires 0 <= i < |rows| => Format(rows[i].time))
  }

  /**
   * `GET /api/availability/slots?doctorId=&date=`. `query` is the weekday
   * and local midnight of `date`, `None` when the date does not parse (the
   * template query then fails and the route answers 500).
   */
  function Get(doctorId: string, date: string, query: Option<QueryDay>, rows: seq<AvailabilityRow>, appointments: seq<Appointment>): (r: TimesResponse)
    ensures doctorId == "" || date == "" <==> r == Failure(400, "doctorId y date son requeridos")
    ensures doctorId != "" && date != "" && query.None? ==> r == Failure(500, "Error al obtener horarios disponibles")
    ensures doctorId != "" && date != "" && query.Some? && |Template(rows, doctorId, query.value.dayOfWeek)| == 0 ==> r == Times([])
    ensures doctorId != "" && date != "" && query.Some? ==>
      r == Times(TimesOf(FreeRows(Template(rows, doctorId, query.value.dayOfWeek), Blocking(appointments, doctorId, query.value.dayStart), query.value.dayStart)))
  {
    if doctorId == "" || date == "" then Failure(400, "doctorId y date son requeridos")
    else if query.None? then Failure(500, "Error al obtener horarios disponibles")
    else
      var template := Template(rows, doctorId, query.value.dayOfWeek);
      if |template| == 0 then Times([])
      else Times(TimesOf(FreeRows(template, Blocking(appointments, doctorId, query.value.dayStart), query.value.dayStart)))
  }

  // ---------------------------------------------------------------------
  // Properties

  /** A template row is booked exactly when a blocking appointment of the doctor starts at its clock time that day. */
  lemma BookedIff(appointments: seq<Appointment>, doctorId: string, dayStart: int, x: AvailabilityRow)
    ensures IsBooked(x, Blocking(appointments, doctorId, dayStart), dayStart) <==>
      exists a :: a in appointments && a.doctorId == doctorId && (a.status == PENDING || a.status == CONFIRMED)
        && dayStart <= a.startTime < dayStart + 1440 && a.startTime - dayStart == x.time
  {
    var blocking := Blocking(appointments, doctorId, dayStart);
    if IsBooked(x, blocking, dayStart) {
      var k :| 0 <= k < |blocking| && blocking[k].startTime - dayStart == x.time;
      assert blocking[k] in blocking;
    }
    if exists a :: a in appointments && a.doctorId == doctorId && (a.status == PENDING || a.status == CONFIRMED)
        && dayStart <= a.startTime < dayStart + 1440 && a.startTime - dayStart == x.time
    {
      var a :| a in appointments && a.doctorId == doctorId && (a.status == PENDING || a.status == CONFIRMED)
        && dayStart <= a.startTime < dayStart + 1440 && a.startTime - dayStart == x.time;
      assert a in blocking;
      var k :| 0 <= k < |blocking| && blocking[k] == a;
    }
  }

  /**
   * A template time is offered exactly when the doctor has an available row
   * for it on that weekday and no PENDING or CONFIRMED appointment of the
   * doctor starts at that clock time that day; COMPLETED and CANCELLED ones
   * never remove it, and one that merely overlaps it does not either.
   */
  lemma OfferedIff(rows: seq<AvailabilityRow>, appointments: seq<Appointment>, doctorId: string, q: QueryDay, x: AvailabilityRow)
    ensures x in FreeRows(Template(rows, doctorId, q.dayOfWeek), Blocking(appointments, doctorId, q.dayStart), q.dayStart) <==>
      && x in rows && x.doctorId == doctorId && x.dayOfWeek == q.dayOfWeek && x.isAvailable
      && !exists a :: a in appointments && a.doctorId == doctorId && (a.status == PENDING || a.status == CONFIRMED)
           && q.dayStart <= a.startTime < q.dayStart + 1440 && a.startTime - q.dayStart == x.time
  {
    BookedIff(appointments, doctorId, q.dayStart, x);
  }

  /** The offered rows stay in ascending time order, as strings too. */
  lemma OfferedAscending(template: seq<AvailabilityRow>, blocking: seq<Appointment>, dayStart: int)
    requires SortedBy(template, RowTime)
    ensures SortedBy(FreeRows(template, blocking, dayStart), RowTime)
    ensures var times := TimesOf(FreeRows(template, blocking, dayStart));
      forall i, j :: 0 <= i < j < |times| ==> !LexLess(times[j], times[i])
  {
    var free := FreeRows(template, blocking, dayStart);
    FilterKeepsOrder(template, (x: AvailabilityRow) => !IsBooked(x, blocking, dayStart), RowTime);
    var times := TimesOf(free);
    forall i, j | 0 <= i < j < |times| ensures !LexLess(times[j], times[i]) {
      assert RowTime(free[i]) <= RowTime(free[j]);
      FormatOrder(free[j].time, free[i].time);
    }
  }
}
