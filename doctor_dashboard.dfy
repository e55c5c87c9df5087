/**
 * The doctor's dashboard figures (src/app/doctor/dashboard/page.tsx):
 * today's and this week's non-cancelled appointments and the number of
 * distinct patients. `today` is the local midnight of the request and
 * `weekday` its day of the week (0 is Sunday); days are 1440 minutes.
 */
module DoctorDashboard {
  import opened SeqUtil
  import opened Clinic

  const Day: int := 1440

  /** Start within `[from, to)` and not cancelled. */
  predicate InWindow(a: Appointment, from: int, to: int) {
    from <= a.startTime < to && a.status != CANCELLED
  }

  /** The filter test of a window, as one named function value. */
  function Within(from: int, to: int): Appointment -> bool {
    (a: Appointment) => InWindow(a, from, to)
  }

  /** The week window: from the Sunday that starts the current week, seven days. */
  function WeekStart(today: int, weekday: int): (w: int)
    requires 0 <= weekday <= 6
    ensures w <= today < w + 7 * Day
    ensures w + weekday * Day == today
  {
    today - weekday * Day
  }

  function TodayAppointments(appointments: seq<Appointment>, today: int): (r: seq<Appointment>)
    ensures forall a :: a in r <==> a in appointments && today <= a.startTime < today + Day && a.status != CANCELLED
  {
    Filter(appointments, Within(today, today + Day))
  }

  function WeekAppointments(appointments: seq<Appointment>, today: int, weekday: int): (r: seq<Appointment>)
    requires 0 <= weekday <= 6
    ensures forall a :: a in r <==>
      a in appointments && WeekStart(today, weekday) <= a.startTime < WeekStart(today, weekday) + 7 * Day && a.status != CANCELLED
  {
    var from := WeekStart(today, weekday);
    Filter(appointments, Within(from, from + 7 * Day))
  }

  /** Today's list is this week's list cut down to today, order included. */
  lemma TodayWithinWeek(appointments: seq<Appointment>, today: int, weekday: int)
    requires 0 <= weekday <= 6
    ensures Filter(WeekAppointments(appointments, today, weekday), Within(today, today + Day))
      == TodayAppointments(appointments, today)
    ensures forall a :: a in TodayAppointments(appointments, today) ==> a in WeekAppointments(appointments, today, weekday)
  {
    var from := WeekStart(today, weekday);
    assert from <= today && today + Day <= from + 7 * Day;
    FilterOfFilter(appointments, Within(from, from + 7 * Day), Within(today, today + Day));
    assert WeekAppointments(appointments, today, weekday) == Filter(appointments, Within(from, from + 7 * Day));
    assert TodayAppointments(appointments, today) == Filter(appointments, Within(today, today + Day));
  }

  /** Both lists keep the ascending start order of the query. */
  lemma KeepAscending(appointments: seq<Appointment>, today: int, weekday: int)
    requires 0 <= weekday <= 6
    requires SortedBy(appointments, StartKey)
    ensures SortedBy(TodayAppointments(appointments, today), StartKey)
    ensures SortedBy(WeekAppointments(appointments, today, weekday), StartKey)
  {
    var from := WeekStart(today, weekday);
    FilterKeepsOrder(appointments, Within(today, today + Day), StartKey);
    FilterKeepsOrder(appointments, Within(from, from + 7 * Day), StartKey);
  }

  /** `new Set(appointments.map(a => a.patientId)).size`. */
  function TotalPatients(appointments: seq<Appointment>): nat {
    |Distinct(PatientIds(appointments))|
  }

  /**
   * The count is the number of distinct patient ids over every appointment,
   * cancelled and past ones included, and never exceeds the number of
   * appointments.
   */
  lemma TotalPatientsSpec(appointments: seq<Appointment>)
    ensures TotalPatients(appointments) == |set a | a in appointments :: a.patientId|
    ensures TotalPatients(appointments) <= |appointments|
  {
    var ids := PatientIds(appointments);
    DistinctCount(ids);
    DistinctSpec(ids);
    assert (set x | x in ids) == (set a | a in appointments :: a.patientId) by {
      forall x | x in ids ensures x in (set a | a in appointments :: a.patientId) {
        var i :| 0 <= i < |ids| && ids[i] == x;
        assert appointments[i] in appointments;
      }
      forall a | a in appointments ensures a.patientId in ids {
        var i :| 0 <= i < |appointments| && appointments[i] == a;
        assert ids[i] == a.patientId;
      }
    }
  }
}
