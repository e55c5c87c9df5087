/**
 * The patient's dashboard (src/app/patient/dashboard/page.tsx): the next
 * appointments (at most five, soonest first), the number of pending
 * payments and the number of appointments. The query returns the
 * appointments in ascending start order.
 */
module PatientDashboard {
  import opened SeqUtil
  import opened Clinic
  import PatientAppointments
  import PatientPayments

  /** How many upcoming appointments the dashboard lists. */
  const Shown: nat := 5

  /** `upcomingAppointments.slice(0, 5)`. */
  function NextAppointments(appointments: seq<Appointment>, now: int): (r: seq<Appointment>)
    ensures |r| == if |PatientAppointments.Upcoming(appointments, now)| < Shown then |PatientAppointments.Upcoming(appointments, now)| else Shown
    ensures r == PatientAppointments.Upcoming(appointments, now)[..|r|]
  {
    var upcoming := PatientAppointments.Upcoming(appointments, now);
    if |upcoming| <= Shown then upcoming else upcoming[..Shown]
  }

  /**
   * With the query's ascending order, the listed appointments are upcoming,
   * soonest first, and no upcoming appointment left out starts before a
   * listed one.
   */
  lemma NextAreSoonest(appointments: seq<Appointment>, now: int)
    requires SortedBy(appointments, StartKey)
    ensures var next := NextAppointments(appointments, now);
      && SortedBy(next, StartKey)
      && (forall a :: a in next ==> a.startTime > now && a.status != CANCELLED)
      && forall a, b :: a in next && b in PatientAppointments.Upcoming(appointments, now) && b !in next ==> a.startTime <= b.startTime
  {
    var upcoming := PatientAppointments.Upcoming(appointments, now);
    var next := NextAppointments(appointments, now);
    FilterKeepsOrder(appointments, (a: Appointment) => a.startTime > now && a.status != CANCELLED, StartKey);
    forall a, b | a in next && b in upcoming && b !in next ensures a.startTime <= b.startTime {
      var i :| 0 <= i < |next| && next[i] == a;
      var j :| 0 <= j < |upcoming| && upcoming[j] == b;
      assert forall k :: 0 <= k < |next| ==> next[k] == upcoming[k];
      assert i < |next| <= j;
      assert upcoming[i] == a;
    }
    forall a | a in next ensures a in upcoming {
      var i :| 0 <= i < |next| && next[i] == a;
      assert upcoming[i] == a;
    }
  }

  /**
   * The three cards: upcoming appointments, pending payments (the query
   * asks only for the PENDING ones) and all appointments.
   */
  datatype Summary = Summary(upcoming: nat, pendingPayments: nat, totalAppointments: nat)

  function SummaryOf(appointments: seq<Appointment>, payments: seq<PatientPayments.Payment>, now: int): Summary
  {
    Summary(|PatientAppointments.Upcoming(appointments, now)|,
            |PatientPayments.Pending(payments)|,
            |appointments|)
  }

  /**
   * The total counts cancelled and past appointments too: it is the number
   * of upcoming ones plus the number of the others, and the list under the
   * cards is shorter than the upcoming count exactly when there are more
   * than five.
   */
  lemma SummaryCounts(appointments: seq<Appointment>, payments: seq<PatientPayments.Payment>, now: int)
    ensures var s := SummaryOf(appointments, payments, now);
      && s.upcoming + |PatientAppointments.Past(appointments, now)| == s.totalAppointments
      && s.pendingPayments <= |payments|
      && (|NextAppointments(appointments, now)| < s.upcoming <==> s.upcoming > Shown)
  {
    PatientAppointments.Partition(appointments, now);
    PatientPayments.ListsDisjoint(payments);
  }
}
