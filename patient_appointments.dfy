/**
 * The patient's appointment list (src/app/patient/citas/page.tsx): the
 * appointments, newest first, split into upcoming and past, and the badge
 * colour of each status. `now` is the instant of the request.
 */
module PatientAppointments {
  import opened SeqUtil
  import opened Clinic

  /** The upcoming list: later than now and not cancelled. */
  function Upcoming(appointments: seq<Appointment>, now: int): (r: seq<Appointment>)
    ensures forall a :: a in r <==> a in appointments && a.startTime > now && a.status != CANCELLED
  {
    Filter(appointments, (a: Appointment) => a.startTime > now && a.status != CANCELLED)
  }

  /** The past list: not later than now, or cancelled whenever it is. */
  function Past(appointments: seq<Appointment>, now: int): (r: seq<Appointment>)
    ensures forall a :: a in r <==> a in appointments && (a.startTime <= now || a.status == CANCELLED)
  {
    Filter(appointments, (a: Appointment) => a.startTime <= now || a.status == CANCELLED)
  }

  /**
   * The two lists split the appointments: every appointment is in exactly
   * one of them, with its multiplicity, so together they are as long as
   * the input.
   */
  lemma Partition(appointments: seq<Appointment>, now: int)
    ensures multiset(Upcoming(appointments, now)) + multiset(Past(appointments, now)) == multiset(appointments)
    ensures |Upcoming(appointments, now)| + |Past(appointments, now)| == |appointments|
    ensures forall a :: a in appointments ==> (a in Upcoming(appointments, now) <==> a !in Past(appointments, now))
  {
    FilterPartition(appointments, (a: Appointment) => a.startTime > now && a.status != CANCELLED,
                    (a: Appointment) => a.startTime <= now || a.status == CANCELLED);
  }

  /** Both lists keep the newest-first order of the query. */
  lemma KeepNewestFirst(appointments: seq<Appointment>, now: int)
    requires SortedBy(appointments, StartKeyDesc)
    ensures SortedBy(Upcoming(appointments, now), StartKeyDesc)
    ensures SortedBy(Past(appointments, now), StartKeyDesc)
  {
    FilterKeepsOrder(appointments, (a: Appointment) => a.startTime > now && a.status != CANCELLED, StartKeyDesc);
    FilterKeepsOrder(appointments, (a: Appointment) => a.startTime <= now || a.status == CANCELLED, StartKeyDesc);
  }

  const GrayBadge: string := "bg-gray-100 text-gray-700"

  /** `getStatusColor`. */
  function StatusColor(status: string): (c: string)
    ensures status !in {CONFIRMED, PENDING, CANCELLED, COMPLETED} <==> c == GrayBadge
  {
    if status == CONFIRMED then "bg-green-100 text-green-700"
    else if status == PENDING then "bg-yellow-100 text-yellow-700"
    else if status == CANCELLED then "bg-red-100 text-red-700"
    else if status == COMPLETED then "bg-blue-100 text-blue-700"
    else GrayBadge
  }

  /** The four statuses get four different colours. */
  lemma StatusColorsDistinct(s1: string, s2: string)
    requires s1 in {CONFIRMED, PENDING, CANCELLED, COMPLETED} && s2 in {CONFIRMED, PENDING, CANCELLED, COMPLETED}
    ensures StatusColor(s1) == StatusColor(s2) <==> s1 == s2
  {
  }
}
