/**
 * The patient's payments page (src/app/patient/pagos/page.tsx): the
 * pending and the completed payments, their counts, and the icon and colour
 * of each status. Amounts and their sums are not modelled.
 */
module PatientPayments {
  import opened SeqUtil

  const PENDING: string := "PENDING"
  const COMPLETED: string := "COMPLETED"
  const FAILED: string := "FAILED"

  /** A payment row; statuses stay strings so that unknown values reach the defaults. */
  datatype Payment = Payment(id: string, appointmentId: string, status: string)

  function Pending(payments: seq<Payment>): (r: seq<Payment>)
    ensures forall p :: p in r <==> p in payments && p.status == PENDING
  {
    Filter(payments, (p: Payment) => p.status == PENDING)
  }

  function Completed(payments: seq<Payment>): (r: seq<Payment>)
    ensures forall p :: p in r <==> p in payments && p.status == COMPLETED
  {
    Filter(payments, (p: Payment) => p.status == COMPLETED)
  }

  /**
   * No payment is in both lists, a FAILED one is in neither, and the two
   * counts shown add up to at most the number of payments.
   */
  lemma ListsDisjoint(payments: seq<Payment>)
    ensures forall p :: !(p in Pending(payments) && p in Completed(payments))
    ensures forall p :: p in payments && p.status == FAILED ==> p !in Pending(payments) && p !in Completed(payments)
    ensures |Pending(payments)| + |Completed(payments)| <= |payments|
  {
    var others := Filter(payments, (p: Payment) => p.status != PENDING);
    FilterPartition(payments, (p: Payment) => p.status == PENDING, (p: Payment) => p.status != PENDING);
    FilterOfFilter(payments, (p: Payment) => p.status != PENDING, (p: Payment) => p.status == COMPLETED);
    assert |Filter(others, (p: Payment) => p.status == COMPLETED)| <= |others|;
  }

  /** Both lists keep the newest-first order of the query (`key` is minus the creation time). */
  lemma KeepQueryOrder(payments: seq<Payment>, key: Payment -> int)
    requires SortedBy(payments, key)
    ensures SortedBy(Pending(payments), key) && SortedBy(Completed(payments), key)
  {
    FilterKeepsOrder(payments, (p: Payment) => p.status == PENDING, key);
    FilterKeepsOrder(payments, (p: Payment) => p.status == COMPLETED, key);
  }

  datatype Icon = CheckCircle(colour: string) | ClockIcon(colour: string) | XCircle(colour: string)

  /** `getStatusIcon`: an unknown status gets a gray clock. */
  function StatusIcon(status: string): (i: Icon)
    ensures status !in {COMPLETED, PENDING, FAILED} <==> i == ClockIcon("text-gray-600")
  {
    if status == COMPLETED then CheckCircle("text-green-600")
    else if status == PENDING then ClockIcon("text-yellow-600")
    else if status == FAILED then XCircle("text-red-600")
    else ClockIcon("text-gray-600")
  }

  const GrayBadge: string := "bg-gray-100 text-gray-700"

  /** `getStatusColor`: an unknown status gets the gray badge. */
  function StatusColor(status: string): (c: string)
    ensures status !in {COMPLETED, PENDING, FAILED} <==> c == GrayBadge
  {
    if status == COMPLETED then "bg-green-100 text-green-700"
    else if status == PENDING then "bg-yellow-100 text-yellow-700"
    else if status == FAILED then "bg-red-100 text-red-700"
    else GrayBadge
  }

  /** The three known statuses get three different icons and three different colours. */
  lemma KnownStatusesDistinct(s1: string, s2: string)
    requires s1 in {COMPLETED, PENDING, FAILED} && s2 in {COMPLETED, PENDING, FAILED} && s1 != s2
    ensures StatusIcon(s1) != StatusIcon(s2) && StatusColor(s1) != StatusColor(s2)
  {
  }
}
