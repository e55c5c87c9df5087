/**
 * The appointment record shared by the booking route and the patient and
 * doctor pages. Statuses stay strings, as the pages compare them with string
 * literals and fall back to a default for any other value.
 */
module Clinic {
  import opened Wrappers
  import opened TimeGrid

  const PENDING: string := "PENDING"
  const CONFIRMED: string := "CONFIRMED"
  const CANCELLED: string := "CANCELLED"
  const COMPLETED: string := "COMPLETED"

  /**
   * One appointment row. `startTime` and `endTime` are instants in whole
   * minutes on one clinic-local time line; absent notes and receipt URLs
   * are `None` (SQL NULL).
   */
  datatype Appointment = Appointment(
    id: string,
    patientId: string,
    doctorId: string,
    serviceId: string,
    startTime: int,
    endTime: int,
    status: string,
    notes: Option<string>,
    paymentReceiptUrl: Option<string>)

  /**
   * One row of the availability table: the doctor's weekly template holds
   * a row per (weekday, "HH:MM" time). The time is kept as the minutes the
   * editor formats into that string.
   */
  datatype AvailabilityRow = AvailabilityRow(doctorId: string, dayOfWeek: int, time: Minutes, isAvailable: bool)

  /** The start instant, used as a sort key. */
  function StartKey(a: Appointment): int {
    a.startTime
  }

  /** Minus the start instant, the key of a newest-first order. */
  function StartKeyDesc(a: Appointment): int {
    -a.startTime
  }

  /** The test both patient pages use for an appointment still to come: `startTime > now` and not CANCELLED. */
  predicate IsUpcoming(a: Appointment, now: int) {
    a.startTime > now && a.status != CANCELLED
  }

  /** `appointments.map(a => a.patientId)`. */
  function PatientIds(appointments: seq<Appointment>): (r: seq<string>)
    ensures |r| == |appointments|
    ensures forall i :: 0 <= i < |r| ==> r[i] == appointments[i].patientId
  {
    seq(|appointments|, i requires 0 <= i < |appointments| => appointments[i].patientId)
  }
}
