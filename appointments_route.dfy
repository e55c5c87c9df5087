/**
 * Booking creation (src/app/api/appointments/route.ts): `POST` checks the
 * session, the body and the referenced patient and service, derives the
 * start instant from `date` and "HH:MM" `time` and the end from the
 * service's duration, and inserts a PENDING appointment. Nothing compares
 * the new appointment with the existing ones.
 */
module AppointmentsRoute {
  import opened Wrappers
  import opened TimeGrid
  import opened Clinic

  /** The parsed request body; absent fields are "" (both are falsy). */
  datatype BookingBody =
    | MalformedJson
    | Fields(serviceId: string, doctorId: string, date: string, time: string, notes: string, paymentReceiptUrl: string)

  /** The response status and, on 201, the created row. */
  datatype Outcome = Outcome(status: int, created: Option<Appointment>)

  // ---------------------------------------------------------------------
  // `time.split(':').map(Number)`

  /** The text before the first ':' (all of it when there is none): the first part of the split. */
  function BeforeColon(s: string): (r: string)
    ensures |r| <= |s| && r == s[..|r|]
    ensures forall i :: 0 <= i < |r| ==> r[i] != ':'
    ensures |r| < |s| ==> s[|r|] == ':'
    decreases |s|
  {
    if |s| == 0 || s[0] == ':' then [] else [s[0]] + BeforeColon(s[1..])
  }

  /** The text after the first ':', `None` when there is no ':' (the split then has no second part). */
  function AfterColon(s: string): (r: Option<string>)
    ensures r.None? <==> forall i :: 0 <= i < |s| ==> s[i] != ':'
    ensures r.Some? ==> s == BeforeColon(s) + ":" + r.value
    decreases |s|
  {
    if |s| == 0 then None
    else if s[0] == ':' then Some(s[1..])
    else
      var rest := AfterColon(s[1..]);
      if rest.Some? then assert s == [s[0]] + s[1..]; Some(rest.value) else None
  }

  /**
   * `Number(part)` for the parts the model reads: a string of decimal
   * digits is its value, and "" is 0; anything else is NaN (`None`).
   */
  function JsNumber(s: string): (r: Option<nat>)
    ensures r.Some? <==> forall i :: 0 <= i < |s| ==> IsDigit(s[i])
  {
    if forall i :: 0 <= i < |s| ==> IsDigit(s[i]) then Some(ParseNat(s)) else None
  }

  /**
   * The minutes `setHours(hours, minutes, 0, 0)` adds to the local midnight:
   * `hours * 60 + minutes`, hours and minutes being the first two parts
   * (larger values roll over into later days, as `setHours` does). `None`
   * when a part is NaN or missing: the date is then invalid and the insert
   * throws.
   */
  function ClockOf(time: string): (r: Option<int>)
    ensures r.Some? ==> r.value >= 0
  {
    match AfterColon(time)
    case None => None
    case Some(rest) =>
      var hours := JsNumber(BeforeColon(time));
      var minutes := JsNumber(BeforeColon(rest));
      if hours.Some? && minutes.Some? then Some(hours.value * 60 + minutes.value) else None
  }

  /** The falsy-to-null rule of `notes || null` and `paymentReceiptUrl || null`. */
  function OrNull(s: string): (r: Option<string>)
    ensures r.None? <==> s == ""
    ensures r.Some? ==> r.value == s
  {
    if s == "" then None else Some(s)
  }

  /**
   * The route's decision. `verified` is the token's subject (`None` when
   * verification throws), `patients` maps user ids to patient ids,
   * `durations` maps service ids to minutes, `doctors` holds the ids of the
   * doctor table, `dateStart` is the local midnight of `new Date(date)`
   * (`None` for an invalid date), and `newId` the id the database assigns.
   * The insert stores `doctorId` as the key of its `doctor` relation, so an
   * id that names no doctor makes it throw, and the catch answers 500, as
   * it does for an invalid start instant.
   */
  function Booking(token: string, verified: Option<string>, body: BookingBody, patients: map<string, string>,
                   durations: map<string, int>, doctors: set<string>, dateStart: Option<int>, newId: string): (r: Outcome)
    ensures token == "" ==> r == Outcome(401, None)
    ensures token != "" && verified.None? ==> r == Outcome(401, None)
    ensures token != "" && verified.Some? && body.Fields? && (body.serviceId == "" || body.doctorId == "" || body.date == "" || body.time == "") ==>
      r == Outcome(400, None)
    ensures r.status == 404 <==>
      && token != "" && verified.Some? && body.Fields?
      && body.serviceId != "" && body.doctorId != "" && body.date != "" && body.time != ""
      && (verified.value !in patients || body.serviceId !in durations)
    ensures (&& token != "" && verified.Some? && body.Fields?
             && body.serviceId != "" && body.doctorId != "" && body.date != "" && body.time != ""
             && verified.value in patients && body.serviceId in durations
             && (body.doctorId !in doctors || dateStart.None? || ClockOf(body.time).None?))
      ==> r == Outcome(500, None)
    ensures r.created.Some? <==> r.status == 201
    ensures r.status == 201 <==>
      && token != "" && body.Fields? && body.serviceId != "" && body.doctorId != "" && body.date != "" && body.time != ""
      && verified.Some? && verified.value in patients && body.serviceId in durations && body.doctorId in doctors
      && dateStart.Some? && ClockOf(body.time).Some?
    ensures r.status == 201 ==>
      && body.Fields? && verified.Some? && verified.value in patients && body.serviceId in durations
      && dateStart.Some? && ClockOf(body.time).Some?
      && var a := r.created.value;
         && a.startTime == dateStart.value + ClockOf(body.time).value
         && a.endTime == a.startTime + durations[body.serviceId]
         && a.status == PENDING
         && a.patientId == patients[verified.value] && a.doctorId == body.doctorId && a.serviceId == body.serviceId
         && a.notes == OrNull(body.notes) && a.paymentReceiptUrl == OrNull(body.paymentReceiptUrl)
  {
    if token == "" then Outcome(401, None)
    else if verified.None? then Outcome(401, None)
    else if body.MalformedJson? then Outcome(500, None)
    else if body.serviceId == "" || body.doctorId == "" || body.date == "" || body.time == "" then Outcome(400, None)
    else if verified.value !in patients then Outcome(404, None)
    else if body.serviceId !in durations then Outcome(404, None)
    else
      var clock := ClockOf(body.time);
      if clock.None? || dateStart.None? || body.doctorId !in doctors then Outcome(500, None)
      else
        var startTime := dateStart.value + clock.value;
        var endTime := startTime + durations[body.serviceId];
        Outcome(201, Some(Appointment(newId, patients[verified.value], body.doctorId, body.serviceId,
          startTime, endTime, PENDING, OrNull(body.notes), OrNull(body.paymentReceiptUrl))))
  }

  /** The appointment table, and the route that inserts into it. */
  class AppointmentStore {
    var rows: seq<Appointment>

    constructor(initial: seq<Appointment>)
      ensures rows == initial
    {
      rows := initial;
    }

    /** `POST /api/appointments`: inserts the booked row on 201 and changes nothing otherwise, whatever the table holds. */
    method Create(token: string, verified: Option<string>, body: BookingBody, patients: map<string, string>,
                  durations: map<string, int>, doctors: set<string>, dateStart: Option<int>, newId: string)
      returns (status: int, created: Option<Appointment>)
      modifies this
      ensures Outcome(status, created) == Booking(token, verified, body, patients, durations, doctors, dateStart, newId)
      ensures status == 201 ==> rows == old(rows) + [created.value]
      ensures status != 201 ==> rows == old(rows)
    {
      var outcome := Booking(token, verified, body, patients, durations, doctors, dateStart, newId);
      status, created := outcome.status, outcome.created;
      if status == 201 {
        rows := rows + [created.value];
      }
    }
  }

  // ---------------------------------------------------------------------
  // Properties

  /** The first two characters of a two-digit text read back as its value. */
  lemma Pad2Value(n: int)
    requires 0 <= n <= 99
    ensures JsNumber(Pad2(n)) == Some(n)
  {
    var s := Pad2(n);
    assert s[..1] == [s[0]];
    assert ParseNat(s[..1]) == DigitValue(s[0]);
  }

  /** A two-digit text has no ':', so it is its own first part. */
  lemma Pad2NoColon(n: int, rest: string)
    requires 0 <= n <= 99
    ensures BeforeColon(Pad2(n) + rest) == Pad2(n) + BeforeColon(rest)
    ensures AfterColon(Pad2(n) + rest) == AfterColon(rest)
  {
    var s := Pad2(n) + rest;
    assert s[1..] == [s[1]] + rest;
    assert s[1..][1..] == rest;
  }

  /** Every "HH:MM" the slot routes offer is read back as the same minutes after `dateStart`. */
  lemma BookingTimeRoundTrip(t: Minutes)
    ensures ClockOf(Format(t)) == Some(t)
  {
    var h, m := t / 60, t % 60;
    Pad2NoColon(h, ":" + Pad2(m));
    Pad2NoColon(m, "");
    assert Pad2(m) + "" == Pad2(m);
    assert Format(t) == Pad2(h) + (":" + Pad2(m));
    assert AfterColon(":" + Pad2(m)) == Some(Pad2(m));
    assert BeforeColon(":" + Pad2(m)) == "";
    Pad2Value(h);
    Pad2Value(m);
  }

  /**
   * There is no conflict check: whatever the table already holds, the same
   * valid request sent twice is answered 201 both times and appends two rows
   * of the same doctor over the same interval, which overlap whenever the
   * service lasts a positive time.
   */
  method DoubleBooking(store: AppointmentStore, token: string, verified: Option<string>, body: BookingBody,
                       patients: map<string, string>, durations: map<string, int>, doctors: set<string>,
                       dateStart: Option<int>, id1: string, id2: string) returns (status1: int, status2: int)
    requires Booking(token, verified, body, patients, durations, doctors, dateStart, id1).status == 201
    modifies store
    ensures status1 == 201 && status2 == 201
    ensures |store.rows| == |old(store.rows)| + 2 && store.rows[..|old(store.rows)|] == old(store.rows)
    ensures var a1, a2 := store.rows[|store.rows| - 2], store.rows[|store.rows| - 1];
      && a1.doctorId == body.doctorId && a2.doctorId == body.doctorId
      && a1.startTime == a2.startTime && a1.endTime == a2.endTime
      && (durations[body.serviceId] > 0 ==> a1.startTime < a2.endTime && a2.startTime < a1.endTime)
  {
    var created1, created2;
    status1, created1 := store.Create(token, verified, body, patients, durations, doctors, dateStart, id1);
    status2, created2 := store.Create(token, verified, body, patients, durations, doctors, dateStart, id2);
  }
}
