/**
 * Template persistence (src/app/api/doctor/availability/route.ts): `PUT`
 * replaces all of the signed-in doctor's rows of the availability table
 * with the available entries of the request.
 */
module DoctorAvailabilityRoute {
  import opened Wrappers
  import opened TimeGrid
  import opened Clinic

  /** One element of the request's `slots` array. */
  datatype Entry = Entry(dayOfWeek: int, time: Minutes, isAvailable: bool)

  /** The `slots` field of the parsed body. */
  datatype SlotsField = NotArray | Array(entries: seq<Entry>)

  /** The request body: `req.json()` either throws or yields the `slots` field. */
  datatype Body = MalformedJson | Json(slots: SlotsField)

  /** The rows of one doctor, in table order. */
  function RowsOf(rows: seq<AvailabilityRow>, doctorId: string): seq<AvailabilityRow>
    decreases |rows|
  {
    if |rows| == 0 then []
    else (if rows[0].doctorId == doctorId then [rows[0]] else []) + RowsOf(rows[1..], doctorId)
  }

  /** `deleteMany({ where: { doctorId } })`: the rows of every other doctor, in table order. */
  function RowsExcept(rows: seq<AvailabilityRow>, doctorId: string): seq<AvailabilityRow>
    decreases |rows|
  {
    if |rows| == 0 then []
    else (if rows[0].doctorId != doctorId then [rows[0]] else []) + RowsExcept(rows[1..], doctorId)
  }

  /** The `createMany` data: one available row of the doctor per truthy entry, in request order. */
  function Inserted(doctorId: string, entries: seq<Entry>): (r: seq<AvailabilityRow>)
    ensures |r| <= |entries|
    ensures forall x :: x in r <==> (x.doctorId == doctorId && x.isAvailable
      && exists e :: e in entries && e.isAvailable && e.dayOfWeek == x.dayOfWeek && e.time == x.time)
    decreases |entries|
  {
    if |entries| == 0 then []
    else
      var rest := Inserted(doctorId, entries[1..]);
      assert forall e :: e in entries[1..] ==> e in entries;
      assert forall e :: e in entries ==> e == entries[0] || e in entries[1..];
      var e := entries[0];
      (if e.isAvailable then [AvailabilityRow(doctorId, e.dayOfWeek, e.time, true)] else []) + rest
  }

  /** The table after a successful `PUT`: the delete, then the insert. */
  function ReplaceAll(rows: seq<AvailabilityRow>, doctorId: string, entries: seq<Entry>): seq<AvailabilityRow> {
    RowsExcept(rows, doctorId) + Inserted(doctorId, entries)
  }

  /** The availability table, and the route that rewrites it. */
  class AvailabilityTable {
    var rows: seq<AvailabilityRow>

    constructor(initial: seq<AvailabilityRow>)
      ensures rows == initial
    {
      rows := initial;
    }

    /**
     * `PUT /api/doctor/availability`. `token` is the cookie ("" when absent);
     * `verified` is the subject of the verified token, `None` when
     * verification throws; `doctors` maps user ids to doctor ids.
     * A non-array `slots` is rejected before anything is deleted.
     */
    method Put(token: string, verified: Option<string>, doctors: map<string, string>, body: Body) returns (status: int)
      modifies this
      ensures token == "" ==> status == 401 && rows == old(rows)
      ensures token != "" && verified.None? ==> status == 500 && rows == old(rows)
      ensures token != "" && verified.Some? && verified.value !in doctors ==> status == 404 && rows == old(rows)
      ensures token != "" && verified.Some? && verified.value in doctors && body.MalformedJson? ==> status == 500 && rows == old(rows)
      ensures token != "" && verified.Some? && verified.value in doctors && body.Json? && body.slots.NotArray? ==>
        status == 400 && rows == old(rows)
      ensures token != "" && verified.Some? && verified.value in doctors && body.Json? && body.slots.Array? ==>
        status == 200 && rows == ReplaceAll(old(rows), doctors[verified.value], body.slots.entries)
    {
      if token == "" {
        return 401;
      }
      if verified.None? {
        return 500;
      }
      var userId := verified.value;
      if userId !in doctors {
        return 404;
      }
      var doctorId := doctors[userId];
      if body.MalformedJson? {
        return 500;
      }
      if body.slots.NotArray? {
        return 400;
      }
      rows := RowsExcept(rows, doctorId);
      var availableSlots := Inserted(doctorId, body.slots.entries);
      if |availableSlots| > 0 {
        rows := rows + availableSlots;
      }
      return 200;
    }
  }

  // ---------------------------------------------------------------------
  // Properties

  lemma {:induction false} RowsOfConcat(a: seq<AvailabilityRow>, b: seq<AvailabilityRow>, doctorId: string)
    ensures RowsOf(a + b, doctorId) == RowsOf(a, doctorId) + RowsOf(b, doctorId)
    decreases |a|
  {
    if |a| == 0 {
      assert a + b == b;
    } else {
      RowsOfConcat(a[1..], b, doctorId);
      var head := if a[0].doctorId == doctorId then [a[0]] else [];
      assert (a + b)[0] == a[0];
      assert (a + b)[1..] == a[1..] + b;
      assert RowsOf(a + b, doctorId) == head + RowsOf(a[1..] + b, doctorId);
      assert RowsOf(a, doctorId) == head + RowsOf(a[1..], doctorId);
      assert head + (RowsOf(a[1..], doctorId) + RowsOf(b, doctorId)) == (head + RowsOf(a[1..], doctorId)) + RowsOf(b, doctorId);
    }
  }

  lemma {:induction false} RowsExceptConcat(a: seq<AvailabilityRow>, b: seq<AvailabilityRow>, doctorId: string)
    ensures RowsExcept(a + b, doctorId) == RowsExcept(a, doctorId) + RowsExcept(b, doctorId)
    decreases |a|
  {
    if |a| == 0 {
      assert a + b == b;
    } else {
      RowsExceptConcat(a[1..], b, doctorId);
      var head := if a[0].doctorId != doctorId then [a[0]] else [];
      assert (a + b)[0] == a[0];
      assert (a + b)[1..] == a[1..] + b;
      assert RowsExcept(a + b, doctorId) == head + RowsExcept(a[1..] + b, doctorId);
      assert RowsExcept(a, doctorId) == head + RowsExcept(a[1..], doctorId);
      assert head + (RowsExcept(a[1..], doctorId) + RowsExcept(b, doctorId)) == (head + RowsExcept(a[1..], doctorId)) + RowsExcept(b, doctorId);
    }
  }

  /** Deleting a doctor's rows removes all of them, and deleting again changes nothing. */
  lemma {:induction false} RowsExceptTwice(rows: seq<AvailabilityRow>, doctorId: string)
    ensures RowsExcept(RowsExcept(rows, doctorId), doctorId) == RowsExcept(rows, doctorId)
    ensures RowsOf(RowsExcept(rows, doctorId), doctorId) == []
    decreases |rows|
  {
    if |rows| > 0 {
      RowsExceptTwice(rows[1..], doctorId);
      var head := if rows[0].doctorId != doctorId then [rows[0]] else [];
      RowsExceptConcat(head, RowsExcept(rows[1..], doctorId), doctorId);
      RowsOfConcat(head, RowsExcept(rows[1..], doctorId), doctorId);
    }
  }

  /** Deleting one doctor's rows keeps every other doctor's rows, in order. */
  lemma {:induction false} RowsOfOther(rows: seq<AvailabilityRow>, doctorId: string, other: string)
    requires other != doctorId
    ensures RowsOf(RowsExcept(rows, doctorId), other) == RowsOf(rows, other)
    decreases |rows|
  {
    if |rows| > 0 {
      RowsOfOther(rows[1..], doctorId, other);
      var head := if rows[0].doctorId != doctorId then [rows[0]] else [];
      RowsOfConcat(head, RowsExcept(rows[1..], doctorId), other);
    }
  }

  /** Every inserted row is the doctor's own. */
  lemma {:induction false} InsertedOwn(doctorId: string, entries: seq<Entry>)
    ensures RowsOf(Inserted(doctorId, entries), doctorId) == Inserted(doctorId, entries)
    ensures RowsExcept(Inserted(doctorId, entries), doctorId) == []
    decreases |entries|
  {
    if |entries| > 0 {
      InsertedOwn(doctorId, entries[1..]);
      var e := entries[0];
      var head := if e.isAvailable then [AvailabilityRow(doctorId, e.dayOfWeek, e.time, true)] else [];
      RowsOfConcat(head, Inserted(doctorId, entries[1..]), doctorId);
      RowsExceptConcat(head, Inserted(doctorId, entries[1..]), doctorId);
    }
  }

  /** No inserted row belongs to another doctor. */
  lemma {:induction false} InsertedNotOther(doctorId: string, entries: seq<Entry>, other: string)
    requires other != doctorId
    ensures RowsOf(Inserted(doctorId, entries), other) == []
    decreases |entries|
  {
    if |entries| > 0 {
      InsertedNotOther(doctorId, entries[1..], other);
      var e := entries[0];
      var head := if e.isAvailable then [AvailabilityRow(doctorId, e.dayOfWeek, e.time, true)] else [];
      RowsOfConcat(head, Inserted(doctorId, entries[1..]), other);
    }
  }

  /** Entries that are all unavailable insert nothing. */
  lemma {:induction false} InsertedNone(doctorId: string, entries: seq<Entry>)
    requires forall i :: 0 <= i < |entries| ==> !entries[i].isAvailable
    ensures Inserted(doctorId, entries) == []
    decreases |entries|
  {
    if |entries| > 0 {
      InsertedNone(doctorId, entries[1..]);
    }
  }

  /**
   * After a successful `PUT`, the doctor's rows are exactly the available
   * entries stored as `(doctorId, dayOfWeek, time, true)`, in request order,
   * and the rows of every other doctor are those from before, in order.
   */
  lemma ReplaceAllSpec(rows: seq<AvailabilityRow>, doctorId: string, entries: seq<Entry>, other: string)
    requires other != doctorId
    ensures RowsOf(ReplaceAll(rows, doctorId, entries), doctorId) == Inserted(doctorId, entries)
    ensures RowsOf(ReplaceAll(rows, doctorId, entries), other) == RowsOf(rows, other)
  {
    RowsOfConcat(RowsExcept(rows, doctorId), Inserted(doctorId, entries), doctorId);
    RowsOfConcat(RowsExcept(rows, doctorId), Inserted(doctorId, entries), other);
    RowsExceptTwice(rows, doctorId);
    RowsOfOther(rows, doctorId, other);
    InsertedOwn(doctorId, entries);
    InsertedNotOther(doctorId, entries, other);
  }

  /** Sending the same payload twice stores the same table as sending it once. */
  lemma ReplaceAllIdempotent(rows: seq<AvailabilityRow>, doctorId: string, entries: seq<Entry>)
    ensures ReplaceAll(ReplaceAll(rows, doctorId, entries), doctorId, entries) == ReplaceAll(rows, doctorId, entries)
  {
    var kept := RowsExcept(rows, doctorId);
    var ins := Inserted(doctorId, entries);
    RowsExceptConcat(kept, ins, doctorId);
    RowsExceptTwice(rows, doctorId);
    InsertedOwn(doctorId, entries);
    assert RowsExcept(kept + ins, doctorId) == kept + [];
    assert kept + [] == kept;
  }

  /** An empty or all-unavailable payload leaves the doctor with no rows. */
  lemma NothingAvailableClears(rows: seq<AvailabilityRow>, doctorId: string, entries: seq<Entry>)
    requires forall i :: 0 <= i < |entries| ==> !entries[i].isAvailable
    ensures RowsOf(ReplaceAll(rows, doctorId, entries), doctorId) == []
  {
    InsertedNone(doctorId, entries);
    RowsOfConcat(RowsExcept(rows, doctorId), [], doctorId);
    RowsExceptTwice(rows, doctorId);
    assert RowsExcept(rows, doctorId) + [] == RowsExcept(rows, doctorId);
  }
}
