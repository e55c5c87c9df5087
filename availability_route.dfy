/**
 * Slot generator A (src/app/api/availability/route.ts): the start times of
 * a service on one day, every 30 minutes from 09:00, that end by the 19:00
 * closing time and overlap no non-cancelled appointment of that day, of any
 * doctor.
 *
 * Instants are whole minutes on one local time line; `dayStart` is the
 * local midnight of the requested date, and `offset`s are minutes after it.
 */
module AvailabilityRoute {
  import opened Wrappers
  import opened TimeGrid
  import opened SeqUtil
  import opened Clinic

  /** 09:00 and 19:00 as minutes after midnight. */
  const WorkStart: int := 540
  const Closing: int := 1140
  /** The distance between two candidate starts. */
  const SlotStep: int := 30

  datatype SlotsResponse = SlotList(slots: seq<string>) | Failure(status: int, error: string)

  /** The appointments the route fetches: start within the local day and status other than CANCELLED, of every doctor. */
  function DayAppointments(appointments: seq<Appointment>, dayStart: int): (r: seq<Appointment>)
    ensures forall a :: a in r <==> a in appointments && dayStart <= a.startTime < dayStart + 1440 && a.status != CANCELLED
  {
    Filter(appointments, (a: Appointment) => dayStart <= a.startTime < dayStart + 1440 && a.status != CANCELLED)
  }

  /** Half-open overlap of `[start, start + duration)` with some appointment: back-to-back is not a conflict. */
  predicate Busy(start: int, duration: int, appointments: seq<Appointment>) {
    exists k :: 0 <= k < |appointments| && start < appointments[k].endTime && start + duration > appointments[k].startTime
  }

  /** The offsets of the free candidate starts from `offset` on, while the service still fits before closing. */
  function FreeStarts(dayStart: int, offset: int, duration: int, appointments: seq<Appointment>): seq<int>
    decreases Closing + SlotStep - duration - offset
  {
    if offset + duration > Closing then []
    else
      (if Busy(dayStart + offset, duration, appointments) then [] else [offset])
      + FreeStarts(dayStart, offset + SlotStep, duration, appointments)
  }

  /** `format(currentSlot, 'HH:mm')`: the local clock time of an offset, wrapping past midnight. */
  function Label(offset: int): string {
    Format(offset % 1440)
  }

  function Labels(offsets: seq<int>): (r: seq<string>)
    ensures |r| == |offsets|
    ensures forall i :: 0 <= i < |r| ==> r[i] == Label(offsets[i])
  {
    seq(|offsets|, i requires 0 <= i < |offsets| => Label(offsets[i]))
  }

  /** One step of `FreeStarts`: the candidate at `offset`, when free, followed by the later ones. */
  lemma FreeStartsUnfold(dayStart: int, offset: int, duration: int, appointments: seq<Appointment>)
    requires offset + duration <= Closing
    ensures Labels(FreeStarts(dayStart, offset, duration, appointments)) ==
      (if Busy(dayStart + offset, duration, appointments) then [] else [Label(offset)])
      + Labels(FreeStarts(dayStart, offset + SlotStep, duration, appointments))
  {
    var rest := FreeStarts(dayStart, offset + SlotStep, duration, appointments);
    if !Busy(dayStart + offset, duration, appointments) {
      assert FreeStarts(dayStart, offset, duration, appointments) == [offset] + rest;
      assert Labels([offset] + rest) == [Label(offset)] + Labels(rest);
    }
  }

  /** One pass of the route's loop keeps the labels emitted so far followed by the labels still due equal to the whole answer. */
  lemma GenerateSlotsStep(dayStart: int, offset: int, duration: int, appointments: seq<Appointment>, acc: seq<string>, busy: bool)
    requires offset + duration <= Closing
    requires busy == Busy(dayStart + offset, duration, appointments)
    ensures (if busy then acc else acc + [Label(offset)]) + Labels(FreeStarts(dayStart, offset + SlotStep, duration, appointments))
      == acc + Labels(FreeStarts(dayStart, offset, duration, appointments))
  {
    FreeStartsUnfold(dayStart, offset, duration, appointments);
    var later := Labels(FreeStarts(dayStart, offset + SlotStep, duration, appointments));
    if busy {
      assert [] + later == later;
    } else {
      assert (acc + [Label(offset)]) + later == acc + ([Label(offset)] + later);
    }
  }

  /** The `while (true)` loop of the route. */
  method GenerateSlots(dayStart: int, duration: int, appointments: seq<Appointment>) returns (availableSlots: seq<string>)
    ensures availableSlots == Labels(FreeStarts(dayStart, WorkStart, duration, appointments))
  {
    var currentSlot := dayStart + WorkStart;
    var closingTime := dayStart + Closing;
    ghost var offset := WorkStart;
    ghost var total := Labels(FreeStarts(dayStart, WorkStart, duration, appointments));
    availableSlots := [];
    assert [] + total == total;
    while true
      invariant currentSlot == dayStart + offset
      invariant availableSlots + Labels(FreeStarts(dayStart, offset, duration, appointments)) == total
      decreases closingTime + SlotStep - duration - currentSlot
    {
      var slotEnd := currentSlot + duration;
      if slotEnd > closingTime {
        assert FreeStarts(dayStart, offset, duration, appointments) == [];
        assert availableSlots + Labels([]) == availableSlots;
        break;
      }
      var isBusy := exists k :: 0 <= k < |appointments| && currentSlot < appointments[k].endTime && slotEnd > appointments[k].startTime;
      GenerateSlotsStep(dayStart, offset, duration, appointments, availableSlots, isBusy);
      if !isBusy {
        availableSlots := availableSlots + [Label(currentSlot - dayStart)];
      }
      currentSlot := currentSlot + SlotStep;
      offset := offset + SlotStep;
    }
  }

  /**
   * `GET /api/availability?date=&serviceId=`. `durations` is the service
   * table (id to duration in minutes); `queryDay` is the local midnight of
   * the parsed date, `None` when the date does not parse, in which case the
   * appointment query fails and the route answers 500.
   */
  method Get(date: string, serviceId: string, durations: map<string, int>, queryDay: Option<int>, appointments: seq<Appointment>)
    returns (r: SlotsResponse)
    ensures date == "" || serviceId == "" ==> r == Failure(400, "Missing date or serviceId")
    ensures date != "" && serviceId != "" && serviceId !in durations ==> r == Failure(404, "Service not found")
    ensures date != "" && serviceId != "" && serviceId in durations && queryDay.None? ==> r == Failure(500, "Internal Error")
    ensures date != "" && serviceId != "" && serviceId in durations && queryDay.Some? ==>
      r == SlotList(Labels(FreeStarts(queryDay.value, WorkStart, durations[serviceId], DayAppointments(appointments, queryDay.value))))
  {
    if date == "" || serviceId == "" {
      return Failure(400, "Missing date or serviceId");
    }
    if serviceId !in durations {
      return Failure(404, "Service not found");
    }
    if queryDay.None? {
      return Failure(500, "Internal Error");
    }
    var dayStart := queryDay.value;
    var dayAppointments := DayAppointments(appointments, dayStart);
    var slots := GenerateSlots(dayStart, durations[serviceId], dayAppointments);
    return SlotList(slots);
  }

  // ---------------------------------------------------------------------
  // Properties

  /**
   * A start is offered exactly when it is a 30-minute step from 09:00, the
   * service ends by 19:00 (ending at 19:00 exactly is allowed), and it
   * overlaps no fetched appointment.
   */
  lemma {:induction false} FreeStartsSpec(dayStart: int, offset: int, duration: int, appointments: seq<Appointment>, x: int)
    ensures x in FreeStarts(dayStart, offset, duration, appointments) <==>
      offset <= x && (x - offset) % SlotStep == 0 && x + duration <= Closing && !Busy(dayStart + x, duration, appointments)
    decreases Closing + SlotStep - duration - offset
  {
    if offset + duration <= Closing {
      FreeStartsSpec(dayStart, offset + SlotStep, duration, appointments, x);
    }
  }

  /** The offered starts strictly increase. */
  lemma {:induction false} FreeStartsAscending(dayStart: int, offset: int, duration: int, appointments: seq<Appointment>)
    ensures forall i, j :: 0 <= i < j < |FreeStarts(dayStart, offset, duration, appointments)| ==>
      FreeStarts(dayStart, offset, duration, appointments)[i] < FreeStarts(dayStart, offset, duration, appointments)[j]
    decreases Closing + SlotStep - duration - offset
  {
    if offset + duration <= Closing {
      var rest := FreeStarts(dayStart, offset + SlotStep, duration, appointments);
      FreeStartsAscending(dayStart, offset + SlotStep, duration, appointments);
      forall k | 0 <= k < |rest| ensures offset < rest[k] {
        FreeStartsSpec(dayStart, offset + SlotStep, duration, appointments, rest[k]);
      }
    }
  }

  /** A 30-minute step from 09:00 is on the half-hour grid. */
  lemma StepFromWorkStart(x: int)
    requires (x - WorkStart) % SlotStep == 0
    ensures OnGrid(x)
  {
    var k := (x - WorkStart) / SlotStep;
    assert x == GridStep * (18 + k);
  }

  /** An offered start lies within the day, on the half-hour grid, and its label is its own "HH:MM". */
  lemma StartInDay(dayStart: int, duration: int, appointments: seq<Appointment>, x: int)
    requires duration > Closing - 1440
    requires x in FreeStarts(dayStart, WorkStart, duration, appointments)
    ensures 0 <= x < 1440 && OnGrid(x) && Label(x) == Format(x)
  {
    FreeStartsSpec(dayStart, WorkStart, duration, appointments, x);
    assert WorkStart <= x < 1440;
    assert x % 1440 == x;
    StepFromWorkStart(x);
  }

  /** Two offered starts in list order have labels in lexicographic order. */
  lemma SlotPairOrdered(dayStart: int, duration: int, appointments: seq<Appointment>, i: int, j: int)
    requires duration > Closing - 1440
    requires 0 <= i < j < |FreeStarts(dayStart, WorkStart, duration, appointments)|
    ensures LexLess(Label(FreeStarts(dayStart, WorkStart, duration, appointments)[i]),
                    Label(FreeStarts(dayStart, WorkStart, duration, appointments)[j]))
  {
    var starts := FreeStarts(dayStart, WorkStart, duration, appointments);
    FreeStartsAscending(dayStart, WorkStart, duration, appointments);
    StartInDay(dayStart, duration, appointments, starts[i]);
    StartInDay(dayStart, duration, appointments, starts[j]);
    FormatOrder(starts[i], starts[j]);
  }

  /**
   * Unless a negative duration pushes starts past midnight, the offered
   * "HH:mm" strings are on the half-hour grid and strictly ascending.
   */
  lemma SlotsAscending(dayStart: int, duration: int, appointments: seq<Appointment>)
    requires duration > Closing - 1440
    ensures var slots := Labels(FreeStarts(dayStart, WorkStart, duration, appointments));
      forall i, j :: 0 <= i < j < |slots| ==> LexLess(slots[i], slots[j])
    ensures forall x :: x in FreeStarts(dayStart, WorkStart, duration, appointments) ==> 0 <= x < 1440 && OnGrid(x)
  {
    forall x | x in FreeStarts(dayStart, WorkStart, duration, appointments) ensures 0 <= x < 1440 && OnGrid(x) {
      StartInDay(dayStart, duration, appointments, x);
    }
    var slots := Labels(FreeStarts(dayStart, WorkStart, duration, appointments));
    forall i, j | 0 <= i < j < |slots| ensures LexLess(slots[i], slots[j]) {
      SlotPairOrdered(dayStart, duration, appointments, i, j);
    }
  }

  /** From `n` steps before 19:00, a 30-minute service on an empty day is offered at every step. */
  lemma {:induction false} EmptyDayFrom(dayStart: int, n: nat)
    ensures var starts := FreeStarts(dayStart, Closing - SlotStep * n, 30, []);
      |starts| == n && forall i :: 0 <= i < n ==> starts[i] == Closing - SlotStep * n + SlotStep * i
    decreases n
  {
    if n > 0 {
      EmptyDayFrom(dayStart, n - 1);
      assert Closing - SlotStep * n + SlotStep == Closing - SlotStep * (n - 1);
      assert !Busy(dayStart + Closing - SlotStep * n, 30, []);
    }
  }

  /** With no appointments and a 30-minute service the slots are the 20 times 09:00, 09:30, ..., 18:30. */
  lemma EmptyDay(dayStart: int)
    ensures |Labels(FreeStarts(dayStart, WorkStart, 30, []))| == 20
    ensures forall i :: 0 <= i < 20 ==> Labels(FreeStarts(dayStart, WorkStart, 30, []))[i] == Format(540 + 30 * i)
  {
    EmptyDayFrom(dayStart, 20);
    assert Closing - SlotStep * 20 == WorkStart;
    var starts := FreeStarts(dayStart, WorkStart, 30, []);
    var labels := Labels(starts);
    forall i | 0 <= i < 20 ensures labels[i] == Format(540 + 30 * i) {
      assert starts[i] == 540 + 30 * i;
      assert labels[i] == Label(starts[i]);
      assert (540 + 30 * i) % 1440 == 540 + 30 * i;
    }
  }

  /**
   * A non-cancelled appointment of any doctor that starts that day and
   * overlaps a candidate removes it; a cancelled one never does.
   */
  lemma DayAppointmentBlocks(appointments: seq<Appointment>, dayStart: int, duration: int, x: int)
    ensures x in FreeStarts(dayStart, WorkStart, duration, DayAppointments(appointments, dayStart)) <==>
      && WorkStart <= x && (x - WorkStart) % SlotStep == 0 && x + duration <= Closing
      && forall a :: a in appointments && dayStart <= a.startTime < dayStart + 1440 && a.status != CANCELLED ==>
           !(dayStart + x < a.endTime && dayStart + x + duration > a.startTime)
  {
    var day := DayAppointments(appointments, dayStart);
    FreeStartsSpec(dayStart, WorkStart, duration, day, x);
    if Busy(dayStart + x, duration, day) {
      var k :| 0 <= k < |day| && dayStart + x < day[k].endTime && dayStart + x + duration > day[k].startTime;
      assert day[k] in day;
    } else {
      forall a | a in appointments && dayStart <= a.startTime < dayStart + 1440 && a.status != CANCELLED
        ensures !(dayStart + x < a.endTime && dayStart + x + duration > a.startTime)
      {
        assert a in day;
        var k :| 0 <= k < |day| && day[k] == a;
      }
    }
  }
}
