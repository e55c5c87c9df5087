/**
 * The doctor's weekly availability template (src/components/AvailabilityManager.tsx):
 * flat `(dayOfWeek, time, isAvailable)` records converted to one schedule per
 * day (`slotsToSchedule`) and back (`scheduleToSlots`).
 *
 * Times are `TimeGrid.Minutes`; every string comparison the component makes
 * is the numeric comparison by `TimeGrid.FormatOrder` and
 * `TimeGrid.FormatInjective`.
 */
module AvailabilitySchedule {
  import opened TimeGrid
  import opened SeqUtil

  /** One record of the availability table as the component sees it. */
  datatype TimeSlot = TimeSlot(dayOfWeek: int, time: Minutes, isAvailable: bool)

  datatype Break = Break(start: Minutes, end: Minutes)

  /** The editor's view of one weekday. */
  datatype DaySchedule = DaySchedule(
    dayOfWeek: int,
    enabled: bool,
    startTime: Minutes,
    endTime: Minutes,
    breaks: seq<Break>)

  /** Display order of the week: Monday (1) to Saturday (6), then Sunday (0). */
  const DaysOfWeek: seq<int> := [1, 2, 3, 4, 5, 6, 0]

  /** 09:00 and 17:00, the times shown for a day without availability. */
  const DefaultStart: Minutes := 540
  const DefaultEnd: Minutes := 1020

  // ---------------------------------------------------------------------
  // Time options of the pickers

  /** The 33 picker options 06:00, 06:30, ..., 21:30, 22:00 (no 22:30). */
  method GenerateTimeOptions() returns (times: seq<string>)
    ensures |times| == 33
    ensures forall i :: 0 <= i < 33 ==> times[i] == Format(360 + GridStep * i)
    ensures forall i, j :: 0 <= i < j < 33 ==> LexLess(times[i], times[j])
  {
    times := [];
    for hour := 6 to 23
      invariant |times| == if hour == 23 then 33 else 2 * (hour - 6)
      invariant forall i :: 0 <= i < |times| ==> times[i] == Format(360 + GridStep * i)
    {
      assert hour * 60 == 360 + GridStep * |times|;
      times := times + [Format(hour * 60)];
      if hour < 22 {
        assert hour * 60 + 30 == 360 + GridStep * |times|;
        times := times + [Format(hour * 60 + 30)];
      }
    }
    forall i, j | 0 <= i < j < 33 ensures LexLess(times[i], times[j]) {
      FormatOrder(360 + GridStep * i, 360 + GridStep * j);
    }
  }

  // ---------------------------------------------------------------------
  // Records to schedule (`slotsToSchedule`)

  /** The times of the available records of `day`, in record order (`slots.filter(...).map(s => s.time)`). */
  function AvailableTimes(slots: seq<TimeSlot>, day: int): (r: seq<Minutes>)
    ensures forall t :: t in r <==> exists k :: 0 <= k < |slots| && slots[k].dayOfWeek == day && slots[k].isAvailable && slots[k].time == t
    decreases |slots|
  {
    if |slots| == 0 then []
    else
      var rest := AvailableTimes(slots[1..], day);
      assert forall k :: 1 <= k < |slots| ==> slots[k] == slots[1..][k - 1];
      if slots[0].dayOfWeek == day && slots[0].isAvailable then [slots[0].time] + rest else rest
  }

  function TimeKey(t: Minutes): int {
    t
  }

  /** `daySlots.map(s => s.time).sort()`: the default sort compares strings, which is numeric order here. */
  function SortedTimes(slots: seq<TimeSlot>, day: int): seq<Minutes> {
    SortBy(AvailableTimes(slots, day), TimeKey)
  }

  ghost predicate Ascending(s: seq<Minutes>) {
    forall i, j :: 0 <= i < j < |s| ==> s[i] <= s[j]
  }

  lemma SortedTimesSpec(slots: seq<TimeSlot>, day: int)
    ensures Ascending(SortedTimes(slots, day))
    ensures forall t :: t in SortedTimes(slots, day) <==> t in AvailableTimes(slots, day)
  {
    var s := SortedTimes(slots, day);
    SortByIsSorted(AvailableTimes(slots, day), TimeKey);
    forall i, j | 0 <= i < j < |s| ensures s[i] <= s[j] {
      assert TimeKey(s[i]) <= TimeKey(s[j]);
    }
    forall t ensures t in s <==> t in AvailableTimes(slots, day) {
      assert t in s <==> t in multiset(s);
    }
  }

  /**
   * The breaks inferred from a sorted list of times: one `Break(cur, next)`
   * per consecutive pair whose second element is not the expected next step.
   */
  function GapBreaks(s: seq<Minutes>): seq<Break>
    decreases |s|
  {
    if |s| < 2 then []
    else (if s[1] != Step(s[0]) then [Break(s[0], s[1])] else []) + GapBreaks(s[1..])
  }

  /** A break is recorded exactly for consecutive times that are not one step apart. */
  lemma {:induction false} GapBreaksSpec(s: seq<Minutes>, b: Break)
    ensures b in GapBreaks(s) <==> exists i :: 0 <= i < |s| - 1 && b == Break(s[i], s[i + 1]) && s[i + 1] != Step(s[i])
    decreases |s|
  {
    if |s| >= 2 {
      GapBreaksSpec(s[1..], b);
      assert forall i :: 1 <= i < |s| ==> s[i] == s[1..][i - 1];
      if exists i :: 0 <= i < |s| - 1 && b == Break(s[i], s[i + 1]) && s[i + 1] != Step(s[i]) {
        var i :| 0 <= i < |s| - 1 && b == Break(s[i], s[i + 1]) && s[i + 1] != Step(s[i]);
        if i > 0 {
          assert b == Break(s[1..][i - 1], s[1..][i]);
        }
      }
    }
  }

  /** The breaks loop of `slotsToSchedule`. */
  method DetectBreaks(sortedTimes: seq<Minutes>) returns (breaks: seq<Break>)
    ensures breaks == GapBreaks(sortedTimes)
  {
    breaks := [];
    var i := 0;
    while i < |sortedTimes| - 1
      invariant 0 <= i <= if |sortedTimes| == 0 then 0 else |sortedTimes| - 1
      invariant breaks + GapBreaks(sortedTimes[i..]) == GapBreaks(sortedTimes)
    {
      var current := sortedTimes[i];
      var next := sortedTimes[i + 1];
      var expectedNext := Step(current);
      assert sortedTimes[i..][1..] == sortedTimes[i + 1..];
      if next != expectedNext {
        breaks := breaks + [Break(current, next)];
      }
      i := i + 1;
    }
  }

  /** The schedule `slotsToSchedule` builds for one weekday. */
  function DayFromSlots(slots: seq<TimeSlot>, day: int): DaySchedule {
    var sortedTimes := SortedTimes(slots, day);
    if |sortedTimes| == 0 then DaySchedule(day, false, DefaultStart, DefaultEnd, [])
    else DaySchedule(day, true, sortedTimes[0], sortedTimes[|sortedTimes| - 1], GapBreaks(sortedTimes))
  }

  /** A day is disabled, with the 09:00-17:00 defaults and no breaks, exactly when it has no available record. */
  lemma DayEnabledIffAvailable(slots: seq<TimeSlot>, day: int)
    ensures var d := DayFromSlots(slots, day);
      && d.dayOfWeek == day
      && (!d.enabled <==> forall k :: 0 <= k < |slots| && slots[k].dayOfWeek == day ==> !slots[k].isAvailable)
      && (!d.enabled ==> d == DaySchedule(day, false, DefaultStart, DefaultEnd, []))
  {
    SortedTimesSpec(slots, day);
    var s := SortedTimes(slots, day);
    forall k | 0 <= k < |slots| && slots[k].dayOfWeek == day && slots[k].isAvailable ensures slots[k].time in s {
      assert slots[k].time in AvailableTimes(slots, day);
    }
    if |s| > 0 {
      assert s[0] in AvailableTimes(slots, day);
    }
  }

  /** The schedule of one weekday, with the breaks loop. */
  method DayScheduleOf(slots: seq<TimeSlot>, day: int) returns (d: DaySchedule)
    ensures d == DayFromSlots(slots, day)
  {
    var sortedTimes := SortedTimes(slots, day);
    if |sortedTimes| == 0 {
      d := DaySchedule(day, false, DefaultStart, DefaultEnd, []);
    } else {
      var breaks := DetectBreaks(sortedTimes);
      d := DaySchedule(day, true, sortedTimes[0], sortedTimes[|sortedTimes| - 1], breaks);
    }
  }

  /** `slotsToSchedule`: one entry per weekday, Monday to Saturday, then Sunday. */
  function ScheduleOf(slots: seq<TimeSlot>): (r: seq<DaySchedule>)
    ensures |r| == 7
    ensures forall i :: 0 <= i < 7 ==> r[i].dayOfWeek == DaysOfWeek[i]
  {
    seq(7, i requires 0 <= i < 7 => DayFromSlots(slots, DaysOfWeek[i]))
  }

  /** `slotsToSchedule`: the map over the weekdays. */
  method SlotsToSchedule(slots: seq<TimeSlot>) returns (schedule: seq<DaySchedule>)
    ensures schedule == ScheduleOf(slots)
  {
    schedule := [];
    for i := 0 to |DaysOfWeek|
      invariant |schedule| == i
      invariant forall j :: 0 <= j < i ==> schedule[j] == DayFromSlots(slots, DaysOfWeek[j])
    {
      var d := DayScheduleOf(slots, DaysOfWeek[i]);
      schedule := schedule + [d];
    }
  }

  /**
   * An enabled day starts at its earliest available time and ends at its
   * latest one (not one step later), and every inferred break runs between
   * two of its available times.
   */
  lemma DayBounds(slots: seq<TimeSlot>, day: int)
    requires DayFromSlots(slots, day).enabled
    ensures var d := DayFromSlots(slots, day);
      && d.startTime in AvailableTimes(slots, day)
      && d.endTime in AvailableTimes(slots, day)
      && (forall t :: t in AvailableTimes(slots, day) ==> d.startTime <= t <= d.endTime)
      && (forall b :: b in d.breaks ==> b.start in AvailableTimes(slots, day) && b.end in AvailableTimes(slots, day) && b.start <= b.end)
  {
    var s := SortedTimes(slots, day);
    SortedTimesSpec(slots, day);
    ListBounds(s);
  }

  /** Every time of an ascending list lies between its ends, and every gap break joins two of its times. */
  lemma ListBounds(s: seq<Minutes>)
    requires |s| > 0 && Ascending(s)
    ensures s[0] in s && s[|s| - 1] in s
    ensures forall t :: t in s ==> s[0] <= t <= s[|s| - 1]
    ensures forall b :: b in GapBreaks(s) ==> b.start in s && b.end in s && b.start <= b.end
  {
    forall b | b in GapBreaks(s) ensures b.start in s && b.end in s && b.start <= b.end {
      GapBreaksSpec(s, b);
    }
  }

  // ---------------------------------------------------------------------
  // Schedule to records (`scheduleToSlots`)

  /** `brk.start < timeStr < brk.end` for some break. */
  predicate InBreak(t: int, breaks: seq<Break>) {
    exists k :: 0 <= k < |breaks| && breaks[k].start < t < breaks[k].end
  }

  /**
   * The records the `while` loop of `scheduleToSlots` emits for `day`
   * from the time `t` on: every stepped time up to `endTime` inclusive that is
   * not strictly inside a break.
   */
  function DayPoints(day: DaySchedule, t: int): seq<TimeSlot>
    requires 0 <= t
    decreases day.endTime / 60 - t / 60, if t % 60 == 30 then 0 else 1
  {
    if t > day.endTime then []
    else (if InBreak(t, day.breaks) then [] else [TimeSlot(day.dayOfWeek, t, true)]) + DayPoints(day, Step(t))
  }

  /** `scheduleToSlots`: the records of the enabled days, day by day. */
  function SlotsOf(schedule: seq<DaySchedule>): seq<TimeSlot>
    decreases |schedule|
  {
    if |schedule| == 0 then []
    else (if schedule[0].enabled then DayPoints(schedule[0], schedule[0].startTime) else []) + SlotsOf(schedule[1..])
  }

  /** One step of `SlotsOf` on a suffix: the records of day `i`, when enabled, then those of the later days. */
  lemma SlotsOfUnfold(schedule: seq<DaySchedule>, i: int)
    requires 0 <= i < |schedule|
    ensures SlotsOf(schedule[i..]) ==
      (if schedule[i].enabled then DayPoints(schedule[i], schedule[i].startTime) else []) + SlotsOf(schedule[i + 1..])
  {
    assert schedule[i..][1..] == schedule[i + 1..];
  }

  /** `scheduleToSlots`: the day loop. */
  method ScheduleToSlots(schedule: seq<DaySchedule>) returns (slots: seq<TimeSlot>)
    ensures slots == SlotsOf(schedule)
  {
    slots := [];
    ghost var total := SlotsOf(schedule);
    assert schedule[0..] == schedule;
    for i := 0 to |schedule|
      invariant slots + SlotsOf(schedule[i..]) == total
    {
      SlotsOfUnfold(schedule, i);
      ghost var later := SlotsOf(schedule[i + 1..]);
      if schedule[i].enabled {
        ghost var points := DayPoints(schedule[i], schedule[i].startTime);
        assert (slots + points) + later == slots + (points + later);
        slots := EmitDay(schedule[i], slots);
      } else {
        assert [] + later == later;
      }
    }
  }

  /** One step of `DayPoints` at a time not past `endTime`. */
  lemma DayPointsUnfold(day: DaySchedule, t: int)
    requires 0 <= t <= day.endTime
    ensures DayPoints(day, t) ==
      (if InBreak(t, day.breaks) then [] else [TimeSlot(day.dayOfWeek, t, true)]) + DayPoints(day, Step(t))
  {
  }

  /** The body of the day loop for an enabled day: the 30-minute `while` loop on hours and minutes. */
  method EmitDay(day: DaySchedule, slots0: seq<TimeSlot>) returns (slots: seq<TimeSlot>)
    ensures slots == slots0 + DayPoints(day, day.startTime)
  {
    slots := slots0;
    var startHour, startMin := day.startTime / 60, day.startTime % 60;
    var endHour, endMin := day.endTime / 60, day.endTime % 60;
    var currentHour, currentMin := startHour, startMin;
    ghost var now := day.startTime;
    ghost var total := slots0 + DayPoints(day, day.startTime);
    while currentHour < endHour || (currentHour == endHour && currentMin <= endMin)
      invariant 0 <= currentHour && 0 <= currentMin < 60 && now == currentHour * 60 + currentMin
      invariant slots + DayPoints(day, now) == total
      decreases endHour - currentHour, if currentMin == 30 then 0 else 1
    {
      var t := currentHour * 60 + currentMin;
      ClockStep(currentHour, currentMin);
      DayPointsUnfold(day, now);
      ghost var later := DayPoints(day, Step(now));
      if !InBreak(t, day.breaks) {
        assert (slots + [TimeSlot(day.dayOfWeek, t, true)]) + later == slots + ([TimeSlot(day.dayOfWeek, t, true)] + later);
        slots := slots + [TimeSlot(day.dayOfWeek, t, true)];
      } else {
        assert [] + later == later;
      }
      if currentMin == 30 {
        currentHour, currentMin := currentHour + 1, 0;
      } else {
        currentMin := 30;
      }
      now := Step(now);
    }
    assert day.endTime == endHour * 60 + endMin;
    assert DayPoints(day, now) == [];
  }

  /**
   * From a time on the grid, a day emits exactly the grid times up to
   * `endTime` inclusive that are not strictly inside a break, all available.
   */
  lemma {:induction false} DayPointsMember(day: DaySchedule, t: int, x: TimeSlot)
    requires 0 <= t && OnGrid(t)
    ensures x in DayPoints(day, t) <==>
      x.dayOfWeek == day.dayOfWeek && x.isAvailable && t <= x.time <= day.endTime
      && OnGrid(x.time) && !InBreak(x.time, day.breaks)
    decreases day.endTime - t
  {
    if t <= day.endTime {
      StepOnGrid(t);
      DayPointsMember(day, t + GridStep, x);
    }
  }

  /** From a time on the grid, the emitted times strictly increase. */
  lemma {:induction false} DayPointsAscending(day: DaySchedule, t: int)
    requires 0 <= t && OnGrid(t)
    ensures forall i, j :: 0 <= i < j < |DayPoints(day, t)| ==> DayPoints(day, t)[i].time < DayPoints(day, t)[j].time
    decreases day.endTime - t
  {
    if t <= day.endTime {
      StepOnGrid(t);
      DayPointsAscending(day, t + GridStep);
      var rest := DayPoints(day, t + GridStep);
      forall k | 0 <= k < |rest| ensures t < rest[k].time {
        DayPointsMember(day, t + GridStep, rest[k]);
      }
    }
  }

  /** Disabled days emit nothing; every emitted record comes from an enabled day and is available. */
  lemma {:induction false} SlotsOfMember(schedule: seq<DaySchedule>, x: TimeSlot)
    ensures x in SlotsOf(schedule) <==> exists i :: 0 <= i < |schedule| && schedule[i].enabled && x in DayPoints(schedule[i], schedule[i].startTime)
    decreases |schedule|
  {
    if |schedule| > 0 {
      SlotsOfMember(schedule[1..], x);
      assert forall i :: 1 <= i < |schedule| ==> schedule[i] == schedule[1..][i - 1];
      if exists i :: 0 <= i < |schedule| && schedule[i].enabled && x in DayPoints(schedule[i], schedule[i].startTime) {
        var i :| 0 <= i < |schedule| && schedule[i].enabled && x in DayPoints(schedule[i], schedule[i].startTime);
        if i > 0 {
          assert schedule[1..][i - 1] == schedule[i];
        }
      }
    }
  }

  // ---------------------------------------------------------------------
  // Round trip

  /** A grid time strictly between the first and last of a sorted list, and not in it, falls in a gap. */
  lemma {:induction false} FindGap(s: seq<Minutes>, p: int) returns (i: int)
    requires |s| >= 2 && Ascending(s)
    requires s[0] < p < s[|s| - 1]
    requires p !in s
    ensures 0 <= i < |s| - 1 && s[i] < p < s[i + 1]
    decreases |s|
  {
    if s[1] > p {
      i := 0;
    } else {
      assert s[1] != p;
      var j := FindGap(s[1..], p);
      i := j + 1;
    }
  }

  /** A time of the list is never strictly inside one of the breaks inferred from it. */
  lemma OwnTimeNotInBreak(s: seq<Minutes>, j: int)
    requires Ascending(s) && 0 <= j < |s|
    ensures !InBreak(s[j], GapBreaks(s))
  {
    var bs := GapBreaks(s);
    forall k | 0 <= k < |bs| ensures !(bs[k].start < s[j] < bs[k].end) {
      OwnTimeOutsideBreak(s, j, bs[k]);
    }
  }

  /** The single-break case of `OwnTimeNotInBreak`. */
  lemma OwnTimeOutsideBreak(s: seq<Minutes>, j: int, b: Break)
    requires Ascending(s) && 0 <= j < |s|
    requires b in GapBreaks(s)
    ensures !(b.start < s[j] < b.end)
  {
    GapBreaksSpec(s, b);
    var i :| 0 <= i < |s| - 1 && b == Break(s[i], s[i + 1]) && s[i + 1] != Step(s[i]);
    if j <= i {
      assert s[j] <= s[i];
    } else {
      assert s[i + 1] <= s[j];
    }
  }

  /** A grid time inside the list's range but not in the list is strictly inside an inferred break. */
  lemma MissingTimeInBreak(s: seq<Minutes>, p: int)
    requires |s| > 0 && Ascending(s)
    requires forall k :: 0 <= k < |s| ==> OnGrid(s[k])
    requires s[0] <= p <= s[|s| - 1] && OnGrid(p) && p !in s
    ensures InBreak(p, GapBreaks(s))
  {
    assert p != s[0] && p != s[|s| - 1];
    var i := FindGap(s, p);
    GridGap(s[i], p);
    StepOnGrid(s[i]);
    assert s[i + 1] != Step(s[i]);
    var b := Break(s[i], s[i + 1]);
    GapBreaksSpec(s, b);
    var bs := GapBreaks(s);
    assert b in bs;
    var k :| 0 <= k < |bs| && bs[k] == b;
    assert bs[k].start < p < bs[k].end;
  }

  /**
   * On the grid, the times a sorted list of available times reproduces
   * through its inferred day schedule are exactly the list's own times.
   */
  lemma DayRoundTrip(s: seq<Minutes>, day: int, t: Minutes)
    requires |s| > 0 && Ascending(s)
    requires forall k :: 0 <= k < |s| ==> OnGrid(s[k])
    ensures TimeSlot(day, t, true) in DayPoints(DaySchedule(day, true, s[0], s[|s| - 1], GapBreaks(s)), s[0]) <==> t in s
  {
    var d := DaySchedule(day, true, s[0], s[|s| - 1], GapBreaks(s));
    DayPointsMember(d, s[0], TimeSlot(day, t, true));
    if t in s {
      var j :| 0 <= j < |s| && s[j] == t;
      OwnTimeNotInBreak(s, j);
    } else if s[0] <= t <= s[|s| - 1] && OnGrid(t) {
      MissingTimeInBreak(s, t);
    }
  }

  /** The (day, time) pairs of a list of records. */
  function Pairs(slots: seq<TimeSlot>): set<(int, int)> {
    set k | 0 <= k < |slots| :: (slots[k].dayOfWeek, slots[k].time as int)
  }

  /** The (day, time) pairs of the available records of the seven weekdays. */
  function AvailablePairs(slots: seq<TimeSlot>): set<(int, int)> {
    set k | 0 <= k < |slots| && slots[k].isAvailable && slots[k].dayOfWeek in DaysOfWeek :: (slots[k].dayOfWeek, slots[k].time as int)
  }

  /**
   * For records on the grid, entry `i` of the weekly schedule is built from
   * an ascending list of grid times that holds exactly the weekday's
   * available times: it is enabled exactly when that list is non-empty, and
   * then spans it with the gaps as breaks.
   */
  lemma ScheduleDay(slots: seq<TimeSlot>, i: int) returns (s: seq<Minutes>)
    requires forall k :: 0 <= k < |slots| && slots[k].isAvailable ==> OnGrid(slots[k].time)
    requires 0 <= i < 7
    ensures Ascending(s) && forall j :: 0 <= j < |s| ==> OnGrid(s[j])
    ensures forall t :: t in s <==> t in AvailableTimes(slots, DaysOfWeek[i])
    ensures ScheduleOf(slots)[i].enabled <==> |s| > 0
    ensures |s| > 0 ==> ScheduleOf(slots)[i] == DaySchedule(DaysOfWeek[i], true, s[0], s[|s| - 1], GapBreaks(s))
  {
    s := SortedTimes(slots, DaysOfWeek[i]);
    SortedTimesSpec(slots, DaysOfWeek[i]);
    forall j | 0 <= j < |s| ensures OnGrid(s[j]) {
      assert s[j] in AvailableTimes(slots, DaysOfWeek[i]);
    }
    assert ScheduleOf(slots)[i] == DayFromSlots(slots, DaysOfWeek[i]);
  }

  /** A time among a weekday's available times comes from an available record of that weekday. */
  lemma AvailableWitness(slots: seq<TimeSlot>, day: int, t: Minutes) returns (k: int)
    requires t in AvailableTimes(slots, day)
    ensures 0 <= k < |slots| && slots[k].dayOfWeek == day && slots[k].isAvailable && slots[k].time == t
  {
    k :| 0 <= k < |slots| && slots[k].dayOfWeek == day && slots[k].isAvailable && slots[k].time == t;
  }

  /** A record an enabled day inferred from a sorted list emits is an available record at one of the list's times. */
  lemma DaySound(s: seq<Minutes>, day: int, d: DaySchedule, x: TimeSlot)
    requires |s| > 0 && Ascending(s)
    requires forall j :: 0 <= j < |s| ==> OnGrid(s[j])
    requires d == DaySchedule(day, true, s[0], s[|s| - 1], GapBreaks(s))
    requires x in DayPoints(d, d.startTime)
    ensures x == TimeSlot(day, x.time, true) && x.time in s
  {
    DayPointsMember(d, s[0], x);
    DayRoundTrip(s, day, x.time);
  }

  /** An available record of a weekday contributes its (day, time) pair. */
  lemma InAvailablePairs(slots: seq<TimeSlot>, k: int)
    requires 0 <= k < |slots| && slots[k].isAvailable && slots[k].dayOfWeek in DaysOfWeek
    ensures (slots[k].dayOfWeek, slots[k].time as int) in AvailablePairs(slots)
  {
  }

  /** Every record the round trip emits is an available record of the input. */
  lemma RoundTripSound(slots: seq<TimeSlot>, x: TimeSlot)
    requires forall k :: 0 <= k < |slots| && slots[k].isAvailable ==> OnGrid(slots[k].time)
    requires x in SlotsOf(ScheduleOf(slots))
    ensures x.isAvailable && (x.dayOfWeek, x.time as int) in AvailablePairs(slots)
  {
    var sched := ScheduleOf(slots);
    SlotsOfMember(sched, x);
    var i :| 0 <= i < |sched| && sched[i].enabled && x in DayPoints(sched[i], sched[i].startTime);
    var s := ScheduleDay(slots, i);
    DaySound(s, DaysOfWeek[i], sched[i], x);
    var k := AvailableWitness(slots, DaysOfWeek[i], x.time);
    InAvailablePairs(slots, k);
  }

  /** Every available record of a weekday is emitted again by the round trip. */
  lemma RoundTripComplete(slots: seq<TimeSlot>, k: int)
    requires forall k :: 0 <= k < |slots| && slots[k].isAvailable ==> OnGrid(slots[k].time)
    requires 0 <= k < |slots| && slots[k].isAvailable && slots[k].dayOfWeek in DaysOfWeek
    ensures TimeSlot(slots[k].dayOfWeek, slots[k].time, true) in SlotsOf(ScheduleOf(slots))
  {
    var sched := ScheduleOf(slots);
    var day, t := slots[k].dayOfWeek, slots[k].time;
    var i :| 0 <= i < 7 && DaysOfWeek[i] == day;
    assert t in AvailableTimes(slots, day);
    var s := ScheduleDay(slots, i);
    DayRoundTrip(s, day, t);
    SlotsOfMember(sched, TimeSlot(day, t, true));
  }

  /**
   * Round trip: for available records on the :00/:30 grid, converting to the
   * weekly schedule and back yields every available (day, time) pair once
   * more, duplicates collapsed, nothing else, and only available records.
   */
  lemma RoundTrip(slots: seq<TimeSlot>)
    requires forall k :: 0 <= k < |slots| && slots[k].isAvailable ==> OnGrid(slots[k].time)
    ensures Pairs(SlotsOf(ScheduleOf(slots))) == AvailablePairs(slots)
    ensures forall k :: 0 <= k < |SlotsOf(ScheduleOf(slots))| ==> SlotsOf(ScheduleOf(slots))[k].isAvailable
  {
    var out := SlotsOf(ScheduleOf(slots));
    forall p | p in Pairs(out) ensures p in AvailablePairs(slots) {
      var m :| 0 <= m < |out| && p == (out[m].dayOfWeek, out[m].time as int);
      RoundTripSound(slots, out[m]);
    }
    forall p | p in AvailablePairs(slots) ensures p in Pairs(out) {
      var k :| 0 <= k < |slots| && slots[k].isAvailable && slots[k].dayOfWeek in DaysOfWeek && p == (slots[k].dayOfWeek, slots[k].time as int);
      RoundTripComplete(slots, k);
      var m :| 0 <= m < |out| && out[m] == TimeSlot(slots[k].dayOfWeek, slots[k].time, true);
    }
    forall k | 0 <= k < |out| ensures out[k].isAvailable {
      RoundTripSound(slots, out[k]);
    }
  }
}
