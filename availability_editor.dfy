/**
 * The per-day edit helpers and the timeline bar of the availability editor
 * (src/components/AvailabilityManager.tsx). Every helper maps over the
 * week's schedule and rewrites only the entries of the targeted weekday.
 */
module AvailabilityEditor {
  import opened TimeGrid
  import opened SeqUtil
  import opened AvailabilitySchedule

  /** The break a new "Agregar descanso" row starts with: 12:00-13:00. */
  const Lunch: Break := Break(720, 780)

  datatype TimeField = StartTime | EndTime
  datatype BreakField = BreakStart | BreakEnd
  datatype Preset = Weekdays | Custom

  // ---------------------------------------------------------------------
  // Edit helpers

  /** `toggleDay`: flips `enabled` of the targeted weekday. */
  function ToggleDay(schedule: seq<DaySchedule>, dayOfWeek: int): (r: seq<DaySchedule>)
    ensures |r| == |schedule|
    ensures forall i :: 0 <= i < |r| && schedule[i].dayOfWeek != dayOfWeek ==> r[i] == schedule[i]
    ensures forall i :: 0 <= i < |r| && schedule[i].dayOfWeek == dayOfWeek ==>
      r[i].enabled != schedule[i].enabled && r[i] == schedule[i].(enabled := r[i].enabled)
  {
    seq(|schedule|, i requires 0 <= i < |schedule| =>
      if schedule[i].dayOfWeek == dayOfWeek then schedule[i].(enabled := !schedule[i].enabled) else schedule[i])
  }

  /** Toggling the same weekday twice restores the schedule. */
  lemma ToggleDayTwice(schedule: seq<DaySchedule>, dayOfWeek: int)
    ensures ToggleDay(ToggleDay(schedule, dayOfWeek), dayOfWeek) == schedule
  {
    var r := ToggleDay(ToggleDay(schedule, dayOfWeek), dayOfWeek);
    forall i | 0 <= i < |schedule| ensures r[i] == schedule[i] {
    }
  }

  /** `toggleExpanded`: the weekday leaves the set if it was in it, and joins it otherwise. */
  function ToggleExpanded(expanded: set<int>, dayOfWeek: int): (r: set<int>)
    ensures dayOfWeek in r <==> dayOfWeek !in expanded
    ensures forall d :: d != dayOfWeek ==> (d in r <==> d in expanded)
  {
    if dayOfWeek in expanded then expanded - {dayOfWeek} else expanded + {dayOfWeek}
  }

  /** Expanding and collapsing the same weekday is the identity. */
  lemma ToggleExpandedTwice(expanded: set<int>, dayOfWeek: int)
    ensures ToggleExpanded(ToggleExpanded(expanded, dayOfWeek), dayOfWeek) == expanded
  {
    var r := ToggleExpanded(ToggleExpanded(expanded, dayOfWeek), dayOfWeek);
    assert forall d :: d in r <==> d in expanded;
  }

  /** The days `useEffect` expands on load: the enabled ones. */
  function InitiallyExpanded(schedule: seq<DaySchedule>): (r: set<int>)
    ensures forall d :: d in r <==> exists i :: 0 <= i < |schedule| && schedule[i].enabled && schedule[i].dayOfWeek == d
  {
    set i | 0 <= i < |schedule| && schedule[i].enabled :: schedule[i].dayOfWeek
  }

  /** `updateDayTime`: sets the start or end time of the targeted weekday. */
  function UpdateDayTime(schedule: seq<DaySchedule>, dayOfWeek: int, field: TimeField, value: Minutes): (r: seq<DaySchedule>)
    ensures |r| == |schedule|
    ensures forall i :: 0 <= i < |r| && schedule[i].dayOfWeek != dayOfWeek ==> r[i] == schedule[i]
    ensures forall i :: 0 <= i < |r| && schedule[i].dayOfWeek == dayOfWeek ==>
      (field == StartTime ==> r[i] == schedule[i].(startTime := value)) &&
      (field == EndTime ==> r[i] == schedule[i].(endTime := value))
  {
    seq(|schedule|, i requires 0 <= i < |schedule| =>
      if schedule[i].dayOfWeek != dayOfWeek then schedule[i]
      else if field == StartTime then schedule[i].(startTime := value)
      else schedule[i].(endTime := value))
  }

  /** `addBreak`: appends a 12:00-13:00 break to the targeted weekday. */
  function AddBreak(schedule: seq<DaySchedule>, dayOfWeek: int): (r: seq<DaySchedule>)
    ensures |r| == |schedule|
    ensures forall i :: 0 <= i < |r| && schedule[i].dayOfWeek != dayOfWeek ==> r[i] == schedule[i]
    ensures forall i :: 0 <= i < |r| && schedule[i].dayOfWeek == dayOfWeek ==>
      r[i] == schedule[i].(breaks := schedule[i].breaks + [Lunch])
  {
    seq(|schedule|, i requires 0 <= i < |schedule| =>
      if schedule[i].dayOfWeek == dayOfWeek then schedule[i].(breaks := schedule[i].breaks + [Lunch]) else schedule[i])
  }

  /** `breaks.filter((_, i) => i !== index)`: an index out of range removes nothing. */
  function RemoveAt(breaks: seq<Break>, index: int): (r: seq<Break>)
    ensures 0 <= index < |breaks| ==> |r| == |breaks| - 1
    ensures 0 <= index < |breaks| ==> forall j :: 0 <= j < |r| ==> r[j] == if j < index then breaks[j] else breaks[j + 1]
    ensures !(0 <= index < |breaks|) ==> r == breaks
  {
    if 0 <= index < |breaks| then breaks[..index] + breaks[index + 1..] else breaks
  }

  /** `removeBreak`: drops the break at `index` of the targeted weekday. */
  function RemoveBreak(schedule: seq<DaySchedule>, dayOfWeek: int, index: int): (r: seq<DaySchedule>)
    ensures |r| == |schedule|
    ensures forall i :: 0 <= i < |r| && schedule[i].dayOfWeek != dayOfWeek ==> r[i] == schedule[i]
    ensures forall i :: 0 <= i < |r| && schedule[i].dayOfWeek == dayOfWeek ==>
      r[i] == schedule[i].(breaks := RemoveAt(schedule[i].breaks, index))
  {
    seq(|schedule|, i requires 0 <= i < |schedule| =>
      if schedule[i].dayOfWeek == dayOfWeek then schedule[i].(breaks := RemoveAt(schedule[i].breaks, index)) else schedule[i])
  }

  /** Removing the break just added undoes `addBreak`, when each weekday appears once. */
  lemma RemoveAfterAdd(schedule: seq<DaySchedule>, k: int)
    requires 0 <= k < |schedule|
    requires forall i, j :: 0 <= i < j < |schedule| ==> schedule[i].dayOfWeek != schedule[j].dayOfWeek
    ensures RemoveBreak(AddBreak(schedule, schedule[k].dayOfWeek), schedule[k].dayOfWeek, |schedule[k].breaks|) == schedule
  {
    var d := schedule[k].dayOfWeek;
    var r := RemoveBreak(AddBreak(schedule, d), d, |schedule[k].breaks|);
    forall i | 0 <= i < |schedule| ensures r[i] == schedule[i] {
      if i == k {
        var bs := schedule[k].breaks;
        assert RemoveAt(bs + [Lunch], |bs|) == bs;
      }
    }
  }

  /** `updateBreak`: sets one end of the break at `index` of the targeted weekday. */
  function UpdateAt(breaks: seq<Break>, index: int, field: BreakField, value: Minutes): (r: seq<Break>)
    ensures |r| == |breaks|
    ensures forall j :: 0 <= j < |r| && j != index ==> r[j] == breaks[j]
    ensures 0 <= index < |r| && field == BreakStart ==> r[index] == Break(value, breaks[index].end)
    ensures 0 <= index < |r| && field == BreakEnd ==> r[index] == Break(breaks[index].start, value)
  {
    seq(|breaks|, j requires 0 <= j < |breaks| =>
      if j != index then breaks[j]
      else if field == BreakStart then breaks[j].(start := value)
      else breaks[j].(end := value))
  }

  function UpdateBreak(schedule: seq<DaySchedule>, dayOfWeek: int, index: int, field: BreakField, value: Minutes): (r: seq<DaySchedule>)
    ensures |r| == |schedule|
    ensures forall i :: 0 <= i < |r| && schedule[i].dayOfWeek != dayOfWeek ==> r[i] == schedule[i]
    ensures forall i :: 0 <= i < |r| && schedule[i].dayOfWeek == dayOfWeek ==>
      r[i] == schedule[i].(breaks := UpdateAt(schedule[i].breaks, index, field, value))
  {
    seq(|schedule|, i requires 0 <= i < |schedule| =>
      if schedule[i].dayOfWeek == dayOfWeek then schedule[i].(breaks := UpdateAt(schedule[i].breaks, index, field, value)) else schedule[i])
  }

  /** The day `applyPreset('weekdays')` makes of `day`. */
  function WeekdayDay(day: DaySchedule): DaySchedule {
    DaySchedule(day.dayOfWeek, 1 <= day.dayOfWeek <= 5, DefaultStart, DefaultEnd, [])
  }

  /** `applyPreset`: "weekdays" sets Monday-Friday 09:00-17:00 without breaks; "custom" changes nothing. */
  function ApplyPreset(schedule: seq<DaySchedule>, preset: Preset): (r: seq<DaySchedule>)
    ensures |r| == |schedule|
    ensures preset == Custom ==> r == schedule
    ensures preset == Weekdays ==> forall i :: 0 <= i < |r| ==>
      && r[i].dayOfWeek == schedule[i].dayOfWeek
      && (r[i].enabled <==> 1 <= r[i].dayOfWeek <= 5)
      && r[i].startTime == 540 && r[i].endTime == 1020 && r[i].breaks == []
  {
    match preset
    case Custom => schedule
    case Weekdays => seq(|schedule|, i requires 0 <= i < |schedule| => WeekdayDay(schedule[i]))
  }

  /** Applying a preset twice is applying it once. */
  lemma ApplyPresetIdempotent(schedule: seq<DaySchedule>, preset: Preset)
    ensures ApplyPreset(ApplyPreset(schedule, preset), preset) == ApplyPreset(schedule, preset)
  {
    var once := ApplyPreset(schedule, preset);
    var twice := ApplyPreset(once, preset);
    forall i | 0 <= i < |schedule| ensures twice[i] == once[i] {
    }
  }

  /**
   * Saving right after the weekday preset stores, for every weekday of the
   * schedule from Monday to Friday, exactly the grid times 09:00 to 17:00
   * inclusive, and nothing for the weekend.
   */
  lemma {:induction false} WeekdaysPresetSlots(schedule: seq<DaySchedule>, x: TimeSlot)
    ensures x in SlotsOf(ApplyPreset(schedule, Weekdays)) <==>
      && (exists i :: 0 <= i < |schedule| && schedule[i].dayOfWeek == x.dayOfWeek)
      && 1 <= x.dayOfWeek <= 5 && x.isAvailable
      && 540 <= x.time <= 1020 && OnGrid(x.time)
  {
    var p := ApplyPreset(schedule, Weekdays);
    SlotsOfMember(p, x);
    forall i | 0 <= i < |p|
      ensures p[i].enabled && x in DayPoints(p[i], p[i].startTime) <==>
        1 <= p[i].dayOfWeek <= 5 && x.dayOfWeek == p[i].dayOfWeek && x.isAvailable && 540 <= x.time <= 1020 && OnGrid(x.time)
    {
      DayPointsMember(p[i], 540, x);
      assert !InBreak(x.time, p[i].breaks);
    }
    if exists i :: 0 <= i < |schedule| && schedule[i].dayOfWeek == x.dayOfWeek {
      var i :| 0 <= i < |schedule| && schedule[i].dayOfWeek == x.dayOfWeek;
      assert p[i].dayOfWeek == x.dayOfWeek;
    }
  }

  // ---------------------------------------------------------------------
  // Timeline bar

  /** A filled stretch of the timeline bar, in minutes since midnight. */
  datatype Segment = Segment(start: int, end: int)

  function BreakStartKey(b: Break): int {
    b.start
  }

  /** The segments the `forEach` over the sorted breaks pushes, from `currentStart` on. */
  function WalkSegments(sortedBreaks: seq<Break>, currentStart: int): seq<Segment>
    decreases |sortedBreaks|
  {
    if |sortedBreaks| == 0 then []
    else
      (if currentStart < sortedBreaks[0].start then [Segment(currentStart, sortedBreaks[0].start)] else [])
      + WalkSegments(sortedBreaks[1..], sortedBreaks[0].end)
  }

  /** The timeline segments of a day: its span, split around its breaks taken in start order. */
  function Timeline(day: DaySchedule): seq<Segment> {
    if |day.breaks| == 0 then [Segment(day.startTime, day.endTime)]
    else
      var sortedBreaks := SortBy(day.breaks, BreakStartKey);
      var last := sortedBreaks[|sortedBreaks| - 1].end;
      WalkSegments(sortedBreaks, day.startTime) + (if last < day.endTime then [Segment(last, day.endTime)] else [])
  }

  /** The timeline computation. */
  method ComputeSegments(day: DaySchedule) returns (segments: seq<Segment>)
    ensures segments == Timeline(day)
  {
    var startMinutes, endMinutes := day.startTime as int, day.endTime as int;
    if |day.breaks| == 0 {
      segments := [Segment(startMinutes, endMinutes)];
    } else {
      var sortedBreaks := SortBy(day.breaks, BreakStartKey);
      var currentStart;
      segments, currentStart := WalkBreaks(sortedBreaks, startMinutes);
      if currentStart < endMinutes {
        segments := segments + [Segment(currentStart, endMinutes)];
      }
    }
  }

  /** One step of `WalkSegments` on a suffix: the segment before break `i`, if non-empty, then the walk from its end. */
  lemma WalkSegmentsUnfold(sortedBreaks: seq<Break>, i: int, currentStart: int)
    requires 0 <= i < |sortedBreaks|
    ensures WalkSegments(sortedBreaks[i..], currentStart) ==
      (if currentStart < sortedBreaks[i].start then [Segment(currentStart, sortedBreaks[i].start)] else [])
      + WalkSegments(sortedBreaks[i + 1..], sortedBreaks[i].end)
  {
    assert sortedBreaks[i..][1..] == sortedBreaks[i + 1..];
  }

  /** The `forEach` over the sorted breaks, reassigning `currentStart`. */
  method WalkBreaks(sortedBreaks: seq<Break>, startMinutes: int) returns (segments: seq<Segment>, currentStart: int)
    requires |sortedBreaks| > 0
    ensures segments == WalkSegments(sortedBreaks, startMinutes)
    ensures currentStart == sortedBreaks[|sortedBreaks| - 1].end
  {
    segments := [];
    currentStart := startMinutes;
    ghost var total := WalkSegments(sortedBreaks, startMinutes);
    assert sortedBreaks[0..] == sortedBreaks;
    for i := 0 to |sortedBreaks|
      invariant segments + WalkSegments(sortedBreaks[i..], currentStart) == total
      invariant i > 0 ==> currentStart == sortedBreaks[i - 1].end
    {
      var breakStart, breakEnd := sortedBreaks[i].start as int, sortedBreaks[i].end as int;
      WalkSegmentsUnfold(sortedBreaks, i, currentStart);
      ghost var later := WalkSegments(sortedBreaks[i + 1..], breakEnd);
      if currentStart < breakStart {
        assert (segments + [Segment(currentStart, breakStart)]) + later == segments + ([Segment(currentStart, breakStart)] + later);
        segments := segments + [Segment(currentStart, breakStart)];
      } else {
        assert [] + later == later;
      }
      currentStart := breakEnd;
    }
  }

  /** Every segment walked from the breaks starts at `currentStart` or at a break's end, ends at a break's start, and is non-empty. */
  lemma {:induction false} WalkSegmentsSpec(sortedBreaks: seq<Break>, currentStart: int)
    ensures |WalkSegments(sortedBreaks, currentStart)| <= |sortedBreaks|
    ensures forall seg :: seg in WalkSegments(sortedBreaks, currentStart) ==>
      && seg.start < seg.end
      && (seg.start == currentStart || exists b :: b in sortedBreaks && b.end == seg.start)
      && (exists b :: b in sortedBreaks && b.start == seg.end)
    decreases |sortedBreaks|
  {
    if |sortedBreaks| > 0 {
      var rest := sortedBreaks[1..];
      WalkSegmentsSpec(rest, sortedBreaks[0].end);
      forall seg | seg in WalkSegments(rest, sortedBreaks[0].end)
        ensures (seg.start == currentStart || exists b :: b in sortedBreaks && b.end == seg.start)
        ensures exists b :: b in sortedBreaks && b.start == seg.end
      {
        if seg.start == sortedBreaks[0].end {
          assert sortedBreaks[0] in sortedBreaks;
        } else {
          var b :| b in rest && b.end == seg.start;
          assert b in sortedBreaks;
        }
        var b :| b in rest && b.start == seg.end;
        assert b in sortedBreaks;
      }
      assert sortedBreaks[0] in sortedBreaks;
    }
  }

  /**
   * With no breaks the timeline is the single segment `[startTime, endTime]`.
   * With breaks, every segment is non-empty, starts at `startTime` or at the
   * end of a break, ends at the start of a break or at `endTime`, and there
   * is at most one segment more than breaks.
   */
  lemma TimelineSpec(day: DaySchedule)
    ensures |day.breaks| == 0 ==> Timeline(day) == [Segment(day.startTime, day.endTime)]
    ensures |day.breaks| > 0 ==> |Timeline(day)| <= |day.breaks| + 1
    ensures |day.breaks| > 0 ==> forall seg :: seg in Timeline(day) ==>
      && seg.start < seg.end
      && (seg.start == day.startTime || exists b :: b in day.breaks && b.end == seg.start)
      && (seg.end == day.endTime || exists b :: b in day.breaks && b.start == seg.end)
  {
    if |day.breaks| > 0 {
      var sortedBreaks := SortBy(day.breaks, BreakStartKey);
      WalkSegmentsSpec(sortedBreaks, day.startTime);
      SortByMembers(day.breaks, BreakStartKey);
      var last := sortedBreaks[|sortedBreaks| - 1];
      assert last in sortedBreaks;
    }
  }
}
