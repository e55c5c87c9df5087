/**
 * The doctor's agenda (src/app/doctor/agenda/page.tsx): the doctor's
 * appointments from now on, soonest first, grouped under a heading per
 * calendar day. The day heading is produced by the locale's date
 * formatter, which the model takes as a parameter `heading`. The badge
 * colours are the ones of `PatientAppointments.StatusColor`.
 */
module DoctorAgenda {
  import opened SeqUtil
  import opened Clinic

  /** The query: this doctor's appointments starting at or after `now`, ordered by start time. */
  function Loaded(table: seq<Appointment>, doctorId: string, now: int): (r: seq<Appointment>)
    ensures multiset(r) == multiset(Filter(table, (a: Appointment) => a.doctorId == doctorId && a.startTime >= now))
    ensures forall a :: a in r <==> a in table && a.doctorId == doctorId && a.startTime >= now
  {
    var own := Filter(table, (a: Appointment) => a.doctorId == doctorId && a.startTime >= now);
    SortByMembers(own, StartKey);
    SortBy(own, StartKey)
  }

  lemma LoadedAscending(table: seq<Appointment>, doctorId: string, now: int)
    ensures SortedBy(Loaded(table, doctorId, now), StartKey)
  {
    SortByIsSorted(Filter(table, (a: Appointment) => a.doctorId == doctorId && a.startTime >= now), StartKey);
  }

  /** The heading of every appointment, in list order. */
  function Labels(appointments: seq<Appointment>, heading: Appointment -> string): (r: seq<string>)
    ensures |r| == |appointments|
    ensures forall i :: 0 <= i < |r| ==> r[i] == heading(appointments[i])
  {
    seq(|appointments|, i requires 0 <= i < |appointments| => heading(appointments[i]))
  }

  /** The appointments listed under heading `day`. */
  function Group(appointments: seq<Appointment>, heading: Appointment -> string, day: string): (r: seq<Appointment>)
    ensures forall a :: a in r <==> a in appointments && heading(a) == day
  {
    Filter(appointments, (a: Appointment) => heading(a) == day)
  }

  /** A heading that no appointment has has no appointments under it. */
  lemma NoGroupWithoutHeading(appointments: seq<Appointment>, heading: Appointment -> string, day: string)
    requires day !in Labels(appointments, heading)
    ensures Group(appointments, heading, day) == []
  {
    forall k | 0 <= k < |appointments| ensures heading(appointments[k]) != day {
      assert Labels(appointments, heading)[k] == heading(appointments[k]);
    }
    FilterNone(appointments, (a: Appointment) => heading(a) == day);
  }

  /** The step of the `reduce`: appending appointment `i` to its own group extends every group correctly. */
  lemma GroupSnoc(appointments: seq<Appointment>, i: nat, heading: Appointment -> string, byDate: map<string, seq<Appointment>>)
    requires i < |appointments|
    requires forall d :: d in byDate && d != heading(appointments[i]) ==> byDate[d] == Group(appointments[..i], heading, d)
    requires heading(appointments[i]) in byDate
    requires byDate[heading(appointments[i])] == Group(appointments[..i], heading, heading(appointments[i])) + [appointments[i]]
    ensures forall d :: d in byDate ==> byDate[d] == Group(appointments[..i + 1], heading, d)
  {
    assert appointments[..i + 1] == appointments[..i] + [appointments[i]];
    forall d | d in byDate ensures byDate[d] == Group(appointments[..i + 1], heading, d) {
      FilterSnoc(appointments[..i], appointments[i], (a: Appointment) => heading(a) == d);
    }
  }

  /** One step of the `reduce`: the headings and groups after appointment `i`, from those before it. */
  lemma GroupByDateStep(appointments: seq<Appointment>, heading: Appointment -> string, i: nat,
                        days: seq<string>, byDate: map<string, seq<Appointment>>)
    requires i < |appointments|
    requires days == Distinct(Labels(appointments[..i], heading))
    requires forall d :: d in byDate <==> d in days
    requires forall d :: d in byDate ==> byDate[d] == Group(appointments[..i], heading, d)
    ensures var date := heading(appointments[i]);
      var days' := if date in byDate then days else days + [date];
      var byDate' := byDate[date := (if date in byDate then byDate[date] else []) + [appointments[i]]];
      && days' == Distinct(Labels(appointments[..i + 1], heading))
      && (forall d :: d in byDate' <==> d in days')
      && (forall d :: d in byDate' ==> byDate'[d] == Group(appointments[..i + 1], heading, d))
  {
    var date := heading(appointments[i]);
    var before := Labels(appointments[..i], heading);
    assert Labels(appointments[..i + 1], heading) == before + [date];
    DistinctSnoc(before, date);
    if date !in byDate {
      DistinctSpec(before);
      NoGroupWithoutHeading(appointments[..i], heading, date);
    }
    var byDate' := byDate[date := (if date in byDate then byDate[date] else []) + [appointments[i]]];
    GroupSnoc(appointments, i, heading, byDate');
  }

  /**
   * The `reduce` that builds `appointmentsByDate`. A JS object lists its
   * (non-numeric) keys in insertion order, which `days` records; the
   * headings are never numeric strings, so that is the order
   * `Object.entries` renders them in.
   */
  method GroupByDate(appointments: seq<Appointment>, heading: Appointment -> string)
    returns (days: seq<string>, byDate: map<string, seq<Appointment>>)
    ensures days == Distinct(Labels(appointments, heading))
    ensures forall d :: d in byDate <==> d in days
    ensures forall d :: d in byDate ==> byDate[d] == Group(appointments, heading, d)
  {
    days := [];
    byDate := map[];
    for i := 0 to |appointments|
      invariant days == Distinct(Labels(appointments[..i], heading))
      invariant forall d :: d in byDate <==> d in days
      invariant forall d :: d in byDate ==> byDate[d] == Group(appointments[..i], heading, d)
    {
      var apt := appointments[i];
      var date := heading(apt);
      GroupByDateStep(appointments, heading, i, days, byDate);
      if date !in byDate {
        byDate := byDate[date := []];
        days := days + [date];
      }
      byDate := byDate[date := byDate[date] + [apt]];
    }
    assert appointments[..|appointments|] == appointments;
  }

  /** Each appointment is listed under its own day heading and no other; every heading has appointments. */
  lemma GroupsPartition(appointments: seq<Appointment>, heading: Appointment -> string)
    ensures forall a, d :: a in appointments && d in Distinct(Labels(appointments, heading)) ==>
      (a in Group(appointments, heading, d) <==> d == heading(a))
    ensures forall a :: a in appointments ==> heading(a) in Distinct(Labels(appointments, heading))
    ensures forall d :: d in Distinct(Labels(appointments, heading)) ==> |Group(appointments, heading, d)| > 0
  {
    var labels := Labels(appointments, heading);
    DistinctSpec(labels);
    forall a | a in appointments ensures heading(a) in labels {
      var i :| 0 <= i < |appointments| && appointments[i] == a;
      assert labels[i] == heading(a);
    }
    forall d | d in Distinct(labels) ensures |Group(appointments, heading, d)| > 0 {
      var i :| 0 <= i < |labels| && labels[i] == d;
      assert appointments[i] in Group(appointments, heading, d);
    }
  }

  /** Within a heading the appointments keep the ascending order of the query. */
  lemma GroupAscending(appointments: seq<Appointment>, heading: Appointment -> string, day: string)
    requires SortedBy(appointments, StartKey)
    ensures SortedBy(Group(appointments, heading, day), StartKey)
  {
    FilterKeepsOrder(appointments, (a: Appointment) => heading(a) == day, StartKey);
  }

  /**
   * The headings come in order of first appearance: an appointment under a
   * later heading comes after some appointment under every earlier one.
   */
  lemma HeadingsInFirstAppearanceOrder(appointments: seq<Appointment>, heading: Appointment -> string)
    ensures var days := Distinct(Labels(appointments, heading));
      forall i, j, k :: 0 <= i < j < |days| && 0 <= k < |appointments| && heading(appointments[k]) == days[j] ==>
        days[i] in Labels(appointments[..k], heading)
  {
    var labels := Labels(appointments, heading);
    DistinctFirstAppearance(labels);
    forall k | 0 <= k < |appointments| ensures labels[..k] == Labels(appointments[..k], heading) {
    }
  }

  /** How many appointment cards the headings `days` show in total. */
  function CardCount(appointments: seq<Appointment>, heading: Appointment -> string, days: seq<string>): nat
    decreases |days|
  {
    if |days| == 0 then 0
    else CardCount(appointments, heading, days[..|days| - 1]) + |Group(appointments, heading, days[|days| - 1])|
  }

  /** One more appointment adds one card, under its own heading if that heading is shown. */
  lemma {:induction false} CardCountSnoc(appointments: seq<Appointment>, apt: Appointment, heading: Appointment -> string, days: seq<string>)
    requires forall i, j :: 0 <= i < j < |days| ==> days[i] != days[j]
    ensures CardCount(appointments + [apt], heading, days) == CardCount(appointments, heading, days) + (if heading(apt) in days then 1 else 0)
    decreases |days|
  {
    if |days| > 0 {
      var init := days[..|days| - 1];
      var last := days[|days| - 1];
      CardCountSnoc(appointments, apt, heading, init);
      FilterSnoc(appointments, apt, (a: Appointment) => heading(a) == last);
      assert days == init + [last];
    }
  }

  /** The agenda shows every loaded appointment exactly once: the cards under all headings add up to the list. */
  lemma {:induction false} EveryAppointmentShownOnce(appointments: seq<Appointment>, heading: Appointment -> string)
    ensures CardCount(appointments, heading, Distinct(Labels(appointments, heading))) == |appointments|
    decreases |appointments|
  {
    if |appointments| > 0 {
      var init, apt := appointments[..|appointments| - 1], appointments[|appointments| - 1];
      var h := heading(apt);
      var initLabels := Labels(init, heading);
      var days := Distinct(initLabels);
      assert appointments == init + [apt];
      EveryAppointmentShownOnce(init, heading);
      assert Distinct(Labels(appointments, heading)) == if h in days then days else days + [h] by {
        assert Labels(appointments, heading) == initLabels + [h];
        DistinctSnoc(initLabels, h);
      }
      assert CardCount(appointments, heading, days) == |init| + (if h in days then 1 else 0) by {
        DistinctSpec(initLabels);
        CardCountSnoc(init, apt, heading, days);
      }
      if h !in days {
        assert Group(appointments, heading, h) == [apt] by {
          DistinctSpec(initLabels);
          NoGroupWithoutHeading(init, heading, h);
          FilterSnoc(init, apt, (a: Appointment) => heading(a) == h);
        }
        assert (days + [h])[..|days|] == days;
      }
    }
  }
}
