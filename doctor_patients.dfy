/**
 * The doctor's patient list (src/app/doctor/pacientes/page.tsx): one entry
 * per patient, in order of the patient's first appointment with the doctor,
 * with the number of the patient's appointments with this doctor and the
 * latest of them. `table` is the appointment table the query reads.
 */
module DoctorPatients {
  import opened Wrappers
  import opened SeqUtil
  import opened Clinic

  datatype PatientEntry = PatientEntry(patientId: string, appointmentCount: nat, lastAppointment: Option<Appointment>)

  /** The patient's appointments with this doctor, as the nested query returns them. */
  function OwnAppointments(table: seq<Appointment>, doctorId: string, patientId: string): (r: seq<Appointment>)
    ensures forall a :: a in r <==> a in table && a.doctorId == doctorId && a.patientId == patientId
  {
    Filter(table, (a: Appointment) => a.doctorId == doctorId && a.patientId == patientId)
  }

  /**
   * `[0]` of the newest-first sort: an appointment with the greatest start,
   * the first such one in query order; `None` (undefined) for no
   * appointments.
   */
  function Latest(s: seq<Appointment>): (r: Option<Appointment>)
    ensures r.None? <==> |s| == 0
    ensures r.Some? ==> r.value in s && forall i :: 0 <= i < |s| ==> s[i].startTime <= r.value.startTime
    ensures r.Some? ==>
      exists k :: 0 <= k < |s| && s[k] == r.value && forall j :: 0 <= j < k ==> s[j].startTime < r.value.startTime
    decreases |s|
  {
    if |s| == 0 then None
    else
      var rest := Latest(s[1..]);
      assert forall i :: 1 <= i < |s| ==> s[i] == s[1..][i - 1];
      if rest.None? || s[0].startTime >= rest.value.startTime then Some(s[0])
      else
        assert exists k :: 0 <= k < |s| && s[k] == rest.value && forall j :: 0 <= j < k ==> s[j].startTime < rest.value.startTime by {
          var k :| 0 <= k < |s[1..]| && s[1..][k] == rest.value && forall j :: 0 <= j < k ==> s[1..][j].startTime < rest.value.startTime;
          assert s[k + 1] == rest.value;
          assert forall j :: 0 <= j < k + 1 ==> s[j].startTime < rest.value.startTime;
        }
        rest
  }

  function EntryFor(table: seq<Appointment>, doctorId: string, patientId: string): PatientEntry {
    var own := OwnAppointments(table, doctorId, patientId);
    PatientEntry(patientId, |own|, Latest(own))
  }

  /** The entries for a list of patient ids, in that order. */
  function EntriesFor(table: seq<Appointment>, doctorId: string, ids: seq<string>): (r: seq<PatientEntry>)
    ensures |r| == |ids|
    ensures forall i :: 0 <= i < |ids| ==> r[i] == EntryFor(table, doctorId, ids[i])
  {
    seq(|ids|, i requires 0 <= i < |ids| => EntryFor(table, doctorId, ids[i]))
  }

  /** Listing one more patient appends that patient's entry. */
  lemma EntriesSnoc(table: seq<Appointment>, doctorId: string, ids: seq<string>, p: string)
    ensures EntriesFor(table, doctorId, ids + [p]) == EntriesFor(table, doctorId, ids) + [EntryFor(table, doctorId, p)]
  {
  }

  /** The `forEach` that fills `patientsMap`, and `Array.from(patientsMap.values())`. */
  method Patients(table: seq<Appointment>, doctorId: string, appointments: seq<Appointment>) returns (patients: seq<PatientEntry>)
    ensures patients == EntriesFor(table, doctorId, Distinct(PatientIds(appointments)))
  {
    var seen: set<string> := {};
    ghost var keys: seq<string> := [];
    patients := [];
    for i := 0 to |appointments|
      invariant keys == Distinct(PatientIds(appointments[..i]))
      invariant forall k :: k in seen <==> k in keys
      invariant patients == EntriesFor(table, doctorId, keys)
    {
      var patientId := appointments[i].patientId;
      assert PatientIds(appointments[..i + 1]) == PatientIds(appointments[..i]) + [patientId];
      DistinctSnoc(PatientIds(appointments[..i]), patientId);
      if patientId !in seen {
        EntriesSnoc(table, doctorId, keys, patientId);
        seen := seen + {patientId};
        keys := keys + [patientId];
        patients := patients + [EntryFor(table, doctorId, patientId)];
      }
    }
    assert appointments[..|appointments|] == appointments;
  }

  predicate Listed(entries: seq<PatientEntry>, patientId: string) {
    exists i :: 0 <= i < |entries| && entries[i].patientId == patientId
  }

  predicate HasPatient(appointments: seq<Appointment>, patientId: string) {
    exists a :: a in appointments && a.patientId == patientId
  }

  /**
   * One entry per distinct patient of the doctor's appointments, each
   * patient once, never more entries than appointments; each entry counts
   * the patient's appointments with this doctor and holds a latest one.
   */
  lemma PatientsSpec(table: seq<Appointment>, doctorId: string, appointments: seq<Appointment>)
    ensures var entries := EntriesFor(table, doctorId, Distinct(PatientIds(appointments)));
      && |entries| <= |appointments|
      && (forall p :: Listed(entries, p) <==> HasPatient(appointments, p))
      && (forall i, j :: 0 <= i < j < |entries| ==> entries[i].patientId != entries[j].patientId)
      && (forall i :: 0 <= i < |entries| ==>
            entries[i].appointmentCount == Count(table, (a: Appointment) => a.doctorId == doctorId && a.patientId == entries[i].patientId))
  {
    var ids := PatientIds(appointments);
    DistinctSpec(ids);
    var keys := Distinct(ids);
    var entries := EntriesFor(table, doctorId, keys);
    forall p ensures Listed(entries, p) <==> HasPatient(appointments, p) {
      if exists a :: a in appointments && a.patientId == p {
        var a :| a in appointments && a.patientId == p;
        var k :| 0 <= k < |appointments| && appointments[k] == a;
        assert ids[k] == p;
        assert p in keys;
        var i :| 0 <= i < |keys| && keys[i] == p;
        assert entries[i].patientId == p;
      }
      if exists i :: 0 <= i < |entries| && entries[i].patientId == p {
        var i :| 0 <= i < |entries| && entries[i].patientId == p;
        assert keys[i] in ids;
        var k :| 0 <= k < |ids| && ids[k] == keys[i];
        assert appointments[k] in appointments;
      }
    }
  }
}
