/**
 * The doctor's clinical-record editor for one patient
 * (src/components/ClinicalRecordsManager.tsx): the form, the check before
 * saving, the body it sends, and how the shown list changes after a
 * successful create, update or delete. Request outcomes are parameters.
 */
module ClinicalRecords {
  import opened Wrappers
  import opened SeqUtil

  // ---------------------------------------------------------------------
  // `String.prototype.trim`

  /** The characters `trim` removes: ECMAScript white space and line terminators. */
  predicate IsJsSpace(c: char) {
    c in {' ', '\t', '\n', '\r', '\U{000B}', '\U{000C}', '\U{00A0}', '\U{FEFF}', '\U{1680}',
          '\U{2028}', '\U{2029}', '\U{202F}', '\U{205F}', '\U{3000}'}
    || '\U{2000}' <= c <= '\U{200A}'
  }

  function TrimStart(s: string): string
    decreases |s|
  {
    if |s| > 0 && IsJsSpace(s[0]) then TrimStart(s[1..]) else s
  }

  function TrimEnd(s: string): string
    decreases |s|
  {
    if |s| > 0 && IsJsSpace(s[|s| - 1]) then TrimEnd(s[..|s| - 1]) else s
  }

  /** `trimStart` drops the leading white space and keeps the rest. */
  lemma {:induction false} TrimStartSpec(s: string)
    ensures |TrimStart(s)| <= |s| && TrimStart(s) == s[|s| - |TrimStart(s)|..]
    ensures forall i :: 0 <= i < |s| - |TrimStart(s)| ==> IsJsSpace(s[i])
    ensures TrimStart(s) != [] ==> !IsJsSpace(TrimStart(s)[0])
    decreases |s|
  {
    if |s| > 0 && IsJsSpace(s[0]) {
      TrimStartSpec(s[1..]);
    }
  }

  /** `trimEnd` drops the trailing white space and keeps the rest. */
  lemma {:induction false} TrimEndSpec(s: string)
    ensures |TrimEnd(s)| <= |s| && TrimEnd(s) == s[..|TrimEnd(s)|]
    ensures forall i :: |TrimEnd(s)| <= i < |s| ==> IsJsSpace(s[i])
    ensures TrimEnd(s) != [] ==> !IsJsSpace(TrimEnd(s)[|TrimEnd(s)| - 1])
    decreases |s|
  {
    if |s| > 0 && IsJsSpace(s[|s| - 1]) {
      TrimEndSpec(s[..|s| - 1]);
    }
  }

  function Trim(s: string): string {
    TrimEnd(TrimStart(s))
  }

  /**
   * `trim` cuts a run of white space from each end and nothing else: the
   * result is a slice of the input that neither starts nor ends with white
   * space, and it is empty exactly when the input is all white space.
   */
  lemma TrimSpec(s: string)
    ensures exists i, j :: (0 <= i <= j <= |s| && Trim(s) == s[i..j]
      && (forall k :: 0 <= k < i ==> IsJsSpace(s[k])) && (forall k :: j <= k < |s| ==> IsJsSpace(s[k])))
    ensures Trim(s) != [] ==> !IsJsSpace(Trim(s)[0]) && !IsJsSpace(Trim(s)[|Trim(s)| - 1])
    ensures Trim(s) == [] <==> forall k :: 0 <= k < |s| ==> IsJsSpace(s[k])
  {
    var t := TrimStart(s);
    TrimStartSpec(s);
    var i := |s| - |t|;
    var r := TrimEnd(t);
    TrimEndSpec(t);
    var j := i + |r|;
    assert r == s[i..j];
    forall k | j <= k < |s| ensures IsJsSpace(s[k]) {
      if k >= i {
        assert s[k] == t[k - i];
      }
    }
    if r != [] {
      assert r[0] == t[0];
    }
  }

  /** Trimming twice is trimming once. */
  lemma TrimIdempotent(s: string)
    ensures Trim(Trim(s)) == Trim(s)
  {
    var r := Trim(s);
    TrimSpec(s);
    if r != [] {
      assert TrimStart(r) == r;
      assert TrimEnd(r) == r;
    }
  }

  // ---------------------------------------------------------------------
  // Records and the request body

  datatype ClinicalRecord = ClinicalRecord(id: string, date: string, diagnosis: string, treatment: string,
                                           notes: Option<string>, appointmentId: Option<string>)

  /** The JSON body of a save; `None` is null. */
  datatype RecordBody = RecordBody(patientId: string, date: string, diagnosis: string, treatment: string,
                                   notes: Option<string>, appointmentId: Option<string>)

  const Required: string := "✗ Diagnóstico, tratamiento y fecha son requeridos"
  const SaveFailed: string := "✗ Error al guardar registro"
  const Updated: string := "✓ Registro actualizado"
  const Created: string := "✓ Registro creado"
  const Deleted: string := "✓ Registro eliminado"
  const DeleteFailed: string := "✗ Error al eliminar registro"

  /** `handleSave`'s guard: diagnosis and treatment not blank, and a date. */
  predicate CanSave(date: string, diagnosis: string, treatment: string) {
    Trim(diagnosis) != "" && Trim(treatment) != "" && date != ""
  }

  /** The body `handleSave` sends: text fields trimmed, blank notes and no appointment as null. */
  function BuildBody(patientId: string, date: string, diagnosis: string, treatment: string,
                     notes: string, appointmentId: string): (b: RecordBody)
    ensures b.patientId == patientId && b.date == date
    ensures b.diagnosis == Trim(diagnosis) && b.treatment == Trim(treatment)
    ensures b.notes.None? <==> Trim(notes) == ""
    ensures b.notes.Some? ==> b.notes.value == Trim(notes)
    ensures b.appointmentId.None? <==> appointmentId == ""
    ensures b.appointmentId.Some? ==> b.appointmentId.value == appointmentId
  {
    var n := Trim(notes);
    RecordBody(patientId, date, Trim(diagnosis), Trim(treatment),
               if n == "" then None else Some(n), if appointmentId == "" then None else Some(appointmentId))
  }

  /** A body built after the guard passed has non-blank diagnosis and treatment. */
  lemma GuardedBodyFilled(patientId: string, date: string, diagnosis: string, treatment: string,
                          notes: string, appointmentId: string)
    requires CanSave(date, diagnosis, treatment)
    ensures var b := BuildBody(patientId, date, diagnosis, treatment, notes, appointmentId);
      b.diagnosis != "" && b.treatment != "" && Trim(b.diagnosis) == b.diagnosis && Trim(b.treatment) == b.treatment
  {
    TrimIdempotent(diagnosis);
    TrimIdempotent(treatment);
  }

  // ---------------------------------------------------------------------
  // The shown list

  /** After an update: the saved record takes the place of every record with its id. */
  function ReplaceById(records: seq<ClinicalRecord>, saved: ClinicalRecord): (r: seq<ClinicalRecord>)
    ensures |r| == |records|
    ensures forall i :: 0 <= i < |r| ==> r[i] == (if records[i].id == saved.id then saved else records[i])
  {
    seq(|records|, i requires 0 <= i < |records| => if records[i].id == saved.id then saved else records[i])
  }

  /** After a create: the saved record first, then the list as it was. */
  function Prepend(records: seq<ClinicalRecord>, saved: ClinicalRecord): (r: seq<ClinicalRecord>)
    ensures |r| == |records| + 1 && r[0] == saved && r[1..] == records
  {
    [saved] + records
  }

  /** After a delete: the records with another id, in order. */
  function RemoveById(records: seq<ClinicalRecord>, id: string): (r: seq<ClinicalRecord>)
    ensures forall x :: x in r <==> x in records && x.id != id
  {
    Filter(records, (x: ClinicalRecord) => x.id != id)
  }

  /**
   * The delete keeps the order of the remaining records: it distributes over
   * concatenation, and keeps or drops a single record by its id.
   */
  lemma RemoveByIdOrder(a: seq<ClinicalRecord>, b: seq<ClinicalRecord>, x: ClinicalRecord, id: string)
    ensures RemoveById(a + b, id) == RemoveById(a, id) + RemoveById(b, id)
    ensures RemoveById([x], id) == (if x.id != id then [x] else [])
  {
    FilterConcat(a, b, (x: ClinicalRecord) => x.id != id);
    assert [x][1..] == [];
  }

  /** An update never changes which ids are shown, and the saved record is shown exactly when its id was. */
  lemma ReplaceKeepsIds(records: seq<ClinicalRecord>, saved: ClinicalRecord)
    ensures forall i :: 0 <= i < |records| ==> ReplaceById(records, saved)[i].id == records[i].id
    ensures saved in ReplaceById(records, saved) <==> exists i :: 0 <= i < |records| && records[i].id == saved.id
  {
    var r := ReplaceById(records, saved);
    if exists i :: 0 <= i < |records| && records[i].id == saved.id {
      var i :| 0 <= i < |records| && records[i].id == saved.id;
      assert r[i] == saved;
    }
  }

  /** Deleting removes exactly the records of that id: the rest, and their order, stay. */
  lemma {:induction false} RemoveByIdSpec(records: seq<ClinicalRecord>, id: string)
    ensures |RemoveById(records, id)| == |records| - Count(records, (x: ClinicalRecord) => x.id == id)
    ensures RemoveById(RemoveById(records, id), id) == RemoveById(records, id)
  {
    FilterPartition(records, (x: ClinicalRecord) => x.id != id, (x: ClinicalRecord) => x.id == id);
    FilterOfFilter(records, (x: ClinicalRecord) => x.id != id, (x: ClinicalRecord) => x.id != id);
  }

  // ---------------------------------------------------------------------
  // The component state

  /** What `handleSave` sends: a POST for a new record, a PUT for the record being edited. */
  datatype SaveRequest = Create(body: RecordBody) | Update(id: string, body: RecordBody)

  /** The save request's outcome: OK with the saved record, not OK, or a throw. */
  datatype SaveOutcome = Saved(record: ClinicalRecord) | NotSaved | SaveThrew

  /** A PUT to the edited record's id, or a POST. */
  function RequestFor(editing: Option<ClinicalRecord>, body: RecordBody): (r: SaveRequest)
    ensures r.body == body
    ensures r.Update? <==> editing.Some?
    ensures r.Update? ==> r.id == editing.value.id
  {
    if editing.Some? then Update(editing.value.id, body) else Create(body)
  }

  datatype DeleteOutcome = DeleteOk | DeleteNotOk | DeleteThrew

  class RecordsManager {
    const patientId: string
    var records: seq<ClinicalRecord>
    var showForm: bool
    var editingRecord: Option<ClinicalRecord>
    var saving: bool
    var message: string
    var date: string
    var diagnosis: string
    var treatment: string
    var notes: string
    var appointmentId: string

    constructor(patientId: string, initialRecords: seq<ClinicalRecord>)
      ensures this.patientId == patientId && records == initialRecords
      ensures !showForm && editingRecord.None? && !saving && message == ""
      ensures date == "" && diagnosis == "" && treatment == "" && notes == "" && appointmentId == ""
    {
      this.patientId := patientId;
      records := initialRecords;
      showForm := false;
      editingRecord := None;
      saving := false;
      message := "";
      date := "";
      diagnosis := "";
      treatment := "";
      notes := "";
      appointmentId := "";
    }

    /** `resetForm`: every field empty, nothing being edited, the form hidden. */
    method ResetForm()
      modifies this
      ensures date == "" && diagnosis == "" && treatment == "" && notes == "" && appointmentId == ""
      ensures editingRecord.None? && !showForm
      ensures records == old(records) && message == old(message) && saving == old(saving)
    {
      date := "";
      diagnosis := "";
      treatment := "";
      notes := "";
      appointmentId := "";
      editingRecord := None;
      showForm := false;
    }

    /** `openAddForm`: an empty form dated `today` (the ISO date of the request). */
    method OpenAddForm(today: string)
      modifies this
      ensures date == today && diagnosis == "" && treatment == "" && notes == "" && appointmentId == ""
      ensures editingRecord.None? && showForm
      ensures records == old(records) && message == old(message)
    {
      ResetForm();
      date := today;
      showForm := true;
    }

    /**
     * `openEditForm`: the record's fields, with null notes and a null
     * appointment shown as empty text. `isoDate` is the record's date as
     * `toISOString().split('T')[0]` prints it.
     */
    method OpenEditForm(record: ClinicalRecord, isoDate: string)
      modifies this
      ensures editingRecord == Some(record) && showForm
      ensures date == isoDate && diagnosis == record.diagnosis && treatment == record.treatment
      ensures notes == record.notes.GetOr("") && appointmentId == record.appointmentId.GetOr("")
      ensures records == old(records) && message == old(message)
    {
      editingRecord := Some(record);
      date := isoDate;
      diagnosis := record.diagnosis;
      treatment := record.treatment;
      notes := record.notes.GetOr("");
      appointmentId := record.appointmentId.GetOr("");
      showForm := true;
    }

    /** The success branch of `handleSave`: the saved record goes into the list and the form is reset. */
    method StoreSaved(editing: Option<ClinicalRecord>, saved: ClinicalRecord)
      modifies this
      ensures records == (if editing.Some? then ReplaceById(old(records), saved) else Prepend(old(records), saved))
      ensures message == (if editing.Some? then Updated else Created)
      ensures editingRecord.None? && !showForm && date == "" && diagnosis == "" && treatment == "" && notes == ""
      ensures saving == old(saving)
    {
      if editing.Some? {
        records := ReplaceById(records, saved);
      } else {
        records := Prepend(records, saved);
      }
      ResetForm();
      message := if editing.Some? then Updated else Created;
    }

    /**
     * `handleSave`: refuses a blank form without a request; otherwise sends
     * the body (a PUT when editing, a POST otherwise) and on success puts the
     * saved record in the list and resets the form.
     */
    method HandleSave(outcome: SaveOutcome) returns (request: Option<SaveRequest>)
      modifies this
      ensures !CanSave(old(date), old(diagnosis), old(treatment)) ==>
        request.None? && message == Required && records == old(records) && editingRecord == old(editingRecord)
      ensures CanSave(old(date), old(diagnosis), old(treatment)) ==>
        request == Some(RequestFor(old(editingRecord), BuildBody(patientId, old(date), old(diagnosis), old(treatment), old(notes), old(appointmentId))))
        && !saving
      ensures outcome.Saved? && request.Some? ==>
        && records == (if old(editingRecord).Some? then ReplaceById(old(records), outcome.record) else Prepend(old(records), outcome.record))
        && message == (if old(editingRecord).Some? then Updated else Created)
        && editingRecord.None? && !showForm && date == "" && diagnosis == ""
      ensures !outcome.Saved? && request.Some? ==>
        records == old(records) && message == SaveFailed && editingRecord == old(editingRecord)
    {
      if !CanSave(date, diagnosis, treatment) {
        message := Required;
        return None;
      }
      saving := true;
      message := "";
      var body := BuildBody(patientId, date, diagnosis, treatment, notes, appointmentId);
      var editing := editingRecord;
      request := Some(RequestFor(editing, body));
      if outcome.Saved? {
        StoreSaved(editing, outcome.record);
      } else {
        message := SaveFailed;
      }
      saving := false;
    }

    /**
     * `handleDelete`: nothing unless confirmed; on an OK response the
     * records with that id leave the list.
     */
    method HandleDelete(id: string, confirmed: bool, outcome: DeleteOutcome) returns (requested: bool)
      modifies this
      ensures requested == confirmed
      ensures confirmed && outcome.DeleteOk? ==> records == RemoveById(old(records), id) && message == Deleted
      ensures confirmed && outcome.DeleteThrew? ==> records == old(records) && message == DeleteFailed
      ensures !(confirmed && outcome != DeleteNotOk && outcome != DeleteThrew) ==> records == old(records)
      ensures !confirmed || outcome.DeleteNotOk? ==> message == old(message)
    {
      if !confirmed {
        return false;
      }
      requested := true;
      match outcome {
        case DeleteOk =>
          records := RemoveById(records, id);
          message := Deleted;
        case DeleteNotOk =>
        case DeleteThrew =>
          message := DeleteFailed;
      }
    }
  }
}
