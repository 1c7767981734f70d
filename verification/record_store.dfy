/** The record store: five tables in insertion order and the guarded writes
    the data-entry forms perform on them. Each write is a pure function from
    the store before to the store after, together with the outcome the form
    reports. */
module RecordStore {
  import opened Optional
  import opened Records
  import opened Tables

  datatype Store = Store(
    patients: seq<Patient>,
    histories: seq<Row<History>>,
    lesions: seq<Row<Lesion>>,
    vessels: seq<Row<Vessel>>,
    pcis: seq<Row<Pci>>)

  /** The freshly created database. */
  const Empty := Store([], [], [], [], [])

  /** Why a write was refused: the warning of the patient form, or the
      "patient not found" error of the detail forms and of deletion. */
  datatype Error = MissingName | PatientNotFound

  /** What a write reports: success with the key it concerned, or an error. */
  datatype Outcome = Done(id: int) | Failed(error: Error)

  /** The store after a write, and the write's outcome. */
  datatype Step = Step(store: Store, outcome: Outcome)

  predicate UniquePatientIds(ps: seq<Patient>) {
    forall i, j :: 0 <= i < j < |ps| ==> ps[i].id != ps[j].id
  }

  /** Every table's generated keys are distinct, as primary keys are. */
  predicate WellFormed(s: Store) {
    && UniquePatientIds(s.patients)
    && UniqueIds(s.histories)
    && UniqueIds(s.lesions)
    && UniqueIds(s.vessels)
    && UniqueIds(s.pcis)
  }

  /** A patient with key `pid` is stored. */
  predicate Registered(s: Store, pid: int) {
    exists i :: 0 <= i < |s.patients| && s.patients[i].id == pid
  }

  /** Detail row `x` was appended to table `t` under a key `t` does not use. */
  predicate AppendedTo<T(==)>(t: seq<Row<T>>, t': seq<Row<T>>, x: Row<T>) {
    t' == t + [x] && forall i :: 0 <= i < |t| ==> t[i].id != x.id
  }

  /** The key a new patient receives: one past the largest key in use. */
  function NextPatientId(s: Store): (id: int)
    ensures id > 0 && !Registered(s, id)
  {
    MaxKey(s.patients, PatientKey) + 1
  }

  /** The patient lookup by key that guards the detail forms and deletion. */
  function FindPatient(s: Store, pid: int): (r: Option<Patient>)
    ensures r.None? <==> !Registered(s, pid)
    ensures r.Some? ==> r.value.id == pid && r.value in s.patients
  {
    match IndexOf(s.patients, PatientKey, pid)
    case None => None
    case Some(i) => Some(s.patients[i])
  }

  /** The "add patient" form. Both names must be non-empty; then one patient
      row with the submitted fields is appended under a fresh key and no
      other table changes. Otherwise nothing is written. */
  function AddPatient(s: Store, firstName: string, lastName: string, age: int,
                      medicalHistory: string): (r: Step)
    ensures firstName == "" || lastName == "" ==> r == Step(s, Failed(MissingName))
    ensures firstName != "" && lastName != "" ==>
      && r.outcome.Done?
      && !Registered(s, r.outcome.id)
      && r.store == s.(patients := s.patients +
                       [Patient(r.outcome.id, firstName, lastName, age, medicalHistory)])
    ensures WellFormed(s) ==> WellFormed(r.store)
  {
    if firstName != "" && lastName != "" then
      var id := NextPatientId(s);
      Step(s.(patients := s.patients + [Patient(id, firstName, lastName, age, medicalHistory)]),
           Done(id))
    else
      Step(s, Failed(MissingName))
  }

  /** The four "add detail" forms. The patient must exist; then exactly one
      row is appended to the table of the detail's kind under a key fresh in
      that table, with no check against rows the patient already has, and
      every other table is left as it was. Otherwise nothing is written. */
  function AddDetail(s: Store, pid: int, d: Detail): (r: Step)
    ensures !Registered(s, pid) ==> r == Step(s, Failed(PatientNotFound))
    ensures Registered(s, pid) ==> r.outcome.Done? && r.store.patients == s.patients
    ensures Registered(s, pid) ==>
      if d.HistoryDetail?
      then AppendedTo(s.histories, r.store.histories, Row(r.outcome.id, pid, d.history))
      else r.store.histories == s.histories
    ensures Registered(s, pid) ==>
      if d.LesionDetail?
      then AppendedTo(s.lesions, r.store.lesions, Row(r.outcome.id, pid, d.lesion))
      else r.store.lesions == s.lesions
    ensures Registered(s, pid) ==>
      if d.VesselDetail?
      then AppendedTo(s.vessels, r.store.vessels, Row(r.outcome.id, pid, d.vessel))
      else r.store.vessels == s.vessels
    ensures Registered(s, pid) ==>
      if d.PciDetail?
      then AppendedTo(s.pcis, r.store.pcis, Row(r.outcome.id, pid, d.pci))
      else r.store.pcis == s.pcis
    ensures WellFormed(s) ==> WellFormed(r.store)
  {
    if FindPatient(s, pid).None? then
      Step(s, Failed(PatientNotFound))
    else
      match d
      case HistoryDetail(h) =>
        var t := Insert(s.histories, pid, h);
        Step(s.(histories := t), Done(t[|s.histories|].id))
      case LesionDetail(l) =>
        var t := Insert(s.lesions, pid, l);
        Step(s.(lesions := t), Done(t[|s.lesions|].id))
      case VesselDetail(v) =>
        var t := Insert(s.vessels, pid, v);
        Step(s.(vessels := t), Done(t[|s.vessels|].id))
      case PciDetail(p) =>
        var t := Insert(s.pcis, pid, p);
        Step(s.(pcis := t), Done(t[|s.pcis|].id))
  }

  /** The "delete patient" form. An existing patient's row is removed, the
      rest of the patient table keeps its order, and the detail tables are
      not touched: rows that referred to the patient stay behind. A missing
      key writes nothing. */
  function DeletePatient(s: Store, pid: int): (r: Step)
    ensures !Registered(s, pid) ==> r == Step(s, Failed(PatientNotFound))
    ensures Registered(s, pid) ==>
      && r.outcome == Done(pid)
      && |r.store.patients| == |s.patients| - 1
      && exists i :: 0 <= i < |s.patients| && s.patients[i].id == pid &&
                     r.store.patients == s.patients[..i] + s.patients[i + 1..]
    ensures r.store.histories == s.histories && r.store.lesions == s.lesions
    ensures r.store.vessels == s.vessels && r.store.pcis == s.pcis
    ensures WellFormed(s) ==> WellFormed(r.store) && !Registered(r.store, pid)
    ensures WellFormed(s) ==> forall q :: q in s.patients && q.id != pid ==> q in r.store.patients
    ensures forall q :: q in r.store.patients ==> q in s.patients
  {
    match IndexOf(s.patients, PatientKey, pid)
    case None => Step(s, Failed(PatientNotFound))
    case Some(i) =>
      var ps := s.patients[..i] + s.patients[i + 1..];
      assert forall k :: 0 <= k < |ps| ==> ps[k] == s.patients[if k < i then k else k + 1];
      Step(s.(patients := ps), Done(pid))
  }

  /** Creating a patient and then looking its key up returns the submitted
      fields unchanged. */
  lemma AddThenFind(s: Store, firstName: string, lastName: string, age: int,
                    medicalHistory: string)
    requires firstName != "" && lastName != ""
    ensures var r := AddPatient(s, firstName, lastName, age, medicalHistory);
      FindPatient(r.store, r.outcome.id) ==
        Some(Patient(r.outcome.id, firstName, lastName, age, medicalHistory))
  {
    var r := AddPatient(s, firstName, lastName, age, medicalHistory);
    IndexOfAppend(s.patients, PatientKey,
      Patient(r.outcome.id, firstName, lastName, age, medicalHistory), r.outcome.id);
  }

  /** Adding a detail row never changes what an earlier lookup answered, for
      any patient and any kind: the first row stays the first, so a second
      record of the same kind for a patient is stored but never read. */
  lemma AddDetailKeepsEarlierLookups(s: Store, pid: int, d: Detail, q: int)
    ensures var s' := AddDetail(s, pid, d).store;
      && (FirstFor(s.histories, q).Some? ==> FirstFor(s'.histories, q) == FirstFor(s.histories, q))
      && (FirstFor(s.lesions, q).Some? ==> FirstFor(s'.lesions, q) == FirstFor(s.lesions, q))
      && (FirstFor(s.vessels, q).Some? ==> FirstFor(s'.vessels, q) == FirstFor(s.vessels, q))
      && (FirstFor(s.pcis, q).Some? ==> FirstFor(s'.pcis, q) == FirstFor(s.pcis, q))
  {
    var r := AddDetail(s, pid, d);
    if Registered(s, pid) {
      match d
      case HistoryDetail(h) => FirstForAppend(s.histories, Row(r.outcome.id, pid, h), q);
      case LesionDetail(l) => FirstForAppend(s.lesions, Row(r.outcome.id, pid, l), q);
      case VesselDetail(v) => FirstForAppend(s.vessels, Row(r.outcome.id, pid, v), q);
      case PciDetail(p) => FirstForAppend(s.pcis, Row(r.outcome.id, pid, p), q);
    }
  }

  /** Deleting a patient with detail rows leaves orphans: the patient is gone
      but every per-kind lookup by its key answers as before. */
  lemma DeleteLeavesOrphans(s: Store, pid: int)
    requires WellFormed(s) && Registered(s, pid)
    ensures var s' := DeletePatient(s, pid).store;
      && !Registered(s', pid)
      && FirstFor(s'.histories, pid) == FirstFor(s.histories, pid)
      && FirstFor(s'.lesions, pid) == FirstFor(s.lesions, pid)
      && FirstFor(s'.vessels, pid) == FirstFor(s.vessels, pid)
      && FirstFor(s'.pcis, pid) == FirstFor(s.pcis, pid)
  {
  }
}
