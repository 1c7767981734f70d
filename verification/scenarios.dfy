/** Concrete scenarios of the store and the search engine, starting from an
    empty database, each proved about the model. */
module Scenarios {
  import opened Optional
  import opened Records
  import opened Tables
  import opened RecordStore
  import opened Matcher
  import opened SearchEngine

  const AnaHistory := History("Female", true, false, "Type 2", false, 31.5, false)
  const Ana := Patient(1, "Ana", "Popescu", 54, "")

  /** A store with one patient, Ana Popescu (54), and her history, lesion
      and vessel records, built through the forms' operations. */
  function AnaStore(): (s: Store)
    ensures s.patients == [Ana]
    ensures Join(s, Ana) ==
      Joined(Ana, Some(AnaHistory), Some(Lesion(true, false, false)), Some(Vessel(2, true, "OCT")), None)
  {
    var s1 := AddPatient(Empty, "Ana", "Popescu", 54, "").store;
    assert s1.patients[0].id == 1;
    var s2 := AddDetail(s1, 1, HistoryDetail(AnaHistory)).store;
    var s3 := AddDetail(s2, 1, LesionDetail(Lesion(true, false, false))).store;
    var s4 := AddDetail(s3, 1, VesselDetail(Vessel(2, true, "OCT"))).store;
    assert s4.histories == [Row(s4.histories[0].id, 1, AnaHistory)];
    assert s4.lesions == [Row(s4.lesions[0].id, 1, Lesion(true, false, false))];
    assert s4.vessels == [Row(s4.vessels[0].id, 1, Vessel(2, true, "OCT"))];
    assert s4.pcis == [];
    s4
  }

  /** Searching for women with at least two diseased vessels finds Ana. */
  lemma AnaIsFound()
    ensures Search(AnaStore(),
                   Unfiltered.(history := HistoryCriteria("Female", "", false, false, false),
                               vessel := VesselCriteria(false, "", 2)))
            == [Summary(1, "Ana", "Popescu", 54, "Female", "Type 2", Some(2), No)]
  {
    var s := AnaStore();
    var c := Unfiltered.(history := HistoryCriteria("Female", "", false, false, false),
                         vessel := VesselCriteria(false, "", 2));
    var j := Join(s, Ana);
    assert Matches(j, c);
    assert s.patients == [] + [Ana];
    KeepSnoc(s, [], Ana, c);
    assert Keep(s, s.patients, c) == [Ana];
    assert Summarize(j) == Summary(1, "Ana", "Popescu", 54, "Female", "Type 2", Some(2), No);
  }

  /** Searching for a circumflex lesion finds nobody: Ana's lesion is in the
      anterior descending artery only. */
  lemma NobodyHasCircumflexLesion()
    ensures Search(AnaStore(), Unfiltered.(lesion := LesionCriteria(false, true, false))) == []
  {
    var s := AnaStore();
    var c := Unfiltered.(lesion := LesionCriteria(false, true, false));
    assert !Matches(Join(s, Ana), c);
    assert s.patients == [] + [Ana];
    KeepSnoc(s, [], Ana, c);
  }

  /** Because deletion leaves detail rows behind and a new patient may get
      the key the deleted one had, a newly added patient can be joined to
      another patient's medical history. */
  lemma OrphanAdoption()
    ensures var s1 := AddPatient(Empty, "Ana", "Popescu", 54, "").store;
      var s2 := AddDetail(s1, 1, HistoryDetail(AnaHistory)).store;
      var s3 := DeletePatient(s2, 1).store;
      var r := AddPatient(s3, "Ion", "Ionescu", 60, "");
      && r.outcome == Done(1)
      && Join(r.store, Patient(1, "Ion", "Ionescu", 60, "")).history == Some(AnaHistory)
  {
    var s1 := AddPatient(Empty, "Ana", "Popescu", 54, "").store;
    var s2 := AddDetail(s1, 1, HistoryDetail(AnaHistory)).store;
    assert s2.histories[0].patientId == 1;
    var s3 := DeletePatient(s2, 1).store;
    assert s3.patients == [];
  }
}
