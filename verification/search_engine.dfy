/** The search engine and the full listing: a scan of the patient table in
    order, joining every patient to the first row of each detail kind. */
module SearchEngine {
  import opened Optional
  import opened Records
  import opened Tables
  import opened RecordStore
  import opened Matcher

  /** A yes/no cell of a result table, displayed as "ΝΑΙ" or "ΟΧΙ". */
  datatype Mark = Yes | No

  /** The cell for a condition. */
  function YesIf(b: bool): (m: Mark)
    ensures m == Yes <==> b
  {
    if b then Yes else No
  }

  /** One line of the search results. A text cell of an absent record is
      empty; an absent vessel count is `None`, displayed as an empty cell. */
  datatype Summary = Summary(
    id: int,
    firstName: string,
    lastName: string,
    age: int,
    gender: string,
    diabetes: string,
    numVessels: Option<int>,
    balloon: Mark)

  /** One line of the full listing, with every field of every detail kind. */
  datatype FullRow = FullRow(
    id: int,
    firstName: string,
    lastName: string,
    age: int,
    medicalHistory: string,
    gender: string,
    hypertension: Mark,
    smoking: Mark,
    diabetes: string,
    hereditary: Mark,
    atrialFibrillation: Mark,
    bmi: Option<real>,
    lad: Mark,
    lcx: Mark,
    rca: Mark,
    numVessels: Option<int>,
    angioplasty: Mark,
    imaging: string,
    balloon: Mark,
    ivl: Mark,
    rota: Mark)

  function Fields<T>(r: Option<Row<T>>): Option<T> {
    match r
    case None => None
    case Some(x) => Some(x.fields)
  }

  /** Patient `p` with the first row of each detail kind stored under its key. */
  function Join(s: Store, p: Patient): Joined {
    Joined(p,
           Fields(FirstFor(s.histories, p.id)),
           Fields(FirstFor(s.lesions, p.id)),
           Fields(FirstFor(s.vessels, p.id)),
           Fields(FirstFor(s.pcis, p.id)))
  }

  /** The search-result projection of a joined record. */
  function Summarize(j: Joined): (r: Summary)
    ensures r.id == j.patient.id && r.firstName == j.patient.firstName
    ensures r.lastName == j.patient.lastName && r.age == j.patient.age
    ensures j.history.None? ==> r.gender == "" && r.diabetes == ""
    ensures j.history.Some? ==> r.gender == j.history.value.gender && r.diabetes == j.history.value.diabetes
    ensures r.numVessels.Some? <==> j.vessel.Some?
    ensures j.vessel.Some? ==> r.numVessels.value == j.vessel.value.numVessels
    ensures r.balloon == Yes <==> j.pci.Some? && j.pci.value.balloon
  {
    Summary(
      j.patient.id, j.patient.firstName, j.patient.lastName, j.patient.age,
      if j.history.Some? then j.history.value.gender else "",
      if j.history.Some? then j.history.value.diabetes else "",
      if j.vessel.Some? then Some(j.vessel.value.numVessels) else None,
      YesIf(j.pci.Some? && j.pci.value.balloon))
  }

  /** The full-listing projection of a joined record. */
  function Expand(j: Joined): FullRow
  {
    var h, l, v, c := j.history, j.lesion, j.vessel, j.pci;
    FullRow(
      j.patient.id, j.patient.firstName, j.patient.lastName, j.patient.age,
      j.patient.medicalHistory,
      if h.Some? then h.value.gender else "",
      YesIf(h.Some? && h.value.hypertension),
      YesIf(h.Some? && h.value.smoking),
      if h.Some? then h.value.diabetes else "",
      YesIf(h.Some? && h.value.hereditary),
      YesIf(h.Some? && h.value.atrialFibrillation),
      if h.Some? then Some(h.value.bmi) else None,
      YesIf(l.Some? && l.value.lad),
      YesIf(l.Some? && l.value.lcx),
      YesIf(l.Some? && l.value.rca),
      if v.Some? then Some(v.value.numVessels) else None,
      YesIf(v.Some? && v.value.angioplasty),
      if v.Some? then v.value.imaging else "",
      YesIf(c.Some? && c.value.balloon),
      YesIf(c.Some? && c.value.ivl),
      YesIf(c.Some? && c.value.rota))
  }

  /** A full-listing row carries the patient's own fields; each cell read
      from an absent detail record is empty or "no", and a present record
      contributes its values. */
  lemma ExpandRendersRecords(j: Joined)
    ensures var r := Expand(j);
      && r.id == j.patient.id && r.firstName == j.patient.firstName
      && r.lastName == j.patient.lastName && r.age == j.patient.age
      && r.medicalHistory == j.patient.medicalHistory
    ensures var r := Expand(j);
      && (j.history.None? ==>
            && r.gender == "" && r.diabetes == "" && r.bmi.None?
            && r.hypertension == No && r.smoking == No && r.hereditary == No
            && r.atrialFibrillation == No)
      && (j.history.Some? ==>
            && r.gender == j.history.value.gender && r.diabetes == j.history.value.diabetes
            && r.bmi == Some(j.history.value.bmi)
            && (r.hypertension == Yes <==> j.history.value.hypertension)
            && (r.smoking == Yes <==> j.history.value.smoking)
            && (r.hereditary == Yes <==> j.history.value.hereditary)
            && (r.atrialFibrillation == Yes <==> j.history.value.atrialFibrillation))
    ensures var r := Expand(j);
      && (r.lad == Yes <==> j.lesion.Some? && j.lesion.value.lad)
      && (r.lcx == Yes <==> j.lesion.Some? && j.lesion.value.lcx)
      && (r.rca == Yes <==> j.lesion.Some? && j.lesion.value.rca)
    ensures var r := Expand(j);
      && (j.vessel.None? ==> r.numVessels.None? && r.angioplasty == No && r.imaging == "")
      && (j.vessel.Some? ==>
            && r.numVessels == Some(j.vessel.value.numVessels)
            && (r.angioplasty == Yes <==> j.vessel.value.angioplasty)
            && r.imaging == j.vessel.value.imaging)
    ensures var r := Expand(j);
      && (r.balloon == Yes <==> j.pci.Some? && j.pci.value.balloon)
      && (r.ivl == Yes <==> j.pci.Some? && j.pci.value.ivl)
      && (r.rota == Yes <==> j.pci.Some? && j.pci.value.rota)
  {
  }

  /** `a` is `b` with some elements left out, the rest in the same order. */
  predicate IsSubseq<T(==)>(a: seq<T>, b: seq<T>)
    decreases |b|
  {
    if |a| == 0 then true
    else if |b| == 0 then false
    else (a[|a| - 1] == b[|b| - 1] && IsSubseq(a[..|a| - 1], b[..|b| - 1]))
         || IsSubseq(a, b[..|b| - 1])
  }

  /** The patients of `ps` that match `c`, in their original order. */
  function Keep(s: Store, ps: seq<Patient>, c: Criteria): (r: seq<Patient>)
    ensures |r| <= |ps|
    ensures IsSubseq(r, ps)
    ensures forall p :: p in r <==> p in ps && Matches(Join(s, p), c)
    ensures UniquePatientIds(ps) ==> UniquePatientIds(r)
  {
    if |ps| == 0 then []
    else
      var r := Keep(s, ps[..|ps| - 1], c);
      KeepGrowsInOrder(ps, r, Matches(Join(s, ps[|ps| - 1]), c));
      KeepGrowsMembers(s, ps, c, r);
      if Matches(Join(s, ps[|ps| - 1]), c) then r + [ps[|ps| - 1]] else r
  }

  /** The filter's step, order part: keeping or dropping the last patient
      after a subsequence of the others gives a subsequence of all. */
  lemma KeepGrowsInOrder(ps: seq<Patient>, r: seq<Patient>, take: bool)
    requires |ps| > 0
    requires |r| <= |ps| - 1 && IsSubseq(r, ps[..|ps| - 1])
    ensures var r' := if take then r + [ps[|ps| - 1]] else r;
      |r'| <= |ps| && IsSubseq(r', ps)
  {
    if take {
      assert (r + [ps[|ps| - 1]])[..|r|] == r;
    }
  }

  /** The filter's step, membership part: keeping the last patient exactly
      when it matches keeps exactly the matching patients, without repeating
      a key. */
  lemma KeepGrowsMembers(s: Store, ps: seq<Patient>, c: Criteria, r: seq<Patient>)
    requires |ps| > 0
    requires forall p :: p in r <==> p in ps[..|ps| - 1] && Matches(Join(s, p), c)
    requires UniquePatientIds(ps[..|ps| - 1]) ==> UniquePatientIds(r)
    ensures var r' := if Matches(Join(s, ps[|ps| - 1]), c) then r + [ps[|ps| - 1]] else r;
      && (forall p :: p in r' <==> p in ps && Matches(Join(s, p), c))
      && (UniquePatientIds(ps) ==> UniquePatientIds(r'))
  {
    var init, last := ps[..|ps| - 1], ps[|ps| - 1];
    assert ps == init + [last];
    if Matches(Join(s, last), c) && UniquePatientIds(ps) {
      KeptStaysUnique(init, r, last);
    }
  }

  /** Keeping a patient whose key is unused by the earlier patients keeps the
      kept keys distinct. */
  lemma KeptStaysUnique(init: seq<Patient>, r: seq<Patient>, last: Patient)
    requires UniquePatientIds(init + [last]) && UniquePatientIds(r)
    requires forall q :: q in r ==> q in init
    ensures UniquePatientIds(r + [last])
  {
    forall q | q in r
      ensures q.id != last.id
    {
      var k :| 0 <= k < |init| && init[k] == q;
      assert (init + [last])[k] == q && (init + [last])[|init|] == last;
    }
    forall i, j | 0 <= i < j < |r| + 1
      ensures (r + [last])[i].id != (r + [last])[j].id
    {
      if j == |r| {
        assert r[i] in r;
      }
    }
  }

  /** One summary per patient of `ps`, in the same order. */
  function Summaries(s: Store, ps: seq<Patient>): (r: seq<Summary>)
    ensures |r| == |ps|
    ensures forall i :: 0 <= i < |ps| ==> r[i] == Summarize(Join(s, ps[i]))
  {
    if |ps| == 0 then []
    else Summaries(s, ps[..|ps| - 1]) + [Summarize(Join(s, ps[|ps| - 1]))]
  }

  /** The search results for `c`: a summary of every matching patient, in
      patient-table order. */
  function Search(s: Store, c: Criteria): seq<Summary> {
    Summaries(s, Keep(s, s.patients, c))
  }

  /** One full-listing row per patient of `ps`, in the same order. */
  function Rows(s: Store, ps: seq<Patient>): (r: seq<FullRow>)
    ensures |r| == |ps|
    ensures forall i :: 0 <= i < |ps| ==> r[i] == Expand(Join(s, ps[i]))
  {
    if |ps| == 0 then []
    else Rows(s, ps[..|ps| - 1]) + [Expand(Join(s, ps[|ps| - 1]))]
  }

  /** The full listing: every patient, in patient-table order. */
  function FullDump(s: Store): seq<FullRow> {
    Rows(s, s.patients)
  }

  /** The history part of the search loop's test: clears the flag for
      every provided history slot that fails. */
  method CheckHistory(ok0: bool, h: Option<History>, hc: HistoryCriteria) returns (ok: bool)
    ensures ok == (ok0 && HistoryOk(h, hc))
  {
    ok := ok0;
    if hc.gender != "" && (h.None? || h.value.gender != hc.gender) { ok := false; }
    if hc.diabetes != "" && (h.None? || h.value.diabetes != hc.diabetes) { ok := false; }
    if hc.hypertension && (h.None? || !h.value.hypertension) { ok := false; }
    if hc.smoking && (h.None? || !h.value.smoking) { ok := false; }
    if hc.atrialFibrillation && (h.None? || !h.value.atrialFibrillation) { ok := false; }
  }

  /** The lesion part of the search loop's test. */
  method CheckLesion(ok0: bool, l: Option<Lesion>, lc: LesionCriteria) returns (ok: bool)
    ensures ok == (ok0 && LesionOk(l, lc))
  {
    ok := ok0;
    if lc.lad && (l.None? || !l.value.lad) { ok := false; }
    if lc.lcx && (l.None? || !l.value.lcx) { ok := false; }
    if lc.rca && (l.None? || !l.value.rca) { ok := false; }
  }

  /** The PCI part of the search loop's test. */
  method CheckPci(ok0: bool, p: Option<Pci>, pc: PciCriteria) returns (ok: bool)
    ensures ok == (ok0 && PciOk(p, pc))
  {
    ok := ok0;
    if pc.balloon && (p.None? || !p.value.balloon) { ok := false; }
    if pc.ivl && (p.None? || !p.value.ivl) { ok := false; }
    if pc.rota && (p.None? || !p.value.rota) { ok := false; }
  }

  /** The vessel part of the search loop's test. */
  method CheckVessel(ok0: bool, v: Option<Vessel>, vc: VesselCriteria) returns (ok: bool)
    ensures ok == (ok0 && VesselOk(v, vc))
  {
    ok := ok0;
    if vc.angioplasty && (v.None? || !v.value.angioplasty) { ok := false; }
    if vc.imaging != "" && (v.None? || v.value.imaging != vc.imaging) { ok := false; }
    if vc.minVessels > 0 && (v.None? || v.value.numVessels < vc.minVessels) { ok := false; }
  }

  /** The match test as the search loop performs it: start from "match" and
      clear it for every provided criterion that fails, in the loop's order. */
  method Evaluate(j: Joined, c: Criteria) returns (ok: bool)
    ensures ok <==> AllHold(j, Sparse(c))
    ensures ok == Matches(j, c)
  {
    ok := true;
    if c.age > 0 && j.patient.age != c.age { ok := false; }
    ok := CheckHistory(ok, j.history, c.history);
    ok := CheckLesion(ok, j.lesion, c.lesion);
    ok := CheckPci(ok, j.pci, c.pci);
    ok := CheckVessel(ok, j.vessel, c.vessel);
    MatchesIffAllProvidedHold(j, c);
  }

  /** The search loop: scans the patient table in order, joins each patient,
      and keeps a summary of each one that matches. */
  method RunSearch(s: Store, c: Criteria) returns (results: seq<Summary>)
    ensures results == Search(s, c)
    ensures |results| <= |s.patients|
    ensures forall p :: p in s.patients && Matches(Join(s, p), c) ==> Summarize(Join(s, p)) in results
  {
    results := [];
    var i := 0;
    while i < |s.patients|
      invariant 0 <= i <= |s.patients|
      invariant results == Summaries(s, Keep(s, s.patients[..i], c))
    {
      results := ScanOne(s, c, s.patients[i], results);
      SearchStep(s, s.patients[..i], s.patients[i], c);
      PrefixGrows(s.patients, i);
      i := i + 1;
    }
    assert s.patients[..i] == s.patients;
    SearchListsEveryMatch(s, c);
  }

  /** The prefix of length `i + 1` is the prefix of length `i` and one more. */
  lemma PrefixGrows<T>(ps: seq<T>, i: nat)
    requires i < |ps|
    ensures ps[..i + 1] == ps[..i] + [ps[i]]
  {
  }

  /** One pass of the search loop's body: joins patient `p`, tests it, and
      appends its summary to the results so far exactly when it matches. */
  method ScanOne(s: Store, c: Criteria, p: Patient, acc: seq<Summary>) returns (r: seq<Summary>)
    ensures r == acc + (if Matches(Join(s, p), c) then [Summarize(Join(s, p))] else [])
  {
    var j := Join(s, p);
    var ok := Evaluate(j, c);
    if ok {
      r := acc + [Summarize(j)];
    } else {
      r := acc;
    }
  }

  /** Scanning one more patient adds its summary exactly when it matches. */
  lemma SearchStep(s: Store, ps: seq<Patient>, p: Patient, c: Criteria)
    ensures Summaries(s, Keep(s, ps + [p], c)) ==
      Summaries(s, Keep(s, ps, c)) + (if Matches(Join(s, p), c) then [Summarize(Join(s, p))] else [])
  {
    KeepSnoc(s, ps, p, c);
    var r := Keep(s, ps, c);
    if Matches(Join(s, p), c) {
      assert (r + [p])[..|r|] == r;
    }
  }

  /** Every matching patient's summary is among the search results. */
  lemma SearchListsEveryMatch(s: Store, c: Criteria)
    ensures forall p :: p in s.patients && Matches(Join(s, p), c) ==> Summarize(Join(s, p)) in Search(s, c)
  {
    var kept := Keep(s, s.patients, c);
    var results := Search(s, c);
    forall p | p in s.patients && Matches(Join(s, p), c)
      ensures Summarize(Join(s, p)) in results
    {
      var k :| 0 <= k < |kept| && kept[k] == p;
      assert results[k] == Summarize(Join(s, p));
    }
  }

  /** The full-listing loop: one row per patient, in order, each built from
      the patient's first detail rows. */
  method RunFullDump(s: Store) returns (rows: seq<FullRow>)
    ensures |rows| == |s.patients|
    ensures forall i :: 0 <= i < |rows| ==> rows[i] == Expand(Join(s, s.patients[i]))
    ensures rows == FullDump(s)
  {
    rows := [];
    var i := 0;
    while i < |s.patients|
      invariant 0 <= i <= |s.patients|
      invariant rows == Rows(s, s.patients[..i])
    {
      RowsStep(s, s.patients, i);
      var row := Expand(Join(s, s.patients[i]));
      rows := rows + [row];
      i := i + 1;
    }
    assert s.patients[..i] == s.patients;
  }

  /** Listing one more patient of the table adds its row at the end. */
  lemma RowsStep(s: Store, ps: seq<Patient>, i: nat)
    requires i < |ps|
    ensures Rows(s, ps[..i + 1]) == Rows(s, ps[..i]) + [Expand(Join(s, ps[i]))]
  {
    assert ps[..i + 1][..i] == ps[..i];
  }

  /** The filter on a non-empty sequence: the last patient is kept after the
      others exactly when it matches. */
  lemma KeepLast(s: Store, ps: seq<Patient>, c: Criteria)
    requires |ps| > 0
    ensures Keep(s, ps, c) ==
      Keep(s, ps[..|ps| - 1], c) + (if Matches(Join(s, ps[|ps| - 1]), c) then [ps[|ps| - 1]] else [])
  {
  }

  /** The filter applied to one more patient. */
  lemma KeepSnoc(s: Store, ps: seq<Patient>, p: Patient, c: Criteria)
    ensures Keep(s, ps + [p], c) == Keep(s, ps, c) + (if Matches(Join(s, p), c) then [p] else [])
  {
    assert (ps + [p])[..|ps|] == ps;
  }

  lemma IsSubseqSnocBoth<T>(a: seq<T>, b: seq<T>, x: T)
    requires IsSubseq(a, b)
    ensures IsSubseq(a + [x], b + [x])
  {
    assert (a + [x])[..|a|] == a;
    assert (b + [x])[..|b|] == b;
  }

  lemma IsSubseqSnocRight<T>(a: seq<T>, b: seq<T>, x: T)
    requires IsSubseq(a, b)
    ensures IsSubseq(a, b + [x])
  {
    assert (b + [x])[..|b|] == b;
  }

  /** Projecting both sides keeps one a subsequence of the other. */
  lemma {:induction false} SummariesKeepSubseq(s: Store, a: seq<Patient>, b: seq<Patient>)
    requires IsSubseq(a, b)
    ensures IsSubseq(Summaries(s, a), Summaries(s, b))
    decreases |b|
  {
    if |a| > 0 {
      var sa, sb := Summaries(s, a), Summaries(s, b);
      var a', b' := a[..|a| - 1], b[..|b| - 1];
      assert sa[..|sa| - 1] == Summaries(s, a');
      assert sb[..|sb| - 1] == Summaries(s, b');
      if a[|a| - 1] == b[|b| - 1] && IsSubseq(a', b') {
        SummariesKeepSubseq(s, a', b');
      } else {
        SummariesKeepSubseq(s, a, b');
      }
    }
  }

  /** Filtering with stricter criteria keeps a subsequence of what the weaker
      criteria keep. */
  lemma {:induction false} KeepStricterIsSubseq(s: Store, ps: seq<Patient>, c1: Criteria, c2: Criteria)
    requires AtLeastAsStrict(c2, c1)
    ensures IsSubseq(Keep(s, ps, c2), Keep(s, ps, c1))
  {
    if |ps| > 0 {
      var init, last := ps[..|ps| - 1], ps[|ps| - 1];
      KeepLast(s, ps, c1);
      KeepLast(s, ps, c2);
      KeepStricterIsSubseq(s, init, c1, c2);
      StricterMatchesFewer(Join(s, last), c1, c2);
      var k1, k2 := Keep(s, init, c1), Keep(s, init, c2);
      if Matches(Join(s, last), c2) {
        IsSubseqSnocBoth(k2, k1, last);
      } else if Matches(Join(s, last), c1) {
        IsSubseqSnocRight(k2, k1, last);
      }
    }
  }

  /** Strengthening the criteria never adds a search result, and the
      results that remain keep their relative order. */
  lemma SearchStricterIsSubseq(s: Store, c1: Criteria, c2: Criteria)
    requires AtLeastAsStrict(c2, c1)
    ensures IsSubseq(Search(s, c2), Search(s, c1))
  {
    KeepStricterIsSubseq(s, s.patients, c1, c2);
    SummariesKeepSubseq(s, Keep(s, s.patients, c2), Keep(s, s.patients, c1));
  }

  /** Filtering with the union of two compatible criteria sets is filtering
      with one and then with the other. */
  lemma {:induction false} KeepCombine(s: Store, ps: seq<Patient>, c1: Criteria, c2: Criteria)
    requires Compatible(c1, c2)
    ensures Keep(s, ps, Combine(c1, c2)) == Keep(s, Keep(s, ps, c1), c2)
  {
    if |ps| > 0 {
      var init, last := ps[..|ps| - 1], ps[|ps| - 1];
      var both := Combine(c1, c2);
      KeepLast(s, ps, both);
      KeepLast(s, ps, c1);
      KeepCombine(s, init, c1, c2);
      CombineIsConjunction(Join(s, last), c1, c2);
      if Matches(Join(s, last), c1) {
        KeepSnoc(s, Keep(s, init, c1), last, c2);
      }
    }
  }

  /** Searching with the union of two compatible criteria sets gives the
      results of the first search that also satisfy the second set, in the
      same order. */
  lemma SearchCombine(s: Store, c1: Criteria, c2: Criteria)
    requires Compatible(c1, c2)
    ensures Search(s, Combine(c1, c2)) == Summaries(s, Keep(s, Keep(s, s.patients, c1), c2))
    ensures IsSubseq(Search(s, Combine(c1, c2)), Search(s, c1))
    ensures IsSubseq(Search(s, Combine(c1, c2)), Search(s, c2))
  {
    KeepCombine(s, s.patients, c1, c2);
    SearchStricterIsSubseq(s, c1, Combine(c1, c2));
    SearchStricterIsSubseq(s, c2, Combine(c1, c2));
  }

  /** With no criterion provided the filter keeps every patient. */
  lemma {:induction false} KeepAllWhenNothingProvided(s: Store, ps: seq<Patient>, c: Criteria)
    requires NothingProvided(c)
    ensures Keep(s, ps, c) == ps
  {
    if |ps| > 0 {
      var init, last := ps[..|ps| - 1], ps[|ps| - 1];
      assert ps == init + [last];
      KeepSnoc(s, init, last, c);
      KeepAllWhenNothingProvided(s, init, c);
      NothingProvidedMatchesAll(Join(s, last), c);
    }
  }

  /** The eight cells of a full-listing row that a search summary shows. */
  function Cut(r: FullRow): Summary {
    Summary(r.id, r.firstName, r.lastName, r.age, r.gender, r.diabetes, r.numVessels, r.balloon)
  }

  /** The two result projections agree: a search summary is the full-listing
      row of the same joined record cut down to the summary's cells. */
  lemma SummaryIsCutRow(j: Joined)
    ensures Summarize(j) == Cut(Expand(j))
  {
  }

  /** With no criterion provided the search lists every patient, in the same
      order as the full listing, each result being the listing's row cut down
      to the summary's cells. */
  lemma UnfilteredSearchMatchesDump(s: Store, c: Criteria)
    requires NothingProvided(c)
    ensures |Search(s, c)| == |FullDump(s)| == |s.patients|
    ensures forall i :: 0 <= i < |s.patients| ==>
      Search(s, c)[i] == Cut(FullDump(s)[i]) && Search(s, c)[i].id == s.patients[i].id
  {
    KeepAllWhenNothingProvided(s, s.patients, c);
    forall j: Joined
      ensures Summarize(j) == Cut(Expand(j))
    {
      SummaryIsCutRow(j);
    }
  }
}
