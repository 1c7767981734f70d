/** The criteria matcher: a pure conjunction of optional predicates over a
    patient joined with (at most) one record of each detail kind. */
module Matcher {
  import opened Optional
  import opened Records

  /** A patient and the first stored record of each detail kind, if any. */
  datatype Joined = Joined(
    patient: Patient,
    history: Option<History>,
    lesion: Option<Lesion>,
    vessel: Option<Vessel>,
    pci: Option<Pci>)

  // The search form, grouped by the detail kind each slot reads. A numeric
  // slot is provided when it is positive, a text slot when it is non-empty,
  // a flag when it is set; a slot that is not provided never filters.

  datatype HistoryCriteria = HistoryCriteria(
    gender: string,
    diabetes: string,
    hypertension: bool,
    smoking: bool,
    atrialFibrillation: bool)

  datatype LesionCriteria = LesionCriteria(lad: bool, lcx: bool, rca: bool)

  datatype VesselCriteria = VesselCriteria(angioplasty: bool, imaging: string, minVessels: int)

  datatype PciCriteria = PciCriteria(balloon: bool, ivl: bool, rota: bool)

  /** All slots of the search form; `age` is the only one read from the
      patient row itself. */
  datatype Criteria = Criteria(
    age: int,
    history: HistoryCriteria,
    lesion: LesionCriteria,
    vessel: VesselCriteria,
    pci: PciCriteria)

  /** The search form as first shown: every slot empty. */
  const Unfiltered := Criteria(
    0,
    HistoryCriteria("", "", false, false, false),
    LesionCriteria(false, false, false),
    VesselCriteria(false, "", 0),
    PciCriteria(false, false, false))

  predicate AsksHistory(hc: HistoryCriteria) {
    hc.gender != "" || hc.diabetes != "" || hc.hypertension || hc.smoking || hc.atrialFibrillation
  }

  predicate AsksLesion(lc: LesionCriteria) {
    lc.lad || lc.lcx || lc.rca
  }

  predicate AsksVessel(vc: VesselCriteria) {
    vc.angioplasty || vc.imaging != "" || vc.minVessels > 0
  }

  predicate AsksPci(pc: PciCriteria) {
    pc.balloon || pc.ivl || pc.rota
  }

  /** No slot of `c` is provided. */
  predicate NothingProvided(c: Criteria) {
    c.age <= 0 && !AsksHistory(c.history) && !AsksLesion(c.lesion) &&
    !AsksVessel(c.vessel) && !AsksPci(c.pci)
  }

  predicate HistoryOk(h: Option<History>, hc: HistoryCriteria) {
    && (hc.gender != "" ==> h.Some? && h.value.gender == hc.gender)
    && (hc.diabetes != "" ==> h.Some? && h.value.diabetes == hc.diabetes)
    && (hc.hypertension ==> h.Some? && h.value.hypertension)
    && (hc.smoking ==> h.Some? && h.value.smoking)
    && (hc.atrialFibrillation ==> h.Some? && h.value.atrialFibrillation)
  }

  predicate LesionOk(l: Option<Lesion>, lc: LesionCriteria) {
    && (lc.lad ==> l.Some? && l.value.lad)
    && (lc.lcx ==> l.Some? && l.value.lcx)
    && (lc.rca ==> l.Some? && l.value.rca)
  }

  predicate VesselOk(v: Option<Vessel>, vc: VesselCriteria) {
    && (vc.angioplasty ==> v.Some? && v.value.angioplasty)
    && (vc.imaging != "" ==> v.Some? && v.value.imaging == vc.imaging)
    && (vc.minVessels > 0 ==> v.Some? && v.value.numVessels >= vc.minVessels)
  }

  predicate PciOk(p: Option<Pci>, pc: PciCriteria) {
    && (pc.balloon ==> p.Some? && p.value.balloon)
    && (pc.ivl ==> p.Some? && p.value.ivl)
    && (pc.rota ==> p.Some? && p.value.rota)
  }

  /** The match test of the search form: every provided slot must hold, and
      a provided slot on a detail kind the patient lacks fails. */
  predicate Matches(j: Joined, c: Criteria) {
    && (c.age > 0 ==> j.patient.age == c.age)
    && HistoryOk(j.history, c.history)
    && LesionOk(j.lesion, c.lesion)
    && PciOk(j.pci, c.pci)
    && VesselOk(j.vessel, c.vessel)
  }

  /** One provided criterion, as a sparse search request carries it. */
  datatype Constraint =
    | AgeIs(age: int)
    | GenderIs(gender: string)
    | DiabetesIs(diabetes: string)
    | Hypertensive
    | Smoker
    | Fibrillating
    | LadLesion
    | LcxLesion
    | RcaLesion
    | BalloonUsed
    | IvlUsed
    | RotaUsed
    | AngioplastyDone
    | ImagingIs(imaging: string)
    | VesselsAtLeast(count: int)

  /** The rule of one criterion on its own. */
  predicate Satisfies(j: Joined, k: Constraint) {
    match k
    case AgeIs(a) => j.patient.age == a
    case GenderIs(g) => j.history.Some? && j.history.value.gender == g
    case DiabetesIs(d) => j.history.Some? && j.history.value.diabetes == d
    case Hypertensive => j.history.Some? && j.history.value.hypertension
    case Smoker => j.history.Some? && j.history.value.smoking
    case Fibrillating => j.history.Some? && j.history.value.atrialFibrillation
    case LadLesion => j.lesion.Some? && j.lesion.value.lad
    case LcxLesion => j.lesion.Some? && j.lesion.value.lcx
    case RcaLesion => j.lesion.Some? && j.lesion.value.rca
    case BalloonUsed => j.pci.Some? && j.pci.value.balloon
    case IvlUsed => j.pci.Some? && j.pci.value.ivl
    case RotaUsed => j.pci.Some? && j.pci.value.rota
    case AngioplastyDone => j.vessel.Some? && j.vessel.value.angioplasty
    case ImagingIs(m) => j.vessel.Some? && j.vessel.value.imaging == m
    case VesselsAtLeast(n) => j.vessel.Some? && j.vessel.value.numVessels >= n
  }

  predicate HistoryAsks(hc: HistoryCriteria, k: Constraint) {
    match k
    case GenderIs(g) => hc.gender != "" && g == hc.gender
    case DiabetesIs(d) => hc.diabetes != "" && d == hc.diabetes
    case Hypertensive => hc.hypertension
    case Smoker => hc.smoking
    case Fibrillating => hc.atrialFibrillation
    case _ => false
  }

  predicate LesionAsks(lc: LesionCriteria, k: Constraint) {
    match k
    case LadLesion => lc.lad
    case LcxLesion => lc.lcx
    case RcaLesion => lc.rca
    case _ => false
  }

  predicate VesselAsks(vc: VesselCriteria, k: Constraint) {
    match k
    case AngioplastyDone => vc.angioplasty
    case ImagingIs(m) => vc.imaging != "" && m == vc.imaging
    case VesselsAtLeast(n) => vc.minVessels > 0 && n == vc.minVessels
    case _ => false
  }

  predicate PciAsks(pc: PciCriteria, k: Constraint) {
    match k
    case BalloonUsed => pc.balloon
    case IvlUsed => pc.ivl
    case RotaUsed => pc.rota
    case _ => false
  }

  /** Constraint `k` is one of the criteria `c` provides. */
  predicate Asks(c: Criteria, k: Constraint) {
    || (k.AgeIs? && c.age > 0 && k.age == c.age)
    || HistoryAsks(c.history, k)
    || LesionAsks(c.lesion, k)
    || VesselAsks(c.vessel, k)
    || PciAsks(c.pci, k)
  }

  /** `[k]` when `provided`, otherwise nothing. */
  function When(provided: bool, k: Constraint): (r: seq<Constraint>)
    ensures |r| == if provided then 1 else 0
    ensures forall k' :: k' in r <==> provided && k' == k
  {
    if provided then [k] else []
  }

  function HistorySparse(hc: HistoryCriteria): (ks: seq<Constraint>)
    ensures |ks| == 0 <==> !AsksHistory(hc)
    ensures forall k :: k in ks <==> HistoryAsks(hc, k)
  {
    When(hc.gender != "", GenderIs(hc.gender)) +
    When(hc.diabetes != "", DiabetesIs(hc.diabetes)) +
    When(hc.hypertension, Hypertensive) +
    When(hc.smoking, Smoker) +
    When(hc.atrialFibrillation, Fibrillating)
  }

  function LesionSparse(lc: LesionCriteria): (ks: seq<Constraint>)
    ensures |ks| == 0 <==> !AsksLesion(lc)
    ensures forall k :: k in ks <==> LesionAsks(lc, k)
  {
    When(lc.lad, LadLesion) + When(lc.lcx, LcxLesion) + When(lc.rca, RcaLesion)
  }

  function PciSparse(pc: PciCriteria): (ks: seq<Constraint>)
    ensures |ks| == 0 <==> !AsksPci(pc)
    ensures forall k :: k in ks <==> PciAsks(pc, k)
  {
    When(pc.balloon, BalloonUsed) + When(pc.ivl, IvlUsed) + When(pc.rota, RotaUsed)
  }

  function VesselSparse(vc: VesselCriteria): (ks: seq<Constraint>)
    ensures |ks| == 0 <==> !AsksVessel(vc)
    ensures forall k :: k in ks <==> VesselAsks(vc, k)
  {
    When(vc.angioplasty, AngioplastyDone) +
    When(vc.imaging != "", ImagingIs(vc.imaging)) +
    When(vc.minVessels > 0, VesselsAtLeast(vc.minVessels))
  }

  /** The provided criteria of `c` as a sparse list, one entry per provided
      slot, in the order the search loop tests them: exactly the constraints `c`
      asks, and empty exactly when nothing is provided. */
  function Sparse(c: Criteria): (ks: seq<Constraint>)
    ensures |ks| == 0 <==> NothingProvided(c)
    ensures forall k :: k in ks <==> Asks(c, k)
  {
    When(c.age > 0, AgeIs(c.age)) + HistorySparse(c.history) + LesionSparse(c.lesion) +
    PciSparse(c.pci) + VesselSparse(c.vessel)
  }

  /** Every constraint of the list holds of `j`. */
  predicate AllHold(j: Joined, ks: seq<Constraint>) {
    forall k :: k in ks ==> Satisfies(j, k)
  }

  lemma HistoryOkIffAllHold(j: Joined, hc: HistoryCriteria)
    ensures HistoryOk(j.history, hc) <==> AllHold(j, HistorySparse(hc))
  {
    var ks := HistorySparse(hc);
    if AllHold(j, ks) {
      assert hc.gender != "" ==> GenderIs(hc.gender) in ks;
      assert hc.diabetes != "" ==> DiabetesIs(hc.diabetes) in ks;
      assert hc.hypertension ==> Hypertensive in ks;
      assert hc.smoking ==> Smoker in ks;
      assert hc.atrialFibrillation ==> Fibrillating in ks;
    }
  }

  lemma LesionOkIffAllHold(j: Joined, lc: LesionCriteria)
    ensures LesionOk(j.lesion, lc) <==> AllHold(j, LesionSparse(lc))
  {
    var ks := LesionSparse(lc);
    if AllHold(j, ks) {
      assert lc.lad ==> LadLesion in ks;
      assert lc.lcx ==> LcxLesion in ks;
      assert lc.rca ==> RcaLesion in ks;
    }
  }

  lemma VesselOkIffAllHold(j: Joined, vc: VesselCriteria)
    ensures VesselOk(j.vessel, vc) <==> AllHold(j, VesselSparse(vc))
  {
    var ks := VesselSparse(vc);
    if AllHold(j, ks) {
      assert vc.angioplasty ==> AngioplastyDone in ks;
      assert vc.imaging != "" ==> ImagingIs(vc.imaging) in ks;
      assert vc.minVessels > 0 ==> VesselsAtLeast(vc.minVessels) in ks;
    }
  }

  lemma PciOkIffAllHold(j: Joined, pc: PciCriteria)
    ensures PciOk(j.pci, pc) <==> AllHold(j, PciSparse(pc))
  {
    var ks := PciSparse(pc);
    if AllHold(j, ks) {
      assert pc.balloon ==> BalloonUsed in ks;
      assert pc.ivl ==> IvlUsed in ks;
      assert pc.rota ==> RotaUsed in ks;
    }
  }

  /** The match test is exactly the conjunction of the provided criteria's
      individual rules. */
  lemma MatchesIffAllProvidedHold(j: Joined, c: Criteria)
    ensures Matches(j, c) <==> AllHold(j, Sparse(c))
  {
    HistoryOkIffAllHold(j, c.history);
    LesionOkIffAllHold(j, c.lesion);
    VesselOkIffAllHold(j, c.vessel);
    PciOkIffAllHold(j, c.pci);
    var ks := Sparse(c);
    if AllHold(j, ks) {
      assert c.age > 0 ==> AgeIs(c.age) in ks;
    }
  }

  /** With no criterion provided every patient matches. */
  lemma NothingProvidedMatchesAll(j: Joined, c: Criteria)
    requires NothingProvided(c)
    ensures Matches(j, c)
  {
  }

  /** A provided criterion on a detail kind the patient has no record of
      excludes the patient. */
  lemma MissingDetailExcludes(j: Joined, c: Criteria)
    ensures AsksHistory(c.history) && j.history.None? ==> !Matches(j, c)
    ensures AsksLesion(c.lesion) && j.lesion.None? ==> !Matches(j, c)
    ensures AsksVessel(c.vessel) && j.vessel.None? ==> !Matches(j, c)
    ensures AsksPci(c.pci) && j.pci.None? ==> !Matches(j, c)
  {
  }

  /** The minimum-vessels slot alone keeps exactly the patients with a
      vessel record counting at least that many vessels. */
  lemma MinVesselsRule(j: Joined, n: int)
    requires n > 0
    ensures Matches(j, Unfiltered.(vessel := VesselCriteria(false, "", n))) <==>
              j.vessel.Some? && j.vessel.value.numVessels >= n
  {
  }

  predicate HistoryAtLeastAsStrict(h2: HistoryCriteria, h1: HistoryCriteria) {
    && (h1.gender != "" ==> h2.gender == h1.gender)
    && (h1.diabetes != "" ==> h2.diabetes == h1.diabetes)
    && (h1.hypertension ==> h2.hypertension)
    && (h1.smoking ==> h2.smoking)
    && (h1.atrialFibrillation ==> h2.atrialFibrillation)
  }

  predicate VesselAtLeastAsStrict(v2: VesselCriteria, v1: VesselCriteria) {
    && (v1.angioplasty ==> v2.angioplasty)
    && (v1.imaging != "" ==> v2.imaging == v1.imaging)
    && (v1.minVessels > 0 ==> v2.minVessels >= v1.minVessels)
  }

  /** `c2` asks at least what `c1` asks: every slot provided in `c1` is
      provided in `c2` with the same value, except that a minimum vessel
      count may only rise. */
  predicate AtLeastAsStrict(c2: Criteria, c1: Criteria) {
    && (c1.age > 0 ==> c2.age == c1.age)
    && HistoryAtLeastAsStrict(c2.history, c1.history)
    && (c1.lesion.lad ==> c2.lesion.lad)
    && (c1.lesion.lcx ==> c2.lesion.lcx)
    && (c1.lesion.rca ==> c2.lesion.rca)
    && (c1.pci.balloon ==> c2.pci.balloon)
    && (c1.pci.ivl ==> c2.pci.ivl)
    && (c1.pci.rota ==> c2.pci.rota)
    && VesselAtLeastAsStrict(c2.vessel, c1.vessel)
  }

  /** Strengthening the criteria never admits a patient the weaker criteria
      rejected. */
  lemma StricterMatchesFewer(j: Joined, c1: Criteria, c2: Criteria)
    requires AtLeastAsStrict(c2, c1)
    ensures Matches(j, c2) ==> Matches(j, c1)
  {
  }

  /** Two criteria sets do not disagree on any age or text slot both provide. */
  predicate Compatible(c1: Criteria, c2: Criteria) {
    && (c1.age > 0 && c2.age > 0 ==> c1.age == c2.age)
    && (c1.history.gender != "" && c2.history.gender != "" ==> c1.history.gender == c2.history.gender)
    && (c1.history.diabetes != "" && c2.history.diabetes != "" ==>
          c1.history.diabetes == c2.history.diabetes)
    && (c1.vessel.imaging != "" && c2.vessel.imaging != "" ==> c1.vessel.imaging == c2.vessel.imaging)
  }

  /** The text slot provided by either side (the first when both are). */
  function Either(a: string, b: string): string {
    if a != "" then a else b
  }

  /** The union of two compatible criteria sets: every slot provided in
      either, with the larger minimum vessel count. */
  function Combine(c1: Criteria, c2: Criteria): (c: Criteria)
    requires Compatible(c1, c2)
    ensures AtLeastAsStrict(c, c1) && AtLeastAsStrict(c, c2)
  {
    var h1, h2 := c1.history, c2.history;
    var v1, v2 := c1.vessel, c2.vessel;
    Criteria(
      if c1.age > 0 then c1.age else c2.age,
      HistoryCriteria(Either(h1.gender, h2.gender), Either(h1.diabetes, h2.diabetes),
                      h1.hypertension || h2.hypertension, h1.smoking || h2.smoking,
                      h1.atrialFibrillation || h2.atrialFibrillation),
      LesionCriteria(c1.lesion.lad || c2.lesion.lad, c1.lesion.lcx || c2.lesion.lcx,
                     c1.lesion.rca || c2.lesion.rca),
      VesselCriteria(v1.angioplasty || v2.angioplasty, Either(v1.imaging, v2.imaging),
                     if v1.minVessels > v2.minVessels then v1.minVessels else v2.minVessels),
      PciCriteria(c1.pci.balloon || c2.pci.balloon, c1.pci.ivl || c2.pci.ivl,
                  c1.pci.rota || c2.pci.rota))
  }

  /** Matching the union of two compatible criteria sets is matching both. */
  lemma CombineIsConjunction(j: Joined, c1: Criteria, c2: Criteria)
    requires Compatible(c1, c2)
    ensures Matches(j, Combine(c1, c2)) <==> Matches(j, c1) && Matches(j, c2)
  {
  }
}
