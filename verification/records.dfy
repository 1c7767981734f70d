/** The five record kinds of the cardiology database. Generated keys live in
    `Patient.id` and `Row.id`; everything else is the data the forms submit. */
module Records {

  /** A patient: the parent of every detail record. */
  datatype Patient = Patient(
    id: int,
    firstName: string,
    lastName: string,
    age: int,
    medicalHistory: string)

  /** Fields of a medical-history record. The body-mass index is only stored
      and displayed, never compared, so it is kept as an opaque number. */
  datatype History = History(
    gender: string,
    hypertension: bool,
    smoking: bool,
    diabetes: string,
    hereditary: bool,
    bmi: real,
    atrialFibrillation: bool)

  /** Fields of a lesion record: which coronary arteries are affected. */
  datatype Lesion = Lesion(lad: bool, lcx: bool, rca: bool)

  /** Fields of a vessel record. */
  datatype Vessel = Vessel(numVessels: int, angioplasty: bool, imaging: string)

  /** Fields of a percutaneous coronary intervention record. */
  datatype Pci = Pci(balloon: bool, ivl: bool, rota: bool)

  /** A stored detail row: its own generated key, the patient it refers to,
      and the kind-specific fields. */
  datatype Row<T> = Row(id: int, patientId: int, fields: T)

  /** The four detail kinds as one tagged value, so that the four
      "add detail" forms share one operation. */
  datatype Detail =
    | HistoryDetail(history: History)
    | LesionDetail(lesion: Lesion)
    | VesselDetail(vessel: Vessel)
    | PciDetail(pci: Pci)
}
