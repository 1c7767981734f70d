/** Operations shared by the five tables. A table is the sequence of its rows
    in insertion order, which is the order an unordered `.first()` query reads
    them in. Lookups and key generation are written once, over a projection
    `key` that picks the column they read. */
module Tables {
  import opened Optional
  import opened Records

  /** The generated key of a detail row. */
  function RowKey<T>(r: Row<T>): int {
    r.id
  }

  /** The patient a detail row refers to. */
  function RowPatient<T>(r: Row<T>): int {
    r.patientId
  }

  /** The generated key of a patient. */
  function PatientKey(p: Patient): int {
    p.id
  }

  /** No two rows of the table share a generated key. */
  predicate UniqueIds<T>(t: seq<Row<T>>) {
    forall i, j :: 0 <= i < j < |t| ==> t[i].id != t[j].id
  }

  /** Some row of the table refers to patient `pid`. */
  predicate Mentions<T>(t: seq<Row<T>>, pid: int) {
    exists i :: 0 <= i < |t| && t[i].patientId == pid
  }

  /** The largest value of column `key`, or 0 for an empty table. */
  function MaxKey<T>(t: seq<T>, key: T -> int): (m: int)
    ensures m >= 0
    ensures forall i :: 0 <= i < |t| ==> key(t[i]) <= m
    ensures m == 0 || exists i :: 0 <= i < |t| && key(t[i]) == m
  {
    if |t| == 0 then 0
    else
      var m := MaxKey(t[..|t| - 1], key);
      if key(t[|t| - 1]) > m then key(t[|t| - 1]) else m
  }

  /** The key a new detail row receives: one past the largest key in use, as
      the embedded store numbers integer primary keys. */
  function NextId<T>(t: seq<Row<T>>): (id: int)
    ensures id > 0
    ensures forall i :: 0 <= i < |t| ==> t[i].id != id
  {
    MaxKey(t, RowKey) + 1
  }

  /** Appends one row for patient `pid` under a fresh key. No check is made
      against rows already stored for that patient. */
  function Insert<T>(t: seq<Row<T>>, pid: int, fields: T): (r: seq<Row<T>>)
    ensures |r| == |t| + 1 && r[..|t|] == t
    ensures r[|t|].patientId == pid && r[|t|].fields == fields
    ensures forall i :: 0 <= i < |t| ==> t[i].id != r[|t|].id
    ensures UniqueIds(t) ==> UniqueIds(r)
  {
    t + [Row(NextId(t), pid, fields)]
  }

  /** Position of the earliest row whose column `key` equals `k`. */
  function IndexOf<T>(t: seq<T>, key: T -> int, k: int): (r: Option<nat>)
    ensures r.Some? ==> r.value < |t| && key(t[r.value]) == k
    ensures r.Some? ==> forall j :: 0 <= j < r.value ==> key(t[j]) != k
    ensures r.None? <==> forall j :: 0 <= j < |t| ==> key(t[j]) != k
  {
    if |t| == 0 then None
    else if key(t[0]) == k then Some(0)
    else
      match IndexOf(t[1..], key, k)
      case None => None
      case Some(i) => Some(i + 1)
  }

  /** Appending a row never displaces an earlier match; the new row becomes
      the first match only when there was none. */
  lemma {:induction false} IndexOfAppend<T>(t: seq<T>, key: T -> int, x: T, k: int)
    ensures IndexOf(t, key, k).Some? ==> IndexOf(t + [x], key, k) == IndexOf(t, key, k)
    ensures IndexOf(t, key, k).None? && key(x) == k ==> IndexOf(t + [x], key, k) == Some(|t|)
    ensures IndexOf(t, key, k).None? && key(x) != k ==> IndexOf(t + [x], key, k).None?
  {
    if |t| == 0 {
      assert t + [x] == [x];
    } else if key(t[0]) != k {
      assert (t + [x])[1..] == t[1..] + [x];
      IndexOfAppend(t[1..], key, x, k);
    }
  }

  /** The per-kind lookup by patient: the earliest-inserted row for `pid`,
      or nothing when the patient has no row of this kind. */
  function FirstFor<T>(t: seq<Row<T>>, pid: int): (r: Option<Row<T>>)
    ensures r.None? <==> !Mentions(t, pid)
    ensures r.Some? ==> r.value.patientId == pid
    ensures r.Some? ==> exists i :: 0 <= i < |t| && t[i] == r.value &&
                          forall j :: 0 <= j < i ==> t[j].patientId != pid
  {
    match IndexOf(t, RowPatient, pid)
    case None => None
    case Some(i) => Some(t[i])
  }

  /** Appending a row never changes what an earlier lookup answered: the
      lookup changes only when the patient had no row of this kind before. */
  lemma FirstForAppend<T>(t: seq<Row<T>>, x: Row<T>, pid: int)
    ensures FirstFor(t, pid).Some? ==> FirstFor(t + [x], pid) == FirstFor(t, pid)
    ensures FirstFor(t, pid).None? && x.patientId == pid ==> FirstFor(t + [x], pid) == Some(x)
    ensures FirstFor(t, pid).None? && x.patientId != pid ==> FirstFor(t + [x], pid).None?
  {
    IndexOfAppend(t, RowPatient, x, pid);
  }
}
