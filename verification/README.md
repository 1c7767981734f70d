# Cardiology records: store, criteria matcher and search

A Dafny model of the in-memory domain logic of the SQLite variant of a
cardiology data-entry application (`app_cardiology_final_full.py`). The
application keeps five tables: patients, and four kinds of detail record that
each refer to a patient by `patient_id` (medical history, coronary lesions,
vessels, and percutaneous coronary intervention, PCI). Its forms add patients
and detail records, look up the first detail record of a kind for a patient,
delete patients, list every patient joined to its first detail records, and
search patients by a conjunction of optional criteria.

The model is functional. The tables are sequences in insertion order. Every
write is a pure function from the store before to the store after, plus the
outcome the form reports. Search is an order-preserving filter over the
patient table.

Modules:

- `Optional` (`optional.dfy`): the `Option` type used by lookups and joins.
- `Records` (`records.dfy`): the five record kinds. A detail row is a
  `Row<T>` holding its key, the patient key it refers to and the kind's
  fields. `Detail` tags the four kinds so the four "add detail" forms share
  one operation.
- `Tables` (`tables.dfy`): the operations shared by the detail tables. These
  are fresh-key insertion and the first-row-for-a-patient lookup.
- `RecordStore` (`record_store.dfy`): the store, the guarded writes
  `AddPatient`, `AddDetail` and `DeletePatient`, and the well-formedness
  invariant (distinct keys in every table).
- `Matcher` (`matcher.dfy`): the joined record, the search criteria (grouped
  by the record each slot reads; the form shows age in the history panel,
  but age reads the patient row, so it sits at the top level), and
  the match test `Matches`. It also gives an independent reading of the
  criteria as a sparse list of provided constraints, each with its own rule
  (`Sparse`, `Satisfies`), and proves the two readings equal. Criteria can be
  compared by strictness (`AtLeastAsStrict`) and merged (`Combine`).
- `SearchEngine` (`search_engine.dfy`): the join, the two result projections
  (search summary and full listing row), the filter `Keep`, and the two scan
  loops `RunSearch` and `RunFullDump`.
- `Scenarios` (`scenarios.dfy`): concrete scenarios starting from an empty
  database, each proved about the model.

Decisions:

- A `.first()` query without ordering is read as "earliest inserted row".
- A new row's key is one past the largest key in its table, or 1 for an empty
  table. This is how the embedded database numbers an integer primary key
  that has no AUTOINCREMENT. The contracts promise only that the key is
  fresh. `Scenarios.OrphanAdoption` depends on this numbering: deleting the
  newest patient frees its key for the next patient, who then inherits the
  deleted patient's detail rows.
- The patient form accepts a name that is only blanks. The guard is Python
  truthiness of the two name strings, so it rejects only the empty string.
- Yes/no cells of the result tables ("ΝΑΙ"/"ΟΧΙ") are the datatype `Mark`.
  A number cell of an absent record (vessel count, BMI) is `None`, which
  displays as an empty cell.
- Patient creation checks only the two names. The code does not check the
  age range.
- Deletion never cascades to detail rows.
- Failures are reported as an `Outcome`, not raised.

## Model

| member | source | states |
|---|---|---|
| `Tables.MaxKey` | app_cardiology_final_full.py:16 | the largest key is non-negative, no row's key exceeds it, and it is either 0 or the key of some row, so it is exactly the largest key in use (0 for an empty table) |
| `Tables.NextId` | app_cardiology_final_full.py:24 | a new detail row's generated key is positive and used by no row of its table |
| `Tables.Insert` | app_cardiology_final_full.py:137-148 | inserting a detail row appends exactly one row with the given patient and fields under a fresh key, keeps every earlier row, and keeps keys distinct |
| `Tables.IndexOf` | app_cardiology_final_full.py:136 | the patient lookup by key (here and at line 271) and, through `FirstFor`, the detail lookups: the position found holds a row whose looked-up column equals the requested value, with no earlier such row, and there is none exactly when no row has that value |
| `Tables.FirstFor` | app_cardiology_final_full.py:286-289 | the per-kind lookup `.first()` (the joins here and at lines 350-353, and the lookup views at lines 158, 193, 224 and 255) returns the earliest-inserted row whose patient key matches, or nothing exactly when no row has that key |
| `Tables.FirstForAppend` | app_cardiology_final_full.py:147-158 | after a detail row is added and committed, a later lookup (lines 158, 193, 224, 255) keeps any answer it already had, and changes a missing answer only when the new row is for that patient |
| `Tables.IndexOfAppend` | app_cardiology_final_full.py:106-136 | after a row is appended (a patient at lines 106-107), a later first-match lookup (line 136) keeps the earliest matching position, and makes the new row the first match only when there was none and it matches |
| `RecordStore.NextPatientId` | app_cardiology_final_full.py:16 | a new patient's generated key is positive and not registered |
| `RecordStore.FindPatient` | app_cardiology_final_full.py:136 | the patient lookup returns a stored patient with the requested key, and nothing exactly when the key is not registered |
| `RecordStore.AddPatient` | app_cardiology_final_full.py:98-110 | an empty first or last name changes nothing and reports a warning; otherwise one patient with the submitted fields is appended under an unused key, no other table changes, and distinct keys are preserved |
| `RecordStore.AddThenFind` | app_cardiology_final_full.py:99-107 | after a successful add, looking up the returned key yields the submitted fields unchanged |
| `RecordStore.AddDetail` | app_cardiology_final_full.py:135-249 | for an unknown patient nothing changes and "not found" is reported; otherwise exactly one row is appended to the table of the detail's kind under a key fresh in that table, with no check against existing rows, and the patient table and the other three tables are unchanged |
| `RecordStore.AddDetailKeepsEarlierLookups` | app_cardiology_final_full.py:181-193 | adding any detail row leaves every lookup that already had an answer unchanged, so a second record of a kind for a patient is stored but never read |
| `RecordStore.DeletePatient` | app_cardiology_final_full.py:270-277 | an unknown key changes nothing and reports "not found"; otherwise exactly that patient row is removed, the rest keep their order, the key is no longer registered, and all four detail tables are untouched |
| `RecordStore.DeleteLeavesOrphans` | app_cardiology_final_full.py:271-274 | after deleting a patient, every per-kind lookup under its key still answers as before |
| `Matcher.Sparse` | app_cardiology_final_full.py:355-385 | the sparse list holds exactly the constraints the criteria provide, and is empty exactly when no slot is provided |
| `Matcher.HistoryOkIffAllHold` | app_cardiology_final_full.py:358-367 | the history criteria hold exactly when each provided history constraint holds on its own |
| `Matcher.LesionOkIffAllHold` | app_cardiology_final_full.py:368-373 | the lesion criteria hold exactly when each provided lesion constraint holds on its own |
| `Matcher.PciOkIffAllHold` | app_cardiology_final_full.py:374-379 | the PCI criteria hold exactly when each provided PCI constraint holds on its own |
| `Matcher.VesselOkIffAllHold` | app_cardiology_final_full.py:380-385 | the vessel criteria, including the minimum count, hold exactly when each provided vessel constraint holds on its own |
| `Matcher.MatchesIffAllProvidedHold` | app_cardiology_final_full.py:355-387 | a patient matches exactly when every provided criterion's individual rule holds (both directions) |
| `Matcher.Matches` | app_cardiology_final_full.py:355-385 | the search loop's test as one predicate; it has no contract of its own. Its meaning is stated by `Matcher.MatchesIffAllProvidedHold` (the sparse all-rules reading) and `SearchEngine.Evaluate` (the flag-clearing sequence equals it) |
| `Matcher.NothingProvidedMatchesAll` | app_cardiology_final_full.py:355-386 | with age 0, empty text slots, no flags and minimum vessels 0, every joined record matches |
| `Matcher.MissingDetailExcludes` | app_cardiology_final_full.py:358-384 | a provided criterion on a detail kind the patient has no record of makes the patient not match |
| `Matcher.MinVesselsRule` | app_cardiology_final_full.py:384-385 | the minimum-vessels criterion alone matches exactly the patients with a vessel record whose count is at least the minimum |
| `Matcher.StricterMatchesFewer` | app_cardiology_final_full.py:356-385 | switching on a flag, filling an empty text slot, setting age from 0 or raising the minimum vessel count never turns a non-match into a match |
| `Matcher.Combine` | app_cardiology_final_full.py:356-384 | the union of two compatible criteria sets is at least as strict as each of them |
| `Matcher.CombineIsConjunction` | app_cardiology_final_full.py:355-387 | matching the union of two compatible criteria sets is matching both |
| `SearchEngine.Summarize` | app_cardiology_final_full.py:388-397 | a search summary carries the patient's key, names and age; gender and diabetes are the history's or empty when it is absent; the vessel count is present exactly when a vessel record is; balloon reads "yes" exactly when a PCI record with balloon is present |
| `SearchEngine.Join` | app_cardiology_final_full.py:350-353 | the join of a patient to the first row of each detail kind (also at lines 286-289); it has no contract of its own, and each of its four parts is the lookup `Tables.FirstFor`, whose contract states it |
| `SearchEngine.Expand` | app_cardiology_final_full.py:290-312 | the full-listing row of a joined record; it has no contract of its own, and its 21 cells are stated by `SearchEngine.ExpandRendersRecords` |
| `SearchEngine.ExpandRendersRecords` | app_cardiology_final_full.py:290-312 | a full-listing row carries the patient's fields; every cell read from an absent record is empty or "no"; a present record contributes its text and number fields, and each yes/no cell reads "yes" exactly when the record's flag is set |
| `SearchEngine.SummaryIsCutRow` | app_cardiology_final_full.py:290-397 | the two result projections agree: a search summary is the full-listing row of the same joined record cut down to the eight summary cells |
| `SearchEngine.Keep` | app_cardiology_final_full.py:347-387 | the filter keeps a subsequence of the patients in their original order, a patient is kept exactly when it is in the input and its joined record matches, and distinct patient keys in the input stay distinct in the result, so no patient is kept twice |
| `SearchEngine.Summaries` | app_cardiology_final_full.py:387-397 | the projection gives exactly one summary per kept patient, at the same position |
| `SearchEngine.Search` | app_cardiology_final_full.py:345-397 | the functional search, the summaries of `Keep` over the patient table; it has no contract of its own, and `SearchEngine.Keep` and `SearchEngine.RunSearch` state its meaning |
| `SearchEngine.CheckHistory` | app_cardiology_final_full.py:358-367 | the history checks of the search loop leave the flag set exactly when it was set and every provided history slot holds |
| `SearchEngine.CheckLesion` | app_cardiology_final_full.py:368-373 | the lesion checks leave the flag set exactly when it was set and every provided lesion slot holds |
| `SearchEngine.CheckPci` | app_cardiology_final_full.py:374-379 | the PCI checks leave the flag set exactly when it was set and every provided PCI slot holds |
| `SearchEngine.CheckVessel` | app_cardiology_final_full.py:380-385 | the vessel checks leave the flag set exactly when it was set and every provided vessel slot, including the minimum count, holds |
| `SearchEngine.Evaluate` | app_cardiology_final_full.py:355-385 | the flag-clearing sequence of the search loop yields "match" exactly when every provided constraint of the sparse list holds |
| `SearchEngine.ScanOne` | app_cardiology_final_full.py:350-397 | one pass of the search loop's body: the results so far gain the patient's summary at the end exactly when the patient's joined record matches, and are otherwise unchanged |
| `SearchEngine.SearchStep` | app_cardiology_final_full.py:349-397 | scanning one more patient adds its summary at the end exactly when it matches |
| `SearchEngine.RunSearch` | app_cardiology_final_full.py:345-397 | the search loop's results are the summaries of the matching patients in patient-table order, no more results than patients, and every matching patient's summary appears |
| `SearchEngine.SearchListsEveryMatch` | app_cardiology_final_full.py:349-397 | every patient whose joined record matches has its summary among the results |
| `SearchEngine.Rows` | app_cardiology_final_full.py:285-313 | the listing of a patient sequence has exactly one row per patient, at the same position, built from that patient's joined record |
| `SearchEngine.FullDump` | app_cardiology_final_full.py:283-313 | the functional full listing over the patient table; it has no contract of its own, and `SearchEngine.Rows` and `SearchEngine.RunFullDump` state its meaning |
| `SearchEngine.RunFullDump` | app_cardiology_final_full.py:283-313 | the full listing has exactly one row per patient, in patient-table order, each built from that patient's first detail rows |
| `SearchEngine.KeepStricterIsSubseq` | app_cardiology_final_full.py:349-387 | the patients kept under stricter criteria are a subsequence of those kept under weaker criteria |
| `SearchEngine.SummariesKeepSubseq` | app_cardiology_final_full.py:388-397 | projecting two patient sequences to summaries keeps one a subsequence of the other |
| `SearchEngine.SearchStricterIsSubseq` | app_cardiology_final_full.py:345-397 | strengthening the criteria never adds a search result, and the remaining results keep their order |
| `SearchEngine.KeepCombine` | app_cardiology_final_full.py:355-387 | filtering with the union of two compatible criteria sets equals filtering with the first and then with the second |
| `SearchEngine.SearchCombine` | app_cardiology_final_full.py:346-397 | the search for the union of two compatible criteria sets is the first search's matches filtered by the second set, and is a subsequence of each individual search |
| `SearchEngine.KeepAllWhenNothingProvided` | app_cardiology_final_full.py:347-386 | with no criterion provided the filter keeps every patient |
| `SearchEngine.UnfilteredSearchMatchesDump` | app_cardiology_final_full.py:284-397 | with no criterion provided the search has one result per patient, in the same order as the full listing, and each result is that listing row cut down to the summary's cells |
| `Scenarios.AnaStore` | app_cardiology_final_full.py:99-214 | adding a patient and her history, lesion and vessel records to an empty store gives one patient with key 1, joined to exactly those records and no PCI record |
| `Scenarios.AnaIsFound` | app_cardiology_final_full.py:356-397 | for that store, searching for gender "Female" with at least two vessels returns exactly that patient's summary |
| `Scenarios.NobodyHasCircumflexLesion` | app_cardiology_final_full.py:370-371 | for that store, searching for a circumflex (LCX) lesion returns nothing |
| `Scenarios.OrphanAdoption` | app_cardiology_final_full.py:270-277 | adding a patient, adding her history, deleting her and adding another patient gives the new patient the same key and joins it to the deleted patient's history |

## Left out

- The Streamlit interface is not modelled: widgets, sidebar dispatch, banners and JSON or table rendering (lines 62-97 and the `st.*` calls throughout). It is presentation only.
- The widget-enforced ranges are not modelled: age 1-120, BMI 10-50, vessel count 0-10, patient key at least 1. The forms enforce them and the core code does not check them, so the model takes any integer.
- The SQLAlchemy engine, session and commit machinery (lines 2-11, 59, 64) is replaced by pure table sequences. Storage failures are not modelled, because a commit is assumed to succeed.
- `app_standalone_full.py` is not part of this model. Every operation there is a request to a remote service whose code is not available. Its search builds the same sparse criteria that `Matcher.Sparse` describes.
- The plain patient listing (lines 113-120) prints the patient table in order. That table is `Store.patients` itself, so it has no separate member.
- The per-kind lookup views (lines 154-170, 189-201, 220-232 and 251-263) are modelled only as the lookup `Tables.FirstFor`. Their rendering of the found record is left out.
- BMI is a floating-point value in the source and a `real` here. It is only stored and displayed, never compared or computed with.
- `RecordStore.DeletePatient`: removes the earliest patient row with the key, whereas the database deletes by primary key. The two agree on well-formed stores (distinct keys), which every operation preserves.
- Concurrent sessions are not modelled. Every Streamlit session shares the one database file, and the detail forms check that the patient exists (line 136) and then insert and commit (lines 147-148) as separate statements, so a deletion by another session in between can leave a detail row for a patient that no longer exists. The model treats each form submission as one atomic step, which rules that case out.
- Repeating a lookup with no intervening write gives the same answer. This is not a separate lemma, because every lookup here is a function of the store.
