# Medical diagnosis engine — Dafny model

This project models the rule-based diagnosis engine of a small desktop
medical-diagnosis form (`MDS.py`). The engine has:

- a static **knowledge base**: an ordered table of diseases, each with its
  symptom list and its category, and a category hierarchy that maps a parent
  category to its direct children;
- **`diagnose_disease`**: scans the table in insertion order. The first disease
  whose symptoms all appear in the query wins at once, with no candidates.
  Otherwise the result is no match, plus every disease that shares at least one
  symptom with the query, in table order;
- the membership predicates **`has_symptom`** and **`isa`**;
- **`assess_severity`**: a total lookup that falls back to `"Unknown severity."`;
- the query normalisation `split(", ")` that the form applies to the entered text.

Modules, one per part of the engine:

- `Wrappers` (`wrappers.dfy`): `Option`.
- `KnowledgeBase` (`knowledge_base.dfy`): the `Disease` record and the `Table`
  type. A `Table` is an ordered sequence of records with distinct names, which
  is how an insertion-ordered Python dictionary behaves. It also holds the
  `Hierarchy` map, the shipped constants `Facts` and `IsaHierarchy`,
  `HasSymptom`, `Isa`, and the consistency lemmas for the shipped tables.
- `DiagnosisEngine` (`diagnosis.dfy`): `Diagnose`, which states the result
  without a loop. It is built from `FirstCover` (the position of the first
  fully covered record) and `OverlapNames` (the accumulated candidates).
  `DiagnoseDisease` is the loop with its early return, proved equal to
  `Diagnose`. Then come the general lemmas about the result.
- `ShippedDiagnoses` (`shipped_diagnoses.dfy`): what the engine returns on the
  shipped table.
- `Severity` (`severity.dfy`): `AssessSeverity`.
- `SymptomQuery` (`symptom_query.dfy`): `Split`, `Join` and `ParseSymptoms`.

The operations take the table or hierarchy as a parameter instead of reading a
global. Applied to `Facts` and `IsaHierarchy`, they behave like the source's
module-level constants.

`DiagnoseDisease` is specified as equal to the function `Diagnose`. So two
calls with the same query give the same result, and nothing is mutated between
them.

Two consequences of the code worth stating:

- `isa`'s keys are parents, so `isa("Viral Disease", "Flu")` holds and
  `isa("Flu", "Viral Disease")` does not, because `"Flu"` is not a key
  (`IsaIsDirect`).
- The `"fever, cough"` candidates are exactly `COVID-19` and `Flu`, because
  Tuberculosis lists `"persistent cough"`, not `"cough"` (`FeverCoughCandidates`).

## Model

| member | source | states |
|---|---|---|
| `KnowledgeBase.HasSymptom` | MDS.py:24-25 | for a key of the table, the result is true iff the symptom is in that disease's symptom list; an absent key (a KeyError) is excluded by the precondition |
| `KnowledgeBase.IndexOf` | MDS.py:25 | the lookup `facts[disease]`: for a key, the position of the record with that name, with no earlier record of that name |
| `KnowledgeBase.Children` | MDS.py:39 | `isa_hierarchy.get(entity, [])`: the key's child list, or the empty list for a non-key; no contract of its own, described by the contract of `KnowledgeBase.Isa` |
| `KnowledgeBase.Isa` | MDS.py:38-39 | true iff `entity` is a hierarchy key and `category` is among its direct children; false for every entity that is not a key |
| `KnowledgeBase.IsaIsDirect` | MDS.py:16-39 | on the shipped hierarchy, Disease→Viral Disease and Viral Disease→Flu hold, but Disease→Flu does not (not transitive), and Flu→Viral Disease does not (direction is parent to child) |
| `KnowledgeBase.FactsNamesDistinct` | MDS.py:5-13 | the shipped table's disease names are distinct, as dictionary keys are |
| `KnowledgeBase.FactsKeys` | MDS.py:5-13 | the keys of the shipped table are exactly the seven listed disease names |
| `KnowledgeBase.CategoriesListTheirDiseases` | MDS.py:5-21 | every disease's type is a hierarchy key whose direct children include that disease |
| `KnowledgeBase.LeavesAreDiseases` | MDS.py:5-21 | every child of each direct subcategory of "Disease" is a key of the disease table |
| `KnowledgeBase.HierarchyNamesAreKnown` | MDS.py:5-21 | every name listed in the hierarchy is a disease key or a category key |
| `KnowledgeBase.SymptomListsNonEmpty` | MDS.py:6-12 | every shipped disease lists at least one symptom |
| `KnowledgeBase.HasSymptomExamples` | MDS.py:7 | Flu has "sore throat" and lacks "breathlessness" |
| `DiagnosisEngine.Covers` | MDS.py:31 | the `all(...)` test holds iff the record's symptom set is a subset of the query's; it holds vacuously for a record with no symptoms |
| `DiagnosisEngine.Overlaps` | MDS.py:33 | the `any(...)` test holds iff the record's and the query's symptom sets intersect, so never for an empty record or an empty query |
| `DiagnosisEngine.OverlapNames` | MDS.py:29-34 | the accumulator `possible_diseases`; no contract of its own, described by `DiagnosisEngine.OverlapNamesAtIndices`, `DiagnosisEngine.CandidatesAreOverlapping` and `DiagnosisEngine.CandidatesInTableOrder` |
| `DiagnosisEngine.FirstCover` | MDS.py:30-32 | returns the position of the first record whose symptoms are all in the query, with no earlier such record, or none when no record is covered |
| `DiagnosisEngine.OverlapIndices` | MDS.py:30-34 | the positions of the records sharing a symptom with the query: strictly ascending, every one overlapping, every overlapping position present, and empty when nothing overlaps |
| `DiagnosisEngine.OverlapNamesAtIndices` | MDS.py:29-34 | the accumulated candidate list equals the names at exactly those overlapping positions, in ascending order |
| `DiagnosisEngine.Diagnose` | MDS.py:28-35 | there is an exact match iff some record is fully covered; the match is the first such record in table order, with an empty candidate list; with no match, the candidates are the overlapping records' names |
| `DiagnosisEngine.OverlapNamesStep` | MDS.py:33-34 | scanning one more record appends its name to the candidates exactly when it shares a symptom |
| `DiagnosisEngine.DiagnoseDisease` | MDS.py:28-35 | the loop with early return on the first full match and the accumulation of overlapping names returns exactly `Diagnose` of its inputs |
| `DiagnosisEngine.TrailingNoOverlap` | MDS.py:33-34 | records after a position that share no symptom add no candidates |
| `DiagnosisEngine.MissingSymptom` | MDS.py:31 | a record one of whose symptoms is missing from the query is not fully covered |
| `DiagnosisEngine.CandidatesInTableOrder` | MDS.py:29-35 | every candidate is a table key, and candidates sit at strictly increasing table positions: table order, no duplicates |
| `DiagnosisEngine.CandidatesAreOverlapping` | MDS.py:33-34 | a name is a candidate iff some record with that name shares a symptom with the query |
| `DiagnosisEngine.UnrelatedQuery` | MDS.py:31-35 | if every record needs a symptom and none shares one with the query, the result is no match and no candidates |
| `DiagnosisEngine.EmptyQuery` | MDS.py:31-35 | the empty query gives no match and no candidates when every record needs a symptom |
| `DiagnosisEngine.SelfMatch` | MDS.py:30-32 | if no earlier record has all its symptoms among this record's, querying this record's own symptoms returns it with no candidates |
| `ShippedDiagnoses.FactsNoEarlierContained` | MDS.py:6-12 | in the shipped table, no disease's symptoms are all among those of a later disease |
| `ShippedDiagnoses.FactsSelfMatch` | MDS.py:6-32 | each shipped disease is diagnosed exactly from its own symptom list |
| `ShippedDiagnoses.MeningitisExample` | MDS.py:8 | "headache", "stiff neck", "nausea" diagnoses Meningitis with no candidates |
| `ShippedDiagnoses.FeverCoughCoversNothing` | MDS.py:6-12 | "fever", "cough" fully covers no shipped disease |
| `ShippedDiagnoses.FeverCoughOverlaps` | MDS.py:6-12 | of the shipped diseases, exactly COVID-19 and Flu share a symptom with "fever", "cough" |
| `ShippedDiagnoses.FeverCoughCandidates` | MDS.py:29-34 | the candidates for "fever", "cough" are exactly COVID-19 then Flu |
| `ShippedDiagnoses.FeverCoughExample` | MDS.py:28-35 | "fever", "cough" gives no match and the candidates COVID-19, Flu |
| `ShippedDiagnoses.UnknownSymptomExample` | MDS.py:31-35 | a query of one symptom that no disease lists gives no match and no candidates |
| `ShippedDiagnoses.FactsEmptyQuery` | MDS.py:31-35 | the empty query gives no match and no candidates on the shipped table |
| `Severity.AssessSeverity` | MDS.py:42-58 | total; the result differs from "Unknown severity." iff the name is a key of the shipped disease table |
| `Severity.EveryDiseaseHasSeverity` | MDS.py:42-58 | every disease in the shipped table gets a known severity |
| `Severity.SeverityExamples` | MDS.py:45-58 | Flu gives "Mild. Usually treatable at home with rest."; an unlisted name gives "Unknown severity." |
| `SymptomQuery.FindFrom` | MDS.py:62 | the first occurrence of the separator at or after a start position, with no earlier one; none when it does not occur there |
| `SymptomQuery.Split` | MDS.py:62 | splitting on a non-empty separator yields at least one piece |
| `SymptomQuery.SplitPiecesHaveNoSeparator` | MDS.py:62 | no piece of a split contains the separator |
| `SymptomQuery.JoinSplit` | MDS.py:62 | joining the pieces of a split back with the separator gives the original text |
| `SymptomQuery.ParseSymptoms` | MDS.py:62-65 | the parsed query is never empty, so the warning branch that follows the split is unreachable, and it joins back to the entered text |
| `SymptomQuery.EmptyEntry` | MDS.py:62-67 | an empty entry parses to the single empty symptom and diagnoses to no match and no candidates |
| `SymptomQuery.FeverCoughEntry` | MDS.py:62 | "fever, cough" parses to the two symptoms "fever" and "cough" |
| `SymptomQuery.FeverCoughEntryDiagnosis` | MDS.py:62-67 | entering "fever, cough" leads to no match and the candidates COVID-19, Flu |

## Left out

- The tkinter window, widgets, layout, message boxes and event loop (MDS.py:1-2, 83-114). These are presentation with no decision logic.
- `clear_input` (MDS.py:79-81). It only resets widget state.
- The result-label text of `run_diagnosis` (MDS.py:69-76). It picks one of three messages from the pair that `Diagnose` returns and formats strings.
- The `.lower()` call on the entry (MDS.py:62). Unicode case mapping is library behaviour outside the model, so the entered text is taken as already lower-case.
- `KnowledgeBase.HasSymptom`: a key missing from the table raises KeyError in the source. Here it is a precondition, not a modelled error.
- `SymptomQuery.Split`: Python raises ValueError for an empty separator. Here it is a precondition; the source only ever splits on ", ".
- Medical validity of the tables: they are arbitrary constants.
