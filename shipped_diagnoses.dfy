/** What diagnose_disease returns on the shipped disease table. */
module ShippedDiagnoses {
  import opened Wrappers
  import opened KnowledgeBase
  import opened DiagnosisEngine

  /** No record of the shipped table has all its symptoms among those of a later record. */
  lemma FactsNoEarlierContained()
    ensures NoEarlierContained(Facts)
  {
    var t := Facts;
    forall j, k | 0 <= j < k < |t| ensures !Covers(t[k].symptoms, t[j].symptoms) {
      if j == 0 && k == 1 {
        MissingSymptom(t[k].symptoms, t[j].symptoms, "breathlessness");
      } else {
        assert j == 0 || j == 1 || j == 2 || j == 3 || j == 4 || j == 5;
        assert k == 1 || k == 2 || k == 3 || k == 4 || k == 5 || k == 6;
        MissingSymptom(t[k].symptoms, t[j].symptoms, t[j].symptoms[0]);
      }
    }
  }

  /** Every shipped disease is diagnosed exactly from its own symptom list. */
  lemma FactsSelfMatch(i: nat)
    requires i < |Facts|
    ensures Diagnose(Facts, Facts[i].symptoms) == Diagnosis(Some(Facts[i].name), [])
  {
    FactsNoEarlierContained();
    SelfMatch(Facts, i);
  }

  /** The full symptom list of meningitis diagnoses meningitis. */
  lemma MeningitisExample()
    ensures Diagnose(Facts, ["headache", "stiff neck", "nausea"]) == Diagnosis(Some("Meningitis"), [])
  {
    FactsSelfMatch(2);
  }

  /** "fever, cough" covers no record of the shipped table. */
  lemma FeverCoughCoversNothing()
    ensures forall i :: 0 <= i < |Facts| ==> !Covers(["fever", "cough"], Facts[i].symptoms)
  {
    var q := ["fever", "cough"];
    var t := Facts;
    forall i | 0 <= i < |t| ensures !Covers(q, t[i].symptoms) {
      MissingSymptom(q, t[i].symptoms, t[i].symptoms[|t[i].symptoms| - 1]);
    }
  }

  /** Of the shipped records, exactly COVID-19 and Flu share a symptom with "fever, cough". */
  lemma FeverCoughOverlaps()
    ensures Overlaps(["fever", "cough"], Facts[0].symptoms) && Overlaps(["fever", "cough"], Facts[1].symptoms)
    ensures forall i :: 2 <= i < |Facts| ==> !Overlaps(["fever", "cough"], Facts[i].symptoms)
  {
    var q := ["fever", "cough"];
    var t := Facts;
    assert "fever" in t[0].symptoms && "fever" in t[1].symptoms && "fever" in q;
    forall i | 2 <= i < |t| ensures !Overlaps(q, t[i].symptoms) {
      assert i == 2 || i == 3 || i == 4 || i == 5 || i == 6;
    }
  }

  /** Only COVID-19 and Flu share a symptom with "fever, cough", in that order. */
  lemma FeverCoughCandidates()
    ensures OverlapNames(Facts, ["fever", "cough"]) == ["COVID-19", "Flu"]
  {
    var q := ["fever", "cough"];
    var t := Facts;
    FeverCoughOverlaps();
    assert t[..0] == [];
    OverlapNamesStep(t, q, 0);
    OverlapNamesStep(t, q, 1);
    assert OverlapNames(t[..2], q) == ["COVID-19", "Flu"];
    TrailingNoOverlap(t, q, 2);
  }

  /** "fever, cough" gives no exact match and the candidates COVID-19 and Flu, in table order. */
  lemma FeverCoughExample()
    ensures Diagnose(Facts, ["fever", "cough"]) == Diagnosis(None, ["COVID-19", "Flu"])
  {
    FeverCoughCoversNothing();
    FeverCoughCandidates();
  }

  /** A symptom that no record lists gives neither a match nor a candidate. */
  lemma UnknownSymptomExample()
    ensures Diagnose(Facts, ["xyz"]) == Diagnosis(None, [])
  {
    SymptomListsNonEmpty();
    UnrelatedQuery(Facts, ["xyz"]);
  }

  /** The empty query gives neither a match nor a candidate on the shipped table. */
  lemma FactsEmptyQuery()
    ensures Diagnose(Facts, []) == Diagnosis(None, [])
  {
    SymptomListsNonEmpty();
    EmptyQuery(Facts);
  }
}
