/** assess_severity: a fixed description per shipped disease, and a fallback for every other name. */
module Severity {
  import opened KnowledgeBase

  /** The fallback for a name with no description. */
  const UnknownSeverity: string := "Unknown severity."

  /** The chain of name tests of assess_severity; total, never a failure. */
  function AssessSeverity(disease: string): (r: string)
    ensures r != UnknownSeverity <==> IsKey(Facts, disease)
  {
    FactsKeys(disease);
    if disease == "COVID-19" then "Severe. Immediate medical attention may be required."
    else if disease == "Flu" then "Mild. Usually treatable at home with rest."
    else if disease == "Meningitis" then "Severe. Emergency medical help needed."
    else if disease == "Heart Disease" then "Critical. Immediate medical intervention required."
    else if disease == "Diabetes" then "Chronic. Requires ongoing management."
    else if disease == "Tuberculosis" then "Serious. Medical treatment necessary."
    else if disease == "Asthma" then "Manageable. Requires regular treatment and monitoring."
    else UnknownSeverity
  }

  /** Every disease of the shipped table has a known severity. */
  lemma EveryDiseaseHasSeverity(i: nat)
    requires i < |Facts|
    ensures AssessSeverity(Facts[i].name) != UnknownSeverity
  {
  }

  /** Two lookups of assess_severity. */
  lemma SeverityExamples()
    ensures AssessSeverity("Flu") == "Mild. Usually treatable at home with rest."
    ensures AssessSeverity("Unknown Disease Name") == UnknownSeverity
  {
  }
}
