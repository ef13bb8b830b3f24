/**
 * The static knowledge base of the diagnosis engine: the disease table
 * (an insertion-ordered dictionary from disease name to its record) and the
 * category hierarchy (a dictionary from a parent category to its direct
 * children), with the two membership predicates defined on them.
 */
module KnowledgeBase {

  /** One record of the disease table: its key, the symptoms an exact match needs, and its category. */
  datatype Disease = Disease(name: string, symptoms: seq<string>, category: string)

  /** The keys of a dictionary are pairwise distinct. */
  predicate DistinctNames(t: seq<Disease>) {
    forall i, j :: 0 <= i < j < |t| ==> t[i].name != t[j].name
  }

  /** The disease table: records in insertion order, one per key. */
  type Table = t: seq<Disease> | DistinctNames(t) witness []

  /** `name` is a key of the table. */
  predicate IsKey(t: seq<Disease>, name: string) {
    exists i :: 0 <= i < |t| && t[i].name == name
  }

  /** Position of the record keyed `name`: the lookup `facts[name]`. */
  function IndexOf(t: seq<Disease>, name: string): (i: nat)
    requires IsKey(t, name)
    ensures i < |t| && t[i].name == name
    ensures forall j :: 0 <= j < i ==> t[j].name != name
    decreases |t|
  {
    if t[0].name == name then 0
    else
      assert IsKey(t[1..], name) by {
        var k :| 0 <= k < |t| && t[k].name == name;
        assert t[1..][k - 1].name == name;
      }
      1 + IndexOf(t[1..], name)
  }

  /**
   * has_symptom: whether `symptom` is listed for the disease keyed `disease`.
   * The source indexes the dictionary directly, so an absent key is a failure
   * (a KeyError); here it is a precondition.
   */
  function HasSymptom(t: Table, disease: string, symptom: string): (b: bool)
    requires IsKey(t, disease)
    ensures forall i :: 0 <= i < |t| && t[i].name == disease ==> (b <==> symptom in t[i].symptoms)
  {
    symptom in t[IndexOf(t, disease)].symptoms
  }

  /** The category hierarchy: a parent category mapped to its direct children. */
  type Hierarchy = map<string, seq<string>>

  /** The lookup `isa_hierarchy.get(entity, [])`. */
  function Children(h: Hierarchy, entity: string): (children: seq<string>) {
    if entity in h then h[entity] else []
  }

  /**
   * isa: whether `category` is listed directly under the key `entity`. Keys
   * are parents, so the test reads "entity has category as a direct child";
   * an entity that is not a key has no children.
   */
  function Isa(h: Hierarchy, entity: string, category: string): (b: bool)
    ensures b <==> entity in h && category in h[entity]
  {
    category in Children(h, entity)
  }

  /** The shipped disease table, in insertion order. */
  const Facts: Table := (FactsNamesDistinct(); FactsRecords)

  /** The records of the shipped disease table, in insertion order. */
  const FactsRecords: seq<Disease> := [
    Disease("COVID-19", ["fever", "cough", "breathlessness"], "Viral Disease"),
    Disease("Flu", ["fever", "cough", "sore throat"], "Viral Disease"),
    Disease("Meningitis", ["headache", "stiff neck", "nausea"], "Bacterial Disease"),
    Disease("Heart Disease", ["chest pain", "shortness of breath"], "Chronic Disease"),
    Disease("Diabetes", ["frequent urination", "increased thirst", "fatigue"], "Chronic Disease"),
    Disease("Tuberculosis", ["persistent cough", "weight loss", "night sweats"], "Bacterial Disease"),
    Disease("Asthma", ["wheezing", "shortness of breath", "chest tightness"], "Chronic Disease")
  ]

  /** The shipped category hierarchy. */
  const IsaHierarchy: Hierarchy := map[
    "Disease" := ["Viral Disease", "Bacterial Disease", "Chronic Disease"],
    "Viral Disease" := ["COVID-19", "Flu"],
    "Bacterial Disease" := ["Meningitis", "Tuberculosis"],
    "Chronic Disease" := ["Heart Disease", "Diabetes", "Asthma"]
  ]

  /** The shipped table's keys are distinct, so it is a `Table`. */
  lemma FactsNamesDistinct()
    ensures DistinctNames(FactsRecords)
  {
    var t := FactsRecords;
    forall i, j | 0 <= i < j < |t| ensures t[i].name != t[j].name {
      assert i == 0 || i == 1 || i == 2 || i == 3 || i == 4 || i == 5;
      assert j == 1 || j == 2 || j == 3 || j == 4 || j == 5 || j == 6;
    }
  }

  /** The keys of the shipped table, listed. */
  lemma FactsKeys(name: string)
    ensures IsKey(Facts, name) <==>
      name in ["COVID-19", "Flu", "Meningitis", "Heart Disease", "Diabetes", "Tuberculosis", "Asthma"]
  {
    if IsKey(Facts, name) {
      var i :| 0 <= i < |Facts| && Facts[i].name == name;
      assert i == 0 || i == 1 || i == 2 || i == 3 || i == 4 || i == 5 || i == 6;
    }
    if name == "COVID-19" { assert Facts[0].name == name; }
    if name == "Flu" { assert Facts[1].name == name; }
    if name == "Meningitis" { assert Facts[2].name == name; }
    if name == "Heart Disease" { assert Facts[3].name == name; }
    if name == "Diabetes" { assert Facts[4].name == name; }
    if name == "Tuberculosis" { assert Facts[5].name == name; }
    if name == "Asthma" { assert Facts[6].name == name; }
  }

  /** Every record is filed, as a direct child, under its own category. */
  lemma CategoriesListTheirDiseases()
    ensures forall i :: 0 <= i < |Facts| ==>
      Facts[i].category in IsaHierarchy && Isa(IsaHierarchy, Facts[i].category, Facts[i].name)
  {
  }

  /** Every leaf under a direct subcategory of "Disease" is a key of the disease table. */
  lemma LeavesAreDiseases()
    ensures forall c, x :: c in Children(IsaHierarchy, "Disease") && x in Children(IsaHierarchy, c) ==>
      IsKey(Facts, x)
  {
    forall c, x | c in Children(IsaHierarchy, "Disease") && x in Children(IsaHierarchy, c)
      ensures IsKey(Facts, x)
    {
      FactsKeys(x);
    }
  }

  /** Every name listed in the hierarchy is a key of the disease table or a category key. */
  lemma HierarchyNamesAreKnown()
    ensures forall k, x :: k in IsaHierarchy && x in IsaHierarchy[k] ==> IsKey(Facts, x) || x in IsaHierarchy
  {
    forall k, x | k in IsaHierarchy && x in IsaHierarchy[k]
      ensures IsKey(Facts, x) || x in IsaHierarchy
    {
      FactsKeys(x);
    }
  }

  /** Every record of the shipped table needs at least one symptom. */
  lemma SymptomListsNonEmpty()
    ensures forall i :: 0 <= i < |Facts| ==> Facts[i].symptoms != []
  {
  }

  /** has_symptom on the shipped table. */
  lemma HasSymptomExamples()
    ensures IsKey(Facts, "Flu") && HasSymptom(Facts, "Flu", "sore throat")
    ensures IsKey(Facts, "Flu") && !HasSymptom(Facts, "Flu", "breathlessness")
  {
    FactsKeys("Flu");
  }

  /** isa tests one level only, from parent key to child. */
  lemma IsaIsDirect()
    ensures Isa(IsaHierarchy, "Disease", "Viral Disease")
    ensures Isa(IsaHierarchy, "Viral Disease", "Flu")
    ensures !Isa(IsaHierarchy, "Disease", "Flu")
    ensures !Isa(IsaHierarchy, "Flu", "Viral Disease")
  {
  }
}
