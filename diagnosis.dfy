/**
 * diagnose_disease: scan the disease table in insertion order; the first
 * record whose symptoms all appear in the query wins at once, with no
 * candidates; otherwise every record sharing at least one symptom with the
 * query is collected, in table order.
 */
module DiagnosisEngine {
  import opened Wrappers
  import opened KnowledgeBase

  /**
   * Every symptom of the record appears in the query (the `all(...)` test):
   * the record's symptom set is a subset of the query's, vacuously so for a
   * record with no symptoms.
   */
  predicate Covers(query: seq<string>, symptoms: seq<string>)
    ensures Covers(query, symptoms) <==> (set s | s in symptoms) <= (set s | s in query)
    ensures symptoms == [] ==> Covers(query, symptoms)
  {
    var mine, asked := set s | s in symptoms, set s | s in query;
    assert (forall s :: s in symptoms ==> s in query) <==> mine <= asked by {
      if mine <= asked {
        forall s | s in symptoms ensures s in query {
          assert s in mine;
        }
      }
    }
    forall s :: s in symptoms ==> s in query
  }

  /**
   * Some symptom of the record appears in the query (the `any(...)` test):
   * the two symptom sets intersect, which needs both to be non-empty.
   */
  predicate Overlaps(query: seq<string>, symptoms: seq<string>)
    ensures Overlaps(query, symptoms) <==> (set s | s in symptoms) * (set s | s in query) != {}
    ensures Overlaps(query, symptoms) ==> symptoms != [] && query != []
  {
    var mine, asked := set s | s in symptoms, set s | s in query;
    assert (exists s :: s in symptoms && s in query) <==> mine * asked != {} by {
      if mine * asked != {} {
        var s :| s in mine * asked;
        assert s in symptoms && s in query;
      }
      if s :| s in symptoms && s in query {
        assert s in mine * asked;
      }
    }
    exists s :: s in symptoms && s in query
  }

  /** The pair returned by diagnose_disease: the exact match, if any, and the candidate names. */
  datatype Diagnosis = Diagnosis(exact: Option<string>, candidates: seq<string>)

  /** Position of the first record fully covered by the query. */
  function FirstCover(t: seq<Disease>, query: seq<string>): (r: Option<nat>)
    ensures r.Some? ==> r.value < |t| && Covers(query, t[r.value].symptoms)
    ensures r.Some? ==> forall j :: 0 <= j < r.value ==> !Covers(query, t[j].symptoms)
    ensures r.None? ==> forall j :: 0 <= j < |t| ==> !Covers(query, t[j].symptoms)
    decreases |t|
  {
    if t == [] then None
    else if Covers(query, t[0].symptoms) then Some(0)
    else
      match FirstCover(t[1..], query)
      case None => None
      case Some(k) => Some(k + 1)
  }

  /**
   * Positions of the records sharing a symptom with the query, ascending.
   * The last clause is a corollary of the first, kept for callers.
   */
  function OverlapIndices(t: seq<Disease>, query: seq<string>): (idx: seq<nat>)
    ensures forall k :: 0 <= k < |idx| ==> idx[k] < |t| && Overlaps(query, t[idx[k]].symptoms)
    ensures forall k, l :: 0 <= k < l < |idx| ==> idx[k] < idx[l]
    ensures forall i :: 0 <= i < |t| && Overlaps(query, t[i].symptoms) ==> i in idx
    ensures (forall i :: 0 <= i < |t| ==> !Overlaps(query, t[i].symptoms)) ==> idx == []
    decreases |t|
  {
    if t == [] then []
    else
      var n := |t| - 1;
      OverlapIndices(t[..n], query) + (if Overlaps(query, t[n].symptoms) then [n] else [])
  }

  /** The names of the records at the given positions. */
  function NamesAt(t: seq<Disease>, idx: seq<nat>): (names: seq<string>)
    requires forall k :: 0 <= k < |idx| ==> idx[k] < |t|
  {
    seq(|idx|, k requires 0 <= k < |idx| => t[idx[k]].name)
  }

  /**
   * The names of the records sharing a symptom with the query, in table
   * order: the accumulator `possible_diseases` after scanning all of `t`.
   */
  function OverlapNames(t: seq<Disease>, query: seq<string>): (names: seq<string>)
    decreases |t|
  {
    if t == [] then []
    else
      var n := |t| - 1;
      OverlapNames(t[..n], query) + (if Overlaps(query, t[n].symptoms) then [t[n].name] else [])
  }

  /** The accumulated names are exactly the names at the overlapping positions. */
  lemma {:induction false} OverlapNamesAtIndices(t: seq<Disease>, query: seq<string>)
    ensures OverlapNames(t, query) == NamesAt(t, OverlapIndices(t, query))
    decreases |t|
  {
    if t != [] {
      var n := |t| - 1;
      var p := t[..n];
      OverlapNamesAtIndices(p, query);
      var idx := OverlapIndices(p, query);
      var extra := if Overlaps(query, t[n].symptoms) then [n] else [];
      var all := OverlapIndices(t, query);
      assert all == idx + extra;
      var lhs := OverlapNames(t, query);
      var rhs := NamesAt(t, all);
      assert lhs == NamesAt(p, idx) + (if Overlaps(query, t[n].symptoms) then [t[n].name] else []);
      assert |lhs| == |rhs|;
      forall k | 0 <= k < |lhs| ensures lhs[k] == rhs[k] {
        if k < |idx| {
          assert all[k] == idx[k] && p[idx[k]] == t[idx[k]];
        } else {
          assert all[k] == n;
        }
      }
    }
  }

  /** The result diagnose_disease promises, stated without its loop. */
  function Diagnose(t: seq<Disease>, query: seq<string>): (d: Diagnosis)
    ensures d.exact.Some? <==> exists i :: 0 <= i < |t| && Covers(query, t[i].symptoms)
    ensures d.exact.Some? ==> d.candidates == []
    ensures d.exact.Some? ==> exists i :: 0 <= i < |t| && t[i].name == d.exact.value &&
                                          Covers(query, t[i].symptoms) &&
                                          forall j :: 0 <= j < i ==> !Covers(query, t[j].symptoms)
    ensures d.exact.None? ==> d.candidates == OverlapNames(t, query)
  {
    match FirstCover(t, query)
    case Some(i) => Diagnosis(Some(t[i].name), [])
    case None => Diagnosis(None, OverlapNames(t, query))
  }

  /** One more record scanned adds its name to the candidates exactly when it shares a symptom. */
  lemma OverlapNamesStep(t: seq<Disease>, query: seq<string>, i: nat)
    requires i < |t|
    ensures OverlapNames(t[..i + 1], query) ==
      OverlapNames(t[..i], query) + (if Overlaps(query, t[i].symptoms) then [t[i].name] else [])
  {
    assert t[..i + 1][..i] == t[..i];
  }

  /**
   * The loop of diagnose_disease: returns at the first fully covered record,
   * otherwise accumulates the overlapping records' names.
   */
  method DiagnoseDisease(t: seq<Disease>, query: seq<string>) returns (r: Diagnosis)
    ensures r == Diagnose(t, query)
  {
    var possible: seq<string> := [];
    var i := 0;
    while i < |t|
      invariant 0 <= i <= |t|
      invariant forall j :: 0 <= j < i ==> !Covers(query, t[j].symptoms)
      invariant possible == OverlapNames(t[..i], query)
    {
      var d := t[i];
      if Covers(query, d.symptoms) {
        return Diagnosis(Some(d.name), []);
      }
      if Overlaps(query, d.symptoms) {
        possible := possible + [d.name];
      }
      OverlapNamesStep(t, query, i);
      i := i + 1;
    }
    assert t[..i] == t;
    r := Diagnosis(None, possible);
  }

  /** Records after position `m` that share no symptom add no candidates. */
  lemma TrailingNoOverlap(t: seq<Disease>, query: seq<string>, m: nat)
    requires m <= |t|
    requires forall i :: m <= i < |t| ==> !Overlaps(query, t[i].symptoms)
    ensures OverlapNames(t, query) == OverlapNames(t[..m], query)
  {
    var n := m;
    while n < |t|
      invariant m <= n <= |t|
      invariant OverlapNames(t[..n], query) == OverlapNames(t[..m], query)
    {
      OverlapNamesStep(t, query, n);
      n := n + 1;
    }
    assert t[..n] == t;
  }

  /** A record with a symptom missing from the query is not covered. */
  lemma MissingSymptom(query: seq<string>, symptoms: seq<string>, s: string)
    requires s in symptoms && s !in query
    ensures !Covers(query, symptoms)
  {
  }

  /**
   * The candidates are keys of the table listed in strictly increasing table
   * position: in table order and without repetition.
   */
  lemma CandidatesInTableOrder(t: Table, query: seq<string>)
    ensures forall k :: 0 <= k < |OverlapNames(t, query)| ==> IsKey(t, OverlapNames(t, query)[k])
    ensures forall k, l :: 0 <= k < l < |OverlapNames(t, query)| ==>
      IndexOf(t, OverlapNames(t, query)[k]) < IndexOf(t, OverlapNames(t, query)[l])
  {
    OverlapNamesAtIndices(t, query);
    var idx := OverlapIndices(t, query);
    var names := OverlapNames(t, query);
    forall k | 0 <= k < |names| ensures IsKey(t, names[k]) && IndexOf(t, names[k]) == idx[k] {
      assert t[idx[k]].name == names[k];
    }
  }

  /** A name is a candidate exactly when some record with that name shares a symptom with the query. */
  lemma CandidatesAreOverlapping(t: seq<Disease>, query: seq<string>, name: string)
    ensures name in OverlapNames(t, query) <==>
      exists i :: 0 <= i < |t| && t[i].name == name && Overlaps(query, t[i].symptoms)
  {
    OverlapNamesAtIndices(t, query);
    var idx := OverlapIndices(t, query);
    var names := OverlapNames(t, query);
    if name in names {
      var k :| 0 <= k < |names| && names[k] == name;
      assert t[idx[k]].name == name;
    }
    if i :| 0 <= i < |t| && t[i].name == name && Overlaps(query, t[i].symptoms) {
      var k :| 0 <= k < |idx| && idx[k] == i;
      assert names[k] == name;
    }
  }

  /**
   * A query sharing no symptom with any record (the empty query among them)
   * gives neither an exact match nor a candidate, provided every record needs
   * at least one symptom.
   */
  lemma UnrelatedQuery(t: seq<Disease>, query: seq<string>)
    requires forall i :: 0 <= i < |t| ==> t[i].symptoms != []
    requires forall i :: 0 <= i < |t| ==> !Overlaps(query, t[i].symptoms)
    ensures Diagnose(t, query) == Diagnosis(None, [])
  {
    forall i | 0 <= i < |t| ensures !Covers(query, t[i].symptoms) {
      MissingSymptom(query, t[i].symptoms, t[i].symptoms[0]);
    }
    OverlapNamesAtIndices(t, query);
  }

  /** The empty query gives the fully empty result when every record needs a symptom. */
  lemma EmptyQuery(t: seq<Disease>)
    requires forall i :: 0 <= i < |t| ==> t[i].symptoms != []
    ensures Diagnose(t, []) == Diagnosis(None, [])
  {
    UnrelatedQuery(t, []);
  }

  /** No record's symptoms are all among those of a later record (so every record matches itself). */
  predicate NoEarlierContained(t: seq<Disease>) {
    forall j, k :: 0 <= j < k < |t| ==> !Covers(t[k].symptoms, t[j].symptoms)
  }

  /** Querying a record's own symptoms returns that record, if no earlier one is contained in it. */
  lemma SelfMatch(t: seq<Disease>, i: nat)
    requires i < |t|
    requires forall j :: 0 <= j < i ==> !Covers(t[i].symptoms, t[j].symptoms)
    ensures Diagnose(t, t[i].symptoms) == Diagnosis(Some(t[i].name), [])
  {
    var q := t[i].symptoms;
    assert Covers(q, t[i].symptoms);
    assert FirstCover(t, q).Some?;
  }
}
