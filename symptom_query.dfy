/**
 * The query normalisation of run_diagnosis: the entered text is split on the
 * delimiter ", " (Python's `str.split` with an explicit separator: scanning
 * left to right, cutting at each non-overlapping occurrence).
 */
module SymptomQuery {
  import opened Wrappers
  import opened KnowledgeBase
  import opened DiagnosisEngine
  import ShippedDiagnoses

  /** The delimiter the entry is split on. */
  const Delimiter: string := ", "

  /** `sep` occurs in `s` starting at position `j`. */
  predicate OccursAt(s: string, sep: string, j: nat) {
    j + |sep| <= |s| && s[j..j + |sep|] == sep
  }

  /** `sep` occurs somewhere in `s`. */
  predicate Contains(s: string, sep: string) {
    exists j: nat :: j <= |s| && OccursAt(s, sep, j)
  }

  /** Position of the first occurrence of `sep` in `s` at or after `from`. */
  function FindFrom(s: string, sep: string, from: nat): (r: Option<nat>)
    requires sep != [] && from <= |s|
    ensures r.Some? ==> from <= r.value && OccursAt(s, sep, r.value)
    ensures r.Some? ==> forall j: nat :: from <= j < r.value ==> !OccursAt(s, sep, j)
    ensures r.None? ==> forall j: nat :: from <= j ==> !OccursAt(s, sep, j)
    decreases |s| - from
  {
    if from + |sep| > |s| then None
    else if s[from..from + |sep|] == sep then Some(from)
    else FindFrom(s, sep, from + 1)
  }

  /** `s.split(sep)`; an empty separator is an error in the source, here a precondition. */
  function Split(s: string, sep: string): (parts: seq<string>)
    requires sep != []
    ensures |parts| >= 1
    decreases |s|
  {
    match FindFrom(s, sep, 0)
    case None => [s]
    case Some(i) => [s[..i]] + Split(s[i + |sep|..], sep)
  }

  /** No piece of a split contains the separator. */
  lemma {:induction false} SplitPiecesHaveNoSeparator(s: string, sep: string)
    requires sep != []
    ensures forall k :: 0 <= k < |Split(s, sep)| ==> !Contains(Split(s, sep)[k], sep)
    decreases |s|
  {
    match FindFrom(s, sep, 0)
    case None =>
      assert Split(s, sep) == [s];
    case Some(i) =>
      var piece := s[..i];
      var rest := s[i + |sep|..];
      assert !Contains(piece, sep) by {
        forall j: nat | j <= |piece| && OccursAt(piece, sep, j) ensures OccursAt(s, sep, j) {
          assert piece[j..j + |sep|] == s[j..j + |sep|];
        }
      }
      SplitPiecesHaveNoSeparator(rest, sep);
      assert Split(s, sep) == [piece] + Split(rest, sep);
  }

  /** `sep.join(parts)`. */
  function Join(parts: seq<string>, sep: string): (joined: string)
    decreases |parts|
  {
    if parts == [] then ""
    else if |parts| == 1 then parts[0]
    else parts[0] + sep + Join(parts[1..], sep)
  }

  /** Splitting and joining back with the same separator gives the original text. */
  lemma {:induction false} JoinSplit(s: string, sep: string)
    requires sep != []
    ensures Join(Split(s, sep), sep) == s
    decreases |s|
  {
    var found := FindFrom(s, sep, 0);
    if found.Some? {
      var i := found.value;
      var rest := s[i + |sep|..];
      var tail := Split(rest, sep);
      JoinSplit(rest, sep);
      var parts := Split(s, sep);
      assert parts == [s[..i]] + tail;
      assert |parts| > 1 && parts[0] == s[..i] && parts[1..] == tail;
      calc {
        Join(parts, sep);
        s[..i] + sep + Join(tail, sep);
        s[..i] + s[i..i + |sep|] + rest;
        { assert s == s[..i] + s[i..i + |sep|] + rest; }
        s;
      }
    }
  }

  /**
   * The symptom list run_diagnosis passes to diagnose_disease (case mapping
   * left out). It is never empty, so the "no symptoms" warning that follows
   * the split in run_diagnosis cannot fire.
   */
  function ParseSymptoms(entry: string): (query: seq<string>)
    ensures |query| >= 1
    ensures Join(query, Delimiter) == entry
  {
    JoinSplit(entry, Delimiter);
    Split(entry, Delimiter)
  }

  /** An empty entry parses to the one empty symptom, which diagnoses nothing. */
  lemma EmptyEntry()
    ensures ParseSymptoms("") == [""]
    ensures Diagnose(Facts, ParseSymptoms("")) == Diagnosis(None, [])
  {
    assert FindFrom("", Delimiter, 0) == None;
    SymptomListsNonEmpty();
    UnrelatedQuery(Facts, [""]);
  }

  /** The entered text "fever, cough" parses to the two symptoms. */
  lemma FeverCoughEntry()
    ensures ParseSymptoms("fever, cough") == ["fever", "cough"]
  {
    var s := "fever, cough";
    assert s[5..7] == Delimiter;
    assert FindFrom(s, Delimiter, 5) == Some(5);
    assert s[4..6][0] != ',' && FindFrom(s, Delimiter, 4) == Some(5);
    assert s[3..5][0] != ',' && FindFrom(s, Delimiter, 3) == Some(5);
    assert s[2..4][0] != ',' && FindFrom(s, Delimiter, 2) == Some(5);
    assert s[1..3][0] != ',' && FindFrom(s, Delimiter, 1) == Some(5);
    assert s[0..2][0] != ',' && FindFrom(s, Delimiter, 0) == Some(5);
    assert s[..5] == "fever" && s[7..] == "cough";
    var c := "cough";
    assert FindFrom(c, Delimiter, 4) == None;
    assert c[3..5][0] != ',' && FindFrom(c, Delimiter, 3) == None;
    assert c[2..4][0] != ',' && FindFrom(c, Delimiter, 2) == None;
    assert c[1..3][0] != ',' && FindFrom(c, Delimiter, 1) == None;
    assert c[0..2][0] != ',' && FindFrom(c, Delimiter, 0) == None;
  }

  /** Entering "fever, cough" yields the candidates COVID-19 and Flu. */
  lemma FeverCoughEntryDiagnosis()
    ensures Diagnose(Facts, ParseSymptoms("fever, cough")) == Diagnosis(None, ["COVID-19", "Flu"])
  {
    FeverCoughEntry();
    ShippedDiagnoses.FeverCoughExample();
  }
}
