/** Merging of the per-chunk extraction results (`merge_extractions` in
    llm_call.py). Each chunk's model answer lists form fields, instructions
    and special areas; the merge keeps, for each list, the first element of
    every non-empty key, in the order the keys first appear. */
module Extraction {
  import opened Base

  datatype Span = Span(offset: int, length: int)

  /** One entry of `form_fields`. A missing `field_key` is `None`. */
  datatype FormField = FormField(
    fieldName: string,
    fieldKey: Option<string>,
    fieldType: string,
    required: bool,
    validation: Option<string>,
    coordinates: Option<seq<real>>,
    span: Option<Span>,
    pageNumber: Option<int>)

  /** One entry of `special_areas`. A missing `label` is `None`. */
  datatype SpecialArea = SpecialArea(
    areaType: string,
    areaLabel: Option<string>,
    requirements: Option<string>,
    coordinates: Option<seq<real>>)

  /** One model answer, or the merged answer. A missing list is empty, as
      `extraction.get(..., [])` reads it. */
  datatype Extraction = Extraction(
    formFields: seq<FormField>,
    instructions: seq<string>,
    specialAreas: seq<SpecialArea>)

  /** `field.get('field_key', '')`. */
  function FieldKey(f: FormField): string { f.fieldKey.GetOr("") }

  /** `area.get('label', '')`. */
  function AreaKey(a: SpecialArea): string { a.areaLabel.GetOr("") }

  /** Instructions are deduplicated by their own text. */
  function InstructionKey(s: string): string { s }

  // ---------------------------------------------------------------------
  // Reference definition: the positions that hold the first occurrence of
  // a non-empty key.

  predicate IsFirst<T>(xs: seq<T>, i: nat, key: T -> string)
    requires i < |xs|
  {
    key(xs[i]) != "" && forall j :: 0 <= j < i ==> key(xs[j]) != key(xs[i])
  }

  predicate StrictlyIncreasing(idx: seq<nat>)
  {
    forall i, j :: 0 <= i < j < |idx| ==> idx[i] < idx[j]
  }

  function FirstIndices<T>(xs: seq<T>, key: T -> string): (idx: seq<nat>)
    ensures forall i :: 0 <= i < |idx| ==> idx[i] < |xs| && IsFirst(xs, idx[i], key)
    ensures forall j :: 0 <= j < |xs| && IsFirst(xs, j, key) ==> j in idx
    ensures StrictlyIncreasing(idx)
  {
    if |xs| == 0 then []
    else
      var n := |xs| - 1;
      var prev := FirstIndices(xs[..n], key);
      assert forall i :: 0 <= i < n ==> IsFirst(xs[..n], i, key) == IsFirst(xs, i, key) by {
        forall i | 0 <= i < n ensures IsFirst(xs[..n], i, key) == IsFirst(xs, i, key) {
          assert forall j :: 0 <= j < i ==> xs[..n][j] == xs[j];
        }
      }
      prev + (if IsFirst(xs, n, key) then [n] else [])
  }

  /** The elements at the first-occurrence positions, in input order. */
  function FirstOccurrences<T>(xs: seq<T>, key: T -> string): (r: seq<T>)
    ensures |r| == |FirstIndices(xs, key)|
    ensures forall i :: 0 <= i < |r| ==> r[i] == xs[FirstIndices(xs, key)[i]]
  {
    var idx := FirstIndices(xs, key);
    seq(|idx|, i requires 0 <= i < |idx| => xs[idx[i]])
  }

  /** The non-empty keys that occur in `xs`. */
  function Keys<T>(xs: seq<T>, key: T -> string): set<string>
  {
    set i | 0 <= i < |xs| && key(xs[i]) != "" :: key(xs[i])
  }

  /** No kept element has an empty key. */
  lemma FirstOccurrencesNonEmpty<T>(xs: seq<T>, key: T -> string)
    ensures var r := FirstOccurrences(xs, key);
      forall i :: 0 <= i < |r| ==> key(r[i]) != ""
  {
  }

  /** No key is kept twice. */
  lemma FirstOccurrencesDistinct<T>(xs: seq<T>, key: T -> string)
    ensures var r := FirstOccurrences(xs, key);
      forall i, j :: 0 <= i < j < |r| ==> key(r[i]) != key(r[j])
  {
  }

  /** Every first occurrence is kept. */
  lemma FirstOccurrencesComplete<T>(xs: seq<T>, key: T -> string)
    ensures forall j :: 0 <= j < |xs| && IsFirst(xs, j, key) ==> xs[j] in FirstOccurrences(xs, key)
  {
  }

  /** The kept elements have exactly the input's non-empty keys. */
  lemma FirstOccurrencesKeys<T>(xs: seq<T>, key: T -> string)
    ensures Keys(FirstOccurrences(xs, key), key) == Keys(xs, key)
  {
    var r := FirstOccurrences(xs, key);
    var idx := FirstIndices(xs, key);
    forall k | k in Keys(r, key) ensures k in Keys(xs, key) {
      var m :| 0 <= m < |r| && key(r[m]) != "" && key(r[m]) == k;
      assert r[m] == xs[idx[m]];
    }
    forall k | k in Keys(xs, key) ensures k in Keys(r, key) {
      var j0 :| 0 <= j0 < |xs| && key(xs[j0]) != "" && key(xs[j0]) == k;
      var j := FirstWithKey(xs, key, j0);
      var m :| 0 <= m < |idx| && idx[m] == j;
      assert r[m] == xs[j];
    }
  }

  /** What the reference keeps: no empty key, no key twice, every non-empty
      key of the input, each as its first occurrence, in first-appearance
      order. */
  lemma FirstOccurrencesProperties<T>(xs: seq<T>, key: T -> string)
    ensures var r := FirstOccurrences(xs, key);
      && (forall i :: 0 <= i < |r| ==> key(r[i]) != "")
      && (forall i, j :: 0 <= i < j < |r| ==> key(r[i]) != key(r[j]))
      && Keys(r, key) == Keys(xs, key)
      && (forall j :: 0 <= j < |xs| && IsFirst(xs, j, key) ==> xs[j] in r)
  {
    FirstOccurrencesNonEmpty(xs, key);
    FirstOccurrencesDistinct(xs, key);
    FirstOccurrencesKeys(xs, key);
    FirstOccurrencesComplete(xs, key);
  }

  /** Every non-empty key occurring at `j0` has a first occurrence. */
  lemma FirstWithKey<T>(xs: seq<T>, key: T -> string, j0: nat) returns (j: nat)
    requires j0 < |xs| && key(xs[j0]) != ""
    ensures j <= j0 && key(xs[j]) == key(xs[j0]) && IsFirst(xs, j, key)
    decreases j0
  {
    if IsFirst(xs, j0, key) {
      j := j0;
    } else {
      var j1 :| 0 <= j1 < j0 && key(xs[j1]) == key(xs[j0]);
      j := FirstWithKey(xs, key, j1);
    }
  }

  lemma FirstOccurrencesSnoc<T>(xs: seq<T>, x: T, key: T -> string)
    ensures FirstOccurrences(xs + [x], key)
         == FirstOccurrences(xs, key) + (if key(x) != "" && key(x) !in Keys(xs, key) then [x] else [])
    ensures Keys(xs + [x], key) == Keys(xs, key) + (if key(x) != "" then {key(x)} else {})
  {
  }

  // ---------------------------------------------------------------------
  // The algorithm as written: one seen-set per list, filled while the
  // extractions are walked in order.

  datatype Acc<T> = Acc(kept: seq<T>, seen: set<string>)

  /** The inner `for` loop over one list of one extraction. */
  function AddNew<T>(acc: Acc<T>, xs: seq<T>, key: T -> string): Acc<T>
    decreases |xs|
  {
    if |xs| == 0 then acc
    else
      var k := key(xs[0]);
      var acc' := if k != "" && k !in acc.seen then Acc(acc.kept + [xs[0]], acc.seen + {k}) else acc;
      AddNew(acc', xs[1..], key)
  }

  /** Walking a list from the state the reference gives for a prefix ends in
      the state the reference gives for the longer prefix. */
  lemma {:induction false} AddNewMatchesReference<T>(prefix: seq<T>, xs: seq<T>, key: T -> string)
    ensures AddNew(Acc(FirstOccurrences(prefix, key), Keys(prefix, key)), xs, key)
         == Acc(FirstOccurrences(prefix + xs, key), Keys(prefix + xs, key))
    decreases |xs|
  {
    if |xs| > 0 {
      var x := xs[0];
      FirstOccurrencesSnoc(prefix, x, key);
      var acc := Acc(FirstOccurrences(prefix, key), Keys(prefix, key));
      var acc' := if key(x) != "" && key(x) !in acc.seen then Acc(acc.kept + [x], acc.seen + {key(x)}) else acc;
      assert acc' == Acc(FirstOccurrences(prefix + [x], key), Keys(prefix + [x], key));
      assert AddNew(acc, xs, key) == AddNew(acc', xs[1..], key);
      assert prefix + xs == (prefix + [xs[0]]) + xs[1..];
      AddNewMatchesReference(prefix + [xs[0]], xs[1..], key);
    } else {
      assert prefix + xs == prefix;
    }
  }

  datatype MergeState = MergeState(
    fields: Acc<FormField>,
    instructions: Acc<string>,
    areas: Acc<SpecialArea>)

  function Step(st: MergeState, e: Extraction): MergeState
  {
    MergeState(
      AddNew(st.fields, e.formFields, FieldKey),
      AddNew(st.instructions, e.instructions, InstructionKey),
      AddNew(st.areas, e.specialAreas, AreaKey))
  }

  function MergeFrom(st: MergeState, exts: seq<Extraction>): MergeState
    decreases |exts|
  {
    if |exts| == 0 then st else MergeFrom(Step(st, exts[0]), exts[1..])
  }

  function AllFields(exts: seq<Extraction>): seq<FormField>
  {
    if |exts| == 0 then [] else AllFields(exts[..|exts| - 1]) + exts[|exts| - 1].formFields
  }

  function AllInstructions(exts: seq<Extraction>): seq<string>
  {
    if |exts| == 0 then [] else AllInstructions(exts[..|exts| - 1]) + exts[|exts| - 1].instructions
  }

  function AllAreas(exts: seq<Extraction>): seq<SpecialArea>
  {
    if |exts| == 0 then [] else AllAreas(exts[..|exts| - 1]) + exts[|exts| - 1].specialAreas
  }

  function Reference(exts: seq<Extraction>): MergeState
  {
    MergeState(
      Acc(FirstOccurrences(AllFields(exts), FieldKey), Keys(AllFields(exts), FieldKey)),
      Acc(FirstOccurrences(AllInstructions(exts), InstructionKey), Keys(AllInstructions(exts), InstructionKey)),
      Acc(FirstOccurrences(AllAreas(exts), AreaKey), Keys(AllAreas(exts), AreaKey)))
  }

  lemma {:induction false} MergeFromMatchesReference(done: seq<Extraction>, rest: seq<Extraction>)
    ensures MergeFrom(Reference(done), rest) == Reference(done + rest)
    decreases |rest|
  {
    if |rest| == 0 {
      assert done + rest == done;
    } else {
      var e := rest[0];
      var done' := done + [e];
      assert done'[..|done'| - 1] == done;
      AddNewMatchesReference(AllFields(done), e.formFields, FieldKey);
      AddNewMatchesReference(AllInstructions(done), e.instructions, InstructionKey);
      AddNewMatchesReference(AllAreas(done), e.specialAreas, AreaKey);
      assert Step(Reference(done), e) == Reference(done');
      assert done' + rest[1..] == done + rest;
      MergeFromMatchesReference(done', rest[1..]);
    }
  }

  /** `merge_extractions`: the three lists of the merged answer are the
      first occurrences of each non-empty key over all answers in order. */
  function Merge(exts: seq<Extraction>): (r: Extraction)
    ensures r.formFields == FirstOccurrences(AllFields(exts), FieldKey)
    ensures r.instructions == FirstOccurrences(AllInstructions(exts), InstructionKey)
    ensures r.specialAreas == FirstOccurrences(AllAreas(exts), AreaKey)
    ensures forall i, j :: 0 <= i < j < |r.formFields| ==> FieldKey(r.formFields[i]) != FieldKey(r.formFields[j])
    ensures forall i :: 0 <= i < |r.formFields| ==> FieldKey(r.formFields[i]) != ""
    ensures forall j :: 0 <= j < |AllFields(exts)| && IsFirst(AllFields(exts), j, FieldKey) ==>
                          AllFields(exts)[j] in r.formFields
    ensures Keys(r.formFields, FieldKey) == Keys(AllFields(exts), FieldKey)
    ensures forall i, j :: 0 <= i < j < |r.instructions| ==> r.instructions[i] != r.instructions[j]
    ensures forall i :: 0 <= i < |r.instructions| ==> r.instructions[i] != ""
    ensures forall i, j :: 0 <= i < j < |r.specialAreas| ==> AreaKey(r.specialAreas[i]) != AreaKey(r.specialAreas[j])
    ensures forall i :: 0 <= i < |r.specialAreas| ==> AreaKey(r.specialAreas[i]) != ""
  {
    var empty := MergeState(Acc([], {}), Acc([], {}), Acc([], {}));
    assert Reference([]) == empty;
    MergeFromMatchesReference([], exts);
    assert [] + exts == exts;
    FirstOccurrencesProperties(AllFields(exts), FieldKey);
    FirstOccurrencesProperties(AllInstructions(exts), InstructionKey);
    FirstOccurrencesProperties(AllAreas(exts), AreaKey);
    var st := MergeFrom(empty, exts);
    Extraction(st.fields.kept, st.instructions.kept, st.areas.kept)
  }

  /** A list whose keys are non-empty and pairwise distinct is its own
      first-occurrence list. */
  lemma {:induction false} FirstOccurrencesOfDistinct<T>(xs: seq<T>, key: T -> string)
    requires forall i :: 0 <= i < |xs| ==> key(xs[i]) != ""
    requires forall i, j :: 0 <= i < j < |xs| ==> key(xs[i]) != key(xs[j])
    ensures FirstIndices(xs, key) == seq(|xs|, i => i)
    ensures FirstOccurrences(xs, key) == xs
  {
    if |xs| > 0 {
      var n := |xs| - 1;
      FirstOccurrencesOfDistinct(xs[..n], key);
      assert IsFirst(xs, n, key);
      assert seq(n, i => i) + [n] == seq(|xs|, i => i);
    }
  }

  lemma MergeEmpty()
    ensures Merge([]) == Extraction([], [], [])
  {
  }

  /** Merging the single merged answer changes nothing. */
  lemma MergeIdempotent(exts: seq<Extraction>)
    ensures Merge([Merge(exts)]) == Merge(exts)
  {
    var m := Merge(exts);
    assert [m][..0] == [];
    assert AllFields([m]) == m.formFields;
    assert AllInstructions([m]) == m.instructions;
    assert AllAreas([m]) == m.specialAreas;
    FirstOccurrencesOfDistinct(m.formFields, FieldKey);
    FirstOccurrencesOfDistinct(m.instructions, InstructionKey);
    FirstOccurrencesOfDistinct(m.specialAreas, AreaKey);
  }
}
