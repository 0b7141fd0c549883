/** The edit-and-preview page (EditForm.jsx): an ordered record of named
    text fields, a change handler that writes one field, a preview toggle,
    and the label text the preview shows for each field name. */
module EditForm {
  import opened Base
  import opened Text
  import opened Effects

  /** A JavaScript object with string keys: the keys in insertion order,
      and the value of each. */
  datatype FormData = FormData(keys: seq<string>, values: map<string, string>)

  /** Each key once, and a value for exactly the listed keys. */
  predicate Valid(d: FormData)
  {
    && (forall i, j :: 0 <= i < j < |d.keys| ==> d.keys[i] != d.keys[j])
    && d.values.Keys == set k | k in d.keys
  }

  /** `formData[key]`, absent as `None`. */
  function Get(d: FormData, key: string): Option<string>
  {
    if key in d.values then Some(d.values[key]) else None
  }

  /** `{...formData, [name]: value}`: an existing key keeps its place and
      takes the new value; a new key goes at the end. */
  function Set(d: FormData, name: string, value: string): (r: FormData)
    ensures Get(r, name) == Some(value)
    ensures forall k :: k != name ==> Get(r, k) == Get(d, k)
    ensures Valid(d) && name in d.keys ==> r.keys == d.keys
    ensures Valid(d) && name !in d.keys ==> r.keys == d.keys + [name]
    ensures Valid(d) ==> Valid(r)
  {
    FormData(if name in d.values then d.keys else d.keys + [name], d.values[name := value])
  }

  /** The record the page starts from. */
  const InitialFormData: FormData := FormData(
    ["fullName", "email", "phone", "address", "dateOfBirth", "occupation", "experience", "education"],
    map[
      "fullName" := "John Doe",
      "email" := "john.doe@example.com",
      "phone" := "+1 (555) 123-4567",
      "address" := "123 Main Street, City, State 12345",
      "dateOfBirth" := "1990-01-15",
      "occupation" := "Software Engineer",
      "experience" := "5 years",
      "education" := "Bachelor of Science in Computer Science"])

  datatype EditState = EditState(formData: FormData, isPreview: bool)

  function Init(): (s: EditState)
    ensures Valid(s.formData) && |s.formData.keys| == 8 && !s.isPreview
    ensures s.formData.keys
         == ["fullName", "email", "phone", "address", "dateOfBirth", "occupation", "experience", "education"]
  {
    InitialFormDataValid();
    EditState(InitialFormData, false)
  }

  /** The eight initial keys are distinct and each has a value. */
  lemma InitialFormDataValid()
    ensures Valid(InitialFormData)
  {
    InitialKeysDistinct();
    InitialValuesKeyed();
  }

  /** No two initial keys agree in both length and first letter. */
  lemma InitialKeysDistinct()
    ensures forall i, j :: 0 <= i < j < |InitialFormData.keys| ==> InitialFormData.keys[i] != InitialFormData.keys[j]
  {
  }

  lemma InitialValuesKeyed()
    ensures InitialFormData.values.Keys == set k | k in InitialFormData.keys
  {
  }

  /** `handleChange` for an input named `name` holding `value`. */
  function HandleChange(s: EditState, name: string, value: string): (r: EditState)
    ensures Get(r.formData, name) == Some(value)
    ensures forall k :: k != name ==> Get(r.formData, k) == Get(s.formData, k)
    ensures Valid(s.formData) && name in s.formData.keys ==> r.formData.keys == s.formData.keys
    ensures Valid(s.formData) ==> Valid(r.formData)
    ensures r.isPreview == s.isPreview
  {
    s.(formData := Set(s.formData, name, value))
  }

  /** Every input on the page is named after a key of the initial record,
      so editing never adds a key. */
  lemma EditingKeepsKeys(name: string, value: string)
    requires name in InitialFormData.keys
    ensures HandleChange(Init(), name, value).formData.keys == InitialFormData.keys
    ensures Get(HandleChange(Init(), name, value).formData, name) == Some(value)
  {
  }

  function TogglePreview(s: EditState): (r: EditState)
    ensures r.isPreview == !s.isPreview && r.formData == s.formData
  {
    s.(isPreview := !s.isPreview)
  }

  lemma ToggleTwice(s: EditState)
    ensures TogglePreview(TogglePreview(s)) == s
  {
  }

  datatype Control = PreviewToggle | SaveButton | ContinueButton

  /** The buttons shown: Save only while editing. */
  function Controls(s: EditState): (cs: seq<Control>)
    ensures SaveButton in cs <==> !s.isPreview
    ensures PreviewToggle in cs && ContinueButton in cs
  {
    [PreviewToggle] + (if s.isPreview then [] else [SaveButton]) + [ContinueButton]
  }

  /** A click: the new page state and the effects outside the page. */
  function OnClick(s: EditState, c: Control): (r: (EditState, seq<Effect>))
    ensures c != PreviewToggle ==> r.0 == s
    ensures r.0.formData == s.formData
    ensures c == SaveButton ==> r.1 == [Alert("Form saved successfully!")]
    ensures c == ContinueButton ==> r.1 == [Navigate("download")]
  {
    match c
    case PreviewToggle => (TogglePreview(s), [])
    case SaveButton => (s, [Alert("Form saved successfully!")])
    case ContinueButton => (s, [Navigate("download")])
  }

  // ---------------------------------------------------------------------
  // Preview labels: `key.replace(/([A-Z])/g, ' $1').trim()`.

  /** A space before every ASCII capital. */
  function SpaceBeforeCapitals(s: string): (r: string)
    ensures |r| >= |s|
    ensures forall i :: 0 <= i < |r| && IsAsciiUpper(r[i]) ==> i > 0 && r[i - 1] == ' '
  {
    if |s| == 0 then ""
    else (if IsAsciiUpper(s[0]) then [' ', s[0]] else [s[0]]) + SpaceBeforeCapitals(s[1..])
  }

  /** The inverse: drops a space that stands right before a capital. */
  function DropSpaceBeforeCapitals(s: string): string
  {
    if |s| >= 2 && s[0] == ' ' && IsAsciiUpper(s[1]) then [s[1]] + DropSpaceBeforeCapitals(s[2..])
    else if |s| == 0 then ""
    else [s[0]] + DropSpaceBeforeCapitals(s[1..])
  }

  lemma SpacedNeverStartsWithCapital(s: string)
    ensures |SpaceBeforeCapitals(s)| > 0 ==> !IsAsciiUpper(SpaceBeforeCapitals(s)[0])
  {
  }

  /** Inserting the spaces loses nothing: the key can be read back. */
  lemma {:induction false} SpaceBeforeCapitalsRoundTrip(s: string)
    ensures DropSpaceBeforeCapitals(SpaceBeforeCapitals(s)) == s
  {
    if |s| > 0 {
      var t := SpaceBeforeCapitals(s[1..]);
      SpaceBeforeCapitalsRoundTrip(s[1..]);
      SpacedNeverStartsWithCapital(s[1..]);
      if IsAsciiUpper(s[0]) {
        assert SpaceBeforeCapitals(s) == [' ', s[0]] + t;
        assert ([' ', s[0]] + t)[2..] == t;
      } else {
        assert SpaceBeforeCapitals(s) == [s[0]] + t;
        assert ([s[0]] + t)[1..] == t;
      }
      assert s == [s[0]] + s[1..];
    }
  }

  /** Trimming keeps the space before every capital it does not cut off. */
  lemma TrimKeepsSpacing(s: string)
    requires forall i :: 0 <= i < |s| && IsAsciiUpper(s[i]) ==> i > 0 && s[i - 1] == ' '
    ensures var r := Trim(s, IsJsWhitespace);
      forall i :: 0 < i < |r| && IsAsciiUpper(r[i]) ==> r[i - 1] == ' '
  {
    var r := Trim(s, IsJsWhitespace);
    var n := LeadingCount(s, IsJsWhitespace);
    forall i | 0 < i < |r| && IsAsciiUpper(r[i])
      ensures r[i - 1] == ' '
    {
      assert r[i] == s[n + i] && r[i - 1] == s[n + i - 1];
    }
  }

  /** The label neither starts nor ends with whitespace, and every capital
      in it but a leading one has a space before it. */
  function FormatLabel(key: string): (r: string)
    ensures |r| <= |SpaceBeforeCapitals(key)|
    ensures |r| > 0 ==> !IsJsWhitespace(r[0]) && !IsJsWhitespace(r[|r| - 1])
    ensures forall i :: 0 < i < |r| && IsAsciiUpper(r[i]) ==> r[i - 1] == ' '
  {
    var spaced := SpaceBeforeCapitals(key);
    TrimKeepsSpacing(spaced);
    Trim(spaced, IsJsWhitespace)
  }

  /** The insertion never touches the last character. */
  lemma {:induction false} SpacedLast(s: string)
    requires |s| > 0
    ensures var sp := SpaceBeforeCapitals(s); |sp| > 0 && sp[|sp| - 1] == s[|s| - 1]
  {
    if |s| > 1 {
      SpacedLast(s[1..]);
    }
  }

  /** Trimming a string whose only edge whitespace is one leading space
      drops just that space. */
  lemma TrimOneLeadingSpace(sp: string)
    requires |sp| >= 2 && sp[0] == ' ' && !IsJsWhitespace(sp[1]) && !IsJsWhitespace(sp[|sp| - 1])
    ensures Trim(sp, IsJsWhitespace) == sp[1..]
  {
    assert SkipForward(sp, IsJsWhitespace, 1) == 1;
    assert LeadingCount(sp, IsJsWhitespace) == 1;
  }

  /** A capital at the head has no space to drop before it. */
  lemma DropCapitalHead(c: char, t: string)
    requires IsAsciiUpper(c)
    ensures DropSpaceBeforeCapitals([c] + t) == [c] + DropSpaceBeforeCapitals(t)
  {
    assert ([c] + t)[1..] == t;
  }

  /** A capital is not whitespace. */
  lemma CapitalNotWhitespace(c: char)
    requires IsAsciiUpper(c)
    ensures !IsJsWhitespace(c)
  {
  }

  /** Trimming a space, a capital and a tail with no trailing whitespace
      drops just the space. */
  lemma TrimCapitalHead(c: char, t: string)
    requires IsAsciiUpper(c) && (|t| > 0 ==> !IsJsWhitespace(t[|t| - 1]))
    ensures Trim([' ', c] + t, IsJsWhitespace) == [c] + t
  {
    var sp := [' ', c] + t;
    CapitalNotWhitespace(c);
    assert sp[1] == c && sp[|sp| - 1] == if |t| > 0 then t[|t| - 1] else c;
    TrimOneLeadingSpace(sp);
    assert sp[1..] == [c] + t;
  }

  /** A key led by a capital loses only the space put before it. */
  lemma LabelOfCapitalKey(key: string)
    requires |key| > 0 && IsAsciiUpper(key[0]) && !IsJsWhitespace(key[|key| - 1])
    ensures Trim(SpaceBeforeCapitals(key), IsJsWhitespace) == [key[0]] + SpaceBeforeCapitals(key[1..])
  {
    var t := SpaceBeforeCapitals(key[1..]);
    assert SpaceBeforeCapitals(key) == [' ', key[0]] + t;
    if |key| > 1 {
      SpacedLast(key[1..]);
    }
    TrimCapitalHead(key[0], t);
  }

  /** A key with no whitespace at either end is read back from its label:
      trimming removes at most the space put before a leading capital. */
  lemma FormatLabelRoundTrip(key: string)
    requires |key| > 0 ==> !IsJsWhitespace(key[0]) && !IsJsWhitespace(key[|key| - 1])
    ensures DropSpaceBeforeCapitals(FormatLabel(key)) == key
  {
    TrimmedSpacedRoundTrip(key);
  }

  lemma TrimmedSpacedRoundTrip(key: string)
    requires |key| > 0 ==> !IsJsWhitespace(key[0]) && !IsJsWhitespace(key[|key| - 1])
    ensures DropSpaceBeforeCapitals(Trim(SpaceBeforeCapitals(key), IsJsWhitespace)) == key
  {
    if |key| == 0 {
      assert SpaceBeforeCapitals(key) == "";
    } else if IsAsciiUpper(key[0]) {
      CapitalKeyRoundTrip(key);
    } else {
      PlainKeyRoundTrip(key);
    }
  }

  lemma CapitalKeyRoundTrip(key: string)
    requires |key| > 0 && IsAsciiUpper(key[0]) && !IsJsWhitespace(key[|key| - 1])
    ensures DropSpaceBeforeCapitals(Trim(SpaceBeforeCapitals(key), IsJsWhitespace)) == key
  {
    LabelOfCapitalKey(key);
    CapitalKeyReadBack(key);
  }

  /** A capital followed by its spaced tail reads back as the key. */
  lemma CapitalKeyReadBack(key: string)
    requires |key| > 0 && IsAsciiUpper(key[0])
    ensures DropSpaceBeforeCapitals([key[0]] + SpaceBeforeCapitals(key[1..])) == key
  {
    var c, rest := key[0], key[1..];
    SpaceBeforeCapitalsRoundTrip(rest);
    DropAfterCapital(c, SpaceBeforeCapitals(rest), rest);
    assert key == [c] + rest;
  }

  /** A capital followed by a spaced tail reads back as the capital
      followed by the tail's key. */
  lemma DropAfterCapital(c: char, t: string, rest: string)
    requires IsAsciiUpper(c) && DropSpaceBeforeCapitals(t) == rest
    ensures DropSpaceBeforeCapitals([c] + t) == [c] + rest
  {
    DropCapitalHead(c, t);
  }

  lemma PlainKeyRoundTrip(key: string)
    requires |key| > 0 && !IsAsciiUpper(key[0])
    requires !IsJsWhitespace(key[0]) && !IsJsWhitespace(key[|key| - 1])
    ensures DropSpaceBeforeCapitals(Trim(SpaceBeforeCapitals(key), IsJsWhitespace)) == key
  {
    var sp := SpaceBeforeCapitals(key);
    assert sp[0] == key[0];
    SpacedLast(key);
    TrimUntouched(sp, IsJsWhitespace);
    SpaceBeforeCapitalsRoundTrip(key);
  }

  /** A key without capitals and without surrounding whitespace is shown as
      it is. */
  lemma {:induction false} LabelOfLowercaseKey(key: string)
    requires forall i :: 0 <= i < |key| ==> !IsAsciiUpper(key[i])
    requires |key| > 0 ==> !IsJsWhitespace(key[0]) && !IsJsWhitespace(key[|key| - 1])
    ensures FormatLabel(key) == key
  {
    NoCapitalsUnchanged(key);
    if |key| > 0 {
      TrimUntouched(key, IsJsWhitespace);
    }
  }

  lemma {:induction false} NoCapitalsUnchanged(s: string)
    requires forall i :: 0 <= i < |s| ==> !IsAsciiUpper(s[i])
    ensures SpaceBeforeCapitals(s) == s
  {
    if |s| > 0 {
      NoCapitalsUnchanged(s[1..]);
      assert s == [s[0]] + s[1..];
    }
  }

  /** The insertion works character by character. */
  lemma {:induction false} SpaceBeforeCapitalsAppend(a: string, b: string)
    ensures SpaceBeforeCapitals(a + b) == SpaceBeforeCapitals(a) + SpaceBeforeCapitals(b)
  {
    if |a| > 0 {
      var head := if IsAsciiUpper(a[0]) then [' ', a[0]] else [a[0]];
      assert (a + b)[0] == a[0] && (a + b)[1..] == a[1..] + b;
      assert SpaceBeforeCapitals(a + b) == head + SpaceBeforeCapitals(a[1..] + b);
      SpaceBeforeCapitalsAppend(a[1..], b);
      assert SpaceBeforeCapitals(a) == head + SpaceBeforeCapitals(a[1..]);
    } else {
      assert a + b == b;
    }
  }

  lemma SpacedDate() ensures SpaceBeforeCapitals("date") == "date" {}
  lemma SpacedOf() ensures SpaceBeforeCapitals("Of") == " Of" {}
  lemma SpacedBirth() ensures SpaceBeforeCapitals("Birth") == " Birth" {}

  lemma DateOfBirthPieces()
    ensures "date" + "Of" + "Birth" == "dateOfBirth"
    ensures "date" + " Of" + " Birth" == "date Of Birth"
  {
  }

  lemma DateOfBirthSpaced()
    ensures SpaceBeforeCapitals("dateOfBirth") == "date Of Birth"
  {
    SpacedDate();
    SpacedOf();
    SpacedBirth();
    SpaceBeforeCapitalsAppend("date", "Of");
    SpaceBeforeCapitalsAppend("date" + "Of", "Birth");
    DateOfBirthPieces();
  }

  /** A spaced key with no whitespace at either end is the label. */
  lemma LabelFromSpaced(key: string, spaced: string)
    requires SpaceBeforeCapitals(key) == spaced
    requires |spaced| > 0 && !IsJsWhitespace(spaced[0]) && !IsJsWhitespace(spaced[|spaced| - 1])
    ensures FormatLabel(key) == spaced
  {
  }

  /** Neither end of "date Of Birth" is whitespace. */
  lemma DateOfBirthEnds()
    ensures !IsJsWhitespace("date Of Birth"[0]) && !IsJsWhitespace("date Of Birth"[12])
  {
  }

  /** The preview label of `dateOfBirth`. */
  lemma DateOfBirthLabel()
    ensures FormatLabel("dateOfBirth") == "date Of Birth"
  {
    DateOfBirthSpaced();
    DateOfBirthEnds();
    LabelFromSpaced("dateOfBirth", "date Of Birth");
  }

  /** The preview's rows, in the record's order. */
  function PreviewRows(d: FormData): (rows: seq<(string, string)>)
    requires Valid(d)
    ensures |rows| == |d.keys|
    ensures forall i :: 0 <= i < |d.keys| ==> rows[i] == (FormatLabel(d.keys[i]), d.values[d.keys[i]])
  {
    seq(|d.keys|, i requires 0 <= i < |d.keys| => (FormatLabel(d.keys[i]), d.values[d.keys[i]]))
  }
}
