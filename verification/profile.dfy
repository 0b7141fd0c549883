/** The profile page (Profile.jsx): the signed-in user's card, counts over
    the list of past forms, a status badge per form, and navigation from
    completed forms to the download page. */
module Profile {
  import opened Base
  import opened Text
  import opened Effects

  datatype FormRecord = FormRecord(id: nat, name: string, status: string, date: string, documents: nat)

  /** The fixed list the page shows. */
  const Forms: seq<FormRecord> := [
    FormRecord(1, "Job Application Form", "completed", "2024-01-15", 3),
    FormRecord(2, "Visa Application", "processing", "2024-01-14", 5),
    FormRecord(3, "Insurance Form", "completed", "2024-01-10", 2),
    FormRecord(4, "Loan Application", "failed", "2024-01-08", 4)
  ]

  datatype Icon = CheckCircle | Clock | XCircle

  /** `getStatusIcon`: no icon for an unknown status. */
  function StatusIcon(status: string): (i: Option<Icon>)
    ensures i.None? <==> status !in {"completed", "processing", "failed"}
  {
    match status
    case "completed" => Some(CheckCircle)
    case "processing" => Some(Clock)
    case "failed" => Some(XCircle)
    case _ => None
  }

  const DefaultColor: string := "bg-gray-100 text-gray-800"

  /** `getStatusColor`: the three known statuses get their own classes,
      anything else the gray default. */
  function StatusColor(status: string): (c: string)
    ensures c == DefaultColor <==> status !in {"completed", "processing", "failed"}
  {
    match status
    case "completed" => "bg-green-100 text-green-800"
    case "processing" => "bg-blue-100 text-primary-blue"
    case "failed" => "bg-red-100 text-red-800"
    case _ => DefaultColor
  }

  /** An icon is shown exactly when the badge is not gray. */
  lemma IconIffColored(status: string)
    ensures StatusIcon(status).Some? <==> StatusColor(status) != DefaultColor
  {
  }

  /** `s.charAt(0).toUpperCase() + s.slice(1)`, with ASCII case mapping. */
  function Capitalize(s: string): (r: string)
    ensures |r| == |s|
    ensures |s| > 0 ==> r[0] == ToAsciiUpperChar(s[0]) && r[1..] == s[1..]
  {
    if |s| == 0 then "" else [ToAsciiUpperChar(s[0])] + s[1..]
  }

  /** The badge text differs from the status only in its first letter, and
      lower-casing the first letter gives the status back. */
  lemma CapitalizeRoundTrip(s: string)
    requires |s| > 0 && IsAsciiLower(s[0])
    ensures IsAsciiUpper(Capitalize(s)[0])
    ensures [ToAsciiLowerChar(Capitalize(s)[0])] + Capitalize(s)[1..] == s
  {
  }

  /** `user?.name?.charAt(0)?.toUpperCase()`: nothing without a user, the
      empty string for an empty name, else the upper-cased first letter. */
  function AvatarInitial(user: Option<User>): (r: Option<string>)
    ensures user.None? <==> r.None?
    ensures user.Some? && user.value.name == "" ==> r == Some("")
    ensures user.Some? && user.value.name != "" ==> r == Some([ToAsciiUpperChar(user.value.name[0])])
  {
    match user
    case None => None
    case Some(u) => if u.name == "" then Some("") else Some([ToAsciiUpperChar(u.name[0])])
  }

  /** `forms.filter(f => f.status === status)`. */
  function WithStatus(forms: seq<FormRecord>, status: string): (r: seq<FormRecord>)
    ensures |r| <= |forms|
    ensures forall i :: 0 <= i < |r| ==> r[i].status == status && r[i] in forms
    ensures forall f :: multiset(r)[f] == if f.status == status then multiset(forms)[f] else 0
  {
    if |forms| == 0 then []
    else
      assert forms == [forms[0]] + forms[1..];
      (if forms[0].status == status then [forms[0]] else []) + WithStatus(forms[1..], status)
  }

  /** No form is counted under two statuses: the two counts together never
      exceed the total. */
  lemma {:induction false} CountsDisjoint(forms: seq<FormRecord>, a: string, b: string)
    requires a != b
    ensures |WithStatus(forms, a)| + |WithStatus(forms, b)| <= |forms|
  {
    if |forms| > 0 {
      CountsDisjoint(forms[1..], a, b);
    }
  }

  /** A form is counted under its status exactly when it is in the list. */
  lemma CountedIffListed(forms: seq<FormRecord>, f: FormRecord)
    ensures f in WithStatus(forms, f.status) <==> f in forms
  {
  }

  /** The header's figures for the fixed list. */
  lemma HeaderCounts()
    ensures |Forms| == 4
    ensures |WithStatus(Forms, "completed")| == 2
    ensures |WithStatus(Forms, "processing")| == 1
  {
  }

  /** Clicking a row opens the download page only for a completed form. */
  function OnFormClick(f: FormRecord): (es: seq<Effect>)
    ensures es != [] <==> f.status == "completed"
    ensures es != [] ==> es == [Navigate("download")]
  {
    if f.status == "completed" then [Navigate("download")] else []
  }

  function OnNewForm(): (es: seq<Effect>)
    ensures es == [Navigate("upload-form")]
  {
    [Navigate("upload-form")]
  }

  /** Of the fixed forms, the first and third lead to the download page. */
  lemma ClickableForms()
    ensures OnFormClick(Forms[0]) == [Navigate("download")]
    ensures OnFormClick(Forms[1]) == []
    ensures OnFormClick(Forms[2]) == [Navigate("download")]
    ensures OnFormClick(Forms[3]) == []
  {
  }
}
