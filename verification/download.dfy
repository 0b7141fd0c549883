/** The download page (Download.jsx): two single-choice settings, a
    download button that reports the choice, and a way back to the
    profile. */
module Download {
  import opened Text
  import opened Effects

  const Formats: seq<string> := ["pdf", "docx", "image"]
  const Compressions: seq<string> := ["low", "medium", "high"]

  datatype Settings = Settings(format: string, compression: string)

  /** Both settings are among the offered choices. */
  predicate Valid(s: Settings)
  {
    s.format in Formats && s.compression in Compressions
  }

  function Init(): (s: Settings)
    ensures Valid(s) && s.format == "pdf" && s.compression == "medium"
  {
    Settings("pdf", "medium")
  }

  datatype Control =
    | FormatButton(index: nat)
    | CompressionButton(index: nat)
    | DownloadButton
    | BackButton

  /** The controls on the page, one button per offered choice. */
  function Controls(): (cs: seq<Control>)
    ensures forall i :: 0 <= i < |Formats| ==> FormatButton(i) in cs
    ensures forall i :: 0 <= i < |Compressions| ==> CompressionButton(i) in cs
    ensures DownloadButton in cs && BackButton in cs
  {
    [FormatButton(0), FormatButton(1), FormatButton(2),
     CompressionButton(0), CompressionButton(1), CompressionButton(2),
     DownloadButton, BackButton]
  }

  /** A choice button is highlighted when its value is the current one. */
  predicate FormatHighlighted(s: Settings, i: nat)
  {
    i < |Formats| && Formats[i] == s.format
  }

  predicate CompressionHighlighted(s: Settings, i: nat)
  {
    i < |Compressions| && Compressions[i] == s.compression
  }

  /** With valid settings exactly one button of each group is lit. */
  lemma ExactlyOneHighlighted(s: Settings)
    requires Valid(s)
    ensures exists i: nat :: FormatHighlighted(s, i)
    ensures forall i: nat, j: nat :: FormatHighlighted(s, i) && FormatHighlighted(s, j) ==> i == j
    ensures exists i: nat :: CompressionHighlighted(s, i)
    ensures forall i: nat, j: nat :: CompressionHighlighted(s, i) && CompressionHighlighted(s, j) ==> i == j
  {
    if s.format == "pdf" { assert FormatHighlighted(s, 0); }
    else if s.format == "docx" { assert FormatHighlighted(s, 1); }
    else { assert FormatHighlighted(s, 2); }
    if s.compression == "low" { assert CompressionHighlighted(s, 0); }
    else if s.compression == "medium" { assert CompressionHighlighted(s, 1); }
    else { assert CompressionHighlighted(s, 2); }
  }

  const MessagePrefix: string := "Downloading filled form as "

  /** The alert text of `handleDownload`. */
  function DownloadMessage(s: Settings): (m: string)
    ensures StartsWith(m, MessagePrefix)
    ensures EndsWith(m, " compression")
  {
    MessagePrefix + MessageBody(s)
  }

  function MessageBody(s: Settings): string
  {
    ToAsciiUpper(s.format) + " with " + s.compression + " compression"
  }

  /** A click: the new settings and what happens outside the page. */
  function OnClick(s: Settings, c: Control): (r: (Settings, seq<Effect>))
    ensures c.FormatButton? && c.index < |Formats| ==>
      r.0 == s.(format := Formats[c.index]) && r.1 == []
    ensures c.CompressionButton? && c.index < |Compressions| ==>
      r.0 == s.(compression := Compressions[c.index]) && r.1 == []
    ensures c == DownloadButton ==> r.0 == s && r.1 == [Alert(DownloadMessage(s))]
    ensures c == BackButton ==> r.0 == s && r.1 == [Navigate("profile")]
    ensures Valid(s) ==> Valid(r.0)
  {
    match c
    case FormatButton(i) => if i < |Formats| then (s.(format := Formats[i]), []) else (s, [])
    case CompressionButton(i) => if i < |Compressions| then (s.(compression := Compressions[i]), []) else (s, [])
    case DownloadButton => (s, [Alert(DownloadMessage(s))])
    case BackButton => (s, [Navigate("profile")])
  }

  /** The two groups are independent: choosing a format keeps the
      compression and the reverse, and a choice made is what is reported. */
  lemma ChoicesAreIndependent(s: Settings, i: nat, j: nat)
    requires i < |Formats| && j < |Compressions|
    ensures OnClick(OnClick(s, FormatButton(i)).0, CompressionButton(j)).0 == Settings(Formats[i], Compressions[j])
    ensures OnClick(OnClick(s, CompressionButton(j)).0, FormatButton(i)).0 == Settings(Formats[i], Compressions[j])
  {
  }

  lemma UpperPdf() ensures ToAsciiUpper("pdf") == "PDF" {}
  lemma UpperDocx() ensures ToAsciiUpper("docx") == "DOCX" {}
  lemma UpperImage() ensures ToAsciiUpper("image") == "IMAGE" {}

  /** The format named at the head of the text after the prefix. */
  function ParseFormat(rest: string): string
  {
    if StartsWith(rest, "PDF with ") then "pdf"
    else if StartsWith(rest, "DOCX with ") then "docx"
    else if StartsWith(rest, "IMAGE with ") then "image"
    else ""
  }

  /** Reads the settings back from an alert text: the format whose upper
      case follows the prefix, then the compression before the suffix. */
  function ParseMessage(m: string): Settings
  {
    if !StartsWith(m, MessagePrefix) then Settings("", "") else ParseRest(m[|MessagePrefix|..])
  }

  function ParseRest(rest: string): Settings
  {
    var f := ParseFormat(rest);
    var k := |ToAsciiUpper(f)| + |" with "|;
    if |rest| < k + |" compression"| then Settings(f, "")
    else Settings(f, rest[k..|rest| - |" compression"|])
  }

  lemma PdfFirst(tail: string)
    ensures ParseFormat("PDF" + " with " + tail) == "pdf"
  {
  }

  lemma DocxSecond(tail: string)
    ensures ParseFormat("DOCX" + " with " + tail) == "docx"
  {
    var rest := "DOCX" + " with " + tail;
    assert rest[0] == 'D' && !StartsWith(rest, "PDF with ");
    assert rest[..10] == "DOCX with ";
  }

  lemma ImageThird(tail: string)
    ensures ParseFormat("IMAGE" + " with " + tail) == "image"
  {
    var rest := "IMAGE" + " with " + tail;
    assert rest[0] == 'I' && !StartsWith(rest, "PDF with ") && !StartsWith(rest, "DOCX with ");
    assert rest[..11] == "IMAGE with ";
  }

  /** Each format is recognised from its upper-case name. */
  lemma FormatReadBack(f: string, tail: string)
    requires f in Formats
    ensures ParseFormat(ToAsciiUpper(f) + " with " + tail) == f
  {
    var u := ToAsciiUpper(f);
    if f == "pdf" {
      UpperPdf();
      PdfFirst(tail);
    } else if f == "docx" {
      UpperDocx();
      DocxSecond(tail);
    } else {
      UpperImage();
      ImageThird(tail);
    }
  }

  /** The compression sits between the format's ` with ` and the suffix. */
  lemma CompressionReadBack(u: string, c: string)
    ensures var rest := u + " with " + c + " compression";
      rest[|u| + |" with "|..|rest| - |" compression"|] == c
  {
  }

  lemma {:induction false} RestReadBack(s: Settings)
    requires Valid(s)
    ensures ParseRest(ToAsciiUpper(s.format) + " with " + s.compression + " compression") == s
  {
    var u := ToAsciiUpper(s.format);
    var rest := u + " with " + s.compression + " compression";
    assert rest == u + " with " + (s.compression + " compression");
    FormatReadBack(s.format, s.compression + " compression");
    CompressionReadBack(u, s.compression);
  }

  lemma ParseAfterPrefix(rest: string)
    ensures ParseMessage(MessagePrefix + rest) == ParseRest(rest)
  {
  }

  /** The alert names the chosen settings: they can be read back from it. */
  lemma {:induction false} MessageNamesSettings(s: Settings)
    requires Valid(s)
    ensures ParseMessage(DownloadMessage(s)) == s
  {
    ParseAfterPrefix(MessageBody(s));
    RestReadBack(s);
  }
}
