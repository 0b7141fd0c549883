/** Upload storage and PDF expansion (services/file_loader.py): the saved
    file's name, PDF detection, the names given to rendered pages, and the
    expansion of a path list into image paths. The page count of a PDF and
    the id of a saved file are parameters. */
module FileLoader {
  import opened Text

  const UploadDir: string := "uploads"

  predicate NoDot(s: string)
  {
    forall i :: 0 <= i < |s| ==> s[i] != '.'
  }

  /** `filename.split(".")[-1]`: the text after the last dot, or the whole
      name when it has no dot. */
  function Extension(filename: string): (ext: string)
    ensures NoDot(ext) && EndsWith(filename, ext)
    ensures |ext| < |filename| ==> filename[|filename| - |ext| - 1] == '.'
    ensures NoDot(filename) ==> ext == filename
  {
    if |filename| == 0 then ""
    else if filename[|filename| - 1] == '.' then ""
    else
      var ext := Extension(filename[..|filename| - 1]);
      assert filename[..|filename| - 1][|filename| - 1 - |ext|..] == filename[|filename| - 1 - |ext|..|filename| - 1];
      ext + [filename[|filename| - 1]]
  }

  /** Whatever comes before the last dot, the extension is read back. */
  lemma {:induction false} ExtensionAfterDot(stem: string, ext: string)
    requires NoDot(ext)
    ensures Extension(stem + "." + ext) == ext
    decreases |ext|
  {
    var s := stem + "." + ext;
    if |ext| == 0 {
      assert s[|s| - 1] == '.';
    } else {
      assert s[..|s| - 1] == stem + "." + ext[..|ext| - 1];
      ExtensionAfterDot(stem, ext[..|ext| - 1]);
      assert ext[..|ext| - 1] + [ext[|ext| - 1]] == ext;
    }
  }

  /** `os.path.join(a, b)` on POSIX: an absolute `b` replaces `a`; otherwise
      one separator is put between them unless `a` is empty or already ends
      with one. */
  function PosixJoin(a: string, b: string): (r: string)
    ensures StartsWith(b, "/") ==> r == b
    ensures !StartsWith(b, "/") ==> EndsWith(r, b) && StartsWith(r, a)
  {
    if StartsWith(b, "/") then b
    else if a == "" || EndsWith(a, "/") then a + b
    else a + "/" + b
  }

  /** `save_upload_file`: the path the upload is written to, for a given
      random id. */
  function SavedPath(id: string, filename: string): (p: string)
    ensures !StartsWith(id, "/") ==> p == UploadDir + "/" + id + "." + Extension(filename)
  {
    var name := id + "." + Extension(filename);
    assert !StartsWith(id, "/") ==> !StartsWith(name, "/") by {
      if |id| > 0 { assert name[0] == id[0]; } else { assert name[0] == '.'; }
    }
    UploadDirJoinable();
    PosixJoin(UploadDir, name)
  }

  /** The upload directory is a non-empty name with no trailing separator. */
  lemma UploadDirJoinable()
    ensures UploadDir != "" && !EndsWith(UploadDir, "/")
  {
  }

  /** The saved file keeps the upload's extension. */
  lemma SavedPathKeepsExtension(id: string, filename: string)
    ensures Extension(SavedPath(id, filename)) == Extension(filename)
  {
    var ext := Extension(filename);
    if StartsWith(id, "/") {
      assert SavedPath(id, filename) == id + "." + ext;
      ExtensionAfterDot(id, ext);
    } else {
      assert SavedPath(id, filename) == (UploadDir + "/" + id) + "." + ext;
      ExtensionAfterDot(UploadDir + "/" + id, ext);
    }
  }

  /** `path.lower().endswith(".pdf")`. */
  predicate IsPdf(path: string)
  {
    EndsWith(ToAsciiLower(path), ".pdf")
  }

  /** Only the last four characters decide, and their case does not. */
  lemma IsPdfLastFour(path: string)
    ensures IsPdf(path) <==> |path| >= 4 && ToAsciiLower(path[|path| - 4..]) == ".pdf"
  {
  }

  /** `pdf_to_images` names page `i` by replacing every `.pdf` in the path,
      exactly as written: the test is case-sensitive. */
  function PageImagePath(pdfPath: string, i: nat): (r: string)
    ensures !Contains(pdfPath, ".pdf") ==> r == pdfPath
  {
    var r := ReplaceAll(pdfPath, ".pdf", "_page" + NatToString(i) + ".png");
    assert !Contains(pdfPath, ".pdf") ==> r == pdfPath by {
      if !Contains(pdfPath, ".pdf") {
        ReplaceAbsent(pdfPath, ".pdf", "_page" + NatToString(i) + ".png");
      }
    }
    r
  }

  /** The path without its final four characters when it is a PDF. */
  function Stem(path: string): (s: string)
    ensures IsPdf(path) ==> |s| == |path| - 4 && s == path[..|path| - 4]
    ensures !IsPdf(path) ==> s == path
  {
    if IsPdf(path) then path[..|path| - 4] else path
  }

  /** The evidently intended page name: the suffix, in whatever case, gives
      way to `_page<i>.png`. */
  function PageImagePathFixed(pdfPath: string, i: nat): (r: string)
    ensures EndsWith(r, ".png")
    ensures StartsWith(r, Stem(pdfPath))
  {
    Stem(pdfPath) + "_page" + NatToString(i) + ".png"
  }

  /** Fixed names differ from page to page. */
  lemma FixedNamesDistinct(pdfPath: string, i: nat, j: nat)
    requires PageImagePathFixed(pdfPath, i) == PageImagePathFixed(pdfPath, j)
    ensures i == j
  {
    var s := Stem(pdfPath) + "_page";
    var a, b := NatToString(i), NatToString(j);
    assert |a| == |b|;
    assert (s + a + ".png")[|s|..|s| + |a|] == a;
    assert (s + b + ".png")[|s|..|s| + |b|] == b;
    NatToStringInjective(i, j);
  }

  /** Any path ending in `.pdf` is a PDF. */
  lemma LowerPdfSuffixIsPdf(stem: string)
    ensures IsPdf(stem + ".pdf")
  {
  }

  /** A path whose only `.pdf` is its lower-case suffix gets the intended
      name: the suffix gives way to `_page<i>.png`. */
  lemma PageImagePathLowerSuffix(stem: string, i: nat)
    requires forall k: nat :: k < |stem| ==> !OccursAt(stem + ".pdf", ".pdf", k)
    ensures IsPdf(stem + ".pdf")
    ensures PageImagePath(stem + ".pdf", i) == stem + "_page" + NatToString(i) + ".png"
    ensures PageImagePath(stem + ".pdf", i) == PageImagePathFixed(stem + ".pdf", i)
  {
    var p := stem + ".pdf";
    LowerPdfSuffixIsPdf(stem);
    ReplaceAtEnd(stem, ".pdf", "_page" + NatToString(i) + ".png");
    assert p[..|p| - 4] == stem;
  }

  /** A fixed name never overwrites the PDF it was rendered from. */
  lemma FixedNameIsNotThePdf(pdfPath: string, i: nat)
    requires IsPdf(pdfPath)
    ensures PageImagePathFixed(pdfPath, i) != pdfPath
  {
  }

  /** A path with no `k`-th character of `t` anywhere does not contain `t`. */
  lemma MissingCharNotContained(s: string, t: string, k: nat)
    requires k < |t| && forall i :: 0 <= i < |s| ==> s[i] != t[k]
    ensures !Contains(s, t)
  {
    forall i: nat | i <= |s|
      ensures !OccursAt(s, t, i)
    {
      if i + |t| <= |s| {
        assert s[i..i + |t|][k] == s[i + k];
      }
    }
  }

  /** As written, an upper-case `.PDF` path is expanded, but no `.pdf`
      occurs in it, so every page is named after the PDF itself and each
      rendering overwrites it. */
  lemma UpperCasePdfPagesOverwrite(pdfPath: string, i: nat)
    requires IsPdf(pdfPath) && !Contains(pdfPath, ".pdf")
    ensures PageImagePath(pdfPath, i) == pdfPath
  {
  }

  lemma ScanPdfIsPdf()
    ensures IsPdf("scan.PDF")
  {
    assert "scan.PDF" == "scan" + ".PDF";
    UpperPdfSuffixIsPdf("scan");
  }

  /** The concrete case: both pages of `scan.PDF` get the name `scan.PDF`. */
  lemma ScanPdfCollides()
    ensures IsPdf("scan.PDF")
    ensures PageImagePath("scan.PDF", 0) == PageImagePath("scan.PDF", 1) == "scan.PDF"
    ensures PageImagePathFixed("scan.PDF", 0) != PageImagePathFixed("scan.PDF", 1)
  {
    ScanPdfIsPdf();
    MissingCharNotContained("scan.PDF", ".pdf", 1);
    UpperCasePdfPagesOverwrite("scan.PDF", 0);
    UpperCasePdfPagesOverwrite("scan.PDF", 1);
    if PageImagePathFixed("scan.PDF", 0) == PageImagePathFixed("scan.PDF", 1) {
      FixedNamesDistinct("scan.PDF", 0, 1);
    }
  }

  /** Any path ending in `.PDF` is a PDF. */
  lemma UpperPdfSuffixIsPdf(head: string)
    ensures IsPdf(head + ".PDF")
  {
  }

  /** A dot-free stem followed by `.PDF` holds no `.pdf`. */
  lemma UpperPdfSuffixAbsent(head: string)
    requires NoDot(head)
    ensures !Contains(head + ".PDF", ".pdf")
  {
    var p := head + ".PDF";
    forall j: nat | j <= |p|
      ensures !OccursAt(p, ".pdf", j)
    {
      if j + 4 <= |p| {
        assert p[j..j + 4][0] == p[j] && p[j..j + 4][1] == p[j + 1];
        if j < |head| { assert p[j] == head[j]; }
      }
    }
  }

  /** The general case: an upload named `*.PDF` is saved under a dot-free
      id with the upper-case extension, and every page rendered from it
      overwrites it. */
  lemma SavedUpperPdfOverwrites(id: string, filename: string, i: nat)
    requires NoDot(id) && !StartsWith(id, "/") && Extension(filename) == "PDF"
    ensures IsPdf(SavedPath(id, filename))
    ensures PageImagePath(SavedPath(id, filename), i) == SavedPath(id, filename)
  {
    var head := UploadDir + "/" + id;
    assert SavedPath(id, filename) == head + ".PDF";
    forall k | 0 <= k < |head|
      ensures head[k] != '.'
    {
      if k >= |UploadDir| + 1 { assert head[k] == id[k - |UploadDir| - 1]; }
    }
    UpperPdfSuffixIsPdf(head);
    UpperPdfSuffixAbsent(head);
    UpperCasePdfPagesOverwrite(head + ".PDF", i);
  }

  /** `pdf_to_images` for a document of `n` pages: one name per page, in
      page order. */
  function PdfToImages(path: string, n: nat, naming: (string, nat) -> string): (r: seq<string>)
    ensures |r| == n
    ensures forall i :: 0 <= i < n ==> r[i] == naming(path, i)
  {
    if n == 0 then [] else PdfToImages(path, n - 1, naming) + [naming(path, n - 1)]
  }

  /** What one input path becomes: the names of its pages for a PDF, the
      path itself otherwise. `naming` is the page-naming rule. */
  function Expand(path: string, pageCount: string -> nat, naming: (string, nat) -> string): (r: seq<string>)
    ensures IsPdf(path) ==> |r| == pageCount(path) && forall i :: 0 <= i < |r| ==> r[i] == naming(path, i)
    ensures !IsPdf(path) ==> r == [path]
  {
    if IsPdf(path) then PdfToImages(path, pageCount(path), naming) else [path]
  }

  /** The expansion of a whole list, defined from its end. */
  function Prepared(paths: seq<string>, pageCount: string -> nat, naming: (string, nat) -> string): seq<string>
  {
    if |paths| == 0 then []
    else Prepared(paths[..|paths| - 1], pageCount, naming) + Expand(paths[|paths| - 1], pageCount, naming)
  }

  /** `prepare_files`, with the page count of each PDF given and the page
      naming as a parameter (`PageImagePath` as written). */
  method PrepareFiles(paths: seq<string>, pageCount: string -> nat, naming: (string, nat) -> string)
    returns (images: seq<string>)
    ensures images == Prepared(paths, pageCount, naming)
    ensures |images| == NonPdfCount(paths) + PageTotal(paths, pageCount)
  {
    images := [];
    var k := 0;
    while k < |paths|
      invariant 0 <= k <= |paths|
      invariant images == Prepared(paths[..k], pageCount, naming)
    {
      var path := paths[k];
      if IsPdf(path) {
        var pages := PdfToImages(path, pageCount(path), naming);
        images := images + pages;
      } else {
        images := images + [path];
      }
      assert paths[..k + 1][..k] == paths[..k];
      k := k + 1;
    }
    assert paths[..k] == paths;
    PreparedLength(paths, pageCount, naming);
  }

  function NonPdfCount(paths: seq<string>): nat
  {
    if |paths| == 0 then 0
    else NonPdfCount(paths[..|paths| - 1]) + (if IsPdf(paths[|paths| - 1]) then 0 else 1)
  }

  function PageTotal(paths: seq<string>, pageCount: string -> nat): nat
  {
    if |paths| == 0 then 0
    else PageTotal(paths[..|paths| - 1], pageCount) + (if IsPdf(paths[|paths| - 1]) then pageCount(paths[|paths| - 1]) else 0)
  }

  /** One output per non-PDF path plus one per page of every PDF. */
  lemma {:induction false} PreparedLength(paths: seq<string>, pageCount: string -> nat, naming: (string, nat) -> string)
    ensures |Prepared(paths, pageCount, naming)| == NonPdfCount(paths) + PageTotal(paths, pageCount)
  {
    if |paths| > 0 {
      PreparedLength(paths[..|paths| - 1], pageCount, naming);
    }
  }

  /** Expansion works path by path, so the output keeps the input order. */
  lemma {:induction false} PreparedAppend(a: seq<string>, b: seq<string>, pageCount: string -> nat, naming: (string, nat) -> string)
    ensures Prepared(a + b, pageCount, naming) == Prepared(a, pageCount, naming) + Prepared(b, pageCount, naming)
    decreases |b|
  {
    if |b| > 0 {
      var b' := b[..|b| - 1];
      assert (a + b)[..|a + b| - 1] == a + b';
      PreparedAppend(a, b', pageCount, naming);
    } else {
      assert a + b == a;
    }
  }

  /** A list without PDFs passes through unchanged. */
  lemma {:induction false} NoPdfUnchanged(paths: seq<string>, pageCount: string -> nat, naming: (string, nat) -> string)
    requires forall i :: 0 <= i < |paths| ==> !IsPdf(paths[i])
    ensures Prepared(paths, pageCount, naming) == paths
  {
    if |paths| > 0 {
      NoPdfUnchanged(paths[..|paths| - 1], pageCount, naming);
      assert paths[..|paths| - 1] + [paths[|paths| - 1]] == paths;
    }
  }

  /** With the fixed naming, the pages of one PDF all have distinct names
      and none of them is the PDF's own path. */
  lemma ExpandFixedDistinct(path: string, pageCount: string -> nat, i: nat, j: nat)
    requires IsPdf(path)
    requires i < j < |Expand(path, pageCount, PageImagePathFixed)|
    ensures Expand(path, pageCount, PageImagePathFixed)[i] != Expand(path, pageCount, PageImagePathFixed)[j]
    ensures Expand(path, pageCount, PageImagePathFixed)[i] != path
  {
    var r := Expand(path, pageCount, PageImagePathFixed);
    if r[i] == r[j] {
      FixedNamesDistinct(path, i, j);
    }
    FixedNameIsNotThePdf(path, i);
  }
}
