/** The form-upload page (UploadForm.jsx): a drop zone with a dragging
    highlight, a file picker, the list of chosen files, and a button that
    moves on once something is chosen. */
module UploadForm {
  import opened Base
  import opened Text
  import opened Effects
  import Router
  import App

  /** The parts of a browser `File` the page reads. */
  datatype File = File(name: string, fileType: string, size: nat)

  datatype Upload = Upload(selectedFiles: seq<File>, isDragging: bool)

  function Init(): (u: Upload)
    ensures u.selectedFiles == [] && !u.isDragging
  {
    Upload([], false)
  }

  /** A drag over the zone lights it up; nothing else changes. */
  function DragOver(u: Upload): (r: Upload)
    ensures r.isDragging && r.selectedFiles == u.selectedFiles
  {
    u.(isDragging := true)
  }

  function DragLeave(u: Upload): (r: Upload)
    ensures !r.isDragging && r.selectedFiles == u.selectedFiles
  {
    u.(isDragging := false)
  }

  /** A drop ends the drag and appends the dropped files after the ones
      already chosen, in the order given. */
  function Drop(u: Upload, files: seq<File>): (r: Upload)
    ensures !r.isDragging
    ensures r.selectedFiles == u.selectedFiles + files
  {
    Upload(u.selectedFiles + files, false)
  }

  /** The picker's change event: `target.files` may be null, in which case
      nothing changes; otherwise its files are appended. */
  function FileSelect(u: Upload, files: Option<seq<File>>): (r: Upload)
    ensures files.None? ==> r == u
    ensures files.Some? ==> r.selectedFiles == u.selectedFiles + files.value
    ensures r.isDragging == u.isDragging
  {
    match files
    case None => u
    case Some(fs) => u.(selectedFiles := u.selectedFiles + fs)
  }

  /** The list and the continue button appear only once a file is chosen. */
  predicate ShowsContinue(u: Upload)
  {
    |u.selectedFiles| > 0
  }

  datatype Icon = PdfIcon | ImageIcon

  /** A file whose MIME type mentions "pdf" gets the document icon. */
  function IconFor(f: File): (i: Icon)
    ensures i == PdfIcon <==> Contains(f.fileType, "pdf")
  {
    if Contains(f.fileType, "pdf") then PdfIcon else ImageIcon
  }

  lemma PdfTypeGetsPdfIcon(rest: string)
    ensures IconFor(File("x.pdf", "application/pdf" + rest, 0)) == PdfIcon
  {
    var t := "application/pdf" + rest;
    assert OccursAt(t, "pdf", 12);
  }

  const NextRoute: string := "upload-documents"

  function Continue(): (es: seq<Effect>)
    ensures es == [Navigate(NextRoute)]
  {
    [Navigate(NextRoute)]
  }

  /** The continue button brings up the document-upload page. */
  lemma ContinueShowsUploadDocuments(w: World, logout: Auth -> Auth)
    ensures Apply(w, Continue(), logout).router.route == NextRoute
    ensures App.AppContent(Apply(w, Continue(), logout).router.route) == App.Layout(App.UploadDocuments)
  {
  }

  datatype Event =
    | DragOverZone
    | DragLeaveZone
    | DropFiles(dropped: seq<File>)
    | SelectFiles(picked: Option<seq<File>>)

  function Step(u: Upload, e: Event): Upload
  {
    match e
    case DragOverZone => DragOver(u)
    case DragLeaveZone => DragLeave(u)
    case DropFiles(fs) => Drop(u, fs)
    case SelectFiles(fs) => FileSelect(u, fs)
  }

  function Run(u: Upload, evs: seq<Event>): Upload
    decreases |evs|
  {
    if |evs| == 0 then u else Run(Step(u, evs[0]), evs[1..])
  }

  /** The files an event contributes. */
  function Added(e: Event): seq<File>
  {
    match e
    case DropFiles(fs) => fs
    case SelectFiles(Some(fs)) => fs
    case _ => []
  }

  function AddedAll(evs: seq<Event>): seq<seq<File>>
    ensures |AddedAll(evs)| == |evs|
    decreases |evs|
  {
    if |evs| == 0 then [] else [Added(evs[0])] + AddedAll(evs[1..])
  }

  /** Files are never removed or reordered: after any events the list is
      the original list followed by every dropped or picked file, in event
      order. */
  lemma {:induction false} RunAppendsFiles(u: Upload, evs: seq<Event>)
    ensures Run(u, evs).selectedFiles == u.selectedFiles + Flatten(AddedAll(evs))
    decreases |evs|
  {
    if |evs| > 0 {
      var u' := Step(u, evs[0]);
      assert u'.selectedFiles == u.selectedFiles + Added(evs[0]);
      RunAppendsFiles(u', evs[1..]);
      FlattenCons(Added(evs[0]), AddedAll(evs[1..]));
    }
  }

  /** Once anything is chosen, the continue button stays. */
  lemma ContinueStaysShown(u: Upload, evs: seq<Event>)
    requires ShowsContinue(u)
    ensures ShowsContinue(Run(u, evs))
  {
    RunAppendsFiles(u, evs);
  }
}
