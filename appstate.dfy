/**
 * The state of the web front end's component (its `data()` fields) and the
 * methods that update it without touching the network or the page:
 * `validateAndSetFile`, `clearFile`, `clearOutput`, `showError`,
 * `clearError`, `handleDrop` and the bookkeeping half of `downloadImage`.
 * Each method is specified by a pure transition on a snapshot of the fields.
 */
module Component {
  import opened Wrappers
  import opened Text
  import opened Filenames

  /** A browser `File`: its name, MIME type and size in bytes. */
  datatype FileInfo = FileInfo(name: string, mimeType: string, size: nat)

  /** An entry of `extractedImages` as the back end reports it. */
  datatype ExtractedImage = ExtractedImage(filename: string, path: string)

  /** How fetching one image ended: downloaded, a non-OK HTTP status, or a thrown error. */
  datatype FetchOutcome = Fetched | HttpStatus(code: nat) | Thrown(message: string)

  /** All the component's fields at one moment. */
  datatype View = View(
    selectedFile: Option<FileInfo>,
    markdownContent: string,
    extractedImages: seq<ExtractedImage>,
    imageCount: int,
    isConverting: bool,
    isDragOver: bool,
    errorMessage: string,
    copyButtonText: string,
    originalFilename: string,
    downloadedImages: seq<string>)

  /** The copy button's resting label. */
  const CopyLabel: string := "复制 Markdown"

  /** `50 * 1024 * 1024`. */
  const MaxSize: nat := 52428800

  const NotPdfError: string := "请选择PDF文件。"
  const TooLargeError: string := "文件大小超过50MB限制。"

  /** The fields as `data()` returns them. */
  const InitialView: View := View(None, "", [], 0, false, false, "", CopyLabel, "", [])

  /** `downloadedImages` lists each file name at most once. */
  predicate NoDuplicates(names: seq<string>)
  {
    forall i, j :: 0 <= i < j < |names| ==> names[i] != names[j]
  }

  /**
   * The type test of `validateAndSetFile`: the MIME type says PDF or the
   * lower-cased name ends in `.pdf`.  No non-ASCII character lower-cases to
   * `.`, `p`, `d` or `f`, so the suffix test is the ASCII one.
   */
  predicate LooksLikePdf(f: FileInfo)
  {
    f.mimeType == "application/pdf" || HasPdfExtension(f.name)
  }

  /** `clearOutput()`. */
  function ClearedOutput(v: View): View
  {
    v.(markdownContent := "", extractedImages := [], imageCount := 0, downloadedImages := [],
       copyButtonText := CopyLabel)
  }

  /** `validateAndSetFile(file)`. */
  function Validated(v: View, file: Option<FileInfo>): View
  {
    match file
    case None => v
    case Some(f) =>
      if !LooksLikePdf(f) then v.(errorMessage := NotPdfError)
      else if f.size > MaxSize then v.(errorMessage := TooLargeError)
      else ClearedOutput(v.(selectedFile := Some(f), originalFilename := f.name, errorMessage := ""))
  }

  /** `clearFile()`; the file input's own value is part of the page, not of the state. */
  function FileCleared(v: View): View
  {
    ClearedOutput(v.(selectedFile := None, originalFilename := ""))
  }

  /** `handleDrop(event)` with the dropped files. */
  function Dropped(v: View, files: seq<FileInfo>): View
  {
    var w := v.(isDragOver := false);
    if |files| > 0 then Validated(w, Some(files[0])) else w
  }

  /** The `error.message` `downloadImage` reports for a failed fetch. */
  function FetchMessage(o: FetchOutcome): string
    requires !o.Fetched?
  {
    match o
    case HttpStatus(code) => "下载失败: " + NatToString(code)
    case Thrown(message) => message
  }

  /** The fields after `downloadImage(image)` for an image with the given file name. */
  function AfterDownload(v: View, filename: string, o: FetchOutcome): View
  {
    if o.Fetched? then
      if filename in v.downloadedImages then v else v.(downloadedImages := v.downloadedImages + [filename])
    else v.(errorMessage := "下载图片 " + filename + " 失败: " + FetchMessage(o))
  }

  /** The component, with the fields of `data()`. */
  class AppState {
    var selectedFile: Option<FileInfo>
    var markdownContent: string
    var extractedImages: seq<ExtractedImage>
    var imageCount: int
    var isConverting: bool
    var isDragOver: bool
    var errorMessage: string
    var copyButtonText: string
    var originalFilename: string
    var downloadedImages: seq<string>

    function Snapshot(): View
      reads this
    {
      View(selectedFile, markdownContent, extractedImages, imageCount, isConverting, isDragOver,
           errorMessage, copyButtonText, originalFilename, downloadedImages)
    }

    predicate Valid()
      reads this
    {
      NoDuplicates(downloadedImages)
    }

    /** `data()`. */
    constructor ()
      ensures Snapshot() == InitialView && Valid()
    {
      selectedFile := None;
      markdownContent := "";
      extractedImages := [];
      imageCount := 0;
      isConverting := false;
      isDragOver := false;
      errorMessage := "";
      copyButtonText := "复制 Markdown";
      originalFilename := "";
      downloadedImages := [];
    }

    /** `showError(message)`. */
    method ShowError(message: string)
      modifies this
      ensures Snapshot() == old(Snapshot()).(errorMessage := message)
    {
      errorMessage := message;
    }

    /** `clearError()`. */
    method ClearError()
      modifies this
      ensures Snapshot() == old(Snapshot()).(errorMessage := "")
    {
      errorMessage := "";
    }

    /** `clearOutput()`. */
    method ClearOutput()
      modifies this
      ensures Snapshot() == ClearedOutput(old(Snapshot())) && Valid()
    {
      markdownContent := "";
      extractedImages := [];
      imageCount := 0;
      downloadedImages := [];
      copyButtonText := "复制 Markdown";
    }

    /** `validateAndSetFile(file)`; `None` is a missing file. */
    method ValidateAndSetFile(file: Option<FileInfo>)
      requires Valid()
      modifies this
      ensures Snapshot() == Validated(old(Snapshot()), file) && Valid()
    {
      if file.None? {
        return;
      }
      var f := file.value;
      if f.mimeType != "application/pdf" && !HasPdfExtension(f.name) {
        ShowError("请选择PDF文件。");
        return;
      }
      var maxSize := 50 * 1024 * 1024;
      if f.size > maxSize {
        ShowError("文件大小超过50MB限制。");
        return;
      }
      selectedFile := file;
      originalFilename := f.name;
      ClearError();
      ClearOutput();
    }

    /** `clearFile()`. */
    method ClearFile()
      modifies this
      ensures Snapshot() == FileCleared(old(Snapshot())) && Valid()
    {
      selectedFile := None;
      originalFilename := "";
      ClearOutput();
    }

    /** `handleDrop(event)`. */
    method HandleDrop(files: seq<FileInfo>)
      requires Valid()
      modifies this
      ensures Snapshot() == Dropped(old(Snapshot()), files) && Valid()
    {
      isDragOver := false;
      if |files| > 0 {
        ValidateAndSetFile(Some(files[0]));
      }
    }

    /** `isImageDownloaded(filename)`. */
    function IsImageDownloaded(filename: string): bool
      reads this
    {
      filename in downloadedImages
    }

    /** The state updates of `downloadImage(image)`, given how its fetch ended. */
    method DownloadImage(filename: string, outcome: FetchOutcome) returns (ok: bool)
      requires Valid()
      modifies this
      ensures ok <==> outcome.Fetched?
      ensures Snapshot() == AfterDownload(old(Snapshot()), filename, outcome) && Valid()
    {
      if outcome.Fetched? {
        if !(filename in downloadedImages) {
          downloadedImages := downloadedImages + [filename];
        }
        return true;
      }
      var message := match outcome
        case HttpStatus(code) => "下载失败: " + NatToString(code)
        case Thrown(m) => m;
      ShowError("下载图片 " + filename + " 失败: " + message);
      return false;
    }
  }
}

/** What the component's state updates guarantee. */
module ComponentProperties {
  import opened Wrappers
  import opened Filenames
  import FilenameProperties
  import opened Component

  /** Appending a name that is absent keeps the list free of duplicates. */
  lemma NoDuplicatesAppend(names: seq<string>, name: string)
    requires NoDuplicates(names) && name !in names
    ensures NoDuplicates(names + [name])
  {
    var r := names + [name];
    forall i, j | 0 <= i < j < |r|
      ensures r[i] != r[j]
    {
      if j == |names| {
        assert r[i] == names[i];
      }
    }
  }

  /** Downloads never put a name into `downloadedImages` twice, and forget none. */
  lemma DownloadKeepsNoDuplicates(v: View, filename: string, o: FetchOutcome)
    requires NoDuplicates(v.downloadedImages)
    ensures var w := AfterDownload(v, filename, o);
      && NoDuplicates(w.downloadedImages)
      && (o.Fetched? ==> filename in w.downloadedImages)
      && (forall n :: n in v.downloadedImages ==> n in w.downloadedImages)
      && (forall n :: n in w.downloadedImages ==> n in v.downloadedImages || (o.Fetched? && n == filename))
  {
    if o.Fetched? && filename !in v.downloadedImages {
      NoDuplicatesAppend(v.downloadedImages, filename);
    }
  }

  /** Downloading the same image twice leaves the list as downloading it once. */
  lemma DownloadTwice(v: View, filename: string)
    ensures AfterDownload(AfterDownload(v, filename, Fetched), filename, Fetched) == AfterDownload(v, filename, Fetched)
  {
    var w := AfterDownload(v, filename, Fetched);
    assert filename in w.downloadedImages by {
      if filename !in v.downloadedImages {
        assert w.downloadedImages[|v.downloadedImages|] == filename;
      }
    }
  }

  /** A failed download changes only the error message, which names the file and the reason. */
  lemma DownloadFailure(v: View, filename: string, code: nat, message: string)
    ensures AfterDownload(v, filename, HttpStatus(code)) ==
      v.(errorMessage := "下载图片 " + filename + " 失败: 下载失败: " + Text.NatToString(code))
    ensures AfterDownload(v, filename, Thrown(message)) == v.(errorMessage := "下载图片 " + filename + " 失败: " + message)
  {
    assert "下载图片 " + filename + " 失败: " + ("下载失败: " + Text.NatToString(code)) ==
      "下载图片 " + filename + " 失败: 下载失败: " + Text.NatToString(code);
  }

  /**
   * What `validateAndSetFile` does to the state: nothing without a file; for
   * a file that is not a PDF or is too large, only the error message changes,
   * and the type test is made first; an accepted file becomes the selection,
   * clears the error and the whole conversion output.
   */
  lemma ValidateOutcome(v: View, f: FileInfo)
    ensures Validated(v, None) == v
    ensures !LooksLikePdf(f) ==> Validated(v, Some(f)) == v.(errorMessage := NotPdfError)
    ensures LooksLikePdf(f) && f.size > MaxSize ==> Validated(v, Some(f)) == v.(errorMessage := TooLargeError)
    ensures var w := Validated(v, Some(f));
      LooksLikePdf(f) && f.size <= MaxSize ==>
        && w.selectedFile == Some(f) && w.originalFilename == f.name && w.errorMessage == ""
        && w.markdownContent == "" && w.extractedImages == [] && w.imageCount == 0
        && w.downloadedImages == [] && w.copyButtonText == CopyLabel
        && w.isConverting == v.isConverting && w.isDragOver == v.isDragOver
  {
  }

  /** A file becomes the selection exactly when it passes both tests. */
  lemma ValidateSelectsIff(v: View, f: FileInfo)
    requires v.selectedFile != Some(f)
    ensures Validated(v, Some(f)).selectedFile == Some(f) <==> LooksLikePdf(f) && f.size <= MaxSize
  {
  }

  /** A PDF file name passes the type test whatever MIME type the browser reports. */
  lemma PdfNamePassesTypeTest(base: string, e: string, mimeType: string, size: nat)
    requires FilenameProperties.IsPdfSpelling(e)
    ensures LooksLikePdf(FileInfo(base + e, mimeType, size))
  {
    var n := base + e;
    assert n[|n| - 4..] == e;
  }

  /** Clearing the output twice is clearing it once, and the selection survives it. */
  lemma ClearOutputIdempotent(v: View)
    ensures ClearedOutput(ClearedOutput(v)) == ClearedOutput(v)
    ensures ClearedOutput(v).selectedFile == v.selectedFile
    ensures ClearedOutput(v).originalFilename == v.originalFilename
  {
  }

  /** After `clearFile` the state is the initial one, except for the error and progress flags. */
  lemma ClearFileResets(v: View)
    ensures FileCleared(v) == InitialView.(isConverting := v.isConverting, isDragOver := v.isDragOver,
                                           errorMessage := v.errorMessage)
  {
  }

  /** An accepted file starts from a clean output; validating it again changes nothing. */
  lemma ValidateTwice(v: View, f: FileInfo)
    ensures Validated(Validated(v, Some(f)), Some(f)) == Validated(v, Some(f))
  {
  }
}
