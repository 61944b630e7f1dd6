/**
 * The PDF routes: the content-type check of an upload, and the guard that
 * serves a stored PDF only by a bare file name.
 */
module Pdfs {
  import opened Wrappers
  import opened Text
  import opened Sorting

  const PdfType: string := "application/pdf"

  /** `upload_pdf`: only a part whose content type is exactly `application/pdf` reaches storage. */
  function CheckUpload(contentType: Option<string>): (r: Option<HttpException>)
    ensures r.None? <==> contentType == Some(PdfType)
    ensures r.Some? ==> r.value.status == 400 && r.value.detail == "Il file deve essere un PDF"
  {
    if contentType != Some(PdfType) then Some(HttpException(400, "Il file deve essere un PDF"))
    else None
  }

  /**
   * The parts of a POSIX path as `pathlib` keeps them: split on `/`, with
   * empty parts and `.` parts dropped.
   */
  function PathParts(path: string): seq<string> {
    Filter(Split(path, '/'), (p: string) => p != "" && p != ".")
  }

  /** `Path(path).name`: the last part, or `""` when there is none. */
  function PathName(path: string): (r: string)
    ensures '/' !in r
    ensures r != "."
  {
    var parts := PathParts(path);
    if parts == [] then ""
    else
      assert parts[|parts| - 1] in Split(path, '/');
      parts[|parts| - 1]
  }

  /** A string is its own final path component exactly when it has no `/` and is not `.`. */
  lemma BareName(filename: string)
    ensures PathName(filename) == filename <==> '/' !in filename && filename != "."
  {
    if '/' !in filename {
      IndexOfAbsent(filename, '/');
      assert Split(filename, '/') == [filename];
      if filename == "" || filename == "." {
        FilterNone([filename], (p: string) => p != "" && p != ".");
      } else {
        FilterKeepsAll([filename], (p: string) => p != "" && p != ".");
      }
    }
  }

  /** `..` names its own final component, so it passes the guard. */
  lemma ParentPassesGuard()
    ensures PathName("..") == ".."
  {
    BareName("..");
  }

  /** What `get_pdf` answers: the file to send, or 404. */
  datatype Served = Served(path: string, mediaType: string, filename: string)

  /**
   * `get_pdf`: a name with directory parts is 404, so is a name with no file
   * under the upload root; otherwise the file at `root/name` is sent as a PDF.
   */
  function GetPdf(filename: string, root: string, onDisk: string -> bool): (r: Result<Served, HttpException>)
    ensures r.Ok? <==> '/' !in filename && filename != "." && onDisk(root + "/" + filename)
    ensures r.Ok? ==> r.value == Served(root + "/" + filename, PdfType, filename)
    ensures r.Err? ==> r.error.status == 404
  {
    BareName(filename);
    var safeName := PathName(filename);
    if safeName != filename then Err(HttpException(404, "Not Found"))
    else
      var path := root + "/" + safeName;
      if !onDisk(path) then Err(HttpException(404, "Not Found"))
      else Ok(Served(path, PdfType, safeName))
  }

  /** The path of every file sent is the root, a slash, and a name without a slash (a `..` name is not refused: the check is on slashes only). */
  lemma ServedUnderRoot(filename: string, root: string, onDisk: string -> bool)
    requires GetPdf(filename, root, onDisk).Ok?
    ensures var path := GetPdf(filename, root, onDisk).value.path;
      |path| > |root| && path[..|root| + 1] == root + "/" && '/' !in path[|root| + 1..]
  {
    var path := root + "/" + filename;
    assert path[..|root| + 1] == root + "/";
    assert path[|root| + 1..] == filename;
  }
}
