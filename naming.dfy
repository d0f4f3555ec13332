/**
 * How a downloaded item's file name is chosen (course_downloader.py lines
 * 192-201) and how a web link's shortcut file is named and written (lines
 * 209-211).
 */
module Naming {
  import opened Wrappers
  import opened Strings
  import opened PosixPath

  /** `MIME_TYPE_MAP`: content type to extension, `""` for `application/octet-stream`. */
  const MimeTypeMap: map<string, string> := map[
    "application/pdf" := ".pdf",
    "application/vnd.ms-powerpoint" := ".ppt",
    "application/vnd.openxmlformats-officedocument.presentationml.presentation" := ".pptx",
    "application/msword" := ".doc",
    "application/vnd.openxmlformats-officedocument.wordprocessingml.document" := ".docx",
    "application/vnd.ms-excel" := ".xls",
    "application/vnd.openxmlformats-officedocument.spreadsheetml.sheet" := ".xlsx",
    "application/zip" := ".zip",
    "application/x-zip-compressed" := ".zip",
    "application/x-rar-compressed" := ".rar",
    "application/x-7z-compressed" := ".7z",
    "application/x-tar" := ".tar",
    "video/mp4" := ".mp4",
    "video/quicktime" := ".mov",
    "video/x-msvideo" := ".avi",
    "video/x-matroska" := ".mkv",
    "video/webm" := ".webm",
    "image/jpeg" := ".jpg",
    "image/png" := ".png",
    "image/gif" := ".gif",
    "text/plain" := ".txt",
    "application/x-ipynb+json" := ".ipynb",
    "application/octet-stream" := ""
  ]

  // ---------------------------------------------------------------------------
  // The content-disposition pattern `filename="?(.+?)"?`
  // ---------------------------------------------------------------------------

  const FilenameKey := "filename="

  /**
   * What the pattern captures when a match starts at `i`. After the literal
   * `filename=` the optional quote is tried first; the lazy group then takes
   * ONE character other than a newline, and the trailing optional quote never
   * forces it to take more. If the quote leaves nothing to capture, the
   * quote itself is captured.
   */
  function CaptureAt(h: string, i: nat): Option<char>
    requires i <= |h|
  {
    var k := i + |FilenameKey|;
    if k <= |h| && h[i..k] == FilenameKey then
      if k + 1 < |h| && h[k] == '"' && h[k + 1] != '\n' then Some(h[k + 1])
      else if k < |h| && h[k] != '\n' then Some(h[k])
      else None
    else None
  }

  /** `re.findall(...)[0]` searching from `i`: the capture of the leftmost position where the pattern matches. */
  function FirstCapture(h: string, i: nat): Option<char>
    requires i <= |h|
    decreases |h| - i
  {
    if CaptureAt(h, i).Some? then CaptureAt(h, i)
    else if i == |h| then None
    else FirstCapture(h, i + 1)
  }

  /**
   * FirstCapture finds the leftmost match: a capture comes from a position
   * `j` where the pattern matches and it matches at no earlier position; no
   * capture means it matches nowhere from `i` on.
   */
  lemma {:induction false} FirstCaptureLeftmost(h: string, i: nat)
    requires i <= |h|
    ensures FirstCapture(h, i).Some? ==>
      exists j | i <= j <= |h| :: CaptureAt(h, j) == FirstCapture(h, i) && forall m | i <= m < j :: CaptureAt(h, m).None?
    ensures FirstCapture(h, i).None? ==> forall j | i <= j <= |h| :: CaptureAt(h, j).None?
    decreases |h| - i
  {
    if CaptureAt(h, i).Some? {
      assert CaptureAt(h, i) == FirstCapture(h, i);
    } else if i < |h| {
      FirstCaptureLeftmost(h, i + 1);
      if FirstCapture(h, i + 1).Some? {
        var j :| i + 1 <= j <= |h| && CaptureAt(h, j) == FirstCapture(h, i + 1) && forall m | i + 1 <= m < j :: CaptureAt(h, m).None?;
        assert forall m | i <= m < j :: CaptureAt(h, m).None?;
      }
    }
  }

  /**
   * `server_fname`: the one captured character when the content-disposition
   * header is present and matches, otherwise `basename(url.split('?')[0])`.
   */
  function ServerFilename(disposition: Option<string>, url: string): string {
    var captured := if disposition.Some? then FirstCapture(disposition.value, 0) else None;
    if captured.Some? then [captured.value] else Basename(BeforeFirst(url, '?'))
  }

  /** `MIME_TYPE_MAP.get(content_type.split(';')[0], "")`, the header defaulting to `""`; the key is not trimmed. */
  function MimeExtension(contentType: Option<string>, mime: map<string, string>): string {
    var key := BeforeFirst(contentType.GetOr(""), ';');
    if key in mime then mime[key] else ""
  }

  /** The extension chosen: the link name's, else the server file name's, else the content type's. */
  function ChosenExtension(name: string, url: string, disposition: Option<string>, contentType: Option<string>, mime: map<string, string>): string {
    var extFromLink := SplitExt(name).1;
    var extFromServer := SplitExt(ServerFilename(disposition, url)).1;
    if extFromLink != "" then extFromLink
    else if extFromServer != "" then extFromServer
    else MimeExtension(contentType, mime)
  }

  /** `final_filename`: the sanitized root of the link name followed by the chosen extension. */
  function ResolveFileName(name: string, url: string, disposition: Option<string>, contentType: Option<string>, mime: map<string, string>): string {
    var root := SplitExt(name).0;
    StripIllegal(if root != "" then root else name) + ChosenExtension(name, url, disposition, contentType, mime)
  }

  /** `clean_filename`: the sanitized name with `.url` appended. */
  function ShortcutName(name: string): string {
    StripIllegal(name) + ".url"
  }

  /** The body written into a shortcut file. */
  function ShortcutText(url: string): string {
    "[InternetShortcut]\nURL=" + url + "\n"
  }

  // ---------------------------------------------------------------------------
  // Properties
  // ---------------------------------------------------------------------------

  /** When the header matches, the server name is one character, so it never supplies an extension. */
  lemma HeaderCaptureIsOneChar(disposition: string, url: string)
    requires FirstCapture(disposition, 0).Some?
    ensures |ServerFilename(Some(disposition), url)| == 1
    ensures SplitExt(ServerFilename(Some(disposition), url)).1 == ""
  {
    SplitExtSingleChar(ServerFilename(Some(disposition), url));
  }

  /**
   * When the content-disposition header matches, the URL plays no part in the
   * name: the extension is the link name's, or else the content type's.
   */
  lemma HeaderMatchIgnoresUrl(name: string, url1: string, url2: string, disposition: string, contentType: Option<string>, mime: map<string, string>)
    requires FirstCapture(disposition, 0).Some?
    ensures ResolveFileName(name, url1, Some(disposition), contentType, mime) == ResolveFileName(name, url2, Some(disposition), contentType, mime)
    ensures ChosenExtension(name, url1, Some(disposition), contentType, mime) ==
      if SplitExt(name).1 != "" then SplitExt(name).1 else MimeExtension(contentType, mime)
  {
    HeaderCaptureIsOneChar(disposition, url1);
  }

  /**
   * The three sources of an extension, in priority order: a link name with an
   * extension keeps it; otherwise the server file name's extension is used;
   * otherwise the content-type table decides, with `""` for unknown types.
   * The part before the extension is the name's root with illegal characters deleted.
   */
  lemma ExtensionPriority(name: string, url: string, disposition: Option<string>, contentType: Option<string>, mime: map<string, string>)
    ensures var f := ResolveFileName(name, url, disposition, contentType, mime);
      var (root, ext) := SplitExt(name);
      var serverExt := SplitExt(ServerFilename(disposition, url)).1;
      && (HasExtension(name) ==> f == StripIllegal(root) + ext && root != "")
      && (!HasExtension(name) ==> root == name && f == StripIllegal(name) + (if serverExt != "" then serverExt else MimeExtension(contentType, mime)))
      && (!HasExtension(name) && serverExt == "" && BeforeFirst(contentType.GetOr(""), ';') !in mime ==> f == StripIllegal(name))
  {
  }

  /**
   * A link named `Lecture Notes` whose response has no content-disposition
   * header and a PDF content type, fetched from a URL whose last component
   * has no extension, is saved as `Lecture Notes.pdf`.
   */
  lemma PdfByContentType(url: string, parameters: string, mime: map<string, string>)
    requires SplitExt(Basename(BeforeFirst(url, '?'))).1 == ""
    requires parameters == "" || parameters[0] == ';'
    requires "application/pdf" in mime && mime["application/pdf"] == ".pdf"
    ensures ResolveFileName("Lecture Notes", url, None, Some("application/pdf" + parameters), mime) == "Lecture Notes.pdf"
  {
    LectureNotesIsPlain();
    PdfContentTypeKey(parameters);
    var ct := "application/pdf" + parameters;
    assert MimeExtension(Some(ct), mime) == ".pdf";
    assert SplitExt(ServerFilename(None, url)).1 == "";
    assert ChosenExtension("Lecture Notes", url, None, Some(ct), mime) == ".pdf";
    assert ResolveFileName("Lecture Notes", url, None, Some(ct), mime) == StripIllegal("Lecture Notes") + ".pdf";
  }

  lemma LectureNotesIsPlain()
    ensures SplitExt("Lecture Notes") == ("Lecture Notes", "")
    ensures StripIllegal("Lecture Notes") == "Lecture Notes"
    ensures "Lecture Notes" + ".pdf" == "Lecture Notes.pdf"
  {
    LectureNotesSplit();
    LectureNotesSanitized();
    LectureNotesPdf();
  }

  lemma LectureNotesSplit()
    ensures SplitExt("Lecture Notes") == ("Lecture Notes", "")
  {
    LectureNotesHasNoDot();
  }

  lemma LectureNotesSanitized()
    ensures StripIllegal("Lecture Notes") == "Lecture Notes"
  {
    LectureNotesIsClean();
    StripIllegalFixesClean("Lecture Notes");
  }

  lemma LectureNotesPdf()
    ensures "Lecture Notes" + ".pdf" == "Lecture Notes.pdf"
  {
  }

  lemma LectureNotesHasNoDot()
    ensures !HasExtension("Lecture Notes")
  {
    var name := "Lecture Notes";
    assert forall i | 0 <= i < |name| :: name[i] != '.';
  }

  lemma LectureNotesIsClean()
    ensures IsClean("Lecture Notes")
  {
    var name := "Lecture Notes";
    assert forall i | 0 <= i < |name| :: name[i] in "Lecture Nots";
  }

  lemma PdfContentTypeKey(parameters: string)
    requires parameters == "" || parameters[0] == ';'
    ensures BeforeFirst("application/pdf" + parameters, ';') == "application/pdf"
  {
    var ct := "application/pdf" + parameters;
    var key := BeforeFirst(ct, ';');
    assert forall k | 0 <= k < 15 :: ct[k] != ';';
    assert key == ct[..15];
  }

  /** The table maps `application/pdf` to `.pdf`, so PdfByContentType applies to it. */
  lemma MimeTableHasPdf()
    ensures "application/pdf" in MimeTypeMap && MimeTypeMap["application/pdf"] == ".pdf"
  {
  }

  /** No entry of the table holds a path separator. */
  predicate SeparatorFree(mime: map<string, string>) {
    forall k | k in mime :: '/' !in mime[k]
  }

  /** The extensions the table can give. */
  const TableExtensions: seq<string> := [".pdf", ".ppt", ".pptx", ".doc", ".docx", ".xls", ".xlsx", ".zip", ".rar", ".7z", ".tar", ".mp4", ".mov", ".avi", ".mkv", ".webm", ".jpg", ".png", ".gif", ".txt", ".ipynb", ""]

  lemma MimeTableValues()
    ensures forall k | k in MimeTypeMap :: MimeTypeMap[k] in TableExtensions
  {
  }

  lemma TableExtensionsSeparatorFree()
    ensures forall e | e in TableExtensions :: '/' !in e
  {
  }

  /**
   * The resolved name is a single path component: no `/` can come from the
   * sanitized root, from either extension, or from a separator-free table.
   */
  lemma FileNameIsOneComponent(name: string, url: string, disposition: Option<string>, contentType: Option<string>, mime: map<string, string>)
    requires SeparatorFree(mime)
    ensures '/' !in ResolveFileName(name, url, disposition, contentType, mime)
  {
    var root := SplitExt(name).0;
    var clean := StripIllegal(if root != "" then root else name);
    var ext := ChosenExtension(name, url, disposition, contentType, mime);
    CleanHasNoSeparator(clean);
    ChosenExtensionSeparatorFree(name, url, disposition, contentType, mime);
    assert clean + ext == ResolveFileName(name, url, disposition, contentType, mime);
  }

  lemma ChosenExtensionSeparatorFree(name: string, url: string, disposition: Option<string>, contentType: Option<string>, mime: map<string, string>)
    requires SeparatorFree(mime)
    ensures '/' !in ChosenExtension(name, url, disposition, contentType, mime)
  {
    var key := BeforeFirst(contentType.GetOr(""), ';');
    if key in mime {
      assert '/' !in mime[key];
    }
  }

  /** A shortcut's name is never empty, carries no illegal character before `.url`, and ends with `.url`. */
  lemma ShortcutNameShape(name: string)
    ensures var n := ShortcutName(name);
      |n| >= 4 && n[|n| - 4..] == ".url" && IsClean(n[..|n| - 4]) && '/' !in n
  {
    var clean := StripIllegal(name);
    assert ShortcutName(name)[..|clean|] == clean;
  }
}
