# Blackboard course downloader: crawl and materialize, in Dafny

This project models the core of `course_downloader.py`, a tool that walks a
Blackboard course's content pages and rebuilds the course as a local
directory tree. The model has four parts:

- **The crawl** (`scrape_page_for_content`). The browser becomes a finite
  tree of pages. Each entry on a page contributes link records and at most
  one folder. The crawl first appends the page's own records to a
  caller-owned `content_map`. It then descends into each folder in turn,
  with the folder's sanitized name joined to the current path.
- **The deduplication** (line 178). Whole records are collapsed with a set.
  The model keeps first occurrences in order. The Python set's iteration
  order is unspecified, so the materializer's contract promises only that
  each distinct record appears exactly once.
- **Naming**. This covers the file name of a download: the deletion of
  illegal characters, `os.path.splitext`, the `filename=` pattern of the
  content-disposition header, the URL-basename fallback and `MIME_TYPE_MAP`.
  It also covers the name and body of a web link's `.url` shortcut.
- **The materializer** (`process_content_list`). A workspace object holds:
  - the set of existing directories;
  - a map from file path to content;
  - the list of progress values;
  - the status lines.

  One loop iteration per unique record updates them in place. The method is
  proved equal to a specification function `RunPrefix`, and the lemmas
  about `RunPrefix` state what a run does.

The external world becomes values or parameters:

- the HTTP session is a function from URL to a response, which is either a
  failure or the headers and body;
- the MIME table is a parameter of the naming functions. The source's
  constant is `Naming.MimeTypeMap`; `Naming.MimeTableHasPdf`,
  `Naming.MimeTableValues` and `MaterializeProperties.MimeTableSeparatorFree`
  are proved about it;
- paths are strings combined with `posixpath.join` semantics, so records
  whose paths differ only by a trailing `/` stay distinct, as in Python;
- the disk knows which paths were given to `os.makedirs`. A path names a
  directory when one of those paths lies under it (`Materialize.NamesDirectory`),
  which covers the parents `makedirs` creates. `open(..., 'wb')` on such a
  path fails, and the download branch catches the failure.

The code differs from what a reader might expect of such a tool in several
ways. The model follows the code:

- illegal characters are deleted, not replaced by `_`, and nothing is
  truncated;
- an empty name gets no placeholder;
- a `filename=` match captures a single character, so the server's file
  name never supplies an extension once the header matches;
- deduplication compares whole records (type, url, name and path), not
  URLs alone;
- existing files are always overwritten, with no size check;
- attachments get no subfolder of their own;
- a folder that fails to load is not recovered from.

## Model

| member | source | states |
|---|---|---|
| Strings.StripIllegal | course_downloader.py:166 | `re.sub` deleting the nine characters `\ / * ? : " < > \|`: the result contains none of them and is no longer than the input |
| Strings.StripIllegalFixesClean | course_downloader.py:166 | a name without illegal characters is left unchanged |
| Strings.StripIllegalIdempotent | course_downloader.py:199 | sanitizing twice is the same as sanitizing once |
| Strings.StripIllegalConcat | course_downloader.py:199 | sanitizing distributes over concatenation (characters are deleted one by one, independently) |
| Strings.StripIllegalOneChar | course_downloader.py:209 | one character is deleted exactly when it is illegal |
| Strings.StripIllegalCounts | course_downloader.py:209 | every legal character keeps its number of occurrences; every illegal one has none |
| Strings.SkipSpace | course_downloader.py:146 | the leading scan of `str.strip()`: everything skipped is whitespace and it stops at the first non-space character or at the end |
| Strings.SkipSpaceBack | course_downloader.py:146 | the trailing scan of `str.strip()`: everything skipped is whitespace, it never passes its lower bound, and it stops just after a non-space character or at that bound |
| Strings.Strip | course_downloader.py:151 | `str.strip()`: the result is the slice of the input starting at its first non-space character, with only whitespace on either side, and it neither starts nor ends with whitespace |
| Strings.LastIndexOf | course_downloader.py:196 | the index of the last occurrence of the character, or -1 when there is none |
| Strings.BeforeFirst | course_downloader.py:200 | `s.split(c)[0]`: the longest prefix without `c`, followed in `s` by `c` when shorter than `s` |
| PosixPath.PathJoin | course_downloader.py:167 | `os.path.join` of two components: an absolute second part replaces the first; otherwise the parts are concatenated when the first is empty or ends in `/`, and joined with one `/` when it does not |
| PosixPath.Under | course_downloader.py:167 | a path lies in a directory component by component: it is the directory, or extends it at a `/` (so `Week 10/a` is not under `Week 1`); `PosixPath.JoinUnder` and `PosixPath.UnderTrans` state its properties |
| PosixPath.JoinUnder | course_downloader.py:167 | joining a `/`-free component onto a path gives a path under it |
| PosixPath.UnderTrans | course_downloader.py:167 | lying under a directory is transitive |
| PosixPath.PrefixNotUnder | course_downloader.py:167 | a string prefix that ends inside a component, such as `Week 1` of `Week 10/a`, is not a directory of the path |
| PosixPath.Basename | course_downloader.py:196 | `os.path.basename`: the longest suffix without `/`, preceded by `/` when shorter than the path |
| PosixPath.SplitExt | course_downloader.py:197-198 | `os.path.splitext`: root + ext is the path; the extension is empty or a `.` followed by neither `.` nor `/`; it is non-empty exactly when the last component has a dot after some non-dot character |
| PosixPath.SplitExtSingleChar | course_downloader.py:198 | a one-character file name has no extension |
| Crawl.Classify | course_downloader.py:150-155 | an empty or `javascript:void(0)` URL is skipped; a `/bbcswebdav/` URL is a File and every File has one; a WebLink is exactly an `http` URL off the Blackboard host that is neither skipped nor a File |
| Crawl.LinkUrl | course_downloader.py:149 | a link's `href`, or its `src` when the `href` is empty; the records it yields are described by `CrawlProperties.LinkItemsAtPath` |
| Crawl.LinkName | course_downloader.py:151 | the link's stripped text, or the entry's stripped heading when that is empty; used in `CrawlProperties.FolderEntryStillScanned` |
| Crawl.LinkItem | course_downloader.py:148-155 | the record one link yields: none when `Classify` skips it, otherwise its kind, URL, name and the current path (`CrawlProperties.LinkItemsAtPath`) |
| Crawl.LinkItems | course_downloader.py:148-155 | the records of one entry's links in document order (`Crawl.AppendLinkItems` is proved equal to it) |
| Crawl.EntryItems | course_downloader.py:144-157 | an entry's records: none without a heading, otherwise its links' records (`CrawlProperties.UntitledEntryIgnored`) |
| Crawl.EntryFolders | course_downloader.py:159-163 | a titled entry's folder anchor, with its stripped text and `href`, if it has one (`CrawlProperties.FolderSlot`) |
| Crawl.PageItems | course_downloader.py:143-157 | the records of a page's entries in order (`CrawlProperties.PageItemsConcat`, `CrawlProperties.PageItemsAtPath`) |
| Crawl.Folders | course_downloader.py:143-163 | `folders_to_visit`: the folder anchors of a page's entries in order (`CrawlProperties.FoldersConcat`, `CrawlProperties.FoldersInDocumentOrder`) |
| Crawl.ChildPath | course_downloader.py:166-167 | a folder's path: its name with illegal characters deleted, joined to the current path (`CrawlProperties.ChildPathUnder`) |
| Crawl.Scrape | course_downloader.py:132-171 | the records a crawl from a page appends: nothing for a timed-out page, otherwise the page's own records, then each folder's subtree (`CrawlProperties.ScrapeOrder`, `CrawlProperties.ScrapeUnderPath`) |
| Crawl.ScrapeFolders | course_downloader.py:165-171 | the subtrees of the collected folders, one after another (`CrawlProperties.ScrapeFoldersConcat`, `CrawlProperties.ScrapeFoldersUnderPath`) |
| Crawl.FolderPageSmaller | course_downloader.py:165-170 | every folder collected on a page leads to a strictly smaller page, so the recursion terminates |
| Crawl.ContentMap.Append | course_downloader.py:153 | appends one record to `content_map` |
| Crawl.AppendLinkItems | course_downloader.py:148-155 | the loop over one entry's links appends exactly that entry's classified records, in document order, after what was there |
| Crawl.ScanEntries | course_downloader.py:141-163 | the pass over the entries appends every entry's records in order and returns the folder anchors in document order |
| Crawl.ScrapePageForContent | course_downloader.py:132-171 | appends exactly `Scrape(page, path)`: nothing for a page that timed out; otherwise the page's own records, then each folder's subtree in order, at the joined path |
| CrawlProperties.PageItemsConcat | course_downloader.py:143-157 | the records of two runs of entries are the records of each, concatenated |
| CrawlProperties.FoldersConcat | course_downloader.py:159-163 | the folders of two runs of entries are the folders of each, concatenated |
| CrawlProperties.ScrapeFoldersConcat | course_downloader.py:165-170 | visiting two lists of folders in a row gives the two subtrees' records in a row |
| CrawlProperties.EntryContributions | course_downloader.py:143-163 | entry `j` contributes its records and its folder exactly between those of the entries before and after it |
| CrawlProperties.UntitledEntryIgnored | course_downloader.py:156-157 | an entry without a heading contributes neither records nor a folder, even when it has links; a timed-out page yields nothing |
| CrawlProperties.FolderEntryStillScanned | course_downloader.py:145-161 | an entry that is a folder still has its links recorded, and its folder takes the next slot of `folders_to_visit` |
| CrawlProperties.FolderSlot | course_downloader.py:160-161 | a folder entry's anchor is collected at the position counting the folders before it, with its stripped text and href |
| CrawlProperties.FoldersInDocumentOrder | course_downloader.py:159-165 | of two folder entries, the earlier one is collected, and therefore visited, first |
| CrawlProperties.LinkItemsAtPath | course_downloader.py:148-155 | every record from one entry's links carries the kind its URL classifies as, and the current path |
| CrawlProperties.PageItemsAtPath | course_downloader.py:143-157 | every record of a page's own entries carries its URL's kind and the current path |
| CrawlProperties.ChildPathUnder | course_downloader.py:166-167 | a folder's path lies under its parent's path, component by component |
| CrawlProperties.ScrapeUnderPath | course_downloader.py:132-171 | every record of a crawl is well classified and its path lies, component by component, under the path the crawl began at |
| CrawlProperties.ScrapeFoldersUnderPath | course_downloader.py:165-170 | every record of the folder visits is well classified and lies under the current path, component by component |
| CrawlProperties.ScrapeOrder | course_downloader.py:141-171 | a page's records come first, then folder `j`'s subtree lies between those of the folders before and after it; every record of that subtree lies under the folder's path, which lies under the current one |
| Dedup.Dedup | course_downloader.py:178 | the result has no duplicates, holds exactly the input's records, and is no longer than the input |
| Dedup.DedupKeepsDuplicateFree | course_downloader.py:178 | of the model's first-occurrence order: a list without duplicates is returned unchanged (the set-based code returns the same records in an unspecified order) |
| Dedup.DedupIdempotent | course_downloader.py:178 | of the model's first-occurrence order: deduplicating twice is the same as deduplicating once (in the code, a second pass yields the same records, again in an unspecified order) |
| Dedup.SameUrlDifferentRecordsBothKept | course_downloader.py:178 | two records with the same URL that differ in kind, name or path are both kept |
| Dedup.RepeatedRecordCollapses | course_downloader.py:178 | a list with a repeated record gets strictly shorter |
| Naming.CaptureAt | course_downloader.py:194 | what `filename="?(.+?)"?` captures when matched at one position: one character after `filename=` and an optional quote (the quote itself when nothing else follows it), or nothing |
| Naming.FirstCapture | course_downloader.py:194-195 | the first capture scanning from a position (`Naming.FirstCaptureLeftmost`) |
| Naming.ServerFilename | course_downloader.py:192-196 | `server_fname`: the header's capture when there is one, otherwise the base name of the URL before any `?` (`Naming.HeaderCaptureIsOneChar`) |
| Naming.MimeExtension | course_downloader.py:200 | the table's extension for the content type before any `;`, or empty when the type is missing or unknown (`Naming.PdfContentTypeKey`) |
| Naming.ChosenExtension | course_downloader.py:197-200 | `final_ext`: the link name's extension, else the server name's, else the table's (`Naming.ExtensionPriority`) |
| Naming.ResolveFileName | course_downloader.py:197-201 | `final_filename`: the sanitized root of the link name (or the whole name when the root is empty) followed by the chosen extension (`Naming.ExtensionPriority`, `Naming.FileNameIsOneComponent`) |
| Naming.ShortcutName | course_downloader.py:209 | the sanitized link name followed by `.url` (`Naming.ShortcutNameShape`) |
| Naming.ShortcutText | course_downloader.py:211 | the shortcut body `[InternetShortcut]`, then `URL=` and the URL, each line ended by a newline (`MaterializeProperties.ShortcutIgnoresSession`) |
| Naming.FirstCaptureLeftmost | course_downloader.py:194-195 | `re.findall(...)[0]`: the capture comes from a position where the pattern matches and it matches at no earlier one; no capture means it matches nowhere |
| Naming.HeaderCaptureIsOneChar | course_downloader.py:192-198 | when the header matches, the server file name is one character and contributes no extension |
| Naming.HeaderMatchIgnoresUrl | course_downloader.py:192-201 | when the header matches, the URL does not affect the name, and the extension is the link name's or else the content type's |
| Naming.ExtensionPriority | course_downloader.py:197-201 | a name with an extension keeps it and its root is sanitized; otherwise the whole name is sanitized and the server name's extension, else the table's, is appended; an unknown content type adds nothing |
| Naming.PdfByContentType | course_downloader.py:196-201 | a link named `Lecture Notes` with no disposition header, a PDF content type with or without parameters, and an extensionless URL is saved as `Lecture Notes.pdf` |
| Naming.MimeTableHasPdf | course_downloader.py:31 | the table maps `application/pdf` to `.pdf` |
| Naming.MimeTableValues | course_downloader.py:30-40 | every extension in the table is one of the 21 listed, or empty for `application/octet-stream` |
| Naming.ChosenExtensionSeparatorFree | course_downloader.py:197-200 | with a separator-free table, the chosen extension contains no `/` |
| Naming.FileNameIsOneComponent | course_downloader.py:196-201 | with a separator-free table, the resolved file name contains no `/` |
| Naming.ShortcutNameShape | course_downloader.py:209 | a shortcut name ends in `.url`, carries no illegal character before it, and contains no `/` |
| Materialize.Progress | course_downloader.py:182 | `(i + 1) / n * 100` as an exact rational (`MaterializeProperties.ProgressShape`) |
| Materialize.Openable | course_downloader.py:203-205 | a file name `open` accepts: not empty, `.` or `..`, which name a directory (`MaterializeProperties.UnopenableNameWritesNothing`) |
| Materialize.NamesDirectory | course_downloader.py:185 | a path is an existing directory when some path given to `makedirs` lies under it, which covers the parents `makedirs` creates (`MaterializeProperties.DirectoryInTheWayWritesNothing`) |
| Materialize.FolderOf | course_downloader.py:184 | `final_folder_path`: the record's path joined to the course directory |
| Materialize.DirsAfter | course_downloader.py:184-185 | the directories after the first `k` records' `makedirs` calls (`MaterializeProperties.DirsAfterMembers`) |
| Materialize.ItemOutcome | course_downloader.py:184-211 | the file one record leaves: a web link always its shortcut; a document whatever its response leaves (`MaterializeProperties.DocumentWritten`, `MaterializeProperties.WrittenPathIsDirectChild`) |
| Materialize.ResponseOutcome | course_downloader.py:190-205 | a document's file: none for a failed request, an unopenable name or a path that is an existing directory, otherwise the body under the resolved name (`MaterializeProperties.DirectoryInTheWayWritesNothing`, `MaterializeProperties.FailedRequestWritesNothing`) |
| Materialize.Outcomes | course_downloader.py:181-185 | each record's outcome, decided once its own folder and all earlier ones exist (`Materialize.OutcomeAt`, `MaterializeProperties.EarlierFolderBlocksDocument`) |
| Materialize.OutcomeAt | course_downloader.py:181-185 | record `j`'s outcome is decided with the folders of records `0..j` in place |
| Materialize.ItemStatus | course_downloader.py:188-208 | one record's status lines: its download or link line with its number and `join(path, name)`, then an unnumbered failure line for a document not written (`MaterializeProperties.ItemStatusFailed`) |
| Materialize.Step | course_downloader.py:181-211 | one iteration: progress, the record's folder, its status lines and its file (`MaterializeProperties.StepDirsField` and the other step lemmas) |
| Materialize.RunPrefix | course_downloader.py:181-211 | the state after the first `k` iterations (`MaterializeProperties.RunProgress`, `RunDirs`, `RunFiles`, `RunLog`) |
| Materialize.Workspace.constructor | course_downloader.py:174 | a workspace starts with the given directories and files and has shown nothing |
| Materialize.Workspace.MakeDirs | course_downloader.py:185 | `os.makedirs(..., exist_ok=True)` records the directory, whose parents `NamesDirectory` then also counts, and changes nothing else |
| Materialize.Workspace.WriteFile | course_downloader.py:203 | opening for writing replaces the file's content, with no existence check, and changes nothing else |
| Materialize.Workspace.Report | course_downloader.py:188 | one status line is appended |
| Materialize.Workspace.ReportProgress | course_downloader.py:182 | one progress value is appended |
| Materialize.Workspace.HandleItem | course_downloader.py:182-211 | one iteration takes the workspace to `Step` of its old state, the record's outcome decided after its folder was created |
| Materialize.Workspace.HandleFile | course_downloader.py:187-205 | the download branch shows the download line, then writes the resolved file when the request succeeds, the name is one `open` accepts and the path is not an existing directory; otherwise it shows a failure line and writes nothing |
| Materialize.Workspace.SaveResponse | course_downloader.py:190-205 | an answered request is saved under the resolved name in the record's folder unless the name is unopenable or the path is an existing directory; those cases and a failed request write nothing and append one failure line |
| Materialize.Workspace.HandleLink | course_downloader.py:207-211 | the link branch always writes the shortcut file with the `[InternetShortcut]` body |
| Materialize.Workspace.ProcessContentList | course_downloader.py:174-211 | an empty list only reports that nothing was found; otherwise the returned `unique` has no duplicates and the same records as the list, and the workspace ends in `RunPrefix` over `unique` after the processing line |
| MaterializeProperties.ProgressShape | course_downloader.py:182 | progress values lie in (0, 100], rise strictly with the index, and the last is 100 |
| MaterializeProperties.ProgressValuesIndex | course_downloader.py:182 | the `j`-th value reported is `(j + 1) / n * 100` |
| MaterializeProperties.RunProgress | course_downloader.py:181-182 | a run appends exactly one progress value per record, in order, after those already shown |
| MaterializeProperties.ProgressReachesHundred | course_downloader.py:182 | over a non-empty list the reported values rise strictly and end at exactly 100 |
| MaterializeProperties.StepDirsField | course_downloader.py:184-185 | one iteration creates its record's folder whatever the outcome |
| MaterializeProperties.RunDirsAfter | course_downloader.py:184-185 | a run's directories are the old ones with each record's folder added in turn |
| MaterializeProperties.DirsAfterMembers | course_downloader.py:184-185 | a directory is there after `k` records exactly when it was there before or is one of their folders |
| MaterializeProperties.RunDirs | course_downloader.py:184-185 | a directory exists after a run exactly when it existed before or is some record's folder, whether or not that record's file was written |
| MaterializeProperties.StepFilesField | course_downloader.py:202-211 | one iteration writes its outcome's file, if any, and touches no other path |
| MaterializeProperties.RunFilesAfter | course_downloader.py:202-211 | a run's files are the old ones updated by each outcome in turn |
| MaterializeProperties.FilesAfterFrame | course_downloader.py:202-211 | a path holds a file after `k` outcomes exactly when it did before or one of them writes it; a path none of them writes keeps its content |
| MaterializeProperties.RunFiles | course_downloader.py:202-211 | files exist after a run exactly at the old paths and the written paths, and every file no record wrote keeps its content |
| MaterializeProperties.FilesAfterLastWrite | course_downloader.py:203 | after the last outcome that writes a path, the path holds that outcome's content |
| MaterializeProperties.LastWriterWins | course_downloader.py:203 | when several records write one path, the last of them decides its content, whatever was there before |
| MaterializeProperties.RunLog | course_downloader.py:188-208 | a run appends the records' status lines in order after those already shown |
| MaterializeProperties.StepLogField | course_downloader.py:188-208 | one iteration appends the record's status lines |
| MaterializeProperties.FailedNumbers | course_downloader.py:188-205 | how the pane reads: the records shown as failed are the numbers of the download lines directly followed by a failure line |
| MaterializeProperties.FailuresAttached | course_downloader.py:188-205 | every failure line directly follows a download line |
| MaterializeProperties.FailedNumbersConcat | course_downloader.py:188-205 | appending lines that do not start with a failure line leaves the reading of both parts unchanged |
| MaterializeProperties.FailuresAttachedConcat | course_downloader.py:188-205 | joining two blocks whose failure lines are attached keeps them attached, unless the second starts with a failure line |
| MaterializeProperties.ItemStatusFailed | course_downloader.py:188-208 | one record's lines start with its download or link line, keep their failure line attached, and show that record, and no other, as failed exactly when it is a document not written |
| MaterializeProperties.AppendRecordLines | course_downloader.py:188-208 | appending a record's lines adds its number to the records shown as failed exactly when it is a document not written |
| MaterializeProperties.FailureReported | course_downloader.py:204-205 | the lines of the first `k` records show record `m` as failed exactly when `1 <= m <= k` and record `m` is a document whose file was not written |
| MaterializeProperties.StatusLinesAttached | course_downloader.py:204-205 | in a run's status lines every failure line follows the download line of its record |
| MaterializeProperties.JoinChild | course_downloader.py:202 | joining a folder and a `/`-free name gives a path whose base name is that name |
| MaterializeProperties.WrittenPathIsDirectChild | course_downloader.py:202-210 | each written file is a direct child of its record's folder, with a name other than empty, `.` or `..` |
| MaterializeProperties.ShortcutIgnoresSession | course_downloader.py:207-211 | a web link's outcome does not depend on the HTTP session, and its body is the `[InternetShortcut]` record |
| MaterializeProperties.FailedRequestWritesNothing | course_downloader.py:190-205 | a document whose request fails writes nothing |
| MaterializeProperties.UnopenableNameWritesNothing | course_downloader.py:199-205 | a document whose resolved name is empty, `.` or `..` writes nothing, even when its request succeeds |
| MaterializeProperties.DirectoryInTheWayWritesNothing | course_downloader.py:202-205 | a document whose file path has an existing directory at or below it writes nothing, even when its request succeeds |
| MaterializeProperties.FolderCreated | course_downloader.py:184-185 | record `i`'s folder exists once any later prefix of the records has been handled |
| MaterializeProperties.EarlierFolderBlocksDocument | course_downloader.py:184-205 | in a run, a document is not written when the folder of it or of an earlier record lies at or below its file path, such as a folder `Week 1` followed by a document named `Week 1` |
| MaterializeProperties.DocumentWritten | course_downloader.py:190-203 | a written document answered its request, holds the body received, sits under its resolved name, which is openable, and has no directory at or below it |
| MaterializeProperties.MimeTableSeparatorFree | course_downloader.py:30-40 | no extension in the built-in table contains `/` |

## Left out

- Browser set-up, login, course discovery and `navigate_to_course_content`. WebDriver and the network are outside the core; the page tree stands in for what the browser shows.
- The CSS and XPath queries themselves. An entry's heading, links and folder anchor are given as data, and `.text` is taken as the element's text.
- The crawl's status lines (`Scanning Folder`), `driver.back()` and the one-second sleep. They change no record.
- Exceptions other than `TimeoutException` and `NoSuchElementException` during the crawl, which propagate and end the run, are not modelled. Neither is a page whose folders link back to an ancestor: with no visited set, the code would loop on it, and the finite page tree rules it out.
- Python's set iteration order in the deduplication. `Dedup.Dedup` keeps first occurrences. The materializer's contract promises only no duplicates and the same records, which holds for any order.
- Materialize.Workspace.SaveResponse: of the `open` and write failures the code catches at line 204, only an unopenable name and a path that is an existing directory are modelled. A NUL in the path, a missing permission or a full disk is reported as failed in the code but written in the model.
- Materialize.Workspace.SaveResponse: a read error or timeout while the body streams in (line 203) comes after `open(..., 'wb')` has created or truncated the file. The code then leaves a partial file and reports a failure. The model takes the body as complete, so an answered request writes the whole body or nothing.
- Materialize.Workspace.HandleFile: inherits both SaveResponse lines above. The failure line also omits the exception text.
- Materialize.Workspace.HandleLink: the link branch has no `try`. An `open` of a `.url` path that is an existing directory, or any other OS error there, raises in the code and ends the run. The model always writes the shortcut.
- Materialize.Workspace.MakeDirs: `os.makedirs` on a path that is an existing file raises `FileExistsError` in the code, which nothing catches, and ends the run. An example is a folder named like an earlier document. The model records the directory anyway. Parents are not stored but read off by `NamesDirectory`. Paths are compared as strings, so `a//b` and `a/./b` are not recognised as `a/b`.
- Materialize.Workspace.ProcessContentList: the uncaught errors of the HandleLink and MakeDirs lines above end the code's run early. The model always handles every record.
- Streaming with `stream=True`, the 180-second timeout, `raise_for_status` and the text of the exception in a failure line. A request that fails any of them is the response `Failed`.
- Case-insensitive header lookup. A header is present or absent as an `Option`.
- Progress values are exact rationals. The floating-point rounding of `(i + 1) / n * 100` is not modelled.
- The tkinter GUI, threading, the progress bar widget and the course-directory chooser. They are outside the core.
- Windows path semantics (`ntpath`), which the tool may run under. Paths follow `posixpath`.
