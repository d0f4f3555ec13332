/**
 * `process_content_list`: deduplicates the crawled records and turns each
 * into a file under the course directory, reporting progress before each.
 *
 * The HTTP session is a function from URL to an abstract response; the disk
 * is a set of directories and a map from file path to content, which the
 * loop updates in place.
 */
module Materialize {
  import opened Wrappers
  import opened Strings
  import opened PosixPath
  import opened Crawl
  import opened Dedup
  import opened Naming
  import SeqFacts

  /** What `session.get(url)` yields: a failure (transport error or `raise_for_status`), or the headers and body. */
  datatype Response =
    | Failed
    | Ok(disposition: Option<string>, contentType: Option<string>, body: seq<bv8>)

  /** What a file holds: downloaded bytes, or the text of an Internet shortcut. */
  datatype Content = Downloaded(bytes: seq<bv8>) | Shortcut(text: string)

  /**
   * The status lines `process_content_list` emits. A failure line carries
   * neither a record number nor the exception text: it follows the download
   * line it belongs to.
   */
  datatype Status =
    | NothingFound
    | Processing(count: nat)
    | Downloading(number: nat, shown: string)
    | CreatingLink(number: nat, shown: string)
    | Failure

  /** Everything the materializer can be observed to change. */
  datatype Disk = Disk(dirs: set<string>, files: map<string, Content>, progress: seq<real>, log: seq<Status>)

  /** Whether handling one record leaves a file behind, and which. */
  datatype Outcome = Wrote(path: string, content: Content) | NotWritten

  /** `(i + 1) / len(unique_content) * 100`, exactly. */
  function Progress(i: nat, n: nat): real
    requires i < n
  {
    (i + 1) as real / n as real * 100.0
  }

  /** `open(path, 'wb')` names a directory, not a file, when the name is empty, `.` or `..`, and fails. */
  predicate Openable(fileName: string) {
    fileName != "" && fileName != "." && fileName != ".."
  }

  /**
   * `p` names an existing directory: one of the paths passed to `makedirs`
   * (`dirs`) or one of the parents `makedirs` created on the way to it.
   */
  predicate NamesDirectory(dirs: set<string>, p: string) {
    exists d | d in dirs :: Under(d, p)
  }

  /** `final_folder_path`. */
  function FolderOf(courseDir: string, item: Item): string {
    PathJoin(courseDir, item.path)
  }

  /** The directories after the `makedirs` calls of the first `k` records, starting from `dirs`. */
  function DirsAfter(dirs: set<string>, courseDir: string, items: seq<Item>, k: nat): set<string>
    requires k <= |items|
  {
    if k == 0 then dirs else DirsAfter(dirs, courseDir, items, k - 1) + {FolderOf(courseDir, items[k - 1])}
  }

  /** The file one record leaves on disk, if any, when the directories `dirs` exist as it is saved. */
  function ItemOutcome(courseDir: string, item: Item, fetch: string -> Response, mime: map<string, string>, dirs: set<string>): Outcome {
    var folder := FolderOf(courseDir, item);
    match item.kind
    case WebLink => Wrote(PathJoin(folder, ShortcutName(item.name)), Shortcut(ShortcutText(item.url)))
    case File => ResponseOutcome(folder, item, fetch(item.url), mime, dirs)
  }

  /**
   * The file a document leaves in `folder` once its request has been answered
   * with `r`, if any: `open(..., 'wb')` fails, and the failure is caught, when
   * the name is not openable or the path names an existing directory.
   */
  function ResponseOutcome(folder: string, item: Item, r: Response, mime: map<string, string>, dirs: set<string>): Outcome {
    match r
    case Failed => NotWritten
    case Ok(disposition, contentType, body) =>
      var fileName := ResolveFileName(item.name, item.url, disposition, contentType, mime);
      var path := PathJoin(folder, fileName);
      if Openable(fileName) && !NamesDirectory(dirs, path) then Wrote(path, Downloaded(body)) else NotWritten
  }

  /** The outcome of each record, in order, each saved once its own folder has been created. */
  function Outcomes(courseDir: string, items: seq<Item>, fetch: string -> Response, mime: map<string, string>, dirs: set<string>): seq<Outcome> {
    seq(|items|, j requires 0 <= j < |items| => OutcomeOf(courseDir, items, fetch, mime, dirs, j))
  }

  function OutcomeOf(courseDir: string, items: seq<Item>, fetch: string -> Response, mime: map<string, string>, dirs: set<string>, j: nat): Outcome
    requires j < |items|
  {
    ItemOutcome(courseDir, items[j], fetch, mime, DirsAfter(dirs, courseDir, items, j + 1))
  }

  /** Record `j`'s outcome is decided with the folders of records `0..j` in place. */
  lemma OutcomeAt(courseDir: string, items: seq<Item>, fetch: string -> Response, mime: map<string, string>, dirs: set<string>, j: nat)
    requires j < |items|
    ensures Outcomes(courseDir, items, fetch, mime, dirs)[j] == ItemOutcome(courseDir, items[j], fetch, mime, DirsAfter(dirs, courseDir, items, j + 1))
  {
    assert Outcomes(courseDir, items, fetch, mime, dirs)[j] == OutcomeOf(courseDir, items, fetch, mime, dirs, j);
  }

  /** The status lines for record number `i + 1` with outcome `o`: what is being done, then a failure if nothing was written. */
  function ItemStatus(i: nat, item: Item, o: Outcome): seq<Status> {
    var shown := PathJoin(item.path, item.name);
    match item.kind
    case WebLink => [CreatingLink(i + 1, shown)]
    case File => if o.NotWritten? then [Downloading(i + 1, shown), Failure] else [Downloading(i + 1, shown)]
  }

  /** Iteration `i` of `n` with outcome `o`: progress, then the folder, then the status lines and the file. */
  function Step(d: Disk, courseDir: string, n: nat, i: nat, item: Item, o: Outcome): Disk
    requires i < n
  {
    Disk(d.dirs + {FolderOf(courseDir, item)},
         if o.Wrote? then d.files[o.path := o.content] else d.files,
         d.progress + [Progress(i, n)],
         d.log + ItemStatus(i, item, o))
  }

  /** The disk after the first `k` iterations over `items`, whose outcomes are `outs`. */
  function RunPrefix(d: Disk, courseDir: string, items: seq<Item>, outs: seq<Outcome>, k: nat): Disk
    requires |outs| == |items| && k <= |items|
  {
    if k == 0 then d
    else Step(RunPrefix(d, courseDir, items, outs, k - 1), courseDir, |items|, k - 1, items[k - 1], outs[k - 1])
  }

  /** The course directory's file system, the progress bar and the status pane, as one object updated in place. */
  class Workspace {
    var dirs: set<string>
    var files: map<string, Content>
    var progress: seq<real>
    var log: seq<Status>

    function Snapshot(): Disk
      reads this
    {
      Disk(dirs, files, progress, log)
    }

    constructor (dirs0: set<string>, files0: map<string, Content>)
      ensures Snapshot() == Disk(dirs0, files0, [], [])
    {
      dirs, files, progress, log := dirs0, files0, [], [];
    }

    /**
     * `os.makedirs(path, exist_ok=True)`: never fails when the directory
     * exists. Only `path` is recorded; its parents are implied (see
     * `NamesDirectory`).
     */
    method MakeDirs(path: string)
      modifies this
      ensures Snapshot() == old(Snapshot()).(dirs := old(dirs) + {path})
    {
      dirs := dirs + {path};
    }

    /** `open(path, 'wb')` and writing: replaces whatever the file held. */
    method WriteFile(path: string, content: Content)
      modifies this
      ensures Snapshot() == old(Snapshot()).(files := old(files)[path := content])
    {
      files := files[path := content];
    }

    /** `status_callback`. */
    method Report(s: Status)
      modifies this
      ensures Snapshot() == old(Snapshot()).(log := old(log) + [s])
    {
      log := log + [s];
    }

    /** `progress_callback`. */
    method ReportProgress(value: real)
      modifies this
      ensures Snapshot() == old(Snapshot()).(progress := old(progress) + [value])
    {
      progress := progress + [value];
    }

    /** One iteration of the loop in `process_content_list`: record `i` of `n`. */
    method HandleItem(fetch: string -> Response, courseDir: string, n: nat, i: nat, item: Item, mime: map<string, string>)
      requires i < n
      modifies this
      ensures Snapshot() == Step(old(Snapshot()), courseDir, n, i, item, ItemOutcome(courseDir, item, fetch, mime, old(dirs) + {FolderOf(courseDir, item)}))
    {
      ReportProgress(Progress(i, n));
      var finalFolderPath := PathJoin(courseDir, item.path);
      MakeDirs(finalFolderPath);
      match item.kind {
        case File => HandleFile(fetch, courseDir, i, item, mime);
        case WebLink => HandleLink(courseDir, i, item);
      }
    }

    /** The download branch: fetch, name the file, write it; any failure is reported and skipped. */
    method HandleFile(fetch: string -> Response, courseDir: string, i: nat, item: Item, mime: map<string, string>)
      requires item.kind == File
      modifies this
      ensures var o := ItemOutcome(courseDir, item, fetch, mime, old(dirs));
        Snapshot() == old(Snapshot()).(files := if o.Wrote? then old(files)[o.path := o.content] else old(files),
                                       log := old(log) + ItemStatus(i, item, o))
    {
      ghost var log0 := log;
      var shown := PathJoin(item.path, item.name);
      Report(Downloading(i + 1, shown));
      var r := fetch(item.url);
      SaveResponse(PathJoin(courseDir, item.path), i, item, r, mime);
      SeqFacts.AppendAssoc(log0, [Downloading(i + 1, shown)], if ResponseOutcome(FolderOf(courseDir, item), item, r, mime, dirs).NotWritten? then [Failure] else []);
    }

    /**
     * Naming and writing the answered document; a failed request, a name that
     * cannot be opened or a path that is a directory is reported instead.
     */
    method SaveResponse(folder: string, i: nat, item: Item, r: Response, mime: map<string, string>)
      modifies this
      ensures var o := ResponseOutcome(folder, item, r, mime, old(dirs));
        Snapshot() == old(Snapshot()).(files := if o.Wrote? then old(files)[o.path := o.content] else old(files),
                                       log := old(log) + if o.NotWritten? then [Failure] else [])
    {
      if r.Failed? {
        Report(Failure);
      } else {
        var finalFilename := ResolveFileName(item.name, item.url, r.disposition, r.contentType, mime);
        var finalFilepath := PathJoin(folder, finalFilename);
        if Openable(finalFilename) && !NamesDirectory(dirs, finalFilepath) {
          WriteFile(finalFilepath, Downloaded(r.body));
        } else {
          Report(Failure);
        }
      }
    }

    /** The shortcut branch: always writes the `.url` file. */
    method HandleLink(courseDir: string, i: nat, item: Item)
      requires item.kind == WebLink
      modifies this
      ensures Snapshot() == old(Snapshot()).(files := old(files)[PathJoin(FolderOf(courseDir, item), ShortcutName(item.name)) := Shortcut(ShortcutText(item.url))],
                                             log := old(log) + [CreatingLink(i + 1, PathJoin(item.path, item.name))])
    {
      Report(CreatingLink(i + 1, PathJoin(item.path, item.name)));
      var cleanFilename := ShortcutName(item.name);
      WriteFile(PathJoin(PathJoin(courseDir, item.path), cleanFilename), Shortcut(ShortcutText(item.url)));
    }

    /**
     * `process_content_list`: an empty list is only reported. Otherwise the
     * records are deduplicated (`unique`, returned, holds each distinct record
     * once, in an order the caller may not rely on) and handled one by one.
     */
    method ProcessContentList(fetch: string -> Response, courseDir: string, contentList: seq<Item>, mime: map<string, string>)
      returns (unique: seq<Item>)
      modifies this
      ensures contentList == [] ==> unique == [] && Snapshot() == old(Snapshot()).(log := old(log) + [NothingFound])
      ensures contentList != [] ==>
        && NoDuplicates(unique) && Elements(unique) == Elements(contentList)
        && Snapshot() == RunPrefix(old(Snapshot()).(log := old(log) + [Processing(|unique|)]), courseDir, unique, Outcomes(courseDir, unique, fetch, mime, old(dirs)), |unique|)
    {
      if contentList == [] {
        Report(NothingFound);
        return [];
      }
      unique := Dedup.Dedup(contentList);
      Report(Processing(|unique|));
      ghost var start := Snapshot();
      ghost var outs := Outcomes(courseDir, unique, fetch, mime, start.dirs);
      for i := 0 to |unique|
        invariant Snapshot() == RunPrefix(start, courseDir, unique, outs, i)
        invariant dirs == DirsAfter(start.dirs, courseDir, unique, i)
      {
        OutcomeAt(courseDir, unique, fetch, mime, start.dirs, i);
        ghost var before := Snapshot();
        HandleItem(fetch, courseDir, |unique|, i, unique[i], mime);
        assert RunPrefix(start, courseDir, unique, outs, i + 1) == Step(before, courseDir, |unique|, i, unique[i], outs[i]);
      }
    }
  }
}
