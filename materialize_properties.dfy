/**
 * What a run of the materializer loop does to the disk, the progress bar and
 * the status pane. The run lemmas hold for any list of per-record outcomes;
 * the lemmas at the end say what a single record's outcome is.
 */
module MaterializeProperties {
  import opened Strings
  import opened PosixPath
  import opened Crawl
  import opened Naming
  import opened Materialize
  import SeqFacts

  // ---------------------------------------------------------------------------
  // Progress
  // ---------------------------------------------------------------------------

  /** The progress values rise strictly, stay within (0, 100], and the last is exactly 100. */
  lemma ProgressShape(i: nat, j: nat, n: nat)
    requires i < j < n
    ensures 0.0 < Progress(i, n) < Progress(j, n) <= 100.0
    ensures Progress(n - 1, n) == 100.0
  {
    var r := 100.0 / n as real;
    assert Progress(i, n) == (i + 1) as real * r;
    assert Progress(j, n) == (j + 1) as real * r;
    assert Progress(n - 1, n) == n as real * r;
  }

  /** The progress values of the first `k` of `n` iterations. */
  function ProgressValues(n: nat, k: nat): seq<real>
    requires k <= n
  {
    if k == 0 then [] else ProgressValues(n, k - 1) + [Progress(k - 1, n)]
  }

  lemma {:induction false} ProgressValuesIndex(n: nat, k: nat)
    requires k <= n
    ensures |ProgressValues(n, k)| == k
    ensures forall j | 0 <= j < k :: ProgressValues(n, k)[j] == Progress(j, n)
  {
    if k > 0 {
      ProgressValuesIndex(n, k - 1);
    }
  }

  /** Iteration `j` reports `Progress(j, |items|)`, once, in order, after whatever was reported before. */
  lemma {:induction false} RunProgress(d: Disk, courseDir: string, items: seq<Item>, outs: seq<Outcome>, k: nat)
    requires |outs| == |items| && k <= |items|
    ensures RunPrefix(d, courseDir, items, outs, k).progress == d.progress + ProgressValues(|items|, k)
  {
    if k > 0 {
      RunProgress(d, courseDir, items, outs, k - 1);
      StepProgressField(RunPrefix(d, courseDir, items, outs, k - 1), courseDir, |items|, k - 1, items[k - 1], outs[k - 1]);
      SeqFacts.AppendAssoc(d.progress, ProgressValues(|items|, k - 1), [Progress(k - 1, |items|)]);
    }
  }

  /** One iteration reports one progress value. */
  lemma StepProgressField(d: Disk, courseDir: string, n: nat, i: nat, item: Item, o: Outcome)
    requires i < n
    ensures Step(d, courseDir, n, i, item, o).progress == d.progress + [Progress(i, n)]
  {
  }

  /** Over a whole non-empty list, the values reported rise strictly to exactly 100. */
  lemma ProgressReachesHundred(n: nat)
    requires n > 0
    ensures var p := ProgressValues(n, n);
      && |p| == n
      && p[n - 1] == 100.0
      && forall a, b | 0 <= a < b < n :: 0.0 < p[a] < p[b] <= 100.0
  {
    ProgressValuesIndex(n, n);
    var p := ProgressValues(n, n);
    forall a, b | 0 <= a < b < n
      ensures 0.0 < p[a] < p[b] <= 100.0
    {
      ProgressShape(a, b, n);
    }
    if n == 1 {
      assert p[0] == 1 as real / 1 as real * 100.0;
    } else {
      ProgressShape(0, n - 1, n);
    }
  }

  // ---------------------------------------------------------------------------
  // Directories
  // ---------------------------------------------------------------------------

  /** The run's directories are `DirsAfter` of the old ones. */
  lemma {:induction false} RunDirsAfter(d: Disk, courseDir: string, items: seq<Item>, outs: seq<Outcome>, k: nat)
    requires |outs| == |items| && k <= |items|
    ensures RunPrefix(d, courseDir, items, outs, k).dirs == DirsAfter(d.dirs, courseDir, items, k)
  {
    if k > 0 {
      RunDirsAfter(d, courseDir, items, outs, k - 1);
      StepDirsField(RunPrefix(d, courseDir, items, outs, k - 1), courseDir, |items|, k - 1, items[k - 1], outs[k - 1]);
    }
  }

  /** One iteration creates the record's folder, whatever its outcome. */
  lemma StepDirsField(d: Disk, courseDir: string, n: nat, i: nat, item: Item, o: Outcome)
    requires i < n
    ensures Step(d, courseDir, n, i, item, o).dirs == d.dirs + {FolderOf(courseDir, item)}
  {
  }

  /** `x` is among the directories after `k` records exactly when it was there before or is one of their folders. */
  lemma {:induction false} DirsAfterMembers(dirs: set<string>, courseDir: string, items: seq<Item>, k: nat, x: string)
    requires k <= |items|
    ensures x in DirsAfter(dirs, courseDir, items, k) <==> x in dirs || exists j | 0 <= j < k :: FolderOf(courseDir, items[j]) == x
  {
    if k > 0 {
      var f := FolderOf(courseDir, items[k - 1]);
      assert DirsAfter(dirs, courseDir, items, k) == DirsAfter(dirs, courseDir, items, k - 1) + {f};
      DirsAfterMembers(dirs, courseDir, items, k - 1, x);
      if x != f && exists j | 0 <= j < k :: FolderOf(courseDir, items[j]) == x {
        var j :| 0 <= j < k && FolderOf(courseDir, items[j]) == x;
        assert j < k - 1;
      }
    }
  }

  /**
   * A directory exists after the run exactly when it existed before or is the
   * folder of one of the records, whether or not that record's file was written.
   */
  lemma RunDirs(d: Disk, courseDir: string, items: seq<Item>, outs: seq<Outcome>, k: nat, x: string)
    requires |outs| == |items| && k <= |items|
    ensures x in RunPrefix(d, courseDir, items, outs, k).dirs <==> x in d.dirs || exists j | 0 <= j < k :: FolderOf(courseDir, items[j]) == x
  {
    RunDirsAfter(d, courseDir, items, outs, k);
    DirsAfterMembers(d.dirs, courseDir, items, k, x);
  }

  // ---------------------------------------------------------------------------
  // Files
  // ---------------------------------------------------------------------------

  /** Whether an outcome writes to `path`. */
  predicate WritesTo(o: Outcome, path: string) {
    o.Wrote? && o.path == path
  }

  /** The files after the first `k` outcomes, starting from `files`. */
  function FilesAfter(files: map<string, Content>, outs: seq<Outcome>, k: nat): map<string, Content>
    requires k <= |outs|
  {
    if k == 0 then files
    else
      var f := FilesAfter(files, outs, k - 1);
      if outs[k - 1].Wrote? then f[outs[k - 1].path := outs[k - 1].content] else f
  }

  /** The run's files are `FilesAfter` of the old ones. */
  lemma {:induction false} RunFilesAfter(d: Disk, courseDir: string, items: seq<Item>, outs: seq<Outcome>, k: nat)
    requires |outs| == |items| && k <= |items|
    ensures RunPrefix(d, courseDir, items, outs, k).files == FilesAfter(d.files, outs, k)
  {
    if k > 0 {
      RunFilesAfter(d, courseDir, items, outs, k - 1);
      StepFilesField(RunPrefix(d, courseDir, items, outs, k - 1), courseDir, |items|, k - 1, items[k - 1], outs[k - 1]);
    }
  }

  /** One iteration writes the outcome's file, if any, and touches no other. */
  lemma StepFilesField(d: Disk, courseDir: string, n: nat, i: nat, item: Item, o: Outcome)
    requires i < n
    ensures Step(d, courseDir, n, i, item, o).files == if o.Wrote? then d.files[o.path := o.content] else d.files
  {
  }

  /** Files exist exactly at the old paths and the paths some outcome writes; a file no outcome writes keeps its content. */
  lemma {:induction false} FilesAfterFrame(files: map<string, Content>, outs: seq<Outcome>, k: nat, p: string)
    requires k <= |outs|
    ensures p in FilesAfter(files, outs, k) <==> p in files || exists j | 0 <= j < k :: WritesTo(outs[j], p)
    ensures (forall j | 0 <= j < k :: !WritesTo(outs[j], p)) && p in files ==> FilesAfter(files, outs, k)[p] == files[p]
  {
    if k > 0 {
      FilesAfterFrame(files, outs, k - 1, p);
      if WritesTo(outs[k - 1], p) {
        assert p in FilesAfter(files, outs, k);
      }
    }
  }

  /**
   * Files exist exactly at the old paths and at the paths the records write;
   * a file no record writes keeps its content.
   */
  lemma RunFiles(d: Disk, courseDir: string, items: seq<Item>, outs: seq<Outcome>, k: nat, p: string)
    requires |outs| == |items| && k <= |items|
    ensures var f := RunPrefix(d, courseDir, items, outs, k).files;
      && (p in f <==> p in d.files || exists j | 0 <= j < k :: WritesTo(outs[j], p))
      && ((forall j | 0 <= j < k :: !WritesTo(outs[j], p)) && p in d.files ==> f[p] == d.files[p])
  {
    RunFilesAfter(d, courseDir, items, outs, k);
    FilesAfterFrame(d.files, outs, k, p);
  }

  /** After the last outcome that writes a path, the path holds that outcome's content. */
  lemma {:induction false} FilesAfterLastWrite(files: map<string, Content>, outs: seq<Outcome>, k: nat, j: nat)
    requires j < k <= |outs|
    requires outs[j].Wrote?
    requires forall m | j < m < k :: !WritesTo(outs[m], outs[j].path)
    ensures outs[j].path in FilesAfter(files, outs, k)
    ensures FilesAfter(files, outs, k)[outs[j].path] == outs[j].content
  {
    if k - 1 > j {
      FilesAfterLastWrite(files, outs, k - 1, j);
      assert !WritesTo(outs[k - 1], outs[j].path);
    }
  }

  /**
   * The last record to write a path decides its content: opening for writing
   * truncates without checking whether the file exists, so nothing written
   * earlier, before the run or in it, survives.
   */
  lemma LastWriterWins(d: Disk, courseDir: string, items: seq<Item>, outs: seq<Outcome>, k: nat, j: nat)
    requires |outs| == |items| && j < k <= |items|
    requires outs[j].Wrote?
    requires forall m | j < m < k :: !WritesTo(outs[m], outs[j].path)
    ensures var f := RunPrefix(d, courseDir, items, outs, k).files;
      outs[j].path in f && f[outs[j].path] == outs[j].content
  {
    RunFilesAfter(d, courseDir, items, outs, k);
    FilesAfterLastWrite(d.files, outs, k, j);
  }

  // ---------------------------------------------------------------------------
  // Status lines
  // ---------------------------------------------------------------------------

  /** The status lines of the first `k` records. */
  function StatusLines(items: seq<Item>, outs: seq<Outcome>, k: nat): seq<Status>
    requires |outs| == |items| && k <= |items|
  {
    if k == 0 then [] else StatusLines(items, outs, k - 1) + ItemStatus(k - 1, items[k - 1], outs[k - 1])
  }

  /** The run appends the records' status lines, in order, after those already shown. */
  lemma {:induction false} RunLog(d: Disk, courseDir: string, items: seq<Item>, outs: seq<Outcome>, k: nat)
    requires |outs| == |items| && k <= |items|
    ensures RunPrefix(d, courseDir, items, outs, k).log == d.log + StatusLines(items, outs, k)
  {
    if k > 0 {
      RunLog(d, courseDir, items, outs, k - 1);
      StepLogField(RunPrefix(d, courseDir, items, outs, k - 1), courseDir, |items|, k - 1, items[k - 1], outs[k - 1]);
      SeqFacts.AppendAssoc(d.log, StatusLines(items, outs, k - 1), ItemStatus(k - 1, items[k - 1], outs[k - 1]));
    }
  }

  /** One iteration appends the record's status lines. */
  lemma StepLogField(d: Disk, courseDir: string, n: nat, i: nat, item: Item, o: Outcome)
    requires i < n
    ensures Step(d, courseDir, n, i, item, o).log == d.log + ItemStatus(i, item, o)
  {
  }

  /**
   * The records a reader of the status pane sees as failed: a failure line
   * has no number, so it is read as belonging to the download line directly
   * above it.
   */
  function FailedNumbers(lines: seq<Status>): set<nat> {
    if |lines| < 2 then {}
    else (if lines[0].Downloading? && lines[1].Failure? then {lines[0].number} else {}) + FailedNumbers(lines[1..])
  }

  /** Every failure line directly follows a download line, so that reading is never ambiguous. */
  predicate FailuresAttached(lines: seq<Status>) {
    forall p | 0 <= p < |lines| && lines[p].Failure? :: p > 0 && lines[p - 1].Downloading?
  }

  /** Lines appended after a block that does not start with a failure line do not change how the block reads. */
  lemma {:induction false} FailedNumbersConcat(a: seq<Status>, b: seq<Status>, m: nat)
    requires b == [] || !b[0].Failure?
    ensures m in FailedNumbers(a + b) <==> m in FailedNumbers(a) || m in FailedNumbers(b)
  {
    if a == [] {
      assert a + b == b;
    } else {
      assert (a + b)[1..] == a[1..] + b;
      FailedNumbersConcat(a[1..], b, m);
      if |a| == 1 {
        assert a[1..] + b == b;
      }
    }
  }

  /** Blocks whose failure lines are attached keep them attached when joined, unless the second starts with one. */
  lemma FailuresAttachedConcat(a: seq<Status>, b: seq<Status>)
    requires FailuresAttached(a) && FailuresAttached(b)
    requires b == [] || !b[0].Failure?
    ensures FailuresAttached(a + b)
  {
    forall p | 0 <= p < |a + b| && (a + b)[p].Failure?
      ensures p > 0 && (a + b)[p - 1].Downloading?
    {
      if p < |a| {
        assert (a + b)[p] == a[p];
      } else {
        assert (a + b)[p] == b[p - |a|];
      }
    }
  }

  /**
   * Record `i + 1`'s lines start with its download or link line, their failure
   * line is attached, and they show the record as failed exactly when it is a
   * document that was not written.
   */
  lemma ItemStatusFailed(i: nat, item: Item, o: Outcome, m: nat)
    ensures |ItemStatus(i, item, o)| > 0 && !ItemStatus(i, item, o)[0].Failure?
    ensures FailuresAttached(ItemStatus(i, item, o))
    ensures m in FailedNumbers(ItemStatus(i, item, o)) <==> m == i + 1 && item.kind == File && o.NotWritten?
  {
    var lines := ItemStatus(i, item, o);
    if |lines| == 2 {
      assert lines[1..] == [Failure];
    }
  }

  /**
   * The status lines of the first `k` records show record `m` as failed
   * exactly when it is one of them and is a document whose file was not
   * written.
   */
  lemma {:induction false} FailureReported(items: seq<Item>, outs: seq<Outcome>, k: nat, m: nat)
    requires |outs| == |items| && k <= |items|
    ensures m in FailedNumbers(StatusLines(items, outs, k)) <==> 1 <= m <= k && items[m - 1].kind == File && outs[m - 1].NotWritten?
  {
    if k > 0 {
      var lines, before := StatusLines(items, outs, k), StatusLines(items, outs, k - 1);
      assert lines == before + ItemStatus(k - 1, items[k - 1], outs[k - 1]);
      FailureReported(items, outs, k - 1, m);
      AppendRecordLines(before, k - 1, items[k - 1], outs[k - 1], m);
      var failed := items[k - 1].kind == File && outs[k - 1].NotWritten?;
      assert m in FailedNumbers(lines) <==> m in FailedNumbers(before) || (m == k && failed);
    }
  }

  /** Appending record `i + 1`'s lines adds `i + 1` to the records shown as failed exactly when it is a document not written. */
  lemma AppendRecordLines(before: seq<Status>, i: nat, item: Item, o: Outcome, m: nat)
    ensures m in FailedNumbers(before + ItemStatus(i, item, o)) <==> m in FailedNumbers(before) || (m == i + 1 && item.kind == File && o.NotWritten?)
  {
    ItemStatusFailed(i, item, o, m);
    FailedNumbersConcat(before, ItemStatus(i, item, o), m);
  }

  /** In the status lines of any number of records, every failure line follows its download line. */
  lemma {:induction false} StatusLinesAttached(items: seq<Item>, outs: seq<Outcome>, k: nat)
    requires |outs| == |items| && k <= |items|
    ensures FailuresAttached(StatusLines(items, outs, k))
  {
    if k > 0 {
      var before, last := StatusLines(items, outs, k - 1), ItemStatus(k - 1, items[k - 1], outs[k - 1]);
      assert StatusLines(items, outs, k) == before + last;
      StatusLinesAttached(items, outs, k - 1);
      ItemStatusFailed(k - 1, items[k - 1], outs[k - 1], 0);
      FailuresAttachedConcat(before, last);
    }
  }

  // ---------------------------------------------------------------------------
  // One record's outcome
  // ---------------------------------------------------------------------------

  /** `PathJoin(folder, name)` of a name without `/` is that name's direct child of `folder`. */
  lemma JoinChild(folder: string, name: string)
    requires name != [] && '/' !in name
    ensures Basename(PathJoin(folder, name)) == name
  {
    var p := PathJoin(folder, name);
    assert p[|p| - |name|..] == name;
    if |p| > |name| {
      assert p[|p| - |name| - 1] == '/';
    }
  }

  /**
   * Each file written is a direct child of its record's folder, with a name
   * `open` accepts, provided no extension in the MIME table holds a `/`.
   */
  lemma WrittenPathIsDirectChild(courseDir: string, item: Item, fetch: string -> Response, mime: map<string, string>, dirs: set<string>)
    requires SeparatorFree(mime)
    requires ItemOutcome(courseDir, item, fetch, mime, dirs).Wrote?
    ensures var p := ItemOutcome(courseDir, item, fetch, mime, dirs).path;
      && Openable(Basename(p))
      && PathJoin(FolderOf(courseDir, item), Basename(p)) == p
  {
    var folder := FolderOf(courseDir, item);
    match item.kind
    case WebLink =>
      var name := ShortcutName(item.name);
      ShortcutNameShape(item.name);
      JoinChild(folder, name);
    case File =>
      var r := fetch(item.url);
      var name := ResolveFileName(item.name, item.url, r.disposition, r.contentType, mime);
      FileNameIsOneComponent(item.name, item.url, r.disposition, r.contentType, mime);
      JoinChild(folder, name);
  }

  /** A shortcut never touches the network or looks at the disk: its outcome is the same whatever the session returns. */
  lemma ShortcutIgnoresSession(courseDir: string, item: Item, fetch1: string -> Response, fetch2: string -> Response, mime: map<string, string>,
                               dirs1: set<string>, dirs2: set<string>)
    requires item.kind == WebLink
    ensures ItemOutcome(courseDir, item, fetch1, mime, dirs1) == ItemOutcome(courseDir, item, fetch2, mime, dirs2)
    ensures ItemOutcome(courseDir, item, fetch1, mime, dirs1).content == Shortcut("[InternetShortcut]\nURL=" + item.url + "\n")
  {
  }

  /** A document whose request fails leaves no file behind, whatever its name would have been. */
  lemma FailedRequestWritesNothing(courseDir: string, item: Item, fetch: string -> Response, mime: map<string, string>, dirs: set<string>)
    requires item.kind == File && fetch(item.url).Failed?
    ensures ItemOutcome(courseDir, item, fetch, mime, dirs) == NotWritten
  {
  }

  /** A document whose name resolves to empty, `.` or `..` is not written even though its request succeeded. */
  lemma UnopenableNameWritesNothing(courseDir: string, item: Item, fetch: string -> Response, mime: map<string, string>, dirs: set<string>)
    requires item.kind == File && fetch(item.url).Ok?
    requires var r := fetch(item.url); !Openable(ResolveFileName(item.name, item.url, r.disposition, r.contentType, mime))
    ensures ItemOutcome(courseDir, item, fetch, mime, dirs) == NotWritten
  {
  }

  /**
   * A document whose file would land on a directory that exists by then (a
   * folder of the same name, created for an earlier or for this very record,
   * or one of its parents) is not written, and so is reported as failed.
   */
  lemma DirectoryInTheWayWritesNothing(courseDir: string, item: Item, fetch: string -> Response, mime: map<string, string>, dirs: set<string>, d: string)
    requires item.kind == File && fetch(item.url).Ok?
    requires var r := fetch(item.url);
      d in dirs && Under(d, PathJoin(FolderOf(courseDir, item), ResolveFileName(item.name, item.url, r.disposition, r.contentType, mime)))
    ensures ItemOutcome(courseDir, item, fetch, mime, dirs) == NotWritten
  {
  }

  /**
   * In a run, a document is not written when an earlier record's folder, or
   * a folder below it, is where its file would go: `makedirs` ran for that
   * record first.
   */
  lemma EarlierFolderBlocksDocument(courseDir: string, items: seq<Item>, fetch: string -> Response, mime: map<string, string>, dirs: set<string>, i: nat, j: nat)
    requires i <= j < |items| && items[j].kind == File && fetch(items[j].url).Ok?
    requires var r := fetch(items[j].url);
      Under(FolderOf(courseDir, items[i]), PathJoin(FolderOf(courseDir, items[j]), ResolveFileName(items[j].name, items[j].url, r.disposition, r.contentType, mime)))
    ensures Outcomes(courseDir, items, fetch, mime, dirs)[j] == NotWritten
  {
    var created := DirsAfter(dirs, courseDir, items, j + 1);
    FolderCreated(dirs, courseDir, items, i, j + 1);
    DirectoryInTheWayWritesNothing(courseDir, items[j], fetch, mime, created, FolderOf(courseDir, items[i]));
    OutcomeAt(courseDir, items, fetch, mime, dirs, j);
  }

  /** Record `i`'s folder exists once any later prefix of records has been handled. */
  lemma {:induction false} FolderCreated(dirs: set<string>, courseDir: string, items: seq<Item>, i: nat, k: nat)
    requires i < k <= |items|
    ensures FolderOf(courseDir, items[i]) in DirsAfter(dirs, courseDir, items, k)
  {
    if i < k - 1 {
      FolderCreated(dirs, courseDir, items, i, k - 1);
    }
  }

  /** A document that is written goes where its resolved name says, holds the body received, and does not land on a directory. */
  lemma DocumentWritten(courseDir: string, item: Item, fetch: string -> Response, mime: map<string, string>, dirs: set<string>)
    requires item.kind == File && ItemOutcome(courseDir, item, fetch, mime, dirs).Wrote?
    ensures var r, o := fetch(item.url), ItemOutcome(courseDir, item, fetch, mime, dirs);
      && r.Ok? && o.content == Downloaded(r.body)
      && o.path == PathJoin(FolderOf(courseDir, item), ResolveFileName(item.name, item.url, r.disposition, r.contentType, mime))
      && Openable(ResolveFileName(item.name, item.url, r.disposition, r.contentType, mime))
      && forall d | d in dirs :: !Under(d, o.path)
  {
  }

  /** The extensions in the built-in MIME table contain no `/`. */
  lemma MimeTableSeparatorFree()
    ensures SeparatorFree(MimeTypeMap)
  {
    MimeTableValues();
    TableExtensionsSeparatorFree();
  }
}
