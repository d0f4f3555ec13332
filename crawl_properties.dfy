/**
 * What the crawl promises about the records it collects: their scope, their
 * paths, their order, and how each was classified.
 */
module CrawlProperties {
  import opened Wrappers
  import opened Strings
  import opened PosixPath
  import opened SeqFacts
  import opened Crawl

  // ---------------------------------------------------------------------------
  // Splitting a page's entries
  // ---------------------------------------------------------------------------

  lemma {:induction false} PageItemsConcat(a: seq<Entry>, b: seq<Entry>, path: string)
    ensures PageItems(a + b, path) == PageItems(a, path) + PageItems(b, path)
  {
    if b == [] {
      assert a + b == a;
    } else {
      assert (a + b)[..|a + b| - 1] == a + b[..|b| - 1];
      PageItemsConcat(a, b[..|b| - 1], path);
      AppendAssoc(PageItems(a, path), PageItems(b[..|b| - 1], path), EntryItems(b[|b| - 1], path));
    }
  }

  lemma {:induction false} FoldersConcat(a: seq<Entry>, b: seq<Entry>)
    ensures Folders(a + b) == Folders(a) + Folders(b)
  {
    if b == [] {
      assert a + b == a;
    } else {
      assert (a + b)[..|a + b| - 1] == a + b[..|b| - 1];
      FoldersConcat(a, b[..|b| - 1]);
      AppendAssoc(Folders(a), Folders(b[..|b| - 1]), EntryFolders(b[|b| - 1]));
    }
  }

  lemma {:induction false} ScrapeFoldersConcat(a: seq<FolderRef>, b: seq<FolderRef>, path: string)
    ensures ScrapeFolders(a + b, path) == ScrapeFolders(a, path) + ScrapeFolders(b, path)
  {
    if b == [] {
      assert a + b == a;
    } else {
      var last := b[|b| - 1];
      assert (a + b)[..|a + b| - 1] == a + b[..|b| - 1];
      assert (a + b)[|a + b| - 1] == last;
      ScrapeFoldersConcat(a, b[..|b| - 1], path);
      AppendAssoc(ScrapeFolders(a, path), ScrapeFolders(b[..|b| - 1], path), Scrape(last.page, ChildPath(path, last)));
    }
  }

  /**
   * Entry `j` contributes its own records at its place among the page's
   * records, and its folder (if any) at its place among the folders to visit.
   */
  lemma EntryContributions(es: seq<Entry>, j: nat, path: string)
    requires j < |es|
    ensures PageItems(es, path) == PageItems(es[..j], path) + EntryItems(es[j], path) + PageItems(es[j + 1..], path)
    ensures Folders(es) == Folders(es[..j]) + EntryFolders(es[j]) + Folders(es[j + 1..])
  {
    assert es == es[..j] + [es[j]] + es[j + 1..];
    PageItemsConcat(es[..j] + [es[j]], es[j + 1..], path);
    PageItemsConcat(es[..j], [es[j]], path);
    FoldersConcat(es[..j] + [es[j]], es[j + 1..]);
    FoldersConcat(es[..j], [es[j]]);
    assert [es[j]][..0] == [];
  }

  // ---------------------------------------------------------------------------
  // Scope
  // ---------------------------------------------------------------------------

  /**
   * A page without the list container yields nothing; an entry without a
   * `div.item > h3` heading adds no record and no folder: the page's records
   * and folders are those of the page without that entry.
   */
  lemma UntitledEntryIgnored(es: seq<Entry>, j: nat, path: string)
    requires j < |es| && es[j].Untitled?
    ensures Scrape(Timeout, path) == []
    ensures PageItems(es, path) == PageItems(es[..j] + es[j + 1..], path)
    ensures Folders(es) == Folders(es[..j] + es[j + 1..])
  {
    EntryContributions(es, j, path);
    var before, after := es[..j], es[j + 1..];
    PageItemsConcat(before, after, path);
    FoldersConcat(before, after);
    assert EntryItems(es[j], path) == [] && EntryFolders(es[j]) == [];
    assert PageItems(before, path) + [] == PageItems(before, path);
    assert Folders(before) + [] == Folders(before);
  }

  /**
   * An entry whose heading is a folder link still has all its links
   * classified: its records are exactly those of its links, and it also
   * contributes its folder, at the folder's place in document order.
   */
  lemma FolderEntryStillScanned(es: seq<Entry>, j: nat, path: string)
    requires j < |es| && es[j].Titled? && es[j].folder.Some?
    ensures PageItems(es, path) == PageItems(es[..j], path) + LinkItems(es[j].links, Strip(es[j].heading), path) + PageItems(es[j + 1..], path)
    ensures |Folders(es[..j])| < |Folders(es)|
    ensures Folders(es)[|Folders(es[..j])|] == FolderRef(Strip(es[j].folder.value.text), es[j].folder.value.url, es[j].folder.value.page)
  {
    EntryContributions(es, j, path);
    FolderSlot(es, j);
  }

  /** A folder entry at `j` owns slot `|Folders(es[..j])|` of `folders_to_visit`. */
  lemma FolderSlot(es: seq<Entry>, j: nat)
    requires j < |es| && es[j].Titled? && es[j].folder.Some?
    ensures |Folders(es[..j])| < |Folders(es)|
    ensures Folders(es)[|Folders(es[..j])|] == FolderRef(Strip(es[j].folder.value.text), es[j].folder.value.url, es[j].folder.value.page)
  {
    EntryContributions(es, j, "");
  }

  /** Folders are collected in document order: an earlier folder entry gets an earlier slot in `folders_to_visit`. */
  lemma FoldersInDocumentOrder(es: seq<Entry>, a: nat, b: nat)
    requires a < b < |es|
    requires es[a].Titled? && es[a].folder.Some? && es[b].Titled? && es[b].folder.Some?
    ensures |Folders(es[..a])| < |Folders(es[..b])| < |Folders(es)|
  {
    FolderCountGrows(es, a, b);
    FolderCountGrows(es, b, |es|);
    assert es[..|es|] == es;
  }

  /** Past a folder entry at `a`, any longer prefix of the entries has collected more folders. */
  lemma {:induction false} FolderCountGrows(es: seq<Entry>, a: nat, b: nat)
    requires a < b <= |es| && es[a].Titled? && es[a].folder.Some?
    ensures |Folders(es[..a])| < |Folders(es[..b])|
  {
    var prefix := es[..b];
    assert prefix[..b - 1] == es[..b - 1];
    assert Folders(prefix) == Folders(es[..b - 1]) + EntryFolders(es[b - 1]);
    if b - 1 > a {
      FolderCountGrows(es, a, b - 1);
    } else {
      assert |EntryFolders(es[a])| == 1;
    }
  }

  // ---------------------------------------------------------------------------
  // Classification and paths
  // ---------------------------------------------------------------------------

  /** The record's kind is what its URL classifies as (so its URL is non-empty and not `javascript:void(0)`). */
  predicate WellClassified(x: Item) {
    Classify(x.url) == Some(x.kind)
  }

  lemma {:induction false} LinkItemsAtPath(links: seq<Link>, title: string, path: string)
    ensures forall x | x in LinkItems(links, title, path) :: WellClassified(x) && x.path == path
  {
    if links != [] {
      LinkItemsAtPath(links[..|links| - 1], title, path);
    }
  }

  /** Every record a page's own entries add is well classified and carries exactly the page's path. */
  lemma {:induction false} PageItemsAtPath(es: seq<Entry>, path: string)
    ensures forall x | x in PageItems(es, path) :: WellClassified(x) && x.path == path
  {
    if es != [] {
      PageItemsAtPath(es[..|es| - 1], path);
      var e := es[|es| - 1];
      if e.Titled? {
        LinkItemsAtPath(e.links, Strip(e.heading), path);
      }
    }
  }

  /**
   * A folder's path lies under the current one: the sanitized name has no
   * `/`, so `join` appends it as one more component.
   */
  lemma ChildPathUnder(path: string, f: FolderRef)
    ensures Under(ChildPath(path, f), path)
  {
    CleanHasNoSeparator(StripIllegal(f.name));
    JoinUnder(path, StripIllegal(f.name));
  }

  /** Every record of a crawl is well classified and lies under the path the crawl started from. */
  lemma {:induction false} ScrapeUnderPath(p: Page, path: string)
    ensures forall x | x in Scrape(p, path) :: WellClassified(x) && Under(x.path, path)
    decreases Size(p), 1
  {
    if p.Listed? {
      FoldersSize(p.entries);
      PageItemsAtPath(p.entries, path);
      ScrapeFoldersUnderPath(Folders(p.entries), path);
    }
  }

  lemma {:induction false} ScrapeFoldersUnderPath(fs: seq<FolderRef>, path: string)
    ensures forall x | x in ScrapeFolders(fs, path) :: WellClassified(x) && Under(x.path, path)
    decreases RefsSize(fs), 0
  {
    if fs != [] {
      var last := fs[|fs| - 1];
      RefPageSmaller(fs, |fs| - 1);
      ScrapeFoldersUnderPath(fs[..|fs| - 1], path);
      ScrapeUnderPath(last.page, ChildPath(path, last));
      ChildPathUnder(path, last);
      forall x | x in Scrape(last.page, ChildPath(path, last)) ensures Under(x.path, path) {
        UnderTrans(x.path, ChildPath(path, last), path);
      }
    }
  }

  // ---------------------------------------------------------------------------
  // Order
  // ---------------------------------------------------------------------------

  /** Visiting a single folder yields exactly that folder's subtree. */
  lemma ScrapeFoldersSingle(f: FolderRef, path: string)
    ensures ScrapeFolders([f], path) == Scrape(f.page, ChildPath(path, f))
  {
    assert [f][..0] == [];
  }

  /** The folder visits split around visit `j`. */
  lemma ScrapeFoldersSplit(fs: seq<FolderRef>, j: nat, path: string)
    requires j < |fs|
    ensures ScrapeFolders(fs, path) ==
      ScrapeFolders(fs[..j], path) + Scrape(fs[j].page, ChildPath(path, fs[j])) + ScrapeFolders(fs[j + 1..], path)
  {
    var before, f, after := fs[..j], fs[j], fs[j + 1..];
    assert fs == (before + [f]) + after;
    ScrapeFoldersConcat(before + [f], after, path);
    ScrapeFoldersConcat(before, [f], path);
    ScrapeFoldersSingle(f, path);
  }

  /**
   * The records of a listed page are: all of the page's own records first,
   * then the subtrees of the collected folders one after the other in the
   * order they were collected; block `j` is folder `j`'s subtree, and every
   * record in it lies under the folder's path, which extends the current one.
   */
  lemma ScrapeOrder(es: seq<Entry>, path: string, j: nat)
    requires j < |Folders(es)|
    ensures var fs := Folders(es);
      Scrape(Listed(es), path) ==
        PageItems(es, path) + ScrapeFolders(fs[..j], path) + Scrape(fs[j].page, ChildPath(path, fs[j])) + ScrapeFolders(fs[j + 1..], path)
    ensures var f := Folders(es)[j];
      Under(ChildPath(path, f), path) && forall x | x in Scrape(f.page, ChildPath(path, f)) :: Under(x.path, ChildPath(path, f))
  {
    var fs := Folders(es);
    var own, before, sub, after := PageItems(es, path), ScrapeFolders(fs[..j], path), Scrape(fs[j].page, ChildPath(path, fs[j])), ScrapeFolders(fs[j + 1..], path);
    ScrapeFoldersSplit(fs, j, path);
    assert Scrape(Listed(es), path) == own + (before + sub + after);
    AppendAssoc(own, before + sub, after);
    AppendAssoc(own, before, sub);
    ChildPathUnder(path, fs[j]);
    ScrapeUnderPath(fs[j].page, ChildPath(path, fs[j]));
  }
}
