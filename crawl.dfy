/**
 * The recursive course-content crawl (`scrape_page_for_content`).
 *
 * The browser is abstracted away: a content page is a finite tree whose
 * children are the pages its folder links lead to, so "navigate to the
 * folder, scrape, go back" becomes "descend into the child subtree". The
 * code keeps no set of visited pages, so on a real site whose folders link
 * back to an ancestor it would never stop; an inductive tree rules such
 * cycles out, and every crawl here terminates by construction.
 */
module Crawl {
  import opened Wrappers
  import opened Strings
  import opened PosixPath
  import opened SeqFacts

  // ---------------------------------------------------------------------------
  // The abstract page
  // ---------------------------------------------------------------------------

  /** One `a[@href]`, `video[@src]` or `img[@src]` element under an entry, with its raw text. */
  datatype Link = Link(href: Option<string>, src: Option<string>, text: string)

  /** The `listContent.jsp` anchor in an entry's heading, and the page that navigating to it shows. */
  datatype FolderLink = FolderLink(text: string, url: string, page: Page)

  /**
   * One `li.liItem` of the list container. `Untitled` has no `div.item > h3`
   * heading; a folder anchor sits inside that heading, so only a `Titled`
   * entry can carry one. `links` are all link elements under the entry, the
   * folder anchor among them if the page lists it.
   */
  datatype Entry =
    | Untitled(links: seq<Link>)
    | Titled(heading: string, links: seq<Link>, folder: Option<FolderLink>)

  /** A page whose `content_listContainer` never appeared, or the entries it lists in document order. */
  datatype Page = Timeout | Listed(entries: seq<Entry>)

  // ---------------------------------------------------------------------------
  // The records the crawl collects
  // ---------------------------------------------------------------------------

  datatype Kind = File | WebLink

  /** One `content_map` record: `{"type", "url", "name", "path"}`. */
  datatype Item = Item(kind: Kind, url: string, name: string, path: string)

  /** One `folders_to_visit` record: the stripped anchor text, its href, and the page behind it. */
  datatype FolderRef = FolderRef(name: string, url: string, page: Page)

  const VoidLink := "javascript:void(0)"
  const StoragePath := "/bbcswebdav/"
  const SiteHost := "blackboard.kfupm.edu.sa"

  /** `link.get_attribute("href") or link.get_attribute("src")`, with `None` read as the empty URL. */
  function LinkUrl(l: Link): string {
    if l.href.Some? && l.href.value != "" then l.href.value else l.src.GetOr("")
  }

  /**
   * What a link URL becomes: a File when it goes through the course file
   * store, a WebLink when it is an external http(s) address, nothing otherwise.
   */
  function Classify(url: string): (k: Option<Kind>)
    ensures url == "" || Contains(url, VoidLink) ==> k == None
    ensures url != "" && !Contains(url, VoidLink) && Contains(url, StoragePath) ==> k == Some(File)
    ensures k == Some(File) ==> Contains(url, StoragePath)
    ensures k == Some(WebLink) <==>
      url != "" && !Contains(url, VoidLink) && !Contains(url, StoragePath)
      && StartsWith(url, "http") && !Contains(url, SiteHost)
  {
    if url == "" || Contains(url, VoidLink) then None
    else if Contains(url, StoragePath) then Some(File)
    else if StartsWith(url, "http") && !Contains(url, SiteHost) then Some(WebLink)
    else None
  }

  /** `link.text.strip() or item_title`. */
  function LinkName(l: Link, title: string): string {
    var t := Strip(l.text);
    if t != "" then t else title
  }

  /** The record one link adds at `path`, if any. */
  function LinkItem(l: Link, title: string, path: string): Option<Item> {
    var url := LinkUrl(l);
    match Classify(url)
    case None => None
    case Some(k) => Some(Item(k, url, LinkName(l, title), path))
  }

  function OptionList<T>(o: Option<T>): seq<T> {
    if o.Some? then [o.value] else []
  }

  /** The records the links of one entry add, in document order. */
  function LinkItems(links: seq<Link>, title: string, path: string): seq<Item> {
    if links == [] then []
    else LinkItems(links[..|links| - 1], title, path) + OptionList(LinkItem(links[|links| - 1], title, path))
  }

  /** An entry without heading adds nothing (the heading lookup fails before its links are read). */
  function EntryItems(e: Entry, path: string): seq<Item> {
    match e
    case Untitled(_) => []
    case Titled(h, links, _) => LinkItems(links, Strip(h), path)
  }

  /** The folder an entry adds to `folders_to_visit`, if any. */
  function EntryFolders(e: Entry): seq<FolderRef> {
    match e
    case Titled(_, _, Some(f)) => [FolderRef(Strip(f.text), f.url, f.page)]
    case _ => []
  }

  /** The records the entries of one page add, in document order, before any folder is visited. */
  function PageItems(es: seq<Entry>, path: string): seq<Item> {
    if es == [] then [] else PageItems(es[..|es| - 1], path) + EntryItems(es[|es| - 1], path)
  }

  /** `folders_to_visit` after the pass over the entries: the folder anchors in document order. */
  function Folders(es: seq<Entry>): seq<FolderRef> {
    if es == [] then [] else Folders(es[..|es| - 1]) + EntryFolders(es[|es| - 1])
  }

  /** `os.path.join(current_relative_path, re.sub(..., "", folder['name']))`. */
  function ChildPath(path: string, f: FolderRef): string {
    PathJoin(path, StripIllegal(f.name))
  }

  // ---------------------------------------------------------------------------
  // Sizes, for termination
  // ---------------------------------------------------------------------------

  function Size(p: Page): nat {
    match p
    case Timeout => 1
    case Listed(es) => 1 + EntriesSize(es)
  }

  function EntriesSize(es: seq<Entry>): nat {
    if es == [] then 0 else EntriesSize(es[..|es| - 1]) + EntrySize(es[|es| - 1])
  }

  function EntrySize(e: Entry): nat {
    match e
    case Titled(_, _, Some(f)) => 1 + Size(f.page)
    case _ => 0
  }

  function RefsSize(fs: seq<FolderRef>): nat {
    if fs == [] then 0 else RefsSize(fs[..|fs| - 1]) + 1 + Size(fs[|fs| - 1].page)
  }

  lemma {:induction false} FoldersSize(es: seq<Entry>)
    ensures RefsSize(Folders(es)) <= EntriesSize(es)
  {
    if es != [] {
      var init, e := es[..|es| - 1], es[|es| - 1];
      FoldersSize(init);
      var fs := Folders(es);
      assert fs == Folders(init) + EntryFolders(e);
      if e.Titled? && e.folder.Some? {
        assert fs[..|fs| - 1] == Folders(init);
        assert RefsSize(fs) == RefsSize(Folders(init)) + EntrySize(e);
      } else {
        assert fs == Folders(init);
      }
    }
  }

  lemma {:induction false} RefPageSmaller(fs: seq<FolderRef>, j: nat)
    requires j < |fs|
    ensures Size(fs[j].page) < RefsSize(fs)
  {
    if j < |fs| - 1 {
      RefPageSmaller(fs[..|fs| - 1], j);
    }
  }

  /** Every folder collected on a page leads to a smaller page. */
  lemma FolderPageSmaller(es: seq<Entry>, j: nat)
    requires j < |Folders(es)|
    ensures Size(Folders(es)[j].page) < Size(Listed(es))
  {
    RefPageSmaller(Folders(es), j);
    FoldersSize(es);
  }

  // ---------------------------------------------------------------------------
  // What the crawl collects
  // ---------------------------------------------------------------------------

  /** The records `scrape_page_for_content(p, path)` appends: the page's own, then each folder's subtree in order. */
  function Scrape(p: Page, path: string): seq<Item>
    decreases Size(p), 1
  {
    match p
    case Timeout => []
    case Listed(es) =>
      FoldersSize(es);
      PageItems(es, path) + ScrapeFolders(Folders(es), path)
  }

  /** The records the recursive visits of the folders `fs`, in order, append. */
  function ScrapeFolders(fs: seq<FolderRef>, path: string): seq<Item>
    decreases RefsSize(fs), 0
  {
    if fs == [] then []
    else
      RefPageSmaller(fs, |fs| - 1);
      ScrapeFolders(fs[..|fs| - 1], path) + Scrape(fs[|fs| - 1].page, ChildPath(path, fs[|fs| - 1]))
  }

  // ---------------------------------------------------------------------------
  // The crawl itself, over a caller-owned accumulator
  // ---------------------------------------------------------------------------

  /** The `content_map` list the caller creates and the crawl appends to. */
  class ContentMap {
    var items: seq<Item>

    constructor ()
      ensures items == []
    {
      items := [];
    }

    method Append(x: Item)
      modifies this
      ensures items == old(items) + [x]
    {
      items := items + [x];
    }
  }

  /** The inner `for link in links` loop of one entry (course_downloader.py lines 148-155). */
  method AppendLinkItems(links: seq<Link>, itemTitle: string, path: string, contentMap: ContentMap)
    modifies contentMap
    ensures contentMap.items == old(contentMap.items) + LinkItems(links, itemTitle, path)
  {
    for k := 0 to |links|
      invariant contentMap.items == old(contentMap.items) + LinkItems(links[..k], itemTitle, path)
    {
      assert links[..k + 1][..k] == links[..k];
      AppendAssoc(old(contentMap.items), LinkItems(links[..k], itemTitle, path), OptionList(LinkItem(links[k], itemTitle, path)));
      var link := links[k];
      var url := LinkUrl(link);
      if url == "" || Contains(url, VoidLink) {
        continue;
      }
      var name := LinkName(link, itemTitle);
      if Contains(url, StoragePath) {
        contentMap.Append(Item(File, url, name, path));
      } else if StartsWith(url, "http") && !Contains(url, SiteHost) {
        contentMap.Append(Item(WebLink, url, name, path));
      }
    }
    assert links[..|links|] == links;
  }

  /** The pass over the page's entries (lines 141-163): their records, and the folders to visit afterwards. */
  method ScanEntries(entries: seq<Entry>, path: string, contentMap: ContentMap) returns (foldersToVisit: seq<FolderRef>)
    modifies contentMap
    ensures contentMap.items == old(contentMap.items) + PageItems(entries, path)
    ensures foldersToVisit == Folders(entries)
  {
    foldersToVisit := [];
    for j := 0 to |entries|
      invariant contentMap.items == old(contentMap.items) + PageItems(entries[..j], path)
      invariant foldersToVisit == Folders(entries[..j])
    {
      assert entries[..j + 1][..j] == entries[..j];
      AppendAssoc(old(contentMap.items), PageItems(entries[..j], path), EntryItems(entries[j], path));
      var item := entries[j];
      match item {
        case Untitled(_) =>
        case Titled(heading, links, folder) =>
          var itemTitle := Strip(heading);
          AppendLinkItems(links, itemTitle, path, contentMap);
          if folder.Some? {
            foldersToVisit := foldersToVisit + [FolderRef(Strip(folder.value.text), folder.value.url, folder.value.page)];
          }
      }
    }
    assert entries[..|entries|] == entries;
  }

  /**
   * `scrape_page_for_content`: appends the page's records to `contentMap`, then
   * recurses into each collected folder with the folder's path. What was in
   * `contentMap` before stays untouched at the front.
   */
  method ScrapePageForContent(page: Page, contentMap: ContentMap, path: string)
    modifies contentMap
    ensures contentMap.items == old(contentMap.items) + Scrape(page, path)
    decreases Size(page)
  {
    if page.Timeout? {
      return;
    }
    var entries := page.entries;
    var foldersToVisit := ScanEntries(entries, path, contentMap);
    ghost var pageDone := contentMap.items;
    for j := 0 to |foldersToVisit|
      invariant contentMap.items == pageDone + ScrapeFolders(foldersToVisit[..j], path)
    {
      assert foldersToVisit[..j + 1][..j] == foldersToVisit[..j];
      var folder := foldersToVisit[j];
      AppendAssoc(pageDone, ScrapeFolders(foldersToVisit[..j], path), Scrape(folder.page, ChildPath(path, folder)));
      var cleanName := StripIllegal(folder.name);
      var newRelativePath := PathJoin(path, cleanName);
      FolderPageSmaller(entries, j);
      ScrapePageForContent(folder.page, contentMap, newRelativePath);
    }
    assert foldersToVisit[..|foldersToVisit|] == foldersToVisit;
    assert Scrape(page, path) == PageItems(entries, path) + ScrapeFolders(foldersToVisit, path);
    AppendAssoc(old(contentMap.items), PageItems(entries, path), ScrapeFolders(foldersToVisit, path));
  }
}
