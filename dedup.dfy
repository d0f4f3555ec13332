/**
 * `[dict(t) for t in {tuple(d.items()) for d in content_list}]`: the records
 * are collapsed through a set of their WHOLE contents (type, url, name and
 * path), not by URL. Python leaves the order of the result unspecified; the
 * model picks first-occurrence order, and nothing downstream relies on it.
 */
module Dedup {
  import opened Crawl

  /** No record occurs twice. */
  predicate NoDuplicates<T(==)>(s: seq<T>) {
    forall i, j | 0 <= i < j < |s| :: s[i] != s[j]
  }

  /** The set of records a sequence holds. */
  function Elements<T>(s: seq<T>): set<T> {
    set x | x in s
  }

  /** One copy of every distinct record: duplicate-free, the same set of records, never longer. */
  function Dedup<T(==)>(s: seq<T>): (r: seq<T>)
    ensures NoDuplicates(r)
    ensures Elements(r) == Elements(s)
    ensures |r| <= |s|
  {
    if s == [] then []
    else
      var r := Dedup(s[..|s| - 1]);
      var x := s[|s| - 1];
      assert Elements(s) == Elements(s[..|s| - 1]) + {x} by {
        assert s == s[..|s| - 1] + [x];
      }
      if x in r then r else (assert Elements(r + [x]) == Elements(r) + {x}; r + [x])
  }

  /** A duplicate-free sequence comes back unchanged, so deduplicating twice equals deduplicating once. */
  lemma {:induction false} DedupKeepsDuplicateFree<T>(s: seq<T>)
    requires NoDuplicates(s)
    ensures Dedup(s) == s
  {
    if s != [] {
      var init := s[..|s| - 1];
      assert NoDuplicates(init);
      DedupKeepsDuplicateFree(init);
      assert s[|s| - 1] !in init;
    }
  }

  lemma DedupIdempotent<T>(s: seq<T>)
    ensures Dedup(Dedup(s)) == Dedup(s)
  {
    DedupKeepsDuplicateFree(Dedup(s));
  }

  /**
   * Two records for the same URL that differ in name or path both survive:
   * the dedup key is the whole record. Records that are equal collapse to one.
   */
  lemma SameUrlDifferentRecordsBothKept(s: seq<Item>, a: Item, b: Item)
    requires a in s && b in s && a.url == b.url && a != b
    ensures a in Dedup(s) && b in Dedup(s)
    ensures |Dedup(s)| >= 2
  {
    var r := Dedup(s);
    assert a in Elements(r) && b in Elements(r);
    var i :| 0 <= i < |r| && r[i] == a;
    var j :| 0 <= j < |r| && r[j] == b;
    assert i != j;
  }

  /** A sequence holding the same record twice loses a copy. */
  lemma {:induction false} RepeatedRecordCollapses<T>(s: seq<T>, i: nat, j: nat)
    requires i < j < |s| && s[i] == s[j]
    ensures |Dedup(s)| < |s|
  {
    var init := s[..|s| - 1];
    if j == |s| - 1 {
      assert s[i] == init[i];
      assert s[j] in Elements(Dedup(init));
    } else {
      RepeatedRecordCollapses(init, i, j);
    }
  }
}
