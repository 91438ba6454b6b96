/** The search bar's recursive title search over the current folder. */
module Search {

  import opened Strings
  import opened Types

  /** The item's title contains the query, both lower-cased. */
  predicate Matches(query: string, it: Item)
    ensures Matches(query, it) <==> exists j :: OccursAt(Lower(it.title), Lower(query), j)
    ensures query == "" ==> Matches(query, it)
  {
    assert OccursAt(Lower(it.title), Lower(query), 0) <== query == "";
    Contains(Lower(it.title), Lower(query))
  }

  /** Matching ignores the case of the query: a lower-cased query matches
      exactly the items the original query matches. */
  lemma MatchIgnoresQueryCase(query: string, it: Item)
    ensures Matches(Lower(query), it) <==> Matches(query, it)
  {
    LowerIdempotent(query);
  }

  /** The results contributed by one child: the child itself when it matches,
      then, for a Folder, the matches in its subtree. A Bookmark's own
      children are never looked at. */
  function Visit(query: string, it: Item): seq<Item>
    decreases it, 1
  {
    (if Matches(query, it) then [it] else [])
    + (if it.Folder? then SearchIn(query, it.children) else [])
  }

  /** Pre-order search over a list of siblings: the results of each sibling,
      in sibling order. */
  function SearchIn(query: string, items: seq<Item>): seq<Item>
    decreases items, 0
  {
    if items == [] then [] else Visit(query, items[0]) + SearchIn(query, items[1..])
  }

  /** `searchBookmarks(query, folder)`: walks the folder's children in order,
      pushing each match and appending the matches of each sub-folder. */
  method SearchBookmarks(query: string, folder: Item) returns (results: seq<Item>)
    requires folder.Folder?
    decreases folder
    ensures results == SearchIn(query, folder.children)
  {
    results := [];
    var lowered := Lower(query);
    for i := 0 to |folder.children|
      invariant results == SearchIn(query, folder.children[..i])
    {
      var item := folder.children[i];
      var found: seq<Item> := [];
      if Contains(Lower(item.title), lowered) {
        found := [item];
      }
      if item.Folder? {
        var sub := SearchBookmarks(query, item);
        found := found + sub;
      }
      assert found == Visit(query, item);
      results := results + found;
      VisitIsSearchOfOne(query, item);
      assert folder.children[..i + 1] == folder.children[..i] + [item];
      SearchInAppend(query, folder.children[..i], [item]);
    }
    assert folder.children[..|folder.children|] == folder.children;
  }

  /** The search bar's effect: an empty search term gives no results (search
      is inactive); any other term searches the current folder. */
  function SearchEffect(term: string, currentFolder: Item): (r: seq<Item>)
    requires currentFolder.Folder?
    ensures term == "" ==> r == []
    ensures term != "" ==> r == SearchIn(term, currentFolder.children)
  {
    if term == "" then [] else SearchIn(term, currentFolder.children)
  }

  // ---------------------------------------------------------------------------
  // Order

  /** Earlier siblings' results come before later siblings' results. */
  lemma {:induction false} SearchInAppend(query: string, a: seq<Item>, b: seq<Item>)
    ensures SearchIn(query, a + b) == SearchIn(query, a) + SearchIn(query, b)
  {
    if a == [] {
      assert a + b == b;
    } else {
      assert (a + b)[0] == a[0];
      assert (a + b)[1..] == a[1..] + b;
      SearchInAppend(query, a[1..], b);
    }
  }

  /** Pre-order: the results of the k-th child (itself first, if it matches,
      then its subtree) sit between those of the earlier and of the later
      siblings. */
  lemma SearchSplit(query: string, items: seq<Item>, k: int)
    requires 0 <= k < |items|
    ensures SearchIn(query, items)
         == SearchIn(query, items[..k]) + Visit(query, items[k]) + SearchIn(query, items[k + 1..])
  {
    assert items == items[..k] + items[k..];
    SearchInAppend(query, items[..k], items[k..]);
    assert items[k..][0] == items[k] && items[k..][1..] == items[k + 1..];
  }

  lemma VisitIsSearchOfOne(query: string, it: Item)
    ensures SearchIn(query, [it]) == Visit(query, it)
  {
    assert [it][1..] == [];
  }

  /** A matching Folder is reported immediately before the matches inside it. */
  lemma MatchingFolderFirst(query: string, f: Item)
    requires f.Folder? && Matches(query, f)
    ensures SearchIn(query, [f]) == [f] + SearchIn(query, f.children)
  {
    assert [f][1..] == [];
  }

  // ---------------------------------------------------------------------------
  // Which items are reported

  /** `x` is one of `items` or lies below one of them through Folders only
      (the children a Bookmark keeps are not entered). */
  ghost predicate InTree(x: Item, items: seq<Item>)
    decreases items, 0
  {
    items != [] && (Reaches(x, items[0]) || InTree(x, items[1..]))
  }

  ghost predicate Reaches(x: Item, it: Item)
    decreases it, 1
  {
    x == it || (it.Folder? && InTree(x, it.children))
  }

  /** The results are exactly the matching items reachable through Folders. */
  lemma {:induction false} SearchExact(query: string, items: seq<Item>, x: Item)
    decreases items, 0
    ensures x in SearchIn(query, items) <==> InTree(x, items) && Matches(query, x)
  {
    if items != [] {
      VisitExact(query, items[0], x);
      SearchExact(query, items[1..], x);
    }
  }

  lemma {:induction false} VisitExact(query: string, it: Item, x: Item)
    decreases it, 1
    ensures x in Visit(query, it) <==> Reaches(x, it) && Matches(query, x)
  {
    if it.Folder? {
      SearchExact(query, it.children, x);
    }
  }

  /** An item found below a list is no larger than the whole list. */
  lemma {:induction false} InTreeSize(x: Item, items: seq<Item>)
    decreases items, 0
    requires InTree(x, items)
    ensures Size(x) <= SizeAll(items)
  {
    if Reaches(x, items[0]) {
      ReachesSize(x, items[0]);
    } else {
      InTreeSize(x, items[1..]);
    }
  }

  lemma {:induction false} ReachesSize(x: Item, it: Item)
    decreases it, 1
    requires Reaches(x, it)
    ensures Size(x) <= Size(it)
  {
    if x != it {
      InTreeSize(x, it.children);
    }
  }

  /** Every result is a strict descendant of the searched folder: the folder
      itself is never among its own results. */
  lemma FolderNotInOwnResults(query: string, folder: Item)
    requires folder.Folder?
    ensures folder !in SearchIn(query, folder.children)
  {
    if folder in SearchIn(query, folder.children) {
      SearchExact(query, folder.children, folder);
      InTreeSize(folder, folder.children);
      assert false;
    }
  }

  /** A query that no reachable title contains finds nothing. */
  lemma NoMatchNoResults(query: string, items: seq<Item>)
    requires forall x :: InTree(x, items) ==> !Matches(query, x)
    ensures SearchIn(query, items) == []
  {
    if SearchIn(query, items) != [] {
      SearchExact(query, items, SearchIn(query, items)[0]);
    }
  }

  // ---------------------------------------------------------------------------
  // How many results

  /** Number of items the search visits: every child, and inside Folders only. */
  function Visited(items: seq<Item>): nat
    decreases items, 0
  {
    if items == [] then 0 else VisitedBelow(items[0]) + Visited(items[1..])
  }

  function VisitedBelow(it: Item): nat
    decreases it, 1
  {
    1 + (if it.Folder? then Visited(it.children) else 0)
  }

  /** No more results than items visited; a folder with no children gives none. */
  lemma {:induction false} SearchBound(query: string, items: seq<Item>)
    decreases items, 0
    ensures |SearchIn(query, items)| <= Visited(items)
    ensures items == [] ==> SearchIn(query, items) == []
  {
    if items != [] {
      VisitBound(query, items[0]);
      SearchBound(query, items[1..]);
    }
  }

  lemma {:induction false} VisitBound(query: string, it: Item)
    decreases it, 1
    ensures |Visit(query, it)| <= VisitedBelow(it)
  {
    if it.Folder? {
      SearchBound(query, it.children);
    }
  }
}
