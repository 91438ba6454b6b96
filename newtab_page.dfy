/** The shipped new-tab page: folder navigation with a history stack and
    breadcrumbs, drag-and-drop reordering within the current folder, and the
    choice between search results and folder contents. The rename handler is
    modelled too, although the page never opens the edit modal that would
    call it. */
module NewtabPage {

  import opened Wrappers
  import opened Types
  import opened Search
  import opened Navigation

  // ---------------------------------------------------------------------------
  // Rename

  /** The title patch of `handleTitleChange` on a list of children: only the
      children with the given id are renamed; ids, urls, kinds and order stay. */
  function RenameChildren(children: seq<Item>, id: string, newTitle: string): (r: seq<Item>)
    ensures |r| == |children|
    ensures forall i :: 0 <= i < |r| ==>
      r[i].id == children[i].id && r[i].Bookmark? == children[i].Bookmark?
    ensures forall i :: 0 <= i < |r| && children[i].Bookmark? ==> r[i].url == children[i].url
    ensures forall i :: 0 <= i < |r| && children[i].Folder? ==> r[i].children == children[i].children
    ensures forall i :: 0 <= i < |r| ==>
      r[i].title == (if children[i].id == id then newTitle else children[i].title)
    ensures forall i :: 0 <= i < |r| && children[i].id != id ==> r[i] == children[i]
    ensures forall i :: 0 <= i < |r| ==> r[i].(title := children[i].title) == children[i]
  {
    seq(|children|, i requires 0 <= i < |children| =>
      if children[i].id == id then children[i].(title := newTitle) else children[i])
  }

  /** The patch applied to the current folder: its own title changes only when
      its id is the one renamed. */
  function RenameInFolder(f: Item, id: string, newTitle: string): (r: Item)
    requires f.Folder?
    ensures r.Folder? && r.id == f.id
    ensures r.title == (if f.id == id then newTitle else f.title)
    ensures r.children == RenameChildren(f.children, id, newTitle)
    ensures r.(title := f.title, children := f.children) == f
  {
    f.(title := if id == f.id then newTitle else f.title,
       children := RenameChildren(f.children, id, newTitle))
  }

  /** Renaming twice to the same title is renaming once. */
  lemma RenameIdempotent(children: seq<Item>, id: string, newTitle: string)
    ensures RenameChildren(RenameChildren(children, id, newTitle), id, newTitle)
         == RenameChildren(children, id, newTitle)
  {
  }

  // ---------------------------------------------------------------------------
  // Drag and drop

  /** Removal of the element at index `k`. */
  function RemoveAt(s: seq<Item>, k: int): seq<Item>
    requires 0 <= k < |s|
  {
    s[..k] + s[k + 1..]
  }

  /** `arrayMove(s, from, to)`: the element at `from` is taken out and put
      back in at index `to`. */
  function ArrayMove(s: seq<Item>, from: int, to: int): (r: seq<Item>)
    requires 0 <= from < |s| && 0 <= to < |s|
    ensures |r| == |s| && r[to] == s[from]
    ensures RemoveAt(r, to) == RemoveAt(s, from)
    ensures multiset(r) == multiset(s)
  {
    var rest := RemoveAt(s, from);
    var r := rest[..to] + [s[from]] + rest[to..];
    assert RemoveAt(r, to) == rest by {
      assert r[..to] == rest[..to];
      assert r[to + 1..] == rest[to..];
      assert rest == rest[..to] + rest[to..];
    }
    assert multiset(r) == multiset(s) by {
      assert rest[..to] + rest[to..] == rest;
      calc {
        multiset(r);
        multiset(rest[..to]) + multiset([s[from]]) + multiset(rest[to..]);
        multiset(rest) + multiset([s[from]]);
        multiset(s[..from]) + multiset(s[from + 1..]) + multiset([s[from]]);
        { assert s == s[..from] + [s[from]] + s[from + 1..]; }
        multiset(s);
      }
    }
    r
  }

  /** A list is determined by its element at `k` and the rest without it. */
  lemma RemoveAtDetermines(a: seq<Item>, b: seq<Item>, k: int)
    requires 0 <= k < |a| && 0 <= k < |b|
    requires a[k] == b[k] && RemoveAt(a, k) == RemoveAt(b, k)
    ensures a == b
  {
    assert a == a[..k] + [a[k]] + a[k + 1..];
    assert b == b[..k] + [b[k]] + b[k + 1..];
    assert a[..k] == RemoveAt(a, k)[..k] == RemoveAt(b, k)[..k] == b[..k];
    assert a[k + 1..] == RemoveAt(a, k)[k..] == RemoveAt(b, k)[k..] == b[k + 1..];
  }

  /** Moving an element back to where it came from undoes the move. */
  lemma ArrayMoveInverse(s: seq<Item>, from: int, to: int)
    requires 0 <= from < |s| && 0 <= to < |s|
    ensures ArrayMove(ArrayMove(s, from, to), to, from) == s
  {
    var m := ArrayMove(s, from, to);
    RemoveAtDetermines(ArrayMove(m, to, from), s, from);
  }

  /** Moving the first of three items to the last position. */
  lemma ArrayMoveExample(a: Item, b: Item, c: Item)
    ensures ArrayMove([a, b, c], 0, 2) == [b, c, a]
  {
  }

  /** Some child carries the id. */
  predicate HasId(s: seq<Item>, id: string)
  {
    exists i :: 0 <= i < |s| && s[i].id == id
  }

  /** The first index at or after `from` whose item has the id, or -1. */
  function FindIndexFrom(s: seq<Item>, id: string, from: nat): (r: int)
    decreases |s| - from
    ensures r == -1 || (from <= r < |s| && s[r].id == id)
    ensures r == -1 <==> forall j :: from <= j < |s| ==> s[j].id != id
    ensures r != -1 ==> forall j :: from <= j < r ==> s[j].id != id
  {
    if from >= |s| then -1
    else if s[from].id == id then from
    else FindIndexFrom(s, id, from + 1)
  }

  /** `s.findIndex(item => item.id === id)`. */
  function FindIndex(s: seq<Item>, id: string): (r: int)
    ensures -1 <= r < |s|
    ensures r == -1 <==> !HasId(s, id)
    ensures r != -1 ==> s[r].id == id && forall j :: 0 <= j < r ==> s[j].id != id
  {
    FindIndexFrom(s, id, 0)
  }

  /** Both are Bookmarks or both are Folders. */
  predicate SameKind(a: Item, b: Item)
  {
    (a.Bookmark? && b.Bookmark?) || (!a.Bookmark? && !b.Bookmark?)
  }

  /** The move a drop asks for, as (oldIndex, newIndex), or None when the
      drop is ignored: no drop target, a drop on itself, an id that is not a
      child of the current folder, or a Bookmark dropped on a Folder (or the
      other way round). */
  function DragPlan(children: seq<Item>, active: string, over: Option<string>): (r: Option<(int, int)>)
    ensures over.None? || over == Some(active) ==> r.None?
    ensures !HasId(children, active) ==> r.None?
    ensures over.Some? && !HasId(children, over.value) ==> r.None?
    ensures r.Some? ==>
      && 0 <= r.value.0 < |children| && 0 <= r.value.1 < |children|
      && r.value.0 == FindIndex(children, active)
      && r.value.1 == FindIndex(children, over.value)
      && SameKind(children[r.value.0], children[r.value.1])
    ensures r.None? && over.Some? && over.value != active
            && HasId(children, active) && HasId(children, over.value) ==>
      !SameKind(children[FindIndex(children, active)], children[FindIndex(children, over.value)])
  {
    if over.None? || active == over.value then None
    else
      var oldIndex := FindIndex(children, active);
      var newIndex := FindIndex(children, over.value);
      if oldIndex == -1 || newIndex == -1 then None
      else if SameKind(children[oldIndex], children[newIndex]) then Some((oldIndex, newIndex))
      else None
  }

  /** The children after a drop: moved when the drop is accepted, as they
      were otherwise. */
  function Dropped(children: seq<Item>, active: string, over: Option<string>): (r: seq<Item>)
    ensures DragPlan(children, active, over).None? ==> r == children
    ensures |r| == |children| && multiset(r) == multiset(children)
  {
    match DragPlan(children, active, over)
    case None => children
    case Some((oldIndex, newIndex)) => ArrayMove(children, oldIndex, newIndex)
  }

  /** An accepted drop puts the dragged child at the target's old position and
      keeps every other child in its relative order. */
  lemma DroppedMoves(children: seq<Item>, active: string, over: Option<string>)
    requires DragPlan(children, active, over).Some?
    ensures var (oldIndex, newIndex) := DragPlan(children, active, over).value;
      && Dropped(children, active, over)[newIndex] == children[oldIndex]
      && Dropped(children, active, over)[newIndex].id == active
      && RemoveAt(Dropped(children, active, over), newIndex) == RemoveAt(children, oldIndex)
  {
  }

  // ---------------------------------------------------------------------------
  // What is shown

  /** The list on screen: the search results when there are any, otherwise
      the current folder's children. */
  function Displayed(searchResults: seq<Item>, children: seq<Item>): (r: seq<Item>)
    ensures searchResults != [] ==> r == searchResults
    ensures searchResults == [] ==> r == children
  {
    if |searchResults| > 0 then searchResults else children
  }

  /** With an empty search term, or a term no reachable title contains, the
      folder's own children are shown. */
  lemma DisplayedFallsBack(term: string, f: Item)
    requires f.Folder?
    requires term == "" || forall x :: InTree(x, f.children) ==> !Matches(term, x)
    ensures Displayed(SearchEffect(term, f), f.children) == f.children
  {
    if term != "" {
      NoMatchNoResults(term, f.children);
    }
  }

  // ---------------------------------------------------------------------------
  // The page

  /** The folder shown before the store's tree has arrived. */
  function EmptyFolder(): (r: Item)
    ensures r.Folder? && r.id == "" && r.title == "" && r.children == []
  {
    Folder("", "", [], None, 0, 0, 0)
  }

  /** The state of the `Newtab` component. `searchTerm` is the search bar's
      own input, kept here with the results it produces. */
  class Newtab {
    var currentFolder: Item
    var folderHistory: seq<Item>
    var searchTerm: string
    var searchResults: seq<Item>
    var activeId: Option<string>

    /** The current folder and every history entry are Folders. */
    ghost predicate Valid()
      reads this
    {
      currentFolder.Folder? && forall h :: h in folderHistory ==> h.Folder?
    }

    function State(): Nav<Item>
      reads this
    {
      Nav(currentFolder, folderHistory)
    }

    constructor ()
      ensures Valid()
      ensures currentFolder == EmptyFolder() && folderHistory == []
      ensures searchTerm == "" && searchResults == [] && activeId == None
    {
      currentFolder := EmptyFolder();
      folderHistory := [];
      searchTerm := "";
      searchResults := [];
      activeId := None;
    }

    /** The tree arrived from the store: its first top-level node, when there
        is one, is converted and shown. The store's first top-level node is
        the bookmarks bar, a folder. */
    method LoadTree(root: ChromeNode)
      requires Valid()
      requires root.children.Nodes? && |root.children.nodes| > 0 ==> !HasUrl(root.children.nodes[0])
      modifies this
      ensures Valid()
      ensures root.children.Nodes? && |root.children.nodes| > 0 ==>
        currentFolder == Convert(root.children.nodes[0])
      ensures !(root.children.Nodes? && |root.children.nodes| > 0) ==>
        currentFolder == old(currentFolder)
      ensures folderHistory == old(folderHistory) && searchTerm == old(searchTerm)
      ensures searchResults == old(searchResults) && activeId == old(activeId)
    {
      if root.children.Nodes? && |root.children.nodes| > 0 {
        currentFolder := Convert(root.children.nodes[0]);
      }
    }

    method HandleFolderClick(folder: Item)
      requires Valid() && folder.Folder?
      modifies this
      ensures Valid()
      ensures State() == Open(old(State()), folder)
      ensures searchTerm == old(searchTerm) && searchResults == old(searchResults)
      ensures activeId == old(activeId)
    {
      folderHistory := folderHistory + [currentFolder];
      currentFolder := folder;
    }

    method HandleBack()
      requires Valid()
      modifies this
      ensures Valid()
      ensures State() == Back(old(State()))
      ensures searchTerm == old(searchTerm) && searchResults == old(searchResults)
      ensures activeId == old(activeId)
    {
      if |folderHistory| > 0 {
        var previousFolder := folderHistory[|folderHistory| - 1];
        folderHistory := folderHistory[..|folderHistory| - 1];
        currentFolder := previousFolder;
      }
    }

    /** A click on the breadcrumb for history entry `index`. */
    method ClickBreadcrumb(index: int)
      requires Valid() && 0 <= index < |folderHistory|
      modifies this
      ensures Valid()
      ensures State() == Jump(old(State()), index)
      ensures searchTerm == old(searchTerm) && searchResults == old(searchResults)
      ensures activeId == old(activeId)
    {
      currentFolder := folderHistory[index];
      folderHistory := folderHistory[..index];
    }

    /** The store confirmed the rename of `id` to `newTitle`. */
    method HandleTitleChange(id: string, newTitle: string)
      requires Valid()
      modifies this
      ensures Valid()
      ensures currentFolder == RenameInFolder(old(currentFolder), id, newTitle)
      ensures folderHistory == old(folderHistory) && searchTerm == old(searchTerm)
      ensures searchResults == old(searchResults) && activeId == old(activeId)
    {
      currentFolder := currentFolder.(
        title := if id == currentFolder.id then newTitle else currentFolder.title,
        children := RenameChildren(currentFolder.children, id, newTitle));
    }

    method HandleDragStart(id: string)
      requires Valid()
      modifies this
      ensures Valid()
      ensures activeId == Some(id)
      ensures currentFolder == old(currentFolder) && folderHistory == old(folderHistory)
      ensures searchTerm == old(searchTerm) && searchResults == old(searchResults)
    {
      activeId := Some(id);
    }

    /** The end of a drag of `active` onto `over` (None: dropped on nothing). */
    method HandleDragEnd(active: string, over: Option<string>)
      requires Valid()
      modifies this
      ensures Valid()
      ensures activeId == None
      ensures currentFolder
           == old(currentFolder).(children := Dropped(old(currentFolder.children), active, over))
      ensures folderHistory == old(folderHistory) && searchTerm == old(searchTerm)
      ensures searchResults == old(searchResults)
    {
      activeId := None;
      if over.None? || active == over.value {
        return;
      }
      var overId := over.value;
      var oldIndex := FindIndex(currentFolder.children, active);
      var newIndex := FindIndex(currentFolder.children, overId);
      if oldIndex == -1 || newIndex == -1 {
        return;
      }
      var activeItem := currentFolder.children[oldIndex];
      var overItem := currentFolder.children[newIndex];
      var isSameType := (activeItem.Bookmark? && overItem.Bookmark?)
                     || (!activeItem.Bookmark? && !overItem.Bookmark?);
      if isSameType {
        currentFolder := currentFolder.(children := ArrayMove(currentFolder.children, oldIndex, newIndex));
      }
    }

    /** The search bar's effect, run whenever its term or the current folder
        changes: the results of `SearchEffect` are handed to the page. */
    method RunSearchEffect(term: string)
      requires Valid()
      modifies this
      ensures Valid()
      ensures searchTerm == term && searchResults == SearchEffect(term, currentFolder)
      ensures currentFolder == old(currentFolder) && folderHistory == old(folderHistory)
      ensures activeId == old(activeId)
    {
      searchTerm := term;
      if term != "" {
        searchResults := SearchBookmarks(term, currentFolder);
      } else {
        searchResults := [];
      }
    }
  }
}
