/** The older new-tab page, which works directly on the store's nodes: it
    navigates like the shipped page but pops its history array in place,
    patches the parent's snapshot on rename, and lists sub-folders before
    links. Its create handler is modelled as well, although nothing in the
    page calls it. */
module LegacyNewtab {

  import opened Wrappers
  import opened Types
  import opened Navigation

  // ---------------------------------------------------------------------------
  // Listing

  /** The children whose url is truthy (`withUrl`) or not, in their order. */
  function Group(cs: seq<ChromeNode>, withUrl: bool): (r: seq<ChromeNode>)
    ensures forall i :: 0 <= i < |r| ==> HasUrl(r[i]) == withUrl
    ensures |r| <= |cs|
  {
    if cs == [] then []
    else (if HasUrl(cs[0]) == withUrl then [cs[0]] else []) + Group(cs[1..], withUrl)
  }

  /** The order the page shows a folder's children in: the url-less ones
      (sub-folders) first, then those with a url, each group in its original
      order. Undefined children show nothing. */
  function Listing(children: NodeList): (r: seq<ChromeNode>)
    ensures multiset(r) == multiset(ListNodes(children))
  {
    match children
    case Undefined => []
    case Nodes(cs) =>
      GroupsPartition(cs);
      Group(cs, false) + Group(cs, true)
  }

  /** Each group keeps the original order: grouping distributes over
      concatenation. */
  lemma {:induction false} GroupAppend(a: seq<ChromeNode>, b: seq<ChromeNode>, withUrl: bool)
    ensures Group(a + b, withUrl) == Group(a, withUrl) + Group(b, withUrl)
  {
    if a == [] {
      assert a + b == b;
    } else {
      assert (a + b)[0] == a[0];
      assert (a + b)[1..] == a[1..] + b;
      GroupAppend(a[1..], b, withUrl);
    }
  }

  /** The two groups together hold every child exactly once. */
  lemma {:induction false} GroupsPartition(cs: seq<ChromeNode>)
    ensures multiset(Group(cs, false)) + multiset(Group(cs, true)) == multiset(cs)
  {
    if cs != [] {
      var t := cs[1..];
      GroupsPartition(t);
      assert cs == [cs[0]] + t;
      assert multiset(cs) == multiset([cs[0]]) + multiset(t);
      if HasUrl(cs[0]) {
        assert Group(cs, true) == [cs[0]] + Group(t, true);
        assert Group(cs, false) == Group(t, false);
      } else {
        assert Group(cs, false) == [cs[0]] + Group(t, false);
        assert Group(cs, true) == Group(t, true);
      }
    }
  }

  /** The listing is a rearrangement of the children: url-less children fill
      its first part and children with a url the rest. */
  lemma ListingSpec(cs: seq<ChromeNode>)
    ensures multiset(Listing(Nodes(cs))) == multiset(cs)
    ensures var k := |Group(cs, false)|;
      && (forall i :: 0 <= i < k ==> !HasUrl(Listing(Nodes(cs))[i]))
      && (forall i :: k <= i < |Listing(Nodes(cs))| ==> HasUrl(Listing(Nodes(cs))[i]))
  {
    var folders, links := Group(cs, false), Group(cs, true);
    var l := Listing(Nodes(cs));
    assert l == folders + links;
    forall i | 0 <= i < |folders| ensures !HasUrl(l[i]) {
      assert l[i] == folders[i];
    }
    forall i | |folders| <= i < |l| ensures HasUrl(l[i]) {
      assert l[i] == links[i - |folders|];
    }
  }

  // ---------------------------------------------------------------------------
  // Rename and create

  /** In a list of children, every child with the id is replaced by `node`. */
  function ReplaceById(cs: seq<ChromeNode>, id: string, node: ChromeNode): (r: seq<ChromeNode>)
    ensures |r| == |cs|
    ensures forall i :: 0 <= i < |cs| && cs[i].id != id ==> r[i] == cs[i]
    ensures forall i :: 0 <= i < |cs| && cs[i].id == id ==> r[i] == node
    ensures node.id == id ==> forall i :: 0 <= i < |cs| ==> r[i].id == cs[i].id
  {
    seq(|cs|, i requires 0 <= i < |cs| => if cs[i].id == id then node else cs[i])
  }

  /** `children?.map(...)` replacing the child with the id: undefined children
      stay undefined. */
  function ReplaceChild(children: NodeList, id: string, node: ChromeNode): (r: NodeList)
    ensures children.Undefined? <==> r.Undefined?
    ensures children.Nodes? ==> r.nodes == ReplaceById(children.nodes, id, node)
  {
    match children
    case Undefined => Undefined
    case Nodes(cs) => Nodes(ReplaceById(cs, id, node))
  }

  /** The children after a created bookmark is added: appended after the
      existing ones, or alone when there were none defined. */
  function Appended(children: NodeList, created: ChromeNode): (r: NodeList)
    ensures r.Nodes? && |r.nodes| == |ListNodes(children)| + 1
    ensures r.nodes[..|ListNodes(children)|] == ListNodes(children)
    ensures r.nodes[|ListNodes(children)|] == created
  {
    match children
    case Undefined => Nodes([created])
    case Nodes(cs) => Nodes(cs + [created])
  }

  /** `handleChangeTitle`: the node shown takes the new title and keeps its
      id and children; the top history entry is popped, its child with the id
      is replaced by the renamed node, and it is pushed back, so the history
      keeps its length and no other entry changes. */
  function Rename(s: Nav<ChromeNode>, id: string, title: string): (r: Nav<ChromeNode>)
    ensures r.current.title == title && r.current.id == s.current.id
    ensures r.current.children == s.current.children && r.current.url == s.current.url
    ensures r.current.(title := s.current.title) == s.current
    ensures |r.history| == |s.history|
    ensures forall k :: 0 <= k < |s.history| - 1 ==> r.history[k] == s.history[k]
    ensures |s.history| > 0 ==>
      var top := s.history[|s.history| - 1];
      && r.history[|s.history| - 1].id == top.id
      && r.history[|s.history| - 1].title == top.title
      && r.history[|s.history| - 1].children == ReplaceChild(top.children, id, r.current)
      && r.history[|s.history| - 1].(children := top.children) == top
  {
    var renamed := s.current.(title := title);
    if |s.history| > 0 then
      var top := s.history[|s.history| - 1];
      Nav(renamed, s.history[..|s.history| - 1] + [top.(children := ReplaceChild(top.children, id, renamed))])
    else Nav(renamed, s.history)
  }

  /** After a rename, going back shows the parent with the renamed child in
      place: same position, new title. */
  lemma RenameSeenAfterBack(s: Nav<ChromeNode>, id: string, title: string, i: int)
    requires |s.history| > 0 && s.current.id == id
    requires s.history[|s.history| - 1].children.Nodes?
    requires 0 <= i < |s.history[|s.history| - 1].children.nodes|
    requires s.history[|s.history| - 1].children.nodes[i].id == id
    ensures Back(Rename(s, id, title)).current.children.nodes[i].title == title
    ensures Back(Rename(s, id, title)).current.children.nodes[i].id == id
    ensures Back(Rename(s, id, title)).history == Back(s).history
  {
    var r := Rename(s, id, title);
    assert r.history[..|r.history| - 1] == s.history[..|s.history| - 1];
  }

  /** A created bookmark is listed last: after every sub-folder and after
      every earlier link. */
  lemma {:induction false} CreatedListedLast(children: NodeList, created: ChromeNode)
    requires HasUrl(created)
    ensures Listing(Appended(children, created)) == Listing(children) + [created]
  {
    var cs := ListNodes(children);
    var folders, links := Group(cs, false), Group(cs, true);
    GroupAppendLink(cs, created);
    assert Appended(children, created) == Nodes(cs + [created]);
    assert Listing(children) == folders + links;
    assert Listing(Nodes(cs + [created])) == folders + (links + [created]);
  }

  /** A link added at the end joins the end of the link group only. */
  lemma GroupAppendLink(cs: seq<ChromeNode>, c: ChromeNode)
    requires HasUrl(c)
    ensures Group(cs + [c], false) == Group(cs, false)
    ensures Group(cs + [c], true) == Group(cs, true) + [c]
  {
    assert [c][1..] == [];
    GroupAppend(cs, [c], false);
    GroupAppend(cs, [c], true);
  }

  /** What the page asks the store to create. */
  datatype CreateRequest = CreateRequest(parentId: string, title: string, url: string)

  /** The request the create handler sends: a bookmark titled "New Bookmark"
      for https://www.google.com inside the current folder. */
  function NewBookmarkRequest(current: ChromeNode): (r: CreateRequest)
    ensures r.parentId == current.id
    ensures r.title == "New Bookmark" && r.url == "https://www.google.com"
  {
    CreateRequest(current.id, "New Bookmark", "https://www.google.com")
  }

  // ---------------------------------------------------------------------------
  // The page

  /** The node shown before the store's tree has arrived. */
  function InitialData(): (r: ChromeNode)
    ensures r.id == "" && r.title == "" && r.children == Nodes([]) && r.url.None?
  {
    ChromeNode("", Some(""), Some(0), None, "", Some(0), Some(0), Nodes([]))
  }

  /** The state of the legacy `Newtab` component: the node shown and the
      history array `prevData`, which its handlers mutate in place. */
  class LegacyNewtab {
    var currentData: ChromeNode
    var prevData: seq<ChromeNode>

    function State(): Nav<ChromeNode>
      reads this
    {
      Nav(currentData, prevData)
    }

    constructor ()
      ensures currentData == InitialData() && prevData == []
    {
      currentData := InitialData();
      prevData := [];
    }

    /** A click on a child: it is entered only when it has a children array
      (even an empty one); the node shown so far goes on the history. */
    method HandleFolderClick(folder: ChromeNode)
      modifies this
      ensures folder.children.Nodes? ==> State() == Open(old(State()), folder)
      ensures folder.children.Undefined? ==> State() == old(State())
    {
      if folder.children.Nodes? {
        prevData := prevData + [currentData];
        currentData := folder;
      }
    }

    /** `prevData.pop()`: the last entry leaves the array and, if there was
        one, is shown. */
    method HandleBackClick()
      modifies this
      ensures State() == Back(old(State()))
    {
      if |prevData| > 0 {
        var lastData := prevData[|prevData| - 1];
        prevData := prevData[..|prevData| - 1];
        currentData := lastData;
      }
    }

    /** A rename of `id` to `title`. */
    method HandleChangeTitle(id: string, title: string)
      modifies this
      ensures State() == Rename(old(State()), id, title)
    {
      var newCurrentData := currentData.(title := title);
      currentData := newCurrentData;
      if |prevData| > 0 {
        var lastData := prevData[|prevData| - 1];
        prevData := prevData[..|prevData| - 1];
        lastData := lastData.(children := ReplaceChild(lastData.children, id, newCurrentData));
        prevData := prevData + [lastData];
      }
    }

    /** `handleCreateBookmark` (no element of the page calls it): the request
        sent to the store, and, once the store answers with the `created`
        node, that node appended to the children shown. */
    method HandleCreateBookmark(created: ChromeNode) returns (request: CreateRequest)
      modifies this
      ensures request == NewBookmarkRequest(old(currentData))
      ensures currentData == old(currentData).(children := Appended(old(currentData.children), created))
      ensures prevData == old(prevData)
    {
      request := CreateRequest(currentData.id, "New Bookmark", "https://www.google.com");
      var children := match currentData.children
        case Nodes(cs) => Nodes(cs + [created])
        case Undefined => Nodes([created]);
      currentData := currentData.(children := children);
    }
  }
}
