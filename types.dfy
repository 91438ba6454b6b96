/** The bookmark data model: the node shape the browser's bookmark store hands
    out, the page's own two-variant view model, and the converter between them. */
module Types {

  import opened Wrappers

  /** A node of the browser's bookmark tree, as the store returns it: every
      field except `id` and `title` may be undefined. */
  datatype ChromeNode = ChromeNode(
    id: string,
    parentId: Option<string>,
    index: Option<int>,
    url: Option<string>,
    title: string,
    dateAdded: Option<int>,
    dateGroupModified: Option<int>,
    children: NodeList)

  /** An optional children array of a store node. (A dedicated datatype rather
      than `Option` so that recursion through it is seen to terminate.) */
  datatype NodeList = Undefined | Nodes(nodes: seq<ChromeNode>)

  /** The optional children array a Bookmark view item may keep. */
  datatype ItemList = Absent | Items(items: seq<Item>)

  /** The page's view of a node: a Bookmark (it has a url) or a Folder (it has
      a children list). The numeric fields are always defined after conversion.
      A Bookmark keeps whatever children the store node carried, in `nested`. */
  datatype Item =
    | Bookmark(id: string, title: string, url: string, nested: ItemList,
               parentId: Option<string>, dateAdded: int, dateGroupModified: int, index: int)
    | Folder(id: string, title: string, children: seq<Item>,
             parentId: Option<string>, dateAdded: int, dateGroupModified: int, index: int)

  /** The url field is truthy: present and not the empty string. */
  predicate HasUrl(n: ChromeNode)
  {
    n.url.Some? && n.url.value != ""
  }

  /** `x || 0` for an optional number: an undefined (or zero) field reads as 0. */
  function OrZero(x: Option<int>): (r: int)
    ensures x.None? ==> r == 0
    ensures x.Some? ==> r == x.value
  {
    x.GetOr(0)
  }

  /** An optional children array, undefined read as empty (`children || []`). */
  function ListNodes(l: NodeList): seq<ChromeNode>
  {
    if l.Nodes? then l.nodes else []
  }

  /** `convertToBookmark`: a node whose url is truthy becomes a Bookmark with
      that url, any other node a Folder; identity fields are copied, numeric
      fields default to 0, and children are converted one by one, in order. */
  function Convert(n: ChromeNode): (r: Item)
    decreases n, 1
    ensures r.id == n.id && r.title == n.title && r.parentId == n.parentId
    ensures r.dateAdded == OrZero(n.dateAdded)
    ensures r.dateGroupModified == OrZero(n.dateGroupModified)
    ensures r.index == OrZero(n.index)
    ensures r.Bookmark? <==> HasUrl(n)
    ensures r.Bookmark? ==> n.url == Some(r.url) && r.url != ""
    ensures r.Bookmark? ==> (r.nested.Items? <==> n.children.Nodes?)
    ensures r.Bookmark? && r.nested.Items? ==> |r.nested.items| == |n.children.nodes|
    ensures r.Folder? ==> |r.children| == |ListNodes(n.children)|
  {
    if HasUrl(n) then
      Bookmark(n.id, n.title, n.url.value,
               if n.children.Nodes? then Items(ConvertAll(n.children.nodes)) else Absent,
               n.parentId, OrZero(n.dateAdded), OrZero(n.dateGroupModified), OrZero(n.index))
    else
      Folder(n.id, n.title,
             if n.children.Nodes? then ConvertAll(n.children.nodes) else [],
             n.parentId, OrZero(n.dateAdded), OrZero(n.dateGroupModified), OrZero(n.index))
  }

  /** `children.map(convertToBookmark)`: output element i is the conversion of
      input element i. */
  function ConvertAll(cs: seq<ChromeNode>): (r: seq<Item>)
    decreases cs, 0
    ensures |r| == |cs|
    ensures forall i :: 0 <= i < |cs| ==> r[i] == Convert(cs[i])
  {
    if cs == [] then [] else [Convert(cs[0])] + ConvertAll(cs[1..])
  }

  /** Output child i of a converted node is the conversion of input child i,
      for a Folder and for a Bookmark that carried children alike. */
  lemma ConvertChildren(n: ChromeNode, i: int)
    requires 0 <= i < |ListNodes(n.children)|
    ensures Convert(n).Folder? ==> Convert(n).children[i] == Convert(ListNodes(n.children)[i])
    ensures Convert(n).Bookmark? ==> Convert(n).nested.items[i] == Convert(ListNodes(n.children)[i])
  {
  }

  // ---------------------------------------------------------------------------
  // Node counts

  /** Number of nodes in a store tree. */
  function NodeCount(n: ChromeNode): nat
    decreases n, 1
  {
    1 + (if n.children.Nodes? then NodesCount(n.children.nodes) else 0)
  }

  function NodesCount(cs: seq<ChromeNode>): nat
    decreases cs, 0
  {
    if cs == [] then 0 else NodeCount(cs[0]) + NodesCount(cs[1..])
  }

  /** Number of nodes in a view tree. */
  function Size(it: Item): nat
    decreases it, 1
  {
    1 + (if it.Folder? then SizeAll(it.children)
         else if it.nested.Items? then SizeAll(it.nested.items) else 0)
  }

  function SizeAll(items: seq<Item>): nat
    decreases items, 0
  {
    if items == [] then 0 else Size(items[0]) + SizeAll(items[1..])
  }

  /** Conversion neither drops nor adds a node. */
  lemma {:induction false} ConvertPreservesCount(n: ChromeNode)
    decreases n, 1
    ensures Size(Convert(n)) == NodeCount(n)
  {
    if n.children.Nodes? {
      ConvertAllPreservesCount(n.children.nodes);
    }
  }

  lemma {:induction false} ConvertAllPreservesCount(cs: seq<ChromeNode>)
    decreases cs, 0
    ensures SizeAll(ConvertAll(cs)) == NodesCount(cs)
  {
    if cs != [] {
      ConvertPreservesCount(cs[0]);
      ConvertAllPreservesCount(cs[1..]);
      assert ConvertAll(cs)[1..] == ConvertAll(cs[1..]);
    }
  }
}
