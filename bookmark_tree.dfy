/** The bookmark-tree normaliser of `loadBookmarks`: find the bookmarks bar,
    copy each of its children, keep the folders as the top level, and
    flatten every bookmark below them into one list. */
module BookmarkTree {
  import opened Wrappers
  import opened Types

  /** The well-known id of the bookmarks bar. */
  const BookmarksBarId: string := "1"

  // ---------------------------------------------------------------------
  // findBookmarksBar

  /** The first node with the bookmarks-bar id, searching each node before
      its children and the children before the node's later siblings. */
  function FindBookmarksBar(nodes: seq<Bookmark>): (r: Option<Bookmark>)
    ensures r.Some? ==> r.value.id == BookmarksBarId
    decreases nodes
  {
    if nodes == [] then None
    else
      var found := FindInNode(nodes[0]);
      if found.Some? then found else FindBookmarksBar(nodes[1..])
  }

  function FindInNode(n: Bookmark): (r: Option<Bookmark>)
    ensures r.Some? ==> r.value.id == BookmarksBarId
    decreases n
  {
    if n.id == BookmarksBarId then Some(n)
    else
      match n.children
      case Children(items) => FindBookmarksBar(items)
      case NoChildren => None
  }

  /** Reference definition: the nodes of a forest in pre-order. */
  function PreOrder(nodes: seq<Bookmark>): seq<Bookmark>
    decreases nodes
  {
    if nodes == [] then [] else PreOrderNode(nodes[0]) + PreOrder(nodes[1..])
  }

  function PreOrderNode(n: Bookmark): seq<Bookmark>
    decreases n
  {
    [n] + match n.children
          case Children(items) => PreOrder(items)
          case NoChildren => []
  }

  /** The first element of `s` whose id is `id`. */
  function FirstWithId(s: seq<Bookmark>, id: string): (r: Option<Bookmark>)
    ensures r.Some? ==> r.value in s && r.value.id == id
    ensures r.None? <==> forall k :: 0 <= k < |s| ==> s[k].id != id
  {
    if s == [] then None else if s[0].id == id then Some(s[0]) else FirstWithId(s[1..], id)
  }

  lemma {:induction false} FirstWithIdAppend(a: seq<Bookmark>, b: seq<Bookmark>, id: string)
    ensures FirstWithId(a + b, id) == if FirstWithId(a, id).Some? then FirstWithId(a, id) else FirstWithId(b, id)
  {
    if a != [] {
      assert (a + b)[1..] == a[1..] + b;
      FirstWithIdAppend(a[1..], b, id);
    } else {
      assert a + b == b;
    }
  }

  /** The search returns exactly the first node with id "1" in pre-order,
      and nothing when the tree has no such node. */
  lemma {:induction false} FindBookmarksBarIsFirstInPreOrder(nodes: seq<Bookmark>)
    ensures FindBookmarksBar(nodes) == FirstWithId(PreOrder(nodes), BookmarksBarId)
    decreases nodes
  {
    if nodes != [] {
      FindInNodeIsFirstInPreOrder(nodes[0]);
      FindBookmarksBarIsFirstInPreOrder(nodes[1..]);
      FirstWithIdAppend(PreOrderNode(nodes[0]), PreOrder(nodes[1..]), BookmarksBarId);
    }
  }

  lemma {:induction false} FindInNodeIsFirstInPreOrder(n: Bookmark)
    ensures FindInNode(n) == FirstWithId(PreOrderNode(n), BookmarksBarId)
    decreases n
  {
    var rest := match n.children case Children(items) => PreOrder(items) case NoChildren => [];
    assert PreOrderNode(n) == [n] + rest;
    FirstWithIdAppend([n], rest, BookmarksBarId);
    match n.children {
      case Children(items) => FindBookmarksBarIsFirstInPreOrder(items);
      case NoChildren =>
    }
  }

  // ---------------------------------------------------------------------
  // processNode

  /** The copy `processNode` makes of a raw node: a bookmark keeps its url
      and loses any children; a folder gets url "" and a children array
      holding the copy of every raw child. It never returns null. */
  function ProcessNode(n: Bookmark): (r: Bookmark)
    ensures r.id == n.id && r.title == n.title && r.url == n.url && r.index == n.index
    decreases n
  {
    if n.url != "" then
      Bookmark(n.id, n.title, n.url, n.parentId, n.dateAdded, n.dateGroupModified, n.index, NoChildren)
    else
      Bookmark(n.id, n.title, "", n.parentId, n.dateAdded, n.dateGroupModified, n.index,
               Children(match n.children
                        case Children(items) => ProcessAll(items)
                        case NoChildren => []))
  }

  /** `processNode` applied to each node of a list, in order. */
  function ProcessAll(nodes: seq<Bookmark>): (r: seq<Bookmark>)
    ensures |r| == |nodes|
    decreases nodes
  {
    if nodes == [] then [] else [ProcessNode(nodes[0])] + ProcessAll(nodes[1..])
  }

  lemma {:induction false} ProcessAllAt(nodes: seq<Bookmark>, k: nat)
    requires k < |nodes|
    ensures ProcessAll(nodes)[k] == ProcessNode(nodes[k])
  {
    if k > 0 {
      ProcessAllAt(nodes[1..], k - 1);
    }
  }

  /** Each raw child yields exactly one copy, in the same position; the copy
      keeps every field but `children`; a folder copy always has a children
      array, a bookmark copy never has one. */
  lemma ProcessNodeShape(n: Bookmark)
    ensures var r := ProcessNode(n);
      r.id == n.id && r.title == n.title && r.url == n.url && r.parentId == n.parentId &&
      r.dateAdded == n.dateAdded && r.dateGroupModified == n.dateGroupModified && r.index == n.index &&
      (n.url != "" <==> r.children.NoChildren?) &&
      (n.url == "" ==> |Kids(r)| == |Kids(n)| &&
                       forall k :: 0 <= k < |Kids(n)| ==> Kids(r)[k] == ProcessNode(Kids(n)[k]))
  {
    if n.url == "" {
      forall k | 0 <= k < |Kids(n)| ensures Kids(ProcessNode(n))[k] == ProcessNode(Kids(n)[k]) {
        ProcessAllAt(Kids(n), k);
      }
    }
  }

  /** The normalised shape: a node with a url has no children array, at
      every depth. */
  ghost predicate WellFormed(n: Bookmark)
    decreases n
  {
    (n.url != "" ==> n.children.NoChildren?) &&
    match n.children
    case Children(items) => WellFormedAll(items)
    case NoChildren => true
  }

  ghost predicate WellFormedAll(nodes: seq<Bookmark>)
    decreases nodes
  {
    nodes != [] ==> WellFormed(nodes[0]) && WellFormedAll(nodes[1..])
  }

  lemma {:induction false} ProcessNodeWellFormed(n: Bookmark)
    ensures WellFormed(ProcessNode(n))
    decreases n
  {
    match n.children {
      case Children(items) => ProcessAllWellFormed(items);
      case NoChildren =>
    }
  }

  lemma {:induction false} ProcessAllWellFormed(nodes: seq<Bookmark>)
    ensures WellFormedAll(ProcessAll(nodes))
    decreases nodes
  {
    if nodes != [] {
      ProcessNodeWellFormed(nodes[0]);
      ProcessAllWellFormed(nodes[1..]);
      assert ProcessAll(nodes)[1..] == ProcessAll(nodes[1..]);
    }
  }

  /** Copying a copy changes nothing. */
  lemma {:induction false} ProcessNodeIdempotent(n: Bookmark)
    ensures ProcessNode(ProcessNode(n)) == ProcessNode(n)
    decreases n
  {
    match n.children {
      case Children(items) => ProcessAllIdempotent(items);
      case NoChildren =>
    }
  }

  lemma {:induction false} ProcessAllIdempotent(nodes: seq<Bookmark>)
    ensures ProcessAll(ProcessAll(nodes)) == ProcessAll(nodes)
    decreases nodes
  {
    if nodes != [] {
      ProcessNodeIdempotent(nodes[0]);
      ProcessAllIdempotent(nodes[1..]);
      assert ProcessAll(nodes)[1..] == ProcessAll(nodes[1..]);
    }
  }

  // ---------------------------------------------------------------------
  // rootFolders

  /** Reference definition of the top level: the copies of the url-less
      children of the bar, in source order (bare bookmarks are dropped). */
  function FoldersOf(barChildren: seq<Bookmark>): (r: seq<Bookmark>)
    ensures |r| <= |barChildren|
    ensures forall f :: f in r ==> f.url == ""
  {
    if barChildren == [] then []
    else (if barChildren[0].url == "" then [ProcessNode(barChildren[0])] else []) + FoldersOf(barChildren[1..])
  }

  lemma {:induction false} FoldersOfAppend(a: seq<Bookmark>, b: seq<Bookmark>)
    ensures FoldersOf(a + b) == FoldersOf(a) + FoldersOf(b)
  {
    if a == [] {
      assert a + b == b;
    } else {
      assert (a + b)[1..] == a[1..] + b;
      FoldersOfAppend(a[1..], b);
    }
  }

  /** The `folders` of a loaded tree: nothing when the bar is missing or has
      no children array. */
  function RootFolders(tree: seq<Bookmark>): seq<Bookmark>
  {
    match FindBookmarksBar(tree)
    case None => []
    case Some(bar) =>
      match bar.children
      case Children(items) => FoldersOf(items)
      case NoChildren => []
  }

  /** The loop that fills `rootFolders`: copy each child of the bar and push
      the copy when it has no url. */
  method CollectRootFolders(barChildren: seq<Bookmark>) returns (rootFolders: seq<Bookmark>)
    ensures rootFolders == FoldersOf(barChildren)
  {
    rootFolders := [];
    var i := 0;
    while i < |barChildren|
      invariant 0 <= i <= |barChildren|
      invariant rootFolders == FoldersOf(barChildren[..i])
    {
      var processed := ProcessNode(barChildren[i]);
      assert barChildren[..i + 1] == barChildren[..i] + [barChildren[i]];
      FoldersOfAppend(barChildren[..i], [barChildren[i]]);
      assert FoldersOf([barChildren[i]]) == if barChildren[i].url == "" then [processed] else [] by {
        assert [barChildren[i]][1..] == [];
      }
      if processed.url == "" {
        rootFolders := rootFolders + [processed];
      }
      i := i + 1;
    }
    assert barChildren[..i] == barChildren;
  }

  /** Every top-level folder is a normalised copy, so WellFormed. */
  lemma {:induction false} FoldersOfWellFormed(barChildren: seq<Bookmark>)
    ensures WellFormedAll(FoldersOf(barChildren))
  {
    if barChildren != [] {
      FoldersOfWellFormed(barChildren[1..]);
      if barChildren[0].url == "" {
        ProcessNodeWellFormed(barChildren[0]);
        assert FoldersOf(barChildren)[1..] == FoldersOf(barChildren[1..]);
      } else {
        assert FoldersOf(barChildren) == FoldersOf(barChildren[1..]);
      }
    }
  }

  /** The top level is exactly the folder children of the first pre-order
      node with id "1" (copied, in order); empty when there is none. */
  lemma RootFoldersOfBar(tree: seq<Bookmark>)
    ensures var bar := FirstWithId(PreOrder(tree), BookmarksBarId);
      RootFolders(tree) == if bar.None? then [] else FoldersOf(Kids(bar.value))
    ensures WellFormedAll(RootFolders(tree))
  {
    FindBookmarksBarIsFirstInPreOrder(tree);
    if FindBookmarksBar(tree).Some? {
      FoldersOfWellFormed(Kids(FindBookmarksBar(tree).value));
    }
  }

  // ---------------------------------------------------------------------
  // flattenBookmarks

  /** `flattenBookmarks(folders)`: for each folder, each child with a url is
      collected and each child without one is searched in turn. */
  function FlattenFolders(folders: seq<Bookmark>): seq<Bookmark>
    decreases folders
  {
    if folders == [] then []
    else
      (match folders[0].children
       case Children(items) => FlattenChildren(items)
       case NoChildren => []) + FlattenFolders(folders[1..])
  }

  function FlattenChildren(children: seq<Bookmark>): seq<Bookmark>
    decreases children
  {
    if children == [] then []
    else
      (if children[0].url != "" then [children[0]]
       else match children[0].children
            case Children(items) => FlattenChildren(items)
            case NoChildren => []) + FlattenChildren(children[1..])
  }

  /** What one child contributes to the flat list. */
  function FlattenChild(child: Bookmark): seq<Bookmark>
  {
    FlattenChildren([child])
  }

  lemma {:induction false} FlattenChildrenAppend(a: seq<Bookmark>, b: seq<Bookmark>)
    ensures FlattenChildren(a + b) == FlattenChildren(a) + FlattenChildren(b)
  {
    if a == [] {
      assert a + b == b;
    } else {
      assert (a + b)[1..] == a[1..] + b;
      assert (a + b)[0] == a[0];
      FlattenChildrenAppend(a[1..], b);
    }
  }

  lemma {:induction false} FlattenFoldersAppend(a: seq<Bookmark>, b: seq<Bookmark>)
    ensures FlattenFolders(a + b) == FlattenFolders(a) + FlattenFolders(b)
  {
    if a == [] {
      assert a + b == b;
    } else {
      assert (a + b)[1..] == a[1..] + b;
      assert (a + b)[0] == a[0];
      FlattenFoldersAppend(a[1..], b);
    }
  }

  /** Only nodes with a url reach the flat list, whatever the input. */
  lemma {:induction false} FlattenChildrenHasUrls(children: seq<Bookmark>)
    ensures forall b :: b in FlattenChildren(children) ==> b.url != ""
    decreases children
  {
    if children != [] {
      FlattenChildrenHasUrls(children[1..]);
      match children[0].children {
        case Children(items) => FlattenChildrenHasUrls(items);
        case NoChildren =>
      }
    }
  }

  lemma {:induction false} FlattenFoldersHasUrls(folders: seq<Bookmark>)
    ensures forall b :: b in FlattenFolders(folders) ==> b.url != ""
  {
    if folders != [] {
      FlattenFoldersHasUrls(folders[1..]);
      FlattenChildrenHasUrls(Kids(folders[0]));
    }
  }

  /** The nodes of `s` that carry a url, in order. */
  function UrlNodes(s: seq<Bookmark>): (r: seq<Bookmark>)
    ensures forall b :: b in r <==> b in s && b.url != ""
  {
    if s == [] then [] else (if s[0].url != "" then [s[0]] else []) + UrlNodes(s[1..])
  }

  lemma {:induction false} UrlNodesAppend(a: seq<Bookmark>, b: seq<Bookmark>)
    ensures UrlNodes(a + b) == UrlNodes(a) + UrlNodes(b)
  {
    if a == [] {
      assert a + b == b;
    } else {
      assert (a + b)[1..] == a[1..] + b;
      UrlNodesAppend(a[1..], b);
    }
  }

  /** On normalised data the flat list is exactly the url-bearing nodes
      below the given children, in pre-order. */
  lemma {:induction false} FlattenChildrenIsUrlPreOrder(children: seq<Bookmark>)
    requires WellFormedAll(children)
    ensures FlattenChildren(children) == UrlNodes(PreOrder(children))
    decreases children
  {
    if children != [] {
      var c := children[0];
      FlattenChildrenIsUrlPreOrder(children[1..]);
      var below := match c.children case Children(items) => PreOrder(items) case NoChildren => [];
      assert PreOrderNode(c) == [c] + below;
      UrlNodesAppend(PreOrderNode(c), PreOrder(children[1..]));
      UrlNodesAppend([c], below);
      assert UrlNodes([c]) == if c.url != "" then [c] else [] by {
        assert [c][1..] == [];
      }
      match c.children {
        case Children(items) =>
          FlattenChildrenIsUrlPreOrder(items);
        case NoChildren =>
      }
    }
  }

  /** Every node below the top-level folders, in pre-order. */
  function Descendants(folders: seq<Bookmark>): seq<Bookmark>
  {
    if folders == [] then [] else PreOrder(Kids(folders[0])) + Descendants(folders[1..])
  }

  /** `bookmarks` is the pre-order list of every url-bearing descendant of
      the folders (on normalised folders). */
  lemma {:induction false} FlattenFoldersIsUrlDescendants(folders: seq<Bookmark>)
    requires WellFormedAll(folders)
    ensures FlattenFolders(folders) == UrlNodes(Descendants(folders))
  {
    if folders != [] {
      FlattenFoldersIsUrlDescendants(folders[1..]);
      UrlNodesAppend(PreOrder(Kids(folders[0])), Descendants(folders[1..]));
      match folders[0].children {
        case Children(items) => FlattenChildrenIsUrlPreOrder(items);
        case NoChildren =>
      }
    }
  }

  /** The size of a forest, for the termination of the recursive flatten. */
  ghost function ForestSize(nodes: seq<Bookmark>): nat
    decreases nodes
  {
    if nodes == [] then 0 else NodeSize(nodes[0]) + ForestSize(nodes[1..])
  }

  ghost function NodeSize(n: Bookmark): nat
    decreases n
  {
    1 + match n.children
        case Children(items) => ForestSize(items)
        case NoChildren => 0
  }

  lemma {:induction false} NodeSizeBelowForest(nodes: seq<Bookmark>, k: nat)
    requires k < |nodes|
    ensures NodeSize(nodes[k]) <= ForestSize(nodes)
  {
    if k > 0 {
      NodeSizeBelowForest(nodes[1..], k - 1);
    }
  }

  lemma FlattenSingleChild(c: Bookmark)
    ensures FlattenChildren([c]) == if c.url != "" then [c] else FlattenChildren(Kids(c))
    ensures FlattenFolders([c]) == FlattenChildren(Kids(c))
    ensures ForestSize([c]) == NodeSize(c)
  {
    assert [c][1..] == [];
  }

  lemma ConcatAssoc(a: seq<Bookmark>, b: seq<Bookmark>, c: seq<Bookmark>)
    ensures (a + b) + c == a + (b + c)
  {
  }

  /** The flat list of a suffix starts with its first child's part. */
  lemma FlattenChildrenSuffix(children: seq<Bookmark>, j: nat)
    requires j < |children|
    ensures FlattenChildren(children[j..]) == FlattenChildren([children[j]]) + FlattenChildren(children[j + 1..])
  {
    assert children[j..] == [children[j]] + children[j + 1..];
    FlattenChildrenAppend([children[j]], children[j + 1..]);
  }

  lemma FlattenFoldersSuffix(folders: seq<Bookmark>, i: nat)
    requires i < |folders|
    ensures FlattenFolders(folders[i..]) == FlattenFolders([folders[i]]) + FlattenFolders(folders[i + 1..])
  {
    assert folders[i..] == [folders[i]] + folders[i + 1..];
    FlattenFoldersAppend([folders[i]], folders[i + 1..]);
  }

  /** The recursive `flattenBookmarks` closure: it pushes onto a shared
      accumulator, passed here in and out. */
  method FlattenInto(folders: seq<Bookmark>, acc: seq<Bookmark>) returns (all: seq<Bookmark>)
    ensures all == acc + FlattenFolders(folders)
    decreases ForestSize(folders), 0
  {
    all := acc;
    var i := 0;
    while i < |folders|
      invariant 0 <= i <= |folders|
      invariant all + FlattenFolders(folders[i..]) == acc + FlattenFolders(folders)
    {
      var folder := folders[i];
      FlattenSingleChild(folder);
      FlattenFoldersSuffix(folders, i);
      ghost var before := all;
      if folder.children.Children? {
        NodeSizeBelowForest(folders, i);
        all := FlattenChildrenInto(folder.children.items, all);
      }
      assert all == before + FlattenFolders([folder]);
      ConcatAssoc(before, FlattenFolders([folder]), FlattenFolders(folders[i + 1..]));
      i := i + 1;
    }
  }

  /** The inner `folder.children.forEach` of `flattenBookmarks`: push each
      child with a url, recurse into each child without one that has a
      children array. */
  method FlattenChildrenInto(children: seq<Bookmark>, acc: seq<Bookmark>) returns (all: seq<Bookmark>)
    ensures all == acc + FlattenChildren(children)
    decreases ForestSize(children), 1
  {
    all := acc;
    var j := 0;
    while j < |children|
      invariant 0 <= j <= |children|
      invariant all + FlattenChildren(children[j..]) == acc + FlattenChildren(children)
    {
      var child := children[j];
      FlattenSingleChild(child);
      FlattenChildrenSuffix(children, j);
      ghost var before := all;
      if child.url != "" {
        all := all + [child];
      } else if child.children.Children? {
        NodeSizeBelowForest(children, j);
        all := FlattenInto([child], all);
      }
      assert all == before + FlattenChildren([child]);
      ConcatAssoc(before, FlattenChildren([child]), FlattenChildren(children[j + 1..]));
      j := j + 1;
    }
  }

  /** `flattenBookmarks(rootFolders)` into a fresh `allBookmarks`. */
  method FlattenBookmarks(folders: seq<Bookmark>) returns (allBookmarks: seq<Bookmark>)
    ensures allBookmarks == FlattenFolders(folders)
    ensures forall b :: b in allBookmarks ==> b.url != ""
  {
    allBookmarks := FlattenInto(folders, []);
    FlattenFoldersHasUrls(folders);
  }

  /** The whole normalisation of a fetched tree. */
  method Normalize(tree: seq<Bookmark>) returns (folders: seq<Bookmark>, bookmarks: seq<Bookmark>)
    ensures folders == RootFolders(tree)
    ensures bookmarks == FlattenFolders(RootFolders(tree))
  {
    folders := [];
    var bar := FindBookmarksBar(tree);
    if bar.Some? && bar.value.children.Children? {
      folders := CollectRootFolders(bar.value.children.items);
    }
    bookmarks := FlattenBookmarks(folders);
  }
}
