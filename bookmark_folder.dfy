/** One folder section of the new-tab page: the cards it shows, the count
    in its header, and its collapse toggle. */
module BookmarkFolder {
  import opened Types
  import opened BookmarkTree

  /** `folder.children?.filter(item => item.url) || []`: the direct children
      that carry a url, in order; nested folders are not shown. */
  function DisplayedBookmarks(folder: Bookmark): (r: seq<Bookmark>)
    ensures forall b :: b in r <==> b in Kids(folder) && b.url != ""
    ensures folder.children.NoChildren? ==> r == []
  {
    UrlNodes(Kids(folder))
  }

  /** `a` is `b` with some elements left out, the rest in the same order. */
  ghost predicate IsSubsequence(a: seq<Bookmark>, b: seq<Bookmark>)
    decreases |b|
  {
    if a == [] then true
    else if b == [] then false
    else (a[0] == b[0] && IsSubsequence(a[1..], b[1..])) || IsSubsequence(a, b[1..])
  }

  /** The filter keeps the order of the children. */
  lemma {:induction false} UrlNodesIsSubsequence(s: seq<Bookmark>)
    ensures IsSubsequence(UrlNodes(s), s)
  {
    if s != [] {
      UrlNodesIsSubsequence(s[1..]);
      if s[0].url != "" {
        assert UrlNodes(s)[1..] == UrlNodes(s[1..]);
      } else {
        assert UrlNodes(s) == UrlNodes(s[1..]);
      }
    }
  }

  /** The number of url-bearing entries of `s`. */
  function UrlCount(s: seq<Bookmark>): nat
  {
    if s == [] then 0 else (if s[0].url != "" then 1 else 0) + UrlCount(s[1..])
  }

  lemma {:induction false} UrlNodesLength(s: seq<Bookmark>)
    ensures |UrlNodes(s)| == UrlCount(s)
  {
    if s != [] {
      UrlNodesLength(s[1..]);
    }
  }

  /** The displayed cards keep the children's order, and there are as many
      as there are url-bearing children. */
  lemma DisplayedInOrder(folder: Bookmark)
    ensures IsSubsequence(DisplayedBookmarks(folder), Kids(folder))
    ensures |DisplayedBookmarks(folder)| == UrlCount(Kids(folder))
  {
    UrlNodesIsSubsequence(Kids(folder));
    UrlNodesLength(Kids(folder));
  }

  /** What the body of an expanded or collapsed section shows. */
  datatype FolderBody = Collapsed | EmptyMessage | Cards(items: seq<Bookmark>)

  /** The header count (`{bookmarks.length} 个书签`), as a number. */
  function CountLabel(folder: Bookmark): nat
  {
    |DisplayedBookmarks(folder)|
  }

  /** The section body: nothing when collapsed, the empty-folder message
      when there is nothing to show, the cards otherwise. */
  function Body(folder: Bookmark, isExpanded: bool): (r: FolderBody)
    ensures r.Collapsed? <==> !isExpanded
    ensures r.EmptyMessage? <==> isExpanded && CountLabel(folder) == 0
    ensures r.Cards? ==> r.items == DisplayedBookmarks(folder) && |r.items| == CountLabel(folder) > 0
  {
    if !isExpanded then Collapsed
    else if |DisplayedBookmarks(folder)| == 0 then EmptyMessage
    else Cards(DisplayedBookmarks(folder))
  }

  /** A folder with only sub-folders shows the empty message; nested
      folders never appear as cards. */
  lemma OnlySubfoldersShowsEmpty(folder: Bookmark)
    requires forall b :: b in Kids(folder) ==> b.url == ""
    ensures Body(folder, true) == EmptyMessage
  {
    NoUrlNodes(Kids(folder));
  }

  lemma {:induction false} NoUrlNodes(s: seq<Bookmark>)
    requires forall b :: b in s ==> b.url == ""
    ensures UrlNodes(s) == []
  {
    if s != [] {
      assert s[0] in s;
      NoUrlNodes(s[1..]);
    }
  }

  /** The `isExpanded` cell of one section. */
  class FolderView {
    var isExpanded: bool

    constructor()
      ensures isExpanded
    {
      isExpanded := true;
    }

    method ToggleExpanded()
      modifies this
      ensures isExpanded == !old(isExpanded)
    {
      isExpanded := !isExpanded;
    }
  }
}
