/** The shapes shared by the bookmark components: the `Bookmark` record of
    `src/types/index.ts` (also the shape of the browser's raw bookmark tree
    nodes), the permission flags, and the bookmark-API calls the stores make. */
module Types {
  import opened Wrappers

  /** The optional `children` array: absent is not the same as empty, since
      the source tests `node.children` for presence only. */
  datatype Children = NoChildren | Children(items: seq<Bookmark>)

  /** One bookmark-tree node. An empty `url` (falsy) marks a folder. */
  datatype Bookmark = Bookmark(
    id: string,
    title: string,
    url: string,
    parentId: Option<string>,
    dateAdded: Option<int>,
    dateGroupModified: Option<int>,
    index: Option<int>,
    children: Children)

  /** The children of a node, or none when the array is absent. */
  function Kids(n: Bookmark): seq<Bookmark>
  {
    match n.children
    case Children(items) => items
    case NoChildren => []
  }

  datatype PermissionState = PermissionState(hasPermission: bool, isRequesting: bool)

  /** The `changes` argument of an update: the fields the edit form sends. */
  datatype BookmarkChanges = BookmarkChanges(title: Option<string>, url: Option<string>)

  /** The `destination` argument of a move. */
  datatype Destination = Destination(parentId: Option<string>, index: Option<int>)

  /** A call into the browser's bookmark or permission API, in the order issued. */
  datatype ApiCall =
    | GetTree
    | Get(id: string)
    | Create(title: string, url: string, parentId: Option<string>)
    | Update(id: string, changes: BookmarkChanges)
    | Remove(id: string)
    | Move(id: string, destination: Destination)
    | PermissionsContains
    | PermissionsRequest
}
